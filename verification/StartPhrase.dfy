/**
 Waiting for a start phrase: StartAgentCommand and the two goroutines that read the command's stdout
 and stderr, sharing a channel of one slot (agents/command_handler.go).
 */
module StartPhrase {
  import opened Prelude

  datatype Side = Stdout | Stderr

  datatype Pc = Reading | Sending(found: bool) | Gone

  /** A pipe's complete lines, how many were read, whether the phrase is still looked for. */
  datatype Reader = Reader(lines: seq<string>, read: nat, checking: bool, pc: Pc)

  datatype Starter = Waiting | Succeeded | ExitedEarly | TimedOut

  datatype State = State(
    phrase: string,
    done: bool,              // the context of the command
    channel: seq<bool>,
    starter: Starter,
    readers: map<Side, Reader>)

  datatype Event =
    | ReadLine(side: Side)
    | ReadEnd(side: Side)    // end of file, or an error, possibly amid a line
    | Send(side: Side, found: bool)
    | Quit(side: Side)
    | Cancel
    | Receive(found: bool)
    | Timeout

  ghost predicate Contains(line: string, phrase: string) {
    exists i :: 0 <= i <= |line| - |phrase| && line[i..][..|phrase|] == phrase
  }

  function Initial(phrase: string, stdout: seq<string>, stderr: seq<string>): State {
    State(phrase, false, if phrase == "" then [true] else [], Waiting,
          map[Stdout := Reader(stdout, 0, phrase != "", Reading), Stderr := Reader(stderr, 0, phrase != "", Reading)])
  }

  predicate At(s: State, side: Side, pc: Pc) {
    side in s.readers && s.readers[side].pc == pc
  }

  predicate Enabled(s: State, e: Event) {
    match e
    case ReadLine(side) => At(s, side, Reading) && s.readers[side].read < |s.readers[side].lines|
    case ReadEnd(side) => At(s, side, Reading)
    case Send(side, found) => At(s, side, Sending(found)) && s.channel == []
    case Quit(side) => At(s, side, Reading) && s.done
    case Cancel => true
    case Receive(found) => s.starter == Waiting && s.channel == [found]
    case Timeout => s.starter == Waiting
  }

  ghost function Apply(s: State, e: Event): State
    requires Enabled(s, e)
  {
    match e
    case ReadLine(side) =>
      var r := s.readers[side];
      var hit := r.checking && Contains(r.lines[r.read], s.phrase);
      s.(readers := s.readers[side := r.(read := r.read + 1, pc := if hit then Sending(true) else Reading)])
    case ReadEnd(side) => s.(readers := s.readers[side := s.readers[side].(pc := Sending(false))])
    case Send(side, found) =>
      var r := s.readers[side];
      s.(channel := [found],
         readers := s.readers[side := if found then r.(checking := false, pc := Reading) else r.(pc := Gone)])
    case Quit(side) => s.(readers := s.readers[side := s.readers[side].(pc := Gone)])
    case Cancel => s.(done := true)
    case Receive(found) => s.(channel := [], starter := if found then Succeeded else ExitedEarly)
    case Timeout => s.(starter := TimedOut)
  }

  ghost function Exec(s: State, es: seq<Event>): Option<State> {
    if es == [] then Some(s)
    else
      var t := Exec(s, es[..|es| - 1]);
      var e := es[|es| - 1];
      if t.Some? && Enabled(t.value, e) then Some(Apply(t.value, e)) else None
  }

  /** Some line already read from one of the pipes contained the phrase. */
  ghost predicate Seen(s: State) {
    exists side: Side, i: nat :: side in s.readers && ReadWithPhrase(s.readers[side], i, s.phrase)
  }

  ghost predicate ReadWithPhrase(r: Reader, i: nat, phrase: string) {
    i < r.read && i < |r.lines| && Contains(r.lines[i], phrase)
  }

  ghost predicate Sound(s: State) {
    && s.readers.Keys == {Stdout, Stderr}
    && |s.channel| <= 1
    && (forall side | side in s.readers && s.readers[side].checking :: s.phrase != "")
    && ((exists side :: At(s, side, Sending(true))) || true in s.channel || s.starter == Succeeded ==>
          s.phrase == "" || Seen(s))
    && (s.phrase == "" ==> s.starter != ExitedEarly && (s.starter == Waiting ==> s.channel == [true]))
  }

  lemma SoundStep(s: State, e: Event)
    requires Sound(s) && Enabled(s, e)
    ensures Sound(Apply(s, e))
  {
    var t := Apply(s, e);
    if Seen(s) {
      var side: Side, i: nat :| side in s.readers && ReadWithPhrase(s.readers[side], i, s.phrase);
      assert ReadWithPhrase(t.readers[side], i, t.phrase);
    }
    if e.ReadLine? && At(t, e.side, Sending(true)) {
      assert ReadWithPhrase(t.readers[e.side], s.readers[e.side].read, t.phrase);
    }
    forall side | At(t, side, Sending(true)) && !(e.ReadLine? && e.side == side)
      ensures At(s, side, Sending(true))
    {
    }
  }

  lemma {:induction false} AlwaysSound(phrase: string, stdout: seq<string>, stderr: seq<string>, es: seq<Event>)
    requires Exec(Initial(phrase, stdout, stderr), es).Some?
    ensures Sound(Exec(Initial(phrase, stdout, stderr), es).value)
    ensures var s := Exec(Initial(phrase, stdout, stderr), es).value;
            s.phrase == phrase && s.readers[Stdout].lines == stdout && s.readers[Stderr].lines == stderr
  {
    if es != [] {
      AlwaysSound(phrase, stdout, stderr, es[..|es| - 1]);
      SoundStep(Exec(Initial(phrase, stdout, stderr), es[..|es| - 1]).value, es[|es| - 1]);
    }
  }

  /**
   However the two readers interleave, a start succeeds only if the phrase is empty or some line of
   stdout or stderr contained it, and with an empty phrase it never reports an early exit.
   */
  lemma StartIsSound(phrase: string, stdout: seq<string>, stderr: seq<string>, es: seq<Event>)
    requires Exec(Initial(phrase, stdout, stderr), es).Some?
    ensures var s := Exec(Initial(phrase, stdout, stderr), es).value;
            && (s.starter == Succeeded ==>
                  phrase == "" || exists line :: (line in stdout || line in stderr) && Contains(line, phrase))
            && (phrase == "" ==> s.starter != ExitedEarly)
  {
    AlwaysSound(phrase, stdout, stderr, es);
    var s := Exec(Initial(phrase, stdout, stderr), es).value;
    if s.starter == Succeeded && phrase != "" {
      var side: Side, i: nat :| side in s.readers && ReadWithPhrase(s.readers[side], i, s.phrase);
      var line := s.readers[side].lines[i];
      assert (line in stdout || line in stderr) && Contains(line, phrase);
    }
  }

  // ---------------------------------------------------------------- what each reader sends

  function Sent(es: seq<Event>, side: Side): seq<bool> {
    if es == [] then []
    else
      var e := es[|es| - 1];
      Sent(es[..|es| - 1], side) + (if e.Send? && e.side == side then [e.found] else [])
  }

  /** A reader that still checks has sent nothing; one that is gone may have sent its false. */
  ghost predicate SentSoFar(r: Reader, sent: seq<bool>) {
    && (r.checking ==> sent == [] || (sent == [false] && r.pc == Gone))
    && (r.pc == Sending(true) ==> r.checking)
    && (r.pc != Gone ==> sent == [] || sent == [true])
    && sent in {[], [true], [false], [true, false]}
  }

  /** Each reader sends at most one true, then at most one false. */
  lemma {:induction false} ReaderSends(phrase: string, stdout: seq<string>, stderr: seq<string>, es: seq<Event>, side: Side)
    requires Exec(Initial(phrase, stdout, stderr), es).Some?
    ensures var s := Exec(Initial(phrase, stdout, stderr), es).value;
            side in s.readers && SentSoFar(s.readers[side], Sent(es, side))
  {
    if es != [] {
      var front, e := es[..|es| - 1], es[|es| - 1];
      ReaderSends(phrase, stdout, stderr, front, side);
      if e.Send? && e.side == side {
        var sent := Sent(front, side);
        assert sent == [] || sent == [true];
        assert [] + [e.found] == [e.found] && [true] + [false] == [true, false];
      } else {
        assert Sent(es, side) == Sent(front, side);
      }
    }
  }

  function SentInAll(es: seq<Event>): nat {
    Count(es, (e: Event) => e.Send?)
  }

  /**
   Once the start has returned nobody receives any more, so at most one more value can be sent: when
   both pipes end after that, one reader stays blocked on its send.
   */
  lemma {:induction false} OneSendAfterReturn(s: State, es: seq<Event>)
    requires Exec(s, es).Some? && s.starter != Waiting && |s.channel| <= 1
    ensures var t := Exec(s, es).value;
            t.starter == s.starter && |t.channel| == |s.channel| + SentInAll(es) && |t.channel| <= 1
  {
    if es != [] {
      OneSendAfterReturn(s, es[..|es| - 1]);
    }
  }
  // ---------------------------------------------------------------- the phrase is recognised

  lemma ContainsExactlyWhen(line: string, phrase: string)
    ensures Contains(line, phrase) <==> exists pre, post :: line == pre + phrase + post
  {
    if Contains(line, phrase) {
      var i :| 0 <= i <= |line| - |phrase| && line[i..][..|phrase|] == phrase;
      assert line == line[..i] + phrase + line[i + |phrase|..];
    }
    if pre, post :| line == pre + phrase + post {
      assert line[|pre|..][..|phrase|] == phrase;
    }
  }

  ghost predicate NoneOf(lines: seq<string>, phrase: string) {
    forall i | 0 <= i < |lines| :: !Contains(lines[i], phrase)
  }

  /** A reader looks for the phrase until it has met it, and is about to say so right after. */
  ghost predicate Attentive(r: Reader, phrase: string) {
    && r.read <= |r.lines|
    && if r.pc == Sending(true)
       then r.checking && r.read > 0 && Contains(r.lines[r.read - 1], phrase) && NoneOf(r.lines[..r.read - 1], phrase)
       else r.checking <==> NoneOf(r.lines[..r.read], phrase)
  }

  lemma ReadOne(r: Reader, phrase: string)
    requires Attentive(r, phrase) && r.pc == Reading && r.read < |r.lines|
    ensures NoneOf(r.lines[..r.read + 1], phrase) <==> r.checking && !Contains(r.lines[r.read], phrase)
  {
    assert r.lines[..r.read + 1] == r.lines[..r.read] + [r.lines[r.read]];
    assert forall i | 0 <= i < r.read :: r.lines[..r.read + 1][i] == r.lines[..r.read][i];
  }

  lemma AttentiveStep(s: State, e: Event, side: Side)
    requires side in s.readers && Attentive(s.readers[side], s.phrase) && Enabled(s, e)
    ensures side in Apply(s, e).readers && Attentive(Apply(s, e).readers[side], s.phrase)
  {
    var r := s.readers[side];
    if e == ReadLine(side) {
      ReadOne(r, s.phrase);
      assert r.lines[..r.read + 1][..r.read] == r.lines[..r.read];
    } else if e == Send(side, true) {
      assert r.lines[..r.read][r.read - 1] == r.lines[r.read - 1];
    }
  }

  lemma {:induction false} AlwaysAttentive(phrase: string, stdout: seq<string>, stderr: seq<string>, es: seq<Event>, side: Side)
    requires phrase != "" && Exec(Initial(phrase, stdout, stderr), es).Some?
    ensures var s := Exec(Initial(phrase, stdout, stderr), es).value;
            s.phrase == phrase && side in s.readers && Attentive(s.readers[side], phrase)
  {
    if es != [] {
      AlwaysAttentive(phrase, stdout, stderr, es[..|es| - 1], side);
      AttentiveStep(Exec(Initial(phrase, stdout, stderr), es[..|es| - 1]).value, es[|es| - 1], side);
    }
  }

  /** A reader that meets the phrase anywhere in a line, for the first time, goes on to send true; otherwise it reads on. */
  lemma HitIsSent(phrase: string, stdout: seq<string>, stderr: seq<string>, es: seq<Event>, side: Side)
    requires phrase != "" && Exec(Initial(phrase, stdout, stderr), es + [ReadLine(side)]).Some?
    ensures var s := Exec(Initial(phrase, stdout, stderr), es).value;
            var r := s.readers[side];
            Exec(Initial(phrase, stdout, stderr), es).Some? && side in s.readers && r.read < |r.lines|
            && Exec(Initial(phrase, stdout, stderr), es + [ReadLine(side)]).value.readers[side].pc ==
               if NoneOf(r.lines[..r.read], phrase) && exists pre, post :: r.lines[r.read] == pre + phrase + post
               then Sending(true) else Reading
  {
    assert (es + [ReadLine(side)])[..|es|] == es;
    AlwaysAttentive(phrase, stdout, stderr, es, side);
    var r := Exec(Initial(phrase, stdout, stderr), es).value.readers[side];
    ContainsExactlyWhen(r.lines[r.read], phrase);
  }

  // ---------------------------------------------------------------- what an early exit means

  /** A reader came to the end of its pipe and said so, and none of the lines it read had the phrase. */
  ghost predicate EndedWithout(s: State, es: seq<Event>, side: Side) {
    side in s.readers && Sent(es, side) == [false] && At(s, side, Gone)
    && s.readers[side].read <= |s.readers[side].lines| && NoneOf(s.readers[side].lines[..s.readers[side].read], s.phrase)
  }

  ghost predicate FirstWord(s: State, es: seq<Event>) {
    && (forall side | side in s.readers && Sent(es, side) == [] :: s.readers[side].checking)
    && (s.starter == Waiting && s.channel == [] ==> forall side :: Sent(es, side) == [])
    && (s.starter == ExitedEarly || (s.starter == Waiting && s.channel == [false]) ==>
          EndedWithout(s, es, Stdout) || EndedWithout(s, es, Stderr))
  }

  lemma SentSnoc(es: seq<Event>, e: Event, side: Side)
    ensures Sent(es + [e], side) == Sent(es, side) + (if e.Send? && e.side == side then [e.found] else [])
  {
    assert (es + [e])[..|es|] == es;
  }

  lemma EndedStays(s: State, es: seq<Event>, e: Event, side: Side)
    requires EndedWithout(s, es, side) && Enabled(s, e)
    ensures EndedWithout(Apply(s, e), es + [e], side)
  {
    SentSnoc(es, e, side);
    assert Sent(es, side) + [] == Sent(es, side);
  }

  lemma FirstWordStep(s: State, es: seq<Event>, e: Event)
    requires Enabled(s, e) && FirstWord(s, es) && s.readers.Keys == {Stdout, Stderr} && |s.channel| <= 1
    requires forall side | side in s.readers :: Attentive(s.readers[side], s.phrase) && SentSoFar(s.readers[side], Sent(es, side))
    ensures FirstWord(Apply(s, e), es + [e])
  {
    var t := Apply(s, e);
    forall side: Side
      ensures Sent(es + [e], side) == Sent(es, side) + (if e.Send? && e.side == side then [e.found] else [])
      ensures EndedWithout(s, es, side) ==> EndedWithout(t, es + [e], side)
    {
      SentSnoc(es, e, side);
      if EndedWithout(s, es, side) {
        EndedStays(s, es, e, side);
      }
    }
    if e.Send? && !e.found && s.starter == Waiting {
      FirstSend(s, es, e.side);
    }
  }

  /** The very first value to be sent, if it is false, comes from a reader that never met the phrase. */
  lemma FirstSend(s: State, es: seq<Event>, side: Side)
    requires Enabled(s, Send(side, false)) && Sent(es, side) == []
    requires Attentive(s.readers[side], s.phrase) && SentSoFar(s.readers[side], Sent(es, side))
    requires s.readers[side].checking
    ensures EndedWithout(Apply(s, Send(side, false)), es + [Send(side, false)], side)
  {
    SentSnoc(es, Send(side, false), side);
    assert [] + [false] == [false];
  }
  lemma {:induction false} AlwaysFirstWord(phrase: string, stdout: seq<string>, stderr: seq<string>, es: seq<Event>)
    requires phrase != "" && Exec(Initial(phrase, stdout, stderr), es).Some?
    ensures FirstWord(Exec(Initial(phrase, stdout, stderr), es).value, es)
  {
    if es != [] {
      var front := es[..|es| - 1];
      AlwaysFirstWord(phrase, stdout, stderr, front);
      AlwaysSound(phrase, stdout, stderr, front);
      forall side
        ensures var s := Exec(Initial(phrase, stdout, stderr), front).value;
                side in s.readers && Attentive(s.readers[side], s.phrase) && SentSoFar(s.readers[side], Sent(front, side))
      {
        AlwaysAttentive(phrase, stdout, stderr, front, side);
        ReaderSends(phrase, stdout, stderr, front, side);
      }
      FirstWordStep(Exec(Initial(phrase, stdout, stderr), front).value, front, es[|es| - 1]);
      assert front + [es[|es| - 1]] == es;
    }
  }

  /** A start reports an early exit only after a pipe ended without any line read from it having the phrase. */
  lemma EarlyExitIsSound(phrase: string, stdout: seq<string>, stderr: seq<string>, es: seq<Event>)
    requires Exec(Initial(phrase, stdout, stderr), es).Some?
    requires Exec(Initial(phrase, stdout, stderr), es).value.starter == ExitedEarly
    ensures var s := Exec(Initial(phrase, stdout, stderr), es).value;
            phrase != "" && (EndedWithout(s, es, Stdout) || EndedWithout(s, es, Stderr))
  {
    AlwaysSound(phrase, stdout, stderr, es);
    AlwaysFirstWord(phrase, stdout, stderr, es);
  }

  // ---------------------------------------------------------------- a start whose phrase appears can succeed

  ghost predicate Leads(a: State, es: seq<Event>, s: State) {
    Exec(a, es) == Some(s)
  }

  lemma Walk(a: State, es: seq<Event>, s: State, e: Event) returns (longer: seq<Event>, t: State)
    requires Leads(a, es, s) && Enabled(s, e)
    ensures longer == es + [e] && t == Apply(s, e) && Leads(a, longer, t)
    ensures forall side :: Sent(longer, side) == Sent(es, side) + (if e.Send? && e.side == side then [e.found] else [])
  {
    longer, t := es + [e], Apply(s, e);
    assert longer[..|es|] == es;
  }

  /** One reader alone reads on up to line n, when it is done looking or no line on the way has the phrase. */
  lemma {:induction false} ReadsOn(a: State, es: seq<Event>, s: State, side: Side, n: nat) returns (longer: seq<Event>, t: State)
    requires Leads(a, es, s) && At(s, side, Reading) && s.readers[side].read <= n <= |s.readers[side].lines|
    requires s.readers[side].checking ==>
               forall i | s.readers[side].read <= i < n :: !Contains(s.readers[side].lines[i], s.phrase)
    ensures Leads(a, longer, t) && t == s.(readers := s.readers[side := s.readers[side].(read := n)])
    ensures forall x :: Sent(longer, x) == Sent(es, x)
    decreases n - s.readers[side].read
  {
    var r := s.readers[side];
    if r.read == n {
      longer, t := es, s;
      assert s.readers[side := r.(read := n)] == s.readers;
    } else {
      longer, t := Walk(a, es, s, ReadLine(side));
      assert forall x :: Sent(es, x) + [] == Sent(es, x);
      longer, t := ReadsOn(a, longer, t, side, n);
      assert s.readers[side := r.(read := r.read + 1)][side := r.(read := n)] == s.readers[side := r.(read := n)];
    }
  }

  /** At the end of its pipe a reader says so, and a start still waiting takes it for an early exit. */
  lemma EndIsSent(a: State, es: seq<Event>, s: State, side: Side) returns (longer: seq<Event>, t: State)
    requires Leads(a, es, s) && At(s, side, Reading) && s.channel == []
    ensures Leads(a, longer, t) && At(t, side, Gone) && t.readers[side] == s.readers[side].(pc := Gone)
    ensures Sent(longer, side) == Sent(es, side) + [false]
    ensures t.starter == if s.starter == Waiting then ExitedEarly else s.starter
  {
    longer, t := Walk(a, es, s, ReadEnd(side));
    assert Sent(es, side) + [] == Sent(es, side);
    longer, t := Walk(a, longer, t, Send(side, false));
    if t.starter == Waiting {
      assert Sent(longer, side) + [] == Sent(longer, side);
      longer, t := Walk(a, longer, t, Receive(false));
    }
  }

  lemma FirstHit(lines: seq<string>, phrase: string) returns (n: nat)
    requires !NoneOf(lines, phrase)
    ensures n < |lines| && Contains(lines[n], phrase) && NoneOf(lines[..n], phrase)
    decreases |lines|
  {
    var k :| 0 <= k < |lines| && Contains(lines[k], phrase);
    if NoneOf(lines[..k], phrase) {
      n := k;
    } else {
      n := FirstHit(lines[..k], phrase);
      assert lines[..k][..n] == lines[..n];
    }
  }

  /**
   A reader that runs alone reads every line of its pipe. If one of them has the phrase it sends true and
   the start succeeds, and it goes on reading; at the end it sends false, which the start takes for an
   early exit if there was no such line.
   */
  lemma ReaderAlone(phrase: string, stdout: seq<string>, stderr: seq<string>, side: Side) returns (es: seq<Event>)
    requires phrase != ""
    ensures Exec(Initial(phrase, stdout, stderr), es).Some?
    ensures var s := Exec(Initial(phrase, stdout, stderr), es).value;
            var lines := if side == Stdout then stdout else stderr;
            && side in s.readers && s.readers[side].lines == lines && s.readers[side].read == |lines|
            && s.starter == (if NoneOf(lines, phrase) then ExitedEarly else Succeeded)
            && Sent(es, side) == if NoneOf(lines, phrase) then [false] else [true, false]
  {
    var a := Initial(phrase, stdout, stderr);
    var lines := if side == Stdout then stdout else stderr;
    var s := a;
    es := [];
    if !NoneOf(lines, phrase) {
      es, s := PhraseIsSent(phrase, stdout, stderr, side);
    }
    es, s := ReadsOn(a, es, s, side, |lines|);
    es, s := EndIsSent(a, es, s, side);
  }

  /** A start that waits may time out at any moment, and once cancelled a reader may leave without a word. */
  lemma StartCanGiveUp(s: State, side: Side)
    ensures s.starter == Waiting ==> Enabled(s, Timeout) && Apply(s, Timeout) == s.(starter := TimedOut)
    ensures s.done && At(s, side, Reading) ==>
              Enabled(s, Quit(side)) && Apply(s, Quit(side)) == s.(readers := s.readers[side := s.readers[side].(pc := Gone)])
  {
  }

  /** The first line with the phrase makes its reader send true, and the start succeed. */
  lemma PhraseIsSent(phrase: string, stdout: seq<string>, stderr: seq<string>, side: Side) returns (es: seq<Event>, s: State)
    requires phrase != "" && !NoneOf(if side == Stdout then stdout else stderr, phrase)
    ensures Leads(Initial(phrase, stdout, stderr), es, s)
    ensures var lines := if side == Stdout then stdout else stderr;
            At(s, side, Reading) && s.readers[side].lines == lines && 0 < s.readers[side].read <= |lines|
    ensures !s.readers[side].checking && s.starter == Succeeded && s.channel == [] && Sent(es, side) == [true]
  {
    var a := Initial(phrase, stdout, stderr);
    var lines := a.readers[side].lines;
    var n := FirstHit(lines, phrase);
    assert forall i | 0 <= i < n :: lines[..n][i] == lines[i];
    es, s := ReadsOn(a, [], a, side, n);
    es, s := Walk(a, es, s, ReadLine(side));
    es, s := Walk(a, es, s, Send(side, true));
    es, s := Walk(a, es, s, Receive(true));
  }

  ghost predicate Appears(phrase: string, stdout: seq<string>, stderr: seq<string>) {
    phrase == "" || exists line, pre, post :: (line in stdout || line in stderr) && line == pre + phrase + post
  }

  /** Whatever the two pipes hold, if some line of either contains the phrase there is a run that succeeds. */
  lemma StartCanSucceed(phrase: string, stdout: seq<string>, stderr: seq<string>) returns (es: seq<Event>)
    requires Appears(phrase, stdout, stderr)
    ensures Exec(Initial(phrase, stdout, stderr), es).Some?
    ensures Exec(Initial(phrase, stdout, stderr), es).value.starter == Succeeded
  {
    var s := Initial(phrase, stdout, stderr);
    if phrase == "" {
      es, s := Walk(s, [], s, Receive(true));
    } else {
      var line, pre, post :| (line in stdout || line in stderr) && line == pre + phrase + post;
      ContainsExactlyWhen(line, phrase);
      var side := if line in stdout then Stdout else Stderr;
      var lines := if side == Stdout then stdout else stderr;
      var k :| 0 <= k < |lines| && lines[k] == line;
      assert !NoneOf(lines, phrase);
      es, s := PhraseIsSent(phrase, stdout, stderr, side);
    }
  }

  ghost predicate CanSucceed(phrase: string, stdout: seq<string>, stderr: seq<string>) {
    exists es :: Exec(Initial(phrase, stdout, stderr), es).Some? && Exec(Initial(phrase, stdout, stderr), es).value.starter == Succeeded
  }

  lemma SuccessMeansAppears(phrase: string, stdout: seq<string>, stderr: seq<string>)
    requires CanSucceed(phrase, stdout, stderr)
    ensures Appears(phrase, stdout, stderr)
  {
    var es :| Exec(Initial(phrase, stdout, stderr), es).Some?
              && Exec(Initial(phrase, stdout, stderr), es).value.starter == Succeeded;
    StartIsSound(phrase, stdout, stderr, es);
    if phrase != "" {
      var line :| (line in stdout || line in stderr) && Contains(line, phrase);
      ContainsExactlyWhen(line, phrase);
    }
  }

  /** A start can succeed exactly when the phrase is empty or some line contains it. */
  lemma StartSucceedsExactlyWhen(phrase: string, stdout: seq<string>, stderr: seq<string>)
    ensures CanSucceed(phrase, stdout, stderr) <==> Appears(phrase, stdout, stderr)
  {
    if Appears(phrase, stdout, stderr) {
      var es := StartCanSucceed(phrase, stdout, stderr);
    }
    if CanSucceed(phrase, stdout, stderr) {
      SuccessMeansAppears(phrase, stdout, stderr);
    }
  }

}

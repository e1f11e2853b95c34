/** How attachments end, whom their errors concern, and when metrics and logs are posted. */
module ConnectionProperties {
  import opened Prelude
  import opened Connection

  // ---------------------------------------------------------------- errors stay with their attachment

  /** Goroutines of one attachment, also those that outlive it, leave every other attachment as it is. */
  lemma OthersUntouched(s: State, e: Event, j: nat)
    requires Enabled(s, e) && j < |s.atts| && Owner(e).Some? && Owner(e) != Some(j)
    ensures |Apply(s, e).atts| == |s.atts| && Apply(s, e).atts[j] == s.atts[j]
  {
  }

  /** An attachment is torn down only by an error of its own goroutines or by the end of the application. */
  lemma TornDownByOwnErrors(hasDetach: bool, es: seq<Event>, j: nat)
    requires Exec(Initial(hasDetach), es).Some?
    requires var s := Exec(Initial(hasDetach), es).value; j < |s.atts| && s.atts[j].done && s.live
    ensures 1 <= TallyOf(es, j).taken <= TallyOf(es, j).puts
  {
    Accounting(hasDetach, es);
  }

  // ---------------------------------------------------------------- when a sender can block

  /** A goroutine wants to report an error and finds no free slot. */
  ghost predicate Blocked(s: State, j: nat) {
    && j < |s.atts| && s.atts[j].errs == ERR_SLOTS
    && (s.atts[j].watcher == Failing || exists i: nat :: Has(s, j, i, Unsent))
  }

  /** Nobody will ever take an error out of that channel again. */
  ghost predicate Stuck(s: State, j: nat) {
    Blocked(s, j) && s.atts[j].loop == Returned
  }

  lemma UnendedPositive(ks: seq<KeepAlive>, i: nat)
    requires i < |ks| && ks[i] != Ended
    ensures Unended(ks) > 0
  {
    UnendedUpdate(ks, i, Unsent);
  }

  lemma BlockedNeedsTenReadies(hasDetach: bool, es: seq<Event>, j: nat)
    requires Exec(Initial(hasDetach), es).Some? && Blocked(Exec(Initial(hasDetach), es).value, j)
    ensures TallyOf(es, j).readies >= 10
  {
    Accounting(hasDetach, es);
    var s := Exec(Initial(hasDetach), es).value;
    if s.atts[j].watcher != Failing {
      var i: nat :| Has(s, j, i, Unsent);
      UnendedPositive(s.atts[j].keepAlives, i);
    }
  }

  lemma ExecSnoc(s: State, es: seq<Event>, e: Event)
    requires Exec(s, es).Some? && Enabled(Exec(s, es).value, e)
    ensures Exec(s, es + [e]) == Some(Apply(Exec(s, es).value, e))
  {
    assert (es + [e])[..|es|] == es;
  }

  function Alives(n: nat, failed: nat, sent: nat): (ks: seq<KeepAlive>)
    ensures |ks| == n
  {
    seq(n, i requires 0 <= i < n => if i < sent then Ended else if i < failed then Unsent else Ticking)
  }

  function Crowd(n: nat, failed: nat, sent: nat): State {
    State(true, n > 0, true, [Attachment(false, sent, Selecting, Idle, Alives(n, failed, sent))])
  }

  predicate Reaches(es: seq<Event>, s: State) {
    Exec(Initial(true), es) == Some(s)
  }

  lemma Walk(es: seq<Event>, s: State, e: Event, t: State) returns (longer: seq<Event>)
    requires Reaches(es, s) && Enabled(s, e) && t == Apply(s, e)
    ensures longer == es + [e] && Reaches(longer, t)
  {
    longer := es + [e];
    ExecSnoc(Initial(true), es, e);
  }

  lemma {:induction false} ReadiesArrive(n: nat) returns (es: seq<Event>)
    ensures Reaches(es, Crowd(n, 0, 0))
  {
    if n == 0 {
      es := Walk([], Initial(true), Attach, Crowd(0, 0, 0));
    } else {
      es := ReadiesArrive(n - 1);
      var s := Crowd(n - 1, 0, 0);
      var a := s.atts[0];
      var s1 := s.(atts := [a.(watcher := Receiving)]);
      var s2 := s.(atts := [a.(watcher := Holding(Ready))]);
      es := Walk(es, s, Pass(0), s1);
      es := Walk(es, s1, Receive(0, Ready), s2);
      assert Alives(n, 0, 0) == Alives(n - 1, 0, 0) + [Ticking];
      es := Walk(es, s2, Dispatch(0, Ready), Crowd(n, 0, 0));
    }
  }

  lemma {:induction false} KeepAlivesFail(n: nat, failed: nat) returns (es: seq<Event>)
    requires failed <= n
    ensures Reaches(es, Crowd(n, failed, 0))
  {
    if failed == 0 {
      es := ReadiesArrive(n);
    } else {
      es := KeepAlivesFail(n, failed - 1);
      assert Alives(n, failed, 0) == Alives(n, failed - 1, 0)[failed - 1 := Unsent];
      es := Walk(es, Crowd(n, failed - 1, 0), TickFailed(0, failed - 1), Crowd(n, failed, 0));
    }
  }

  lemma {:induction false} ErrorsFill(n: nat, sent: nat) returns (es: seq<Event>)
    requires sent <= n && sent <= ERR_SLOTS
    ensures Reaches(es, Crowd(n, n, sent))
  {
    if sent == 0 {
      es := KeepAlivesFail(n, n);
    } else {
      es := ErrorsFill(n, sent - 1);
      assert Alives(n, n, sent) == Alives(n, n, sent - 1)[sent - 1 := Ended];
      es := Walk(es, Crowd(n, n, sent - 1), PutTickError(0, sent - 1), Crowd(n, n, sent));
    }
  }

  lemma ManyReadiesStick(n: nat) returns (es: seq<Event>)
    requires n >= 10
    ensures Exec(Initial(true), es).Some? && Stuck(Exec(Initial(true), es).value, 0)
    ensures TallyOf(es, 0).readies == n
  {
    es := ErrorsFill(n, 10);
    var s := Crowd(n, n, 10);
    var a := s.atts[0];
    var s1 := s.(atts := [a.(watcher := Receiving)]);
    var s2 := s.(atts := [a.(watcher := Failing)]);
    var s3 := s2.(live := false, atts := [s2.atts[0].(done := true)]);
    var s4 := s3.(attached := false, atts := [s3.atts[0].(loop := Returned)]);
    es := Walk(es, s, Pass(0), s1);
    es := Walk(es, s1, ReceiveError(0), s2);
    es := Walk(es, s2, AppDone, s3);
    es := Walk(es, s3, Close(0), s4);
    Accounting(true, es);
  }

  /**
   The ten slots suffice exactly up to nine Ready: with ten or more, and only then, a goroutine of
   the attachment can be left blocked on its channel for good.
   */
  lemma SenderSticksExactlyFromTen(n: nat)
    ensures (exists es :: Exec(Initial(true), es).Some? && Stuck(Exec(Initial(true), es).value, 0)
                          && TallyOf(es, 0).readies == n) <==> n >= 10
  {
    if n >= 10 {
      var es := ManyReadiesStick(n);
    } else {
      forall es | Exec(Initial(true), es).Some? && Stuck(Exec(Initial(true), es).value, 0)
        ensures TallyOf(es, 0).readies != n
      {
        BlockedNeedsTenReadies(true, es, 0);
      }
    }
  }

  /** A queued error can be taken at once: attach signals one detach, if it can, cancels, returns, and may be called again. */
  lemma ErrorEndsAttachment(s: State, j: nat) returns (es: seq<Event>)
    requires j + 1 == |s.atts| && s.atts[j].loop == Selecting && s.atts[j].errs > 0
    ensures es == [TakeError(j), Detach(j, s.hasDetach), CancelConn(j), Close(j)]
    ensures Exec(s, es).Some?
    ensures var t := Exec(s, es).value;
            && !t.attached && t.atts[j].loop == Returned && t.atts[j].done && t.atts[j].errs == s.atts[j].errs - 1
            && t.hasDetach == s.hasDetach && Enabled(t, Attach) && Enabled(t, DialFailed) && Apply(t, DialFailed) == t
  {
    es := [];
    ExecSnoc(s, es, TakeError(j));
    es := es + [TakeError(j)];
    ExecSnoc(s, es, Detach(j, s.hasDetach));
    es := es + [Detach(j, s.hasDetach)];
    ExecSnoc(s, es, CancelConn(j));
    es := es + [CancelConn(j)];
    ExecSnoc(s, es, Close(j));
    es := es + [Close(j)];
  }

  function ReadiesIn(ins: seq<Instruction>): nat {
    Count(ins, (i: Instruction) => i.Ready?)
  }

  function Passes(j: nat, ins: seq<Instruction>): seq<Event> {
    if ins == [] then []
    else Passes(j, ins[..|ins| - 1]) + [Pass(j), Receive(j, ins[|ins| - 1]), Dispatch(j, ins[|ins| - 1])]
  }

  lemma ExecThree(s: State, es: seq<Event>, e0: Event, e1: Event, e2: Event)
    requires Exec(s, es).Some? && Enabled(Exec(s, es).value, e0)
    requires Enabled(Apply(Exec(s, es).value, e0), e1)
    requires Enabled(Apply(Apply(Exec(s, es).value, e0), e1), e2)
    ensures Exec(s, es + [e0, e1, e2]) == Some(Apply(Apply(Apply(Exec(s, es).value, e0), e1), e2))
  {
    ExecSnoc(s, es, e0);
    ExecSnoc(s, es + [e0], e1);
    ExecSnoc(s, es + [e0] + [e1], e2);
    assert es + [e0] + [e1] + [e2] == es + [e0, e1, e2];
  }

  /**
   While an attachment's context is live its goroutine can receive and act upon any instructions, one
   after the other: the first Ready among them raises the flag, and each starts one keep alive.
   */
  lemma {:induction false} InstructionsAreTaken(s: State, j: nat, ins: seq<Instruction>)
    requires j < |s.atts| && !s.atts[j].done && s.atts[j].watcher == Idle
    ensures Exec(s, Passes(j, ins)).Some?
    ensures var t := Exec(s, Passes(j, ins)).value;
            && |t.atts| == |s.atts| && t.attached == (s.attached || Ready in ins)
            && t.atts[j] == s.atts[j].(keepAlives := t.atts[j].keepAlives)
            && |t.atts[j].keepAlives| == |s.atts[j].keepAlives| + ReadiesIn(ins)
            && (forall i | |s.atts[j].keepAlives| <= i < |t.atts[j].keepAlives| :: t.atts[j].keepAlives[i] == Ticking)
  {
    if ins != [] {
      var front, last := ins[..|ins| - 1], ins[|ins| - 1];
      InstructionsAreTaken(s, j, front);
      assert Ready in ins <==> Ready in front || last == Ready;
      ExecThree(s, Passes(j, front), Pass(j), Receive(j, last), Dispatch(j, last));
    }
  }

  /** Once its attachment is cancelled the receiving goroutine can leave at its next pass, and a keep alive at once. */
  lemma LeftoversCanEnd(s: State, j: nat, i: nat)
    requires j < |s.atts| && s.atts[j].done
    ensures s.atts[j].watcher == Idle ==> Enabled(s, Pass(j)) && Apply(s, Pass(j)).atts[j].watcher == Gone
    ensures Has(s, j, i, Ticking) ==> Enabled(s, TickEnd(j, i)) && Has(Apply(s, TickEnd(j, i)), j, i, Ended)
  {
  }

  /** A keep alive that fails has an error to report, one that goes out changes nothing. */
  lemma TickOutcome(s: State, j: nat, i: nat)
    requires Has(s, j, i, Ticking)
    ensures Enabled(s, Tick(j, i)) && Apply(s, Tick(j, i)) == s
    ensures Enabled(s, TickFailed(j, i)) && Has(Apply(s, TickFailed(j, i)), j, i, Unsent)
  {
  }

  /** A goroutine that has failed can report it while a slot is free. */
  lemma FailureIsReported(s: State, e: Event)
    requires e.PutError? || e.PutTickError?
    requires e.j < |s.atts| && s.atts[e.j].errs < 10
    requires if e.PutError? then s.atts[e.j].watcher == Failing else e.i < |s.atts[e.j].keepAlives| && s.atts[e.j].keepAlives[e.i] == Unsent
    ensures Enabled(s, e)
    ensures var t := Apply(s, e); t.atts[e.j].errs == s.atts[e.j].errs + 1 && t.attached == s.attached
  {
  }

  // ---------------------------------------------------------------- the attached flag

  predicate Lowers(e: Event) {
    e.Close? || e.TakeError?
  }

  predicate Raises(e: Event) {
    e.Dispatch? && e.instruction.Ready?
  }

  /** The attachment whose Ready had the last word on the flag: none since one took an error or ended. */
  function RaisedBy(es: seq<Event>): Option<nat> {
    if es == [] then None
    else
      var e := es[|es| - 1];
      if Raises(e) then Some(e.j) else if Lowers(e) then None else RaisedBy(es[..|es| - 1])
  }

  lemma {:induction false} FlagIsLastWord(hasDetach: bool, es: seq<Event>)
    requires Exec(Initial(hasDetach), es).Some?
    ensures Exec(Initial(hasDetach), es).value.attached <==> RaisedBy(es).Some?
  {
    if es != [] {
      FlagIsLastWord(hasDetach, es[..|es| - 1]);
    }
  }

  /** A metric or log is posted exactly when a Ready had the last word, and dropped exactly otherwise. */
  lemma PostedExactlyAfterReady(hasDetach: bool, es: seq<Event>, posted: bool)
    requires Exec(Initial(hasDetach), es).Some?
    ensures Enabled(Exec(Initial(hasDetach), es).value, Post(posted)) <==> posted == RaisedBy(es).Some?
  {
    FlagIsLastWord(hasDetach, es);
  }

  /** While the flag is up, attach is in its loop and the Ready came from the stream it serves. */
  predicate Disciplined(s: State, es: seq<Event>) {
    s.attached ==> !NoLoop(s) && RaisedBy(es) == Some(|s.atts| - 1)
  }

  /** A Ready acted upon after the attach it was received for has returned. */
  predicate LateReady(s: State, e: Event) {
    Raises(e) && e.j < |s.atts| && s.atts[e.j].loop == Returned
  }

  /** Every state a trace passes through is disciplined. */
  predicate AlwaysDisciplined(hasDetach: bool, es: seq<Event>) {
    && Exec(Initial(hasDetach), es).Some? && Disciplined(Exec(Initial(hasDetach), es).value, es)
    && (es != [] ==> AlwaysDisciplined(hasDetach, es[..|es| - 1]))
  }

  predicate NeverLate(hasDetach: bool, es: seq<Event>) {
    es != [] ==>
      && NeverLate(hasDetach, es[..|es| - 1])
      && var s := Exec(Initial(hasDetach), es[..|es| - 1]);
         s.Some? && !LateReady(s.value, es[|es| - 1])
  }

  ghost predicate OnlyLastLoops(s: State) {
    forall j: nat | j < |s.atts| - 1 :: s.atts[j].loop == Returned
  }

  lemma DisciplineStep(s: State, es: seq<Event>, e: Event)
    requires Enabled(s, e) && Disciplined(s, es) && OnlyLastLoops(s)
    ensures Disciplined(Apply(s, e), es + [e]) <==> !LateReady(s, e)
  {
    assert (es + [e])[..|es|] == es;
    if Raises(e) {
      assert s.atts[e.j].loop != Returned ==> e.j == |s.atts| - 1;
    } else if s.attached && !Lowers(e) {
      assert !NoLoop(Apply(s, e));
    }
  }

  /**
   In every state of a run the attached flag is up only while attach loops, and by a Ready of the very
   stream it serves, exactly when no Ready is acted upon after its attach has returned. Recv and the
   dispatch of what it returned are separate steps here, so a late Ready can happen.
   */
  lemma {:induction false} DisciplineExactlyWithoutLateReady(hasDetach: bool, es: seq<Event>)
    requires Exec(Initial(hasDetach), es).Some?
    ensures AlwaysDisciplined(hasDetach, es) <==> NeverLate(hasDetach, es)
  {
    if es != [] {
      var front := es[..|es| - 1];
      DisciplineExactlyWithoutLateReady(hasDetach, front);
      Accounting(hasDetach, front);
      if AlwaysDisciplined(hasDetach, front) {
        DisciplineStep(Exec(Initial(hasDetach), front).value, front, es[|es| - 1]);
        assert front + [es[|es| - 1]] == es;
      }
    }
  }

  /** Every instruction is acted upon while its attachment's context is live. */
  predicate PromptDispatch(hasDetach: bool, es: seq<Event>) {
    es != [] ==>
      && PromptDispatch(hasDetach, es[..|es| - 1])
      && var s := Exec(Initial(hasDetach), es[..|es| - 1]);
         var e := es[|es| - 1];
         s.Some? && (e.Dispatch? ==> e.j < |s.value.atts| && !s.value.atts[e.j].done)
  }

  /** Then every Ready comes from the last attachment, and before its attach returns. */
  lemma PromptReadyIsCurrent(hasDetach: bool, es: seq<Event>, j: nat)
    requires PromptDispatch(hasDetach, es + [Dispatch(j, Ready)])
    requires Exec(Initial(hasDetach), es + [Dispatch(j, Ready)]).Some?
    ensures var s := Exec(Initial(hasDetach), es);
            s.Some? && j == |s.value.atts| - 1 && s.value.atts[j].loop != Returned
  {
    assert (es + [Dispatch(j, Ready)])[..|es|] == es;
    Accounting(hasDetach, es);
  }

  lemma {:induction false} PromptIsNeverLate(hasDetach: bool, es: seq<Event>)
    requires PromptDispatch(hasDetach, es) && Exec(Initial(hasDetach), es).Some?
    ensures NeverLate(hasDetach, es)
  {
    if es != [] {
      var front, e := es[..|es| - 1], es[|es| - 1];
      PromptIsNeverLate(hasDetach, front);
      if Raises(e) {
        assert front + [Dispatch(e.j, Ready)] == es;
        PromptReadyIsCurrent(hasDetach, front, e.j);
      }
    }
  }

  /**
   When receiving and dispatching an instruction count as one step of a live context, nothing is
   posted between attachments or before a Ready of the stream being served.
   */
  lemma {:induction false} PostsOnlyWhileServing(hasDetach: bool, es: seq<Event>)
    requires PromptDispatch(hasDetach, es) && Exec(Initial(hasDetach), es + [Post(true)]).Some?
    ensures Exec(Initial(hasDetach), es).Some?
    ensures var s := Exec(Initial(hasDetach), es).value; !NoLoop(s) && RaisedBy(es) == Some(|s.atts| - 1)
  {
    assert (es + [Post(true)])[..|es|] == es;
    PromptIsNeverLate(hasDetach, es);
    DisciplineExactlyWithoutLateReady(hasDetach, es);
  }

  /** An attachment is torn down while its receiving goroutine holds a Ready it has not acted upon. */
  lemma ReadyHeldBack() returns (es: seq<Event>, s: State)
    ensures Reaches(es, s) && s.live && !s.attached && |s.atts| == 1
    ensures s.atts[0].loop == Returned && s.atts[0].watcher == Holding(Ready)
  {
    es := ErrorsFill(1, 1);
    var c := Crowd(1, 1, 1);
    var a := c.atts[0];
    var s1 := c.(atts := [a.(watcher := Receiving)]);
    var s2 := c.(atts := [a.(watcher := Holding(Ready))]);
    var s3 := s2.(attached := false, atts := [s2.atts[0].(loop := Detaching, errs := 0)]);
    var s4 := s3.(atts := [s3.atts[0].(loop := Cancelling)]);
    var s5 := s4.(atts := [s4.atts[0].(loop := Selecting, done := true)]);
    s := s5.(atts := [s5.atts[0].(loop := Returned)]);
    es := Walk(es, c, Pass(0), s1);
    es := Walk(es, s1, Receive(0, Ready), s2);
    es := Walk(es, s2, TakeError(0), s3);
    es := Walk(es, s3, Detach(0, true), s4);
    es := Walk(es, s4, CancelConn(0), s5);
    es := Walk(es, s5, Close(0), s);
  }

  /** Acting upon it then raises the flag with no attachment left. */
  lemma LateReadyHappens() returns (es: seq<Event>)
    ensures Exec(Initial(true), es).Some?
    ensures var s := Exec(Initial(true), es).value; s.live && s.attached && NoLoop(s) && Enabled(s, Post(true))
  {
    var s;
    es, s := ReadyHeldBack();
    es := Walk(es, s, Dispatch(0, Ready), Apply(s, Dispatch(0, Ready)));
  }

  /** Or, later, with a next attachment whose stream has not said Ready. */
  lemma StaleReadyRaises() returns (es: seq<Event>)
    ensures Exec(Initial(true), es).Some?
    ensures var s := Exec(Initial(true), es).value;
            s.live && s.attached && |s.atts| == 2 && s.atts[1] == Fresh(true) && RaisedBy(es) == Some(0)
  {
    var s;
    es, s := ReadyHeldBack();
    es := Walk(es, s, Attach, Apply(s, Attach));
    s := Apply(s, Attach);
    es := Walk(es, s, Dispatch(0, Ready), Apply(s, Dispatch(0, Ready)));
  }
}

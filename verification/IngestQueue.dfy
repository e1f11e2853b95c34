/**
 Any number of client connections feeding the bounded channel of an ingestor, and the loop that
 drains it towards the Ambassador (ingest/lineproto.go, ingest/telegraf_json.go). The parse function
 gives the metrics of one line, or None for a line that is malformed; the number of slots is 100 for
 line protocol and 10 for JSON.
 */
module IngestQueue {
  import opened Prelude

  /** A connection: every line its client sends, how many were scanned, and metrics still to be queued. */
  datatype Connection<M> = Connection(lines: seq<string>, scanned: nat, pending: seq<M>)

  datatype State<M> = State(slots: nat, live: bool, conns: seq<Connection<M>>, queue: seq<(nat, M)>)

  datatype Event<M> =
    | Accept(lines: seq<string>)
    | Scan(c: nat)
    | Enqueue(c: nat, m: M)
    | Post(c: nat, m: M)
    | Stop

  function Metrics<M>(parse: string -> Option<seq<M>>, line: string): seq<M> {
    match parse(line) case None => [] case Some(ms) => ms
  }

  predicate Enabled<M(==)>(s: State<M>, e: Event<M>) {
    match e
    case Accept(_) => s.live
    case Scan(c) =>
      c < |s.conns| && s.conns[c].pending == [] && s.conns[c].scanned < |s.conns[c].lines|
    case Enqueue(c, m) =>
      c < |s.conns| && s.conns[c].pending != [] && s.conns[c].pending[0] == m && |s.queue| < s.slots
    case Post(c, m) => s.live && s.queue != [] && s.queue[0] == (c, m)
    case Stop => s.live
  }

  function Apply<M(==)>(parse: string -> Option<seq<M>>, s: State<M>, e: Event<M>): State<M>
    requires Enabled(s, e)
  {
    match e
    case Accept(lines) => s.(conns := s.conns + [Connection(lines, 0, [])])
    case Scan(c) =>
      var conn := s.conns[c];
      s.(conns := s.conns[c := conn.(scanned := conn.scanned + 1, pending := Metrics(parse, conn.lines[conn.scanned]))])
    case Enqueue(c, m) =>
      s.(conns := s.conns[c := s.conns[c].(pending := s.conns[c].pending[1..])], queue := s.queue + [(c, m)])
    case Post(_, _) => s.(queue := s.queue[1..])
    case Stop => s.(live := false)
  }

  function Exec<M(==)>(parse: string -> Option<seq<M>>, slots: nat, es: seq<Event<M>>): Option<State<M>> {
    if es == [] then Some(State(slots, true, [], []))
    else
      var s := Exec(parse, slots, es[..|es| - 1]);
      var e := es[|es| - 1];
      if s.Some? && Enabled(s.value, e) then Some(Apply(parse, s.value, e)) else None
  }

  function Enqueued<M>(es: seq<Event<M>>): seq<(nat, M)> {
    if es == [] then []
    else
      var e := es[|es| - 1];
      Enqueued(es[..|es| - 1]) + (if e.Enqueue? then [(e.c, e.m)] else [])
  }

  function Posted<M>(es: seq<Event<M>>): seq<(nat, M)> {
    if es == [] then []
    else
      var e := es[|es| - 1];
      Posted(es[..|es| - 1]) + (if e.Post? then [(e.c, e.m)] else [])
  }

  /** The part of a log that came from one connection. */
  function From<M>(log: seq<(nat, M)>, c: nat): seq<M> {
    if log == [] then []
    else
      var (d, m) := log[|log| - 1];
      From(log[..|log| - 1], c) + (if d == c then [m] else [])
  }

  /** The metrics of all well-formed lines, in order. */
  function Flattened<M>(parse: string -> Option<seq<M>>, lines: seq<string>): seq<M> {
    if lines == [] then []
    else Flattened(parse, lines[..|lines| - 1]) + (match parse(lines[|lines| - 1]) case None => [] case Some(ms) => ms)
  }

  lemma FromSnoc<M>(log: seq<(nat, M)>, d: nat, m: M, c: nat)
    ensures From(log + [(d, m)], c) == From(log, c) + (if d == c then [m] else [])
  {
    assert (log + [(d, m)])[..|log|] == log;
  }

  /** What a connection has queued, with what it still holds, is the parse of the lines scanned so far. */
  ghost predicate Accounts<M>(parse: string -> Option<seq<M>>, s: State<M>, log: seq<(nat, M)>) {
    && (forall c: nat | c < |s.conns| ::
          && s.conns[c].scanned <= |s.conns[c].lines|
          && From(log, c) + s.conns[c].pending == Flattened(parse, s.conns[c].lines[..s.conns[c].scanned]))
    && (forall c: nat | c >= |s.conns| :: From(log, c) == [])
  }

  lemma ScanAccounts<M>(parse: string -> Option<seq<M>>, s: State<M>, log: seq<(nat, M)>, c: nat)
    requires Accounts(parse, s, log) && Enabled(s, Scan(c))
    ensures Accounts(parse, Apply(parse, s, Scan(c)), log)
  {
    var conn := s.conns[c];
    assert conn.lines[..conn.scanned + 1][..conn.scanned] == conn.lines[..conn.scanned];
    assert From(log, c) + [] == From(log, c);
  }

  lemma EnqueueAccounts<M>(parse: string -> Option<seq<M>>, s: State<M>, log: seq<(nat, M)>, c: nat, m: M)
    requires Accounts(parse, s, log) && Enabled(s, Enqueue(c, m))
    ensures Accounts(parse, Apply(parse, s, Enqueue(c, m)), log + [(c, m)])
  {
    var t := Apply(parse, s, Enqueue(c, m));
    var pending := s.conns[c].pending;
    forall d: nat
      ensures From(log + [(c, m)], d) == From(log, d) + (if c == d then [m] else [])
    {
      FromSnoc(log, c, m, d);
    }
    forall d: nat | d < |s.conns|
      ensures From(log + [(c, m)], d) + t.conns[d].pending == From(log, d) + s.conns[d].pending
    {
      if d == c {
        assert From(log, c) + [m] + pending[1..] == From(log, c) + pending;
      }
    }
  }

  /** The queue lies between what was posted and what was enqueued. */
  predicate Conserved<M(==)>(slots: nat, s: State<M>, posted: seq<(nat, M)>, log: seq<(nat, M)>) {
    s.slots == slots && |s.queue| <= slots && posted + s.queue == log
  }

  lemma ConservedStep<M>(parse: string -> Option<seq<M>>, slots: nat, s: State<M>, e: Event<M>,
                         posted: seq<(nat, M)>, log: seq<(nat, M)>)
    requires Conserved(slots, s, posted, log) && Enabled(s, e)
    ensures Conserved(slots, Apply(parse, s, e),
                      posted + (if e.Post? then [(e.c, e.m)] else []), log + (if e.Enqueue? then [(e.c, e.m)] else []))
  {
    match e {
      case Enqueue(c, m) => assert posted + (s.queue + [(c, m)]) == posted + s.queue + [(c, m)];
      case Post(c, m) =>
        assert s.queue == [(c, m)] + s.queue[1..];
        assert posted + [(c, m)] + s.queue[1..] == posted + s.queue;
      case _ =>
    }
  }

  lemma AccountsStep<M>(parse: string -> Option<seq<M>>, s: State<M>, e: Event<M>, log: seq<(nat, M)>)
    requires Accounts(parse, s, log) && Enabled(s, e)
    ensures Accounts(parse, Apply(parse, s, e), log + (if e.Enqueue? then [(e.c, e.m)] else []))
  {
    assert log + [] == log;
    match e {
      case Accept(lines) => assert lines[..0] == [];
      case Scan(c) => ScanAccounts(parse, s, log, c);
      case Enqueue(c, m) => EnqueueAccounts(parse, s, log, c, m);
      case _ =>
    }
  }

  lemma {:induction false} QueueInvariant<M>(parse: string -> Option<seq<M>>, slots: nat, es: seq<Event<M>>)
    requires Exec(parse, slots, es).Some?
    ensures var s := Exec(parse, slots, es).value;
            Conserved(slots, s, Posted(es), Enqueued(es)) && Accounts(parse, s, Enqueued(es))
  {
    if es != [] {
      var front := es[..|es| - 1];
      QueueInvariant(parse, slots, front);
      var s := Exec(parse, slots, front).value;
      ConservedStep(parse, slots, s, es[|es| - 1], Posted(front), Enqueued(front));
      AccountsStep(parse, s, es[|es| - 1], Enqueued(front));
    }
  }

  /** Nothing is lost, duplicated or reordered between the queue's entrance and the Ambassador. */
  lemma PostedThenQueued<M>(parse: string -> Option<seq<M>>, slots: nat, es: seq<Event<M>>)
    requires Exec(parse, slots, es).Some?
    ensures var s := Exec(parse, slots, es).value;
            Posted(es) + s.queue == Enqueued(es) && |s.queue| <= slots
  {
    QueueInvariant(parse, slots, es);
  }

  lemma {:induction false} FlattenedPrefix<M>(parse: string -> Option<seq<M>>, lines: seq<string>, k: nat)
    requires k <= |lines|
    ensures Flattened(parse, lines[..k]) <= Flattened(parse, lines)
  {
    if k == |lines| {
      assert lines[..k] == lines;
    } else {
      FlattenedPrefix(parse, lines[..|lines| - 1], k);
      assert lines[..|lines| - 1][..k] == lines[..k];
    }
  }

  /**
   What one connection contributed is a prefix of the metrics of its well-formed lines, whatever the
   others do, and all of them once its lines are scanned and queued.
   */
  lemma ContributionIsPrefix<M>(parse: string -> Option<seq<M>>, slots: nat, es: seq<Event<M>>, c: nat)
    requires Exec(parse, slots, es).Some? && c < |Exec(parse, slots, es).value.conns|
    ensures var conn := Exec(parse, slots, es).value.conns[c];
            && From(Enqueued(es), c) <= Flattened(parse, conn.lines)
            && (conn.scanned == |conn.lines| && conn.pending == [] ==>
                  From(Enqueued(es), c) == Flattened(parse, conn.lines))
  {
    QueueInvariant(parse, slots, es);
    var conn := Exec(parse, slots, es).value.conns[c];
    FlattenedPrefix(parse, conn.lines, conn.scanned);
    assert From(Enqueued(es), c) <= Flattened(parse, conn.lines[..conn.scanned]);
    if conn.scanned == |conn.lines| && conn.pending == [] {
      assert conn.lines[..conn.scanned] == conn.lines;
      assert From(Enqueued(es), c) + [] == From(Enqueued(es), c);
    }
  }

  /** Malformed lines contribute nothing: leaving them out gives the same metrics. */
  lemma {:induction false} MalformedContributeNothing<M>(parse: string -> Option<seq<M>>, lines: seq<string>)
    ensures Flattened(parse, Select(lines, (line: string) => parse(line).Some?)) == Flattened(parse, lines)
  {
    if lines != [] {
      var front, last := lines[..|lines| - 1], lines[|lines| - 1];
      var wellFormed := (line: string) => parse(line).Some?;
      MalformedContributeNothing(parse, front);
      if parse(last).Some? {
        assert (Select(front, wellFormed) + [last])[..|Select(front, wellFormed)|] == Select(front, wellFormed);
      } else {
        assert Select(front, wellFormed) + [] == Select(front, wellFormed);
        assert Flattened(parse, front) + [] == Flattened(parse, front);
      }
    }
  }
  // ---------------------------------------------------------------- everything can be posted

  function Unscanned<M>(conns: seq<Connection<M>>): int {
    if conns == [] then 0
    else Unscanned(conns[..|conns| - 1]) + |conns[|conns| - 1].lines| - conns[|conns| - 1].scanned
  }

  function Pending<M>(conns: seq<Connection<M>>): nat {
    if conns == [] then 0 else Pending(conns[..|conns| - 1]) + |conns[|conns| - 1].pending|
  }

  lemma {:induction false} TotalsUpdate<M>(conns: seq<Connection<M>>, c: nat, conn: Connection<M>)
    requires c < |conns|
    ensures Unscanned(conns[c := conn]) ==
            Unscanned(conns) - (|conns[c].lines| - conns[c].scanned) + (|conn.lines| - conn.scanned)
    ensures Pending(conns[c := conn]) == Pending(conns) - |conns[c].pending| + |conn.pending|
  {
    var front := conns[..|conns| - 1];
    if c < |front| {
      TotalsUpdate(front, c, conn);
      assert conns[c := conn][..|front|] == front[c := conn];
    } else {
      assert conns[c := conn][..|front|] == front;
    }
  }

  predicate ScannedWithin<M>(s: State<M>) {
    forall c | 0 <= c < |s.conns| :: s.conns[c].scanned <= |s.conns[c].lines|
  }

  lemma {:induction false} UnscannedNat<M>(conns: seq<Connection<M>>)
    requires forall c | 0 <= c < |conns| :: conns[c].scanned <= |conns[c].lines|
    ensures Unscanned(conns) >= 0
  {
    if conns != [] {
      UnscannedNat(conns[..|conns| - 1]);
    }
  }

  predicate AllDone<M>(s: State<M>) {
    s.queue == [] && forall c | 0 <= c < |s.conns| :: s.conns[c].scanned == |s.conns[c].lines| && s.conns[c].pending == []
  }

  /** Some step brings the ingestor closer to being done. */
  lemma Progress<M>(parse: string -> Option<seq<M>>, s: State<M>) returns (e: Event<M>)
    requires s.live && s.slots > 0 && ScannedWithin(s) && !AllDone(s)
    ensures Enabled(s, e) && !e.Accept? && !e.Stop?
    ensures var t := Apply(parse, s, e);
            && t.live && t.slots == s.slots && ScannedWithin(t) && |t.conns| == |s.conns|
            && (forall c | 0 <= c < |s.conns| :: t.conns[c].lines == s.conns[c].lines)
            && (|| Unscanned(t.conns) < Unscanned(s.conns)
                || (Unscanned(t.conns) == Unscanned(s.conns) && Pending(t.conns) < Pending(s.conns))
                || (Unscanned(t.conns) == Unscanned(s.conns) && Pending(t.conns) == Pending(s.conns) && |t.queue| < |s.queue|))
  {
    if s.queue != [] {
      e := Post(s.queue[0].0, s.queue[0].1);
    } else {
      var c :| 0 <= c < |s.conns| && (s.conns[c].scanned != |s.conns[c].lines| || s.conns[c].pending != []);
      e := if s.conns[c].pending != [] then Enqueue(c, s.conns[c].pending[0]) else Scan(c);
      TotalsUpdate(s.conns, c, Apply(parse, s, e).conns[c]);
    }
  }

  lemma ExecSnoc<M>(parse: string -> Option<seq<M>>, slots: nat, es: seq<Event<M>>, e: Event<M>)
    requires Exec(parse, slots, es).Some? && Enabled(Exec(parse, slots, es).value, e)
    ensures Exec(parse, slots, es + [e]) == Some(Apply(parse, Exec(parse, slots, es).value, e))
  {
    assert (es + [e])[..|es|] == es;
  }

  ghost predicate SameLines<M>(s: State<M>, t: State<M>) {
    |t.conns| == |s.conns| && forall c | 0 <= c < |s.conns| :: t.conns[c].lines == s.conns[c].lines
  }

  /** From any live state the connections can be read to their ends and the queue drained. */
  lemma {:induction false} CanFinish<M>(parse: string -> Option<seq<M>>, slots: nat, es: seq<Event<M>>, s: State<M>)
      returns (all: seq<Event<M>>, t: State<M>)
    requires Exec(parse, slots, es) == Some(s) && s.live && s.slots > 0 && ScannedWithin(s)
    ensures es <= all && Exec(parse, slots, all) == Some(t) && AllDone(t) && SameLines(s, t)
    decreases Unscanned(s.conns), Pending(s.conns), |s.queue|
  {
    if AllDone(s) {
      all, t := es, s;
    } else {
      var e := Progress(parse, s);
      var next := Apply(parse, s, e);
      ExecSnoc(parse, slots, es, e);
      UnscannedNat(s.conns);
      UnscannedNat(next.conns);
      all, t := CanFinish(parse, slots, es + [e], next);
    }
  }

  /**
   While the ingestor is live nothing is stuck: from every reachable state, with any number of slots,
   some continuation posts all metrics of every connection's well-formed lines, in order.
   */
  lemma EverythingCanBePosted<M>(parse: string -> Option<seq<M>>, slots: nat, es: seq<Event<M>>) returns (more: seq<Event<M>>)
    requires slots > 0 && Exec(parse, slots, es).Some? && Exec(parse, slots, es).value.live
    ensures Exec(parse, slots, es + more).Some?
    ensures var s := Exec(parse, slots, es).value;
            forall c: nat | c < |s.conns| :: From(Posted(es + more), c) == Flattened(parse, s.conns[c].lines)
  {
    QueueInvariant(parse, slots, es);
    var all, t := CanFinish(parse, slots, es, Exec(parse, slots, es).value);
    more := all[|es|..];
    assert es + more == all;
    PostedThenQueued(parse, slots, es + more);
    assert Posted(es + more) + [] == Posted(es + more);
    forall c: nat | c < |Exec(parse, slots, es).value.conns|
      ensures From(Posted(es + more), c) == Flattened(parse, Exec(parse, slots, es).value.conns[c].lines)
    {
      ContributionIsPrefix(parse, slots, es + more, c);
    }
  }
  // ---------------------------------------------------------------- the queue can fill up

  /** One connection's lines and what was queued of them, with nothing posted. */
  ghost predicate Filling<M>(parse: string -> Option<seq<M>>, slots: nat, es: seq<Event<M>>, lines: seq<string>) {
    && Exec(parse, slots, es).Some? && Posted(es) == []
    && |Exec(parse, slots, es).value.conns| == 1 && Exec(parse, slots, es).value.conns[0].lines == lines
    && (forall i | 0 <= i < |Enqueued(es)| :: Enqueued(es)[i].0 == 0)
  }

  lemma {:induction false} FromOne<M>(log: seq<(nat, M)>)
    requires forall i | 0 <= i < |log| :: log[i].0 == 0
    ensures |From(log, 0)| == |log|
  {
    if log != [] {
      FromOne(log[..|log| - 1]);
    }
  }

  /** A connection with what it has queued stays within the metrics of its lines. */
  lemma FillingRoom<M>(parse: string -> Option<seq<M>>, slots: nat, es: seq<Event<M>>, lines: seq<string>)
    requires Filling(parse, slots, es, lines) && |Flattened(parse, lines)| <= slots
    ensures var s := Exec(parse, slots, es).value;
            s.conns[0].scanned <= |lines| && (s.conns[0].pending != [] ==> |s.queue| < slots) && s.slots == slots
  {
    QueueInvariant(parse, slots, es);
    var s := Exec(parse, slots, es).value;
    FromOne(Enqueued(es));
    FlattenedPrefix(parse, lines, s.conns[0].scanned);
    assert [] + s.queue == s.queue;
  }

  lemma {:induction false} FillUp<M>(parse: string -> Option<seq<M>>, slots: nat, es: seq<Event<M>>, lines: seq<string>, s: State<M>)
      returns (all: seq<Event<M>>)
    requires Filling(parse, slots, es, lines) && |Flattened(parse, lines)| <= slots && Exec(parse, slots, es) == Some(s)
    ensures Filling(parse, slots, all, lines)
    ensures var t := Exec(parse, slots, all).value; t.conns[0].scanned == |lines| && t.conns[0].pending == []
    decreases |lines| - s.conns[0].scanned, |s.conns[0].pending|
  {
    FillingRoom(parse, slots, es, lines);
    var conn := s.conns[0];
    if conn.pending == [] && conn.scanned == |lines| {
      all := es;
    } else {
      var e := if conn.pending != [] then Enqueue(0, conn.pending[0]) else Scan(0);
      ExecSnoc(parse, slots, es, e);
      LogsSnoc(es, e);
      all := FillUp(parse, slots, es + [e], lines, Apply(parse, s, e));
    }
  }

  lemma LogsSnoc<M>(es: seq<Event<M>>, e: Event<M>)
    ensures Enqueued(es + [e]) == Enqueued(es) + (if e.Enqueue? then [(e.c, e.m)] else [])
    ensures Posted(es + [e]) == Posted(es) + (if e.Post? then [(e.c, e.m)] else [])
  {
    assert (es + [e])[..|es|] == es;
  }

  /** With the Ambassador slow, as many metrics as there are slots can wait in the queue, none of them posted. */
  lemma QueueCanFill<M>(parse: string -> Option<seq<M>>, slots: nat, lines: seq<string>) returns (es: seq<Event<M>>)
    requires |Flattened(parse, lines)| <= slots
    ensures Exec(parse, slots, es).Some? && Posted(es) == []
    ensures |Exec(parse, slots, es).value.queue| == |Flattened(parse, lines)|
  {
    var accept: Event<M> := Accept(lines);
    var init: seq<Event<M>> := [];
    ExecSnoc(parse, slots, init, accept);
    LogsSnoc(init, accept);
    es := FillUp(parse, slots, init + [accept], lines, Exec(parse, slots, init + [accept]).value);
    PostedThenQueued(parse, slots, es);
    ContributionIsPrefix(parse, slots, es, 0);
    FromOne(Enqueued(es));
    assert [] + Exec(parse, slots, es).value.queue == Exec(parse, slots, es).value.queue;
  }
}

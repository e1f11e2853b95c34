/** A line protocol connection end to end: from the bytes its client sends to the metrics posted (ingest/lineproto.go). */
module LineProtocolIngest {
  import opened Prelude
  import opened LineMetrics
  import opened LineRoundTrip
  import Console
  import IngestQueue

  const METRICS_CHAN_SIZE := 100

  /** A line sent to the ingestor: a printed metric, or text the parser rejects. */
  datatype Sent = Measured(line: Source) | Malformed(text: string)

  function SentText(x: Sent): string {
    match x
    case Measured(line) => PrintLine(line)
    case Malformed(text) => text
  }

  ghost predicate SentOk(x: Sent) {
    && Console.Unbroken(SentText(x))
    && match x
       case Measured(line) => LineOk(line)
       case Malformed(text) => ParseRecords(text).None?
  }

  function Stream(xs: seq<Sent>): string {
    if xs == [] then "" else SentText(xs[0]) + ("\n" + Stream(xs[1..]))
  }

  function Texts(xs: seq<Sent>): seq<string> {
    if xs == [] then [] else [SentText(xs[0])] + Texts(xs[1..])
  }

  function Records(xs: seq<Sent>): seq<Record> {
    if xs == [] then []
    else Records(xs[..|xs| - 1]) + (if xs[|xs| - 1].Measured? then [DenoteLine(xs[|xs| - 1].line)] else [])
  }

  lemma {:induction false} StreamLines(xs: seq<Sent>)
    requires forall x | x in xs :: SentOk(x)
    ensures Console.ScanLines(Stream(xs)) == Texts(xs)
  {
    if xs != [] {
      assert xs[0] in xs;
      StreamLines(xs[1..]);
      Console.ScanFirst(SentText(xs[0]), Stream(xs[1..]));
    }
  }

  lemma {:induction false} TextsSnoc(xs: seq<Sent>)
    requires xs != []
    ensures Texts(xs) == Texts(xs[..|xs| - 1]) + [SentText(xs[|xs| - 1])]
  {
    if |xs| > 1 {
      TextsSnoc(xs[1..]);
      assert xs[1..][..|xs| - 2] == xs[..|xs| - 1][1..];
    }
  }

  lemma {:induction false} FlattenedTexts(xs: seq<Sent>)
    requires forall x | x in xs :: SentOk(x)
    ensures IngestQueue.Flattened(ParseRecords, Texts(xs)) == Records(xs)
  {
    if xs != [] {
      var front, x := xs[..|xs| - 1], xs[|xs| - 1];
      assert x in xs;
      FlattenedTexts(front);
      TextsSnoc(xs);
      assert Texts(xs)[..|Texts(xs)| - 1] == Texts(front);
      if x.Measured? {
        RoundTrip(SLast(x.line, None));
      }
    }
  }

  /**
   Whatever other connections do, what one contributes to the queue is a prefix of the metrics it
   printed, in order, and all of them once its stream is read; malformed lines leave no trace.
   */
  lemma ContributesItsMetrics(es: seq<IngestQueue.Event<Record>>, c: nat, xs: seq<Sent>)
    requires IngestQueue.Exec(ParseRecords, METRICS_CHAN_SIZE, es).Some?
    requires c < |IngestQueue.Exec(ParseRecords, METRICS_CHAN_SIZE, es).value.conns|
    requires IngestQueue.Exec(ParseRecords, METRICS_CHAN_SIZE, es).value.conns[c].lines == Console.ScanLines(Stream(xs))
    requires forall x | x in xs :: SentOk(x)
    ensures var conn := IngestQueue.Exec(ParseRecords, METRICS_CHAN_SIZE, es).value.conns[c];
            && IngestQueue.From(IngestQueue.Enqueued(es), c) <= Records(xs)
            && (conn.scanned == |conn.lines| && conn.pending == [] ==>
                  IngestQueue.From(IngestQueue.Enqueued(es), c) == Records(xs))
  {
    StreamLines(xs);
    FlattenedTexts(xs);
    IngestQueue.ContributionIsPrefix(ParseRecords, METRICS_CHAN_SIZE, es, c);
  }
  /** And as long as the ingestor is live, all of them can still be posted. */
  lemma AllMetricsCanArrive(es: seq<IngestQueue.Event<Record>>, c: nat, xs: seq<Sent>) returns (more: seq<IngestQueue.Event<Record>>)
    requires IngestQueue.Exec(ParseRecords, METRICS_CHAN_SIZE, es).Some?
    requires IngestQueue.Exec(ParseRecords, METRICS_CHAN_SIZE, es).value.live
    requires c < |IngestQueue.Exec(ParseRecords, METRICS_CHAN_SIZE, es).value.conns|
    requires IngestQueue.Exec(ParseRecords, METRICS_CHAN_SIZE, es).value.conns[c].lines == Console.ScanLines(Stream(xs))
    requires forall x | x in xs :: SentOk(x)
    ensures IngestQueue.Exec(ParseRecords, METRICS_CHAN_SIZE, es + more).Some?
    ensures IngestQueue.From(IngestQueue.Posted(es + more), c) == Records(xs)
  {
    StreamLines(xs);
    FlattenedTexts(xs);
    more := IngestQueue.EverythingCanBePosted(ParseRecords, METRICS_CHAN_SIZE, es);
  }
  /** Up to a hundred metrics can wait for the Ambassador, and never more. */
  lemma HundredCanWait(xs: seq<Sent>) returns (es: seq<IngestQueue.Event<Record>>)
    requires (forall x | x in xs :: SentOk(x)) && |Records(xs)| <= 100
    ensures IngestQueue.Exec(ParseRecords, METRICS_CHAN_SIZE, es).Some? && IngestQueue.Posted(es) == []
    ensures |IngestQueue.Exec(ParseRecords, METRICS_CHAN_SIZE, es).value.queue| == |Records(xs)|
    ensures forall other | IngestQueue.Exec(ParseRecords, METRICS_CHAN_SIZE, other).Some? ::
              |IngestQueue.Exec(ParseRecords, METRICS_CHAN_SIZE, other).value.queue| <= 100
  {
    FlattenedTexts(xs);
    es := IngestQueue.QueueCanFill(ParseRecords, METRICS_CHAN_SIZE, Texts(xs));
    forall other | IngestQueue.Exec(ParseRecords, METRICS_CHAN_SIZE, other).Some?
      ensures |IngestQueue.Exec(ParseRecords, METRICS_CHAN_SIZE, other).value.queue| <= 100
    {
      IngestQueue.PostedThenQueued(ParseRecords, METRICS_CHAN_SIZE, other);
    }
  }
}

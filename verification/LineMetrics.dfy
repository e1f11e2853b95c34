/**
 From syntax trees to metrics: the values captured from tokens and ParseInfluxLineProtocolMetrics
 (lineproto/influx_line_protocol.go).
 */
module LineMetrics {
  import opened Prelude
  import opened LineLexer
  import opened LineParser

  const UINT64_LIMIT := 0x1_0000_0000_0000_0000
  const NANOS_PER_MILLI := 1_000_000

  // ---------------------------------------------------------------- captured values

  datatype FieldValue =
    | IntValue(n: nat)
    | FloatValue(text: string)
    | TrueValue
    | Unset                    // a false literal matches without being captured
    | StringValue(s: string)

  datatype Record = Record(name: string, tags: seq<(string, string)>, fields: seq<(string, FieldValue)>, timestamp: nat)

  function Numeral(s: string, base: nat): Option<nat>
    requires 2 <= base <= 10
  {
    if s == "" then Some(0)
    else
      var d := s[|s| - 1] as int - '0' as int;
      match Numeral(s[..|s| - 1], base)
      case None => None
      case Some(n) => if 0 <= d < base then Some(n * base + d) else None
  }

  /** An unsigned 64-bit number: octal after a leading zero, decimal otherwise. */
  function ParseUint(s: string): (n: Option<nat>)
    ensures n.Some? ==> n.value < UINT64_LIMIT
  {
    var n := if s == "" then None
             else if |s| > 1 && s[0] == '0' then Numeral(s[1..], 8)
             else Numeral(s, 10);
    if n.Some? && n.value < UINT64_LIMIT then n else None
  }

  /** A float literal: at most one dot, a digit in the mantissa, and digits in any exponent. */
  predicate FloatSyntax(s: string) {
    var u := s[Sign(s)..];
    var m := Mantissa(u);
    && (exists i | 0 <= i < m :: IsDigit(u[i]))
    && (forall i, j | 0 <= i < m && 0 <= j < m && u[i] == '.' && u[j] == '.' :: i == j)
    && (m == |u| || (Exponent(u[m..]) == |u| - m && |u| - m > 2))
  }

  /** The inside of a quoted string with its escapes resolved; a raw newline is not allowed. */
  function Unquote(s: string): Option<string> {
    if s == "" then Some("")
    else if s[0] == '\n' then None
    else if s[0] != '\\' then
      match Unquote(s[1..])
      case None => None
      case Some(r) => Some([s[0]] + r)
    else if |s| == 1 || s[1] !in ESCAPES then None
    else
      match Unquote(s[2..])
      case None => None
      case Some(r) => Some([ESCAPES[s[1]]] + r)
  }

  const ESCAPES := map['\\' := '\\', '"' := '"', 'n' := '\n', 'r' := '\r', 't' := '\t',
                       'a' := '\U{7}', 'b' := '\U{8}', 'v' := '\U{b}', 'f' := '\U{c}']

  const TRUES := {"t", "T", "True", "TRUE"}
  const FALSES := {"f", "F", "False", "FALSE"}

  /** The boolean literals match a string token by its value, quoted or not, before String can. */
  function TextValue(s: string): FieldValue {
    if s in TRUES then TrueValue else if s in FALSES then Unset else StringValue(s)
  }

  /** An integer token without its final i. */
  function Shorn(s: string): string {
    if s != "" && s[|s| - 1] == 'i' then s[..|s| - 1] else s
  }

  function Capture(t: Token): Option<FieldValue> {
    match t.kind
    case Int => (match ParseUint(Shorn(t.text)) case None => None case Some(n) => Some(IntValue(n)))
    case Float => if FloatSyntax(t.text) then Some(FloatValue(t.text)) else None
    case QuotedString =>
      if |t.text| < 2 then None
      else (match Unquote(t.text[1..|t.text| - 1]) case None => None case Some(s) => Some(TextValue(s)))
    case _ => Some(TextValue(t.text))
  }

  function CaptureTag(p: Pair): (string, string) {
    (p.key.text, if p.value.kind.Int? then Shorn(p.value.text) else p.value.text)
  }

  function CaptureTags(ps: seq<Pair>): seq<(string, string)> {
    if ps == [] then [] else [CaptureTag(ps[0])] + CaptureTags(ps[1..])
  }

  function CaptureFields(ps: seq<Pair>): Option<seq<(string, FieldValue)>> {
    if ps == [] then Some([])
    else
      match (Capture(ps[0].value), CaptureFields(ps[1..]))
      case (Some(v), Some(rest)) => Some([(ps[0].key.text, v)] + rest)
      case _ => None
  }

  function CaptureLine(l: Line): Option<Record> {
    match (CaptureFields([l.field] + l.fields), ParseUint(l.timestamp.text))
    case (Some(fields), Some(timestamp)) => Some(Record(l.name.text, CaptureTags(l.tags), fields, timestamp))
    case _ => None
  }

  function CaptureLines(ls: Lines): Option<seq<Record>> {
    match CaptureLine(ls.line)
    case None => None
    case Some(r) =>
      match ls
      case Last(_, _) => Some([r])
      case More(_, _, rest) =>
        match CaptureLines(rest)
        case None => None
        case Some(rs) => Some([r] + rs)
  }

  /** The lines of an input, or None for the error the parser reports. */
  function ParseRecords(content: string): Option<seq<Record>> {
    match Lex(content)
    case None => None
    case Some(ts) =>
      match ParseLines(ts)
      case None => None
      case Some(ls) => CaptureLines(ls)
  }

  function LinesOf(ls: Lines): seq<Line> {
    match ls
    case Last(line, _) => [line]
    case More(line, _, rest) => [line] + LinesOf(rest)
  }

  predicate FieldIs(p: Pair, f: (string, FieldValue)) {
    f.0 == p.key.text && Capture(p.value) == Some(f.1)
  }

  predicate FieldsAre(ps: seq<Pair>, fields: seq<(string, FieldValue)>) {
    |fields| == |ps| && forall i | 0 <= i < |ps| :: FieldIs(ps[i], fields[i])
  }

  lemma FieldsAreCons(ps: seq<Pair>, fields: seq<(string, FieldValue)>)
    requires ps != [] && fields != []
    ensures FieldsAre(ps, fields) <==> FieldIs(ps[0], fields[0]) && FieldsAre(ps[1..], fields[1..])
  {
    if FieldIs(ps[0], fields[0]) && FieldsAre(ps[1..], fields[1..]) {
      forall i | 0 <= i < |ps|
        ensures FieldIs(ps[i], fields[i])
      {
        assert i > 0 ==> ps[i] == ps[1..][i - 1] && fields[i] == fields[1..][i - 1];
      }
    }
  }

  /** Fields are captured in order, all of them or none. */
  lemma {:induction false} FieldsAllOrNothing(ps: seq<Pair>, fields: seq<(string, FieldValue)>)
    ensures CaptureFields(ps) == Some(fields) <==> FieldsAre(ps, fields)
  {
    if ps != [] && fields != [] {
      FieldsAllOrNothing(ps[1..], fields[1..]);
      FieldsAreCons(ps, fields);
      assert fields == [fields[0]] + fields[1..] && (fields[0].0, fields[0].1) == fields[0];
    }
  }

  /** A tag keeps its value's text, but for the final i of an integer. */
  predicate TagIs(p: Pair, tag: (string, string)) {
    && tag.0 == p.key.text
    && if p.value.kind.Int? && p.value.text != "" && p.value.text[|p.value.text| - 1] == 'i' then tag.1 + "i" == p.value.text
       else tag.1 == p.value.text
  }

  lemma {:induction false} TagsCaptured(ps: seq<Pair>)
    ensures |CaptureTags(ps)| == |ps| && forall i | 0 <= i < |ps| :: TagIs(ps[i], CaptureTags(ps)[i])
  {
    if ps != [] {
      TagsCaptured(ps[1..]);
      assert forall i | 1 <= i < |ps| :: ps[i] == ps[1..][i - 1] && CaptureTags(ps)[i] == CaptureTags(ps[1..])[i - 1];
    }
  }

  /** A line is captured exactly when its fields and its timestamp are, with its name and tags as they stand. */
  lemma LineAllOrNothing(l: Line, r: Record)
    ensures CaptureLine(l) == Some(r) <==>
            && r.name == l.name.text && r.tags == CaptureTags(l.tags)
            && FieldsAre([l.field] + l.fields, r.fields) && ParseUint(l.timestamp.text) == Some(r.timestamp)
    ensures CaptureLine(l) == Some(r) ==> |r.tags| == |l.tags| && forall i | 0 <= i < |l.tags| :: TagIs(l.tags[i], r.tags[i])
  {
    FieldsAllOrNothing([l.field] + l.fields, r.fields);
    TagsCaptured(l.tags);
  }

  predicate RecordsAre(lines: seq<Line>, records: seq<Record>) {
    |records| == |lines| && forall i | 0 <= i < |lines| :: CaptureLine(lines[i]) == Some(records[i])
  }

  lemma RecordsAreCons(line: Line, lines: seq<Line>, records: seq<Record>)
    requires records != []
    ensures RecordsAre([line] + lines, records) <==> CaptureLine(line) == Some(records[0]) && RecordsAre(lines, records[1..])
  {
    var all := [line] + lines;
    assert all[1..] == lines;
    if CaptureLine(line) == Some(records[0]) && RecordsAre(lines, records[1..]) {
      forall i | 0 <= i < |all|
        ensures CaptureLine(all[i]) == Some(records[i])
      {
        assert i > 0 ==> all[i] == lines[i - 1] && records[i] == records[1..][i - 1];
      }
    }
    if RecordsAre(all, records) {
      assert all[0] == line;
      assert forall i | 0 <= i < |lines| :: lines[i] == all[i + 1] && records[1..][i] == records[i + 1];
    }
  }

  /** Lines are captured in order, and one that cannot be makes the whole input an error. */
  lemma {:induction false} LinesAllOrNothing(ls: Lines, records: seq<Record>)
    ensures CaptureLines(ls) == Some(records) <==> RecordsAre(LinesOf(ls), records)
  {
    if records != [] {
      assert records == [records[0]] + records[1..];
      if ls.More? {
        LinesAllOrNothing(ls.rest, records[1..]);
        RecordsAreCons(ls.line, LinesOf(ls.rest), records);
      } else {
        assert LinesOf(ls) == [ls.line] + [];
        RecordsAreCons(ls.line, [], records);
        assert |records| == 1 ==> records == [records[0]];
      }
    }
  }

  // ---------------------------------------------------------------- metrics

  /** A float64 by where it came from: a literal, or an integer. */
  datatype Number = Literal(text: string) | Whole(n: nat)

  datatype Metric = Metric(
    name: string,
    timestamp: nat,              // milliseconds
    tags: map<string, string>,
    fvalues: map<string, Number>,
    svalues: map<string, string>)

  function NumberOf(v: FieldValue): Option<Number> {
    match v
    case IntValue(n) => Some(Whole(n))
    case FloatValue(text) => Some(Literal(text))
    case _ => None
  }

  function StringOf(v: FieldValue): Option<string> {
    match v
    case StringValue(s) => Some(s)
    case TrueValue => Some("true")
    case _ => None
  }

  /** The value of the last entry for a key that has one under f. */
  function LastOf<V, W>(entries: seq<(string, V)>, f: V -> Option<W>, key: string): Option<W> {
    if entries == [] then None
    else
      var (k, v) := entries[|entries| - 1];
      if k == key && f(v).Some? then f(v) else LastOf(entries[..|entries| - 1], f, key)
  }

  /** The map m holds exactly, for every key, the last value of its kind. */
  ghost predicate HoldsLast<V, W>(m: map<string, W>, entries: seq<(string, V)>, f: V -> Option<W>) {
    forall key :: LastOf(entries, f, key) == if key in m then Some(m[key]) else None
  }

  ghost predicate Converts(r: Record, m: Metric) {
    && m.name == r.name
    && m.timestamp * 1_000_000 <= r.timestamp < (m.timestamp + 1) * 1_000_000
    && HoldsLast(m.tags, r.tags, (v: string) => Some(v))
    && HoldsLast(m.fvalues, r.fields, NumberOf)
    && HoldsLast(m.svalues, r.fields, StringOf)
  }

  lemma HoldsLastSnoc<V, W>(m: map<string, W>, entries: seq<(string, V)>, e: (string, V), f: V -> Option<W>)
    requires HoldsLast(m, entries, f)
    ensures HoldsLast(if f(e.1).Some? then m[e.0 := f(e.1).value] else m, entries + [e], f)
  {
    assert (entries + [e])[..|entries|] == entries;
  }

  lemma HoldsLastUnique<V, W>(m: map<string, W>, n: map<string, W>, entries: seq<(string, V)>, f: V -> Option<W>)
    requires HoldsLast(m, entries, f) && HoldsLast(n, entries, f)
    ensures m == n
  {
    forall key
      ensures (key in m <==> key in n) && (key in m ==> m[key] == n[key])
    {
      assert LastOf(entries, f, key) == LastOf(entries, f, key);
    }
  }

  method ConvertTags(entries: seq<(string, string)>) returns (tags: map<string, string>)
    ensures HoldsLast(tags, entries, (v: string) => Some(v))
  {
    tags := map[];
    for i := 0 to |entries|
      invariant HoldsLast(tags, entries[..i], (v: string) => Some(v))
    {
      HoldsLastSnoc(tags, entries[..i], entries[i], (v: string) => Some(v));
      assert entries[..i] + [entries[i]] == entries[..i + 1];
      tags := tags[entries[i].0 := entries[i].1];
    }
    assert entries[..|entries|] == entries;
  }

  method ConvertFields(fields: seq<(string, FieldValue)>) returns (fvalues: map<string, Number>, svalues: map<string, string>)
    ensures HoldsLast(fvalues, fields, NumberOf)
    ensures HoldsLast(svalues, fields, StringOf)
  {
    fvalues, svalues := map[], map[];
    for i := 0 to |fields|
      invariant HoldsLast(fvalues, fields[..i], NumberOf)
      invariant HoldsLast(svalues, fields[..i], StringOf)
    {
      HoldsLastSnoc(fvalues, fields[..i], fields[i], NumberOf);
      HoldsLastSnoc(svalues, fields[..i], fields[i], StringOf);
      assert fields[..i] + [fields[i]] == fields[..i + 1];
      var (key, value) := fields[i];
      match value {
        case StringValue(s) => svalues := svalues[key := s];
        case TrueValue => svalues := svalues[key := "true"];
        case FloatValue(text) => fvalues := fvalues[key := Literal(text)];
        case IntValue(n) => fvalues := fvalues[key := Whole(n)];
        case Unset =>
      }
    }
    assert fields[..|fields|] == fields;
  }

  /** ParseInfluxLineProtocolMetrics: one metric per line, in order, or the parser's error. */
  method ParseInfluxLineProtocolMetrics(content: string) returns (results: Option<seq<Metric>>)
    ensures results.Some? <==> ParseRecords(content).Some?
    ensures results.Some? ==>
              var records := ParseRecords(content).value;
              && |results.value| == |records|
              && forall i | 0 <= i < |records| :: Converts(records[i], results.value[i])
  {
    var records := ParseRecords(content);
    if records.None? {
      return None;
    }
    var metrics: seq<Metric> := [];
    for i := 0 to |records.value|
      invariant |metrics| == i
      invariant forall j | 0 <= j < i :: Converts(records.value[j], metrics[j])
    {
      var r := records.value[i];
      var tags := ConvertTags(r.tags);
      var fvalues, svalues := ConvertFields(r.fields);
      metrics := metrics + [Metric(r.name, r.timestamp / NANOS_PER_MILLI, tags, fvalues, svalues)];
    }
    return Some(metrics);
  }

  lemma {:induction false} CapturedFieldTimestamps(ls: Lines)
    ensures CaptureLines(ls).Some? ==> forall r | r in CaptureLines(ls).value :: r.timestamp < UINT64_LIMIT
  {
    if ls.More? {
      CapturedFieldTimestamps(ls.rest);
    }
  }

  /** Every timestamp the parser accepts fits int64 once converted to milliseconds. */
  lemma MillisFitInt64(content: string, i: nat, m: Metric)
    requires ParseRecords(content).Some? && i < |ParseRecords(content).value|
    requires Converts(ParseRecords(content).value[i], m)
    ensures m.timestamp <= 9223372036854775807
  {
    CapturedFieldTimestamps(ParseLines(Lex(content).value).value);
  }
}

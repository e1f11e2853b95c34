/** The JSON path's conversion of a metric, and how it compares with the line protocol's (ingest/telegraf_json.go). */
module IngestPaths {
  import opened Prelude
  import opened LexicalGrammar
  import opened LineLexer
  import opened LineMetrics
  import opened LineRoundTrip
  import opened LineValues

  /** A decoded JSON value: a number, a string, or anything else. */
  datatype JsonValue = JNumber(n: Number) | JString(s: string) | JOther

  datatype JsonMetric = JsonMetric(timestamp: int, name: string, tags: map<string, string>, fields: map<string, JsonValue>)

  datatype Outgoing = Outgoing(
    name: string, timestamp: int, tags: map<string, string>,
    fvalues: map<string, Number>, svalues: map<string, string>)

  function Numbers(fields: map<string, JsonValue>): map<string, Number> {
    map key | key in fields && fields[key].JNumber? :: fields[key].n
  }

  function Strings(fields: map<string, JsonValue>): map<string, string> {
    map key | key in fields && fields[key].JString? :: fields[key].s
  }

  /** processMetric: split the fields by type; values of any other type are left out. */
  method ProcessMetric(m: JsonMetric) returns (out: Outgoing)
    ensures out == Outgoing(m.name, m.timestamp, m.tags, Numbers(m.fields), Strings(m.fields))
    ensures out.fvalues.Keys !! out.svalues.Keys
  {
    var fvalues: map<string, Number>, svalues: map<string, string> := map[], map[];
    var rest := m.fields.Keys;
    while rest != {}
      invariant rest <= m.fields.Keys
      invariant fvalues == map key | key in m.fields && key !in rest && m.fields[key].JNumber? :: m.fields[key].n
      invariant svalues == map key | key in m.fields && key !in rest && m.fields[key].JString? :: m.fields[key].s
    {
      var key :| key in rest;
      match m.fields[key] {
        case JNumber(n) => fvalues := fvalues[key := n];
        case JString(s) => svalues := svalues[key := s];
        case JOther =>
      }
      rest := rest - {key};
    }
    out := Outgoing(m.name, m.timestamp, m.tags, fvalues, svalues);
  }

  /** What line protocol calls a boolean: the grammar's literals, and the two it takes for strings. */
  predicate IsBoolean(s: string) {
    SaysTrue(s) || SaysFalse(s) || s == "true" || s == "false"
  }

  /** A producer's field in JSON; a boolean decodes to neither a number nor a string. */
  function JsonOf(w: Written): JsonValue {
    match w
    case WInt(n) => JNumber(Whole(n))
    case WFloat(text) => JNumber(Literal(text))
    case WBare(s) => if IsBoolean(s) then JOther else JString(s)
    case WQuoted(s) => JString(s)
  }

  predicate DistinctKeys<V>(entries: seq<(string, V)>) {
    forall i, j | 0 <= i < j < |entries| :: entries[i].0 != entries[j].0
  }

  /** What a producer would print as the line l, as a JSON object. */
  ghost predicate SameMetric(l: Source, m: JsonMetric) {
    && m.name == l.name && m.timestamp * 1_000_000 <= l.timestamp < (m.timestamp + 1) * 1_000_000
    && HoldsLast(m.tags, l.tags, (v: string) => Some(v))
    && (forall key | key in m.fields :: exists i :: 0 <= i < |Fields(l)| && Fields(l)[i].0 == key)
    && (forall i | 0 <= i < |Fields(l)| ::
          Fields(l)[i].0 in m.fields && m.fields[Fields(l)[i].0] == JsonOf(Fields(l)[i].1))
  }

  /** The content is read as one metric, this one. */
  ghost predicate ReadAs(content: string, line: Metric) {
    && ParseRecords(content).Some? && |ParseRecords(content).value| == 1
    && Converts(ParseRecords(content).value[0], line)
  }

  function Lookup<V>(m: map<string, V>, key: string): Option<V> {
    if key in m then Some(m[key]) else None
  }

  function JsonNumber(v: JsonValue): Option<Number> {
    if v.JNumber? then Some(v.n) else None
  }

  function JsonString(v: JsonValue): Option<string> {
    if v.JString? then Some(v.s) else None
  }

  lemma {:induction false} LastOfAbsent<V, W>(entries: seq<(string, V)>, f: V -> Option<W>, key: string)
    requires forall i | 0 <= i < |entries| :: entries[i].0 != key
    ensures LastOf(entries, f, key) == None
  {
    if entries != [] {
      LastOfAbsent(entries[..|entries| - 1], f, key);
    }
  }

  lemma {:induction false} LastOfDistinct<V, W>(entries: seq<(string, V)>, f: V -> Option<W>, i: nat)
    requires DistinctKeys(entries) && i < |entries|
    ensures LastOf(entries, f, entries[i].0) == f(entries[i].1)
  {
    var front := entries[..|entries| - 1];
    if i < |front| {
      LastOfDistinct(front, f, i);
      assert front[i] == entries[i];
    } else {
      LastOfAbsent(front, f, entries[i].0);
    }
  }

  ghost predicate KeysAmong<V, W>(m: map<string, W>, fields: seq<(string, V)>) {
    forall key | key in m :: exists i :: 0 <= i < |fields| && fields[i].0 == key
  }

  lemma LineKey<W>(m: map<string, W>, fields: seq<(string, Written)>, f: FieldValue -> Option<W>, key: string)
    requires HoldsLast(m, DenoteFields(fields), f) && key in m
    ensures exists i :: 0 <= i < |fields| && fields[i].0 == key
  {
    if forall i | 0 <= i < |fields| :: fields[i].0 != key {
      DenoteFieldsAt(fields);
      LastOfAbsent(DenoteFields(fields), f, key);
    }
  }

  lemma LineField<W>(m: map<string, W>, fields: seq<(string, Written)>, f: FieldValue -> Option<W>, i: nat)
    requires DistinctKeys(fields) && HoldsLast(m, DenoteFields(fields), f) && i < |fields|
    ensures Lookup(m, fields[i].0) == f(DenoteValue(fields[i].1))
  {
    DenoteFieldsAt(fields);
    LastOfDistinct(DenoteFields(fields), f, i);
  }

  /** With distinct keys, a value map of the line path holds for each key what its one field denotes. */
  lemma LineHolds<W>(m: map<string, W>, fields: seq<(string, Written)>, f: FieldValue -> Option<W>)
    requires DistinctKeys(fields) && HoldsLast(m, DenoteFields(fields), f)
    ensures forall i | 0 <= i < |fields| :: Lookup(m, fields[i].0) == f(DenoteValue(fields[i].1))
    ensures KeysAmong(m, fields)
  {
    forall i | 0 <= i < |fields|
      ensures Lookup(m, fields[i].0) == f(DenoteValue(fields[i].1))
    {
      LineField(m, fields, f, i);
    }
    forall key | key in m
      ensures exists i :: 0 <= i < |fields| && fields[i].0 == key
    {
      LineKey(m, fields, f, key);
    }
  }

  lemma MapsEqualExactlyWhen<V, W>(m: map<string, W>, n: map<string, W>, fields: seq<(string, V)>)
    requires KeysAmong(m, fields) && KeysAmong(n, fields)
    ensures m == n <==> forall i | 0 <= i < |fields| :: Lookup(m, fields[i].0) == Lookup(n, fields[i].0)
  {
    if forall i | 0 <= i < |fields| :: Lookup(m, fields[i].0) == Lookup(n, fields[i].0) {
      forall key
        ensures Lookup(m, key) == Lookup(n, key)
      {
        if i :| 0 <= i < |fields| && fields[i].0 == key {
        } else {
          assert key !in m && key !in n;
        }
      }
      assert forall key | key in m :: Lookup(m, key) == Lookup(n, key);
      assert forall key | key in n :: Lookup(m, key) == Lookup(n, key);
    }
  }

  /** Fields whose string, or lack of one, both paths agree on. */
  predicate SameString(w: Written) {
    match w
    case WBare(s) => !SaysTrue(s) && s != "true" && s != "false"
    case WQuoted(s) => !SaysTrue(s) && !SaysFalse(s)
    case _ => true
  }

  lemma FieldAgrees(w: Written)
    ensures NumberOf(DenoteValue(w)) == JsonNumber(JsonOf(w))
    ensures StringOf(DenoteValue(w)) == JsonString(JsonOf(w)) <==> SameString(w)
    ensures NumberOf(DenoteValue(w)).None? || StringOf(DenoteValue(w)).None?
  {
    if w.WBare? || w.WQuoted? {
      BooleansApart(w.s);
    }
  }

  lemma ReadAsDenoted(l: Source, line: Metric)
    requires LineOk(l) && ReadAs(Print(SLast(l, None)), line)
    ensures Converts(DenoteLine(l), line)
  {
    RoundTrip(SLast(l, None));
  }

  lemma NumbersAgree(fields: seq<(string, Written)>, fvalues: map<string, Number>, json: map<string, JsonValue>)
    requires DistinctKeys(fields) && HoldsLast(fvalues, DenoteFields(fields), NumberOf)
    requires KeysAmong(json, fields)
    requires forall i | 0 <= i < |fields| :: fields[i].0 in json && json[fields[i].0] == JsonOf(fields[i].1)
    ensures fvalues == Numbers(json)
  {
    LineHolds(fvalues, fields, NumberOf);
    forall i | 0 <= i < |fields|
      ensures Lookup(fvalues, fields[i].0) == Lookup(Numbers(json), fields[i].0)
    {
      FieldAgrees(fields[i].1);
    }
    MapsEqualExactlyWhen(fvalues, Numbers(json), fields);
  }

  lemma StringsAgreeExactlyWhen(fields: seq<(string, Written)>, svalues: map<string, string>, json: map<string, JsonValue>)
    requires DistinctKeys(fields) && HoldsLast(svalues, DenoteFields(fields), StringOf)
    requires KeysAmong(json, fields)
    requires forall i | 0 <= i < |fields| :: fields[i].0 in json && json[fields[i].0] == JsonOf(fields[i].1)
    ensures svalues == Strings(json) <==> forall i | 0 <= i < |fields| :: SameString(fields[i].1)
  {
    LineHolds(svalues, fields, StringOf);
    forall i | 0 <= i < |fields|
      ensures Lookup(svalues, fields[i].0) == Lookup(Strings(json), fields[i].0) <==> SameString(fields[i].1)
    {
      FieldAgrees(fields[i].1);
    }
    MapsEqualExactlyWhen(svalues, Strings(json), fields);
  }

  lemma ValuesApart(fields: seq<(string, Written)>, fvalues: map<string, Number>, svalues: map<string, string>)
    requires DistinctKeys(fields)
    requires HoldsLast(fvalues, DenoteFields(fields), NumberOf) && HoldsLast(svalues, DenoteFields(fields), StringOf)
    ensures fvalues.Keys !! svalues.Keys
  {
    forall key | key in fvalues
      ensures key !in svalues
    {
      LineKey(fvalues, fields, NumberOf, key);
      var i :| 0 <= i < |fields| && fields[i].0 == key;
      LineField(fvalues, fields, NumberOf, i);
      LineField(svalues, fields, StringOf, i);
      FieldAgrees(fields[i].1);
    }
  }

  /** The last tag of its key. */
  predicate LastTag(tags: seq<(string, string)>, i: nat)
    requires i < |tags|
  {
    forall j | i < j < |tags| :: tags[j].0 != tags[i].0
  }

  lemma {:induction false} DenoteTagsAt(tags: seq<(string, string)>)
    ensures |DenoteTags(tags)| == |tags|
    ensures forall i | 0 <= i < |tags| :: DenoteTags(tags)[i] == (tags[i].0, DenoteTag(tags[i].1))
  {
    if tags != [] {
      DenoteTagsAt(tags[1..]);
    }
  }

  lemma {:induction false} LastTagHeld(tags: seq<(string, string)>, i: nat)
    requires i < |tags| && LastTag(tags, i)
    ensures LastOf(tags, (v: string) => Some(v), tags[i].0) == Some(tags[i].1)
  {
    var front := tags[..|tags| - 1];
    if i < |front| {
      assert LastTag(front, i);
      LastTagHeld(front, i);
    }
  }

  lemma {:induction false} LastTagOf(tags: seq<(string, string)>, key: string) returns (i: nat)
    requires LastOf(tags, (v: string) => Some(v), key).Some?
    ensures i < |tags| && tags[i].0 == key && LastTag(tags, i)
  {
    if tags[|tags| - 1].0 == key {
      i := |tags| - 1;
    } else {
      i := LastTagOf(tags[..|tags| - 1], key);
    }
  }

  lemma TagKept(v: string)
    requires Bare(v) || Derives(Float, v) || Derives(Int, v)
    ensures DenoteTag(v) == v <==> !Derives(Int, v)
  {
    if Derives(Int, v) {
      var g, d :| IsIntOf(v, g, d);
      assert d[0] in d;
      assert v[0] == if g == "" then d[0] else g[0];
    } else if !Bare(v) {
      FloatChars(v);
      assert v[|v| - 1] in v;
    }
  }

  lemma TagLookup(tags: seq<(string, string)>, read: map<string, string>, json: map<string, string>, i: nat)
    requires i < |tags| && TagOk(tags[i]) && LastTag(tags, i)
    requires HoldsLast(read, DenoteTags(tags), (v: string) => Some(v))
    requires HoldsLast(json, tags, (v: string) => Some(v))
    ensures Lookup(read, tags[i].0) == Lookup(json, tags[i].0) <==> !Derives(Int, tags[i].1)
  {
    DenoteTagsAt(tags);
    assert LastTag(DenoteTags(tags), i);
    LastTagHeld(tags, i);
    LastTagHeld(DenoteTags(tags), i);
    TagKept(tags[i].1);
  }

  /** A key in either map is that of a tag which counts. */
  lemma TagKey(tags: seq<(string, string)>, read: map<string, string>, json: map<string, string>, key: string) returns (i: nat)
    requires HoldsLast(read, DenoteTags(tags), (v: string) => Some(v))
    requires HoldsLast(json, tags, (v: string) => Some(v))
    requires key in read || key in json
    ensures i < |tags| && tags[i].0 == key && LastTag(tags, i)
  {
    DenoteTagsAt(tags);
    if key in json {
      i := LastTagOf(tags, key);
    } else {
      i := LastTagOf(DenoteTags(tags), key);
      assert forall j | i < j < |tags| :: DenoteTags(tags)[j].0 == tags[j].0;
    }
  }

  lemma SameMaps(m: map<string, string>, n: map<string, string>)
    requires forall key | key in m || key in n :: Lookup(m, key) == Lookup(n, key)
    ensures m == n
  {
    assert forall key | key in m :: Lookup(m, key) == Lookup(n, key);
    assert forall key | key in n :: Lookup(m, key) == Lookup(n, key);
  }

  lemma TagsAgree(tags: seq<(string, string)>, read: map<string, string>, json: map<string, string>)
    requires HoldsLast(read, DenoteTags(tags), (v: string) => Some(v))
    requires HoldsLast(json, tags, (v: string) => Some(v))
    requires forall i | 0 <= i < |tags| && LastTag(tags, i) :: Lookup(read, tags[i].0) == Lookup(json, tags[i].0)
    ensures read == json
  {
    forall key | key in read || key in json
      ensures Lookup(read, key) == Lookup(json, key)
    {
      var i := TagKey(tags, read, json, key);
      assert Lookup(read, tags[i].0) == Lookup(json, tags[i].0);
    }
    SameMaps(read, json);
  }

  /** The tags read from the line are those of the object, except that integers lose their final i. */
  lemma TagsAgreeExactlyWhen(tags: seq<(string, string)>, read: map<string, string>, json: map<string, string>)
    requires forall t | t in tags :: TagOk(t)
    requires HoldsLast(read, DenoteTags(tags), (v: string) => Some(v))
    requires HoldsLast(json, tags, (v: string) => Some(v))
    ensures read == json <==> forall i | 0 <= i < |tags| && LastTag(tags, i) :: !Derives(Int, tags[i].1)
  {
    if i :| 0 <= i < |tags| && LastTag(tags, i) && Derives(Int, tags[i].1) {
      assert tags[i] in tags;
      TagLookup(tags, read, json, i);
    } else {
      forall i | 0 <= i < |tags| && LastTag(tags, i)
        ensures Lookup(read, tags[i].0) == Lookup(json, tags[i].0)
      {
        assert tags[i] in tags;
        TagLookup(tags, read, json, i);
      }
      TagsAgree(tags, read, json);
    }
  }

  /**
   From one producer metric with distinct field keys, printed as a line and as a JSON object, the two
   paths give the same name, milliseconds and numbers; the same tags if and only if no tag value that
   counts reads as an integer; and the same strings if and only if no field is a bare boolean other
   than the grammar's false literals and no quoted string spells one of the grammar's boolean literals.
   The value maps are disjoint.
   */
  lemma PathsAgreeExactlyWhen(l: Source, m: JsonMetric, line: Metric)
    requires LineOk(l) && DistinctKeys(Fields(l)) && SameMetric(l, m) && ReadAs(Print(SLast(l, None)), line)
    ensures line.name == m.name && line.timestamp == m.timestamp && line.fvalues == Numbers(m.fields)
    ensures line.tags == m.tags <==> forall i | 0 <= i < |l.tags| && LastTag(l.tags, i) :: !Derives(Int, l.tags[i].1)
    ensures line.svalues == Strings(m.fields) <==> forall i | 0 <= i < |Fields(l)| :: SameString(Fields(l)[i].1)
    ensures line.fvalues.Keys !! line.svalues.Keys
  {
    ReadAsDenoted(l, line);
    NumbersAgree(Fields(l), line.fvalues, m.fields);
    StringsAgreeExactlyWhen(Fields(l), line.svalues, m.fields);
    ValuesApart(Fields(l), line.fvalues, line.svalues);
    TagsAgreeExactlyWhen(l.tags, line.tags, m.tags);
  }

  /** What becomes of a field, by its value: true booleans arrive as "true", false literals not at all. */
  lemma FieldArrives(l: Source, line: Metric, i: nat)
    requires LineOk(l) && DistinctKeys(Fields(l)) && i < |Fields(l)| && ReadAs(Print(SLast(l, None)), line)
    ensures var (key, w) := Fields(l)[i];
            && Lookup(line.fvalues, key) == (match w case WInt(n) => Some(Whole(n)) case WFloat(text) => Some(Literal(text)) case _ => None)
            && Lookup(line.svalues, key) ==
                 if w.WInt? || w.WFloat? || SaysFalse(w.s) then None
                 else if SaysTrue(w.s) then Some("true") else Some(w.s)
  {
    ReadAsDenoted(l, line);
    LineField(line.fvalues, Fields(l), NumberOf, i);
    LineField(line.svalues, Fields(l), StringOf, i);
    var w := Fields(l)[i].1;
    if w.WBare? || w.WQuoted? {
      BooleansApart(w.s);
    }
  }

  function Entry(key: string, s: Option<string>): map<string, string> {
    match s case None => map[] case Some(value) => map[key := value]
  }

  lemma OneFieldRead(l: Source, line: Metric)
    requires LineOk(l) && l.fields == [] && ReadAs(Print(SLast(l, None)), line)
    ensures line.svalues == Entry(l.field.0, StringOf(DenoteValue(l.field.1)))
  {
    ReadAsDenoted(l, line);
    var fields := [l.field];
    assert Fields(l) == fields;
    LineHolds(line.svalues, fields, StringOf);
    assert Lookup(line.svalues, fields[0].0) == StringOf(DenoteValue(l.field.1));
  }

  lemma OneFieldJson(l: Source, m: JsonMetric)
    requires SameMetric(l, m) && l.fields == []
    ensures Strings(m.fields) == Entry(l.field.0, JsonString(JsonOf(l.field.1)))
  {
    assert Fields(l) == [l.field];
    assert Fields(l)[0] == l.field;
    assert l.field.0 in m.fields && forall key | key in m.fields :: key == l.field.0;
  }

  lemma DifferingValues()
    ensures StringOf(DenoteValue(WQuoted("F"))) == None && JsonString(JsonOf(WQuoted("F"))) == Some("F")
    ensures StringOf(DenoteValue(WBare("false"))) == Some("false") && JsonString(JsonOf(WBare("false"))) == None
  {
    BooleansApart("F");
    BooleansApart("false");
  }

  /**
   Two kinds of metric on which the paths differ: the quoted string "F" is kept by the JSON path only,
   and the boolean false by the line path only, as a string.
   */
  lemma PathsDiffer(l: Source, m: JsonMetric, line: Metric)
    requires LineOk(l) && l.fields == [] && SameMetric(l, m) && ReadAs(Print(SLast(l, None)), line)
    requires l.field.1 == WQuoted("F") || l.field.1 == WBare("false")
    ensures l.field.1.WQuoted? ==> Strings(m.fields) == map[l.field.0 := "F"] && line.svalues == map[]
    ensures l.field.1.WBare? ==> Strings(m.fields) == map[] && line.svalues == map[l.field.0 := "false"]
  {
    OneFieldRead(l, line);
    OneFieldJson(l, m);
    DifferingValues();
  }

  /** Lines such as these are in the domain. */
  lemma SuchLinesExist(w: Written)
    requires w == WQuoted("F") || w == WBare("false")
    ensures LineOk(Source(false, "m", [], ("k", w), [], 0))
  {
    assert Bare("m") && Bare("k") && Bare("false");
  }
}

/**
 A canonical printer for Influx lines, and the proof that lexing and parsing its output gives back
 exactly the lines that were printed.
 */
module LineRoundTrip {
  import opened Prelude
  import opened LineLexer
  import opened LineParser
  import opened LexicalGrammar
  import opened LineMetrics
  import opened LineValues

  /** A field value as a producer writes it. */
  datatype Written =
    | WInt(n: nat)
    | WFloat(text: string)
    | WBare(s: string)
    | WQuoted(s: string)

  datatype Source = Source(
    prefixed: bool,
    name: string,
    tags: seq<(string, string)>,
    field: (string, Written),
    fields: seq<(string, Written)>,
    timestamp: nat)

  /** Lines with the newline after each; the last one's is optional. */
  datatype Sources =
    | SLast(line: Source, final: Option<string>)
    | SMore(line: Source, newline: string, rest: Sources)

  // ---------------------------------------------------------------- the printer

  function EscapeChar(c: char): string {
    if c == '"' then "\\\"" else if c == '\\' then "\\\\" else if c == '\n' then "\\n" else [c]
  }

  function Escape(s: string): string {
    if s == "" then "" else EscapeChar(s[0]) + Escape(s[1..])
  }

  function PrintValue(w: Written): string {
    match w
    case WInt(n) => Decimal(n) + "i"
    case WFloat(text) => text
    case WBare(s) => s
    case WQuoted(s) => "\"" + Escape(s) + "\""
  }

  function PrintTags(tags: seq<(string, string)>): string {
    if tags == [] then "" else "," + (tags[0].0 + ("=" + (tags[0].1 + PrintTags(tags[1..]))))
  }

  function PrintFields(fields: seq<(string, Written)>): string {
    if fields == [] then "" else "," + (fields[0].0 + ("=" + (PrintValue(fields[0].1) + PrintFields(fields[1..]))))
  }

  function PrintSecondHalf(l: Source): string {
    " " + (l.field.0 + ("=" + (PrintValue(l.field.1) + (PrintFields(l.fields) + (" " + Decimal(l.timestamp))))))
  }

  function PrintLine(l: Source): string {
    (if l.prefixed then "> " else "") + (l.name + (PrintTags(l.tags) + PrintSecondHalf(l)))
  }

  function Print(ls: Sources): string {
    match ls
    case SLast(line, None) => PrintLine(line)
    case SLast(line, Some(newline)) => PrintLine(line) + newline
    case SMore(line, newline, rest) => PrintLine(line) + (newline + Print(rest))
  }

  // ---------------------------------------------------------------- what printed lines mean

  function DenoteValue(w: Written): FieldValue {
    match w
    case WInt(n) => IntValue(n)
    case WFloat(text) => FloatValue(text)
    case WBare(s) => TextValue(s)
    case WQuoted(s) => TextValue(s)
  }

  function DenoteFields(fields: seq<(string, Written)>): seq<(string, FieldValue)> {
    if fields == [] then [] else [(fields[0].0, DenoteValue(fields[0].1))] + DenoteFields(fields[1..])
  }

  function Fields(l: Source): seq<(string, Written)> {
    [l.field] + l.fields
  }

  /** A tag value that reads as an integer loses its final i. */
  function DenoteTag(v: string): string {
    if !Bare(v) && v != "" && v[|v| - 1] == 'i' then v[..|v| - 1] else v
  }

  function DenoteTags(tags: seq<(string, string)>): seq<(string, string)> {
    if tags == [] then [] else [(tags[0].0, DenoteTag(tags[0].1))] + DenoteTags(tags[1..])
  }

  function DenoteLine(l: Source): Record {
    Record(l.name, DenoteTags(l.tags), DenoteFields(Fields(l)), l.timestamp)
  }

  function Denote(ls: Sources): seq<Record> {
    match ls
    case SLast(line, _) => [DenoteLine(line)]
    case SMore(line, _, rest) => [DenoteLine(line)] + Denote(rest)
  }

  // ---------------------------------------------------------------- the domain

  predicate BareChar(c: char) {
    c as int <= 0xFFFF && c !in {'\\', ',', ' ', '='}
  }

  /** A bare string: nothing the lexer would end it at, and no start that another production claims. */
  predicate Bare(s: string) {
    && s != ""
    && (forall c | c in s :: BareChar(c))
    && !('0' <= s[0] <= '9') && s[0] !in {'.', '+', '-', '"', '>', '\n', '\r'}
  }

  ghost predicate TagOk(tag: (string, string)) {
    Bare(tag.0) && (Bare(tag.1) || Derives(Float, tag.1) || Derives(Int, tag.1))
  }

  ghost predicate ValueOk(w: Written) {
    match w
    case WInt(n) => n <= 18446744073709551615
    case WFloat(text) => DecimalFloat(text)
    case WBare(s) => Bare(s)
    case WQuoted(s) => forall c | c in s :: c as int <= 0xFFFF
  }

  ghost predicate FieldOk(f: (string, Written)) {
    Bare(f.0) && ValueOk(f.1)
  }

  ghost predicate LineOk(l: Source) {
    && Bare(l.name) && l.timestamp <= 18446744073709551615
    && (forall t | t in l.tags :: TagOk(t))
    && FieldOk(l.field) && (forall f | f in l.fields :: FieldOk(f))
  }

  ghost predicate Ok(ls: Sources) {
    && LineOk(ls.line)
    && match ls
       case SLast(_, final) => final.Some? ==> final.value in {"\n", "\r\n", "\r"}
       case SMore(_, newline, rest) => newline in {"\n", "\r\n", "\r"} && Ok(rest)
  }

  // ---------------------------------------------------------------- the tokens of a printed text

  function ValueToken(w: Written): Token {
    match w
    case WInt(_) => Token(Int, PrintValue(w))
    case WFloat(_) => Token(Float, PrintValue(w))
    case WBare(_) => Token(String, PrintValue(w))
    case WQuoted(_) => Token(QuotedString, PrintValue(w))
  }

  function TagToken(v: string): Token {
    Token(if Bare(v) then String else if v != "" && v[|v| - 1] == 'i' then Int else Float, v)
  }

  function TagPairs(tags: seq<(string, string)>): seq<Pair> {
    if tags == [] then []
    else [Pair(Token(String, tags[0].0), TagToken(tags[0].1))] + TagPairs(tags[1..])
  }

  function FieldPair(f: (string, Written)): Pair {
    Pair(Token(String, f.0), ValueToken(f.1))
  }

  function FieldPairs(fields: seq<(string, Written)>): seq<Pair> {
    if fields == [] then [] else [FieldPair(fields[0])] + FieldPairs(fields[1..])
  }

  function Tree(l: Source): Line {
    Line(l.prefixed, Token(String, l.name), TagPairs(l.tags), FieldPair(l.field), FieldPairs(l.fields),
         Token(Float, Decimal(l.timestamp)))
  }

  function Trees(ls: Sources): Lines {
    match ls
    case SLast(line, None) => Last(Tree(line), None)
    case SLast(line, Some(newline)) => Last(Tree(line), Some(Token(Newline, newline)))
    case SMore(line, newline, rest) => More(Tree(line), Token(Newline, newline), Trees(rest))
  }

  // ---------------------------------------------------------------- each piece lexes to its token

  lemma {:induction false} BareBody(s: string)
    requires forall c | c in s :: BareChar(c)
    ensures StringBody(s) == |s|
  {
    if s != "" {
      assert BareChar(s[0]);
      BareBody(s[1..]);
    }
  }

  lemma BareGenuine(s: string)
    requires Bare(s)
    ensures Genuine(Token(String, s))
  {
    BareBody(s);
    assert Sign(s) == 0 && s[0..] == s;
    assert s[..|s|] == s;
  }

  lemma TagValueGenuine(v: string)
    requires Bare(v) || Derives(Float, v) || Derives(Int, v)
    ensures var t := TagToken(v);
            && Genuine(t) && IsValue(t, true) && Boundary(t, ',') && Boundary(t, ' ')
            && (if t.kind.Int? then Shorn(v) else v) == DenoteTag(v)
  {
    if Bare(v) {
      BareGenuine(v);
    } else if Derives(Int, v) {
      var g, d :| IsIntOf(v, g, d);
      IntIsToken(v);
    } else {
      FloatIsToken(v);
      FloatChars(v);
      assert v[|v| - 1] in v;
    }
  }

  lemma DecimalGenuine(n: nat)
    ensures Genuine(Token(Float, Decimal(n)))
  {
    assert "" + Decimal(n) + "" == Decimal(n);
    WholeIsDecimal("", n, "");
    DecimalFloatRead(Decimal(n));
  }

  lemma DecimalInt(n: nat)
    ensures Genuine(Token(Int, Decimal(n) + "i"))
    ensures n <= 18446744073709551615 ==> Capture(Token(Int, Decimal(n) + "i")) == Some(IntValue(n))
  {
    assert "" + Decimal(n) + "i" == Decimal(n) + "i";
    IntegersRead("", n);
  }

  lemma EscapeCharBody(c: char, tail: string)
    requires IsAny(c)
    ensures QuotedBody(EscapeChar(c) + tail) == |EscapeChar(c)| + QuotedBody(tail)
  {
    assert (EscapeChar(c) + tail)[|EscapeChar(c)|..] == tail;
  }

  lemma {:induction false} EscapeBody(s: string, rest: string)
    requires forall c | c in s :: IsAny(c)
    ensures QuotedBody(Escape(s) + ("\"" + rest)) == |Escape(s)|
  {
    if s == "" {
      assert Escape(s) + ("\"" + rest) == "\"" + rest;
    } else {
      assert IsAny(s[0]);
      EscapeBody(s[1..], rest);
      Assoc(EscapeChar(s[0]), Escape(s[1..]), "\"" + rest);
      EscapeCharBody(s[0], Escape(s[1..]) + ("\"" + rest));
    }
  }

  lemma {:induction false} UnquoteEscape(s: string)
    ensures Unquote(Escape(s)) == Some(s)
  {
    if s != "" {
      UnquoteEscape(s[1..]);
      var e, tail := Escape(s), Escape(s[1..]);
      assert [s[0]] + s[1..] == s;
      if s[0] in {'"', '\\', '\n'} {
        assert e[0] == '\\' && e[2..] == tail;
        assert ESCAPES[e[1]] == s[0];
      } else {
        assert e[0] == s[0] && e[1..] == tail;
      }
    }
  }

  lemma QuotedGenuine(s: string)
    requires forall c | c in s :: IsAny(c)
    ensures Genuine(Token(QuotedString, PrintValue(WQuoted(s))))
  {
    var e := Escape(s);
    var t := PrintValue(WQuoted(s));
    EscapeBody(s, "");
    assert t[1..] == e + ("\"" + "");
    assert t[0] == '"' && t[1 + |e|] == '"' && |t| == |e| + 2;
    assert Length(QuotedString, t) == |t|;
    NoNumberFrom(t, "");
    assert t + "" == t && t[..|t|] == t;
    assert FirstMatch(t) == Some(QuotedString);
  }

  /** A value's token is read back as itself, and may be followed by a comma or a space. */
  lemma ValueGenuine(w: Written)
    requires ValueOk(w)
    ensures var t := ValueToken(w);
            && Genuine(t) && IsValue(t, false) && Boundary(t, ',') && Boundary(t, ' ')
  {
    match w {
      case WInt(n) => DecimalInt(n);
      case WFloat(text) => DecimalFloatRead(text);
      case WBare(s) => BareGenuine(s);
      case WQuoted(s) => QuotedGenuine(s);
    }
  }

  /** What is captured from a printed value is the value. */
  lemma ValueCaptured(w: Written)
    requires ValueOk(w)
    ensures Capture(ValueToken(w)) == Some(DenoteValue(w))
  {
    match w {
      case WInt(n) => DecimalInt(n);
      case WFloat(text) => DecimalFloatRead(text);
      case WBare(s) =>
      case WQuoted(s) =>
        UnquoteEscape(s);
        var t := PrintValue(w);
        assert t[1..|t| - 1] == Escape(s);
    }
  }

  // ---------------------------------------------------------------- the printed text is the tree's text

  lemma {:induction false} TagsText(tags: seq<(string, string)>, rest: seq<Token>)
    ensures Text(PairsThen(TagPairs(tags), rest)) == PrintTags(tags) + Text(rest)
  {
    if tags == [] {
      assert PrintTags(tags) + Text(rest) == Text(rest);
    } else {
      TagsText(tags[1..], rest);
      var inner := PairsThen(TagPairs(tags[1..]), rest);
      assert TagPairs(tags)[1..] == TagPairs(tags[1..]);
      TextCons(COMMA, PairThen(TagPairs(tags)[0], inner));
      PairText(TagPairs(tags)[0], inner);
      CommaPair(tags[0].0, tags[0].1, PrintTags(tags[1..]), Text(rest));
    }
  }

  lemma CommaPair(k: string, v: string, tail: string, r: string)
    ensures ("," + (k + ("=" + (v + tail)))) + r == "," + (k + ("=" + (v + (tail + r))))
  {
    Assoc(v, tail, r);
    Assoc("=", v + tail, r);
    Assoc(k, "=" + (v + tail), r);
    Assoc(",", k + ("=" + (v + tail)), r);
  }

  lemma TextCons(t: Token, rest: seq<Token>)
    ensures Text(Cons(t, rest)) == t.text + Text(rest)
  {
  }

  lemma PairText(p: Pair, rest: seq<Token>)
    ensures Text(PairThen(p, rest)) == p.key.text + ("=" + (p.value.text + Text(rest)))
  {
    assert PairThen(p, rest) == Cons(p.key, Cons(EQUALS, Cons(p.value, rest)));
    TextCons(p.key, Cons(EQUALS, Cons(p.value, rest)));
    TextCons(EQUALS, Cons(p.value, rest));
    TextCons(p.value, rest);
  }

  lemma {:induction false} FieldsText(fields: seq<(string, Written)>, rest: seq<Token>)
    ensures Text(PairsThen(FieldPairs(fields), rest)) == PrintFields(fields) + Text(rest)
  {
    if fields == [] {
      assert PrintFields(fields) + Text(rest) == Text(rest);
    } else {
      FieldsText(fields[1..], rest);
      var inner := PairsThen(FieldPairs(fields[1..]), rest);
      assert FieldPairs(fields)[1..] == FieldPairs(fields[1..]);
      TextCons(COMMA, PairThen(FieldPairs(fields)[0], inner));
      PairText(FieldPairs(fields)[0], inner);
      CommaPair(fields[0].0, PrintValue(fields[0].1), PrintFields(fields[1..]), Text(rest));
    }
  }

  lemma SecondHalfText(l: Source, rest: seq<Token>)
    ensures var t := Tree(l);
            Text(FieldsThen(t.field, t.fields, t.timestamp, rest)) == PrintSecondHalf(l) + Text(rest)
  {
    var t, r := Tree(l), Text(rest);
    var end := Cons(SPACE, Cons(t.timestamp, rest));
    TextCons(SPACE, Cons(t.timestamp, rest));
    TextCons(t.timestamp, rest);
    FieldsText(l.fields, end);
    var more := PairsThen(t.fields, end);
    PairText(t.field, more);
    TextCons(SPACE, PairThen(t.field, more));
    SecondHalfAssoc(l, r);
  }

  lemma SecondHalfAssoc(l: Source, r: string)
    ensures PrintSecondHalf(l) + r
         == " " + (l.field.0 + ("=" + (PrintValue(l.field.1) + (PrintFields(l.fields) + (" " + (Decimal(l.timestamp) + r))))))
  {
    var d, f, v := Decimal(l.timestamp), PrintFields(l.fields), PrintValue(l.field.1);
    Assoc(" ", d, r);
    Assoc(f, " " + d, r);
    Assoc(v, f + (" " + d), r);
    Assoc("=", v + (f + (" " + d)), r);
    Assoc(l.field.0, "=" + (v + (f + (" " + d))), r);
    Assoc(" ", l.field.0 + ("=" + (v + (f + (" " + d)))), r);
  }

  lemma NamedText(l: Source, rest: seq<Token>)
    ensures Text(NamedThen(Tree(l), rest)) == (l.name + (PrintTags(l.tags) + PrintSecondHalf(l))) + Text(rest)
  {
    var t := Tree(l);
    var second := FieldsThen(t.field, t.fields, t.timestamp, rest);
    SecondHalfText(l, rest);
    TagsText(l.tags, second);
    TextCons(t.name, PairsThen(t.tags, second));
    Assoc(PrintTags(l.tags), PrintSecondHalf(l), Text(rest));
    Assoc(l.name, PrintTags(l.tags) + PrintSecondHalf(l), Text(rest));
  }

  lemma LineText(l: Source, rest: seq<Token>)
    ensures Text(LineThen(Tree(l), rest)) == PrintLine(l) + Text(rest)
  {
    NamedText(l, rest);
    if l.prefixed {
      TextCons(PREFIX, NamedThen(Tree(l), rest));
      Assoc("> ", l.name + (PrintTags(l.tags) + PrintSecondHalf(l)), Text(rest));
    }
  }

  lemma {:induction false} PrintIsText(ls: Sources)
    ensures Print(ls) == Text(Tokens(Trees(ls)))
  {
    match ls
    case SLast(line, None) =>
      LineText(line, []);
      assert PrintLine(line) + "" == PrintLine(line);
    case SLast(line, Some(newline)) =>
      LineText(line, Cons(Token(Newline, newline), []));
      assert newline + "" == newline;
    case SMore(line, newline, rest) =>
      PrintIsText(rest);
      LineText(line, Cons(Token(Newline, newline), Tokens(Trees(rest))));
  }

  // ---------------------------------------------------------------- the tokens keep their boundaries

  lemma SeparableCons(t: Token, rest: seq<Token>)
    requires Genuine(t) && Separable(rest) && (rest != [] ==> Follows(t, rest[0]))
    ensures Separable(Cons(t, rest))
  {
    SeparableConcat([t], rest);
  }

  lemma MarkGenuine(t: Token)
    requires t in {COMMA, SPACE, EQUALS, PREFIX}
      || (t.kind.Newline? && (t.text == "\n" || t.text == "\r\n" || t.text == "\r"))
    ensures Genuine(t)
  {
    NoNumberFrom(t.text, "");
    assert t.text + "" == t.text;
    assert t.text[..|t.text|] == t.text;
    assert Length(t.kind, t.text) == |t.text|;
  }

  lemma MarksGenuine()
    ensures Genuine(COMMA) && Genuine(SPACE) && Genuine(EQUALS) && Genuine(PREFIX)
  {
    MarkGenuine(COMMA);
    MarkGenuine(SPACE);
    MarkGenuine(EQUALS);
    MarkGenuine(PREFIX);
  }

  predicate GoodPair(p: Pair, ofTag: bool) {
    && WellFormedPair(p, ofTag)
    && Genuine(p.key) && Boundary(p.key, '=')
    && Genuine(p.value) && Boundary(p.value, ',') && Boundary(p.value, ' ')
  }

  lemma PairSeparable(p: Pair, rest: seq<Token>, ofTag: bool)
    requires GoodPair(p, ofTag) && Separable(rest) && rest != [] && Follows(p.value, rest[0])
    ensures Separable(PairThen(p, rest))
  {
    MarksGenuine();
    SeparableCons(p.value, rest);
    SeparableCons(EQUALS, Cons(p.value, rest));
    SeparableCons(p.key, Cons(EQUALS, Cons(p.value, rest)));
    assert PairThen(p, rest) == Cons(p.key, Cons(EQUALS, Cons(p.value, rest)));
  }

  lemma {:induction false} PairsSeparable(ps: seq<Pair>, rest: seq<Token>, ofTag: bool)
    requires forall p | p in ps :: GoodPair(p, ofTag)
    requires Separable(rest) && rest != [] && rest[0] == SPACE
    ensures Separable(PairsThen(ps, rest))
    ensures PairsThen(ps, rest) != [] && PairsThen(ps, rest)[0] in {COMMA, SPACE}
  {
    if ps != [] {
      assert ps[0] in ps;
      PairsSeparable(ps[1..], rest, ofTag);
      PairSeparable(ps[0], PairsThen(ps[1..], rest), ofTag);
      MarksGenuine();
      SeparableCons(COMMA, PairThen(ps[0], PairsThen(ps[1..], rest)));
    }
  }

  lemma {:induction false} TagPairsGood(tags: seq<(string, string)>)
    requires forall t | t in tags :: TagOk(t)
    ensures forall p | p in TagPairs(tags) :: GoodPair(p, true)
    ensures CaptureTags(TagPairs(tags)) == DenoteTags(tags)
  {
    if tags != [] {
      assert tags[0] in tags;
      BareGenuine(tags[0].0);
      TagValueGenuine(tags[0].1);
      TagPairsGood(tags[1..]);
      assert TagPairs(tags)[1..] == TagPairs(tags[1..]);
    }
  }

  lemma FieldPairGood(f: (string, Written))
    requires FieldOk(f)
    ensures GoodPair(FieldPair(f), false)
  {
    BareGenuine(f.0);
    ValueGenuine(f.1);
  }

  lemma {:induction false} FieldPairsGood(fields: seq<(string, Written)>)
    requires forall f | f in fields :: FieldOk(f)
    ensures forall p | p in FieldPairs(fields) :: GoodPair(p, false)
    ensures CaptureFields(FieldPairs(fields)) == Some(DenoteFields(fields))
  {
    if fields != [] {
      assert fields[0] in fields;
      FieldPairGood(fields[0]);
      ValueCaptured(fields[0].1);
      FieldPairsGood(fields[1..]);
      assert FieldPairs(fields)[1..] == FieldPairs(fields[1..]);
    }
  }

  lemma LineGood(l: Source)
    requires LineOk(l)
    ensures WellFormedLine(Tree(l)) && CaptureLine(Tree(l)) == Some(DenoteLine(l))
  {
    TagPairsGood(l.tags);
    FieldPairsGood(l.fields);
    FieldPairsGood([l.field] + l.fields);
    FieldPairGood(l.field);
    assert ([l.field] + l.fields)[1..] == l.fields;
    assert [FieldPair(l.field)] + FieldPairs(l.fields) == FieldPairs([l.field] + l.fields);
    DecimalDigits(l.timestamp);
    DecimalsRead(Decimal(l.timestamp), l.timestamp);
  }

  lemma SecondHalfSeparable(l: Source, rest: seq<Token>)
    requires LineOk(l) && Separable(rest) && (rest != [] ==> rest[0].kind.Newline?)
    requires rest != [] ==> rest[0].text in {"\n", "\r\n", "\r"}
    ensures var t := Tree(l); Separable(FieldsThen(t.field, t.fields, t.timestamp, rest))
  {
    var t := Tree(l);
    var end := Cons(SPACE, Cons(t.timestamp, rest));
    DecimalGenuine(l.timestamp);
    SeparableCons(t.timestamp, rest);
    MarksGenuine();
    SeparableCons(SPACE, Cons(t.timestamp, rest));
    FieldPairsGood(l.fields);
    PairsSeparable(t.fields, end, false);
    FieldPairGood(l.field);
    PairSeparable(t.field, PairsThen(t.fields, end), false);
    SeparableCons(SPACE, PairThen(t.field, PairsThen(t.fields, end)));
  }

  lemma LineSeparable(l: Source, rest: seq<Token>)
    requires LineOk(l) && Separable(rest) && (rest != [] ==> rest[0].kind.Newline?)
    requires rest != [] ==> rest[0].text in {"\n", "\r\n", "\r"}
    ensures var ts := LineThen(Tree(l), rest);
            Separable(ts) && ts[0].text != "" && ts[0].text[0] !in {'\n', '\r'}
  {
    var t := Tree(l);
    var second := FieldsThen(t.field, t.fields, t.timestamp, rest);
    SecondHalfSeparable(l, rest);
    TagPairsGood(l.tags);
    PairsSeparable(t.tags, second, true);
    BareGenuine(l.name);
    SeparableCons(t.name, PairsThen(t.tags, second));
    if l.prefixed {
      MarksGenuine();
      SeparableCons(PREFIX, NamedThen(t, rest));
    }
  }

  lemma {:induction false} TreesGood(ls: Sources)
    requires Ok(ls)
    ensures WellFormed(Trees(ls)) && CaptureLines(Trees(ls)) == Some(Denote(ls))
    ensures var ts := Tokens(Trees(ls));
            Separable(ts) && ts[0].text != "" && ts[0].text[0] !in {'\n', '\r'}
  {
    LineGood(ls.line);
    match ls
    case SLast(line, None) => LineSeparable(line, []);
    case SLast(line, Some(newline)) =>
      MarkGenuine(Token(Newline, newline));
      SeparableCons(Token(Newline, newline), []);
      LineSeparable(line, Cons(Token(Newline, newline), []));
    case SMore(line, newline, rest) =>
      TreesGood(rest);
      MarkGenuine(Token(Newline, newline));
      SeparableCons(Token(Newline, newline), Tokens(Trees(rest)));
      LineSeparable(line, Cons(Token(Newline, newline), Tokens(Trees(rest))));
  }

  /**
   Lexing and parsing the printed lines gives back exactly those lines, with or without the "> "
   prefix on any of them, whichever newline separates them, and with or without one at the end.
   */
  lemma RoundTrip(ls: Sources)
    requires Ok(ls)
    ensures ParseRecords(Print(ls)) == Some(Denote(ls))
  {
    PrintIsText(ls);
    TreesGood(ls);
    LexText(Tokens(Trees(ls)));
    ParseComplete(Trees(ls));
  }

  function SourceLines(ls: Sources): seq<Source> {
    match ls
    case SLast(line, _) => [line]
    case SMore(line, _, rest) => [line] + SourceLines(rest)
  }

  lemma {:induction false} DenoteAt(ls: Sources, n: nat)
    requires n < |SourceLines(ls)|
    ensures |Denote(ls)| == |SourceLines(ls)| && Denote(ls)[n] == DenoteLine(SourceLines(ls)[n])
  {
    if ls.SMore? {
      DenoteAt(ls.rest, if n == 0 then 0 else n - 1);
    }
  }

  lemma {:induction false} DenoteFieldsAt(fields: seq<(string, Written)>)
    ensures |DenoteFields(fields)| == |fields|
    ensures forall i | 0 <= i < |fields| :: DenoteFields(fields)[i] == (fields[i].0, DenoteValue(fields[i].1))
  {
    if fields != [] {
      DenoteFieldsAt(fields[1..]);
    }
  }

  /**
   A string value, bare or quoted, in any field of any line, comes back as that string exactly when it
   does not spell a boolean: the boolean literals of the grammar match quoted strings too, and the
   false ones are dropped without a value.
   */
  lemma StringKeptUnlessBoolean(ls: Sources, n: nat, i: nat, s: string)
    requires Ok(ls) && n < |SourceLines(ls)| && i < |Fields(SourceLines(ls)[n])|
    requires var w := Fields(SourceLines(ls)[n])[i].1; w == WBare(s) || w == WQuoted(s)
    ensures var rs := ParseRecords(Print(ls));
            rs.Some? && n < |rs.value| && i < |rs.value[n].fields|
    ensures var (key, v) := ParseRecords(Print(ls)).value[n].fields[i];
            && key == Fields(SourceLines(ls)[n])[i].0
            && v == if SaysTrue(s) then TrueValue else if SaysFalse(s) then Unset else StringValue(s)
  {
    RoundTrip(ls);
    DenoteAt(ls, n);
    DenoteFieldsAt(Fields(SourceLines(ls)[n]));
    BooleansApart(s);
  }
}

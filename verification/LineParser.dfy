/**
 The grammar of Influx lines as a recursive-descent parser over tokens, proved to accept exactly the
 token sequences the grammar derives (lineproto/influx_line_protocol.go).
 */
module LineParser {
  import opened Prelude
  import opened LineLexer

  /** A key and its value, of a tag or of a field. */
  datatype Pair = Pair(key: Token, value: Token)

  datatype Line = Line(prefixed: bool, name: Token, tags: seq<Pair>, field: Pair, fields: seq<Pair>, timestamp: Token)

  /** One or more lines, separated by newlines, with an optional newline at the end. */
  datatype Lines =
    | Last(line: Line, final: Option<Token>)
    | More(line: Line, newline: Token, rest: Lines)

  const COMMA := Token(Comma, ",")
  const SPACE := Token(Space, " ")
  const EQUALS := Token(Equals, "=")
  const PREFIX := Token(TestOutputPrefix, "> ")

  // ---------------------------------------------------------------- the grammar

  /** A quoted string is the value of a field only. */
  predicate WellFormedPair(p: Pair, ofTag: bool) {
    && p.key.kind.String?
    && (p.value.kind.String? || p.value.kind.Float? || p.value.kind.Int? || (p.value.kind.QuotedString? && !ofTag))
  }

  predicate WellFormedLine(l: Line) {
    && l.name.kind.String? && l.timestamp.kind.Float?
    && (forall p | p in l.tags :: WellFormedPair(p, true))
    && WellFormedPair(l.field, false)
    && (forall p | p in l.fields :: WellFormedPair(p, false))
  }

  predicate WellFormed(ls: Lines) {
    && WellFormedLine(ls.line)
    && match ls
       case Last(_, final) => final.Some? ==> final.value.kind.Newline?
       case More(_, newline, rest) => newline.kind.Newline? && WellFormed(rest)
  }

  // Each function gives the tokens of its part of the tree, followed by the tokens of what comes after.

  function Cons(t: Token, rest: seq<Token>): (ts: seq<Token>)
    ensures |ts| == 1 + |rest| && ts[0] == t && ts[1..] == rest
  {
    [t] + rest
  }

  function PairThen(p: Pair, rest: seq<Token>): (ts: seq<Token>)
    ensures |ts| == 3 + |rest| && ts[0] == p.key && ts[1] == EQUALS && ts[2] == p.value && ts[3..] == rest
  {
    [p.key, EQUALS, p.value] + rest
  }

  function PairsThen(ps: seq<Pair>, rest: seq<Token>): (ts: seq<Token>)
    ensures |ts| >= |rest|
  {
    if ps == [] then rest else Cons(COMMA, PairThen(ps[0], PairsThen(ps[1..], rest)))
  }

  function FieldsThen(p: Pair, ps: seq<Pair>, timestamp: Token, rest: seq<Token>): (ts: seq<Token>)
    ensures |ts| > |rest|
  {
    Cons(SPACE, PairThen(p, PairsThen(ps, Cons(SPACE, Cons(timestamp, rest)))))
  }

  function NamedThen(l: Line, rest: seq<Token>): (ts: seq<Token>)
    ensures |ts| > |rest|
  {
    Cons(l.name, PairsThen(l.tags, FieldsThen(l.field, l.fields, l.timestamp, rest)))
  }

  function LineThen(l: Line, rest: seq<Token>): (ts: seq<Token>)
    ensures |ts| > |rest|
  {
    if l.prefixed then Cons(PREFIX, NamedThen(l, rest)) else NamedThen(l, rest)
  }

  /** The token sequence a syntax tree derives. */
  function Tokens(ls: Lines): (ts: seq<Token>)
    ensures ts != []
  {
    match ls
    case Last(line, None) => LineThen(line, [])
    case Last(line, Some(newline)) => LineThen(line, Cons(newline, []))
    case More(line, newline, rest) => LineThen(line, Cons(newline, Tokens(rest)))
  }

  // ---------------------------------------------------------------- the parser

  predicate IsValue(t: Token, ofTag: bool) {
    t.kind in {String, Float, Int} || (!ofTag && t.kind.QuotedString?)
  }

  function ParsePair(ts: seq<Token>, ofTag: bool): Option<(Pair, seq<Token>)> {
    if |ts| >= 3 && ts[0].kind.String? && ts[1] == EQUALS && IsValue(ts[2], ofTag)
    then Some((Pair(ts[0], ts[2]), ts[3..]))
    else None
  }

  function ParsePairs(ts: seq<Token>, ofTag: bool): Option<(seq<Pair>, seq<Token>)> {
    if ts == [] || ts[0] != COMMA then Some(([], ts))
    else
      match ParsePair(ts[1..], ofTag)
      case None => None
      case Some((p, more)) =>
        match ParsePairs(more, ofTag)
        case None => None
        case Some((ps, rest)) => Some(([p] + ps, rest))
  }

  /** The second half of a line: its fields and its timestamp. */
  function ParseFields(ts: seq<Token>): Option<(Pair, seq<Pair>, Token, seq<Token>)> {
    if ts == [] || ts[0] != SPACE then None
    else
      match ParsePair(ts[1..], false)
      case None => None
      case Some((p, more)) =>
        match ParsePairs(more, false)
        case None => None
        case Some((ps, rest)) =>
          if |rest| >= 2 && rest[0] == SPACE && rest[1].kind.Float? then Some((p, ps, rest[1], rest[2..]))
          else None
  }

  function ParseLine(ts: seq<Token>): (r: Option<(Line, seq<Token>)>) {
    var prefixed := ts != [] && ts[0] == PREFIX;
    var named := if prefixed then ts[1..] else ts;
    if named == [] || !named[0].kind.String? then None
    else
      match ParsePairs(named[1..], true)
      case None => None
      case Some((tags, more)) =>
        match ParseFields(more)
        case None => None
        case Some((p, ps, timestamp, rest)) => Some((Line(prefixed, named[0], tags, p, ps, timestamp), rest))
  }

  function ParseLines(ts: seq<Token>): Option<Lines>
    decreases |ts|
  {
    match ParseLine(ts)
    case None => None
    case Some((line, rest)) =>
      LineSound(ts);
      if rest == [] then Some(Last(line, None))
      else if !rest[0].kind.Newline? then None
      else if rest[1..] == [] then Some(Last(line, Some(rest[0])))
      else
        match ParseLines(rest[1..])
        case None => None
        case Some(more) => Some(More(line, rest[0], more))
  }

  // ---------------------------------------------------------------- soundness

  lemma ConsOf(ts: seq<Token>)
    requires ts != []
    ensures ts == Cons(ts[0], ts[1..])
  {
  }

  lemma PairSound(ts: seq<Token>, ofTag: bool)
    ensures match ParsePair(ts, ofTag)
            case None => true
            case Some((p, rest)) => ts == PairThen(p, rest) && WellFormedPair(p, ofTag)
  {
  }

  lemma {:induction false} PairsSound(ts: seq<Token>, ofTag: bool)
    ensures match ParsePairs(ts, ofTag)
            case None => true
            case Some((ps, rest)) =>
              && ts == PairsThen(ps, rest) && (forall p | p in ps :: WellFormedPair(p, ofTag))
              && (rest == [] || rest[0] != COMMA)
  {
    if ts != [] && ts[0] == COMMA && ParsePair(ts[1..], ofTag).Some? {
      PairSound(ts[1..], ofTag);
      var (p, more) := ParsePair(ts[1..], ofTag).value;
      PairsSound(more, ofTag);
      if ParsePairs(more, ofTag).Some? {
        var (ps, rest) := ParsePairs(more, ofTag).value;
        ConsOf(ts);
        assert ([p] + ps)[1..] == ps;
      }
    }
  }

  lemma FieldsSound(ts: seq<Token>)
    ensures match ParseFields(ts)
            case None => true
            case Some((p, ps, timestamp, rest)) =>
              && ts == FieldsThen(p, ps, timestamp, rest)
              && WellFormedPair(p, false) && (forall q | q in ps :: WellFormedPair(q, false))
              && timestamp.kind.Float?
  {
    if ParseFields(ts).Some? {
      PairSound(ts[1..], false);
      var (p, more) := ParsePair(ts[1..], false).value;
      PairsSound(more, false);
      var (ps, tail) := ParsePairs(more, false).value;
      ConsOf(ts);
      ConsOf(tail);
      ConsOf(tail[1..]);
      assert tail[1..][1..] == tail[2..];
    }
  }

  lemma LineSound(ts: seq<Token>)
    ensures match ParseLine(ts)
            case None => true
            case Some((line, rest)) => ts == LineThen(line, rest) && WellFormedLine(line)
  {
    if ParseLine(ts).Some? {
      var named := if ts[0] == PREFIX then ts[1..] else ts;
      PairsSound(named[1..], true);
      var (tags, more) := ParsePairs(named[1..], true).value;
      FieldsSound(more);
      ConsOf(named);
      ConsOf(ts);
    }
  }

  /** Whatever the parser accepts, the grammar derives. */
  lemma {:induction false} ParseSound(ts: seq<Token>)
    ensures ParseLines(ts).Some? ==> Tokens(ParseLines(ts).value) == ts && WellFormed(ParseLines(ts).value)
    decreases |ts|
  {
    LineSound(ts);
    if ParseLines(ts).Some? {
      var (line, rest) := ParseLine(ts).value;
      if rest != [] {
        ConsOf(rest);
        if rest[1..] != [] {
          ParseSound(rest[1..]);
        }
      }
    }
  }

  // ---------------------------------------------------------------- completeness

  lemma {:induction false} PairsComplete(ps: seq<Pair>, rest: seq<Token>, ofTag: bool)
    requires forall p | p in ps :: WellFormedPair(p, ofTag)
    requires rest == [] || rest[0] != COMMA
    ensures ParsePairs(PairsThen(ps, rest), ofTag) == Some((ps, rest))
  {
    if ps != [] {
      assert ps[0] in ps && [ps[0]] + ps[1..] == ps;
      PairsComplete(ps[1..], rest, ofTag);
    }
  }

  lemma FieldsComplete(p: Pair, ps: seq<Pair>, timestamp: Token, rest: seq<Token>)
    requires WellFormedPair(p, false) && (forall q | q in ps :: WellFormedPair(q, false)) && timestamp.kind.Float?
    ensures ParseFields(FieldsThen(p, ps, timestamp, rest)) == Some((p, ps, timestamp, rest))
  {
    var tail := Cons(SPACE, Cons(timestamp, rest));
    PairsComplete(ps, tail, false);
    assert tail[2..] == tail[1..][1..];
  }

  lemma LineComplete(l: Line, rest: seq<Token>)
    requires WellFormedLine(l)
    ensures ParseLine(LineThen(l, rest)) == Some((l, rest))
  {
    var second := FieldsThen(l.field, l.fields, l.timestamp, rest);
    FieldsComplete(l.field, l.fields, l.timestamp, rest);
    PairsComplete(l.tags, second, true);
  }

  /** Whatever the grammar derives, the parser accepts, as that very tree. */
  lemma {:induction false} ParseComplete(ls: Lines)
    requires WellFormed(ls)
    ensures ParseLines(Tokens(ls)) == Some(ls)
  {
    match ls
    case Last(line, None) => LineComplete(line, []);
    case Last(line, Some(newline)) => LineComplete(line, Cons(newline, []));
    case More(line, newline, rest) =>
      LineComplete(line, Cons(newline, Tokens(rest)));
      ParseComplete(rest);
  }

  /** The parser is exact: it returns a tree if and only if the grammar derives the tokens from it. */
  lemma ParserIsExact(ts: seq<Token>, ls: Lines)
    ensures ParseLines(ts) == Some(ls) <==> WellFormed(ls) && Tokens(ls) == ts
  {
    ParseSound(ts);
    if WellFormed(ls) && Tokens(ls) == ts {
      ParseComplete(ls);
    }
  }
}

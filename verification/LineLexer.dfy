/**
 The lexer of the Influx line protocol, production by production in their declared order; the first
 production that matches at a position gives the token (lineproto/influx_line_protocol.go).
 */
module LineLexer {
  import opened Prelude

  datatype Kind = Int | Float | Comma | Space | Equals | Newline | TestOutputPrefix | QuotedString | String

  datatype Token = Token(kind: Kind, text: string)

  // ---------------------------------------------------------------- the productions

  predicate IsDigit(c: char) {
    '0' <= c <= '9'
  }

  /** The range from U+0000 to U+FFFF. */
  predicate IsAny(c: char) {
    c as int <= 0xFFFF
  }

  function Sign(s: string): nat {
    if s != "" && (s[0] == '-' || s[0] == '+') then 1 else 0
  }

  /** The length of the longest prefix of digits. */
  function Digits(s: string): (n: nat)
    ensures n <= |s|
  {
    if s != "" && IsDigit(s[0]) then 1 + Digits(s[1..]) else 0
  }

  /** The length of the longest prefix of digits and dots. */
  function Mantissa(s: string): (n: nat)
    ensures n <= |s|
  {
    if s != "" && (IsDigit(s[0]) || s[0] == '.') then 1 + Mantissa(s[1..]) else 0
  }

  function Exponent(s: string): (n: nat)
    ensures n <= |s|
  {
    if |s| >= 2 && (s[0] == 'e' || s[0] == 'E') && s[1] == '+' then 2 + Digits(s[2..]) else 0
  }

  /** The length of the longest body of a quoted string. */
  function QuotedBody(s: string): (n: nat)
    ensures n <= |s|
  {
    if s == "" || s[0] == '"' || !IsAny(s[0]) then 0
    else if s[0] != '\\' then 1 + QuotedBody(s[1..])
    else if |s| >= 2 && IsAny(s[1]) then 2 + QuotedBody(s[2..])
    else 0
  }

  predicate IsDelimiter(c: char) {
    c == ',' || c == ' ' || c == '='
  }

  /** The length of the longest unquoted string. */
  function StringBody(s: string): (n: nat)
    ensures n <= |s|
  {
    if s == "" || IsDelimiter(s[0]) || !IsAny(s[0]) then 0
    else if s[0] != '\\' then 1 + StringBody(s[1..])
    else if |s| >= 2 && IsAny(s[1]) then 2 + StringBody(s[2..])
    else 0
  }

  function Length(kind: Kind, s: string): (n: nat)
    ensures n <= |s|
  {
    match kind
    case Int =>
      var g := Sign(s);
      var d := Digits(s[g..]);
      if d > 0 && g + d < |s| && s[g + d] == 'i' then g + d + 1 else 0
    case Float =>
      var g := Sign(s);
      var m := Mantissa(s[g..]);
      if m > 0 then g + m + Exponent(s[g..][m..]) else 0
    case Comma => if s != "" && s[0] == ',' then 1 else 0
    case Space => if s != "" && s[0] == ' ' then 1 else 0
    case Equals => if s != "" && s[0] == '=' then 1 else 0
    case Newline =>
      if |s| >= 2 && s[0] == '\r' && s[1] == '\n' then 2
      else if s != "" && (s[0] == '\r' || s[0] == '\n') then 1
      else 0
    case TestOutputPrefix => if |s| >= 2 && s[0] == '>' && s[1] == ' ' then 2 else 0
    case QuotedString =>
      if s == "" || s[0] != '"' then 0
      else
        var b := QuotedBody(s[1..]);
        if 1 + b < |s| && s[1 + b] == '"' then b + 2 else 0
    case String => StringBody(s)
  }

  /** The productions in their declared order: the first that matches wins. */
  function FirstMatch(s: string): (k: Option<Kind>)
    ensures k.Some? ==> Length(k.value, s) > 0
  {
    if Length(Int, s) > 0 then Some(Int)
    else if Length(Float, s) > 0 then Some(Float)
    else if Length(Comma, s) > 0 then Some(Comma)
    else if Length(Space, s) > 0 then Some(Space)
    else if Length(Equals, s) > 0 then Some(Equals)
    else if Length(Newline, s) > 0 then Some(Newline)
    else if Length(TestOutputPrefix, s) > 0 then Some(TestOutputPrefix)
    else if Length(QuotedString, s) > 0 then Some(QuotedString)
    else if Length(String, s) > 0 then Some(String)
    else None
  }

  function Next(s: string): (t: Option<Token>)
    ensures t.Some? ==> 0 < |t.value.text| <= |s| && s[..|t.value.text|] == t.value.text
  {
    match FirstMatch(s)
    case None => None
    case Some(kind) => Some(Token(kind, s[..Length(kind, s)]))
  }

  /** All tokens of an input, or None where no production matches. */
  function Lex(s: string): Option<seq<Token>> {
    if s == "" then Some([])
    else
      match Next(s)
      case None => None
      case Some(t) =>
        match Lex(s[|t.text|..])
        case None => None
        case Some(ts) => Some([t] + ts)
  }

  /** The text a sequence of tokens stands for. */
  function Text(ts: seq<Token>): string {
    if ts == [] then "" else ts[0].text + Text(ts[1..])
  }

  /** Lexing loses nothing: the tokens' texts put together are the input. */
  lemma {:induction false} LexIsLossless(s: string)
    ensures Lex(s).Some? ==> Text(Lex(s).value) == s
  {
    if s != "" && Next(s).Some? {
      var t := Next(s).value;
      LexIsLossless(s[|t.text|..]);
      assert s == s[..|t.text|] + s[|t.text|..];
    }
  }

  // ---------------------------------------------------------------- which texts lex back to their tokens

  /** The token's text, on its own, is that token. */
  predicate Genuine(t: Token) {
    t.text != "" && Next(t.text) == Some(t)
  }

  /** What may stand right after a token without changing it. */
  predicate Boundary(t: Token, c: char) {
    match t.kind
    case Float => !IsDigit(c) && c != '.' && c != 'i' && c != 'e' && c != 'E'
    case Newline => t.text == "\r" ==> c != '\n'
    case String => IsDelimiter(c) && t.text != "" && t.text[0] != '"' && t.text != ">"
    case _ => true
  }

  predicate Follows(t: Token, u: Token) {
    u.text != "" && Boundary(t, u.text[0])
  }

  ghost predicate Separable(ts: seq<Token>) {
    && (forall i | 0 <= i < |ts| :: Genuine(ts[i]))
    && (forall i, j | 0 <= i < j < |ts| && j == i + 1 :: Follows(ts[i], ts[j]))
  }

  lemma {:induction false} DigitsAppend(a: string, b: string)
    requires Digits(a) < |a| || b == "" || !IsDigit(b[0])
    ensures Digits(a + b) == Digits(a)
  {
    if a != "" && IsDigit(a[0]) {
      assert (a + b)[1..] == a[1..] + b;
      DigitsAppend(a[1..], b);
    }
  }

  lemma {:induction false} MantissaAppend(a: string, b: string)
    requires Mantissa(a) < |a| || b == "" || (!IsDigit(b[0]) && b[0] != '.')
    ensures Mantissa(a + b) == Mantissa(a)
  {
    if a != "" && (IsDigit(a[0]) || a[0] == '.') {
      assert (a + b)[1..] == a[1..] + b;
      MantissaAppend(a[1..], b);
    }
  }

  lemma {:induction false} QuotedBodyAppend(a: string, b: string)
    requires QuotedBody(a) < |a| && a[QuotedBody(a)] == '"'
    ensures QuotedBody(a + b) == QuotedBody(a)
  {
    if a[0] != '"' && IsAny(a[0]) {
      if a[0] != '\\' {
        assert (a + b)[1..] == a[1..] + b;
        QuotedBodyAppend(a[1..], b);
      } else if |a| >= 2 && IsAny(a[1]) {
        assert (a + b)[2..] == a[2..] + b;
        QuotedBodyAppend(a[2..], b);
      }
    }
  }

  lemma {:induction false} StringBodyAppend(a: string, b: string)
    requires StringBody(a) == |a| && (b == "" || IsDelimiter(b[0]))
    ensures StringBody(a + b) == |a|
  {
    if a != "" {
      if a[0] != '\\' {
        assert (a + b)[1..] == a[1..] + b;
        StringBodyAppend(a[1..], b);
      } else {
        assert (a + b)[2..] == a[2..] + b;
        StringBodyAppend(a[2..], b);
      }
    }
  }

  lemma IntAppend(a: string, b: string)
    requires a != "" && (Length(Int, a) > 0 || b == "" || (!IsDigit(b[0]) && b[0] != 'i'))
    ensures Length(Int, a + b) == Length(Int, a)
  {
    var g := Sign(a);
    assert (a + b)[g..] == a[g..] + b;
    DigitsAppend(a[g..], b);
  }

  lemma ExponentAppend(x: string, b: string)
    requires Exponent(x) == |x|
    requires b == "" || (!IsDigit(b[0]) && b[0] != 'e' && b[0] != 'E')
    ensures Exponent(x + b) == |x|
  {
    if x != "" {
      assert (x + b)[2..] == x[2..] + b;
      DigitsAppend(x[2..], b);
    } else {
      assert x + b == b;
    }
  }

  lemma FloatAppend(a: string, b: string)
    requires a != ""
    requires b == "" || (!IsDigit(b[0]) && b[0] != '.' && b[0] != 'e' && b[0] != 'E')
    requires Length(Float, a) == |a| || Length(Float, a) == 0
    ensures Length(Float, a + b) == Length(Float, a)
  {
    var g := Sign(a);
    var u := a[g..];
    assert Sign(a + b) == g && (a + b)[g..] == u + b;
    MantissaAppend(u, b);
    var m := Mantissa(u);
    if m > 0 {
      assert Exponent(u[m..]) == |u[m..]|;
      assert (u + b)[m..] == u[m..] + b;
      ExponentAppend(u[m..], b);
    }
  }

  /** A text that begins like none of the numbers stays that way. */
  predicate NoNumber(s: string) {
    Length(Int, s) == Length(Float, s) == 0
  }

  lemma NoNumberFrom(a: string, b: string)
    requires a != "" && !IsDigit(a[0]) && a[0] != '.' && Sign(a) == 0
    ensures NoNumber(a + b)
  {
    assert (a + b)[0..] == a + b;
  }

  lemma QuotedAppend(t: Token, rest: string)
    requires Genuine(t) && t.kind.QuotedString?
    ensures Next(t.text + rest) == Some(t)
  {
    var a, s := t.text, t.text + rest;
    NoNumberFrom(a, rest);
    assert s[1..] == a[1..] + rest;
    QuotedBodyAppend(a[1..], rest);
    assert s[..|a|] == a;
  }

  lemma StringAppend(t: Token, rest: string)
    requires Genuine(t) && t.kind.String? && (rest != "" ==> Boundary(t, rest[0]))
    ensures Next(t.text + rest) == Some(t)
  {
    var a, s := t.text, t.text + rest;
    if rest == "" {
      assert s == a;
    } else {
      IntAppend(a, rest);
      FloatAppend(a, rest);
      StringBodyAppend(a, rest);
      assert Length(Newline, a) == 0 && Length(TestOutputPrefix, a) == 0;
      assert Length(TestOutputPrefix, s) == 0 && Length(QuotedString, s) == 0;
      assert s[..|a|] == a;
    }
  }

  lemma NumberAppend(t: Token, rest: string)
    requires Genuine(t) && t.kind in {Int, Float} && (rest != "" ==> Boundary(t, rest[0]))
    ensures Next(t.text + rest) == Some(t)
  {
    var a, s := t.text, t.text + rest;
    IntAppend(a, rest);
    if t.kind.Float? {
      FloatAppend(a, rest);
    }
    assert s[..|a|] == a;
  }

  /** What follows a token within its boundary does not change how it is read. */
  lemma NextAppend(t: Token, rest: string)
    requires Genuine(t) && (rest != "" ==> Boundary(t, rest[0]))
    ensures Next(t.text + rest) == Some(t)
  {
    match t.kind {
      case Int => NumberAppend(t, rest);
      case Float => NumberAppend(t, rest);
      case QuotedString => QuotedAppend(t, rest);
      case String => StringAppend(t, rest);
      case _ =>
        NoNumberFrom(t.text, rest);
        assert (t.text + rest)[..|t.text|] == t.text;
    }
  }

  lemma LexCons(t: Token, rest: string, more: seq<Token>)
    requires t.text != "" && Next(t.text + rest) == Some(t) && Lex(rest) == Some(more)
    ensures Lex(t.text + rest) == Some([t] + more)
  {
    assert (t.text + rest)[|t.text|..] == rest;
  }

  lemma SeparableTail(ts: seq<Token>)
    requires Separable(ts) && ts != []
    ensures Separable(ts[1..]) && Genuine(ts[0]) && (ts[1..] != [] ==> Follows(ts[0], ts[1..][0]))
  {
    assert forall i | 0 <= i < |ts| - 1 :: ts[1..][i] == ts[i + 1];
  }

  /** Tokens that keep their boundaries are read back exactly from their printed text. */
  lemma {:induction false} LexText(ts: seq<Token>)
    requires Separable(ts)
    ensures Lex(Text(ts)) == Some(ts)
  {
    if ts != [] {
      SeparableTail(ts);
      LexText(ts[1..]);
      NextAppend(ts[0], Text(ts[1..]));
      LexCons(ts[0], Text(ts[1..]), ts[1..]);
      assert [ts[0]] + ts[1..] == ts;
    }
  }

  lemma SeparableConcat(a: seq<Token>, b: seq<Token>)
    requires Separable(a) && Separable(b)
    requires a != [] && b != [] ==> Follows(a[|a| - 1], b[0])
    ensures Separable(a + b)
  {
    var c := a + b;
    assert forall i | 0 <= i < |a| :: c[i] == a[i];
    assert forall i | |a| <= i < |c| :: c[i] == b[i - |a|];
  }
}

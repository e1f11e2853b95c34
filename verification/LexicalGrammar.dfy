/**
 The lexical grammar of the Influx line protocol as it is declared, apart from how it is matched: what
 text each production derives. The lexer is proved to give, at every position, the longest text of the
 first production that derives any (lineproto/influx_line_protocol.go).
 */
module LexicalGrammar {
  import opened Prelude
  import opened LineLexer

  predicate AllDigits(s: string) {
    forall c | c in s :: '0' <= c <= '9'
  }

  predicate DigitsAndDots(s: string) {
    forall c | c in s :: '0' <= c <= '9' || c == '.'
  }

  predicate IsSign(g: string) {
    g == "" || g == "-" || g == "+"
  }

  predicate IsExponent(x: string) {
    x == "" || (|x| >= 2 && (x[0] == 'e' || x[0] == 'E') && x[1] == '+' && AllDigits(x[2..]))
  }

  predicate IsIntOf(t: string, g: string, d: string) {
    t == g + d + "i" && IsSign(g) && d != "" && AllDigits(d)
  }

  predicate IsFloatOf(t: string, g: string, m: string, x: string) {
    t == g + m + x && IsSign(g) && m != "" && DigitsAndDots(m) && IsExponent(x)
  }

  /** Characters other than the stops, and escapes: a backslash with any character. */
  predicate Units(s: string, stops: set<char>) {
    || s == ""
    || (s[0] != '\\' && s[0] !in stops && s[0] as int <= 0xFFFF && Units(s[1..], stops))
    || (|s| >= 2 && s[0] == '\\' && s[1] as int <= 0xFFFF && Units(s[2..], stops))
  }

  /** The production derives the text. */
  ghost predicate Derives(kind: Kind, t: string) {
    match kind
    case Int => exists g, d :: IsIntOf(t, g, d)
    case Float => exists g, m, x :: IsFloatOf(t, g, m, x)
    case Comma => t == ","
    case Space => t == " "
    case Equals => t == "="
    case Newline => t == "\r\n" || t == "\r" || t == "\n"
    case TestOutputPrefix => t == "> "
    case QuotedString => |t| >= 2 && t[0] == '"' && t[|t| - 1] == '"' && Units(t[1..|t| - 1], {'"'})
    case String => Units(t, {',', ' ', '='})
  }

  /** The declared order of the productions. */
  function Order(kind: Kind): nat {
    match kind
    case Int => 0 case Float => 1 case Comma => 2 case Space => 3 case Equals => 4
    case Newline => 5 case TestOutputPrefix => 6 case QuotedString => 7 case String => 8
  }

  /** Some nonempty beginning of s is derived by the production. */
  ghost predicate Begins(kind: Kind, s: string) {
    exists n :: 0 < n <= |s| && Derives(kind, s[..n])
  }

  /** The text is the longest beginning of s that its production derives. */
  ghost predicate LongestOf(t: Token, s: string) {
    && 0 < |t.text| <= |s| && t.text == s[..|t.text|] && Derives(t.kind, t.text)
    && forall n | |t.text| < n <= |s| :: !Derives(t.kind, s[..n])
  }

  lemma Cut(s: string, i: nat, n: nat)
    requires i + n <= |s|
    ensures s[..i + n] == s[..i] + s[i..][..n] && s[i..][n..] == s[i + n..]
  {
  }

  // ---------------------------------------------------------------- numbers

  lemma {:induction false} DigitsExact(d: string, r: string)
    requires AllDigits(d) && (r == "" || !('0' <= r[0] <= '9'))
    ensures Digits(d + r) == |d|
  {
    if d == "" {
      assert d + r == r;
    } else {
      assert d[0] in d && (d + r)[1..] == d[1..] + r;
      assert forall c | c in d[1..] :: c in d;
      DigitsExact(d[1..], r);
    }
  }

  lemma {:induction false} DigitsLeast(d: string, r: string)
    requires AllDigits(d)
    ensures Digits(d + r) >= |d|
  {
    if d != "" {
      assert d[0] in d && (d + r)[1..] == d[1..] + r;
      assert forall c | c in d[1..] :: c in d;
      DigitsLeast(d[1..], r);
    }
  }

  lemma {:induction false} DigitsAre(s: string)
    ensures AllDigits(s[..Digits(s)])
  {
    if Digits(s) > 0 {
      DigitsAre(s[1..]);
      assert s[..Digits(s)] == [s[0]] + s[1..][..Digits(s[1..])];
    }
  }

  lemma {:induction false} MantissaLeast(m: string, r: string)
    requires DigitsAndDots(m)
    ensures Mantissa(m + r) >= |m|
    ensures r != "" && r[0] != '.' && !('0' <= r[0] <= '9') ==> Mantissa(m + r) == |m|
  {
    if m == "" {
      assert m + r == r;
    } else {
      assert m[0] in m && (m + r)[1..] == m[1..] + r;
      assert forall c | c in m[1..] :: c in m;
      MantissaLeast(m[1..], r);
    }
  }

  lemma {:induction false} MantissaIs(s: string)
    ensures DigitsAndDots(s[..Mantissa(s)])
  {
    if Mantissa(s) > 0 {
      MantissaIs(s[1..]);
      assert s[..Mantissa(s)] == [s[0]] + s[1..][..Mantissa(s[1..])];
    }
  }

  lemma SignOf(g: string, r: string)
    requires IsSign(g) && r != "" && r[0] != '-' && r[0] != '+'
    ensures Sign(g + r) == |g| && (g + r)[|g|..] == r
  {
    assert g == "" ==> g + r == r;
    assert g != "" ==> (g + r)[0] == g[0];
  }

  lemma SignIs(s: string)
    ensures Sign(s) <= |s| && IsSign(s[..Sign(s)])
  {
  }

  lemma IntDerived(s: string)
    requires Length(Int, s) > 0
    ensures Derives(Int, s[..Length(Int, s)])
  {
    var g := Sign(s);
    var d := Digits(s[g..]);
    SignIs(s);
    DigitsAre(s[g..]);
    Cut(s, g, d);
    Cut(s, g + d, 1);
    assert s[g + d..][..1] == "i";
    assert IsIntOf(s[..g + d + 1], s[..g], s[g..][..d]);
  }

  lemma IntLongest(s: string, n: nat)
    requires n <= |s| && Derives(Int, s[..n])
    ensures Length(Int, s) == n
  {
    var g, d :| IsIntOf(s[..n], g, d);
    var r := d + ("i" + s[n..]);
    assert d[0] in d;
    assert s == g + r;
    SignOf(g, r);
    DigitsExact(d, "i" + s[n..]);
  }

  lemma ExponentIs(s: string)
    ensures IsExponent(s[..Exponent(s)])
  {
    if Exponent(s) > 0 {
      DigitsAre(s[2..]);
      assert s[..Exponent(s)][2..] == s[2..][..Exponent(s) - 2];
    }
  }

  lemma FloatAt(s: string, g: nat, m: nat, x: nat)
    requires g + m + x <= |s| && m > 0
    requires IsSign(s[..g]) && DigitsAndDots(s[g..][..m]) && IsExponent(s[g + m..][..x])
    requires s[..g + m] == s[..g] + s[g..][..m] && s[..g + m + x] == s[..g + m] + s[g + m..][..x]
    ensures Derives(Float, s[..g + m + x])
  {
    assert IsFloatOf(s[..g + m + x], s[..g], s[g..][..m], s[g + m..][..x]);
  }

  lemma FloatDerived(s: string)
    requires Length(Float, s) > 0
    ensures Derives(Float, s[..Length(Float, s)])
  {
    var g := Sign(s);
    var u := s[g..];
    var m := Mantissa(u);
    var x := Exponent(u[m..]);
    SignIs(s);
    MantissaIs(u);
    ExponentIs(u[m..]);
    Cut(s, g, m);
    Cut(s, g + m, x);
    FloatAt(s, g, m, x);
  }

  lemma ExponentLeast(x: string, r: string)
    requires IsExponent(x)
    ensures Exponent(x + r) >= |x|
    ensures x != "" ==> x[0] != '.' && !('0' <= x[0] <= '9')
  {
    if x != "" {
      assert (x + r)[2..] == x[2..] + r;
      DigitsLeast(x[2..], r);
    }
  }

  lemma FloatLeast(m: string, x: string, r: string)
    requires m != "" && DigitsAndDots(m) && IsExponent(x)
    ensures var u := m + (x + r); Mantissa(u) + Exponent(u[Mantissa(u)..]) >= |m| + |x|
    ensures '0' <= m[0] <= '9' || m[0] == '.'
  {
    var u := m + (x + r);
    assert m[0] in m;
    MantissaLeast(m, x + r);
    ExponentLeast(x, r);
    assert u[|m|..] == x + r;
  }

  lemma Regroup(s: string, n: nat, g: string, m: string, x: string)
    requires n <= |s| && s[..n] == g + m + x
    ensures n == |g| + |m| + |x| && s == g + (m + (x + s[n..]))
  {
    var r := s[n..];
    assert s == s[..n] + r;
    Assoc(g + m, x, r);
    Assoc(g, m, x + r);
  }

  lemma FloatAtLeast(g: string, u: string, least: nat)
    requires IsSign(g) && u != "" && ('0' <= u[0] <= '9' || u[0] == '.')
    requires Mantissa(u) + Exponent(u[Mantissa(u)..]) >= least
    ensures Length(Float, g + u) >= |g| + least
  {
    SignOf(g, u);
  }

  lemma FloatLongest(s: string, n: nat)
    requires n <= |s| && Derives(Float, s[..n])
    ensures Length(Float, s) >= n
  {
    var g, m, x :| IsFloatOf(s[..n], g, m, x);
    Regroup(s, n, g, m, x);
    FloatLeast(m, x, s[n..]);
    FloatAtLeast(g, m + (x + s[n..]), |m| + |x|);
  }

  // ---------------------------------------------------------------- strings

  lemma {:induction false} QuotedUnits(s: string)
    ensures Units(s[..QuotedBody(s)], {'"'})
  {
    var n := QuotedBody(s);
    if n > 0 {
      var k := if s[0] == '\\' then 2 else 1;
      QuotedUnits(s[k..]);
      assert s[..n][k..] == s[k..][..n - k];
    }
  }

  lemma {:induction false} UnitsQuoted(u: string, r: string)
    requires Units(u, {'"'})
    ensures QuotedBody(u + ("\"" + r)) == |u|
  {
    var s := u + ("\"" + r);
    if u == "" {
      assert s == "\"" + r;
    } else {
      var k := if u[0] == '\\' then 2 else 1;
      assert s[k..] == u[k..] + ("\"" + r);
      UnitsQuoted(u[k..], r);
    }
  }

  lemma {:induction false} StringUnits(s: string)
    ensures Units(s[..StringBody(s)], {',', ' ', '='})
  {
    var n := StringBody(s);
    if n > 0 {
      var k := if s[0] == '\\' then 2 else 1;
      StringUnits(s[k..]);
      assert s[..n][k..] == s[k..][..n - k];
    }
  }

  lemma {:induction false} UnitsString(u: string, r: string)
    requires Units(u, {',', ' ', '='})
    ensures StringBody(u + r) >= |u|
  {
    if u != "" {
      var k := if u[0] == '\\' then 2 else 1;
      assert (u + r)[k..] == u[k..] + r;
      UnitsString(u[k..], r);
    }
  }

  lemma QuotedDerived(s: string)
    requires Length(QuotedString, s) > 0
    ensures Derives(QuotedString, s[..Length(QuotedString, s)])
  {
    var b := QuotedBody(s[1..]);
    QuotedUnits(s[1..]);
    assert s[..b + 2][1..b + 1] == s[1..][..b];
  }

  lemma QuotedLongest(s: string, n: nat)
    requires n <= |s| && Derives(QuotedString, s[..n])
    ensures Length(QuotedString, s) == n
  {
    var u := s[..n][1..n - 1];
    Cut(s, 1, n - 2);
    Cut(s, n - 1, 1);
    assert u == s[1..][..n - 2];
    assert s[1..] == s[1..][..n - 2] + s[1..][n - 2..];
    assert s[n - 1..][..1] == "\"" && s[n - 1..] == s[n - 1..][..1] + s[n - 1..][1..];
    UnitsQuoted(u, s[n..]);
  }

  lemma StringLongest(s: string, n: nat)
    requires n <= |s| && Derives(String, s[..n])
    ensures Length(String, s) >= n
  {
    UnitsString(s[..n], s[n..]);
    assert s == s[..n] + s[n..];
  }

  // ---------------------------------------------------------------- the lexer is exact

  /** The matcher of each production finds the longest beginning it derives, and nothing else. */
  lemma LengthIsLongest(kind: Kind, s: string)
    ensures Length(kind, s) > 0 ==> Derives(kind, s[..Length(kind, s)])
    ensures forall n | Length(kind, s) < n <= |s| :: !Derives(kind, s[..n])
  {
    if Length(kind, s) > 0 {
      match kind {
        case Int => IntDerived(s);
        case Float => FloatDerived(s);
        case QuotedString => QuotedDerived(s);
        case String => StringUnits(s);
        case _ =>
      }
    }
    forall n | Length(kind, s) < n <= |s|
      ensures !Derives(kind, s[..n])
    {
      if Derives(kind, s[..n]) {
        match kind {
          case Int => IntLongest(s, n);
          case Float => FloatLongest(s, n);
          case QuotedString => QuotedLongest(s, n);
          case String => StringLongest(s, n);
          case _ =>
        }
      }
    }
  }

  lemma BeginsExactlyWhen(kind: Kind, s: string)
    ensures Begins(kind, s) <==> Length(kind, s) > 0
  {
    LengthIsLongest(kind, s);
  }

  lemma NextIsLongest(s: string)
    requires Next(s).Some?
    ensures LongestOf(Next(s).value, s)
  {
    LengthIsLongest(FirstMatch(s).value, s);
  }

  lemma FirstMatchIsFirst(s: string)
    ensures FirstMatch(s).None? ==> forall kind :: Length(kind, s) == 0
    ensures FirstMatch(s).Some? ==> forall kind | Order(kind) < Order(FirstMatch(s).value) :: Length(kind, s) == 0
  {
    forall kind
      ensures FirstMatch(s).None? ==> Length(kind, s) == 0
      ensures FirstMatch(s).Some? && Order(kind) < Order(FirstMatch(s).value) ==> Length(kind, s) == 0
    {
      match kind {
        case Int => case Float => case Comma => case Space => case Equals =>
        case Newline => case TestOutputPrefix => case QuotedString => case String =>
      }
    }
  }

  /**
   At every position the token read is the longest text of the first production, in the declared order,
   that derives any beginning of what is left; there is none exactly when no production does.
   */
  lemma NextIsExact(s: string, t: Token)
    ensures Next(s) == Some(t) <==> LongestOf(t, s) && forall kind | Order(kind) < Order(t.kind) :: !Begins(kind, s)
    ensures Next(s).None? <==> forall kind :: !Begins(kind, s)
  {
    FirstMatchIsFirst(s);
    forall kind
      ensures Begins(kind, s) <==> Length(kind, s) > 0
    {
      BeginsExactlyWhen(kind, s);
    }
    if Next(s).Some? {
      NextIsLongest(s);
    }
    if LongestOf(t, s) && forall kind | Order(kind) < Order(t.kind) :: !Begins(kind, s) {
      assert Begins(t.kind, s);
      SameToken(s, t);
    }
  }

  lemma SameToken(s: string, t: Token)
    requires LongestOf(t, s) && FirstMatch(s).Some?
    requires forall kind | Order(kind) < Order(t.kind) :: Length(kind, s) == 0
    ensures Next(s) == Some(t)
  {
    FirstMatchIsFirst(s);
    BeginsExactlyWhen(t.kind, s);
    var k := FirstMatch(s).value;
    assert Order(k) == Order(t.kind);
    LengthIsLongest(k, s);
    assert |t.text| == Length(k, s);
  }
}

/**
 How the numbers of the Influx line protocol are read: which texts are number tokens, and which number
 or error the capture makes of them (lineproto/influx_line_protocol.go).
 */
module LineValues {
  import opened Prelude
  import opened LineLexer
  import opened LexicalGrammar
  import opened LineMetrics

  // ---------------------------------------------------------------- number tokens

  lemma ExponentWhole(x: string)
    requires IsExponent(x)
    ensures Exponent(x) == |x|
    ensures x != "" ==> x[0] != '.' && !('0' <= x[0] <= '9')
  {
    if x != "" {
      DigitsExact(x[2..], "");
      assert x[2..] + "" == x[2..];
    }
  }

  lemma MantissaWhole(m: string, x: string)
    requires DigitsAndDots(m) && IsExponent(x)
    ensures Mantissa(m + x) == |m| && (m + x)[|m|..] == x
  {
    ExponentWhole(x);
    MantissaLeast(m, x);
    assert x == "" ==> m + x == m;
  }

  lemma SignSplits(s: string, g: string, m: string, x: string)
    requires s == g + m + x && IsSign(g) && m != "" && ('0' <= m[0] <= '9' || m[0] == '.')
    ensures Sign(s) == |g| && s[|g|..] == m + x
  {
    assert s == g + (m + x);
    assert (m + x)[0] == m[0];
    SignOf(g, m + x);
  }

  lemma FloatParts(s: string, g: string, m: string, x: string)
    requires IsFloatOf(s, g, m, x)
    ensures Sign(s) == |g| && s[|g|..] == m + x
    ensures Mantissa(m + x) == |m| && (m + x)[|m|..] == x && Exponent(x) == |x|
  {
    assert m[0] in m;
    SignSplits(s, g, m, x);
    MantissaWhole(m, x);
    ExponentWhole(x);
  }

  predicate FloatChar(c: char) {
    '0' <= c <= '9' || c in {'.', '-', '+', 'e', 'E'}
  }

  lemma ExponentChars(x: string)
    requires IsExponent(x)
    ensures forall c | c in x :: FloatChar(c)
  {
    if x != "" {
      assert x == [x[0], x[1]] + x[2..];
    }
  }

  lemma FloatChars(s: string)
    requires Derives(Float, s)
    ensures s != "" && forall c | c in s :: FloatChar(c)
  {
    var g, m, x :| IsFloatOf(s, g, m, x);
    ExponentChars(x);
    assert forall c | c in s :: c in g || c in m || c in x;
  }

  /** A text the Float production derives is one Float token. */
  lemma FloatIsToken(s: string)
    requires Derives(Float, s)
    ensures Next(s) == Some(Token(Float, s))
  {
    FloatChars(s);
    assert s[..|s|] == s;
    forall n | 0 < n <= |s|
      ensures !Derives(Int, s[..n])
    {
      assert s[n - 1] in s && s[..n][n - 1] == s[n - 1];
    }
    assert LongestOf(Token(Float, s), s);
    forall kind | Order(kind) < Order(Float)
      ensures !Begins(kind, s)
    {
      assert kind == Int;
    }
    NextIsExact(s, Token(Float, s));
  }

  /** A text the Int production derives is one Int token. */
  lemma IntIsToken(s: string)
    requires Derives(Int, s)
    ensures s != "" && Next(s) == Some(Token(Int, s))
  {
    assert s[..|s|] == s;
    assert s != "";
    assert LongestOf(Token(Int, s), s);
    NextIsExact(s, Token(Int, s));
  }

  // ---------------------------------------------------------------- floats

  predicate DecimalFloatOf(s: string, g: string, w: string, p: string, f: string, x: string) {
    && s == g + (w + p + f) + x
    && IsSign(g) && AllDigits(w) && AllDigits(f) && w + f != ""
    && (p == "." || (p == "" && f == ""))
    && IsExponent(x) && |x| != 2
  }

  /** A sign, digits with at most one dot among them, and an exponent with digits, of which only digits are needed. */
  ghost predicate DecimalFloat(s: string) {
    exists g, w, p, f, x :: DecimalFloatOf(s, g, w, p, f, x)
  }

  lemma DecimalIsFloatOf(s: string, g: string, w: string, p: string, f: string, x: string)
    requires DecimalFloatOf(s, g, w, p, f, x)
    ensures IsFloatOf(s, g, w + p + f, x)
  {
    var m := w + p + f;
    assert |m| >= |w + f|;
    forall c | c in m
      ensures '0' <= c <= '9' || c == '.'
    {
      assert c in w || c in p || c in f;
    }
  }

  lemma OneDot(w: string, p: string, f: string)
    requires AllDigits(w) && AllDigits(f) && w + f != "" && (p == "." || (p == "" && f == ""))
    ensures var m := w + p + f;
            && (exists i | 0 <= i < |m| :: IsDigit(m[i]))
            && (forall i, j | 0 <= i < |m| && 0 <= j < |m| && m[i] == '.' && m[j] == '.' :: i == j)
  {
    var m := w + p + f;
    assert forall i | 0 <= i < |w| :: m[i] == w[i] && w[i] in w;
    assert forall i | 0 <= i < |f| :: m[|w| + |p| + i] == f[i] && f[i] in f;
    if w != "" {
      assert IsDigit(m[0]);
    } else {
      assert IsDigit(m[|w| + |p|]);
    }
    forall i | |w| + |p| <= i < |m|
      ensures IsDigit(m[i])
    {
      assert m[i] == f[i - |w| - |p|] && f[i - |w| - |p|] in f;
    }
  }

  lemma SplitAtDot(m: string) returns (w: string, p: string, f: string)
    requires DigitsAndDots(m) && exists i | 0 <= i < |m| :: IsDigit(m[i])
    requires forall i, j | 0 <= i < |m| && 0 <= j < |m| && m[i] == '.' && m[j] == '.' :: i == j
    ensures m == w + p + f && AllDigits(w) && AllDigits(f) && w + f != "" && (p == "." || (p == "" && f == ""))
  {
    if k :| 0 <= k < |m| && m[k] == '.' {
      w, p, f := m[..k], ".", m[k + 1..];
      assert m == w + p + f;
      forall c | c in w ensures '0' <= c <= '9' { var i :| 0 <= i < |w| && w[i] == c; assert m[i] in m; }
      forall c | c in f ensures '0' <= c <= '9' { var i :| 0 <= i < |f| && f[i] == c; assert m[k + 1 + i] in m; }
      var i :| 0 <= i < |m| && IsDigit(m[i]);
      assert |m| > 1;
      assert |w + f| == |m| - 1;
    } else {
      w, p, f := m, "", "";
      assert m == w + p + f;
      forall c | c in m ensures '0' <= c <= '9' { var i :| 0 <= i < |m| && m[i] == c; }
    }
  }

  lemma SyntaxOfParts(s: string, g: string, m: string, x: string)
    requires IsFloatOf(s, g, m, x)
    ensures FloatSyntax(s) <==>
            && (exists i | 0 <= i < |m| :: IsDigit(m[i]))
            && (forall i, j | 0 <= i < |m| && 0 <= j < |m| && m[i] == '.' && m[j] == '.' :: i == j)
            && |x| != 2
  {
    FloatParts(s, g, m, x);
    var u := s[Sign(s)..];
    assert forall i | 0 <= i < |m| :: u[i] == m[i];
    assert u[|m|..] == x;
  }

  /** Of the texts the Float production derives, exactly the decimal floats are accepted as a number. */
  lemma FloatSyntaxExact(s: string)
    requires Derives(Float, s)
    ensures FloatSyntax(s) <==> DecimalFloat(s)
  {
    if DecimalFloat(s) {
      var g, w, p, f, x :| DecimalFloatOf(s, g, w, p, f, x);
      DecimalIsFloatOf(s, g, w, p, f, x);
      OneDot(w, p, f);
      SyntaxOfParts(s, g, w + p + f, x);
    }
    if FloatSyntax(s) {
      var g, m, x :| IsFloatOf(s, g, m, x);
      SyntaxOfParts(s, g, m, x);
      var w, p, f := SplitAtDot(m);
      assert DecimalFloatOf(s, g, w, p, f, x);
    }
  }

  /** So every decimal float is one token, captured as it stands. */
  lemma DecimalFloatRead(s: string)
    requires DecimalFloat(s)
    ensures s != "" && Next(s) == Some(Token(Float, s)) && Capture(Token(Float, s)) == Some(FloatValue(s))
  {
    var g, w, p, f, x :| DecimalFloatOf(s, g, w, p, f, x);
    DecimalIsFloatOf(s, g, w, p, f, x);
    assert Derives(Float, s);
    FloatIsToken(s);
    FloatSyntaxExact(s);
  }

  // ---------------------------------------------------------------- unsigned integers

  function Decimal(n: nat): string {
    if n < 10 then [(n + '0' as int) as char] else Decimal(n / 10) + [(n % 10 + '0' as int) as char]
  }

  function Octal(n: nat): string {
    if n < 8 then [(n + '0' as int) as char] else Octal(n / 8) + [(n % 8 + '0' as int) as char]
  }

  lemma {:induction false} DecimalDigits(n: nat)
    ensures Decimal(n) != "" && AllDigits(Decimal(n))
    ensures Decimal(n)[0] == '0' ==> n == 0
    ensures n < 10 <==> |Decimal(n)| == 1
    ensures Numeral(Decimal(n), 10) == Some(n)
  {
    if n < 10 {
      assert Decimal(n)[..0] == "";
    } else {
      DecimalDigits(n / 10);
      assert Decimal(n)[..|Decimal(n)| - 1] == Decimal(n / 10);
    }
  }

  lemma {:induction false} OctalDigits(n: nat)
    ensures Octal(n) != "" && Numeral(Octal(n), 8) == Some(n)
  {
    if n < 8 {
      assert Octal(n)[..0] == "";
    } else {
      OctalDigits(n / 8);
      assert Octal(n)[..|Octal(n)| - 1] == Octal(n / 8);
    }
  }

  lemma {:induction false} NumeralIsDecimal(s: string, n: nat)
    requires s != "" && (|s| > 1 ==> s[0] != '0') && Numeral(s, 10) == Some(n)
    ensures s == Decimal(n)
    ensures n == 0 ==> s == "0"
  {
    var front := s[..|s| - 1];
    if front == "" {
      assert s == [s[0]];
    } else {
      NumeralIsDecimal(front, Numeral(front, 10).value);
      assert s == front + [s[|s| - 1]];
      assert front[0] == s[0];
    }
  }

  /** Without a leading zero, exactly the decimal numerals below 2 to the 64th are read, as their number. */
  lemma DecimalsRead(s: string, n: nat)
    requires |s| > 1 ==> s[0] != '0'
    ensures ParseUint(s) == Some(n) <==> s == Decimal(n) && n <= 18446744073709551615
  {
    if s == Decimal(n) {
      DecimalDigits(n);
    }
    if ParseUint(s) == Some(n) {
      NumeralIsDecimal(s, n);
    }
  }

  /** After a leading zero a number is octal. */
  lemma OctalsRead(n: nat)
    ensures ParseUint("0" + Octal(n)) == if n <= 18446744073709551615 then Some(n) else None
  {
    OctalDigits(n);
    assert ("0" + Octal(n))[1..] == Octal(n);
  }

  lemma DecimalIntOf(g: string, n: nat)
    requires IsSign(g)
    ensures IsIntOf(g + Decimal(n) + "i", g, Decimal(n))
  {
    DecimalDigits(n);
  }

  lemma SignedNotUint(g: string, d: string)
    requires g == "-" || g == "+"
    ensures ParseUint(g + d) == None
  {
    NoSignInNumeral(g + d, 10);
    assert (g + d)[0] == g[0];
  }

  lemma {:induction false} NoSignInNumeral(s: string, base: nat)
    requires s != "" && (s[0] == '-' || s[0] == '+') && 2 <= base <= 10
    ensures Numeral(s, base) == None
  {
    if |s| > 1 {
      NoSignInNumeral(s[..|s| - 1], base);
    }
  }

  lemma UintOfSigned(g: string, n: nat)
    requires IsSign(g)
    ensures ParseUint(g + Decimal(n)) == if g == "" && n <= 18446744073709551615 then Some(n) else None
  {
    DecimalDigits(n);
    if g == "" {
      assert g + Decimal(n) == Decimal(n);
      var read := ParseUint(Decimal(n));
      DecimalsRead(Decimal(n), n);
      if read.Some? {
        assert Numeral(Decimal(n), 10) == read;
      }
    } else {
      SignedNotUint(g, Decimal(n));
    }
  }

  /** An integer field is one Int token; unsigned it is its number up to 2 to the 64th less one, signed it is an error. */
  lemma IntegersRead(g: string, n: nat)
    requires IsSign(g)
    ensures var s := g + Decimal(n) + "i";
            && s != "" && Next(s) == Some(Token(Int, s))
            && Capture(Token(Int, s)) == if g == "" && n <= 18446744073709551615 then Some(IntValue(n)) else None
  {
    var s := g + Decimal(n) + "i";
    DecimalIntOf(g, n);
    IntIsToken(s);
    assert s[..|s| - 1] == g + Decimal(n);
    assert Shorn(s) == g + Decimal(n);
    UintOfSigned(g, n);
  }

  lemma FractionIsDecimal(g: string, n: nat, m: nat, x: string)
    requires IsSign(g) && IsExponent(x) && |x| != 2
    ensures DecimalFloat(g + (Decimal(n) + "." + Decimal(m)) + x)
  {
    DecimalDigits(n);
    DecimalDigits(m);
    assert DecimalFloatOf(g + (Decimal(n) + "." + Decimal(m)) + x, g, Decimal(n), ".", Decimal(m), x);
  }

  lemma WholeIsDecimal(g: string, n: nat, x: string)
    requires IsSign(g) && IsExponent(x) && |x| != 2
    ensures DecimalFloat(g + Decimal(n) + x)
  {
    DecimalDigits(n);
    assert Decimal(n) + "" + "" == Decimal(n);
    assert DecimalFloatOf(g + Decimal(n) + x, g, Decimal(n), "", "", x);
  }

  /** Any sign, whole and fractional part, with or without an exponent, is one Float token and its own value. */
  lemma SignedFloatsRead(g: string, n: nat, m: nat, x: string)
    requires IsSign(g) && IsExponent(x) && |x| != 2
    ensures var s := g + (Decimal(n) + "." + Decimal(m)) + x;
            s != "" && Next(s) == Some(Token(Float, s)) && Capture(Token(Float, s)) == Some(FloatValue(s))
    ensures var s := g + Decimal(n) + x;
            s != "" && Next(s) == Some(Token(Float, s)) && Capture(Token(Float, s)) == Some(FloatValue(s))
  {
    FractionIsDecimal(g, n, m, x);
    DecimalFloatRead(g + (Decimal(n) + "." + Decimal(m)) + x);
    WholeIsDecimal(g, n, x);
    DecimalFloatRead(g + Decimal(n) + x);
  }
  // ---------------------------------------------------------------- strings and booleans

  /** The character, as it stands or as its escape inside quotes. */
  predicate Spells(e: string, c: char) {
    || (e == [c] && c != '"' && c != '\\' && c != '\n')
    || (e == "\\\"" && c == '"') || (e == "\\\\" && c == '\\')
    || (e == "\\n" && c == '\n') || (e == "\\r" && c == '\r') || (e == "\\t" && c == '\t')
    || (e == "\\a" && c == '\U{7}') || (e == "\\b" && c == '\U{8}')
    || (e == "\\v" && c == '\U{b}') || (e == "\\f" && c == '\U{c}')
  }

  function Flat(es: seq<string>): string {
    if es == [] then "" else es[0] + Flat(es[1..])
  }

  /** Whichever of its characters are escaped, a string in quotes is read as those characters. */
  lemma {:induction false} SpellingsRead(s: string, es: seq<string>)
    requires |es| == |s| && forall i | 0 <= i < |s| :: Spells(es[i], s[i])
    ensures Unquote(Flat(es)) == Some(s)
  {
    if s != "" {
      SpellingsRead(s[1..], es[1..]);
      var e, tail := es[0], Flat(es[1..]);
      assert Spells(e, s[0]);
      assert (e + tail)[|e|..] == tail && [s[0]] + s[1..] == s;
      assert |e| == 2 ==> e[1] in ESCAPES && ESCAPES[e[1]] == s[0];
    }
  }

  /** A newline that is not escaped makes a quoted string an error. */
  lemma {:induction false} RawNewlineRejected(s: string, r: string)
    requires '\\' !in s
    ensures Unquote(s + "\n" + r) == None
  {
    if s != "" {
      assert (s + "\n" + r)[1..] == s[1..] + "\n" + r;
      RawNewlineRejected(s[1..], r);
    } else {
      assert s + "\n" + r == "\n" + r;
    }
  }

  predicate SaysTrue(s: string) {
    s == "t" || s == "T" || s == "True" || s == "TRUE"
  }

  predicate SaysFalse(s: string) {
    s == "f" || s == "F" || s == "False" || s == "FALSE"
  }

  lemma BooleansApart(s: string)
    ensures TextValue(s) == if SaysTrue(s) then TrueValue else if SaysFalse(s) then Unset else StringValue(s)
    ensures !(SaysTrue(s) && SaysFalse(s))
  {
  }

  /** A string token, and a quoted one by what is inside, is a boolean exactly for the eight literals. */
  lemma TextsRead(t: Token, s: string)
    requires (t.kind.String? && t.text == s) || (t.kind.QuotedString? && t.text == "\"" + s + "\"" && Unquote(s) == Some(s))
    ensures Capture(t) == Some(if SaysTrue(s) then TrueValue else if SaysFalse(s) then Unset else StringValue(s))
  {
    if t.kind.QuotedString? {
      assert t.text[1..|t.text| - 1] == s;
    }
  }
}

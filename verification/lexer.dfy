// Line classification of CRPNCalc::parse and command normalisation of
// CRPNCalc::cmd_parse (CalcInputMethods.cpp).
//
// A line is classified as blank, a signed number, a constant escape or a
// command. Numeric tokens are restricted to digits with an optional
// fraction (`12`, `12.`, `12.5`); their value is exact.

module Lexer {
  import opened CalcTypes

  // ---------------------------------------------------------------------------
  // Characters (C locale)
  // ---------------------------------------------------------------------------

  predicate IsDigit(c: char) { '0' <= c <= '9' }

  predicate IsAlpha(c: char) { 'a' <= c <= 'z' || 'A' <= c <= 'Z' }

  function Upper(c: char): char {
    if 'a' <= c <= 'z' then (c as int - 32) as char else c
  }

  function Lower(c: char): char {
    if 'A' <= c <= 'Z' then (c as int + 32) as char else c
  }

  /** The test the recorder and the runner apply to a line's first character. */
  predicate StartsWithP(line: string) {
    |line| > 0 && Upper(line[0]) == 'P'
  }

  /** Two characters that agree up to letter case agree on everything the parser looks at. */
  lemma SameUpToCaseChar(x: char, y: char)
    requires Upper(x) == Upper(y)
    ensures IsDigit(x) <==> IsDigit(y)
    ensures !IsAlpha(x) ==> x == y
    ensures IsAlpha(x) <==> IsAlpha(y)
    ensures Lower(x) == Lower(y)
  {
  }

  // ---------------------------------------------------------------------------
  // Digit strings
  // ---------------------------------------------------------------------------

  predicate AllDigits(s: string) {
    forall k :: 0 <= k < |s| ==> IsDigit(s[k])
  }

  function Pow10(k: nat): (p: nat)
    ensures p >= 1
  {
    if k == 0 then 1 else 10 * Pow10(k - 1)
  }

  function DigitValue(c: char): (d: nat)
    ensures d <= 9
  {
    if IsDigit(c) then c as int - '0' as int else 0
  }

  /** The natural number a string of decimal digits denotes. */
  function DigitsValue(ds: string): (v: nat)
    ensures v < Pow10(|ds|)
  {
    if |ds| == 0 then 0 else DigitsValue(ds[..|ds| - 1]) * 10 + DigitValue(ds[|ds| - 1])
  }

  /** The value of the digits written after a decimal point. */
  function Fraction(ds: string): (f: real)
    ensures 0.0 <= f < 1.0
  {
    QuotientFacts(DigitsValue(ds) as real, Pow10(|ds|) as real);
    DigitsValue(ds) as real / Pow10(|ds|) as real
  }

  /** Length of the maximal run of digits starting at position i. */
  function DigitRun(s: string, i: nat): (n: nat)
    requires i <= |s|
    ensures i + n <= |s|
    ensures forall k :: i <= k < i + n ==> IsDigit(s[k])
    ensures i + n == |s| || !IsDigit(s[i + n])
    decreases |s| - i
  {
    if i < |s| && IsDigit(s[i]) then 1 + DigitRun(s, i + 1) else 0
  }

  /** The maximal digit run is unique: any run that stops at a non-digit is it. */
  lemma {:induction false} DigitRunUnique(s: string, i: nat, n: nat)
    requires i + n <= |s|
    requires forall k :: i <= k < i + n ==> IsDigit(s[k])
    requires i + n == |s| || !IsDigit(s[i + n])
    ensures DigitRun(s, i) == n
    decreases n
  {
    if n > 0 {
      DigitRunUnique(s, i + 1, n - 1);
    }
  }

  /** Arithmetic facts about dividing by a power of ten. */
  lemma QuotientFacts(a: real, p: real)
    requires p >= 1.0
    ensures (a / p) * p == a
    ensures Abs(a) < p ==> Abs(a / p) < 1.0
    ensures a < 0.0 <==> a / p < 0.0
    ensures a == 0.0 <==> a / p == 0.0
  {
    var q := a / p;
    assert q * p == a;
    assert Abs(q) * p == Abs(a);
  }

  // ---------------------------------------------------------------------------
  // The decimal rule
  // ---------------------------------------------------------------------------

  function Abs(x: real): real {
    if x < 0.0 then -x else x
  }

  lemma FloorShrinks(x: real)
    requires Abs(x) >= 1.0
    ensures 0 <= Abs(x / 10.0).Floor < Abs(x).Floor
  {
    var y := Abs(x);
    var f := y.Floor;
    assert Abs(x / 10.0) == y / 10.0;
    assert f >= 1;
    assert y / 10.0 < (f + 1) as real / 10.0 <= f as real;
  }

  /**
   * How many times the parser's loop `while (fabs(x) >= 1) x /= 10;` runs:
   * the least k with |x| < 10^k.
   */
  function Shifts(x: real): (k: nat)
    ensures Abs(x) < Pow10(k) as real
    ensures k == 0 || Pow10(k - 1) as real <= Abs(x)
    decreases Abs(x).Floor
  {
    if Abs(x) >= 1.0 then
      FloorShrinks(x);
      var k := 1 + Shifts(x / 10.0);
      assert Abs(x / 10.0) * 10.0 == Abs(x);
      k
    else 0
  }

  lemma {:induction false} Pow10Monotone(a: nat, b: nat)
    requires a <= b
    ensures Pow10(a) <= Pow10(b)
    decreases b - a
  {
    if a < b {
      Pow10Monotone(a, b - 1);
    }
  }

  /** Only one count of divisions by ten brings a magnitude just below one. */
  lemma ShiftsUnique(x: real, k: nat)
    requires Abs(x) < Pow10(k) as real
    requires k == 0 || Pow10(k - 1) as real <= Abs(x)
    ensures Shifts(x) == k
  {
    var m := Shifts(x);
    if m < k {
      Pow10Monotone(m, k - 1);
    } else if m > k {
      Pow10Monotone(k, m - 1);
    }
  }

  /**
   * The non-standard decimal rule of a `.`-prefixed number: divide by ten
   * until the magnitude drops below one. The sign is kept.
   */
  function DecimalRule(x: real): (r: real)
    ensures Abs(r) < 1.0
    ensures r < 0.0 <==> x < 0.0
    ensures r == 0.0 <==> x == 0.0
    ensures r * Pow10(Shifts(x)) as real == x
  {
    var p := Pow10(Shifts(x)) as real;
    QuotientFacts(x, p);
    x / p
  }

  // ---------------------------------------------------------------------------
  // Numbers
  // ---------------------------------------------------------------------------

  /** The lexeme of a numeric read: whole digits, optional fraction digits, and where it stopped. */
  datatype Scanned = Scanned(whole: string, frac: Option<string>, end: nat)

  /** The value of whole digits plus optional fraction digits. */
  function Magnitude(whole: string, frac: Option<string>): real {
    DigitsValue(whole) as real + (if frac.Some? then Fraction(frac.value) else 0.0)
  }

  /**
   * The numeric read `stream >> afloat`, restricted to digits with an
   * optional `.` and fraction: it stops at the first character that
   * cannot continue the token.
   */
  function ScanNumeral(s: string, j: nat): (r: Scanned)
    requires j < |s| && IsDigit(s[j])
    ensures j < r.end <= |s|
  {
    var e := j + DigitRun(s, j);
    if e < |s| && s[e] == '.' then
      var f := e + 1 + DigitRun(s, e + 1);
      Scanned(s[j..e], Some(s[e + 1..f]), f)
    else
      Scanned(s[j..e], None, e)
  }

  /** A digit string inside `s` that no further digit follows is one whole run. */
  lemma RunOfSlice(s: string, j: nat, ds: string)
    requires j + |ds| <= |s| && s[j..j + |ds|] == ds && AllDigits(ds)
    requires j + |ds| == |s| || !IsDigit(s[j + |ds|])
    ensures DigitRun(s, j) == |ds|
  {
    forall k | j <= k < j + |ds|
      ensures IsDigit(s[k])
    {
      assert s[k] == ds[k - j];
    }
    DigitRunUnique(s, j, |ds|);
  }

  /** The characters a lexeme occupies when written out. */
  function LexemeLength(whole: string, frac: Option<string>): nat {
    |whole| + if frac.Some? then 1 + |frac.value| else 0
  }

  /**
   * `whole`, then `.` and `frac` if present, are written at `j` in `s`, and
   * the character after them (if any) cannot continue the numeric token.
   */
  predicate LexemeAt(s: string, j: nat, whole: string, frac: Option<string>) {
    && |whole| > 0 && AllDigits(whole) && (frac.Some? ==> AllDigits(frac.value))
    && j + LexemeLength(whole, frac) <= |s|
    && s[j..j + |whole|] == whole
    && (frac.Some? ==> s[j + |whole|] == '.' && s[j + |whole| + 1..j + LexemeLength(whole, frac)] == frac.value)
    && var end := j + LexemeLength(whole, frac);
       end == |s| || (!IsDigit(s[end]) && (frac.None? ==> s[end] != '.'))
  }

  /** A numeric read returns exactly the lexeme written at `j`. */
  lemma ScanLexeme(s: string, j: nat, whole: string, frac: Option<string>)
    requires LexemeAt(s, j, whole, frac)
    ensures IsDigit(s[j]) && ScanNumeral(s, j) == Scanned(whole, frac, j + LexemeLength(whole, frac))
  {
    assert s[j] == whole[0];
    var e := j + |whole|;
    if frac.Some? {
      RunOfSlice(s, j, whole);
      RunOfSlice(s, e + 1, frac.value);
    } else {
      RunOfSlice(s, j, whole);
    }
  }

  /** Conversely, what a numeric read returns is a lexeme written at `j`. */
  lemma ScanIsLexeme(s: string, j: nat)
    requires j < |s| && IsDigit(s[j])
    ensures var r := ScanNumeral(s, j);
            LexemeAt(s, j, r.whole, r.frac) && r.end == j + LexemeLength(r.whole, r.frac)
  {
    var e := j + DigitRun(s, j);
    assert AllDigits(s[j..e]) by {
      forall k | 0 <= k < e - j
        ensures IsDigit(s[j..e][k])
      {
        assert s[j..e][k] == s[j + k];
      }
    }
    if e < |s| && s[e] == '.' {
      var f := e + 1 + DigitRun(s, e + 1);
      var fs := s[e + 1..f];
      assert AllDigits(fs) by {
        forall k | 0 <= k < |fs|
          ensures IsDigit(fs[k])
        {
          assert fs[k] == s[e + 1 + k];
        }
      }
    }
  }

  // ---------------------------------------------------------------------------
  // Classification
  // ---------------------------------------------------------------------------

  datatype Const = EulerE | Pi | Light

  function ConstValue(k: Const): real {
    match k
    case EulerE => CONST_E
    case Pi => CONST_PI
    case Light => CONST_C
  }

  /** The text the recorder stores for an escape: no line terminator follows it. */
  function EscapeText(k: Const): string {
    match k
    case EulerE => "#e"
    case Pi => "#p"
    case Light => "#c"
  }

  datatype Token =
    | Blank
    | Number(value: real)
    | BadNumber
    | Constant(k: Const)
    | BadConstant
    | Command

  /** The letter after `#`, if any, read case-insensitively. */
  function ConstantLetter(c: Option<char>): (t: Token)
    ensures t.Constant? || t == BadConstant
    ensures t.Constant? <==> c.Some? && Lower(c.value) in {'e', 'p', 'c'}
    ensures t.Constant? ==> EscapeText(t.k) == ['#', Lower(c.value)]
  {
    if c.None? then BadConstant
    else if Lower(c.value) == 'e' then Constant(EulerE)
    else if Lower(c.value) == 'p' then Constant(Pi)
    else if Lower(c.value) == 'c' then Constant(Light)
    else BadConstant
  }

  /** A sign character is only a sign when a digit or `.` follows it. */
  predicate NumberFollows(line: string, i: nat) {
    i < |line| && (IsDigit(line[i]) || line[i] == '.')
  }

  predicate SignConsumed(line: string) {
    |line| > 0 && (line[0] == '-' || line[0] == '+') && NumberFollows(line, 1)
  }

  /** Where the digits (or `#`) are looked for, after an optional sign and `.`. */
  function BodyStart(line: string): nat {
    var i := if SignConsumed(line) then 1 else 0;
    if i < |line| && line[i] == '.' then i + 1 else i
  }

  predicate Decimal(line: string) {
    var i := if SignConsumed(line) then 1 else 0;
    i < |line| && line[i] == '.'
  }

  /** The numeric branch: the token must be followed directly by the terminator. */
  function NumberToken(line: string, j: nat): (t: Token)
    requires j < |line| && IsDigit(line[j])
    ensures t.Number? || t == BadNumber
    ensures var n := ScanNumeral(line, j);
            t.Number? <==> n.end < |line| && line[n.end] == '\n'
    ensures t.Number? && !Decimal(line) ==> Abs(t.value) == Magnitude(ScanNumeral(line, j).whole, ScanNumeral(line, j).frac)
    ensures t.Number? && Decimal(line) ==> Abs(t.value) < 1.0
    ensures t.Number? && t.value < 0.0 ==> SignConsumed(line) && line[0] == '-'
    ensures t.Number? && !Decimal(line) ==>
              var v := Magnitude(ScanNumeral(line, j).whole, ScanNumeral(line, j).frac);
              t.value == (if SignConsumed(line) && line[0] == '-' then -v else v)
  {
    var n := ScanNumeral(line, j);
    if n.end < |line| && line[n.end] == '\n' then
      var value := Magnitude(n.whole, n.frac);
      var signed := if SignConsumed(line) && line[0] == '-' then -value else value;
      Number(if Decimal(line) then DecimalRule(signed) else signed)
    else
      BadNumber
  }

  /** What parse() makes of one line. */
  function Classify(line: string): (t: Token)
    ensures t == Blank <==> line == "\n"
    ensures (t.Number? || t == BadNumber)
            <==> line != "\n" && BodyStart(line) < |line| && IsDigit(line[BodyStart(line)])
    ensures (t.Constant? || t == BadConstant)
            <==> line != "\n" && BodyStart(line) < |line| && line[BodyStart(line)] == '#'
  {
    if line == "\n" then Blank
    else
      var j := BodyStart(line);
      if j < |line| && IsDigit(line[j]) then NumberToken(line, j)
      else if j < |line| && line[j] == '#' then
        ConstantLetter(if j + 1 < |line| then Some(line[j + 1]) else None)
      else Command
  }

  // ---------------------------------------------------------------------------
  // Command normalisation
  // ---------------------------------------------------------------------------

  function NormChar(c: char): char {
    if IsAlpha(c) then Upper(c) else c
  }

  /**
   * cmd_parse's copy loop: the characters before the first `'\n'`, with
   * letters upper-cased and every other character kept.
   */
  function Normalize(s: string): (r: string)
    ensures |r| <= |s|
    ensures forall i :: 0 <= i < |r| ==> s[i] != '\n' && r[i] == NormChar(s[i])
    ensures |r| == |s| || s[|r|] == '\n'
  {
    if |s| == 0 || s[0] == '\n' then "" else [NormChar(s[0])] + Normalize(s[1..])
  }

  /** Lines that agree up to letter case. */
  predicate SameUpToCase(a: string, b: string) {
    |a| == |b| && forall i :: 0 <= i < |a| ==> Upper(a[i]) == Upper(b[i])
  }

  /** Normalisation forgets letter case, so `sqrt` and `SQRT` name the same command. */
  lemma {:induction false} NormalizeIgnoresCase(a: string, b: string)
    requires SameUpToCase(a, b)
    ensures Normalize(a) == Normalize(b)
    decreases |a|
  {
    if |a| > 0 {
      SameUpToCaseChar(a[0], b[0]);
      assert SameUpToCase(a[1..], b[1..]) by {
        forall i | 0 <= i < |a| - 1
          ensures Upper(a[1..][i]) == Upper(b[1..][i])
        {
          assert a[1..][i] == a[i + 1];
          assert b[1..][i] == b[i + 1];
        }
      }
      NormalizeIgnoresCase(a[1..], b[1..]);
    }
  }

  /** Strings of one length whose digits sit in the same places and whose non-letters are equal. */
  predicate AgreeOnNonLetters(a: string, b: string) {
    && |a| == |b|
    && (forall i :: 0 <= i < |a| ==> (IsDigit(a[i]) <==> IsDigit(b[i])))
    && (forall i :: 0 <= i < |a| ==> (IsAlpha(a[i]) <==> IsAlpha(b[i])))
    && (forall i :: 0 <= i < |a| && !IsAlpha(a[i]) ==> a[i] == b[i])
  }

  /** Strings that agree up to case agree exactly on every non-letter. */
  lemma NonLettersAgree(a: string, b: string)
    requires SameUpToCase(a, b)
    ensures AgreeOnNonLetters(a, b)
  {
    forall i | 0 <= i < |a|
      ensures (IsDigit(a[i]) <==> IsDigit(b[i])) && (IsAlpha(a[i]) <==> IsAlpha(b[i]))
      ensures !IsAlpha(a[i]) ==> a[i] == b[i]
    {
      SameUpToCaseChar(a[i], b[i]);
    }
  }

  /** The sign and point prefix only looks at non-letters, so case cannot change it. */
  lemma PrefixIgnoresCase(a: string, b: string)
    requires AgreeOnNonLetters(a, b)
    ensures SignConsumed(a) == SignConsumed(b)
    ensures (|a| > 0 && a[0] == '-') == (|b| > 0 && b[0] == '-')
    ensures Decimal(a) == Decimal(b)
    ensures BodyStart(a) == BodyStart(b)
  {
  }

  /** A lexeme is made of non-letters, so it is found in both strings or in neither. */
  lemma LexemeIgnoresCase(a: string, b: string, j: nat, whole: string, frac: Option<string>)
    requires AgreeOnNonLetters(a, b) && LexemeAt(a, j, whole, frac)
    ensures LexemeAt(b, j, whole, frac)
  {
    var end := j + LexemeLength(whole, frac);
    var e := j + |whole|;
    forall k | j <= k < end
      ensures a[k] == b[k]
    {
      if k < e {
        assert a[k] == a[j..e][k - j];
      } else if k > e {
        assert a[k] == a[e + 1..end][k - e - 1];
      }
    }
    assert b[j..e] == a[j..e];
    if frac.Some? {
      assert b[e + 1..end] == a[e + 1..end];
    }
  }

  /** The numeric read only looks at digits and `.`, so case cannot change it. */
  lemma ScanIgnoresCase(a: string, b: string, j: nat)
    requires AgreeOnNonLetters(a, b)
    requires j < |a| && IsDigit(a[j])
    ensures IsDigit(b[j]) && ScanNumeral(a, j) == ScanNumeral(b, j)
  {
    var r := ScanNumeral(a, j);
    ScanIsLexeme(a, j);
    LexemeIgnoresCase(a, b, j, r.whole, r.frac);
    ScanLexeme(b, j, r.whole, r.frac);
  }

  /** The numeric branch only looks at non-letters, so case cannot change it. */
  lemma NumberTokenIgnoresCase(a: string, b: string, j: nat)
    requires AgreeOnNonLetters(a, b)
    requires j < |a| && IsDigit(a[j])
    ensures IsDigit(b[j]) && NumberToken(a, j) == NumberToken(b, j)
  {
    ScanIgnoresCase(a, b, j);
    PrefixIgnoresCase(a, b);
  }

  /** Classification forgets letter case too. */
  lemma ClassifyIgnoresCase(a: string, b: string)
    requires SameUpToCase(a, b)
    ensures Classify(a) == Classify(b)
  {
    NonLettersAgree(a, b);
    PrefixIgnoresCase(a, b);
    assert a == "\n" <==> b == "\n";
    var j := BodyStart(a);
    if a != "\n" && j < |a| {
      if IsDigit(a[j]) {
        NumberTokenIgnoresCase(a, b, j);
      } else if a[j] == '#' && j + 1 < |a| {
        SameUpToCaseChar(a[j + 1], b[j + 1]);
      }
    }
  }

  // ---------------------------------------------------------------------------
  // Rendering numbers: the partner of classification
  // ---------------------------------------------------------------------------

  datatype Sign = Unsigned | Minus | Plus

  /**
   * A numeric literal as a user types it: optional sign, optional leading
   * `.`, digits, and an optional `.` with fraction digits.
   */
  datatype Literal = Literal(sign: Sign, leadingPoint: bool, whole: string, frac: Option<string>)

  predicate ValidLiteral(l: Literal) {
    |l.whole| > 0 && AllDigits(l.whole) && (l.frac.Some? ==> AllDigits(l.frac.value))
  }

  function Render(l: Literal): string {
    SignText(l.sign) + PointText(l) + l.whole + FracText(l)
  }

  /** The value a literal stands for under the calculator's rules. */
  function LiteralValue(l: Literal): real {
    var magnitude := Magnitude(l.whole, l.frac);
    var signed := if l.sign == Minus then -magnitude else magnitude;
    if l.leadingPoint then DecimalRule(signed) else signed
  }

  function SignText(sign: Sign): string {
    match sign
    case Unsigned => ""
    case Minus => "-"
    case Plus => "+"
  }

  function PointText(l: Literal): string {
    if l.leadingPoint then "." else ""
  }

  function FracText(l: Literal): string {
    if l.frac.Some? then "." + l.frac.value else ""
  }

  /** The sign and point of a rendered literal are read as such. */
  lemma PrefixOfRendered(l: Literal, rest: string)
    requires ValidLiteral(l)
    ensures var s := SignText(l.sign) + PointText(l) + l.whole + rest;
            BodyStart(s) == |SignText(l.sign) + PointText(l)|
            && (SignConsumed(s) && s[0] == '-' <==> l.sign == Minus)
            && (Decimal(s) <==> l.leadingPoint)
            && s != "\n"
  {
    var s := SignText(l.sign) + PointText(l) + l.whole + rest;
    var pre := SignText(l.sign) + PointText(l);
    assert s[|pre|] == l.whole[0];
    assert IsDigit(s[|pre|]);
    if l.sign != Unsigned {
      assert s[0] == SignText(l.sign)[0];
    }
    if l.leadingPoint {
      assert s[|SignText(l.sign)|] == '.';
    }
  }

  /** Whole digits with no fraction, then a character that cannot continue them. */
  lemma WholeLexeme(pre: string, w: string, tail: string)
    requires |w| > 0 && AllDigits(w) && |tail| > 0 && !IsDigit(tail[0]) && tail[0] != '.'
    ensures LexemeAt(pre + w + tail, |pre|, w, None)
  {
    var s := pre + w + tail;
    assert s[|pre|..|pre| + |w|] == w;
    assert s[|pre| + |w|] == tail[0];
  }

  /** Whole digits, a point and fraction digits, then a character that cannot continue them. */
  lemma FractionLexeme(pre: string, w: string, fs: string, tail: string)
    requires |w| > 0 && AllDigits(w) && AllDigits(fs) && |tail| > 0 && !IsDigit(tail[0])
    ensures LexemeAt(pre + w + ("." + fs) + tail, |pre|, w, Some(fs))
  {
    var s := pre + w + ("." + fs) + tail;
    var e := |pre| + |w|;
    assert s[|pre|..e] == w;
    assert s[e] == '.';
    assert s[e + 1..e + 1 + |fs|] == fs;
    assert s[e + 1 + |fs|] == tail[0];
  }

  /** A rendered literal, followed by `tail`, is a lexeme right after its sign and point. */
  lemma RenderedLexeme(l: Literal, tail: string)
    requires ValidLiteral(l) && |tail| > 0 && !IsDigit(tail[0])
    requires l.frac.None? ==> tail[0] != '.'
    ensures LexemeAt(Render(l) + tail, |SignText(l.sign) + PointText(l)|, l.whole, l.frac)
    ensures |Render(l)| == |SignText(l.sign) + PointText(l)| + LexemeLength(l.whole, l.frac)
  {
    var pre := SignText(l.sign) + PointText(l);
    if l.frac.Some? {
      assert Render(l) + tail == pre + l.whole + ("." + l.frac.value) + tail;
      FractionLexeme(pre, l.whole, l.frac.value, tail);
    } else {
      assert Render(l) + tail == pre + l.whole + tail;
      WholeLexeme(pre, l.whole, tail);
    }
  }

  /** A rendered literal is its sign, its point, its whole digits and its fraction. */
  lemma RenderSplit(l: Literal, tail: string)
    ensures Render(l) + tail == SignText(l.sign) + PointText(l) + l.whole + (FracText(l) + tail)
  {
  }

  /**
   * Where the digits of a rendered literal begin and end, when `tail`
   * follows it and cannot continue the numeric token.
   */
  lemma ScanRendered(l: Literal, tail: string)
    requires ValidLiteral(l) && |tail| > 0 && !IsDigit(tail[0])
    requires l.frac.None? ==> tail[0] != '.'
    ensures var s := Render(l) + tail;
            var j := BodyStart(s);
            s != "\n" && j < |s| && IsDigit(s[j])
            && ScanNumeral(s, j) == Scanned(l.whole, l.frac, |Render(l)|)
            && (SignConsumed(s) && s[0] == '-' <==> l.sign == Minus)
            && (Decimal(s) <==> l.leadingPoint)
  {
    RenderSplit(l, tail);
    PrefixOfRendered(l, FracText(l) + tail);
    RenderedLexeme(l, tail);
    ScanLexeme(Render(l) + tail, |SignText(l.sign) + PointText(l)|, l.whole, l.frac);
  }

  /** Every literal followed by the line terminator reads back as its own value. */
  lemma ClassifyRendered(l: Literal)
    requires ValidLiteral(l)
    ensures Classify(Render(l) + "\n") == Number(LiteralValue(l))
  {
    ScanRendered(l, "\n");
    var s := Render(l) + "\n";
    assert s[|Render(l)|] == '\n';
  }

  /** A literal followed by anything other than the terminator is a malformed number. */
  lemma ClassifyRenderedJunk(l: Literal, junk: string)
    requires ValidLiteral(l) && |junk| > 0 && junk[0] != '\n' && !IsDigit(junk[0])
    requires l.frac.None? ==> junk[0] != '.'
    ensures Classify(Render(l) + junk + "\n") == BadNumber
  {
    assert Render(l) + junk + "\n" == Render(l) + (junk + "\n");
    ScanRendered(l, junk + "\n");
    var s := Render(l) + (junk + "\n");
    assert s[|Render(l)|] == junk[0];
  }

  /** A `.`-prefixed literal always reads as a value of magnitude below one, sign kept. */
  lemma DecimalLiteralBelowOne(l: Literal)
    requires ValidLiteral(l) && l.leadingPoint
    ensures Classify(Render(l) + "\n").Number?
    ensures Abs(Classify(Render(l) + "\n").value) < 1.0
    ensures l.sign == Minus && LiteralValue(l.(leadingPoint := false)) != 0.0 ==> Classify(Render(l) + "\n").value < 0.0
    ensures l.sign != Minus ==> Classify(Render(l) + "\n").value >= 0.0
  {
    ClassifyRendered(l);
  }

  /** A lone sign is not a sign: `-` and `+` followed by a non-number are commands. */
  lemma LoneSignIsCommand(line: string)
    requires |line| > 0 && (line[0] == '-' || line[0] == '+') && !NumberFollows(line, 1)
    ensures Classify(line) == Command
  {
  }

  /** Only the one letter after `#` matters; the rest of the line is ignored. */
  lemma ConstantIgnoresRest(c: char, rest1: string, rest2: string)
    ensures Classify("#" + [c] + rest1) == Classify("#" + [c] + rest2)
    ensures Classify("#" + [c] + rest1) == ConstantLetter(Some(c))
  {
    assert ("#" + [c] + rest1)[0] == '#';
    assert ("#" + [c] + rest2)[0] == '#';
    assert ("#" + [c] + rest1)[1] == c;
    assert ("#" + [c] + rest2)[1] == c;
  }

  /** The decimal rule divides by the one power of ten that brings the magnitude below one. */
  lemma DecimalRuleBy(x: real, k: nat)
    requires Abs(x) < Pow10(k) as real
    requires k == 0 || Pow10(k - 1) as real <= Abs(x)
    ensures DecimalRule(x) == x / Pow10(k) as real
  {
    ShiftsUnique(x, k);
  }

  /** Ten and a hundred, unfolded once for the examples. */
  lemma SmallPowers()
    ensures Pow10(1) == 10 && Pow10(2) == 100
  {
    assert Pow10(1) == 10 * Pow10(0);
    assert Pow10(2) == 10 * Pow10(1);
  }

  /** The literal `.5`: one half. */
  lemma HalfLiteral()
    ensures var l := Literal(Unsigned, true, "5", None);
            ValidLiteral(l) && LiteralValue(l) == 0.5 && Render(l) + "\n" == ".5\n"
  {
    SmallPowers();
    assert DigitsValue("5") == 5 by {
      assert "5"[..0] == "";
    }
    DecimalRuleBy(5.0, 1);
  }

  /** The literal `.05`: the leading zero is lost, so it too is one half. */
  lemma LeadingZeroLiteral()
    ensures var l := Literal(Unsigned, true, "05", None);
            ValidLiteral(l) && LiteralValue(l) == 0.5 && Render(l) + "\n" == ".05\n"
  {
    SmallPowers();
    assert DigitsValue("05") == 5 by {
      assert "05"[..1] == "0";
      assert "0"[..0] == "";
    }
    DecimalRuleBy(5.0, 1);
  }

  /** The literal `.25`: one quarter. */
  lemma QuarterLiteral()
    ensures var l := Literal(Unsigned, true, "25", None);
            ValidLiteral(l) && LiteralValue(l) == 0.25 && Render(l) + "\n" == ".25\n"
  {
    SmallPowers();
    assert DigitsValue("25") == 25 by {
      assert "25"[..1] == "2";
      assert "2"[..0] == "";
    }
    DecimalRuleBy(25.0, 2);
  }

  /** The literal `-.5`: minus one half. */
  lemma NegativeHalfLiteral()
    ensures var l := Literal(Minus, true, "5", None);
            ValidLiteral(l) && LiteralValue(l) == -0.5 && Render(l) + "\n" == "-.5\n"
  {
    SmallPowers();
    assert DigitsValue("5") == 5 by {
      assert "5"[..0] == "";
    }
    DecimalRuleBy(-5.0, 1);
  }

  /** The worked examples of the decimal rule: `.5` reads as one half ... */
  lemma DecimalRuleHalf()
    ensures Classify(".5\n") == Number(0.5)
  {
    HalfLiteral();
    ClassifyRendered(Literal(Unsigned, true, "5", None));
  }

  /** ... and so does `.05`: leading zeros of the digits are lost. */
  lemma DecimalRuleLeadingZero()
    ensures Classify(".05\n") == Number(0.5)
  {
    LeadingZeroLiteral();
    ClassifyRendered(Literal(Unsigned, true, "05", None));
  }

  lemma DecimalRuleQuarter()
    ensures Classify(".25\n") == Number(0.25)
  {
    QuarterLiteral();
    ClassifyRendered(Literal(Unsigned, true, "25", None));
  }

  lemma DecimalRuleNegative()
    ensures Classify("-.5\n") == Number(-0.5)
  {
    NegativeHalfLiteral();
    ClassifyRendered(Literal(Minus, true, "5", None));
  }
}

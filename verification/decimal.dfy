/** The value of a decimal numeral, and what `convert` reports for a token
    when `strtod` reads that value exactly. The C library does so wherever
    the value is a `double` (all integers up to 2^53 in magnitude, and
    fractions such as 0.5 or 255.5). `ExactStrtod` is one `strtod` that
    always reads the exact value, with the binary64 overflow threshold; it
    is the one the worked examples use. */
module ExactDecimal {
  import opened Tokens
  import opened Values
  import opened Recognisers
  import opened Presenter
  import opened Converter

  /** The smallest magnitude that rounds to infinity in binary64,
      2^1024 - 2^970: `strtod` sets `ERANGE` from here on. */
  const DBL_OVERFLOW: real :=
    179769313486231580793728971405303415079934132710037826936173778980444968292764750946649017977587207096330286416692887910946555547851940402630657488671505820681908902000708383676273854845817711531764475730270069855571366959622842914819860834936475292719074168444365510704342711559699508093042880177904174497792.0

  /** Value of a digit, 0 for any other byte. */
  function Digit(c: Byte): (d: nat)
    ensures d < 10
    ensures IsDigit(c) ==> d == DigitValue(c)
  {
    if IsDigit(c) then DigitValue(c) else 0
  }

  /** The whole number a run of digits denotes, most significant first. */
  function WholeValue(t: Token): (n: nat)
    decreases |t|
  {
    if t == [] then 0 else WholeValue(t[..|t| - 1]) * 10 + Digit(t[|t| - 1])
  }

  /** The fraction a run of digits after a dot denotes. */
  function FractionValue(t: Token): (x: real)
    decreases |t|
  {
    if t == [] then 0.0 else (Digit(t[0]) as real + FractionValue(t[1..])) / 10.0
  }

  /** Position of the first dot, or the length when there is none. */
  function DotIndex(t: Token): (k: nat)
    ensures k <= |t|
    ensures k < |t| ==> t[k] == DOT
    ensures forall j :: 0 <= j < k ==> t[j] != DOT
  {
    if t == [] then 0
    else if t[0] == DOT then 0
    else 1 + DotIndex(t[1..])
  }

  /** The value of a numeral of the integer or double grammar. */
  function DecimalValue(s: Token): (x: real)
  {
    var body := s[SignLen(s)..];
    var k := DotIndex(body);
    var magnitude :=
      WholeValue(body[..k]) as real
      + (if k < |body| then FractionValue(body[k + 1..]) else 0.0);
    if SignLen(s) == 1 && s[0] == MINUS then -magnitude else magnitude
  }

  /** `strtod` on the texts `convert` passes to it: all of a numeral of the
      integer or double grammar is consumed. Any other text is treated as
      consuming nothing, which `convert` never relies on. */
  function ExactStrtod(s: Token): (r: StrtodResult)
    ensures (IntShape(s) || DoubleShape(s)) ==> r.end == |s|
    ensures r.erange ==> DecimalValue(s) >= DBL_OVERFLOW || DecimalValue(s) <= -DBL_OVERFLOW
    ensures (IntShape(s) || DoubleShape(s)) ==>
      (r.erange <==> DecimalValue(s) >= DBL_OVERFLOW || DecimalValue(s) <= -DBL_OVERFLOW)
    ensures !r.erange && r.end == |s| && |s| > 0 ==> r.value == Finite(DecimalValue(s))
  {
    if IntShape(s) || DoubleShape(s) then
      var x := DecimalValue(s);
      if x >= DBL_OVERFLOW then StrtodResult(PosInf, |s|, true)
      else if x <= -DBL_OVERFLOW then StrtodResult(NegInf, |s|, true)
      else StrtodResult(Finite(x), |s|, false)
    else StrtodResult(Finite(0.0), 0, false)
  }

  /** `strtod` reads the numeral s exactly: its decimal value, all of it,
      with no range error. */
  predicate ReadsExactly(strtod: Strtod, s: Token) {
    strtod(s) == StrtodResult(Finite(DecimalValue(s)), |s|, false)
  }

  // ---------------------------------------------------------------------
  // Properties

  /** Below the overflow threshold `ExactStrtod` reads every numeral
      exactly. */
  lemma ExactStrtodReadsExactly(s: Token)
    requires IntShape(s) || DoubleShape(s)
    requires -DBL_OVERFLOW < DecimalValue(s) < DBL_OVERFLOW
    ensures ReadsExactly(ExactStrtod, s)
  {
  }

  /** The fraction after the dot is in [0, 1). */
  lemma {:induction false} FractionValueInUnit(t: Token)
    ensures 0.0 <= FractionValue(t) < 1.0
    decreases |t|
  {
    if t != [] {
      FractionValueInUnit(t[1..]);
    }
  }

  /** An integer token is read as the whole number of its digits, with its
      sign. */
  lemma IntegerTokenValue(s: Token)
    requires IntShape(s)
    ensures var n := WholeValue(s[SignLen(s)..]);
      DecimalValue(s) == if s[0] == MINUS then -(n as real) else n as real
  {
    var body := s[SignLen(s)..];
    assert forall j :: 0 <= j < |body| ==> body[j] != DOT by {
      forall j | 0 <= j < |body| ensures body[j] != DOT {
        assert IsDigit(s[SignLen(s) + j]);
      }
    }
    assert DotIndex(body) == |body|;
    assert body[..|body|] == body;
  }

  /** An integer token that `strtod` reads exactly converts to the whole
      number it spells, so its int line is that number exactly when it fits
      in 32 bits, and its double line is that number. */
  lemma IntegerTokenIsExact(s: Token, n: int, strtod: Strtod)
    requires IntShape(s)
    requires n == (if s[0] == MINUS then -(WholeValue(s[SignLen(s)..]) as int) else WholeValue(s[SignLen(s)..]))
    requires ReadsExactly(strtod, s)
    ensures ConvertSpec(s, strtod) == Present(Finite(n as real))
    ensures ConvertSpec(s, strtod).intLine == if INT_MIN <= n <= INT_MAX then IntOut(n) else Impossible
    ensures ConvertSpec(s, strtod).doubleLine == FixedOut(n as real)
  {
    IntegerTokenValue(s);
    assert DecimalValue(s) == n as real;
    ClassifyIsOrderFree(s, Integer);
    assert SpaceFrom(s, |s|);
    IntViewOfInteger(n);
  }

  /** The float literal `<core>f` and the double literal `<core>` have the
      same value: the suffix changes the category, never the number. */
  lemma FloatAndDoubleAgree(core: Token, strtod: Strtod)
    requires DoubleShape(core)
    ensures ConvertSpec(core + [FSUFFIX], strtod) == ConvertSpec(core, strtod)
  {
    var s := core + [FSUFFIX];
    assert s[..|s| - 1] == core;
    assert FloatShape(s);
    ClassifyIsOrderFree(s, FloatLit);
    ClassifyIsOrderFree(core, DoubleLit);
  }

  /** A token of the double grammar is read as its digits before the dot,
      plus the fraction after it, with its sign. */
  lemma DoubleTokenValue(s: Token, k: nat)
    requires DoubleShape(s) && SignLen(s) <= k < |s| && s[k] == DOT
    ensures var m := WholeValue(s[SignLen(s)..k]) as real + FractionValue(s[k + 1..]);
      DecimalValue(s) == if s[0] == MINUS then -m else m
  {
    var d := SignLen(s);
    var body := s[d..];
    var i := DotIndex(body);
    assert body[k - d] == DOT;
    assert i == k - d;
    assert body[..i] == s[d..k];
    assert body[i + 1..] == s[k + 1..];
  }

  /** The int line of a double token that `strtod` reads exactly shows its
      digits before the dot, with its sign, whenever the value is in range:
      truncation toward zero drops the fraction for negative values too. */
  lemma DoubleTokenIntLine(s: Token, k: nat, strtod: Strtod)
    requires DoubleShape(s) && SignLen(s) <= k < |s| && s[k] == DOT
    requires INT_MIN as real <= DecimalValue(s) <= INT_MAX as real
    requires ReadsExactly(strtod, s)
    ensures var w := WholeValue(s[SignLen(s)..k]) as int;
      ConvertSpec(s, strtod).intLine == IntOut(if s[0] == MINUS then -w else w)
  {
    DoubleTokenValue(s, k);
    FractionValueInUnit(s[k + 1..]);
    ClassifyIsOrderFree(s, DoubleLit);
    assert SpaceFrom(s, |s|);
  }

  /** Reading one more digit multiplies the whole number by ten and adds
      the digit. */
  lemma WholeValueOfPrefix(s: Token, n: nat)
    requires 0 < n <= |s|
    ensures WholeValue(s[..n]) == WholeValue(s[..n - 1]) * 10 + Digit(s[n - 1])
  {
    assert s[..n][..n - 1] == s[..n - 1];
  }

  /** A double token that `strtod` reads exactly converts to the value of
      its numeral. */
  lemma DoubleTokenIsExact(s: Token, strtod: Strtod)
    requires DoubleShape(s)
    requires ReadsExactly(strtod, s)
    ensures ConvertSpec(s, strtod) == Present(Finite(DecimalValue(s)))
  {
    ClassifyIsOrderFree(s, DoubleLit);
    assert SpaceFrom(s, |s|);
  }

  /** Worked examples of integer tokens. */
  lemma IntegerExamples(answer: Token, zero: Token, negative: Token)
    requires answer == "42" && zero == "0" && negative == "-42"
    ensures ConvertSpec(answer, ExactStrtod) == Report(CharOut('*'), IntOut(42), FixedOut(42.0), FixedOut(42.0))
    ensures ConvertSpec(zero, ExactStrtod) == Report(NonDisplayable, IntOut(0), FixedOut(0.0), FixedOut(0.0))
    ensures ConvertSpec(negative, ExactStrtod) == Report(Impossible, IntOut(-42), FixedOut(-42.0), FixedOut(-42.0))
  {
    assert IntShape(answer) && answer[SignLen(answer)..] == answer;
    assert answer[..1] == "4" && WholeValue("4") == 4;
    assert WholeValue(answer) == 42;
    IntegerTokenValue(answer);
    ExactStrtodReadsExactly(answer);
    IntegerTokenIsExact(answer, 42, ExactStrtod);
    assert IntShape(zero) && zero[SignLen(zero)..] == zero;
    assert WholeValue(zero) == 0;
    ExactStrtodReadsExactly(zero);
    IntegerTokenIsExact(zero, 0, ExactStrtod);
    assert IntShape(negative) && negative[SignLen(negative)..] == answer;
    ExactStrtodReadsExactly(negative);
    IntegerTokenIsExact(negative, -42, ExactStrtod);
  }

  /** `4.2`: the int line drops the fraction, the char line finds code 4
      not displayable. */
  lemma FourPointTwoExample(s: Token)
    requires s == "4.2"
    ensures ConvertSpec(s, ExactStrtod) == Report(NonDisplayable, IntOut(4), FixedOut(4.2), FixedOut(4.2))
  {
    assert DigitsIn(s, 0, 1) && DigitsIn(s, 2, 3);
    DoubleShapeAt(s, 1);
    DoubleTokenValue(s, 1);
    assert s[0..1] == "4" && s[2..] == "2";
    assert WholeValue("4") == 4;
    assert FractionValue("2") == 0.2;
    assert DecimalValue(s) == 4.2;
    ExactStrtodReadsExactly(s);
    DoubleTokenIsExact(s, ExactStrtod);
    assert Trunc(4.2) == 4;
    assert CharView(Finite(4.2)) == NonDisplayable;
    assert IntView(Finite(4.2)) == IntOut(4);
  }

  /** `4.2f` reports what `4.2` does. */
  lemma FourPointTwoFloatExample(f: Token, s: Token)
    requires f == "4.2f" && s == "4.2"
    ensures ConvertSpec(f, ExactStrtod) == ConvertSpec(s, ExactStrtod)
  {
    assert DigitsIn(s, 0, 1) && DigitsIn(s, 2, 3);
    DoubleShapeAt(s, 1);
    FloatAndDoubleAgree(s, ExactStrtod);
    assert s + [FSUFFIX] == f;
  }

  /** `-0.5` truncates to 0 but is below the char range. */
  lemma MinusHalfExample(s: Token)
    requires s == "-0.5"
    ensures ConvertSpec(s, ExactStrtod) == Report(Impossible, IntOut(0), FixedOut(-0.5), FixedOut(-0.5))
  {
    assert DigitsIn(s, 1, 2) && DigitsIn(s, 3, 4);
    DoubleShapeAt(s, 2);
    DoubleTokenValue(s, 2);
    assert s[1..2] == "0" && s[3..] == "5";
    assert DecimalValue(s) == -0.5;
    ExactStrtodReadsExactly(s);
    DoubleTokenIsExact(s, ExactStrtod);
  }

  /** The digits of `255.5` read as 255.5. */
  lemma TwoFiftyFivePointFiveValue(s: Token)
    requires |s| == 5 && s[0] == '2' && s[1] == '5' && s[2] == '5' && s[3] == '.' && s[4] == '5'
    requires DoubleShape(s)
    ensures DecimalValue(s) == 255.5
  {
    DoubleTokenValue(s, 3);
    assert s[0..3] == s[..3];
    assert s[..0] == [];
    WholeValueOfPrefix(s, 1);
    WholeValueOfPrefix(s, 2);
    WholeValueOfPrefix(s, 3);
    assert WholeValue(s[..3]) == 255;
    assert s[4..][1..] == [];
    assert FractionValue(s[4..]) == 0.5;
  }

  /** `255.5` truncates to 255 but is above the char range. */
  lemma TwoFiftyFivePointFiveExample(s: Token)
    requires s == "255.5"
    ensures ConvertSpec(s, ExactStrtod).charLine == Impossible
    ensures ConvertSpec(s, ExactStrtod).intLine == IntOut(255)
  {
    assert DoubleShape(s) by {
      assert DigitsIn(s, 0, 3) && DigitsIn(s, 4, 5);
      DoubleShapeAt(s, 3);
    }
    TwoFiftyFivePointFiveValue(s);
    ExactStrtodReadsExactly(s);
    DoubleTokenIsExact(s, ExactStrtod);
    assert Trunc(255.5) == 255;
  }
}

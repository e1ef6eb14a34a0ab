/** The four views of a canonical value (`printChar`, `printInt`,
    `printFloat`, `printDouble`): which outcome each reports, not the text it
    writes. */
module Presenter {
  import opened Tokens
  import opened Values
  import opened Recognisers

  /** What one line of the report says after its label. */
  datatype Outcome =
    | Impossible
    | NonDisplayable
    | CharOut(c: Byte)          // a printable character, shown quoted
    | IntOut(n: int)            // a 32-bit integer
    | NanOut                    // `nanf` on the float line, `nan` on the double line
    | InfOut(negative: bool)    // `-inff`/`+inff`, `-inf`/`+inf`
    | FixedOut(x: real)         // a finite value in fixed notation

  /** The four lines, in the order char, int, float, double. */
  datatype Report = Report(charLine: Outcome, intLine: Outcome, floatLine: Outcome, doubleLine: Outcome)

  const AllImpossible := Report(Impossible, Impossible, Impossible, Impossible)

  /** `printChar`: NaN, the infinities and values outside [0, 255] are
      impossible (the bound is tested before truncation); otherwise the value
      is truncated toward zero and is shown when it is printable ASCII. */
  function CharView(v: Val): (o: Outcome)
    ensures o == Impossible <==> !(v.Finite? && 0.0 <= v.r <= UCHAR_MAX as real)
    ensures o.CharOut? <==> v.Finite? && 32.0 <= v.r < 127.0
    ensures o == NonDisplayable <==>
      v.Finite? && (0.0 <= v.r < 32.0 || 127.0 <= v.r <= UCHAR_MAX as real)
    ensures o.CharOut? ==> o.c as int as real <= v.r < o.c as int as real + 1.0
  {
    if v.NaN? || v.PosInf? || v.NegInf? then Impossible
    else if v.r < 0.0 || v.r > UCHAR_MAX as real then Impossible
    else
      var ch := Trunc(v.r);
      if ch < 32 || ch > 126 then NonDisplayable
      else CharOut(ch as char)
  }

  /** `printInt`: NaN, the infinities and values outside [INT_MIN, INT_MAX]
      are impossible (again tested before truncation); otherwise the value
      truncated toward zero, which then always fits in 32 bits. */
  function IntView(v: Val): (o: Outcome)
    ensures o.IntOut? || o == Impossible
    ensures o.IntOut? <==> v.Finite? && INT_MIN as real <= v.r <= INT_MAX as real
    ensures o.IntOut? ==> INT_MIN <= o.n <= INT_MAX
    ensures o.IntOut? && 0.0 <= v.r ==> 0 <= o.n && o.n as real <= v.r < o.n as real + 1.0
    ensures o.IntOut? && v.r < 0.0 ==> o.n <= 0 && o.n as real - 1.0 < v.r <= o.n as real
  {
    if v.NaN? || v.PosInf? || v.NegInf? then Impossible
    else if v.r < INT_MIN as real || v.r > INT_MAX as real then Impossible
    else IntOut(Trunc(v.r))
  }

  /** `printFloat`: NaN and the infinities keep their kind and sign; a finite
      value beyond the largest finite `float` in magnitude is impossible. */
  function FloatView(v: Val): (o: Outcome)
    ensures o == NanOut <==> v.NaN?
    ensures o.InfOut? <==> v.PosInf? || v.NegInf?
    ensures o.InfOut? ==> (o.negative <==> v.NegInf?)
    ensures o == Impossible <==> v.Finite? && (v.r < -FLT_MAX || v.r > FLT_MAX)
    ensures o.FixedOut? ==> v.Finite? && o.x == v.r && -FLT_MAX <= o.x <= FLT_MAX
  {
    if v.NaN? then NanOut
    else if v.PosInf? || v.NegInf? then InfOut(v.NegInf?)
    else if v.r < -FLT_MAX || v.r > FLT_MAX then Impossible
    else FixedOut(v.r)
  }

  /** `printDouble`: NaN and the infinities keep their kind and sign; every
      finite value is shown. */
  function DoubleView(v: Val): (o: Outcome)
    ensures o != Impossible
    ensures o == NanOut <==> v.NaN?
    ensures o.InfOut? <==> v.PosInf? || v.NegInf?
    ensures o.InfOut? ==> (o.negative <==> v.NegInf?)
    ensures o.FixedOut? <==> v.Finite?
    ensures o.FixedOut? ==> o.x == v.r
  {
    if v.NaN? then NanOut
    else if v.PosInf? || v.NegInf? then InfOut(v.NegInf?)
    else FixedOut(v.r)
  }

  /** The four views, each computed from the value alone. */
  function Present(v: Val): (rep: Report)
    ensures rep != AllImpossible
    ensures rep.charLine == CharView(v) && rep.intLine == IntView(v)
    ensures rep.floatLine == FloatView(v) && rep.doubleLine == DoubleView(v)
  {
    Report(CharView(v), IntView(v), FloatView(v), DoubleView(v))
  }

  /** What the float line (`float` set) or the double line prints for NaN
      and the infinities: always one of the pseudo-literal spellings, the float
      line's being the double line's with an `f` appended. */
  function SpecialSpelling(o: Outcome, float: bool): (t: Token)
    requires o == NanOut || o.InfOut?
    ensures IsPseudo(t)
    ensures |t| == (if o == NanOut then 3 else 4) + (if float then 1 else 0)
    ensures float ==> t[|t| - 1] == FSUFFIX
    ensures t[0] == 'n' <==> o == NanOut
    ensures t[0] == MINUS <==> o.InfOut? && o.negative
  {
    if o == NanOut then (if float then "nanf" else "nan")
    else if o.negative then (if float then "-inff" else "-inf")
    else if float then "+inff" else "+inf"
  }

  /** The pseudo-literals are exactly the spellings the float and double
      lines print for NaN and the two infinities. */
  lemma PseudoIsSpecialSpelling(s: Token)
    ensures IsPseudo(s) <==>
      exists o: Outcome, float: bool :: (o == NanOut || o.InfOut?) && SpecialSpelling(o, float) == s
  {
    if IsPseudo(s) {
      var o := if s[0] == 'n' then NanOut else InfOut(s[0] == MINUS);
      var float := (|s| == 4 && s[0] == 'n') || |s| == 5;
      assert SpecialSpelling(o, float) == s;
    }
  }

  // ---------------------------------------------------------------------
  // Properties of the views

  /** A value that is a 32-bit integer is reported exactly on the int line. */
  lemma IntViewOfInteger(n: int)
    ensures IntView(Finite(n as real)) == if INT_MIN <= n <= INT_MAX then IntOut(n) else Impossible
  {
    TruncOfInteger(n);
  }

  /** The range test is on the untruncated value: values whose truncation
      would fit are still impossible just past either bound. */
  lemma RangeTestedBeforeTruncation()
    ensures CharView(Finite(255.5)) == Impossible && Trunc(255.5) == 255
    ensures CharView(Finite(-0.5)) == Impossible && Trunc(-0.5) == 0
    ensures IntView(Finite(2147483647.5)) == Impossible && Trunc(2147483647.5) == INT_MAX
    ensures IntView(Finite(-2147483648.5)) == Impossible && Trunc(-2147483648.5) == INT_MIN
    ensures CharView(Finite(255.0)) == NonDisplayable && CharView(Finite(0.0)) == NonDisplayable
    ensures IntView(Finite(2147483647.0)) == IntOut(INT_MAX)
    ensures IntView(Finite(2147483648.0)) == Impossible
    ensures IntView(Finite(-2147483648.0)) == IntOut(INT_MIN)
  {
    TruncOfInteger(INT_MAX);
    TruncOfInteger(INT_MIN);
  }

  /** The character shown is the truncated value: a code c is shown exactly
      for the values in [c, c + 1) when c is printable. */
  lemma CharViewShows(v: Val, c: Byte)
    ensures CharView(v) == CharOut(c) <==>
      32 <= c as int <= 126 && v.Finite? && c as int as real <= v.r < c as int as real + 1.0
  {
  }

  /** When the char line shows a character, the int line shows its code. */
  lemma CharAndIntAgree(v: Val)
    requires CharView(v).CharOut?
    ensures IntView(v) == IntOut(CharView(v).c as int)
  {
  }
}

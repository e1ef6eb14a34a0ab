/** The six literal recognisers of ex00/ScalarConverter.cpp. The three that
    are single boolean expressions there are predicates here; the three that
    scan the token with an index and `hasDot`/`hasDigit` flags are methods
    with loops, each proved equal to a declarative grammar predicate. */
module Recognisers {
  import opened Tokens

  // ---------------------------------------------------------------------
  // Single-expression recognisers

  /** The six pseudo-literal spellings. */
  predicate IsPseudo(s: Token) {
    s == "nan" || s == "+inf" || s == "-inf"
    || s == "nanf" || s == "+inff" || s == "-inff"
  }

  /** Exactly three bytes, the outer two a single quote; the middle byte is
      not inspected. */
  predicate IsQuotedChar(s: Token) {
    |s| == 3 && s[0] == QUOTE && s[2] == QUOTE
  }

  /** Exactly one byte, not a decimal digit. */
  predicate IsSingleChar(s: Token) {
    |s| == 1 && !IsDigit(s[0])
  }

  // ---------------------------------------------------------------------
  // Grammars of the three scanning recognisers

  /** Integer grammar: an optional sign followed by one or more digits. */
  predicate IntShape(s: Token) {
    SignLen(s) < |s| && DigitsIn(s, SignLen(s), |s|)
  }

  /** Bytes of s[lo..hi] are digits or dots. */
  predicate NumCharsIn(s: Token, lo: int, hi: int)
    requires 0 <= lo <= hi <= |s|
  {
    forall j :: lo <= j < hi ==> IsDigit(s[j]) || s[j] == DOT
  }

  /** s[lo..hi] holds at most one dot. */
  predicate AtMostOneDotIn(s: Token, lo: int, hi: int)
    requires 0 <= lo <= hi <= |s|
  {
    forall j, k :: lo <= j < k < hi ==> !(s[j] == DOT && s[k] == DOT)
  }

  predicate HasDotIn(s: Token, lo: int, hi: int)
    requires 0 <= lo <= hi <= |s|
  {
    exists j :: lo <= j < hi && s[j] == DOT
  }

  predicate HasDigitIn(s: Token, lo: int, hi: int)
    requires 0 <= lo <= hi <= |s|
  {
    exists j :: lo <= j < hi && IsDigit(s[j])
  }

  /** Double grammar: an optional sign, then only digits and dots, with
      exactly one dot and at least one digit. */
  predicate DoubleShape(s: Token) {
    var d := SignLen(s);
    NumCharsIn(s, d, |s|) && AtMostOneDotIn(s, d, |s|)
    && HasDotIn(s, d, |s|) && HasDigitIn(s, d, |s|)
  }

  /** Float grammar: a trailing `f` after a token of the double grammar. */
  predicate FloatShape(s: Token) {
    |s| > 0 && s[|s| - 1] == FSUFFIX && DoubleShape(s[..|s| - 1])
  }

  // ---------------------------------------------------------------------
  // Scanning recognisers

  /** `isIntLiteral`: skip one optional sign, refuse an empty remainder,
      then require every remaining byte to be a digit. */
  method IsIntLiteral(s: Token) returns (ok: bool)
    ensures ok == IntShape(s)
  {
    if |s| == 0 {
      return false;
    }
    var i := 0;
    if IsSign(s[i]) {
      i := i + 1;
    }
    if i >= |s| {
      return false;
    }
    while i < |s|
      invariant SignLen(s) <= i <= |s|
      invariant DigitsIn(s, SignLen(s), i)
    {
      if !IsDigit(s[i]) {
        return false;
      }
      i := i + 1;
    }
    return true;
  }

  /** `isDoubleLiteral`: skip one optional sign, refuse an empty remainder,
      then scan, recording whether a digit and a dot were seen; a second dot
      or any other byte refuses the token. */
  method IsDoubleLiteral(s: Token) returns (ok: bool)
    ensures ok == DoubleShape(s)
  {
    if |s| == 0 {
      return false;
    }
    var i := 0;
    var hasDot := false;
    var hasDigit := false;
    if IsSign(s[i]) {
      i := i + 1;
    }
    if i >= |s| {
      return false;
    }
    ghost var d := i;
    while i < |s|
      invariant d == SignLen(s) <= i <= |s|
      invariant NumCharsIn(s, d, i) && AtMostOneDotIn(s, d, i)
      invariant hasDot == HasDotIn(s, d, i)
      invariant hasDigit == HasDigitIn(s, d, i)
    {
      if IsDigit(s[i]) {
        hasDigit := true;
      } else if s[i] == DOT && !hasDot {
        hasDot := true;
      } else {
        return false;
      }
      i := i + 1;
    }
    return hasDigit && hasDot;
  }

  /** `isFloatLiteral`: at least two bytes ending in `f`; the core without
      the `f` is scanned exactly as `isDoubleLiteral` scans its token. */
  method IsFloatLiteral(s: Token) returns (ok: bool)
    ensures ok == FloatShape(s)
  {
    if |s| < 2 {
      return false;
    }
    if s[|s| - 1] != FSUFFIX {
      return false;
    }
    var core := s[..|s| - 1];
    if |core| == 0 {
      return false;
    }
    var i := 0;
    var hasDot := false;
    var hasDigit := false;
    if IsSign(core[i]) {
      i := i + 1;
    }
    if i >= |core| {
      return false;
    }
    ghost var d := i;
    while i < |core|
      invariant d == SignLen(core) <= i <= |core|
      invariant NumCharsIn(core, d, i) && AtMostOneDotIn(core, d, i)
      invariant hasDot == HasDotIn(core, d, i)
      invariant hasDigit == HasDigitIn(core, d, i)
    {
      if IsDigit(core[i]) {
        hasDigit := true;
      } else if core[i] == DOT && !hasDot {
        hasDot := true;
      } else {
        return false;
      }
      i := i + 1;
    }
    return hasDigit && hasDot;
  }

  // ---------------------------------------------------------------------
  // What the grammars accept

  /** The integer grammar is exactly "at most one sign, then a non-empty
      run of digits". */
  lemma IntShapeIsSignThenDigits(s: Token)
    ensures IntShape(s) <==>
      exists n :: 0 <= n <= 1 && n < |s|
        && (n == 1 ==> IsSign(s[0])) && DigitsIn(s, n, |s|)
  {
    if IntShape(s) {
      assert 0 <= SignLen(s) <= 1 && SignLen(s) < |s|;
    }
    if exists n :: 0 <= n <= 1 && n < |s| && (n == 1 ==> IsSign(s[0])) && DigitsIn(s, n, |s|) {
      var n :| 0 <= n <= 1 && n < |s| && (n == 1 ==> IsSign(s[0])) && DigitsIn(s, n, |s|);
      assert n == 0 ==> IsDigit(s[0]);
    }
  }

  /** The double grammar is exactly "optional sign, digits, one dot,
      digits" with at least one digit on either side of the dot. */
  lemma DoubleShapeIsSplitAtDot(s: Token)
    ensures DoubleShape(s) <==>
      exists k :: SignLen(s) <= k < |s| && s[k] == DOT
        && DigitsIn(s, SignLen(s), k) && DigitsIn(s, k + 1, |s|)
        && |s| - SignLen(s) >= 2
  {
    var d := SignLen(s);
    if DoubleShape(s) {
      var k :| d <= k < |s| && s[k] == DOT;
      var m :| d <= m < |s| && IsDigit(s[m]);
      assert DigitsIn(s, d, k);
      assert DigitsIn(s, k + 1, |s|);
      assert m != k;
    }
    if exists k :: d <= k < |s| && s[k] == DOT && DigitsIn(s, d, k) && DigitsIn(s, k + 1, |s|) && |s| - d >= 2 {
      var k :| d <= k < |s| && s[k] == DOT && DigitsIn(s, d, k) && DigitsIn(s, k + 1, |s|) && |s| - d >= 2;
      assert NumCharsIn(s, d, |s|);
      assert AtMostOneDotIn(s, d, |s|) by {
        forall j, l | d <= j < l < |s| ensures !(s[j] == DOT && s[l] == DOT) {
          if j != k { assert IsDigit(s[j]); }
          else { assert IsDigit(s[l]); }
        }
      }
      assert HasDotIn(s, d, |s|);
      if k > d {
        assert IsDigit(s[d]);
      } else {
        assert IsDigit(s[k + 1]);
      }
    }
  }

  /** A token split at one dot into digits on both sides is a double. */
  lemma DoubleShapeAt(s: Token, k: nat)
    requires SignLen(s) <= k < |s| && s[k] == DOT && |s| - SignLen(s) >= 2
    requires DigitsIn(s, SignLen(s), k) && DigitsIn(s, k + 1, |s|)
    ensures DoubleShape(s)
  {
    DoubleShapeIsSplitAtDot(s);
  }

  /** The float grammar, spelled out: the core before the final `f` has the
      shape of the double grammar. */
  lemma FloatShapeIsSplitAtDot(s: Token)
    ensures FloatShape(s) <==>
      |s| > 0 && s[|s| - 1] == FSUFFIX
      && (exists k :: SignLen(s) <= k < |s| - 1 && s[k] == DOT
            && DigitsIn(s, SignLen(s), k) && DigitsIn(s, k + 1, |s| - 1)
            && |s| - 1 - SignLen(s) >= 2)
  {
    if |s| > 0 && s[|s| - 1] == FSUFFIX {
      var core := s[..|s| - 1];
      DoubleShapeIsSplitAtDot(core);
      if |core| > 0 {
        assert SignLen(core) == SignLen(s);
      }
      assert forall lo, hi :: 0 <= lo <= hi <= |core| ==>
        (DigitsIn(core, lo, hi) <==> DigitsIn(s, lo, hi));
    }
  }

  /** A lone `f`, `.f`, `1.2.3f` and the integer-with-suffix form `42f`
      are not floats. */
  lemma FloatRejects(a: Token, b: Token, c: Token, d: Token)
    requires a == "f" && b == "42f" && c == ".f" && d == "1.2.3f"
    ensures !FloatShape(a) && !FloatShape(b) && !FloatShape(c) && !FloatShape(d)
  {
    assert b[..2] == "42" && !HasDotIn(b[..2], 0, 2);
    assert c[..1] == "." && !HasDigitIn(c[..1], 0, 1);
    var core := d[..5];
    assert core == "1.2.3" && core[1] == DOT && core[3] == DOT;
    assert !AtMostOneDotIn(core, 0, 5);
  }

  /** `4.2f`, `.5f` and `-0.f` are floats: a digit on one side of the dot
      is enough. */
  lemma FloatAccepts(a: Token, b: Token, c: Token)
    requires a == "4.2f" && b == ".5f" && c == "-0.f"
    ensures FloatShape(a) && FloatShape(b) && FloatShape(c)
  {
    var core := a[..3];
    assert core == "4.2" && DigitsIn(core, 0, 1) && DigitsIn(core, 2, 3);
    DoubleShapeAt(core, 1);
    core := b[..2];
    assert core == ".5" && DigitsIn(core, 0, 0) && DigitsIn(core, 1, 2);
    DoubleShapeAt(core, 0);
    core := c[..3];
    assert core == "-0." && SignLen(core) == 1 && DigitsIn(core, 1, 2) && DigitsIn(core, 3, 3);
    DoubleShapeAt(core, 2);
  }

  // ---------------------------------------------------------------------
  // Disjointness

  /** A one-byte token is taken by exactly one of the bare-character and
      integer recognisers: the digit test of `isSingleCharLiteral` hands
      every lone digit to the integer grammar. */
  lemma SingleCharOrInt(s: Token)
    requires |s| == 1
    ensures IsSingleChar(s) <==> !IntShape(s)
  {
    assert SignLen(s) == 0 || !IsDigit(s[0]);
  }

  /** No token satisfies two of the six recognisers, so the order in which
      they are tried never changes which one accepts. */
  lemma RecognisersDisjoint(s: Token)
    ensures IsQuotedChar(s) ==>
      !IsSingleChar(s) && !IsPseudo(s) && !IntShape(s) && !FloatShape(s) && !DoubleShape(s)
    ensures IsSingleChar(s) ==>
      !IsPseudo(s) && !IntShape(s) && !FloatShape(s) && !DoubleShape(s)
    ensures IsPseudo(s) ==> !IntShape(s) && !FloatShape(s) && !DoubleShape(s)
    ensures IntShape(s) ==> !FloatShape(s) && !DoubleShape(s)
    ensures FloatShape(s) ==> !DoubleShape(s)
  {
    DoubleShapeIsSplitAtDot(s);
    FloatShapeIsSplitAtDot(s);
    if IsQuotedChar(s) {
      assert !IsDigit(s[2]) && s[2] != DOT;
      assert !IsSign(s[0]);
    }
    if IsSingleChar(s) {
      assert !IsDigit(s[0]);
    }
    if IsPseudo(s) {
      assert s[|s| - 1] == 'n' || s[|s| - 1] == 'f';
      assert !IsDigit(s[|s| - 1]) && s[|s| - 1] != DOT;
      assert 2 <= |s|;
      assert s[|s| - 2] == 'a' || s[|s| - 2] == 'n' || s[|s| - 2] == 'f';
    }
    if IntShape(s) {
      assert IsDigit(s[|s| - 1]);
      assert forall k :: SignLen(s) <= k < |s| ==> s[k] != DOT;
    }
    if FloatShape(s) {
      assert !IsDigit(s[|s| - 1]) && s[|s| - 1] != DOT;
    }
  }
}

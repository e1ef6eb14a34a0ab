/** `ScalarConverter::convert`: classify the token by trying the recognisers
    in a fixed order, turn it into one canonical value, and report the four
    views of that value; any failure on the way reports all four lines as
    impossible. The C library's `strtod` is a parameter of the model. */
module Converter {
  import opened Tokens
  import opened Values
  import opened Recognisers
  import opened Presenter

  datatype Category =
    | QuotedChar | BareChar | PseudoFloat | Integer | FloatLit | DoubleLit | Unrecognized

  /** What `std::strtod` reports for a text: the value it read, how many
      bytes it consumed (the offset of `endPtr`) and whether it set `errno`
      to `ERANGE`. */
  datatype StrtodResult = StrtodResult(value: Val, end: nat, erange: bool)

  type Strtod = Token -> StrtodResult

  /** Why a conversion reports every line as impossible. */
  datatype Failure = EmptyToken | NotALiteral | OutOfRange | Malformed

  datatype Result<T> = Ok(value: T) | Fail(failure: Failure)

  /** The recogniser each category stands for. */
  ghost predicate Matches(c: Category, s: Token) {
    match c
    case QuotedChar => IsQuotedChar(s)
    case BareChar => IsSingleChar(s)
    case PseudoFloat => IsPseudo(s)
    case Integer => IntShape(s)
    case FloatLit => FloatShape(s)
    case DoubleLit => DoubleShape(s)
    case Unrecognized => false
  }

  /** The recognisers tried in the order of `convert`: quoted character, bare
      character, pseudo-literal, integer, float, double. */
  function Classify(s: Token): (c: Category)
    ensures c != Unrecognized ==> Matches(c, s)
    ensures c == Unrecognized <==>
      !IsQuotedChar(s) && !IsSingleChar(s) && !IsPseudo(s)
      && !IntShape(s) && !FloatShape(s) && !DoubleShape(s)
  {
    if IsQuotedChar(s) then QuotedChar
    else if IsSingleChar(s) then BareChar
    else if IsPseudo(s) then PseudoFloat
    else if IntShape(s) then Integer
    else if FloatShape(s) then FloatLit
    else if DoubleShape(s) then DoubleLit
    else Unrecognized
  }

  /** The value a pseudo-literal stands for. */
  function PseudoValue(s: Token): (v: Val)
    requires IsPseudo(s)
    ensures v.NaN? <==> s[0] == 'n'
    ensures v.NegInf? <==> s[0] == MINUS
    ensures v.PosInf? <==> s[0] == PLUS
  {
    if s == "nan" || s == "nanf" then NaN
    else if s == "-inf" || s == "-inff" then NegInf
    else PosInf
  }

  /** Every byte of s from position k up to the end of the C string (the
      first NUL byte, or the end of the token) is white space. */
  predicate SpaceFrom(s: Token, k: nat)
    decreases |s| - k
  {
    k >= |s| || s[k] == NUL || (IsSpace(s[k]) && SpaceFrom(s, k + 1))
  }

  /** What `parseToDouble` decides from what `strtod` reported. */
  function ParseSpec(s: Token, strtod: Strtod): (r: Result<Val>)
    ensures r.Ok? <==> !strtod(s).erange && strtod(s).end != 0 && SpaceFrom(s, strtod(s).end)
    ensures r.Ok? ==> r.value == strtod(s).value
    ensures strtod(s).erange ==> r == Fail(OutOfRange)
  {
    var res := strtod(s);
    if res.erange then Fail(OutOfRange)
    else if res.end == 0 then Fail(Malformed)
    else if SpaceFrom(s, res.end) then Ok(res.value)
    else Fail(Malformed)
  }

  /** `parseToDouble`: a range error fails, so does a text of which nothing
      was consumed; then every byte after what was consumed, up to the end
      of the C string, must be white space. */
  method ParseToDouble(s: Token, strtod: Strtod) returns (r: Result<Val>)
    ensures r == ParseSpec(s, strtod)
  {
    var res := strtod(s);
    if res.erange {
      return Fail(OutOfRange);
    }
    if res.end == 0 {
      return Fail(Malformed);
    }
    var p := res.end;
    while p < |s| && s[p] != NUL
      invariant res.end <= p
      invariant SpaceFrom(s, res.end) == SpaceFrom(s, p)
      decreases |s| - p
    {
      if !IsSpace(s[p]) {
        return Fail(Malformed);
      }
      p := p + 1;
    }
    return Ok(res.value);
  }

  /** The token without its final byte, as `convert` hands a float literal to
      `parseToDouble`: a text of the double grammar. */
  function FloatCore(s: Token): (core: Token)
    requires FloatShape(s)
    ensures DoubleShape(core) && s == core + [FSUFFIX]
  {
    s[..|s| - 1]
  }

  /** The canonical value of a token, or why there is none. */
  function Canonical(s: Token, strtod: Strtod): (r: Result<Val>)
    ensures |s| == 0 ==> r == Fail(EmptyToken)
    ensures |s| > 0 && Classify(s) == Unrecognized ==> r == Fail(NotALiteral)
    ensures IsQuotedChar(s) ==> r == Ok(Finite(CharCode(s[1]) as real))
    ensures IsSingleChar(s) ==> r == Ok(Finite(CharCode(s[0]) as real))
    ensures IsPseudo(s) ==> r == Ok(PseudoValue(s))
  {
    if |s| == 0 then Fail(EmptyToken)
    else match Classify(s)
      case QuotedChar => Ok(Finite(CharCode(s[1]) as real))
      case BareChar => Ok(Finite(CharCode(s[0]) as real))
      case PseudoFloat => Ok(PseudoValue(s))
      case Integer => ParseSpec(s, strtod)
      case FloatLit => ParseSpec(FloatCore(s), strtod)
      case DoubleLit => ParseSpec(s, strtod)
      case Unrecognized => Fail(NotALiteral)
  }

  /** The four lines `convert` reports for a token. */
  function ConvertSpec(s: Token, strtod: Strtod): (rep: Report)
    ensures rep == AllImpossible <==> Canonical(s, strtod).Fail?
    ensures Canonical(s, strtod).Ok? ==> rep == Present(Canonical(s, strtod).value)
  {
    match Canonical(s, strtod)
    case Ok(v) => Present(v)
    case Fail(_) => AllImpossible
  }

  /** `ScalarConverter::convert`, with the lines it prints returned as a
      report. */
  method Convert(literal: Token, strtod: Strtod) returns (report: Report)
    ensures report == ConvertSpec(literal, strtod)
  {
    var value := Finite(0.0);
    if |literal| == 0 {
      return AllImpossible;
    }
    if IsQuotedChar(literal) {
      value := Finite(CharCode(literal[1]) as real);
    } else if IsSingleChar(literal) {
      value := Finite(CharCode(literal[0]) as real);
    } else if IsPseudo(literal) {
      if literal == "nan" || literal == "nanf" {
        value := NaN;
      } else if literal == "-inf" || literal == "-inff" {
        value := NegInf;
      } else {
        value := PosInf;
      }
    } else {
      // The scanning recognisers are methods, so the rest of the chain nests.
      var isInt := IsIntLiteral(literal);
      var text := literal;
      if !isInt {
        var isFloat := IsFloatLiteral(literal);
        if isFloat {
          text := FloatCore(literal);
        } else {
          var isDouble := IsDoubleLiteral(literal);
          if !isDouble {
            return AllImpossible;
          }
        }
      }
      var parsed := ParseToDouble(text, strtod);
      if parsed.Fail? {
        return AllImpossible;
      }
      value := parsed.value;
    }
    report := Report(CharView(value), IntView(value), FloatView(value), DoubleView(value));
  }

  // ---------------------------------------------------------------------
  // Properties of the dispatch

  /** The priority order never decides anything: whichever recogniser
      accepts a token is the category `convert` gives it. */
  lemma ClassifyIsOrderFree(s: Token, c: Category)
    requires Matches(c, s)
    ensures Classify(s) == c
  {
    RecognisersDisjoint(s);
  }

  /** Only the integer, float and double categories reach `strtod`, and then
      with text of the integer or double grammar. */
  lemma StrtodSeesOnlyNumericText(s: Token, strtod: Strtod)
    requires |s| > 0
    ensures Classify(s) == Integer ==> Canonical(s, strtod) == ParseSpec(s, strtod) && IntShape(s)
    ensures Classify(s) == FloatLit ==>
      Canonical(s, strtod) == ParseSpec(FloatCore(s), strtod) && DoubleShape(FloatCore(s))
    ensures Classify(s) == DoubleLit ==> Canonical(s, strtod) == ParseSpec(s, strtod) && DoubleShape(s)
    ensures Classify(s) in {QuotedChar, BareChar, PseudoFloat, Unrecognized} ==>
      forall other: Strtod :: Canonical(s, other) == Canonical(s, strtod)
  {
  }

  /** A quoted token stands for the code of its middle byte, whatever that
      byte is: `'5'` is 53, not 5. */
  lemma QuotedCharIsItsCode(s: Token, strtod: Strtod)
    requires IsQuotedChar(s)
    ensures ConvertSpec(s, strtod) == Present(Finite(CharCode(s[1]) as real))
    ensures 32 <= s[1] as int <= 126 ==>
      ConvertSpec(s, strtod).charLine == CharOut(s[1]) && ConvertSpec(s, strtod).intLine == IntOut(s[1] as int)
  {
    if 32 <= s[1] as int <= 126 {
      TruncOfInteger(s[1] as int);
      assert CharCode(s[1]) == s[1] as int;
    }
  }

  /** Quoting any byte, a single quote included, gives a token that
      converts back to that byte's value. */
  lemma QuoteRoundTrip(c: Byte, strtod: Strtod)
    ensures IsQuotedChar([QUOTE, c, QUOTE])
    ensures Canonical([QUOTE, c, QUOTE], strtod) == Ok(Finite(CharCode(c) as real))
  {
  }

  /** On a text of the integer or double grammar, which holds neither white
      space nor NUL, `parseToDouble` succeeds exactly when `strtod` read
      some bytes without a range error and consumed the whole text. */
  lemma NumeralParse(s: Token, strtod: Strtod)
    requires IntShape(s) || DoubleShape(s)
    ensures ParseSpec(s, strtod).Ok? <==> !strtod(s).erange && strtod(s).end >= |s|
  {
    var e := strtod(s).end;
    if e < |s| {
      if IntShape(s) {
        assert e < SignLen(s) || IsDigit(s[e]);
      } else {
        assert e < SignLen(s) || IsDigit(s[e]) || s[e] == DOT;
      }
      assert !SpaceFrom(s, e);
    }
  }

  /** The white-space scan stops at the first NUL byte, as the C string
      ends there: what follows it is never inspected. */
  lemma NulEndsTheScan(s: Token, strtod: Strtod)
    requires s == "1\0x" && strtod(s) == StrtodResult(Finite(1.0), 1, false)
    ensures ParseSpec(s, strtod) == Ok(Finite(1.0))
  {
    assert s[1] == NUL;
  }

  /** A one-byte token is a bare character exactly when it is not a digit; a
      lone digit goes to the integer grammar instead. */
  lemma OneByteToken(s: Token)
    requires |s| == 1
    ensures Classify(s) == (if IsDigit(s[0]) then Integer else BareChar)
  {
  }

  /** A pseudo-literal reports impossible for char and int, and is printed
      back verbatim on the line of its own width (`nanf` on the float line,
      `nan` on the double line); the other line prints its twin. */
  lemma PseudoLiteralRoundTrip(s: Token, strtod: Strtod)
    requires IsPseudo(s)
    ensures var rep := ConvertSpec(s, strtod);
      && rep.charLine == Impossible && rep.intLine == Impossible
      && (rep.floatLine == NanOut || rep.floatLine.InfOut?)
      && rep.doubleLine == rep.floatLine
      && s == (if (|s| == 4 && s[0] == 'n') || |s| == 5
               then SpecialSpelling(rep.floatLine, true)
               else SpecialSpelling(rep.doubleLine, false))
  {
  }

  /** Whatever `strtod` does, the empty token and every token of no category
      report four impossible lines, and no other failure leaks into a
      successful report. */
  lemma FailuresReportAllImpossible(s: Token, strtod: Strtod)
    ensures |s| == 0 ==> ConvertSpec(s, strtod) == AllImpossible
    ensures Classify(s) == Unrecognized ==> ConvertSpec(s, strtod) == AllImpossible
    ensures ConvertSpec(s, strtod) == AllImpossible <==> Canonical(s, strtod).Fail?
  {
  }

  /** Tokens of no category report four impossible lines. */
  lemma UnrecognizedExamples(strtod: Strtod, empty: Token, word: Token, intF: Token)
    requires empty == "" && word == "hello" && intF == "42f"
    ensures ConvertSpec(empty, strtod) == AllImpossible
    ensures ConvertSpec(word, strtod) == AllImpossible
    ensures ConvertSpec(intF, strtod) == AllImpossible
  {
    assert !IsDigit(word[0]) && !IsSign(word[0]) && word[0] != DOT;
    assert word[|word| - 1] != FSUFFIX;
    assert Classify(word) == Unrecognized;
    FloatRejects("f", intF, ".f", "1.2.3f");
    assert !IsDigit(intF[2]) && intF[2] != DOT;
    assert Classify(intF) == Unrecognized;
  }

  /** Pseudo-literals skip `strtod` altogether. */
  lemma PseudoExamples(strtod: Strtod, nan: Token, negInf: Token)
    requires nan == "nan" && negInf == "-inff"
    ensures ConvertSpec(nan, strtod) == Report(Impossible, Impossible, NanOut, NanOut)
    ensures ConvertSpec(negInf, strtod) == Report(Impossible, Impossible, InfOut(true), InfOut(true))
  {
    PseudoLiteralRoundTrip(nan, strtod);
    PseudoLiteralRoundTrip(negInf, strtod);
  }

  /** Character tokens take the code of the byte: a quoted digit, a letter,
      a quoted tab, and a byte above 127, which a signed `char` makes
      negative. */
  lemma CharacterExamples(strtod: Strtod, digit: Token, letter: Token, tab: Token, high: Token)
    requires digit == "'5'" && letter == "a" && tab == "'\t'" && high == "\U{e9}"
    ensures ConvertSpec(digit, strtod) == Report(CharOut('5'), IntOut(53), FixedOut(53.0), FixedOut(53.0))
    ensures ConvertSpec(letter, strtod) == Report(CharOut('a'), IntOut(97), FixedOut(97.0), FixedOut(97.0))
    ensures ConvertSpec(tab, strtod) == Report(NonDisplayable, IntOut(9), FixedOut(9.0), FixedOut(9.0))
    ensures ConvertSpec(high, strtod) == Report(Impossible, IntOut(-23), FixedOut(-23.0), FixedOut(-23.0))
  {
    QuotedCharIsItsCode(digit, strtod);
    QuotedCharIsItsCode(tab, strtod);
    assert IsSingleChar(letter) && IsSingleChar(high);
    assert CharCode(high[0]) == -23;
    TruncOfInteger(53);
    TruncOfInteger(97);
    TruncOfInteger(9);
    TruncOfInteger(-23);
  }
}

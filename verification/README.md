# ScalarConverter literal classifier, in Dafny

This project models `ScalarConverter::convert` from `ex00/ScalarConverter.cpp`.
The function takes one token of text and sorts it into one literal shape:

- a quoted character `'x'`
- a bare non-digit character
- a pseudo-literal (`nan`, `+inf`, `-inf`, `nanf`, `+inff`, `-inff`)
- an integer
- a float such as `4.2f`
- a double such as `.5`

It turns the token into one canonical `double`. It then reports four lines (char, int, float, double). Each line is a value, `impossible` or, for char, `Non displayable`.

Modules, one per component:

- `Tokens` (`tokens.dfy`): a byte is a `char` with code below 256, so tokens can be written as string literals. It also holds `isdigit`/`isspace` in the "C" locale and the value of a plain `char`.
- `Values` (`values.dfy`): the canonical value, `NaN | PosInf | NegInf | Finite(r)`. It also holds the `int`, `unsigned char` and `float` limits and truncation toward zero (`static_cast` to an integer type).
- `Recognisers` (`recognisers.dfy`): the three one-expression recognisers are predicates. `isIntLiteral`, `isFloatLiteral` and `isDoubleLiteral` are methods with the source's index loops and `hasDot`/`hasDigit` flags. Each method is proved equal to a grammar predicate. Lemmas characterise those grammars and prove that no token satisfies two recognisers.
- `Presenter` (`presenter.dfy`): the outcome each of `printChar`, `printInt`, `printFloat` and `printDouble` selects.
- `Converter` (`converter.dfy`): the priority chain and `parseToDouble`, the latter a method with the source's `while` loop over the bytes after `endPtr`. `convert` is a method proved equal to the function `ConvertSpec`. Lemmas cover the dispatch.
- `ExactDecimal` (`decimal.dfy`): the exact value of a decimal numeral, and what `convert` reports for a numeric token when `strtod` reads that value exactly (`ReadsExactly`). It also holds one concrete `strtod`, `ExactStrtod`, which always reads the exact value, and worked examples of whole conversions with it.

`strtod` is a parameter of type `Token -> StrtodResult`. A `StrtodResult` holds the value read, the number of bytes consumed (`endPtr`) and whether `errno` became `ERANGE`. Every dispatch property is proved for any `strtod`. The lemmas about numeric tokens are proved for any `strtod` that reads the token's exact decimal value. The C library does so exactly when that value is a `double`; `0.99999999999999999999`, which it rounds to 1.0, is a token outside these lemmas. Only the worked examples fix `ExactStrtod`.

Three behaviours of the code are worth stating outright:

- A character token converts a plain `char` to `double` (lines 248 and 252). Plain `char` is signed on x86 and x86-64, so bytes 128..255 become -128..-1 (`Tokens.CharCode`). A token such as the single byte 0xE9 then gets char: impossible and int: -23 (`Converter.CharacterExamples`).
- Exactly six pseudo-literal spellings are accepted (lines 13-14): `nan`, `+inf`, `-inf`, `nanf`, `+inff`, `-inff`.
- The char and int range tests compare the untruncated value. So `255.5` and `-0.5` are impossible for char, and `2147483647.5` is impossible for int, even though truncation would land in range (`Presenter.RangeTestedBeforeTruncation`). The model keeps this.

The six recognisers turn out to be pairwise disjoint (`Recognisers.RecognisersDisjoint`). The priority order of the chain therefore never changes a token's category (`Converter.ClassifyIsOrderFree`).

## Model

| member | source | states |
|---|---|---|
| `Tokens.CharCode` | ex00/ScalarConverter.cpp:246-253 | the value of a token byte as a signed plain `char`: in [-128, 127], congruent to the byte mod 256, equal to it for ASCII |
| `Tokens.IsDigit` | ex00/ScalarConverter.cpp:24 | `std::isdigit` in the "C" locale accepts exactly the ten bytes `0` to `9` |
| `Tokens.IsSpace` | ex00/ScalarConverter.cpp:217 | `std::isspace` in the "C" locale accepts exactly space, `\t`, `\n`, `\v`, `\f` and `\r`, and never NUL |
| `Values.Trunc` | ex00/ScalarConverter.cpp:131 | conversion to an integer type rounds toward zero: for x >= 0 the result n has n <= x < n + 1, for x < 0 it has n - 1 < x <= n |
| `Values.TruncOfInteger` | ex00/ScalarConverter.cpp:154 | converting a whole value to an integer type gives that value back |
| `Recognisers.SingleCharOrInt` | ex00/ScalarConverter.cpp:22-25 | `isSingleCharLiteral` takes a one-byte token exactly when the integer grammar does not: every lone digit goes to the integer recogniser |
| `Recognisers.IsIntLiteral` | ex00/ScalarConverter.cpp:27-43 | the index loop accepts exactly the tokens of the integer grammar: an optional sign, then only digits, with at least one |
| `Recognisers.IsDoubleLiteral` | ex00/ScalarConverter.cpp:83-113 | the flag-setting loop accepts exactly the double grammar: an optional sign, then only digits and dots, at most one dot, at least one dot and at least one digit |
| `Recognisers.IsFloatLiteral` | ex00/ScalarConverter.cpp:45-81 | accepts exactly the tokens that end in `f` and whose core without the `f` is of the double grammar |
| `Recognisers.IntShapeIsSignThenDigits` | ex00/ScalarConverter.cpp:27-43 | the integer grammar is exactly "at most one leading sign, then a non-empty run of digits", so the empty token and a lone sign are refused |
| `Recognisers.DoubleShapeIsSplitAtDot` | ex00/ScalarConverter.cpp:83-113 | a token is of the double grammar iff it is an optional sign, digits, one dot and digits, with at least two bytes after the sign |
| `Recognisers.FloatShapeIsSplitAtDot` | ex00/ScalarConverter.cpp:45-81 | a token is a float iff it is an optional sign, digits, one dot, digits and a final `f`, with at least one digit |
| `Recognisers.DoubleShapeAt` | ex00/ScalarConverter.cpp:83-113 | a token whose bytes after the sign are digits around one dot, at least two of them, is of the double grammar |
| `Recognisers.FloatRejects` | ex00/ScalarConverter.cpp:45-81 | `f`, `42f`, `.f` and `1.2.3f` are not floats |
| `Recognisers.FloatAccepts` | ex00/ScalarConverter.cpp:45-81 | `4.2f`, `.5f` and `-0.f` are floats |
| `Recognisers.RecognisersDisjoint` | ex00/ScalarConverter.cpp:11-113 | no token is accepted by two of the six recognisers |
| `Presenter.CharView` | ex00/ScalarConverter.cpp:115-138 | char is impossible iff the value is NaN, infinite or outside [0, 255]; a character is shown iff the value is in [32, 127), namely its truncation; otherwise Non displayable |
| `Presenter.IntView` | ex00/ScalarConverter.cpp:140-155 | int is impossible iff the value is NaN, infinite or outside [INT_MIN, INT_MAX]; otherwise the value truncated toward zero, which always fits in 32 bits |
| `Presenter.FloatView` | ex00/ScalarConverter.cpp:157-183 | NaN gives `nanf`, the infinities `+inff`/`-inff` by sign; a finite value beyond FLT_MAX in magnitude is impossible, any other is shown |
| `Presenter.DoubleView` | ex00/ScalarConverter.cpp:185-202 | NaN gives `nan`, the infinities `+inf`/`-inf` by sign, every finite value is shown; never impossible |
| `Presenter.Present` | ex00/ScalarConverter.cpp:312-315 | the four lines are the four views of the one canonical value, and a successful conversion never reports all four impossible |
| `Presenter.SpecialSpelling` | ex00/ScalarConverter.cpp:157-202 | the NaN and infinity spellings printed on the float and double lines are pseudo-literals; the float line's is the double line's plus `f` |
| `Presenter.PseudoIsSpecialSpelling` | ex00/ScalarConverter.cpp:11-15 | `isPseudoLiteral` accepts exactly the spellings the float and double lines print for NaN and the two infinities |
| `Presenter.IntViewOfInteger` | ex00/ScalarConverter.cpp:148-154 | a whole value is printed exactly on the int line iff it lies in [INT_MIN, INT_MAX] |
| `Presenter.RangeTestedBeforeTruncation` | ex00/ScalarConverter.cpp:124-153 | 255.5 and -0.5 are impossible chars and 2147483647.5 and -2147483648.5 impossible ints although their truncations fit; INT_MAX and INT_MIN are shown, INT_MAX + 1 is not |
| `Presenter.CharViewShows` | ex00/ScalarConverter.cpp:124-137 | the char line shows c exactly for the values in [c, c + 1), when c is printable |
| `Presenter.CharAndIntAgree` | ex00/ScalarConverter.cpp:115-155 | whenever the char line shows a character, the int line shows its code |
| `Converter.Classify` | ex00/ScalarConverter.cpp:246-310 | the category returned is accepted by its recogniser, and the token is unrecognised iff no recogniser accepts it |
| `Converter.PseudoValue` | ex00/ScalarConverter.cpp:254-262 | `nan`/`nanf` give NaN, `-inf`/`-inff` negative infinity, `+inf`/`+inff` positive infinity |
| `Converter.ParseSpec` | ex00/ScalarConverter.cpp:204-222 | parsing succeeds iff there was no range error, at least one byte was consumed and only white space follows up to the first NUL or the end; the value is then strtod's; a range error is OutOfRange |
| `Converter.NumeralParse` | ex00/ScalarConverter.cpp:204-222 | on integer or double text, which holds no white space and no NUL, parsing succeeds iff strtod consumed the whole text without a range error |
| `Converter.NulEndsTheScan` | ex00/ScalarConverter.cpp:215-220 | the white-space scan stops at the first NUL: `1`, NUL, `x` parses when strtod consumes the `1` |
| `Converter.ParseToDouble` | ex00/ScalarConverter.cpp:204-222 | the `errno` test, the `endPtr` test and the white-space loop, which stops at NUL, decide exactly as `ParseSpec` |
| `Converter.FloatCore` | ex00/ScalarConverter.cpp:276-280 | the text a float literal hands to `parseToDouble` is of the double grammar, and the literal is that text followed by `f` |
| `Converter.Canonical` | ex00/ScalarConverter.cpp:233-310 | the empty token and unrecognised tokens fail; quoted and bare characters stand for their byte's value; pseudo-literals for their special value |
| `Converter.ConvertSpec` | ex00/ScalarConverter.cpp:233-316 | the report is four impossible lines iff no canonical value is obtained; otherwise it is the four views of that value |
| `Converter.Convert` | ex00/ScalarConverter.cpp:233-316 | the if/else chain, with the scanning recognisers and `parseToDouble` as methods, produces exactly `ConvertSpec` |
| `Converter.ClassifyIsOrderFree` | ex00/ScalarConverter.cpp:246-310 | whichever recogniser accepts a token gives its category: the priority order is never needed to break a tie |
| `Converter.StrtodSeesOnlyNumericText` | ex00/ScalarConverter.cpp:263-302 | only integer, float and double tokens reach strtod, always with text of the integer or double grammar; every other category is independent of strtod |
| `Converter.QuotedCharIsItsCode` | ex00/ScalarConverter.cpp:246-249 | a quoted token converts to its middle byte's value whatever the byte; a printable one is shown as itself on the char line and as its code on the int line |
| `Converter.QuoteRoundTrip` | ex00/ScalarConverter.cpp:17-20 | `isQuotedCharLiteral` accepts any byte between two quotes, a quote itself included, and the token converts back to that byte's value |
| `Converter.OneByteToken` | ex00/ScalarConverter.cpp:250-253 | a one-byte token is a bare character iff it is not a digit; a lone digit is an integer |
| `Converter.PseudoLiteralRoundTrip` | ex00/ScalarConverter.cpp:254-262 | a pseudo-literal reports impossible for char and int and is printed back verbatim on the line of its own width |
| `Converter.FailuresReportAllImpossible` | ex00/ScalarConverter.cpp:237-244 | the empty token and unrecognised tokens report four impossible lines, and four impossible lines mean the conversion failed |
| `Converter.UnrecognizedExamples` | ex00/ScalarConverter.cpp:303-310 | the empty token, `hello` and `42f` report four impossible lines |
| `Converter.PseudoExamples` | ex00/ScalarConverter.cpp:254-262 | `nan` and `-inff` report impossible, impossible, then NaN or negative infinity on both floating lines |
| `Converter.CharacterExamples` | ex00/ScalarConverter.cpp:246-253 | `'5'` is 53, `a` is 97, a quoted tab is Non displayable and the byte 0xE9 is -23 |
| `ExactDecimal.ExactStrtod` | ex00/ScalarConverter.cpp:209 | a numeral of the integer or double grammar is consumed whole; it is a range error exactly when the exact decimal value is 2^1024 - 2^970 or more in magnitude, and otherwise reads as that value |
| `ExactDecimal.ExactStrtodReadsExactly` | ex00/ScalarConverter.cpp:209 | below the overflow threshold `ExactStrtod` reads every numeral exactly |
| `ExactDecimal.FractionValueInUnit` | ex00/ScalarConverter.cpp:290-302 | the digits after the dot denote a fraction in [0, 1) |
| `ExactDecimal.IntegerTokenValue` | ex00/ScalarConverter.cpp:263-275 | an integer token reads as the whole number of its digits, with its sign |
| `ExactDecimal.IntegerTokenIsExact` | ex00/ScalarConverter.cpp:263-275 | for any strtod that reads it exactly, an integer token is printed exactly on the int line iff it is in 32-bit range, and as that whole number on the double line |
| `ExactDecimal.FloatAndDoubleAgree` | ex00/ScalarConverter.cpp:276-302 | for any strtod, `<core>f` reports exactly what `<core>` reports: the suffix changes the category, never the number |
| `ExactDecimal.DoubleTokenValue` | ex00/ScalarConverter.cpp:290-302 | a double token reads as its digits before the dot plus the fraction after it, with its sign |
| `ExactDecimal.DoubleTokenIntLine` | ex00/ScalarConverter.cpp:290-313 | for any strtod that reads it exactly and in range, the int line of a double token shows its digits before the dot with its sign, for negative values too |
| `ExactDecimal.DoubleTokenIsExact` | ex00/ScalarConverter.cpp:290-302 | a double token that strtod reads exactly reports the four views of its exact value |
| `ExactDecimal.IntegerExamples` | ex00/ScalarConverter.cpp:263-275 | `42` shows `'*'`; `0` is Non displayable; `-42` is an impossible char and int -42 |
| `ExactDecimal.FourPointTwoExample` | ex00/ScalarConverter.cpp:290-302 | `4.2` is Non displayable, int 4 |
| `ExactDecimal.FourPointTwoFloatExample` | ex00/ScalarConverter.cpp:276-289 | `4.2f` reports what `4.2` reports |
| `ExactDecimal.MinusHalfExample` | ex00/ScalarConverter.cpp:290-302 | `-0.5` is an impossible char but int 0 |
| `ExactDecimal.TwoFiftyFivePointFiveValue` | ex00/ScalarConverter.cpp:290-302 | the digits of `255.5` read as 255.5 |
| `ExactDecimal.TwoFiftyFivePointFiveExample` | ex00/ScalarConverter.cpp:290-302 | `255.5` is an impossible char but int 255 |

## Left out

- `std::strtod` itself (line 209) is a C library call on binary floating point. It is a parameter of the model, applied to the whole token; a real `strtod` reads `c_str()` and so stops at a NUL byte, which no text of the integer or double grammar holds. `ExactDecimal.ExactStrtod` is one idealised instance, used for the worked examples.
- ExactDecimal.IntegerTokenIsExact, ExactDecimal.DoubleTokenIntLine and ExactDecimal.DoubleTokenIsExact: hold for a `strtod` that reads the token's exact decimal value, which the C library does only when that value is a `double`. A token it rounds, such as `0.99999999999999999999` (read as 1.0, int 1) or `31.99999999999999999` (read as 32.0, char `' '`), is outside them.
- ExactDecimal.ExactStrtod: does not round to the nearest `double` and does not set `ERANGE` on underflow. It agrees with the C library only where the decimal value is itself a `double`. On text outside the integer and double grammars it consumes nothing, and `convert` never passes such text.
- Presenter.FloatView: carries the value before the `static_cast<float>` narrowing, because binary32 rounding is floating-point numerics. The FLT_MAX bound itself is modelled exactly.
- Presenter.DoubleView: does not model the `std::fixed << std::setprecision(1)` formatting, for the same reason. The same holds for the float line.
- Signed zero: the canonical value has none, so `-0.0` and `0.0` are one value. Only their printed form would differ, and printing is left out.
- Most `std::cout` output: the labels, the line order and the digits of each number. The model returns the four outcomes as a `Report` in char, int, float, double order. The NaN and infinity spellings of the float and double lines are modelled (`Presenter.SpecialSpelling`).
- The constructors, the copy constructor, the assignment operator and the destructor (lines 224-231) have empty bodies.
- The serialisation round trip of `ex01/main.cpp` is not part of this model. It casts a pointer to `uintptr_t` and back, and the `Serializer` implementation is not available.
- `generate` and the two `identify` overloads of `ex02/Identify.cpp` are not part of this model. They rely on `std::rand`, on `dynamic_cast` and on exceptions used as control flow. `ex02/main.cpp` is an I/O driver and is not part of this model either.
- `Tokens.CharCode` fixes plain `char` as signed (x86 and x86-64). A platform with unsigned `char` would give bytes 128..255 their unsigned value.

# Interpreter-pattern calculators, modelled in Dafny

The repository holds four command-line calculators, each built around the
Interpreter pattern:

- `hopefully.cpp` reads a line as comma-separated segments. A segment
  `name = expr` stores a value in the `Context`. The first segment that is
  not an assignment gives the result. Each expression is tokenized, built into
  an expression tree (`NumberExpression`, `VariableExpression`, the four
  `BinaryExpression`s) by a shunting-yard loop over two stacks, and the tree is
  evaluated against the context's variables.
- `maybe.cpp` is the same pipeline with numbers only, evaluated in an empty
  context.
- `letstry.cpp` evaluates directly on two stacks, with no tree in between.
  - A line is either `name = expr` or an expression, and the result is
    rendered with two decimals.
  - Besides infix `+ - * / %`, the calculator knows the calls `add(…)`,
    `sub(…)`, `mul(…)`, `div(…)` and `mod(…)`. A call folds its
    comma-separated arguments from left to right.
  - An exception is caught and becomes `Error: <message>`.
- `trig.cpp` is `letstry.cpp` plus `sin(…)`, `cos(…)` and `tan(…)` of an angle
  in degrees.

The model has one module per part:

- `Outcomes`: the exceptions and the model's errors (`Result`).
- `Text`: `trim`, `find` and `split`, which is `std::getline` over a delimiter.
- `Numbers`: `std::stod`, `std::fmod`, `M_PI` and the `std::fixed <<
  std::setprecision(2)` rendering, all on exact reals.
- `ShuntingYard`: the stack loop shared by all four calculators. It is defined
  once over classified tokens. A reference grammar is proved to agree with it
  on well-formed input.
- `ExpressionTree`: the expression classes and their `interpret`.
- `TreeBuilder`: `tokenize`, `buildExpressionTree` and `applyOperator` of
  `hopefully.cpp` and `maybe.cpp`. A dialect flag separates the two
  tokenizers.
- `Hopefully` and `Maybe`: the two tree calculators.
- `Calls`: the specification functions of `letstry.cpp` and `trig.cpp`,
  which share everything but the trigonometric calls.
- `LetsTry` and `Trig`: the imperative members of those two programs.
  - Each is a `Context` class whose `variables` map the interpreter updates,
    plus the `Interpreter` methods.
  - Each method is proved equal to the matching specification function.

The undefined behaviour the calculators reach on ASCII input is an explicit
`Undefined` error in the model: `top()` or `pop()` on an empty stack and
`tokens[0]` of an empty vector. Every other failure is the exception the code
throws, with the code's message. Input outside ASCII is not modelled (see
"Left out").

Where the code differs from what the calculators are described as doing, the
model follows the code:

- Nested calls such as `add(sub(5,2),1)` fail with "Invalid function syntax".
  The arguments end at the first `)`.
- A failing segment in `hopefully.cpp` does not undo the assignments made
  before it on the same line.
- In `letstry.cpp` a `-` right after a name is read as the sign of the number
  after it.

## Model

| member | source | states |
|---|---|---|
| Text.Find | letstry.cpp:31 | a found index holds the character sought |
| Text.FindIsFirst | letstry.cpp:31 | no earlier position holds the character, and None means it occurs nowhere |
| Text.FindFirst | letstry.cpp:68-69 | the first occurrence is exactly the index `find` returns |
| Text.FindNone | letstry.cpp:68-69 | a text without the character gives npos (None) |
| Text.FindInPrefix | letstry.cpp:69 | text appended after a found character does not change where `find` stops |
| Text.Trim | letstry.cpp:162-165 | the trimmed text neither starts nor ends with a space |
| Text.TrimKeepsMiddle | letstry.cpp:162-165 | the result is a contiguous slice of the input with only spaces cut on either side |
| Text.TrimUnpadded | letstry.cpp:162-165 | a text that neither starts nor ends with a space is left as it is |
| Text.TrimNoLonger | letstry.cpp:162-165 | trimming never lengthens |
| Text.TrimIdempotent | hopefully.cpp:199-202 | trimming twice is trimming once |
| Text.Fields | hopefully.cpp:108-110 | the pieces `std::getline` yields; none exactly when the text is empty |
| Text.FieldsJoin | hopefully.cpp:108-110 | joining the pieces with the delimiter gives back the text, apart from a trailing delimiter, which yields no empty last piece; no piece holds the delimiter |
| Text.FieldsFree | hopefully.cpp:108-110 | no piece `std::getline` yields holds the delimiter |
| Text.NextField | letstry.cpp:172-175 | one `getline` call consumes the first piece and shortens the rest |
| Text.Split | letstry.cpp:167-176 | the result is the trimmed `getline` pieces of the text, in order |
| Text.TrimAll | letstry.cpp:172-175 | trimming each piece keeps the number of pieces |
| Text.PiecesNoLonger | letstry.cpp:167-176 | no piece of `split` is longer than the text split |
| Text.ConcatAppend | letstry.cpp:93-117 | joining the tokens of two lists is joining the two joins |
| Numbers.Stod | hopefully.cpp:162 | `std::stod`: a failure is always invalid_argument("stod") |
| Numbers.Unsigned | hopefully.cpp:162 | the unsigned part of `std::stod`: a failure is always invalid_argument("stod") |
| Numbers.WholeNumber | hopefully.cpp:162 | a number without a point needs a digit; a failure is invalid_argument("stod") |
| Numbers.PointedNumber | hopefully.cpp:162 | a point needs a digit on one side; a failure is invalid_argument("stod") |
| Numbers.StodFailsExactly | hopefully.cpp:162 | `std::stod` fails exactly when, after white space and a sign, neither a digit nor a point and a digit come |
| Numbers.StodDigits | letstry.cpp:124 | a run of digits reads as the number it spells, and with a minus sign in front as its negation |
| Numbers.UnsignedDigits | hopefully.cpp:162 | a run of digits alone is the number it spells |
| Numbers.StodUnsigned | hopefully.cpp:162 | without blank or sign in front, `std::stod` reads the unsigned number |
| Numbers.StodMinus | letstry.cpp:124 | a minus sign in front negates the unsigned number after it |
| Numbers.StodSign | letstry.cpp:124 | a text starting with a digit or a point reads as its unsigned value, and negated after a minus sign |
| Numbers.DigitRunOf | hopefully.cpp:162 | the digit run of digits followed by a non-digit is exactly those digits |
| Numbers.ExponentOf | hopefully.cpp:162 | an exponent `e[-]digits` scales by ten to the power the digits spell, negated after the minus sign |
| Numbers.UnsignedExponent | hopefully.cpp:162 | digits followed by an exponent read as the digits' number times that power of ten |
| Numbers.StodExponent | hopefully.cpp:162 | `digits e [-] digits` reads as that number, and negated after a minus sign in front |
| Numbers.StodTwoThousand | hopefully.cpp:138-162 | the token "2e3" reads as 2000 |
| Numbers.PointedDigits | hopefully.cpp:162 | digits after the point with nothing behind them are read in full |
| Numbers.UnsignedDecimal | hopefully.cpp:162 | `whole . fraction` is the whole part plus the fraction digits as tenths, hundredths, ... |
| Numbers.StodDecimal | letstry.cpp:124 | `[-] whole . fraction` reads as its unsigned value with that sign |
| Numbers.StodDigit | hopefully.cpp:162 | a one-digit token denotes that digit |
| Numbers.StodDigitLetter | hopefully.cpp:162 | parsing stops at a letter: "2x" reads as 2 |
| Numbers.StodNegativeDigit | letstry.cpp:124 | a glued minus sign negates the digit |
| Numbers.Trunc | letstry.cpp:158 | truncation toward zero leaves a remainder within one unit and of the quotient's sign |
| Numbers.Fmod | letstry.cpp:158 | `std::fmod`: the remainder is smaller than the divisor in magnitude, takes the dividend's sign, and leaves an integral quotient |
| Numbers.RoundHalfEven | letstry.cpp:41 | the rounded value lies within half a unit of the input, and a tie goes to the even neighbour |
| Numbers.NatToDecimal | letstry.cpp:41 | the whole part is rendered as a non-empty run of digits without leading zeros that spells the number back |
| Numbers.FormatFixed2 | letstry.cpp:41 | the rendering starts with '-' exactly when the value is negative, then the whole part as digits without leading zeros, a point and exactly two decimal digits |
| Numbers.WholePart | letstry.cpp:41 | in `[-] whole . fraction` the whole part lies between the sign and the point |
| Numbers.TwoDecimals | letstry.cpp:41 | the two decimals shown are the hundredths left over after the whole part |
| Numbers.UnsignedFixed2 | letstry.cpp:41 | the unsigned text of c hundredths reads as c / 100 |
| Numbers.FixedReadsBack | letstry.cpp:41 | the text of c hundredths, with or without a minus sign, reads back through `std::stod` as c / 100 with that sign |
| Numbers.FormatFixed2ReadsBack | letstry.cpp:41 | the two-decimal rendering of x reads back through `std::stod` as x rounded to hundredths |
| Numbers.RoundedToHundredths | letstry.cpp:41 | rounding to hundredths moves a value by at most half a hundredth |
| Numbers.DigitChar | letstry.cpp:41 | the digit character rendered denotes the digit |
| ShuntingYard.Reduce | letstry.cpp:149-160 | pops one operator and two operands (right first), pushes the combination; with fewer than two operands, the failure is undefined behaviour |
| ShuntingYard.Drain | letstry.cpp:130-132 | the reducing loop stops at '(' or at a lower precedence, or empties the operator stack at the end |
| ShuntingYard.CloseRemovesOneParen | letstry.cpp:129-133 | ')' reduces down to the nearest '(' and removes exactly that one |
| ShuntingYard.UnmatchedCloseFails | letstry.cpp:129-133 | ')' with no '(' pending fails: when every pending reduction succeeds, with the pop() of an empty stack (undefined behaviour); otherwise with the first failing reduction's error |
| ShuntingYard.EvaluateAgreesWithGrammar | letstry.cpp:119-147 | on input the precedence grammar parses, the stack loop gives the grammar tree's value: '*' '/' '%' bind tighter, and equal levels group to the left |
| ShuntingYard.RunGroupsLeft | letstry.cpp:134-138 | `a p b q c` with q not above p combines `(a p b) q c` |
| ShuntingYard.RunGroupsRight | letstry.cpp:134-138 | `a p b q c` with q above p combines `a p (b q c)` |
| ShuntingYard.RunKeeps | letstry.cpp:119-147 | an operand property kept by every combination holds of the result |
| ShuntingYard.RunErrors | letstry.cpp:119-147 | a failure is undefined behaviour, a rejected token, or an error the combination raises |
| ExpressionTree.Interpret | hopefully.cpp:30-95 | evaluating a tree fails only with runtime errors |
| ExpressionTree.InterpretReadsOnlyItsVariables | hopefully.cpp:42-47 | the value depends only on the variables the tree names |
| ExpressionTree.InterpretErrors | hopefully.cpp:42-95 | a failure is division by zero in a tree with a division, or an undefined variable the tree names; a tree whose variables are all defined and that has no division succeeds |
| ExpressionTree.DivisorFirst | hopefully.cpp:91-95 | the denominator is evaluated first: its error, or "Division by zero error" for zero, wins over anything in the numerator |
| TreeBuilder.RunLength | hopefully.cpp:136-144 | the run taken is maximal: the next character cannot continue it |
| TreeBuilder.Tokenize | hopefully.cpp:132-154 | the loop yields the token list of the lexical specification |
| TreeBuilder.LexBreak | hopefully.cpp:140-147 | a character outside a run ends it, and becomes a token only when it is one of the six symbols |
| TreeBuilder.LexRun | hopefully.cpp:138-144 | a maximal run of alphanumerics or '.' becomes one token |
| TreeBuilder.LexKeepsText | hopefully.cpp:132-154 | the tokens joined give back the input minus the characters the tokenizer drops |
| TreeBuilder.KeptSplit | hopefully.cpp:136-149 | dropping characters works on each part of the text separately |
| TreeBuilder.LexTokenShapes | hopefully.cpp:132-154 | every token is a non-empty run or a single operator or parenthesis |
| TreeBuilder.LexRunsAreMaximal | hopefully.cpp:136-144 | a leading run token is a prefix of the text not followed by a run character |
| TreeBuilder.LexWithoutLetters | maybe.cpp:99-121 | on text without letters the two tokenizers agree |
| TreeBuilder.ItemsWithoutLetters | maybe.cpp:128-145 | on text without letters the two classifications agree |
| TreeBuilder.Classify | hopefully.cpp:160-177 | a rejected token is a failed `stod`; an operator token is exactly one of the four operators |
| TreeBuilder.ApplyOperator | hopefully.cpp:186-197 | the method performs one `Reduce` step on the tree stacks |
| TreeBuilder.ApplyWhile | hopefully.cpp:168-170 | the reducing loop performs `Drain` |
| TreeBuilder.Consume | hopefully.cpp:160-177 | one classified token is one step of the stack loop |
| TreeBuilder.BuildExpressionTree | hopefully.cpp:156-184 | the method's tree is the stack loop's result over the classified tokens |
| TreeBuilder.EvalSyntaxBuilds | hopefully.cpp:186-197 | building a grammar tree never fails and yields the matching expression nodes |
| TreeBuilder.BuildsGrammarTree | hopefully.cpp:156-184 | on well-formed tokens, the built tree is the precedence grammar's tree |
| TreeBuilder.SubtractionGroupsLeft | hopefully.cpp:172-176 | "8-3-2" builds (8-3)-2 |
| TreeBuilder.ProductBindsTighter | hopefully.cpp:172-176 | "2+3*4" builds 2+(3*4) |
| Hopefully.Interpreter.Interpret | hopefully.cpp:107-129 | the result and the new variables are those `Segments` gives for the comma-separated pieces of the line, taken in order |
| Hopefully.SegmentsKeepNames | hopefully.cpp:110-120 | a line never removes a variable |
| Hopefully.SegmentsStoreTrimmedNames | hopefully.cpp:113-119 | every new name is stored trimmed |
| Hopefully.AssignmentsOnlyGiveZero | hopefully.cpp:128 | a line of assignments only returns 0 |
| Hopefully.SegmentsAfterResultIgnored | hopefully.cpp:121-126 | segments after the first expression are neither evaluated nor stored |
| Hopefully.ValueErrors | hopefully.cpp:36-197 | an expression fails only with a failed `stod`, division by zero, an undefined variable, or undefined behaviour |
| Hopefully.NumberSwallowsLetters | hopefully.cpp:138-162 | "2x" is one token, and its value is 2 |
| Hopefully.EarlierAssignmentsStay | hopefully.cpp:110-126 | "x=2,y" fails on y and still stores x = 2 |
| Hopefully.AssignmentStep | hopefully.cpp:111-120 | an assignment segment stores its value and goes on with the rest |
| Hopefully.ExpressionStep | hopefully.cpp:121-126 | an expression segment returns its value and ends the line |
| Hopefully.FailedAssignmentStep | hopefully.cpp:111-119 | an assignment whose expression fails ends the line with that failure and stores nothing |
| Maybe.Interpret | maybe.cpp:90-96 | the method returns the value of the built tree in an empty context |
| Maybe.BuildsNoVariables | maybe.cpp:99-151 | no tree this calculator builds names a variable |
| Maybe.Errors | maybe.cpp:71-79 | a failure is a failed `stod`, division by zero, or undefined behaviour; never an undefined variable |
| Maybe.AgreesWithVariablesCalculator | maybe.cpp:90-151 | on text without letters, its value is the variables calculator's, whatever the variables |
| Calls.ScanStep | letstry.cpp:97-111 | one character: a digit, '.', or a '-' after an operator joins the token; a space ends it; anything else ends it and is a token itself |
| Calls.ScanKeepsText | letstry.cpp:93-117 | the tokens joined give back the input without its spaces |
| Calls.ConcatFlush | letstry.cpp:103-106 | pushing a pending token keeps its text |
| Calls.ScanShapes | letstry.cpp:93-117 | every token is non-empty, and is either a single character that is not a blank and cannot join a number, or a number-like run: a digit, '.' or '-' followed by digits and points |
| Calls.ScanBlanks | letstry.cpp:103-106 | blanks with no token pending produce no token and leave the sign state as it was |
| Calls.SignAfterSymbol | letstry.cpp:96-110 | after a symbol token and any blanks, '-' starts a number token |
| Calls.Classify | letstry.cpp:122-141 | a rejected token is a failed `stod` or "Undefined variable or invalid input"; an operator token is in the precedence table and is neither a number nor a variable |
| Calls.MathErrors | letstry.cpp:119-160 | an evaluation fails only with a failed `stod`, an unknown token of the input, division or modulo by zero, or undefined behaviour |
| Calls.Arguments | letstry.cpp:68-73 | the argument text lies strictly inside the call text |
| Calls.Respond | letstry.cpp:28-46 | a line's failure is never an uncaught exception, only undefined behaviour |
| Calls.MinusAfterNameIsSign | letstry.cpp:96-110 | "x-1" tokenizes as "x", "-1" |
| Calls.MinusAfterNumberIsOperator | letstry.cpp:96-110 | "5-3" tokenizes as "5", "-", "3" |
| Calls.LettersStandAlone | letstry.cpp:97-110 | "ab+1" tokenizes letter by letter: a name is one letter long |
| Calls.MinusAfterNameValue | letstry.cpp:119-147 | with x defined, "x-1" is -1: the last operand wins |
| Calls.AccumulateIsArith | letstry.cpp:79-88 | a call step computes what the infix operator computes |
| Calls.FoldSums | letstry.cpp:76-90 | add(...) and sub(...) give the first argument plus or minus the sum of the rest |
| Calls.FoldRejectsZero | letstry.cpp:82-88 | a successful div(...) or mod(...) had only non-zero later arguments |
| Calls.FoldReportsZero | letstry.cpp:82-88 | the first zero among the later arguments throws "Division by zero" or "Modulo by zero" |
| Calls.CallIgnoresTail | letstry.cpp:67-73 | text after the first ')' does not change a call |
| Calls.NestedCallFails | letstry.cpp:67-76 | "add(sub(5,2),1)" fails with "Invalid function syntax" |
| Calls.NestedArguments | letstry.cpp:68-73 | the arguments of "add(sub(5,2),1)" are "sub(5,2" |
| Calls.ArgumentsBetween | letstry.cpp:68-73 | the arguments are exactly the text between the first '(' and the first ')' |
| Calls.InnerCallFails | letstry.cpp:67-72 | "sub(5" has no ')' and fails with "Invalid function syntax" |
| Calls.AssignThenRead | letstry.cpp:31-38 | after a successful assignment the name reads back the value and the line shows ""; a failed one stores nothing |
| Calls.ErrorShown | letstry.cpp:28-45 | a line whose evaluation throws shows "Error: " and the exception's message and keeps the variables; undefined behaviour escapes; a line with a value never shows an error |
| Calls.RespondChangesOnlyTarget | letstry.cpp:31-39 | a line changes no variable but the one it assigns to |
| Calls.ShownWithTwoDecimals | letstry.cpp:40-42 | an expression line with a value shows its two-decimal rendering, a point before two digits, which reads back through `std::stod` as the value rounded to hundredths, within 0.005 of it |
| Calls.ModesAgreeWithoutCalls | trig.cpp:52-74 | text without '(' means the same to both calculators |
| Calls.HalfTurn | trig.cpp:110 | 180 degrees is π radians |
| Calls.SineOfDegrees | trig.cpp:66-67 | sin(arg) is the sine of arg's value in degrees, or arg's error |
| LetsTry.Tokenize | letstry.cpp:93-117 | the loop with `lastWasOperator` yields the tokens of the lexical specification, each non-empty and of a token shape |
| LetsTry.ApplyOperator | letstry.cpp:149-160 | the method performs one `Reduce` step, with the division and modulo checks |
| LetsTry.ApplyWhile | letstry.cpp:130-137 | the reducing loop performs `Drain` |
| LetsTry.Consume | letstry.cpp:123-141 | one token is one step of the stack loop |
| LetsTry.EvaluateMathExpression | letstry.cpp:119-147 | the method's value is the stack loop's over the classified tokens |
| LetsTry.Accumulated | letstry.cpp:79-88 | one turn of the call loop is `Accumulate` |
| LetsTry.Context.constructor | letstry.cpp:14-17 | a new context has no variables |
| LetsTry.Interpreter.constructor | letstry.cpp:26 | the interpreter works on the given context |
| LetsTry.Interpreter.Interpret | letstry.cpp:28-46 | the shown result and the new variables are those of `Respond` |
| LetsTry.Interpreter.EvaluateExpression | letstry.cpp:49-65 | the value is the one `Expression` specifies |
| LetsTry.Interpreter.EvaluateFunction | letstry.cpp:67-91 | the value is the one `Call` specifies; the loop invariant is the remaining fold |
| Trig.Context.constructor | trig.cpp:14-17 | a new context has no variables |
| Trig.Interpreter.constructor | trig.cpp:27 | the interpreter works on the given context and trigonometric functions |
| Trig.Interpreter.Interpret | trig.cpp:29-49 | the shown result and the new variables are those of `Respond` in trigonometric mode |
| Trig.Interpreter.EvaluateExpression | trig.cpp:52-74 | the value is the one `Expression` specifies, with the sin/cos/tan prefixes |
| Trig.Interpreter.EvaluateFunction | trig.cpp:76-100 | the value is the one `Call` specifies |
| Trig.Interpreter.EvaluateTrigFunction | trig.cpp:102-115 | the value is the named function of the argument converted to radians; other names throw "Unknown function" |
| Hopefully.Context.constructor | hopefully.cpp:11-14 | a new context has no variables |
| Hopefully.Interpreter.constructor | hopefully.cpp:105 | the interpreter works on the given context |

## Left out

- `main` of each program: the prompt loop, console I/O, the end words, and
  the `history.txt` and `calculations.log` files are not modelled. Logging
  writes only and does not affect results.
- Text is a sequence of characters, not of bytes, and only ASCII input is
  modelled. For a non-ASCII byte, a negative `char`, the `<cctype>` calls
  (`std::isdigit`, `std::isalpha`, `std::isalnum` at hopefully.cpp:138,
  hopefully.cpp:161-163, letstry.cpp:99, letstry.cpp:123, maybe.cpp:105 and
  maybe.cpp:130) are undefined behaviour; the model answers "not a digit or
  letter" instead. `letstry.cpp` also makes one token of each byte of a
  multi-byte character (letstry.cpp:107-108), where the model makes one token
  of the character.
- Doubles are exact reals. Rounding, overflow, infinities and NaN are not
  modelled. `std::stod` of hexadecimal, `inf`, `nan` or out-of-range text is
  not modelled either.
- `std::sin`, `std::cos` and `std::tan` are parameters of the trigonometric
  interpreter, because their definitions are outside the model.
- Undefined behaviour is an `Undefined` error, not the C++ outcome. It covers
  `top()` or `pop()` on an empty stack and `tokens[0]` of an empty vector.
- The unused `parens` stack of `maybe.cpp` (maybe.cpp:126) has no effect and
  is not modelled.
- Heap allocation and `delete` of the expression nodes are not modelled. The
  tree is a Dafny datatype.
- The evaluation order of the operands of `+ - *` is unspecified in C++. The
  model reports the left operand's error first; the right operand is first
  only for division, as `DivisionExpression` does explicitly.
- `context->variables[var] = evaluateExpression(expr)` inserts nothing when
  the evaluation throws. This is the C++17 sequencing: the right side is
  evaluated first.
- Ill-formed tokens that index `token[0]` of an empty string cannot arise:
  no tokenizer produces an empty token (`Calls.ScanShapes`,
  `TreeBuilder.LexTokenShapes`).
- `trig.cpp` calls `tokenize` and `evaluateMathExpression` (trig.cpp:73) but
  does not define them. The model gives it the ones in `letstry.cpp`.
- `Untitled-1.cpp` (threads and futures) is not part of this model.

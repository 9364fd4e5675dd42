/** What a line means to the two calculators with named functions. Both
    read `name = expr` assignments and expressions; an expression is a
    variable name, a call `add(..)`, `sub(..)`, `mul(..)`, `div(..)`,
    `mod(..)` (and, in the trigonometric one, `sin(..)`, `cos(..)`,
    `tan(..)` of degrees), or infix arithmetic evaluated by the
    shunting-yard loop over numbers and variables. */
module Calls {
  import opened Outcomes
  import opened Text
  import opened Numbers
  import opened ShuntingYard

  const Precedence: map<char, int> := map['+' := 1, '-' := 1, '*' := 2, '/' := 2, '%' := 2]

  const DivisionByZero := "Division by zero"
  const ModuloByZero := "Modulo by zero"
  const InvalidFunctionSyntax := "Invalid function syntax"
  const UndefinedOrInvalid := "Undefined variable or invalid input: "
  const UnknownFunction := "Unknown function: "

  // ------------------------------------------------------------------
  // Tokenizing
  // ------------------------------------------------------------------

  /** A character that joins the pending token: a digit, a point, or a
      minus sign while the flag says an operator came last. */
  predicate Joins(c: char, lastWasOperator: bool)
  {
    IsDigit(c) || c == '.' || (c == '-' && lastWasOperator)
  }

  /** The pending token, pushed when it is not empty. */
  function Flush(token: string): seq<string>
  {
    if token == [] then [] else [token]
  }

  /** The tokens still to come from the rest `s` of the input, with `token`
      pending and the flag `lastWasOperator`. A joining character extends
      the pending token and clears the flag; any other character ends it; a
      blank is then dropped and leaves the flag as it was, every other
      character becomes a token of its own and sets the flag. */
  function Scan(s: string, token: string, lastWasOperator: bool): seq<string>
    decreases |s|
  {
    if s == [] then Flush(token)
    else if Joins(s[0], lastWasOperator) then Scan(s[1..], token + [s[0]], false)
    else if s[0] == ' ' then Flush(token) + Scan(s[1..], [], lastWasOperator)
    else Flush(token) + [[s[0]]] + Scan(s[1..], [], true)
  }

  /** The tokens of an input: nothing pending, and the flag set, so that a
      leading minus sign starts a number. */
  function Tokens(input: string): seq<string>
  {
    Scan(input, [], true)
  }

  /** One character of the tokenizer. */
  lemma ScanStep(s: string, token: string, lastWasOperator: bool)
    requires s != []
    ensures Scan(s, token, lastWasOperator)
      == if Joins(s[0], lastWasOperator) then Scan(s[1..], token + [s[0]], false)
         else if s[0] == ' ' then Flush(token) + Scan(s[1..], [], lastWasOperator)
         else Flush(token) + ([[s[0]]] + Scan(s[1..], [], true))
  {
    AppendAssoc(Flush(token), [[s[0]]], Scan(s[1..], [], true));
  }

  /** A token the tokenizer builds from joining characters: a digit, a
      point or a minus sign, then only digits and points. */
  predicate NumberLike(t: string)
  {
    t != [] && (IsDigit(t[0]) || t[0] == '.' || t[0] == '-')
    && forall i :: 1 <= i < |t| ==> IsDigit(t[i]) || t[i] == '.'
  }

  /** The two kinds of token: one character that never joins a number
      (an operator, a parenthesis, a letter, a comma, ...), or number-like. */
  predicate TokenShape(t: string)
  {
    (|t| == 1 && t[0] != ' ' && !Joins(t[0], false)) || NumberLike(t)
  }

  /** Every token is non-empty and of one of the two kinds; a pending token
      is number-like and, once it has a character, the flag is clear. */
  lemma {:induction false} ScanShapes(s: string, token: string, lastWasOperator: bool)
    requires token == [] || (NumberLike(token) && !lastWasOperator)
    ensures forall t :: t in Scan(s, token, lastWasOperator) ==> t != [] && TokenShape(t)
    decreases |s|
  {
    if s != [] {
      var c, more := s[0], s[1..];
      ScanStep(s, token, lastWasOperator);
      if Joins(c, lastWasOperator) {
        var longer := token + [c];
        assert NumberLike(longer) by {
          assert forall i :: 1 <= i < |token| ==> longer[i] == token[i];
        }
        ScanShapes(more, longer, false);
      } else if c == ' ' {
        ScanShapes(more, [], lastWasOperator);
      } else {
        assert TokenShape([c]);
        ScanShapes(more, [], true);
      }
    }
  }

  /** Blanks with nothing pending change nothing. */
  lemma {:induction false} ScanBlanks(blanks: string, rest: string, lastWasOperator: bool)
    requires AllBlank(blanks)
    ensures Scan(blanks + rest, [], lastWasOperator) == Scan(rest, [], lastWasOperator)
    decreases |blanks|
  {
    if blanks != [] {
      assert (blanks + rest)[0] == ' ' && (blanks + rest)[1..] == blanks[1..] + rest;
      ScanStep(blanks + rest, [], lastWasOperator);
      ScanBlanks(blanks[1..], rest, lastWasOperator);
      assert Flush([]) + Scan(rest, [], lastWasOperator) == Scan(rest, [], lastWasOperator);
    } else {
      assert blanks + rest == rest;
    }
  }

  /** After a character that becomes a token of its own, and any blanks, a
      minus sign starts a number rather than being an operator. */
  lemma SignAfterSymbol(c: char, blanks: string, more: string, token: string, lastWasOperator: bool)
    requires c != ' ' && !Joins(c, lastWasOperator) && AllBlank(blanks)
    ensures Scan([c] + blanks + ['-'] + more, token, lastWasOperator)
      == Flush(token) + [[c]] + Scan(more, "-", false)
  {
    var s := [c] + blanks + ['-'] + more;
    assert s[0] == c && s[1..] == blanks + (['-'] + more);
    ScanBlanks(blanks, ['-'] + more, true);
    assert (['-'] + more)[1..] == more;
    assert [] + "-" == "-";
  }

  /** The text without its blanks. */
  function NonBlank(s: string): string
  {
    if s == [] then [] else (if s[0] == ' ' then [] else [s[0]]) + NonBlank(s[1..])
  }

  /** Tokenizing loses only the blanks: the tokens put together are the
      pending token followed by the rest of the input without blanks. */
  lemma {:induction false} ScanKeepsText(s: string, token: string, lastWasOperator: bool)
    ensures Concat(Scan(s, token, lastWasOperator)) == token + NonBlank(s)
    decreases |s|
  {
    if s == [] {
      ConcatFlush(token);
      assert token + [] == token;
    } else {
      var c, more := s[0], s[1..];
      assert NonBlank(s) == (if c == ' ' then [] else [c]) + NonBlank(more);
      ScanStep(s, token, lastWasOperator);
      ConcatFlush(token);
      if Joins(c, lastWasOperator) {
        ScanKeepsText(more, token + [c], false);
        AppendAssoc(token, [c], NonBlank(more));
      } else if c == ' ' {
        ScanKeepsText(more, [], lastWasOperator);
        ConcatAppend(Flush(token), Scan(more, [], lastWasOperator));
      } else {
        ScanKeepsText(more, [], true);
        ConcatAppend(Flush(token), [[c]] + Scan(more, [], true));
        ConcatAppend([[c]], Scan(more, [], true));
        assert Concat([[c]]) == [c];
        AppendAssoc(token, [c], NonBlank(more));
      }
    }
  }

  lemma ConcatFlush(token: string)
    ensures Concat(Flush(token)) == token
  {
    if token != [] {
      assert Concat([token]) == token + Concat([]);
    }
  }

  // ------------------------------------------------------------------
  // Infix arithmetic
  // ------------------------------------------------------------------

  /** A token `evaluateMathExpression` hands to std::stod: it starts with a
      digit, contains a point, or is a minus sign with more after it. */
  predicate IsNumberToken(token: string)
  {
    IsDigit(Head(token)) || Find(token, '.').Some? || (Head(token) == '-' && |token| > 1)
  }

  /** The branch of the evaluation loop a token takes: a number, a defined
      variable, a parenthesis, an operator of the map (by its first
      character), or the "Undefined variable or invalid input" error. */
  function Classify(variables: map<string, real>, token: string): (item: Item<real>)
    ensures item.Reject? ==> item.error == InvalidArgument("stod") || item.error == Runtime(UndefinedOrInvalid + token)
    ensures item.Operator? ==> item.op in Precedence && !IsNumberToken(token) && token !in variables
  {
    if IsNumberToken(token) then
      match Stod(token)
      case Ok(v) => Operand(v)
      case Err(e) => Reject(e)
    else if token in variables then Operand(variables[token])
    else if token == "(" then OpenParen
    else if token == ")" then CloseParen
    else if Head(token) in Precedence then Operator(Head(token))
    else Reject(Runtime(UndefinedOrInvalid + token))
  }

  function Items(variables: map<string, real>, tokens: seq<string>): seq<Item<real>>
  {
    seq(|tokens|, i requires 0 <= i < |tokens| => Classify(variables, tokens[i]))
  }

  /** The `applyOperator` switch: a zero right operand of '/' or '%'
      throws. */
  function Arith(op: char, left: real, right: real): Result<real>
  {
    match op
    case '+' => Ok(left + right)
    case '-' => Ok(left - right)
    case '*' => Ok(Product(left, right))
    case '/' => if right == 0.0 then Err(Runtime(DivisionByZero)) else Ok(Quotient(left, right))
    case '%' => if right == 0.0 then Err(Runtime(ModuloByZero)) else Ok(Fmod(left, right))
    case _ => Err(Undefined("no case for operator " + [op]))
  }

  function MathConfig(): Config<real>
  {
    Config(Precedence, Arith)
  }

  /** The value `evaluateMathExpression` computes from the tokens. */
  function MathValue(variables: map<string, real>, tokens: seq<string>): Result<real>
  {
    Evaluate(MathConfig(), Items(variables, tokens))
  }

  /** The only errors of infix evaluation are a number std::stod rejects,
      an unknown token, a zero divisor of '/' or '%', and the undefined
      behaviour of an unbalanced expression. */
  lemma MathErrors(variables: map<string, real>, tokens: seq<string>)
    ensures var r := MathValue(variables, tokens);
      r.Err? ==>
        || r.error == InvalidArgument("stod")
        || (exists t :: t in tokens && r.error == Runtime(UndefinedOrInvalid + t))
        || r.error == Runtime(DivisionByZero)
        || r.error == Runtime(ModuloByZero)
        || r.error.Undefined?
  {
    var items := Items(variables, tokens);
    var allowed := (e: Error) => e == Runtime(DivisionByZero) || e == Runtime(ModuloByZero);
    assert CombineErrors(MathConfig(), allowed);
    RunErrors(MathConfig(), allowed, Stacks([], []), items);
    var r := MathValue(variables, tokens);
    if r.Err? && Reject(r.error) in items {
      var i :| 0 <= i < |items| && items[i] == Reject(r.error);
      assert tokens[i] in tokens;
    }
  }

  // ------------------------------------------------------------------
  // Expressions and calls
  // ------------------------------------------------------------------

  /** Which calculator: the arithmetic one, or the trigonometric one, which
      also knows `sin`, `cos` and `tan` (the library functions of radians
      are parameters of the model). */
  datatype Mode =
    | Arithmetic
    | Trigonometric(sin: real -> real, cos: real -> real, tan: real -> real)

  /** `evaluateExpression`: a defined variable by its whole name, a call by
      its prefix, and otherwise infix arithmetic over the tokens. */
  function Expression(mode: Mode, variables: map<string, real>, input: string): Result<real>
    decreases |input|, 2, 0
  {
    if input in variables then Ok(variables[input])
    else if StartsWith(input, "add(") then Call(mode, variables, input, '+')
    else if StartsWith(input, "sub(") then Call(mode, variables, input, '-')
    else if StartsWith(input, "mul(") then Call(mode, variables, input, '*')
    else if StartsWith(input, "div(") then Call(mode, variables, input, '/')
    else if StartsWith(input, "mod(") then Call(mode, variables, input, '%')
    else if mode.Trigonometric? && StartsWith(input, "sin(") then TrigCall(mode, variables, input, "sin")
    else if mode.Trigonometric? && StartsWith(input, "cos(") then TrigCall(mode, variables, input, "cos")
    else if mode.Trigonometric? && StartsWith(input, "tan(") then TrigCall(mode, variables, input, "tan")
    else MathValue(variables, Tokens(input))
  }

  /** The text between the first '(' and the first ')'; None when either
      is missing or the ')' does not come after the '('. */
  function Arguments(input: string): (r: Option<string>)
    ensures r.Some? ==> |r.value| + 2 <= |input|
  {
    var start := Find(input, '(');
    var end := Find(input, ')');
    if start.None? || end.None? || start.value >= end.value then None
    else Some(input[start.value + 1..end.value])
  }

  /** `evaluateFunction`: the arguments are the trimmed comma-separated
      pieces of the text inside the parentheses; the first one's value is
      combined with each following one's in turn. */
  function Call(mode: Mode, variables: map<string, real>, input: string, op: char): Result<real>
    decreases |input|, 1, 0
  {
    match Arguments(input)
    case None => Err(Runtime(InvalidFunctionSyntax))
    case Some(args) =>
      var tokens := TrimAll(Fields(args, ','));
      PiecesNoLonger(args, ',');
      if tokens == [] then Err(Undefined("tokens[0] of an empty vector"))
      else
        var first :- Expression(mode, variables, tokens[0]);
        Fold(mode, variables, tokens[1..], op, first)
  }

  /** One turn of the `evaluateFunction` loop: the `if` chain on the
      operator, which checks the divisor of '/' and '%'. */
  function Accumulate(op: char, result: real, value: real): Result<real>
  {
    if op == '+' then Ok(result + value)
    else if op == '-' then Ok(result - value)
    else if op == '*' then Ok(Product(result, value))
    else if op == '/' then (if value == 0.0 then Err(Runtime(DivisionByZero)) else Ok(Quotient(result, value)))
    else if op == '%' then (if value == 0.0 then Err(Runtime(ModuloByZero)) else Ok(Fmod(result, value)))
    else Ok(result)
  }

  /** The rest of the `evaluateFunction` loop from the running result
      `result`: each argument is evaluated, then combined. */
  function Fold(mode: Mode, variables: map<string, real>, args: seq<string>, op: char, result: real): Result<real>
    decreases MaxLength(args), 3, |args|
  {
    if args == [] then Ok(result)
    else
      var value :- Expression(mode, variables, args[0]);
      var next :- Accumulate(op, result, value);
      Fold(mode, variables, args[1..], op, next)
  }

  /** Degrees to radians, as `value * M_PI / 180.0`. */
  function Radians(degrees: real): real
  {
    Product(degrees, Pi) / 180.0
  }

  /** `evaluateTrigFunction`: the untrimmed text inside the parentheses is
      evaluated as degrees, and the named function applied to its
      radians. */
  function TrigCall(mode: Mode, variables: map<string, real>, input: string, func: string): Result<real>
    requires mode.Trigonometric?
    decreases |input|, 1, 0
  {
    match Arguments(input)
    case None => Err(Runtime(InvalidFunctionSyntax))
    case Some(arg) =>
      var value :- Expression(mode, variables, arg);
      var radians := Radians(value);
      if func == "sin" then Ok(mode.sin(radians))
      else if func == "cos" then Ok(mode.cos(radians))
      else if func == "tan" then Ok(mode.tan(radians))
      else Err(Runtime(UnknownFunction + func))
  }

  // ------------------------------------------------------------------
  // Lines
  // ------------------------------------------------------------------

  /** The `catch` of `interpret`: an exception becomes "Error: " and its
      message. Undefined behaviour is not an exception and stays an error
      of the model. */
  function Caught(e: Error): Result<string>
  {
    if e.Undefined? then Err(e) else Ok("Error: " + What(e))
  }

  /** What `interpret` returns for a line, and the variables afterwards. A
      trimmed line with '=' assigns the value of the trimmed text after the
      first '=' to the trimmed name before it and returns the empty string;
      any other line returns its value with two decimals. An assignment
      whose value throws stores nothing. */
  function Respond(mode: Mode, variables: map<string, real>, input: string): (r: (Result<string>, map<string, real>))
    ensures r.0.Err? ==> r.0.error.Undefined?
  {
    var line := Trim(input);
    match Find(line, '=')
    case Some(k) =>
      var outcome := Expression(mode, variables, Trim(line[k + 1..]));
      if outcome.Err? then (Caught(outcome.error), variables)
      else (Ok(""), variables[Trim(line[..k]) := outcome.value])
    case None =>
      var outcome := Expression(mode, variables, line);
      if outcome.Err? then (Caught(outcome.error), variables)
      else (Ok(FormatFixed2(outcome.value)), variables)
  }

  // ------------------------------------------------------------------
  // Properties
  // ------------------------------------------------------------------

  /** A minus sign right after a token that is not a number joins the
      number after it: with `x` defined, `x-1` is the two operands `x` and
      `-1`, not a subtraction. */
  lemma MinusAfterNameIsSign()
    ensures Tokens("x-1") == ["x", "-1"]
  {
    var s := "x-1";
    ScanStep(s, [], true);
    ScanStep(s[1..], [], true);
    ScanStep(s[2..], "-", false);
    assert s[1..][1..] == s[2..] && s[2..][1..] == [];
    assert [] + [s[1]] == "-" && "-" + [s[2]] == "-1";
    assert Scan([], "-1", false) == ["-1"];
    assert Scan(s, [], true) == [] + ([['x']] + ["-1"]);
  }

  /** A minus sign after a number is the operator. */
  lemma MinusAfterNumberIsOperator()
    ensures Tokens("5-3") == ["5", "-", "3"]
  {
    var s := "5-3";
    ScanStep(s, [], true);
    ScanStep(s[1..], "5", false);
    ScanStep(s[2..], [], true);
    assert s[1..][1..] == s[2..] && s[2..][1..] == [];
    assert [] + [s[0]] == "5" && [] + [s[2]] == "3";
    assert Scan(s, [], true) == ["5"] + ([['-']] + ["3"]);
  }

  /** Letters are tokens of one character each, so a longer variable name
      cannot be used inside infix arithmetic. */
  lemma LettersStandAlone()
    ensures Tokens("ab+1") == ["a", "b", "+", "1"]
  {
    var s := "ab+1";
    ScanStep(s, [], true);
    ScanStep(s[1..], [], true);
    ScanStep(s[2..], [], true);
    ScanStep(s[3..], [], true);
    assert s[1..][1..] == s[2..] && s[2..][1..] == s[3..] && s[3..][1..] == [];
    assert [] + [s[3]] == "1";
    assert Scan(s, [], true) == [] + ([['a']] + ([] + ([['b']] + ([] + ([['+']] + ["1"])))));
  }

  /** The `if` chain of `evaluateFunction` and the `applyOperator` switch
      agree on every operator of the precedence map. */
  lemma AccumulateIsArith(op: char, result: real, value: real)
    requires op in Precedence
    ensures Accumulate(op, result, value) == Arith(op, result, value)
  {
  }

  /** Every argument has a value. */
  predicate AllEvaluate(mode: Mode, variables: map<string, real>, args: seq<string>)
  {
    forall i :: 0 <= i < |args| ==> Expression(mode, variables, args[i]).Ok?
  }

  /** The sum of the arguments' values. */
  function Total(mode: Mode, variables: map<string, real>, args: seq<string>): real
    requires AllEvaluate(mode, variables, args)
  {
    if args == [] then 0.0 else Expression(mode, variables, args[0]).value + Total(mode, variables, args[1..])
  }

  /** `add` adds every later argument to the first, and `sub` subtracts
      every later argument from it. */
  lemma {:induction false} FoldSums(mode: Mode, variables: map<string, real>, args: seq<string>, result: real)
    requires AllEvaluate(mode, variables, args)
    ensures Fold(mode, variables, args, '+', result) == Ok(result + Total(mode, variables, args))
    ensures Fold(mode, variables, args, '-', result) == Ok(result - Total(mode, variables, args))
    decreases |args|
  {
    if args != [] {
      var v := Expression(mode, variables, args[0]).value;
      FoldSums(mode, variables, args[1..], result + v);
      FoldSums(mode, variables, args[1..], result - v);
    }
  }

  /** `div` and `mod` succeed only when every later argument has a value
      and none of them is 0. */
  lemma {:induction false} FoldRejectsZero(mode: Mode, variables: map<string, real>, args: seq<string>, op: char, result: real)
    requires op == '/' || op == '%'
    ensures Fold(mode, variables, args, op, result).Ok? ==>
      forall i :: 0 <= i < |args| ==> Expression(mode, variables, args[i]).Ok? && Expression(mode, variables, args[i]).value != 0.0
    decreases |args|
  {
    if args != [] && Fold(mode, variables, args, op, result).Ok? {
      var v := Expression(mode, variables, args[0]).value;
      FoldRejectsZero(mode, variables, args[1..], op, Accumulate(op, result, v).value);
      forall i | 1 <= i < |args|
        ensures Expression(mode, variables, args[i]).Ok? && Expression(mode, variables, args[i]).value != 0.0
      {
        assert args[i] == args[1..][i - 1];
      }
    }
  }

  /** A zero among the later arguments of `div` or `mod` is reported as
      the matching exception once the arguments before it have values. */
  lemma {:induction false} FoldReportsZero(mode: Mode, variables: map<string, real>, args: seq<string>, op: char, result: real, k: nat)
    requires op == '/' || op == '%'
    requires k < |args| && Expression(mode, variables, args[k]) == Ok(0.0)
    requires forall i :: 0 <= i < k ==> Expression(mode, variables, args[i]).Ok? && Expression(mode, variables, args[i]).value != 0.0
    ensures Fold(mode, variables, args, op, result)
      == Err(Runtime(if op == '/' then DivisionByZero else ModuloByZero))
    decreases k
  {
    if k > 0 {
      var v := Expression(mode, variables, args[0]).value;
      forall i | 0 <= i < k - 1
        ensures Expression(mode, variables, args[1..][i]).Ok? && Expression(mode, variables, args[1..][i]).value != 0.0
      {
        assert args[1..][i] == args[i + 1];
      }
      FoldReportsZero(mode, variables, args[1..], op, Accumulate(op, result, v).value, k - 1);
    }
  }

  /** Only the text up to the first ')' is read: anything after it is
      ignored. */
  lemma CallIgnoresTail(mode: Mode, variables: map<string, real>, input: string, more: string, op: char)
    requires Find(input, ')').Some?
    ensures Call(mode, variables, input + more, op) == Call(mode, variables, input, op)
  {
    FindInPrefix(input, more, ')');
    var end := Find(input, ')').value;
    if Find(input, '(').Some? {
      FindInPrefix(input, more, '(');
      var start := Find(input, '(').value;
      if start < end {
        assert (input + more)[start + 1..end] == input[start + 1..end];
      }
    } else {
      FindIsFirst(input + more, '(');
      FindIsFirst(input, '(');
      if Find(input + more, '(').Some? {
        assert Find(input + more, '(').value >= |input|;
      }
    }
    assert Arguments(input + more) == Arguments(input);
  }

  /** An assignment whose value exists returns the empty string and stores
      the value under the trimmed name, where the next line reads it back;
      one that throws stores nothing. */
  lemma AssignThenRead(mode: Mode, variables: map<string, real>, input: string, k: nat)
    requires Find(Trim(input), '=') == Some(k)
    ensures var line := Trim(input);
      var outcome := Expression(mode, variables, Trim(line[k + 1..]));
      var r := Respond(mode, variables, input);
      && (outcome.Ok? ==> r.0 == Ok("") && Expression(mode, r.1, Trim(line[..k])) == outcome)
      && (outcome.Err? ==> r.1 == variables)
  {
  }

  /** The value a line computes: that of the trimmed text after its first
      '=' for an assignment, that of the whole trimmed line otherwise. */
  function LineOutcome(mode: Mode, variables: map<string, real>, input: string): Result<real>
  {
    var line := Trim(input);
    match Find(line, '=')
    case Some(k) => Expression(mode, variables, Trim(line[k + 1..]))
    case None => Expression(mode, variables, line)
  }

  /** A line whose evaluation throws shows "Error: " and the exception's
      message, and leaves the variables as they were; undefined behaviour
      is the one failure that is not caught. */
  lemma ErrorShown(mode: Mode, variables: map<string, real>, input: string)
    ensures var outcome := LineOutcome(mode, variables, input);
      && (outcome.Err? && !outcome.error.Undefined? ==>
            Respond(mode, variables, input) == (Ok("Error: " + What(outcome.error)), variables))
      && (outcome.Err? && outcome.error.Undefined? ==>
            Respond(mode, variables, input) == (Err(outcome.error), variables))
      && (outcome.Ok? ==>
            Respond(mode, variables, input).0.Ok? && !StartsWith(Respond(mode, variables, input).0.value, "Error: "))
  {
    var outcome := LineOutcome(mode, variables, input);
    if outcome.Ok? && Find(Trim(input), '=').None? {
      var shown := FormatFixed2(outcome.value);
      assert shown[0] == '-' || shown[0..|shown| - 3][0] == shown[0];
    }
  }

  /** The name a line assigns to: the trimmed text before its first '=',
      if it has one. */
  function Target(input: string): Option<string>
  {
    var line := Trim(input);
    match Find(line, '=')
    case Some(k) => Some(Trim(line[..k]))
    case None => None
  }

  /** A line changes no variable but the one it assigns to. */
  lemma RespondChangesOnlyTarget(mode: Mode, variables: map<string, real>, input: string)
    ensures var after := Respond(mode, variables, input).1;
      forall x :: Target(input) != Some(x) ==>
        (x in after <==> x in variables) && (x in variables ==> after[x] == variables[x])
  {
  }

  /** An expression line that has a value shows it with exactly two
      decimals; read back with std::stod, the text is the value rounded to
      hundredths, which is within half a hundredth of it. */
  lemma ShownWithTwoDecimals(mode: Mode, variables: map<string, real>, input: string)
    requires Find(Trim(input), '=').None? && Expression(mode, variables, Trim(input)).Ok?
    ensures var shown := Respond(mode, variables, input).0;
      var v := Expression(mode, variables, Trim(input)).value;
      && shown == Ok(FormatFixed2(v))
      && |shown.value| >= 4 && shown.value[|shown.value| - 3] == '.'
      && Stod(shown.value) == Ok(Rounded2(v)) && Abs(Rounded2(v) - v) <= 0.005
  {
    var v := Expression(mode, variables, Trim(input)).value;
    FormatFixed2ReadsBack(v);
    RoundedToHundredths(v);
  }

  /** Text without a '(' means the same to both calculators: no call can
      start in it. */
  lemma ModesAgreeWithoutCalls(m1: Mode, m2: Mode, variables: map<string, real>, input: string)
    requires Find(input, '(').None?
    ensures Expression(m1, variables, input) == Expression(m2, variables, input)
  {
    FindIsFirst(input, '(');
    assert !StartsWith(input, "add(") && !StartsWith(input, "sub(") && !StartsWith(input, "mul(")
      && !StartsWith(input, "div(") && !StartsWith(input, "mod(") && !StartsWith(input, "sin(")
      && !StartsWith(input, "cos(") && !StartsWith(input, "tan(") by {
      if |input| >= 4 {
        assert input[3] != '(';
      }
    }
  }

  /** 180 degrees are Pi radians. */
  lemma HalfTurn()
    ensures Radians(180.0) == Pi
  {
  }

  /** `sin(arg)` with no ')' inside `arg` reads `arg` as degrees: the sine
      of its value in radians, or the error of evaluating it. */
  lemma SineOfDegrees(mode: Mode, variables: map<string, real>, arg: string)
    requires mode.Trigonometric?
    requires forall j :: 0 <= j < |arg| ==> arg[j] != ')'
    requires "sin(" + arg + ")" !in variables
    ensures var inner := Expression(mode, variables, arg);
      Expression(mode, variables, "sin(" + arg + ")")
        == if inner.Err? then Err(inner.error) else Ok(mode.sin(Radians(inner.value)))
  {
    var s := "sin(" + arg + ")";
    SineArguments(arg);
    assert !StartsWith(s, "add(") && !StartsWith(s, "sub(") && !StartsWith(s, "mul(");
    assert !StartsWith(s, "div(") && !StartsWith(s, "mod(") && StartsWith(s, "sin(");
    assert Expression(mode, variables, s) == TrigCall(mode, variables, s, "sin");
  }

  lemma SineArguments(arg: string)
    requires forall j :: 0 <= j < |arg| ==> arg[j] != ')'
    ensures var s := "sin(" + arg + ")";
      s[..4] == "sin(" && Arguments(s) == Some(arg)
  {
    var s := "sin(" + arg + ")";
    var close := 4 + |arg|;
    assert s[..4] == "sin(";
    FindFirst(s, '(', 3);
    forall j | 0 <= j < close
      ensures s[j] != ')'
    {
      if j >= 4 {
        assert s[j] == arg[j - 4];
      }
    }
    FindFirst(s, ')', close);
    assert s[4..close] == arg;
    ArgumentsBetween(s, 3, close);
  }

  /** With `x` defined, `x-1` is not x minus 1: both operands are pushed,
      no operator is, and the value is the last operand, -1. */
  lemma MinusAfterNameValue(mode: Mode, variables: map<string, real>)
    requires "x" in variables && "x-1" !in variables
    ensures Expression(mode, variables, "x-1") == Ok(-1.0)
  {
    MinusAfterNameIsSign();
    FindNone("x", '.');
    StodNegativeDigit('1');
    var items := Items(variables, ["x", "-1"]);
    assert items == [Operand(variables["x"]), Operand(-1.0)];
    var cfg := MathConfig();
    assert [] + [variables["x"]] == [variables["x"]];
    RunHead(cfg, Stacks([], []), items, Stacks([variables["x"]], []));
    assert items[1..][1..] == [];
    assert [variables["x"]] + [-1.0] == [variables["x"], -1.0];
    RunHead(cfg, Stacks([variables["x"]], []), items[1..], Stacks([variables["x"], -1.0], []));
  }

  /** A call inside a call fails: the first ')' closes the outer call, so
      its first argument is the malformed `sub(5`. */
  lemma NestedCallFails(mode: Mode, variables: map<string, real>)
    requires "add(sub(5,2),1)" !in variables && "sub(5" !in variables
    ensures Expression(mode, variables, "add(sub(5,2),1)") == Err(Runtime(InvalidFunctionSyntax))
  {
    var s := "add(sub(5,2),1)";
    assert StartsWith(s, "add(");
    NestedArguments();
    NestedTrimmedPieces();
    InnerCallFails(mode, variables);
    assert Call(mode, variables, s, '+') == Err(Runtime(InvalidFunctionSyntax));
  }

  lemma NestedArguments()
    ensures Arguments("add(sub(5,2),1)") == Some("sub(5,2")
  {
    OpenOfNested();
    CloseOfNested();
    InsideOfNested();
    ArgumentsBetween("add(sub(5,2),1)", 3, 11);
  }

  /** The arguments lie between the first '(' and the first ')'. */
  lemma ArgumentsBetween(input: string, open: nat, close: nat)
    requires Find(input, '(') == Some(open) && Find(input, ')') == Some(close) && open < close
    ensures Arguments(input) == Some(input[open + 1..close])
  {
  }

  lemma InsideOfNested()
    ensures "add(sub(5,2),1)"[4..11] == "sub(5,2"
  {
  }

  lemma OpenOfNested()
    ensures Find("add(sub(5,2),1)", '(') == Some(3)
  {
    FindFirst("add(sub(5,2),1)", '(', 3);
  }

  lemma CloseOfNested()
    ensures Find("add(sub(5,2),1)", ')') == Some(11)
  {
    FindFirst("add(sub(5,2),1)", ')', 11);
  }

  lemma NestedTrimmedPieces()
    ensures TrimAll(Fields("sub(5,2", ',')) == ["sub(5", "2"]
  {
    NestedPieces();
    TrimUnpadded("sub(5");
    TrimUnpadded("2");
    TrimAllCons("sub(5", ["2"]);
    TrimAllCons("2", []);
  }

  lemma NestedPieces()
    ensures Fields("sub(5,2", ',') == ["sub(5", "2"]
  {
    var args := "sub(5,2";
    FindFirst(args, ',', 5);
    assert args[..5] == "sub(5" && args[6..] == "2";
    FindNone("2", ',');
  }

  lemma InnerCallFails(mode: Mode, variables: map<string, real>)
    requires "sub(5" !in variables
    ensures Expression(mode, variables, "sub(5") == Err(Runtime(InvalidFunctionSyntax))
  {
    var inner := "sub(5";
    assert StartsWith(inner, "sub(") && !StartsWith(inner, "add(");
    FindNone(inner, ')');
    assert Arguments(inner) == None;
  }
}

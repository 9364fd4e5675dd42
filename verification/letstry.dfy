/** The calculator with variables and named functions: one statement per
    line, either `name = expr` or an expression whose value is shown with
    two decimals; every exception is caught and shown as "Error: ..." . */
module LetsTry {
  import opened Outcomes
  import opened Text
  import opened Numbers
  import opened ShuntingYard
  import opened Calls

  /** The `tokenize` member: `token` is the pending token. Every token is
      a one-character symbol or number-like, never empty. */
  method Tokenize(input: string) returns (tokens: seq<string>)
    ensures tokens == Tokens(input)
    ensures forall t :: t in tokens ==> t != [] && TokenShape(t)
  {
    ScanShapes(input, [], true);
    tokens := [];
    var token := "";
    var lastWasOperator := true;
    assert input[0..] == input;
    for i := 0 to |input|
      invariant tokens + Scan(input[i..], token, lastWasOperator) == Tokens(input)
    {
      var c := input[i];
      ScanStep(input[i..], token, lastWasOperator);
      assert input[i..][0] == c && input[i..][1..] == input[i + 1..];
      if IsDigit(c) || c == '.' || (c == '-' && lastWasOperator) {
        token := token + [c];
        lastWasOperator := false;
      } else {
        ghost var rest := if c == ' ' then Scan(input[i + 1..], [], lastWasOperator)
          else [[c]] + Scan(input[i + 1..], [], true);
        AppendAssoc(tokens, Flush(token), rest);
        if token != [] {
          tokens := tokens + [token];
          token := "";
        } else {
          assert tokens + [] == tokens;
        }
        if c != ' ' {
          AppendAssoc(tokens, [[c]], Scan(input[i + 1..], [], true));
          tokens := tokens + [[c]];
          lastWasOperator := true;
        }
      }
    }
    assert input[|input|..] == [];
    if token != [] {
      tokens := tokens + [token];
    } else {
      assert tokens + [] == tokens;
    }
  }

  /** The `applyOperator` member: pop an operator and two operands, push
      the result; '/' and '%' throw on a zero right operand. */
  method ApplyOperator(values: seq<real>, operators: seq<char>) returns (r: Result<Stacks<real>>)
    requires |operators| > 0
    ensures r == Reduce(MathConfig(), Stacks(values, operators))
  {
    var op := operators[|operators| - 1];
    var ops := operators[..|operators| - 1];
    if |values| < 2 {
      return Err(Undefined("top() of an empty operand stack"));
    }
    var right := values[|values| - 1];
    var left := values[|values| - 2];
    var rest := values[..|values| - 2];
    match op
    case '+' => r := Ok(Stacks(rest + [left + right], ops));
    case '-' => r := Ok(Stacks(rest + [left - right], ops));
    case '*' => r := Ok(Stacks(rest + [Product(left, right)], ops));
    case '/' =>
      if right == 0.0 {
        return Err(Runtime(DivisionByZero));
      }
      r := Ok(Stacks(rest + [Quotient(left, right)], ops));
    case '%' =>
      if right == 0.0 {
        return Err(Runtime(ModuloByZero));
      }
      r := Ok(Stacks(rest + [Fmod(left, right)], ops));
    case _ => r := Ok(Stacks(rest, ops));
  }

  /** One of the `while (...) applyOperator(values, operators);` loops. */
  method ApplyWhile(values: seq<real>, operators: seq<char>, until: Until) returns (r: Result<Stacks<real>>)
    ensures r == Drain(MathConfig(), Stacks(values, operators), until)
  {
    var cfg := MathConfig();
    var vs, ops := values, operators;
    while ops != [] && (until.Everything? || ops[|ops| - 1] != '(')
          && (!until.WhileAtLeast? || Prec(cfg, ops[|ops| - 1]) >= until.level)
      invariant Drain(cfg, Stacks(vs, ops), until) == Drain(cfg, Stacks(values, operators), until)
      decreases |ops|
    {
      var step := ApplyOperator(vs, ops);
      if step.Err? {
        return Err(step.error);
      }
      vs, ops := step.value.values, step.value.operators;
    }
    r := Ok(Stacks(vs, ops));
  }

  /** The `evaluateMathExpression` member, with the context's variables. */
  method EvaluateMathExpression(variables: map<string, real>, tokens: seq<string>) returns (r: Result<real>)
    ensures r == MathValue(variables, tokens)
  {
    var cfg := MathConfig();
    ghost var items := Items(variables, tokens);
    var values: seq<real> := [];
    var operators: seq<char> := [];
    for i := 0 to |tokens|
      invariant Run(cfg, Stacks(values, operators), items[i..]) == Evaluate(cfg, items)
    {
      assert items[i..][0] == items[i] && items[i..][1..] == items[i + 1..];
      var next := Consume(variables, values, operators, tokens[i]);
      if next.Err? {
        return Err(next.error);
      }
      values, operators := next.value.values, next.value.operators;
    }
    var reduced := ApplyWhile(values, operators, Everything);
    if reduced.Err? {
      return Err(reduced.error);
    }
    values := reduced.value.values;
    if values == [] {
      return Err(Undefined("top() of an empty operand stack"));
    }
    r := Ok(values[|values| - 1]);
  }

  /** The body of the token loop of `evaluateMathExpression`: the branch
      the token takes, and its effect on the two stacks. */
  method Consume(variables: map<string, real>, values: seq<real>, operators: seq<char>, token: string)
    returns (r: Result<Stacks<real>>)
    ensures r == Step(MathConfig(), Stacks(values, operators), Classify(variables, token))
  {
    if IsNumberToken(token) {
      var number := Stod(token);
      if number.Err? {
        return Err(number.error);
      }
      r := Ok(Stacks(values + [number.value], operators));
    } else if token in variables {
      r := Ok(Stacks(values + [variables[token]], operators));
    } else if token == "(" {
      r := Ok(Stacks(values, operators + ['(']));
    } else if token == ")" {
      var reduced := ApplyWhile(values, operators, ToParen);
      if reduced.Err? {
        return Err(reduced.error);
      }
      if reduced.value.operators == [] {
        return Err(Undefined("pop() of an empty operator stack"));
      }
      var ops := reduced.value.operators;
      r := Ok(Stacks(reduced.value.values, ops[..|ops| - 1]));
    } else if Head(token) in Precedence {
      var reduced := ApplyWhile(values, operators, WhileAtLeast(Prec(MathConfig(), Head(token))));
      if reduced.Err? {
        return Err(reduced.error);
      }
      r := Ok(Stacks(reduced.value.values, reduced.value.operators + [Head(token)]));
    } else {
      r := Err(Runtime(UndefinedOrInvalid + token));
    }
  }

  /** The `Context`: the variables, by name. */
  class Context {
    var variables: map<string, real>

    constructor ()
      ensures variables == map[]
    {
      variables := map[];
    }
  }

  class Interpreter {
    const context: Context

    constructor (context: Context)
      ensures this.context == context
    {
      this.context := context;
    }

    /** The `interpret` member: assignments store, expressions are shown
        with two decimals, and an exception becomes its message. */
    method Interpret(input: string) returns (r: Result<string>)
      modifies context
      ensures (r, context.variables) == Respond(Arithmetic, old(context.variables), input)
    {
      var line := Trim(input);
      var eqPos := Find(line, '=');
      if eqPos.Some? {
        var name := Trim(line[..eqPos.value]);
        var expr := Trim(line[eqPos.value + 1..]);
        var value := EvaluateExpression(expr);
        if value.Err? {
          return Caught(value.error);
        }
        context.variables := context.variables[name := value.value];
        return Ok("");
      }
      var value := EvaluateExpression(line);
      if value.Err? {
        return Caught(value.error);
      }
      r := Ok(FormatFixed2(value.value));
    }

    /** The `evaluateExpression` member. */
    method EvaluateExpression(input: string) returns (r: Result<real>)
      ensures r == Expression(Arithmetic, context.variables, input)
      decreases |input|, 2, 0
    {
      if input in context.variables {
        return Ok(context.variables[input]);
      }
      if StartsWith(input, "add(") {
        r := EvaluateFunction(input, '+');
      } else if StartsWith(input, "sub(") {
        r := EvaluateFunction(input, '-');
      } else if StartsWith(input, "mul(") {
        r := EvaluateFunction(input, '*');
      } else if StartsWith(input, "div(") {
        r := EvaluateFunction(input, '/');
      } else if StartsWith(input, "mod(") {
        r := EvaluateFunction(input, '%');
      } else {
        var tokens := Tokenize(input);
        r := EvaluateMathExpression(context.variables, tokens);
      }
    }

    /** The `evaluateFunction` member: `result` runs through the
        arguments. */
    method EvaluateFunction(input: string, op: char) returns (r: Result<real>)
      ensures r == Call(Arithmetic, context.variables, input, op)
      decreases |input|, 1, 0
    {
      var start := Find(input, '(');
      var end := Find(input, ')');
      if start.None? || end.None? || start.value >= end.value {
        return Err(Runtime(InvalidFunctionSyntax));
      }
      var args := input[start.value + 1..end.value];
      assert Arguments(input) == Some(args);
      var tokens := Split(args, ',');
      PiecesNoLonger(args, ',');
      if tokens == [] {
        return Err(Undefined("tokens[0] of an empty vector"));
      }
      var first := EvaluateExpression(tokens[0]);
      if first.Err? {
        return Err(first.error);
      }
      var result := first.value;
      for i := 1 to |tokens|
        invariant Fold(Arithmetic, context.variables, tokens[i..], op, result)
          == Fold(Arithmetic, context.variables, tokens[1..], op, first.value)
      {
        assert tokens[i..][0] == tokens[i] && tokens[i..][1..] == tokens[i + 1..];
        var value := EvaluateExpression(tokens[i]);
        if value.Err? {
          return Err(value.error);
        }
        var next := Accumulated(op, result, value.value);
        if next.Err? {
          return Err(next.error);
        }
        result := next.value;
      }
      assert tokens[|tokens|..] == [];
      r := Ok(result);
    }
    }

  /** The body of the `evaluateFunction` loop after the argument's value:
      the `if` chain on the operator. */
  method Accumulated(op: char, result: real, value: real) returns (r: Result<real>)
    ensures r == Accumulate(op, result, value)
  {
    r := Ok(result);
    if op == '+' {
      r := Ok(result + value);
    } else if op == '-' {
      r := Ok(result - value);
    } else if op == '*' {
      r := Ok(Product(result, value));
    } else if op == '/' {
      if value == 0.0 {
        return Err(Runtime(DivisionByZero));
      }
      r := Ok(Quotient(result, value));
    } else if op == '%' {
      if value == 0.0 {
        return Err(Runtime(ModuloByZero));
      }
      r := Ok(Fmod(result, value));
    }
  }
}

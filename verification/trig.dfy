/** The calculator of the named-function kind that also knows `sin`,
    `cos` and `tan` of an angle in degrees. Its tokenizer and infix
    evaluation are those of the arithmetic one; its sine, cosine and
    tangent are the library's, given to the interpreter. */
module Trig {
  import opened Outcomes
  import opened Text
  import opened Numbers
  import opened Calls
  import LetsTry

  /** The `Context`: the variables, by name. */
  class Context {
    var variables: map<string, real>

    constructor ()
      ensures variables == map[]
    {
      variables := map[];
    }
  }

  class Interpreter {
    const context: Context
    /** std::sin, std::cos and std::tan, of radians. */
    const sin: real -> real
    const cos: real -> real
    const tan: real -> real

    constructor (context: Context, sin: real -> real, cos: real -> real, tan: real -> real)
      ensures this.context == context && this.sin == sin && this.cos == cos && this.tan == tan
    {
      this.context := context;
      this.sin, this.cos, this.tan := sin, cos, tan;
    }

    /** The `interpret` member. */
    method Interpret(input: string) returns (r: Result<string>)
      modifies context
      ensures (r, context.variables) == Respond(Trigonometric(sin, cos, tan), old(context.variables), input)
    {
      var line := Trim(input);
      var eqPos := Find(line, '=');
      if eqPos.Some? {
        var name := Trim(line[..eqPos.value]);
        var expr := Trim(line[eqPos.value + 1..]);
        var value := EvaluateExpression(expr);
        if value.Err? {
          return Caught(value.error);
        }
        context.variables := context.variables[name := value.value];
        return Ok("");
      }
      var value := EvaluateExpression(line);
      if value.Err? {
        return Caught(value.error);
      }
      r := Ok(FormatFixed2(value.value));
    }

    /** The `evaluateExpression` member, with the three trigonometric
        prefixes after the five arithmetic ones. */
    method EvaluateExpression(input: string) returns (r: Result<real>)
      ensures r == Expression(Trigonometric(sin, cos, tan), context.variables, input)
      decreases |input|, 2, 0
    {
      if input in context.variables {
        return Ok(context.variables[input]);
      }
      if StartsWith(input, "add(") {
        r := EvaluateFunction(input, '+');
      } else if StartsWith(input, "sub(") {
        r := EvaluateFunction(input, '-');
      } else if StartsWith(input, "mul(") {
        r := EvaluateFunction(input, '*');
      } else if StartsWith(input, "div(") {
        r := EvaluateFunction(input, '/');
      } else if StartsWith(input, "mod(") {
        r := EvaluateFunction(input, '%');
      } else if StartsWith(input, "sin(") {
        r := EvaluateTrigFunction(input, "sin");
      } else if StartsWith(input, "cos(") {
        r := EvaluateTrigFunction(input, "cos");
      } else if StartsWith(input, "tan(") {
        r := EvaluateTrigFunction(input, "tan");
      } else {
        var tokens := LetsTry.Tokenize(input);
        r := LetsTry.EvaluateMathExpression(context.variables, tokens);
      }
    }

    /** The `evaluateFunction` member. */
    method EvaluateFunction(input: string, op: char) returns (r: Result<real>)
      ensures r == Call(Trigonometric(sin, cos, tan), context.variables, input, op)
      decreases |input|, 1, 0
    {
      var start := Find(input, '(');
      var end := Find(input, ')');
      if start.None? || end.None? || start.value >= end.value {
        return Err(Runtime(InvalidFunctionSyntax));
      }
      var args := input[start.value + 1..end.value];
      assert Arguments(input) == Some(args);
      var tokens := Split(args, ',');
      PiecesNoLonger(args, ',');
      if tokens == [] {
        return Err(Undefined("tokens[0] of an empty vector"));
      }
      var first := EvaluateExpression(tokens[0]);
      if first.Err? {
        return Err(first.error);
      }
      var result := first.value;
      for i := 1 to |tokens|
        invariant Fold(Trigonometric(sin, cos, tan), context.variables, tokens[i..], op, result)
          == Fold(Trigonometric(sin, cos, tan), context.variables, tokens[1..], op, first.value)
      {
        assert tokens[i..][0] == tokens[i] && tokens[i..][1..] == tokens[i + 1..];
        var value := EvaluateExpression(tokens[i]);
        if value.Err? {
          return Err(value.error);
        }
        var next := LetsTry.Accumulated(op, result, value.value);
        if next.Err? {
          return Err(next.error);
        }
        result := next.value;
      }
      assert tokens[|tokens|..] == [];
      r := Ok(result);
    }

    /** The `evaluateTrigFunction` member. */
    method EvaluateTrigFunction(input: string, func: string) returns (r: Result<real>)
      ensures r == TrigCall(Trigonometric(sin, cos, tan), context.variables, input, func)
      decreases |input|, 1, 0
    {
      var start := Find(input, '(');
      var end := Find(input, ')');
      if start.None? || end.None? || start.value >= end.value {
        return Err(Runtime(InvalidFunctionSyntax));
      }
      var arg := input[start.value + 1..end.value];
      var value := EvaluateExpression(arg);
      if value.Err? {
        return Err(value.error);
      }
      var radians := Product(value.value, Pi) / 180.0;
      if func == "sin" {
        return Ok(sin(radians));
      }
      if func == "cos" {
        return Ok(cos(radians));
      }
      if func == "tan" {
        return Ok(tan(radians));
      }
      r := Err(Runtime(UnknownFunction + func));
    }
  }
}

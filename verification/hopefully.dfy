/** The calculator with variables: a line is a comma-separated list of
    segments; `name = expr` segments store values in the context, and the
    first segment that is not an assignment gives the result. Expressions
    are tokenized, built into a tree by the shunting-yard loop, and the tree
    is evaluated against the context's variables. */
module Hopefully {
  import opened Outcomes
  import opened Text
  import opened ShuntingYard
  import opened ExpressionTree
  import opened TreeBuilder
  import opened Numbers

  /** The `Context`: the variables, by name. */
  class Context {
    var variables: map<string, real>

    constructor ()
      ensures variables == map[]
    {
      variables := map[];
    }
  }

  /** The value of an expression text: tokenize, build the tree, evaluate
      it against the variables. */
  function Value(text: string, variables: map<string, real>): Result<real>
  {
    match Evaluate(TreeConfig(), Items(WithVariables, Lex(WithVariables, text)))
    case Err(e) => Err(e)
    case Ok(tree) => ExpressionTree.Interpret(tree, variables)
  }

  /** The result of the segments, in order, from the variables `variables`,
      and the variables afterwards. An assignment that fails ends the line;
      the assignments before it stay made. */
  function Segments(pieces: seq<string>, variables: map<string, real>): (Result<real>, map<string, real>)
  {
    if pieces == [] then (Ok(0.0), variables)
    else
      var eqPos := Find(pieces[0], '=');
      if eqPos.None? then (Value(pieces[0], variables), variables)
      else
        var outcome := Value(Trim(pieces[0][eqPos.value + 1..]), variables);
        if outcome.Err? then (outcome, variables)
        else Segments(pieces[1..], variables[Trim(pieces[0][..eqPos.value]) := outcome.value])
  }

  class Interpreter {
    const context: Context

    constructor (context: Context)
      ensures this.context == context
    {
      this.context := context;
    }

    /** The `interpret` member: `std::getline` over ',' yields the
        segments; each is an assignment or the expression whose value is
        returned. */
    method Interpret(input: string) returns (r: Result<real>)
      modifies context
      ensures (r, context.variables) == Segments(Fields(input, ','), old(context.variables))
    {
      var pieces := Fields(input, ',');
      for i := 0 to |pieces|
        invariant Segments(pieces[i..], context.variables) == Segments(pieces, old(context.variables))
      {
        var token := pieces[i];
        assert pieces[i..][0] == token && pieces[i..][1..] == pieces[i + 1..];
        var eqPos := Find(token, '=');
        if eqPos.Some? {
          var name := Trim(token[..eqPos.value]);
          var expr := Trim(token[eqPos.value + 1..]);
          var tokens := Tokenize(WithVariables, expr);
          var tree := BuildExpressionTree(WithVariables, tokens);
          if tree.Err? {
            return Err(tree.error);
          }
          var value := ExpressionTree.Interpret(tree.value, context.variables);
          if value.Err? {
            return Err(value.error);
          }
          context.variables := context.variables[name := value.value];
        } else {
          var tokens := Tokenize(WithVariables, token);
          var tree := BuildExpressionTree(WithVariables, tokens);
          if tree.Err? {
            return Err(tree.error);
          }
          r := ExpressionTree.Interpret(tree.value, context.variables);
          return;
        }
      }
      assert pieces[|pieces|..] == [];
      r := Ok(0.0);
    }
  }

  /** Evaluating a line never removes a variable: every name defined
      before is defined after. */
  lemma {:induction false} SegmentsKeepNames(pieces: seq<string>, variables: map<string, real>)
    ensures variables.Keys <= Segments(pieces, variables).1.Keys
  {
    if pieces != [] && Find(pieces[0], '=').Some? {
      var k := Find(pieces[0], '=').value;
      var outcome := Value(Trim(pieces[0][k + 1..]), variables);
      if outcome.Ok? {
        SegmentsKeepNames(pieces[1..], variables[Trim(pieces[0][..k]) := outcome.value]);
      }
    }
  }

  /** A name with no blank at either end: trimming it changes nothing. */
  predicate Trimmed(name: string)
  {
    Trim(name) == name
  }

  /** Every name a line adds is trimmed: it neither starts nor ends with a
      blank, and trimming it again changes nothing. */
  lemma {:induction false} SegmentsStoreTrimmedNames(pieces: seq<string>, variables: map<string, real>)
    ensures forall x :: x in Segments(pieces, variables).1 && x !in variables ==> Trimmed(x)
  {
    if pieces != [] && Find(pieces[0], '=').Some? {
      var k := Find(pieces[0], '=').value;
      var name := Trim(pieces[0][..k]);
      var outcome := Value(Trim(pieces[0][k + 1..]), variables);
      if outcome.Ok? {
        var stored := variables[name := outcome.value];
        assert Segments(pieces, variables) == Segments(pieces[1..], stored);
        SegmentsStoreTrimmedNames(pieces[1..], stored);
        TrimIdempotent(pieces[0][..k]);
        assert Trimmed(name);
        forall x | x in Segments(pieces, variables).1 && x !in variables
          ensures Trimmed(x)
        {
          if x != name {
            assert x !in stored;
          }
        }
      }
    }
  }

  /** A line whose segments are all assignments returns 0, once all of them
      succeed. */
  lemma {:induction false} AssignmentsOnlyGiveZero(pieces: seq<string>, variables: map<string, real>)
    requires forall i :: 0 <= i < |pieces| ==> Find(pieces[i], '=').Some?
    ensures Segments(pieces, variables).0.Ok? ==> Segments(pieces, variables).0 == Ok(0.0)
  {
    if pieces != [] {
      var k := Find(pieces[0], '=').value;
      match Value(Trim(pieces[0][k + 1..]), variables)
      case Err(_) =>
      case Ok(v) => AssignmentsOnlyGiveZero(pieces[1..], variables[Trim(pieces[0][..k]) := v]);
    }
  }

  /** The first segment that is not an assignment ends the line: what
      follows it is never looked at. */
  lemma {:induction false} SegmentsAfterResultIgnored(pieces: seq<string>, more: seq<string>, variables: map<string, real>)
    requires exists i :: 0 <= i < |pieces| && Find(pieces[i], '=').None?
    ensures Segments(pieces + more, variables) == Segments(pieces, variables)
  {
    var p, rest := pieces[0], pieces[1..];
    assert pieces == [p] + rest;
    assert pieces + more == [p] + (rest + more);
    match Find(p, '=')
    case None =>
      ExpressionStep(p, rest, variables);
      ExpressionStep(p, rest + more, variables);
    case Some(k) =>
      match Value(Trim(p[k + 1..]), variables)
      case Err(_) =>
        FailedAssignmentStep(p, rest, variables, k);
        FailedAssignmentStep(p, rest + more, variables, k);
      case Ok(v) =>
        var i :| 0 <= i < |pieces| && Find(pieces[i], '=').None?;
        assert rest[i - 1] == pieces[i];
        AssignmentStep(p, rest, variables, k, v);
        AssignmentStep(p, rest + more, variables, k, v);
        SegmentsAfterResultIgnored(rest, more, variables[Trim(p[..k]) := v]);
  }

  /** The only errors of an expression are an unparsable number
      (`std::stod`'s invalid_argument), a variable the context does not
      hold, a division by zero, and the undefined behaviour of an
      unbalanced expression. */
  lemma ValueErrors(text: string, variables: map<string, real>)
    ensures var r := Value(text, variables);
      r.Err? ==> r.error == InvalidArgument("stod") || r.error == Runtime(DivisionByZero) || r.error.Undefined?
                 || exists name :: name !in variables && r.error == Runtime(UndefinedVariable + name)
  {
    var items := Items(WithVariables, Lex(WithVariables, text));
    var never := (e: Error) => false;
    assert CombineErrors(TreeConfig(), never) by {
      forall op, a, b | op in Precedence
        ensures Node(op, a, b).Ok?
      {
      }
    }
    RunErrors(TreeConfig(), never, Stacks([], []), items);
    var t := Evaluate(TreeConfig(), items);
    if t.Err? && Reject(t.error) in items {
      var i :| 0 <= i < |items| && items[i] == Reject(t.error);
      assert Classify(WithVariables, Lex(WithVariables, text)[i]).Reject?;
    }
    if t.Ok? {
      InterpretErrors(t.value, variables);
    }
  }

  /** A number followed by letters is one token, and std::stod reads only
      its digits: `2x` is 2 whatever `x` holds. */
  lemma NumberSwallowsLetters(variables: map<string, real>)
    ensures Value("2x", variables) == Ok(2.0)
  {
    var s := "2x";
    assert AllInRun(WithVariables, s);
    LexRun(WithVariables, s, "");
    assert s + "" == s && [s] + [] == [s];
    assert Lex(WithVariables, s) == [s];
    StodDigitLetter('2', 'x');
    assert DigitValue('2') == 2;
    assert Classify(WithVariables, s) == Operand(Number(2.0));
    assert Items(WithVariables, [s]) == [Operand(Number(2.0))];
    SingleOperand(Number(2.0));
  }

  /** An assignment is not undone by a later failure on the same line:
      `x=2,y` without `y` defined reports the undefined variable and leaves
      x stored as 2. */
  lemma EarlierAssignmentsStay()
    ensures Segments(Fields("x=2,y", ','), map[]) == (Err(Runtime(UndefinedVariable + "y")), map["x" := 2.0])
  {
    FieldsOfExample();
    FindFirst("x=2", '=', 1);
    assert "x=2"[..1] == "x" && "x=2"[2..] == "2";
    TrimUnchanged("x");
    TrimUnchanged("2");
    ValueOfDigit();
    AssignmentStep("x=2", ["y"], map[], 1, 2.0);
    assert ["x=2"] + ["y"] == ["x=2", "y"];
    FindNone("y", '=');
    ValueOfUnknown();
    ExpressionStep("y", [], map["x" := 2.0]);
    assert ["y"] + [] == ["y"];
  }

  lemma AssignmentStep(piece: string, rest: seq<string>, variables: map<string, real>, k: nat, v: real)
    requires Find(piece, '=') == Some(k) && Value(Trim(piece[k + 1..]), variables) == Ok(v)
    ensures Segments([piece] + rest, variables) == Segments(rest, variables[Trim(piece[..k]) := v])
  {
    assert ([piece] + rest)[0] == piece && ([piece] + rest)[1..] == rest;
  }

  lemma FailedAssignmentStep(piece: string, rest: seq<string>, variables: map<string, real>, k: nat)
    requires Find(piece, '=') == Some(k) && Value(Trim(piece[k + 1..]), variables).Err?
    ensures Segments([piece] + rest, variables) == (Value(Trim(piece[k + 1..]), variables), variables)
  {
    assert ([piece] + rest)[0] == piece;
  }

  lemma ExpressionStep(piece: string, rest: seq<string>, variables: map<string, real>)
    requires Find(piece, '=') == None
    ensures Segments([piece] + rest, variables) == (Value(piece, variables), variables)
  {
    assert ([piece] + rest)[0] == piece;
  }

  lemma FieldsOfExample()
    ensures Fields("x=2,y", ',') == ["x=2", "y"]
  {
    var s := "x=2,y";
    FindFirst(s, ',', 3);
    assert s[..3] == "x=2" && s[4..] == "y";
    FindNone("y", ',');
  }

  lemma ValueOfDigit()
    ensures Value("2", map[]) == Ok(2.0)
  {
    LexDigit(WithVariables, '2');
    ClassifyDigit(WithVariables, '2');
    assert Items(WithVariables, ["2"]) == [Operand(Number(2.0))];
    SingleOperand(Number(2.0));
  }

  lemma ValueOfUnknown()
    ensures Value("y", map["x" := 2.0]) == Err(Runtime(UndefinedVariable + "y"))
  {
    LexLetter('y');
    ClassifyLetter('y');
    assert Items(WithVariables, ["y"]) == [Operand(Variable("y"))];
    SingleOperand(Variable("y"));
    assert "y" !in map["x" := 2.0];
  }

  lemma ClassifyLetter(c: char)
    requires IsAlpha(c)
    ensures Classify(WithVariables, [c]) == Operand(Variable([c]))
  {
    FindNone([c], '.');
  }

  lemma TrimUnchanged(s: string)
    requires |s| == 1 && s[0] != ' '
    ensures Trim(s) == s
  {
  }

  lemma LexLetter(c: char)
    requires IsAlpha(c)
    ensures Lex(WithVariables, [c]) == [[c]]
  {
    LexRun(WithVariables, [c], "");
    assert [c] + "" == [c];
  }

  lemma SingleOperand(e: Expr)
    ensures Evaluate(TreeConfig(), [Operand(e)]) == Ok(e)
  {
    var items := [Operand(e)];
    assert [] + [e] == [e];
    RunHead(TreeConfig(), Stacks([], []), items, Stacks([e], []));
    assert items[1..] == [];
  }
}

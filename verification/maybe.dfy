/** The numbers-only calculator: one expression per line, evaluated in a
    context that holds nothing. Its tokenizer keeps runs of digits and '.'
    and the six symbols and drops everything else, so no tree it builds has
    a variable leaf. */
module Maybe {
  import opened Outcomes
  import opened Text
  import opened ShuntingYard
  import opened ExpressionTree
  import opened TreeBuilder
  import Hopefully

  /** The value of a line: tokenize, build the tree, evaluate it. The
      context is empty, so the tree is evaluated against no variables. */
  function Value(input: string): Result<real>
  {
    match Evaluate(TreeConfig(), Items(NumbersOnly, Lex(NumbersOnly, input)))
    case Err(e) => Err(e)
    case Ok(tree) => ExpressionTree.Interpret(tree, map[])
  }

  /** The `interpret` member of the interpreter: it changes nothing, and
      returns the value of the line. */
  method Interpret(input: string) returns (r: Result<real>)
    ensures r == Value(input)
  {
    var tokens := Tokenize(NumbersOnly, input);
    var tree := BuildExpressionTree(NumbersOnly, tokens);
    if tree.Err? {
      return Err(tree.error);
    }
    r := ExpressionTree.Interpret(tree.value, map[]);
  }

  /** Every tree this calculator builds is free of variables. */
  lemma BuildsNoVariables(input: string)
    ensures var t := Evaluate(TreeConfig(), Items(NumbersOnly, Lex(NumbersOnly, input)));
      t.Ok? ==> Vars(t.value) == {}
  {
    var keep := (e: Expr) => Vars(e) == {};
    var items := Items(NumbersOnly, Lex(NumbersOnly, input));
    assert KeptBy(TreeConfig(), keep) by {
      forall op, a, b | keep(a) && keep(b) && Node(op, a, b).Ok?
        ensures keep(Node(op, a, b).value)
      {
      }
    }
    assert OperandsKept(keep, items) by {
      forall i | 0 <= i < |items| && items[i].Operand?
        ensures keep(items[i].value)
      {
      }
    }
    RunKeeps(TreeConfig(), keep, Stacks([], []), items);
  }

  /** The only errors of a line are an unparsable number (`std::stod`'s
      invalid_argument), a division by zero, and the undefined behaviour of
      an unbalanced line; "Undefined variable" never occurs. */
  lemma Errors(input: string)
    ensures var r := Value(input);
      r.Err? ==> r.error == InvalidArgument("stod") || r.error == Runtime(DivisionByZero) || r.error.Undefined?
  {
    var items := Items(NumbersOnly, Lex(NumbersOnly, input));
    var never := (e: Error) => false;
    assert CombineErrors(TreeConfig(), never) by {
      forall op, a, b | op in Precedence
        ensures Node(op, a, b).Ok?
      {
      }
    }
    RunErrors(TreeConfig(), never, Stacks([], []), items);
    var t := Evaluate(TreeConfig(), items);
    if t.Err? && Reject(t.error) in items {
      var i :| 0 <= i < |items| && items[i] == Reject(t.error);
      assert Classify(NumbersOnly, Lex(NumbersOnly, input)[i]).Reject?;
    }
    if t.Ok? {
      BuildsNoVariables(input);
      InterpretErrors(t.value, map[]);
    }
  }

  /** On a line without letters this calculator and the one with variables
      compute the same value, whatever variables the latter holds. */
  lemma AgreesWithVariablesCalculator(input: string, variables: map<string, real>)
    requires NoLetters(input)
    ensures Value(input) == Hopefully.Value(input, variables)
  {
    ItemsWithoutLetters(input);
    var t := Evaluate(TreeConfig(), Items(NumbersOnly, Lex(NumbersOnly, input)));
    if t.Ok? {
      BuildsNoVariables(input);
      InterpretReadsOnlyItsVariables(t.value, map[], variables);
    }
  }
}

/** The expression tree of the tree-building calculators: number and
    variable leaves and the four binary nodes, each node's `interpret`
    evaluating its children against the variable map of a context. */
module ExpressionTree {
  import opened Outcomes
  import opened Numbers

  datatype Expr =
    | Number(number: real)
    | Variable(name: string)
    | Addition(left: Expr, right: Expr)
    | Subtraction(left: Expr, right: Expr)
    | Multiplication(left: Expr, right: Expr)
    | Division(left: Expr, right: Expr)

  const UndefinedVariable := "Undefined variable: "
  const DivisionByZero := "Division by zero error"

  /** The names of the variable leaves of a tree. */
  function Vars(e: Expr): set<string>
  {
    match e
    case Number(_) => {}
    case Variable(name) => {name}
    case Addition(l, r) => Vars(l) + Vars(r)
    case Subtraction(l, r) => Vars(l) + Vars(r)
    case Multiplication(l, r) => Vars(l) + Vars(r)
    case Division(l, r) => Vars(l) + Vars(r)
  }

  /** Whether a tree has a division node. */
  predicate Divides(e: Expr)
  {
    match e
    case Number(_) => false
    case Variable(_) => false
    case Addition(l, r) => Divides(l) || Divides(r)
    case Subtraction(l, r) => Divides(l) || Divides(r)
    case Multiplication(l, r) => Divides(l) || Divides(r)
    case Division(_, _) => true
  }

  /** `Expression::interpret`. A variable leaf reads the map and throws for
      a name that is not in it; a binary node evaluates its left child, then
      its right child (the division node: its right child first, and it
      throws before evaluating the left child when that is 0). */
  function Interpret(e: Expr, variables: map<string, real>): (r: Result<real>)
    ensures r.Err? ==> r.error.Runtime?
  {
    match e
    case Number(v) => Ok(v)
    case Variable(name) =>
      if name in variables then Ok(variables[name]) else Err(Runtime(UndefinedVariable + name))
    case Addition(l, r) =>
      var a :- Interpret(l, variables);
      var b :- Interpret(r, variables);
      Ok(a + b)
    case Subtraction(l, r) =>
      var a :- Interpret(l, variables);
      var b :- Interpret(r, variables);
      Ok(a - b)
    case Multiplication(l, r) =>
      var a :- Interpret(l, variables);
      var b :- Interpret(r, variables);
      Ok(Product(a, b))
    case Division(l, r) =>
      var denominator :- Interpret(r, variables);
      if denominator == 0.0 then Err(Runtime(DivisionByZero))
      else
        var a :- Interpret(l, variables);
        Ok(Quotient(a, denominator))
  }

  /** Evaluation reads only the variables the tree names: two maps that
      agree on those give the same result. */
  lemma {:induction false} InterpretReadsOnlyItsVariables(e: Expr, m1: map<string, real>, m2: map<string, real>)
    requires forall x :: x in Vars(e) ==> (x in m1 <==> x in m2) && (x in m1 ==> m1[x] == m2[x])
    ensures Interpret(e, m1) == Interpret(e, m2)
  {
    match e
    case Number(_) =>
    case Variable(_) =>
    case Addition(l, r) =>
      InterpretReadsOnlyItsVariables(l, m1, m2);
      InterpretReadsOnlyItsVariables(r, m1, m2);
    case Subtraction(l, r) =>
      InterpretReadsOnlyItsVariables(l, m1, m2);
      InterpretReadsOnlyItsVariables(r, m1, m2);
    case Multiplication(l, r) =>
      InterpretReadsOnlyItsVariables(l, m1, m2);
      InterpretReadsOnlyItsVariables(r, m1, m2);
    case Division(l, r) =>
      InterpretReadsOnlyItsVariables(l, m1, m2);
      InterpretReadsOnlyItsVariables(r, m1, m2);
  }

  /** The only errors are an undefined variable of the tree and a zero
      divisor; a tree whose variables are all defined and that does not
      divide always has a value. */
  lemma {:induction false} InterpretErrors(e: Expr, variables: map<string, real>)
    ensures var r := Interpret(e, variables);
      r.Err? ==> (r.error == Runtime(DivisionByZero) && Divides(e))
                 || (exists x :: x in Vars(e) && x !in variables && r.error == Runtime(UndefinedVariable + x))
    ensures Vars(e) <= variables.Keys && !Divides(e) ==> Interpret(e, variables).Ok?
  {
    match e
    case Number(_) =>
    case Variable(_) =>
    case Addition(l, r) =>
      InterpretErrors(l, variables);
      InterpretErrors(r, variables);
    case Subtraction(l, r) =>
      InterpretErrors(l, variables);
      InterpretErrors(r, variables);
    case Multiplication(l, r) =>
      InterpretErrors(l, variables);
      InterpretErrors(r, variables);
    case Division(l, r) =>
      InterpretErrors(l, variables);
      InterpretErrors(r, variables);
  }

  /** A division node's divisor is evaluated before its dividend: when both
      fail, the divisor's error is the one reported, and a zero divisor is
      reported even when the dividend would fail. */
  lemma DivisorFirst(l: Expr, r: Expr, variables: map<string, real>)
    requires Interpret(r, variables).Err? || Interpret(r, variables) == Ok(0.0)
    ensures Interpret(Division(l, r), variables)
      == if Interpret(r, variables).Err? then Interpret(r, variables) else Err(Runtime(DivisionByZero))
  {
  }
}

/** The two-stack shunting-yard evaluation the calculators share, stated once
    for any kind of operand value: an operand stack, an operator stack of
    characters, a precedence table, and a `combine` step that the
    `applyOperator` of each version performs (building a tree node, or
    computing a number that may fail). The machine is checked against a
    reference precedence grammar: on every token sequence the grammar
    accepts, the machine yields the value of the grammar's tree. */
module ShuntingYard {
  import opened Outcomes

  /** A token as the evaluation loop classifies it. `Skip` is a token no
      branch of the loop handles; `Reject` is a token whose classification
      throws (an unparsable number, an unknown name). */
  datatype Item<T> =
    | Operand(value: T)
    | OpenParen
    | CloseParen
    | Operator(op: char)
    | Skip
    | Reject(error: Error)

  /** The operand stack and the operator stack; the top is the last element. */
  datatype Stacks<T> = Stacks(values: seq<T>, operators: seq<char>)

  /** The precedence map of an interpreter and what its applyOperator does
      with an operator character and the left and right operands. */
  datatype Config<!T> = Config(precedence: map<char, int>, combine: (char, T, T) -> Result<T>)

  function Last<U>(s: seq<U>): U
    requires |s| > 0
  {
    s[|s| - 1]
  }

  /** `precedence[c]` on a std::map: 0 for a character that is not in it. */
  function Prec<T>(cfg: Config<T>, c: char): int
  {
    if c in cfg.precedence then cfg.precedence[c] else 0
  }

  /** `applyOperator`: pop the operator, then the right and the left operand,
      and push what combining them gives. An operator outside the table
      (only '(' reaches here, in the final drain) falls through the switch:
      both operands are dropped and nothing is pushed. Fewer than two
      operands is a `top()` on an empty stack. */
  function Reduce<T>(cfg: Config<T>, s: Stacks<T>): (r: Result<Stacks<T>>)
    requires |s.operators| > 0
    ensures r.Err? && |s.values| < 2 ==> r.error.Undefined?
    ensures r.Ok? ==> |s.values| >= 2 && r.value.operators == s.operators[..|s.operators| - 1]
    ensures r.Ok? && Last(s.operators) in cfg.precedence ==>
      |r.value.values| == |s.values| - 1
      && r.value.values[..|r.value.values| - 1] == s.values[..|s.values| - 2]
      && cfg.combine(Last(s.operators), s.values[|s.values| - 2], Last(s.values)) == Ok(Last(r.value.values))
    ensures r.Ok? && Last(s.operators) !in cfg.precedence ==> r.value.values == s.values[..|s.values| - 2]
    ensures r.Err? && |s.values| >= 2 ==>
      Last(s.operators) in cfg.precedence
      && cfg.combine(Last(s.operators), s.values[|s.values| - 2], Last(s.values)) == Err(r.error)
  {
    var op := Last(s.operators);
    var ops := s.operators[..|s.operators| - 1];
    if |s.values| < 2 then Err(Undefined("top() of an empty operand stack"))
    else
      var right := s.values[|s.values| - 1];
      var left := s.values[|s.values| - 2];
      var rest := s.values[..|s.values| - 2];
      if op in cfg.precedence then
        match cfg.combine(op, left, right)
        case Ok(v) => assert (rest + [v])[..|rest|] == rest; Ok(Stacks(rest + [v], ops))
        case Err(e) => Err(e)
      else Ok(Stacks(rest, ops))
  }

  /** How far a run of reductions goes: down to the nearest '(' (a ')'
      token), while the pending operator binds at least as tightly as an
      incoming one, or everything (end of input). */
  datatype Until = ToParen | WhileAtLeast(level: int) | Everything

  /** The `while (...) applyOperator(values, operators);` loops. */
  function Drain<T>(cfg: Config<T>, s: Stacks<T>, until: Until): (r: Result<Stacks<T>>)
    ensures r.Ok? ==> |r.value.operators| <= |s.operators|
    ensures r.Ok? && until.Everything? ==> r.value.operators == []
    ensures r.Ok? && !until.Everything? && r.value.operators != [] ==>
      (Last(r.value.operators) == '(' || (until.WhileAtLeast? && Prec(cfg, Last(r.value.operators)) < until.level))
    decreases |s.operators|
  {
    if s.operators == [] then Ok(s)
    else if !until.Everything? && Last(s.operators) == '(' then Ok(s)
    else if until.WhileAtLeast? && Prec(cfg, Last(s.operators)) < until.level then Ok(s)
    else match Reduce(cfg, s)
      case Err(e) => Err(e)
      case Ok(t) => Drain(cfg, t, until)
  }

  /** The effect of one token on the stacks. */
  function Step<T>(cfg: Config<T>, s: Stacks<T>, item: Item<T>): Result<Stacks<T>>
  {
    match item
    case Operand(v) => Ok(Stacks(s.values + [v], s.operators))
    case OpenParen => Ok(Stacks(s.values, s.operators + ['(']))
    case CloseParen =>
      (match Drain(cfg, s, ToParen)
       case Err(e) => Err(e)
       case Ok(t) =>
         if t.operators == [] then Err(Undefined("pop() of an empty operator stack"))
         else Ok(Stacks(t.values, t.operators[..|t.operators| - 1])))
    case Operator(op) =>
      (match Drain(cfg, s, WhileAtLeast(Prec(cfg, op)))
       case Err(e) => Err(e)
       case Ok(t) => Ok(Stacks(t.values, t.operators + [op])))
    case Skip => Ok(s)
    case Reject(e) => Err(e)
  }

  /** The rest of the evaluation loop from stacks `s`: every remaining
      token in turn, then every pending operator, then the top operand. */
  function Run<T>(cfg: Config<T>, s: Stacks<T>, items: seq<Item<T>>): Result<T>
    decreases |items|
  {
    if items == [] then
      match Drain(cfg, s, Everything)
      case Err(e) => Err(e)
      case Ok(t) => if t.values == [] then Err(Undefined("top() of an empty operand stack")) else Ok(Last(t.values))
    else
      match Step(cfg, s, items[0])
      case Err(e) => Err(e)
      case Ok(t) => Run(cfg, t, items[1..])
  }

  /** The whole evaluation, from empty stacks. */
  function Evaluate<T>(cfg: Config<T>, items: seq<Item<T>>): Result<T>
  {
    Run(cfg, Stacks([], []), items)
  }

  /** A ')' removes exactly one '(': the nearest one, after the operators
      above it have been reduced; the operators below it are untouched. */
  lemma {:induction false} CloseRemovesOneParen<T>(cfg: Config<T>, s: Stacks<T>, k: nat)
    requires k < |s.operators| && s.operators[k] == '('
    requires forall j :: k < j < |s.operators| ==> s.operators[j] != '('
    ensures var r := Step(cfg, s, CloseParen);
      r.Ok? ==> r.value.operators == s.operators[..k]
    decreases |s.operators|
  {
    if k < |s.operators| - 1 {
      match Reduce(cfg, s)
      case Err(_) =>
      case Ok(t) =>
        assert t.operators[k] == '(';
        CloseRemovesOneParen(cfg, t, k);
    }
  }

  /** A ')' with no '(' below it reduces every pending operator and then
      is a pop() of an empty operator stack, unless a reduction fails
      first, with its own error. */
  lemma {:induction false} UnmatchedCloseFails<T>(cfg: Config<T>, s: Stacks<T>)
    requires forall j :: 0 <= j < |s.operators| ==> s.operators[j] != '('
    ensures Step(cfg, s, CloseParen).Err?
    ensures var drained := Drain(cfg, s, ToParen);
      && (drained.Ok? ==> Step(cfg, s, CloseParen) == Err(Undefined("pop() of an empty operator stack")))
      && (drained.Err? ==> Step(cfg, s, CloseParen) == Err(drained.error))
    decreases |s.operators|
  {
    if s.operators != [] {
      match Reduce(cfg, s)
      case Err(_) =>
      case Ok(t) => UnmatchedCloseFails(cfg, t);
    }
  }

  // ---------------------------------------------------------------------
  // The reference grammar.
  //
  //   expr   := term   { op1 term }      op1: an operator of precedence 1
  //   term   := factor { op2 factor }    op2: an operator of precedence 2
  //   factor := operand | '(' expr ')'
  //
  // Operators of one level associate to the left.
  // ---------------------------------------------------------------------

  datatype Syntax<T> = Atom(value: T) | Apply(op: char, left: Syntax<T>, right: Syntax<T>)

  /** A tree's value: left operand, then right operand, then the operator. */
  function EvalSyntax<T>(cfg: Config<T>, t: Syntax<T>): Result<T>
  {
    match t
    case Atom(v) => Ok(v)
    case Apply(op, l, r) =>
      match EvalSyntax(cfg, l)
      case Err(e) => Err(e)
      case Ok(lv) =>
        match EvalSyntax(cfg, r)
        case Err(e) => Err(e)
        case Ok(rv) => cfg.combine(op, lv, rv)
  }

  /** Every operator of the tree is in the precedence map. */
  predicate OperatorsIn<T>(cfg: Config<T>, t: Syntax<T>)
  {
    match t
    case Atom(_) => true
    case Apply(op, l, r) => op in cfg.precedence && OperatorsIn(cfg, l) && OperatorsIn(cfg, r)
  }

  predicate IsLevel<T>(cfg: Config<T>, item: Item<T>, level: int)
  {
    item.Operator? && Prec(cfg, item.op) == level
  }

  function ParseExpr<T>(cfg: Config<T>, items: seq<Item<T>>): (r: Option<(Syntax<T>, seq<Item<T>>)>)
    ensures r.Some? ==> |r.value.1| < |items|
    ensures r.Some? ==> OperatorsIn(cfg, r.value.0)
    decreases |items|, 3
  {
    match ParseTerm(cfg, items)
    case None => None
    case Some((t, rest)) => ParseExprTail(cfg, t, rest)
  }

  function ParseExprTail<T>(cfg: Config<T>, acc: Syntax<T>, items: seq<Item<T>>): (r: Option<(Syntax<T>, seq<Item<T>>)>)
    ensures r.Some? ==> |r.value.1| <= |items|
    ensures r.Some? && OperatorsIn(cfg, acc) ==> OperatorsIn(cfg, r.value.0)
    decreases |items|, 2
  {
    if items != [] && IsLevel(cfg, items[0], 1) then
      match ParseTerm(cfg, items[1..])
      case None => None
      case Some((t, rest)) => ParseExprTail(cfg, Apply(items[0].op, acc, t), rest)
    else Some((acc, items))
  }

  function ParseTerm<T>(cfg: Config<T>, items: seq<Item<T>>): (r: Option<(Syntax<T>, seq<Item<T>>)>)
    ensures r.Some? ==> |r.value.1| < |items|
    ensures r.Some? ==> OperatorsIn(cfg, r.value.0)
    decreases |items|, 2
  {
    match ParseFactor(cfg, items)
    case None => None
    case Some((f, rest)) => ParseTermTail(cfg, f, rest)
  }

  function ParseTermTail<T>(cfg: Config<T>, acc: Syntax<T>, items: seq<Item<T>>): (r: Option<(Syntax<T>, seq<Item<T>>)>)
    ensures r.Some? ==> |r.value.1| <= |items|
    ensures r.Some? && OperatorsIn(cfg, acc) ==> OperatorsIn(cfg, r.value.0)
    decreases |items|, 1
  {
    if items != [] && IsLevel(cfg, items[0], 2) then
      match ParseFactor(cfg, items[1..])
      case None => None
      case Some((f, rest)) => ParseTermTail(cfg, Apply(items[0].op, acc, f), rest)
    else Some((acc, items))
  }

  function ParseFactor<T>(cfg: Config<T>, items: seq<Item<T>>): (r: Option<(Syntax<T>, seq<Item<T>>)>)
    ensures r.Some? ==> |r.value.1| < |items|
    ensures r.Some? ==> OperatorsIn(cfg, r.value.0)
    decreases |items|, 0
  {
    if items == [] then None
    else match items[0]
      case Operand(v) => Some((Atom(v), items[1..]))
      case OpenParen =>
        (match ParseExpr(cfg, items[1..])
         case Some((e, rest)) =>
           if rest != [] && rest[0].CloseParen? then Some((e, rest[1..])) else None
         case None => None)
      case _ => None
  }

  /** The machine agrees with the grammar: for every token sequence that
      is one complete expression, evaluation yields the tree's value, or
      the first error met evaluating it left to right. */
  lemma EvaluateAgreesWithGrammar<T>(cfg: Config<T>, items: seq<Item<T>>)
    requires '(' !in cfg.precedence
    requires ParseExpr(cfg, items).Some? && ParseExpr(cfg, items).value.1 == []
    ensures Evaluate(cfg, items) == EvalSyntax(cfg, ParseExpr(cfg, items).value.0)
  {
    ExprRun(cfg, Stacks([], []), items);
  }

  function Push<T>(s: Stacks<T>, v: T): Stacks<T>
  {
    Stacks(s.values + [v], s.operators)
  }

  /** Running on from the value of a subtree: an error, or the value pushed. */
  function Continue<T>(cfg: Config<T>, s: Stacks<T>, v: Result<T>, rest: seq<Item<T>>): Result<T>
  {
    match v
    case Err(e) => Err(e)
    case Ok(x) => Run(cfg, Push(s, x), rest)
  }

  /** What may follow an expression: the end, or ')'. */
  predicate EndsExpr<T>(rest: seq<Item<T>>)
  {
    rest == [] || rest[0].CloseParen?
  }

  /** What may follow a term: the end, ')' or an operator of precedence 1. */
  predicate EndsTerm<T>(cfg: Config<T>, rest: seq<Item<T>>)
  {
    EndsExpr(rest) || IsLevel(cfg, rest[0], 1)
  }

  /** No pending operator that an operator of precedence 1 would reduce. */
  predicate Open<T>(s: Stacks<T>)
  {
    s.operators == [] || Last(s.operators) == '('
  }

  /** No pending operator that an operator of precedence 2 would reduce. */
  predicate OpenToTerm<T>(cfg: Config<T>, s: Stacks<T>)
  {
    Open(s) || Prec(cfg, Last(s.operators)) < 2
  }

  /** One step of the loop, when its outcome is known. */
  lemma RunHead<T>(cfg: Config<T>, s: Stacks<T>, items: seq<Item<T>>, t: Stacks<T>)
    requires items != [] && Step(cfg, s, items[0]) == Ok(t)
    ensures Run(cfg, s, items) == Run(cfg, t, items[1..])
  {
  }

  /** Running on from stacks that may not have been reached. */
  function RunFrom<T>(cfg: Config<T>, s: Result<Stacks<T>>, items: seq<Item<T>>): Result<T>
  {
    match s
    case Err(e) => Err(e)
    case Ok(t) => Run(cfg, t, items)
  }

  /** A pending operator is reduced before the end, a ')' or an operator
      that binds no more tightly. */
  lemma ReducePending<T>(cfg: Config<T>, s: Stacks<T>, items: seq<Item<T>>)
    requires s.operators != [] && Last(s.operators) != '('
    requires items == [] || items[0].CloseParen?
      || (items[0].Operator? && Prec(cfg, items[0].op) <= Prec(cfg, Last(s.operators)))
    ensures Run(cfg, s, items) == RunFrom(cfg, Reduce(cfg, s), items)
  {
    if items == [] {
      DrainReduces(cfg, s, Everything);
    } else if items[0].CloseParen? {
      DrainReduces(cfg, s, ToParen);
    } else {
      DrainReduces(cfg, s, WhileAtLeast(Prec(cfg, items[0].op)));
    }
  }

  /** A drain that does not stop at once starts by reducing the top operator. */
  lemma DrainReduces<T>(cfg: Config<T>, s: Stacks<T>, until: Until)
    requires s.operators != [] && Last(s.operators) != '('
    requires until.WhileAtLeast? ==> until.level <= Prec(cfg, Last(s.operators))
    ensures Reduce(cfg, s).Err? ==> Drain(cfg, s, until) == Err(Reduce(cfg, s).error)
    ensures Reduce(cfg, s).Ok? ==> Drain(cfg, s, until) == Drain(cfg, Reduce(cfg, s).value, until)
  {
  }

  /** The pending operator over two operands is reduced before what ends
      its operand: the run goes on from the combined value. */
  lemma RunAfterReduce<T>(cfg: Config<T>, s: Stacks<T>, v: T, w: T, op: char, items: seq<Item<T>>)
    requires op in cfg.precedence && op != '('
    requires items == [] || items[0].CloseParen?
      || (items[0].Operator? && Prec(cfg, items[0].op) <= Prec(cfg, op))
    ensures Run(cfg, Stacks(s.values + [v, w], s.operators + [op]), items)
      == Continue(cfg, s, cfg.combine(op, v, w), items)
  {
    var both := Stacks(s.values + [v, w], s.operators + [op]);
    ReducePending(cfg, both, items);
    ReduceTwo(cfg, s, v, w, op);
  }

  /** Reducing an operator of the table over two pushed operands. */
  lemma ReduceTwo<T>(cfg: Config<T>, s: Stacks<T>, a: T, b: T, op: char)
    requires op in cfg.precedence
    ensures Reduce(cfg, Stacks(s.values + [a, b], s.operators + [op]))
      == (if cfg.combine(op, a, b).Err? then Err(cfg.combine(op, a, b).error) else Ok(Push(s, cfg.combine(op, a, b).value)))
  {
    var vs := s.values + [a, b];
    assert vs[..|vs| - 2] == s.values;
    assert (s.operators + [op])[..|s.operators|] == s.operators;
  }

  lemma {:induction false} FactorRun<T>(cfg: Config<T>, s: Stacks<T>, items: seq<Item<T>>)
    requires '(' !in cfg.precedence
    requires ParseFactor(cfg, items).Some?
    ensures var p := ParseFactor(cfg, items).value;
      Run(cfg, s, items) == Continue(cfg, s, EvalSyntax(cfg, p.0), p.1)
    decreases |items|, 0
  {
    if items[0].OpenParen? {
      var inner := Stacks(s.values, s.operators + ['(']);
      var (e, rest) := ParseExpr(cfg, items[1..]).value;
      ExprRun(cfg, inner, items[1..]);
      match EvalSyntax(cfg, e)
      case Err(_) =>
      case Ok(v) =>
        var t := Push(inner, v);
        assert Step(cfg, t, CloseParen) == Ok(Push(s, v)) by {
          assert t.operators[..|s.operators|] == s.operators;
        }
    }
  }

  lemma {:induction false} TermRun<T>(cfg: Config<T>, s: Stacks<T>, items: seq<Item<T>>)
    requires '(' !in cfg.precedence
    requires OpenToTerm(cfg, s)
    requires ParseTerm(cfg, items).Some? && EndsTerm(cfg, ParseTerm(cfg, items).value.1)
    ensures var p := ParseTerm(cfg, items).value;
      Run(cfg, s, items) == Continue(cfg, s, EvalSyntax(cfg, p.0), p.1)
    decreases |items|, 2
  {
    var (f, rest) := ParseFactor(cfg, items).value;
    FactorRun(cfg, s, items);
    match EvalSyntax(cfg, f)
    case Err(e) => TermTailFails(cfg, f, rest, e);
    case Ok(v) => TermTailRun(cfg, s, f, v, rest);
  }

  lemma {:induction false} TermTailRun<T>(cfg: Config<T>, s: Stacks<T>, acc: Syntax<T>, v: T, items: seq<Item<T>>)
    requires '(' !in cfg.precedence
    requires OpenToTerm(cfg, s) && EvalSyntax(cfg, acc) == Ok(v)
    requires ParseTermTail(cfg, acc, items).Some? && EndsTerm(cfg, ParseTermTail(cfg, acc, items).value.1)
    ensures var p := ParseTermTail(cfg, acc, items).value;
      Run(cfg, Push(s, v), items) == Continue(cfg, s, EvalSyntax(cfg, p.0), p.1)
    decreases |items|, 1
  {
    if items != [] && IsLevel(cfg, items[0], 2) {
      var op := items[0].op;
      PushOperator(cfg, s, v, items);
      var (f, rest) := ParseFactor(cfg, items[1..]).value;
      FactorRun(cfg, Stacks(s.values + [v], s.operators + [op]), items[1..]);
      TermTailAfter(cfg, s, acc, v, op, f, rest);
    }
  }

  /** The rest of a term tail once the factor after an operator is parsed. */
  lemma {:induction false} TermTailAfter<T>(cfg: Config<T>, s: Stacks<T>, acc: Syntax<T>, v: T, op: char, f: Syntax<T>, rest: seq<Item<T>>)
    requires '(' !in cfg.precedence
    requires OpenToTerm(cfg, s) && EvalSyntax(cfg, acc) == Ok(v) && Prec(cfg, op) == 2
    requires ParseTermTail(cfg, Apply(op, acc, f), rest).Some?
    requires EndsTerm(cfg, ParseTermTail(cfg, Apply(op, acc, f), rest).value.1)
    ensures var p := ParseTermTail(cfg, Apply(op, acc, f), rest).value;
      Continue(cfg, Stacks(s.values + [v], s.operators + [op]), EvalSyntax(cfg, f), rest)
        == Continue(cfg, s, EvalSyntax(cfg, p.0), p.1)
    decreases |rest|, 2
  {
    match EvalSyntax(cfg, f)
    case Err(e) =>
      TermTailFails(cfg, Apply(op, acc, f), rest, e);
    case Ok(w) =>
      assert Push(Stacks(s.values + [v], s.operators + [op]), w) == Stacks(s.values + [v, w], s.operators + [op]);
      TermTailEnds(cfg, Apply(op, acc, f), rest);
      RunAfterReduce(cfg, s, v, w, op, rest);
      match cfg.combine(op, v, w)
      case Err(e) =>
        TermTailFails(cfg, Apply(op, acc, f), rest, e);
      case Ok(x) =>
        TermTailRun(cfg, s, Apply(op, acc, f), x, rest);
  }

  /** What stops a term tail may come after a factor of precedence 2. */
  lemma {:induction false} TermTailEnds<T>(cfg: Config<T>, acc: Syntax<T>, items: seq<Item<T>>)
    requires ParseTermTail(cfg, acc, items).Some? && EndsTerm(cfg, ParseTermTail(cfg, acc, items).value.1)
    ensures items == [] || items[0].CloseParen? || (items[0].Operator? && Prec(cfg, items[0].op) <= 2)
  {
  }

  /** An operand is pushed. */
  lemma RunOperand<T>(cfg: Config<T>, s: Stacks<T>, v: T, rest: seq<Item<T>>)
    ensures Run(cfg, s, [Operand(v)] + rest) == Run(cfg, Push(s, v), rest)
  {
    assert ([Operand(v)] + rest)[1..] == rest;
  }

  /** An operator that binds more tightly than the pending one is pushed. */
  lemma RunOperator<T>(cfg: Config<T>, s: Stacks<T>, op: char, rest: seq<Item<T>>)
    requires Open(s) || Prec(cfg, Last(s.operators)) < Prec(cfg, op)
    ensures Run(cfg, s, [Operator(op)] + rest) == Run(cfg, Stacks(s.values, s.operators + [op]), rest)
  {
    assert ([Operator(op)] + rest)[1..] == rest;
  }

  /** With no operator pending, the end of the input yields the top operand. */
  lemma RunEnd<T>(cfg: Config<T>, v: T)
    ensures Run(cfg, Stacks([v], []), []) == Ok(v)
  {
  }

  /** `a p b q c` with q binding no more tightly than p: `(a p b) q c`. */
  lemma RunGroupsLeft<T>(cfg: Config<T>, a: T, b: T, c: T, p: char, q: char, ab: T, abc: T)
    requires p in cfg.precedence && p != '(' && q in cfg.precedence && q != '('
    requires Prec(cfg, q) <= Prec(cfg, p)
    requires cfg.combine(p, a, b) == Ok(ab) && cfg.combine(q, ab, c) == Ok(abc)
    ensures Evaluate(cfg, [Operand(a), Operator(p), Operand(b), Operator(q), Operand(c)]) == Ok(abc)
  {
    var none: Stacks<T> := Stacks([], []);
    var r4: seq<Item<T>> := [Operand(c)];
    var r3 := [Operator(q)] + r4;
    RunFirstPair(cfg, a, p, b, r3);
    assert Run(cfg, Stacks([a, b], [p]), r3) == Run(cfg, Stacks([ab], []), r3) by {
      assert Stacks([a, b], [p]) == Stacks(none.values + [a, b], none.operators + [p]);
      RunAfterReduce(cfg, none, a, b, p, r3);
      assert Push(none, ab) == Stacks([ab], []);
    }
    RunFirstPair(cfg, ab, q, c, []);
    assert Run(cfg, Stacks([ab, c], [q]), []) == Ok(abc) by {
      assert Stacks([ab, c], [q]) == Stacks(none.values + [ab, c], none.operators + [q]);
      RunAfterReduce(cfg, none, ab, c, q, []);
      assert Push(none, abc) == Stacks([abc], []);
      RunEnd(cfg, abc);
    }
    assert [Operand(a), Operator(p), Operand(b)] + r3 == [Operand(a), Operator(p), Operand(b), Operator(q), Operand(c)];
    assert [Operand(ab), Operator(q), Operand(c)] + [] == [Operand(ab)] + r3;
    RunOperand(cfg, none, ab, r3);
  }

  /** `a p b q c` with q binding more tightly than p: `a p (b q c)`. */
  lemma RunGroupsRight<T>(cfg: Config<T>, a: T, b: T, c: T, p: char, q: char, bc: T, abc: T)
    requires p in cfg.precedence && p != '(' && q in cfg.precedence && q != '('
    requires Prec(cfg, p) < Prec(cfg, q)
    requires cfg.combine(q, b, c) == Ok(bc) && cfg.combine(p, a, bc) == Ok(abc)
    ensures Evaluate(cfg, [Operand(a), Operator(p), Operand(b), Operator(q), Operand(c)]) == Ok(abc)
  {
    var none: Stacks<T> := Stacks([], []);
    var first := Stacks([a], [p]);
    var r3: seq<Item<T>> := [Operator(q), Operand(c)];
    RunFirstPair(cfg, a, p, b, r3);
    assert Run(cfg, Stacks([a, b], [p]), r3) == Run(cfg, Stacks([a, b, c], [p, q]), []) by {
      RunOperator(cfg, Stacks([a, b], [p]), q, [Operand(c)]);
      assert Stacks([a, b], [p] + [q]) == Stacks([a, b], [p, q]);
      RunOperand(cfg, Stacks([a, b], [p, q]), c, []);
      assert [Operand(c)] + [] == [Operand(c)];
      assert Push(Stacks([a, b], [p, q]), c) == Stacks([a, b, c], [p, q]);
    }
    assert Run(cfg, Stacks([a, b, c], [p, q]), []) == Run(cfg, Stacks([a, bc], [p]), []) by {
      assert Stacks([a, b, c], [p, q]) == Stacks(first.values + [b, c], first.operators + [q]);
      RunAfterReduce(cfg, first, b, c, q, []);
      assert Push(first, bc) == Stacks([a, bc], [p]);
    }
    assert Run(cfg, Stacks([a, bc], [p]), []) == Ok(abc) by {
      assert Stacks([a, bc], [p]) == Stacks(none.values + [a, bc], none.operators + [p]);
      RunAfterReduce(cfg, none, a, bc, p, []);
      assert Push(none, abc) == Stacks([abc], []);
      RunEnd(cfg, abc);
    }
    assert [Operand(a), Operator(p), Operand(b)] + r3 == [Operand(a), Operator(p), Operand(b), Operator(q), Operand(c)];
  }

  /** The first three tokens `a p b` from empty stacks. */
  lemma RunFirstPair<T>(cfg: Config<T>, a: T, p: char, b: T, rest: seq<Item<T>>)
    ensures Run(cfg, Stacks([], []), [Operand(a), Operator(p), Operand(b)] + rest)
      == Run(cfg, Stacks([a, b], [p]), rest)
  {
    var none: Stacks<T> := Stacks([], []);
    assert [Operand(a), Operator(p), Operand(b)] + rest == [Operand(a)] + ([Operator(p)] + ([Operand(b)] + rest));
    RunOperand(cfg, none, a, [Operator(p)] + ([Operand(b)] + rest));
    assert Push(none, a) == Stacks([a], []);
    RunOperator(cfg, Stacks([a], []), p, [Operand(b)] + rest);
    assert Stacks([a], [] + [p]) == Stacks([a], [p]);
    RunOperand(cfg, Stacks([a], [p]), b, rest);
    assert Push(Stacks([a], [p]), b) == Stacks([a, b], [p]);
  }

  /** An operator that binds more tightly than the pending one is pushed
      after the operand before it. */
  lemma PushOperator<T>(cfg: Config<T>, s: Stacks<T>, v: T, items: seq<Item<T>>)
    requires items != [] && items[0].Operator?
    requires Open(s) || Prec(cfg, Last(s.operators)) < Prec(cfg, items[0].op)
    ensures Run(cfg, Push(s, v), items) == Run(cfg, Stacks(s.values + [v], s.operators + [items[0].op]), items[1..])
  {
    assert Step(cfg, Push(s, v), items[0]) == Ok(Stacks(s.values + [v], s.operators + [items[0].op]));
  }

  /** An error in the leftmost operand is the error of the whole term. */
  lemma {:induction false} TermTailFails<T>(cfg: Config<T>, acc: Syntax<T>, items: seq<Item<T>>, e: Error)
    requires EvalSyntax(cfg, acc) == Err(e)
    requires ParseTermTail(cfg, acc, items).Some?
    ensures EvalSyntax(cfg, ParseTermTail(cfg, acc, items).value.0) == Err(e)
    decreases |items|
  {
    if items != [] && IsLevel(cfg, items[0], 2) {
      var (f, rest) := ParseFactor(cfg, items[1..]).value;
      TermTailFails(cfg, Apply(items[0].op, acc, f), rest, e);
    }
  }

  lemma {:induction false} ExprRun<T>(cfg: Config<T>, s: Stacks<T>, items: seq<Item<T>>)
    requires '(' !in cfg.precedence
    requires Open(s)
    requires ParseExpr(cfg, items).Some? && EndsExpr(ParseExpr(cfg, items).value.1)
    ensures var p := ParseExpr(cfg, items).value;
      Run(cfg, s, items) == Continue(cfg, s, EvalSyntax(cfg, p.0), p.1)
    decreases |items|, 3
  {
    var (f, rest) := ParseTerm(cfg, items).value;
    ExprTailEnds(cfg, f, rest);
    TermRun(cfg, s, items);
    match EvalSyntax(cfg, f)
    case Err(e) => ExprTailFails(cfg, f, rest, e);
    case Ok(v) => ExprTailRun(cfg, s, f, v, rest);
  }

  lemma {:induction false} ExprTailRun<T>(cfg: Config<T>, s: Stacks<T>, acc: Syntax<T>, v: T, items: seq<Item<T>>)
    requires '(' !in cfg.precedence
    requires Open(s) && EvalSyntax(cfg, acc) == Ok(v)
    requires ParseExprTail(cfg, acc, items).Some? && EndsExpr(ParseExprTail(cfg, acc, items).value.1)
    ensures var p := ParseExprTail(cfg, acc, items).value;
      Run(cfg, Push(s, v), items) == Continue(cfg, s, EvalSyntax(cfg, p.0), p.1)
    decreases |items|, 2
  {
    if items != [] && IsLevel(cfg, items[0], 1) {
      var op := items[0].op;
      PushOperator(cfg, s, v, items);
      var (t, rest) := ParseTerm(cfg, items[1..]).value;
      ExprTailEnds(cfg, Apply(op, acc, t), rest);
      TermRun(cfg, Stacks(s.values + [v], s.operators + [op]), items[1..]);
      ExprTailAfter(cfg, s, acc, v, op, t, rest);
    }
  }

  /** The rest of an expression tail once the term after an operator is
      parsed. */
  lemma {:induction false} ExprTailAfter<T>(cfg: Config<T>, s: Stacks<T>, acc: Syntax<T>, v: T, op: char, t: Syntax<T>, rest: seq<Item<T>>)
    requires '(' !in cfg.precedence
    requires Open(s) && EvalSyntax(cfg, acc) == Ok(v) && Prec(cfg, op) == 1
    requires ParseExprTail(cfg, Apply(op, acc, t), rest).Some?
    requires EndsExpr(ParseExprTail(cfg, Apply(op, acc, t), rest).value.1)
    ensures var p := ParseExprTail(cfg, Apply(op, acc, t), rest).value;
      Continue(cfg, Stacks(s.values + [v], s.operators + [op]), EvalSyntax(cfg, t), rest)
        == Continue(cfg, s, EvalSyntax(cfg, p.0), p.1)
    decreases |rest|, 3
  {
    match EvalSyntax(cfg, t)
    case Err(e) =>
      ExprTailFails(cfg, Apply(op, acc, t), rest, e);
    case Ok(w) =>
      assert Push(Stacks(s.values + [v], s.operators + [op]), w) == Stacks(s.values + [v, w], s.operators + [op]);
      ExprTailEnds(cfg, Apply(op, acc, t), rest);
      RunAfterReduce(cfg, s, v, w, op, rest);
      match cfg.combine(op, v, w)
      case Err(e) =>
        ExprTailFails(cfg, Apply(op, acc, t), rest, e);
      case Ok(x) =>
        ExprTailRun(cfg, s, Apply(op, acc, t), x, rest);
  }

  /** What stops an expression tail also ends the term before it. */
  lemma {:induction false} ExprTailEnds<T>(cfg: Config<T>, acc: Syntax<T>, items: seq<Item<T>>)
    requires ParseExprTail(cfg, acc, items).Some? && EndsExpr(ParseExprTail(cfg, acc, items).value.1)
    ensures EndsTerm(cfg, items)
  {
  }

  lemma {:induction false} ExprTailFails<T>(cfg: Config<T>, acc: Syntax<T>, items: seq<Item<T>>, e: Error)
    requires EvalSyntax(cfg, acc) == Err(e)
    requires ParseExprTail(cfg, acc, items).Some?
    ensures EvalSyntax(cfg, ParseExprTail(cfg, acc, items).value.0) == Err(e)
    decreases |items|
  {
    if items != [] && IsLevel(cfg, items[0], 1) {
      var (t, rest) := ParseTerm(cfg, items[1..]).value;
      ExprTailFails(cfg, Apply(items[0].op, acc, t), rest, e);
    }
  }

  // ---------------------------------------------------------------------
  // A property of values that combining keeps holds of the result.
  // ---------------------------------------------------------------------

  ghost predicate KeptBy<T(!new)>(cfg: Config<T>, keep: T -> bool)
  {
    forall op, a, b :: keep(a) && keep(b) && cfg.combine(op, a, b).Ok? ==> keep(cfg.combine(op, a, b).value)
  }

  predicate AllKept<T>(keep: T -> bool, values: seq<T>)
  {
    forall i :: 0 <= i < |values| ==> keep(values[i])
  }

  predicate OperandsKept<T>(keep: T -> bool, items: seq<Item<T>>)
  {
    forall i :: 0 <= i < |items| && items[i].Operand? ==> keep(items[i].value)
  }

  /** When every operand has a property that combining keeps, so does
      every value on the stack, and so does the result. */
  lemma {:induction false} RunKeeps<T(!new)>(cfg: Config<T>, keep: T -> bool, s: Stacks<T>, items: seq<Item<T>>)
    requires KeptBy(cfg, keep) && AllKept(keep, s.values) && OperandsKept(keep, items)
    ensures Run(cfg, s, items).Ok? ==> keep(Run(cfg, s, items).value)
    decreases |items|
  {
    if items == [] {
      DrainKeeps(cfg, keep, s, Everything);
    } else {
      match items[0]
      case Operand(v) =>
        assert AllKept(keep, s.values + [v]);
        RunKeeps(cfg, keep, Push(s, v), items[1..]);
      case OpenParen =>
        RunKeeps(cfg, keep, Stacks(s.values, s.operators + ['(']), items[1..]);
      case CloseParen =>
        DrainKeeps(cfg, keep, s, ToParen);
        if Step(cfg, s, items[0]).Ok? {
          RunKeeps(cfg, keep, Step(cfg, s, items[0]).value, items[1..]);
        }
      case Operator(op) =>
        DrainKeeps(cfg, keep, s, WhileAtLeast(Prec(cfg, op)));
        if Step(cfg, s, items[0]).Ok? {
          RunKeeps(cfg, keep, Step(cfg, s, items[0]).value, items[1..]);
        }
      case Skip =>
        RunKeeps(cfg, keep, s, items[1..]);
      case Reject(_) =>
    }
  }

  lemma {:induction false} DrainKeeps<T(!new)>(cfg: Config<T>, keep: T -> bool, s: Stacks<T>, until: Until)
    requires KeptBy(cfg, keep) && AllKept(keep, s.values)
    ensures Drain(cfg, s, until).Ok? ==> AllKept(keep, Drain(cfg, s, until).value.values)
    decreases |s.operators|
  {
    if s.operators != [] && Reduce(cfg, s).Ok? {
      var t := Reduce(cfg, s).value;
      assert AllKept(keep, t.values) by {
        var n := |s.values|;
        if Last(s.operators) in cfg.precedence {
          assert t.values == t.values[..|t.values| - 1] + [Last(t.values)];
        }
      }
      DrainKeeps(cfg, keep, t, until);
    }
  }

  /** The errors combining can raise for an operator of the table all
      satisfy `allowed`. */
  ghost predicate CombineErrors<T(!new)>(cfg: Config<T>, allowed: Error -> bool)
  {
    forall op, a, b :: op in cfg.precedence && cfg.combine(op, a, b).Err? ==> allowed(cfg.combine(op, a, b).error)
  }

  /** Every error of the evaluation loop is undefined behaviour (an empty
      stack), the error of a rejected token, or an error of combining. */
  lemma {:induction false} RunErrors<T(!new)>(cfg: Config<T>, allowed: Error -> bool, s: Stacks<T>, items: seq<Item<T>>)
    requires CombineErrors(cfg, allowed)
    ensures var r := Run(cfg, s, items);
      r.Err? ==> r.error.Undefined? || Reject(r.error) in items || allowed(r.error)
    decreases |items|
  {
    if items == [] {
      DrainErrors(cfg, allowed, s, Everything);
    } else {
      match items[0]
      case Reject(_) =>
      case Operand(_) =>
        RunErrors(cfg, allowed, Step(cfg, s, items[0]).value, items[1..]);
      case Skip =>
        RunErrors(cfg, allowed, s, items[1..]);
      case OpenParen =>
        RunErrors(cfg, allowed, Step(cfg, s, items[0]).value, items[1..]);
      case CloseParen =>
        DrainErrors(cfg, allowed, s, ToParen);
        if Step(cfg, s, items[0]).Ok? {
          RunErrors(cfg, allowed, Step(cfg, s, items[0]).value, items[1..]);
        }
      case Operator(op) =>
        DrainErrors(cfg, allowed, s, WhileAtLeast(Prec(cfg, op)));
        if Step(cfg, s, items[0]).Ok? {
          RunErrors(cfg, allowed, Step(cfg, s, items[0]).value, items[1..]);
        }
    }
  }

  lemma {:induction false} DrainErrors<T(!new)>(cfg: Config<T>, allowed: Error -> bool, s: Stacks<T>, until: Until)
    requires CombineErrors(cfg, allowed)
    ensures var r := Drain(cfg, s, until);
      r.Err? ==> r.error.Undefined? || allowed(r.error)
    decreases |s.operators|
  {
    if s.operators != [] && Reduce(cfg, s).Ok? {
      DrainErrors(cfg, allowed, Reduce(cfg, s).value, until);
    }
  }
}

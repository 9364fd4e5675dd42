/** Tokenizing and tree building of the two tree-building calculators. They
    differ in one point: the variables version lexes runs of letters, digits
    and '.', and turns a token that starts with a letter into a variable
    leaf; the numbers-only version lexes runs of digits and '.', and drops
    letters. Both share the precedence map {+ - : 1, * / : 2}. */
module TreeBuilder {
  import opened Outcomes
  import opened Text
  import opened Numbers
  import opened ShuntingYard
  import opened ExpressionTree

  datatype Dialect = WithVariables | NumbersOnly

  // ------------------------------------------------------------------
  // Tokenizing
  // ------------------------------------------------------------------

  /** A character that extends the pending run. */
  predicate InRun(d: Dialect, c: char)
  {
    (if d.WithVariables? then IsAlnum(c) else IsDigit(c)) || c == '.'
  }

  /** A character emitted as a one-character token. */
  predicate IsSymbol(c: char)
  {
    c == '+' || c == '-' || c == '*' || c == '/' || c == '(' || c == ')'
  }

  predicate AllInRun(d: Dialect, s: string)
  {
    forall i :: 0 <= i < |s| ==> InRun(d, s[i])
  }

  /** The length of the run the text starts with. */
  function RunLength(d: Dialect, s: string): (n: nat)
    ensures n <= |s| && AllInRun(d, s[..n])
    ensures n < |s| ==> !InRun(d, s[n])
  {
    if |s| > 0 && InRun(d, s[0]) then
      var n := 1 + RunLength(d, s[1..]);
      assert s[..n] == [s[0]] + s[1..][..n - 1];
      n
    else 0
  }

  /** The tokens of a text, by maximal munch: a longest run of run
      characters is one token, a symbol is a token of its own, and every
      other character separates tokens and is dropped. */
  function Lex(d: Dialect, s: string): seq<string>
    decreases |s|
  {
    if s == [] then []
    else if InRun(d, s[0]) then
      var n := RunLength(d, s);
      [s[..n]] + Lex(d, s[n..])
    else if IsSymbol(s[0]) then [[s[0]]] + Lex(d, s[1..])
    else Lex(d, s[1..])
  }

  /** The characters that tokenizing keeps. */
  function Kept(d: Dialect, s: string): string
  {
    if s == [] then []
    else (if InRun(d, s[0]) || IsSymbol(s[0]) then [s[0]] else []) + Kept(d, s[1..])
  }

  /** The `tokenize` member: `number` is the pending run. */
  method Tokenize(d: Dialect, input: string) returns (tokens: seq<string>)
    ensures tokens == Lex(d, input)
  {
    tokens := [];
    var number := "";
    assert number + input[0..] == input;
    for i := 0 to |input|
      invariant AllInRun(d, number)
      invariant tokens + Lex(d, number + input[i..]) == Lex(d, input)
    {
      var c := input[i];
      assert input[i..] == [c] + input[i + 1..];
      if InRun(d, c) {
        AppendAssoc(number, [c], input[i + 1..]);
        number := number + [c];
      } else {
        if number != [] {
          LexRun(d, number, input[i..]);
          AppendAssoc(tokens, [number], Lex(d, input[i..]));
          tokens := tokens + [number];
          number := "";
        }
        assert number + input[i..] == input[i..];
        LexBreak(d, c, input[i + 1..]);
        if IsSymbol(c) {
          AppendAssoc(tokens, [[c]], Lex(d, input[i + 1..]));
          tokens := tokens + [[c]];
        } else {
          assert [] + Lex(d, input[i + 1..]) == Lex(d, input[i + 1..]);
        }
        assert number + input[i + 1..] == input[i + 1..];
      }
    }
    if number != [] {
      LexRun(d, number, []);
      tokens := tokens + [number];
    } else {
      assert tokens + [] == tokens;
    }
  }

  /** A character outside any run ends the pending one: a symbol is a
      token of its own, anything else is dropped. */
  lemma LexBreak(d: Dialect, c: char, rest: string)
    requires !InRun(d, c)
    ensures Lex(d, [c] + rest) == (if IsSymbol(c) then [[c]] else []) + Lex(d, rest)
  {
    assert ([c] + rest)[1..] == rest;
  }

  /** A complete run at the front of the text is the first token. */
  lemma LexRun(d: Dialect, run: string, rest: string)
    requires run != [] && AllInRun(d, run)
    requires rest == [] || !InRun(d, rest[0])
    ensures Lex(d, run + rest) == [run] + Lex(d, rest)
  {
    var s := run + rest;
    RunLengthOfRun(d, run, rest);
    assert s[..|run|] == run;
    assert s[|run|..] == rest;
  }

  lemma {:induction false} RunLengthOfRun(d: Dialect, run: string, rest: string)
    requires AllInRun(d, run)
    requires rest == [] || !InRun(d, rest[0])
    ensures RunLength(d, run + rest) == |run|
    decreases |run|
  {
    if run != [] {
      assert (run + rest)[1..] == run[1..] + rest;
      RunLengthOfRun(d, run[1..], rest);
    } else {
      assert run + rest == rest;
    }
  }

  /** Nothing but the dropped characters is lost: the tokens put together
      are the text without them. */
  lemma {:induction false} LexKeepsText(d: Dialect, s: string)
    ensures Concat(Lex(d, s)) == Kept(d, s)
    decreases |s|
  {
    if s != [] {
      if InRun(d, s[0]) {
        var n := RunLength(d, s);
        LexKeepsText(d, s[n..]);
        KeptSplit(d, s[..n], s[n..]);
        KeptRun(d, s[..n]);
        assert s[..n] + s[n..] == s;
      } else {
        LexKeepsText(d, s[1..]);
      }
    }
  }

  lemma {:induction false} KeptSplit(d: Dialect, a: string, b: string)
    ensures Kept(d, a + b) == Kept(d, a) + Kept(d, b)
    decreases |a|
  {
    if a != [] {
      assert (a + b)[1..] == a[1..] + b;
      KeptSplit(d, a[1..], b);
    } else {
      assert a + b == b;
    }
  }

  lemma {:induction false} KeptRun(d: Dialect, s: string)
    requires AllInRun(d, s)
    ensures Kept(d, s) == s
    decreases |s|
  {
    if s != [] {
      KeptRun(d, s[1..]);
    }
  }

  /** Every token is non-empty, and is either a run of run characters or a
      single symbol. */
  lemma {:induction false} LexTokenShapes(d: Dialect, s: string)
    ensures forall t :: t in Lex(d, s) ==> t != [] && (AllInRun(d, t) || (|t| == 1 && IsSymbol(t[0])))
    decreases |s|
  {
    if s != [] {
      if InRun(d, s[0]) {
        LexTokenShapes(d, s[RunLength(d, s)..]);
      } else {
        LexTokenShapes(d, s[1..]);
      }
    }
  }

  /** Runs are maximal: the text right after a run token does not continue
      it. Two runs come out as two tokens only when something dropped or a
      symbol stood between them. */
  lemma {:induction false} LexRunsAreMaximal(d: Dialect, s: string)
    requires s != [] && InRun(d, s[0])
    ensures var t := Lex(d, s)[0];
      t == s[..|t|] && (|t| == |s| || !InRun(d, s[|t|]))
  {
  }

  predicate NoLetters(s: string)
  {
    forall i :: 0 <= i < |s| ==> !IsAlpha(s[i])
  }

  /** On text without letters the two dialects lex alike: `isalnum` and
      `isdigit` differ only on letters. */
  lemma {:induction false} LexWithoutLetters(s: string)
    requires NoLetters(s)
    ensures Lex(WithVariables, s) == Lex(NumbersOnly, s)
    decreases |s|
  {
    if s != [] {
      RunLengthWithoutLetters(s);
      if InRun(NumbersOnly, s[0]) {
        var n := RunLength(NumbersOnly, s);
        assert NoLetters(s[n..]) by {
          forall i | 0 <= i < |s[n..]| ensures !IsAlpha(s[n..][i]) {
            assert s[n..][i] == s[n + i];
          }
        }
        LexWithoutLetters(s[n..]);
      } else {
        assert NoLetters(s[1..]) by {
          forall i | 0 <= i < |s[1..]| ensures !IsAlpha(s[1..][i]) {
            assert s[1..][i] == s[1 + i];
          }
        }
        LexWithoutLetters(s[1..]);
      }
    }
  }

  lemma {:induction false} RunLengthWithoutLetters(s: string)
    requires NoLetters(s)
    ensures RunLength(WithVariables, s) == RunLength(NumbersOnly, s)
    decreases |s|
  {
    if s != [] {
      assert NoLetters(s[1..]) by {
        forall i | 0 <= i < |s[1..]| ensures !IsAlpha(s[1..][i]) {
          assert s[1..][i] == s[1 + i];
        }
      }
      RunLengthWithoutLetters(s[1..]);
    }
  }

  /** The numbers-only tokens never start with a letter, so both dialects
      classify them alike: no variable leaf can arise. */
  lemma ItemsWithoutLetters(s: string)
    requires NoLetters(s)
    ensures Items(WithVariables, Lex(WithVariables, s)) == Items(NumbersOnly, Lex(NumbersOnly, s))
  {
    LexWithoutLetters(s);
    var tokens := Lex(NumbersOnly, s);
    LexTokenShapes(NumbersOnly, s);
    forall i | 0 <= i < |tokens|
      ensures Classify(WithVariables, tokens[i]) == Classify(NumbersOnly, tokens[i])
    {
      assert tokens[i] in tokens;
      assert !IsAlpha(Head(tokens[i]));
    }
  }

  // ------------------------------------------------------------------
  // Tree building
  // ------------------------------------------------------------------

  const Precedence: map<char, int> := map['+' := 1, '-' := 1, '*' := 2, '/' := 2]

  /** The node `applyOperator` builds for an operator of the map. */
  function Node(op: char, left: Expr, right: Expr): Result<Expr>
  {
    match op
    case '+' => Ok(Addition(left, right))
    case '-' => Ok(Subtraction(left, right))
    case '*' => Ok(Multiplication(left, right))
    case '/' => Ok(Division(left, right))
    case _ => Err(Undefined("no node for operator " + [op]))
  }

  function TreeConfig(): Config<Expr>
  {
    Config(Precedence, Node)
  }

  /** The branch of the building loop a token takes. */
  function Classify(d: Dialect, token: string): (item: Item<Expr>)
    ensures item.Reject? ==> item.error == InvalidArgument("stod")
    ensures item.Operator? ==> item.op in Precedence && token == [item.op]
  {
    if IsDigit(Head(token)) || Find(token, '.').Some? then
      match Stod(token)
      case Ok(v) => Operand(Number(v))
      case Err(e) => Reject(e)
    else if d.WithVariables? && IsAlpha(Head(token)) then Operand(Variable(token))
    else if token == "(" then OpenParen
    else if token == ")" then CloseParen
    else if token == "+" || token == "-" || token == "*" || token == "/" then Operator(token[0])
    else Skip
  }

  function Items(d: Dialect, tokens: seq<string>): seq<Item<Expr>>
  {
    seq(|tokens|, i requires 0 <= i < |tokens| => Classify(d, tokens[i]))
  }

  /** The `applyOperator` member on the two stacks. */
  method ApplyOperator(values: seq<Expr>, operators: seq<char>) returns (r: Result<Stacks<Expr>>)
    requires |operators| > 0
    ensures r == Reduce(TreeConfig(), Stacks(values, operators))
  {
    var op := operators[|operators| - 1];
    var ops := operators[..|operators| - 1];
    if |values| < 2 {
      return Err(Undefined("top() of an empty operand stack"));
    }
    var right := values[|values| - 1];
    var left := values[|values| - 2];
    var rest := values[..|values| - 2];
    match op
    case '+' => r := Ok(Stacks(rest + [Addition(left, right)], ops));
    case '-' => r := Ok(Stacks(rest + [Subtraction(left, right)], ops));
    case '*' => r := Ok(Stacks(rest + [Multiplication(left, right)], ops));
    case '/' => r := Ok(Stacks(rest + [Division(left, right)], ops));
    case _ => r := Ok(Stacks(rest, ops));
  }

  /** One of the `while (...) applyOperator(values, operators);` loops:
      reduce while there is a pending operator that `until` lets go. */
  method ApplyWhile(values: seq<Expr>, operators: seq<char>, until: Until) returns (r: Result<Stacks<Expr>>)
    ensures r == Drain(TreeConfig(), Stacks(values, operators), until)
  {
    var cfg := TreeConfig();
    var vs, ops := values, operators;
    while ops != [] && (until.Everything? || ops[|ops| - 1] != '(')
          && (!until.WhileAtLeast? || Prec(cfg, ops[|ops| - 1]) >= until.level)
      invariant Drain(cfg, Stacks(vs, ops), until) == Drain(cfg, Stacks(values, operators), until)
      decreases |ops|
    {
      var step := ApplyOperator(vs, ops);
      if step.Err? {
        return Err(step.error);
      }
      vs, ops := step.value.values, step.value.operators;
    }
    r := Ok(Stacks(vs, ops));
  }

  /** The body of the token loop of `buildExpressionTree`: the branch the
      classified token takes, and its effect on the two stacks. */
  method Consume(values: seq<Expr>, operators: seq<char>, item: Item<Expr>) returns (r: Result<Stacks<Expr>>)
    ensures r == Step(TreeConfig(), Stacks(values, operators), item)
  {
    match item {
      case Operand(v) =>
        r := Ok(Stacks(values + [v], operators));
      case OpenParen =>
        r := Ok(Stacks(values, operators + ['(']));
      case CloseParen =>
        var reduced := ApplyWhile(values, operators, ToParen);
        if reduced.Err? {
          return Err(reduced.error);
        }
        if reduced.value.operators == [] {
          return Err(Undefined("pop() of an empty operator stack"));
        }
        var ops := reduced.value.operators;
        r := Ok(Stacks(reduced.value.values, ops[..|ops| - 1]));
      case Operator(op) =>
        var reduced := ApplyWhile(values, operators, WhileAtLeast(Prec(TreeConfig(), op)));
        if reduced.Err? {
          return Err(reduced.error);
        }
        r := Ok(Stacks(reduced.value.values, reduced.value.operators + [op]));
      case Skip =>
        r := Ok(Stacks(values, operators));
      case Reject(e) =>
        r := Err(e);
    }
  }

  /** The `buildExpressionTree` member. */
  method BuildExpressionTree(d: Dialect, tokens: seq<string>) returns (r: Result<Expr>)
    ensures r == Evaluate(TreeConfig(), Items(d, tokens))
  {
    var cfg := TreeConfig();
    ghost var items := Items(d, tokens);
    var values: seq<Expr> := [];
    var operators: seq<char> := [];
    for i := 0 to |tokens|
      invariant Run(cfg, Stacks(values, operators), items[i..]) == Evaluate(cfg, items)
    {
      assert items[i..][0] == items[i] && items[i..][1..] == items[i + 1..];
      var item := Classify(d, tokens[i]);
      assert items[i] == item;
      var next := Consume(values, operators, item);
      if next.Err? {
        return Err(next.error);
      }
      values, operators := next.value.values, next.value.operators;
    }
    var reduced := ApplyWhile(values, operators, Everything);
    if reduced.Err? {
      return Err(reduced.error);
    }
    values := reduced.value.values;
    if values == [] {
      return Err(Undefined("top() of an empty operand stack"));
    }
    r := Ok(values[|values| - 1]);
  }

  /** The tree the grammar gives, as expression nodes. */
  function ToExpr(t: Syntax<Expr>): Expr
  {
    match t
    case Atom(e) => e
    case Apply(op, l, r) =>
      match op
      case '+' => Addition(ToExpr(l), ToExpr(r))
      case '-' => Subtraction(ToExpr(l), ToExpr(r))
      case '*' => Multiplication(ToExpr(l), ToExpr(r))
      case _ => Division(ToExpr(l), ToExpr(r))
  }

  lemma {:induction false} EvalSyntaxBuilds(t: Syntax<Expr>)
    requires OperatorsIn(TreeConfig(), t)
    ensures EvalSyntax(TreeConfig(), t) == Ok(ToExpr(t))
  {
    match t
    case Atom(_) =>
    case Apply(op, l, r) =>
      EvalSyntaxBuilds(l);
      EvalSyntaxBuilds(r);
  }

  /** On token sequences that form one expression of the precedence
      grammar, building never fails and yields the grammar's tree: '*' and
      '/' bind more tightly than '+' and '-', operators of one level group to
      the left, and parentheses group first. */
  lemma BuildsGrammarTree(d: Dialect, tokens: seq<string>)
    requires var p := ParseExpr(TreeConfig(), Items(d, tokens)); p.Some? && p.value.1 == []
    ensures var p := ParseExpr(TreeConfig(), Items(d, tokens));
      Evaluate(TreeConfig(), Items(d, tokens)) == Ok(ToExpr(p.value.0))
  {
    var items := Items(d, tokens);
    EvaluateAgreesWithGrammar(TreeConfig(), items);
    EvalSyntaxBuilds(ParseExpr(TreeConfig(), items).value.0);
  }

  /** `8-3-2` builds `(8-3)-2`: the second '-' reduces the first. */
  lemma SubtractionGroupsLeft(d: Dialect)
    ensures Evaluate(TreeConfig(), Items(d, Lex(d, "8-3-2")))
      == Ok(Subtraction(Subtraction(Number(8.0), Number(3.0)), Number(2.0)))
  {
    LexThree(d, '8', '-', '3', '-', '2');
    assert "8-3-2" == ['8', '-', '3', '-', '2'];
    ItemsOfThree(d, '8', '-', '3', '-', '2');
    RunSubtractions(Number(8.0), Number(3.0), Number(2.0));
  }

  lemma RunSubtractions(a: Expr, b: Expr, c: Expr)
    ensures Evaluate(TreeConfig(), [Operand(a), Operator('-'), Operand(b), Operator('-'), Operand(c)])
      == Ok(Subtraction(Subtraction(a, b), c))
  {
    RunGroupsLeft(TreeConfig(), a, b, c, '-', '-', Subtraction(a, b), Subtraction(Subtraction(a, b), c));
  }

  /** `2+3*4` builds `2+(3*4)`: '*' waits on the stack above '+'. */
  lemma ProductBindsTighter(d: Dialect)
    ensures Evaluate(TreeConfig(), Items(d, Lex(d, "2+3*4")))
      == Ok(Addition(Number(2.0), Multiplication(Number(3.0), Number(4.0))))
  {
    LexThree(d, '2', '+', '3', '*', '4');
    assert "2+3*4" == ['2', '+', '3', '*', '4'];
    ItemsOfThree(d, '2', '+', '3', '*', '4');
    RunSumOfProduct(Number(2.0), Number(3.0), Number(4.0));
  }

  lemma RunSumOfProduct(a: Expr, b: Expr, c: Expr)
    ensures Evaluate(TreeConfig(), [Operand(a), Operator('+'), Operand(b), Operator('*'), Operand(c)])
      == Ok(Addition(a, Multiplication(b, c)))
  {
    RunGroupsRight(TreeConfig(), a, b, c, '+', '*', Multiplication(b, c), Addition(a, Multiplication(b, c)));
  }

  lemma ItemsOfThree(d: Dialect, x: char, p: char, y: char, q: char, z: char)
    requires IsDigit(x) && IsDigit(y) && IsDigit(z)
    requires p == '+' || p == '-' || p == '*' || p == '/'
    requires q == '+' || q == '-' || q == '*' || q == '/'
    ensures Items(d, [[x], [p], [y], [q], [z]])
      == [Operand(Number(DigitValue(x) as real)), Operator(p), Operand(Number(DigitValue(y) as real)),
          Operator(q), Operand(Number(DigitValue(z) as real))]
  {
    ClassifyDigit(d, x);
    ClassifyDigit(d, y);
    ClassifyDigit(d, z);
    ClassifyOperator(d, p);
    ClassifyOperator(d, q);
  }

  /** Three one-digit numbers between two operators. */
  lemma LexThree(d: Dialect, x: char, p: char, y: char, q: char, z: char)
    requires IsDigit(x) && IsDigit(y) && IsDigit(z)
    requires IsSymbol(p) && IsSymbol(q)
    ensures Lex(d, [x, p, y, q, z]) == [[x], [p], [y], [q], [z]]
  {
    var s2 := [z];
    var s1 := [y, q] + s2;
    assert [x, p, y, q, z] == [x, p] + s1;
    LexExample(d, x, p, s1);
    LexExample(d, y, q, s2);
    LexDigit(d, z);
    assert [[x], [p]] + ([[y], [q]] + [[z]]) == [[x], [p], [y], [q], [z]];
  }

  lemma LexDigit(d: Dialect, c: char)
    requires IsDigit(c)
    ensures Lex(d, [c]) == [[c]]
  {
    LexRun(d, [c], "");
    assert [c] + "" == [c];
  }

  lemma ClassifyDigit(d: Dialect, c: char)
    requires IsDigit(c)
    ensures Classify(d, [c]) == Operand(Number(DigitValue(c) as real))
  {
    StodDigit(c);
  }

  lemma ClassifyOperator(d: Dialect, c: char)
    requires c == '+' || c == '-' || c == '*' || c == '/'
    ensures Classify(d, [c]) == Operator(c)
  {
    FindNone([c], '.');
  }

  /** A one-digit number and a symbol. */
  lemma LexExample(d: Dialect, x: char, p: char, rest: string)
    requires IsDigit(x) && IsSymbol(p)
    ensures Lex(d, [x, p] + rest) == [[x], [p]] + Lex(d, rest)
  {
    var tail := [p] + rest;
    assert [x, p] + rest == [x] + tail;
    LexDigitBefore(d, x, p, tail);
    LexBreak(d, p, rest);
    var more := Lex(d, rest);
    assert [[x]] + ([[p]] + more) == [[x], [p]] + more;
  }

  /** A one-digit number ended by a symbol. */
  lemma LexDigitBefore(d: Dialect, x: char, p: char, tail: string)
    requires IsDigit(x) && IsSymbol(p) && tail != [] && tail[0] == p
    ensures Lex(d, [x] + tail) == [[x]] + Lex(d, tail)
  {
    assert AllInRun(d, [x]);
    LexRun(d, [x], tail);
  }


}

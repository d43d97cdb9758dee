/** The precedence-driven expression renderer (`pexpr`). It is a pure
    function of the expression, the context precedence and the scope
    stack; it reads the stack through `GetName` and never changes it. */
module ExprPrinter {

  import opened Text
  import opened Syntax
  import opened Scopes
  import opened Naming

  /** `pexpr(e, prec)`: a binary operation is wrapped in parentheses when
      its level is below the context's; its left operand is rendered at
      its own level and its right operand one above (left associativity);
      the operand of unary minus is rendered at the unary level; indices
      and `par` bounds are rendered at context 0. */
  function RenderExpr(env: Env, e: Expr, prec: int): string
    decreases e
  {
    match e
    case Read(x, idx) => GetName(env, x) + IndexText(env, idx)
    case Const(v) => v
    case BinOp(op, lhs, rhs) =>
      var p := Prec(op);
      var s := RenderExpr(env, lhs, p) + " " + OpText(op) + " " + RenderExpr(env, rhs, p + 1);
      if p < prec then "(" + s + ")" else s
    case USub(arg) => "-" + RenderExpr(env, arg, UnaryPrec)
    case ParRange(lo, hi) => "par(" + RenderExpr(env, lo, 0) + "," + RenderExpr(env, hi, 0) + ")"
  }

  /** The bracketed index list of an indexed read or write, each index
      rendered at context 0 and joined by commas; nothing when there are
      no indices. */
  function IndexText(env: Env, idx: seq<Expr>): string
    decreases idx, 1
  {
    if |idx| == 0 then "" else "[" + Join(RenderIndices(env, idx), ",") + "]"
  }

  /** `[self.pexpr(i) for i in idx]`: each index rendered at context 0,
      in order. */
  function RenderIndices(env: Env, idx: seq<Expr>): (parts: seq<string>)
    ensures |parts| == |idx|
    ensures forall i :: 0 <= i < |idx| ==> parts[i] == RenderExpr(env, idx[i], 0)
    decreases idx, 0
  {
    if |idx| == 0 then [] else [RenderExpr(env, idx[0], 0)] + RenderIndices(env, idx[1..])
  }

  /** A context precedence forces parentheses on exactly the binary
      operations whose level is below it. */
  predicate Wrapped(e: Expr, prec: int) {
    e.BinOp? && Prec(e.op) < prec
  }

  function Parenthesize(wrap: bool, s: string): string {
    if wrap then "(" + s + ")" else s
  }

  /** The context precedence only decides the outer parentheses: the text
      at any context is the text at context 0, wrapped exactly when the
      expression is a binary operation of lower level. At context 0 nothing
      is ever wrapped. */
  lemma ContextOnlyWraps(env: Env, e: Expr, prec: int)
    ensures RenderExpr(env, e, prec) == Parenthesize(Wrapped(e, prec), RenderExpr(env, e, 0))
    ensures !Wrapped(e, 0)
  {
  }

  /** A binary operation's operands: the left one is parenthesized exactly
      when it is a binary operation of strictly lower level, the right one
      exactly when it is a binary operation of lower or EQUAL level, so
      chains of one level read left-associated. Single spaces surround the
      operator. */
  lemma BinaryOperands(env: Env, op: Op, lhs: Expr, rhs: Expr, prec: int)
    ensures RenderExpr(env, BinOp(op, lhs, rhs), prec) ==
      Parenthesize(Prec(op) < prec,
        Parenthesize(lhs.BinOp? && Prec(lhs.op) < Prec(op), RenderExpr(env, lhs, 0))
        + " " + OpText(op) + " " +
        Parenthesize(rhs.BinOp? && Prec(rhs.op) <= Prec(op), RenderExpr(env, rhs, 0)))
  {
    ContextOnlyWraps(env, lhs, Prec(op));
    ContextOnlyWraps(env, rhs, Prec(op) + 1);
  }

  /** Unary minus is never wrapped, whatever the context; its operand is
      parenthesized exactly when it is a binary operation. */
  lemma UnaryMinusLayout(env: Env, arg: Expr, prec: int)
    ensures RenderExpr(env, USub(arg), prec) ==
      "-" + Parenthesize(arg.BinOp?, RenderExpr(env, arg, 0))
  {
    ContextOnlyWraps(env, arg, UnaryPrec);
  }

  /** Raising the context can only add parentheses, never remove them:
      the text at a higher context is the text at the lower one, wrapped
      exactly when the higher context forces parentheses the lower one did
      not. */
  lemma WrappingIsMonotone(env: Env, e: Expr, p: int, q: int)
    requires p <= q
    ensures RenderExpr(env, e, q) ==
      Parenthesize(Wrapped(e, q) && !Wrapped(e, p), RenderExpr(env, e, p))
  {
    ContextOnlyWraps(env, e, p);
    ContextOnlyWraps(env, e, q);
  }

  /** A name that no frame binds prints as its `repr`, whatever the
      context. */
  lemma UnboundNamePrintsRepr(env: Env, x: Sym)
    requires !Bound(env, x.text)
    ensures forall p :: RenderExpr(env, Read(x, []), p) == x.reprText
  {
  }

  /** The names of the worked cases below, printed with nothing bound. */
  lemma LeafExamples(env: Env)
    requires env == EmptyEnv()
    ensures forall p :: RenderExpr(env, Read(Sym("a", "a"), []), p) == "a"
    ensures forall p :: RenderExpr(env, Read(Sym("b", "b"), []), p) == "b"
    ensures forall p :: RenderExpr(env, Read(Sym("c", "c"), []), p) == "c"
  {
    UnboundNamePrintsRepr(env, Sym("a", "a"));
    UnboundNamePrintsRepr(env, Sym("b", "b"));
    UnboundNamePrintsRepr(env, Sym("c", "c"));
  }

  /** Worked case: a same-level chain built to the left prints without
      parentheses. */
  lemma LeftChainExample()
    ensures
      var a := Read(Sym("a", "a"), []);
      var b := Read(Sym("b", "b"), []);
      var c := Read(Sym("c", "c"), []);
      RenderExpr(EmptyEnv(), BinOp(Sub, BinOp(Sub, a, b), c), 0) == "a - b - c"
  {
    var env := EmptyEnv();
    LeafExamples(env);
    assert RenderExpr(env, BinOp(Sub, Read(Sym("a", "a"), []), Read(Sym("b", "b"), [])), 40) == "a - b";
  }

  /** Worked case: comparisons share one level, so a comparison whose
      left operand is a comparison prints without parentheses. Python reads
      the text back as a chained comparison, `a < b and b < c`. */
  lemma ChainedComparisonExample()
    ensures
      var a := Read(Sym("a", "a"), []);
      var b := Read(Sym("b", "b"), []);
      var c := Read(Sym("c", "c"), []);
      RenderExpr(EmptyEnv(), BinOp(Lt, BinOp(Lt, a, b), c), 0) == "a < b < c"
  {
    var env := EmptyEnv();
    LeafExamples(env);
    assert RenderExpr(env, BinOp(Lt, Read(Sym("a", "a"), []), Read(Sym("b", "b"), [])), 30) == "a < b";
  }

  /** Worked case: the same chain built to the right keeps its
      parentheses. */
  lemma RightChainExample()
    ensures
      var a := Read(Sym("a", "a"), []);
      var b := Read(Sym("b", "b"), []);
      var c := Read(Sym("c", "c"), []);
      RenderExpr(EmptyEnv(), BinOp(Sub, a, BinOp(Sub, b, c)), 0) == "a - (b - c)"
  {
    var env := EmptyEnv();
    LeafExamples(env);
    assert RenderExpr(env, BinOp(Sub, Read(Sym("b", "b"), []), Read(Sym("c", "c"), [])), 41) == "(b - c)";
  }

  /** Worked cases: a tighter operator needs no parentheses, a looser one
      does. */
  lemma MixedLevelExamples()
    ensures
      var a := Read(Sym("a", "a"), []);
      var b := Read(Sym("b", "b"), []);
      var c := Read(Sym("c", "c"), []);
      && RenderExpr(EmptyEnv(), BinOp(Add, a, BinOp(Mul, b, c)), 0) == "a + b * c"
      && RenderExpr(EmptyEnv(), BinOp(Mul, BinOp(Add, a, b), c), 0) == "(a + b) * c"
  {
    var env := EmptyEnv();
    var a := Read(Sym("a", "a"), []);
    var b := Read(Sym("b", "b"), []);
    var c := Read(Sym("c", "c"), []);
    LeafExamples(env);
    assert RenderExpr(env, BinOp(Mul, b, c), 41) == "b * c";
    assert RenderExpr(env, BinOp(Add, a, b), 50) == "(a + b)";
  }

  /** Worked case: `or` binds loosest, then `and`, then comparisons. */
  lemma LogicExample()
    ensures
      var a := Read(Sym("a", "a"), []);
      var b := Read(Sym("b", "b"), []);
      var c := Read(Sym("c", "c"), []);
      RenderExpr(EmptyEnv(), BinOp(Or, BinOp(Lt, a, b), BinOp(And, b, c)), 0) == "a < b or b and c"
  {
    var env := EmptyEnv();
    var a := Read(Sym("a", "a"), []);
    var b := Read(Sym("b", "b"), []);
    var c := Read(Sym("c", "c"), []);
    LeafExamples(env);
    assert RenderExpr(env, BinOp(Lt, a, b), 10) == "a < b";
    assert RenderExpr(env, BinOp(And, b, c), 11) == "b and c";
    assert RenderExpr(env, BinOp(Or, BinOp(Lt, a, b), BinOp(And, b, c)), 0) == "a < b" + " or " + "b and c";
  }

  /** Worked cases: a negated sum keeps its parentheses; a negated name
      binds tighter than addition. */
  lemma UnaryExamples()
    ensures
      var a := Read(Sym("a", "a"), []);
      var b := Read(Sym("b", "b"), []);
      && RenderExpr(EmptyEnv(), USub(BinOp(Add, a, b)), 0) == "-(a + b)"
      && RenderExpr(EmptyEnv(), BinOp(Add, USub(a), b), 0) == "-a + b"
  {
    var env := EmptyEnv();
    var a := Read(Sym("a", "a"), []);
    var b := Read(Sym("b", "b"), []);
    LeafExamples(env);
    assert RenderExpr(env, BinOp(Add, a, b), UnaryPrec) == "(a + b)";
    assert RenderExpr(env, USub(a), 40) == "-a";
  }
}

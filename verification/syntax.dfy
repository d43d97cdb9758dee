/** The surface tree the printer consumes: procedures, arguments,
    statements and expressions, plus the operator precedence table. */
module Syntax {

  import opened Outcomes

  /** An identifier. `text` is its `str` form, the key of the scope stack;
      `reprText` is its `repr` form, printed for identifiers that were never
      bound. Both are opaque strings here. */
  datatype Sym = Sym(text: string, reprText: string)

  /** The binary operators that have a precedence level. */
  datatype Op = Or | And | Lt | Gt | Le | Ge | Eq | Add | Sub | Mul | Div

  function OpText(op: Op): string {
    match op
    case Or => "or"
    case And => "and"
    case Lt => "<"
    case Gt => ">"
    case Le => "<="
    case Ge => ">="
    case Eq => "=="
    case Add => "+"
    case Sub => "-"
    case Mul => "*"
    case Div => "/"
  }

  /** Precedence of unary minus; it has no entry in the table. */
  const UnaryPrec: int := 60

  /** The operator precedence table. */
  function Prec(op: Op): (p: int)
    ensures 10 <= p <= 50 && p % 10 == 0
    ensures p < UnaryPrec
  {
    match op
    case Or => 10
    case And => 20
    case Lt | Gt | Le | Ge | Eq => 30
    case Add | Sub => 40
    case Mul | Div => 50
  }

  predicate IsComparison(op: Op) {
    op.Lt? || op.Gt? || op.Le? || op.Ge? || op.Eq?
  }

  /** `or` binds loosest, then `and`, the comparisons, the additive and the
      multiplicative operators; operators of one group share a level. */
  lemma PrecedenceOrder(a: Op, b: Op)
    ensures Prec(Or) < Prec(And)
    ensures IsComparison(a) ==> Prec(And) < Prec(a) < Prec(Add)
    ensures Prec(Add) == Prec(Sub) < Prec(Mul) == Prec(Div)
    ensures Prec(a) == Prec(b) <==>
      a == b || (IsComparison(a) && IsComparison(b))
      || ((a == Add || a == Sub) && (b == Add || b == Sub))
      || ((a == Mul || a == Div) && (b == Mul || b == Div))
  {
  }

  datatype Expr =
    | Read(name: Sym, idx: seq<Expr>)
    | Const(val: string)                 // `str(val)` of the literal
    | BinOp(op: Op, lhs: Expr, rhs: Expr)
    | USub(arg: Expr)
    | ParRange(lo: Expr, hi: Expr)

  datatype Stmt =
    | Pass
    | Assign(name: Sym, idx: seq<Expr>, rhs: Expr)
    | Reduce(name: Sym, idx: seq<Expr>, rhs: Expr)
    | Alloc(name: Sym, typ: string)      // `str` of the declared type
    | If(cond: Expr, body: seq<Stmt>, orelse: seq<Stmt>)
    | ForAll(iter: Sym, cond: Expr, body: seq<Stmt>)

  /** A procedure argument; `typ` and `effect` are their `str` forms. */
  datatype FnArg = FnArg(name: Sym, typ: string, effect: string)

  /** `name` is absent for an anonymous procedure. */
  datatype Proc = Proc(name: Option<string>, sizes: seq<Sym>, args: seq<FnArg>, body: seq<Stmt>)

  /** The four kinds of node the printer accepts at the top level. */
  datatype Node =
    | ProcNode(proc: Proc)
    | ArgNode(arg: FnArg)
    | StmtNode(stmt: Stmt)
    | ExprNode(expr: Expr)
}

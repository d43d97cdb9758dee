/** The statement renderer and the printer driver (`push`, `pop`,
    `addline`, `pstmts`, `pfnarg`, `pproc` and the constructor's dispatch).
    The printer's mutable fields become a `Printer` value threaded through
    every step; a Python exception becomes an `Err`. */
module StmtPrinter {

  import opened Outcomes
  import opened Text
  import opened Syntax
  import opened Scopes
  import opened Naming
  import opened ExprPrinter

  /** The printer's state: scope stack, current indentation, lines so far. */
  datatype Printer = Printer(env: Env, tab: string, lines: seq<string>)

  /** A fresh printer: one empty frame, no indentation, no lines. */
  function Start(): Printer {
    Printer(EmptyEnv(), "", [])
  }

  /** `push`: a new frame and two more spaces of indentation. */
  function Push(p: Printer): Printer {
    Printer(PushFrame(p.env), p.tab + "  ", p.lines)
  }

  /** `pop`: drop the innermost frame and the last two characters of the
      indentation (`_tab[:-2]`, which is empty when fewer remain). */
  function Pop(p: Printer): Printer
    requires |p.env| > 0
  {
    Printer(PopFrame(p.env), if |p.tab| >= 2 then p.tab[..|p.tab| - 2] else "", p.lines)
  }

  /** `pop` after `push` gives back the printer as it was: the frame the
      `push` opened is the one the `pop` drops, and the two spaces it added
      are the two the `pop` removes. */
  lemma PopUndoesPush(p: Printer)
    ensures Pop(Push(p)) == p
  {
    assert (p.tab + "  ")[..|p.tab|] == p.tab;
  }

  /** `addline`: append the line at the current indentation. */
  function AddLine(p: Printer, line: string): Printer {
    p.(lines := p.lines + [p.tab + line])
  }

  /** `new_name` on the printer's stack. */
  function BindName(p: Printer, x: Sym): Result<(string, Printer)>
    requires |p.env| > 0
  {
    var named :- NewName(p.env, x);
    Ok((named.0, p.(env := named.1)))
  }

  /** What rendering statements from `p` may lead to: as many frames, every
      frame but the innermost untouched, the same indentation, and the old
      lines followed by new ones that all begin with the indentation of `p`. */
  predicate Extends(p: Printer, q: Printer) {
    && |p.env| > 0 && |q.env| == |p.env|
    && q.env[..|p.env| - 1] == p.env[..|p.env| - 1]
    && q.tab == p.tab
    && p.lines <= q.lines
    && forall k :: |p.lines| <= k < |q.lines| ==> p.tab <= q.lines[k]
  }

  lemma ExtendsTransitive(p: Printer, q: Printer, r: Printer)
    requires Extends(p, q) && Extends(q, r)
    ensures Extends(p, r)
  {
    forall k | |p.lines| <= k < |r.lines|
      ensures p.tab <= r.lines[k]
    {
      if k < |q.lines| {
        assert r.lines[k] == q.lines[k];
      }
    }
  }

  /** A line added at the current indentation extends the printer. */
  lemma AddLineExtends(p: Printer, line: string)
    requires |p.env| > 0
    ensures Extends(p, AddLine(p, line))
  {
  }

  /** A block rendered between `push` and `pop` leaves the stack exactly as
      it was before the `push`, and its lines are indented deeper. */
  lemma BlockRestores(p: Printer, q: Printer)
    requires |p.env| > 0 && Extends(Push(p), q)
    ensures Pop(q).env == p.env
    ensures Extends(p, Pop(q))
  {
    assert PushFrame(p.env)[..|p.env|] == p.env;
    assert (p.tab + "  ")[..|p.tab|] == p.tab;
    forall k | |p.lines| <= k < |q.lines|
      ensures p.tab <= q.lines[k]
    {
      assert p.tab <= p.tab + "  ";
    }
  }

  /** `q` differs from `p` at most in the innermost frame. */
  predicate OnlyRebinds(p: Printer, q: Printer) {
    && |p.env| > 0 && |q.env| == |p.env|
    && q.env[..|p.env| - 1] == p.env[..|p.env| - 1]
    && q.tab == p.tab && q.lines == p.lines
  }

  lemma OnlyRebindsTransitive(p: Printer, q: Printer, r: Printer)
    requires OnlyRebinds(p, q) && OnlyRebinds(q, r)
    ensures OnlyRebinds(p, r)
  {
  }

  lemma OnlyRebindsExtends(p: Printer, q: Printer)
    requires OnlyRebinds(p, q)
    ensures Extends(p, q)
  {
  }

  /** Binding a name changes only the innermost frame. */
  lemma BindExtends(p: Printer, x: Sym)
    requires |p.env| > 0 && BindName(p, x).Ok?
    ensures OnlyRebinds(p, BindName(p, x).value.1)
    ensures Extends(p, BindName(p, x).value.1)
  {
  }

  /** `pstmts`: each statement in order. */
  function RenderStmts(p: Printer, body: seq<Stmt>): (r: Result<Printer>)
    requires |p.env| > 0
    ensures r.Ok? ==> Extends(p, r.value)
    decreases body, 1
  {
    if |body| == 0 then Ok(p)
    else
      var p1 :- RenderStmt(p, body[0]);
      var q :- RenderStmts(p1, body[1..]);
      assert Extends(p, q) by {
        ExtendsTransitive(p, p1, q);
      }
      Ok(q)
  }

  /** One statement of `pstmts`. Pass, Assign, Reduce and Alloc emit one
      line; If and ForAll emit a header line and render their bodies one
      frame and two spaces deeper. The Alloc branch is the corrected one,
      `<name> : <type>` with the statement's own type; the branch as the
      source writes it always raises, and is `AllocAsWritten`. */
  function RenderStmt(p: Printer, s: Stmt): (r: Result<Printer>)
    requires |p.env| > 0
    ensures r.Ok? ==> Extends(p, r.value)
    decreases s, 1
  {
    match s
    case Pass =>
      AddLineExtends(p, "pass");
      Ok(AddLine(p, "pass"))
    case Assign(x, idx, rhs) => RenderWrite(p, x, idx, rhs, "=")
    case Reduce(x, idx, rhs) => RenderWrite(p, x, idx, rhs, "+=")
    case Alloc(x, typ) =>
      var bound :- BindName(p, x);
      BindExtends(p, x);
      AddLineExtends(bound.1, bound.0 + " : " + typ);
      ExtendsTransitive(p, bound.1, AddLine(bound.1, bound.0 + " : " + typ));
      Ok(AddLine(bound.1, bound.0 + " : " + typ))
    case If(c, body, orelse) => RenderIf(p, c, body, orelse)
    case ForAll(i, c, body) => RenderLoop(p, i, c, body)
  }

  /** `if`: the header, the body between `push` and `pop`, then, when
      there is an else branch, `else:` and that branch the same way. */
  function RenderIf(p: Printer, c: Expr, body: seq<Stmt>, orelse: seq<Stmt>): (r: Result<Printer>)
    requires |p.env| > 0
    ensures r.Ok? ==> Extends(p, r.value)
    decreases If(c, body, orelse), 0
  {
    var cond := RenderExpr(p.env, c, 0);
    var p1 := AddLine(p, "if " + cond + ":");
    AddLineExtends(p, "if " + cond + ":");
    var p2 :- RenderStmts(Push(p1), body);
    BlockRestores(p1, p2);
    ExtendsTransitive(p, p1, Pop(p2));
    var p3 := Pop(p2);
    if |orelse| > 0 then
      var p4 := AddLine(p3, "else:");
      AddLineExtends(p3, "else:");
      ExtendsTransitive(p, p3, p4);
      var p5 :- RenderStmts(Push(p4), orelse);
      BlockRestores(p4, p5);
      ExtendsTransitive(p, p4, Pop(p5));
      Ok(Pop(p5))
    else
      Ok(p3)
  }

  /** `for`: the range is rendered before the loop variable is bound, and
      the loop variable is bound before the `push`, in the enclosing
      frame; then the header and the body one level deeper. */
  function RenderLoop(p: Printer, i: Sym, c: Expr, body: seq<Stmt>): (r: Result<Printer>)
    requires |p.env| > 0
    ensures r.Ok? ==> Extends(p, r.value)
    decreases ForAll(i, c, body), 0
  {
    var cond := RenderExpr(p.env, c, 0);
    var bound :- BindName(p, i);
    BindExtends(p, i);
    var p1 := AddLine(bound.1, "for " + bound.0 + " in " + cond + ":");
    AddLineExtends(bound.1, "for " + bound.0 + " in " + cond + ":");
    ExtendsTransitive(p, bound.1, p1);
    var p2 :- RenderStmts(Push(p1), body);
    BlockRestores(p1, p2);
    ExtendsTransitive(p, p1, Pop(p2));
    Ok(Pop(p2))
  }

  /** Assign and Reduce: the right-hand side and the indices are rendered
      first, then the target is re-bound (indexed or not), then the line
      `<target> <op> <rhs>` is emitted. */
  function RenderWrite(p: Printer, x: Sym, idx: seq<Expr>, rhs: Expr, op: string): (r: Result<Printer>)
    requires |p.env| > 0
    ensures r.Ok? ==> Extends(p, r.value)
  {
    var rhsText := RenderExpr(p.env, rhs, 0);
    var idxText := IndexText(p.env, idx);
    var bound :- BindName(p, x);
    BindExtends(p, x);
    var line := bound.0 + idxText + " " + op + " " + rhsText;
    AddLineExtends(bound.1, line);
    ExtendsTransitive(p, bound.1, AddLine(bound.1, line));
    Ok(AddLine(bound.1, line))
  }

  /** The Alloc branch as the source writes it: it binds the name, then
      reads a `type` attribute of the printer itself, which the printer
      does not have, so it always raises. */
  function AllocAsWritten(p: Printer, x: Sym, typ: string): (r: Result<Printer>)
    requires |p.env| > 0
    ensures r.Err?
    ensures NewName(p.env, x).Ok? ==> r == Err(AttributeError)
  {
    var bound :- BindName(p, x);
    Err(AttributeError)
  }

  /** `pfnarg`: binds the argument name, then returns
      `<name> : <type> @ <effect>` with the display name it now has; it
      fails exactly when the binding does. */
  function RenderFnArg(p: Printer, a: FnArg): (r: Result<(string, Printer)>)
    requires |p.env| > 0
    ensures r.Ok? <==> NewName(p.env, a.name).Ok?
    ensures r.Ok? ==> OnlyRebinds(p, r.value.1)
    ensures r.Ok? ==>
      && r.value.1.env == NewName(p.env, a.name).value.1
      && r.value.0 == GetName(r.value.1.env, a.name) + ArgTail(a)
  {
    var bound :- BindName(p, a.name);
    BindExtends(p, a.name);
    GetAfterNewName(p.env, a.name, a.name);
    Ok((bound.0 + ArgTail(a), bound.1))
  }

  /** What `pfnarg` prints after the name: ` : <type> @ <effect>`. */
  function ArgTail(a: FnArg): string {
    " : " + a.typ + " @ " + a.effect
  }

  /** The size parameters of `pproc`, left to right: `<name> : size`. */
  function RenderSizes(p: Printer, sizes: seq<Sym>): (r: Result<(seq<string>, Printer)>)
    requires |p.env| > 0
    ensures r.Ok? ==> |r.value.0| == |sizes| && OnlyRebinds(p, r.value.1)
    decreases sizes
  {
    if |sizes| == 0 then Ok(([], p))
    else
      var bound :- BindName(p, sizes[0]);
      BindExtends(p, sizes[0]);
      var more :- RenderSizes(bound.1, sizes[1..]);
      OnlyRebindsTransitive(p, bound.1, more.1);
      Ok(([bound.0 + " : size"] + more.0, more.1))
  }

  /** The raw names the arguments of `pproc` bind, left to right. */
  function ArgNames(args: seq<FnArg>): (xs: seq<Sym>)
    ensures |xs| == |args|
    ensures forall k :: 0 <= k < |args| ==> xs[k] == args[k].name
  {
    if |args| == 0 then [] else [args[0].name] + ArgNames(args[1..])
  }

  /** The arguments of `pproc`, left to right. */
  function RenderFnArgs(p: Printer, args: seq<FnArg>): (r: Result<(seq<string>, Printer)>)
    requires |p.env| > 0
    ensures r.Ok? ==> |r.value.0| == |args| && OnlyRebinds(p, r.value.1)
    decreases args
  {
    if |args| == 0 then Ok(([], p))
    else
      var first :- RenderFnArg(p, args[0]);
      var more :- RenderFnArgs(first.1, args[1..]);
      OnlyRebindsTransitive(p, first.1, more.1);
      Ok(([first.0] + more.0, more.1))
  }

  /** `p.name or "_anon_"`: a missing or empty name prints as `_anon_`,
      so the printed name is never empty. */
  function ProcName(name: Option<string>): (r: string)
    ensures |r| > 0
    ensures name.Some? && name.value != "" ==> r == name.value
  {
    match name
    case Some(n) => if n == "" then "_anon_" else n
    case None => "_anon_"
  }

  /** `pproc`: bind the sizes, then the arguments, emit the signature line,
      and render the body one frame and two spaces deeper. */
  function RenderProc(p: Printer, proc: Proc): (r: Result<Printer>)
    requires |p.env| > 0
    ensures r.Ok? ==> Extends(p, r.value)
  {
    var sizes :- RenderSizes(p, proc.sizes);
    var args :- RenderFnArgs(sizes.1, proc.args);
    OnlyRebindsExtends(p, args.1);
    var header := "def " + ProcName(proc.name) + "(" + Join(sizes.0 + args.0, ",") + "):";
    var p1 := AddLine(args.1, header);
    AddLineExtends(args.1, header);
    ExtendsTransitive(p, args.1, p1);
    var p2 :- RenderStmts(Push(p1), proc.body);
    BlockRestores(p1, p2);
    ExtendsTransitive(p, p1, Pop(p2));
    Ok(Pop(p2))
  }

  /** The printer's constructor: a fresh printer renders one node of any of
      the four kinds; the result is the list of lines. */
  function Print(node: Node): (r: Result<seq<string>>)
    ensures node.ArgNode? || node.ExprNode? ==> r.Ok? && |r.value| == 1
  {
    match node
    case ProcNode(proc) =>
      var q :- RenderProc(Start(), proc);
      Ok(q.lines)
    case ArgNode(a) =>
      // a fresh stack binds nothing, so binding the argument cannot fail
      var arg := RenderFnArg(Start(), a).value;
      Ok(AddLine(arg.1, arg.0).lines)
    case StmtNode(stmt) =>
      var q :- RenderStmts(Start(), [stmt]);
      Ok(q.lines)
    case ExprNode(e) =>
      Ok(AddLine(Start(), RenderExpr(Start().env, e, 0)).lines)
  }

  /** The text handed to the formatter: the lines joined by newlines. */
  function PrintText(node: Node): (r: Result<string>)
    ensures r.Ok? <==> Print(node).Ok?
    ensures r.Ok? && |Print(node).value| == 1 ==> r.value == Print(node).value[0]
  {
    var lines :- Print(node);
    Ok(Join(lines, "\n"))
  }
}

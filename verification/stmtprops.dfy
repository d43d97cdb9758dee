/** Properties of the statement renderer and the driver: where each line
    goes and how deep it is indented, what each construct does to the
    scope stack, the order of rendering and renaming, and when rendering
    can fail. */
module StmtProperties {

  import opened Outcomes
  import opened Text
  import opened Syntax
  import opened Scopes
  import opened Naming
  import opened ExprPrinter
  import opened StmtPrinter
  import opened LineTexts

  /** Two spaces per level. */
  function Indent(depth: nat): (s: string)
    ensures |s| == 2 * depth
  {
    if depth == 0 then "" else Indent(depth - 1) + "  "
  }

  /** The nesting depth of every line a statement emits, in order: one
      line at depth `d` for Pass, Assign, Reduce and Alloc; a header at `d`
      and the body at `d + 1` for If and ForAll, with `else:` at `d` when
      there is an else branch. */
  function StmtDepths(s: Stmt, d: nat): seq<nat>
    decreases s
  {
    match s
    case If(_, body, orelse) =>
      [d] + BodyDepths(body, d + 1) + (if |orelse| > 0 then [d] + BodyDepths(orelse, d + 1) else [])
    case ForAll(_, _, body) => [d] + BodyDepths(body, d + 1)
    case _ => [d]
  }

  function BodyDepths(ss: seq<Stmt>, d: nat): seq<nat>
    decreases ss
  {
    if |ss| == 0 then [] else StmtDepths(ss[0], d) + BodyDepths(ss[1..], d)
  }

  /** The lines a statement list adds, one per entry of `BodyDepths`, each
      beginning with the indentation of its depth. */
  predicate Laid(p: Printer, q: Printer, base: string, depths: seq<nat>) {
    && |q.lines| == |p.lines| + |depths|
    && forall k :: 0 <= k < |depths| ==> base + Indent(depths[k]) <= q.lines[|p.lines| + k]
  }

  lemma LaidConcat(p: Printer, q: Printer, r: Printer, base: string, a: seq<nat>, b: seq<nat>)
    requires Extends(p, q) && Extends(q, r)
    requires Laid(p, q, base, a) && Laid(q, r, base, b)
    ensures Laid(p, r, base, a + b)
  {
    forall k | 0 <= k < |a + b|
      ensures base + Indent((a + b)[k]) <= r.lines[|p.lines| + k]
    {
      if k < |a| {
        assert r.lines[|p.lines| + k] == q.lines[|p.lines| + k];
      } else {
        assert (a + b)[k] == b[k - |a|];
      }
    }
  }

  /** Line count and indentation: a statement list rendered at depth `d`
      adds exactly one line per entry of `BodyDepths(ss, d)`, each indented
      by two spaces per level of its depth. */
  lemma {:induction false} BodyLayout(p: Printer, ss: seq<Stmt>, base: string, d: nat)
    requires |p.env| > 0 && p.tab == base + Indent(d)
    requires RenderStmts(p, ss).Ok?
    ensures Laid(p, RenderStmts(p, ss).value, base, BodyDepths(ss, d))
    decreases ss, 1
  {
    if |ss| > 0 {
      var p1 := RenderStmt(p, ss[0]).value;
      StmtLayout(p, ss[0], base, d);
      BodyLayout(p1, ss[1..], base, d);
      LaidConcat(p, p1, RenderStmts(p, ss).value, base, StmtDepths(ss[0], d), BodyDepths(ss[1..], d));
    }
  }

  lemma {:induction false} StmtLayout(p: Printer, s: Stmt, base: string, d: nat)
    requires |p.env| > 0 && p.tab == base + Indent(d)
    requires RenderStmt(p, s).Ok?
    ensures Laid(p, RenderStmt(p, s).value, base, StmtDepths(s, d))
    decreases s, 1
  {
    match s
    case If(c, body, orelse) =>
      IfCase(p, c, body, orelse);
      IfLayout(p, c, body, orelse, base, d, RenderStmt(p, s).value);
    case ForAll(i, c, body) =>
      LoopCase(p, i, c, body);
      LoopLayout(p, i, c, body, base, d, RenderStmt(p, s).value);
    case _ =>
      LeafEmitsOneLine(p, s);
  }

  lemma {:induction false} IfLayout(p: Printer, c: Expr, body: seq<Stmt>, orelse: seq<Stmt>, base: string, d: nat, q: Printer)
    requires |p.env| > 0 && p.tab == base + Indent(d)
    requires RenderIf(p, c, body, orelse) == Ok(q)
    ensures Laid(p, q, base, [d] + BodyDepths(body, d + 1) + (if |orelse| > 0 then [d] + BodyDepths(orelse, d + 1) else []))
    decreases If(c, body, orelse), 0
  {
    var h := "if " + RenderExpr(p.env, c, 0) + ":";
    var p1 := AddLine(p, h);
    var p2 := RenderStmts(Push(p1), body).value;
    BlockLayout(p1, body, base, d);
    AddLineExtends(p, h);
    BlockRestores(p1, p2);
    HeaderBlock(p, p1, Pop(p2), base, d, BodyDepths(body, d + 1));
    var thenPart := [d] + BodyDepths(body, d + 1);
    if |orelse| > 0 {
      var p4 := AddLine(Pop(p2), "else:");
      var p5 := RenderStmts(Push(p4), orelse).value;
      BlockLayout(p4, orelse, base, d);
      AddLineExtends(Pop(p2), "else:");
      BlockRestores(p4, p5);
      HeaderBlock(Pop(p2), p4, Pop(p5), base, d, BodyDepths(orelse, d + 1));
      LaidConcat(p, Pop(p2), Pop(p5), base, thenPart, [d] + BodyDepths(orelse, d + 1));
      assert q == Pop(p5);
    } else {
      assert q == Pop(p2);
      assert thenPart + [] == thenPart;
    }
  }

  /** A header line at depth `d` followed by a block: the header's depth
      comes first. */
  lemma HeaderBlock(p: Printer, p1: Printer, q: Printer, base: string, d: nat, depths: seq<nat>)
    requires p.tab == base + Indent(d)
    requires Extends(p, p1) && Extends(p1, q) && |p1.lines| == |p.lines| + 1
    requires Laid(p1, q, base, depths)
    ensures Laid(p, q, base, [d] + depths) && Extends(p, q)
  {
    assert Laid(p, p1, base, [d]);
    LaidConcat(p, p1, q, base, [d], depths);
    ExtendsTransitive(p, p1, q);
  }

  lemma {:induction false} LoopLayout(p: Printer, i: Sym, c: Expr, body: seq<Stmt>, base: string, d: nat, q: Printer)
    requires |p.env| > 0 && p.tab == base + Indent(d)
    requires RenderLoop(p, i, c, body) == Ok(q)
    ensures Laid(p, q, base, [d] + BodyDepths(body, d + 1))
    decreases ForAll(i, c, body), 0
  {
    var bound := BindName(p, i).value;
    var h := "for " + bound.0 + " in " + RenderExpr(p.env, c, 0) + ":";
    var p1 := AddLine(bound.1, h);
    var p2 := RenderStmts(Push(p1), body).value;
    BindExtends(p, i);
    AddLineExtends(bound.1, h);
    ExtendsTransitive(p, bound.1, p1);
    BlockLayout(p1, body, base, d);
    BlockRestores(p1, p2);
    HeaderBlock(p, p1, Pop(p2), base, d, BodyDepths(body, d + 1));
    assert q == Pop(p2);
  }

  /** A block rendered one level deeper, between `push` and `pop`. */
  lemma {:induction false} BlockLayout(p1: Printer, body: seq<Stmt>, base: string, d: nat)
    requires |p1.env| > 0 && p1.tab == base + Indent(d)
    requires RenderStmts(Push(p1), body).Ok?
    ensures Laid(p1, Pop(RenderStmts(Push(p1), body).value), base, BodyDepths(body, d + 1))
    decreases body, 2
  {
    assert Push(p1).tab == base + Indent(d + 1);
    BodyLayout(Push(p1), body, base, d + 1);
  }

  /** Pass, Assign, Reduce and Alloc each emit exactly one line, at the
      current indentation. */
  lemma LeafEmitsOneLine(p: Printer, s: Stmt)
    requires |p.env| > 0 && !s.If? && !s.ForAll?
    requires RenderStmt(p, s).Ok?
    ensures |RenderStmt(p, s).value.lines| == |p.lines| + 1
    ensures p.tab <= RenderStmt(p, s).value.lines[|p.lines|]
  {
  }

  /** Assign and Reduce: the right-hand side and the indices are rendered
      with the stack as it was before the statement, and only then is the
      target re-bound, so the target always prints under a new display
      name when it was already bound, while reads of it on the right-hand
      side print under the old one. The statement changes nothing but the
      innermost frame and adds exactly one line. */
  lemma WriteRendersBeforeRenaming(p: Printer, s: Stmt)
    requires |p.env| > 0 && (s.Assign? || s.Reduce?)
    requires RenderStmt(p, s).Ok?
    ensures NewName(p.env, s.name).Ok?
    ensures var q := RenderStmt(p, s).value;
      var op := if s.Assign? then "=" else "+=";
      && q.env == NewName(p.env, s.name).value.1 && q.tab == p.tab
      && q.lines == p.lines + [p.tab + GetName(q.env, s.name) + IndexText(p.env, s.idx)
                                + " " + op + " " + RenderExpr(p.env, s.rhs, 0)]
      && (Bound(p.env, s.name.text) ==> GetName(q.env, s.name) != GetName(p.env, s.name))
  {
    var op := if s.Assign? then "=" else "+=";
    assert RenderStmt(p, s) == RenderWrite(p, s.name, s.idx, s.rhs, op);
    WriteLine(p, s.name, s.idx, s.rhs, op);
  }

  lemma WriteLine(p: Printer, x: Sym, idx: seq<Expr>, rhs: Expr, op: string)
    requires |p.env| > 0 && RenderWrite(p, x, idx, rhs, op).Ok?
    ensures NewName(p.env, x).Ok?
    ensures var q := RenderWrite(p, x, idx, rhs, op).value;
      && q.env == NewName(p.env, x).value.1 && q.tab == p.tab
      && q.lines == p.lines + [p.tab + GetName(q.env, x) + IndexText(p.env, idx)
                                + " " + op + " " + RenderExpr(p.env, rhs, 0)]
      && (Bound(p.env, x.text) ==> GetName(q.env, x) != GetName(p.env, x))
  {
    var (d, env') := NewName(p.env, x).value;
    var it := IndexText(p.env, idx);
    var rt := RenderExpr(p.env, rhs, 0);
    var q := RenderWrite(p, x, idx, rhs, op).value;
    assert q == AddLine(p.(env := env'), d + it + " " + op + " " + rt);
    GetAfterNewName(p.env, x, x);
    PrefixLine(p.tab, d, it, " ", op, " ", rt);
  }

  lemma PrefixLine(t: string, a: string, b: string, c: string, d: string, e: string, f: string)
    ensures t + (a + b + c + d + e + f) == t + a + b + c + d + e + f
  {
  }

  /** Alloc (as corrected): binds the name like any other declaration and
      emits `<name> : <type>`; it fails exactly when the binding fails. */
  lemma AllocDeclares(p: Printer, x: Sym, typ: string)
    requires |p.env| > 0
    ensures RenderStmt(p, Alloc(x, typ)).Ok? <==> NewName(p.env, x).Ok?
    ensures RenderStmt(p, Alloc(x, typ)).Ok? ==>
      var q := RenderStmt(p, Alloc(x, typ)).value;
      && q.env == NewName(p.env, x).value.1
      && q.lines == p.lines + [p.tab + GetName(q.env, x) + " : " + typ]
  {
    if NewName(p.env, x).Ok? {
      GetAfterNewName(p.env, x, x);
      var d := NewName(p.env, x).value.0;
      assert p.tab + (d + " : " + typ) == p.tab + d + " : " + typ;
    }
  }

  /** The Alloc branch as written never prints a line, while the corrected
      one prints the declaration whenever the name can be bound. */
  lemma AllocAsWrittenNeverPrints(p: Printer, x: Sym, typ: string)
    requires |p.env| > 0 && NewName(p.env, x).Ok?
    ensures AllocAsWritten(p, x, typ) == Err(AttributeError)
    ensures RenderStmt(p, Alloc(x, typ)).Ok?
  {
  }

  /** `pproc`: the signature line comes first, at the current indentation;
      the body follows one level deeper, one line per entry of its depth
      list; afterwards the indentation is what it was (every `push` met by
      its `pop`). */
  lemma ProcLayout(p: Printer, proc: Proc, q: Printer)
    requires |p.env| > 0 && RenderProc(p, proc) == Ok(q)
    ensures q.tab == p.tab
    ensures Laid(p, q, p.tab, [0] + BodyDepths(proc.body, 1))
    ensures p.tab + "def " + ProcName(proc.name) + "(" <= q.lines[|p.lines|]
  {
    var sizes := RenderSizes(p, proc.sizes).value;
    var args := RenderFnArgs(sizes.1, proc.args).value;
    OnlyRebindsExtends(p, args.1);
    var header := "def " + ProcName(proc.name) + "(" + Join(sizes.0 + args.0, ",") + "):";
    var p1 := AddLine(args.1, header);
    AddLineExtends(args.1, header);
    ExtendsTransitive(p, args.1, p1);
    var p2 := RenderStmts(Push(p1), proc.body).value;
    assert q == Pop(p2);
    assert p.tab == p.tab + Indent(0);
    BlockLayout(p1, proc.body, p.tab, 0);
    BlockRestores(p1, p2);
    HeaderBlock(p, p1, q, p.tab, 0, BodyDepths(proc.body, 1));
    KeepsLine(p1, q, |p.lines|);
    SignaturePrefix(p.tab, ProcName(proc.name), Join(sizes.0 + args.0, ","));
  }

  /** `pproc`'s signature line in full: `def <name>(<texts>):` at the
      current indentation, where the texts are the size texts followed by
      the argument texts, joined by commas. */
  lemma ProcSignature(p: Printer, proc: Proc, q: Printer)
    requires |p.env| > 0 && RenderProc(p, proc) == Ok(q)
    ensures RenderSizes(p, proc.sizes).Ok?
    ensures var sz := RenderSizes(p, proc.sizes).value;
      && RenderFnArgs(sz.1, proc.args).Ok?
      && q.lines[|p.lines|] == p.tab + ("def " + ProcName(proc.name) + "("
           + Join(sz.0 + RenderFnArgs(sz.1, proc.args).value.0, ",") + "):")
  {
    var sz := RenderSizes(p, proc.sizes).value;
    var ar := RenderFnArgs(sz.1, proc.args).value;
    SignatureLine(p, proc, sz, ar, q);
  }

  lemma SignatureLine(p: Printer, proc: Proc, sz: (seq<string>, Printer), ar: (seq<string>, Printer), q: Printer)
    requires |p.env| > 0 && RenderProc(p, proc) == Ok(q)
    requires RenderSizes(p, proc.sizes) == Ok(sz) && RenderFnArgs(sz.1, proc.args) == Ok(ar)
    ensures q.lines[|p.lines|] == p.tab + ("def " + ProcName(proc.name) + "(" + Join(sz.0 + ar.0, ",") + "):")
  {
    OnlyRebindsExtends(p, ar.1);
    var header := "def " + ProcName(proc.name) + "(" + Join(sz.0 + ar.0, ",") + "):";
    var p1 := AddLine(ar.1, header);
    AddLineExtends(ar.1, header);
    var p2 := RenderStmts(Push(p1), proc.body).value;
    assert q == Pop(p2);
    BlockRestores(p1, p2);
    KeepsLine(p1, q, |p.lines|);
  }

  lemma SignaturePrefix(t: string, n: string, a: string)
    ensures t + "def " + n + "(" <= t + ("def " + n + "(" + a + "):")
  {
    assert t + ("def " + n + "(" + a + "):") == (t + "def " + n + "(") + (a + "):");
  }

  /** Size parameters with distinct raw names, none of them bound yet, all
      print under their own names, in order. */
  lemma {:induction false} FreshSizesKeepNames(p: Printer, sizes: seq<Sym>)
    requires |p.env| > 0
    requires forall k :: 0 <= k < |sizes| ==> !Bound(p.env, sizes[k].text)
    requires forall j, k :: 0 <= j < k < |sizes| ==> sizes[j].text != sizes[k].text
    ensures RenderSizes(p, sizes).Ok?
    ensures forall k :: 0 <= k < |sizes| ==> RenderSizes(p, sizes).value.0[k] == sizes[k].text + " : size"
    decreases |sizes|
  {
    if |sizes| > 0 {
      var b := BindName(p, sizes[0]).value;
      var rest := sizes[1..];
      forall k | 0 <= k < |rest|
        ensures !Bound(b.1.env, rest[k].text)
      {
        assert rest[k] == sizes[k + 1];
      }
      forall j, k | 0 <= j < k < |rest|
        ensures rest[j].text != rest[k].text
      {
        assert rest[j] == sizes[j + 1] && rest[k] == sizes[k + 1];
      }
      FreshSizesKeepNames(b.1, rest);
      var more := RenderSizes(b.1, rest).value;
      var names := [sizes[0].text + " : size"] + more.0;
      assert RenderSizes(p, sizes).value.0 == names;
      forall k | 0 <= k < |sizes|
        ensures names[k] == sizes[k].text + " : size"
      {
        if k > 0 {
          assert names[k] == more.0[k - 1] && rest[k - 1] == sizes[k];
        }
      }
    }
  }

  /** Text `k` is the display name `xs[k]` has right after the first
      `k + 1` of the bindings of `xs`, followed by `tails[k]`. */
  predicate ShowsBindings(env: Env, xs: seq<Sym>, texts: seq<string>, tails: seq<string>)
    requires |env| > 0
  {
    && |texts| == |xs| && |tails| == |xs|
    && forall k :: 0 <= k < |xs| ==> ShowsBindingAt(env, xs, texts, tails, k)
  }

  predicate ShowsBindingAt(env: Env, xs: seq<Sym>, texts: seq<string>, tails: seq<string>, k: nat)
    requires |env| > 0 && k < |xs| && |texts| == |xs| && |tails| == |xs|
  {
    && BindAll(env, xs[..k + 1]).Ok?
    && texts[k] == GetName(BindAll(env, xs[..k + 1]).value, xs[k]) + tails[k]
  }

  /** What every size parameter prints after its name. */
  function SizeTails(n: nat): (t: seq<string>)
    ensures |t| == n && forall k :: 0 <= k < n ==> t[k] == " : size"
  {
    if n == 0 then [] else [" : size"] + SizeTails(n - 1)
  }

  /** What each argument prints after its name. */
  function ArgTails(args: seq<FnArg>): (t: seq<string>)
    ensures |t| == |args| && forall k :: 0 <= k < |args| ==> t[k] == ArgTail(args[k])
  {
    if |args| == 0 then [] else [ArgTail(args[0])] + ArgTails(args[1..])
  }

  /** One more binding in front: the name it returns, then the texts of
      the bindings that follow it. */
  lemma ShowsBindingsCons(env: Env, x: Sym, xs: seq<Sym>, texts: seq<string>, tails: seq<string>, tail: string)
    requires |env| > 0 && NewName(env, x).Ok?
    requires ShowsBindings(NewName(env, x).value.1, xs, texts, tails)
    ensures ShowsBindings(env, [x] + xs, [NewName(env, x).value.0 + tail] + texts, [tail] + tails)
  {
    var ys, ts, us := [x] + xs, [NewName(env, x).value.0 + tail] + texts, [tail] + tails;
    assert |ts| == |ys| && |us| == |ys|;
    forall k | 0 <= k < |ys|
      ensures ShowsBindingAt(env, ys, ts, us, k)
    {
      ConsStep(env, x, xs, texts, tails, tail, k);
    }
    assert ShowsBindings(env, ys, ts, us);
  }

  lemma ConsStep(env: Env, x: Sym, xs: seq<Sym>, texts: seq<string>, tails: seq<string>, tail: string, k: nat)
    requires |env| > 0 && NewName(env, x).Ok? && k <= |xs|
    requires ShowsBindings(NewName(env, x).value.1, xs, texts, tails)
    ensures ShowsBindingAt(env, [x] + xs, [NewName(env, x).value.0 + tail] + texts, [tail] + tails, k)
  {
    var e1 := NewName(env, x).value.1;
    var ys := [x] + xs;
    PrefixBinding(env, ys, k);
    DropFront(x, xs, k);
    if k == 0 {
      assert BindAll(e1, xs[..0]) == Ok(e1);
      GetAfterNewName(env, x, x);
    } else {
      var j := k - 1;
      assert ShowsBindingAt(e1, xs, texts, tails, j);
      assert ys[k] == xs[j];
    }
  }

  /** `pproc`'s size parameters: rendering them fails exactly when binding
      their raw names in turn does; the stack afterwards is the stack after
      those bindings; and text `k` is `<name> : size`, with the display name
      size `k` has just after its own binding. */
  lemma {:induction false} SizesShowBindings(p: Printer, sizes: seq<Sym>)
    requires |p.env| > 0
    ensures RenderSizes(p, sizes).Ok? <==> BindAll(p.env, sizes).Ok?
    ensures RenderSizes(p, sizes).Ok? ==>
      && BindAll(p.env, sizes) == Ok(RenderSizes(p, sizes).value.1.env)
      && ShowsBindings(p.env, sizes, RenderSizes(p, sizes).value.0, SizeTails(|sizes|))
    decreases |sizes|
  {
    if |sizes| == 0 {
      assert RenderSizes(p, sizes) == Ok(([], p));
    } else {
      var x, rest := sizes[0], sizes[1..];
      assert sizes == [x] + rest;
      BindAllFirst(p.env, x, rest);
      if NewName(p.env, x).Ok? {
        var (d, e1) := NewName(p.env, x).value;
        var p1 := p.(env := e1);
        assert BindName(p, x) == Ok((d, p1));
        SizesShowBindings(p1, rest);
        if RenderSizes(p1, rest).Ok? {
          var (more, q) := RenderSizes(p1, rest).value;
          assert RenderSizes(p, sizes) == Ok(([d + " : size"] + more, q));
          ShowsBindingsCons(p.env, x, rest, more, SizeTails(|rest|), " : size");
          assert SizeTails(|sizes|) == [" : size"] + SizeTails(|rest|);
        }
      }
    }
  }

  /** The arguments of `pproc`: rendering them fails exactly when binding
      their raw names in turn does; the stack afterwards is the stack after
      those bindings; and text `k` is `<name> : <type> @ <effect>`, with the
      display name argument `k` has just after its own binding. */
  lemma {:induction false} ArgsShowBindings(p: Printer, args: seq<FnArg>)
    requires |p.env| > 0
    ensures RenderFnArgs(p, args).Ok? <==> BindAll(p.env, ArgNames(args)).Ok?
    ensures RenderFnArgs(p, args).Ok? ==>
      && BindAll(p.env, ArgNames(args)) == Ok(RenderFnArgs(p, args).value.1.env)
      && ShowsBindings(p.env, ArgNames(args), RenderFnArgs(p, args).value.0, ArgTails(args))
    decreases |args|
  {
    if |args| == 0 {
      assert RenderFnArgs(p, args) == Ok(([], p));
    } else {
      var a, rest := args[0], args[1..];
      assert ArgNames(args) == [a.name] + ArgNames(rest);
      BindAllFirst(p.env, a.name, ArgNames(rest));
      if NewName(p.env, a.name).Ok? {
        var first := RenderFnArg(p, a).value;
        GetAfterNewName(p.env, a.name, a.name);
        ArgsShowBindings(first.1, rest);
        if RenderFnArgs(first.1, rest).Ok? {
          var (more, q) := RenderFnArgs(first.1, rest).value;
          assert RenderFnArgs(p, args) == Ok(([first.0] + more, q));
          ShowsBindingsCons(p.env, a.name, ArgNames(rest), more, ArgTails(rest), ArgTail(a));
          assert ArgTails(args) == [ArgTail(a)] + ArgTails(rest);
        }
      }
    }
  }

  /** A statement printed on its own: one line per entry of its depth
      list, each indented two spaces per level. */
  lemma PrintedStatementLayout(s: Stmt)
    requires Print(StmtNode(s)).Ok?
    ensures var lines := Print(StmtNode(s)).value;
      && |lines| == |StmtDepths(s, 0)|
      && forall k :: 0 <= k < |lines| ==> Indent(StmtDepths(s, 0)[k]) <= lines[k]
  {
    var p := Start();
    SingleStmt(p, s);
    var q := RenderStmt(p, s).value;
    assert Print(StmtNode(s)) == Ok(q.lines);
    LayoutFromStart(p, s, q);
  }

  lemma LayoutFromStart(p: Printer, s: Stmt, q: Printer)
    requires |p.env| > 0 && p.tab == "" && p.lines == [] && RenderStmt(p, s) == Ok(q)
    ensures |q.lines| == |StmtDepths(s, 0)|
    ensures forall k :: 0 <= k < |q.lines| ==> Indent(StmtDepths(s, 0)[k]) <= q.lines[k]
  {
    EmptyPrefix(Indent(0));
    StmtLayout(p, s, "", 0);
    LaidFromNothing(p, q, StmtDepths(s, 0));
  }

  lemma LaidFromNothing(p: Printer, q: Printer, depths: seq<nat>)
    requires p.lines == [] && Laid(p, q, "", depths)
    ensures |q.lines| == |depths|
    ensures forall k :: 0 <= k < |q.lines| ==> Indent(depths[k]) <= q.lines[k]
  {
    forall k | 0 <= k < |q.lines|
      ensures Indent(depths[k]) <= q.lines[k]
    {
      assert "" + Indent(depths[k]) <= q.lines[|p.lines| + k];
      EmptyPrefix(Indent(depths[k]));
    }
  }

  /** An argument printed on its own is its first binding, so it shows
      under its own name: `<name> : <type> @ <effect>`. An expression
      printed on its own is one line at context 0, where no name is bound,
      so every name in it shows as its `repr`. */
  lemma PrintedLeaves(a: FnArg, e: Expr)
    ensures Print(ArgNode(a)) == Ok([a.name.text + " : " + a.typ + " @ " + a.effect])
    ensures Print(ExprNode(e)) == Ok([RenderExpr(EmptyEnv(), e, 0)])
    ensures forall x: Sym :: GetName(EmptyEnv(), x) == x.reprText
  {
    var p := Start();
    assert !Bound(p.env, a.name.text);
    var arg := RenderFnArg(p, a).value;
    assert arg.0 == a.name.text + " : " + a.typ + " @ " + a.effect;
    assert arg.1.tab == "" && arg.1.lines == [];
    assert AddLine(arg.1, arg.0).lines == [] + ["" + arg.0];
    assert Print(ArgNode(a)) == Ok(AddLine(arg.1, arg.0).lines);
    assert [] + ["" + arg.0] == ["" + arg.0];
    EmptyPrefix(arg.0);
    assert AddLine(p, RenderExpr(p.env, e, 0)).lines == [] + ["" + RenderExpr(p.env, e, 0)];
    assert Print(ExprNode(e)) == Ok(AddLine(p, RenderExpr(p.env, e, 0)).lines);
    assert [] + ["" + RenderExpr(p.env, e, 0)] == ["" + RenderExpr(p.env, e, 0)];
    EmptyPrefix(RenderExpr(p.env, e, 0));
  }

  /** A line already emitted stays where it is. */
  lemma KeepsLine(p: Printer, q: Printer, k: nat)
    requires Extends(p, q) && k < |p.lines|
    ensures k < |q.lines| && q.lines[k] == p.lines[k]
  {
  }

  /** `if`: the condition is rendered with the stack as it was, the header
      comes first, and afterwards the stack and the indentation are back to
      what they were: nothing bound inside either branch stays visible. */
  lemma IfRestoresScope(p: Printer, c: Expr, body: seq<Stmt>, orelse: seq<Stmt>)
    requires |p.env| > 0 && RenderStmt(p, If(c, body, orelse)).Ok?
    ensures var q := RenderStmt(p, If(c, body, orelse)).value;
      && q.env == p.env && q.tab == p.tab
      && |q.lines| > |p.lines|
      && q.lines[|p.lines|] == p.tab + ("if " + RenderExpr(p.env, c, 0) + ":")
  {
    var p1 := AddLine(p, "if " + RenderExpr(p.env, c, 0) + ":");
    var p2 := RenderStmts(Push(p1), body).value;
    BlockRestores(p1, p2);
    var p3 := Pop(p2);
    if |orelse| > 0 {
      var p4 := AddLine(p3, "else:");
      var p5 := RenderStmts(Push(p4), orelse).value;
      BlockRestores(p4, p5);
      AddLineExtends(p3, "else:");
      ExtendsTransitive(p3, p4, Pop(p5));
      ExtendsTransitive(p1, p3, Pop(p5));
      KeepsLine(p1, Pop(p5), |p.lines|);
    } else {
      KeepsLine(p1, p3, |p.lines|);
    }
  }

  /** With an else branch, the `else:` line follows the lines of the
      then-branch, at the indentation of the header. */
  lemma IfElseLine(p: Printer, c: Expr, body: seq<Stmt>, orelse: seq<Stmt>)
    requires |p.env| > 0 && |orelse| > 0 && RenderStmt(p, If(c, body, orelse)).Ok?
    ensures var q := RenderStmt(p, If(c, body, orelse)).value;
      var at := |p.lines| + 1 + |BodyDepths(body, 1)|;
      at < |q.lines| && q.lines[at] == p.tab + "else:"
  {
    var p1 := AddLine(p, "if " + RenderExpr(p.env, c, 0) + ":");
    var p2 := RenderStmts(Push(p1), body).value;
    BlockLineCount(p1, body);
    BlockRestores(p1, p2);
    var p3 := Pop(p2);
    var p4 := AddLine(p3, "else:");
    var p5 := RenderStmts(Push(p4), orelse).value;
    BlockRestores(p4, p5);
    KeepsLine(p4, Pop(p5), |p3.lines|);
  }

  /** A block adds one line per entry of its depth list. */
  lemma BlockLineCount(p1: Printer, body: seq<Stmt>)
    requires |p1.env| > 0 && RenderStmts(Push(p1), body).Ok?
    ensures |Pop(RenderStmts(Push(p1), body).value).lines| == |p1.lines| + |BodyDepths(body, 1)|
  {
    assert p1.tab == p1.tab + Indent(0);
    BlockLayout(p1, body, p1.tab, 0);
  }

  /** `for`: the range is rendered with the stack as it was, then the loop
      variable is bound in the ENCLOSING frame, before the `push`; so the
      body sees the new display name, and so does everything after the
      loop: the binding outlives the loop. */
  lemma ForAllBindsInEnclosingFrame(p: Printer, i: Sym, c: Expr, body: seq<Stmt>)
    requires |p.env| > 0 && RenderStmt(p, ForAll(i, c, body)).Ok?
    ensures NewName(p.env, i).Ok?
    ensures var d := NewName(p.env, i).value.0;
      var q := RenderStmt(p, ForAll(i, c, body)).value;
      && q.env == NewName(p.env, i).value.1 && q.tab == p.tab
      && GetName(q.env, i) == d
      && |q.lines| > |p.lines|
      && q.lines[|p.lines|] == p.tab + ("for " + d + " in " + RenderExpr(p.env, c, 0) + ":")
  {
    var bound := BindName(p, i).value;
    GetAfterNewName(p.env, i, i);
    var p1 := AddLine(bound.1, "for " + bound.0 + " in " + RenderExpr(p.env, c, 0) + ":");
    var p2 := RenderStmts(Push(p1), body).value;
    BlockRestores(p1, p2);
    KeepsLine(p1, Pop(p2), |p.lines|);
  }

  /** `x = x + 1` after `x = 0` prints as `x_1 = x + 1`: the target is a
      new name, the read on the right is the old one. The variable is any
      symbol spelled `x`. */
  lemma SelfAssignmentExample(x: Sym)
    requires x.text == "x"
    ensures var first := Assign(x, [], Const("0"));
      var second := Assign(x, [], BinOp(Add, Read(x, []), Const("1")));
      && RenderStmts(Start(), [first, second]).Ok?
      && RenderStmts(Start(), [first, second]).value.lines == ["x = 0", "x_1 = x + 1"]
  {
    var rhs := BinOp(Add, Read(x, []), Const("1"));
    var first := Assign(x, [], Const("0"));
    var second := Assign(x, [], rhs);
    var p := Start();
    var e1 := [map["x" := "x"]];
    var e2 := [map["x" := "x_1"]];
    FirstBinding(x, "x");
    AssignLine(p, x, Const("0"), "x", e1, "0");
    AssignX();
    var p1 := Printer(e1, "", ["x = 0"]);
    assert [] + ["" + "x" + "" + " " + "=" + " " + "0"] == ["x = 0"];
    assert RenderStmt(p, first) == Ok(p1);
    Rebinding(e1, x, "x", "x_1", 0);
    XPlusOneText(x);
    AssignLine(p1, x, rhs, "x_1", e2, "x + 1");
    AssignX1();
    assert ["x = 0"] + ["" + "x_1" + "" + " " + "=" + " " + "x + 1"] == ["x = 0", "x_1 = x + 1"];
    TwoStmts(p, first, second);
    SingleStmt(p1, second);
  }

  /** An assignment to an unindexed name prints `<name> = <rhs>` and
      leaves the new binding. */
  lemma AssignLine(p: Printer, x: Sym, rhs: Expr, d: string, env': Env, rt: string)
    requires |p.env| > 0 && NewName(p.env, x) == Ok((d, env'))
    requires RenderExpr(p.env, rhs, 0) == rt
    ensures RenderStmt(p, Assign(x, [], rhs)) ==
      Ok(Printer(env', p.tab, p.lines + [p.tab + d + "" + " " + "=" + " " + rt]))
  {
    WriteRendersBeforeRenaming(p, Assign(x, [], rhs));
    GetAfterNewName(p.env, x, x);
    assert IndexText(p.env, []) == "";
    SamePrinter(RenderStmt(p, Assign(x, [], rhs)).value,
      Printer(env', p.tab, p.lines + [p.tab + d + "" + " " + "=" + " " + rt]));
  }

  lemma XPlusOneText(x: Sym)
    requires x.text == "x"
    ensures RenderExpr([map["x" := "x"]], BinOp(Add, Read(x, []), Const("1")), 0) == "x + 1"
  {
    var e := [map["x" := "x"]];
    LookupAt(e, "x", 0);
    assert IndexText(e, []) == "";
    PlusOne();
  }

  /** A loop whose body is `pass` prints its header and then `pass` two
      spaces deeper, and leaves the loop variable bound. */
  lemma PassLoopLines(p: Printer, i: Sym, c: Expr, d: string, env': Env, rt: string)
    requires |p.env| > 0 && NewName(p.env, i) == Ok((d, env'))
    requires RenderExpr(p.env, c, 0) == rt
    ensures RenderStmt(p, ForAll(i, c, [Pass])) ==
      Ok(Printer(env', p.tab, p.lines + [p.tab + ("for " + d + " in " + rt + ":"), (p.tab + "  ") + "pass"]))
  {
    var h := "for " + d + " in " + rt + ":";
    var p1 := AddLine(p.(env := env'), h);
    var l := AddLine(Push(p1), "pass");
    PassBody(Push(p1));
    ForAllStep(p, i, c, [Pass], d, env', l);
    PopAfterPush(p1, l);
    AppendTwo(p.lines, p.tab + h, (p.tab + "  ") + "pass");
  }

  lemma AppendTwo(s: seq<string>, x: string, y: string)
    ensures s + [x] + [y] == s + [x, y]
  {
  }

  /** A body of one `pass` adds one line. */
  lemma PassBody(q: Printer)
    requires |q.env| > 0
    ensures RenderStmts(q, [Pass]) == Ok(AddLine(q, "pass"))
  {
    SingleStmt(q, Pass);
  }

  /** One unfolding of the `for` case of `pstmts`. */
  lemma ForAllStep(p: Printer, i: Sym, c: Expr, body: seq<Stmt>, d: string, e: Env, p2: Printer)
    requires |p.env| > 0 && NewName(p.env, i) == Ok((d, e))
    requires RenderStmts(Push(AddLine(p.(env := e), "for " + d + " in " + RenderExpr(p.env, c, 0) + ":")), body) == Ok(p2)
    ensures RenderStmt(p, ForAll(i, c, body)) == Ok(Pop(p2))
  {
    var bound := BindName(p, i).value;
    assert bound == (d, p.(env := e));
    var p1 := AddLine(bound.1, "for " + bound.0 + " in " + RenderExpr(p.env, c, 0) + ":");
    assert RenderStmts(Push(p1), body) == Ok(p2);
    var r := RenderLoop(p, i, c, body).value;
    assert r.env == Pop(p2).env && r.tab == Pop(p2).tab && r.lines == Pop(p2).lines;
    SamePrinter(r, Pop(p2));
    LoopCase(p, i, c, body);
  }

  lemma SamePrinter(a: Printer, b: Printer)
    requires a.env == b.env && a.tab == b.tab && a.lines == b.lines
    ensures a == b
  {
  }

  /** The `if` case of `pstmts` is `RenderIf`. */
  lemma IfCase(p: Printer, c: Expr, body: seq<Stmt>, orelse: seq<Stmt>)
    requires |p.env| > 0
    ensures RenderStmt(p, If(c, body, orelse)) == RenderIf(p, c, body, orelse)
  {
  }

  /** The `for` case of `pstmts` is `RenderLoop`. */
  lemma LoopCase(p: Printer, i: Sym, c: Expr, body: seq<Stmt>)
    requires |p.env| > 0
    ensures RenderStmt(p, ForAll(i, c, body)) == RenderLoop(p, i, c, body)
  {
  }

  /** `pop` after `push` and some lines restores the stack and the
      indentation. */
  lemma PopAfterPush(q: Printer, l: Printer)
    requires l.env == Push(q).env && l.tab == Push(q).tab
    ensures Pop(l) == Printer(q.env, q.tab, l.lines)
  {
    assert (q.tab + "  ")[..|q.tab + "  "| - 2] == q.tab;
  }

  /** A one-statement list renders as that statement. */
  lemma SingleStmt(p: Printer, s: Stmt)
    requires |p.env| > 0
    ensures RenderStmts(p, [s]) == RenderStmt(p, s)
  {
    if RenderStmt(p, s).Ok? {
      var q := RenderStmt(p, s).value;
      assert [s][1..] == [];
      assert RenderStmts(q, []) == Ok(q);
    }
  }

  /** A two-statement list renders the second from where the first ends. */
  lemma TwoStmts(p: Printer, a: Stmt, b: Stmt)
    requires |p.env| > 0 && RenderStmt(p, a).Ok?
    ensures RenderStmts(p, [a, b]) == RenderStmts(RenderStmt(p, a).value, [b])
  {
    assert [a, b][1..] == [b];
  }

  /** A loop nested in a loop over the same variable prints it as `i_1`;
      after both loops close, a sibling loop over it also prints `i_1`,
      because the outer loop's `i` is still bound in the enclosing frame.
      The loop variable is any symbol spelled `i`; `n` is unbound and
      prints as its `repr`. */
  lemma NestedLoopsExample(i: Sym, n: Sym)
    requires i.text == "i" && n == Sym("n", "n")
    ensures var inner := ForAll(i, ParRange(Const("0"), Read(i, [])), [Pass]);
      var outer := ForAll(i, ParRange(Const("0"), Read(n, [])), [inner]);
      var sibling := ForAll(i, ParRange(Const("0"), Read(n, [])), [Pass]);
      && RenderStmts(Start(), [outer, sibling]).Ok?
      && RenderStmts(Start(), [outer, sibling]).value.lines ==
        [ "for i in par(0,n):",
          "  for i_1 in par(0,i):",
          "    pass",
          "for i_1 in par(0,n):",
          "  pass" ]
  {
    var range := ParRange(Const("0"), Read(n, []));
    var inner := ForAll(i, ParRange(Const("0"), Read(i, [])), [Pass]);
    var outer := ForAll(i, range, [inner]);
    var sibling := ForAll(i, range, [Pass]);
    var e1 := [map["i" := "i"]];
    var first := ["for i in par(0,n):", "  for i_1 in par(0,i):", "    pass"];
    var afterOuter := Printer(e1, "", first);
    OuterLoopExample(i, n);
    Rebinding(e1, i, "i", "i_1", 0);
    RangeText(e1, n);
    PassLoopLines(afterOuter, i, range, "i_1", [map["i" := "i_1"]], "par(0,n)");
    TwoStmts(Start(), outer, sibling);
    SingleStmt(afterOuter, sibling);
    ForI1Header();
    PassAtDepth1();
    AppendTwo(first, "for i_1 in par(0,n):", "  pass");
  }

  /** The outer loop of `NestedLoopsExample` on its own. */
  lemma OuterLoopExample(i: Sym, n: Sym)
    requires i.text == "i" && n == Sym("n", "n")
    ensures var inner := ForAll(i, ParRange(Const("0"), Read(i, [])), [Pass]);
      var outer := ForAll(i, ParRange(Const("0"), Read(n, [])), [inner]);
      RenderStmt(Start(), outer) ==
        Ok(Printer([map["i" := "i"]], "", ["for i in par(0,n):", "  for i_1 in par(0,i):", "    pass"]))
  {
    var range := ParRange(Const("0"), Read(n, []));
    var inner := ForAll(i, ParRange(Const("0"), Read(i, [])), [Pass]);
    var p := Start();
    var e1 := [map["i" := "i"]];
    FirstBinding(i, "i");
    RangeText(p.env, n);
    var h1 := "for " + "i" + " in " + RenderExpr(p.env, range, 0) + ":";
    var p1 := AddLine(p.(env := e1), h1);
    ForIHeader();
    assert p1.lines == ["for i in par(0,n):"];
    var lines := ["for i in par(0,n):", "  for i_1 in par(0,i):", "    pass"];
    InnerLoopExample(i, ["for i in par(0,n):"]);
    FirstIndent();
    assert Push(p1) == Printer(PushFrame(e1), "  ", ["for i in par(0,n):"]);
    assert ["for i in par(0,n):"] + ["  for i_1 in par(0,i):", "    pass"] == lines;
    var r := Printer([map["i" := "i"], map["i" := "i_1"]], "  ", lines);
    ForAllStep(p, i, range, [inner], "i", e1, r);
    Rebinding(e1, i, "i", "i_1", 1);
    assert Pop(r) == Printer(e1, "", lines);
  }

  /** The inner loop of `NestedLoopsExample`, one frame inside the outer
      loop's binding of `i`. */
  lemma InnerLoopExample(i: Sym, top: seq<string>)
    requires i.text == "i"
    ensures var inner := ForAll(i, ParRange(Const("0"), Read(i, [])), [Pass]);
      RenderStmts(Printer(PushFrame([map["i" := "i"]]), "  ", top), [inner]) ==
        Ok(Printer([map["i" := "i"], map["i" := "i_1"]], "  ", top + ["  for i_1 in par(0,i):", "    pass"]))
  {
    var innerRange := ParRange(Const("0"), Read(i, []));
    var inner := ForAll(i, innerRange, [Pass]);
    var in1 := Printer(PushFrame([map["i" := "i"]]), "  ", top);
    var e2 := [map["i" := "i"], map["i" := "i_1"]];
    Rebinding([map["i" := "i"]], i, "i", "i_1", 1);
    InnerRangeText(i);
    PassLoopLines(in1, i, innerRange, "i_1", e2, "par(0,i)");
    ForI1InnerHeader();
    PassAtDepth2();
    SingleStmt(in1, inner);
  }

  /** The first binding of a name binds it to itself. */
  lemma FirstBinding(x: Sym, s: string)
    requires x.text == s
    ensures NewName(Start().env, x) == Ok((s, [map[s := s]]))
  {
    assert [map[]][0 := map[][s := s]] == [map[s := s]];
  }

  /** A name bound to itself in the bottom frame is rebound to `<s>_1`:
      in that frame when nothing is above it (`above == 0`), in a new
      frame above it otherwise; dropping that frame brings back the first
      binding. */
  lemma Rebinding(e: Env, x: Sym, s: string, s1: string, above: nat)
    requires (s == "i" && s1 == "i_1") || (s == "x" && s1 == "x_1")
    requires x.text == s && e == [map[s := s]] && above <= 1
    ensures above == 0 ==> NewName(e, x) == Ok((s1, [map[s := s1]]))
    ensures above == 1 ==> NewName(PushFrame(e), x) == Ok((s1, [map[s := s], map[s := s1]]))
    ensures PopFrame([map[s := s], map[s := s1]]) == e
  {
    FirstCounter();
    assert TrailingDigits(s) == "";
    assert CounterMatch(s).None?;
    RebindAppends(s);
    if above == 0 {
      RebindInPlace(e, x, s, s1);
    } else {
      RebindAbove(e, x, s, s1);
    }
  }

  lemma RebindInPlace(e: Env, x: Sym, s: string, s1: string)
    requires x.text == s && e == [map[s := s]] && Rebind(s) == Ok(s1)
    ensures NewName(e, x) == Ok((s1, [map[s := s1]]))
  {
    LookupAt(e, s, 0);
    assert e[0][s := s1] == map[s := s1];
    assert e[0 := e[0][s := s1]] == [map[s := s1]];
  }

  lemma RebindAbove(e: Env, x: Sym, s: string, s1: string)
    requires x.text == s && e == [map[s := s]] && Rebind(s) == Ok(s1)
    ensures NewName(PushFrame(e), x) == Ok((s1, [map[s := s], map[s := s1]]))
  {
    var f := PushFrame(e);
    assert f == [map[s := s], map[]];
    LookupAt(f, s, 0);
    assert f[1 := f[1][s := s1]] == [map[s := s], map[s := s1]];
  }

  lemma RangeText(env: Env, n: Sym)
    requires !Bound(env, "n") && n == Sym("n", "n")
    ensures RenderExpr(env, ParRange(Const("0"), Read(n, [])), 0) == "par(0,n)"
  {
    assert IndexText(env, []) == "";
  }

  lemma InnerRangeText(i: Sym)
    requires i.text == "i"
    ensures RenderExpr(PushFrame([map["i" := "i"]]), ParRange(Const("0"), Read(i, [])), 0) == "par(0,i)"
  {
    var e := PushFrame([map["i" := "i"]]);
    assert e == [map["i" := "i"], map[]];
    LookupAt(e, "i", 0);
    assert IndexText(e, []) == "";
  }
}

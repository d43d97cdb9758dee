/** Unambiguity of the expression renderer. The rendered text is the
    spelling of a token sequence (`Toks`), and a left-associative
    precedence-climbing parser over those tokens reads back exactly the
    rendered tree, with identifiers replaced by their display names. This
    is the property the parenthesization rules exist for: the printer puts
    in every parenthesis the table requires. Identifiers and literals are
    single opaque tokens, so the statement is about token sequences, not
    about re-lexing the characters. */
module ExprTokens {

  import opened Outcomes
  import opened Text
  import opened Syntax
  import opened Scopes
  import opened Naming
  import opened ExprPrinter

  datatype Tok =
    | TName(name: string)
    | TConst(val: string)
    | TOp(op: Op)
    | TNeg
    | TLParen
    | TRParen
    | TLBrack
    | TRBrack
    | TComma
    | TParOpen

  function TokText(t: Tok): string {
    match t
    case TName(s) => s
    case TConst(s) => s
    case TOp(op) => " " + OpText(op) + " "
    case TNeg => "-"
    case TLParen => "("
    case TRParen => ")"
    case TLBrack => "["
    case TRBrack => "]"
    case TComma => ","
    case TParOpen => "par("
  }

  /** The characters of a token sequence. */
  function Spell(ts: seq<Tok>): string {
    if |ts| == 0 then "" else TokText(ts[0]) + Spell(ts[1..])
  }

  lemma {:induction false} SpellAppend(a: seq<Tok>, b: seq<Tok>)
    ensures Spell(a + b) == Spell(a) + Spell(b)
  {
    if |a| == 0 {
      assert a + b == b;
    } else {
      assert (a + b)[1..] == a[1..] + b;
      SpellAppend(a[1..], b);
    }
  }

  lemma SpellOne(t: Tok)
    ensures Spell([t]) == TokText(t)
  {
    assert [t][1..] == [];
  }

  /** The token sequence `pexpr` spells out, with the same parentheses. */
  function Toks(env: Env, e: Expr, prec: int): seq<Tok>
    decreases e
  {
    match e
    case Read(x, idx) =>
      [TName(GetName(env, x))] + (if |idx| > 0 then [TLBrack] + IndexToks(env, idx) + [TRBrack] else [])
    case Const(v) => [TConst(v)]
    case BinOp(op, lhs, rhs) =>
      var p := Prec(op);
      var ts := Toks(env, lhs, p) + [TOp(op)] + Toks(env, rhs, p + 1);
      if p < prec then [TLParen] + ts + [TRParen] else ts
    case USub(arg) => [TNeg] + Toks(env, arg, UnaryPrec)
    case ParRange(lo, hi) => [TParOpen] + Toks(env, lo, 0) + [TComma] + Toks(env, hi, 0) + [TRParen]
  }

  /** Index expressions at context 0, separated by commas. */
  function IndexToks(env: Env, idx: seq<Expr>): seq<Tok>
    decreases idx
  {
    if |idx| == 0 then []
    else if |idx| == 1 then Toks(env, idx[0], 0)
    else Toks(env, idx[0], 0) + [TComma] + IndexToks(env, idx[1..])
  }

  /** The tokens spell exactly the text `pexpr` returns. */
  lemma {:induction false} SpellToks(env: Env, e: Expr, prec: int)
    ensures Spell(Toks(env, e, prec)) == RenderExpr(env, e, prec)
    decreases e
  {
    match e
    case Read(x, idx) =>
      SpellOne(TName(GetName(env, x)));
      if |idx| > 0 {
        SpellIndexToks(env, idx);
        SpellBracketed(TName(GetName(env, x)), TLBrack, IndexToks(env, idx), TRBrack);
        Regroup(GetName(env, x), "[" + Join(RenderIndices(env, idx), ","), "]");
        Regroup(GetName(env, x), "[", Join(RenderIndices(env, idx), ","));
      } else {
        assert Toks(env, e, prec) == [TName(GetName(env, x))];
      }
    case Const(v) =>
      SpellOne(TConst(v));
    case BinOp(op, lhs, rhs) =>
      SpellToks(env, lhs, Prec(op));
      SpellToks(env, rhs, Prec(op) + 1);
      SpellBinOp(env, op, lhs, rhs, prec);
    case USub(arg) =>
      SpellToks(env, arg, UnaryPrec);
      SpellAppend([TNeg], Toks(env, arg, UnaryPrec));
      SpellOne(TNeg);
    case ParRange(lo, hi) =>
      SpellToks(env, lo, 0);
      SpellToks(env, hi, 0);
      SpellParRange(env, lo, hi, prec);
  }

  /** Regrouping a concatenation of three strings. */
  lemma Regroup(x: string, y: string, z: string)
    ensures x + (y + z) == x + y + z
  {
  }

  lemma SpellBinOp(env: Env, op: Op, lhs: Expr, rhs: Expr, prec: int)
    requires Spell(Toks(env, lhs, Prec(op))) == RenderExpr(env, lhs, Prec(op))
    requires Spell(Toks(env, rhs, Prec(op) + 1)) == RenderExpr(env, rhs, Prec(op) + 1)
    ensures Spell(Toks(env, BinOp(op, lhs, rhs), prec)) == RenderExpr(env, BinOp(op, lhs, rhs), prec)
  {
    var p := Prec(op);
    var ts := Toks(env, lhs, p) + [TOp(op)] + Toks(env, rhs, p + 1);
    var text := RenderExpr(env, lhs, p) + " " + OpText(op) + " " + RenderExpr(env, rhs, p + 1);
    SpellOperands(Toks(env, lhs, p), op, Toks(env, rhs, p + 1), RenderExpr(env, lhs, p), RenderExpr(env, rhs, p + 1));
    if p < prec {
      SpellParens(ts, text);
    }
  }

  lemma SpellOperands(l: seq<Tok>, op: Op, r: seq<Tok>, sl: string, sr: string)
    requires Spell(l) == sl && Spell(r) == sr
    ensures Spell(l + [TOp(op)] + r) == sl + " " + OpText(op) + " " + sr
  {
    calc {
      Spell(l + [TOp(op)] + r);
      == { SpellAppend(l + [TOp(op)], r); }
      Spell(l + [TOp(op)]) + sr;
      == { SpellAppend(l, [TOp(op)]); SpellOne(TOp(op)); }
      sl + (" " + OpText(op) + " ") + sr;
      == { Regroup(sl, " " + OpText(op), " "); Regroup(sl, " ", OpText(op)); }
      sl + " " + OpText(op) + " " + sr;
    }
  }

  lemma SpellParens(ts: seq<Tok>, text: string)
    requires Spell(ts) == text
    ensures Spell([TLParen] + ts + [TRParen]) == "(" + text + ")"
  {
    calc {
      Spell([TLParen] + ts + [TRParen]);
      == { SpellAppend([TLParen] + ts, [TRParen]); SpellOne(TRParen); }
      Spell([TLParen] + ts) + ")";
      == { SpellAppend([TLParen], ts); SpellOne(TLParen); }
      "(" + text + ")";
    }
  }

  lemma SpellParRange(env: Env, lo: Expr, hi: Expr, prec: int)
    requires Spell(Toks(env, lo, 0)) == RenderExpr(env, lo, 0)
    requires Spell(Toks(env, hi, 0)) == RenderExpr(env, hi, 0)
    ensures Spell(Toks(env, ParRange(lo, hi), prec)) == RenderExpr(env, ParRange(lo, hi), prec)
  {
    ParToks(env, lo, hi, prec);
    SpellPar(Toks(env, lo, 0), Toks(env, hi, 0), RenderExpr(env, lo, 0), RenderExpr(env, hi, 0));
  }

  lemma SpellPar(l: seq<Tok>, h: seq<Tok>, sl: string, sh: string)
    requires Spell(l) == sl && Spell(h) == sh
    ensures Spell([TParOpen] + l + [TComma] + h + [TRParen]) == "par(" + sl + "," + sh + ")"
  {
    var a := [TParOpen] + l + [TComma];
    calc {
      Spell(a + h + [TRParen]);
      == { SpellAppend(a + h, [TRParen]); SpellOne(TRParen); }
      Spell(a + h) + ")";
      == { SpellAppend(a, h); }
      Spell(a) + sh + ")";
      == { SpellAppend([TParOpen] + l, [TComma]); SpellOne(TComma); }
      Spell([TParOpen] + l) + "," + sh + ")";
      == { SpellAppend([TParOpen], l); SpellOne(TParOpen); }
      "par(" + sl + "," + sh + ")";
    }
  }

  /** Spelling of `a` followed by `open ts close`. */
  lemma SpellBracketed(a: Tok, open: Tok, ts: seq<Tok>, close: Tok)
    ensures Spell([a] + ([open] + ts + [close])) == TokText(a) + TokText(open) + Spell(ts) + TokText(close)
  {
    var x, y, z, w := TokText(a), TokText(open), Spell(ts), TokText(close);
    calc {
      Spell([a] + ([open] + ts + [close]));
      == { SpellAppend([a], [open] + ts + [close]); SpellOne(a); }
      x + Spell([open] + ts + [close]);
      == { SpellAppend([open] + ts, [close]); SpellOne(close); }
      x + (Spell([open] + ts) + w);
      == { SpellAppend([open], ts); SpellOne(open); }
      x + ((y + z) + w);
      == { Regroup(x, y + z, w); }
      (x + (y + z)) + w;
      == { Regroup(x, y, z); }
      x + y + z + w;
    }
  }

  lemma {:induction false} SpellIndexToks(env: Env, idx: seq<Expr>)
    ensures Spell(IndexToks(env, idx)) == Join(RenderIndices(env, idx), ",")
    decreases idx
  {
    if |idx| == 1 {
      SpellToks(env, idx[0], 0);
    } else if |idx| > 1 {
      var parts := RenderIndices(env, idx);
      SpellToks(env, idx[0], 0);
      SpellIndexToks(env, idx[1..]);
      assert parts[1..] == RenderIndices(env, idx[1..]);
      SpellOperandsComma(Toks(env, idx[0], 0), IndexToks(env, idx[1..]), parts[0], Join(parts[1..], ","));
    }
  }

  lemma SpellOperandsComma(l: seq<Tok>, r: seq<Tok>, sl: string, sr: string)
    requires Spell(l) == sl && Spell(r) == sr
    ensures Spell(l + [TComma] + r) == sl + "," + sr
  {
    SpellAppend(l + [TComma], r);
    SpellAppend(l, [TComma]);
    SpellOne(TComma);
  }

  /** A rendered tree with identifiers replaced by their display names:
      what a reader of the text can recover. */
  datatype Term =
    | TmRead(name: string, idx: seq<Term>)
    | TmConst(val: string)
    | TmBin(op: Op, lhs: Term, rhs: Term)
    | TmNeg(arg: Term)
    | TmPar(lo: Term, hi: Term)

  function Resolve(env: Env, e: Expr): Term
    decreases e
  {
    match e
    case Read(x, idx) => TmRead(GetName(env, x), ResolveAll(env, idx))
    case Const(v) => TmConst(v)
    case BinOp(op, lhs, rhs) => TmBin(op, Resolve(env, lhs), Resolve(env, rhs))
    case USub(arg) => TmNeg(Resolve(env, arg))
    case ParRange(lo, hi) => TmPar(Resolve(env, lo), Resolve(env, hi))
  }

  function ResolveAll(env: Env, idx: seq<Expr>): (ts: seq<Term>)
    ensures |ts| == |idx|
    ensures forall i :: 0 <= i < |idx| ==> ts[i] == Resolve(env, idx[i])
    decreases idx
  {
    if |idx| == 0 then [] else [Resolve(env, idx[0])] + ResolveAll(env, idx[1..])
  }

  /** Precedence climbing: a primary, then every operator of level at
      least `minPrec`, each right operand parsed one level higher. */
  function ParseExpr(ts: seq<Tok>, minPrec: int): (r: Option<(Term, seq<Tok>)>)
    ensures r.Some? ==> |r.value.1| < |ts|
    decreases |ts|, 2
  {
    var first :- ParsePrimary(ts);
    ParseLoop(first.0, first.1, minPrec)
  }

  function ParseLoop(lhs: Term, ts: seq<Tok>, minPrec: int): (r: Option<(Term, seq<Tok>)>)
    ensures r.Some? ==> |r.value.1| <= |ts|
    decreases |ts|, 0
  {
    if |ts| > 0 && ts[0].TOp? && Prec(ts[0].op) >= minPrec then
      var rhs :- ParseExpr(ts[1..], Prec(ts[0].op) + 1);
      ParseLoop(TmBin(ts[0].op, lhs, rhs.0), rhs.1, minPrec)
    else
      Some((lhs, ts))
  }

  function ParsePrimary(ts: seq<Tok>): (r: Option<(Term, seq<Tok>)>)
    ensures r.Some? ==> |r.value.1| < |ts|
    decreases |ts|, 1
  {
    if |ts| == 0 then None
    else
      match ts[0]
      case TName(s) =>
        if |ts| > 1 && ts[1] == TLBrack then
          var idx :- ParseIndices(ts[2..]);
          Some((TmRead(s, idx.0), idx.1))
        else
          Some((TmRead(s, []), ts[1..]))
      case TConst(v) => Some((TmConst(v), ts[1..]))
      case TNeg =>
        var arg :- ParseExpr(ts[1..], UnaryPrec);
        Some((TmNeg(arg.0), arg.1))
      case TLParen =>
        var inner :- ParseExpr(ts[1..], 0);
        if |inner.1| > 0 && inner.1[0] == TRParen then Some((inner.0, inner.1[1..])) else None
      case TParOpen =>
        var lo :- ParseExpr(ts[1..], 0);
        if |lo.1| > 0 && lo.1[0] == TComma then
          var hi :- ParseExpr(lo.1[1..], 0);
          if |hi.1| > 0 && hi.1[0] == TRParen then Some((TmPar(lo.0, hi.0), hi.1[1..])) else None
        else None
      case _ => None
  }

  /** Comma-separated expressions up to and including the closing `]`. */
  function ParseIndices(ts: seq<Tok>): (r: Option<(seq<Term>, seq<Tok>)>)
    ensures r.Some? ==> |r.value.1| < |ts|
    decreases |ts|, 3
  {
    var first :- ParseExpr(ts, 0);
    if |first.1| > 0 && first.1[0] == TComma then
      var more :- ParseIndices(first.1[1..]);
      Some(([first.0] + more.0, more.1))
    else if |first.1| > 0 && first.1[0] == TRBrack then
      Some(([first.0], first.1[1..]))
    else None
  }

  /** What may follow an expression rendered at context `prec`: the end, a
      closing bracket or comma, or an operator that does not bind tighter
      than the context. */
  predicate Follows(rest: seq<Tok>, prec: int) {
    |rest| == 0 || rest[0] == TRParen || rest[0] == TRBrack || rest[0] == TComma
    || (rest[0].TOp? && Prec(rest[0].op) <= prec)
  }

  /** The core of the round trip: parsing the tokens of `e` followed by
      anything that may follow it continues exactly as if `e` itself had
      been parsed as one primary. */
  lemma {:induction false} ParseRendered(env: Env, e: Expr, prec: int, minPrec: int, rest: seq<Tok>)
    requires minPrec <= prec
    requires Follows(rest, prec)
    ensures ParseExpr(Toks(env, e, prec) + rest, minPrec) == ParseLoop(Resolve(env, e), rest, minPrec)
    decreases e, if Wrapped(e, prec) then 3 else 1
  {
    match e
    case Read(x, idx) =>
      if |idx| > 0 {
        ParseRenderedIndices(env, idx, rest);
      }
      ParseRead(env, x, idx, prec, minPrec, rest);
    case Const(v) =>
      ParseConst(env, v, prec, minPrec, rest);
    case BinOp(op, lhs, rhs) =>
      ParseRenderedBin(env, op, lhs, rhs, prec, minPrec, rest);
    case USub(arg) =>
      FollowsUnary(rest, prec);
      ParseRendered(env, arg, UnaryPrec, UnaryPrec, rest);
      ParseNeg(env, arg, prec, minPrec, rest);
    case ParRange(lo, hi) =>
      var hiRest := [TRParen] + rest;
      var loRest := [TComma] + (Toks(env, hi, 0) + hiRest);
      FollowsCloser(TComma, Toks(env, hi, 0) + hiRest, 0);
      FollowsCloser(TRParen, rest, 0);
      ParseRendered(env, lo, 0, 0, loRest);
      ParseRendered(env, hi, 0, 0, hiRest);
      ParsePar(env, lo, hi, prec, minPrec, rest);
  }

  /** The binary case of the round trip: a wrapped operation is parsed as
      a parenthesized one, an unwrapped one operand by operand. */
  lemma {:induction false} ParseRenderedBin(env: Env, op: Op, lhs: Expr, rhs: Expr, prec: int, minPrec: int, rest: seq<Tok>)
    requires minPrec <= prec
    requires Follows(rest, prec)
    ensures ParseExpr(Toks(env, BinOp(op, lhs, rhs), prec) + rest, minPrec) ==
      ParseLoop(Resolve(env, BinOp(op, lhs, rhs)), rest, minPrec)
    decreases BinOp(op, lhs, rhs), if Prec(op) < prec then 2 else 0
  {
    var p := Prec(op);
    if p < prec {
      var closed := [TRParen] + rest;
      FollowsCloser(TRParen, rest, 0);
      ParseRendered(env, BinOp(op, lhs, rhs), 0, 0, closed);
      ParseWrapped(env, BinOp(op, lhs, rhs), prec, minPrec, rest);
    } else {
      var afterLhs := [TOp(op)] + (Toks(env, rhs, p + 1) + rest);
      FollowsOperator(op, Toks(env, rhs, p + 1) + rest, p);
      ParseRendered(env, lhs, p, minPrec, afterLhs);
      FollowsRaise(rest, prec, p + 1);
      ParseRendered(env, rhs, p + 1, p + 1, rest);
      ParseUnwrapped(env, op, lhs, rhs, prec, minPrec, rest);
    }
  }

  lemma FollowsCloser(t: Tok, rest: seq<Tok>, prec: int)
    requires t == TRParen || t == TRBrack || t == TComma
    ensures Follows([t] + rest, prec)
  {
  }

  lemma FollowsOperator(op: Op, rest: seq<Tok>, prec: int)
    requires Prec(op) <= prec
    ensures Follows([TOp(op)] + rest, prec)
  {
  }

  /** No operator is at the unary level, so whatever may follow any
      context may follow the unary one. */
  lemma FollowsUnary(rest: seq<Tok>, prec: int)
    requires Follows(rest, prec)
    ensures Follows(rest, UnaryPrec)
  {
  }

  /** Whatever may follow a context may follow any higher one. */
  lemma FollowsRaise(rest: seq<Tok>, prec: int, higher: int)
    requires Follows(rest, prec) && prec <= higher
    ensures Follows(rest, higher)
  {
  }

  /** A parse that starts with a primary continues with the loop. */
  lemma FromPrimary(ts: seq<Tok>, minPrec: int, t: Term, rest: seq<Tok>)
    requires ParsePrimary(ts) == Some((t, rest))
    ensures ParseExpr(ts, minPrec) == ParseLoop(t, rest, minPrec)
  {
  }

  lemma Reassoc<T>(a: seq<T>, b: seq<T>, c: seq<T>, d: seq<T>)
    ensures a + b + c + d == a + (b + (c + d))
  {
  }

  lemma Reassoc6<T>(a: seq<T>, b: seq<T>, c: seq<T>, d: seq<T>, e: seq<T>, f: seq<T>)
    ensures a + b + c + d + e + f == a + (b + (c + (d + (e + f))))
  {
  }

  /** The loop stops at anything that is not an operator. */
  lemma LoopStops(t: Term, ts: seq<Tok>, minPrec: int)
    requires |ts| > 0 && !ts[0].TOp?
    ensures ParseLoop(t, ts, minPrec) == Some((t, ts))
  {
  }

  lemma PrimaryName(s: string, rest: seq<Tok>)
    requires |rest| == 0 || rest[0] != TLBrack
    ensures ParsePrimary([TName(s)] + rest) == Some((TmRead(s, []), rest))
  {
    assert ([TName(s)] + rest)[1..] == rest;
  }

  lemma PrimaryIndexed(s: string, tail: seq<Tok>, terms: seq<Term>, rest: seq<Tok>)
    requires ParseIndices(tail) == Some((terms, rest))
    ensures ParsePrimary([TName(s), TLBrack] + tail) == Some((TmRead(s, terms), rest))
  {
    assert ([TName(s), TLBrack] + tail)[2..] == tail;
  }

  lemma ReadToks(env: Env, x: Sym, idx: seq<Expr>, prec: int)
    ensures |idx| > 0 ==> Toks(env, Read(x, idx), prec) == [TName(GetName(env, x)), TLBrack] + (IndexToks(env, idx) + [TRBrack])
    ensures |idx| == 0 ==> Toks(env, Read(x, idx), prec) == [TName(GetName(env, x))]
    ensures Resolve(env, Read(x, idx)) == TmRead(GetName(env, x), ResolveAll(env, idx))
  {
  }

  lemma ParseRead(env: Env, x: Sym, idx: seq<Expr>, prec: int, minPrec: int, rest: seq<Tok>)
    requires Follows(rest, prec)
    requires |idx| > 0 ==>
      ParseIndices(IndexToks(env, idx) + [TRBrack] + rest) ==
        Some((ResolveAll(env, idx), rest))
    ensures ParseExpr(Toks(env, Read(x, idx), prec) + rest, minPrec) ==
      ParseLoop(Resolve(env, Read(x, idx)), rest, minPrec)
  {
    var name := GetName(env, x);
    var terms := ResolveAll(env, idx);
    ReadToks(env, x, idx, prec);
    if |idx| > 0 {
      var tail := IndexToks(env, idx) + [TRBrack] + rest;
      assert Toks(env, Read(x, idx), prec) + rest == [TName(name), TLBrack] + tail;
      PrimaryIndexed(name, tail, terms, rest);
      FromPrimary([TName(name), TLBrack] + tail, minPrec, TmRead(name, terms), rest);
    } else {
      assert terms == [];
      PrimaryName(name, rest);
      FromPrimary([TName(name)] + rest, minPrec, TmRead(name, terms), rest);
    }
  }

  lemma ParseConst(env: Env, v: string, prec: int, minPrec: int, rest: seq<Tok>)
    ensures ParseExpr(Toks(env, Const(v), prec) + rest, minPrec) ==
      ParseLoop(Resolve(env, Const(v)), rest, minPrec)
  {
    var ts := Toks(env, Const(v), prec) + rest;
    assert ts == [TConst(v)] + rest;
    assert ParsePrimary(ts) == Some((TmConst(v), rest));
  }

  lemma PrimaryParen(inner: seq<Tok>, t: Term, rest: seq<Tok>)
    requires ParseExpr(inner, 0) == Some((t, [TRParen] + rest))
    ensures ParsePrimary([TLParen] + inner) == Some((t, rest))
  {
    assert ([TLParen] + inner)[1..] == inner;
    assert ([TRParen] + rest)[1..] == rest;
  }

  lemma ParseWrapped(env: Env, e: Expr, prec: int, minPrec: int, rest: seq<Tok>)
    requires Wrapped(e, prec)
    requires ParseExpr(Toks(env, e, 0) + ([TRParen] + rest), 0) ==
      ParseLoop(Resolve(env, e), [TRParen] + rest, 0)
    ensures ParseExpr(Toks(env, e, prec) + rest, minPrec) == ParseLoop(Resolve(env, e), rest, minPrec)
  {
    var inner := Toks(env, e, 0) + ([TRParen] + rest);
    assert Toks(env, e, prec) + rest == [TLParen] + inner;
    LoopStops(Resolve(env, e), [TRParen] + rest, 0);
    PrimaryParen(inner, Resolve(env, e), rest);
    FromPrimary([TLParen] + inner, minPrec, Resolve(env, e), rest);
  }

  /** Once the left operand is parsed, an operator of level `p` at least
      `minPrec` parses its right operand at `p + 1` and continues. */
  lemma LoopTakesOperator(lhs: Term, op: Op, rhsToks: seq<Tok>, minPrec: int, rhs: Term, rest: seq<Tok>)
    requires minPrec <= Prec(op)
    requires ParseExpr(rhsToks, Prec(op) + 1) == Some((rhs, rest))
    ensures ParseLoop(lhs, [TOp(op)] + rhsToks, minPrec) == ParseLoop(TmBin(op, lhs, rhs), rest, minPrec)
  {
    assert ([TOp(op)] + rhsToks)[1..] == rhsToks;
  }

  lemma ParseUnwrapped(env: Env, op: Op, lhs: Expr, rhs: Expr, prec: int, minPrec: int, rest: seq<Tok>)
    requires minPrec <= prec <= Prec(op)
    requires Follows(rest, prec)
    requires
      var afterLhs := [TOp(op)] + (Toks(env, rhs, Prec(op) + 1) + rest);
      ParseExpr(Toks(env, lhs, Prec(op)) + afterLhs, minPrec) == ParseLoop(Resolve(env, lhs), afterLhs, minPrec)
    requires ParseExpr(Toks(env, rhs, Prec(op) + 1) + rest, Prec(op) + 1) ==
      ParseLoop(Resolve(env, rhs), rest, Prec(op) + 1)
    ensures ParseExpr(Toks(env, BinOp(op, lhs, rhs), prec) + rest, minPrec) ==
      ParseLoop(Resolve(env, BinOp(op, lhs, rhs)), rest, minPrec)
  {
    var p := Prec(op);
    var l := Toks(env, lhs, p);
    var rhsToks := Toks(env, rhs, p + 1) + rest;
    var afterLhs := [TOp(op)] + rhsToks;
    BinToks(env, op, lhs, rhs, prec);
    LoopStopsBelow(Resolve(env, rhs), rest, prec, p + 1);
    calc {
      ParseExpr(Toks(env, BinOp(op, lhs, rhs), prec) + rest, minPrec);
      == { Reassoc(l, [TOp(op)], Toks(env, rhs, p + 1), rest); }
      ParseExpr(l + afterLhs, minPrec);
      ParseLoop(Resolve(env, lhs), afterLhs, minPrec);
      == { LoopTakesOperator(Resolve(env, lhs), op, rhsToks, minPrec, Resolve(env, rhs), rest); }
      ParseLoop(TmBin(op, Resolve(env, lhs), Resolve(env, rhs)), rest, minPrec);
    }
  }

  lemma BinToks(env: Env, op: Op, lhs: Expr, rhs: Expr, prec: int)
    requires prec <= Prec(op)
    ensures Toks(env, BinOp(op, lhs, rhs), prec) == Toks(env, lhs, Prec(op)) + [TOp(op)] + Toks(env, rhs, Prec(op) + 1)
    ensures Resolve(env, BinOp(op, lhs, rhs)) == TmBin(op, Resolve(env, lhs), Resolve(env, rhs))
  {
  }

  lemma ParToks(env: Env, lo: Expr, hi: Expr, prec: int)
    ensures Toks(env, ParRange(lo, hi), prec) == [TParOpen] + Toks(env, lo, 0) + [TComma] + Toks(env, hi, 0) + [TRParen]
    ensures Resolve(env, ParRange(lo, hi)) == TmPar(Resolve(env, lo), Resolve(env, hi))
  {
  }

  /** The loop at a level above the context stops at whatever may follow
      the context. */
  lemma LoopStopsBelow(t: Term, rest: seq<Tok>, prec: int, minPrec: int)
    requires Follows(rest, prec) && prec < minPrec
    ensures ParseLoop(t, rest, minPrec) == Some((t, rest))
  {
  }

  lemma PrimaryNeg(argToks: seq<Tok>, t: Term, rest: seq<Tok>)
    requires ParseExpr(argToks, UnaryPrec) == Some((t, rest))
    ensures ParsePrimary([TNeg] + argToks) == Some((TmNeg(t), rest))
  {
    assert ([TNeg] + argToks)[1..] == argToks;
  }

  lemma ParseNeg(env: Env, arg: Expr, prec: int, minPrec: int, rest: seq<Tok>)
    requires Follows(rest, prec)
    requires ParseExpr(Toks(env, arg, UnaryPrec) + rest, UnaryPrec) ==
      ParseLoop(Resolve(env, arg), rest, UnaryPrec)
    ensures ParseExpr(Toks(env, USub(arg), prec) + rest, minPrec) ==
      ParseLoop(Resolve(env, USub(arg)), rest, minPrec)
  {
    var argToks := Toks(env, arg, UnaryPrec) + rest;
    assert Toks(env, USub(arg), prec) + rest == [TNeg] + argToks;
    LoopStopsAtNeg(Resolve(env, arg), rest, prec);
    PrimaryNeg(argToks, Resolve(env, arg), rest);
    FromPrimary([TNeg] + argToks, minPrec, TmNeg(Resolve(env, arg)), rest);
  }

  /** No operator binds tighter than unary minus. */
  lemma LoopStopsAtNeg(t: Term, rest: seq<Tok>, prec: int)
    requires Follows(rest, prec)
    ensures ParseLoop(t, rest, UnaryPrec) == Some((t, rest))
  {
    if |rest| > 0 && rest[0].TOp? {
      assert Prec(rest[0].op) < UnaryPrec;
    }
  }

  lemma PrimaryPar(loToks: seq<Tok>, lo: Term, hiToks: seq<Tok>, hi: Term, rest: seq<Tok>)
    requires ParseExpr(loToks, 0) == Some((lo, [TComma] + hiToks))
    requires ParseExpr(hiToks, 0) == Some((hi, [TRParen] + rest))
    ensures ParsePrimary([TParOpen] + loToks) == Some((TmPar(lo, hi), rest))
  {
    assert ([TParOpen] + loToks)[1..] == loToks;
    assert ([TComma] + hiToks)[1..] == hiToks;
    assert ([TRParen] + rest)[1..] == rest;
  }

  lemma ParsePar(env: Env, lo: Expr, hi: Expr, prec: int, minPrec: int, rest: seq<Tok>)
    requires
      var hiRest := [TRParen] + rest;
      var loRest := [TComma] + (Toks(env, hi, 0) + hiRest);
      && ParseExpr(Toks(env, lo, 0) + loRest, 0) == ParseLoop(Resolve(env, lo), loRest, 0)
      && ParseExpr(Toks(env, hi, 0) + hiRest, 0) == ParseLoop(Resolve(env, hi), hiRest, 0)
    ensures ParseExpr(Toks(env, ParRange(lo, hi), prec) + rest, minPrec) ==
      ParseLoop(Resolve(env, ParRange(lo, hi)), rest, minPrec)
  {
    var hiRest := [TRParen] + rest;
    var hiToks := Toks(env, hi, 0) + hiRest;
    var loRest := [TComma] + hiToks;
    var loToks := Toks(env, lo, 0) + loRest;
    ParToks(env, lo, hi, prec);
    Reassoc6([TParOpen], Toks(env, lo, 0), [TComma], Toks(env, hi, 0), [TRParen], rest);
    LoopStops(Resolve(env, lo), loRest, 0);
    LoopStops(Resolve(env, hi), hiRest, 0);
    PrimaryPar(loToks, Resolve(env, lo), hiToks, Resolve(env, hi), rest);
    FromPrimary([TParOpen] + loToks, minPrec, TmPar(Resolve(env, lo), Resolve(env, hi)), rest);
  }

  lemma {:induction false} ParseRenderedIndices(env: Env, idx: seq<Expr>, rest: seq<Tok>)
    requires |idx| > 0
    ensures ParseIndices(IndexToks(env, idx) + [TRBrack] + rest) ==
      Some((ResolveAll(env, idx), rest))
    decreases idx
  {
    var terms := ResolveAll(env, idx);
    if |idx| == 1 {
      var after := [TRBrack] + rest;
      assert IndexToks(env, idx) + [TRBrack] + rest == Toks(env, idx[0], 0) + after;
      ParseRendered(env, idx[0], 0, 0, after);
      assert terms == [Resolve(env, idx[0])];
    } else {
      var tail := IndexToks(env, idx[1..]) + [TRBrack] + rest;
      var after := [TComma] + tail;
      assert IndexToks(env, idx) + [TRBrack] + rest == Toks(env, idx[0], 0) + after;
      ParseRendered(env, idx[0], 0, 0, after);
      assert after[1..] == tail;
      ParseRenderedIndices(env, idx[1..], rest);
      assert terms == [Resolve(env, idx[0])] + ResolveAll(env, idx[1..]);
    }
  }

  /** The round trip: the tokens of a rendered expression parse back to
      the expression, display names in place of identifiers. */
  lemma RenderedExpressionsParseBack(env: Env, e: Expr)
    ensures ParseExpr(Toks(env, e, 0), 0) == Some((Resolve(env, e), []))
    ensures Spell(Toks(env, e, 0)) == RenderExpr(env, e, 0)
  {
    ParseRendered(env, e, 0, 0, []);
    assert Toks(env, e, 0) + [] == Toks(env, e, 0);
    SpellToks(env, e, 0);
  }

  /** Hence two expressions whose renderings have the same tokens have the
      same structure. */
  lemma SameTokensSameTree(env: Env, e1: Expr, e2: Expr)
    requires Toks(env, e1, 0) == Toks(env, e2, 0)
    ensures Resolve(env, e1) == Resolve(env, e2)
  {
    RenderedExpressionsParseBack(env, e1);
    RenderedExpressionsParseBack(env, e2);
  }
}

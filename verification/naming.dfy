/** Display names: `new_name` binds a raw name, renaming it when it is
    already bound; `get_name` reads the current display name back. */
module Naming {

  import opened Outcomes
  import opened Text
  import opened Syntax
  import opened Scopes

  /** The part of `s` that a pattern ending in `$` can match: Python's `$`
      also matches just before a newline that ends the string. */
  function BeforeFinalNewline(s: string): (b: string)
    ensures b == s || (s == b + "\n")
  {
    if |s| > 0 && s[|s| - 1] == '\n' then s[..|s| - 1] else s
  }

  /** `re.match('^(.*)_([0-9]*)$', s)` as the pair `(m[1], m[2])`: the
      display name ends in `_` and a (possibly empty) run of digits, and no
      newline comes before that `_` (`.` does not match a newline). The
      greedy `(.*)` makes `m[2]` the whole trailing run of digits. */
  function CounterMatch(s: string): (m: Option<(string, string)>)
    ensures m.Some? ==>
      BeforeFinalNewline(s) == m.value.0 + "_" + m.value.1
      && AllDigits(m.value.1) && '\n' !in m.value.0
  {
    var b := BeforeFinalNewline(s);
    var d := TrailingDigits(b);
    var i := |b| - |d| - 1;
    if i >= 0 && b[i] == '_' && '\n' !in b[..i] then
      assert b == b[..i] + "_" + d;
      Some((b[..i], d))
    else
      None
  }

  /** When the pattern does not match, no `_` in the display name is
      followed by nothing but digits with no newline before it. */
  lemma NoMatchMeansNoCounter(s: string)
    requires CounterMatch(s).None?
    ensures var b := BeforeFinalNewline(s);
      forall i :: 0 <= i < |b| && b[i] == '_' ==> !(AllDigits(b[i + 1..]) && '\n' !in b[..i])
  {
    var b := BeforeFinalNewline(s);
    forall j | 0 <= j < |b| && b[j] == '_' && AllDigits(b[j + 1..])
      ensures '\n' in b[..j]
    {
      DigitRunSplit(b, j);
    }
  }

  /** An underscore followed by nothing but digits sits just before the
      trailing digit run. */
  lemma DigitRunSplit(b: string, j: int)
    requires 0 <= j < |b| && b[j] == '_' && AllDigits(b[j + 1..])
    ensures |TrailingDigits(b)| == |b| - j - 1
  {
    var d := TrailingDigits(b);
    DigitsFrom(b, |b| - |d|);
    DigitsFrom(b, j + 1);
  }

  /** A digit suffix, index by index. */
  lemma DigitsFrom(b: string, i: int)
    requires 0 <= i <= |b| && AllDigits(b[i..])
    ensures forall m :: i <= m < |b| ==> IsDigit(b[m])
  {
    forall m | i <= m < |b|
      ensures IsDigit(b[m])
    {
      assert b[m] == b[i..][m - i];
    }
  }

  /** The counter step of `new_name`: append `_1`, or increment the
      trailing `_<digits>` counter; an empty digit run makes `int('')`
      raise. */
  function Rebind(s: string): (r: Result<string>)
    ensures r.Ok? ==> r.value != s
    ensures r.Ok? ==> |r.value| > 0 && IsDigit(r.value[|r.value| - 1])
  {
    match CounterMatch(s)
    case None => Ok(s + "_1")
    case Some((a, d)) =>
      if |d| == 0 then Err(ValueError)
      else
        var n := NatToDecimal(DecimalValue(d) + 1);
        var t := a + "_" + n;
        assert t[|t| - 1] == n[|n| - 1];
        assert t != s by {
          assert t[|a| + 1..] == n;
          assert BeforeFinalNewline(s)[|a| + 1..] == d;
        }
        Ok(t)
  }

  /** Rebinding fails exactly when the display name ends in `_` (possibly
      followed by one final newline) and has no newline before it. */
  lemma RebindFailsIff(s: string)
    ensures var b := BeforeFinalNewline(s);
      Rebind(s).Err? <==> |b| > 0 && b[|b| - 1] == '_' && '\n' !in b[..|b| - 1]
  {
    var b := BeforeFinalNewline(s);
    if |b| > 0 && b[|b| - 1] == '_' && '\n' !in b[..|b| - 1] {
      assert b[|b|..] == "";
      DigitRunSplit(b, |b| - 1);
    }
  }

  /** A display name produced by the counter step can always be rebound. */
  lemma EndsInDigitRebinds(s: string)
    requires |s| > 0 && IsDigit(s[|s| - 1])
    ensures Rebind(s).Ok?
  {
    RebindFailsIff(s);
  }

  /** On `<a>_<digits>`, possibly followed by one final newline, the
      counter step yields `<a>_<n + 1>`, where `n` is `int(digits)`, and
      drops that newline. Leading zeros are dropped too: `x_007` becomes
      `x_8`. */
  lemma RebindDigitRun(s: string, a: string, d: string, n: nat)
    requires BeforeFinalNewline(s) == a + "_" + d
    requires '\n' !in a && |d| > 0 && AllDigits(d) && DecimalValue(d) == n
    ensures Rebind(s) == Ok(a + "_" + NatToDecimal(n + 1))
  {
    var b := a + "_" + d;
    assert b[|a|] == '_' && b[|a| + 1..] == d && b[..|a|] == a;
    DigitRunSplit(b, |a|);
    assert TrailingDigits(b) == d;
  }

  /** On `<a>_<n>` the counter step yields `<a>_<n+1>`. */
  lemma RebindIncrements(a: string, n: nat)
    requires '\n' !in a
    ensures Rebind(a + "_" + NatToDecimal(n)) == Ok(a + "_" + NatToDecimal(n + 1))
  {
    var d := NatToDecimal(n);
    CounterText(a, d);
    RebindDigitRun(a + "_" + d, a, d, n);
  }

  /** One final newline after the counter is ignored by the match and
      dropped by the step: `<a>_<n>\n` becomes `<a>_<n+1>`, so `x_1\n`
      becomes `x_2`. */
  lemma RebindDropsFinalNewline(a: string, n: nat)
    requires '\n' !in a
    ensures Rebind(a + "_" + NatToDecimal(n) + "\n") == Ok(a + "_" + NatToDecimal(n + 1))
  {
    var d := NatToDecimal(n);
    CounterText(a, d);
    RebindDigitRun(a + "_" + d + "\n", a, d, n);
  }

  /** `<a>_<d>` with a non-empty digit run `d` has no final newline to
      ignore, and with one appended the match sees `<a>_<d>` again. */
  lemma CounterText(a: string, d: string)
    requires |d| > 0 && AllDigits(d)
    ensures BeforeFinalNewline(a + "_" + d) == a + "_" + d
    ensures BeforeFinalNewline(a + "_" + d + "\n") == a + "_" + d
  {
    var s := a + "_" + d;
    assert s[|s| - 1] == d[|d| - 1];
    assert (s + "\n")[..|s|] == s;
  }

  /** A display name with no counter suffix gets `_1` appended. */
  lemma RebindAppends(s: string)
    requires CounterMatch(s).None?
    ensures Rebind(s) == Ok(s + "_1")
  {
  }

  /** `new_name`: an unbound raw name is bound to itself; a bound one is
      rebound to the counter step of its current display name, in the
      innermost frame. */
  function NewName(env: Env, x: Sym): (r: Result<(string, Env)>)
    requires |env| > 0
    ensures !Bound(env, x.text) ==> r.Ok? && r.value.0 == x.text
    ensures Bound(env, x.text) ==> (r.Ok? <==> Rebind(Lookup(env, x.text)).Ok?)
    ensures r.Ok? && Bound(env, x.text) ==> r.value.0 == Rebind(Lookup(env, x.text)).value
    ensures r.Ok? && Bound(env, x.text) ==> r.value.0 != Lookup(env, x.text)
    ensures r.Ok? ==>
      var (d, env') := r.value;
      && |env'| == |env| && env'[..|env| - 1] == env[..|env| - 1]
      && env'[|env| - 1] == env[|env| - 1][x.text := d]
      && Bound(env', x.text) && Lookup(env', x.text) == d
  {
    var key := x.text;
    if !Bound(env, key) then
      Ok((key, Store(env, key, key)))
    else
      var d :- Rebind(Lookup(env, key));
      Ok((d, Store(env, key, d)))
  }

  /** `new_name(x)` leaves every other raw name as it was: bound or not,
      and with the same display name. */
  lemma NewNameKeepsOthers(env: Env, x: Sym, k: string)
    requires |env| > 0 && NewName(env, x).Ok? && k != x.text
    ensures Bound(NewName(env, x).value.1, k) == Bound(env, k)
    ensures Bound(env, k) ==> Lookup(NewName(env, x).value.1, k) == Lookup(env, k)
  {
    var key := x.text;
    var v := if Bound(env, key) then Rebind(Lookup(env, key)).value else key;
    assert NewName(env, x).value.1 == Store(env, key, v);
  }

  /** `get_name`: the current display name, or the `repr` of an unbound
      name. It reads the stack and cannot change it. */
  function GetName(env: Env, x: Sym): string {
    if Bound(env, x.text) then Lookup(env, x.text) else x.reprText
  }

  /** After `new_name` the name it returned is what `get_name` reads back,
      and every other raw name reads as before. */
  lemma GetAfterNewName(env: Env, x: Sym, y: Sym)
    requires |env| > 0 && NewName(env, x).Ok?
    ensures GetName(NewName(env, x).value.1, x) == NewName(env, x).value.0
    ensures y.text != x.text ==> GetName(NewName(env, x).value.1, y) == GetName(env, y)
  {
    if y.text != x.text {
      NewNameKeepsOthers(env, x, y.text);
    }
  }

  /** The stack after `new_name` has been called on each raw name of `xs`
      in turn, left to right, or the first failure. */
  function BindAll(env: Env, xs: seq<Sym>): (r: Result<Env>)
    requires |env| > 0
    ensures r.Ok? ==> |r.value| == |env|
    decreases |xs|
  {
    if |xs| == 0 then Ok(env)
    else
      var e :- BindAll(env, xs[..|xs| - 1]);
      var named :- NewName(e, xs[|xs| - 1]);
      Ok(named.1)
  }

  /** Binding `x` and then `ys` is binding `[x] + ys`: the first call
      either fails, and so does the whole run, or hands its stack on. */
  lemma {:induction false} BindAllFirst(env: Env, x: Sym, ys: seq<Sym>)
    requires |env| > 0
    ensures BindAll(env, [x] + ys) ==
      if NewName(env, x).Ok? then BindAll(NewName(env, x).value.1, ys)
      else Err(NewName(env, x).error)
    decreases |ys|
  {
    var xs := [x] + ys;
    if |ys| == 0 {
      assert xs[..0] == [];
    } else {
      assert xs[..|xs| - 1] == [x] + ys[..|ys| - 1];
      assert xs[|xs| - 1] == ys[|ys| - 1];
      BindAllFirst(env, x, ys[..|ys| - 1]);
    }
  }

  /** Binding the first `k + 1` names of `xs` is binding the first one and
      then the next `k`. */
  lemma PrefixBinding(env: Env, xs: seq<Sym>, k: nat)
    requires |env| > 0 && k < |xs| && NewName(env, xs[0]).Ok?
    ensures BindAll(env, xs[..k + 1]) == BindAll(NewName(env, xs[0]).value.1, xs[1..k + 1])
  {
    SplitFirst(xs, k + 1);
    BindAllFirst(env, xs[0], xs[1..k + 1]);
  }

  /** The display name of the k-th binding of a raw name `b`:
      `b`, `b_1`, `b_2`, ... */
  function Numbered(b: string, k: nat): string {
    if k == 0 then b else b + "_" + NatToDecimal(k)
  }

  /** `names` is `b`, `b_1`, `b_2`, ... */
  predicate NumberedNames(names: seq<string>, b: string) {
    forall k :: 0 <= k < |names| ==> names[k] == Numbered(b, k)
  }

  /** The innermost frame binds `k` to `v`. */
  predicate InnermostBinds(e: Env, k: string, v: string) {
    |e| > 0 && k in e[|e| - 1] && e[|e| - 1][k] == v
  }

  /** `new_name(x)` called `n` times in a row on a raw name that is not
      bound yet and has no counter suffix: no call fails; the names
      returned are `x`, `x_1`, ..., `x_(n-1)`, pairwise distinct; the last
      one is left in the innermost frame. */
  method BindRepeatedly(env: Env, x: Sym, n: nat) returns (names: seq<string>, env': Env)
    requires |env| > 0 && !Bound(env, x.text)
    requires CounterMatch(x.text).None? && '\n' !in x.text
    ensures |names| == n && |env'| == |env|
    ensures NumberedNames(names, x.text)
    ensures forall j, k :: 0 <= j < k < n ==> names[j] != names[k]
    ensures n > 0 ==> InnermostBinds(env', x.text, Numbered(x.text, n - 1))
  {
    names, env' := [], env;
    var i := 0;
    while i < n
      invariant 0 <= i <= n && |names| == i && |env'| == |env|
      invariant NumberedNames(names, x.text)
      invariant i == 0 ==> env' == env
      invariant i > 0 ==> InnermostBinds(env', x.text, Numbered(x.text, i - 1))
    {
      NextBinding(env', x, i);
      AppendNumbered(names, x.text);
      var step := NewName(env', x).value;
      names, env' := names + [step.0], step.1;
      i := i + 1;
    }
    NumberedNamesDistinct(names, x.text);
  }

  /** The loop step of `BindRepeatedly`: the `i`-th call returns `x_i`
      (`x` for the first) and leaves it in the innermost frame. */
  lemma NextBinding(e: Env, x: Sym, i: nat)
    requires |e| > 0 && CounterMatch(x.text).None? && '\n' !in x.text
    requires i == 0 ==> !Bound(e, x.text)
    requires i > 0 ==> InnermostBinds(e, x.text, Numbered(x.text, i - 1))
    ensures NewName(e, x).Ok?
    ensures NewName(e, x).value.0 == Numbered(x.text, i)
    ensures |NewName(e, x).value.1| == |e|
    ensures InnermostBinds(NewName(e, x).value.1, x.text, Numbered(x.text, i))
  {
    if i > 0 {
      InnermostLookup(e, x.text, Numbered(x.text, i - 1));
    }
    NewNameNumbered(e, x, i);
  }

  /** What the innermost frame binds is what lookup reads. */
  lemma InnermostLookup(e: Env, k: string, v: string)
    requires InnermostBinds(e, k, v)
    ensures Bound(e, k) && Lookup(e, k) == v
  {
    LookupAt(e, k, |e| - 1);
  }

  /** Extending `b`, `b_1`, ..., `b_(n-1)` by `b_n`. */
  lemma AppendNumbered(names: seq<string>, b: string)
    requires NumberedNames(names, b)
    ensures NumberedNames(names + [Numbered(b, |names|)], b)
  {
    var ext := names + [Numbered(b, |names|)];
    forall k | 0 <= k < |ext|
      ensures ext[k] == Numbered(b, k)
    {
      if k < |names| {
        assert ext[k] == names[k];
      }
    }
  }

  /** One step of repeated binding: the binding after `b_(k-1)` is `b_k`. */
  lemma NewNameNumbered(e: Env, x: Sym, k: nat)
    requires |e| > 0 && CounterMatch(x.text).None? && '\n' !in x.text
    requires k == 0 ==> !Bound(e, x.text)
    requires k > 0 ==> Bound(e, x.text) && Lookup(e, x.text) == Numbered(x.text, k - 1)
    ensures NewName(e, x).Ok? && NewName(e, x).value.0 == Numbered(x.text, k)
  {
    if k == 1 {
      assert NatToDecimal(1) == "1";
      assert x.text + "_" + "1" == x.text + "_1";
      assert Rebind(x.text) == Ok(x.text + "_1");
    } else if k > 1 {
      RebindIncrements(x.text, k - 1);
    }
  }

  /** The names `b`, `b_1`, `b_2`, ... are pairwise distinct. */
  lemma NumberedNamesDistinct(names: seq<string>, b: string)
    requires NumberedNames(names, b)
    ensures forall j, k :: 0 <= j < k < |names| ==> names[j] != names[k]
  {
    forall j, k | 0 <= j < k < |names|
      ensures names[j] != names[k]
    {
      NumberedDistinct(b, j, k);
    }
  }

  /** `b_j` and `b_k` differ when `j < k`. */
  lemma NumberedDistinct(b: string, j: nat, k: nat)
    requires j < k
    ensures Numbered(b, j) != Numbered(b, k)
  {
    if j > 0 {
      var p := |b| + 1;
      assert Numbered(b, j)[p..] == NatToDecimal(j);
      assert Numbered(b, k)[p..] == NatToDecimal(k);
      NatToDecimalInjective(j, k);
    }
  }

  /** Display names are unique per raw name, not across raw names: after
      `x` is bound twice it displays as `x_1`, and a raw name `x_1` bound
      next also displays as `x_1`. */
  lemma DisplayNamesCanCollide()
    ensures var x := Sym("x", "x");
      var y := Sym("x_1", "x_1");
      var first := NewName(EmptyEnv(), x);
      && first.Ok?
      && var second := NewName(first.value.1, x);
      && second.Ok?
      && var third := NewName(second.value.1, y);
      && third.Ok?
      && second.value.0 == "x_1" && third.value.0 == "x_1"
      && GetName(third.value.1, x) == GetName(third.value.1, y)
  {
    var x := Sym("x", "x");
    var y := Sym("x_1", "x_1");
    var e1 := NewName(EmptyEnv(), x).value.1;
    assert TrailingDigits("x") == "";
    assert CounterMatch("x").None?;
    var e2 := NewName(e1, x).value.1;
    assert !Bound(e2, "x_1");
  }
}

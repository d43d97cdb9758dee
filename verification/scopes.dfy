/** The scope stack the printer keeps its display names in. The class it
    models lives in a module outside this model; its assumed interface is:
    a stack of frames, each mapping a raw name to a display name; a fresh
    stack holds one empty frame; membership and lookup search every live
    frame, innermost first; assignment writes the innermost frame; `push`
    opens an empty frame and `pop` discards the innermost one.
    The innermost frame is the LAST element of the sequence. */
module Scopes {

  type Env = seq<map<string, string>>

  /** A new stack: one empty frame, nothing bound. */
  function EmptyEnv(): (e: Env)
    ensures |e| == 1
    ensures forall k :: !Bound(e, k)
  {
    [map[]]
  }

  /** `k in env`: some live frame binds `k`. */
  predicate Bound(e: Env, k: string) {
    exists i :: 0 <= i < |e| && k in e[i]
  }

  /** The innermost of the first `n` frames that binds `k`, or -1. */
  function Innermost(e: Env, k: string, n: nat): (i: int)
    requires n <= |e|
    ensures -1 <= i < n
    ensures i >= 0 ==> k in e[i]
    ensures forall j :: i < j < n ==> k !in e[j]
  {
    if n == 0 then -1
    else if k in e[n - 1] then n - 1
    else Innermost(e, k, n - 1)
  }

  /** `env[k]`: the binding of `k` in the innermost frame that has one. */
  function Lookup(e: Env, k: string): (v: string)
    requires Bound(e, k)
    ensures exists i :: 0 <= i < |e| && k in e[i] && v == e[i][k]
                        && forall j :: i < j < |e| ==> k !in e[j]
  {
    var i := Innermost(e, k, |e|);
    assert i >= 0;
    e[i][k]
  }

  /** `env[k] = v`: writes the innermost frame. */
  function Store(e: Env, k: string, v: string): (r: Env)
    requires |e| > 0
    ensures |r| == |e| && r[..|e| - 1] == e[..|e| - 1]
    ensures r[|e| - 1] == e[|e| - 1][k := v]
    ensures Bound(r, k) && Lookup(r, k) == v
    ensures forall k' :: k' != k ==> Bound(r, k') == Bound(e, k')
    ensures forall k' :: k' != k && Bound(e, k') ==> Lookup(r, k') == Lookup(e, k')
  {
    var top := |e| - 1;
    var r := e[top := e[top][k := v]];
    assert k in r[top];
    forall k' | k' != k
      ensures Bound(r, k') == Bound(e, k')
      ensures Bound(e, k') ==> Lookup(r, k') == Lookup(e, k')
    {
      LookupFramewise(e, r, k');
    }
    r
  }

  function PushFrame(e: Env): (r: Env)
    ensures |r| == |e| + 1 && r[..|e|] == e
    ensures forall k :: !(k in r[|e|])
  {
    e + [map[]]
  }

  function PopFrame(e: Env): (r: Env)
    requires |e| > 0
    ensures |r| == |e| - 1 && r == e[..|e| - 1]
  {
    e[..|e| - 1]
  }

  /** Opening a frame changes no visible binding. */
  lemma PushKeepsBindings(e: Env, k: string)
    ensures Bound(PushFrame(e), k) == Bound(e, k)
    ensures Bound(e, k) ==> Lookup(PushFrame(e), k) == Lookup(e, k)
  {
    var r := PushFrame(e);
    if Bound(r, k) {
      var i :| 0 <= i < |r| && k in r[i];
      assert i < |e| && r[i] == e[i];
    }
    if Bound(e, k) {
      var i :| 0 <= i < |e| && k in e[i];
      assert r[i] == e[i];
      assert r[..|e|] == e;
    }
  }

  /** A binding made after a `push` is gone after the matching `pop`:
      the stack is exactly what it was before the `push`. */
  lemma PopUndoesInnerStore(e: Env, k: string, v: string)
    ensures PopFrame(Store(PushFrame(e), k, v)) == e
  {
  }

  /** Two stacks that agree, frame by frame, on whether `k` is present and
      on its value agree on membership and lookup of `k`. */
  lemma LookupFramewise(e: Env, r: Env, k: string)
    requires |e| == |r|
    requires forall i :: 0 <= i < |e| ==> (k in e[i] <==> k in r[i])
    requires forall i :: 0 <= i < |e| && k in e[i] ==> e[i][k] == r[i][k]
    ensures Bound(r, k) == Bound(e, k)
    ensures Bound(e, k) ==> Lookup(r, k) == Lookup(e, k)
  {
    if Bound(e, k) {
      var i :| 0 <= i < |e| && k in e[i] && Lookup(e, k) == e[i][k]
                && forall j :: i < j < |e| ==> k !in e[j];
      var i' :| 0 <= i' < |r| && k in r[i'] && Lookup(r, k) == r[i'][k]
                && forall j :: i' < j < |r| ==> k !in r[j];
      assert i == i';
    }
  }

  /** The frame that holds `k` with no frame above it holding `k` is the
      one `Lookup` reads. */
  lemma LookupAt(e: Env, k: string, i: nat)
    requires i < |e| && k in e[i]
    requires forall j :: i < j < |e| ==> k !in e[j]
    ensures Bound(e, k) && Lookup(e, k) == e[i][k]
  {
    var i' :| 0 <= i' < |e| && k in e[i'] && Lookup(e, k) == e[i'][k]
              && forall j :: i' < j < |e| ==> k !in e[j];
    assert i == i';
  }
}

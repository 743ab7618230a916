/** Joining sequences piece by piece. */
module Sequences {

  lemma Assoc<T>(a: seq<T>, b: seq<T>, c: seq<T>)
    ensures a + b + c == a + (b + c)
  {
  }

  /** The elements of a result behind those that were there before. */
  function Behind<T, R>(front: seq<T>, r: (seq<T>, R)): (seq<T>, R) {
    (front + r.0, r.1)
  }

  lemma BehindNothing<T, R>(r: (seq<T>, R))
    ensures Behind([], r) == r
  {
    assert [] + r.0 == r.0;
  }

  lemma BehindBoth<T, R>(a: seq<T>, b: seq<T>, r: (seq<T>, R))
    ensures Behind(a, Behind(b, r)) == Behind(a + b, r)
  {
    Assoc(a, b, r.0);
  }

  // ---- Picking places in order ----

  ghost predicate Ascending(at: seq<int>) {
    forall i, j :: 0 <= i < j < |at| ==> at[i] < at[j]
  }

  /** at holds exactly the places below n that are wanted, each once and in order. */
  ghost predicate Picks(at: seq<int>, n: nat, wanted: nat -> bool) {
    && Ascending(at)
    && (forall j :: 0 <= j < |at| ==> 0 <= at[j] < n)
    && (forall i: nat :: i < n ==> (i in at <==> wanted(i)))
  }

  ghost function Places(n: nat, wanted: nat -> bool): seq<int> {
    if n == 0 then [] else Places(n - 1, wanted) + if wanted(n - 1) then [n - 1] else []
  }

  lemma PickOneMore(at: seq<int>, n: nat, wanted: nat -> bool)
    requires Picks(at, n, wanted)
    ensures Picks(at + if wanted(n) then [n] else [], n + 1, wanted)
  {
    if wanted(n) {
      forall i: nat | i < n + 1 ensures i in at + [n] <==> wanted(i) {
        assert i in at + [n] <==> i in at || i == n;
      }
    } else {
      assert n !in at && at + [] == at;
    }
  }

  lemma {:induction false} PlacesArePicked(n: nat, wanted: nat -> bool)
    ensures Picks(Places(n, wanted), n, wanted)
  {
    if n > 0 {
      PlacesArePicked(n - 1, wanted);
      PickOneMore(Places(n - 1, wanted), n - 1, wanted);
    }
  }
}

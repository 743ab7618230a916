/** Sums of multisets of descriptors. */
module Bags {

  type Bag = multiset<int>

  function Sum(bags: seq<Bag>): Bag {
    if bags == [] then multiset{} else Sum(bags[..|bags| - 1]) + bags[|bags| - 1]
  }

  lemma WithLast(front: Bag, front': Bag, mine: Bag, mine': Bag, last: Bag)
    requires front' + mine == front + mine'
    ensures (front' + last) + mine == (front + last) + mine'
  {
    assert (front' + last) + mine == (front' + mine) + last;
    assert (front + last) + mine' == (front + mine') + last;
  }

  lemma {:induction false} SumUpdate(bags: seq<Bag>, i: nat, x: Bag)
    requires i < |bags|
    ensures Sum(bags[i := x]) + bags[i] == Sum(bags) + x
  {
    var n := |bags| - 1;
    if i < n {
      assert bags[i := x][..n] == bags[..n][i := x];
      SumUpdate(bags[..n], i, x);
      WithLast(Sum(bags[..n]), Sum(bags[..n][i := x]), bags[i], x, bags[n]);
    } else {
      assert bags[i := x][..n] == bags[..n];
      WithLast(Sum(bags[..n]), Sum(bags[..n]), x, x, bags[n]);
      assert Sum(bags[..n]) + x + bags[n] == Sum(bags[..n]) + bags[n] + x;
    }
  }

  lemma {:induction false} SumEmpty(bags: seq<Bag>)
    requires forall i :: 0 <= i < |bags| ==> bags[i] == multiset{}
    ensures Sum(bags) == multiset{}
  {
    if bags != [] {
      SumEmpty(bags[..|bags| - 1]);
    }
  }

  lemma {:induction false} SumSize(bags: seq<Bag>, free: nat)
    requires forall i :: 0 <= i < |bags| ==> |bags[i]| <= 1
    requires free < |bags| ==> |bags[free]| == 0
    ensures |Sum(bags)| <= if free < |bags| then |bags| - 1 else |bags|
  {
    if bags != [] {
      SumSize(bags[..|bags| - 1], free);
    }
  }

  /** How often a descriptor occurs when only one bag may hold it. */
  lemma {:induction false} SumOf(bags: seq<Bag>, i: nat, x: int)
    requires i < |bags| && forall j :: 0 <= j < |bags| && j != i ==> bags[j][x] == 0
    ensures Sum(bags)[x] == bags[i][x]
  {
    var n := |bags| - 1;
    if i < n {
      SumOf(bags[..n], i, x);
    } else {
      SumWithout(bags[..n], x);
    }
  }

  lemma {:induction false} SumWithout(bags: seq<Bag>, x: int)
    requires forall j :: 0 <= j < |bags| ==> bags[j][x] == 0
    ensures Sum(bags)[x] == 0
  {
    if bags != [] {
      SumWithout(bags[..|bags| - 1], x);
    }
  }

  lemma SubBagSize(a: Bag, b: Bag)
    requires a <= b
    ensures |a| <= |b|
  {
    assert b == a + (b - a);
  }

  /** n copies of one descriptor. */
  function Copies(fd: int, n: nat): (r: Bag)
    ensures |r| == n
  {
    if n == 0 then multiset{} else Copies(fd, n - 1) + multiset{fd}
  }

  lemma {:induction false} CopiesCount(fd: int, n: nat, x: int)
    ensures Copies(fd, n)[x] == if x == fd then n else 0
  {
    if n > 0 {
      CopiesCount(fd, n - 1, x);
    }
  }
}

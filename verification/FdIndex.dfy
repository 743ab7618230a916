/** The table of notification descriptors (src/server/coperations.c): 8191 buckets of at most
    eight descriptors. Buckets do not store keys, so keys that collide share recipients. */
module FdIndex {
  import opened Constants
  import opened KeyHash

  type Bucket = seq<int>

  /** add_key on a bucket: a full bucket is left alone. */
  function AddFd(b: Bucket, fd: int): Bucket {
    if |b| >= MAX_SESSION_COUNT then b else b + [fd]
  }

  function FirstFd(b: Bucket, fd: int): (j: int)
    ensures -1 <= j < |b|
    ensures j >= 0 ==> b[j] == fd
    ensures forall i :: 0 <= i < (if j < 0 then |b| else j) ==> b[i] != fd
  {
    if b == [] then -1
    else if b[0] == fd then 0
    else
      var j := FirstFd(b[1..], fd);
      if j < 0 then -1 else j + 1
  }

  /** remove_key on a bucket: the last entry takes the place of the first match. */
  function RemoveFd(b: Bucket, fd: int): (r: Bucket)
    ensures |r| <= |b|
  {
    var j := FirstFd(b, fd);
    if j < 0 then b else b[j := b[|b| - 1]][..|b| - 1]
  }

  lemma Replaced(b: Bucket, j: nat, x: int)
    requires j < |b|
    ensures multiset(b[j := x]) == multiset(b) - multiset{b[j]} + multiset{x}
  {
  }

  lemma WithoutLast(c: Bucket)
    requires c != []
    ensures multiset(c[..|c| - 1]) == multiset(c) - multiset{c[|c| - 1]}
  {
    assert c == c[..|c| - 1] + [c[|c| - 1]];
  }

  lemma PutAndTaken(m: multiset<int>, x: int)
    ensures m + multiset{x} - multiset{x} == m
  {
  }

  lemma SwapWithLast(b: Bucket, j: nat)
    requires j < |b|
    ensures multiset(b[j := b[|b| - 1]][..|b| - 1]) == multiset(b) - multiset{b[j]}
  {
    var last := b[|b| - 1];
    Replaced(b, j, last);
    WithoutLast(b[j := last]);
    PutAndTaken(multiset(b) - multiset{b[j]}, last);
  }

  lemma NotThere(b: Bucket, fd: int)
    requires fd !in b
    ensures multiset(b) - multiset{fd} == multiset(b)
  {
  }

  /** Swap-with-last removal takes out one occurrence, when there is one. */
  lemma RemoveFdTakesOne(b: Bucket, fd: int)
    ensures multiset(RemoveFd(b, fd)) == multiset(b) - multiset{fd}
  {
    if FirstFd(b, fd) >= 0 {
      SwapWithLast(b, FirstFd(b, fd));
    } else {
      NotThere(b, fd);
    }
  }

  class IntNode {
    const values: array<int>
    var count: nat

    constructor ()
      ensures fresh(values) && values.Length == MAX_SESSION_COUNT && count == 0
    {
      values := new int[MAX_SESSION_COUNT];
      count := 0;
    }

    ghost predicate Holds(b: Bucket)
      reads this, values
    {
      values.Length == MAX_SESSION_COUNT && count <= MAX_SESSION_COUNT && values[..count] == b
    }

    method Add(value: int, ghost b: Bucket) returns (r: int)
      requires Holds(b)
      modifies `count, values
      ensures Holds(AddFd(b, value))
      ensures r == if |b| >= MAX_SESSION_COUNT then 1 else 0
    {
      if count >= MAX_SESSION_COUNT {
        return 1;
      }
      values[count] := value;
      count := count + 1;
      r := 0;
    }

    method Remove(value: int, ghost b: Bucket) returns (r: int)
      requires Holds(b)
      modifies `count, values
      ensures Holds(RemoveFd(b, value))
      ensures r == if value in b then 0 else 1
    {
      assert forall k :: 0 <= k < count ==> values[k] == b[k];
      for i := 0 to count
        invariant forall k :: 0 <= k < i ==> b[k] != value
        invariant Holds(b)
      {
        if values[i] == value {
          assert FirstFd(b, value) == i;
          count := count - 1;
          values[i] := values[count];
          return 0;
        }
      }
      r := 1;
    }

    method Copy(ghost b: Bucket) returns (fds: seq<int>)
      requires Holds(b)
      ensures fds == b
    {
      fds := [];
      for i := 0 to count
        invariant fds == values[..i]
      {
        fds := fds + [values[i]];
      }
    }
  }

  class IntHashTable {
    const nodes: array<IntNode>
    ghost var nodeSet: set<IntNode>
    ghost var valueSet: set<array<int>>
    ghost var buckets: seq<Bucket>  // the contents of the nodes

    ghost predicate NodeOk(i: nat)
      requires i < nodes.Length && i < |buckets|
      reads this, nodes, nodeSet, valueSet
    {
      nodes[i] in nodeSet && nodes[i].values in valueSet && nodes[i].Holds(buckets[i])
    }

    ghost predicate Valid()
      reads this, nodes, nodeSet, valueSet
    {
      && nodes.Length == MAX_KEYS_COUNT == |buckets|
      && (forall i :: 0 <= i < MAX_KEYS_COUNT ==> NodeOk(i))
      && (forall i, j :: 0 <= i < j < MAX_KEYS_COUNT ==> nodes[i] != nodes[j] && nodes[i].values != nodes[j].values)
    }

    /** create_int_hash_table */
    constructor ()
      ensures Valid() && fresh(nodes) && fresh(nodeSet) && fresh(valueSet)
      ensures forall i :: 0 <= i < |buckets| ==> buckets[i] == []
    {
      var first := new IntNode();
      var all := new IntNode[MAX_KEYS_COUNT](_ => first);
      ghost var ns, vs: set<array<int>> := {first}, {first.values};
      for i := 1 to MAX_KEYS_COUNT
        invariant fresh(all) && fresh(ns) && fresh(vs)
        invariant forall j :: 0 <= j < i ==> all[j] in ns && all[j].values in vs && all[j].Holds([])
        invariant forall j, k :: 0 <= j < k < i ==> all[j] != all[k] && all[j].values != all[k].values
      {
        var node := new IntNode();
        all[i] := node;
        ns, vs := ns + {node}, vs + {node.values};
      }
      nodes := all;
      nodeSet, valueSet := ns, vs;
      buckets := seq(MAX_KEYS_COUNT, _ => []);
    }

    twostate lemma OnlyBucket(h: nat)
      requires old(Valid()) && h < MAX_KEYS_COUNT && |buckets| == MAX_KEYS_COUNT
      requires nodeSet == old(nodeSet) && valueSet == old(valueSet)
      requires forall i :: 0 <= i < MAX_KEYS_COUNT ==> nodes[i] == old(nodes[i])
      requires forall i :: 0 <= i < MAX_KEYS_COUNT && i != h ==>
        buckets[i] == old(buckets[i]) && unchanged(nodes[i]) && unchanged(nodes[i].values)
      requires nodes[h].Holds(buckets[h])
      ensures Valid()
    {
      forall i | 0 <= i < MAX_KEYS_COUNT ensures NodeOk(i) {
        assert old(NodeOk(i));
      }
    }

    /** add_key: 1 when the bucket is full, and then nothing changes. */
    method AddKey(key: string, value: int) returns (r: int)
      requires Valid()
      modifies this`buckets, nodeSet, valueSet
      ensures Valid() && nodeSet == old(nodeSet) && valueSet == old(valueSet)
      ensures buckets == old(buckets)[Chash(key) := AddFd(old(buckets)[Chash(key)], value)]
      ensures r == if |old(buckets)[Chash(key)]| >= MAX_SESSION_COUNT then 1 else 0
    {
      var index := ComputeChash(key);
      var node := nodes[index];
      assert NodeOk(index);
      r := node.Add(value, buckets[index]);
      buckets := buckets[index := AddFd(buckets[index], value)];
      OnlyBucket(index);
    }

    /** remove_key: 1 when the descriptor is not in the bucket. */
    method RemoveKey(key: string, value: int) returns (r: int)
      requires Valid()
      modifies this`buckets, nodeSet, valueSet
      ensures Valid() && nodeSet == old(nodeSet) && valueSet == old(valueSet)
      ensures buckets == old(buckets)[Chash(key) := RemoveFd(old(buckets)[Chash(key)], value)]
      ensures r == if value in old(buckets)[Chash(key)] then 0 else 1
    {
      var index := ComputeChash(key);
      var node := nodes[index];
      assert NodeOk(index);
      r := node.Remove(value, buckets[index]);
      buckets := buckets[index := RemoveFd(buckets[index], value)];
      OnlyBucket(index);
    }

    /** get_fds */
    method GetFds(key: string) returns (fds: seq<int>)
      requires Valid()
      ensures fds == buckets[Chash(key)]
    {
      var index := ComputeChash(key);
      assert NodeOk(index);
      fds := nodes[index].Copy(buckets[index]);
    }
  }
}

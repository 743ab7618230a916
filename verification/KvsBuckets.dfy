/** The key-value table of src/server/kvs.c as 26 association lists, and the finite map they
    stand for. KvsTable.dfy shows that the heap-linked table works on these lists. */
module KvsBuckets {

  const TABLE_SIZE: nat := 26

  datatype Option<+T> = None | Some(value: T)

  datatype Pair = Pair(key: string, value: string)

  function ToLower(c: char): char {
    if 'A' <= c <= 'Z' then ((c as int) + 32) as char else c
  }

  /** The bucket of a key, from its first character; -1 when that is neither letter nor digit.
      Letters and digits share the first ten buckets. */
  function Hash(key: string): (h: int)
    ensures -1 <= h < TABLE_SIZE
    ensures h >= 0 <==> key != "" && (('a' <= ToLower(key[0]) <= 'z') || ('0' <= key[0] <= '9'))
  {
    if key == "" then -1
    else
      var c := ToLower(key[0]);
      if 'a' <= c <= 'z' then (c as int) - ('a' as int)
      else if '0' <= c <= '9' then (c as int) - ('0' as int)
      else -1
  }

  /** The keys that hash accepts; every table operation demands one. */
  predicate Hashable(key: string) {
    Hash(key) >= 0
  }

  /** Letters have ascending buckets in the order of the alphabet, whatever their case, and so have
      digits, from the first bucket on. */
  lemma AlphabetInOrder(c: char, c': char, k: string, k': string)
    requires k != "" && k[0] == c && k' != "" && k'[0] == c'
    ensures 'a' <= c < c' <= 'z' || 'A' <= c < c' <= 'Z' || '0' <= c < c' <= '9' ==> Hash(k) < Hash(k')
    ensures 'A' <= c <= 'Z' && c' as int == c as int + 32 ==> Hash(k) == Hash(k')
    ensures c == 'a' || c == 'A' || c == '0' ==> Hash(k) == 0
    ensures c == 'z' || c == 'Z' ==> Hash(k) == TABLE_SIZE - 1
    ensures c == '9' ==> Hash(k) == 9
  {
  }

  type Chain = seq<Pair>
  type Buckets = seq<Chain>

  /** Where a chain walk finds the key, or -1. */
  function Find(chain: Chain, key: string): (j: int)
    ensures -1 <= j < |chain|
    ensures j >= 0 ==> chain[j].key == key
    ensures forall i :: 0 <= i < (if j < 0 then |chain| else j) ==> chain[i].key != key
  {
    if chain == [] then -1
    else if chain[0].key == key then 0
    else
      var j := Find(chain[1..], key);
      if j < 0 then -1 else j + 1
  }

  /** Overwrite in place, or insert at the head. */
  function Put(chain: Chain, key: string, value: string): Chain {
    var j := Find(chain, key);
    if j >= 0 then chain[j := Pair(key, value)] else [Pair(key, value)] + chain
  }

  function Drop(chain: Chain, key: string): Chain {
    var j := Find(chain, key);
    if j >= 0 then chain[..j] + chain[j + 1..] else chain
  }

  ghost predicate Distinct(chain: Chain) {
    forall i, j :: 0 <= i < j < |chain| ==> chain[i].key != chain[j].key
  }

  ghost predicate ChainOk(chain: Chain, b: int) {
    Distinct(chain) && forall i :: 0 <= i < |chain| ==> Hash(chain[i].key) == b
  }

  /** Each key sits once, and in the bucket that hash gives. */
  ghost predicate WellFormed(bs: Buckets) {
    |bs| == TABLE_SIZE && forall b :: 0 <= b < |bs| ==> ChainOk(bs[b], b)
  }

  ghost function Keys(bs: Buckets): set<string> {
    set b, j | 0 <= b < |bs| && 0 <= j < |bs[b]| :: bs[b][j].key
  }

  /** The finite map the table stands for. */
  ghost function Abs(bs: Buckets): map<string, string>
    requires WellFormed(bs)
  {
    map k | k in Keys(bs) && Hashable(k) && Find(bs[Hash(k)], k) >= 0 :: bs[Hash(k)][Find(bs[Hash(k)], k)].value
  }

  lemma KeyHasBucket(bs: Buckets, key: string)
    requires WellFormed(bs)
    ensures key in Abs(bs) <==> Hashable(key) && Find(bs[Hash(key)], key) >= 0
  {
    if Hashable(key) && Find(bs[Hash(key)], key) >= 0 {
      var j := Find(bs[Hash(key)], key);
      assert bs[Hash(key)][j].key == key;
      assert key in Keys(bs);
    }
  }

  /** An entry is what the map holds for its key. */
  lemma EntryInAbs(bs: Buckets, b: nat, j: nat)
    requires WellFormed(bs) && b < |bs| && j < |bs[b]|
    ensures bs[b][j].key in Abs(bs) && Abs(bs)[bs[b][j].key] == bs[b][j].value
  {
    var k := bs[b][j].key;
    assert ChainOk(bs[b], b) && Hash(k) == b;
    var f := Find(bs[b], k);
    assert f == j;
    KeyHasBucket(bs, k);
  }

  /** A chain walk answers the map lookup: read_pair. */
  lemma ReadRefines(bs: Buckets, key: string)
    requires WellFormed(bs) && Hashable(key)
    ensures var j := Find(bs[Hash(key)], key);
            (if j >= 0 then Some(bs[Hash(key)][j].value) else None) == Lookup(Abs(bs), key)
  {
    KeyHasBucket(bs, key);
  }

  function Lookup(m: map<string, string>, key: string): Option<string> {
    if key in m then Some(m[key]) else None
  }

  lemma PutKeepsChain(chain: Chain, b: nat, key: string, value: string)
    requires ChainOk(chain, b) && Hash(key) == b
    ensures ChainOk(Put(chain, key, value), b)
  {
  }

  lemma DropKeepsChain(chain: Chain, b: nat, key: string)
    requires ChainOk(chain, b)
    ensures ChainOk(Drop(chain, key), b)
  {
  }

  lemma {:induction false} FindAfterPut(chain: Chain, key: string, value: string, k: string)
    ensures var c := Put(chain, key, value);
            && (Find(c, k) >= 0 <==> k == key || Find(chain, k) >= 0)
            && (k == key ==> c[Find(c, k)].value == value)
            && (k != key && Find(chain, k) >= 0 ==> c[Find(c, k)] == chain[Find(chain, k)])
  {
    var c, f := Put(chain, key, value), Find(chain, k);
    if f >= 0 && k != key {
      var at := if Find(chain, key) >= 0 then f else f + 1;
      assert c[at] == chain[f];
      assert Find(c, k) == at;
    } else if k == key {
      assert c[if Find(chain, key) >= 0 then f else 0] == Pair(key, value);
    }
  }

  /** What a table with one changed chain holds for a key: the new chain decides the keys of its
      bucket, and nothing else changes. */
  lemma ChangedChain(bs: Buckets, h: nat, chain: Chain, k: string)
    requires WellFormed(bs) && h < TABLE_SIZE && ChainOk(chain, h)
    ensures WellFormed(bs[h := chain])
    ensures Hash(k) != h ==> Lookup(Abs(bs[h := chain]), k) == Lookup(Abs(bs), k)
    ensures Hash(k) == h ==>
      Lookup(Abs(bs[h := chain]), k) == if Find(chain, k) >= 0 then Some(chain[Find(chain, k)].value) else None
  {
    KeyHasBucket(bs, k);
    KeyHasBucket(bs[h := chain], k);
  }

  lemma SameMap(m: map<string, string>, m': map<string, string>)
    requires forall k :: Lookup(m, k) == Lookup(m', k)
    ensures m == m'
  {
    forall k ensures k in m <==> k in m' {
      assert Lookup(m, k) == Lookup(m', k);
    }
    forall k | k in m ensures m[k] == m'[k] {
      assert Lookup(m, k) == Lookup(m', k);
    }
  }

  lemma WrittenKey(bs: Buckets, key: string, value: string, k: string)
    requires WellFormed(bs) && Hashable(key)
    ensures var bs' := bs[Hash(key) := Put(bs[Hash(key)], key, value)];
            WellFormed(bs') && Lookup(Abs(bs'), k) == if k == key then Some(value) else Lookup(Abs(bs), k)
  {
    var h := Hash(key);
    PutKeepsChain(bs[h], h, key, value);
    ChangedChain(bs, h, Put(bs[h], key, value), k);
    if Hash(k) == h {
      FindAfterPut(bs[h], key, value, k);
      ReadRefines(bs, k);
    }
  }

  /** write_pair is the map update: all other keys are untouched. */
  lemma WriteRefines(bs: Buckets, key: string, value: string)
    requires WellFormed(bs) && Hashable(key)
    ensures var bs' := bs[Hash(key) := Put(bs[Hash(key)], key, value)];
            WellFormed(bs') && Abs(bs') == Abs(bs)[key := value]
  {
    WrittenKey(bs, key, value, key);
    var bs' := bs[Hash(key) := Put(bs[Hash(key)], key, value)];
    forall k ensures Lookup(Abs(bs'), k) == Lookup(Abs(bs)[key := value], k) {
      WrittenKey(bs, key, value, k);
    }
    SameMap(Abs(bs'), Abs(bs)[key := value]);
  }

  lemma FindAfterDrop(chain: Chain, key: string, k: string)
    requires Distinct(chain)
    ensures var c := Drop(chain, key);
            && (Find(c, k) >= 0 <==> k != key && Find(chain, k) >= 0)
            && (k != key && Find(chain, k) >= 0 ==> c[Find(c, k)] == chain[Find(chain, k)])
  {
    var j := Find(chain, key);
    if j >= 0 {
      DropKeepsDistinct(chain, key);
      if k == key {
        AbsentFrom(chain[..j], chain[j + 1..], chain, key);
      } else {
        FindOther(chain, j, k);
      }
    }
  }

  lemma FindOther(chain: Chain, j: nat, k: string)
    requires j < |chain| && Distinct(chain) && Distinct(chain[..j] + chain[j + 1..]) && chain[j].key != k
    ensures var c := chain[..j] + chain[j + 1..];
            && (Find(c, k) >= 0 <==> Find(chain, k) >= 0)
            && (Find(chain, k) >= 0 ==> c[Find(c, k)] == chain[Find(chain, k)])
  {
    var c, f := chain[..j] + chain[j + 1..], Find(chain, k);
    if f >= 0 {
      FoundAt(c, k, if f > j then f - 1 else f);
    } else if Find(c, k) >= 0 {
      FoundAt(chain, k, if Find(c, k) >= j then Find(c, k) + 1 else Find(c, k));
    }
  }

  lemma DropKeepsDistinct(chain: Chain, key: string)
    requires Distinct(chain)
    ensures Distinct(Drop(chain, key))
  {
  }

  lemma AbsentFrom(front: Chain, back: Chain, chain: Chain, key: string)
    requires Distinct(chain) && |chain| == |front| + 1 + |back|
    requires front == chain[..|front|] && back == chain[|front| + 1..] && chain[|front|].key == key
    ensures Find(front + back, key) == -1
  {
    forall i | 0 <= i < |front + back| ensures (front + back)[i].key != key {
      assert (front + back)[i] == chain[if i < |front| then i else i + 1];
    }
  }

  lemma FoundAt(chain: Chain, key: string, i: nat)
    requires Distinct(chain) && i < |chain| && chain[i].key == key
    ensures Find(chain, key) == i
  {
  }

  lemma DeletedKey(bs: Buckets, key: string, k: string)
    requires WellFormed(bs) && Hashable(key)
    ensures var bs' := bs[Hash(key) := Drop(bs[Hash(key)], key)];
            WellFormed(bs') && Lookup(Abs(bs'), k) == if k == key then None else Lookup(Abs(bs), k)
  {
    var h := Hash(key);
    DropKeepsChain(bs[h], h, key);
    ChangedChain(bs, h, Drop(bs[h], key), k);
    if Hash(k) == h {
      FindAfterDrop(bs[h], key, k);
      ReadRefines(bs, k);
    }
  }

  /** delete_pair is removal from the map. */
  lemma DeleteRefines(bs: Buckets, key: string)
    requires WellFormed(bs) && Hashable(key)
    ensures var bs' := bs[Hash(key) := Drop(bs[Hash(key)], key)];
            WellFormed(bs') && Abs(bs') == Abs(bs) - {key}
  {
    DeletedKey(bs, key, key);
    var bs' := bs[Hash(key) := Drop(bs[Hash(key)], key)];
    forall k ensures Lookup(Abs(bs'), k) == Lookup(Abs(bs) - {key}, k) {
      DeletedKey(bs, key, k);
    }
    SameMap(Abs(bs'), Abs(bs) - {key});
  }

  /** The order in which SHOW and BACKUP walk the table. */
  function Listing(bs: Buckets): seq<Pair> {
    if bs == [] then [] else Listing(bs[..|bs| - 1]) + bs[|bs| - 1]
  }

  ghost predicate Ordered(bs: Buckets) {
    forall b :: 0 <= b < |bs| ==> ChainOk(bs[b], b)
  }

  lemma {:induction false} ListingDistinct(bs: Buckets)
    requires Ordered(bs)
    ensures Distinct(Listing(bs))
    ensures forall p :: p in Listing(bs) ==> 0 <= Hash(p.key) < |bs| && p in bs[Hash(p.key)]
    ensures forall b, j :: 0 <= b < |bs| && 0 <= j < |bs[b]| ==> bs[b][j] in Listing(bs)
  {
    if bs != [] {
      var n := |bs| - 1;
      var front := Listing(bs[..n]);
      ListingDistinct(bs[..n]);
      assert ChainOk(bs[n], n);
      forall i, j | 0 <= i < j < |Listing(bs)| ensures Listing(bs)[i].key != Listing(bs)[j].key {
        if i < |front| <= j {
          assert front[i] in front && Hash(front[i].key) < n;
          assert Hash(bs[n][j - |front|].key) == n;
        }
      }
      forall b, j | 0 <= b < |bs| && 0 <= j < |bs[b]| ensures bs[b][j] in Listing(bs) {
        if b < n {
          assert bs[b] == bs[..n][b];
        }
      }
    }
  }

  /** The traversal goes through the buckets in their order: keys that begin with letters come in the
      order of the alphabet. */
  lemma {:induction false} ListingInOrder(bs: Buckets)
    requires Ordered(bs)
    ensures forall i, j :: 0 <= i < j < |Listing(bs)| ==> Hash(Listing(bs)[i].key) <= Hash(Listing(bs)[j].key)
  {
    if bs != [] {
      var n := |bs| - 1;
      var front := Listing(bs[..n]);
      ListingInOrder(bs[..n]);
      ListingDistinct(bs[..n]);
      assert ChainOk(bs[n], n);
      forall i, j | 0 <= i < j < |Listing(bs)|
        ensures Hash(Listing(bs)[i].key) <= Hash(Listing(bs)[j].key)
      {
        if i < |front| <= j {
          assert front[i] in front && Hash(front[i].key) < n;
        }
      }
    }
  }

  /** The traversal visits every pair of the map exactly once. */
  lemma ListingIsTheMap(bs: Buckets)
    requires WellFormed(bs)
    ensures forall k, v :: Pair(k, v) in Listing(bs) <==> k in Abs(bs) && Abs(bs)[k] == v
    ensures Distinct(Listing(bs))
    ensures |Listing(bs)| == |Abs(bs)|
  {
    ListingDistinct(bs);
    forall k, v ensures Pair(k, v) in Listing(bs) <==> k in Abs(bs) && Abs(bs)[k] == v {
      KeyHasBucket(bs, k);
      if Pair(k, v) in Listing(bs) {
        var j :| 0 <= j < |bs[Hash(k)]| && bs[Hash(k)][j] == Pair(k, v);
        EntryInAbs(bs, Hash(k), j);
      }
      if k in Abs(bs) {
        assert bs[Hash(k)][Find(bs[Hash(k)], k)] == Pair(k, Abs(bs)[k]);
      }
    }
    forall k ensures k in KeySet(Listing(bs)) <==> k in Abs(bs).Keys {
      if k in Abs(bs) {
        assert Pair(k, Abs(bs)[k]) in Listing(bs);
      }
    }
    assert KeySet(Listing(bs)) == Abs(bs).Keys;
    DistinctKeyCount(Listing(bs));
  }

  ghost function KeySet(l: seq<Pair>): set<string> {
    set i | 0 <= i < |l| :: l[i].key
  }

  lemma {:induction false} DistinctKeyCount(l: seq<Pair>)
    requires Distinct(l)
    ensures |KeySet(l)| == |l|
  {
    if l == [] {
      assert KeySet(l) == {};
    } else {
      var n := |l| - 1;
      DistinctKeyCount(l[..n]);
      forall k ensures k in KeySet(l) <==> k in KeySet(l[..n]) + {l[n].key} {
        if k in KeySet(l[..n]) {
          var i :| 0 <= i < n && l[..n][i].key == k;
          assert l[i].key == k;
        }
        if k in KeySet(l) {
          var i :| 0 <= i < |l| && l[i].key == k;
          if i < n {
            assert l[..n][i].key == k;
          }
        }
      }
      assert KeySet(l) == KeySet(l[..n]) + {l[n].key};
      assert l[n].key !in KeySet(l[..n]);
    }
  }
}

/** The chained hash table on the heap (src/server/kvs.c), proved against KvsBuckets. */
module KvsTable {
  import opened KvsBuckets

  class KeyNode {
    const key: string
    var value: string
    var next: KeyNode?

    constructor (key: string, value: string, next: KeyNode?)
      ensures this.key == key && this.value == value && this.next == next
    {
      this.key, this.value, this.next := key, value, next;
    }
  }

  ghost function NodeAt(chain: seq<KeyNode>, i: nat): KeyNode? {
    if i < |chain| then chain[i] else null
  }

  class HashTable {
    const table: array<KeyNode?>
    ghost var Repr: set<object>  // the table and its nodes
    ghost var chains: seq<seq<KeyNode>>  // the nodes of each null-terminated list
    ghost var lists: Buckets             // the pairs they hold

    /** chains[b] is the list that starts at table[b], and lists[b] what is in it. */
    ghost predicate Linked(b: nat)
      requires table in Repr && b < table.Length && b < |chains| && b < |lists|
      reads this, Repr
    {
      && table[b] == NodeAt(chains[b], 0)
      && |chains[b]| == |lists[b]|
      && forall i :: 0 <= i < |chains[b]| ==> NodeOk(b, i)
    }

    ghost predicate NodeOk(b: nat, i: nat)
      requires b < |chains| && b < |lists| && i < |chains[b]| && i < |lists[b]|
      reads this, Repr
    {
      && chains[b][i] in Repr
      && chains[b][i].key == lists[b][i].key
      && chains[b][i].value == lists[b][i].value
      && chains[b][i].next == NodeAt(chains[b], i + 1)
    }

    ghost predicate Valid()
      reads this, Repr
    {
      && this in Repr && table in Repr
      && table.Length == TABLE_SIZE == |chains|
      && WellFormed(lists)
      && forall b :: 0 <= b < TABLE_SIZE ==> Linked(b)
    }

    /** The finite map held by the table. */
    ghost function View(): map<string, string>
      requires WellFormed(lists)
      reads this
    {
      Abs(lists)
    }

    /** create_hash_table */
    constructor ()
      ensures Valid() && fresh(Repr) && View() == map[]
    {
      table := new KeyNode?[TABLE_SIZE](_ => null);
      chains := seq(TABLE_SIZE, _ => []);
      lists := seq(TABLE_SIZE, _ => []);

      new;
      Repr := {this, table};
      assert Keys(lists) == {};
    }

    /** Chains are disjoint and acyclic: a node occurs at one place only. */
    lemma NodesOccurOnce(b: nat, i: nat, b': nat, i': nat)
      requires Valid() && b < TABLE_SIZE && b' < TABLE_SIZE && i < |chains[b]| && i' < |chains[b']|
      requires chains[b][i] == chains[b'][i']
      ensures b == b' && i == i'
    {
      assert Linked(b) && Linked(b') && NodeOk(b, i) && NodeOk(b', i');
      assert ChainOk(lists[b], b) && ChainOk(lists[b'], b');
    }

    /** The lists that an update leaves alone. */
    twostate lemma OthersLinked(h: nat)
      requires old(Valid()) && |chains| == |lists| == TABLE_SIZE && old(Repr) <= Repr
      requires forall b :: 0 <= b < TABLE_SIZE && b != h ==>
        chains[b] == old(chains)[b] && lists[b] == old(lists)[b] && table[b] == old(table[b])
      requires forall b, i :: 0 <= b < TABLE_SIZE && b != h && 0 <= i < |chains[b]| ==> unchanged(chains[b][i])
      ensures forall b :: 0 <= b < TABLE_SIZE && b != h ==> Linked(b)
    {
      forall b | 0 <= b < TABLE_SIZE && b != h ensures Linked(b) {
        assert old(Linked(b));
        forall i | 0 <= i < |chains[b]| ensures NodeOk(b, i) {
          assert old(NodeOk(b, i));
        }
      }
    }

    /** The chain walk that write_pair, read_pair and delete_pair share. */
    method Walk(key: string, h: nat) returns (prev: KeyNode?, node: KeyNode?, ghost j: nat)
      requires Valid() && h == Hash(key)
      ensures Find(lists[h], key) == if node == null then -1 else j
      ensures j <= |chains[h]| == |lists[h]| && node == NodeAt(chains[h], j)
      ensures node != null ==> node in Repr && node.key == key && node.value == lists[h][j].value
      ensures prev == if j == 0 then null else chains[h][j - 1]
      ensures prev != null ==> prev in Repr
    {
      prev, node, j := null, table[h], 0;
      assert Linked(h);
      while node != null
        invariant 0 <= j <= |chains[h]| && node == NodeAt(chains[h], j)
        invariant prev == if j == 0 then null else chains[h][j - 1]
        invariant prev != null ==> prev in Repr
        invariant forall i :: 0 <= i < j ==> lists[h][i].key != key
        decreases |chains[h]| - j
      {
        assert NodeOk(h, j);
        if node.key == key {
          return;
        }
        prev, node, j := node, node.next, j + 1;
      }
    }

    /** read_pair */
    method ReadPair(key: string) returns (r: Option<string>)
      requires Valid() && Hashable(key)
      ensures r == Lookup(View(), key)
    {
      ReadRefines(lists, key);
      var _, node, j := Walk(key, Hash(key));
      r := if node == null then None else Some(node.value);
    }

    /** write_pair */
    method WritePair(key: string, value: string)
      requires Valid() && Hashable(key)
      modifies Repr
      ensures Valid() && old(Repr) <= Repr && fresh(Repr - old(Repr))
      ensures View() == old(View())[key := value]
    {
      WriteRefines(lists, key, value);
      var _, node, j := Walk(key, Hash(key));
      if node != null {
        Overwrite(Hash(key), j, node, value);
      } else {
        Insert(Hash(key), key, value);
      }
    }

    method Overwrite(h: nat, ghost j: nat, node: KeyNode, value: string)
      requires Valid() && h < TABLE_SIZE && j < |chains[h]| == |lists[h]| && node == chains[h][j]
      requires WellFormed(lists[h := lists[h][j := Pair(node.key, value)]])
      modifies this`lists, node
      ensures Valid() && lists == old(lists)[h := old(lists)[h][j := Pair(node.key, value)]]
    {
      forall b, i | 0 <= b < TABLE_SIZE && 0 <= i < |chains[b]| && chains[b][i] == node ensures b == h && i == j {
        NodesOccurOnce(b, i, h, j);
      }
      node.value := value;
      lists := lists[h := lists[h][j := Pair(node.key, value)]];
      assert old(Linked(h));
      forall i | 0 <= i < |chains[h]| ensures NodeOk(h, i) {
        assert old(NodeOk(h, i));
      }
      OthersLinked(h);
    }

    method Insert(h: nat, key: string, value: string)
      requires Valid() && h < TABLE_SIZE
      requires WellFormed(lists[h := [Pair(key, value)] + lists[h]])
      modifies Repr
      ensures Valid() && old(Repr) <= Repr && fresh(Repr - old(Repr))
      ensures lists == old(lists)[h := [Pair(key, value)] + old(lists)[h]]
    {
      assert Linked(h);
      var node := new KeyNode(key, value, table[h]);
      table[h] := node;
      Repr := Repr + {node};
      chains := chains[h := [node] + chains[h]];
      lists := lists[h := [Pair(key, value)] + lists[h]];
      forall i | 0 <= i < |chains[h]| ensures NodeOk(h, i) {
        assert i > 0 ==> old(NodeOk(h, i - 1));
      }
      OthersLinked(h);
    }

    /** delete_pair: 0 when the key was there, 1 when it was missing. */
    method DeletePair(key: string) returns (missing: bool)
      requires Valid() && Hashable(key)
      modifies Repr
      ensures Valid() && Repr == old(Repr)
      ensures View() == old(View()) - {key}
      ensures missing <==> key !in old(View())
    {
      var h := Hash(key);
      DeleteRefines(lists, key);
      KeyHasBucket(lists, key);
      var prev, node, j := Walk(key, h);
      missing := node == null;
      if node != null {
        if prev == null {
          UnlinkFirst(h, node);
        } else {
          UnlinkAfter(h, j, prev, node);
        }
      } else {
        assert lists[h := lists[h]] == lists;
      }
    }

    /** The node to delete is the first of its list. */
    method UnlinkFirst(h: nat, node: KeyNode)
      requires Valid() && h < TABLE_SIZE && |chains[h]| > 0 && node == chains[h][0]
      requires Find(lists[h], node.key) == 0
      requires WellFormed(lists[h := Drop(lists[h], node.key)])
      modifies this`chains, this`lists, table
      ensures Valid() && lists == old(lists)[h := Drop(old(lists)[h], node.key)]
    {
      assert Linked(h) && NodeOk(h, 0);
      table[h] := node.next;
      chains := chains[h := chains[h][1..]];
      lists := lists[h := Drop(lists[h], node.key)];
      forall i | 0 <= i < |chains[h]| ensures NodeOk(h, i) {
        assert old(NodeOk(h, i + 1));
      }
      OthersLinked(h);
    }

    /** The node to delete is bypassed by the one before it. */
    method UnlinkAfter(h: nat, ghost j: nat, prev: KeyNode, node: KeyNode)
      requires Valid() && h < TABLE_SIZE && 0 < j < |chains[h]| && node == chains[h][j] && prev == chains[h][j - 1]
      requires Find(lists[h], node.key) == j
      requires WellFormed(lists[h := Drop(lists[h], node.key)])
      modifies this`chains, this`lists, prev
      ensures Valid() && lists == old(lists)[h := Drop(old(lists)[h], node.key)]
    {
      assert Linked(h) && NodeOk(h, j);
      forall b, i | 0 <= b < TABLE_SIZE && 0 <= i < |chains[b]| && chains[b][i] == prev ensures b == h && i == j - 1 {
        NodesOccurOnce(b, i, h, j - 1);
      }
      prev.next := node.next;
      chains := chains[h := chains[h][..j] + chains[h][j + 1..]];
      lists := lists[h := Drop(lists[h], node.key)];
      forall i | 0 <= i < |chains[h]| ensures NodeOk(h, i) {
        assert old(NodeOk(h, if i >= j then i + 1 else i));
      }
      OthersLinked(h);
    }
  }
}

/** The operations of src/server/operations.c on the hash table. Each runs under the store's
    read-write lock (see StoreRuns.dfy), so here it runs alone. */
module Operations {
  import opened Sequences
  import opened CStrings
  import opened KvsBuckets
  import opened KvsTable
  import opened Formatting
  import opened Batches
  import opened Reports

  /** kvs_write, with the calls of the write callback as the list of events: one for each pair that
      changes the table in its turn. */
  method KvsWrite(ht: HashTable, pairs: seq<Pair>) returns (events: seq<Event>)
    requires ht.Valid() && AllHashable(WriteBatch(pairs))
    modifies ht.Repr
    ensures ht.Valid() && fresh(ht.Repr - old(ht.Repr))
    ensures ht.View() == After(old(ht.View()), WriteBatch(pairs), |pairs|)
    ensures events == EventsOf(old(ht.View()), WriteBatch(pairs), |pairs|)
    ensures ReportsChanges(old(ht.View()), pairs, |pairs|, events)
  {
    EveryChangeReported(ht.View(), pairs, |pairs|);
    events := WriteAll(ht, WriteBatch(pairs));
  }

  /** Its loop. */
  method WriteAll(ht: HashTable, op: Batch) returns (events: seq<Event>)
    requires ht.Valid() && op.WriteBatch? && AllHashable(op)
    modifies ht.Repr
    ensures fresh(ht.Repr - old(ht.Repr))
    ensures Progress(ht, old(ht.View()), op, op.Size(), events)
  {
    events := [];
    ghost var m := ht.View();
    NothingYet(m, op);
    for i := 0 to |op.pairs|
      invariant old(ht.Repr) <= ht.Repr && fresh(ht.Repr - old(ht.Repr))
      invariant Progress(ht, m, op, i, events)
    {
      assert Hashable(op.KeyAt(i));
      events := WriteOne(ht, op, i, events, m);
    }
  }

  ghost predicate Progress(ht: HashTable, m: Store, op: Batch, i: nat, events: seq<Event>)
    reads ht, ht.Repr
  {
    ht.Valid() && i <= op.Size() && Ahead(ht.View(), m, op, i, events)
  }

  ghost predicate Ahead(view: Store, m: Store, op: Batch, i: nat, events: seq<Event>)
    requires i <= op.Size()
  {
    view == After(m, op, i) && events == EventsOf(m, op, i)
  }

  lemma NothingYet(m: Store, op: Batch)
    ensures Ahead(m, m, op, 0, [])
  {
  }

  lemma NextItem(view: Store, m: Store, op: Batch, i: nat, events: seq<Event>)
    requires i < op.Size() && Ahead(view, m, op, i, events)
    ensures Ahead(ApplyItem(view, op, i), m, op, i + 1, events + ItemEvents(view, op, i))
  {
    NextOfBatch(m, op, i);
  }

  /** One turn of the loop in kvs_write. */
  method WriteOne(ht: HashTable, op: Batch, i: nat, events: seq<Event>, ghost m: Store) returns (events': seq<Event>)
    requires op.WriteBatch? && i < |op.pairs| && Hashable(op.pairs[i].key)
    requires Progress(ht, m, op, i, events)
    modifies ht.Repr
    ensures Progress(ht, m, op, i + 1, events')
    ensures old(ht.Repr) <= ht.Repr && fresh(ht.Repr - old(ht.Repr))
  {
    var pair := op.pairs[i];
    NextItem(ht.View(), m, op, i, events);
    var oldValue := ht.ReadPair(pair.key);
    if oldValue == Some(pair.value) {
      SameValue(ht.View(), pair.key, pair.value);
      assert events + [] == events;
      return events;
    }
    ht.WritePair(pair.key, pair.value);
    events' := events + [Written(pair.key, pair.value)];
  }

  /** kvs_read: every answer comes from the one map the lock protects, and a reader of the text gets
      each key back with its value, or with KVSERROR, exactly when no answer is cut. */
  method KvsRead(ht: HashTable, keys: seq<string>) returns (text: string)
    requires ht.Valid() && AllHashable(DeleteBatch(keys))
    ensures Answered(ht.View(), keys, text)
  {
    var open := "[";
    text := open;
    ghost var pairs := [];
    for i := 0 to |keys|
      invariant IsReply(ht.View(), keys[..i], pairs)
      invariant text == open + Items(pairs)
    {
      assert Hashable(DeleteBatch(keys).KeyAt(i));
      var result := ht.ReadPair(keys[i]);
      var answer := Answer(keys[i], result);
      OneMoreReply(ht.View(), keys, i, pairs);
      ItemsLast(pairs, answer);
      Assoc(open, Items(pairs), Item(answer));
      text, pairs := text + Item(answer), pairs + [answer];
    }
    text := text + "]\n";
    assert keys[..|keys|] == keys;
    Telling(pairs);
  }

  /** kvs_delete, with the calls of the delete callback as the list of events, one for every key. A
      reader of the text gets the missing keys back exactly when none of them is cut. */
  method KvsDelete(ht: HashTable, keys: seq<string>) returns (text: string, events: seq<Event>)
    requires ht.Valid() && AllHashable(DeleteBatch(keys))
    modifies ht.Repr
    ensures ht.Valid() && ht.Repr == old(ht.Repr)
    ensures ht.View() == After(old(ht.View()), DeleteBatch(keys), |keys|)
    ensures events == EventsOf(old(ht.View()), DeleteBatch(keys), |keys|)
    ensures |events| == |keys| && forall i :: 0 <= i < |keys| ==> events[i] == Deleted(keys[i])
    ensures Reported(old(ht.View()), keys, text)
  {
    var items, aux;
    items, aux, events := DeleteAll(ht, keys);
    EveryDeletionReported(old(ht.View()), keys, |keys|);
    CloseText(old(ht.View()), keys, items, aux);
    text := Close(items, aux);
  }

  /** Its loop. */
  method DeleteAll(ht: HashTable, keys: seq<string>) returns (items: string, aux: bool, events: seq<Event>)
    requires ht.Valid() && AllHashable(DeleteBatch(keys))
    modifies ht.Repr
    ensures ht.Repr == old(ht.Repr)
    ensures Progress(ht, old(ht.View()), DeleteBatch(keys), |keys|, events)
    ensures ReportedSoFar(old(ht.View()), keys, |keys|, items, aux)
  {
    items, aux, events := "", false, [];
    for i := 0 to |keys|
      invariant ht.Valid() && ht.Repr == old(ht.Repr)
      invariant Progress(ht, old(ht.View()), DeleteBatch(keys), i, events)
      invariant ReportedSoFar(old(ht.View()), keys, i, items, aux)
    {
      assert Hashable(DeleteBatch(keys).KeyAt(i));
      items, aux, events := DeleteOne(ht, keys, i, items, aux, events, old(ht.View()));
    }
  }

  function Close(items: string, aux: bool): string {
    if aux then items + "]\n" else ""
  }

  lemma CloseText(m: Store, keys: seq<string>, items: string, aux: bool)
    requires ReportedSoFar(m, keys, |keys|, items, aux)
    ensures Reported(m, keys, Close(items, aux))
  {
    var pairs := MissingPairs(m, keys, |keys|);
    MissingIsReport(m, keys, |keys|);
    Telling(pairs);
    assert if pairs == [] then Close(items, aux) == "" else Tells(Close(items, aux), pairs);
  }

  /** The missing keys so far, after an opening bracket if there is any. */
  ghost predicate ReportedSoFar(m: Store, keys: seq<string>, i: nat, items: string, aux: bool) {
    && i <= |keys|
    && (aux <==> MissingPairs(m, keys, i) != [])
    && items == if aux then "[" + Items(MissingPairs(m, keys, i)) else ""
  }

  /** What one deletion adds to the report. */
  function Report(items: string, aux: bool, missing: bool, key: string): (string, bool) {
    if missing then ((if aux then items else "[") + Item(Pair(key, "KVSMISSING")), true) else (items, aux)
  }

  lemma ReportStep(m: Store, keys: seq<string>, i: nat, items: string, aux: bool)
    requires i < |keys| && ReportedSoFar(m, keys, i, items, aux)
    ensures var r := Report(items, aux, keys[i] !in After(m, DeleteBatch(keys), i), keys[i]);
            ReportedSoFar(m, keys, i + 1, r.0, r.1)
  {
    var pairs, p := MissingPairs(m, keys, i), Pair(keys[i], "KVSMISSING");
    ItemsLast(pairs, p);
    Assoc("[", Items(pairs), Item(p));
    assert "" + Item(p) == Item(p) && pairs + [] == pairs;
  }

  /** One turn of the loop in kvs_delete. */
  method DeleteOne(ht: HashTable, keys: seq<string>, i: nat, items: string, aux: bool, events: seq<Event>,
                   ghost m: Store)
    returns (items': string, aux': bool, events': seq<Event>)
    requires i < |keys| && Hashable(keys[i])
    requires Progress(ht, m, DeleteBatch(keys), i, events) && ReportedSoFar(m, keys, i, items, aux)
    modifies ht.Repr
    ensures Progress(ht, m, DeleteBatch(keys), i + 1, events') && ht.Repr == old(ht.Repr)
    ensures ReportedSoFar(m, keys, i + 1, items', aux')
  {
    ReportStep(m, keys, i, items, aux);
    var missing := ht.DeletePair(keys[i]);
    var r := Report(items, aux, missing, keys[i]);
    items', aux', events' := r.0, r.1, events + [Deleted(keys[i])];
  }

  /** kvs_key_exists: 0 when the key exists and 1 when it does not. */
  method KvsKeyExists(ht: HashTable, key: string) returns (r: int)
    requires ht.Valid() && Hashable(key)
    ensures r == if key in ht.View() then 0 else 1
  {
    var result := ht.ReadPair(key);
    r := if result == None then 1 else 0;
  }

  lemma OneMorePair(front: seq<Pair>, chain: Chain, j: nat)
    requires j < |chain|
    ensures front + chain[..j + 1] == front + chain[..j] + [chain[j]]
  {
  }

  lemma ShowPrefix(front: seq<Pair>, chain: Chain, j: nat)
    requires j < |chain|
    ensures ShowText(front + chain[..j + 1]) == ShowText(front + chain[..j]) + ShowLine(chain[j])
  {
    OneMorePair(front, chain, j);
    ShowTextLast(front + chain[..j], chain[j]);
  }

  lemma ListingStep(lists: Buckets, b: nat)
    requires b < |lists|
    ensures Listing(lists[..b + 1]) == Listing(lists[..b]) + lists[b]
  {
    assert lists[..b + 1][..b] == lists[..b];
  }

  ghost predicate ChainReady(ht: HashTable, b: nat)
    reads ht, ht.Repr
  {
    ht.table in ht.Repr && b < ht.table.Length && b < |ht.chains| && b < |ht.lists| && ht.Linked(b)
  }

  /** The inner loop of kvs_show, on one list. */
  method ShowChain(ht: HashTable, b: nat, before: string, ghost front: seq<Pair>) returns (text: string)
    requires ChainReady(ht, b) && before == ShowText(front)
    ensures text == ShowText(front + ht.lists[b])
  {
    text := before;
    var node := ht.table[b];
    ghost var j, chain := 0, ht.lists[b];
    assert front + chain[..0] == front;
    while node != null
      invariant 0 <= j <= |chain| && node == NodeAt(ht.chains[b], j)
      invariant text == ShowText(front + chain[..j])
      decreases |chain| - j
    {
      assert ht.NodeOk(b, j);
      ShowPrefix(front, chain, j);
      text := text + ShowLine(Pair(node.key, node.value));
      node, j := node.next, j + 1;
    }
    assert chain[..j] == chain;
  }

  /** kvs_show: the walk over the linked lists prints the listing of the table, and a reader of the
      lines gets it back exactly when none is cut. */
  method KvsShow(ht: HashTable) returns (text: string)
    requires ht.Valid()
    ensures LinesOf(text, Listing(ht.lists))
  {
    text := "";
    assert ht.lists[..0] == [];
    for b := 0 to TABLE_SIZE
      invariant text == ShowText(Listing(ht.lists[..b]))
    {
      ListingStep(ht.lists, b);
      text := ShowChain(ht, b, text, Listing(ht.lists[..b]));
    }
    assert ht.lists[..TABLE_SIZE] == ht.lists;
    PrintedLines(Listing(ht.lists));
  }

  ghost predicate AllCStrings(l: seq<Pair>) {
    forall p :: p in l ==> IsCString(p.key) && IsCString(p.value)
  }

  /** The inner loop of the backup writer, on one list. */
  method BackupChain(ht: HashTable, b: nat, before: string, ghost front: seq<Pair>) returns (text: string)
    requires ChainReady(ht, b) && before == ShowText(front) && AllCStrings(ht.lists[b])
    ensures text == ShowText(front + ht.lists[b])
  {
    text := before;
    var node := ht.table[b];
    ghost var j, chain := 0, ht.lists[b];
    assert front + chain[..0] == front;
    while node != null
      invariant 0 <= j <= |chain| && node == NodeAt(ht.chains[b], j)
      invariant text == ShowText(front + chain[..j])
      decreases |chain| - j
    {
      assert ht.NodeOk(b, j) && chain[j] in chain;
      ShowPrefix(front, chain, j);
      var line := BackupLine(Pair(node.key, node.value));
      text := text + line;
      node, j := node.next, j + 1;
    }
    assert chain[..j] == chain;
  }

  /** The child of kvs_backup, on its copy of the table: another formatter, the same text as
      kvs_show for the same table. */
  method BackupImage(ht: HashTable) returns (text: string)
    requires ht.Valid() && forall b :: 0 <= b < TABLE_SIZE ==> AllCStrings(ht.lists[b])
    ensures LinesOf(text, Listing(ht.lists))
  {
    text := "";
    assert ht.lists[..0] == [];
    for b := 0 to TABLE_SIZE
      invariant text == ShowText(Listing(ht.lists[..b]))
    {
      ListingStep(ht.lists, b);
      text := BackupChain(ht, b, text, Listing(ht.lists[..b]));
    }
    assert ht.lists[..TABLE_SIZE] == ht.lists;
    PrintedLines(Listing(ht.lists));
  }
}

/** What a WRITE or DELETE batch does to the map and which events it emits
    (kvs_write and kvs_delete in src/server/operations.c), and the replay law of the events. */
module Batches {
  import opened Sequences
  import opened KvsBuckets
  import opened Formatting

  type Store = map<string, string>

  datatype Batch = WriteBatch(pairs: seq<Pair>) | DeleteBatch(keys: seq<string>) {
    function Size(): nat {
      if WriteBatch? then |pairs| else |keys|
    }

    function KeyAt(i: nat): string
      requires i < Size()
    {
      if WriteBatch? then pairs[i].key else keys[i]
    }
  }

  /** Every key is in the domain of the table. */
  ghost predicate AllHashable(op: Batch) {
    forall i :: 0 <= i < op.Size() ==> Hashable(op.KeyAt(i))
  }

  /** The i-th item of a batch on the store. */
  function ApplyItem(m: Store, op: Batch, i: nat): Store
    requires i < op.Size()
  {
    if op.WriteBatch? then m[op.pairs[i].key := op.pairs[i].value] else m - {op.keys[i]}
  }

  /** The events of the i-th item: none for a write that changes nothing, and one for every
      deletion, even of a missing key. */
  function ItemEvents(m: Store, op: Batch, i: nat): seq<Event>
    requires i < op.Size()
  {
    if op.DeleteBatch? then [Deleted(op.keys[i])]
    else if Lookup(m, op.pairs[i].key) == Some(op.pairs[i].value) then []
    else [Written(op.pairs[i].key, op.pairs[i].value)]
  }

  /** The store after the first n items. */
  function After(m: Store, op: Batch, n: nat): Store
    requires n <= op.Size()
  {
    if n == 0 then m else ApplyItem(After(m, op, n - 1), op, n - 1)
  }

  /** The events of the first n items. */
  function EventsOf(m: Store, op: Batch, n: nat): seq<Event>
    requires n <= op.Size()
  {
    if n == 0 then [] else EventsOf(m, op, n - 1) + ItemEvents(After(m, op, n - 1), op, n - 1)
  }

  /** Whole batches, one after the other. */
  function FoldBatches(m: Store, history: seq<Batch>): Store {
    if history == [] then m
    else
      var op := history[|history| - 1];
      After(FoldBatches(m, history[..|history| - 1]), op, op.Size())
  }

  function LogOf(m: Store, history: seq<Batch>): seq<Event> {
    if history == [] then []
    else
      var op := history[|history| - 1];
      LogOf(m, history[..|history| - 1]) + EventsOf(FoldBatches(m, history[..|history| - 1]), op, op.Size())
  }

  /** One event on a reader's own copy of the map. */
  function ApplyEvent(m: Store, e: Event): Store {
    match e
    case Written(k, v) => m[k := v]
    case Deleted(k) => m - {k}
  }

  /** A reader of the events that keeps its own copy of the map. */
  function Replay(m: Store, events: seq<Event>): Store {
    if events == [] then m else ApplyEvent(Replay(m, events[..|events| - 1]), events[|events| - 1])
  }

  lemma {:induction false} ReplayAppend(m: Store, a: seq<Event>, b: seq<Event>)
    ensures Replay(m, a + b) == Replay(Replay(m, a), b)
  {
    if b == [] {
      assert a + b == a;
    } else {
      ReplayAppend(m, a, b[..|b| - 1]);
      assert (a + b)[..|a + b| - 1] == a + b[..|b| - 1];
    }
  }

  lemma ReplayOne(m: Store, e: Event)
    ensures Replay(m, [e]) == ApplyEvent(m, e)
  {
    assert [e][..0] == [];
  }

  /** What a key holds after an event that names it. */
  function ValueIn(e: Event): Option<string> {
    if e.Written? then Some(e.value) else None
  }

  lemma EventDecides(m: Store, e: Event, key: string)
    ensures Lookup(ApplyEvent(m, e), key) == if e.key == key then ValueIn(e) else Lookup(m, key)
  {
  }

  /** A write that changes nothing may stay silent. */
  lemma SameValue(m: Store, k: string, v: string)
    requires Lookup(m, k) == Some(v)
    ensures m[k := v] == m
  {
  }

  lemma ReplayItem(m: Store, op: Batch, i: nat)
    requires i < op.Size()
    ensures Replay(m, ItemEvents(m, op, i)) == ApplyItem(m, op, i)
    ensures NewsOnly(m, ItemEvents(m, op, i))
  {
    if op.DeleteBatch? {
      ReplayOne(m, Deleted(op.keys[i]));
    } else if Lookup(m, op.pairs[i].key) == Some(op.pairs[i].value) {
      SameValue(m, op.pairs[i].key, op.pairs[i].value);
    } else {
      var e := Written(op.pairs[i].key, op.pairs[i].value);
      ReplayOne(m, e);
      assert [e][..0] == [];
    }
  }

  lemma ReplayNext(m: Store, events: seq<Event>, before: Store, op: Batch, i: nat)
    requires i < op.Size() && Replay(m, events) == before
    ensures Replay(m, events + ItemEvents(before, op, i)) == ApplyItem(before, op, i)
  {
    ReplayAppend(m, events, ItemEvents(before, op, i));
    ReplayItem(before, op, i);
  }

  lemma NextOfBatch(m: Store, op: Batch, i: nat)
    requires i < op.Size()
    ensures After(m, op, i + 1) == ApplyItem(After(m, op, i), op, i)
    ensures EventsOf(m, op, i + 1) == EventsOf(m, op, i) + ItemEvents(After(m, op, i), op, i)
  {
  }

  /** What every item keeps between the events and the store, a batch keeps. */
  ghost predicate ItemsKeep(p: (seq<Event>, Store) -> bool, op: Batch) {
    forall events, before, i: nat :: i < op.Size() && p(events, before) ==>
      p(events + ItemEvents(before, op, i), ApplyItem(before, op, i))
  }

  lemma {:induction false} BatchKeeps(p: (seq<Event>, Store) -> bool, m: Store, op: Batch, n: nat)
    requires n <= op.Size() && p([], m) && ItemsKeep(p, op)
    ensures p(EventsOf(m, op, n), After(m, op, n))
  {
    if n > 0 {
      BatchKeeps(p, m, op, n - 1);
      NextOfBatch(m, op, n - 1);
    }
  }

  ghost function Replays(m: Store): (seq<Event>, Store) -> bool {
    (events, s) => Replay(m, events) == s
  }

  lemma ReplayKept(m: Store, op: Batch)
    ensures ItemsKeep(Replays(m), op)
  {
    forall events, before, i: nat | i < op.Size() && Replays(m)(events, before)
      ensures Replays(m)(events + ItemEvents(before, op, i), ApplyItem(before, op, i))
    {
      ReplayNext(m, events, before, op, i);
    }
  }

  lemma ReplayBatch(m: Store, op: Batch, n: nat)
    requires n <= op.Size()
    ensures Replay(m, EventsOf(m, op, n)) == After(m, op, n)
  {
    ReplayKept(m, op);
    assert Replay(m, []) == m;
    assert Replays(m)([], m);
    BatchKeeps(Replays(m), m, op, n);
  }

  /** Replaying the events over the initial map gives the final map. */
  lemma {:induction false} ReplayGivesTheStore(m: Store, history: seq<Batch>)
    ensures Replay(m, LogOf(m, history)) == FoldBatches(m, history)
  {
    if history != [] {
      var front, op := history[..|history| - 1], history[|history| - 1];
      ReplayGivesTheStore(m, front);
      ReplayAppend(m, LogOf(m, front), EventsOf(FoldBatches(m, front), op, op.Size()));
      ReplayBatch(FoldBatches(m, front), op, op.Size());
    }
  }

  /** No write event says what the reader's copy already holds when it arrives. */
  ghost predicate NewsOnly(m: Store, events: seq<Event>) {
    events != [] ==>
      var before, e := events[..|events| - 1], events[|events| - 1];
      && NewsOnly(m, before)
      && (e.Written? ==> Lookup(Replay(m, before), e.key) != Some(e.value))
  }

  lemma {:induction false} NewsAppend(m: Store, a: seq<Event>, b: seq<Event>)
    requires NewsOnly(m, a) && NewsOnly(Replay(m, a), b)
    ensures NewsOnly(m, a + b)
  {
    if b == [] {
      assert a + b == a;
    } else {
      var front := b[..|b| - 1];
      NewsAppend(m, a, front);
      ReplayAppend(m, a, front);
      assert (a + b)[..|a + b| - 1] == a + front;
    }
  }

  lemma NewsThenItem(m: Store, events: seq<Event>, before: Store, op: Batch, i: nat)
    requires i < op.Size() && Replay(m, events) == before && NewsOnly(m, events)
    ensures NewsOnly(m, events + ItemEvents(before, op, i))
  {
    ReplayItem(before, op, i);
    NewsAppend(m, events, ItemEvents(before, op, i));
  }

  ghost function ReplaysNews(m: Store): (seq<Event>, Store) -> bool {
    (events, s) => Replay(m, events) == s && NewsOnly(m, events)
  }

  lemma NewsKept(m: Store, op: Batch)
    ensures ItemsKeep(ReplaysNews(m), op)
  {
    forall events, before, i: nat | i < op.Size() && ReplaysNews(m)(events, before)
      ensures ReplaysNews(m)(events + ItemEvents(before, op, i), ApplyItem(before, op, i))
    {
      ReplayNext(m, events, before, op, i);
      NewsThenItem(m, events, before, op, i);
    }
  }

  lemma BatchNews(m: Store, op: Batch, n: nat)
    requires n <= op.Size()
    ensures NewsOnly(m, EventsOf(m, op, n))
  {
    NewsKept(m, op);
    assert Replay(m, []) == m && NewsOnly(m, []);
    assert ReplaysNews(m)([], m);
    BatchKeeps(ReplaysNews(m), m, op, n);
  }

  lemma {:induction false} LogIsNews(m: Store, history: seq<Batch>)
    ensures NewsOnly(m, LogOf(m, history))
  {
    if history != [] {
      var front, op := history[..|history| - 1], history[|history| - 1];
      LogIsNews(m, front);
      ReplayGivesTheStore(m, front);
      BatchNews(FoldBatches(m, front), op, op.Size());
      NewsAppend(m, LogOf(m, front), EventsOf(FoldBatches(m, front), op, op.Size()));
    }
  }

  /** A write batch with repeated keys: the last pair of a key decides. */
  lemma {:induction false} LastPairDecides(m: Store, op: Batch, n: nat, i: nat)
    requires op.WriteBatch? && i < n <= op.Size()
    requires forall j :: i < j < n ==> op.pairs[j].key != op.pairs[i].key
    ensures Lookup(After(m, op, n), op.pairs[i].key) == Some(op.pairs[i].value)
  {
    if i < n - 1 {
      LastPairDecides(m, op, n - 1, i);
      assert op.pairs[n - 1].key != op.pairs[i].key;
    }
  }

  /** Keys that a batch does not name stay. */
  lemma {:induction false} OthersStay(m: Store, op: Batch, n: nat, key: string)
    requires n <= op.Size() && forall j :: 0 <= j < n ==> op.KeyAt(j) != key
    ensures Lookup(After(m, op, n), key) == Lookup(m, key)
  {
    if n > 0 {
      OthersStay(m, op, n - 1, key);
      assert op.KeyAt(n - 1) != key;
    }
  }

  /** A delete batch finds a key exactly when it was stored and is not an earlier key of the batch. */
  lemma {:induction false} DeletedOnce(m: Store, op: Batch, n: nat, key: string)
    requires op.DeleteBatch? && n <= op.Size()
    ensures Lookup(After(m, op, n), key) == if key in op.keys[..n] then None else Lookup(m, key)
  {
    if n > 0 {
      DeletedOnce(m, op, n - 1, key);
      assert op.keys[..n] == op.keys[..n - 1] + [op.keys[n - 1]];
    }
  }

  // ---- Which events a batch emits ----

  /** Every key of a delete batch is reported, in order, whether it was there or not. */
  lemma {:induction false} EveryDeletionReported(m: Store, keys: seq<string>, n: nat)
    requires n <= |keys|
    ensures |EventsOf(m, DeleteBatch(keys), n)| == n
    ensures forall i :: 0 <= i < n ==> EventsOf(m, DeleteBatch(keys), n)[i] == Deleted(keys[i])
  {
    if n > 0 {
      EveryDeletionReported(m, keys, n - 1);
    }
  }

  /** A pair changes the store when its key holds another value in its turn, or none. */
  ghost predicate IsChange(m: Store, pairs: seq<Pair>, i: nat) {
    i < |pairs| && Lookup(After(m, WriteBatch(pairs), i), pairs[i].key) != Some(pairs[i].value)
  }

  /** The places of those pairs. */
  ghost function Changing(m: Store, pairs: seq<Pair>): nat -> bool {
    (i: nat) => IsChange(m, pairs, i)
  }

  /** These are the writes of the pairs at some places. */
  ghost predicate WritesAt(events: seq<Event>, pairs: seq<Pair>, at: seq<int>) {
    && |at| == |events|
    && forall j :: 0 <= j < |at| ==> 0 <= at[j] < |pairs| && events[j] == Written(pairs[at[j]].key, pairs[at[j]].value)
  }

  /** A write batch reports exactly the pairs that change the store in their turn, in order. */
  ghost predicate ReportsChanges(m: Store, pairs: seq<Pair>, n: nat, events: seq<Event>) {
    exists at :: Picks(at, n, Changing(m, pairs)) && WritesAt(events, pairs, at)
  }

  lemma WriteOneMore(events: seq<Event>, pairs: seq<Pair>, at: seq<int>, n: nat)
    requires n < |pairs| && WritesAt(events, pairs, at)
    ensures WritesAt(events + [Written(pairs[n].key, pairs[n].value)], pairs, at + [n])
  {
  }

  lemma NextWrite(m: Store, pairs: seq<Pair>, n: nat)
    requires n < |pairs|
    ensures EventsOf(m, WriteBatch(pairs), n + 1) ==
            EventsOf(m, WriteBatch(pairs), n) +
            if Changing(m, pairs)(n) then [Written(pairs[n].key, pairs[n].value)] else []
  {
  }

  lemma {:induction false} ChangesWritten(m: Store, pairs: seq<Pair>, n: nat)
    requires n <= |pairs|
    ensures WritesAt(EventsOf(m, WriteBatch(pairs), n), pairs, Places(n, Changing(m, pairs)))
  {
    if n > 0 {
      var events, at := EventsOf(m, WriteBatch(pairs), n - 1), Places(n - 1, Changing(m, pairs));
      ChangesWritten(m, pairs, n - 1);
      NextWrite(m, pairs, n - 1);
      WriteOneMore(events, pairs, at, n - 1);
      assert events + [] == events && at + [] == at;
    }
  }

  lemma EveryChangeReported(m: Store, pairs: seq<Pair>, n: nat)
    requires n <= |pairs|
    ensures ReportsChanges(m, pairs, n, EventsOf(m, WriteBatch(pairs), n))
  {
    PlacesArePicked(n, Changing(m, pairs));
    ChangesWritten(m, pairs, n);
  }
}

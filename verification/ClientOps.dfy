/** What a worker does with its client's data (src/server/client.c and the key list functions of
    src/server/coperations.c), proved against the steps of the session machine. */
module ClientOps {
  import opened Constants
  import opened Paths
  import opened KvsBuckets
  import opened KvsTable
  import opened KeyHash
  import opened KeyList
  import opened FdIndex
  import opened Formatting
  import Operations
  import opened Slots

  /** subscribe_key_index_list */
  method SubscribeKeyIndexList(key: Key, list: array<Key>) returns (i: int)
    ensures i == IndexIn(list[..], key)
  {
    for j := 0 to list.Length
      invariant forall k :: 0 <= k < j ==> list[k] != key
    {
      if list[j] == key {
        return j;
      }
    }
    return -1;
  }

  /** add_key_to_subscribed_list: 1 when some slot holds the key already. */
  method AddKeyToSubscribedList(key: Key, list: array<Key>, num: nat) returns (r: int)
    requires num < list.Length
    modifies list
    ensures r == if IndexIn(old(list[..]), key) != -1 then 1 else 0
    ensures list[..] == if r == 0 then old(list[..])[num := key] else old(list[..])
  {
    var i := SubscribeKeyIndexList(key, list);
    if i != -1 {
      return 1;
    }
    list[num] := key;
    return 0;
  }

  /** remove_key_from_subscribed_list: 1 when no slot holds the key. */
  method RemoveKeyFromSubscribedList(key: Key, list: array<Key>, num: int) returns (r: int)
    requires num <= list.Length
    modifies list
    ensures r == if IndexIn(old(list[..]), key) == -1 then 1 else 0
    ensures list[..] == if r == 0 then Shift(old(list[..]), IndexIn(old(list[..]), key), num) else old(list[..])
  {
    var index := SubscribeKeyIndexList(key, list);
    if index == -1 {
      return 1;
    }
    var j := index;
    while j < num - 1
      invariant index <= j && (j > index ==> j <= num - 1)
      invariant forall k :: 0 <= k < list.Length ==>
        list[k] == if index <= k < j then old(list[k + 1]) else old(list[k])
    {
      list[j] := list[j + 1];
      j := j + 1;
    }
    return 0;
  }

  class ClientData {
    var fds: Fds
    const keys: array<Key>
    var numKeys: int
    var active: bool

    ghost predicate Ready()
      reads this
    {
      keys.Length == MAX_NUMBER_SUB && numKeys <= MAX_NUMBER_SUB
    }

    ghost function List(): SlotKeys
      requires Ready()
      reads this, keys
    {
      KeyList(keys[..], numKeys)
    }

    /** client_subscribe_key with its response: list, index and reply are those of the machine's
        step, with the answer of the store about the key. The result of add_key is ignored, so a
        full bucket drops the entry. */
    method ClientSubscribeKey(ht: HashTable, index: IntHashTable, key: Key) returns (response: string)
      requires ht.Valid() && Hashable(key) && index.Valid() && Ready() && numKeys >= 0
      modifies keys, this`numKeys, index`buckets, index.nodeSet, index.valueSet
      ensures index.Valid() && Ready()
      ensures var (l, r) := Subscribe(old(List()), key, key in old(ht.View()));
              && List() == l
              && index.buckets == OnIndex(old(index.buckets), RequestOp(true, key, r), fds.notif)
              && response == if r == Done then "31" else "30"
    {
      var missing := Operations.KvsKeyExists(ht, key);
      if missing != 0 {
        return "30";
      }
      response := AddSubscription(index, key);
    }

    /** The part behind the check of the store. */
    method AddSubscription(index: IntHashTable, key: Key) returns (response: string)
      requires index.Valid() && Ready() && numKeys >= 0
      modifies keys, this`numKeys, index`buckets, index.nodeSet, index.valueSet
      ensures index.Valid() && Ready()
      ensures var (l, r) := Subscribe(old(List()), key, true);
              && List() == l
              && index.buckets == OnIndex(old(index.buckets), RequestOp(true, key, r), fds.notif)
              && response == if r == Done then "31" else "30"
    {
      if numKeys >= MAX_NUMBER_SUB {
        return "30";
      }
      var known := AddKeyToSubscribedList(key, keys, numKeys);
      if known != 0 {
        return "30";
      }
      numKeys := numKeys + 1;
      var _ := index.AddKey(key, fds.notif);
      response := "31";
    }

    /** client_unsubscribe_key with its response. */
    method ClientUnsubscribeKey(index: IntHashTable, key: Key) returns (response: string)
      requires index.Valid() && Ready()
      modifies keys, this`numKeys, index`buckets, index.nodeSet, index.valueSet
      ensures index.Valid() && Ready()
      ensures var (l, r) := Unsubscribe(old(List()), key);
              && List() == l
              && index.buckets == OnIndex(old(index.buckets), RequestOp(false, key, r), fds.notif)
              && response == if r == Done then "40" else "41"
    {
      var unknown := RemoveKeyFromSubscribedList(key, keys, numKeys);
      if unknown != 0 {
        return "41";
      }
      var _ := index.RemoveKey(key, fds.notif);
      numKeys := numKeys - 1;
      response := "40";
    }

    /** The loop of disconnect_client: one removal for each live key. */
    method RemoveEntries(index: IntHashTable)
      requires index.Valid() && Ready()
      modifies index`buckets, index.nodeSet, index.valueSet
      ensures index.Valid()
      ensures index.buckets == RemovedUpTo(old(index.buckets), keys[..], fds.notif, if numKeys > 0 then numKeys else 0)
    {
      var i := 0;
      while i < numKeys
        invariant 0 <= i && (i > 0 ==> i <= numKeys)
        invariant index.Valid() && index.nodeSet == old(index.nodeSet) && index.valueSet == old(index.valueSet)
        invariant index.buckets == RemovedUpTo(old(index.buckets), keys[..], fds.notif, i)
      {
        var _ := index.RemoveKey(keys[i], fds.notif);
        i := i + 1;
      }
    }

    /** disconnect_client behind its lock: the removals, then the wipe. */
    method DisconnectClient(index: IntHashTable)
      requires index.Valid() && Ready()
      modifies this, keys, index`buckets, index.nodeSet, index.valueSet
      ensures index.Valid() && Ready() && List() == NO_KEYS && fds == NO_FDS && !active
      ensures index.buckets ==
        RemovedUpTo(old(index.buckets), old(keys[..]), old(fds.notif), if old(numKeys) > 0 then old(numKeys) else 0)
    {
      RemoveEntries(index);
      fds := NO_FDS;
      numKeys := 0;
      forall i | 0 <= i < keys.Length {
        keys[i] := "";
      }
      active := false;
    }
  }

  /** The index after the first n removals of a disconnect. */
  ghost function RemovedUpTo(index: seq<Bucket>, keys: seq<Key>, fd: int, n: nat): (r: seq<Bucket>)
    requires |index| == MAX_KEYS_COUNT && n <= |keys|
    ensures |r| == MAX_KEYS_COUNT
  {
    if n == 0 then index else OnIndex(RemovedUpTo(index, keys, fd, n - 1), RemoveEntry(keys[n - 1]), fd)
  }

  /** The steps of disconnect_client up to its n-th removal. */
  ghost function RemovalSteps(i: nat, n: nat): seq<Step> {
    if n == 0 then [W(i, Begin)] else RemovalSteps(i, n - 1) + [W(i, RemoveOne)]
  }

  /** The server after the n-th removal. */
  ghost predicate Removed(s: State, i: nat, n: nat, s': State)
    requires Shape(s) && i < MAX_SESSION_COUNT
  {
    && Shape(s') && s'.workers == s.workers[i := Removing(n)]
    && s'.slots == s.slots[i := s.slots[i].(open := false)]
    && n <= MAX_NUMBER_SUB
    && s'.index == RemovedUpTo(s.index, s.slots[i].keys.slots, s.slots[i].fds.notif, n)
  }

  lemma OneRemoval(s: State, i: nat, n: nat, s1: State)
    requires Shape(s) && i < MAX_SESSION_COUNT && Removed(s, i, n, s1) && n < s.slots[i].keys.num
    ensures Enabled(s1, W(i, RemoveOne)) && Removed(s, i, n + 1, Apply(s1, W(i, RemoveOne)))
  {
  }

  lemma {:induction false} RemovalsLead(s: State, i: nat, n: nat) returns (s': State)
    requires Shape(s) && i < MAX_SESSION_COUNT && s.workers[i].Leaving? && (n == 0 || n <= s.slots[i].keys.num)
    ensures Leads(Go, s, RemovalSteps(i, n), s') && Removed(s, i, n, s')
  {
    if n == 0 {
      s' := Apply(s, W(i, Begin));
      LeadsOne(Go, s, W(i, Begin), s');
    } else {
      var before := RemovalsLead(s, i, n - 1);
      OneRemoval(s, i, n - 1, before);
      s' := Apply(before, W(i, RemoveOne));
      LeadsThen(Go, s, RemovalSteps(i, n - 1), before, W(i, RemoveOne), s');
    }
  }

  /** DisconnectClient does what a worker does in a run from the begin to the wipe: for every run
      that has brought the worker there, these steps go on, and end with that index and that slot,
      and no other slot changed. */
  lemma DisconnectIsRun(c: Config, steps: seq<Step>, i: nat)
    requires IsRun(c, steps) && i < MAX_SESSION_COUNT && Shape(Final(c, steps)) && Final(c, steps).workers[i].Leaving?
    ensures var s := Final(c, steps);
            var n := if s.slots[i].keys.num > 0 then s.slots[i].keys.num else 0;
            var more := steps + (RemovalSteps(i, n) + [W(i, Wipe)]);
            && IsRun(c, more)
            && var s' := Final(c, more);
               && s'.index == RemovedUpTo(s.index, s.slots[i].keys.slots, s.slots[i].fds.notif, n)
               && s'.slots == s.slots[i := s.slots[i].(active := false, open := false, fds := NO_FDS, keys := NO_KEYS)]
  {
    var s := Final(c, steps);
    var n := if s.slots[i].keys.num > 0 then s.slots[i].keys.num else 0;
    var before := RemovalsLead(s, i, n);
    var s' := Apply(before, W(i, Wipe));
    LeadsThen(Go, s, RemovalSteps(i, n), before, W(i, Wipe), s');
    RunLeads(Go, Start(c), steps, RemovalSteps(i, n) + [W(i, Wipe)], s');
  }

  // ---- notify_clients ----

  /** What has been written to each open descriptor: whole frames, in order. */
  type Pipes = map<int, seq<string>>

  /** Every open pipe has got one copy of the frame for each time its descriptor occurs, behind what
      was there, and no other pipe has got anything. */
  ghost predicate Delivered(pipes: Pipes, fds: seq<int>, frame: string, pipes': Pipes) {
    && pipes'.Keys == pipes.Keys
    && forall fd :: fd in pipes ==> Extended(pipes[fd], multiset(fds)[fd], frame, pipes'[fd])
  }

  /** The old frames and then n copies of a frame. */
  ghost predicate Extended(frames: seq<string>, n: nat, frame: string, frames': seq<string>) {
    && |frames'| == |frames| + n
    && frames <= frames'
    && forall k :: |frames| <= k < |frames'| ==> frames'[k] == frame
  }

  lemma OneMoreDelivered(pipes: Pipes, fds: seq<int>, i: nat, frame: string, pipes1: Pipes)
    requires i < |fds| && Delivered(pipes, fds[..i], frame, pipes1)
    ensures var fd := fds[i];
            Delivered(pipes, fds[..i + 1], frame,
                      if fd in pipes1 then pipes1[fd := pipes1[fd] + [frame]] else pipes1)
  {
    assert fds[..i + 1] == fds[..i] + [fds[i]];
    forall x | x in pipes
      ensures multiset(fds[..i + 1])[x] == multiset(fds[..i])[x] + if x == fds[i] then 1 else 0
      ensures Extended(pipes[x], multiset(fds[..i])[x], frame, pipes1[x])
    {
    }
  }

  /** The loop of notify_clients: one write for each descriptor; a closed one is passed over. */
  method SendToAll(fds: seq<int>, pipes: Pipes, notification: string) returns (pipes': Pipes)
    ensures Delivered(pipes, fds, notification, pipes')
  {
    pipes' := pipes;
    for i := 0 to |fds|
      invariant Delivered(pipes, fds[..i], notification, pipes')
    {
      OneMoreDelivered(pipes, fds, i, notification, pipes');
      if fds[i] in pipes' {
        pipes' := pipes'[fds[i] := pipes'[fds[i]] + [notification]];
      }
    }
    assert fds[..|fds|] == fds;
  }

  /** One frame for each event, in order. */
  ghost predicate FramesOf(frames: seq<string>, es: seq<Event>) {
    |frames| == |es| && forall k :: 0 <= k < |frames| ==> frames[k] == EventFrame(es[k])
  }

  /** The pipe of an open session holds what it has been sent. */
  ghost predicate HoldsStream(pipes: Pipes, slot: Slot) {
    slot.fds.notif in pipes && FramesOf(pipes[slot.fds.notif], slot.stream)
  }

  ghost predicate HoldStreams(pipes: Pipes, s: State) {
    Shape(s) && forall i :: 0 <= i < MAX_SESSION_COUNT && s.slots[i].open ==> HoldsStream(pipes, s.slots[i])
  }

  lemma {:induction false} RepeatAt(e: Event, n: nat, k: nat)
    requires k < n
    ensures Repeat(e, n)[k] == e
  {
    if k < n - 1 {
      RepeatAt(e, n - 1, k);
    }
  }

  lemma MoreFrames(frames: seq<string>, es: seq<Event>, e: Event, n: nat, frames': seq<string>)
    requires FramesOf(frames, es) && Extended(frames, n, EventFrame(e), frames')
    ensures FramesOf(frames', es + Repeat(e, n))
  {
    forall k | 0 <= k < |frames'| ensures frames'[k] == EventFrame((es + Repeat(e, n))[k]) {
      if k < |es| {
        assert frames'[k] == frames[k];
      } else {
        RepeatAt(e, n, k - |es|);
      }
    }
  }

  lemma StreamExtended(slot: Slot, bucket: Bucket, e: Event, pipes: Pipes, pipes': Pipes)
    requires slot.open && HoldsStream(pipes, slot) && Delivered(pipes, bucket, EventFrame(e), pipes')
    ensures HoldsStream(pipes', Receive(slot, bucket, e))
  {
    var fd := slot.fds.notif;
    MoreFrames(pipes[fd], slot.stream, e, multiset(bucket)[fd], pipes'[fd]);
  }

  /** The frames that notify_clients writes are those that the step of the session machine means. */
  lemma NotifyRefines(s: State, e: Event, pipes: Pipes, pipes': Pipes)
    requires HoldStreams(pipes, s) && Delivered(pipes, s.index[Chash(e.key)], EventFrame(e), pipes')
    ensures HoldStreams(pipes', Apply(s, Notify(e)))
  {
    forall i | 0 <= i < MAX_SESSION_COUNT && s.slots[i].open
      ensures HoldsStream(pipes', Apply(s, Notify(e)).slots[i])
    {
      StreamExtended(s.slots[i], s.index[Chash(e.key)], e, pipes, pipes');
    }
  }

  /** notify_clients: every entry of the key's bucket is one 300-byte frame on the pipe with that
      descriptor. If the pipes of the open sessions hold the frames of their streams, they do so
      again behind the step of the machine. */
  method NotifyClients(index: IntHashTable, pipes: Pipes, e: Event) returns (pipes': Pipes)
    requires index.Valid()
    ensures Delivered(pipes, index.buckets[Chash(e.key)], EventFrame(e), pipes')
    ensures forall s: State :: s.index == index.buckets && HoldStreams(pipes, s) ==>
      HoldStreams(pipes', Apply(s, Notify(e)))
  {
    var fds := index.GetFds(e.key);
    pipes' := SendToAll(fds, pipes, EventFrame(e));
    forall s: State | s.index == index.buckets && HoldStreams(pipes, s)
      ensures HoldStreams(pipes', Apply(s, Notify(e)))
    {
      NotifyRefines(s, e, pipes, pipes');
    }
  }
}

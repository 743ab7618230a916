/** The programs of LockOrder.dfy can be carried out as the code has them: a worker that serves a
    request, a worker that disconnects its client, and a job thread that writes and notifies. */
module LockPrograms {
  import opened KvsBuckets
  import opened Paths
  import opened LockOrder

  /** A worker or a job thread that no handler runs on. */
  ghost predicate Calm(s: State, t: nat) {
    t < |s.threads| && (s.threads[t].role.Worker? || s.threads[t].role.Job?) && !Interrupted(s, t)
  }

  /** The thread at another place, with these locks taken in all. */
  ghost function Placed(s: State, t: nat, pc: Pc, locks: set<Owned>): State
    requires t < |s.threads|
  {
    s.(threads := s.threads[t := Thread(s.threads[t].role, pc)], locks := locks)
  }

  lemma StaysCalm(s: State, t: nat, pc: Pc, locks: set<Owned>)
    requires Calm(s, t)
    ensures Calm(Placed(s, t, pc, locks), t)
  {
    var s' := Placed(s, t, pc, locks);
    forall h | 0 <= h < |s'.threads| ensures !RunsOn(s', h, t) {
      assert !RunsOn(s, h, t);
    }
  }

  /** The locks behind a move. */
  ghost function LocksBehind(s: State, t: nat, to: Pc): set<Owned>
    requires t < |s.threads|
  {
    var pc := s.threads[t].pc;
    if Wants(pc).Some? then s.locks + {Owned(t, Wants(pc).value)}
    else if Gives(pc, to).Some? then s.locks - {Owned(t, Gives(pc, to).value)}
    else s.locks
  }

  lemma Moves(s: State, t: nat, to: Pc)
    requires Calm(s, t) && Next(s.threads[t].role, s.threads[t].pc, to)
    requires !s.threads[t].pc.InSlot? && !s.threads[t].pc.InList?
    requires !(s.threads[t].pc.InOwn? && s.threads[t].pc.leave && to == Idle)
    requires Wants(s.threads[t].pc).Some? ==> Available(s, Wants(s.threads[t].pc).value)
    ensures Go(s, Step(t, to)) == Some(Placed(s, t, to, LocksBehind(s, t, to)))
    ensures Calm(Placed(s, t, to, LocksBehind(s, t, to)), t)
  {
    StaysCalm(s, t, to, LocksBehind(s, t, to));
  }

  // ---- One use of the index ----

  /** add_key, remove_key or get_fds: the table for the look, then the bucket. */
  ghost function IndexSteps(t: nat, b: nat, base: Base): seq<Step> {
    [Step(t, WantTable(b, base)), Step(t, InTable(b, base)), Step(t, WantBucket(b, base)),
     Step(t, InBucket(b, base)), Step(t, Back(base))]
  }

  /** Where a thread stands that uses the index from there. */
  ghost predicate MayUseIndex(th: Thread, base: Base) {
    && th.pc == Back(base)
    && match base
       case Request => th.role.Worker?
       case Disconnect(_) => th.role.Worker?
       case Batch => th.role.Job?
  }

  ghost predicate IndexFree(s: State) {
    forall o :: o in s.locks ==> !o.hold.lock.Table? && !o.hold.lock.Bucket?
  }

  lemma TableTaken(s: State, t: nat, b: nat, base: Base) returns (s2: State)
    requires Calm(s, t) && MayUseIndex(s.threads[t], base) && IndexFree(s)
    ensures Leads(Go, s, [Step(t, WantTable(b, base)), Step(t, InTable(b, base))], s2) && Calm(s2, t)
    ensures s2 == Placed(s, t, InTable(b, base), s.locks + {Owned(t, Hold(Table, base != Batch))})
  {
    Moves(s, t, WantTable(b, base));
    var s1 := Placed(s, t, WantTable(b, base), s.locks);
    Moves(s1, t, InTable(b, base));
    s2 := Placed(s1, t, InTable(b, base), s.locks + {Owned(t, Hold(Table, base != Batch))});
    LeadsOne(Go, s, Step(t, WantTable(b, base)), s1);
    LeadsThen(Go, s, [Step(t, WantTable(b, base))], s1, Step(t, InTable(b, base)), s2);
    assert [Step(t, WantTable(b, base))] + [Step(t, InTable(b, base))] ==
           [Step(t, WantTable(b, base)), Step(t, InTable(b, base))];
  }

  lemma BucketTaken(s: State, t: nat, b: nat, base: Base, locks: set<Owned>) returns (s2: State)
    requires Calm(s, t) && s.threads[t].pc == InTable(b, base)
    requires s.locks == locks + {Owned(t, Hold(Table, base != Batch))}
    requires forall o :: o in locks ==> !o.hold.lock.Table? && !o.hold.lock.Bucket?
    ensures Leads(Go, s, [Step(t, WantBucket(b, base)), Step(t, InBucket(b, base))], s2) && Calm(s2, t)
    ensures s2 == Placed(s, t, InBucket(b, base), locks + {Owned(t, Hold(Bucket(b), base != Batch))})
  {
    Moves(s, t, WantBucket(b, base));
    var s1 := Placed(s, t, WantBucket(b, base), locks);
    assert LocksBehind(s, t, WantBucket(b, base)) == locks;
    Moves(s1, t, InBucket(b, base));
    s2 := Placed(s1, t, InBucket(b, base), locks + {Owned(t, Hold(Bucket(b), base != Batch))});
    LeadsOne(Go, s, Step(t, WantBucket(b, base)), s1);
    LeadsThen(Go, s, [Step(t, WantBucket(b, base))], s1, Step(t, InBucket(b, base)), s2);
    assert [Step(t, WantBucket(b, base))] + [Step(t, InBucket(b, base))] ==
           [Step(t, WantBucket(b, base)), Step(t, InBucket(b, base))];
  }

  lemma BucketGiven(s: State, t: nat, b: nat, base: Base, locks: set<Owned>)
    requires Calm(s, t) && s.threads[t].pc == InBucket(b, base)
    requires s.locks == locks + {Owned(t, Hold(Bucket(b), base != Batch))}
    requires forall o :: o in locks ==> !o.hold.lock.Bucket?
    ensures Go(s, Step(t, Back(base))) == Some(Placed(s, t, Back(base), locks))
  {
    Moves(s, t, Back(base));
    assert LocksBehind(s, t, Back(base)) == locks;
  }

  /** A use of the index comes back to where it began, with all locks as they were. For a request this
      is the whole program: list and slot are not touched. */
  lemma IndexUsed(s: State, t: nat, b: nat, base: Base)
    requires Calm(s, t) && MayUseIndex(s.threads[t], base) && IndexFree(s)
    ensures Leads(Go, s, IndexSteps(t, b, base), s)
  {
    var s2 := TableTaken(s, t, b, base);
    var s4 := BucketTaken(s2, t, b, base, s.locks);
    BucketGiven(s4, t, b, base, s.locks);
    assert Placed(s4, t, Back(base), s.locks).threads == s.threads;
    var x, y := [Step(t, WantTable(b, base)), Step(t, InTable(b, base))],
                [Step(t, WantBucket(b, base)), Step(t, InBucket(b, base))];
    LeadsOn(Go, s, x, s2, y, s4);
    LeadsThen(Go, s, x + y, s4, Step(t, Back(base)), s);
    assert x + y + [Step(t, Back(base))] == IndexSteps(t, b, base);
  }

  /** The index is used for some keys, one after the other. */
  ghost function IndexUses(t: nat, buckets: seq<nat>, base: Base): seq<Step> {
    if buckets == [] then [] else IndexSteps(t, buckets[0], base) + IndexUses(t, buckets[1..], base)
  }

  lemma {:induction false} IndexUsedEach(s: State, t: nat, buckets: seq<nat>, base: Base)
    requires Calm(s, t) && MayUseIndex(s.threads[t], base) && IndexFree(s)
    ensures Leads(Go, s, IndexUses(t, buckets, base), s)
    decreases |buckets|
  {
    if buckets != [] {
      IndexUsed(s, t, buckets[0], base);
      IndexUsedEach(s, t, buckets[1..], base);
      LeadsOn(Go, s, IndexSteps(t, buckets[0], base), s, IndexUses(t, buckets[1..], base), s);
    }
  }

  // ---- Disconnecting ----

  /** disconnect_client: one removal for each key under the mutex of the slot. */
  ghost function DisconnectSteps(t: nat, i: nat, buckets: seq<nat>): seq<Step> {
    [Step(t, WantOwn(i, true)), Step(t, InOwn(i, true))] + IndexUses(t, buckets, Disconnect(i)) + [Step(t, Idle)]
  }

  lemma OwnTaken(s: State, t: nat, i: nat) returns (s2: State)
    requires Calm(s, t) && s.threads[t] == Thread(Worker(i), Idle) && s.locks == {}
    ensures Leads(Go, s, [Step(t, WantOwn(i, true)), Step(t, InOwn(i, true))], s2) && Calm(s2, t)
    ensures s2 == Placed(s, t, InOwn(i, true), {Owned(t, Hold(Slot(i), true))})
  {
    Moves(s, t, WantOwn(i, true));
    var s1 := Placed(s, t, WantOwn(i, true), {});
    Moves(s1, t, InOwn(i, true));
    s2 := Placed(s1, t, InOwn(i, true), {Owned(t, Hold(Slot(i), true))});
    assert LocksBehind(s1, t, InOwn(i, true)) == {Owned(t, Hold(Slot(i), true))};
    LeadsOne(Go, s, Step(t, WantOwn(i, true)), s1);
    LeadsThen(Go, s, [Step(t, WantOwn(i, true))], s1, Step(t, InOwn(i, true)), s2);
    assert [Step(t, WantOwn(i, true))] + [Step(t, InOwn(i, true))] ==
           [Step(t, WantOwn(i, true)), Step(t, InOwn(i, true))];
  }

  lemma OwnGiven(s: State, t: nat, i: nat)
    requires Calm(s, t) && s.threads[t] == Thread(Worker(i), InOwn(i, true))
    requires s.locks == {Owned(t, Hold(Slot(i), true))}
    ensures Go(s, Step(t, Idle)) == Some(Placed(s, t, Idle, {}).(active := LockOrder.Put(s.active, i, false)))
  {
    assert s.locks - {Owned(t, Hold(Slot(i), true))} == {};
  }

  /** When no lock is taken, the worker of any slot can disconnect its client, with any keys; then its
      slot is inactive, and nothing else has changed. */
  lemma WorkerDisconnects(roles: seq<Role>, steps: seq<Step>, t: nat, i: nat, buckets: seq<nat>)
    requires IsRun(roles, steps) && Calm(Final(roles, steps), t)
    requires Final(roles, steps).threads[t] == Thread(Worker(i), Idle) && Final(roles, steps).locks == {}
    ensures var s, more := Final(roles, steps), steps + DisconnectSteps(t, i, buckets);
            IsRun(roles, more) && Final(roles, more) == s.(active := LockOrder.Put(s.active, i, false))
  {
    var s := Final(roles, steps);
    var s2 := OwnTaken(s, t, i);
    IndexUsedEach(s2, t, buckets, Disconnect(i));
    OwnGiven(s2, t, i);
    var s' := s.(active := LockOrder.Put(s.active, i, false));
    assert Placed(s2, t, Idle, {}).threads == s.threads;
    var x := [Step(t, WantOwn(i, true)), Step(t, InOwn(i, true))];
    LeadsOn(Go, s, x, s2, IndexUses(t, buckets, Disconnect(i)), s2);
    LeadsThen(Go, s, x + IndexUses(t, buckets, Disconnect(i)), s2, Step(t, Idle), s');
    RunLeads(Go, Start(roles), steps, DisconnectSteps(t, i, buckets), s');
  }

  /** The same for a request: a worker can use the index for it, and all is as before. */
  lemma WorkerServes(roles: seq<Role>, steps: seq<Step>, t: nat, b: nat)
    requires IsRun(roles, steps) && Calm(Final(roles, steps), t) && IndexFree(Final(roles, steps))
    requires Final(roles, steps).threads[t].role.Worker? && Final(roles, steps).threads[t].pc.Idle?
    ensures var more := steps + IndexSteps(t, b, Request);
            IsRun(roles, more) && Final(roles, more) == Final(roles, steps)
  {
    var s := Final(roles, steps);
    IndexUsed(s, t, b, Request);
    RunLeads(Go, Start(roles), steps, IndexSteps(t, b, Request), s);
  }

  // ---- Writing ----

  /** kvs_write and kvs_delete: the notifications are under the lock of the store. */
  ghost function BatchSteps(t: nat, buckets: seq<nat>): seq<Step> {
    [Step(t, WantStore(true)), Step(t, InStore(true))] + IndexUses(t, buckets, Batch) + [Step(t, Idle)]
  }

  lemma StoreTaken(s: State, t: nat) returns (s2: State)
    requires Calm(s, t) && s.threads[t] == Thread(Job, Idle) && s.locks == {}
    ensures Leads(Go, s, [Step(t, WantStore(true)), Step(t, InStore(true))], s2) && Calm(s2, t)
    ensures s2 == Placed(s, t, InStore(true), {Owned(t, Hold(Store, true))})
  {
    Moves(s, t, WantStore(true));
    var s1 := Placed(s, t, WantStore(true), {});
    Moves(s1, t, InStore(true));
    s2 := Placed(s1, t, InStore(true), {Owned(t, Hold(Store, true))});
    assert LocksBehind(s1, t, InStore(true)) == {Owned(t, Hold(Store, true))};
    LeadsOne(Go, s, Step(t, WantStore(true)), s1);
    LeadsThen(Go, s, [Step(t, WantStore(true))], s1, Step(t, InStore(true)), s2);
    assert [Step(t, WantStore(true))] + [Step(t, InStore(true))] ==
           [Step(t, WantStore(true)), Step(t, InStore(true))];
  }

  /** When no lock is taken, any job thread can write a batch with any notifications, and leaves the
      locks as they were. */
  lemma JobWrites(roles: seq<Role>, steps: seq<Step>, t: nat, buckets: seq<nat>)
    requires IsRun(roles, steps) && Calm(Final(roles, steps), t)
    requires Final(roles, steps).threads[t] == Thread(Job, Idle) && Final(roles, steps).locks == {}
    ensures var more := steps + BatchSteps(t, buckets);
            IsRun(roles, more) && Final(roles, more) == Final(roles, steps)
  {
    var s := Final(roles, steps);
    var s2 := StoreTaken(s, t);
    IndexUsedEach(s2, t, buckets, Batch);
    Moves(s2, t, Idle);
    assert LocksBehind(s2, t, Idle) == {} && Placed(s2, t, Idle, {}).threads == s.threads;
    var x := [Step(t, WantStore(true)), Step(t, InStore(true))];
    LeadsOn(Go, s, x, s2, IndexUses(t, buckets, Batch), s2);
    LeadsThen(Go, s, x + IndexUses(t, buckets, Batch), s2, Step(t, Idle), s);
    RunLeads(Go, Start(roles), steps, BatchSteps(t, buckets), s);
  }
}

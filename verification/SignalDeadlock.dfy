/** What the condition of LockOrder.NoCircularWait is good for: the code does not meet it, and where
    it fails the server can deadlock. */
module SignalDeadlock {
  import opened Constants
  import opened KvsBuckets
  import opened LockOrder
  import opened Paths

  // ---- A host that holds the list mutex ----

  /** The handler h waits for the mutex of its own host t. */
  ghost predicate SelfLocked(s: State, h: nat, t: nat) {
    && h < |s.threads| && t < |s.threads|
    && s.threads[h] == Thread(Handler(t), WantList)
    && (s.threads[t].role.Activator? || s.threads[t].role.Job?)
    && Owned(t, Hold(List, true)) in s.locks
  }

  function SelfCycle(h: nat, t: nat): seq<Edge> {
    [Edge(h, List, t), Edge(t, Return(t), h)]
  }

  lemma NotInterrupted(s: State, h: nat)
    requires Inv(s) && h < |s.threads| && s.threads[h].role.Handler?
    ensures !Interrupted(s, h)
  {
    assert forall g :: 0 <= g < |s.threads| && RunsOn(s, g, h) ==> !s.threads[h].role.Handler?;
  }

  /** What the arrival of the signal changes. */
  lemma Arrives(s: State, h: nat)
    requires Inv(s) && Enters(s, Step(h, WantList)) && MayInterrupt(s, s.threads[h].role.host)
    ensures Enabled(s, Step(h, WantList))
    ensures var s', t := Apply(s, Step(h, WantList)), s.threads[h].role.host;
            && Inv(s') && !Interrupted(s', h) && RunsOn(s', h, t) && Interrupted(s', t)
            && s'.locks == s.locks && s'.threads == s.threads[h := Thread(Handler(t), WantList)]
  {
    NotInterrupted(s, h);
    StepKeeps(s, Step(h, WantList));
    var s', t := Apply(s, Step(h, WantList)), s.threads[h].role.host;
    NotInterrupted(s', h);
    assert RunsOn(s', h, t);
  }

  lemma SelfCycleExactly(s: State, h: nat, t: nat)
    requires Inv(s) && h < |s.threads| && t < |s.threads| && s.threads[h] == Thread(Handler(t), WantList)
    requires !Interrupted(s, h) && RunsOn(s, h, t) && Interrupted(s, t)
    ensures IsCycle(s, SelfCycle(h, t)) <==> Hold(List, true) in Holds(s.threads[t].pc)
  {
    var path := SelfCycle(h, t);
    if Owned(t, Hold(List, true)) in s.locks {
      assert Waits(s, h, List, t) && Waits(s, t, Return(t), h);
    }
    if IsCycle(s, path) {
      assert Waits(s, path[0].a, path[0].r, path[0].b);
      var o :| Owned(t, o) in s.locks && o.lock == List && Conflict(o, Hold(List, true));
      assert o in Holds(s.threads[t].pc);
      ListIsExclusive(s.threads[t].pc, o);
    }
  }

  /** When the signal arrives, a circular wait of the handler and its host is there at once exactly
      when the host holds the list mutex. */
  lemma EntryLocksItself(roles: seq<Role>, steps: seq<Step>, h: nat)
    requires IsRun(roles, steps) && Enters(Final(roles, steps), Step(h, WantList))
    requires MayInterrupt(Final(roles, steps), Final(roles, steps).threads[h].role.host)
    ensures var s, more := Final(roles, steps), steps + [Step(h, WantList)];
            var t := s.threads[h].role.host;
            && IsRun(roles, more)
            && (Hold(List, true) in Holds(s.threads[t].pc) <==> IsCycle(Final(roles, more), SelfCycle(h, t)))
            && (Hold(List, true) in Holds(s.threads[t].pc) ==> SelfLocked(Final(roles, more), h, t))
  {
    var s := Final(roles, steps);
    RunInv(roles, steps);
    Arrives(s, h);
    OneMore(Go, Start(roles), steps, Step(h, WantList));
    SelfCycleExactly(Apply(s, Step(h, WantList)), h, s.threads[h].role.host);
  }

  lemma ListIsExclusive(pc: Pc, o: Hold)
    requires o in Holds(pc) && o.lock == List
    ensures o == Hold(List, true)
  {
  }

  /** And then it stays for ever: neither of the two ever moves again, whatever the others do. */
  lemma {:induction false} SelfLockedForever(roles: seq<Role>, steps: seq<Step>, n: nat, h: nat, t: nat)
    requires IsRun(roles, steps) && n <= |steps|
    requires IsRun(roles, steps[..n]) && SelfLocked(Final(roles, steps[..n]), h, t)
    ensures SelfLocked(Final(roles, steps), h, t)
    ensures Final(roles, steps).threads[t] == Final(roles, steps[..n]).threads[t]
    decreases |steps|
  {
    if n == |steps| {
      assert steps[..n] == steps;
    } else {
      var before, step := steps[..|steps| - 1], steps[|steps| - 1];
      assert before[..n] == steps[..n];
      SelfLockedForever(roles, before, n, h, t);
      StaysSelfLocked(Final(roles, before), step, h, t);
    }
  }

  lemma StaysSelfLocked(s: State, step: Step, h: nat, t: nat)
    requires SelfLocked(s, h, t) && Enabled(s, step)
    ensures SelfLocked(Apply(s, step), h, t) && Apply(s, step).threads[t] == s.threads[t]
  {
    assert RunsOn(s, h, t) && Interrupted(s, t);
    assert step.t != t;
    assert !Available(s, Hold(List, true)) by {
      assert Conflict(Owned(t, Hold(List, true)).hold, Hold(List, true));
    }
    assert step.t != h;
  }

  /** A program of one thread goes on while no handler has entered. */
  ghost predicate Alone(s: State, pc: Pc) {
    s.threads == [Thread(Activator, pc), Thread(Handler(0), Idle)] && Inv(s)
  }

  lemma AloneGoesOn(s: State, pc: Pc, to: Pc)
    requires Alone(s, pc) && Next(Activator, pc, to) && DataAllows(s, Activator, pc, to)
    ensures Enabled(s, Step(0, to)) && Alone(Apply(s, Step(0, to)), to)
  {
    forall o | o in s.locks && Wants(pc).Some? ensures !Conflict(o.hold, Wants(pc).value) {
      assert Owned(o.t, o.hold) in s.locks;
    }
    assert !Interrupted(s, 0) by {
      assert !RunsOn(s, 0, 0) && !RunsOn(s, 1, 0);
    }
    StepKeeps(s, Step(0, to));
  }

  const ACTIVATOR_ROLES: seq<Role> := [Activator, Handler(0)]

  const ACTIVATOR_STEPS: seq<Step> := [Step(0, WantList), Step(0, InList(0, false))]

  lemma ActivatorStart()
    ensures IsRun(ACTIVATOR_ROLES, ACTIVATOR_STEPS)
    ensures Alone(Final(ACTIVATOR_ROLES, ACTIVATOR_STEPS), InList(0, false))
  {
    var s := Start(ACTIVATOR_ROLES);
    RunInv(ACTIVATOR_ROLES, []);
    assert s.threads == [Thread(Activator, Idle), Thread(Handler(0), Idle)];
    AloneGoesOn(s, Idle, WantList);
    LeadsOne(Go, s, Step(0, WantList), Apply(s, Step(0, WantList)));
    var s1 := Apply(s, Step(0, WantList));
    AloneGoesOn(s1, WantList, InList(0, false));
    LeadsOne(Go, s1, Step(0, InList(0, false)), Apply(s1, Step(0, InList(0, false))));
    LeadsOn(Go, s, [Step(0, WantList)], s1, [Step(0, InList(0, false))], Apply(s1, Step(0, InList(0, false))));
    assert [Step(0, WantList)] + [Step(0, InList(0, false))] == ACTIVATOR_STEPS;
    RunLeads(Go, Start(ACTIVATOR_ROLES), [], ACTIVATOR_STEPS, Apply(s1, Step(0, InList(0, false))));
    assert [] + ACTIVATOR_STEPS == ACTIVATOR_STEPS;
  }

  /** The run: the signal finds the thread that registers clients inside activate_client. */
  lemma ActivatorDeadlock()
    ensures var steps := ACTIVATOR_STEPS + [Step(1, WantList)];
            IsRun(ACTIVATOR_ROLES, steps) && IsCycle(Final(ACTIVATOR_ROLES, steps), SelfCycle(1, 0))
  {
    ActivatorStart();
    var s := Final(ACTIVATOR_ROLES, ACTIVATOR_STEPS);
    assert !RunsOn(s, 0, 0) && !RunsOn(s, 1, 0);
    EntryLocksItself(ACTIVATOR_ROLES, ACTIVATOR_STEPS, 1);
  }

  // ---- A host that writes the store ----

  /** The cycle through the wait of the mass disconnect: the handler waits for the worker of slot i,
      the worker for the store, and the host that holds the store for the handler. */
  function StoreCycle(h: nat, i: nat, w: nat, t: nat): seq<Edge> {
    [Edge(h, Done(i), w), Edge(w, Store, t), Edge(t, Return(t), h)]
  }

  /** Before the signal: t is a job thread with the store locked for writing, slot i has a client,
      its worker is between requests, and nobody is at the list or at a slot. */
  ghost predicate JobWrites(s: State, h: nat, i: nat, w: nat, t: nat) {
    && h < |s.threads| && w < |s.threads|
    && s.threads[h] == Thread(Handler(t), Idle) && s.threads[w] == Thread(Worker(i), Idle)
    && i < MAX_SESSION_COUNT && At(s.active, i)
    && MayInterrupt(s, t) && Owned(t, Hold(Store, true)) in s.locks
    && forall o :: o in s.locks ==> !o.hold.lock.List? && !o.hold.lock.Slot?
  }

  /** The handler h has come to some place, and the worker asks for the store. flagged says that it
      has passed slot i. */
  ghost predicate Flagging(s: State, h: nat, i: nat, w: nat, t: nat, pc: Pc, flagged: bool) {
    && Inv(s) && h < |s.threads| && w < |s.threads| && t < |s.threads|
    && s.threads[h] == Thread(Handler(t), pc) && s.threads[w] == Thread(Worker(i), WantStore(false))
    && i < MAX_SESSION_COUNT && At(s.active, i) && (flagged ==> At(s.flagged, i))
    && Owned(t, Hold(Store, true)) in s.locks
    && forall o :: o in s.locks && o.t != h ==> !o.hold.lock.List? && !o.hold.lock.Slot?
  }

  lemma NoHandlerOnWorker(s: State, w: nat)
    requires Inv(s) && w < |s.threads| && s.threads[w].role.Worker?
    ensures !Interrupted(s, w)
  {
    assert forall g :: 0 <= g < |s.threads| && RunsOn(s, g, w) ==> !s.threads[w].role.Worker?;
  }

  /** The worker asks for the store; the signal may still arrive. */
  lemma WorkerAsks(s: State, h: nat, i: nat, w: nat, t: nat)
    requires Inv(s) && JobWrites(s, h, i, w, t)
    ensures var step := Step(w, WantStore(false));
            && Enabled(s, step)
            && var s' := Apply(s, step);
               && Inv(s') && MayInterrupt(s', t) && s'.locks == s.locks && s'.active == s.active
               && s'.threads == s.threads[w := Thread(Worker(i), WantStore(false))]
  {
    var step := Step(w, WantStore(false));
    NoHandlerOnWorker(s, w);
    StepKeeps(s, step);
    forall g | 0 <= g < |s.threads| ensures !RunsOn(Apply(s, step), g, t) {
      assert !RunsOn(s, g, t);
    }
  }

  /** The signal arrives. */
  lemma SignalComes(s: State, h: nat, i: nat, w: nat, t: nat)
    requires Inv(s) && JobWrites(s, h, i, w, t)
    ensures exists s' :: Leads(Go, s, [Step(w, WantStore(false))] + [Step(h, WantList)], s') &&
                         Flagging(s', h, i, w, t, WantList, false)
  {
    WorkerAsks(s, h, i, w, t);
    LeadsOne(Go, s, Step(w, WantStore(false)), Apply(s, Step(w, WantStore(false))));
    var s1 := Apply(s, Step(w, WantStore(false)));
    Arrives(s1, h);
    LeadsOne(Go, s1, Step(h, WantList), Apply(s1, Step(h, WantList)));
    var s2 := Apply(s1, Step(h, WantList));
    LeadsOn(Go, s, [Step(w, WantStore(false))], s1, [Step(h, WantList)], s2);
  }

  /** The handler goes on: nobody else is at the list or at a slot. */
  lemma HandlerGoesOn(s: State, h: nat, i: nat, w: nat, t: nat, pc: Pc, flagged: bool, to: Pc)
    requires Flagging(s, h, i, w, t, pc, flagged) && h != w && h != t && !pc.Idle? && to != Idle
    requires Next(Handler(t), pc, to) && DataAllows(s, Handler(t), pc, to)
    requires pc.InSlot? ==> !pc.round
    ensures Enabled(s, Step(h, to))
    ensures Flagging(Apply(s, Step(h, to)), h, i, w, t, to, flagged || (pc.InSlot? && pc.i == i))
  {
    NotInterrupted(s, h);
    assert AtHome(Handler(t), pc);
    HandlerIsFree(s, h, pc);
    StepKeeps(s, Step(h, to));
  }

  /** What it asks for, it does not hold itself. */
  lemma HandlerIsFree(s: State, h: nat, pc: Pc)
    requires Inv(s) && h < |s.threads| && s.threads[h].pc == pc && (pc.WantList? || pc.WantSlot? || Wants(pc).None?)
    requires forall o :: o in s.locks && o.t != h ==> !o.hold.lock.List? && !o.hold.lock.Slot?
    ensures Wants(pc).Some? ==> Available(s, Wants(pc).value)
  {
    forall o | o in s.locks && Wants(pc).Some? ensures !Conflict(o.hold, Wants(pc).value) {
      assert Owned(o.t, o.hold) in s.locks;
    }
  }

  lemma HandlerLeads(s: State, h: nat, i: nat, w: nat, t: nat, pc: Pc, flagged: bool, to: Pc) returns (s': State)
    requires Flagging(s, h, i, w, t, pc, flagged) && h != w && h != t && !pc.Idle? && to != Idle
    requires Next(Handler(t), pc, to) && DataAllows(s, Handler(t), pc, to)
    requires pc.InSlot? ==> !pc.round
    ensures Leads(Go, s, [Step(h, to)], s')
    ensures Flagging(s', h, i, w, t, to, flagged || (pc.InSlot? && pc.i == i))
  {
    HandlerGoesOn(s, h, i, w, t, pc, flagged, to);
    s' := Apply(s, Step(h, to));
    LeadsOne(Go, s, Step(h, to), s');
  }

  /** The handler takes the mutex of slot k. */
  lemma EntersSlot(s: State, h: nat, i: nat, w: nat, t: nat, k: nat) returns (s': State)
    requires Flagging(s, h, i, w, t, InList(k, false), i < k) && k < MAX_SESSION_COUNT && h != w && h != t
    ensures Leads(Go, s, [Step(h, WantSlot(k, false))] + [Step(h, InSlot(k, false))], s')
    ensures Flagging(s', h, i, w, t, InSlot(k, false), i < k)
  {
    var s1 := HandlerLeads(s, h, i, w, t, InList(k, false), i < k, WantSlot(k, false));
    s' := HandlerLeads(s1, h, i, w, t, WantSlot(k, false), i < k, InSlot(k, false));
    LeadsOn(Go, s, [Step(h, WantSlot(k, false))], s1, [Step(h, InSlot(k, false))], s');
  }

  /** One turn of the loop over the slots. */
  lemma FlagOne(s: State, h: nat, i: nat, w: nat, t: nat, k: nat) returns (steps: seq<Step>, s': State)
    requires Flagging(s, h, i, w, t, InList(k, false), i < k) && k < MAX_SESSION_COUNT && h != w && h != t
    ensures Leads(Go, s, steps, s') && Flagging(s', h, i, w, t, InList(k + 1, false), i < k + 1)
  {
    var s1 := EntersSlot(s, h, i, w, t, k);
    s' := HandlerLeads(s1, h, i, w, t, InSlot(k, false), i < k, InList(k + 1, false));
    steps := [Step(h, WantSlot(k, false))] + [Step(h, InSlot(k, false))];
    LeadsOn(Go, s, steps, s1, [Step(h, InList(k + 1, false))], s');
    steps := steps + [Step(h, InList(k + 1, false))];
  }

  /** The loop over the slots, from slot k on. */
  lemma {:induction false} FlagAll(s: State, h: nat, i: nat, w: nat, t: nat, k: nat)
    returns (more: seq<Step>, s': State)
    requires Flagging(s, h, i, w, t, InList(k, false), i < k) && k <= MAX_SESSION_COUNT && h != w && h != t
    ensures Leads(Go, s, more, s') && Flagging(s', h, i, w, t, InList(MAX_SESSION_COUNT, false), true)
    decreases MAX_SESSION_COUNT - k
  {
    if k == MAX_SESSION_COUNT {
      more, s' := [], s;
    } else {
      var steps, s1 := FlagOne(s, h, i, w, t, k);
      var rest;
      rest, s' := FlagAll(s1, h, i, w, t, k + 1);
      LeadsOn(Go, s, steps, s1, rest, s');
      more := steps + rest;
    }
  }

  lemma ThreeSteps(s: State, a: Step, b: Step, c: Step)
    requires Enabled(s, a) && Enabled(Apply(s, a), b) && Enabled(Apply(Apply(s, a), b), c)
    ensures Leads(Go, s, [a, b, c], Apply(Apply(Apply(s, a), b), c))
  {
    LeadsOne(Go, s, a, Apply(s, a));
    LeadsThen(Go, s, [a], Apply(s, a), b, Apply(Apply(s, a), b));
    LeadsThen(Go, s, [a] + [b], Apply(Apply(s, a), b), c, Apply(Apply(Apply(s, a), b), c));
    assert [a] + [b] + [c] == [a, b, c];
  }

  /** The handler has flagged the client of slot i and waits for it. */
  lemma WaitsInCycle(s: State, h: nat, i: nat, w: nat, t: nat)
    requires Flagging(s, h, i, w, t, InList(0, true), true)
    ensures IsCycle(s, StoreCycle(h, i, w, t))
  {
    NotInterrupted(s, h);
    NoHandlerOnWorker(s, w);
    assert RunsOn(s, h, t) && Interrupted(s, t);
    assert Waits(s, h, Done(i), w);
    assert Conflict(Hold(Store, true), Hold(Store, false)) && Waits(s, w, Store, t);
    assert Waits(s, t, Return(t), h);
  }

  /** A signal that finds a thread writing the store can end in a circular wait: from any such state
      of any run in which a client is connected, its worker is between two requests, and nobody is
      at the list or at a slot. */
  lemma WriterHostDeadlocks(roles: seq<Role>, steps: seq<Step>, h: nat, i: nat, w: nat, t: nat)
    returns (more: seq<Step>)
    requires IsRun(roles, steps) && JobWrites(Final(roles, steps), h, i, w, t)
    ensures IsRun(roles, steps + more) && IsCycle(Final(roles, steps + more), StoreCycle(h, i, w, t))
    ensures [Step(w, WantStore(false)), Step(h, WantList)] <= more
  {
    var s := Final(roles, steps);
    RunInv(roles, steps);
    SignalComes(s, h, i, w, t);
    var a := [Step(w, WantStore(false))] + [Step(h, WantList)];
    var s1 :| Leads(Go, s, a, s1) && Flagging(s1, h, i, w, t, WantList, false);
    var last: State;
    more, last := HandlerFlags(s1, h, i, w, t);
    LeadsOn(Go, s, a, s1, more, last);
    more := a + more;
    RunLeads(Go, Start(roles), steps, more, last);
  }

  /** From the arrival of the signal to the cycle. */
  lemma HandlerFlags(s: State, h: nat, i: nat, w: nat, t: nat) returns (more: seq<Step>, s': State)
    requires Flagging(s, h, i, w, t, WantList, false) && h != w && h != t
    ensures Leads(Go, s, more, s') && IsCycle(s', StoreCycle(h, i, w, t))
  {
    var first := Step(h, InList(0, false));
    HandlerGoesOn(s, h, i, w, t, WantList, false, first.to);
    LeadsOne(Go, s, first, Apply(s, first));
    var flags, s2 := FlagAll(Apply(s, first), h, i, w, t, 0);
    LeadsOn(Go, s, [first], Apply(s, first), flags, s2);
    var again := Step(h, InList(0, true));
    assert s2.flagged[i] && AnyFlagged(s2);
    HandlerGoesOn(s2, h, i, w, t, InList(MAX_SESSION_COUNT, false), true, again.to);
    LeadsOne(Go, s2, again, Apply(s2, again));
    s' := Apply(s2, again);
    LeadsOn(Go, s, [first] + flags, s2, [again], s');
    more := [first] + flags + [again];
    WaitsInCycle(s', h, i, w, t);
  }

  // ---- The run with a job thread ----

  const JOB_ROLES: seq<Role> := [Activator, Job, Worker(0), Handler(1)]

  /** No handler has entered, and the worker has done nothing. */
  ghost predicate Quiet(s: State, pc0: Pc, pc1: Pc) {
    && Inv(s)
    && s.threads == [Thread(Activator, pc0), Thread(Job, pc1), Thread(Worker(0), Idle), Thread(Handler(1), Idle)]
  }

  lemma NobodyInterrupted(s: State, pc0: Pc, pc1: Pc, t: nat)
    requires Quiet(s, pc0, pc1)
    ensures !Interrupted(s, t)
  {
    assert !RunsOn(s, 0, t) && !RunsOn(s, 1, t) && !RunsOn(s, 2, t) && !RunsOn(s, 3, t);
  }

  lemma ActivatorGoesOn(s: State, pc0: Pc, to: Pc)
    requires Quiet(s, pc0, Idle) && Next(Activator, pc0, to) && DataAllows(s, Activator, pc0, to) && !pc0.InOwn?
    ensures Enabled(s, Step(0, to)) && Quiet(Apply(s, Step(0, to)), to, Idle)
    ensures pc0 == InSlot(0, false) && to == InList(MAX_SESSION_COUNT, false) ==> At(Apply(s, Step(0, to)).active, 0)
    ensures !pc0.InSlot? ==> Apply(s, Step(0, to)).active == s.active
  {
    NobodyInterrupted(s, pc0, Idle, 0);
    forall o | o in s.locks && Wants(pc0).Some? ensures !Conflict(o.hold, Wants(pc0).value) {
      assert Owned(o.t, o.hold) in s.locks;
    }
    StepKeeps(s, Step(0, to));
  }

  lemma JobGoesOn(s: State, pc1: Pc, to: Pc)
    requires Quiet(s, Idle, pc1) && Next(Job, pc1, to) && DataAllows(s, Job, pc1, to) && !pc1.InOwn?
    ensures Enabled(s, Step(1, to)) && Quiet(Apply(s, Step(1, to)), Idle, to)
    ensures Apply(s, Step(1, to)).active == s.active
  {
    NobodyInterrupted(s, Idle, pc1, 1);
    forall o | o in s.locks && Wants(pc1).Some? ensures !Conflict(o.hold, Wants(pc1).value) {
      assert Owned(o.t, o.hold) in s.locks;
    }
    StepKeeps(s, Step(1, to));
  }

  /** The activator comes to the first slot. */
  lemma SlotIsReached() returns (steps: seq<Step>, s: State)
    ensures Leads(Go, Start(JOB_ROLES), steps, s) && Quiet(s, WantSlot(0, false), Idle)
  {
    var s0 := Start(JOB_ROLES);
    RunInv(JOB_ROLES, []);
    var a, b, c := Step(0, WantList), Step(0, InList(0, false)), Step(0, WantSlot(0, false));
    ActivatorGoesOn(s0, Idle, a.to);
    ActivatorGoesOn(Apply(s0, a), a.to, b.to);
    ActivatorGoesOn(Apply(Apply(s0, a), b), b.to, c.to);
    ThreeSteps(s0, a, b, c);
    steps, s := [a, b, c], Apply(Apply(Apply(s0, a), b), c);
  }

  /** And activates it. */
  lemma SlotIsActivated(s: State) returns (steps: seq<Step>, s': State)
    requires Quiet(s, WantSlot(0, false), Idle)
    ensures Leads(Go, s, steps, s') && Quiet(s', Idle, Idle) && At(s'.active, 0)
  {
    var d, e, f := Step(0, InSlot(0, false)), Step(0, InList(MAX_SESSION_COUNT, false)), Step(0, Idle);
    ActivatorGoesOn(s, WantSlot(0, false), d.to);
    ActivatorGoesOn(Apply(s, d), d.to, e.to);
    ActivatorGoesOn(Apply(Apply(s, d), e), e.to, f.to);
    ThreeSteps(s, d, e, f);
    steps, s' := [d, e, f], Apply(Apply(Apply(s, d), e), f);
  }

  /** A client connects. */
  lemma ClientConnects() returns (steps: seq<Step>, s: State)
    ensures Leads(Go, Start(JOB_ROLES), steps, s) && Quiet(s, Idle, Idle) && At(s.active, 0)
  {
    var a, s1 := SlotIsReached();
    var b;
    b, s := SlotIsActivated(s1);
    LeadsOn(Go, Start(JOB_ROLES), a, s1, b, s);
    steps := a + b;
  }

  /** And a job begins to write. */
  lemma JobBeginsToWrite(s: State) returns (steps: seq<Step>, s': State)
    requires Quiet(s, Idle, Idle) && At(s.active, 0)
    ensures Leads(Go, s, steps, s') && Quiet(s', Idle, InStore(true)) && At(s'.active, 0)
  {
    var a, b := Step(1, WantStore(true)), Step(1, InStore(true));
    JobGoesOn(s, Idle, a.to);
    LeadsOne(Go, s, a, Apply(s, a));
    var s1 := Apply(s, a);
    JobGoesOn(s1, a.to, b.to);
    LeadsOne(Go, s1, b, Apply(s1, b));
    s' := Apply(s1, b);
    LeadsOn(Go, s, [a], s1, [b], s');
    steps := [a] + [b];
  }

  /** The places of a job thread that writes, with the number of steps from InStore. */
  function PlaceAt(b: nat, n: nat): Pc {
    match n
    case 0 => InStore(true)
    case 1 => WantTable(b, Batch)
    case 2 => InTable(b, Batch)
    case 3 => WantBucket(b, Batch)
    case _ => InBucket(b, Batch)
  }

  lemma WritingPlaces(pc: Pc) returns (b: nat, n: nat)
    requires HostPc(Job, pc) && !Harmless(pc)
    ensures n <= 4 && pc == PlaceAt(b, n)
  {
    b, n := 0, 0;
    match pc
    case WantTable(bucket, _) => b, n := bucket, 1;
    case InTable(bucket, _) => b, n := bucket, 2;
    case WantBucket(bucket, _) => b, n := bucket, 3;
    case InBucket(bucket, _) => b, n := bucket, 4;
    case _ =>
  }

  /** The job goes on to any of them. */
  lemma {:induction false} JobComesTo(s: State, b: nat, n: nat) returns (steps: seq<Step>, s': State)
    requires Quiet(s, Idle, InStore(true)) && At(s.active, 0) && n <= 4
    ensures Leads(Go, s, steps, s') && Quiet(s', Idle, PlaceAt(b, n)) && At(s'.active, 0)
  {
    if n == 0 {
      steps, s' := [], s;
    } else {
      var front, s1 := JobComesTo(s, b, n - 1);
      JobGoesOn(s1, PlaceAt(b, n - 1), PlaceAt(b, n));
      s' := Apply(s1, Step(1, PlaceAt(b, n)));
      LeadsThen(Go, s, front, s1, Step(1, PlaceAt(b, n)), s');
      steps := front + [Step(1, PlaceAt(b, n))];
    }
  }

  lemma WritesThere(s: State, pc: Pc)
    requires Quiet(s, Idle, pc) && At(s.active, 0) && HostPc(Job, pc) && !Harmless(pc)
    ensures JobWrites(s, 3, 0, 2, 1)
  {
    NobodyInterrupted(s, Idle, pc, 1);
    JobHoldsNoList(pc);
    assert Owned(1, Hold(Store, true)) in s.locks;
    forall o | o in s.locks ensures !o.hold.lock.List? && !o.hold.lock.Slot? {
      assert Owned(o.t, o.hold) in s.locks;
    }
  }

  lemma JobHoldsNoList(pc: Pc)
    requires HostPc(Job, pc)
    ensures forall hold :: hold in Holds(pc) ==> !hold.lock.List? && !hold.lock.Slot?
    ensures !Harmless(pc) ==> Hold(Store, true) in Holds(pc)
  {
  }

  /** The run to a place: a client is connected, and no handler has entered. */
  lemma JobReaches(pc: Pc) returns (steps: seq<Step>)
    requires HostPc(Job, pc) && !Harmless(pc)
    ensures IsRun(JOB_ROLES, steps) && Quiet(Final(JOB_ROLES, steps), Idle, pc)
    ensures JobWrites(Final(JOB_ROLES, steps), 3, 0, 2, 1)
  {
    var start := Start(JOB_ROLES);
    var bucket, n := WritingPlaces(pc);
    var a, s1 := ClientConnects();
    var b, s2 := JobBeginsToWrite(s1);
    var c, s3 := JobComesTo(s2, bucket, n);
    LeadsOn(Go, start, a, s1, b, s2);
    LeadsOn(Go, start, a + b, s2, c, s3);
    RunLeads(Go, start, [], a + b + c, s3);
    assert [] + (a + b + c) == a + b + c;
    steps := a + b + c;
    WritesThere(s3, pc);
  }

  /** The condition of NoCircularWait is exact place by place: for every place of a job thread that is
      not harmless there is a run in which the signal arrives while the thread stands there, the one
      step before it being a worker's, and which ends in a circular wait. */
  lemma EveryWritingPlaceDeadlocks(pc: Pc) returns (steps: seq<Step>, more: seq<Step>)
    requires HostPc(Job, pc) && !Harmless(pc)
    ensures IsRun(JOB_ROLES, steps) && Quiet(Final(JOB_ROLES, steps), Idle, pc)
    ensures [Step(2, WantStore(false)), Step(3, WantList)] <= more
    ensures IsRun(JOB_ROLES, steps + more) && IsCycle(Final(JOB_ROLES, steps + more), StoreCycle(3, 0, 2, 1))
  {
    steps := JobReaches(pc);
    more := WriterHostDeadlocks(JOB_ROLES, steps, 3, 0, 2, 1);
  }
}

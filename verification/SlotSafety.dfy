/** What every run of the session machine keeps: the life cycle of a slot, the conservation of
    permits, the list mutex, and the complete mass disconnect. */
module SlotSafety {
  import opened Constants
  import opened KeyList
  import opened Counting
  import opened Slots

  // ---- One slot and its worker ----

  ghost predicate Serving(pc: Worker) {
    pc.Greeting? || pc.Looping? || pc.ReadingOp? || pc.ReadingKey? || pc.Leaving? || pc.Removing?
  }

  ghost predicate SlotOk(slot: Slot, pc: Worker) {
    && (Serving(pc) ==> slot.active)
    && (pc.Posting? ==> !slot.active)
    && ((pc.Looping? || pc.ReadingOp? || pc.ReadingKey?) ==> pc.req == slot.fds.request)
    && (slot.open <==> slot.active && !pc.Removing?)
    && (!slot.active ==> slot.fds == NO_FDS && slot.keys == NO_KEYS)
  }

  ghost predicate SlotsOk(s: State) {
    && Shape(s)
    && forall i :: 0 <= i < MAX_SESSION_COUNT ==> SlotOk(s.slots[i], s.workers[i])
  }

  lemma SlotsStep(s: State, step: Step)
    requires SlotsOk(s) && Enabled(s, step)
    ensures SlotsOk(Apply(s, step))
  {
    match step
    case W(i, w) =>
      assert SlotOk(s.slots[i], s.workers[i]);
      assert SlotOk(WorkerSlot(s.slots[i], s.workers[i], w), WorkerPc(s.slots[i], s.workers[i], w));
    case A(a, act) =>
    case H(d, h) =>
    case Notify(e) =>
  }

  // ---- Permits ----

  ghost predicate HoldsPermit(a: Activator) {
    a.Permitted? || a.Scanning?
  }

  ghost predicate IsPosting(pc: Worker) {
    pc.Posting?
  }

  ghost predicate IsActive(slot: Slot) {
    slot.active
  }

  ghost predicate IsForced(slot: Slot) {
    slot.force
  }

  /** Semaphore value, permits taken and not yet used, slots given up and not yet posted, and
      active slots. */
  ghost function Permits(s: State): int {
    s.sem + Count(s.activators, HoldsPermit) + Count(s.workers, IsPosting) + Count(s.slots, IsActive)
  }

  /** A scan that holds the list mutex still has an inactive slot ahead of it. */
  ghost predicate ScanAhead(s: State, a: nat)
    requires Shape(s) && a < |s.activators|
  {
    s.activators[a].Scanning? ==> exists j :: s.activators[a].i <= j < MAX_SESSION_COUNT && !s.slots[j].active
  }

  ghost predicate PermitInv(s: State) {
    && Shape(s)
    && s.sem >= 0
    && Permits(s) == MAX_SESSION_COUNT
    && forall a :: 0 <= a < |s.activators| ==> ScanAhead(s, a)
  }

  // ---- The list mutex ----

  ghost predicate OwnerInv(s: State) {
    && (forall a :: 0 <= a < |s.activators| ==>
          ((s.activators[a].Scanning? || s.activators[a].Releasing?) <==> s.listc == ByActivator(a)))
    && (forall d :: 0 <= d < |s.handlers| ==> (!s.handlers[d].Off? <==> s.listc == ByHandler(d)))
    && (s.listc.ByActivator? ==> s.listc.a < |s.activators|)
    && (s.listc.ByHandler? ==> s.listc.d < |s.handlers|)
  }

  lemma OwnerActivator(s: State, a: nat, act: ActStep)
    requires Shape(s) && OwnerInv(s) && Enabled(s, A(a, act))
    ensures OwnerInv(Apply(s, A(a, act)))
  {
  }

  lemma OwnerHandler(s: State, d: nat, h: HandlerStep)
    requires Shape(s) && OwnerInv(s) && Enabled(s, H(d, h))
    ensures OwnerInv(Apply(s, H(d, h)))
  {
  }

  lemma OwnerStep(s: State, step: Step)
    requires Shape(s) && OwnerInv(s) && Enabled(s, step)
    ensures OwnerInv(Apply(s, step))
  {
    match step
    case W(i, w) => OnlyWorkersChange(s, i, w);
    case A(a, act) => OwnerActivator(s, a, act);
    case H(d, h) => OwnerHandler(s, d, h);
    case Notify(e) =>
  }

  lemma OnlyWorkersChange(s: State, i: nat, w: WorkerStep)
    requires Shape(s) && Enabled(s, W(i, w))
    ensures var s' := Apply(s, W(i, w));
            s'.listc == s.listc && s'.activators == s.activators && s'.handlers == s.handlers
  {
  }

  lemma WorkerPermits(s: State, i: nat, w: WorkerStep)
    requires SlotsOk(s) && Enabled(s, W(i, w))
    ensures Permits(Apply(s, W(i, w))) == Permits(s)
  {
    var slot, pc := s.slots[i], s.workers[i];
    assert SlotOk(slot, pc);
    CountUpdate(s.workers, i, WorkerPc(slot, pc, w), IsPosting);
    CountUpdate(s.slots, i, WorkerSlot(slot, pc, w), IsActive);
    assert IsPosting(WorkerPc(slot, pc, w)) <==> w.Wipe?;
    assert IsPosting(pc) <==> w.Post?;
    assert IsActive(WorkerSlot(slot, pc, w)) <==> slot.active && !w.Wipe?;
  }

  lemma ActivatorPermits(s: State, a: nat, act: ActStep)
    requires Enabled(s, A(a, act)) && ScanAhead(s, a)
    ensures Permits(Apply(s, A(a, act))) == Permits(s)
  {
    var s' := Apply(s, A(a, act));
    CountUpdate(s.activators, a, s'.activators[a], HoldsPermit);
    if Activates(s, A(a, act)) {
      var i := s.activators[a].i;
      CountUpdate(s.slots, i, s'.slots[i], IsActive);
    } else {
      assert s'.slots == s.slots;
    }
  }

  lemma PermitSumStep(s: State, step: Step)
    requires SlotsOk(s) && PermitInv(s) && Enabled(s, step)
    ensures Permits(Apply(s, step)) == Permits(s) && Apply(s, step).sem >= 0
  {
    match step
    case W(i, w) => WorkerPermits(s, i, w);
    case A(a, act) => ActivatorPermits(s, a, act);
    case H(d, h) => CountSame(s.slots, Apply(s, step).slots, IsActive);
    case Notify(e) => CountSame(s.slots, Apply(s, step).slots, IsActive);
  }

  /** Only the owner of the list mutex activates a slot. */
  lemma OnlyScanActivates(s: State, step: Step, i: nat)
    requires Shape(s) && Enabled(s, step) && i < MAX_SESSION_COUNT
    ensures !s.slots[i].active && Apply(s, step).slots[i].active <==> Activates(s, step) && s.activators[step.a].i == i
    ensures Activates(s, step) && OwnerInv(s) ==> s.listc == ByActivator(step.a)
  {
  }

  /** A thread's own step is the only one that moves it. */
  lemma ActivatorsMoveAlone(s: State, step: Step, a: nat)
    requires Enabled(s, step) && a < |s.activators|
    ensures |Apply(s, step).activators| == |s.activators|
    ensures !(step.A? && step.a == a) ==> Apply(s, step).activators[a] == s.activators[a]
  {
  }

  lemma ScanStep(s: State, step: Step, a: nat)
    requires SlotsOk(s) && OwnerInv(s) && PermitInv(s) && Enabled(s, step) && a < |s.activators|
    ensures a < |Apply(s, step).activators| && Shape(Apply(s, step)) && ScanAhead(Apply(s, step), a)
  {
    ActivatorsMoveAlone(s, step, a);
    assert ScanAhead(s, a);
    if s.activators[a].Scanning? {
      var j :| s.activators[a].i <= j < MAX_SESSION_COUNT && !s.slots[j].active;
      OnlyScanActivates(s, step, j);
    } else if step == A(a, LockList) {
      CountUpdate(s.activators, a, Out, HoldsPermit);
      CountNotAll(s.slots, IsActive);
      var j :| 0 <= j < |s.slots| && !IsActive(s.slots[j]);
      assert Apply(s, step).slots == s.slots;
    }
  }

  lemma PermitStep(s: State, step: Step)
    requires SlotsOk(s) && OwnerInv(s) && PermitInv(s) && Enabled(s, step)
    ensures PermitInv(Apply(s, step))
  {
    PermitSumStep(s, step);
    SlotsStep(s, step);
    var s' := Apply(s, step);
    forall a | 0 <= a < |s'.activators| ensures ScanAhead(s', a) {
      assert |s'.activators| == |s.activators|;
      ScanStep(s, step, a);
    }
  }

  // ---- The mass disconnect ----

  /** While a handler owns the list mutex: its counter is the number of flagged slots, and the
      slots it has passed are flagged unless they are inactive. Nobody else leaves a flag. */
  ghost predicate FlagInv(s: State) {
    && Shape(s)
    && match s.listc
       case ByHandler(d) => d < |s.handlers| && HandlerOk(s, s.handlers[d])
       case _ => Count(s.slots, IsForced) == 0
  }

  ghost predicate HandlerOk(s: State, h: Handler)
    requires Shape(s)
  {
    match h
    case Off => false
    case Flagging(n, w) =>
      && n <= MAX_SESSION_COUNT && w == Count(s.slots, IsForced)
      && (forall i :: 0 <= i < n ==> s.slots[i].active ==> s.slots[i].force)
      && (forall i :: n <= i < MAX_SESSION_COUNT ==> !s.slots[i].force)
    case Sweeping(n, w) =>
      && n <= MAX_SESSION_COUNT && w == Count(s.slots, IsForced)
      && (forall i :: 0 <= i < MAX_SESSION_COUNT ==> s.slots[i].active ==> s.slots[i].force)
    case Finishing =>
      forall i :: 0 <= i < MAX_SESSION_COUNT ==> !s.slots[i].active && !s.slots[i].force
  }

  lemma HandlerKept(s: State, s': State, h: Handler)
    requires Shape(s) && Shape(s') && HandlerOk(s, h)
    requires forall i :: 0 <= i < MAX_SESSION_COUNT ==> s'.slots[i].force == s.slots[i].force
    requires forall i :: 0 <= i < MAX_SESSION_COUNT ==> s'.slots[i].active ==> s.slots[i].active
    ensures HandlerOk(s', h)
  {
    CountSame(s.slots, s'.slots, IsForced);
  }

  lemma HandlerMoves(s: State, d: nat, h: HandlerStep)
    requires Shape(s) && OwnerInv(s) && FlagInv(s) && Enabled(s, H(d, h))
    ensures FlagInv(Apply(s, H(d, h)))
  {
    var s', pc := Apply(s, H(d, h)), s.handlers[d];
    match h
    case Enter =>
      CountZero(s.slots, IsForced);
    case Flag =>
      CountUpdate(s.slots, pc.i, s'.slots[pc.i], IsForced);
    case Sweep =>
      CountUpdate(s.slots, pc.i, s'.slots[pc.i], IsForced);
    case NextRound =>
      if pc.waiting <= 0 {
        CountZero(s.slots, IsForced);
      }
    case Leave =>
      CountNone(s.slots, IsForced);
  }

  lemma FlagStep(s: State, step: Step)
    requires SlotsOk(s) && OwnerInv(s) && FlagInv(s) && Enabled(s, step)
    ensures FlagInv(Apply(s, step))
  {
    if step.H? {
      HandlerMoves(s, step.d, step.h);
    } else {
      var s' := Apply(s, step);
      CountSame(s.slots, s'.slots, IsForced);
      if s.listc.ByHandler? {
        forall i | 0 <= i < MAX_SESSION_COUNT && s'.slots[i].active ensures s.slots[i].active {
          OnlyScanActivates(s, step, i);
        }
        HandlerKept(s, s', s.handlers[s.listc.d]);
      }
    }
  }

  // ---- All runs ----

  ghost predicate Safe(s: State) {
    SlotsOk(s) && OwnerInv(s) && PermitInv(s) && FlagInv(s)
  }

  lemma StartSafe(c: Config)
    ensures Safe(Start(c))
  {
    var s := Start(c);
    CountNone(s.activators, HoldsPermit);
    CountNone(s.workers, IsPosting);
    CountNone(s.slots, IsActive);
    CountNone(s.slots, IsForced);
  }

  lemma SafeStep(s: State, step: Step)
    requires Safe(s) && Enabled(s, step)
    ensures Safe(Apply(s, step))
  {
    SlotsStep(s, step);
    OwnerStep(s, step);
    PermitStep(s, step);
    FlagStep(s, step);
  }

  lemma {:induction false} RunSafe(c: Config, steps: seq<Step>)
    requires IsRun(c, steps)
    ensures Safe(Final(c, steps))
  {
    if steps == [] {
      StartSafe(c);
    } else {
      var before := steps[..|steps| - 1];
      RunSafe(c, before);
      SafeStep(Final(c, before), steps[|steps| - 1]);
    }
  }

  /** Permits are conserved in every run, and therefore a scan that got its permit finds an
      inactive slot: activate_client never falls out of its loop. */
  lemma PermitConservation(c: Config, steps: seq<Step>)
    requires IsRun(c, steps)
    ensures var s := Final(c, steps);
            && s.sem >= 0
            && s.sem + Count(s.activators, HoldsPermit) + Count(s.workers, IsPosting) + Count(s.slots, IsActive)
               == MAX_SESSION_COUNT
            && (forall a :: 0 <= a < |s.activators| ==> !Enabled(s, A(a, GiveUp)))
  {
    RunSafe(c, steps);
    var s := Final(c, steps);
    forall a | 0 <= a < |s.activators| ensures !Enabled(s, A(a, GiveUp)) {
      assert ScanAhead(s, a);
    }
  }

  /** No activation ever fails, in any run. */
  lemma {:induction false} NoActivationFails(c: Config, steps: seq<Step>)
    requires IsRun(c, steps)
    ensures forall a :: 0 <= a < |Final(c, steps).activators| ==> !Final(c, steps).activators[a].Failed?
  {
    if steps != [] {
      var before, step := steps[..|steps| - 1], steps[|steps| - 1];
      NoActivationFails(c, before);
      PermitConservation(c, before);
      var s := Final(c, before);
      assert step.A? ==> step.act != GiveUp;
    }
  }

  /** Mass disconnect: whenever a handler is about to release the list mutex, every slot is
      inactive, unflagged and without keys or descriptors. */
  lemma MassDisconnectCompletes(c: Config, steps: seq<Step>, d: nat)
    requires IsRun(c, steps) && d < |Final(c, steps).handlers| && Final(c, steps).handlers[d].Finishing?
    ensures forall i :: 0 <= i < MAX_SESSION_COUNT ==>
              var slot := Final(c, steps).slots[i];
              !slot.active && !slot.force && slot.keys == NO_KEYS && slot.fds == NO_FDS && !slot.open
  {
    RunSafe(c, steps);
    var s := Final(c, steps);
    forall i | 0 <= i < MAX_SESSION_COUNT
      ensures !s.slots[i].active && !s.slots[i].force && !s.slots[i].open
      ensures s.slots[i].keys == NO_KEYS && s.slots[i].fds == NO_FDS
    {
      assert SlotOk(s.slots[i], s.workers[i]);
    }
  }

  /** While it runs, its counter is the number of flagged slots and no slot is activated. */
  lemma MassDisconnectHolds(c: Config, steps: seq<Step>, step: Step, d: nat)
    requires IsRun(c, steps) && Enabled(Final(c, steps), step)
    requires d < |Final(c, steps).handlers| && !Final(c, steps).handlers[d].Off?
    ensures var s := Final(c, steps);
            && (!s.handlers[d].Finishing? ==> s.handlers[d].waiting == Count(s.slots, IsForced))
            && forall i :: 0 <= i < MAX_SESSION_COUNT && Apply(s, step).slots[i].active ==> s.slots[i].active
  {
    RunSafe(c, steps);
    var s := Final(c, steps);
    forall i | 0 <= i < MAX_SESSION_COUNT && Apply(s, step).slots[i].active ensures s.slots[i].active {
      OnlyScanActivates(s, step, i);
    }
  }

  // ---- Life cycle ----

  lemma ActivatorKeeps(s: State, a: nat, act: ActStep, i: nat)
    requires Shape(s) && Enabled(s, A(a, act)) && i < MAX_SESSION_COUNT && s.slots[i].active
    ensures Apply(s, A(a, act)).slots[i] == s.slots[i]
  {
  }

  lemma HandlerKeeps(s: State, d: nat, h: HandlerStep, i: nat)
    requires Shape(s) && Enabled(s, H(d, h)) && i < MAX_SESSION_COUNT && s.slots[i].active
    ensures Apply(s, H(d, h)).slots[i].active && Apply(s, H(d, h)).slots[i].fds == s.slots[i].fds
  {
  }

  /** Only the worker of a slot deactivates it, by the end of disconnect_client; while a slot
      stays active its descriptors stay the same. */
  lemma OnlyOwnerDeactivates(s: State, step: Step, i: nat)
    requires Safe(s) && Enabled(s, step) && i < MAX_SESSION_COUNT && s.slots[i].active
    ensures !Apply(s, step).slots[i].active <==> step == W(i, Wipe)
    ensures Apply(s, step).slots[i].active ==> Apply(s, step).slots[i].fds == s.slots[i].fds
  {
    assert SlotOk(s.slots[i], s.workers[i]);
    match step
    case W(j, w) =>
    case A(a, act) => ActivatorKeeps(s, a, act, i);
    case H(d, h) => HandlerKeeps(s, d, h, i);
    case Notify(e) =>
  }

  /** The exits "Read was interrupted" and "Client changed" of the opcode read are never taken:
      a lost read always finds the descriptor it started with. */
  lemma ClientNeverChanges(c: Config, steps: seq<Step>, i: nat)
    requires IsRun(c, steps) && Enabled(Final(c, steps), W(i, GotOp(OpLost)))
    ensures Apply(Final(c, steps), W(i, GotOp(OpLost))).workers[i] == Leaving
  {
    RunSafe(c, steps);
    var s := Final(c, steps);
    assert SlotOk(s.slots[i], s.workers[i]);
  }

  /** Activations, starts and ends of disconnect_client, and posts of a slot in a run. */
  datatype Tally = Tally(activations: nat, begins: nat, wipes: nat, posts: nat)

  ghost function Record(s: State, step: Step, i: nat, t: Tally): Tally
    requires Enabled(s, step)
  {
    if Activates(s, step) && s.activators[step.a].i == i then t.(activations := t.activations + 1)
    else if step == W(i, Begin) then t.(begins := t.begins + 1)
    else if step == W(i, Wipe) then t.(wipes := t.wipes + 1)
    else if step == W(i, Post) then t.(posts := t.posts + 1)
    else t
  }

  ghost function TallyOf(c: Config, steps: seq<Step>, i: nat): Tally
    requires IsRun(c, steps)
  {
    if steps == [] then Tally(0, 0, 0, 0)
    else Record(Final(c, steps[..|steps| - 1]), steps[|steps| - 1], i, TallyOf(c, steps[..|steps| - 1], i))
  }

  ghost predicate Alternates(t: Tally, slot: Slot, pc: Worker) {
    && t.activations == t.begins + (if slot.active && !pc.Removing? then 1 else 0)
    && t.begins == t.wipes + (if pc.Removing? then 1 else 0)
    && t.wipes == t.posts + (if pc.Posting? then 1 else 0)
  }

  lemma RecordStep(s: State, step: Step, i: nat, t: Tally)
    requires Safe(s) && Enabled(s, step) && i < MAX_SESSION_COUNT && Alternates(t, s.slots[i], s.workers[i])
    ensures Alternates(Record(s, step, i, t), Apply(s, step).slots[i], Apply(s, step).workers[i])
  {
    assert SlotOk(s.slots[i], s.workers[i]);
    OnlyScanActivates(s, step, i);
    match step
    case W(j, w) =>
      if j == i {
        OwnStep(s, i, w, t);
      }
    case A(a, act) =>
    case H(d, h) =>
    case Notify(e) =>
  }

  lemma OwnStep(s: State, i: nat, w: WorkerStep, t: Tally)
    requires SlotsOk(s) && Enabled(s, W(i, w)) && Alternates(t, s.slots[i], s.workers[i])
    ensures Alternates(Record(s, W(i, w), i, t), Apply(s, W(i, w)).slots[i], Apply(s, W(i, w)).workers[i])
  {
    var slot, pc := s.slots[i], s.workers[i];
    assert SlotOk(slot, pc);
    assert WorkerSlot(slot, pc, w).active <==> slot.active && !w.Wipe?;
    assert WorkerPc(slot, pc, w).Removing? <==> w.Begin? || w.RemoveOne?;
    assert WorkerPc(slot, pc, w).Posting? <==> w.Wipe?;
  }

  /** At every point of every run, each activation but the last has had its one
      disconnect_client and its one sem_post; the last has had at most one of each. */
  lemma {:induction false} LifeCycle(c: Config, steps: seq<Step>, i: nat)
    requires IsRun(c, steps) && i < MAX_SESSION_COUNT
    ensures Shape(Final(c, steps)) &&
            Alternates(TallyOf(c, steps, i), Final(c, steps).slots[i], Final(c, steps).workers[i])
  {
    RunSafe(c, steps);
    if steps != [] {
      var before, step := steps[..|steps| - 1], steps[|steps| - 1];
      LifeCycle(c, before, i);
      RunSafe(c, before);
      RecordStep(Final(c, before), step, i, TallyOf(c, before, i));
    }
  }

  // ---- Nobody is stuck ----

  ghost predicate WorkerCan(s: State, i: nat) {
    exists w :: Enabled(s, W(i, w))
  }

  ghost predicate ActivatorCan(s: State, a: nat) {
    exists act :: Enabled(s, A(a, act))
  }

  ghost predicate HandlerCan(s: State, d: nat) {
    exists h :: Enabled(s, H(d, h))
  }

  /** A worker waits for a client only. (With num_keys below zero the code has left its domain.) */
  ghost predicate NoClient(slot: Slot, pc: Worker) {
    (pc.Top? && !slot.active) || (pc.ReadingKey? && pc.sub && slot.keys.num < 0)
  }

  lemma WorkerGoesOn(s: State, i: nat)
    requires SlotsOk(s) && i < MAX_SESSION_COUNT
    ensures WorkerCan(s, i) <==> !NoClient(s.slots[i], s.workers[i])
    ensures Busy(s.workers[i]) ==> WorkerCan(s, i)
  {
    var slot := s.slots[i];
    match s.workers[i]
    case Top => assert slot.active ==> Enabled(s, W(i, Wake));
    case Greeting => assert Enabled(s, W(i, Greet(true)));
    case Looping(_) => assert Enabled(s, W(i, CheckForce));
    case ReadingOp(_) => assert Enabled(s, W(i, GotOp(OpOther)));
    case ReadingKey(_, sub) => assert (sub ==> slot.keys.num >= 0) ==> Enabled(s, W(i, GotKey(KeyLost)));
    case Leaving => assert Enabled(s, W(i, Begin));
    case Removing(n) => assert Enabled(s, W(i, if n < slot.keys.num then RemoveOne else Wipe));
    case Posting => assert Enabled(s, W(i, Post));
  }

  /** What an activator may wait for: a permit, the list mutex, or a worker that ends a session. */
  ghost predicate ActivatorWaits(s: State, a: nat)
    requires Shape(s) && a < |s.activators|
  {
    match s.activators[a]
    case Waiting(_) => s.sem == 0
    case Permitted(_) => s.listc != Free
    case Scanning(_, i) => i < MAX_SESSION_COUNT && Busy(s.workers[i])
    case _ => false
  }

  lemma ActivatorGoesOn(s: State, a: nat)
    requires Safe(s) && a < |s.activators|
    ensures ActivatorCan(s, a) <==> !ActivatorWaits(s, a)
  {
    assert ScanAhead(s, a);
    match s.activators[a]
    case Out => assert Enabled(s, A(a, Open(Fds(0, 0, 0))));
    case Failed => assert Enabled(s, A(a, Open(Fds(0, 0, 0))));
    case Waiting(_) => assert s.sem > 0 ==> Enabled(s, A(a, TakePermit));
    case Permitted(_) => assert s.listc == Free ==> Enabled(s, A(a, LockList));
    case Scanning(_, i) => assert !Busy(s.workers[i]) ==> Enabled(s, A(a, Scan));
    case Releasing => assert Enabled(s, A(a, Release));
  }

  /** What a mass disconnect may wait for: the list mutex, or a worker that ends a session. */
  ghost predicate HandlerWaits(s: State, d: nat)
    requires Shape(s) && d < |s.handlers|
  {
    match s.handlers[d]
    case Off => s.listc != Free
    case Flagging(i, _) => i < MAX_SESSION_COUNT && Busy(s.workers[i])
    case Sweeping(i, _) => i < MAX_SESSION_COUNT && Busy(s.workers[i])
    case Finishing => false
  }

  lemma HandlerGoesOn(s: State, d: nat)
    requires Shape(s) && d < |s.handlers|
    ensures HandlerCan(s, d) <==> !HandlerWaits(s, d)
  {
    match s.handlers[d]
    case Off => assert s.listc == Free ==> Enabled(s, H(d, Enter));
    case Flagging(i, _) =>
      assert i < MAX_SESSION_COUNT && !Busy(s.workers[i]) ==> Enabled(s, H(d, Flag));
      assert i >= MAX_SESSION_COUNT ==> Enabled(s, H(d, NextRound));
    case Sweeping(i, _) =>
      assert i < MAX_SESSION_COUNT && !Busy(s.workers[i]) ==> Enabled(s, H(d, Sweep));
      assert i >= MAX_SESSION_COUNT ==> Enabled(s, H(d, NextRound));
    case Finishing => assert Enabled(s, H(d, Leave));
  }

  /** In every reachable state a thread that cannot move waits for one of these, and for something
      that comes: a busy worker can move; who holds the list mutex can move or waits for a busy
      worker; and while there is no permit, slots are active, about to be posted or about to be
      activated, all eight of them. */
  lemma NobodyIsStuck(c: Config, steps: seq<Step>)
    requires IsRun(c, steps)
    ensures var s := Final(c, steps);
            && Shape(s)
            && (forall i :: 0 <= i < MAX_SESSION_COUNT ==> (WorkerCan(s, i) <==> !NoClient(s.slots[i], s.workers[i])))
            && (forall i :: 0 <= i < MAX_SESSION_COUNT && Busy(s.workers[i]) ==> WorkerCan(s, i))
            && (forall a :: 0 <= a < |s.activators| ==> (ActivatorCan(s, a) <==> !ActivatorWaits(s, a)))
            && (forall d :: 0 <= d < |s.handlers| ==> (HandlerCan(s, d) <==> !HandlerWaits(s, d)))
            && (s.listc.ByActivator? ==> s.listc.a < |s.activators| && !s.activators[s.listc.a].Permitted?)
            && (s.listc.ByHandler? ==> s.listc.d < |s.handlers| && !s.handlers[s.listc.d].Off?)
            && (s.sem == 0 ==> Count(s.activators, HoldsPermit) + Count(s.workers, IsPosting) +
                               Count(s.slots, IsActive) == MAX_SESSION_COUNT)
  {
    RunSafe(c, steps);
    var s := Final(c, steps);
    forall i | 0 <= i < MAX_SESSION_COUNT
      ensures WorkerCan(s, i) <==> !NoClient(s.slots[i], s.workers[i])
      ensures Busy(s.workers[i]) ==> WorkerCan(s, i)
    {
      WorkerGoesOn(s, i);
    }
    forall a | 0 <= a < |s.activators| ensures ActivatorCan(s, a) <==> !ActivatorWaits(s, a) {
      ActivatorGoesOn(s, a);
    }
    forall d | 0 <= d < |s.handlers| ensures HandlerCan(s, d) <==> !HandlerWaits(s, d) {
      HandlerGoesOn(s, d);
    }
  }
}

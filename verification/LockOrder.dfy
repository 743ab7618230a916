/** The locks of the server (src/server/client.c, src/server/coperations.c,
    src/server/operations.c): which thread takes which lock while holding which, in any
    interleaving. Nothing but the locks and the flags of the mass disconnect is kept.

    The mass disconnect is a signal handler (src/server/main.c): it runs on top of the thread that
    the signal interrupts, and that thread, its host, stands still until the handler returns. The
    code masks the signal in workers only, so activators and job threads may be interrupted
    anywhere, also while they hold locks. */
module LockOrder {
  import opened Constants
  import opened KvsBuckets
  import opened Paths

  /** Two of these are no locks. Return(t) is what a host t waits for, that the handler on it
      returns. Done(i) is what the mass disconnect waits for, that the worker of slot i clears its
      active flag. */
  datatype Lock = Return(t: nat) | List | Done(i: nat) | Slot(i: nat) | Store | Table | Bucket(b: nat)

  /** The order in which the program takes them. */
  function Rank(l: Lock): (r: nat)
    ensures r <= 6
  {
    match l
    case Return(_) => 0
    case List => 1
    case Done(_) => 2
    case Slot(_) => 3
    case Store => 4
    case Table => 5
    case Bucket(_) => 6
  }

  datatype Hold = Hold(lock: Lock, exclusive: bool)

  predicate Conflict(h: Hold, h': Hold) {
    h.lock == h'.lock && (h.exclusive || h'.exclusive)
  }

  /** A handler is one delivery of the signal after the other on the same host. */
  datatype Role = Activator | Handler(host: nat) | Worker(i: nat) | Job

  /** Where the index is used from: by a worker for a request, by a worker that disconnects, or
      by a batch that notifies. */
  datatype Base = Request | Disconnect(i: nat) | Batch

  /** The places between lock operations. round tells the waiting loop of the mass disconnect
      from the loop before it; leave tells disconnect_client from the loop heads. */
  datatype Pc =
    | Idle
    | WantList
    | InList(i: nat, round: bool)
    | WantSlot(i: nat, round: bool)
    | InSlot(i: nat, round: bool)
    | WantOwn(i: nat, leave: bool)
    | InOwn(i: nat, leave: bool)
    | WantStore(write: bool)
    | InStore(write: bool)
    | WantTable(b: nat, base: Base)
    | InTable(b: nat, base: Base)
    | WantBucket(b: nat, base: Base)
    | InBucket(b: nat, base: Base)

  ghost function BaseHolds(base: Base): set<Hold> {
    match base
    case Request => {}
    case Disconnect(i) => {Hold(Slot(i), true)}
    case Batch => {Hold(Store, true)}
  }

  /** get_fds takes the index locks for reading, add_key and remove_key for writing. */
  ghost function Holds(pc: Pc): set<Hold> {
    match pc
    case InList(_, _) => {Hold(List, true)}
    case WantSlot(_, _) => {Hold(List, true)}
    case InSlot(i, _) => {Hold(List, true), Hold(Slot(i), true)}
    case InOwn(i, _) => {Hold(Slot(i), true)}
    case InStore(write) => {Hold(Store, write)}
    case WantTable(_, base) => BaseHolds(base)
    case InTable(_, base) => BaseHolds(base) + {Hold(Table, base != Batch)}
    case WantBucket(_, base) => BaseHolds(base)
    case InBucket(b, base) => BaseHolds(base) + {Hold(Bucket(b), base != Batch)}
    case _ => {}
  }

  ghost function Wants(pc: Pc): Option<Hold> {
    match pc
    case WantList => Some(Hold(List, true))
    case WantSlot(i, _) => Some(Hold(Slot(i), true))
    case WantOwn(i, _) => Some(Hold(Slot(i), true))
    case WantStore(write) => Some(Hold(Store, write))
    case WantTable(_, base) => Some(Hold(Table, base != Batch))
    case WantBucket(b, base) => Some(Hold(Bucket(b), base != Batch))
    case _ => None
  }

  function Back(base: Base): Pc {
    match base
    case Request => Idle
    case Disconnect(i) => InOwn(i, true)
    case Batch => InStore(true)
  }

  /** The programs of the threads. */
  ghost predicate Next(role: Role, pc: Pc, to: Pc) {
    match pc
    case Idle =>
      || (to == WantList && (role.Activator? || role.Handler?))
      || (to.WantOwn? && role == Worker(to.i))
      || (to.WantStore? && (role.Job? || (role.Worker? && !to.write)))
      || (to.WantTable? && to.base == Request && role.Worker?)
    case WantList => to == InList(0, false)
    case InList(i, round) =>
      if i < MAX_SESSION_COUNT then to == WantSlot(i, round)
      else to == Idle || (role.Handler? && to == InList(0, true))
    case WantSlot(i, round) => to == InSlot(i, round)
    case InSlot(i, round) => to == InList(i + 1, round) || (role.Activator? && to == InList(MAX_SESSION_COUNT, round))
    case WantOwn(i, leave) => to == InOwn(i, leave)
    case InOwn(i, leave) => to == Idle || (leave && to.WantTable? && to.base == Disconnect(i))
    case WantStore(write) => to == InStore(write)
    case InStore(write) => to == Idle || (write && to.WantTable? && to.base == Batch)
    case WantTable(b, base) => to == InTable(b, base)
    case InTable(b, base) => to == WantBucket(b, base)
    case WantBucket(b, base) => to == InBucket(b, base)
    case InBucket(b, base) => to == Back(base)
  }

  /** The lock that is given back on the way. */
  ghost function Gives(pc: Pc, to: Pc): Option<Hold> {
    match pc
    case InList(_, _) => if to == Idle then Some(Hold(List, true)) else None
    case InSlot(i, _) => Some(Hold(Slot(i), true))
    case InOwn(i, _) => if to == Idle then Some(Hold(Slot(i), true)) else None
    case InStore(write) => if to == Idle then Some(Hold(Store, write)) else None
    case InTable(_, base) => Some(Hold(Table, base != Batch))
    case InBucket(b, base) => Some(Hold(Bucket(b), base != Batch))
    case _ => None
  }

  datatype Owned = Owned(t: nat, hold: Hold)

  datatype Thread = Thread(role: Role, pc: Pc)

  datatype State = State(threads: seq<Thread>, locks: set<Owned>, active: seq<bool>, flagged: seq<bool>)

  datatype Step = Step(t: nat, to: Pc)

  /** Nobody holds a lock that stands against this one. */
  ghost predicate Available(s: State, h: Hold) {
    forall o :: o in s.locks ==> !Conflict(o.hold, h)
  }

  ghost predicate AnyFlagged(s: State) {
    true in s.flagged
  }

  /** What the data says about the way: an activator passes active slots only, and the mass
      disconnect ends when nothing is flagged. */
  ghost predicate DataAllows(s: State, role: Role, pc: Pc, to: Pc) {
    match pc
    case InSlot(i, _) => role.Activator? && to != InList(MAX_SESSION_COUNT, pc.round) ==> i < |s.active| && s.active[i]
    case InList(i, _) => role.Handler? && i >= MAX_SESSION_COUNT ==> (to == Idle <==> !AnyFlagged(s))
    case _ => true
  }

  /** Thread h is a handler that runs on top of thread t. */
  ghost predicate RunsOn(s: State, h: nat, t: nat)
    requires h < |s.threads|
  {
    s.threads[h].role == Handler(t) && !s.threads[h].pc.Idle?
  }

  ghost predicate Interrupted(s: State, t: nat) {
    exists h :: 0 <= h < |s.threads| && RunsOn(s, h, t)
  }

  /** Threads that do not mask the signal, and do not run a handler, which masks it too. */
  ghost predicate MayInterrupt(s: State, t: nat) {
    t < |s.threads| && (s.threads[t].role.Activator? || s.threads[t].role.Job?) && !Interrupted(s, t)
  }

  /** The signal arrives. */
  ghost predicate Enters(s: State, step: Step) {
    step.t < |s.threads| && s.threads[step.t].role.Handler? && s.threads[step.t].pc.Idle?
  }

  ghost predicate Enabled(s: State, step: Step) {
    && step.t < |s.threads| && !Interrupted(s, step.t)
    && (Enters(s, step) ==> MayInterrupt(s, s.threads[step.t].role.host))
    && var th := s.threads[step.t];
       && Next(th.role, th.pc, step.to)
       && DataAllows(s, th.role, th.pc, step.to)
       && (Wants(th.pc).Some? ==> Available(s, Wants(th.pc).value))
  }

  ghost function Put(flags: seq<bool>, i: nat, value: bool): seq<bool> {
    if i < |flags| then flags[i := value] else flags
  }

  ghost predicate At(flags: seq<bool>, i: nat) {
    i < |flags| && flags[i]
  }

  ghost function Apply(s: State, step: Step): State
    requires Enabled(s, step)
  {
    var Thread(role, pc) := s.threads[step.t];
    State(
      s.threads[step.t := Thread(role, step.to)],
      if Wants(pc).Some? then s.locks + {Owned(step.t, Wants(pc).value)}
      else if Gives(pc, step.to).Some? then s.locks - {Owned(step.t, Gives(pc, step.to).value)}
      else s.locks,
      if role.Activator? && pc.InSlot? && step.to == InList(MAX_SESSION_COUNT, pc.round) then Put(s.active, pc.i, true)
      else if pc.InOwn? && pc.leave && step.to == Idle then Put(s.active, pc.i, false)
      else s.active,
      if role.Handler? && pc.InSlot? then Put(s.flagged, pc.i, At(s.active, pc.i) && (!pc.round || At(s.flagged, pc.i)))
      else s.flagged)
  }

  /** Any threads, all of them outside, with no locks taken. */
  ghost function Start(roles: seq<Role>): State {
    State(seq(|roles|, t requires 0 <= t < |roles| => Thread(roles[t], Idle)), {},
          seq(MAX_SESSION_COUNT, _ => false), seq(MAX_SESSION_COUNT, _ => false))
  }

  ghost function Go(s: State, step: Step): Option<State> {
    if Enabled(s, step) then Some(Apply(s, step)) else None
  }

  /** The state after a sequence of steps, if each of them was enabled in its turn. */
  ghost function Exec(roles: seq<Role>, steps: seq<Step>): Option<State> {
    RunFrom(Go, Start(roles), steps)
  }

  ghost predicate IsRun(roles: seq<Role>, steps: seq<Step>) {
    Exec(roles, steps).Some?
  }

  ghost function Final(roles: seq<Role>, steps: seq<Step>): State
    requires IsRun(roles, steps)
  {
    Exec(roles, steps).value
  }

  // ---- What every run keeps ----

  /** The locks taken are those of the places where the threads stand. */
  ghost predicate LocksMatch(s: State) {
    forall t: nat, h :: Owned(t, h) in s.locks <==> t < |s.threads| && h in Holds(s.threads[t].pc)
  }

  /** No lock is held by two threads, unless all of them read. */
  ghost predicate Exclusion(s: State) {
    forall o, o' :: o in s.locks && o' in s.locks && o.t != o'.t ==> !Conflict(o.hold, o'.hold)
  }

  /** Only activators and signal handlers are anywhere near the list mutex; handlers are nowhere
      else, and only job threads write the store. */
  ghost predicate AtHome(role: Role, pc: Pc) {
    && (pc.WantList? || pc.InList? || pc.WantSlot? || pc.InSlot? ==> role.Activator? || role.Handler?)
    && (role.Handler? ==> pc.Idle? || pc.WantList? || pc.InList? || pc.WantSlot? || pc.InSlot?)
    && ((pc.WantStore? || pc.InStore?) && pc.write ==> role.Job?)
    && ((pc.WantTable? || pc.InTable? || pc.WantBucket? || pc.InBucket?) && pc.base == Batch ==> role.Job?)
  }

  ghost predicate AllAtHome(s: State) {
    forall t :: 0 <= t < |s.threads| ==> AtHome(s.threads[t].role, s.threads[t].pc)
  }

  /** Handlers run on activators and job threads. */
  ghost predicate HostsOk(s: State) {
    forall h :: 0 <= h < |s.threads| && s.threads[h].role.Handler? && !s.threads[h].pc.Idle? ==>
      var t := s.threads[h].role.host;
      t < |s.threads| && (s.threads[t].role.Activator? || s.threads[t].role.Job?)
  }

  ghost predicate Inv(s: State) {
    && LocksMatch(s) && Exclusion(s) && AllAtHome(s) && HostsOk(s)
    && |s.active| == |s.flagged| == MAX_SESSION_COUNT
  }

  /** What a move does to the locks a thread holds. */
  lemma MoveHolds(role: Role, pc: Pc, to: Pc)
    requires Next(role, pc, to)
    ensures Wants(pc).Some? ==> Holds(to) == Holds(pc) + {Wants(pc).value}
    ensures Wants(pc).None? && Gives(pc, to).Some? ==> Holds(to) == Holds(pc) - {Gives(pc, to).value}
    ensures Wants(pc).None? && Gives(pc, to).None? ==> Holds(to) == Holds(pc)
    ensures AtHome(role, pc) ==> AtHome(role, to)
  {
  }

  lemma LocksStep(s: State, step: Step)
    requires LocksMatch(s) && Exclusion(s) && Enabled(s, step)
    ensures LocksMatch(Apply(s, step)) && Exclusion(Apply(s, step))
  {
    var Thread(role, pc) := s.threads[step.t];
    MoveHolds(role, pc, step.to);
  }

  lemma PlacesStep(s: State, step: Step)
    requires AllAtHome(s) && HostsOk(s) && Enabled(s, step)
    ensures AllAtHome(Apply(s, step)) && HostsOk(Apply(s, step))
  {
    var Thread(role, pc) := s.threads[step.t];
    MoveHolds(role, pc, step.to);
    var s' := Apply(s, step);
    assert forall t :: 0 <= t < |s.threads| ==> s'.threads[t].role == s.threads[t].role;
  }

  lemma StepKeeps(s: State, step: Step)
    requires Inv(s) && Enabled(s, step)
    ensures Inv(Apply(s, step))
  {
    LocksStep(s, step);
    PlacesStep(s, step);
  }

  lemma {:induction false} RunInv(roles: seq<Role>, steps: seq<Step>)
    requires IsRun(roles, steps)
    ensures Inv(Final(roles, steps))
  {
    if steps != [] {
      RunInv(roles, steps[..|steps| - 1]);
      StepKeeps(Final(roles, steps[..|steps| - 1]), steps[|steps| - 1]);
    }
  }

  // ---- Where a handler may enter ----

  /** The host holds nothing, or the store for reading only. */
  ghost predicate Harmless(pc: Pc) {
    Hold(List, true) !in Holds(pc) && Hold(Store, true) !in Holds(pc)
  }

  /** What that means for activators and job threads. */
  lemma HarmlessHolds(role: Role, pc: Pc)
    requires (role.Activator? || role.Job?) && HostPc(role, pc) && AtHome(role, pc)
    ensures Harmless(pc) <==> Holds(pc) <= {Hold(Store, false)}
  {
  }

  /** Activators and job threads stay in their own programs. */
  ghost predicate HostPc(role: Role, pc: Pc) {
    && (role.Activator? ==> pc.Idle? || pc.WantList? || pc.InList? || pc.WantSlot? || pc.InSlot?)
    && (role.Job? ==> pc.Idle? || pc.WantStore? || pc.InStore? ||
                      ((pc.WantTable? || pc.InTable? || pc.WantBucket? || pc.InBucket?) && pc.base == Batch))
  }

  /** Every time the signal arrives, it finds its host harmless: a condition on the host's own
      place, which a signal mask around the other places would enforce. */
  ghost predicate Guarded(roles: seq<Role>, steps: seq<Step>)
    requires IsRun(roles, steps)
  {
    steps != [] ==>
      var before, step := steps[..|steps| - 1], steps[|steps| - 1];
      && Guarded(roles, before)
      && var s := Final(roles, before);
         Enters(s, step) ==> Harmless(s.threads[s.threads[step.t].role.host].pc)
  }

  ghost predicate HostsHarmless(s: State) {
    forall h :: 0 <= h < |s.threads| && s.threads[h].role.Handler? && !s.threads[h].pc.Idle? ==>
      var t := s.threads[h].role.host;
      t < |s.threads| && Harmless(s.threads[t].pc) && HostPc(s.threads[t].role, s.threads[t].pc)
  }

  ghost predicate AllHostPcs(s: State) {
    forall t :: 0 <= t < |s.threads| ==> HostPc(s.threads[t].role, s.threads[t].pc)
  }

  lemma HostPcMoves(role: Role, pc: Pc, to: Pc)
    requires HostPc(role, pc) && Next(role, pc, to)
    ensures HostPc(role, to)
  {
  }

  lemma HostPcStep(s: State, step: Step)
    requires AllHostPcs(s) && Enabled(s, step)
    ensures AllHostPcs(Apply(s, step))
  {
    HostPcMoves(s.threads[step.t].role, s.threads[step.t].pc, step.to);
  }

  lemma {:induction false} RunHostPcs(roles: seq<Role>, steps: seq<Step>)
    requires IsRun(roles, steps)
    ensures AllHostPcs(Final(roles, steps))
  {
    if steps != [] {
      RunHostPcs(roles, steps[..|steps| - 1]);
      HostPcStep(Final(roles, steps[..|steps| - 1]), steps[|steps| - 1]);
    }
  }

  /** A host stands still, so it stays as the handler has found it. */
  lemma {:induction false} GuardedHosts(roles: seq<Role>, steps: seq<Step>)
    requires IsRun(roles, steps) && Guarded(roles, steps)
    ensures HostsHarmless(Final(roles, steps))
  {
    if steps != [] {
      var before, step := steps[..|steps| - 1], steps[|steps| - 1];
      GuardedHosts(roles, before);
      RunInv(roles, before);
      RunHostPcs(roles, before);
      HostsStep(Final(roles, before), step);
    }
  }

  lemma HostsStep(s: State, step: Step)
    requires Inv(s) && AllHostPcs(s) && HostsHarmless(s) && Enabled(s, step)
    requires Enters(s, step) ==> Harmless(s.threads[s.threads[step.t].role.host].pc)
    ensures HostsHarmless(Apply(s, step))
  {
    var s' := Apply(s, step);
    forall h | 0 <= h < |s'.threads| && s'.threads[h].role.Handler? && !s'.threads[h].pc.Idle?
      ensures var t := s'.threads[h].role.host;
              t < |s'.threads| && Harmless(s'.threads[t].pc) && HostPc(s'.threads[t].role, s'.threads[t].pc)
    {
      var t := s'.threads[h].role.host;
      if h != step.t {
        assert RunsOn(s, h, t);
      } else if !s.threads[h].pc.Idle? {
        assert RunsOn(s, h, t);
      }
    }
  }

  // ---- Waiting ----

  /** Thread a cannot go on because thread b has r: b is a handler on top of it, or b holds a lock
      that a asks for, or a is a mass disconnect and b the worker of a flagged client that is still
      active. */
  ghost predicate Waits(s: State, a: nat, r: Lock, b: nat) {
    && a < |s.threads| && b < |s.threads|
    && if Interrupted(s, a) then r == Return(a) && RunsOn(s, b, a)
       else
         var pc := s.threads[a].pc;
         || (Wants(pc).Some? && exists h :: Owned(b, h) in s.locks && Conflict(h, Wants(pc).value) && h.lock == r)
         || (s.threads[a].role.Handler? && (pc.InList? || pc.WantSlot?) && pc.round
             && r.Done? && s.threads[b].role == Worker(r.i) && At(s.active, r.i) && At(s.flagged, r.i))
  }

  /** Where a wait stands in the order. Nobody ever waits for a thread that waits to write the
      store, so that wait comes first. */
  ghost function Level(s: State, a: nat, r: Lock): (n: nat)
    requires a < |s.threads|
    ensures n <= 7
  {
    if Wants(s.threads[a].pc) == Some(Hold(Store, true)) && r == Store then 0 else 1 + Rank(r)
  }

  /** Whoever has what another thread waits for, waits for something that comes later in the order,
      if at all. */
  lemma WaitsGoUp(s: State, a: nat, r: Lock, b: nat, r': Lock, c: nat)
    requires Inv(s) && HostsHarmless(s) && Waits(s, a, r, b) && Waits(s, b, r', c)
    ensures Level(s, a, r) < Level(s, b, r')
  {
    if Interrupted(s, b) {
      InterruptedLast(s, a, r, b);
    } else if Interrupted(s, a) {
      assert AtHome(s.threads[b].role, s.threads[b].pc);
    } else if r.Done? {
      WorkerGoesUp(s, a, r, b, r', c);
    } else {
      HolderGoesUp(s, a, r, b, r', c);
    }
  }

  lemma WorkerGoesUp(s: State, a: nat, r: Lock, b: nat, r': Lock, c: nat)
    requires Inv(s) && !Interrupted(s, a) && !Interrupted(s, b) && r.Done? && Waits(s, a, r, b) && Waits(s, b, r', c)
    ensures Level(s, a, r) < Level(s, b, r')
  {
    RunningHolds(s, a, r, b);
    assert AtHome(s.threads[b].role, s.threads[b].pc);
  }

  lemma HolderGoesUp(s: State, a: nat, r: Lock, b: nat, r': Lock, c: nat)
    requires Inv(s) && !Interrupted(s, a) && !Interrupted(s, b) && !r.Done? && Waits(s, a, r, b) && Waits(s, b, r', c)
    ensures Level(s, a, r) < Level(s, b, r')
  {
    RunningHolds(s, a, r, b);
    assert AtHome(s.threads[b].role, s.threads[b].pc);
  }

  /** A thread that is not interrupted waits for a holder or for a worker. */
  lemma RunningHolds(s: State, a: nat, r: Lock, b: nat)
    requires Inv(s) && !Interrupted(s, a) && Waits(s, a, r, b)
    ensures r.Done? ==> s.threads[b].role.Worker? && s.threads[a].role.Handler?
    ensures !r.Done? ==> Wants(s.threads[a].pc).Some? && Wants(s.threads[a].pc).value.lock == r &&
                         (Hold(r, true) in Holds(s.threads[b].pc) || Hold(r, false) in Holds(s.threads[b].pc))
  {
    var pc := s.threads[a].pc;
    if h :| Wants(pc).Some? && Owned(b, h) in s.locks && Conflict(h, Wants(pc).value) && h.lock == r {
      assert h in Holds(s.threads[b].pc) && (h == Hold(r, true) || h == Hold(r, false));
      RealLocks(s.threads[b].pc, h);
    }
  }

  lemma RealLocks(pc: Pc, h: Hold)
    requires h in Holds(pc)
    ensures !h.lock.Done? && !h.lock.Return?
  {
  }

  /** Only writers of the store wait for a host. */
  lemma InterruptedLast(s: State, a: nat, r: Lock, b: nat)
    requires Inv(s) && HostsHarmless(s) && Waits(s, a, r, b) && Interrupted(s, b)
    ensures Level(s, a, r) == 0
  {
    var h :| 0 <= h < |s.threads| && RunsOn(s, h, b);
    var Thread(role, pc) := s.threads[b];
    assert AtHome(role, pc);
    HarmlessHolds(role, pc);
    if !Interrupted(s, a) && Wants(s.threads[a].pc).Some? {
      if o :| Owned(b, o) in s.locks && Conflict(o, Wants(s.threads[a].pc).value) && o.lock == r {
        assert o in Holds(pc);
      }
    }
  }

  datatype Edge = Edge(a: nat, r: Lock, b: nat)

  ghost predicate IsChain(s: State, path: seq<Edge>) {
    && (forall j :: 0 <= j < |path| ==> Waits(s, path[j].a, path[j].r, path[j].b))
    && (forall j :: 0 < j < |path| ==> path[j - 1].b == path[j].a)
  }

  /** A chain of waits that returns to its start. */
  ghost predicate IsCycle(s: State, path: seq<Edge>) {
    path != [] && IsChain(s, path) && path[|path| - 1].b == path[0].a
  }

  lemma {:induction false} ChainGoesUp(s: State, path: seq<Edge>)
    requires Inv(s) && HostsHarmless(s) && IsChain(s, path) && path != []
    ensures Level(s, path[0].a, path[0].r) + |path| - 1 <= Level(s, path[|path| - 1].a, path[|path| - 1].r)
  {
    if |path| > 1 {
      var front := path[..|path| - 1];
      ChainGoesUp(s, front);
      var e, e' := path[|path| - 2], path[|path| - 1];
      WaitsGoUp(s, e.a, e.r, e.b, e'.r, e'.b);
    }
  }

  /** No circular wait, if the handler is kept away from threads that hold the list mutex or write
      the store: in no state of such a run does a chain of waits return to its start, waits of the
      mass disconnect for its workers and of hosts for their handlers included. */
  lemma NoCircularWait(roles: seq<Role>, steps: seq<Step>, path: seq<Edge>)
    requires IsRun(roles, steps) && Guarded(roles, steps)
    ensures !IsCycle(Final(roles, steps), path)
  {
    var s := Final(roles, steps);
    RunInv(roles, steps);
    GuardedHosts(roles, steps);
    if IsCycle(s, path) {
      ChainGoesUp(s, path);
      var first, last := path[0], path[|path| - 1];
      WaitsGoUp(s, last.a, last.r, last.b, first.r, first.b);
    }
  }

  ghost predicate Blocked(s: State, a: nat) {
    exists r, b :: Waits(s, a, r, b)
  }

  /** A move of a thread that waits for nobody. */
  ghost function SomeMove(s: State, t: nat): Pc
    requires t < |s.threads|
  {
    var Thread(role, pc) := s.threads[t];
    match pc
    case Idle =>
      if role.Worker? then WantOwn(role.i, false) else if role.Job? then WantStore(false) else WantList
    case WantList => InList(0, false)
    case InList(i, round) =>
      if i < MAX_SESSION_COUNT then WantSlot(i, round)
      else if role.Handler? && AnyFlagged(s) then InList(0, true)
      else Idle
    case WantSlot(i, round) => InSlot(i, round)
    case InSlot(i, round) =>
      if role.Activator? && !At(s.active, i) then InList(MAX_SESSION_COUNT, round) else InList(i + 1, round)
    case WantOwn(i, leave) => InOwn(i, leave)
    case InOwn(i, leave) => Idle
    case WantStore(write) => InStore(write)
    case InStore(write) => Idle
    case WantTable(b, base) => InTable(b, base)
    case InTable(b, base) => WantBucket(b, base)
    case WantBucket(b, base) => InBucket(b, base)
    case InBucket(b, base) => Back(base)
  }

  lemma UnblockedMoves(s: State, t: nat)
    requires Inv(s) && t < |s.threads| && !Blocked(s, t)
    requires !Enters(s, Step(t, WantList))
    ensures Enabled(s, Step(t, SomeMove(s, t)))
  {
    var pc := s.threads[t].pc;
    if Interrupted(s, t) {
      var h :| 0 <= h < |s.threads| && RunsOn(s, h, t);
      assert Waits(s, t, Return(t), h);
    } else if Wants(pc).Some? {
      forall o | o in s.locks ensures !Conflict(o.hold, Wants(pc).value) {
        if Conflict(o.hold, Wants(pc).value) {
          assert Owned(o.t, o.hold) in s.locks;
          assert Waits(s, t, o.hold.lock, o.t);
        }
      }
    }
  }

  /** Nobody waits for a handler that has not entered. */
  lemma AwaitedIsInside(s: State, a: nat, r: Lock, b: nat)
    requires Inv(s) && Waits(s, a, r, b)
    ensures !Enters(s, Step(b, WantList))
  {
    if !Interrupted(s, a) {
      if h :| Owned(b, h) in s.locks && h.lock == r {
        assert h in Holds(s.threads[b].pc);
      }
    }
  }

  lemma Longer(s: State, path: seq<Edge>) returns (path': seq<Edge>)
    requires Inv(s) && HostsHarmless(s) && IsChain(s, path) && path != [] && Blocked(s, path[|path| - 1].b)
    ensures IsChain(s, path') && |path'| == |path| + 1 <= 8 && path'[0] == path[0]
  {
    var last := path[|path| - 1].b;
    var r, b :| Waits(s, last, r, b);
    path' := path + [Edge(last, r, b)];
    ChainGoesUp(s, path');
  }

  /** No deadlock on locks, under the same condition: from any thread that waits, a chain of at most
      eight waits leads to a thread that can move. */
  lemma SomebodyMoves(roles: seq<Role>, steps: seq<Step>, a: nat) returns (path: seq<Edge>)
    requires IsRun(roles, steps) && Guarded(roles, steps) && Blocked(Final(roles, steps), a)
    ensures var s := Final(roles, steps);
            && 0 < |path| <= 8 && path[0].a == a && IsChain(s, path)
            && var b := path[|path| - 1].b; b < |s.threads| && Enabled(s, Step(b, SomeMove(s, b)))
  {
    var s := Final(roles, steps);
    RunInv(roles, steps);
    GuardedHosts(roles, steps);
    var r, b :| Waits(s, a, r, b);
    path := [Edge(a, r, b)];
    while Blocked(s, path[|path| - 1].b)
      invariant 0 < |path| <= 8 && path[0].a == a && IsChain(s, path)
      decreases 8 - |path|
    {
      path := Longer(s, path);
    }
    var e := path[|path| - 1];
    AwaitedIsInside(s, e.a, e.r, e.b);
    UnblockedMoves(s, e.b);
  }

  /** The order itself: whatever a program thread holds comes before whatever it asks for, and
      workers and job threads never hold or ask for the list mutex. */
  lemma LocksInOrder(roles: seq<Role>, steps: seq<Step>, o: Owned)
    requires IsRun(roles, steps) && o in Final(roles, steps).locks
    ensures var s := Final(roles, steps);
            && o.t < |s.threads|
            && var Thread(role, pc) := s.threads[o.t];
               && (Wants(pc).Some? ==> Rank(o.hold.lock) < Rank(Wants(pc).value.lock))
               && (role.Worker? || role.Job? ==> o.hold.lock != List && Wants(pc) != Some(Hold(List, true)))
  {
    RunInv(roles, steps);
    var s := Final(roles, steps);
    assert Owned(o.t, o.hold) in s.locks;
    assert AtHome(s.threads[o.t].role, s.threads[o.t].pc);
  }

  /** For a thread of the operating system, with a handler on top, the order holds exactly when the
      host holds nothing, whichever lock the handler asks for. */
  lemma OrderAcrossHandlers(roles: seq<Role>, steps: seq<Step>, h: nat)
    requires IsRun(roles, steps) && h < |Final(roles, steps).threads|
    requires var th := Final(roles, steps).threads[h]; th.role.Handler? && Wants(th.pc).Some?
    ensures var s := Final(roles, steps);
            var t, want := s.threads[h].role.host, Wants(s.threads[h].pc).value.lock;
            && t < |s.threads|
            && ((forall o :: o in s.locks && (o.t == h || o.t == t) ==> Rank(o.hold.lock) < Rank(want)) <==>
                Holds(s.threads[t].pc) == {})
  {
    var s := Final(roles, steps);
    RunInv(roles, steps);
    RunHostPcs(roles, steps);
    var t, want := s.threads[h].role.host, Wants(s.threads[h].pc).value.lock;
    assert AtHome(s.threads[h].role, s.threads[h].pc);
    if Holds(s.threads[t].pc) != {} {
      HostHoldsLater(s, h, t);
    } else {
      forall o | o in s.locks && (o.t == h || o.t == t) ensures Rank(o.hold.lock) < Rank(want) {
        assert Owned(o.t, o.hold) in s.locks;
      }
    }
  }

  /** What a host holds besides the list mutex comes behind everything its handler asks for; the
      list mutex cannot be held by both. */
  lemma HostHoldsLater(s: State, h: nat, t: nat)
    requires Inv(s) && AllHostPcs(s) && h < |s.threads| && t < |s.threads| && s.threads[h].role == Handler(t)
    requires Wants(s.threads[h].pc).Some? && Holds(s.threads[t].pc) != {}
    ensures exists o :: o in s.locks && o.t == t && Rank(o.hold.lock) >= Rank(Wants(s.threads[h].pc).value.lock)
  {
    var Thread(role, pc) := s.threads[t];
    assert AtHome(Handler(t), s.threads[h].pc) && HostPc(role, pc) && AtHome(role, pc);
    if Hold(List, true) in Holds(pc) {
      assert Owned(t, Hold(List, true)) in s.locks;
      if s.threads[h].pc.WantSlot? {
        assert Owned(h, Hold(List, true)) in s.locks && Conflict(Hold(List, true), Hold(List, true));
        assert false;
      }
      assert Rank(Owned(t, Hold(List, true)).hold.lock) >= Rank(List);
    } else {
      var hold :| hold in Holds(pc);
      assert Owned(t, hold) in s.locks;
      assert Rank(Owned(t, hold).hold.lock) >= Rank(Store);
    }
  }
}

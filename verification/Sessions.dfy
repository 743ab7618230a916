/** The life of a session as its steps show it: what a worker may do behind its last step, that a
    session that should end does end, and that its key list is what its requests make of it. */
module Sessions {
  import opened Constants
  import opened KvsBuckets
  import opened Paths
  import opened KeyList
  import Keys = KeyList
  import opened Slots
  import opened SlotSafety
  import opened IndexAgreement

  // ---- The order of a worker's steps ----

  /** A step of a worker, and whether its slot was flagged then. */
  datatype Taken = Taken(w: WorkerStep, flag: bool)

  /** The last step of worker i in a run. */
  ghost function LastOwn(c: Config, steps: seq<Step>, i: nat): Option<Taken>
    requires IsRun(c, steps)
  {
    if steps == [] then None
    else
      var s, step := Final(c, steps[..|steps| - 1]), steps[|steps| - 1];
      if step.W? && step.i == i then Some(Taken(step.w, i < |s.slots| && s.slots[i].force))
      else LastOwn(c, steps[..|steps| - 1], i)
  }

  /** The worker has seen the flag of its slot. */
  ghost predicate SeesFlag(last: Taken) {
    (last.w.Wake? || last.w.CheckForce?) && last.flag
  }

  /** The steps after which a session ends: the client asks for it or is gone, the greeting cannot be
      written, or the slot is flagged. */
  ghost predicate Quits(last: Taken) {
    || last.w == GotOp(OpDisconnect)
    || last.w == GotOp(OpLost)
    || last.w == GotKey(KeyLost)
    || last.w == Greet(false)
    || SeesFlag(last)
  }

  /** The steps that lead back to the head of the inner loop. */
  ghost predicate GoesOn(w: WorkerStep) {
    w == Greet(true) || w == GotOp(OpFailed) || w == GotOp(OpOther) || (w.GotKey? && w.read.KeyIs?)
  }

  /** How many entries the disconnect under way has removed. */
  ghost function Removals(steps: seq<Step>, i: nat): nat {
    if steps == [] then 0
    else
      var step, before := steps[|steps| - 1], steps[..|steps| - 1];
      if step == W(i, Begin) then 0
      else if step == W(i, RemoveOne) then Removals(before, i) + 1
      else Removals(before, i)
  }

  /** What a worker may do behind its last step, with so many entries removed. */
  ghost predicate MayFollow(last: Taken, slot: Slot, removals: nat, w: WorkerStep) {
    match w
    case Wake => last.w.Post? && slot.active
    case Greet(_) => last.w.Wake? && !SeesFlag(last)
    case CheckForce => GoesOn(last.w)
    case GotOp(_) => last.w.CheckForce? && !SeesFlag(last)
    case GotKey(_) => last.w == GotOp(OpUnsubscribe) || (last.w == GotOp(OpSubscribe) && slot.keys.num >= 0)
    case Begin => Quits(last)
    case RemoveOne => (last.w.Begin? || last.w.RemoveOne?) && removals < slot.keys.num
    case Wipe => (last.w.Begin? || last.w.RemoveOne?) && removals >= slot.keys.num
    case Post => last.w.Wipe?
  }

  /** Where a worker stands is decided by its last step. */
  ghost predicate StandsBehind(last: Taken, removals: nat, pc: Worker) {
    exists slot, before :: StoodAt(last, slot, before) && pc == WorkerPc(slot, before, last.w) && Removed(pc, removals)
  }

  ghost predicate StoodAt(last: Taken, slot: Slot, before: Worker) {
    SlotOk(slot, before) && WorkerEnabled(slot, before, last.w) && slot.force == last.flag
  }

  ghost predicate Removed(pc: Worker, removals: nat) {
    pc.Removing? ==> pc.done == removals
  }

  lemma WorkersMoveAlone(s: State, step: Step, i: nat)
    requires SlotsOk(s) && Enabled(s, step) && i < MAX_SESSION_COUNT
    ensures Shape(Apply(s, step))
    ensures Apply(s, step).workers[i] ==
            if step.W? && step.i == i then WorkerPc(s.slots[i], s.workers[i], step.w) else s.workers[i]
  {
  }

  lemma {:induction false} PlaceIsLastStep(c: Config, steps: seq<Step>, i: nat)
    requires IsRun(c, steps) && i < MAX_SESSION_COUNT
    ensures Shape(Final(c, steps))
    ensures var pc, last := Final(c, steps).workers[i], LastOwn(c, steps, i);
            if last == None then pc == Top else StandsBehind(last.value, Removals(steps, i), pc)
  {
    if steps != [] {
      var before, step := steps[..|steps| - 1], steps[|steps| - 1];
      PlaceIsLastStep(c, before, i);
      RunSafe(c, before);
      var s := Final(c, before);
      WorkersMoveAlone(s, step, i);
      if step.W? && step.i == i {
        OwnPlace(s, i, step.w, LastOwn(c, before, i), Removals(before, i));
      } else {
        assert LastOwn(c, steps, i) == LastOwn(c, before, i);
      }
    }
  }

  lemma OwnPlace(s: State, i: nat, w: WorkerStep, last: Option<Taken>, removals: nat)
    requires SlotsOk(s) && Enabled(s, W(i, w)) && i < MAX_SESSION_COUNT
    requires if last == None then s.workers[i] == Top else StandsBehind(last.value, removals, s.workers[i])
    ensures StandsBehind(Taken(w, s.slots[i].force),
                         if w.Begin? then 0 else if w.RemoveOne? then removals + 1 else removals,
                         WorkerPc(s.slots[i], s.workers[i], w))
  {
    assert StoodAt(Taken(w, s.slots[i].force), s.slots[i], s.workers[i]);
  }

  lemma FollowsHere(last: Taken, slot: Slot, removals: nat, pc: Worker, w: WorkerStep)
    requires StandsBehind(last, removals, pc)
    ensures WorkerEnabled(slot, pc, w) <==> MayFollow(last, slot, removals, w)
  {
  }

  /** The steps of a worker follow each other as the code says, in every run: each is possible
      exactly behind the steps that lead there. */
  lemma WorkerFollows(c: Config, steps: seq<Step>, i: nat, w: WorkerStep)
    requires IsRun(c, steps) && i < MAX_SESSION_COUNT
    ensures Shape(Final(c, steps))
    ensures var last, slot := LastOwn(c, steps, i), Final(c, steps).slots[i];
            Enabled(Final(c, steps), W(i, w)) <==>
            if last == None then w.Wake? && slot.active else MayFollow(last.value, slot, Removals(steps, i), w)
  {
    PlaceIsLastStep(c, steps, i);
    var last := LastOwn(c, steps, i);
    if last.Some? {
      FollowsHere(last.value, Final(c, steps).slots[i], Removals(steps, i), Final(c, steps).workers[i], w);
    }
  }

  /** A worker begins to disconnect its client exactly behind a step after which the session ends. */
  lemma BeginsExactly(c: Config, steps: seq<Step>, i: nat)
    requires IsRun(c, steps) && i < MAX_SESSION_COUNT
    ensures Enabled(Final(c, steps), W(i, Begin)) <==>
            LastOwn(c, steps, i).Some? && Quits(LastOwn(c, steps, i).value)
  {
    WorkerFollows(c, steps, i, Begin);
  }

  // ---- A session that should end does ----

  /** How many steps worker i takes. */
  ghost function OwnSteps(steps: seq<Step>, i: nat): nat {
    if steps == [] then 0
    else
      var step := steps[|steps| - 1];
      OwnSteps(steps[..|steps| - 1], i) + if step.W? && step.i == i then 1 else 0
  }

  /** How many operation codes it reads. */
  ghost function OpReads(steps: seq<Step>, i: nat): nat {
    if steps == [] then 0
    else
      var step := steps[|steps| - 1];
      OpReads(steps[..|steps| - 1], i) + if step.W? && step.i == i && step.w.GotOp? then 1 else 0
  }

  /** At most so many steps of a flagged session are left up to its wipe. */
  ghost function StepsLeft(slot: Slot, pc: Worker): int {
    var n := if slot.keys.num > 0 then slot.keys.num else 0;
    match pc
    case Removing(done) => if done < n then n - done + 1 else 1
    case Leaving => n + 2
    case Posting => 1
    case Looping(_) => MAX_NUMBER_SUB + 3
    case Top => MAX_NUMBER_SUB + 3
    case ReadingKey(_, _) => MAX_NUMBER_SUB + 4
    case Greeting => MAX_NUMBER_SUB + 4
    case ReadingOp(_) => MAX_NUMBER_SUB + 5
  }

  /** A flagged session that is not wiped yet. */
  ghost predicate Doomed(s: State, i: nat) {
    Safe(s) && i < MAX_SESSION_COUNT && s.slots[i].active && s.slots[i].force
  }

  lemma OwnStepLeft(s: State, i: nat, w: WorkerStep)
    requires Doomed(s, i) && Enabled(s, W(i, w)) && !w.Wipe?
    ensures var slot, pc := s.slots[i], s.workers[i];
            && StepsLeft(WorkerSlot(slot, pc, w), WorkerPc(slot, pc, w)) < StepsLeft(slot, pc)
            && !WorkerPc(slot, pc, w).ReadingOp?
            && WorkerSlot(slot, pc, w).force
  {
    assert SlotOk(s.slots[i], s.workers[i]);
  }

  lemma OthersLeave(s: State, step: Step, i: nat)
    requires Doomed(s, i) && Enabled(s, step) && !(step.W? && step.i == i)
    ensures Shape(Apply(s, step))
    ensures Apply(s, step).slots[i].keys == s.slots[i].keys && Apply(s, step).slots[i].force
    ensures Apply(s, step).workers[i] == s.workers[i]
  {
  }

  lemma DoomedStep(s: State, step: Step, i: nat)
    requires Doomed(s, i) && Enabled(s, step) && step != W(i, Wipe)
    ensures Doomed(Apply(s, step), i)
    ensures var s' := Apply(s, step);
            var own := step.W? && step.i == i;
            && StepsLeft(s'.slots[i], s'.workers[i]) + (if own then 1 else 0) <= StepsLeft(s.slots[i], s.workers[i])
            && (s'.workers[i].ReadingOp? ==> s.workers[i].ReadingOp? && !own)
  {
    SafeStep(s, step);
    OnlyOwnerDeactivates(s, step, i);
    if step.W? && step.i == i {
      OwnStepLeft(s, i, step.w);
    } else {
      OthersLeave(s, step, i);
    }
  }

  /** No step from p to q wipes slot i. */
  ghost predicate NoWipe(steps: seq<Step>, p: nat, q: nat, i: nat)
    requires p <= q <= |steps|
  {
    forall k :: p <= k < q ==> steps[k] != W(i, Wipe)
  }

  ghost function NotWiping(i: nat): Step -> bool {
    step => step != W(i, Wipe)
  }

  lemma OneMoreStep(since: seq<Step>, step: Step, i: nat)
    ensures OwnSteps(since + [step], i) == OwnSteps(since, i) + if step.W? && step.i == i then 1 else 0
    ensures OpReads(since + [step], i) == OpReads(since, i) + if step.W? && step.i == i && step.w.GotOp? then 1 else 0
  {
    assert (since + [step])[..|since + [step]| - 1] == since;
  }

  /** A flagged session that had so many steps left at first. */
  ghost function Dooms(i: nat, left: int): (seq<Step>, State) -> bool {
    (since, s) =>
      && Doomed(s, i) && StepsLeft(s.slots[i], s.workers[i]) + OwnSteps(since, i) <= left
      && OpReads(since, i) + (if s.workers[i].ReadingOp? then 1 else 0) <= 1
  }

  lemma DoomKept(i: nat, left: int)
    ensures StepsKeep(Go, Dooms(i, left), NotWiping(i))
  {
    forall since, s, step | Dooms(i, left)(since, s) && NotWiping(i)(step) && Go(s, step).Some?
      ensures Dooms(i, left)(since + [step], Go(s, step).value)
    {
      DoomedStep(s, step, i);
      OneMoreStep(since, step, i);
      OnlyReadersRead(s, step, i);
    }
  }

  lemma OnlyReadersRead(s: State, step: Step, i: nat)
    requires Enabled(s, step)
    ensures step.W? && step.i == i && step.w.GotOp? ==> s.workers[i].ReadingOp?
  {
  }

  lemma DoomStarts(s: State, i: nat)
    requires Doomed(s, i)
    ensures Dooms(i, 15)([], s)
  {
    var keys: SlotKeys := s.slots[i].keys;
    assert keys.num <= MAX_NUMBER_SUB && OwnSteps([], i) == OpReads([], i) == 0;
  }

  /** A flagged session ends. Once the slot of an active session is flagged, in whatever run, its
      worker serves at most one more request, and its slot is wiped within 15 steps of its own. */
  lemma FlaggedSessionEnds(c: Config, steps: seq<Step>, p: nat, q: nat, i: nat)
    requires IsRun(c, steps) && p <= q <= |steps| && i < MAX_SESSION_COUNT && NoWipe(steps, p, q, i)
    requires IsRun(c, steps[..p]) && Shape(Final(c, steps[..p]))
    requires Final(c, steps[..p]).slots[i].active && Final(c, steps[..p]).slots[i].force
    ensures OwnSteps(steps[p..q], i) < 15 && OpReads(steps[p..q], i) <= 1
  {
    RunSafe(c, steps[..p]);
    DoomKept(i, 15);
    DoomStarts(Final(c, steps[..p]), i);
    KeptSince(Go, Start(c), steps, p, q, Dooms(i, 15), NotWiping(i));
    SomeStepsLeft(Final(c, steps[..q]), i);
  }

  lemma SomeStepsLeft(s: State, i: nat)
    requires Doomed(s, i)
    ensures StepsLeft(s.slots[i], s.workers[i]) > 0
  {
    assert SlotOk(s.slots[i], s.workers[i]);
  }

  /** A worker on its way out. */
  ghost predicate IsLeaving(s: State, i: nat) {
    SlotsOk(s) && i < MAX_SESSION_COUNT && (s.workers[i].Leaving? || s.workers[i].Removing?)
  }

  lemma LeavingStep(s: State, step: Step, i: nat)
    requires IsLeaving(s, i) && Enabled(s, step) && step != W(i, Wipe)
    ensures IsLeaving(Apply(s, step), i)
    ensures var s' := Apply(s, step);
            var own := step.W? && step.i == i;
            && StepsLeft(s'.slots[i], s'.workers[i]) + (if own then 1 else 0) == StepsLeft(s.slots[i], s.workers[i])
            && s'.slots[i].keys == s.slots[i].keys
            && (own ==> step.w.Begin? || step.w.RemoveOne?)
  {
    SlotsStep(s, step);
    assert SlotOk(s.slots[i], s.workers[i]);
    WorkersMoveAlone(s, step, i);
  }

  ghost function Leaves(i: nat, left: int): (seq<Step>, State) -> bool {
    (since, s) =>
      && IsLeaving(s, i) && StepsLeft(s.slots[i], s.workers[i]) + OwnSteps(since, i) == left
      && OpReads(since, i) == 0
  }

  lemma LeavingKept(i: nat, left: int)
    ensures StepsKeep(Go, Leaves(i, left), NotWiping(i))
  {
    forall since, s, step | Leaves(i, left)(since, s) && NotWiping(i)(step) && Go(s, step).Some?
      ensures Leaves(i, left)(since + [step], Go(s, step).value)
    {
      LeavingStep(s, step, i);
      OneMoreStep(since, step, i);
    }
  }

  lemma LeavingStarts(s: State, i: nat)
    requires IsLeaving(s, i) && Enabled(s, W(i, Begin))
    ensures Leaves(i, KeysLeft(s, i) + 2)([], s)
  {
    assert OwnSteps([], i) == OpReads([], i) == 0;
    assert StepsLeft(s.slots[i], s.workers[i]) == KeysLeft(s, i) + 2;
  }

  /** A worker is about to wipe its slot exactly when it has one step left. */
  lemma LastStepWipes(s: State, i: nat)
    requires IsLeaving(s, i)
    ensures Enabled(s, W(i, Wipe)) <==> StepsLeft(s.slots[i], s.workers[i]) == 1
    ensures StepsLeft(s.slots[i], s.workers[i]) >= 1
  {
  }

  /** How many keys a disconnect goes through. */
  ghost function KeysLeft(s: State, i: nat): nat
    requires Shape(s) && i < MAX_SESSION_COUNT
  {
    if s.slots[i].keys.num > 0 then s.slots[i].keys.num else 0
  }

  /** A session that quits ends. Behind such a step the worker reads nothing any more, and is about to
      wipe its slot exactly after one step to begin and one for each live key. */
  lemma QuitSessionEnds(c: Config, steps: seq<Step>, p: nat, q: nat, i: nat)
    requires IsRun(c, steps) && p < q <= |steps| && i < MAX_SESSION_COUNT && NoWipe(steps, p, q, i)
    requires IsRun(c, steps[..p + 1]) && steps[p].W? && steps[p].i == i
    requires Quits(LastOwn(c, steps[..p + 1], i).value)
    ensures Shape(Final(c, steps[..p + 1])) && IsRun(c, steps[..q])
    ensures var n := KeysLeft(Final(c, steps[..p + 1]), i) + 1;
            && OwnSteps(steps[p + 1..q], i) <= n
            && (OwnSteps(steps[p + 1..q], i) == n <==> Enabled(Final(c, steps[..q]), W(i, Wipe)))
            && OpReads(steps[p + 1..q], i) == 0
  {
    BeginsExactly(c, steps[..p + 1], i);
    RunSafe(c, steps[..p + 1]);
    var left := KeysLeft(Final(c, steps[..p + 1]), i) + 2;
    LeavingKept(i, left);
    LeavingStarts(Final(c, steps[..p + 1]), i);
    KeptSince(Go, Start(c), steps, p + 1, q, Leaves(i, left), NotWiping(i));
    LastStepWipes(Final(c, steps[..q]), i);
  }

  lemma LastOwnHere(c: Config, steps: seq<Step>, p: nat, i: nat)
    requires IsRun(c, steps) && p < |steps| && steps[p].W? && steps[p].i == i
    ensures IsRun(c, steps[..p + 1]) && LastOwn(c, steps[..p + 1], i).Some?
    ensures LastOwn(c, steps[..p + 1], i).value.w == steps[p].w
  {
    PrefixRuns(Go, Start(c), steps, p);
    assert steps[..p + 1][..p] == steps[..p];
  }

  lemma OneMoreRead(steps: seq<Step>, p: nat, q: nat, i: nat)
    requires p <= q < |steps| && steps[q].W? && steps[q].i == i && steps[q].w.GotOp?
    ensures OpReads(steps[p..q + 1], i) > 0
  {
    assert steps[p..q + 1] == steps[p..q] + [steps[q]];
    OneMoreStep(steps[p..q], steps[q], i);
  }

  /** Between a disconnect request and the next operation code its worker reads, the slot is wiped. */
  lemma DisconnectEnds(c: Config, steps: seq<Step>, p: nat, q: nat, i: nat)
    requires IsRun(c, steps) && p < q < |steps| && i < MAX_SESSION_COUNT
    requires steps[p] == W(i, GotOp(OpDisconnect)) && steps[q].W? && steps[q].i == i && steps[q].w.GotOp?
    ensures exists k :: p < k < q && steps[k] == W(i, Wipe)
  {
    if NoWipe(steps, p, q, i) {
      LastOwnHere(c, steps, p, i);
      OneMoreRead(steps, p + 1, q, i);
      QuitSessionEnds(c, steps, p, q + 1, i);
    }
  }

  // ---- The key list is that of the requests ----

  /** The requests of the client in slot i since its activation, by the operation code read before. */
  ghost function RequestsOf(c: Config, steps: seq<Step>, i: nat): seq<Request>
    requires IsRun(c, steps)
  {
    if steps == [] then []
    else
      var before, step := steps[..|steps| - 1], steps[|steps| - 1];
      var last := LastOwn(c, before, i);
      if Activates(Final(c, before), step) && Final(c, before).activators[step.a].i == i then []
      else if step.W? && step.i == i && step.w.GotKey? && step.w.read.KeyIs? && last.Some? then
        RequestsOf(c, before, i) + [Requested(last.value.w, step.w.read)]
      else RequestsOf(c, before, i)
  }

  ghost function Requested(op: WorkerStep, read: KeyRead): Request
    requires read.KeyIs?
  {
    if op == GotOp(OpSubscribe) then Sub(read.key, read.exists_) else Unsub(read.key)
  }

  lemma OneMoreRequest(requests: seq<Request>, r: Request)
    requires ListSession(requests).0.InRange()
    ensures ListSession(requests + [r]).0 == Serve(ListSession(requests).0, r).0
    ensures SetSession(requests + [r]).0 == SetServe(SetSession(requests).0, r).0
  {
    assert (requests + [r])[..|requests + [r]| - 1] == requests;
  }

  /** The slot holds the list, and thereby the set, of these requests. */
  ghost predicate ListIs(slot: Slot, requests: seq<Request>) {
    && slot.keys == ListSession(requests).0 && slot.keys.Ok()
    && Keys.KeySet(slot.keys) == SetSession(requests).0
  }

  lemma OpDecides(last: Taken, removals: nat, pc: Worker)
    requires StandsBehind(last, removals, pc) && pc.ReadingKey?
    ensures pc.sub <==> last.w == GotOp(OpSubscribe)
  {
  }

  lemma RequestServed(s: State, i: nat, read: KeyRead, requests: seq<Request>, last: Taken, removals: nat)
    requires Shape(s) && Enabled(s, W(i, GotKey(read))) && read.KeyIs? && FreshStep(s, W(i, GotKey(read)))
    requires ListIs(s.slots[i], requests) && StandsBehind(last, removals, s.workers[i])
    ensures ListIs(Apply(s, W(i, GotKey(read))).slots[i], requests + [Requested(last.w, read)])
  {
    var l, r := s.slots[i].keys, Requested(last.w, read);
    OneMoreRequest(requests, r);
    OpDecides(last, removals, s.workers[i]);
    assert Handle(s.slots[i], s.workers[i], read) == Serve(l, r);
    ServeRefinesSet(l, r);
  }

  /** What else happens to a key list: nothing, and none is there when a client arrives. */
  lemma OtherListSteps(s: State, step: Step, i: nat)
    requires SlotsOk(s) && Enabled(s, step) && i < MAX_SESSION_COUNT
    requires !(step.W? && step.i == i && step.w.GotKey? && step.w.read.KeyIs?)
    ensures Shape(Apply(s, step))
    ensures Apply(s, step).slots[i].active ==>
      if s.slots[i].active then Apply(s, step).slots[i].keys == s.slots[i].keys
      else Apply(s, step).slots[i].keys == NO_KEYS && Activates(s, step) && s.activators[step.a].i == i
  {
    assert SlotOk(s.slots[i], s.workers[i]);
  }

  lemma NoRequests(slot: Slot)
    requires slot.keys == NO_KEYS
    ensures ListIs(slot, [])
  {
    assert Keys.KeySet(NO_KEYS) == {};
  }

  lemma ActivatesInactive(s: State, step: Step)
    requires Enabled(s, step) && Activates(s, step)
    ensures s.activators[step.a].i < MAX_SESSION_COUNT && !s.slots[s.activators[step.a].i].active
  {
  }

  /** In every run with fresh naming the key list of a served slot is what the requests of its client
      make of an empty one, and as a set it is what the client thinks. */
  lemma {:induction false} ListIsItsRequests(c: Config, steps: seq<Step>, i: nat)
    requires IsRun(c, steps) && IsFreshRun(c, steps) && i < MAX_SESSION_COUNT
    ensures Shape(Final(c, steps))
    ensures Final(c, steps).slots[i].active ==> ListIs(Final(c, steps).slots[i], RequestsOf(c, steps, i))
  {
    if steps != [] {
      var before, step := steps[..|steps| - 1], steps[|steps| - 1];
      ListIsItsRequests(c, before, i);
      RunSafe(c, before);
      var s := Final(c, before);
      if step.W? && step.i == i && step.w.GotKey? && step.w.read.KeyIs? {
        assert SlotOk(s.slots[i], s.workers[i]);
        PlaceIsLastStep(c, before, i);
        RequestServed(s, i, step.w.read, RequestsOf(c, before, i), LastOwn(c, before, i).value, Removals(before, i));
      } else {
        OtherListSteps(s, step, i);
        if Activates(s, step) && s.activators[step.a].i == i {
          ActivatesInactive(s, step);
          if Apply(s, step).slots[i].active {
            NoRequests(Apply(s, step).slots[i]);
          }
        }
      }
    }
  }

  /** In no session does a request name the empty key or one that the client has unsubscribed. */
  ghost predicate NeverRenaming(c: Config, steps: seq<Step>)
    requires IsRun(c, steps)
  {
    && (forall i :: 0 <= i < MAX_SESSION_COUNT ==> NeverRenames(RequestsOf(c, steps, i)))
    && (steps != [] ==> NeverRenaming(c, steps[..|steps| - 1]))
  }

  lemma LastIsFresh(requests: seq<Request>, r: Request)
    requires NeverRenames(requests) && NeverRenames(requests + [r])
    ensures ListSession(requests).0.Ok() && FreshName(ListSession(requests).0, r.key)
  {
    SessionRefinesSet(requests);
    var n := |requests|;
    assert (requests + [r])[n] == r && (requests + [r])[..n] == requests;
    NotRetiredIsFresh(ListSession(requests).0, SetSession(requests).1, r.key);
  }

  lemma RequestIsLast(c: Config, steps: seq<Step>, read: KeyRead, i: nat)
    requires IsRun(c, steps) && steps != [] && steps[|steps| - 1] == W(i, GotKey(read)) && read.KeyIs?
    requires i < MAX_SESSION_COUNT
    ensures var before := steps[..|steps| - 1];
            && IsRun(c, before) && LastOwn(c, before, i).Some?
            && Shape(Final(c, before)) && Final(c, before).slots[i].active
            && RequestsOf(c, steps, i) == RequestsOf(c, before, i) + [Requested(LastOwn(c, before, i).value.w, read)]
  {
    var before := steps[..|steps| - 1];
    RunSafe(c, before);
    assert SlotOk(Final(c, before).slots[i], Final(c, before).workers[i]);
    PlaceIsLastStep(c, before, i);
  }

  /** So fresh naming is something the clients can ensure, each for itself: it is enough that none
      names a key again that it has unsubscribed. */
  lemma {:induction false} NeverRenamingIsFresh(c: Config, steps: seq<Step>)
    requires IsRun(c, steps) && NeverRenaming(c, steps)
    ensures IsFreshRun(c, steps)
  {
    if steps != [] {
      var before, step := steps[..|steps| - 1], steps[|steps| - 1];
      NeverRenamingIsFresh(c, before);
      if step.W? && step.w.GotKey? && step.w.read.KeyIs? {
        var i := step.i;
        RequestIsLast(c, steps, step.w.read, i);
        ListIsItsRequests(c, before, i);
        LastIsFresh(RequestsOf(c, before, i), Requested(LastOwn(c, before, i).value.w, step.w.read));
      }
    }
  }

  // ---- Whose client a slot serves ----

  /** The descriptors that an activator has opened last. */
  ghost function Opened(steps: seq<Step>, a: nat): Option<Fds> {
    if steps == [] then None
    else
      var step := steps[|steps| - 1];
      if step.A? && step.a == a && step.act.Open? then Some(step.act.fds) else Opened(steps[..|steps| - 1], a)
  }

  lemma {:induction false} HoldsOpened(c: Config, steps: seq<Step>, a: nat)
    requires IsRun(c, steps) && a < |Final(c, steps).activators|
    ensures var act := Final(c, steps).activators[a];
            act.Waiting? || act.Permitted? || act.Scanning? ==> Opened(steps, a) == Some(act.fds)
  {
    if steps != [] {
      var before := steps[..|steps| - 1];
      RunSafe(c, before);
      ActivatorsMoveAlone(Final(c, before), steps[|steps| - 1], a);
      HoldsOpened(c, before, a);
    }
  }

  /** A slot that becomes active serves the client whose pipes its activator has opened last. */
  lemma ServesTheClient(c: Config, steps: seq<Step>, step: Step)
    requires IsRun(c, steps) && Enabled(Final(c, steps), step) && Activates(Final(c, steps), step)
    ensures var s := Final(c, steps);
            var i := s.activators[step.a].i;
            && Shape(Apply(s, step)) && i < MAX_SESSION_COUNT
            && Apply(s, step).slots[i].active && Opened(steps, step.a) == Some(Apply(s, step).slots[i].fds)
  {
    HoldsOpened(c, steps, step.a);
  }
}

/** The sessions of the server (src/server/client.c): eight slots with one worker thread each,
    activators that bring new clients in, signal handlers that throw everybody out, and job
    threads that notify subscribers. Every thread moves one step at a time, in any interleaving.

    A critical section that touches one slot is one step. The worker that disconnects its client
    keeps the slot's mutex over several steps (Removing, Posting); nobody else enters the slot
    meanwhile. The list mutex has an owner. */
module Slots {
  import opened Constants
  import opened KvsBuckets
  import opened Paths
  import opened KeyHash
  import opened KeyList
  import opened FdIndex
  import opened Formatting

  datatype Fds = Fds(request: int, response: int, notif: int)

  const NO_FDS := Fds(-1, -1, -1)

  /** ClientData. open says that the pipes are not closed yet; stream is what was written to the
      notification pipe since the activation. */
  datatype Slot = Slot(active: bool, force: bool, fds: Fds, keys: SlotKeys, open: bool, stream: seq<Event>)

  const IDLE_SLOT := Slot(false, false, NO_FDS, NO_KEYS, false, [])

  /** Where a worker stands in client_thread; req is request_copy. */
  datatype Worker =
    | Top
    | Greeting
    | Looping(req: int)
    | ReadingOp(req: int)
    | ReadingKey(req: int, sub: bool)
    | Leaving
    | Removing(done: nat)
    | Posting

  datatype OpRead = OpLost | OpFailed | OpDisconnect | OpSubscribe | OpUnsubscribe | OpOther

  /** OpLost is an interrupted read or an end of file; after a failed read of the key the old
      buffer is used, which is some key too. */
  datatype KeyRead = KeyLost | KeyIs(key: Key, exists_: bool)

  datatype WorkerStep =
    | Wake              // the head of the outer loop
    | Greet(ok: bool)   // the OK response and request_copy
    | CheckForce        // the head of the inner loop
    | GotOp(op: OpRead)
    | GotKey(read: KeyRead)
    | Begin             // disconnect_client takes the mutex and closes the pipes
    | RemoveOne         // one remove_key
    | Wipe              // the slot is cleared
    | Post              // sem_post, and the mutex is released

  datatype Activator =
    | Out
    | Waiting(fds: Fds)
    | Permitted(fds: Fds)
    | Scanning(fds: Fds, i: nat)
    | Releasing
    | Failed

  datatype ActStep = Open(fds: Fds) | TakePermit | LockList | Scan | GiveUp | Release

  datatype Handler = Off | Flagging(i: nat, waiting: int) | Sweeping(i: nat, waiting: int) | Finishing

  datatype HandlerStep = Enter | Flag | Sweep | NextRound | Leave

  datatype Owner = Free | ByActivator(a: nat) | ByHandler(d: nat)

  datatype State = State(
    sem: int,
    listc: Owner,
    slots: seq<Slot>,
    workers: seq<Worker>,
    activators: seq<Activator>,
    handlers: seq<Handler>,
    index: seq<Bucket>,
    dropped: bool,      // some add_key has met a full bucket
    log: seq<Event>)    // all notifications, in order

  datatype Step = W(i: nat, w: WorkerStep) | A(a: nat, act: ActStep) | H(d: nat, h: HandlerStep) | Notify(e: Event)

  ghost predicate Shape(s: State) {
    |s.slots| == |s.workers| == MAX_SESSION_COUNT && |s.index| == MAX_KEYS_COUNT
  }

  // ---- Workers ----

  ghost predicate WorkerEnabled(slot: Slot, pc: Worker, w: WorkerStep) {
    match w
    case Wake => pc.Top? && slot.active
    case Greet(_) => pc.Greeting?
    case CheckForce => pc.Looping?
    case GotOp(_) => pc.ReadingOp?
    case GotKey(read) => pc.ReadingKey? && (pc.sub ==> slot.keys.num >= 0)
    case Begin => pc.Leaving?
    case RemoveOne => pc.Removing? && pc.done < slot.keys.num
    case Wipe => pc.Removing? && pc.done >= slot.keys.num
    case Post => pc.Posting?
  }

  ghost function WorkerPc(slot: Slot, pc: Worker, w: WorkerStep): Worker
    requires WorkerEnabled(slot, pc, w)
  {
    match w
    case Wake => if slot.force then Leaving else Greeting
    case Greet(ok) => if ok then Looping(slot.fds.request) else Leaving
    case CheckForce => if slot.force then Leaving else ReadingOp(pc.req)
    case GotOp(OpLost) => if pc.req == slot.fds.request then Leaving else Top
    case GotOp(OpDisconnect) => Leaving
    case GotOp(OpSubscribe) => ReadingKey(pc.req, true)
    case GotOp(OpUnsubscribe) => ReadingKey(pc.req, false)
    case GotOp(_) => Looping(pc.req)
    case GotKey(KeyLost) => Leaving
    case GotKey(_) => Looping(pc.req)
    case Begin => Removing(0)
    case RemoveOne => Removing(pc.done + 1)
    case Wipe => Posting
    case Post => Top
  }

  /** The list part of a request. */
  ghost function Handle(slot: Slot, pc: Worker, read: KeyRead): (SlotKeys, Reply)
    requires WorkerEnabled(slot, pc, GotKey(read)) && read.KeyIs?
  {
    if pc.sub then Subscribe(slot.keys, read.key, read.exists_) else Unsubscribe(slot.keys, read.key)
  }

  ghost function WorkerSlot(slot: Slot, pc: Worker, w: WorkerStep): Slot
    requires WorkerEnabled(slot, pc, w)
  {
    match w
    case GotKey(read) => if read.KeyIs? then slot.(keys := Handle(slot, pc, read).0) else slot
    case Begin => slot.(open := false)
    case Wipe => slot.(active := false, fds := NO_FDS, keys := NO_KEYS)
    case _ => slot
  }

  datatype IndexOp = Keep | AddEntry(key: string) | RemoveEntry(key: string)

  /** What a granted request does to the index. */
  function RequestOp(sub: bool, key: Key, r: Reply): IndexOp {
    if r == Refused then Keep else if sub then AddEntry(key) else RemoveEntry(key)
  }

  ghost function WorkerIndex(slot: Slot, pc: Worker, w: WorkerStep): IndexOp
    requires WorkerEnabled(slot, pc, w)
  {
    match w
    case GotKey(read) => if read.KeyLost? then Keep else RequestOp(pc.sub, read.key, Handle(slot, pc, read).1)
    case RemoveOne => RemoveEntry(slot.keys.slots[pc.done])
    case _ => Keep
  }

  ghost function OnIndex(index: seq<Bucket>, op: IndexOp, fd: int): (r: seq<Bucket>)
    requires |index| == MAX_KEYS_COUNT
    ensures |r| == MAX_KEYS_COUNT
  {
    match op
    case Keep => index
    case AddEntry(key) => index[Chash(key) := AddFd(index[Chash(key)], fd)]
    case RemoveEntry(key) => index[Chash(key) := RemoveFd(index[Chash(key)], fd)]
  }

  ghost predicate MeetsFull(index: seq<Bucket>, op: IndexOp)
    requires |index| == MAX_KEYS_COUNT
  {
    op.AddEntry? && |index[Chash(op.key)]| >= MAX_SESSION_COUNT
  }

  ghost function ApplyWorker(s: State, i: nat, w: WorkerStep): State
    requires Shape(s) && i < MAX_SESSION_COUNT && WorkerEnabled(s.slots[i], s.workers[i], w)
  {
    var slot, pc := s.slots[i], s.workers[i];
    var op := WorkerIndex(slot, pc, w);
    s.(slots := s.slots[i := WorkerSlot(slot, pc, w)],
       workers := s.workers[i := WorkerPc(slot, pc, w)],
       sem := if w.Post? then s.sem + 1 else s.sem,
       index := OnIndex(s.index, op, slot.fds.notif),
       dropped := s.dropped || MeetsFull(s.index, op))
  }

  /** The worker holds the mutex of its slot between steps. */
  ghost predicate Busy(pc: Worker) {
    pc.Removing? || pc.Posting?
  }

  // ---- Activators: activate_client ----

  ghost predicate ActEnabled(s: State, a: nat, act: ActStep)
    requires Shape(s) && a < |s.activators|
  {
    var pc := s.activators[a];
    match act
    case Open(fds) => (pc.Out? || pc.Failed?) && fds.request >= 0 && fds.response >= 0 && fds.notif >= 0
    case TakePermit => pc.Waiting? && s.sem > 0
    case LockList => pc.Permitted? && s.listc == Free
    case Scan => pc.Scanning? && pc.i < MAX_SESSION_COUNT && !Busy(s.workers[pc.i])
    case GiveUp => pc.Scanning? && pc.i >= MAX_SESSION_COUNT
    case Release => pc.Releasing?
  }

  /** The scan has found an inactive slot. */
  ghost predicate Activates(s: State, step: Step)
    requires Enabled(s, step)
  {
    step.A? && step.act.Scan? && !s.slots[s.activators[step.a].i].active
  }

  ghost function ApplyActivator(s: State, a: nat, act: ActStep): State
    requires Shape(s) && a < |s.activators| && ActEnabled(s, a, act)
  {
    var pc := s.activators[a];
    match act
    case Open(fds) => s.(activators := s.activators[a := Waiting(fds)])
    case TakePermit => s.(sem := s.sem - 1, activators := s.activators[a := Permitted(pc.fds)])
    case LockList => s.(listc := ByActivator(a), activators := s.activators[a := Scanning(pc.fds, 0)])
    case Scan =>
      if s.slots[pc.i].active then s.(activators := s.activators[a := Scanning(pc.fds, pc.i + 1)])
      else s.(slots := s.slots[pc.i := s.slots[pc.i].(active := true, fds := pc.fds, open := true, stream := [])],
              activators := s.activators[a := Releasing])
    case GiveUp => s.(listc := Free, activators := s.activators[a := Failed])
    case Release => s.(listc := Free, activators := s.activators[a := Out])
  }

  // ---- Signal handlers: disconnect_all_clients ----

  ghost predicate HandlerEnabled(s: State, d: nat, h: HandlerStep)
    requires Shape(s) && d < |s.handlers|
  {
    var pc := s.handlers[d];
    match h
    case Enter => pc.Off? && s.listc == Free
    case Flag => pc.Flagging? && pc.i < MAX_SESSION_COUNT && !Busy(s.workers[pc.i])
    case Sweep => pc.Sweeping? && pc.i < MAX_SESSION_COUNT && !Busy(s.workers[pc.i])
    case NextRound => (pc.Flagging? || pc.Sweeping?) && pc.i >= MAX_SESSION_COUNT
    case Leave => pc.Finishing?
  }

  ghost function ApplyHandler(s: State, d: nat, h: HandlerStep): State
    requires Shape(s) && d < |s.handlers| && HandlerEnabled(s, d, h)
  {
    var pc := s.handlers[d];
    match h
    case Enter => s.(listc := ByHandler(d), handlers := s.handlers[d := Flagging(0, 0)])
    case Flag =>
      var slot := s.slots[pc.i];
      s.(slots := s.slots[pc.i := if slot.active then slot.(force := true) else slot],
         handlers := s.handlers[d := Flagging(pc.i + 1, if slot.active then pc.waiting + 1 else pc.waiting)])
    case Sweep =>
      var slot := s.slots[pc.i];
      var back := slot.force && !slot.active;
      s.(slots := s.slots[pc.i := if back then slot.(force := false) else slot],
         handlers := s.handlers[d := Sweeping(pc.i + 1, if back then pc.waiting - 1 else pc.waiting)])
    case NextRound => s.(handlers := s.handlers[d := if pc.waiting > 0 then Sweeping(0, pc.waiting) else Finishing])
    case Leave => s.(listc := Free, handlers := s.handlers[d := Off])
  }

  // ---- Notifications: notify_clients, with get_fds and the writes as one step ----

  function Repeat(e: Event, n: nat): (r: seq<Event>)
    ensures |r| == n
  {
    if n == 0 then [] else Repeat(e, n - 1) + [e]
  }

  /** Each entry of the bucket is one frame on the pipe with that descriptor, if still open. */
  ghost function Receive(slot: Slot, bucket: Bucket, e: Event): Slot {
    if slot.open then slot.(stream := slot.stream + Repeat(e, multiset(bucket)[slot.fds.notif])) else slot
  }

  ghost function ApplyNotify(s: State, e: Event): State
    requires Shape(s)
  {
    s.(slots := seq(MAX_SESSION_COUNT, i requires 0 <= i < MAX_SESSION_COUNT =>
                    Receive(s.slots[i], s.index[Chash(e.key)], e)),
       log := s.log + [e])
  }

  // ---- Runs ----

  ghost predicate Enabled(s: State, step: Step) {
    && Shape(s)
    && match step
       case W(i, w) => i < MAX_SESSION_COUNT && WorkerEnabled(s.slots[i], s.workers[i], w)
       case A(a, act) => a < |s.activators| && ActEnabled(s, a, act)
       case H(d, h) => d < |s.handlers| && HandlerEnabled(s, d, h)
       case Notify(_) => true
  }

  ghost function Apply(s: State, step: Step): State
    requires Enabled(s, step)
  {
    match step
    case W(i, w) => ApplyWorker(s, i, w)
    case A(a, act) => ApplyActivator(s, a, act)
    case H(d, h) => ApplyHandler(s, d, h)
    case Notify(e) => ApplyNotify(s, e)
  }

  /** Any number of activators and signal handlers; the program has one activator. */
  datatype Config = Config(activators: nat, handlers: nat)

  ghost function Start(c: Config): State {
    State(MAX_SESSION_COUNT, Free, seq(MAX_SESSION_COUNT, _ => IDLE_SLOT), seq(MAX_SESSION_COUNT, _ => Top),
          seq(c.activators, _ => Out), seq(c.handlers, _ => Off), seq(MAX_KEYS_COUNT, _ => []), false, [])
  }

  ghost function Go(s: State, step: Step): Option<State> {
    if Enabled(s, step) then Some(Apply(s, step)) else None
  }

  /** The state after a sequence of steps, if each of them was enabled in its turn. */
  ghost function Exec(c: Config, steps: seq<Step>): Option<State> {
    RunFrom(Go, Start(c), steps)
  }

  ghost predicate IsRun(c: Config, steps: seq<Step>) {
    Exec(c, steps).Some?
  }

  ghost function Final(c: Config, steps: seq<Step>): State
    requires IsRun(c, steps)
  {
    Exec(c, steps).value
  }
}

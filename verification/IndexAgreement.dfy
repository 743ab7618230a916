/** The notification index agrees with the key lists in every run with fresh naming, also inside
    a disconnect that has removed only some of its entries. */
module IndexAgreement {
  import opened Constants
  import opened KeyHash
  import opened KeyList
  import opened FdIndex
  import opened Bags
  import opened Slots
  import opened SlotSafety

  // ---- Fresh naming ----

  /** A request names a key that is not empty and not stale (see KeyList.FreshName). */
  ghost predicate FreshStep(s: State, step: Step)
    requires Enabled(s, step)
  {
    step.W? && step.w.GotKey? && step.w.read.KeyIs? ==>
      s.slots[step.i].keys.InRange() && FreshName(s.slots[step.i].keys, step.w.read.key)
  }

  ghost predicate IsFreshRun(c: Config, steps: seq<Step>)
    requires IsRun(c, steps)
  {
    steps == [] ||
    (IsFreshRun(c, steps[..|steps| - 1]) && FreshStep(Final(c, steps[..|steps| - 1]), steps[|steps| - 1]))
  }

  // ---- What the index should hold ----

  /** How many keys of a list hash to a bucket. */
  ghost function Hits(keys: seq<Key>, b: nat): nat {
    if keys == [] then 0 else Hits(keys[..|keys| - 1], b) + if Chash(keys[|keys| - 1]) == b then 1 else 0
  }

  ghost function DoneOf(pc: Worker): nat {
    if pc.Removing? then pc.done else 0
  }

  /** The live keys whose index entry is not yet removed. */
  ghost function Indexed(slot: Slot, pc: Worker): seq<Key> {
    if DoneOf(pc) <= slot.keys.num then slot.keys.slots[DoneOf(pc)..slot.keys.num] else []
  }

  ghost function Entries(slot: Slot, pc: Worker, b: nat): Bag {
    Copies(slot.fds.notif, Hits(Indexed(slot, pc), b))
  }

  ghost function AllEntries(slots: seq<Slot>, workers: seq<Worker>, b: nat): seq<Bag>
    requires |slots| == |workers|
  {
    seq(|slots|, i requires 0 <= i < |slots| => Entries(slots[i], workers[i], b))
  }

  /** The descriptor of every session, once for each indexed key that hashes to the bucket. */
  ghost function Expected(slots: seq<Slot>, workers: seq<Worker>, b: nat): Bag
    requires |slots| == |workers|
  {
    Sum(AllEntries(slots, workers, b))
  }

  ghost predicate KeysOk(slot: Slot, pc: Worker) {
    slot.keys.Ok() && DoneOf(pc) <= slot.keys.num
  }

  ghost predicate AllKeysOk(s: State) {
    Shape(s) && forall i :: 0 <= i < MAX_SESSION_COUNT ==> KeysOk(s.slots[i], s.workers[i])
  }

  ghost predicate BucketAgrees(s: State, b: nat)
    requires Shape(s) && b < MAX_KEYS_COUNT
  {
    var expected := Expected(s.slots, s.workers, b);
    && |s.index[b]| <= MAX_SESSION_COUNT
    && multiset(s.index[b]) <= expected
    && (!s.dropped ==> multiset(s.index[b]) == expected)
  }

  ghost predicate Agrees(s: State) {
    Shape(s) && forall b :: 0 <= b < MAX_KEYS_COUNT ==> BucketAgrees(s, b)
  }

  // ---- Counting lemmas ----

  lemma {:induction false} HitsConcat(a: seq<Key>, c: seq<Key>, b: nat)
    ensures Hits(a + c, b) == Hits(a, b) + Hits(c, b)
  {
    if c == [] {
      assert a + c == a;
    } else {
      var n := |c| - 1;
      assert (a + c)[..|a + c| - 1] == a + c[..n];
      HitsConcat(a, c[..n], b);
    }
  }

  lemma HitsOne(key: Key, b: nat)
    ensures Hits([key], b) == if Chash(key) == b then 1 else 0
  {
    assert [key][..0] == [];
  }

  lemma HitsSplit(keys: seq<Key>, i: nat, b: nat)
    requires i < |keys|
    ensures Hits(keys, b) == Hits(keys[..i] + keys[i + 1..], b) + if Chash(keys[i]) == b then 1 else 0
  {
    assert keys == keys[..i] + [keys[i]] + keys[i + 1..];
    HitsConcat(keys[..i] + [keys[i]], keys[i + 1..], b);
    HitsConcat(keys[..i], [keys[i]], b);
    HitsConcat(keys[..i], keys[i + 1..], b);
    HitsOne(keys[i], b);
  }

  lemma HitsHead(keys: seq<Key>, d: nat, n: nat, b: nat)
    requires d < n <= |keys|
    ensures Hits(keys[d..n], b) == Hits(keys[d + 1..n], b) + if Chash(keys[d]) == b then 1 else 0
  {
    HitsSplit(keys[d..n], 0, b);
    assert keys[d..n][..0] + keys[d..n][1..] == keys[d + 1..n];
  }

  // ---- Steps ----

  /** The entries that an operation on the index concerns. */
  ghost function OpEntry(op: IndexOp, fd: int, b: nat): Bag {
    match op
    case Keep => multiset{}
    case AddEntry(key) => if Chash(key) == b then multiset{fd} else multiset{}
    case RemoveEntry(key) => if Chash(key) == b then multiset{fd} else multiset{}
  }

  ghost predicate WorkerFresh(slot: Slot, w: WorkerStep) {
    w.GotKey? && w.read.KeyIs? ==> slot.keys.InRange() && FreshName(slot.keys, w.read.key)
  }

  lemma LiveThenKey(l: SlotKeys, key: Key)
    requires l.InRange() && l.num < MAX_NUMBER_SUB
    ensures KeyList(l.slots[l.num := key], l.num + 1).Live() == l.Live() + [key]
  {
  }

  lemma HitsThenKey(keys: seq<Key>, key: Key, b: nat)
    ensures Hits(keys + [key], b) == Hits(keys, b) + if Chash(key) == b then 1 else 0
  {
    HitsConcat(keys, [key], b);
    HitsOne(key, b);
  }

  /** A new key goes behind the live ones. */
  lemma SubscribeHits(l: SlotKeys, key: Key, exists_: bool, b: nat)
    requires l.Ok() && FreshName(l, key)
    ensures var (l', r) := Subscribe(l, key, exists_);
            l'.Ok() && Hits(l'.Live(), b) == Hits(l.Live(), b) + if r == Done && Chash(key) == b then 1 else 0
  {
    ServeRefinesSet(l, Sub(key, exists_));
    var (l', r) := Subscribe(l, key, exists_);
    if r == Done {
      LiveThenKey(l, key);
      HitsThenKey(l.Live(), key, b);
    }
  }

  /** A key leaves from among the live ones. */
  lemma UnsubscribeHits(l: SlotKeys, key: Key, b: nat)
    requires l.Ok() && FreshName(l, key)
    ensures var (l', r) := Unsubscribe(l, key);
            l'.Ok() && Hits(l.Live(), b) == Hits(l'.Live(), b) + if r == Done && Chash(key) == b then 1 else 0
  {
    ServeRefinesSet(l, Unsub(key));
    LookupExact(l, key);
    var (l', r) := Unsubscribe(l, key);
    if r == Done {
      var i := IndexIn(l.slots, key);
      assert l'.Live() == l.Live()[..i] + l.Live()[i + 1..];
      HitsSplit(l.Live(), i, b);
    }
  }

  lemma RequestStep(slot: Slot, pc: Worker, read: KeyRead, b: nat)
    requires KeysOk(slot, pc) && WorkerEnabled(slot, pc, GotKey(read)) && read.KeyIs? && FreshName(slot.keys, read.key)
    ensures var (l, r) := Handle(slot, pc, read);
            && l.Ok()
            && (r == Refused ==> l == slot.keys)
            && (r == Done && pc.sub ==>
                  Hits(l.Live(), b) == Hits(slot.keys.Live(), b) + if Chash(read.key) == b then 1 else 0)
            && (r == Done && !pc.sub ==>
                  Hits(slot.keys.Live(), b) == Hits(l.Live(), b) + if Chash(read.key) == b then 1 else 0)
  {
    if pc.sub {
      SubscribeHits(slot.keys, read.key, read.exists_, b);
    } else {
      UnsubscribeHits(slot.keys, read.key, b);
    }
  }

  /** How a worker's step changes the indexed keys of its slot in a bucket. */
  ghost predicate HitsMove(slot: Slot, pc: Worker, slot': Slot, pc': Worker, op: IndexOp, b: nat) {
    && KeysOk(slot', pc')
    && Hits(Indexed(slot', pc'), b) + (if op.RemoveEntry? && Chash(op.key) == b then 1 else 0) ==
       Hits(Indexed(slot, pc), b) + (if op.AddEntry? && Chash(op.key) == b then 1 else 0)
    && (slot'.fds == slot.fds || (Indexed(slot', pc') == Indexed(slot, pc) == [] && op.Keep?))
  }

  lemma RequestHits(slot: Slot, pc: Worker, read: KeyRead, b: nat)
    requires SlotOk(slot, pc) && KeysOk(slot, pc) && WorkerEnabled(slot, pc, GotKey(read))
    requires WorkerFresh(slot, GotKey(read)) && read.KeyIs?
    ensures var w := GotKey(read);
            HitsMove(slot, pc, WorkerSlot(slot, pc, w), WorkerPc(slot, pc, w), WorkerIndex(slot, pc, w), b)
  {
    RequestStep(slot, pc, read, b);
    assert Indexed(slot, pc) == slot.keys.Live();
    assert Indexed(slot.(keys := Handle(slot, pc, read).0), Looping(pc.req)) == Handle(slot, pc, read).0.Live();
  }

  lemma RemovalHits(slot: Slot, pc: Worker, b: nat)
    requires KeysOk(slot, pc) && WorkerEnabled(slot, pc, RemoveOne)
    ensures HitsMove(slot, pc, slot, Removing(pc.done + 1), RemoveEntry(slot.keys.slots[pc.done]), b)
  {
    HitsHead(slot.keys.slots, pc.done, slot.keys.num, b);
  }

  lemma HitsStep(slot: Slot, pc: Worker, w: WorkerStep, b: nat)
    requires SlotOk(slot, pc) && KeysOk(slot, pc) && WorkerEnabled(slot, pc, w) && WorkerFresh(slot, w)
    ensures HitsMove(slot, pc, WorkerSlot(slot, pc, w), WorkerPc(slot, pc, w), WorkerIndex(slot, pc, w), b)
  {
    if w.GotKey? && w.read.KeyIs? {
      RequestHits(slot, pc, w.read, b);
    } else if w.RemoveOne? {
      RemovalHits(slot, pc, b);
    }
  }

  lemma CopiesMove(fd: int, fd': int, n: nat, n': nat, add: bool, remove: bool)
    requires n' + (if remove then 1 else 0) == n + (if add then 1 else 0)
    requires fd' == fd || (n == n' == 0 && !add && !remove)
    ensures Copies(fd', n') + (if remove then multiset{fd} else multiset{}) ==
            Copies(fd, n) + (if add then multiset{fd} else multiset{})
  {
  }

  /** A worker's step moves the expected entries of its slot as it moves the index. */
  lemma EntriesStep(slot: Slot, pc: Worker, w: WorkerStep, b: nat)
    requires SlotOk(slot, pc) && KeysOk(slot, pc) && WorkerEnabled(slot, pc, w) && WorkerFresh(slot, w)
    ensures var op := WorkerIndex(slot, pc, w);
            var moved := OpEntry(op, slot.fds.notif, b);
            && Entries(WorkerSlot(slot, pc, w), WorkerPc(slot, pc, w), b) +
               (if op.RemoveEntry? then moved else multiset{}) ==
               Entries(slot, pc, b) + (if op.AddEntry? then moved else multiset{})
  {
    HitsStep(slot, pc, w, b);
    var slot', pc', op := WorkerSlot(slot, pc, w), WorkerPc(slot, pc, w), WorkerIndex(slot, pc, w);
    CopiesMove(slot.fds.notif, slot'.fds.notif, Hits(Indexed(slot, pc), b), Hits(Indexed(slot', pc'), b),
               op.AddEntry? && Chash(op.key) == b, op.RemoveEntry? && Chash(op.key) == b);
  }

  lemma EntriesUpdate(slots: seq<Slot>, workers: seq<Worker>, i: nat, slot: Slot, pc: Worker, b: nat)
    requires i < |slots| == |workers|
    ensures AllEntries(slots[i := slot], workers[i := pc], b) ==
            AllEntries(slots, workers, b)[i := Entries(slot, pc, b)]
    ensures Expected(slots[i := slot], workers[i := pc], b) + Entries(slots[i], workers[i], b) ==
            Expected(slots, workers, b) + Entries(slot, pc, b)
  {
    var all, all' := AllEntries(slots, workers, b), AllEntries(slots[i := slot], workers[i := pc], b);
    assert all' == all[i := Entries(slot, pc, b)];
    SumUpdate(all, i, Entries(slot, pc, b));
  }

  lemma BucketStep(index: seq<Bucket>, op: IndexOp, fd: int, b: nat)
    requires |index| == MAX_KEYS_COUNT && b < MAX_KEYS_COUNT && |index[b]| <= MAX_SESSION_COUNT
    ensures var old_, new_, moved := multiset(index[b]), multiset(OnIndex(index, op, fd)[b]), OpEntry(op, fd, b);
            && |OnIndex(index, op, fd)[b]| <= MAX_SESSION_COUNT
            && (op.RemoveEntry? ==> new_ == old_ - moved)
            && (op.Keep? ==> new_ == old_)
            && (op.AddEntry? ==> new_ == old_ + moved || (new_ == old_ && MeetsFull(index, op)))
  {
    if op.RemoveEntry? {
      RemoveFdTakesOne(index[b], fd);
    }
  }

  lemma WorkerBucket(s: State, i: nat, w: WorkerStep, b: nat)
    requires SlotsOk(s) && AllKeysOk(s) && Enabled(s, W(i, w)) && FreshStep(s, W(i, w))
    requires b < MAX_KEYS_COUNT && |s.index[b]| <= MAX_SESSION_COUNT
    requires multiset(s.index[b]) <= Expected(s.slots, s.workers, b)
    ensures var slot, pc := s.slots[i], s.workers[i];
            var op := WorkerIndex(slot, pc, w);
            var have, want := multiset(s.index[b]), Expected(s.slots, s.workers, b);
            var have' := multiset(OnIndex(s.index, op, slot.fds.notif)[b]);
            var want' := Expected(s.slots[i := WorkerSlot(slot, pc, w)], s.workers[i := WorkerPc(slot, pc, w)], b);
            && |OnIndex(s.index, op, slot.fds.notif)[b]| <= MAX_SESSION_COUNT
            && have' <= want'
            && (have == want && !MeetsFull(s.index, op) ==> have' == want')
  {
    var slot, pc := s.slots[i], s.workers[i];
    assert SlotOk(slot, pc) && KeysOk(slot, pc);
    var op := WorkerIndex(slot, pc, w);
    EntriesStep(slot, pc, w, b);
    BucketStep(s.index, op, slot.fds.notif, b);
    EntriesUpdate(s.slots, s.workers, i, WorkerSlot(slot, pc, w), WorkerPc(slot, pc, w), b);
    AgreementKept(multiset(s.index[b]), multiset(OnIndex(s.index, op, slot.fds.notif)[b]),
                  Expected(s.slots, s.workers, b),
                  Expected(s.slots[i := WorkerSlot(slot, pc, w)], s.workers[i := WorkerPc(slot, pc, w)], b),
                  Entries(slot, pc, b), Entries(WorkerSlot(slot, pc, w), WorkerPc(slot, pc, w), b),
                  OpEntry(op, slot.fds.notif, b), op);
  }

  lemma WorkerAgrees(s: State, i: nat, w: WorkerStep, b: nat)
    requires SlotsOk(s) && AllKeysOk(s) && Enabled(s, W(i, w)) && FreshStep(s, W(i, w))
    requires b < MAX_KEYS_COUNT && BucketAgrees(s, b)
    ensures BucketAgrees(ApplyWorker(s, i, w), b)
  {
    WorkerBucket(s, i, w, b);
  }

  /** The arithmetic of one step on multisets. */
  lemma AgreementKept(have: Bag, have': Bag, want: Bag, want': Bag,
                      mine: Bag, mine': Bag, moved: Bag, op: IndexOp)
    requires want' + mine == want + mine'
    requires mine' + (if op.RemoveEntry? then moved else multiset{}) ==
             mine + (if op.AddEntry? then moved else multiset{})
    requires op.RemoveEntry? ==> have' == have - moved
    requires op.Keep? ==> have' == have
    requires op.AddEntry? ==> have' == have + moved || have' == have
    requires have <= want
    ensures have' <= want'
    ensures have == want && (op.AddEntry? ==> have' == have + moved) ==> have' == want'
  {
    forall x
      ensures have'[x] <= want'[x]
      ensures have == want && (op.AddEntry? ==> have' == have + moved) ==> have'[x] == want'[x]
    {
      assert (want' + mine)[x] == (want + mine')[x];
      assert (mine' + (if op.RemoveEntry? then moved else multiset{}))[x] ==
             (mine + (if op.AddEntry? then moved else multiset{}))[x];
      assert have[x] <= want[x];
      assert op.RemoveEntry? ==> have'[x] == (have - moved)[x];
      assert op.AddEntry? ==> have'[x] == (have + moved)[x] || have'[x] == have[x];
    }
  }

  /** Steps of the other threads leave the entries of a session alone. */
  lemma OthersKeepEntries(s: State, step: Step, i: nat, b: nat)
    requires SlotsOk(s) && Enabled(s, step) && !step.W? && i < MAX_SESSION_COUNT
    ensures Shape(Apply(s, step)) && Apply(s, step).workers == s.workers && Apply(s, step).index == s.index
    ensures Apply(s, step).slots[i].keys == s.slots[i].keys
    ensures Entries(Apply(s, step).slots[i], s.workers[i], b) == Entries(s.slots[i], s.workers[i], b)
  {
    assert SlotOk(s.slots[i], s.workers[i]);
    var slot, slot' := s.slots[i], Apply(s, step).slots[i];
    assert slot'.keys == slot.keys;
    if slot'.fds != slot.fds {
      assert Indexed(slot, s.workers[i]) == [];
    }
  }

  lemma SameEntries(slots: seq<Slot>, slots': seq<Slot>, workers: seq<Worker>, b: nat)
    requires |slots| == |slots'| == |workers|
    requires forall i :: 0 <= i < |slots| ==> Entries(slots'[i], workers[i], b) == Entries(slots[i], workers[i], b)
    ensures AllEntries(slots', workers, b) == AllEntries(slots, workers, b)
  {
  }

  lemma OthersAgree(s: State, step: Step, b: nat)
    requires SlotsOk(s) && Enabled(s, step) && !step.W? && b < MAX_KEYS_COUNT && BucketAgrees(s, b)
    requires Shape(Apply(s, step))
    ensures BucketAgrees(Apply(s, step), b)
  {
    var s' := Apply(s, step);
    OthersKeepEntries(s, step, 0, b);
    forall i | 0 <= i < MAX_SESSION_COUNT
      ensures Entries(s'.slots[i], s.workers[i], b) == Entries(s.slots[i], s.workers[i], b)
    {
      OthersKeepEntries(s, step, i, b);
    }
    SameEntries(s.slots, s'.slots, s.workers, b);
  }

  lemma KeysStep(s: State, step: Step)
    requires SlotsOk(s) && AllKeysOk(s) && Enabled(s, step) && FreshStep(s, step)
    ensures AllKeysOk(Apply(s, step))
  {
    if step.W? {
      var slot, pc := s.slots[step.i], s.workers[step.i];
      assert SlotOk(slot, pc) && KeysOk(slot, pc);
      HitsStep(slot, pc, step.w, 0);
    } else {
      assert forall i :: 0 <= i < MAX_SESSION_COUNT ==> Apply(s, step).slots[i].keys == s.slots[i].keys;
    }
  }

  lemma AgreesStep(s: State, step: Step)
    requires SlotsOk(s) && AllKeysOk(s) && Agrees(s) && Enabled(s, step) && FreshStep(s, step)
    ensures Agrees(Apply(s, step))
  {
    SlotsStep(s, step);
    forall b | 0 <= b < MAX_KEYS_COUNT ensures BucketAgrees(Apply(s, step), b) {
      if step.W? {
        WorkerAgrees(s, step.i, step.w, b);
      } else {
        OthersAgree(s, step, b);
      }
    }
  }

  lemma ExpectedEmpty(slots: seq<Slot>, workers: seq<Worker>, b: nat)
    requires |slots| == |workers| && forall i :: 0 <= i < |slots| ==> slots[i].keys == NO_KEYS
    ensures Expected(slots, workers, b) == multiset{}
  {
    forall i | 0 <= i < |slots| ensures AllEntries(slots, workers, b)[i] == multiset{} {
      assert Indexed(slots[i], workers[i]) == [];
    }
    SumEmpty(AllEntries(slots, workers, b));
  }

  /** Index agreement over whole runs: in every state that a run with fresh naming reaches, each
      bucket is a sub-multiset of what the key lists say, and equal to it unless some add_key
      has met a full bucket. Descriptors need not be distinct. */
  lemma {:induction false} IndexAgreesWithLists(c: Config, steps: seq<Step>)
    requires IsRun(c, steps) && IsFreshRun(c, steps)
    ensures AllKeysOk(Final(c, steps)) && Agrees(Final(c, steps))
  {
    if steps == [] {
      var s := Start(c);
      forall b | 0 <= b < MAX_KEYS_COUNT ensures BucketAgrees(s, b) {
        ExpectedEmpty(s.slots, s.workers, b);
      }
    } else {
      var before := steps[..|steps| - 1];
      IndexAgreesWithLists(c, before);
      RunSafe(c, before);
      KeysStep(Final(c, before), steps[|steps| - 1]);
      AgreesStep(Final(c, before), steps[|steps| - 1]);
    }
  }

  /** After a mass disconnect the whole index is empty. */
  lemma MassDisconnectEmptiesIndex(c: Config, steps: seq<Step>, d: nat)
    requires IsRun(c, steps) && IsFreshRun(c, steps)
    requires d < |Final(c, steps).handlers| && Final(c, steps).handlers[d].Finishing?
    ensures forall b :: 0 <= b < MAX_KEYS_COUNT ==> Final(c, steps).index[b] == []
  {
    var s := Final(c, steps);
    MassDisconnectCompletes(c, steps, d);
    IndexAgreesWithLists(c, steps);
    forall b | 0 <= b < MAX_KEYS_COUNT ensures s.index[b] == [] {
      assert BucketAgrees(s, b);
      ExpectedEmpty(s.slots, s.workers, b);
      assert |multiset(s.index[b])| == 0;
    }
  }

  // ---- "Should never happen" ----

  /** chash tells the keys apart that are live now, together with one more. */
  ghost predicate SeparatesLive(s: State, key: Key)
    requires AllKeysOk(s)
  {
    forall i, j :: 0 <= i < MAX_SESSION_COUNT && 0 <= j < s.slots[i].keys.num ==>
      (Chash(s.slots[i].keys.slots[j]) == Chash(key) ==> s.slots[i].keys.slots[j] == key)
  }

  lemma {:induction false} HitsAtMostOne(keys: seq<Key>, key: Key, b: nat)
    requires forall i, j :: 0 <= i < j < |keys| ==> keys[i] != keys[j]
    requires forall i :: 0 <= i < |keys| && Chash(keys[i]) == b ==> keys[i] == key
    requires Chash(key) == b
    ensures Hits(keys, b) == if key in keys then 1 else 0
  {
    if keys != [] {
      var n := |keys| - 1;
      HitsAtMostOne(keys[..n], key, b);
      assert key in keys <==> key in keys[..n] || key == keys[n];
      assert key in keys[..n] ==> key != keys[n];
    }
  }

  lemma IndexedIsLive(s: State, i: nat, key: Key)
    requires Shape(s) && AllKeysOk(s) && i < MAX_SESSION_COUNT && key !in s.slots[i].keys.Live()
    ensures key !in Indexed(s.slots[i], s.workers[i])
  {
    assert KeysOk(s.slots[i], s.workers[i]);
    var keys := Indexed(s.slots[i], s.workers[i]);
    assert forall j :: 0 <= j < |keys| ==> keys[j] == s.slots[i].keys.Live()[DoneOf(s.workers[i]) + j];
  }

  lemma OneEntryEach(s: State, j: nat, key: Key)
    requires AllKeysOk(s) && j < MAX_SESSION_COUNT && SeparatesLive(s, key)
    ensures var keys := Indexed(s.slots[j], s.workers[j]);
            Hits(keys, Chash(key)) == if key in keys then 1 else 0
  {
    assert KeysOk(s.slots[j], s.workers[j]);
    HitsAtMostOne(Indexed(s.slots[j], s.workers[j]), key, Chash(key));
  }

  /** add_key never meets a full bucket when chash separates the live keys and the new one: the
      session itself has no entry there and each of the other seven at most one. */
  lemma NeverFull(s: State, i: nat, key: Key)
    requires AllKeysOk(s) && Agrees(s) && i < MAX_SESSION_COUNT
    requires SeparatesLive(s, key) && key !in s.slots[i].keys.Live()
    ensures |s.index[Chash(key)]| <= MAX_SESSION_COUNT - 1
  {
    var b := Chash(key);
    assert BucketAgrees(s, b);
    forall j | 0 <= j < MAX_SESSION_COUNT
      ensures Hits(Indexed(s.slots[j], s.workers[j]), b) == if key in Indexed(s.slots[j], s.workers[j]) then 1 else 0
    {
      OneEntryEach(s, j, key);
    }
    IndexedIsLive(s, i, key);
    SumSize(AllEntries(s.slots, s.workers, b), i);
    SubBagSize(multiset(s.index[b]), Expected(s.slots, s.workers, b));
  }

  /** Every subscription of a new key finds chash separating. */
  ghost predicate SeparatedStep(s: State, step: Step)
    requires Enabled(s, step)
  {
    step.W? && step.w.GotKey? && step.w.read.KeyIs? && s.workers[step.i].sub && AllKeysOk(s) ==>
      SeparatesLive(s, step.w.read.key)
  }

  ghost predicate IsSeparatedRun(c: Config, steps: seq<Step>)
    requires IsRun(c, steps)
  {
    steps == [] ||
    (IsSeparatedRun(c, steps[..|steps| - 1]) && SeparatedStep(Final(c, steps[..|steps| - 1]), steps[|steps| - 1]))
  }

  /** With fresh naming and such keys no entry is ever dropped, in any run. */
  lemma {:induction false} NothingDropped(c: Config, steps: seq<Step>)
    requires IsRun(c, steps) && IsFreshRun(c, steps) && IsSeparatedRun(c, steps)
    ensures !Final(c, steps).dropped
  {
    if steps != [] {
      var before, step := steps[..|steps| - 1], steps[|steps| - 1];
      NothingDropped(c, before);
      IndexAgreesWithLists(c, before);
      var s := Final(c, before);
      if step.W? && step.w.GotKey? && step.w.read.KeyIs? && s.workers[step.i].sub {
        var key, slot := step.w.read.key, s.slots[step.i];
        assert KeysOk(slot, s.workers[step.i]);
        LookupExact(slot.keys, key);
        if key !in slot.keys.Live() {
          NeverFull(s, step.i, key);
        }
      }
    }
  }
}

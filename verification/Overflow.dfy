/** When a bucket of the notification index is full: exactly, in terms of the key lists, and with
    the smallest input that makes it happen. */
module Overflow {
  import opened Constants
  import opened KvsBuckets
  import opened Paths
  import opened KeyHash
  import opened KeyList
  import opened Slots
  import opened IndexAgreement

  /** How many subscriptions of all sessions fall into a bucket. */
  ghost function Subscriptions(slots: seq<Slot>, workers: seq<Worker>, b: nat): nat
    requires |slots| == |workers|
  {
    if slots == [] then 0
    else
      var n := |slots| - 1;
      Subscriptions(slots[..n], workers[..n], b) + Hits(Indexed(slots[n], workers[n]), b)
  }

  lemma {:induction false} ExpectedSize(slots: seq<Slot>, workers: seq<Worker>, b: nat)
    requires |slots| == |workers|
    ensures |Expected(slots, workers, b)| == Subscriptions(slots, workers, b)
  {
    if slots != [] {
      var n := |slots| - 1;
      ExpectedSize(slots[..n], workers[..n], b);
      assert AllEntries(slots, workers, b)[..n] == AllEntries(slots[..n], workers[..n], b);
    }
  }

  /** While nothing has been dropped, add_key meets a full bucket exactly when the sessions together
      hold eight subscriptions or more in it. */
  lemma FullExactly(c: Config, steps: seq<Step>, key: Key)
    requires IsRun(c, steps) && IsFreshRun(c, steps) && !Final(c, steps).dropped
    ensures var s := Final(c, steps);
            && Shape(s)
            && (MeetsFull(s.index, AddEntry(key)) <==>
                Subscriptions(s.slots, s.workers, Chash(key)) >= MAX_SESSION_COUNT)
  {
    IndexAgreesWithLists(c, steps);
    var s := Final(c, steps);
    assert BucketAgrees(s, Chash(key));
    assert |multiset(s.index[Chash(key)])| == |s.index[Chash(key)]|;
    ExpectedSize(s.slots, s.workers, Chash(key));
  }

  /** A subscription is granted although the sessions hold eight in its bucket already. */
  ghost predicate OverflowStep(s: State, step: Step)
    requires Enabled(s, step)
  {
    && step.W?
    && var op := WorkerIndex(s.slots[step.i], s.workers[step.i], step.w);
       op.AddEntry? && Subscriptions(s.slots, s.workers, Chash(op.key)) >= MAX_SESSION_COUNT
  }

  /** Some step of the run does that: a condition on the key lists alone. */
  ghost predicate Overflows(c: Config, steps: seq<Step>)
    requires IsRun(c, steps)
  {
    steps != [] &&
    (Overflows(c, steps[..|steps| - 1]) || OverflowStep(Final(c, steps[..|steps| - 1]), steps[|steps| - 1]))
  }

  /** An index entry has been dropped exactly when the run overflows. */
  lemma {:induction false} DroppedExactly(c: Config, steps: seq<Step>)
    requires IsRun(c, steps) && IsFreshRun(c, steps)
    ensures Final(c, steps).dropped <==> Overflows(c, steps)
  {
    if steps != [] {
      var before, step := steps[..|steps| - 1], steps[|steps| - 1];
      DroppedExactly(c, before);
      var s := Final(c, before);
      if step.W? && !s.dropped {
        var op := WorkerIndex(s.slots[step.i], s.workers[step.i], step.w);
        if op.AddEntry? {
          FullExactly(c, before, AddedKey(s, step));
        }
      }
    }
  }

  ghost function AddedKey(s: State, step: Step): Key
    requires Enabled(s, step) && step.W?
    requires WorkerIndex(s.slots[step.i], s.workers[step.i], step.w).AddEntry?
  {
    step.w.read.key
  }

  // ---- Nine keys of one bucket ----

  /** One client connects. */
  const CONNECTING: seq<Step> := [
    A(0, Open(THE_FDS)), A(0, TakePermit), A(0, LockList), A(0, Scan), A(0, Release),
    W(0, Wake), W(0, Greet(true))]

  const THE_FDS := Fds(0, 1, 2)

  const ONE_CLIENT := Config(1, 0)

  /** A request for a key that the store has. */
  function Asking(key: Key): seq<Step> {
    [W(0, CheckForce), W(0, GotOp(OpSubscribe)), W(0, GotKey(KeyIs(key, true)))]
  }

  /** The client subscribes to keys one after the other. */
  function Subscribing(keys: seq<Key>): seq<Step> {
    if keys == [] then CONNECTING else Subscribing(keys[..|keys| - 1]) + Asking(keys[|keys| - 1])
  }

  /** The session after these subscriptions, with its worker at some place. */
  ghost predicate HasSubscribed(s: State, keys: seq<Key>, b: nat, pc: Worker)
    requires |keys| <= MAX_NUMBER_SUB && b < MAX_KEYS_COUNT
  {
    && Shape(s) && s.workers[0] == pc
    && |s.index[b]| == (if |keys| <= MAX_SESSION_COUNT then |keys| else MAX_SESSION_COUNT)
    && (s.dropped <==> |keys| > MAX_SESSION_COUNT)
    && !s.slots[0].force && Listed(s.slots[0].keys, keys)
  }

  /** The keys stand at the front of the list, and nothing behind them. */
  ghost predicate Listed(l: SlotKeys, keys: seq<Key>)
    requires |keys| <= MAX_NUMBER_SUB
  {
    && l.num == |keys| && l.slots[..|keys|] == keys
    && forall j :: |keys| <= j < MAX_NUMBER_SUB ==> l.slots[j] == ""
  }

  /** A possible step that names no stale key. */
  ghost function GoFresh(s: State, step: Step): Option<State> {
    if Enabled(s, step) && FreshStep(s, step) then Some(Apply(s, step)) else None
  }

  lemma {:induction false} FreshRun(c: Config, steps: seq<Step>)
    requires RunFrom(GoFresh, Start(c), steps).Some?
    ensures IsRun(c, steps) && IsFreshRun(c, steps) && Final(c, steps) == RunFrom(GoFresh, Start(c), steps).value
  {
    if steps != [] {
      FreshRun(c, steps[..|steps| - 1]);
    }
  }

  lemma FreshLeads(c: Config, steps: seq<Step>, s': State)
    requires Leads(GoFresh, Start(c), steps, s')
    ensures IsRun(c, steps) && IsFreshRun(c, steps) && Final(c, steps) == s'
  {
    RunLeads(GoFresh, Start(c), [], steps, s');
    assert [] + steps == steps;
    FreshRun(c, steps);
  }

  /** The server before its first client is served: where its activator and its first worker are. */
  ghost predicate Waking(s: State, act: Activator, active: bool, pc: Worker) {
    && Shape(s) && |s.activators| == 1 && s.activators[0] == act && s.workers[0] == pc
    && s.slots[0].active == active && !s.slots[0].force && Listed(s.slots[0].keys, [])
    && (act.Waiting? ==> s.sem > 0) && (act.Waiting? || act.Permitted? ==> s.listc == Free)
    && !s.dropped && forall b :: 0 <= b < MAX_KEYS_COUNT ==> s.index[b] == []
  }

  /** Where the activator is after its k-th step. */
  function ActivatorAt(k: nat): Activator {
    match k
    case 0 => Out
    case 1 => Waiting(THE_FDS)
    case 2 => Permitted(THE_FDS)
    case 3 => Scanning(THE_FDS, 0)
    case 4 => Releasing
    case _ => Out
  }

  lemma FirstStep()
    ensures GoFresh(Start(ONE_CLIENT), CONNECTING[0]).Some?
    ensures Waking(GoFresh(Start(ONE_CLIENT), CONNECTING[0]).value, ActivatorAt(1), false, Top)
  {
  }

  lemma ActivatorStep(s: State, k: nat)
    requires 1 <= k < 5 && Waking(s, ActivatorAt(k), k >= 4, Top)
    ensures GoFresh(s, CONNECTING[k]).Some?
    ensures Waking(GoFresh(s, CONNECTING[k]).value, ActivatorAt(k + 1), k + 1 >= 4, Top)
    ensures k == 3 ==> GoFresh(s, CONNECTING[k]).value.slots[0].fds == THE_FDS
    ensures k == 4 ==> GoFresh(s, CONNECTING[k]).value.slots[0].fds == s.slots[0].fds
  {
  }

  lemma {:induction false} Activating(k: nat) returns (s: State)
    requires 1 <= k <= 5
    ensures Leads(GoFresh, Start(ONE_CLIENT), CONNECTING[..k], s) && Waking(s, ActivatorAt(k), k >= 4, Top)
    ensures k >= 4 ==> s.slots[0].fds == THE_FDS
  {
    if k == 1 {
      FirstStep();
      s := GoFresh(Start(ONE_CLIENT), CONNECTING[0]).value;
      LeadsOne(GoFresh, Start(ONE_CLIENT), CONNECTING[0], s);
      assert [CONNECTING[0]] == CONNECTING[..1];
    } else {
      var before := Activating(k - 1);
      ActivatorStep(before, k - 1);
      s := GoFresh(before, CONNECTING[k - 1]).value;
      LeadsThen(GoFresh, Start(ONE_CLIENT), CONNECTING[..k - 1], before, CONNECTING[k - 1], s);
      assert CONNECTING[..k - 1] + [CONNECTING[k - 1]] == CONNECTING[..k];
    }
  }

  lemma Woken(s: State, b: nat)
    requires Waking(s, Out, true, Top) && s.slots[0].fds == THE_FDS && b < MAX_KEYS_COUNT
    ensures var s1 := Apply(s, W(0, Wake));
            && GoFresh(s, W(0, Wake)) == Some(s1)
            && GoFresh(s1, W(0, Greet(true))) == Some(Apply(s1, W(0, Greet(true))))
            && HasSubscribed(Apply(s1, W(0, Greet(true))), [], b, Looping(0))
  {
  }

  lemma Connected(b: nat) returns (s: State)
    requires b < MAX_KEYS_COUNT
    ensures Leads(GoFresh, Start(ONE_CLIENT), CONNECTING, s) && HasSubscribed(s, [], b, Looping(0))
  {
    var s0 := Activating(5);
    Woken(s0, b);
    var s1 := Apply(s0, W(0, Wake));
    s := Apply(s1, W(0, Greet(true)));
    LeadsThen(GoFresh, Start(ONE_CLIENT), CONNECTING[..5], s0, W(0, Wake), s1);
    LeadsThen(GoFresh, Start(ONE_CLIENT), CONNECTING[..5] + [W(0, Wake)], s1, W(0, Greet(true)), s);
    assert CONNECTING[..5] + [W(0, Wake)] + [W(0, Greet(true))] == CONNECTING;
  }

  /** A new key goes behind the others. */
  lemma NewKey(l: SlotKeys, keys: seq<Key>, key: Key)
    requires |keys| < MAX_NUMBER_SUB && Listed(l, keys) && key !in keys && key != ""
    ensures FreshName(l, key) && Listed(Subscribe(l, key, true).0, keys + [key])
    ensures Subscribe(l, key, true).1 == Done
  {
    assert forall i :: 0 <= i < |keys| ==> l.slots[i] == l.slots[..|keys|][i] && keys[i] in keys;
    assert forall k :: k in l.slots[l.num..] ==> k == "";
  }

  /** One request of the session. */
  lemma AsksForKey(s: State, keys: seq<Key>, b: nat)
    requires |keys| <= MAX_NUMBER_SUB && b < MAX_KEYS_COUNT && HasSubscribed(s, keys, b, Looping(0))
    ensures var w := W(0, CheckForce);
            Enabled(s, w) && FreshStep(s, w) && HasSubscribed(Apply(s, w), keys, b, ReadingOp(0))
  {
  }

  lemma AsksToSubscribe(s: State, keys: seq<Key>, b: nat)
    requires |keys| <= MAX_NUMBER_SUB && b < MAX_KEYS_COUNT && HasSubscribed(s, keys, b, ReadingOp(0))
    ensures var w := W(0, GotOp(OpSubscribe));
            Enabled(s, w) && FreshStep(s, w) && HasSubscribed(Apply(s, w), keys, b, ReadingKey(0, true))
  {
  }

  lemma IsSubscribed(s: State, keys: seq<Key>, key: Key, b: nat)
    requires |keys| < MAX_NUMBER_SUB && Chash(key) == b && key != "" && key !in keys
    requires HasSubscribed(s, keys, b, ReadingKey(0, true))
    ensures var w := W(0, GotKey(KeyIs(key, true)));
            Enabled(s, w) && FreshStep(s, w) && HasSubscribed(Apply(s, w), keys + [key], b, Looping(0))
  {
    NewKey(s.slots[0].keys, keys, key);
  }

  lemma OneSubscription(s: State, keys: seq<Key>, key: Key, b: nat) returns (s': State)
    requires |keys| < MAX_NUMBER_SUB && Chash(key) == b && key != "" && key !in keys
    requires HasSubscribed(s, keys, b, Looping(0))
    ensures Leads(GoFresh, s, Asking(key), s') && HasSubscribed(s', keys + [key], b, Looping(0))
  {
    var x, y, z := W(0, CheckForce), W(0, GotOp(OpSubscribe)), W(0, GotKey(KeyIs(key, true)));
    AsksForKey(s, keys, b);
    var s1 := Apply(s, x);
    AsksToSubscribe(s1, keys, b);
    var s2 := Apply(s1, y);
    IsSubscribed(s2, keys, key, b);
    s' := Apply(s2, z);
    LeadsOne(GoFresh, s, x, s1);
    LeadsThen(GoFresh, s, [x], s1, y, s2);
    LeadsThen(GoFresh, s, [x] + [y], s2, z, s');
    assert [x] + [y] + [z] == Asking(key);
  }

  lemma {:induction false} SubscribingLeads(keys: seq<Key>, b: nat) returns (s: State)
    requires |keys| <= MAX_NUMBER_SUB && b < MAX_KEYS_COUNT
    requires forall i :: 0 <= i < |keys| ==> keys[i] != "" && Chash(keys[i]) == b
    requires forall i, j :: 0 <= i < j < |keys| ==> keys[i] != keys[j]
    ensures Leads(GoFresh, Start(ONE_CLIENT), Subscribing(keys), s) && HasSubscribed(s, keys, b, Looping(0))
  {
    if keys == [] {
      s := Connected(b);
    } else {
      var front, key := keys[..|keys| - 1], keys[|keys| - 1];
      var before := SubscribingLeads(front, b);
      s := OneSubscription(before, front, key, b);
      LeadsOn(GoFresh, Start(ONE_CLIENT), Subscribing(front), before, Asking(key), s);
      assert front + [key] == keys;
    }
  }

  /** A client that subscribes to keys of one bucket gets them all granted, and loses the
      notifications of all but eight. */
  lemma SameBucketKeys(keys: seq<Key>, b: nat)
    requires |keys| <= MAX_NUMBER_SUB && b < MAX_KEYS_COUNT
    requires forall i :: 0 <= i < |keys| ==> keys[i] != "" && Chash(keys[i]) == b
    requires forall i, j :: 0 <= i < j < |keys| ==> keys[i] != keys[j]
    ensures IsRun(ONE_CLIENT, Subscribing(keys)) && IsFreshRun(ONE_CLIENT, Subscribing(keys))
    ensures HasSubscribed(Final(ONE_CLIENT, Subscribing(keys)), keys, b, Looping(0))
  {
    var s := SubscribingLeads(keys, b);
    FreshLeads(ONE_CLIENT, Subscribing(keys), s);
  }

  /** A text of pairs of characters that weigh the same in chash. */
  function Pairs(bits: seq<bool>): string {
    if bits == [] then "" else Pairs(bits[..|bits| - 1]) + if bits[|bits| - 1] then "bA" else "ab"
  }

  lemma {:induction false} PairsAreAlike(bits: seq<bool>, bits': seq<bool>)
    requires |bits| == |bits'|
    ensures Polynomial(Pairs(bits)) == Polynomial(Pairs(bits'))
    ensures |Pairs(bits)| == |Pairs(bits')| == 2 * |bits|
  {
    if bits != [] {
      var n := |bits| - 1;
      PairsAreAlike(bits[..n], bits'[..n]);
      LastPair(Pairs(bits[..n]), bits[n]);
      LastPair(Pairs(bits'[..n]), bits'[n]);
    }
  }

  lemma LastPair(front: string, bit: bool)
    ensures Polynomial(front + if bit then "bA" else "ab") == 1089 * Polynomial(front) + 3299
  {
    var a, b := if bit then 'b' else 'a', if bit then 'A' else 'b';
    assert front + (if bit then "bA" else "ab") == front + [a] + [b];
    Horner(front, a);
    Horner(front + [a], b);
  }

  lemma {:induction false} PairsAt(bits: seq<bool>, j: nat)
    requires j < |bits|
    ensures |Pairs(bits)| == 2 * |bits| && (Pairs(bits)[2 * j] == 'b' <==> bits[j])
  {
    PairsAreAlike(bits, bits);
    if j < |bits| - 1 {
      PairsAt(bits[..|bits| - 1], j);
    } else {
      PairsAreAlike(bits[..j], bits[..j]);
    }
  }

  /** Nine such keys: "bA" at most once, at a different place in each. */
  function NinthKey(i: nat): (key: Key)
    requires i < 9
  {
    PairsAreAlike(seq(8, j => j == i), seq(8, j => j == i));
    Pairs(seq(8, j => j == i))
  }

  lemma DifferentKeys(i: nat, j: nat)
    requires i < j < 9
    ensures NinthKey(i) != NinthKey(j)
  {
    PairsAt(seq(8, k => k == i), i);
    PairsAt(seq(8, k => k == j), i);
  }

  const NINE_KEYS: seq<Key> := seq(9, i requires 0 <= i < 9 => NinthKey(i))

  /** The input: one client and nine keys. All nine subscriptions are granted, and the bucket holds
      eight of them. */
  lemma NineKeysOverflow()
    ensures IsRun(ONE_CLIENT, Subscribing(NINE_KEYS)) && IsFreshRun(ONE_CLIENT, Subscribing(NINE_KEYS))
    ensures var s := Final(ONE_CLIENT, Subscribing(NINE_KEYS));
            s.dropped && Shape(s) && s.slots[0].keys.num == 9 && |s.index[Chash(NINE_KEYS[0])]| == 8
    ensures Overflows(ONE_CLIENT, Subscribing(NINE_KEYS))
  {
    var b := Chash(NINE_KEYS[0]);
    forall i | 0 <= i < 9 ensures NINE_KEYS[i] != "" && Chash(NINE_KEYS[i]) == b {
      PairsAreAlike(seq(8, k => k == i), seq(8, k => k == 0));
    }
    forall i, j | 0 <= i < j < 9 ensures NINE_KEYS[i] != NINE_KEYS[j] {
      DifferentKeys(i, j);
    }
    SameBucketKeys(NINE_KEYS, b);
    DroppedExactly(ONE_CLIENT, Subscribing(NINE_KEYS));
  }
}

/** What a session receives: a projection of the history of events by its own key list. */
module Streams {
  import opened Constants
  import opened KeyHash
  import opened KeyList
  import opened Formatting
  import opened Bags
  import opened Slots
  import opened SlotSafety
  import opened IndexAgreement
  import opened Overflow

  /** A new session's notification descriptor differs from those that slots still hold. The
      operating system ensures it while descriptors are open; that a number is not reused between
      the close in disconnect_client and the end of the removals is an assumption on runs. */
  ghost predicate DistinctStep(s: State, step: Step)
    requires Enabled(s, step)
  {
    Activates(s, step) ==>
      forall j :: 0 <= j < MAX_SESSION_COUNT ==> s.slots[j].fds.notif != s.activators[step.a].fds.notif
  }

  ghost predicate IsDistinctRun(c: Config, steps: seq<Step>)
    requires IsRun(c, steps)
  {
    steps == [] ||
    (IsDistinctRun(c, steps[..|steps| - 1]) && DistinctStep(Final(c, steps[..|steps| - 1]), steps[|steps| - 1]))
  }

  ghost predicate DistinctFds(s: State) {
    && Shape(s)
    && forall i, j :: 0 <= i < MAX_SESSION_COUNT && 0 <= j < MAX_SESSION_COUNT && i != j && s.slots[i].active ==>
         s.slots[i].fds.notif != s.slots[j].fds.notif
  }

  lemma DistinctKept(s: State, step: Step)
    requires Safe(s) && RealFds(s) && DistinctFds(s) && Enabled(s, step) && DistinctStep(s, step)
    ensures DistinctFds(Apply(s, step))
  {
    var s' := Apply(s, step);
    forall i, j | 0 <= i < MAX_SESSION_COUNT && 0 <= j < MAX_SESSION_COUNT && i != j && s'.slots[i].active
      ensures s'.slots[i].fds.notif != s'.slots[j].fds.notif
    {
      FdsMove(s, step, i);
      FdsMove(s, step, j);
    }
  }

  /** The descriptors of a slot change by an activation, to those of the new client, and by a
      wipe, to none. */
  lemma FdsMove(s: State, step: Step, i: nat)
    requires Safe(s) && Enabled(s, step) && i < MAX_SESSION_COUNT
    ensures Shape(Apply(s, step))
    ensures var slot, slot' := s.slots[i], Apply(s, step).slots[i];
            || (slot'.fds == slot.fds && slot'.active == slot.active)
            || (Activates(s, step) && s.activators[step.a].i == i && slot'.fds == s.activators[step.a].fds)
            || (step == W(i, Wipe) && !slot'.active && slot'.fds == NO_FDS)
  {
    assert SlotOk(s.slots[i], s.workers[i]);
  }

  lemma {:induction false} RunDistinct(c: Config, steps: seq<Step>)
    requires IsRun(c, steps) && IsDistinctRun(c, steps)
    ensures DistinctFds(Final(c, steps))
  {
    if steps != [] {
      var before := steps[..|steps| - 1];
      RunDistinct(c, before);
      RunSafe(c, before);
      NegativeIsNobody(c, before);
      DistinctKept(Final(c, before), steps[|steps| - 1]);
    }
  }

  /** An active session has real descriptors. */
  ghost predicate RealFds(s: State) {
    && Shape(s)
    && (forall a :: 0 <= a < |s.activators| ==>
          match s.activators[a]
          case Waiting(fds) => fds.notif >= 0
          case Permitted(fds) => fds.notif >= 0
          case Scanning(fds, _) => fds.notif >= 0
          case _ => true)
    && (forall i :: 0 <= i < MAX_SESSION_COUNT && s.slots[i].active ==> s.slots[i].fds.notif >= 0)
  }

  lemma {:induction false} NegativeIsNobody(c: Config, steps: seq<Step>)
    requires IsRun(c, steps)
    ensures RealFds(Final(c, steps))
  {
    if steps != [] {
      var before, step := steps[..|steps| - 1], steps[|steps| - 1];
      NegativeIsNobody(c, before);
      RunSafe(c, before);
      var s := Final(c, before);
      SlotsStep(s, step);
      forall i | 0 <= i < MAX_SESSION_COUNT && Apply(s, step).slots[i].active
        ensures Apply(s, step).slots[i].fds.notif >= 0
      {
        FdsMove(s, step, i);
      }
    }
  }

  // ---- The projection ----

  /** The keys of a session that hash to the bucket of an event. */
  ghost function Listeners(slot: Slot, e: Event): nat {
    if slot.keys.InRange() then Hits(slot.keys.Live(), Chash(e.key)) else 0
  }

  /** The events a session should see: from its activation on, while its pipes are open, each
      event once for every live key in the bucket of the event's key. It is defined from the
      key lists alone. */
  ghost function Projection(c: Config, steps: seq<Step>, i: nat): seq<Event>
    requires IsRun(c, steps) && i < MAX_SESSION_COUNT
  {
    if steps == [] then []
    else
      var s, step := Final(c, steps[..|steps| - 1]), steps[|steps| - 1];
      var seen := Projection(c, steps[..|steps| - 1], i);
      if Activates(s, step) && s.activators[step.a].i == i then []
      else if step.Notify? && |s.slots| > i && s.slots[i].open then seen + Repeat(step.e, Listeners(s.slots[i], step.e))
      else seen
  }

  /** A session's descriptor stands in a bucket once for each of its listening keys. */
  lemma EntriesAreListeners(s: State, i: nat, e: Event)
    requires Safe(s) && AllKeysOk(s) && Agrees(s) && DistinctFds(s) && !s.dropped
    requires i < MAX_SESSION_COUNT && s.slots[i].open
    ensures multiset(s.index[Chash(e.key)])[s.slots[i].fds.notif] == Listeners(s.slots[i], e)
  {
    var b, fd := Chash(e.key), s.slots[i].fds.notif;
    assert BucketAgrees(s, b);
    assert SlotOk(s.slots[i], s.workers[i]) && KeysOk(s.slots[i], s.workers[i]);
    var all := AllEntries(s.slots, s.workers, b);
    forall j | 0 <= j < MAX_SESSION_COUNT && j != i ensures all[j][fd] == 0 {
      CopiesCount(s.slots[j].fds.notif, Hits(Indexed(s.slots[j], s.workers[j]), b), fd);
    }
    SumOf(all, i, fd);
    CopiesCount(fd, Hits(Indexed(s.slots[i], s.workers[i]), b), fd);
    assert Indexed(s.slots[i], s.workers[i]) == s.slots[i].keys.Live();
  }

  /** Every step but an activation and a notification leaves a stream alone. */
  lemma StreamMoves(s: State, step: Step, i: nat)
    requires Safe(s) && Enabled(s, step) && i < MAX_SESSION_COUNT
    ensures Shape(Apply(s, step))
    ensures Apply(s, step).slots[i].stream ==
      if Activates(s, step) && s.activators[step.a].i == i then []
      else if step.Notify? && s.slots[i].open then
        s.slots[i].stream + Repeat(step.e, multiset(s.index[Chash(step.e.key)])[s.slots[i].fds.notif])
      else s.slots[i].stream
  {
    match step
    case W(j, w) => assert WorkerSlot(s.slots[j], s.workers[j], w).stream == s.slots[j].stream;
    case A(a, act) => assert act.Scan? ==> s.activators[a].Scanning?;
    case H(d, h) =>
    case Notify(e) =>
  }

  /** The subscriber stream is the projection of the history, in every run with fresh naming and
      distinct descriptors that does not overflow a bucket. */
  lemma {:induction false} StreamIsProjection(c: Config, steps: seq<Step>, i: nat)
    requires IsRun(c, steps) && IsFreshRun(c, steps) && IsDistinctRun(c, steps) && i < MAX_SESSION_COUNT
    requires !Overflows(c, steps)
    ensures Shape(Final(c, steps)) && Final(c, steps).slots[i].stream == Projection(c, steps, i)
  {
    RunSafe(c, steps);
    if steps != [] {
      var before, step := steps[..|steps| - 1], steps[|steps| - 1];
      var s := Final(c, before);
      DroppedExactly(c, before);
      StreamIsProjection(c, before, i);
      RunSafe(c, before);
      StreamMoves(s, step, i);
      if step.Notify? && s.slots[i].open {
        IndexAgreesWithLists(c, before);
        RunDistinct(c, before);
        EntriesAreListeners(s, i, step.e);
      }
    }
  }

  // ---- Exact streams ----

  /** chash tells the key of the event apart from the live keys of the session. */
  ghost predicate Separates(slot: Slot, e: Event) {
    slot.keys.Ok() && forall j :: 0 <= j < slot.keys.num ==>
      (Chash(slot.keys.slots[j]) == Chash(e.key) ==> slot.keys.slots[j] == e.key)
  }

  ghost predicate SeparatesEvents(c: Config, steps: seq<Step>, i: nat)
    requires IsRun(c, steps)
  {
    steps == [] ||
    (&& SeparatesEvents(c, steps[..|steps| - 1], i)
     && var s, step := Final(c, steps[..|steps| - 1]), steps[|steps| - 1];
        step.Notify? && i < |s.slots| && s.slots[i].open ==> Separates(s.slots[i], step.e))
  }

  /** The events of the keys the session is subscribed to when they happen. */
  ghost function Subscribed(c: Config, steps: seq<Step>, i: nat): seq<Event>
    requires IsRun(c, steps) && i < MAX_SESSION_COUNT
  {
    if steps == [] then []
    else
      var s, step := Final(c, steps[..|steps| - 1]), steps[|steps| - 1];
      var seen := Subscribed(c, steps[..|steps| - 1], i);
      if Activates(s, step) && s.activators[step.a].i == i then []
      else if step.Notify? && |s.slots| > i && s.slots[i].open && s.slots[i].keys.InRange() &&
              (exists j :: 0 <= j < s.slots[i].keys.num && s.slots[i].keys.slots[j] == step.e.key)
      then seen + [step.e]
      else seen
  }

  lemma SeparatedListeners(slot: Slot, e: Event)
    requires Separates(slot, e)
    ensures Listeners(slot, e) == if exists j :: 0 <= j < slot.keys.num && slot.keys.slots[j] == e.key then 1 else 0
  {
    var keys := slot.keys.Live();
    if j :| 0 <= j < slot.keys.num && slot.keys.slots[j] == e.key {
      HitsAtMostOne(keys, slot.keys.slots[j], Chash(e.key));
      assert keys[j] == e.key;
    } else {
      HitsNone(keys, Chash(e.key));
    }
  }

  lemma {:induction false} HitsNone(keys: seq<Key>, b: nat)
    requires forall i :: 0 <= i < |keys| ==> Chash(keys[i]) != b
    ensures Hits(keys, b) == 0
  {
    if keys != [] {
      HitsNone(keys[..|keys| - 1], b);
    }
  }

  lemma {:induction false} ProjectionIsExact(c: Config, steps: seq<Step>, i: nat)
    requires IsRun(c, steps) && i < MAX_SESSION_COUNT && SeparatesEvents(c, steps, i)
    ensures Projection(c, steps, i) == Subscribed(c, steps, i)
  {
    if steps != [] {
      var before, step := steps[..|steps| - 1], steps[|steps| - 1];
      ProjectionIsExact(c, before, i);
      var s := Final(c, before);
      if step.Notify? && |s.slots| > i && s.slots[i].open {
        SeparatedListeners(s.slots[i], step.e);
        assert Repeat(step.e, 1) == Repeat(step.e, 0) + [step.e] == [step.e];
        assert Projection(c, before, i) + [] == Projection(c, before, i);
      }
    }
  }

  /** When chash separates the keys in play, a session receives exactly the events of the keys
      it is subscribed to, once each and in commit order. */
  lemma StreamIsExact(c: Config, steps: seq<Step>, i: nat)
    requires IsRun(c, steps) && IsFreshRun(c, steps) && IsDistinctRun(c, steps) && IsSeparatedRun(c, steps)
    requires i < MAX_SESSION_COUNT && SeparatesEvents(c, steps, i)
    ensures Shape(Final(c, steps)) && Final(c, steps).slots[i].stream == Subscribed(c, steps, i)
  {
    NothingDropped(c, steps);
    DroppedExactly(c, steps);
    StreamIsProjection(c, steps, i);
    ProjectionIsExact(c, steps, i);
  }
}

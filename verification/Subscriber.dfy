/** One client that subscribes, and one job that writes: the hypotheses on runs can be met, and what
    they promise is what happens. */
module Subscriber {
  import opened Constants
  import opened KvsBuckets
  import opened Paths
  import opened KeyHash
  import opened KeyList
  import opened Formatting
  import opened Batches
  import R = StoreRuns
  import opened Slots
  import opened SlotSafety
  import opened IndexAgreement
  import opened Overflow
  import opened Streams
  import World

  // ---- Runs with one activation ----

  ghost predicate NoScan(steps: seq<Step>, n: nat) {
    forall k :: n <= k < |steps| ==> !(steps[k].A? && steps[k].act.Scan?)
  }

  lemma {:induction false} NobodyActive(c: Config, steps: seq<Step>)
    requires IsRun(c, steps) && NoScan(steps, 0)
    ensures Shape(Final(c, steps))
    ensures forall i :: 0 <= i < MAX_SESSION_COUNT ==> !Final(c, steps).slots[i].active
  {
    RunSafe(c, steps);
    if steps != [] {
      var before, step := steps[..|steps| - 1], steps[|steps| - 1];
      NobodyActive(c, before);
      forall i | 0 <= i < MAX_SESSION_COUNT ensures !Final(c, steps).slots[i].active {
        OnlyScanActivates(Final(c, before), step, i);
      }
    }
  }

  /** Nobody else can have the descriptors of the first client. */
  lemma FirstIsDistinct(c: Config, steps: seq<Step>, step: Step)
    requires IsRun(c, steps) && NoScan(steps, 0) && Enabled(Final(c, steps), step)
    ensures DistinctStep(Final(c, steps), step)
  {
    NobodyActive(c, steps);
    RunSafe(c, steps);
    NegativeIsNobody(c, steps);
    var s := Final(c, steps);
    forall j | 0 <= j < MAX_SESSION_COUNT ensures s.slots[j].fds == NO_FDS {
      assert SlotOk(s.slots[j], s.workers[j]);
    }
  }

  /** A run in which at most one scan step is taken has distinct descriptors. */
  lemma {:induction false} OneScanIsDistinct(c: Config, steps: seq<Step>, n: nat)
    requires IsRun(c, steps) && NoScan(steps, n + 1) && n <= |steps| && NoScan(steps[..n], 0)
    ensures IsDistinctRun(c, steps)
  {
    if steps != [] {
      var m := |steps| - 1;
      var before := steps[..m];
      if n <= m {
        assert before[..n] == steps[..n];
        OneScanIsDistinct(c, before, n);
      } else {
        assert before[..m] == before;
        OneScanIsDistinct(c, before, m);
      }
      if m <= n {
        assert NoScan(before, 0);
        FirstIsDistinct(c, before, steps[m]);
      }
    }
  }

  lemma SubscribingOnce(key: Key)
    ensures Subscribing([key]) == CONNECTING + Asking(key)
    ensures NoScan(Subscribing([key]), 4) && NoScan(Subscribing([key])[..3], 0)
    ensures forall k :: 0 <= k < |Subscribing([key])| ==> !Subscribing([key])[k].Notify?
  {
    assert [key][..0] == [];
    assert Subscribing([]) == CONNECTING;
  }

  /** A client that has subscribed to one key, in a run that meets all hypotheses. */
  lemma OneSubscriber(key: Key)
    requires key != ""
    ensures var steps := Subscribing([key]);
            && IsRun(ONE_CLIENT, steps) && IsFreshRun(ONE_CLIENT, steps) && IsDistinctRun(ONE_CLIENT, steps)
            && !Overflows(ONE_CLIENT, steps)
            && HasSubscribed(Final(ONE_CLIENT, steps), [key], Chash(key), Looping(0))
  {
    var steps := Subscribing([key]);
    SameBucketKeys([key], Chash(key));
    SubscribingOnce(key);
    OneScanIsDistinct(ONE_CLIENT, steps, 3);
    DroppedExactly(ONE_CLIENT, steps);
  }

  /** That session is open, and listens to its key once. */
  lemma SubscriberListens(key: Key, e: Event)
    requires key != "" && e.key == key
    ensures var steps := Subscribing([key]);
            && IsRun(ONE_CLIENT, steps)
            && var slot := Final(ONE_CLIENT, steps).slots[0];
               && slot.open && slot.keys.Ok() && slot.keys.Live() == [key] && Listeners(slot, e) == 1
  {
    OneSubscriber(key);
    var steps := Subscribing([key]);
    RunSafe(ONE_CLIENT, steps);
    IndexAgreesWithLists(ONE_CLIENT, steps);
    var s := Final(ONE_CLIENT, steps);
    assert SlotOk(s.slots[0], s.workers[0]) && KeysOk(s.slots[0], s.workers[0]);
    assert s.slots[0].keys.Live() == [key];
    HitsOne(key, Chash(key));
  }

  // ---- In the whole server ----

  /** Steps of the sessions only. */
  ghost function OnlySessions(steps: seq<Step>): seq<World.Step> {
    if steps == [] then [] else OnlySessions(steps[..|steps| - 1]) + [World.OnSessions(steps[|steps| - 1])]
  }

  lemma SessionAlone(w: World.State, step: Step)
    requires Enabled(w.sessions, step) && !step.Notify?
    ensures World.Go(w, World.OnSessions(step)) == Some(World.State(w.store, Apply(w.sessions, step)))
    ensures World.SessionPart(w, World.OnSessions(step)) == Some(step)
  {
  }

  /** One more step of the whole server, seen from the sessions. */
  lemma OneMoreStep(c: World.Config, w: seq<World.Step>, step: World.Step)
    requires World.IsRun(c, w) && World.Enabled(World.Final(c, w), step)
    ensures World.IsRun(c, w + [step]) && World.Final(c, w + [step]) == World.Apply(World.Final(c, w), step)
    ensures var part := World.SessionPart(World.Final(c, w), step);
            World.SessionSide(c, w + [step]) ==
            World.SessionSide(c, w) + if part.Some? then [part.value] else []
  {
    OneMore(World.Go, World.State(R.Start(c.jobs), Start(c.sessions)), w, step);
    assert (w + [step])[..|w|] == w;
    assert World.SessionSide(c, w) + [] == World.SessionSide(c, w);
  }

  /** The sessions have taken these steps, and the store none. */
  ghost predicate RanAlone(jobs: nat, c: Config, steps: seq<Step>, w: seq<World.Step>)
    requires IsRun(c, steps)
  {
    var all := World.Config(jobs, c);
    && World.IsRun(all, w)
    && World.Final(all, w) == World.State(R.Start(jobs), Final(c, steps))
    && World.SessionSide(all, w) == steps
  }

  lemma OneMoreAlone(jobs: nat, c: Config, before: seq<Step>, step: Step, w: seq<World.Step>)
    requires IsRun(c, before) && Enabled(Final(c, before), step) && !step.Notify? && RanAlone(jobs, c, before, w)
    ensures IsRun(c, before + [step]) && RanAlone(jobs, c, before + [step], w + [World.OnSessions(step)])
  {
    SessionAlone(World.Final(World.Config(jobs, c), w), step);
    OneMoreStep(World.Config(jobs, c), w, World.OnSessions(step));
    OneMore(Go, Start(c), before, step);
  }

  lemma {:induction false} SessionsAlone(jobs: nat, c: Config, steps: seq<Step>)
    requires IsRun(c, steps) && forall k :: 0 <= k < |steps| ==> !steps[k].Notify?
    ensures RanAlone(jobs, c, steps, OnlySessions(steps))
  {
    if steps != [] {
      var before, step := steps[..|steps| - 1], steps[|steps| - 1];
      SessionsAlone(jobs, c, before);
      OneMoreAlone(jobs, c, before, step, OnlySessions(before));
      assert before + [step] == steps;
    }
  }

  /** A job writes one pair: the client subscribes, and then the batch gets the lock, and its item
      calls the callback. */
  ghost function Telling(key: Key, value: string): seq<World.Step> {
    OnlySessions(Subscribing([key])) +
    [World.OnStore(R.WriteLock(0, WriteBatch([Pair(key, value)]))), World.OnStore(R.Item(0))]
  }

  ghost const ONE_OF_EACH := World.Config(1, ONE_CLIENT)

  lemma WriteEmits(key: Key, value: string)
    ensures var op := WriteBatch([Pair(key, value)]);
            var s := R.Start(1);
            && R.Enabled(s, R.WriteLock(0, op))
            && var s1 := R.Apply(s, R.WriteLock(0, op));
               && R.Enabled(s1, R.Item(0)) && R.Emitted(s, R.WriteLock(0, op)) == []
               && R.Emitted(s1, R.Item(0)) == [Written(key, value)]
               && R.Apply(s1, R.Item(0)).store == map[key := value]
  {
  }

  lemma TellingRuns(key: Key, value: string)
    requires key != ""
    ensures World.IsRun(ONE_OF_EACH, Telling(key, value)) && IsRun(ONE_CLIENT, Subscribing([key]))
    ensures var s := Final(ONE_CLIENT, Subscribing([key]));
            && Shape(s)
            && World.Final(ONE_OF_EACH, Telling(key, value)).sessions == Apply(s, Notify(Written(key, value)))
            && World.Final(ONE_OF_EACH, Telling(key, value)).store.store == map[key := value]
            && World.SessionSide(ONE_OF_EACH, Telling(key, value)) ==
               Subscribing([key]) + [Notify(Written(key, value))]
  {
    OneSubscriber(key);
    SubscribingOnce(key);
    SessionsAlone(1, ONE_CLIENT, Subscribing([key]));
    WriteEmits(key, value);
    var w := OnlySessions(Subscribing([key]));
    var lock, item := World.OnStore(R.WriteLock(0, WriteBatch([Pair(key, value)]))), World.OnStore(R.Item(0));
    OneMoreStep(ONE_OF_EACH, w, lock);
    OneMoreStep(ONE_OF_EACH, w + [lock], item);
    assert Telling(key, value) == w + [lock] + [item];
  }

  lemma {:induction false} NothingYet(c: Config, steps: seq<Step>, i: nat)
    requires IsRun(c, steps) && i < MAX_SESSION_COUNT && forall k :: 0 <= k < |steps| ==> !steps[k].Notify?
    ensures Projection(c, steps, i) == []
  {
    if steps != [] {
      NothingYet(c, steps[..|steps| - 1], i);
    }
  }

  /** A notification keeps the hypotheses on runs, and an open session gets it as often as it listens. */
  lemma NotifiedNext(c: Config, steps: seq<Step>, e: Event, i: nat)
    requires IsRun(c, steps) && IsFreshRun(c, steps) && IsDistinctRun(c, steps) && !Overflows(c, steps)
    requires i < MAX_SESSION_COUNT && Shape(Final(c, steps)) && Final(c, steps).slots[i].open
    ensures var more := steps + [Notify(e)];
            && IsRun(c, more) && IsFreshRun(c, more) && IsDistinctRun(c, more) && !Overflows(c, more)
            && Projection(c, more, i) == Projection(c, steps, i) + Repeat(e, Listeners(Final(c, steps).slots[i], e))
  {
    OneMore(Go, Start(c), steps, Notify(e));
    assert (steps + [Notify(e)])[..|steps + [Notify(e)]| - 1] == steps;
  }

  /** The client is told: in this run of the whole server, which meets every hypothesis of the theorems
      on streams and copies, it gets exactly the event of the write. */
  lemma SubscriberIsTold(key: Key, value: string)
    requires key != ""
    ensures var steps := Telling(key, value);
            && World.IsRun(ONE_OF_EACH, steps) && World.Orderly(ONE_OF_EACH, steps)
            && var w := World.Final(ONE_OF_EACH, steps);
               && Shape(w.sessions)
               && w.sessions.slots[0].stream == [Written(key, value)]
               && w.store.store == map[key := value]
  {
    var e, side := Written(key, value), Subscribing([key]);
    TellingRuns(key, value);
    OneSubscriber(key);
    SubscriberListens(key, e);
    SubscribingOnce(key);
    NothingYet(ONE_CLIENT, side, 0);
    NotifiedNext(ONE_CLIENT, side, e, 0);
    World.StreamsFollowCommits(ONE_OF_EACH, Telling(key, value), 0);
    assert Repeat(e, 1) == Repeat(e, 0) + [e] == [e];
  }
}

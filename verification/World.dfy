/** The whole server: threads on the store and threads on the sessions, joined by the callbacks
    that kvs_write and kvs_delete call for every change while they hold the store's lock. */
module World {
  import opened Constants
  import opened KvsBuckets
  import opened Paths
  import opened KeyHash
  import opened KeyList
  import opened Formatting
  import opened Batches
  import opened IndexAgreement
  import opened Overflow
  import opened Streams
  import R = StoreRuns
  import S = Slots
  import opened SlotSafety

  datatype State = State(store: R.State, sessions: S.State)

  datatype Step = OnStore(r: R.Step) | OnSessions(s: S.Step)

  datatype Config = Config(jobs: nat, sessions: S.Config)

  ghost predicate Enabled(w: State, step: Step) {
    match step
    case OnStore(r) => R.Enabled(w.store, r) && S.Shape(w.sessions)
    case OnSessions(s) => !s.Notify? && S.Enabled(w.sessions, s)
  }

  /** The session side of a step: the callback, for a store step that emits an event. */
  ghost function SessionPart(w: State, step: Step): Option<S.Step>
    requires Enabled(w, step)
  {
    match step
    case OnStore(r) => if R.Emitted(w.store, r) == [] then None else Some(S.Notify(R.Emitted(w.store, r)[0]))
    case OnSessions(s) => Some(s)
  }

  ghost function Apply(w: State, step: Step): State
    requires Enabled(w, step)
  {
    var part := SessionPart(w, step);
    State(if step.OnStore? then R.Apply(w.store, step.r) else w.store,
          if part.Some? then S.Apply(w.sessions, part.value) else w.sessions)
  }

  ghost function Go(w: State, step: Step): Option<State> {
    if Enabled(w, step) then Some(Apply(w, step)) else None
  }

  /** The state after a sequence of steps, if each of them was enabled in its turn. */
  ghost function Exec(c: Config, steps: seq<Step>): Option<State> {
    RunFrom(Go, State(R.Start(c.jobs), S.Start(c.sessions)), steps)
  }

  ghost predicate IsRun(c: Config, steps: seq<Step>) {
    Exec(c, steps).Some?
  }

  ghost function Final(c: Config, steps: seq<Step>): State
    requires IsRun(c, steps)
  {
    Exec(c, steps).value
  }

  /** The steps of a run that the store sees. */
  ghost function StoreSide(steps: seq<Step>): seq<R.Step> {
    if steps == [] then []
    else
      var before, step := StoreSide(steps[..|steps| - 1]), steps[|steps| - 1];
      if step.OnStore? then before + [step.r] else before
  }

  /** The steps of a run that the sessions see. */
  ghost function SessionSide(c: Config, steps: seq<Step>): seq<S.Step>
    requires IsRun(c, steps)
  {
    if steps == [] then []
    else
      var before := SessionSide(c, steps[..|steps| - 1]);
      var part := SessionPart(Final(c, steps[..|steps| - 1]), steps[|steps| - 1]);
      if part.Some? then before + [part.value] else before
  }

  /** Each side of a run of the server is a run of its own machine, and the sessions see the
      events of the store in commit order. */
  lemma {:induction false} Sides(c: Config, steps: seq<Step>)
    requires IsRun(c, steps)
    ensures R.IsRun(c.jobs, StoreSide(steps)) && R.Final(c.jobs, StoreSide(steps)) == Final(c, steps).store
    ensures S.IsRun(c.sessions, SessionSide(c, steps))
    ensures S.Final(c.sessions, SessionSide(c, steps)) == Final(c, steps).sessions
    ensures Final(c, steps).sessions.log == Final(c, steps).store.log
  {
    if steps != [] {
      var before, step := steps[..|steps| - 1], steps[|steps| - 1];
      Sides(c, before);
      var w := Final(c, before);
      var part := SessionPart(w, step);
      if step.OnStore? {
        assert StoreSide(steps)[..|StoreSide(before)|] == StoreSide(before);
      }
      LogGrows(w, step);
      if part.Some? {
        assert SessionSide(c, steps)[..|SessionSide(c, before)|] == SessionSide(c, before);
      }
    }
  }

  lemma LogGrows(w: State, step: Step)
    requires Enabled(w, step) && w.sessions.log == w.store.log
    ensures Apply(w, step).sessions.log == Apply(w, step).store.log
  {
    if step.OnStore? {
      var evs := R.Emitted(w.store, step.r);
      assert |evs| <= 1;
      assert evs != [] ==> evs == [evs[0]];
      assert w.store.log + [] == w.store.log;
    } else {
      assert S.Apply(w.sessions, step.s).log == w.sessions.log;
    }
  }

  /** The hypotheses on a run: fresh naming, distinct descriptors, and no overflowing bucket. */
  ghost predicate Orderly(c: Config, steps: seq<Step>)
    requires IsRun(c, steps)
  {
    && S.IsRun(c.sessions, SessionSide(c, steps))
    && IsFreshRun(c.sessions, SessionSide(c, steps))
    && IsDistinctRun(c.sessions, SessionSide(c, steps))
    && !Overflows(c.sessions, SessionSide(c, steps))
  }

  /** What a session has received is the projection by its key list of the events of the store;
      when no batch is under way these are the events of the whole batches in lock order. */
  lemma StreamsFollowCommits(c: Config, steps: seq<Step>, i: nat)
    requires IsRun(c, steps) && Orderly(c, steps) && i < MAX_SESSION_COUNT
    ensures var w := Final(c, steps);
            && S.Shape(w.sessions)
            && w.sessions.slots[i].stream == Projection(c.sessions, SessionSide(c, steps), i)
            && (w.store.writer == None ==> w.sessions.log == LogOf(map[], R.LockOrder(StoreSide(steps))))
            && Replay(map[], w.sessions.log) == w.store.store
  {
    Sides(c, steps);
    StreamIsProjection(c.sessions, SessionSide(c, steps), i);
    R.RunInv(c.jobs, StoreSide(steps));
    R.EmittedEventsReplay(c.jobs, StoreSide(steps));
    if Final(c, steps).store.writer == None {
      assert R.Order(Final(c, steps).store) == Final(c, steps).store.history;
    }
  }

  // ---- A subscriber's copy ----

  /** From step number n on, the session is served and subscribed to the key. */
  ghost predicate Watches(c: Config, steps: seq<Step>, n: nat, i: nat, key: Key)
    requires IsRun(c, steps) && n <= |steps|
  {
    && i < MAX_SESSION_COUNT
    && S.Shape(Final(c, steps).sessions)
    && var slot := Final(c, steps).sessions.slots[i];
       && slot.open && slot.keys.Ok() && key in slot.keys.Live()
       && (n < |steps| ==> Watches(c, steps[..|steps| - 1], n, i, key))
  }

  lemma {:induction false} HitsLive(keys: seq<Key>, key: Key)
    requires key in keys
    ensures Hits(keys, Chash(key)) >= 1
  {
    var n := |keys| - 1;
    if keys[n] != key {
      assert key in keys[..n];
      HitsLive(keys[..n], key);
    }
  }

  lemma {:induction false} ReplayRepeat(m: Store, e: Event, n: nat, key: Key)
    ensures Lookup(Replay(m, S.Repeat(e, n)), key) == if e.key == key && n > 0 then ValueIn(e) else Lookup(m, key)
  {
    if n > 0 {
      ReplayRepeat(m, e, n - 1, key);
      ReplayAppend(m, S.Repeat(e, n - 1), [e]);
      ReplayOne(Replay(m, S.Repeat(e, n - 1)), e);
      EventDecides(Replay(m, S.Repeat(e, n - 1)), e, key);
    }
  }

  /** One more event, received n times, on a copy that follows the stream from some position. */
  lemma CopyFollows(copy: Store, stream: seq<Event>, from: nat, e: Event, n: nat, key: Key)
    requires from <= |stream| && (e.key == key ==> n > 0)
    ensures Lookup(Replay(copy, (stream + S.Repeat(e, n))[from..]), key) ==
            if e.key == key then ValueIn(e) else Lookup(Replay(copy, stream[from..]), key)
  {
    assert (stream + S.Repeat(e, n))[from..] == stream[from..] + S.Repeat(e, n);
    ReplayAppend(copy, stream[from..], S.Repeat(e, n));
    ReplayRepeat(Replay(copy, stream[from..]), e, n, key);
  }

  /** How one store step changes the value of a key: as its event says. */
  lemma StoreMoves(s: R.State, r: R.Step, key: Key)
    requires R.Enabled(s, r)
    ensures var evs := R.Emitted(s, r);
            && |evs| <= 1
            && Lookup(R.Apply(s, r).store, key) ==
               if evs != [] && evs[0].key == key then ValueIn(evs[0])
               else Lookup(s.store, key)
  {
  }

  /** The copy that follows the stream from position |old_| on has the value of the store. */
  ghost predicate Coherent(w: State, i: nat, key: Key, copy: Store, old_: seq<Event>)
    requires i < MAX_SESSION_COUNT && S.Shape(w.sessions)
  {
    var stream := w.sessions.slots[i].stream;
    old_ <= stream && Lookup(Replay(copy, stream[|old_|..]), key) == Lookup(w.store.store, key)
  }

  lemma CoherentStep(c: Config, before: seq<Step>, step: Step, i: nat, key: Key, copy: Store, old_: seq<Event>)
    requires IsRun(c, before) && Orderly(c, before) && Enabled(Final(c, before), step)
    requires Watches(c, before, |before|, i, key) && Coherent(Final(c, before), i, key, copy, old_)
    ensures S.Shape(Apply(Final(c, before), step).sessions)
    ensures Coherent(Apply(Final(c, before), step), i, key, copy, old_)
  {
    var w := Final(c, before);
    var slot := w.sessions.slots[i];
    OneMoreStep(c, before, step, i, key);
    if step.OnStore? {
      StoreMoves(w.store, step.r, key);
      var evs := R.Emitted(w.store, step.r);
      if evs != [] {
        if evs[0].key == key {
          HitsLive(slot.keys.Live(), key);
        }
        CopyFollows(copy, slot.stream, |old_|, evs[0], Listeners(slot, evs[0]), key);
      }
    }
  }

  /** A subscriber's copy is coherent. Let a session be subscribed to a key from some point of a
      run on. A copy of the store that held the right value at that point, and to which the
      client applies the events it receives from then on, holds the right value of that key in
      every later state, whatever collisions chash has. */
  lemma {:induction false} SubscriberCopyIsCoherent(c: Config, steps: seq<Step>, n: nat, i: nat, key: Key, copy: Store)
    requires IsRun(c, steps) && Orderly(c, steps) && n <= |steps| && Watches(c, steps, n, i, key)
    requires IsRun(c, steps[..n]) && S.Shape(Final(c, steps[..n]).sessions)
    requires Lookup(copy, key) == Lookup(Final(c, steps[..n]).store.store, key)
    ensures var old_ := Final(c, steps[..n]).sessions.slots[i].stream;
            var stream := Final(c, steps).sessions.slots[i].stream;
            && old_ <= stream
            && Lookup(Replay(copy, stream[|old_|..]), key) == Lookup(Final(c, steps).store.store, key)
    decreases |steps|
  {
    var old_ := Final(c, steps[..n]).sessions.slots[i].stream;
    if n == |steps| {
      assert steps[..n] == steps;
      assert old_[|old_|..] == [];
    } else {
      var before, step := steps[..|steps| - 1], steps[|steps| - 1];
      assert before[..n] == steps[..n];
      OrderlyBefore(c, steps);
      SubscriberCopyIsCoherent(c, before, n, i, key, copy);
      CoherentStep(c, before, step, i, key, copy, old_);
    }
  }

  lemma OrderlyBefore(c: Config, steps: seq<Step>)
    requires IsRun(c, steps) && steps != [] && Orderly(c, steps)
    ensures IsRun(c, steps[..|steps| - 1]) && Orderly(c, steps[..|steps| - 1])
  {
    var before, step := steps[..|steps| - 1], steps[|steps| - 1];
    Sides(c, before);
    var part := SessionPart(Final(c, before), step);
    if part.Some? {
      assert SessionSide(c, steps)[..|SessionSide(c, before)|] == SessionSide(c, before);
    }
  }

  /** What one more step adds to the stream of a session that is being served. */
  lemma OneMoreStep(c: Config, before: seq<Step>, step: Step, i: nat, key: Key)
    requires IsRun(c, before) && Orderly(c, before) && Enabled(Final(c, before), step)
    requires i < MAX_SESSION_COUNT && S.Shape(Final(c, before).sessions) && Final(c, before).sessions.slots[i].open
    ensures var w := Final(c, before);
            var stream := w.sessions.slots[i].stream;
            && S.Shape(Apply(w, step).sessions)
            && Apply(w, step).sessions.slots[i].stream ==
               if step.OnStore? && R.Emitted(w.store, step.r) != [] then
                 stream + S.Repeat(R.Emitted(w.store, step.r)[0],
                                   Listeners(w.sessions.slots[i], R.Emitted(w.store, step.r)[0]))
               else stream
  {
    Sides(c, before);
    var w, side := Final(c, before), SessionSide(c, before);
    RunSafe(c.sessions, side);
    assert SlotOk(w.sessions.slots[i], w.sessions.workers[i]);
    var part := SessionPart(w, step);
    if part.Some? {
      StreamMoves(w.sessions, part.value, i);
      if step.OnStore? {
        IndexAgreesWithLists(c.sessions, side);
        DroppedExactly(c.sessions, side);
        RunDistinct(c.sessions, side);
        EntriesAreListeners(w.sessions, i, R.Emitted(w.store, step.r)[0]);
      }
    }
  }
}

/** The notification pipes over whole runs: from the events of the store to what a client shows. */
module Notifications {
  import opened Constants
  import opened KeyHash
  import opened Formatting
  import opened Slots
  import opened SlotSafety
  import opened IndexAgreement
  import opened Overflow
  import opened Streams
  import opened ClientOps
  import Wire

  /** What a step does to the pipes: an activation opens an empty one, the begin of a disconnect
      closes one, and a notification delivers frames. */
  ghost predicate PipesMove(s: State, step: Step, pipes: Pipes, pipes': Pipes)
    requires Enabled(s, step)
  {
    if Activates(s, step) then pipes' == pipes[s.activators[step.a].fds.notif := []]
    else if step.W? && step.w.Begin? then pipes' == pipes - {s.slots[step.i].fds.notif}
    else if step.Notify? then Delivered(pipes, s.index[Chash(step.e.key)], EventFrame(step.e), pipes')
    else pipes' == pipes
  }

  /** The pipes before the first step of a run and after each of its steps. */
  ghost predicate PipesOf(c: Config, steps: seq<Step>, pipes: seq<Pipes>)
    requires IsRun(c, steps)
  {
    var n := |steps|;
    && |pipes| == n + 1
    && (n == 0 ==> pipes[0] == map[])
    && (n > 0 ==>
          && PipesOf(c, steps[..n - 1], pipes[..n])
          && PipesMove(Final(c, steps[..n - 1]), steps[n - 1], pipes[n - 1], pipes[n]))
  }

  lemma MoveKeepsStreams(s: State, step: Step, pipes: Pipes, pipes': Pipes)
    requires Safe(s) && DistinctFds(s) && Enabled(s, step) && DistinctStep(s, step)
    requires HoldStreams(pipes, s) && PipesMove(s, step, pipes, pipes')
    ensures HoldStreams(pipes', Apply(s, step))
  {
    var s' := Apply(s, step);
    if step.Notify? {
      NotifyRefines(s, step.e, pipes, pipes');
    } else {
      SlotsStep(s, step);
      forall i | 0 <= i < MAX_SESSION_COUNT && s'.slots[i].open ensures HoldsStream(pipes', s'.slots[i]) {
        assert SlotOk(s.slots[i], s.workers[i]) && SlotOk(s'.slots[i], s'.workers[i]);
        PipeStays(s, step, i, pipes, pipes');
      }
    }
  }

  /** A step that is no notification leaves the pipe of every open session as it was, or opens it. */
  lemma PipeStays(s: State, step: Step, i: nat, pipes: Pipes, pipes': Pipes)
    requires Safe(s) && DistinctFds(s) && Enabled(s, step) && DistinctStep(s, step) && !step.Notify?
    requires i < MAX_SESSION_COUNT && Shape(Apply(s, step)) && Apply(s, step).slots[i].open
    requires HoldStreams(pipes, s) && PipesMove(s, step, pipes, pipes')
    ensures HoldsStream(pipes', Apply(s, step).slots[i])
  {
    assert SlotOk(s.slots[i], s.workers[i]);
    StreamMoves(s, step, i);
    if Activates(s, step) && s.activators[step.a].i == i {
    } else {
      assert s.slots[i].open && Apply(s, step).slots[i].fds == s.slots[i].fds;
      assert HoldsStream(pipes, s.slots[i]);
      if step.W? && step.w.Begin? {
        assert SlotOk(s.slots[step.i], s.workers[step.i]);
      }
    }
  }

  /** In every run with distinct descriptors the pipe of an open session holds one frame for each
      event of its stream, in order, and nothing else. */
  lemma {:induction false} PipesHoldStreams(c: Config, steps: seq<Step>, pipes: seq<Pipes>)
    requires IsRun(c, steps) && IsDistinctRun(c, steps) && PipesOf(c, steps, pipes)
    ensures HoldStreams(pipes[|steps|], Final(c, steps))
  {
    if steps != [] {
      var n := |steps| - 1;
      PipesHoldStreams(c, steps[..n], pipes[..n + 1]);
      RunSafe(c, steps[..n]);
      RunDistinct(c, steps[..n]);
      MoveKeepsStreams(Final(c, steps[..n]), steps[n], pipes[n], pipes[n + 1]);
    }
  }

  // ---- What the client shows ----

  /** Every event of a run fits its frame. */
  ghost predicate EventsFit(steps: seq<Step>) {
    forall k :: 0 <= k < |steps| && steps[k].Notify? ==> EventOk(steps[k].e)
  }

  ghost predicate AllFit(es: seq<Event>) {
    forall k :: 0 <= k < |es| ==> EventOk(es[k])
  }

  lemma RepeatFits(e: Event, n: nat)
    requires EventOk(e)
    ensures AllFit(Repeat(e, n))
  {
    forall k | 0 <= k < n ensures EventOk(Repeat(e, n)[k]) {
      RepeatAt(e, n, k);
    }
  }

  lemma {:induction false} StreamFits(c: Config, steps: seq<Step>, i: nat)
    requires IsRun(c, steps) && EventsFit(steps) && i < MAX_SESSION_COUNT
    ensures Shape(Final(c, steps)) && AllFit(Final(c, steps).slots[i].stream)
  {
    if steps != [] {
      var before, step := steps[..|steps| - 1], steps[|steps| - 1];
      assert forall k :: 0 <= k < |before| ==> before[k] == steps[k];
      StreamFits(c, before, i);
      RunSafe(c, before);
      var s := Final(c, before);
      StreamMoves(s, step, i);
      if step.Notify? {
        RepeatFits(step.e, multiset(s.index[Chash(step.e.key)])[s.slots[i].fds.notif]);
      }
    }
  }

  /** The bytes of a pipe. */
  ghost function Bytes(frames: seq<string>): string {
    if frames == [] then "" else frames[0] + Bytes(frames[1..])
  }

  lemma {:induction false} BytesAreFrames(frames: seq<string>, es: seq<Event>)
    requires FramesOf(frames, es) && AllFit(es)
    ensures Bytes(frames) == Wire.EventFrames(es) && Wire.AllOk(es)
  {
    if es != [] {
      BytesAreFrames(frames[1..], es[1..]);
    }
  }

  /** From the store to the screen: what the client of an open session shows for the bytes in its
      pipe is, in order and unchanged, the texts of the events that its own key list selects from
      the history. */
  lemma ClientShowsProjection(c: Config, steps: seq<Step>, pipes: seq<Pipes>, i: nat)
    requires IsRun(c, steps) && IsFreshRun(c, steps) && IsDistinctRun(c, steps) && !Overflows(c, steps)
    requires PipesOf(c, steps, pipes) && EventsFit(steps) && i < MAX_SESSION_COUNT
    requires Shape(Final(c, steps)) && Final(c, steps).slots[i].open
    ensures var fd := Final(c, steps).slots[i].fds.notif;
            && fd in pipes[|steps|]
            && Wire.ShownAll(Bytes(pipes[|steps|][fd])) == Wire.EventTexts(Projection(c, steps, i))
  {
    PipesHoldStreams(c, steps, pipes);
    var slot := Final(c, steps).slots[i];
    assert HoldsStream(pipes[|steps|], slot);
    StreamFits(c, steps, i);
    StreamIsProjection(c, steps, i);
    BytesAreFrames(pipes[|steps|][slot.fds.notif], slot.stream);
    Wire.NotificationsRoundTrip(slot.stream);
  }
}

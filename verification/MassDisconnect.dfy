/** When a mass disconnect returns: the loop of disconnect_all_clients in src/server/client.c,
    against the workers that it waits for. */
module MassDisconnect {
  import opened Constants
  import opened Paths
  import opened Counting
  import opened Slots
  import opened SlotSafety
  import opened Sessions

  /** Handler d waits for flagged sessions. */
  ghost predicate IsSweeping(s: State, d: nat) {
    Safe(s) && d < |s.handlers| && s.handlers[d].Sweeping?
  }

  ghost function NotNextRound(d: nat): Step -> bool {
    step => step != H(d, NextRound)
  }

  // ---- One round ----

  /** These slots are inactive, and the scan has taken the flags of those it has passed. */
  ghost predicate RoundSoFar(s: State, d: nat, idle: set<nat>) {
    && IsSweeping(s, d)
    && forall i :: i in idle && i < MAX_SESSION_COUNT ==>
         !s.slots[i].active && (i < s.handlers[d].i ==> !s.slots[i].force)
  }

  lemma SweeperMoves(s: State, step: Step, d: nat)
    requires IsSweeping(s, d) && Enabled(s, step) && step != H(d, NextRound)
    ensures IsSweeping(Apply(s, step), d)
    ensures Apply(s, step).handlers[d].i == s.handlers[d].i + if step == H(d, Sweep) then 1 else 0
  {
    SafeStep(s, step);
    assert step.H? && step.d == d ==> step.h == Sweep;
  }

  /** While a handler sweeps, nobody activates a slot, and only its own sweep changes the flag of an
      inactive one. */
  lemma IdleSlotStays(s: State, step: Step, d: nat, i: nat)
    requires IsSweeping(s, d) && Enabled(s, step) && i < MAX_SESSION_COUNT && !s.slots[i].active
    ensures Shape(Apply(s, step)) && !Apply(s, step).slots[i].active
    ensures Apply(s, step).slots[i].force <==>
            s.slots[i].force && !(step == H(d, Sweep) && s.handlers[d].i == i)
  {
    SafeStep(s, step);
    OnlyScanActivates(s, step, i);
  }

  lemma RoundGoesOn(s: State, step: Step, d: nat, idle: set<nat>)
    requires RoundSoFar(s, d, idle) && Enabled(s, step) && step != H(d, NextRound)
    ensures RoundSoFar(Apply(s, step), d, idle)
  {
    SweeperMoves(s, step, d);
    var s' := Apply(s, step);
    forall i | i in idle && i < MAX_SESSION_COUNT
      ensures !s'.slots[i].active && (i < s'.handlers[d].i ==> !s'.slots[i].force)
    {
      IdleSlotStays(s, step, d, i);
    }
  }

  ghost function Round(d: nat, idle: set<nat>): (seq<Step>, State) -> bool {
    (since, s) => RoundSoFar(s, d, idle)
  }

  lemma RoundKept(d: nat, idle: set<nat>)
    ensures StepsKeep(Go, Round(d, idle), NotNextRound(d))
  {
    forall since, s, step | Round(d, idle)(since, s) && NotNextRound(d)(step) && Go(s, step).Some?
      ensures Round(d, idle)(since + [step], Go(s, step).value)
    {
      RoundGoesOn(s, step, d, idle);
    }
  }

  ghost function IdleSlots(s: State): set<nat>
    requires Shape(s)
  {
    set i: nat | i < MAX_SESSION_COUNT && !s.slots[i].active
  }

  lemma RoundStarts(s: State, d: nat)
    requires Safe(s) && Enabled(s, H(d, NextRound)) && s.handlers[d].waiting > 0
    ensures RoundSoFar(Apply(s, H(d, NextRound)), d, IdleSlots(s))
  {
    SafeStep(s, H(d, NextRound));
  }

  /** A round of the loop: from one head of the loop to the next, with the counter above zero. */
  ghost predicate IsRound(c: Config, steps: seq<Step>, p: nat, q: nat, d: nat) {
    && p < q <= |steps| && IsRun(c, steps) && steps[p] == H(d, NextRound)
    && IsRun(c, steps[..p]) && Enabled(Final(c, steps[..p]), H(d, NextRound))
    && Final(c, steps[..p]).handlers[d].waiting > 0
    && IsRun(c, steps[..q]) && Enabled(Final(c, steps[..q]), H(d, NextRound))
    && forall k :: p < k < q ==> steps[k] != H(d, NextRound)
  }

  /** A round takes the flag of every session that had ended when it began. */
  lemma RoundClears(c: Config, steps: seq<Step>, p: nat, q: nat, d: nat)
    requires IsRound(c, steps, p, q, d)
    ensures var s, s' := Final(c, steps[..p]), Final(c, steps[..q]);
            forall i :: 0 <= i < MAX_SESSION_COUNT && !s.slots[i].active ==> !s'.slots[i].active && !s'.slots[i].force
    ensures Final(c, steps[..q]).handlers[d].Sweeping?
  {
    var s := Final(c, steps[..p]);
    RunSafe(c, steps[..p]);
    PrefixRuns(Go, Start(c), steps, p);
    RoundStarts(s, d);
    RoundKept(d, IdleSlots(s));
    KeptSince(Go, Start(c), steps, p + 1, q, Round(d, IdleSlots(s)), NotNextRound(d));
    var s' := Final(c, steps[..q]);
    assert RoundSoFar(s', d, IdleSlots(s));
    forall i | 0 <= i < MAX_SESSION_COUNT && !s.slots[i].active ensures !s'.slots[i].active && !s'.slots[i].force {
      assert i in IdleSlots(s);
    }
  }

  /** A round that begins when every session has ended is the last. */
  lemma LastRound(c: Config, steps: seq<Step>, p: nat, q: nat, d: nat)
    requires IsRound(c, steps, p, q, d)
    requires forall i :: 0 <= i < MAX_SESSION_COUNT ==> !Final(c, steps[..p]).slots[i].active
    ensures Apply(Final(c, steps[..q]), H(d, NextRound)).handlers[d] == Finishing
  {
    RoundClears(c, steps, p, q, d);
    RunSafe(c, steps[..q]);
    var s' := Final(c, steps[..q]);
    assert HandlerOk(s', s'.handlers[d]);
    CountNone(s'.slots, IsForced);
  }

  // ---- All rounds ----

  ghost function NotLeave(d: nat): Step -> bool {
    step => step != H(d, Leave)
  }

  /** Handler d is at work, and slot i is inactive. */
  ghost predicate IdleAt(s: State, d: nat, i: nat) {
    Safe(s) && d < |s.handlers| && !s.handlers[d].Off? && i < MAX_SESSION_COUNT && !s.slots[i].active
  }

  ghost function Idles(d: nat, i: nat): (seq<Step>, State) -> bool {
    (since, s) => IdleAt(s, d, i)
  }

  lemma IdleKept(d: nat, i: nat)
    ensures StepsKeep(Go, Idles(d, i), NotLeave(d))
  {
    forall since, s, step | Idles(d, i)(since, s) && NotLeave(d)(step) && Go(s, step).Some?
      ensures Idles(d, i)(since + [step], Go(s, step).value)
    {
      SafeStep(s, step);
      OnlyScanActivates(s, step, i);
    }
  }

  ghost predicate AtWork(s: State, d: nat) {
    Safe(s) && d < |s.handlers| && !s.handlers[d].Off?
  }

  ghost function Works(d: nat): (seq<Step>, State) -> bool {
    (since, s) => AtWork(s, d)
  }

  lemma WorkKept(d: nat)
    ensures StepsKeep(Go, Works(d), NotLeave(d))
  {
    forall since, s, step | Works(d)(since, s) && NotLeave(d)(step) && Go(s, step).Some?
      ensures Works(d)(since + [step], Go(s, step).value)
    {
      SafeStep(s, step);
    }
  }

  /** Slot i is inactive at some point between p and r, and then at r. */
  lemma StaysIdle(c: Config, steps: seq<Step>, p: nat, k: nat, r: nat, d: nat, i: nat)
    requires IsRun(c, steps) && p <= k <= r <= |steps| && i < MAX_SESSION_COUNT
    requires forall j :: p <= j < r ==> steps[j] != H(d, Leave)
    requires IsRun(c, steps[..p]) && AtWork(Final(c, steps[..p]), d)
    requires IsRun(c, steps[..k]) && Shape(Final(c, steps[..k])) && !Final(c, steps[..k]).slots[i].active
    ensures IsRun(c, steps[..r]) && Shape(Final(c, steps[..r])) && !Final(c, steps[..r]).slots[i].active
  {
    WorkKept(d);
    KeptSince(Go, Start(c), steps, p, k, Works(d), NotLeave(d));
    IdleKept(d, i);
    KeptSince(Go, Start(c), steps, k, r, Idles(d, i), NotLeave(d));
  }

  lemma WipeIdles(c: Config, steps: seq<Step>, j: nat, i: nat)
    requires IsRun(c, steps) && j < |steps| && steps[j] == W(i, Wipe)
    ensures IsRun(c, steps[..j + 1]) && Shape(Final(c, steps[..j + 1]))
    ensures i < MAX_SESSION_COUNT && !Final(c, steps[..j + 1]).slots[i].active
  {
    PrefixRuns(Go, Start(c), steps, j);
  }

  /** A flagged session whose worker takes 15 steps is wiped. */
  lemma WipedBetween(c: Config, steps: seq<Step>, p: nat, r: nat, i: nat) returns (j: nat)
    requires IsRun(c, steps) && p <= r <= |steps| && i < MAX_SESSION_COUNT
    requires IsRun(c, steps[..p]) && Shape(Final(c, steps[..p]))
    requires Final(c, steps[..p]).slots[i].active && Final(c, steps[..p]).slots[i].force
    requires OwnSteps(steps[p..r], i) >= 15
    ensures p <= j < r && steps[j] == W(i, Wipe)
  {
    if NoWipe(steps, p, r, i) {
      FlaggedSessionEnds(c, steps, p, r, i);
    }
    j :| p <= j < r && steps[j] == W(i, Wipe);
  }

  lemma SweptIsFlagged(s: State, d: nat, i: nat)
    requires IsSweeping(s, d) && i < MAX_SESSION_COUNT && s.slots[i].active
    ensures s.slots[i].force
  {
    assert HandlerOk(s, s.handlers[d]);
  }

  lemma SweeperWorks(s: State, d: nat)
    requires IsSweeping(s, d)
    ensures AtWork(s, d)
  {
  }

  /** A session that is flagged at p, and whose worker takes 15 steps before r, has ended at r. */
  lemma EndedBy(c: Config, steps: seq<Step>, p: nat, r: nat, d: nat, i: nat)
    requires IsRun(c, steps) && p <= r <= |steps| && i < MAX_SESSION_COUNT
    requires forall j :: p <= j < r ==> steps[j] != H(d, Leave)
    requires IsRun(c, steps[..p]) && IsSweeping(Final(c, steps[..p]), d)
    requires Final(c, steps[..p]).slots[i].active ==> OwnSteps(steps[p..r], i) >= 15
    ensures IsRun(c, steps[..r]) && Shape(Final(c, steps[..r])) && !Final(c, steps[..r]).slots[i].active
  {
    var k := p;
    SweeperWorks(Final(c, steps[..p]), d);
    if Final(c, steps[..p]).slots[i].active {
      SweptIsFlagged(Final(c, steps[..p]), d, i);
      var j := WipedBetween(c, steps, p, r, i);
      WipeIdles(c, steps, j, i);
      k := j + 1;
    }
    StaysIdle(c, steps, p, k, r, d, i);
  }

  /** The mass disconnect ends as soon as the workers get their turns: once each session that was
      active at some point of the waiting loop has got 15 steps of its worker, the round that begins
      then is the last. */
  lemma MassDisconnectEnds(c: Config, steps: seq<Step>, p: nat, r: nat, q: nat, d: nat)
    requires p <= r && IsRound(c, steps, r, q, d)
    requires forall j :: p <= j < r ==> steps[j] != H(d, Leave)
    requires IsRun(c, steps[..p]) && d < |Final(c, steps[..p]).handlers| && Final(c, steps[..p]).handlers[d].Sweeping?
    requires Shape(Final(c, steps[..p]))
    requires forall i :: 0 <= i < MAX_SESSION_COUNT && Final(c, steps[..p]).slots[i].active ==>
               OwnSteps(steps[p..r], i) >= 15
    ensures Apply(Final(c, steps[..q]), H(d, NextRound)).handlers[d] == Finishing
  {
    RunSafe(c, steps[..p]);
    forall i | 0 <= i < MAX_SESSION_COUNT ensures !Final(c, steps[..r]).slots[i].active {
      EndedBy(c, steps, p, r, d, i);
    }
    LastRound(c, steps, r, q, d);
  }
}

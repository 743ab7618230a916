/** Threads on the store under its one read-write lock (src/server/operations.c): batches move
    item by item, readers look item by item, in any interleaving. */
module StoreRuns {
  import opened Sequences
  import opened KvsBuckets
  import opened Paths
  import opened Formatting
  import opened Batches

  /** Everything a thread may ask while it holds the lock for reading. A backup is one look at
      the whole table: the memory that fork copies. */
  datatype Query = Read(keys: seq<string>) | Exists(key: string) | Show | Backup {
    function Looks(): nat {
      match this
      case Read(keys) => |keys|
      case Exists(_) => 1
      case Show => TABLE_SIZE
      case Backup => 1
    }
  }

  datatype Answer = Value(value: Option<string>) | Part(pairs: map<string, string>)

  /** What the i-th look of a query sees in a store: a value, or the pairs of one bucket. */
  ghost function Look(q: Query, i: nat, m: Store): Answer
    requires i < q.Looks()
  {
    match q
    case Read(keys) => Value(Lookup(m, keys[i]))
    case Exists(key) => Value(Lookup(m, key))
    case Show => Part(map k | k in m && Hash(k) == i :: m[k])
    case Backup => Part(m)
  }

  ghost predicate AnswersFrom(q: Query, answers: seq<Answer>, m: Store) {
    && |answers| <= q.Looks()
    && forall i :: 0 <= i < |answers| ==> answers[i] == Look(q, i, m)
  }

  datatype Pc = Idle | Writing(op: Batch, done: nat) | Looking(q: Query, answers: seq<Answer>)

  datatype State = State(
    store: Store,
    writer: Option<nat>,
    readers: set<nat>,
    threads: seq<Pc>,
    history: seq<Batch>,
    log: seq<Event>)

  datatype Step =
    | WriteLock(t: nat, op: Batch)  // pthread_rwlock_wrlock of kvs_write and kvs_delete
    | Item(t: nat)                  // one turn of their loops, callback included
    | WriteUnlock(t: nat)
    | ReadLock(t: nat, q: Query)
    | LookAt(t: nat)
    | ReadUnlock(t: nat)

  ghost predicate Enabled(s: State, step: Step) {
    && step.t < |s.threads|
    && var pc := s.threads[step.t];
       match step
       case WriteLock(_, _) => pc.Idle? && s.writer == None && s.readers == {}
       case Item(_) => pc.Writing? && pc.done < pc.op.Size()
       case WriteUnlock(_) => pc.Writing? && pc.done == pc.op.Size()
       case ReadLock(_, _) => pc.Idle? && s.writer == None
       case LookAt(_) => pc.Looking? && |pc.answers| < pc.q.Looks()
       case ReadUnlock(_) => pc.Looking? && |pc.answers| == pc.q.Looks()
  }

  /** The events a step hands to the notification callback. */
  ghost function Emitted(s: State, step: Step): seq<Event>
    requires Enabled(s, step)
  {
    if step.Item? then ItemEvents(s.store, s.threads[step.t].op, s.threads[step.t].done) else []
  }

  ghost function Apply(s: State, step: Step): State
    requires Enabled(s, step)
  {
    var t, pc := step.t, s.threads[step.t];
    match step
    case WriteLock(_, op) => s.(writer := Some(t), threads := s.threads[t := Writing(op, 0)])
    case Item(_) =>
      s.(store := ApplyItem(s.store, pc.op, pc.done),
         threads := s.threads[t := Writing(pc.op, pc.done + 1)],
         log := s.log + Emitted(s, step))
    case WriteUnlock(_) => s.(writer := None, threads := s.threads[t := Idle], history := s.history + [pc.op])
    case ReadLock(_, q) => s.(readers := s.readers + {t}, threads := s.threads[t := Looking(q, [])])
    case LookAt(_) =>
      s.(threads := s.threads[t := Looking(pc.q, pc.answers + [Look(pc.q, |pc.answers|, s.store)])])
    case ReadUnlock(_) => s.(readers := s.readers - {t}, threads := s.threads[t := Idle])
  }

  /** n threads on an empty store. */
  ghost function Start(n: nat): State {
    State(map[], None, {}, seq(n, _ => Idle), [], [])
  }

  ghost function Go(s: State, step: Step): Option<State> {
    if Enabled(s, step) then Some(Apply(s, step)) else None
  }

  /** The state after a sequence of steps, if each of them was enabled in its turn. */
  ghost function Exec(n: nat, steps: seq<Step>): Option<State> {
    RunFrom(Go, Start(n), steps)
  }

  ghost predicate IsRun(n: nat, steps: seq<Step>) {
    Exec(n, steps).Some?
  }

  ghost function Final(n: nat, steps: seq<Step>): State
    requires IsRun(n, steps)
  {
    Exec(n, steps).value
  }

  /** The batches of a run in the order in which they got the lock. */
  ghost function LockOrder(steps: seq<Step>): seq<Batch> {
    if steps == [] then []
    else LockOrder(steps[..|steps| - 1]) + if steps[|steps| - 1].WriteLock? then [steps[|steps| - 1].op] else []
  }

  ghost predicate LockInv(s: State) {
    && (forall t :: 0 <= t < |s.threads| ==> (s.threads[t].Writing? <==> s.writer == Some(t)))
    && (forall t :: 0 <= t < |s.threads| ==> (s.threads[t].Looking? <==> t in s.readers))
    && (s.writer != None ==> s.readers == {} && s.writer.value < |s.threads|)
  }

  ghost predicate DataInv(s: State) {
    var m := FoldBatches(map[], s.history);
    if s.writer == None then
      s.store == m && s.log == LogOf(map[], s.history)
    else
      && s.writer.value < |s.threads| && s.threads[s.writer.value].Writing?
      && var pc := s.threads[s.writer.value];
         && pc.done <= pc.op.Size()
         && s.store == After(m, pc.op, pc.done)
         && s.log == LogOf(map[], s.history) + EventsOf(m, pc.op, pc.done)
  }

  ghost predicate AnswerInv(s: State) {
    forall t :: 0 <= t < |s.threads| && s.threads[t].Looking? ==>
      AnswersFrom(s.threads[t].q, s.threads[t].answers, FoldBatches(map[], s.history))
  }

  lemma LockStep(s: State, step: Step)
    requires LockInv(s) && Enabled(s, step)
    ensures LockInv(Apply(s, step))
  {
  }

  lemma Commit(history: seq<Batch>, op: Batch)
    ensures var m := FoldBatches(map[], history);
            && FoldBatches(map[], history + [op]) == After(m, op, op.Size())
            && LogOf(map[], history + [op]) == LogOf(map[], history) + EventsOf(m, op, op.Size())
  {
    assert (history + [op])[..|history + [op]| - 1] == history;
  }

  lemma ItemStep(s: State, t: nat)
    requires LockInv(s) && DataInv(s) && Enabled(s, Item(t))
    ensures DataInv(Apply(s, Item(t)))
  {
    var pc, m := s.threads[t], FoldBatches(map[], s.history);
    assert s.writer == Some(t);
    Assoc(LogOf(map[], s.history), EventsOf(m, pc.op, pc.done), Emitted(s, Item(t)));
  }

  lemma LockedStep(s: State, t: nat, op: Batch)
    requires LockInv(s) && DataInv(s) && Enabled(s, WriteLock(t, op))
    ensures DataInv(Apply(s, WriteLock(t, op)))
  {
    assert s.log + [] == s.log;
  }

  lemma DataStep(s: State, step: Step)
    requires LockInv(s) && DataInv(s) && Enabled(s, step)
    ensures DataInv(Apply(s, step))
  {
    match step
    case WriteLock(t, op) => LockedStep(s, t, op);
    case Item(t) => ItemStep(s, t);
    case WriteUnlock(t) => Commit(s.history, s.threads[t].op);
    case ReadLock(_, _) =>
    case LookAt(_) =>
    case ReadUnlock(_) =>
  }

  lemma LookStep(s: State, t: nat)
    requires LockInv(s) && DataInv(s) && AnswerInv(s) && Enabled(s, LookAt(t))
    ensures AnswerInv(Apply(s, LookAt(t)))
  {
    assert t in s.readers && s.writer == None;
  }

  lemma AnswerStep(s: State, step: Step)
    requires LockInv(s) && DataInv(s) && AnswerInv(s) && Enabled(s, step)
    ensures AnswerInv(Apply(s, step))
  {
    var s' := Apply(s, step);
    if step.LookAt? {
      LookStep(s, step.t);
    } else if step.WriteUnlock? {
      assert forall t :: 0 <= t < |s'.threads| ==> !s'.threads[t].Looking?;
    }
  }

  lemma OrderStep(s: State, step: Step, order: seq<Batch>)
    requires LockInv(s) && Enabled(s, step)
    requires order == Order(s)
    ensures Order(Apply(s, step)) == order + if step.WriteLock? then [step.op] else []
  {
  }

  /** The committed batches and the one under way. */
  ghost function Order(s: State): seq<Batch> {
    s.history +
    if s.writer == None || s.writer.value >= |s.threads| || !s.threads[s.writer.value].Writing? then []
    else [s.threads[s.writer.value].op]
  }

  lemma {:induction false} RunInv(n: nat, steps: seq<Step>)
    requires IsRun(n, steps)
    ensures var s := Final(n, steps);
            LockInv(s) && DataInv(s) && AnswerInv(s) && Order(s) == LockOrder(steps)
  {
    if steps != [] {
      var before := steps[..|steps| - 1];
      RunInv(n, before);
      var s, step := Final(n, before), steps[|steps| - 1];
      LockStep(s, step);
      DataStep(s, step);
      AnswerStep(s, step);
      OrderStep(s, step, LockOrder(before));
    }
  }

  lemma PrefixIsRun(n: nat, steps: seq<Step>, k: nat)
    requires IsRun(n, steps) && k <= |steps|
    ensures IsRun(n, steps[..k])
    ensures k < |steps| ==> Enabled(Final(n, steps[..k]), steps[k])
    ensures k < |steps| ==>
              IsRun(n, steps[..k + 1]) && Final(n, steps[..k + 1]) == Apply(Final(n, steps[..k]), steps[k])
  {
    PrefixRuns(Go, Start(n), steps, k);
  }

  /** From step p to step q a query has the lock. */
  ghost predicate Spans(steps: seq<Step>, p: nat, q: nat) {
    && p < q < |steps| && steps[p].ReadLock? && steps[q] == ReadUnlock(steps[p].t)
    && forall k :: p < k < q ==> steps[k] != ReadUnlock(steps[p].t)
  }

  /** A query that has the lock keeps it until it gives it back, and no batch gets it. */
  lemma LookingStays(s: State, step: Step, t: nat)
    requires LockInv(s) && Enabled(s, step) && t < |s.threads| && s.threads[t].Looking? && step != ReadUnlock(t)
    ensures var s' := Apply(s, step);
            && t < |s'.threads| && s'.threads[t].Looking? && s'.threads[t].q == s.threads[t].q
            && s'.history == s.history && !step.WriteLock?
  {
    assert t in s.readers;
  }

  /** A query that gets the lock: no batch is under way. */
  lemma LookingStarts(s: State, t: nat, q: Query, order: seq<Batch>)
    requires LockInv(s) && Enabled(s, ReadLock(t, q)) && Order(s) == order
    ensures var s' := Apply(s, ReadLock(t, q));
            t < |s'.threads| && s'.threads[t].Looking? && s'.threads[t].q == q && s'.history == order
  {
    assert s.history + [] == s.history;
  }

  /** While a query has the lock no batch gets it or gives it back. */
  lemma {:induction false} WhileLooking(n: nat, steps: seq<Step>, p: nat, k: nat)
    requires p < k <= |steps| && IsRun(n, steps) && steps[p].ReadLock?
    requires forall j :: p < j < k ==> steps[j] != ReadUnlock(steps[p].t)
    ensures IsRun(n, steps[..k])
    ensures var s, t := Final(n, steps[..k]), steps[p].t;
            && t < |s.threads| && s.threads[t].Looking? && s.threads[t].q == steps[p].q
            && s.history == LockOrder(steps[..p]) == LockOrder(steps[..k])
    decreases k
  {
    PrefixIsRun(n, steps, k - 1);
    RunInv(n, steps[..k - 1]);
    LastOfPrefix(steps, k);
    var s := Final(n, steps[..k - 1]);
    if k - 1 == p {
      LookingStarts(s, steps[p].t, steps[p].q, LockOrder(steps[..p]));
    } else {
      WhileLooking(n, steps, p, k - 1);
      LookingStays(s, steps[k - 1], steps[p].t);
    }
  }

  lemma LastOfPrefix(steps: seq<Step>, k: nat)
    requires 0 < k <= |steps|
    ensures LockOrder(steps[..k]) ==
            LockOrder(steps[..k - 1]) + if steps[k - 1].WriteLock? then [steps[k - 1].op] else []
  {
    assert steps[..k][..k - 1] == steps[..k - 1];
  }

  ghost predicate AllParts(answers: seq<Answer>) {
    forall b :: 0 <= b < |answers| ==> answers[b].Part?
  }

  ghost predicate InParts(answers: seq<Answer>, k: string, v: string)
    requires AllParts(answers)
  {
    exists b :: 0 <= b < |answers| && k in answers[b].pairs && answers[b].pairs[k] == v
  }

  /** The parts of a listing, bucket by bucket and put together, are the pairs of the store in the
      domain of the table. */
  ghost predicate Listed(answers: seq<Answer>, m: Store) {
    && AllParts(answers)
    && (forall b, k :: 0 <= b < |answers| && k in answers[b].pairs ==> Hash(k) == b)
    && (forall k, v :: InParts(answers, k, v) <==> k in m && Hashable(k) && m[k] == v)
  }

  /** What the answers of a finished query say about the one store it stands for. */
  ghost predicate RightAnswers(q: Query, answers: seq<Answer>, m: Store) {
    match q
    case Read(keys) =>
      && |answers| == |keys|
      && forall i :: 0 <= i < |keys| ==> answers[i] == Value(if keys[i] in m then Some(m[keys[i]]) else None)
    case Exists(key) => answers == [Value(if key in m then Some(m[key]) else None)]
    case Show => Listed(answers, m)
    case Backup => answers == [Part(m)]
  }

  lemma PartsAreListed(answers: seq<Answer>, m: Store)
    requires |answers| == TABLE_SIZE && AnswersFrom(Show, answers, m)
    ensures Listed(answers, m)
  {
    forall b | 0 <= b < TABLE_SIZE ensures answers[b] == Part(map k | k in m && Hash(k) == b :: m[k]) {
      assert answers[b] == Look(Show, b, m);
    }
    forall k, v ensures InParts(answers, k, v) <==> k in m && Hashable(k) && m[k] == v {
      if k in m && Hashable(k) && m[k] == v {
        assert k in answers[Hash(k)].pairs;
      }
    }
  }

  lemma LooksAreRight(q: Query, answers: seq<Answer>, m: Store)
    requires |answers| == q.Looks() && AnswersFrom(q, answers, m)
    ensures RightAnswers(q, answers, m)
  {
    match q
    case Read(keys) =>
      forall i | 0 <= i < |keys| ensures answers[i] == Value(if keys[i] in m then Some(m[keys[i]]) else None) {
        assert answers[i] == Look(q, i, m);
      }
    case Exists(key) => assert answers[0] == Look(q, 0, m);
    case Show => PartsAreListed(answers, m);
    case Backup => assert answers[0] == Look(q, 0, m);
  }

  /** What a query answers between two steps of a run: it is done, and all its answers are those of
      the fold of the batches that got the lock before the query did. */
  ghost predicate Answered(n: nat, steps: seq<Step>, p: nat, q: nat)
    requires Spans(steps, p, q)
  {
    && IsRun(n, steps[..q]) && steps[p].t < |Final(n, steps[..q]).threads|
    && LockOrder(steps[..q]) == LockOrder(steps[..p])
    && var pc := Final(n, steps[..q]).threads[steps[p].t];
       && pc.Looking? && pc.q == steps[p].q
       && RightAnswers(pc.q, pc.answers, FoldBatches(map[], LockOrder(steps[..p])))
  }

  /** Batches are serialisable. In any run, when no batch is under way the store is the fold of
      the whole batches in lock order, and every query answers as on the fold of those batches
      that got the lock before it; none gets it before the query is done. */
  lemma Serialisable(n: nat, steps: seq<Step>)
    requires IsRun(n, steps)
    ensures var s := Final(n, steps);
            s.writer == None ==> s.store == FoldBatches(map[], LockOrder(steps))
    ensures forall p, q :: 0 <= p < q && Spans(steps, p, q) ==> Answered(n, steps, p, q)
  {
    RunInv(n, steps);
    var s := Final(n, steps);
    if s.writer == None {
      assert LockOrder(steps) == s.history;
    }
    forall p, q | 0 <= p < q && Spans(steps, p, q) ensures Answered(n, steps, p, q) {
      WhileLooking(n, steps, p, q);
      PrefixIsRun(n, steps, q);
      RunInv(n, steps[..q]);
      var pc := Final(n, steps[..q]).threads[steps[p].t];
      LooksAreRight(pc.q, pc.answers, FoldBatches(map[], LockOrder(steps[..p])));
    }
  }

  ghost predicate InDomain(m: Store) {
    forall k :: k in m ==> Hashable(k)
  }

  lemma {:induction false} BatchStaysInDomain(m: Store, op: Batch, n: nat)
    requires InDomain(m) && AllHashable(op) && n <= op.Size()
    ensures InDomain(After(m, op, n))
  {
    if n > 0 {
      BatchStaysInDomain(m, op, n - 1);
      assert Hashable(op.KeyAt(n - 1));
    }
  }

  lemma {:induction false} FoldStaysInDomain(history: seq<Batch>)
    requires forall op :: op in history ==> AllHashable(op)
    ensures InDomain(FoldBatches(map[], history))
  {
    if history != [] {
      var op := history[|history| - 1];
      FoldStaysInDomain(history[..|history| - 1]);
      BatchStaysInDomain(FoldBatches(map[], history[..|history| - 1]), op, op.Size());
    }
  }

  /** When every batch keeps to the domain of the table, a finished SHOW has listed the whole store of
      the batches before it, and nothing else. */
  lemma ShowsEverything(n: nat, steps: seq<Step>, p: nat, q: nat)
    requires IsRun(n, steps) && Spans(steps, p, q) && steps[p].q == Show
    requires forall op :: op in LockOrder(steps[..p]) ==> AllHashable(op)
    ensures Answered(n, steps, p, q)
    ensures var answers := Final(n, steps[..q]).threads[steps[p].t].answers;
            var m := FoldBatches(map[], LockOrder(steps[..p]));
            AllParts(answers) && forall k, v :: InParts(answers, k, v) <==> k in m && m[k] == v
  {
    Serialisable(n, steps);
    FoldStaysInDomain(LockOrder(steps[..p]));
  }

  /** In every state of every run, even inside a batch, replaying the events emitted so far
      gives the store, and no write event repeats a value the replayed copy already holds. */
  lemma EmittedEventsReplay(n: nat, steps: seq<Step>)
    requires IsRun(n, steps)
    ensures Replay(map[], Final(n, steps).log) == Final(n, steps).store
    ensures NewsOnly(map[], Final(n, steps).log)
  {
    RunInv(n, steps);
    var s := Final(n, steps);
    var m := FoldBatches(map[], s.history);
    ReplayGivesTheStore(map[], s.history);
    LogIsNews(map[], s.history);
    if s.writer != None {
      var pc := s.threads[s.writer.value];
      ReplayAppend(map[], LogOf(map[], s.history), EventsOf(m, pc.op, pc.done));
      ReplayBatch(m, pc.op, pc.done);
      BatchNews(m, pc.op, pc.done);
      NewsAppend(map[], LogOf(map[], s.history), EventsOf(m, pc.op, pc.done));
    }
  }

  // ---- Every batch and every query can be carried out ----

  /** A batch by thread t up to its n-th item. */
  ghost function BatchSteps(t: nat, op: Batch, n: nat): seq<Step> {
    if n == 0 then [WriteLock(t, op)] else BatchSteps(t, op, n - 1) + [Item(t)]
  }

  /** Thread t has the lock, and has done n items of its batch. */
  ghost predicate InBatch(s: State, t: nat, op: Batch, n: nat, s': State)
    requires t < |s.threads| && n <= op.Size()
  {
    s' == s.(writer := Some(t), threads := s.threads[t := Writing(op, n)],
             store := After(s.store, op, n), log := s.log + EventsOf(s.store, op, n))
  }

  lemma OneMoreItem(s: State, t: nat, op: Batch, n: nat, before: State)
    requires t < |s.threads| && n < op.Size() && InBatch(s, t, op, n, before)
    ensures Enabled(before, Item(t)) && InBatch(s, t, op, n + 1, Apply(before, Item(t)))
  {
    NextOfBatch(s.store, op, n);
    Assoc(s.log, EventsOf(s.store, op, n), Emitted(before, Item(t)));
  }

  lemma {:induction false} ItemsLead(s: State, t: nat, op: Batch, n: nat) returns (s': State)
    requires LockInv(s) && Enabled(s, WriteLock(t, op)) && n <= op.Size()
    ensures Leads(Go, s, BatchSteps(t, op, n), s') && InBatch(s, t, op, n, s')
  {
    if n == 0 {
      s' := Apply(s, WriteLock(t, op));
      LeadsOne(Go, s, WriteLock(t, op), s');
      assert s.log + [] == s.log;
    } else {
      var before := ItemsLead(s, t, op, n - 1);
      OneMoreItem(s, t, op, n - 1, before);
      s' := Apply(before, Item(t));
      LeadsThen(Go, s, BatchSteps(t, op, n - 1), before, Item(t), s');
    }
  }

  /** Whenever nobody has the lock, any idle thread can carry out any batch, and the run that goes on
      so ends with the batch in the store and its events behind the others. */
  lemma BatchCommits(n: nat, steps: seq<Step>, t: nat, op: Batch)
    requires IsRun(n, steps) && var s := Final(n, steps);
             t < |s.threads| && s.threads[t].Idle? && s.writer == None && s.readers == {}
    ensures var s, more := Final(n, steps), steps + (BatchSteps(t, op, op.Size()) + [WriteUnlock(t)]);
            && IsRun(n, more)
            && Final(n, more) == s.(store := After(s.store, op, op.Size()), history := s.history + [op],
                                    log := s.log + EventsOf(s.store, op, op.Size()))
  {
    RunInv(n, steps);
    var s := Final(n, steps);
    var before := ItemsLead(s, t, op, op.Size());
    var s' := Apply(before, WriteUnlock(t));
    LeadsThen(Go, s, BatchSteps(t, op, op.Size()), before, WriteUnlock(t), s');
    RunLeads(Go, Start(n), steps, BatchSteps(t, op, op.Size()) + [WriteUnlock(t)], s');
  }

  /** A query by thread t up to its k-th look. */
  ghost function QuerySteps(t: nat, q: Query, k: nat): seq<Step> {
    if k == 0 then [ReadLock(t, q)] else QuerySteps(t, q, k - 1) + [LookAt(t)]
  }

  /** The thread has looked k times, and nothing else has changed. */
  ghost predicate HasLooked(s: State, t: nat, q: Query, k: nat, s': State)
    requires t < |s.threads|
  {
    exists answers :: |answers| == k &&
      s' == s.(readers := s.readers + {t}, threads := s.threads[t := Looking(q, answers)])
  }

  lemma {:induction false} LooksLead(s: State, t: nat, q: Query, k: nat) returns (s': State)
    requires LockInv(s) && Enabled(s, ReadLock(t, q)) && k <= q.Looks()
    ensures Leads(Go, s, QuerySteps(t, q, k), s') && HasLooked(s, t, q, k, s')
  {
    if k == 0 {
      s' := Apply(s, ReadLock(t, q));
      LeadsOne(Go, s, ReadLock(t, q), s');
      var none: seq<Answer> := [];
      assert s' == s.(readers := s.readers + {t}, threads := s.threads[t := Looking(q, none)]);
    } else {
      var before := LooksLead(s, t, q, k - 1);
      s' := Apply(before, LookAt(t));
      LeadsThen(Go, s, QuerySteps(t, q, k - 1), before, LookAt(t), s');
      assert s'.threads == s.threads[t := s'.threads[t]];
    }
  }

  /** Whenever nobody writes, any idle thread can carry out any query, also beside other readers, and
      leaves everything as it was. */
  lemma QueryCompletes(n: nat, steps: seq<Step>, t: nat, q: Query)
    requires IsRun(n, steps) && var s := Final(n, steps);
             t < |s.threads| && s.threads[t].Idle? && s.writer == None
    ensures var more := steps + (QuerySteps(t, q, q.Looks()) + [ReadUnlock(t)]);
            IsRun(n, more) && Final(n, more) == Final(n, steps)
  {
    RunInv(n, steps);
    var s := Final(n, steps);
    var before := LooksLead(s, t, q, q.Looks());
    var s' := Apply(before, ReadUnlock(t));
    assert s.readers + {t} - {t} == s.readers && s'.threads == s.threads;
    LeadsThen(Go, s, QuerySteps(t, q, q.Looks()), before, ReadUnlock(t), s');
    RunLeads(Go, Start(n), steps, QuerySteps(t, q, q.Looks()) + [ReadUnlock(t)], s');
  }
}

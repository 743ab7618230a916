/** A whole job (run_job in src/server/main.c): commands are parsed and carried out in turn. */
module JobRuns {
  import opened Constants
  import opened CStrings
  import opened KvsBuckets
  import opened Sequences
  import opened KvsTable
  import opened Formatting
  import opened Batches
  import opened Operations
  import opened Reports
  import JobText
  import opened JobParser

  /** The batches a command stands for: one or none. */
  function BatchesIn(c: JobText.Command): seq<Batch> {
    match c
    case Write(pairs) => [WriteBatch(pairs)]
    case Delete(keys) => [DeleteBatch(keys)]
    case _ => []
  }

  function BatchesOf(cs: seq<JobText.Command>): seq<Batch> {
    if cs == [] then [] else BatchesOf(cs[..|cs| - 1]) + BatchesIn(cs[|cs| - 1])
  }

  /** The domain of the table: keys that start with a letter or a digit. */
  ghost predicate InDomain(c: JobText.Command) {
    match c
    case Write(pairs) => AllHashable(WriteBatch(pairs))
    case Delete(keys) => AllHashable(DeleteBatch(keys))
    case Read(keys) => AllHashable(DeleteBatch(keys))
    case _ => true
  }

  /** Pairs in the order of their buckets. */
  ghost predicate InOrder(l: seq<Pair>) {
    forall i, j :: 0 <= i < j < |l| ==> Hash(l[i].key) <= Hash(l[j].key)
  }

  /** The pairs of a map, each once. */
  ghost predicate Lists(l: seq<Pair>, m: Store) {
    Distinct(l) && forall k, v :: Pair(k, v) in l <==> k in m && m[k] == v
  }

  /** What SHOW prints: the pairs of the map, each once and bucket by bucket. */
  ghost predicate Shows(m: Store, text: string) {
    exists l :: Lists(l, m) && InOrder(l) && LinesOf(text, l)
  }

  lemma ListingShows(bs: Buckets)
    requires WellFormed(bs)
    ensures Shows(Abs(bs), ShowText(Listing(bs)))
  {
    ListingIsTheMap(bs);
    ListingInOrder(bs);
    PrintedLines(Listing(bs));
    assert Lists(Listing(bs), Abs(bs));
  }

  /** What a command writes to the output file when the store is m. */
  ghost predicate Answers(m: Store, c: JobText.Command, out: string) {
    match c
    case Read(keys) => Answered(m, keys, out)
    case Delete(keys) => Reported(m, keys, out)
    case ShowAll => Shows(m, out)
    case _ => out == ""
  }

  /** A command answers from the store its predecessors have left. */
  ghost predicate AnswersAt(m: Store, cs: seq<JobText.Command>, outs: seq<string>, b: nat)
    requires b < |cs| == |outs|
  {
    Answers(FoldBatches(m, BatchesOf(cs[..b])), cs[b], outs[b])
  }

  ghost predicate AllAnswer(m: Store, cs: seq<JobText.Command>, outs: seq<string>) {
    |outs| == |cs| && forall b :: 0 <= b < |cs| ==> AnswersAt(m, cs, outs, b)
  }

  lemma OneMoreAnswer(m: Store, cs: seq<JobText.Command>, outs: seq<string>, c: JobText.Command, out: string)
    requires AllAnswer(m, cs, outs) && Answers(FoldBatches(m, BatchesOf(cs)), c, out)
    ensures AllAnswer(m, cs + [c], outs + [out])
  {
    forall b | 0 <= b < |cs + [c]| ensures AnswersAt(m, cs + [c], outs + [out], b) {
      if b < |cs| {
        assert (cs + [c])[..b] == cs[..b] && AnswersAt(m, cs, outs, b);
      } else {
        assert (cs + [c])[..b] == cs;
      }
    }
  }

  /** What has happened after some commands. */
  ghost predicate Ran(m: Store, cs: seq<JobText.Command>, m': Store, events: seq<Event>, outs: seq<string>) {
    && m' == FoldBatches(m, BatchesOf(cs))
    && events == LogOf(m, BatchesOf(cs))
    && AllAnswer(m, cs, outs)
  }

  ghost function Then(m: Store, bs: seq<Batch>): Store {
    if bs == [] then m else After(m, bs[0], bs[0].Size())
  }

  ghost function EventsThen(m: Store, bs: seq<Batch>): seq<Event> {
    if bs == [] then [] else EventsOf(m, bs[0], bs[0].Size())
  }

  lemma OneMoreBatch(m: Store, history: seq<Batch>, bs: seq<Batch>)
    requires |bs| <= 1
    ensures FoldBatches(m, history + bs) == Then(FoldBatches(m, history), bs)
    ensures LogOf(m, history + bs) == LogOf(m, history) + EventsThen(FoldBatches(m, history), bs)
  {
    if bs == [] {
      assert history + bs == history;
    } else {
      assert (history + bs)[..|history + bs| - 1] == history;
    }
  }

  /** What one command does to the store, which calls it makes, and what it answers. */
  ghost predicate CarriedOut(m: Store, c: JobText.Command, m': Store, events: seq<Event>, out: string) {
    m' == Then(m, BatchesIn(c)) && events == EventsThen(m, BatchesIn(c)) && Answers(m, c, out)
  }

  lemma OneMoreCommand(m: Store, cs: seq<JobText.Command>, m1: Store, events: seq<Event>, outs: seq<string>,
                       c: JobText.Command, m2: Store, more: seq<Event>, out: string)
    requires Ran(m, cs, m1, events, outs)
    requires CarriedOut(m1, c, m2, more, out)
    ensures Ran(m, cs + [c], m2, events + more, outs + [out])
  {
    assert (cs + [c])[..|cs + [c]| - 1] == cs;
    OneMoreAnswer(m, cs, outs, c, out);
    OneMoreBatch(m, BatchesOf(cs), BatchesIn(c));
  }

  // ---- What a job does to a key, told by its commands ----

  /** A command that may change what the table holds for a key. */
  ghost predicate Names(c: JobText.Command, key: string) {
    match c
    case Write(pairs) => exists i :: 0 <= i < |pairs| && pairs[i].key == key
    case Delete(keys) => key in keys
    case _ => false
  }

  /** The last pair of a WRITE that has the key. */
  ghost predicate LastOf(pairs: seq<Pair>, key: string, i: nat) {
    i < |pairs| && pairs[i].key == key && forall j :: i < j < |pairs| ==> pairs[j].key != key
  }

  /** What a command that names a key leaves for it: the value of the last pair, or nothing. */
  ghost predicate Sets(c: JobText.Command, key: string, value: Option<string>) {
    match c
    case Write(pairs) => exists i: nat :: LastOf(pairs, key, i) && value == Some(pairs[i].value)
    case Delete(keys) => key in keys && value == None
    case _ => false
  }

  /** The last command that names the key leaves the value; if none does, it is what was there. */
  ghost predicate Decided(m: Store, cs: seq<JobText.Command>, key: string, value: Option<string>) {
    || ((forall k :: 0 <= k < |cs| ==> !Names(cs[k], key)) && value == Lookup(m, key))
    || exists k :: 0 <= k < |cs| && Sets(cs[k], key, value) && forall j :: k < j < |cs| ==> !Names(cs[j], key)
  }

  lemma {:induction false} LastExists(pairs: seq<Pair>, key: string)
    requires exists i :: 0 <= i < |pairs| && pairs[i].key == key
    ensures exists i :: LastOf(pairs, key, i)
  {
    var n := |pairs| - 1;
    if pairs[n].key == key {
      assert LastOf(pairs, key, n);
    } else {
      var i :| 0 <= i < |pairs| && pairs[i].key == key;
      assert pairs[..n][i].key == key;
      LastExists(pairs[..n], key);
      var j :| LastOf(pairs[..n], key, j);
      assert LastOf(pairs, key, j);
    }
  }

  /** One command on a store. */
  lemma CommandSets(m: Store, c: JobText.Command, key: string)
    ensures var value := Lookup(Then(m, BatchesIn(c)), key);
            if Names(c, key) then Sets(c, key, value) else value == Lookup(m, key)
  {
    match c
    case Write(pairs) =>
      var op := WriteBatch(pairs);
      if Names(c, key) {
        LastExists(pairs, key);
        var i :| LastOf(pairs, key, i);
        LastPairDecides(m, op, |pairs|, i);
      } else {
        assert forall j :: 0 <= j < |pairs| ==> op.KeyAt(j) == pairs[j].key;
        OthersStay(m, op, |pairs|, key);
      }
    case Delete(keys) =>
      DeletedOnce(m, DeleteBatch(keys), |keys|, key);
      assert keys[..|keys|] == keys;
    case _ =>
  }

  /** A command sets the keys it names, and leaves all others. */
  ghost predicate CommandDecides(m: Store, c: JobText.Command, m': Store) {
    forall key :: if Names(c, key) then Sets(c, key, Lookup(m', key)) else Lookup(m', key) == Lookup(m, key)
  }

  lemma CommandSetsAll(m: Store, c: JobText.Command)
    ensures CommandDecides(m, c, Then(m, BatchesIn(c)))
  {
    forall key
      ensures var value := Lookup(Then(m, BatchesIn(c)), key);
              if Names(c, key) then Sets(c, key, value) else value == Lookup(m, key)
    {
      CommandSets(m, c, key);
    }
  }

  lemma OneMoreDecides(m: Store, cs: seq<JobText.Command>, c: JobText.Command, key: string,
                       before: Option<string>, value: Option<string>)
    requires Decided(m, cs, key, before)
    requires if Names(c, key) then Sets(c, key, value) else value == before
    ensures Decided(m, cs + [c], key, value)
  {
    var all := cs + [c];
    if Names(c, key) {
      assert all[|cs|] == c;
    } else if k :| 0 <= k < |cs| && Sets(cs[k], key, value) && forall j :: k < j < |cs| ==> !Names(cs[j], key) {
      assert all[k] == cs[k];
    }
  }

  /** What the store holds for a key behind some commands is what the last of them that names it has
      left. */
  lemma {:induction false} LastCommandDecides(m: Store, cs: seq<JobText.Command>, key: string)
    ensures Decided(m, cs, key, Lookup(FoldBatches(m, BatchesOf(cs)), key))
  {
    if cs != [] {
      var front, c := cs[..|cs| - 1], cs[|cs| - 1];
      LastCommandDecides(m, front, key);
      var before := FoldBatches(m, BatchesOf(front));
      CommandSets(before, c, key);
      OneMoreBatch(m, BatchesOf(front), BatchesIn(c));
      OneMoreDecides(m, front, c, key, Lookup(before, key), Lookup(FoldBatches(m, BatchesOf(cs)), key));
      assert front + [c] == cs;
    }
  }

  /** For every key the last command that names it decides. */
  ghost predicate LastCommandsDecide(m: Store, cs: seq<JobText.Command>, m': Store) {
    forall key :: Decided(m, cs, key, Lookup(m', key))
  }

  lemma AllDecided(m: Store, cs: seq<JobText.Command>)
    ensures LastCommandsDecide(m, cs, FoldBatches(m, BatchesOf(cs)))
  {
    forall key ensures Decided(m, cs, key, Lookup(FoldBatches(m, BatchesOf(cs)), key)) {
      LastCommandDecides(m, cs, key);
    }
  }

  /** The calls of the callbacks for one command on a store: one for each pair that changes it in its
      turn, one for each key of a DELETE, and none for other commands. */
  ghost predicate Calls(m: Store, c: JobText.Command, events: seq<Event>) {
    match c
    case Write(pairs) => ReportsChanges(m, pairs, |pairs|, events)
    case Delete(keys) => |events| == |keys| && forall i :: 0 <= i < |keys| ==> events[i] == Deleted(keys[i])
    case _ => events == []
  }

  lemma CommandCalls(m: Store, c: JobText.Command)
    ensures Calls(m, c, EventsThen(m, BatchesIn(c)))
  {
    match c
    case Write(pairs) => EveryChangeReported(m, pairs, |pairs|);
    case Delete(keys) => EveryDeletionReported(m, keys, |keys|);
    case _ =>
  }

  /** The calls for the first commands, and then those for the last one on what they have left. */
  ghost predicate JobCalls(m: Store, cs: seq<JobText.Command>, events: seq<Event>) {
    if cs == [] then events == []
    else
      var front := cs[..|cs| - 1];
      exists n: nat :: n <= |events| && JobCalls(m, front, events[..n]) &&
        Calls(FoldBatches(m, BatchesOf(front)), cs[|cs| - 1], events[n..])
  }

  lemma {:induction false} EveryCallMade(m: Store, cs: seq<JobText.Command>)
    ensures JobCalls(m, cs, LogOf(m, BatchesOf(cs)))
  {
    if cs != [] {
      var front, c := cs[..|cs| - 1], cs[|cs| - 1];
      EveryCallMade(m, front);
      CommandCalls(FoldBatches(m, BatchesOf(front)), c);
      OneMoreBatch(m, BatchesOf(front), BatchesIn(c));
      var events, n := LogOf(m, BatchesOf(cs)), |LogOf(m, BatchesOf(front))|;
      assert events[..n] == LogOf(m, BatchesOf(front));
      assert events[n..] == EventsThen(FoldBatches(m, BatchesOf(front)), BatchesIn(c));
    }
  }

  // ---- Read your writes ----

  lemma ShortAnswer(m: Store, key: string, value: string, out: string)
    requires Lookup(m, key) == Some(value) && Answered(m, [key], out)
    requires |key| + |value| + 3 < MAX_STRING_SIZE
    ensures out == Bracketed("(" + key + "," + value + ")")
  {
    var pairs :| IsReply(m, [key], pairs) && Tells(out, pairs);
    assert pairs == [Pair(key, value)];
    ItemsOfOne(Pair(key, value));
  }

  /** A job reads what it has written: behind a WRITE of a key, and with no command between that names
      it, READ answers the value of the last pair of that WRITE. */
  lemma ReadYourWrites(m: Store, text: string, m': Store, events: seq<Event>, outs: seq<string>,
                       a: nat, b: nat, key: string, value: string)
    requires var cs := JobText.ParseJob(text);
             && Ran(m, cs, m', events, outs)
             && a < b < |cs| && Sets(cs[a], key, Some(value)) && cs[b] == JobText.Read([key])
             && forall j :: a < j < b ==> !Names(cs[j], key)
    requires |key| + |value| + 3 < MAX_STRING_SIZE
    ensures outs[b] == Bracketed("(" + key + "," + value + ")")
  {
    var cs := JobText.ParseJob(text);
    var before := FoldBatches(m, BatchesOf(cs[..b]));
    LastCommandDecides(m, cs[..b], key);
    OnlyOneDecides(m, cs[..b], a, key, Some(value), Lookup(before, key));
    assert AnswersAt(m, cs, outs, b);
    ShortAnswer(before, key, value, outs[b]);
  }

  lemma SetsNames(c: JobText.Command, key: string, value: Option<string>, value': Option<string>)
    requires Sets(c, key, value)
    ensures Names(c, key)
    ensures Sets(c, key, value') ==> value' == value
  {
  }

  lemma OnlyOneDecides(m: Store, cs: seq<JobText.Command>, a: nat, key: string,
                       value: Option<string>, value': Option<string>)
    requires a < |cs| && Sets(cs[a], key, value) && forall j :: a < j < |cs| ==> !Names(cs[j], key)
    requires Decided(m, cs, key, value')
    ensures value' == value
  {
    SetsNames(cs[a], key, value, value');
    var k :| 0 <= k < |cs| && Sets(cs[k], key, value') && forall j :: k < j < |cs| ==> !Names(cs[j], key);
    SetsNames(cs[k], key, value', value);
  }

  /** One command on the table: its events and what it writes to the output file. */
  method Perform(ht: HashTable, c: JobText.Command) returns (events: seq<Event>, out: string)
    requires ht.Valid() && InDomain(c)
    modifies ht.Repr
    ensures ht.Valid() && fresh(ht.Repr - old(ht.Repr))
    ensures CarriedOut(old(ht.View()), c, ht.View(), events, out)
    ensures Calls(old(ht.View()), c, events)
    ensures CommandDecides(old(ht.View()), c, ht.View())
  {
    events, out := [], "";
    match c {
      case Write(pairs) => events := KvsWrite(ht, pairs);
      case Read(keys) => out := KvsRead(ht, keys);
      case Delete(keys) => out, events := KvsDelete(ht, keys);
      case ShowAll =>
        out := KvsShow(ht);
        ListingShows(ht.lists);
      case _ =>
    }
    CommandCalls(old(ht.View()), c);
    CommandSetsAll(old(ht.View()), c);
  }

  /** One turn of its loop. */
  method OneCommand(job: JobFile, ht: HashTable)
    returns (c: Option<JobText.Command>, events: seq<Event>, out: string)
    requires job.Valid() && ht.Valid() && job !in ht.Repr
    requires job.Rest() != "" ==> InDomain(JobText.Next(job.Rest()).0)
    modifies job, ht.Repr
    ensures job.Valid() && ht.Valid() && fresh(ht.Repr - old(ht.Repr))
    ensures old(job.Rest()) == "" ==> c == None && job.Rest() == "" && ht.View() == old(ht.View())
    ensures old(job.Rest()) != "" ==>
      && c.Some? && (c.value, job.Rest()) == JobText.Next(old(job.Rest()))
      && CarriedOut(old(ht.View()), c.value, ht.View(), events, out)
  {
    events, out := [], "";
    var kind := job.GetNextCommand();
    if kind == None {
      return None, events, out;
    }
    var command := job.ReadArguments(kind.value);
    c := Some(command);
    events, out := Perform(ht, command);
  }

  /** run_job: parsing and carrying out go hand in hand, and every turn consumes something of the
      file. The commands are those of the text, the store ends as the fold of their batches, the
      callbacks are called with the events of that history, and every answer comes from the store
      as the commands before it have left it. */
  method RunJob(job: JobFile, ht: HashTable)
    returns (commands: seq<JobText.Command>, events: seq<Event>, outs: seq<string>)
    requires job.Valid() && ht.Valid() && job !in ht.Repr
    requires forall c :: c in JobText.ParseJob(job.Rest()) ==> InDomain(c)
    modifies job, ht.Repr
    ensures job.Valid() && job.Rest() == "" && ht.Valid()
    ensures commands == JobText.ParseJob(old(job.Rest()))
    ensures Ran(old(ht.View()), commands, ht.View(), events, outs)
    ensures LastCommandsDecide(old(ht.View()), commands, ht.View())
    ensures JobCalls(old(ht.View()), commands, events)
    ensures AllPlain(events)
  {
    commands, events, outs := [], [], [];
    ghost var all, m := JobText.ParseJob(job.Rest()), ht.View();
    while true
      invariant job.Valid() && ht.Valid() && job !in ht.Repr && fresh(ht.Repr - old(ht.Repr))
      invariant all == commands + JobText.ParseJob(job.Rest())
      invariant Ran(m, commands, ht.View(), events, outs)
      decreases |job.Rest()|
    {
      ghost var s, before := job.Rest(), ht.View();
      var c, more, out := OneCommand(job, ht);
      if c == None {
        JobDone(m, old(job.Rest()), commands, ht.View(), events, outs);
        return;
      }
      OneMoreCommand(m, commands, before, events, outs, c.value, ht.View(), more, out);
      Assoc(commands, [c.value], JobText.ParseJob(job.Rest()));
      commands, events, outs := commands + [c.value], events + more, outs + [out];
    }
  }

  // ---- The events of a job ----

  /** An event whose text identifies it. */
  ghost predicate Plain(e: Event) {
    EventOk(e) && ',' !in e.key
  }

  ghost predicate AllPlain(events: seq<Event>) {
    forall e :: e in events ==> Plain(e)
  }

  ghost predicate PlainBatch(op: Batch) {
    match op
    case WriteBatch(pairs) => forall i :: 0 <= i < |pairs| ==> Plain(Written(pairs[i].key, pairs[i].value))
    case DeleteBatch(keys) => forall i :: 0 <= i < |keys| ==> Plain(Deleted(keys[i]))
  }

  lemma WordIsPlain(w: string, v: string)
    requires JobText.IsWord(w) && JobText.IsWord(v)
    ensures Plain(Written(w, v)) && Plain(Deleted(w))
  {
  }

  lemma CommandIsPlain(c: JobText.Command)
    requires c == JobText.Invalid || JobText.Printable(c)
    ensures forall op :: op in BatchesIn(c) ==> PlainBatch(op)
  {
    match c
    case Write(pairs) =>
      forall i | 0 <= i < |pairs| ensures Plain(Written(pairs[i].key, pairs[i].value)) {
        WordIsPlain(pairs[i].key, pairs[i].value);
      }
    case Delete(keys) =>
      forall i | 0 <= i < |keys| ensures Plain(Deleted(keys[i])) {
        WordIsPlain(keys[i], "");
      }
    case _ =>
  }

  lemma {:induction false} ParsedIsPlain(s: string)
    ensures forall c :: c in JobText.ParseJob(s) ==> c == JobText.Invalid || JobText.Printable(c)
    decreases |s|
  {
    if s != "" {
      JobText.AcceptedIsPrintable(s);
      ParsedIsPlain(JobText.Next(s).1);
    }
  }

  lemma {:induction false} BatchesArePlain(cs: seq<JobText.Command>)
    requires forall c :: c in cs ==> c == JobText.Invalid || JobText.Printable(c)
    ensures forall op :: op in BatchesOf(cs) ==> PlainBatch(op)
  {
    if cs != [] {
      BatchesArePlain(cs[..|cs| - 1]);
      CommandIsPlain(cs[|cs| - 1]);
    }
  }

  lemma {:induction false} BatchEventsArePlain(m: Store, op: Batch, n: nat)
    requires PlainBatch(op) && n <= op.Size()
    ensures AllPlain(EventsOf(m, op, n))
  {
    if n > 0 {
      BatchEventsArePlain(m, op, n - 1);
    }
  }

  lemma {:induction false} LogIsPlain(m: Store, history: seq<Batch>)
    requires forall op :: op in history ==> PlainBatch(op)
    ensures AllPlain(LogOf(m, history))
  {
    if history != [] {
      var front, op := history[..|history| - 1], history[|history| - 1];
      LogIsPlain(m, front);
      BatchEventsArePlain(FoldBatches(m, front), op, op.Size());
    }
  }

  /** The events of a job on a store. */
  ghost function JobLog(m: Store, s: string): seq<Event> {
    LogOf(m, BatchesOf(JobText.ParseJob(s)))
  }

  /** Every event of every job fits its frame and has a key without commas: the parser ends a key
      at a comma. */
  lemma JobEventsArePlain(m: Store, s: string)
    ensures AllPlain(JobLog(m, s))
  {
    ParsedIsPlain(s);
    BatchesArePlain(JobText.ParseJob(s));
    LogIsPlain(m, BatchesOf(JobText.ParseJob(s)));
  }

  /** What is known of a job whose text is used up. */
  lemma JobDone(m: Store, s: string, cs: seq<JobText.Command>, m': Store, events: seq<Event>, outs: seq<string>)
    requires Ran(m, cs, m', events, outs) && cs + [] == JobText.ParseJob(s)
    ensures cs == JobText.ParseJob(s)
    ensures AllPlain(events) && LastCommandsDecide(m, cs, m') && JobCalls(m, cs, events)
  {
    assert cs + [] == cs;
    JobEventsArePlain(m, s);
    AllDecided(m, cs);
    EveryCallMade(m, cs);
  }

  /** Two events have the same text exactly when they are the same write, deletions read as
      writing DELETED, and the text is what a client shows. */
  ghost predicate Told(e: Event, e': Event) {
    && (EventText(e) == EventText(e') <==> AsWrite(e) == AsWrite(e'))
    && TrimSpaces(CStr(EventFrame(e) + [NUL])) == EventText(e)
  }

  ghost predicate AllTold(log: seq<Event>, log': seq<Event>) {
    forall e, e' :: e in log && e' in log' ==> Told(e, e')
  }

  lemma PlainIsTold(log: seq<Event>, log': seq<Event>)
    requires AllPlain(log) && AllPlain(log')
    ensures AllTold(log, log')
  {
    forall e, e' | e in log && e' in log' ensures Told(e, e') {
      EventTextInjective(e, e');
      EventTextSurvives(e);
    }
  }

  /** So the text of a notification says which event of which job it is. */
  lemma TextsIdentifyEvents(m: Store, s: string, m': Store, s': string)
    ensures AllTold(JobLog(m, s), JobLog(m', s'))
  {
    JobEventsArePlain(m, s);
    JobEventsArePlain(m', s');
    PlainIsTold(JobLog(m, s), JobLog(m', s'));
  }
}

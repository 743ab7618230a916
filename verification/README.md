# A verified model of the key-value server

The program is a C server that keeps strings in a hash table. Job threads run command files on the
table; up to eight client sessions subscribe to keys and are told of every change over pipes. This
project models the server as it is written, with its odd cases, and proves what a maintainer would
want to rely on. `dafny verify dfyconfig.toml` checks all of it.

Bytes are `char` values (a byte is the character code modulo 256), a C string is a `string` without
NUL, a fixed buffer is an `array<char>` or a `string` whose text ends at the first NUL.

## The parts

**Imperative code.** These files hold methods over arrays, linked nodes and class fields, each
proved against a function of its inputs or of the old state:
`KvsTable` (the chained table on the heap, `src/server/kvs.c`), `Operations`
(`src/server/operations.c`), `FdIndex` and `KeyHash` (`src/server/coperations.c`), `ClientOps`
(subscription, unsubscription, disconnection and notification, `src/server/client.c`), `JobParser`
and `JobRuns` (`src/server/parser.c` and `run_job`), `Transfer` (`src/common/io.c`), `Wire` (frames
in `src/client/api.c`, `src/server/client.c`, `src/server/main.c`), `Formatting` (the two line
formatters, notification text, `print_notification`).

**Specifications and their laws.** `KvsBuckets` (association lists and the finite map they stand
for), `Batches` (batches, events, replay), `Reports` (what READ, DELETE and SHOW print, and what a
reader gets back), `KeyList` (the list of ten key slots), `JobText`, `JobGrammar` and `JobErrors` (the
job language: parsing, printing, round trip, exactly which texts are taken, and what wrong lines cost). `Constants`, `Sequences`, `Bags`,
`Counting` and `Paths` are small helpers.

**State machines.** Every thread moves one step at a time and all statements are about every run,
that is, every interleaving:
`StoreRuns` has job threads under the read-write lock; `Slots` has workers, activators, mass
disconnects and notifications; `SlotSafety`, `IndexAgreement`, `Overflow` and `Streams` prove what its
runs keep, `Sessions` and `MassDisconnect` that sessions go through their steps in order and end when
they should, and `Notifications` what arrives in the pipes; `World` couples the two machines, so that
each committed change is notified in the same step, and `Subscriber` shows that the hypotheses on runs
can be met; `LockOrder` keeps nothing but the locks, with signal handlers on top of the threads they
interrupt, `LockPrograms` shows that the programs can be carried out, and `SignalDeadlock` has its
deadlocks.

## Facts about the code that the model keeps

- Buckets of the notification index hold descriptors without keys, so colliding keys share
  recipients, and a bucket holds eight entries. A full bucket drops a subscription silently
  (`src/server/client.c:186`). That happens exactly when all sessions together hold eight subscriptions
  in the bucket already (`FullExactly`, `DroppedExactly`), for example in one session with nine keys
  such as `abababab` and `bAababab`, all of which `chash` sends to one bucket (`NineKeysOverflow`).
- **The server can deadlock on its own signal handler.** `handle_sigusr1` locks `listc_mutex`
  (`src/server/main.c:43-45`) on whichever thread the signal interrupts, and only workers mask the
  signal for good. On the thread that registers clients, between `src/server/client.c:423` and 465, the
  handler waits for the mutex of its own thread, for ever (`EntryLocksItself`, `SelfLockedForever`,
  `ActivatorDeadlock`). On a job thread that writes the store it can wait for a worker that waits for
  the store (`WriterHostDeadlocks`). `NoCircularWait` holds for the runs in which the signal finds its
  thread neither holding the list mutex nor writing the store, and no place can be left out of that
  condition (`EntryLocksItself`, `EveryWritingPlaceDeadlocks`). The code does not ensure it; masking
  SIGUSR1 in `activate_client` and in job threads while they write would.
- A removal from the key list leaves the last key in its slot, and look-ups scan all ten slots.
  Unsubscribing a key twice therefore succeeds twice and takes `num_keys` to -1 (`DoubleUnsubscribe`).
  `LookupExact`, `SubscribeExact` and `UnsubscribeExact` say exactly when the list behaves as a set:
  when the key is not *stale*, that is, not held by a slot at or above `num_keys` while not live.
  Statements over whole runs assume *fresh naming*: requests name no empty and no stale key. It is
  enough that no client names a key again that it has unsubscribed (`NeverRenamingIsFresh`).
- `kvs_delete` reports `DELETED` for keys that are not there (`EveryDeletionReported`). `kvs_write`
  is silent exactly when the value stays the same (`EveryChangeReported`).
- READ, DELETE and SHOW cut every pair to 39 bytes, with its parentheses. A reader of the text gets all
  pairs back exactly when none is cut (`ReadBackExactly`, `ShowReadsBackExactly`).
- `chash` never confuses two keys of at most 10 bytes that differ in one byte (`OneByteSeparates`).
- Deleting a key and writing the value `DELETED` look the same on the wire. Nothing else does: keys
  come from job files, where a comma ends them, so that texts identify the events of all jobs
  (`TextsIdentifyEvents`). The format alone would confuse two keys exactly when one is the other followed
  by a comma and more (`KeysShareText`).
- A pair that cannot be parsed is cleaned up after twice, so it takes the following line with it
  whenever there is one (`BadPairTakesLine`, `BadKeyTakesTwoLines`, `BadValueTakesTwoLines`). A bad
  command word does so exactly when its line ends within the length of the word it should have been
  (`BadWordTakesLine`): behind `SHO` alone on its line, the next line is lost (`ShoTakesHelp`). So is
  the line behind a newline that stands in place of a bracket, of a parenthesis, of the mark behind a
  pair, or behind too large a number; other wrong lines cost themselves only (`JobErrors`).
- `read_all` and its callers treat a read that fails with EINTR in their own ways. In this server and
  its client no read does: SIGUSR1 is the only signal with a handler, that handler is installed with
  `SA_RESTART` (`src/server/main.c:271`), workers mask it, and the client has no handlers. The model
  keeps those branches, with `Interrupted` for a read that returns EINTR, and shows both that without
  it no mark is left and every whole frame is taken (`Restarted`, `RestartedConnect`,
  `QuietConnections`, `RestartedEnds`), and what the code would do with it: `handle_fifo` would take
  exactly the connections that end before the first signal, because `errno` stays `EINTR`
  (`ConnectionsExactly`, `StaleTakesNothing`), and the notification thread of the client would show
  the same text for ever exactly when the signal comes between two frames or within one that is
  completed (`EndlessExactly`).
- When reading the key of a request fails without a signal, what is served is the key before with the
  bytes read so far at its front: "x" over "ab" subscribes to "xb" (`ServeKey`, `GarbledKey`). That is
  the only way in which a turn that serves a request does not serve the next frame (`TurnTakesFrame`).
- `activate_client` would keep its permit if it fell out of its loop; `PermitConservation` shows that
  it never does.
- The comment beside `MAX_WRITE_SIZE_RESPONSE` in `src/common/constants.h` adds up to 300, and the
  constant is 301; the longest notification has 299 bytes in a frame of 300 (`EventTextFits`).

## Assumptions

- `get_fds` and the writes that follow it are one step, and so is a critical section on one slot. The
  worker that disconnects a client keeps the mutex of its slot over several steps.
- In `Slots`, and in all that is proved about its runs, a mass disconnect may move independently of
  the thread it interrupts. A real one moves less freely, so these statements, which say what every
  reachable state keeps, hold for it too; `LockOrder` has the handlers where they belong.
- A request is one step: the check of the store, the change of the key list and the change of the
  index (`src/server/client.c:168-215`), over which the code holds no common lock. The list belongs to
  the worker alone, and the check is a read of its own, so only the change of the index can be seen by
  others, and that is one critical section of the bucket.
- The descriptor of a new session differs from those that slots still hold (`DistinctStep`). The
  system ensures this for open descriptors; that a number is not given out again between the `close`
  and the end of the removals in `disconnect_client` is assumed. `IndexAgreesWithLists` does not need it.
- A session subscribes only while `num_keys` is not negative; otherwise the C code writes outside its array.
- Keys of the table begin with a letter or a digit; `hash` returns -1 for others.
- Mutexes, semaphores, `malloc` and thread creation do not fail.
- A pipe that is written to has a reader. SIGPIPE is not ignored, so that otherwise the process ends
  inside `write` and the branches of `write_all` for a broken pipe are not reached.
- In `handle_fifo`, `errno` changes by the reads of the registration pipe only, and `intr` has some value
  at the start, where the code leaves it uninitialised.

## Model

| member | source | states |
|---|---|---|
| SlotSafety.RunSafe | src/server/client.c:221-485 | Every state of every run of workers, activators and mass disconnects satisfies the joint invariant of slots, permits, list mutex and flags |
| SlotSafety.PermitConservation | src/server/client.c:414-485 | Semaphore value, permits taken but not used, posts still due and active slots always add up to 8; the semaphore is never negative; the last `return -1` is out of reach although slots are looked at one by one |
| SlotSafety.NoActivationFails | src/server/client.c:428-484 | In no run does an activator with valid descriptors fail |
| SlotSafety.ScanStep | src/server/client.c:428-479 | While an activator scans, an inactive slot stays ahead of it, whatever the other threads do meanwhile |
| SlotSafety.MassDisconnectCompletes | src/server/client.c:122-163 | When a mass disconnect is about to release the list mutex, every slot is inactive, unflagged, closed and without keys |
| SlotSafety.MassDisconnectHolds | src/server/client.c:128-158 | While it runs, `waiting_disconnects` is the number of flagged slots, and no step of any thread activates a slot |
| SlotSafety.OnlyScanActivates | src/server/client.c:437-454 | A slot becomes active exactly by the scan of the activator that owns the list mutex |
| SlotSafety.OnlyOwnerDeactivates | src/server/client.c:107-113 | An active slot becomes inactive exactly when its own worker wipes it; until then its descriptors stay fixed |
| SlotSafety.ClientNeverChanges | src/server/client.c:299-324 | The exits "Read was interrupted" and "Client changed" of the opcode read are never taken: a lost read always leads to `disconnect_client` |
| SlotSafety.LifeCycle | src/server/client.c:238-367 | In every run each activation of a slot but the last has had exactly one `disconnect_client` and one `sem_post`, the last at most one |
| SlotSafety.NobodyIsStuck | src/server/client.c:122-485 | In every reachable state a thread cannot move exactly when it waits for a client, a permit, the list mutex, or a worker that is ending a session; that worker can move, the list mutex has an owner, and without a permit all eight are in use |
| Sessions.WorkerFollows | src/server/client.c:238-367 | In every run each step of a worker is possible exactly behind those steps of its own that lead there in the code, with the flag it saw and the keys it has removed |
| Sessions.BeginsExactly | src/server/client.c:244-366 | `disconnect_client` begins exactly behind a disconnect request, a client that is gone, a greeting that cannot be written, or a flag seen at the head of one of the loops |
| Sessions.DisconnectEnds | src/server/client.c:327-366 | Between a disconnect request and the next operation code that the worker reads, its slot is wiped |
| Sessions.QuitSessionEnds | src/server/client.c:104-113 | A session that quits reads nothing more, and is wiped after one step to begin and one for each live key |
| Sessions.FlaggedSessionEnds | src/server/client.c:244-293 | A flagged session serves at most one more request, and is wiped within 15 steps of its worker |
| Sessions.ListIsItsRequests | src/server/client.c:333-355 | With fresh naming the key list of a served slot is what its client's own requests make of an empty one, with the operation codes it sent, and as a set what the client thinks |
| Sessions.NeverRenamingIsFresh | src/server/coperations.c:106-135 | Fresh naming holds in every run in which no client names the empty key or one that it has unsubscribed |
| Sessions.ServesTheClient | src/server/client.c:414-454 | A slot that becomes active has the descriptors that its activator has opened last |
| MassDisconnect.RoundClears | src/server/client.c:143-158 | A round of the waiting loop takes the flag of every session that had ended when it began, and nobody gets in meanwhile |
| MassDisconnect.LastRound | src/server/client.c:143-158 | A round that begins when all sessions have ended is the last |
| MassDisconnect.MassDisconnectEnds | src/server/client.c:122-163 | Once each session that was active in the waiting loop has got 15 steps of its worker, the round that begins then is the last |
| IndexAgreement.IndexAgreesWithLists | src/server/client.c:104-215 | With fresh naming, in every reachable state each bucket is a sub-multiset of the descriptors of the sessions, once per live key in that bucket, and equal to it unless an `add_key` has met a full bucket; also inside a half-done disconnect, and without distinct descriptors |
| IndexAgreement.MassDisconnectEmptiesIndex | src/server/client.c:104-163 | With fresh naming every bucket is empty when a mass disconnect ends |
| IndexAgreement.NeverFull | src/server/coperations.c:51-60 | "Should never happen": when `chash` separates the live keys and a new one, the bucket of the new one holds at most 7 entries |
| Overflow.FullExactly | src/server/coperations.c:51-60 | While nothing has been dropped, `add_key` meets a full bucket exactly when the sessions together hold eight subscriptions or more in it |
| Overflow.DroppedExactly | src/server/client.c:178-187 | A run with fresh naming has dropped a subscription exactly when some step granted one beyond eight in its bucket, which the key lists alone tell |
| Overflow.SameBucketKeys | src/server/client.c:178-187 | A client that subscribes to up to ten keys of one bucket is granted them all, and the index keeps eight |
| Overflow.NineKeysOverflow | src/server/coperations.c:11-20 | Nine keys of 16 bytes that `chash` sends to one bucket, and the run in which the ninth is lost |
| IndexAgreement.NothingDropped | src/server/client.c:178-187 | So no run of that kind ever drops a subscription |
| IndexAgreement.EntriesStep | src/server/client.c:168-215 | A step of a worker changes the entries its key list calls for exactly as it changes the index |
| Streams.StreamIsProjection | src/server/client.c:35-63 | Unless a bucket overflows, what a session receives is the log of all events in commit order, each repeated as often as the session has live keys in the bucket of the event's key |
| Streams.StreamIsExact | src/server/client.c:35-63 | When `chash` separates the keys in play these are exactly the events of its subscribed keys, once each |
| Notifications.PipesHoldStreams | src/server/client.c:35-63 | In every run with distinct descriptors, the pipe of an open session holds one frame for each event of its stream, in order, and nothing else |
| Notifications.ClientShowsProjection | src/client/api.c:394-414 | From the store to the screen: what a client shows for the bytes in its pipe is, in order and unchanged, the texts of the events that its own key list selects from the history |
| World.Sides | src/server/operations.c:66-88 | A run of the whole server is a run of the store and a run of the sessions with one and the same log |
| World.StreamsFollowCommits | src/server/operations.c:124-146 | Streams are projections of the events of whole batches in lock order, and replaying the log gives the store |
| World.SubscriberCopyIsCoherent | src/server/client.c:35-63 | A client that applies what it receives holds the right value of a key for as long as it is subscribed, with any collisions |
| Subscriber.SubscriberIsTold | src/server/operations.c:79-85 | For every key and value there is a run of the whole server in which a client subscribes and a job writes; it meets every hypothesis of the theorems on streams and copies, and the client gets exactly that event |
| StoreRuns.RunInv | src/server/operations.c:59-148 | The invariant of the read-write lock, of the data and of partly given answers in every run |
| StoreRuns.Serialisable | src/server/operations.c:59-185 | Whenever no batch is under way the store is the fold of whole batches in lock order. Every finished read has the value of each of its keys in the fold of exactly the batches that got the lock before it did, a show has all pairs of it bucket by bucket, and existence checks and backups answer from it; no batch gets the lock before the query is done |
| StoreRuns.ShowsEverything | src/server/operations.c:150-170 | When batches keep to the domain of the table, the parts of a finished show together are that whole store |
| StoreRuns.BatchCommits | src/server/operations.c:59-148 | Whenever nobody has the lock, any idle thread can carry out any batch, and the run that goes on so has it in the store and its events behind the others |
| StoreRuns.QueryCompletes | src/server/operations.c:98-185 | Whenever nobody writes, any idle thread can carry out any query, also beside other readers, and leaves everything as it was |
| StoreRuns.EmittedEventsReplay | src/server/operations.c:66-146 | In every state of every run, even inside a batch, replaying the events so far gives the store, and no write event repeats a value |
| LockOrder.NoCircularWait | src/server/client.c:74-163 | In runs where every signal finds its thread without the list mutex and not writing the store, no chain of waits returns to its start: waits for locks, of the mass disconnect for its workers, and of an interrupted thread for its handler |
| LockOrder.SomebodyMoves | src/server/client.c:143-158 | In the same runs, from every waiting thread at most eight waits lead to a thread that can move |
| LockOrder.LocksInOrder | src/server/client.c:423-484 | Every lock a program thread holds comes before the one it asks for: list, slot, store, table, bucket; workers and job threads themselves never touch the list mutex |
| LockOrder.OrderAcrossHandlers | src/server/main.c:43-45 | With a handler on top, a thread of the operating system keeps the order, for the list mutex and for every slot the handler asks for, exactly when the host holds nothing |
| LockOrder.HarmlessHolds | src/server/operations.c:98-114 | The places where a signal does no harm are those where a host holds nothing or the store for reading |
| LockOrder.RunInv | src/server/coperations.c:44-104 | Locks held are those of the places where the threads stand, and no lock is held by two unless both read |
| LockOrder.WaitsGoUp | src/server/coperations.c:44-104 | If hosts are harmless, who has what another thread waits for, itself waits only for something later in the order |
| LockPrograms.WorkerDisconnects | src/server/client.c:74-120 | When no lock is taken, the worker of any slot can go through `disconnect_client` with any keys, each removal inside the mutex of its slot, and only its slot has changed then |
| LockPrograms.WorkerServes | src/server/client.c:168-215 | A worker can use the index for a request without the mutex of its slot |
| LockPrograms.JobWrites | src/server/operations.c:66-88 | When no lock is taken, any job thread can write a batch with any notifications, all inside the lock of the store |
| SignalDeadlock.EntryLocksItself | src/server/client.c:421-465 | When the signal arrives in any run, a circular wait of the handler and its host is there at once exactly when the host holds the list mutex |
| SignalDeadlock.SelfLockedForever | src/server/client.c:123-126 | Then neither of the two ever moves again |
| SignalDeadlock.ActivatorDeadlock | src/server/client.c:420-428 | The run of three steps in which the signal interrupts `activate_client` |
| SignalDeadlock.WriterHostDeadlocks | src/server/operations.c:66-88 | From every state of every run with a connected client, its worker between requests and nobody at list or slots, a signal on a thread that writes the store can end in a circular wait through the mass disconnect |
| SignalDeadlock.EveryWritingPlaceDeadlocks | src/server/operations.c:66-88 | The condition is exact place by place: for every place of a job thread that writes there is a run in which the signal arrives there and which ends in a circular wait |
| KvsBuckets.Hash | src/server/kvs.c:13-21 | A bucket from 0 to 25 exactly for keys that begin with a letter or a digit |
| KvsBuckets.ReadRefines | src/server/kvs.c:60-77 | Walking a chain is looking up the finite map |
| KvsBuckets.WriteRefines | src/server/kvs.c:34-58 | Overwriting in place or inserting at the head is the map update; each key still sits once, in its bucket |
| KvsBuckets.DeleteRefines | src/server/kvs.c:79-109 | Unlinking is removal from the map; all other keys stay |
| KvsBuckets.AlphabetInOrder | src/server/kvs.c:13-21 | Letters have ascending buckets from 0 to 25 in the order of the alphabet, whatever their case, and digits from 0 to 9 |
| KvsBuckets.ListingInOrder | src/server/operations.c:159-167 | So SHOW lists keys that begin with letters in the order of the alphabet |
| KvsBuckets.ListingIsTheMap | src/server/operations.c:159-167 | The traversal meets every pair of the map exactly once although letters and digits share buckets |
| KvsTable.HashTable.constructor | src/server/kvs.c:23-32 | A new table stands for the empty map |
| KvsTable.HashTable.NodesOccurOnce | src/server/kvs.c:34-109 | Chains are acyclic and disjoint: a node occurs at one place only |
| KvsTable.HashTable.Walk | src/server/kvs.c:63-74 | The pointer walk stops at the first node with the key, or at the end, and knows the node before |
| KvsTable.HashTable.ReadPair | src/server/kvs.c:60-77 | The value in the map, or none |
| KvsTable.HashTable.WritePair | src/server/kvs.c:34-58 | The map with that key updated |
| KvsTable.HashTable.Insert | src/server/kvs.c:51-57 | A new node at the head of its chain |
| KvsTable.HashTable.Overwrite | src/server/kvs.c:42-46 | A new value in the node that holds the key |
| KvsTable.HashTable.DeletePair | src/server/kvs.c:79-109 | The map without the key, and whether it was missing |
| KvsTable.HashTable.UnlinkFirst | src/server/kvs.c:89-92 | The first node leaves its chain |
| KvsTable.HashTable.UnlinkAfter | src/server/kvs.c:93-97 | A later node leaves its chain |
| Batches.ReplayGivesTheStore | src/server/operations.c:68-141 | Folding the events of any history over the initial map gives the final map, repeated keys and missing keys included |
| Batches.LogIsNews | src/server/operations.c:69-77 | No write event says what the replayed map already holds |
| Batches.EveryDeletionReported | src/server/operations.c:138-140 | A delete batch reports each of its keys once and in order, stored or not |
| Batches.EveryChangeReported | src/server/operations.c:68-86 | A write batch reports exactly the pairs whose key holds another value or none in its turn, in order |
| Batches.LastPairDecides | src/server/operations.c:68-86 | The last pair of a repeated key decides |
| Batches.OthersStay | src/server/operations.c:68-141 | Keys that a batch does not name stay |
| Batches.DeletedOnce | src/server/operations.c:127-141 | A key of a delete batch is found when it was stored and was not deleted earlier in the batch |
| Operations.KvsWrite | src/server/operations.c:59-90 | The table after the whole batch, and one event for exactly the pairs that change it in their turn, in order |
| Operations.WriteOne | src/server/operations.c:68-86 | One pair: written and reported unless the value stays the same |
| Operations.KvsRead | src/server/operations.c:92-116 | A reader of the text gets each key back with its value in the map under the lock, or with `KVSERROR`, exactly when no answer is cut at 39 bytes |
| Operations.KvsDelete | src/server/operations.c:118-148 | The table after the batch, one event for every key, and a text that is empty exactly when no key was missing and gives a reader the missing keys back exactly when none is cut |
| Operations.DeleteOne | src/server/operations.c:127-141 | One key of a delete batch with its event and its report |
| Operations.DeleteAll | src/server/operations.c:127-141 | The loop of a delete batch: table, events and report so far |
| Operations.KvsKeyExists | src/server/operations.c:232-245 | 0 exactly when the key is stored |
| Operations.ShowChain | src/server/operations.c:160-166 | The walk along one linked list prints its pairs in order |
| Operations.BackupChain | src/server/operations.c:186-203 | The same walk with the other formatter prints the same |
| Operations.KvsShow | src/server/operations.c:150-170 | The walk over the lists prints the listing of the table, and a reader of its lines gets it back exactly when none is cut |
| Reports.ReadBackExactly | src/server/operations.c:100-145 | A bracketed list of words, read with the syntax of WRITE, gives all its pairs and nothing else exactly when each fits into 39 bytes |
| Reports.MissingIsReport | src/server/operations.c:126-136 | The keys reported missing are exactly those that the store does not hold and those that stand earlier in the batch, in order |
| Reports.ShowReadsBackExactly | src/server/operations.c:157-167 | The text of SHOW, split at its commas and closing parentheses, gives its pairs in order and nothing else exactly when each line fits |
| Operations.BackupImage | src/server/operations.c:181-205 | A backup file is the text that show prints for the same table |
| Formatting.StrnMemcpy | src/server/io.c:23-28 | At most n bytes, no further than the text, and how many |
| Formatting.AppendBounded | src/server/operations.c:192-199 | A bounded copy keeps the buffer at the first 39 bytes of the text so far; the room left never underflows |
| Formatting.BackupLine | src/server/operations.c:188-200 | The chain of bounded copies gives the line that `snprintf` gives in show |
| Formatting.EventTextFits | src/server/client.c:45-59 | A notification has at most 299 bytes and fills a 300-byte frame without truncation |
| Formatting.PrintNotification | src/client/api.c:362-382 | What the client shows for any buffer: its text without spaces at the end, or only spaces |
| Formatting.FillWithSpaces | src/client/api.c:368-372 | Zero bytes behind the text become spaces |
| Formatting.CutSpaces | src/client/api.c:374-379 | The text is ended behind the last character that is no space |
| Formatting.EventTextSurvives | src/client/api.c:394-414 | The text of an event is shown unchanged |
| Formatting.EventTextInjective | src/server/client.c:49-55 | For keys without commas two events have the same text exactly when they differ at most in deleting against writing `DELETED` |
| Formatting.KeysShareText | src/server/client.c:49-55 | Two keys can have events with the same text exactly when they are equal or one is the other followed by a comma and more |
| KeyHash.ComputeChash | src/server/coperations.c:11-20 | The loop that wraps at every step computes the polynomial 5381·33^n + Σ c_i·33^(n-1-i) modulo 2^64, modulo 8191 |
| KeyHash.WordStep | src/server/coperations.c:15-17 | Shift, addition and addition on 64-bit words are times 33 plus the byte |
| KeyHash.WrapsIffLongerThanTen | src/server/coperations.c:11-20 | Nothing wraps exactly for keys of at most 10 bytes; for them the bucket is the exact polynomial modulo 8191 |
| KeyHash.OneByteApart | src/server/coperations.c:11-20 | Keys that differ in one byte have polynomials that differ by the character codes times the power of 33 at that place |
| KeyHash.OneByteSeparates | src/server/coperations.c:11-20 | Two keys of at most 10 bytes that differ in exactly one byte are in different buckets |
| FdIndex.RemoveFdTakesOne | src/server/coperations.c:71-77 | Swap-with-last removes one copy of the descriptor from the multiset, or nothing |
| FdIndex.IntNode.Remove | src/server/coperations.c:71-80 | The array removal in place |
| FdIndex.IntNode.Add | src/server/coperations.c:51-60 | The descriptor in the next free place of the array, or 1 when there is none |
| FdIndex.IntNode.Copy | src/server/coperations.c:98-100 | The entries in use, copied one by one |
| FdIndex.IntHashTable.AddKey | src/server/coperations.c:44-61 | The descriptor behind the others of its bucket, or 1 and nothing changed when there are eight |
| FdIndex.IntHashTable.RemoveKey | src/server/coperations.c:63-81 | Swap-with-last removal in that bucket only, or 1 |
| FdIndex.IntHashTable.GetFds | src/server/coperations.c:83-104 | A copy of the bucket |
| FdIndex.IntHashTable.constructor | src/server/coperations.c:22-33 | 8191 separate empty buckets |
| KeyList.LookupExact | src/server/coperations.c:106-113 | The scan of ten slots gives the live index or -1 exactly for keys that are not stale |
| KeyList.SubscribeExact | src/server/client.c:173-187 | Subscribing inserts into the set of keys exactly when the list is full or the key is not stale |
| KeyList.UnsubscribeExact | src/server/client.c:203-210 | Unsubscribing deletes from the set exactly when the key is not stale |
| KeyList.DoubleUnsubscribe | src/server/client.c:203-210 | Unsubscribing a key twice takes `num_keys` to -1 |
| KeyList.NotRetiredIsFresh | src/server/coperations.c:125-135 | A key never unsubscribed in the session is not stale |
| KeyList.ServeRefinesSet | src/server/client.c:168-215 | A request with fresh naming acts on the list as on a set of at most ten keys, with the same reply |
| KeyList.SessionRefinesSet | src/server/client.c:168-215 | So does a whole session that never names an unsubscribed key again; slots above `num_keys` are empty, copies of live keys or unsubscribed keys |
| ClientOps.SubscribeKeyIndexList | src/server/coperations.c:106-113 | The first of all ten slots that holds the key, or -1 |
| ClientOps.AddKeyToSubscribedList | src/server/coperations.c:115-123 | The key goes to slot `num_keys` unless some slot holds it |
| ClientOps.RemoveKeyFromSubscribedList | src/server/coperations.c:125-135 | The shift to the left in place, the last slot uncleared |
| ClientOps.ClientData.ClientSubscribeKey | src/server/client.c:168-193 | List, index and reply are those of the machine's step |
| ClientOps.ClientData.ClientUnsubscribeKey | src/server/client.c:198-215 | List, index and reply are those of the machine's step |
| ClientOps.ClientData.DisconnectClient | src/server/client.c:104-112 | One removal per live key, then the slot is wiped |
| ClientOps.ClientData.AddSubscription | src/server/client.c:178-192 | The part of a subscription behind the look into the store; the result of `add_key` is ignored |
| ClientOps.ClientData.RemoveEntries | src/server/client.c:104-106 | The removal loop: one index entry for each live key, in order |
| ClientOps.DisconnectIsRun | src/server/client.c:104-112 | From every state of every run in which a worker is about to disconnect its client, its begin, its removals and its wipe go on as a run and end with the index and the slot that `DisconnectClient` computes, all other slots as they were |
| ClientOps.SendToAll | src/server/client.c:48-60 | Each open pipe keeps what was in it, and has behind that exactly as many copies of the frame as its descriptor occurs |
| ClientOps.NotifyClients | src/server/client.c:35-63 | Each open pipe gets exactly one 300-byte frame of the event for each entry with its descriptor in the key's bucket, and pipes that hold the streams of the open sessions do so again behind the machine's step |
| ClientOps.NotifyRefines | src/server/client.c:35-63 | The frames written are those that the notification step of the session machine means |
| JobText.JobRoundTrip | src/server/parser.c:16-315 | Parsing any printed job gives its commands and then the commands of whatever follows |
| JobText.NextOfPrint | src/server/parser.c:96-315 | Reading one printed command gives it back and stops behind it |
| JobText.AcceptedCommandsReprint | src/server/parser.c:201-315 | The valid commands of any file can be printed, and parse to themselves |
| JobText.AcceptedIsPrintable | src/server/parser.c:187-315 | What the parser accepts has 1 to 255 pairs or keys, strings of at most 39 bytes without delimiters, and waits up to UINT_MAX |
| JobText.BadWordTakesLine | src/server/parser.c:114-167 | A bad command word takes the next line exactly when its line ends within the length of the word and something follows |
| JobText.BadPairTakesLine | src/server/parser.c:187-223 | A pair that cannot be parsed takes the next line whenever there is one |
| JobText.ShoTakesHelp | src/server/parser.c:130-134 | Behind `SHO`, the line `HELP` is lost |
| JobGrammar.SkipsOneLine | src/server/parser.c:90-94 | A line is skipped up to its newline and no further |
| JobGrammar.CommentIsEmpty | src/server/parser.c:169-171 | A comment is one empty command, and the job goes on with the next line |
| JobGrammar.OtherLineIsInvalid | src/server/parser.c:176-178 | A line that begins like no command is one invalid command, and the job goes on with the next line |
| JobGrammar.WriteExactly | src/server/parser.c:201-249 | A text without zero bytes begins with a certain WRITE command exactly when it begins as that command is printed, with 1 to 255 pairs |
| JobGrammar.KeysExactly | src/server/parser.c:251-287 | The same for READ and DELETE |
| JobGrammar.AloneExactly | src/server/parser.c:130-167 | SHOW, BACKUP and HELP are taken exactly alone on their line, which the end of the file may end |
| JobGrammar.WaitExactly | src/server/parser.c:289-315 | WAIT takes exactly digits up to UINT_MAX, or none, that a newline, the end of the file or a space ends |
| JobGrammar.NextBeginsLine | src/server/parser.c:96-315 | Whatever stands in the file, each command, valid or not, leaves the parser at the head of a line or at the end |
| JobErrors.NoBracketTakesLine | src/server/parser.c:206-209 | Without an opening bracket, the line behind the wrong character is lost: its own, unless that character is the newline |
| JobErrors.NoParenthesisTakesLine | src/server/parser.c:211-214 | The same without an opening parenthesis behind the bracket of WRITE |
| JobErrors.BadKeyTakesTwoLines | src/server/parser.c:187-223 | A WRITE with a key that ends wrongly loses its own line and the next one, however many good pairs stand before |
| JobErrors.BadValueTakesTwoLines | src/server/parser.c:187-223 | So does one with a value that ends wrongly |
| JobErrors.BadMarkTakesLine | src/server/parser.c:228-231 | A wrong character behind a pair loses the line behind that character: its own, unless the character is the newline |
| JobErrors.TooManyPairsTakeLine | src/server/parser.c:238-241 | 256 pairs are too many, and lose their own line only |
| JobErrors.BadReadTakesLine | src/server/parser.c:262-267 | A READ or DELETE with a key that ends wrongly loses its own line only, however many good keys stand before |
| JobErrors.TooManyKeysTakeLine | src/server/parser.c:276-279 | 256 keys are too many, and lose their own line only |
| JobErrors.JunkBehindPairs | src/server/parser.c:243-246 | Anything but a newline behind the closing bracket of WRITE makes it invalid, and loses its own line |
| JobErrors.JunkBehindKeys | src/server/parser.c:281-284 | The same for READ and DELETE |
| JobErrors.JunkBehindWord | src/server/parser.c:136-139 | The same behind SHOW, BACKUP and HELP |
| JobErrors.LargeNumberTakesLine | src/server/parser.c:292-295 | A delay above UINT_MAX loses the line behind the character that ends it: its own, unless that is the newline |
| JobErrors.JunkBehindNumber | src/server/parser.c:309-314 | A delay that something else than a space or a newline ends loses its own line |
| JobText.Next | src/server/main.c:83-188 | Every turn of the command loop consumes at least one byte |
| JobText.ReadWord | src/server/parser.c:16-50 | A string up to its delimiter, with the delimiter's code |
| JobText.ReadPairs | src/server/parser.c:187-236 | A printed list of pairs is read back |
| JobText.ReadKeys | src/server/parser.c:260-274 | A printed list of keys is read back |
| JobText.ReadNumber | src/server/parser.c:57-86 | A printed number up to UINT_MAX is read back |
| JobParser.JobFile.Cleanup | src/server/parser.c:90-94 | The rest of the file behind the next newline |
| JobParser.JobFile.ReadStringAt | src/server/parser.c:16-50 | Reading byte by byte gives text, code and rest of the specification |
| JobParser.JobFile.GetNextCommand | src/server/parser.c:96-180 | The command kind and the rest, for every text |
| JobParser.JobFile.ExpectWord | src/server/parser.c:114-128 | A command word with arguments, or the rest of the line skipped |
| JobParser.JobFile.ExpectAlone | src/server/parser.c:130-167 | A command word alone on its line or at the end of the file |
| JobParser.JobFile.WaitOrWrite | src/server/parser.c:103-112 | Five bytes decide for WAIT, a sixth for WRITE |
| JobParser.JobFile.ParsePairAt | src/server/parser.c:187-199 | A pair or a cleaned-up line |
| JobParser.JobFile.PairAndMarkAt | src/server/parser.c:220-235 | A pair and the character behind it |
| JobParser.JobFile.ParsePairsAt | src/server/parser.c:216-241 | The loop over pairs, with its limit and its second cleanup |
| JobParser.JobFile.ParseWriteAt | src/server/parser.c:201-249 | The arguments of WRITE |
| JobParser.JobFile.ParseKeysAt | src/server/parser.c:260-279 | The loop over keys with its limit |
| JobParser.JobFile.ParseReadDeleteAt | src/server/parser.c:251-287 | The arguments of READ and DELETE |
| JobParser.JobFile.ReadUintAt | src/server/parser.c:57-86 | The number, the character behind it and the rest |
| JobParser.JobFile.ParseWaitAt | src/server/parser.c:289-315 | The delay of WAIT, as the server asks for it |
| JobParser.JobFile.ReadArguments | src/server/main.c:91-188 | The arguments that each command takes |
| JobRuns.Perform | src/server/main.c:91-160 | One command on the table: it sets exactly the keys it names, to the value of the last pair or to nothing, calls back for each change and each deletion, and answers from the table as it was |
| JobRuns.RunJob | src/server/main.c:81-189 | A job ends; its commands are those of the text; for every key the last command that names it decides what the table holds, and otherwise it holds what it held before; the callbacks got the calls of each command in turn; every answer comes from the table as the commands before left it; every event fits its frame and has a key without commas |
| JobRuns.LastCommandDecides | src/server/main.c:89-129 | The last command that names a key decides what the store holds for it |
| JobRuns.EveryCallMade | src/server/main.c:89-129 | The events of a job are, command by command, one for each pair that changes the store in its turn and one for each key of a DELETE |
| JobRuns.ReadYourWrites | src/server/main.c:81-189 | In any job text, READ of a key answers what the last WRITE before it wrote, if no command between names the key |
| JobRuns.JobEventsArePlain | src/server/parser.c:33-35 | So it is for every job text and every store |
| JobRuns.TextsIdentifyEvents | src/server/client.c:49-55 | The notification texts of events of any jobs are equal exactly for the same writes, deletions read as writing `DELETED`, and are shown unchanged |
| Transfer.Pipe.Read | src/common/io.c:18-35 | One read puts the next bytes behind those in the buffer; none is lost, and the outcome of the transfer is as before |
| Transfer.TransferTakes | src/common/io.c:13-38 | The bytes a transfer takes are the next of the stream, all that were asked for when it succeeds |
| Transfer.Pipe.ReadAll | src/common/io.c:13-38 | Returns 1 only when the buffer holds exactly the next bytes of the stream, for any short reads, signals and errors; the outcome for every pattern, and in each the bytes taken over the front of the old buffer |
| Transfer.TransferSucceeds | src/common/io.c:13-38 | It succeeds exactly when enough bytes come before an error and before a signal in first place, and reports the end exactly when the stream runs out |
| Transfer.TransferKeeps | src/common/io.c:20-31 | Without errors a transfer fails by a signal only, and a quiet stream stays quiet |
| Transfer.SignalCuts | src/common/io.c:20-31 | Without errors a transfer is clean exactly when it ends before the first signal |
| Transfer.Restarted | src/common/io.c:20-31 | Without EINTR a transfer leaves no mark |
| Transfer.FailureTakesLess | src/common/io.c:18-36 | A transfer that does not succeed takes fewer bytes than were asked for |
| Transfer.Sink.WriteAll | src/common/io.c:56-75 | Everything is written whatever signals and short writes come, or a proper prefix and -1 after an error |
| Wire.SendRequest | src/client/api.c:231-235 | The message that goes out is the operation code and the 40-byte key field |
| Wire.SendDisconnect | src/client/api.c:57-58 | The one byte of a disconnect |
| Wire.ServeRequests | src/server/client.c:281-361 | The requests served on any stream of chunks, signals and errors, turn by turn, from the key buffer and the mark that the client before has left, and what stays of them |
| Wire.QuietIsServed | src/server/client.c:281-361 | Without signals and errors they are exactly the requests of the stream, however the bytes arrive |
| Wire.ServedIsPrefix | src/server/client.c:299-348 | With signals, and errors outside keys, they are a first part of them |
| Wire.ErrorFreeIsNeverGarbled | src/server/client.c:335-341 | Without read errors no turn serves a key that is not in the stream |
| Wire.GarbledKey | src/server/client.c:335-355 | A request for "x" that breaks off serves "xb" when the key before was "ab" |
| Wire.ServeOne | src/server/client.c:299-359 | One turn on any stream: what it serves, what it leaves, the key buffer and the signal mark |
| Wire.TurnIsFrame | src/server/client.c:299-359 | Unless it is garbled, a turn that serves decodes the next of the stream; on a quiet stream every turn does |
| Wire.TurnTakesFrame | src/server/client.c:333-355 | A turn that serves a request takes the next 41 bytes and serves the request in them exactly when no error strikes within its key, and exactly then it takes 41 bytes at all |
| Wire.WholeExactly | src/server/client.c:281-361 | Over a session, every request served is a whole frame of the stream exactly when no turn is garbled |
| Wire.ServeKey | src/server/client.c:333-355 | The 40 bytes behind an operation code are the key; a read that fails without a signal serves the key before with the bytes read so far at its front |
| Wire.RequestsRoundTrip | src/client/api.c:307-311 | Any requests and a disconnect decode to the same requests with keys cut to 40 bytes, and leave what follows |
| Wire.JunkIsSkipped | src/server/client.c:356-358 | Bytes that are no operation code are passed over wherever one is due |
| Wire.RequestsUnchanged | src/client/api.c:231-235 | Nothing is cut exactly when no key is longer than 40 bytes |
| Wire.StorePath | src/client/api.c:116-121 | A stored path is the path cut to 39 bytes |
| Wire.SendConnect | src/client/api.c:115-156 | The 121 bytes of a connection |
| Wire.TrimTrailingWhitespace | src/server/operations.c:224-230 | The trimmed text, in place |
| Wire.TrimmedIs | src/server/operations.c:224-230 | Trimming gives the shortest front of at least one character with nothing but whitespace behind it |
| Wire.PathFrom | src/server/main.c:302-313 | A field of the frame gives its text cut to 39 bytes and trimmed |
| Wire.ReadConnect | src/server/main.c:286-315 | One turn on any stream: a connection is taken exactly when a whole frame was read and `errno` is not `EINTR` behind it, and then it is the next frame |
| Wire.HandleFifo | src/server/main.c:285-315 | The loop: the connections taken from any stream, with `intr` and `errno` from turn to turn |
| Wire.ConnectionsExactly | src/server/main.c:285-315 | On a stream without errors they are exactly the frames that end before the first read with EINTR |
| Wire.QuietConnections | src/server/main.c:268-315 | Without EINTR they are the frames of the stream in order, however the bytes arrive |
| Wire.RestartedConnect | src/server/main.c:268-291 | Where reads are restarted, a turn leaves no mark, and takes the frame whenever a whole one is read |
| Wire.StaleTakesNothing | src/server/main.c:291 | Behind a read with EINTR, unless one fails otherwise, nothing is taken any more |
| Wire.ConnectRoundTrip | src/server/main.c:295-315 | The server gets the client's three paths, cut to 39 bytes and trimmed |
| Wire.PathSurvives | src/client/api.c:115-121 | A path arrives unchanged exactly when it has at most 39 bytes and no whitespace at its end unless that is all of it |
| Wire.ShowNotifications | src/client/api.c:394-453 | What the client shows on any stream, and whether it ends in the same text for ever |
| Wire.QuietIsShown | src/client/api.c:394-453 | On a quiet stream it is the frames in order, however the bytes arrive |
| Wire.RestartedEnds | src/client/api.c:394-453 | Where reads are restarted, the loop ends with its stream |
| Wire.EndlessExactly | src/client/api.c:414-452 | On a stream without errors it goes on for ever exactly when a signal comes between two frames or within a frame that is completed |
| Wire.NotificationsRoundTrip | src/client/api.c:394-414 | For the frames of any events it shows exactly their texts |
| CStrings.CopyField | src/client/api.c:152-154 | `strncpy` into a field of a buffer, with zero fill, and nothing else changed |
| CStrings.CStrOfStrncpy | src/server/main.c:302-311 | A copied field reads back as the text cut to its size |

## Left out

- Opening, closing and creating pipes, signal masks, `fork`, directory scanning, stderr and stdout messages. Pipes are byte streams, and a backup looks at the table as `fork` copies it.
- Failure of mutexes, semaphores, `malloc` and threads, and `activate_client` with invalid descriptors.
- Liveness that depends on clients: a worker waits in a read until its client sends. The mass disconnect is proved for when it returns.
- The disconnect handshake of the client, whose notification thread may wait in a read; `src/client/parser.c`, `src/client/main.c`, `free_table`, `destroy_int_hash_table`, `write_uint`, delays.
- The limit on backups: two job threads can exceed it when `wait` returns at once.
- Job strings of 40 bytes write one byte behind their buffer, numbers of 16 digits or more overflow theirs, and numbers ended by the end of the file are not terminated; the model gives the outcome without the damage.
- A thread number behind WAIT: the server passes none and skips the rest of the line.
- The optional preference of writers in read-write locks: a reader waits for writers that hold the lock, not for those that wait.
- StoreRuns.Serialisable: a backup is one look at the whole table, and the reports of missing keys are in `Operations.KvsDelete`.
- MassDisconnect.MassDisconnectEnds: says when the loop ends in terms of the turns that workers get; whether they get them depends on the scheduler and, inside a read, on the clients.
- LockOrder.NoCircularWait: is stated for guarded runs, because the code does not keep signals away from threads that hold the list mutex or write the store; `SignalDeadlock` has the runs where it fails.
- SignalDeadlock.WriterHostDeadlocks: starts from states in which the other threads are not at the list or a slot, so that the signal handler gets through; other states only delay it.
- Wire.ServeRequests: leaves the check of `force_disconnect` to `Slots`.
- Wire.ShowNotifications: is the loop of a client that does not disconnect.
- Wire.HandleFifo: ends where there is nothing left to read; the code waits for the next client there.
- Streams.StreamIsProjection: takes runs without overflow and with distinct descriptors; without that the index still agrees as `IndexAgreesWithLists` says.
- JobRuns.RunJob: BACKUP writes to a file of its own, which is `Operations.BackupImage`, and WAIT and HELP write nothing to the output file.
- LockOrder.SomebodyMoves: speaks of locks and of the mass disconnect; a thread may also wait in a read or a write of a pipe, or for the semaphore.

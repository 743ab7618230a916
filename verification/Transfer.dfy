/** read_all and write_all of src/common/io.c: exact transfers over short reads, short writes
    and interrupts. */
module Transfer {
  import opened Sequences

  /** What a read finds next: bytes that are there, a signal, or an error. After the last event
      comes the end of the stream. Interrupted stands for a read that returns EINTR, which a handler
      installed with SA_RESTART never makes it do. */
  datatype Event = Chunk(data: string) | Interrupted | Failed

  /** The bytes of a stream. */
  function Content(events: seq<Event>): string {
    if events == [] then ""
    else (if events[0].Chunk? then events[0].data else "") + Content(events[1..])
  }

  /** How much there is left to read; every read that is not at the end takes some of it. */
  ghost function Left(events: seq<Event>): nat {
    if events == [] then 0 else (if events[0].Chunk? then |events[0].data| else 1) + Left(events[1..])
  }

  /** read never reports an empty chunk: zero bytes mean the end. */
  ghost predicate NonEmpty(events: seq<Event>) {
    forall e :: e in events ==> e.Chunk? ==> e.data != ""
  }

  /** No signals and no errors. */
  ghost predicate Quiet(events: seq<Event>) {
    Interrupted !in events && Failed !in events
  }

  /** One read of at most n bytes: what is left of a chunk stays. */
  function AfterRead(events: seq<Event>, n: nat): seq<Event>
    requires events != []
  {
    match events[0]
    case Chunk(data) => if |data| <= n then events[1..] else [Chunk(data[n..])] + events[1..]
    case _ => events[1..]
  }

  /** How a transfer of so many bytes ends: which value it returns, whether it saw a signal, and
      which events are left. A signal before the first byte ends it. */
  function Transferred(events: seq<Event>, size: nat, first: bool): (r: (int, bool, seq<Event>))
    ensures -1 <= r.0 <= 1
    decreases |events|, size
  {
    if size == 0 then (1, false, events)
    else if events == [] then (0, false, [])
    else match events[0]
      case Failed => (-1, false, events[1..])
      case Interrupted =>
        if first then (-1, true, events[1..])
        else var (code, _, rest) := Transferred(events[1..], size, false); (code, true, rest)
      case Chunk(data) =>
        if |data| <= size then Transferred(events[1..], size - |data|, first && data == "")
        else (1, false, AfterRead(events, size))
  }

  /** The bytes that a transfer takes from the stream, whether it succeeds or not. */
  function Taken(events: seq<Event>, size: nat, first: bool): (data: string)
    ensures |data| <= size
    decreases |events|
  {
    if size == 0 || events == [] then ""
    else match events[0]
      case Failed => ""
      case Interrupted => if first then "" else Taken(events[1..], size, false)
      case Chunk(data) =>
        if |data| <= size then data + Taken(events[1..], size - |data|, first && data == "") else data[..size]
  }

  predicate StartsWithSignal(events: seq<Event>) {
    events != [] && events[0] == Interrupted
  }

  /** Whether errno is EINTR behind a transfer, given whether it was before: reads that fail set it,
      and nothing else touches it. */
  function Errno(events: seq<Event>, size: nat, eintr: bool): bool {
    var (code, signal, _) := Transferred(events, size, true);
    if code == -1 then StartsWithSignal(events) else eintr || signal
  }

  /** A buffer with other bytes at its front. */
  function Overwritten(buffer: string, data: string): string {
    if |data| <= |buffer| then data + buffer[|data|..] else data
  }

  /** What read_all has done so far: the first bytes of the buffer come from the stream, and the
      others are as they were. */
  ghost predicate Filled(start: string, buffer: string, got: nat, content: string, rest: string) {
    && got <= |buffer| == |start| && content == buffer[..got] + rest
    && forall j :: got <= j < |buffer| ==> buffer[j] == start[j]
  }

  lemma FilledMore(start: string, was: string, buffer: string, got: nat, more: nat,
                   content: string, was': string, rest: string)
    requires Filled(start, was, got, content, was') && got + more <= |buffer| == |was|
    requires buffer[..got + more] + rest == was[..got] + was'
    requires forall j :: got + more <= j < |buffer| ==> buffer[j] == was[j]
    ensures Filled(start, buffer, got + more, content, rest)
  {
  }

  lemma Cancel(a: string, b: string, c: string)
    requires a + c == b + c
    ensures a == b
  {
    assert |a| == |b|;
    assert a == (a + c)[..|a|] && b == (b + c)[..|b|];
  }

  lemma FilledTaken(start: string, buffer: string, got: nat, events: seq<Event>, size: nat)
    requires Filled(start, buffer, got, Content(events), Content(Transferred(events, size, true).2))
    ensures buffer[..got] == Taken(events, size, true) && buffer == Overwritten(start, Taken(events, size, true))
  {
    TransferTakes(events, size, true);
    Cancel(buffer[..got], Taken(events, size, true), Content(Transferred(events, size, true).2));
    assert buffer == buffer[..got] + start[got..];
  }

  /** The bytes of one read, put behind those that are there. */
  method Store(buffer: array<char>, at: nat, data: string)
    requires at + |data| <= buffer.Length
    modifies buffer
    ensures buffer[..at + |data|] == old(buffer[..at]) + data
    ensures forall j :: at + |data| <= j < buffer.Length ==> buffer[j] == old(buffer[j])
  {
    forall i | 0 <= i < |data| {
      buffer[at + i] := data[i];
    }
  }

  /** The reading end of a pipe, and whether errno is EINTR. */
  class Pipe {
    var events: seq<Event>
    var eintr: bool

    constructor (events: seq<Event>)
      ensures this.events == events && !eintr
    {
      this.events := events;
      eintr := false;
    }

    /** read of at most n bytes into the buffer, behind the bytes that are there: the number of
        bytes, or -1 with EINTR or another error. No byte is lost. */
    method Read(buffer: array<char>, at: nat, n: nat, ghost first: bool) returns (result: int)
      requires 0 < n && at + n <= buffer.Length && NonEmpty(events)
      modifies this, buffer
      ensures NonEmpty(events) && result <= n && (result <= 0 ==> buffer[..] == old(buffer[..]))
      ensures result > 0 ==> buffer[..][..at + result] + Content(events) == old(buffer[..][..at] + Content(events))
      ensures forall j :: at + result <= j < buffer.Length && j >= at ==> buffer[j] == old(buffer[j])
      ensures if result != 0 then Left(events) < Left(old(events)) else Left(events) == Left(old(events))
      ensures Transferred(old(events), n, first) ==
              if result > 0 then Transferred(events, n - result, false)
              else if result == 0 then (0, false, events)
              else if eintr && !first then WithSignal(Transferred(events, n, false), true)
              else (-1, eintr, events)
      ensures if result == -1 then eintr == StartsWithSignal(old(events)) else eintr == old(eintr)
      ensures result > 0 ==> !StartsWithSignal(old(events))
      ensures result >= -1 && (result == 0 ==> events == old(events))
      ensures result == -1 ==> Content(events) == Content(old(events))
    {
      if events == [] {
        return 0;
      }
      match events[0] {
        case Interrupted =>
          eintr := true;
          result := -1;
        case Failed =>
          eintr := false;
          result := -1;
        case Chunk(d) =>
          assert d != "" by {
            assert events[0] in events;
          }
          var data := if |d| <= n then d else d[..n];
          TakeBytes(events, n, data);
          result := |data|;
          Store(buffer, at, data);
          Assoc(old(buffer[..at]), data, Content(AfterRead(events, n)));
      }
      events := AfterRead(events, n);
    }

    /** read_all: 1 exactly when the buffer holds the next size bytes of the stream. However it
        ends, the bytes taken stand at the front of the buffer and the rest of it is as before. */
    method ReadAll(buffer: array<char>, size: nat, intr: bool) returns (code: int, intr': bool)
      requires size <= buffer.Length && NonEmpty(events)
      modifies this, buffer
      ensures NonEmpty(events)
      ensures intr ==> code == -1 && intr' && events == old(events) && buffer[..] == old(buffer[..])
      ensures !intr ==> (code, intr', events) == Transferred(old(events), size, true)
      ensures code == 1 ==> Content(old(events)) == buffer[..size] + Content(events)
      ensures !intr ==> buffer[..] == Overwritten(old(buffer[..]), Taken(old(events), size, true))
      ensures eintr == if intr then old(eintr) else Errno(old(events), size, old(eintr))
      ensures Left(events) <= Left(old(events))
      ensures !intr && code != 0 && size > 0 ==> Left(events) < Left(old(events))
    {
      if intr {
        return -1, true;
      }
      ghost var got;
      code, intr', got := ReadLoop(buffer, size);
      FilledTaken(old(buffer[..]), buffer[..], got, old(events), size);
    }

    /** Its loop, with the number of bytes read. */
    method ReadLoop(buffer: array<char>, size: nat) returns (code: int, intr: bool, got: nat)
      requires size <= buffer.Length && NonEmpty(events)
      modifies this, buffer
      ensures NonEmpty(events)
      ensures (code, intr, events) == Transferred(old(events), size, true)
      ensures eintr == Errno(old(events), size, old(eintr))
      ensures Filled(old(buffer[..]), buffer[..], got, Content(old(events)), Content(events))
      ensures code == 1 ==> got == size
      ensures Left(events) <= Left(old(events)) && (code != 0 && size > 0 ==> Left(events) < Left(old(events)))
    {
      intr, got := false, 0;
      ghost var start, content := buffer[..], Content(events);
      ghost var all := Transferred(events, size, true);
      assert "" + content == content;
      while got < size
        invariant got <= size && NonEmpty(events)
        invariant Filled(start, buffer[..], got, content, Content(events))
        invariant all == WithSignal(Transferred(events, size - got, got == 0), intr)
        invariant eintr == (old(eintr) || intr)
        invariant if got == 0 then !intr && events == old(events)
                  else Left(events) < Left(old(events)) && !StartsWithSignal(old(events))
        decreases Left(events)
      {
        ghost var was, left := buffer[..], Content(events);
        var result := Read(buffer, got, size - got, got == 0);
        if result == -1 {
          if !eintr {
            return -1, intr, got;
          }
          intr := true;
          if got == 0 {
            return -1, true, 0;
          }
        } else if result == 0 {
          return 0, intr, got;
        } else {
          FilledMore(start, was, buffer[..], got, result, content, left, Content(events));
          got := got + result;
        }
      }
      code := 1;
    }
  }

  /** The same end, with a signal seen before or not. */
  function WithSignal(r: (int, bool, seq<Event>), signal: bool): (int, bool, seq<Event>) {
    (r.0, signal || r.1, r.2)
  }

  lemma TakeBytes(events: seq<Event>, n: nat, data: string)
    requires n > 0 && events != [] && events[0].Chunk?
    requires data == if |events[0].data| <= n then events[0].data else events[0].data[..n]
    ensures Content(events) == data + Content(AfterRead(events, n))
  {
  }

  /** What can be read before something ends the transfer. */
  function Usable(events: seq<Event>, first: bool): seq<Event> {
    if events == [] || events[0] == Failed || (first && events[0] == Interrupted) then []
    else [events[0]] + Usable(events[1..], false)
  }

  /** read_all succeeds exactly when enough bytes come before an error, and before any signal
      when that is the first thing to come; it reports the end only when the stream ran out. */
  lemma {:induction false} TransferSucceeds(events: seq<Event>, size: nat, first: bool)
    requires NonEmpty(events)
    ensures var (code, _, rest) := Transferred(events, size, first);
            && (code == 1 <==> |Content(Usable(events, first))| >= size)
            && (code == 0 <==> |Content(events)| < size && Usable(events, first) == events)
            && (code == 0 ==> rest == [])
    decreases |events|
  {
    if size > 0 && events != [] {
      var e, rest := events[0], events[1..];
      if e.Chunk? && |e.data| <= size {
        TransferSucceeds(rest, size - |e.data|, false);
        assert ([e] + Usable(rest, false))[1..] == Usable(rest, false);
        assert events == [e] + rest;
      } else if e.Interrupted? && !first {
        TransferSucceeds(rest, size, false);
        assert ([e] + Usable(rest, false))[1..] == Usable(rest, false);
        assert events == [e] + rest;
      }
    }
  }

  /** Nothing new comes up in what a transfer leaves; a failure without a signal is an error. */
  lemma {:induction false} TransferKeeps(events: seq<Event>, size: nat, first: bool)
    requires Failed !in events
    ensures var (code, signal, rest) := Transferred(events, size, first);
            && Failed !in rest
            && (code == -1 ==> signal)
            && (Quiet(events) ==> Quiet(rest) && !signal)
    decreases |events|
  {
    if size > 0 && events != [] {
      var e, rest := events[0], events[1..];
      if e.Chunk? && |e.data| <= size {
        TransferKeeps(rest, size - |e.data|, first && e.data == "");
      } else if e.Interrupted? && !first {
        TransferKeeps(rest, size, false);
      }
    }
  }

  /** A transfer that does not succeed takes less than was asked for. */
  lemma {:induction false} FailureTakesLess(events: seq<Event>, size: nat, first: bool)
    ensures Transferred(events, size, first).0 != 1 ==> |Taken(events, size, first)| < size
    decreases |events|
  {
    if size > 0 && events != [] {
      var e, rest := events[0], events[1..];
      if e.Chunk? && |e.data| <= size {
        FailureTakesLess(rest, size - |e.data|, first && e.data == "");
      } else if e.Interrupted? && !first {
        FailureTakesLess(rest, size, false);
      }
    }
  }

  /** Where reads are restarted, a transfer leaves no mark. */
  lemma {:induction false} Restarted(events: seq<Event>, size: nat, first: bool)
    requires Interrupted !in events
    ensures var (_, signal, rest) := Transferred(events, size, first);
            !signal && Interrupted !in rest
    decreases |events|
  {
    if size > 0 && events != [] {
      var e, rest := events[0], events[1..];
      if e.Chunk? && |e.data| <= size {
        Restarted(rest, size - |e.data|, first && e.data == "");
      }
    }
  }

  /** What comes before the first signal. */
  function BeforeSignal(events: seq<Event>): seq<Event> {
    if events == [] || events[0] == Interrupted then [] else [events[0]] + BeforeSignal(events[1..])
  }

  /** On a stream without errors a transfer is clean exactly when it ends before the first signal. */
  lemma {:induction false} SignalCuts(events: seq<Event>, size: nat, first: bool)
    requires NonEmpty(events) && Failed !in events
    ensures var (code, signal, rest) := Transferred(events, size, first);
            var front := Content(BeforeSignal(events));
            && (code == 1 && !signal <==> |front| >= size)
            && (code == 1 && !signal ==> front == Taken(events, size, first) + Content(BeforeSignal(rest)))
            && (Interrupted in events <==> signal || Interrupted in rest)
    decreases |events|
  {
    if size > 0 && events != [] {
      var e, rest := events[0], events[1..];
      assert events == [e] + rest;
      if e.Chunk? {
        FrontOf(events);
        if |e.data| <= size {
          SignalCuts(rest, size - |e.data|, false);
          assert e in events;
          Assoc(e.data, Taken(rest, size - |e.data|, false),
                Content(BeforeSignal(Transferred(rest, size - |e.data|, false).2)));
        } else {
          FrontOf(AfterRead(events, size));
          Assoc(e.data[..size], e.data[size..], Content(BeforeSignal(rest)));
          assert e.data[..size] + e.data[size..] == e.data;
        }
      } else if !first {
        SignalCuts(rest, size, false);
      }
    }
  }

  lemma FrontOf(events: seq<Event>)
    requires events != [] && events[0].Chunk?
    ensures Content(BeforeSignal(events)) == events[0].data + Content(BeforeSignal(events[1..]))
  {
    assert ([events[0]] + BeforeSignal(events[1..]))[1..] == BeforeSignal(events[1..]);
  }

  lemma {:induction false} NoSignalCutsNothing(events: seq<Event>)
    requires Interrupted !in events
    ensures BeforeSignal(events) == events
  {
    if events != [] {
      NoSignalCutsNothing(events[1..]);
    }
  }

  /** A transfer takes bytes from the front of the stream: all that were asked for when it
      succeeds. */
  lemma {:induction false} TransferTakes(events: seq<Event>, size: nat, first: bool)
    ensures var (code, _, rest) := Transferred(events, size, first);
            && Content(events) == Taken(events, size, first) + Content(rest)
            && (code == 1 ==> |Taken(events, size, first)| == size)
    decreases |events|
  {
    if size > 0 && events != [] {
      var e, rest := events[0], events[1..];
      if e.Chunk? && |e.data| <= size {
        var more := first && e.data == "";
        TransferTakes(rest, size - |e.data|, more);
        Assoc(e.data, Taken(rest, size - |e.data|, more), Content(Transferred(rest, size - |e.data|, more).2));
      } else if e.Chunk? {
        TakeBytes(events, size, e.data[..size]);
      } else if e.Interrupted? && !first {
        TransferTakes(rest, size, false);
      }
    }
  }

  /** Unless it meets the end of the stream, it leaves less to read. */
  lemma {:induction false} TransferShrinks(events: seq<Event>, size: nat, first: bool)
    requires NonEmpty(events)
    ensures var (code, _, rest) := Transferred(events, size, first);
            && NonEmpty(rest) && Left(rest) <= Left(events)
            && (size > 0 && code != 0 ==> Left(rest) < Left(events))
    decreases |events|
  {
    if size > 0 && events != [] {
      var e, rest := events[0], events[1..];
      assert e in events;
      if e.Chunk? && |e.data| <= size {
        TransferShrinks(rest, size - |e.data|, false);
      } else if e.Interrupted? && !first {
        TransferShrinks(rest, size, false);
      }
    }
  }

  /** What a write meets: room for at least one byte, a signal, or an error. */
  datatype Room = Room(more: nat) | Signal | Broken

  /** The writing end of a pipe; behind the last event there is room for everything. */
  class Sink {
    var rooms: seq<Room>
    var written: string

    constructor (rooms: seq<Room>)
      ensures this.rooms == rooms && written == ""
    {
      this.rooms := rooms;
      written := "";
    }

    method Write(data: string) returns (result: int, eintr: bool)
      requires data != ""
      modifies this
      ensures rooms == if old(rooms) == [] then [] else old(rooms)[1..]
      ensures result == -1 ==>
        written == old(written) && old(rooms) != [] && old(rooms)[0] == if eintr then Signal else Broken
      ensures result != -1 ==> 0 < result <= |data| && written == old(written) + data[..result]
      ensures old(rooms) == [] ==> result == |data|
    {
      result, eintr := |data|, false;
      if rooms != [] {
        match rooms[0] {
          case Room(more) => result := if more + 1 <= |data| then more + 1 else |data|;
          case Signal => result, eintr := -1, true;
          case Broken => result := -1;
        }
        rooms := rooms[1..];
      }
      if result != -1 {
        written := written + data[..result];
      }
    }

    /** write_all: everything, whatever signals and short writes come; or a proper prefix and
        -1, which takes an error. */
    method WriteAll(data: string) returns (code: int)
      modifies this
      ensures code == 1 || code == -1
      ensures code == 1 ==> written == old(written) + data
      ensures code == -1 ==> Broken in old(rooms) && exists k :: 0 <= k < |data| && written == old(written) + data[..k]
    {
      var done := 0;
      assert data[..0] == "";
      while done < |data|
        invariant 0 <= done <= |data| && written == old(written) + data[..done]
        invariant forall r :: r in rooms ==> r in old(rooms)
        decreases |rooms|, |data| - done
      {
        ghost var before := rooms;
        var result, eintr := Write(data[done..]);
        if result == -1 {
          if eintr {
            continue;
          }
          assert before[0] in before;
          return -1;
        }
        assert data[..done] + data[done..][..result] == data[..done + result];
        done := done + result;
      }
      assert data[..done] == data;
      code := 1;
    }
  }
}

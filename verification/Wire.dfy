/** The frames between client and server: requests (src/client/api.c, src/server/client.c),
    connections (src/server/main.c, trim_trailing_whitespace in src/server/operations.c) and
    notifications, over the transfers of Transfer.dfy. */
module Wire {
  import opened Constants
  import opened Sequences
  import opened CStrings
  import Formatting
  import opened Transfer

  // ---- Requests ----

  datatype Request = Request(subscribe: bool, key: string)

  /** The 41 bytes of a request. */
  function RequestFrame(r: Request): (f: string)
    ensures |f| == 1 + MAX_STRING_SIZE
  {
    [if r.subscribe then '3' else '4'] + Strncpy(r.key, MAX_STRING_SIZE)
  }

  const DISCONNECT: string := "2"

  function Frames(rs: seq<Request>): string {
    if rs == [] then "" else RequestFrame(rs[0]) + Frames(rs[1..])
  }

  /** The requests in a stream up to its end or a disconnect, whether it was a disconnect, and the
      rest. Any byte that is no operation code is skipped. */
  function Decode(s: string): (seq<Request>, (bool, string)) {
    if s == "" then ([], (false, ""))
    else if s[0] == '2' then ([], (true, s[1..]))
    else if s[0] != '3' && s[0] != '4' then Decode(s[1..])
    else if |s| <= MAX_STRING_SIZE then ([], (false, ""))
    else Behind([Request(s[0] == '3', CStr(s[1..MAX_STRING_SIZE + 1]))], Decode(s[MAX_STRING_SIZE + 1..]))
  }

  /** The message of kvs_subscribe and kvs_unsubscribe: a buffer of 43 bytes, of which 41 go out. */
  method SendRequest(sink: Sink, r: Request) returns (code: int)
    modifies sink
    ensures code == 1 ==> sink.written == old(sink.written) + RequestFrame(r)
    ensures code != 1 ==> code == -1 && Broken in old(sink.rooms)
  {
    var message := new char[MAX_STRING_SIZE + 3](_ => NUL);
    message[0] := if r.subscribe then '3' else '4';
    CopyField(message, 1, r.key, MAX_STRING_SIZE + 1);
    assert message[..MAX_STRING_SIZE + 1] == RequestFrame(r);
    code := sink.WriteAll(message[..MAX_STRING_SIZE + 1]);
  }

  /** The message of kvs_disconnect. */
  method SendDisconnect(sink: Sink) returns (code: int)
    modifies sink
    ensures code == 1 ==> sink.written == old(sink.written) + DISCONNECT
    ensures code != 1 ==> code == -1 && Broken in old(sink.rooms)
  {
    code := sink.WriteAll(DISCONNECT);
  }

  datatype Turn = Serve(requests: seq<Request>) | ByClient | Lost

  /** Where the reading loop of client_thread stands: the stream, the key buffer and intr. */
  datatype Reader = Reader(events: seq<Event>, key: string, intr: bool)

  /** The key of a request, behind its operation code. A read that fails without a signal is passed
      over: what is served then is the key before with the bytes read so far at its front. */
  ghost function KeyTurn(r: Reader, subscribe: bool): (Turn, Reader) {
    if r.intr then (Lost, r.(intr := false))
    else
      var (code, signal, rest) := Transferred(r.events, MAX_STRING_SIZE, true);
      var key := Overwritten(r.key, Taken(r.events, MAX_STRING_SIZE, true));
      if code == 0 || (code == -1 && signal) then (Lost, Reader(rest, key, code == 0 && signal))
      else (Serve([Request(subscribe, CStr(key))]), Reader(rest, key, signal))
  }

  /** One turn of the loop, on any stream. */
  ghost function OneTurn(r: Reader): (Turn, Reader) {
    if r.intr then (Lost, r.(intr := false))
    else
      var (code, signal, rest) := Transferred(r.events, 1, true);
      if code == -1 then (if signal then Lost else Serve([]), Reader(rest, r.key, false))
      else if code == 0 then (Lost, Reader(rest, r.key, signal))
      else AfterOp(Reader(rest, r.key, signal), Taken(r.events, 1, true))
  }

  ghost function AfterOp(r: Reader, op: string): (Turn, Reader) {
    if op == "2" then (ByClient, r)
    else if op == "3" || op == "4" then KeyTurn(r, op == "3")
    else (Serve([]), r)
  }

  /** All requests that are served on a stream, whether the client has disconnected, and where the
      reading stands then: its key and its mark stay for the next client. A turn that serves takes
      something from the stream. */
  ghost function Served(r: Reader): (seq<Request>, (bool, Reader))
    decreases Left(r.events)
  {
    var (turn, next) := OneTurn(r);
    if turn.Serve? && Left(next.events) < Left(r.events) then Behind(turn.requests, Served(next))
    else ([], (turn.ByClient?, next))
  }

  /** The reading code of one turn. */
  method ServeOne(p: Pipe, key: array<char>, intr: bool) returns (turn: Turn, intr': bool)
    requires NonEmpty(p.events) && key.Length == MAX_STRING_SIZE + 1
    modifies p, key
    ensures NonEmpty(p.events)
    ensures (turn, Reader(p.events, key[..], intr')) == OneTurn(Reader(old(p.events), old(key[..]), intr))
    ensures turn.Serve? ==> Left(p.events) < Left(old(p.events))
  {
    var buffer := new char[2](_ => NUL);
    var result;
    result, intr' := p.ReadAll(buffer, 1, intr);
    if result == -1 {
      if intr' {
        return Lost, false;
      }
      return Serve([]), intr';
    } else if result == 0 {
      return Lost, intr';
    }
    var op := buffer[0];
    assert buffer[..1] == [op];
    TransferTakes(old(p.events), 1, true);
    Cancel(Taken(old(p.events), 1, true), [op], Content(p.events));
    match op {
      case '2' => return ByClient, intr';
      case '3' | '4' => turn, intr' := ServeKey(p, key, intr', op == '3');
      case _ => turn := Serve([]);
    }
  }

  /** The reading code of a key. */
  method ServeKey(p: Pipe, key: array<char>, intr: bool, subscribe: bool) returns (turn: Turn, intr': bool)
    requires NonEmpty(p.events) && key.Length == MAX_STRING_SIZE + 1
    modifies p, key
    ensures NonEmpty(p.events) && Left(p.events) <= Left(old(p.events))
    ensures (turn, Reader(p.events, key[..], intr')) == KeyTurn(Reader(old(p.events), old(key[..]), intr), subscribe)
  {
    var result;
    result, intr' := p.ReadAll(key, MAX_STRING_SIZE, intr);
    if result == -1 {
      if intr' {
        return Lost, false;
      }
    } else if result == 0 {
      return Lost, intr';
    }
    turn := Serve([Request(subscribe, CStr(key[..]))]);
  }

  /** The reading loop of client_thread, on any stream. The key buffer and intr are those of the
      thread, as the client before has left them. */
  method ServeRequests(p: Pipe, key: array<char>, intr: bool)
    returns (requests: seq<Request>, byClient: bool, intr': bool)
    requires NonEmpty(p.events) && key.Length == MAX_STRING_SIZE + 1
    modifies p, key
    ensures NonEmpty(p.events)
    ensures (requests, (byClient, Reader(p.events, key[..], intr'))) ==
            Served(Reader(old(p.events), old(key[..]), intr))
  {
    intr' := intr;
    requests := [];
    ghost var all := Served(Reader(p.events, key[..], intr));
    BehindNothing(all);
    while true
      invariant NonEmpty(p.events) && all == Behind(requests, Served(Reader(p.events, key[..], intr')))
      decreases Left(p.events)
    {
      var turn;
      turn, intr' := ServeOne(p, key, intr');
      if !turn.Serve? {
        assert requests + [] == requests;
        return requests, turn.ByClient?, intr';
      }
      BehindBoth(requests, turn.requests, Served(Reader(p.events, key[..], intr')));
      requests := requests + turn.requests;
    }
  }

  // ---- What is served, against the stream ----

  /** An error strikes within a key, and the turn serves a mixed one. */
  ghost predicate Garbled(r: Reader) {
    && !r.intr && Transferred(r.events, 1, true).0 == 1 && Taken(r.events, 1, true) in {"3", "4"}
    && var (_, signal, rest) := Transferred(r.events, 1, true);
       var (code, signal', _) := Transferred(rest, MAX_STRING_SIZE, true);
       !signal && code == -1 && !signal'
  }

  /** No turn on a stream is garbled. */
  ghost predicate NeverGarbled(r: Reader)
    decreases Left(r.events)
  {
    var (turn, next) := OneTurn(r);
    !Garbled(r) && (turn.Serve? && Left(next.events) < Left(r.events) ==> NeverGarbled(next))
  }

  ghost predicate Ready(r: Reader) {
    NonEmpty(r.events) && |r.key| == MAX_STRING_SIZE + 1 && r.key[MAX_STRING_SIZE] == NUL
  }

  /** How a turn relates the stream before it to the stream after it. */
  ghost predicate TurnDecodes(before: string, turn: Turn, after: string) {
    match turn
    case Serve(requests) => Decode(before) == Behind(requests, Decode(after))
    case ByClient => Decode(before) == ([], (true, after))
    case Lost => Decode(before) == ([], (false, after))
  }

  lemma KeyDecodes(s: string, key: string, after: string)
    requires |key| == MAX_STRING_SIZE + 1 && key[MAX_STRING_SIZE] == NUL
    requires s != "" && (s[0] == '3' || s[0] == '4') && s[1..] == key[..MAX_STRING_SIZE] + after
    ensures Decode(s) == Behind([Request(s[0] == '3', CStr(key))], Decode(after))
  {
    assert s[1..MAX_STRING_SIZE + 1] == key[..MAX_STRING_SIZE];
    assert s[MAX_STRING_SIZE + 1..] == s[1..][MAX_STRING_SIZE..] == after;
    var k := CStr(key[..MAX_STRING_SIZE]);
    CStrUnique(key, k);
  }

  lemma KeyTurnDecodes(r: Reader, subscribe: bool, s: string)
    requires Ready(r) && s != "" && s[0] == (if subscribe then '3' else '4') && s[1..] == Content(r.events)
    ensures var (turn, next) := KeyTurn(r, subscribe);
            && Ready(next) && Left(next.events) <= Left(r.events)
            && (turn.Serve? && Transferred(r.events, MAX_STRING_SIZE, true).0 == 1 ==>
                  TurnDecodes(s, turn, Content(next.events)))
            && (Quiet(r.events) && !r.intr ==>
                  Quiet(next.events) && !next.intr && TurnDecodes(s, turn, Content(next.events)))
  {
    TransferTakes(r.events, MAX_STRING_SIZE, true);
    TransferShrinks(r.events, MAX_STRING_SIZE, true);
    TransferSucceeds(r.events, MAX_STRING_SIZE, true);
    var (code, _, rest) := Transferred(r.events, MAX_STRING_SIZE, true);
    var data := Taken(r.events, MAX_STRING_SIZE, true);
    var key := Overwritten(r.key, data);
    assert key[MAX_STRING_SIZE] == NUL;
    if code == 1 {
      assert key[..MAX_STRING_SIZE] == data;
      KeyDecodes(s, key, Content(rest));
    }
    if Quiet(r.events) {
      TransferKeeps(r.events, MAX_STRING_SIZE, true);
    }
  }

  lemma NothingServed(s: string)
    requires s == "" || (s[0] != '2' && s[0] != '3' && s[0] != '4')
    ensures TurnDecodes(s, if s == "" then Lost else Serve([]), if s == "" then "" else s[1..])
  {
    if s != "" {
      BehindNothing(Decode(s[1..]));
    }
  }

  /** The turn behind an operation code. */
  lemma OpDecodes(r: Reader, op: char, s: string)
    requires Ready(r) && s != "" && s[0] == op && s[1..] == Content(r.events)
    ensures var (turn, next) := AfterOp(r, [op]);
            && Ready(next) && Left(next.events) <= Left(r.events)
            && (turn.Serve? && ((op == '3' || op == '4') ==> Transferred(r.events, MAX_STRING_SIZE, true).0 == 1) ==>
                  TurnDecodes(s, turn, Content(next.events)))
            && (Quiet(r.events) && !r.intr ==>
                  Quiet(next.events) && !next.intr && TurnDecodes(s, turn, Content(next.events)))
  {
    if op == '3' || op == '4' {
      KeyTurnDecodes(r, op == '3', s);
    } else if op != '2' {
      NothingServed(s);
    }
  }

  lemma FirstByte(s: string, data: string, rest: string)
    requires |data| == 1 && s == data + rest
    ensures data == [s[0]] && s[1..] == rest
  {
  }

  /** What the operation code leaves of the stream. */
  lemma OpTaken(events: seq<Event>)
    requires NonEmpty(events)
    ensures var (code, signal, rest) := Transferred(events, 1, true);
            var s := Content(events);
            && NonEmpty(rest) && (code != 0 ==> Left(rest) < Left(events))
            && (code == 1 ==> s != "" && Taken(events, 1, true) == [s[0]] && s[1..] == Content(rest))
            && (code == -1 ==> Content(rest) == s)
            && (code == 0 ==> s == "" && rest == [])
  {
    TransferTakes(events, 1, true);
    TransferShrinks(events, 1, true);
    TransferSucceeds(events, 1, true);
    var (code, _, rest) := Transferred(events, 1, true);
    if code == 1 {
      FirstByte(Content(events), Taken(events, 1, true), Content(rest));
    } else if code == -1 {
      FailedOp(events);
    }
  }

  lemma QuietTransfer(events: seq<Event>, size: nat)
    requires NonEmpty(events) && Quiet(events)
    ensures var (code, signal, rest) := Transferred(events, size, true);
            Quiet(rest) && !signal && code != -1
  {
    TransferKeeps(events, size, true);
  }

  /** Nothing is lost when one byte cannot be read. */
  lemma FailedOp(events: seq<Event>)
    requires NonEmpty(events) && Transferred(events, 1, true).0 == -1
    ensures Content(Transferred(events, 1, true).2) == Content(events)
  {
    FailureTakesLess(events, 1, true);
    TransferTakes(events, 1, true);
    assert "" + Content(Transferred(events, 1, true).2) == Content(Transferred(events, 1, true).2);
  }

  /** A turn that serves, serves the next frame of the stream, unless it is garbled; on a quiet
      stream every turn does what the stream says. */
  lemma TurnIsFrame(r: Reader)
    requires Ready(r)
    ensures var (turn, next) := OneTurn(r);
            && Ready(next) && (turn.Serve? ==> Left(next.events) < Left(r.events))
            && (turn.Serve? && !Garbled(r) ==> TurnDecodes(Content(r.events), turn, Content(next.events)))
            && (Quiet(r.events) && !r.intr ==>
                  Quiet(next.events) && !next.intr && TurnDecodes(Content(r.events), turn, Content(next.events)))
  {
    OpTaken(r.events);
    if Quiet(r.events) {
      QuietTransfer(r.events, 1);
    }
    var (code, signal, rest) := Transferred(r.events, 1, true);
    var s := Content(r.events);
    if code == 1 {
      OpDecodes(Reader(rest, r.key, signal), s[0], s);
    } else if code == -1 {
      BehindNothing(Decode(s));
    }
  }

  /** A turn takes the next 41 bytes of the stream and serves the request in them. */
  ghost predicate WholeFrame(before: string, turn: Turn, after: string) {
    && |before| > MAX_STRING_SIZE && after == before[MAX_STRING_SIZE + 1..]
    && turn == Serve([Request(before[0] == '3', CStr(before[1..MAX_STRING_SIZE + 1]))])
  }

  lemma KeyTakesFrame(r: Reader, subscribe: bool, s: string)
    requires Ready(r) && s != "" && s[0] == (if subscribe then '3' else '4') && s[1..] == Content(r.events)
    ensures var (turn, next) := KeyTurn(r, subscribe);
            var whole := Transferred(r.events, MAX_STRING_SIZE, true).0 == 1;
            turn.Serve? ==>
              && (WholeFrame(s, turn, Content(next.events)) <==> whole)
              && (|s| == |Content(next.events)| + 1 + MAX_STRING_SIZE <==> whole)
  {
    TransferTakes(r.events, MAX_STRING_SIZE, true);
    FailureTakesLess(r.events, MAX_STRING_SIZE, true);
    var (code, _, rest) := Transferred(r.events, MAX_STRING_SIZE, true);
    var data := Taken(r.events, MAX_STRING_SIZE, true);
    if code == 1 {
      KeyOfFrame(s, data, Content(rest), r.key);
    }
  }

  lemma KeyOfFrame(s: string, data: string, after: string, was: string)
    requires |data| == MAX_STRING_SIZE && s != "" && s[1..] == data + after
    requires |was| == MAX_STRING_SIZE + 1 && was[MAX_STRING_SIZE] == NUL
    ensures |s| > MAX_STRING_SIZE && s[MAX_STRING_SIZE + 1..] == after
    ensures CStr(Overwritten(was, data)) == CStr(s[1..MAX_STRING_SIZE + 1])
  {
    assert s[1..MAX_STRING_SIZE + 1] == data && s[MAX_STRING_SIZE + 1..] == s[1..][MAX_STRING_SIZE..] == after;
    CStrUnique(Overwritten(was, data), CStr(data));
  }

  /** The exact condition: a turn that serves a request takes and serves one whole frame exactly when
      no error strikes within its key; it is enough to look at how many bytes it takes. */
  lemma TurnTakesFrame(r: Reader)
    requires Ready(r) && OneTurn(r).0.Serve? && OneTurn(r).0.requests != []
    ensures var (turn, next) := OneTurn(r);
            && (WholeFrame(Content(r.events), turn, Content(next.events)) <==> !Garbled(r))
            && (|Content(r.events)| == |Content(next.events)| + 1 + MAX_STRING_SIZE <==> !Garbled(r))
  {
    OpTaken(r.events);
    var (code, signal, rest) := Transferred(r.events, 1, true);
    var s := Content(r.events);
    KeyTakesFrame(Reader(rest, r.key, signal), s[0] == '3', s);
  }

  /** Every request that is served on a stream is a whole frame of it. */
  ghost predicate AllWhole(r: Reader)
    decreases Left(r.events)
  {
    var (turn, next) := OneTurn(r);
    turn.Serve? && Left(next.events) < Left(r.events) ==>
      && (turn.requests != [] ==> WholeFrame(Content(r.events), turn, Content(next.events)))
      && AllWhole(next)
  }

  /** Over a whole session: exactly when no turn is garbled. */
  lemma {:induction false} WholeExactly(r: Reader)
    requires Ready(r)
    ensures AllWhole(r) <==> NeverGarbled(r)
    decreases Left(r.events)
  {
    TurnIsFrame(r);
    var (turn, next) := OneTurn(r);
    GarbledServes(r);
    if turn.Serve? {
      WholeExactly(next);
      if turn.requests != [] {
        TurnTakesFrame(r);
      }
    }
  }

  lemma GarbledServes(r: Reader)
    ensures Garbled(r) ==> OneTurn(r).0.Serve? && OneTurn(r).0.requests != []
  {
  }

  /** Whatever signals and errors come: as long as no error strikes within a key, what is served is
      a first part of the requests in the stream. */
  lemma {:induction false} ServedIsPrefix(r: Reader)
    requires Ready(r) && NeverGarbled(r)
    ensures Served(r).0 <= Decode(Content(r.events)).0
    decreases Left(r.events)
  {
    TurnIsFrame(r);
    var (turn, next) := OneTurn(r);
    if turn.Serve? && Left(next.events) < Left(r.events) {
      ServedIsPrefix(next);
    }
  }

  /** Without signals and errors it is all of them, however the bytes arrive. */
  lemma {:induction false} QuietIsServed(r: Reader)
    requires Ready(r) && Quiet(r.events) && !r.intr
    ensures var (requests, (byClient, rest)) := Served(r);
            Decode(Content(r.events)) == (requests, (byClient, Content(rest.events))) && Ready(rest) && !rest.intr
    decreases Left(r.events)
  {
    TurnIsFrame(r);
    var (turn, next) := OneTurn(r);
    if turn.Serve? {
      QuietIsServed(next);
    }
  }

  /** Errors are needed for a garbled turn. */
  lemma {:induction false} ErrorFreeIsNeverGarbled(r: Reader)
    requires Failed !in r.events
    ensures NeverGarbled(r)
    decreases Left(r.events)
  {
    TransferKeeps(r.events, 1, true);
    var rest := Transferred(r.events, 1, true).2;
    TransferKeeps(rest, MAX_STRING_SIZE, true);
    var (turn, next) := OneTurn(r);
    if turn.Serve? && Left(next.events) < Left(r.events) {
      ErrorFreeIsNeverGarbled(next);
    }
  }

  lemma OneByteThenError(b: char, size: nat)
    requires size > 1
    ensures var events := [Chunk([b]), Failed];
            Transferred(events, size, true) == (-1, false, []) && Taken(events, size, true) == [b]
  {
    var events := [Chunk([b]), Failed];
    assert events[1..] == [Failed] && [Failed][1..] == [];
    assert Transferred([Failed], size - 1, false) == (-1, false, []);
    assert Taken([Failed], size - 1, false) == "";
  }

  /** A request for a key that breaks off behind "x" subscribes to "xb" when the key before was
      "ab". */
  lemma GarbledKey()
    ensures var r := Reader([Chunk("3"), Chunk("x"), Failed], "ab" + Zeros(MAX_STRING_SIZE - 1), false);
            Garbled(r) && OneTurn(r).0 == Serve([Request(true, "xb")])
  {
    var events, rest := [Chunk("3"), Chunk("x"), Failed], [Chunk("x"), Failed];
    assert events[1..] == rest;
    assert Transferred(events, 1, true) == Transferred(rest, 0, false) == (1, false, rest);
    assert Taken(events, 1, true) == "3" + Taken(rest, 0, false) == "3";
    OneByteThenError('x', MAX_STRING_SIZE);
    var key := Overwritten("ab" + Zeros(MAX_STRING_SIZE - 1), "x");
    assert key == "xb" + Zeros(MAX_STRING_SIZE - 1);
    CStrUnique(key, "xb");
  }

  /** What the server makes of a request: a key longer than 40 bytes is cut. */
  function Received(r: Request): Request {
    r.(key := Clip(r.key, MAX_STRING_SIZE))
  }

  function AllReceived(rs: seq<Request>): seq<Request> {
    if rs == [] then [] else [Received(rs[0])] + AllReceived(rs[1..])
  }

  ghost predicate CStringKeys(rs: seq<Request>) {
    rs != [] ==> IsCString(rs[0].key) && CStringKeys(rs[1..])
  }

  /** The key field of a request frame with more behind it. */
  lemma FrameParts(r: Request, more: string)
    requires IsCString(r.key)
    ensures var s := RequestFrame(r) + more;
            && |s| > MAX_STRING_SIZE && s[0] == (if r.subscribe then '3' else '4')
            && CStr(s[1..MAX_STRING_SIZE + 1]) == Clip(r.key, MAX_STRING_SIZE) && s[MAX_STRING_SIZE + 1..] == more
  {
    var s := RequestFrame(r) + more;
    assert s[1..MAX_STRING_SIZE + 1] == Strncpy(r.key, MAX_STRING_SIZE);
    CStrOfStrncpy(r.key, MAX_STRING_SIZE);
  }

  /** Any requests and a disconnect are read back as the same requests, with what follows left. */
  lemma {:induction false} RequestsRoundTrip(rs: seq<Request>, rest: string)
    requires CStringKeys(rs)
    ensures Decode(Frames(rs) + (DISCONNECT + rest)) == (AllReceived(rs), (true, rest))
  {
    var end := DISCONNECT + rest;
    if rs == [] {
      assert Frames(rs) + end == end;
      assert end[0] == '2' && end[1..] == rest;
    } else {
      RequestsRoundTrip(rs[1..], rest);
      Assoc(RequestFrame(rs[0]), Frames(rs[1..]), end);
      FrameParts(rs[0], Frames(rs[1..]) + end);
    }
  }

  /** Bytes that are no operation code are passed over wherever one is due. */
  lemma {:induction false} JunkIsSkipped(junk: string, s: string)
    requires '2' !in junk && '3' !in junk && '4' !in junk
    ensures Decode(junk + s) == Decode(s)
  {
    if junk == "" {
      assert junk + s == s;
    } else {
      assert junk[0] in junk && (junk + s)[1..] == junk[1..] + s;
      JunkIsSkipped(junk[1..], s);
    }
  }

  /** Nothing is changed exactly when no key is longer than 40 bytes. */
  lemma {:induction false} RequestsUnchanged(rs: seq<Request>)
    ensures AllReceived(rs) == rs <==> forall r :: r in rs ==> |r.key| <= MAX_STRING_SIZE
  {
    if rs != [] {
      RequestsUnchanged(rs[1..]);
      assert rs == [rs[0]] + rs[1..];
      assert AllReceived(rs)[0] == Received(rs[0]) && AllReceived(rs)[1..] == AllReceived(rs[1..]);
    }
  }

  // ---- CONNECTING ----

  predicate IsSpace(c: char) {
    c == ' ' || '\t' <= c <= '\r'
  }

  /** A path without the whitespace at its end; its first character stays. */
  function Trimmed(s: string): (t: string)
    ensures t <= s
  {
    if |s| > 1 && IsSpace(s[|s| - 1]) then Trimmed(s[..|s| - 1]) else s
  }

  /** What trimming means: the shortest front, of one character at least, that has only
      whitespace behind it. */
  lemma {:induction false} TrimmedIs(s: string, t: string)
    requires t <= s
    ensures Trimmed(s) == t <==>
      && (forall i :: |t| <= i < |s| ==> IsSpace(s[i]))
      && (t == "" ==> s == "")
      && (|t| > 1 ==> !IsSpace(t[|t| - 1]))
    decreases |s|
  {
    if |s| > 1 && IsSpace(s[|s| - 1]) {
      var front := s[..|s| - 1];
      if |t| < |s| {
        assert t <= front;
        TrimmedIs(front, t);
      }
    }
  }

  /** trim_trailing_whitespace, in place. */
  method TrimTrailingWhitespace(str: array<char>)
    requires NUL in str[..]
    modifies str
    ensures CStr(str[..]) == Trimmed(CStr(old(str[..])))
  {
    ghost var s := CStr(str[..]);
    CStrShorter(str[..]);
    var end := |CStr(str[..])| - 1;
    assert s[..end + 1] == s;
    while end > 0 && IsSpace(str[end])
      invariant -1 <= end < |s| && (s != "" ==> end >= 0)
      invariant Trimmed(s[..end + 1]) == Trimmed(s)
    {
      assert s[..end + 1][..end] == s[..end];
      end := end - 1;
    }
    str[end + 1] := NUL;
    assert str[..end + 1] == s[..end + 1];
    assert forall c :: c in s[..end + 1] ==> c in s;
    CStrUnique(str[..], s[..end + 1]);
  }

  /** The client keeps 39 bytes of a path. */
  function Stored(path: string): string {
    Clip(path, MAX_PIPE_PATH_LENGTH - 1)
  }

  function PathField(path: string): (f: string)
    ensures |f| == MAX_PIPE_PATH_LENGTH
  {
    Strncpy(Stored(path), MAX_PIPE_PATH_LENGTH)
  }

  /** The 121 bytes of a connection. */
  function ConnectFrame(req: string, resp: string, notif: string): (f: string)
    ensures |f| == 1 + 3 * MAX_PIPE_PATH_LENGTH
  {
    "1" + PathField(req) + PathField(resp) + PathField(notif)
  }

  /** How kvs_connect keeps a path. */
  method StorePath(path: string) returns (stored: array<char>)
    requires IsCString(path)
    ensures fresh(stored) && CStr(stored[..]) == Stored(path)
  {
    stored := new char[MAX_PIPE_PATH_LENGTH];
    CopyField(stored, 0, path, MAX_PIPE_PATH_LENGTH - 1);
    stored[MAX_PIPE_PATH_LENGTH - 1] := NUL;
    assert stored[..MAX_PIPE_PATH_LENGTH - 1] == Strncpy(path, MAX_PIPE_PATH_LENGTH - 1);
    CStrUnique(stored[..], Stored(path));
  }

  /** A stored path put into the message of kvs_connect. */
  method AddPath(message: array<char>, off: nat, path: array<char>)
    requires message != path && off + MAX_PIPE_PATH_LENGTH <= message.Length
    modifies message
    ensures message[..off + MAX_PIPE_PATH_LENGTH] == old(message[..off]) + Strncpy(CStr(path[..]), MAX_PIPE_PATH_LENGTH)
  {
    ghost var before := message[..];
    CopyField(message, off, CStr(path[..]), MAX_PIPE_PATH_LENGTH);
    FieldAdded(before, message[..], off, Strncpy(CStr(path[..]), MAX_PIPE_PATH_LENGTH));
  }

  lemma FieldAdded(m: string, m': string, off: nat, f: string)
    requires off + |f| <= |m| && m' == m[..off] + f + m[off + |f|..]
    ensures m'[..off + |f|] == m[..off] + f
  {
  }

  /** The message of kvs_connect. */
  method SendConnect(sink: Sink, req: string, resp: string, notif: string) returns (code: int)
    requires IsCString(req) && IsCString(resp) && IsCString(notif)
    modifies sink
    ensures code == 1 ==> sink.written == old(sink.written) + ConnectFrame(req, resp, notif)
    ensures code != 1 ==> code == -1 && Broken in old(sink.rooms)
  {
    var reqPath := StorePath(req);
    var respPath := StorePath(resp);
    var notifPath := StorePath(notif);
    var message := new char[3 * MAX_PIPE_PATH_LENGTH + 2](_ => NUL);
    message[0] := '1';
    assert message[..1] == "1";
    AddPath(message, 1, reqPath);
    AddPath(message, 1 + MAX_PIPE_PATH_LENGTH, respPath);
    AddPath(message, 1 + 2 * MAX_PIPE_PATH_LENGTH, notifPath);
    code := sink.WriteAll(message[..3 * MAX_PIPE_PATH_LENGTH + 1]);
  }

  /** A path as handle_fifo takes it from a field of the frame. */
  method PathFrom(field: string) returns (path: string)
    requires |field| == MAX_PIPE_PATH_LENGTH
    ensures path == Trimmed(CStr(field[..MAX_PIPE_PATH_LENGTH - 1]))
  {
    var buffer := new char[MAX_PIPE_PATH_LENGTH + 1](_ => NUL);
    CopyField(buffer, 0, CStr(field), MAX_PIPE_PATH_LENGTH);
    buffer[MAX_PIPE_PATH_LENGTH - 1] := NUL;
    FieldText(field, buffer[..]);
    TrimTrailingWhitespace(buffer);
    path := CStr(buffer[..]);
  }

  lemma FieldText(field: string, buffer: string)
    requires |field| == MAX_PIPE_PATH_LENGTH && |buffer| == MAX_PIPE_PATH_LENGTH + 1
    requires forall i :: 0 <= i < MAX_PIPE_PATH_LENGTH - 1 ==>
               buffer[i] == Strncpy(CStr(field), MAX_PIPE_PATH_LENGTH)[i]
    requires buffer[MAX_PIPE_PATH_LENGTH - 1] == NUL
    ensures NUL in buffer && CStr(buffer) == CStr(field[..MAX_PIPE_PATH_LENGTH - 1])
  {
    var whole, t := CStr(field), CStr(field[..MAX_PIPE_PATH_LENGTH - 1]);
    CStrOfFront(field, MAX_PIPE_PATH_LENGTH - 1);
    assert t == Clip(whole, MAX_PIPE_PATH_LENGTH - 1);
    assert forall i :: 0 <= i < |t| ==> buffer[i] == t[i];
    CStrUnique(buffer, t);
  }

  lemma {:induction false} CStrOfFront(s: string, n: nat)
    requires n <= |s|
    ensures CStr(s[..n]) == Clip(CStr(s), n)
  {
    var t := Clip(CStr(s), n);
    assert forall c :: c in t ==> c in CStr(s);
    CStrUnique(s[..n], t);
  }

  datatype Connection = Paths(req: string, resp: string, notif: string) | NoConnection

  /** The paths in a frame. */
  function PathsIn(frame: string): Connection
    requires |frame| == 1 + 3 * MAX_PIPE_PATH_LENGTH
  {
    if frame[0] != '1' then NoConnection
    else
      Paths(FieldPath(frame, 1),
            FieldPath(frame, 1 + MAX_PIPE_PATH_LENGTH),
            FieldPath(frame, 1 + 2 * MAX_PIPE_PATH_LENGTH))
  }

  function FieldPath(frame: string, off: nat): string
    requires off + MAX_PIPE_PATH_LENGTH <= |frame|
  {
    Trimmed(CStr(frame[off..off + MAX_PIPE_PATH_LENGTH - 1]))
  }

  const CONNECT_SIZE: nat := 1 + 3 * MAX_PIPE_PATH_LENGTH

  /** Where the loop of handle_fifo stands: the stream, intr, and whether errno is EINTR. */
  datatype Listener = Listener(events: seq<Event>, intr: bool, eintr: bool)

  /** One turn of the loop. A whole frame is consumed, but dropped, when errno is EINTR behind it. */
  ghost function Connect(l: Listener): (Connection, Listener) {
    if l.intr then (NoConnection, l.(intr := false))
    else
      var (code, signal, rest) := Transferred(l.events, CONNECT_SIZE, true);
      var eintr := Errno(l.events, CONNECT_SIZE, l.eintr);
      var frame := Taken(l.events, CONNECT_SIZE, true);
      if code != 1 || |frame| != CONNECT_SIZE then (NoConnection, Listener(rest, false, eintr))
      else (if eintr then NoConnection else PathsIn(frame), Listener(rest, signal, eintr))
  }

  /** The part of handle_fifo that reads a connection. */
  method ReadConnect(p: Pipe, intr: bool) returns (c: Connection, intr': bool)
    requires NonEmpty(p.events)
    modifies p
    ensures NonEmpty(p.events) && (Left(p.events) < Left(old(p.events)) || p.events == [] || intr)
    ensures Left(p.events) <= Left(old(p.events)) && (intr ==> !intr')
    ensures (c, Listener(p.events, intr', p.eintr)) == Connect(Listener(old(p.events), intr, old(p.eintr)))
  {
    var buffer := new char[CONNECT_SIZE + 1](_ => NUL);
    var result;
    result, intr' := p.ReadAll(buffer, CONNECT_SIZE, intr);
    TransferSucceeds(old(p.events), CONNECT_SIZE, true);
    if result == -1 || result == 0 {
      return NoConnection, false;
    }
    TransferTakes(old(p.events), CONNECT_SIZE, true);
    Cancel(Taken(old(p.events), CONNECT_SIZE, true), buffer[..CONNECT_SIZE], Content(p.events));
    if p.eintr {
      return NoConnection, intr';
    }
    if buffer[0] != '1' {
      return NoConnection, intr';
    }
    c := TakePaths(buffer[..CONNECT_SIZE]);
  }

  /** All connections that are taken from a stream. */
  ghost function Connections(l: Listener): (seq<Connection>, Listener)
    decreases Left(l.events), l.intr
  {
    if l.events == [] then ([], l)
    else
      var (c, next) := Connect(l);
      if Left(next.events) < Left(l.events) || (next.events == l.events && l.intr && !next.intr)
      then Behind(if c.Paths? then [c] else [], Connections(next))
      else ([], next)
  }

  /** The loop of handle_fifo, as far as there is something to read. */
  method HandleFifo(p: Pipe, intr: bool) returns (connections: seq<Connection>, intr': bool)
    requires NonEmpty(p.events)
    modifies p
    ensures p.events == []
    ensures (connections, Listener(p.events, intr', p.eintr)) ==
            Connections(Listener(old(p.events), intr, old(p.eintr)))
  {
    intr' := intr;
    connections := [];
    ghost var all := Connections(Listener(p.events, intr, p.eintr));
    BehindNothing(all);
    while p.events != []
      invariant NonEmpty(p.events) && all == Behind(connections, Connections(Listener(p.events, intr', p.eintr)))
      decreases Left(p.events), intr'
    {
      LeftOfSome(p.events);
      var c;
      c, intr' := ReadConnect(p, intr');
      ghost var rest := Connections(Listener(p.events, intr', p.eintr));
      BehindBoth(connections, if c.Paths? then [c] else [], rest);
      connections := connections + if c.Paths? then [c] else [];
    }
    assert connections + [] == connections;
  }

  lemma LeftOfSome(events: seq<Event>)
    requires events != [] && NonEmpty(events)
    ensures Left(events) > 0
  {
    assert events[0] in events;
  }

  /** The connections in a text, frame by frame. */
  function FramesIn(s: string): seq<Connection> {
    if |s| < CONNECT_SIZE then []
    else
      var c := PathsIn(s[..CONNECT_SIZE]);
      (if c.Paths? then [c] else []) + FramesIn(s[CONNECT_SIZE..])
  }

  /** Where reads are restarted, no mark is left, and every whole frame that is read is taken. */
  lemma RestartedConnect(l: Listener)
    requires Interrupted !in l.events && !l.intr && !l.eintr
    ensures var (c, next) := Connect(l);
            && Interrupted !in next.events && !next.intr && !next.eintr
            && var frame := Taken(l.events, CONNECT_SIZE, true);
               if Transferred(l.events, CONNECT_SIZE, true).0 == 1
               then |frame| == CONNECT_SIZE && c == PathsIn(frame) else c.NoConnection?
  {
    Restarted(l.events, CONNECT_SIZE, true);
    TransferTakes(l.events, CONNECT_SIZE, true);
  }

  /** errno is never reset by a read that succeeds, so that after a signal, unless a read fails
      otherwise, nothing is taken any more. */
  lemma {:induction false} StaleTakesNothing(l: Listener)
    requires NonEmpty(l.events) && Failed !in l.events && l.eintr
    ensures Connections(l).0 == []
    decreases Left(l.events), l.intr
  {
    if l.events != [] {
      var (c, next) := Connect(l);
      if !l.intr {
        TransferShrinks(l.events, CONNECT_SIZE, true);
        TransferKeeps(l.events, CONNECT_SIZE, true);
        FailedBySignal(l.events, CONNECT_SIZE);
      }
      if Left(next.events) < Left(l.events) || (next.events == l.events && l.intr && !next.intr) {
        StaleTakesNothing(next);
      }
    }
  }

  /** Without errors a transfer fails by a signal before its first byte only. */
  lemma {:induction false} FailsAtFirst(events: seq<Event>, size: nat, first: bool)
    requires NonEmpty(events) && Failed !in events && Transferred(events, size, first).0 == -1
    ensures first && StartsWithSignal(events)
    decreases |events|
  {
    if size > 0 && events != [] {
      var e, rest := events[0], events[1..];
      if e.Chunk? && |e.data| <= size {
        assert e in events;
        FailsAtFirst(rest, size - |e.data|, false);
      } else if e.Interrupted? && !first {
        FailsAtFirst(rest, size, false);
      }
    }
  }

  lemma FailedBySignal(events: seq<Event>, size: nat)
    requires NonEmpty(events) && Failed !in events
    ensures Errno(events, size, true)
    ensures Errno(events, size, false) == Transferred(events, size, true).1
  {
    if Transferred(events, size, true).0 == -1 {
      FailsAtFirst(events, size, true);
    }
  }

  /** The exact outcome on a stream without errors: what is taken are the frames that end before the
      first signal, however the bytes arrive. */
  lemma {:induction false} ConnectionsExactly(l: Listener)
    requires NonEmpty(l.events) && Failed !in l.events && !l.intr && !l.eintr
    ensures Connections(l).0 == FramesIn(Content(BeforeSignal(l.events)))
    decreases Left(l.events)
  {
    if l.events != [] {
      var front := Content(BeforeSignal(l.events));
      var (c, next) := Connect(l);
      TransferShrinks(l.events, CONNECT_SIZE, true);
      TransferKeeps(l.events, CONNECT_SIZE, true);
      TransferTakes(l.events, CONNECT_SIZE, true);
      TransferSucceeds(l.events, CONNECT_SIZE, true);
      FailedBySignal(l.events, CONNECT_SIZE);
      SignalCuts(l.events, CONNECT_SIZE, true);
      LeftOfSome(l.events);
      if |front| >= CONNECT_SIZE {
        ConnectionsExactly(next);
        FrameAndMore(front, Taken(l.events, CONNECT_SIZE, true), Content(BeforeSignal(next.events)));
      } else if next.eintr {
        StaleTakesNothing(next);
      }
    }
  }

  lemma FrameAndMore(s: string, frame: string, more: string)
    requires s == frame + more && |frame| == CONNECT_SIZE
    ensures FramesIn(s) == (if PathsIn(frame).Paths? then [PathsIn(frame)] else []) + FramesIn(more)
  {
    assert s[..CONNECT_SIZE] == frame && s[CONNECT_SIZE..] == more;
  }

  /** So where reads are restarted, the connections taken are the frames of the stream in order. */
  lemma QuietConnections(l: Listener)
    requires NonEmpty(l.events) && Quiet(l.events) && !l.intr && !l.eintr
    ensures Connections(l).0 == FramesIn(Content(l.events))
  {
    ConnectionsExactly(l);
    NoSignalCutsNothing(l.events);
  }

  method TakePaths(frame: string) returns (c: Connection)
    requires |frame| == 1 + 3 * MAX_PIPE_PATH_LENGTH && frame[0] == '1'
    ensures c == PathsIn(frame)
  {
    var req := PathAt(frame, 1);
    var resp := PathAt(frame, 1 + MAX_PIPE_PATH_LENGTH);
    var notif := PathAt(frame, 1 + 2 * MAX_PIPE_PATH_LENGTH);
    c := Paths(req, resp, notif);
  }

  method PathAt(frame: string, off: nat) returns (path: string)
    requires off + MAX_PIPE_PATH_LENGTH <= |frame|
    ensures path == FieldPath(frame, off)
  {
    var field := frame[off..off + MAX_PIPE_PATH_LENGTH];
    path := PathFrom(field);
    assert field[..MAX_PIPE_PATH_LENGTH - 1] == frame[off..off + MAX_PIPE_PATH_LENGTH - 1];
  }

  lemma PathOfField(path: string)
    requires IsCString(path)
    ensures Trimmed(CStr(PathField(path)[..MAX_PIPE_PATH_LENGTH - 1])) == Trimmed(Stored(path))
  {
    var kept := Stored(path);
    assert IsCString(kept) by {
      assert forall c :: c in kept ==> c in path;
    }
    CStrOfStrncpy(kept, MAX_PIPE_PATH_LENGTH);
    CStrOfFront(PathField(path), MAX_PIPE_PATH_LENGTH - 1);
  }

  /** Where the three fields stand. */
  lemma FieldsAt(h: string, a: string, b: string, c: string)
    requires |h| == 1 && |a| == MAX_PIPE_PATH_LENGTH && |b| == MAX_PIPE_PATH_LENGTH && |c| == MAX_PIPE_PATH_LENGTH
    ensures var f := h + a + b + c;
            && f[0] == h[0]
            && f[1..MAX_PIPE_PATH_LENGTH] == a[..MAX_PIPE_PATH_LENGTH - 1]
            && f[1 + MAX_PIPE_PATH_LENGTH..2 * MAX_PIPE_PATH_LENGTH] == b[..MAX_PIPE_PATH_LENGTH - 1]
            && f[1 + 2 * MAX_PIPE_PATH_LENGTH..3 * MAX_PIPE_PATH_LENGTH] == c[..MAX_PIPE_PATH_LENGTH - 1]
  {
  }

  /** The paths of a connection frame are those of the client, cut to 39 bytes and trimmed. */
  lemma ConnectRoundTrip(req: string, resp: string, notif: string)
    requires IsCString(req) && IsCString(resp) && IsCString(notif)
    ensures PathsIn(ConnectFrame(req, resp, notif)) ==
            Paths(Trimmed(Stored(req)), Trimmed(Stored(resp)), Trimmed(Stored(notif)))
  {
    FieldsAt("1", PathField(req), PathField(resp), PathField(notif));
    PathOfField(req);
    PathOfField(resp);
    PathOfField(notif);
  }

  /** A path arrives unchanged exactly when it has at most 39 bytes and no whitespace at its end,
      unless that is all of it. */
  lemma PathSurvives(path: string)
    ensures Trimmed(Stored(path)) == path <==>
            |path| <= 39 && (|path| > 1 ==> !IsSpace(path[|path| - 1]))
  {
    if |path| <= 39 {
      TrimmedIs(path, path);
    }
  }

  // ---- Notifications ----

  const NOTIFICATION_SIZE: nat := 300

  function EventFrames(es: seq<Formatting.Event>): string {
    if es == [] then "" else Formatting.EventFrame(es[0]) + EventFrames(es[1..])
  }

  function EventTexts(es: seq<Formatting.Event>): seq<string> {
    if es == [] then [] else [Formatting.EventText(es[0])] + EventTexts(es[1..])
  }

  ghost predicate AllOk(es: seq<Formatting.Event>) {
    es != [] ==> Formatting.EventOk(es[0]) && AllOk(es[1..])
  }

  /** What print_notification shows for a buffer. */
  function Shown(buffer: string): string {
    var t := Formatting.TrimSpaces(CStr(buffer));
    if t == "" then seq(|buffer|, _ => ' ') else t
  }

  /** What a client shows for a stream of notifications; a part of a frame is not shown. */
  function ShownAll(s: string): seq<string> {
    if |s| < NOTIFICATION_SIZE then []
    else [Shown(s[..NOTIFICATION_SIZE] + [NUL])] + ShownAll(s[NOTIFICATION_SIZE..])
  }

  /** What a client shows for any stream, and whether it goes on for ever with the last text. A
      read that fails is passed over: the buffer is shown with the bytes read so far at its front.
      A signal is never forgotten, so that no read comes after it. */
  ghost function ShownFrom(events: seq<Event>, buffer: string): (seq<string>, bool)
    decreases Left(events)
  {
    var (code, signal, rest) := Transferred(events, NOTIFICATION_SIZE, true);
    var buffer' := Overwritten(buffer, Taken(events, NOTIFICATION_SIZE, true));
    if code == 0 || Left(rest) >= Left(events) then ([], false)
    else if signal then ([Shown(buffer')], true)
    else Behind([Shown(buffer')], ShownFrom(rest, buffer'))
  }

  /** The loop of kvs_notifications, of a client that does not disconnect, up to the point where
      it shows the same text for ever. */
  method ShowNotifications(p: Pipe) returns (shown: seq<string>, endless: bool)
    requires NonEmpty(p.events)
    modifies p
    ensures (shown, endless) == ShownFrom(old(p.events), Zeros(NOTIFICATION_SIZE + 1))
  {
    var buffer := new char[NOTIFICATION_SIZE + 1](_ => NUL);
    shown := [];
    assert buffer[..] == Zeros(NOTIFICATION_SIZE + 1);
    ghost var all := ShownFrom(p.events, buffer[..]);
    BehindNothing(all);
    while true
      invariant NonEmpty(p.events) && all == Behind(shown, ShownFrom(p.events, buffer[..]))
      decreases Left(p.events)
    {
      ghost var before, was := p.events, buffer[..];
      var result, intr := p.ReadAll(buffer, NOTIFICATION_SIZE, false);
      if result == 0 {
        assert shown + [] == shown;
        return shown, false;
      }
      var text := Formatting.PrintNotification(buffer[..]);
      if intr {
        return shown + [text], true;
      }
      BehindBoth(shown, [text], ShownFrom(p.events, buffer[..]));
      shown := shown + [text];
    }
  }

  /** On a quiet stream it is the frames in order, however the bytes arrive. */
  lemma {:induction false} QuietIsShown(events: seq<Event>, buffer: string)
    requires NonEmpty(events) && Quiet(events) && |buffer| == NOTIFICATION_SIZE + 1 && buffer[NOTIFICATION_SIZE] == NUL
    ensures ShownFrom(events, buffer) == (ShownAll(Content(events)), false)
    decreases Left(events)
  {
    TransferTakes(events, NOTIFICATION_SIZE, true);
    TransferShrinks(events, NOTIFICATION_SIZE, true);
    TransferKeeps(events, NOTIFICATION_SIZE, true);
    TransferSucceeds(events, NOTIFICATION_SIZE, true);
    var (code, _, rest) := Transferred(events, NOTIFICATION_SIZE, true);
    if code == 1 {
      var buffer' := Overwritten(buffer, Taken(events, NOTIFICATION_SIZE, true));
      assert buffer'[..NOTIFICATION_SIZE] == Taken(events, NOTIFICATION_SIZE, true);
      OneShown(Content(events), buffer', Content(rest));
      QuietIsShown(rest, buffer');
    }
  }

  /** Where reads are restarted, the loop ends with its stream. */
  lemma {:induction false} RestartedEnds(events: seq<Event>, buffer: string)
    requires NonEmpty(events) && Interrupted !in events
    ensures !ShownFrom(events, buffer).1
    decreases Left(events)
  {
    TransferShrinks(events, NOTIFICATION_SIZE, true);
    Restarted(events, NOTIFICATION_SIZE, true);
    var (code, _, rest) := Transferred(events, NOTIFICATION_SIZE, true);
    if code != 0 {
      RestartedEnds(rest, Overwritten(buffer, Taken(events, NOTIFICATION_SIZE, true)));
    }
  }

  /** With so many bytes before the first signal, and so many in all, the signal comes between two
      frames or within a frame that is completed. */
  ghost predicate MarkStays(front: nat, all: nat) {
    if front >= NOTIFICATION_SIZE
    then all >= NOTIFICATION_SIZE && MarkStays(front - NOTIFICATION_SIZE, all - NOTIFICATION_SIZE)
    else front == 0 || all >= NOTIFICATION_SIZE
  }

  /** One transfer on a stream without errors, in numbers of bytes before the first signal and in
      all. */
  lemma Counted(events: seq<Event>)
    requires NonEmpty(events) && Failed !in events
    ensures var (code, signal, rest) := Transferred(events, NOTIFICATION_SIZE, true);
            var front, all := |Content(BeforeSignal(events))|, |Content(events)|;
            && NonEmpty(rest) && Failed !in rest && (code != 0 ==> Left(rest) < Left(events))
            && (code == 1 && !signal ==>
                  && (Interrupted in events <==> Interrupted in rest)
                  && front == NOTIFICATION_SIZE + |Content(BeforeSignal(rest))|
                  && all == NOTIFICATION_SIZE + |Content(rest)|)
            && (code == 1 && signal ==> Interrupted in events && front < NOTIFICATION_SIZE <= all)
            && (code == -1 ==> signal && Interrupted in events && front == 0)
            && (code == 0 ==> all < NOTIFICATION_SIZE && front < NOTIFICATION_SIZE)
            && (code == 0 && Interrupted in events ==> front > 0)
  {
    TransferShrinks(events, NOTIFICATION_SIZE, true);
    TransferKeeps(events, NOTIFICATION_SIZE, true);
    TransferTakes(events, NOTIFICATION_SIZE, true);
    TransferSucceeds(events, NOTIFICATION_SIZE, true);
    SignalCuts(events, NOTIFICATION_SIZE, true);
    var (code, _, _) := Transferred(events, NOTIFICATION_SIZE, true);
    if code == -1 {
      FailsAtFirst(events, NOTIFICATION_SIZE, true);
    } else if code == 0 && events != [] {
      FirstChunkCounts(events);
    }
  }

  /** When the loop would go on for ever: on a stream without errors, exactly when a signal comes
      between two frames or within a frame that is completed. */
  lemma {:induction false} EndlessExactly(events: seq<Event>, buffer: string)
    requires NonEmpty(events) && Failed !in events
    ensures ShownFrom(events, buffer).1 <==>
            Interrupted in events && MarkStays(|Content(BeforeSignal(events))|, |Content(events)|)
    decreases Left(events)
  {
    Counted(events);
    var (code, signal, rest) := Transferred(events, NOTIFICATION_SIZE, true);
    if code == 1 && !signal {
      EndlessExactly(rest, Overwritten(buffer, Taken(events, NOTIFICATION_SIZE, true)));
    }
  }

  lemma FirstChunkCounts(events: seq<Event>)
    requires events != [] && events[0].Chunk? && NonEmpty(events)
    ensures |Content(BeforeSignal(events))| > 0
  {
    assert events[0] in events;
    FrontOf(events);
  }

  lemma OneShown(s: string, buffer: string, after: string)
    requires |buffer| == NOTIFICATION_SIZE + 1 && buffer[NOTIFICATION_SIZE] == NUL
    requires s == buffer[..NOTIFICATION_SIZE] + after
    ensures ShownAll(s) == [Shown(buffer)] + ShownAll(after)
  {
    assert s[..NOTIFICATION_SIZE] == buffer[..NOTIFICATION_SIZE] && s[NOTIFICATION_SIZE..] == after;
    assert buffer == buffer[..NOTIFICATION_SIZE] + [NUL];
  }

  /** The client shows the text of every event sent, in order and unchanged. */
  lemma {:induction false} NotificationsRoundTrip(es: seq<Formatting.Event>)
    requires AllOk(es)
    ensures ShownAll(EventFrames(es)) == EventTexts(es)
  {
    if es != [] {
      var frame, more := Formatting.EventFrame(es[0]), EventFrames(es[1..]);
      NotificationsRoundTrip(es[1..]);
      Formatting.EventTextSurvives(es[0]);
      assert Formatting.EventText(es[0])[0] == '(';
      OneShown(frame + more, frame + [NUL], more);
    }
  }
}

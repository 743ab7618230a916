/** The list of subscribed keys of a session (src/server/coperations.c and the num_keys updates
    in src/server/client.c). The scan looks at all ten slots, and removal does not clear the
    slot it frees, so a stale copy can match later. */
module KeyList {
  import opened Constants

  /** A key as a session sends it: at most 40 bytes, so that a slot of 41 holds it. */
  type Key = k: string | |k| <= MAX_STRING_SIZE witness ""

  /** The slots and num_keys. num can drop below zero; see DoubleUnsubscribe. */
  datatype KeyList = KeyList(slots: seq<Key>, num: int) {
    ghost predicate InRange() {
      |slots| == MAX_NUMBER_SUB && 0 <= num <= MAX_NUMBER_SUB
    }

    /** The subscribed keys are the first num slots. */
    ghost function Live(): seq<Key>
      requires InRange()
    {
      slots[..num]
    }

    ghost predicate Ok() {
      && InRange()
      && (forall i, j :: 0 <= i < j < num ==> slots[i] != slots[j])
      && (forall i :: 0 <= i < num ==> slots[i] != "")
    }

    /** The key is not subscribed, yet a slot beyond num_keys still holds it. The empty key is
        stale as soon as a slot is free. */
    ghost predicate Stale(key: Key)
      requires InRange()
    {
      key !in slots[..num] && key in slots[num..]
    }
  }

  const NO_KEYS := KeyList(["", "", "", "", "", "", "", "", "", ""], 0)

  /** Lists as a session slot holds them: ten slots, and num_keys never above ten. */
  type SlotKeys = l: KeyList | |l.slots| == MAX_NUMBER_SUB && l.num <= MAX_NUMBER_SUB
    witness KeyList(["", "", "", "", "", "", "", "", "", ""], 0)

  /** strcmp over all ten slots. */
  function IndexIn(slots: seq<Key>, key: Key): (i: int)
    ensures -1 <= i < |slots|
    ensures i >= 0 ==> slots[i] == key
    ensures forall j :: 0 <= j < (if i < 0 then |slots| else i) ==> slots[j] != key
  {
    if slots == [] then -1
    else if slots[0] == key then 0
    else
      var i := IndexIn(slots[1..], key);
      if i < 0 then -1 else i + 1
  }

  /** The shift to the left: slot num - 1 keeps its old key. */
  function Shift(slots: seq<Key>, index: nat, num: int): (r: seq<Key>)
    requires index < |slots| && num <= |slots|
    ensures |r| == |slots|
    ensures forall j {:trigger r[j]} :: 0 <= j < |slots| ==>
              r[j] == if index <= j < num - 1 then slots[j + 1] else slots[j]
  {
    seq(|slots|, j requires 0 <= j < |slots| => if index <= j < num - 1 then slots[j + 1] else slots[j])
  }

  datatype Reply = Done | Refused

  /** The list part of client_subscribe_key, given whether the store has the key. */
  function Subscribe(l: SlotKeys, key: Key, exists_: bool): (SlotKeys, Reply)
    requires l.num >= 0
  {
    if !exists_ || l.num >= MAX_NUMBER_SUB || IndexIn(l.slots, key) != -1 then (l, Refused)
    else (KeyList(l.slots[l.num := key], l.num + 1), Done)
  }

  /** The list part of client_unsubscribe_key. */
  function Unsubscribe(l: SlotKeys, key: Key): (SlotKeys, Reply)
  {
    var i := IndexIn(l.slots, key);
    if i == -1 then (l, Refused) else (KeyList(Shift(l.slots, i, l.num), l.num - 1), Done)
  }

  ghost function KeySet(l: KeyList): set<Key>
    requires l.InRange()
  {
    set i | 0 <= i < l.num :: l.slots[i]
  }

  /** Lookup returns the live index, or -1 for a key that is not subscribed, exactly when the
      key is not stale. */
  lemma LookupExact(l: KeyList, key: Key)
    requires l.InRange()
    ensures (var i := IndexIn(l.slots, key);
             (key in l.Live() ==> 0 <= i < l.num) && (key !in l.Live() ==> i == -1)) <==> !l.Stale(key)
  {
    var i := IndexIn(l.slots, key);
    if i >= l.num {
      assert l.slots[l.num..][i - l.num] == key;
    } else if i >= 0 {
      assert l.slots[..l.num][i] == key;
    }
    if key in l.Live() {
      var j :| 0 <= j < l.num && l.slots[j] == key;
      assert i <= j;
    } else if key in l.slots[l.num..] {
      var j :| 0 <= j < |l.slots[l.num..]| && l.slots[l.num..][j] == key;
      assert l.slots[l.num + j] == key;
    }
  }

  /** Subscribing inserts into the set of subscribed keys: the specification. */
  ghost predicate InsertsKey(l: KeyList, key: Key, exists_: bool)
    requires l.InRange()
  {
    var (l', r) := Subscribe(l, key, exists_);
    && l'.Ok()
    && (r == Done <==> exists_ && l.num < MAX_NUMBER_SUB && key !in KeySet(l))
    && KeySet(l') == if r == Done then KeySet(l) + {key} else KeySet(l)
  }

  /** Unsubscribing deletes from the set of subscribed keys: the specification. */
  ghost predicate DeletesKey(l: KeyList, key: Key)
    requires l.InRange()
  {
    var (l', r) := Unsubscribe(l, key);
    && l'.Ok()
    && (r == Done <==> key in KeySet(l))
    && KeySet(l') == KeySet(l) - {key}
  }

  lemma LiveIsKeySet(l: KeyList, key: Key)
    requires l.InRange()
    ensures key in l.Live() <==> key in KeySet(l)
  {
  }

  lemma SubscribeDone(l: KeyList, key: Key)
    requires l.Ok() && l.num < MAX_NUMBER_SUB && key != "" && key !in KeySet(l)
    ensures var l' := KeyList(l.slots[l.num := key], l.num + 1);
            l'.Ok() && KeySet(l') == KeySet(l) + {key}
  {
    var l' := KeyList(l.slots[l.num := key], l.num + 1);
    assert forall i :: 0 <= i < l.num ==> l'.slots[i] == l.slots[i] && l.slots[i] in KeySet(l);
    forall k ensures k in KeySet(l') <==> k in KeySet(l) + {key} {
      if k in KeySet(l) {
        var i :| 0 <= i < l.num && l.slots[i] == k;
        assert l'.slots[i] == k;
      } else if k == key {
        assert l'.slots[l.num] == k;
      }
    }
  }

  /** Subscribe behaves as set insertion exactly for the keys that are not stale. */
  lemma SubscribeExact(l: KeyList, key: Key)
    requires l.Ok() && key != ""
    ensures InsertsKey(l, key, true) <==> !(l.num < MAX_NUMBER_SUB && l.Stale(key))
    ensures InsertsKey(l, key, false)
  {
    LookupExact(l, key);
    LiveIsKeySet(l, key);
    if l.num < MAX_NUMBER_SUB && key !in KeySet(l) {
      SubscribeDone(l, key);
    }
  }

  lemma UnsubscribeDone(l: KeyList, i: nat)
    requires l.Ok() && i < l.num
    ensures var l' := KeyList(Shift(l.slots, i, l.num), l.num - 1);
            l'.Ok() && KeySet(l') == KeySet(l) - {l.slots[i]}
  {
    var l' := KeyList(Shift(l.slots, i, l.num), l.num - 1);
    forall k | k in KeySet(l') ensures k in KeySet(l) - {l.slots[i]} {
      var j :| 0 <= j < l'.num && l'.slots[j] == k;
      assert l.slots[if j < i then j else j + 1] == k;
    }
    forall k | k in KeySet(l) - {l.slots[i]} ensures k in KeySet(l') {
      var j :| 0 <= j < l.num && l.slots[j] == k;
      assert l'.slots[if j < i then j else j - 1] == k;
    }
  }

  /** Unsubscribe behaves as set deletion exactly for the keys that are not stale. */
  lemma UnsubscribeExact(l: KeyList, key: Key)
    requires l.Ok()
    ensures DeletesKey(l, key) <==> !l.Stale(key)
  {
    LookupExact(l, key);
    LiveIsKeySet(l, key);
    var i := IndexIn(l.slots, key);
    if 0 <= i < l.num {
      assert key in KeySet(l);
      UnsubscribeDone(l, i);
    }
  }

  /** Unsubscribing the same key twice takes num_keys below zero. */
  lemma DoubleUnsubscribe()
    ensures var once := Unsubscribe(Subscribe(NO_KEYS, "a", true).0, "a").0;
            once.Ok() && once.Stale("a") && Unsubscribe(once, "a").0.num == -1
  {
    var one := Subscribe(NO_KEYS, "a", true).0;
    assert one.slots[0] == "a" && IndexIn(one.slots, "a") == 0;
    var once := Unsubscribe(one, "a").0;
    assert once.slots[0] == "a" && IndexIn(once.slots, "a") == 0;
    assert once.slots[once.num..][0] == "a";
  }

  // ---- Whole sessions ----

  datatype Request = Sub(key: Key, exists_: bool) | Unsub(key: Key)

  ghost function Serve(l: KeyList, r: Request): (KeyList, Reply)
    requires l.InRange()
  {
    match r
    case Sub(key, e) => Subscribe(l, key, e)
    case Unsub(key) => Unsubscribe(l, key)
  }

  /** A session names fresh keys: never the empty one and never a stale one. */
  ghost predicate FreshName(l: KeyList, key: Key)
    requires l.InRange()
  {
    key != "" && !l.Stale(key)
  }

  /** The set of subscribed keys as a client thinks of it. */
  ghost function SetServe(s: set<Key>, r: Request): (set<Key>, Reply) {
    match r
    case Sub(key, e) =>
      if e && |s| < MAX_NUMBER_SUB && key !in s then (s + {key}, Done) else (s, Refused)
    case Unsub(key) => (s - {key}, if key in s then Done else Refused)
  }

  lemma {:induction false} LiveCount(l: KeyList)
    requires l.Ok()
    ensures |KeySet(l)| == l.num
    decreases l.num
  {
    if l.num == 0 {
      assert KeySet(l) == {};
    } else {
      var shorter := l.(num := l.num - 1);
      LiveCount(shorter);
      assert KeySet(l) == KeySet(shorter) + {l.slots[l.num - 1]};
      assert l.slots[l.num - 1] !in KeySet(shorter);
    }
  }

  /** One request with fresh naming, against the set. */
  lemma ServeRefinesSet(l: KeyList, r: Request)
    requires l.Ok() && FreshName(l, r.key)
    ensures Serve(l, r).0.Ok() && (KeySet(Serve(l, r).0), Serve(l, r).1) == SetServe(KeySet(l), r)
  {
    LiveCount(l);
    match r
    case Sub(key, _) => SubscribeExact(l, key);
    case Unsub(key) => UnsubscribeExact(l, key);
  }

  /** The slots beyond num_keys hold nothing, a copy of a live key, or a retired key. */
  ghost predicate TailOk(l: KeyList, retired: set<Key>)
    requires l.InRange()
  {
    forall i :: l.num <= i < MAX_NUMBER_SUB ==> l.slots[i] == "" || l.slots[i] in KeySet(l) || l.slots[i] in retired
  }

  /** The keys a request takes out of the subscription set. */
  ghost function Retires(s: set<Key>, r: Request): set<Key> {
    if r.Unsub? && r.key in s then {r.key} else {}
  }

  lemma ServeKeepsTail(l: KeyList, retired: set<Key>, r: Request)
    requires l.Ok() && FreshName(l, r.key) && TailOk(l, retired)
    ensures Serve(l, r).0.Ok() && TailOk(Serve(l, r).0, retired + Retires(KeySet(l), r))
  {
    ServeRefinesSet(l, r);
    var l' := Serve(l, r).0;
    forall i | l'.num <= i < MAX_NUMBER_SUB
      ensures l'.slots[i] == "" || l'.slots[i] in KeySet(l') || l'.slots[i] in retired + Retires(KeySet(l), r)
    {
      if i < l.num {
        assert l'.slots[i] == l.slots[i] && l.slots[i] in KeySet(l);
      } else {
        assert l'.slots[i] == l.slots[i];
      }
    }
  }

  /** It is enough that a session never names a key it has unsubscribed. */
  lemma NotRetiredIsFresh(l: KeyList, retired: set<Key>, key: Key)
    requires l.InRange() && TailOk(l, retired) && key != "" && key !in retired
    ensures FreshName(l, key)
  {
    LiveIsKeySet(l, key);
    if key in l.slots[l.num..] {
      var j :| 0 <= j < |l.slots[l.num..]| && l.slots[l.num..][j] == key;
      assert l.slots[l.num + j] == key;
    }
  }

  /** The set, the retired keys and the replies after a sequence of requests. */
  ghost function SetSession(requests: seq<Request>): (set<Key>, set<Key>, seq<Reply>) {
    if requests == [] then ({}, {}, [])
    else
      var (s, retired, replies) := SetSession(requests[..|requests| - 1]);
      var r := requests[|requests| - 1];
      (SetServe(s, r).0, retired + Retires(s, r), replies + [SetServe(s, r).1])
  }

  /** No request names the empty key or a key unsubscribed before. */
  ghost predicate NeverRenames(requests: seq<Request>) {
    forall i :: 0 <= i < |requests| ==>
      requests[i].key != "" && requests[i].key !in SetSession(requests[..i]).1
  }

  /** The list after a sequence of requests, while num_keys stays in range. */
  ghost function ListSession(requests: seq<Request>): (KeyList, seq<Reply>) {
    if requests == [] then (NO_KEYS, [])
    else
      var (l, replies) := ListSession(requests[..|requests| - 1]);
      if l.InRange() then
        var (l', reply) := Serve(l, requests[|requests| - 1]);
        (l', replies + [reply])
      else (l, replies)
  }

  /** A whole session that never re-names an unsubscribed key: the list is the set at every
      point, with the same replies, and freed slots hold nothing but old copies. */
  lemma {:induction false} SessionRefinesSet(requests: seq<Request>)
    requires NeverRenames(requests)
    ensures var (l, replies) := ListSession(requests);
            var (s, retired, setReplies) := SetSession(requests);
            l.Ok() && KeySet(l) == s && TailOk(l, retired) && replies == setReplies
  {
    if requests == [] {
      assert KeySet(NO_KEYS) == {};
    } else {
      var before, r := requests[..|requests| - 1], requests[|requests| - 1];
      forall i | 0 <= i < |before| ensures before[i].key != "" && before[i].key !in SetSession(before[..i]).1 {
        assert before[..i] == requests[..i];
      }
      SessionRefinesSet(before);
      var (l, _) := ListSession(before);
      var (_, retired, _) := SetSession(before);
      assert requests[..|requests| - 1] == before;
      NotRetiredIsFresh(l, retired, r.key);
      ServeRefinesSet(l, r);
      ServeKeepsTail(l, retired, r);
    }
  }
}

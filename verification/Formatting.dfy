/** The bounded formatters: SHOW lines and backup lines (src/server/operations.c,
    src/server/io.c) and change notifications, from the server's frame to the text the client
    prints (src/server/client.c, src/client/api.c). */
module Formatting {
  import opened Constants
  import opened CStrings
  import opened KvsBuckets

  // ---- SHOW and BACKUP lines ----

  /** What snprintf(aux, 40, "(%s, %s)\n", key, value) leaves in aux. */
  function ShowLine(p: Pair): string {
    Clip("(" + p.key + ", " + p.value + ")\n", MAX_STRING_SIZE - 1)
  }

  function ShowText(l: seq<Pair>): string {
    if l == [] then "" else ShowText(l[..|l| - 1]) + ShowLine(l[|l| - 1])
  }

  lemma ShowTextLast(l: seq<Pair>, p: Pair)
    ensures ShowText(l + [p]) == ShowText(l) + ShowLine(p)
  {
    assert (l + [p])[..|l|] == l;
  }

  /** strn_memcpy: copies the text of src, at most n bytes of it, and no terminator. */
  method StrnMemcpy(dest: array<char>, off: nat, src: string, n: nat) returns (copied: nat)
    requires IsCString(src) && off + n <= dest.Length
    modifies dest
    ensures copied == |Clip(src, n)|
    ensures dest[..off + copied] == old(dest[..off]) + Clip(src, n)
  {
    copied := if |src| <= n then |src| else n;
    for i := 0 to copied
      invariant dest[..off + i] == old(dest[..off]) + src[..i]
    {
      dest[off + i] := src[i];
      assert dest[..off + i + 1] == dest[..off + i] + [src[i]];
      assert src[..i + 1] == src[..i] + [src[i]];
    }
    assert src[..copied] == Clip(src, n);
  }

  lemma ClipAppend(text: string, more: string, n: nat)
    ensures Clip(text, n) + Clip(more, n - |Clip(text, n)|) == Clip(text + more, n)
  {
  }

  /** One bounded copy: aux holds the clipped text so far, and then with src appended. The room
      left is a natural number, so the subtraction never underflows. */
  method AppendBounded(aux: array<char>, copied: nat, src: string, ghost text: string) returns (copied': nat)
    requires IsCString(src) && aux.Length == MAX_STRING_SIZE && copied < MAX_STRING_SIZE
    requires aux[..copied] == Clip(text, MAX_STRING_SIZE - 1)
    modifies aux
    ensures copied' < MAX_STRING_SIZE && aux[..copied'] == Clip(text + src, MAX_STRING_SIZE - 1)
  {
    ClipAppend(text, src, MAX_STRING_SIZE - 1);
    assert copied == |aux[..copied]|;
    var n := StrnMemcpy(aux, copied, src, MAX_STRING_SIZE - copied - 1);
    copied' := copied + n;
  }

  /** The chain of bounded copies in kvs_backup gives the snprintf line of kvs_show. */
  method BackupLine(p: Pair) returns (line: string)
    requires IsCString(p.key) && IsCString(p.value)
    ensures line == ShowLine(p)
  {
    var aux := new char[MAX_STRING_SIZE];
    aux[0] := '(';
    var copied := 1;
    var open, comma, close := "(", ", ", ")\n";
    assert aux[..copied] == open;
    copied := AppendBounded(aux, copied, p.key, open);
    copied := AppendBounded(aux, copied, comma, open + p.key);
    copied := AppendBounded(aux, copied, p.value, open + p.key + comma);
    copied := AppendBounded(aux, copied, close, open + p.key + comma + p.value);
    line := aux[..copied];
    aux[copied] := NUL;
  }

  // ---- Change notifications ----

  datatype Event = Written(key: string, value: string) | Deleted(key: string)

  /** The text that notify_clients formats for an event. */
  function EventText(e: Event): string {
    match e
    case Written(key, value) => "(" + Clip(key, MAX_STRING_SIZE) + "," + Clip(value, MAX_WRITE_SIZE) + ")"
    case Deleted(key) => "(" + Clip(key, MAX_STRING_SIZE) + ",DELETED" + ")"
  }

  /** The 300 bytes sent for an event: the text in a zeroed buffer. */
  function EventFrame(e: Event): (f: string)
    ensures |f| == MAX_WRITE_SIZE_RESPONSE - 1
  {
    Strncpy(EventText(e), MAX_WRITE_SIZE_RESPONSE - 1)
  }

  predicate EventOk(e: Event) {
    && IsCString(e.key) && |e.key| <= MAX_STRING_SIZE
    && (e.Written? ==> IsCString(e.value) && |e.value| <= MAX_WRITE_SIZE)
  }

  /** No notification is truncated: the text is at most 299 bytes of a 300-byte frame. */
  lemma EventTextFits(e: Event)
    ensures |EventText(e)| <= 299
    ensures EventFrame(e) == EventText(e) + Zeros(300 - |EventText(e)|)
  {
  }

  /** Text without its trailing spaces. */
  function TrimSpaces(s: string): (t: string)
    ensures t <= s && (t != "" ==> t[|t| - 1] != ' ')
    ensures forall i :: |t| <= i < |s| ==> s[i] == ' '
  {
    if s == "" || s[|s| - 1] != ' ' then s else TrimSpaces(s[..|s| - 1])
  }

  lemma {:induction false} TrimUnique(s: string, t: string)
    requires t <= s && (t != "" ==> t[|t| - 1] != ' ')
    requires forall i :: |t| <= i < |s| ==> s[i] == ' '
    ensures TrimSpaces(s) == t
  {
    if |t| < |s| {
      TrimUnique(s[..|s| - 1], t);
    }
  }

  /** The copy that print_notification works on. */
  method LoadText(text: string, length: nat) returns (printable: array<char>)
    requires |text| <= length
    ensures fresh(printable) && printable.Length == length + 1 && printable[length] == NUL
    ensures forall j :: 0 <= j < length ==> printable[j] == if j < |text| then text[j] else NUL
  {
    printable := new char[length + 1];
    CopyField(printable, 0, text, length);
    assert printable[..length] == Strncpy(text, length);
    assert forall j :: 0 <= j < length ==> printable[j] == printable[..length][j];
    printable[length] := NUL;
  }

  /** The first loop of print_notification: zero bytes become spaces. */
  method FillWithSpaces(printable: array<char>, length: nat, ghost text: string)
    requires printable.Length == length + 1 && IsCString(text) && |text| <= length
    requires forall j :: 0 <= j < length ==> printable[j] == if j < |text| then text[j] else NUL
    modifies printable
    ensures printable[length] == old(printable[length])
    ensures forall j :: 0 <= j < length ==> printable[j] == if j < |text| then text[j] else ' '
  {
    assert forall j :: 0 <= j < |text| ==> text[j] in text;
    for i := 0 to length
      invariant printable[length] == old(printable[length])
      invariant forall j :: 0 <= j < length ==>
        printable[j] == if j < |text| then text[j] else if j < i then ' ' else NUL
    {
      if printable[i] == NUL {
        printable[i] := ' ';
      }
    }
  }

  /** The second loop: the text ends after the last character that is no space. */
  method CutSpaces(printable: array<char>, length: nat) returns (i: nat)
    requires printable.Length == length + 1
    modifies printable
    ensures i <= length && printable[..i] == old(printable[..i])
    ensures i > 0 ==> printable[i - 1] != ' ' && printable[i] == NUL
    ensures i == 0 ==> printable[..] == old(printable[..])
    ensures forall j :: i <= j < length ==> old(printable[j]) == ' '
  {
    i := length;
    while i > 0
      invariant 0 <= i <= length && printable[..] == old(printable[..])
      invariant forall j :: i <= j < length ==> printable[j] == ' '
    {
      if printable[i - 1] != ' ' {
        printable[i] := NUL;
        return;
      }
      i := i - 1;
    }
  }

  /** The text followed by spaces, cut behind its last character that is no space. */
  lemma CutText(text: string, length: nat, i: nat, buf: string)
    requires IsCString(text) && |text| <= length && i <= length == |buf| - 1
    requires forall j :: 0 <= j < i ==> buf[j] == if j < |text| then text[j] else ' '
    requires forall j :: i <= j < |text| ==> text[j] == ' '
    requires i > 0 ==> buf[i - 1] != ' ' && buf[i] == NUL
    requires i == 0 ==> buf == seq(length, _ => ' ') + [NUL]
    ensures CStr(buf) == if TrimSpaces(text) == "" then seq(length, _ => ' ') else TrimSpaces(text)
  {
    if i > 0 {
      assert buf[..i] == text[..i];
      TrimUnique(text, text[..i]);
      assert forall c :: c in text[..i] ==> c in text;
      CStrUnique(buf, text[..i]);
    } else {
      TrimUnique(text, "");
      CStrUnique(buf, seq(length, _ => ' '));
    }
  }

  /** print_notification: what the client shows for a buffer, for any contents. A buffer with
      nothing but spaces before its first NUL is printed as spaces over its whole length. */
  method PrintNotification(notification: string) returns (printed: string)
    ensures printed == var t := TrimSpaces(CStr(notification));
                       if t == "" then seq(|notification|, _ => ' ') else t
  {
    var length := |notification|;
    var printable := LoadText(CStr(notification), length);
    ghost var text := CStr(notification);
    FillWithSpaces(printable, length, text);
    ghost var spaced := printable[..];
    assert forall j :: 0 <= j < length ==> spaced[j] == if j < |text| then text[j] else ' ';
    var i := CutSpaces(printable, length);
    assert forall j :: 0 <= j < i ==> printable[..i][j] == spaced[..i][j];
    if i == 0 {
      assert forall j :: 0 <= j < length ==> spaced[j] == ' ';
      assert printable[..] == seq(length, _ => ' ') + [NUL];
    }
    CutText(text, length, i, printable[..]);
    printed := CStr(printable[..]);
  }

  /** What PrintNotification shows for the frame of an event is the text of that event; the
      client's buffer is the frame and one zero byte. */
  lemma EventTextSurvives(e: Event)
    requires EventOk(e)
    ensures TrimSpaces(CStr(EventFrame(e) + [NUL])) == EventText(e)
  {
    var t := EventText(e);
    EventTextFits(e);
    assert IsCString(t) by {
      assert NUL !in Clip(e.key, MAX_STRING_SIZE);
      assert e.Written? ==> NUL !in Clip(e.value, MAX_WRITE_SIZE);
    }
    CStrUnique(EventFrame(e) + [NUL], t);
    TrimUnique(t, t);
  }

  /** The event a text stands for: deleting a key reads like writing DELETED. */
  function AsWrite(e: Event): Event {
    match e
    case Written(_, _) => e
    case Deleted(key) => Written(key, "DELETED")
  }

  lemma {:induction false} FirstComma(k: string, v: string, k': string, v': string)
    requires ',' !in k && ',' !in k' && k + "," + v == k' + "," + v'
    ensures k == k' && v == v'
  {
    var s, s' := k + "," + v, k' + "," + v';
    assert s[0] == s'[0];
    assert k != "" ==> k[0] in k;
    assert k' != "" ==> k'[0] in k';
    if k != "" && k' != "" {
      assert s[1..] == k[1..] + "," + v && s'[1..] == k'[1..] + "," + v';
      FirstComma(k[1..], v, k'[1..], v');
      assert k == [k[0]] + k[1..] && k' == [k'[0]] + k'[1..];
    } else {
      assert s[1..] == v && s'[1..] == v';
    }
  }

  function Wrap(t: string): string {
    "(" + t + ")"
  }

  lemma WrapInjective(t: string, t': string)
    requires Wrap(t) == Wrap(t')
    ensures t == t'
  {
    assert t == Wrap(t)[1..|Wrap(t)| - 1] && t' == Wrap(t')[1..|Wrap(t')| - 1];
  }

  lemma TextOfWrite(e: Event)
    requires EventOk(e)
    ensures EventText(e) == Wrap(AsWrite(e).key + "," + AsWrite(e).value)
  {
    assert e.Deleted? ==> ",DELETED" == "," + "DELETED";
  }

  /** For keys without commas, the text identifies the event, up to DELETED. */
  lemma EventTextInjective(e: Event, e': Event)
    requires EventOk(e) && EventOk(e') && ',' !in e.key && ',' !in e'.key
    ensures EventText(e) == EventText(e') <==> AsWrite(e) == AsWrite(e')
  {
    TextOfWrite(e);
    TextOfWrite(e');
    var w, w' := AsWrite(e), AsWrite(e');
    if EventText(e) == EventText(e') {
      WrapInjective(w.key + "," + w.value, w'.key + "," + w'.value);
      FirstComma(w.key, w.value, w'.key, w'.value);
    }
  }

  /** One key is the other one followed by a comma and more. */
  predicate GoesOn(k: string, k': string) {
    |k| < |k'| && k <= k' && k'[|k|] == ','
  }

  ghost predicate ShareText(k: string, k': string) {
    exists e, e' :: EventOk(e) && EventOk(e') && e.key == k && e'.key == k' && EventText(e) == EventText(e')
  }

  lemma SameTextGoesOn(k: string, v: string, k': string, v': string)
    requires k + "," + v == k' + "," + v' && |k| <= |k'|
    ensures k == k' || GoesOn(k, k')
  {
    var s := k + "," + v;
    assert s[..|k|] == k && s[|k|] == ',' && s[..|k'|] == k' && s[|k'|] == ',';
    assert k'[..|k|] == s[..|k'|][..|k|] == k;
    if |k| < |k'| {
      assert k'[|k|] == s[|k|];
    }
  }

  lemma GoingOnShares(k: string, k': string)
    requires IsCString(k') && |k'| <= MAX_STRING_SIZE && GoesOn(k, k')
    ensures IsCString(k) && ShareText(k, k')
  {
    var v := k'[|k| + 1..] + ",";
    assert forall c :: c in k ==> c in k';
    assert forall c :: c in v ==> c == ',' || c in k';
    assert k' == k + "," + k'[|k| + 1..];
    var e, e' := Written(k, v), Written(k', "");
    TextOfWrite(e);
    TextOfWrite(e');
    assert k + "," + v == k' + "," + "";
    assert EventText(e) == EventText(e');
  }

  /** The exact limit of the format: two keys can have events with the same text exactly when they
      are equal or one of them goes on behind the other one with a comma. */
  lemma KeysShareText(k: string, k': string)
    requires IsCString(k) && |k| <= MAX_STRING_SIZE && IsCString(k') && |k'| <= MAX_STRING_SIZE
    ensures ShareText(k, k') <==> k == k' || GoesOn(k, k') || GoesOn(k', k)
  {
    if k == k' {
      var e := Deleted(k);
      assert EventOk(e) && EventText(e) == EventText(e);
    }
    if GoesOn(k, k') {
      GoingOnShares(k, k');
    }
    if GoesOn(k', k) {
      GoingOnShares(k', k);
    }
    if e, e' :| EventOk(e) && EventOk(e') && e.key == k && e'.key == k' && EventText(e) == EventText(e') {
      TextOfWrite(e);
      TextOfWrite(e');
      WrapInjective(AsWrite(e).key + "," + AsWrite(e).value, AsWrite(e').key + "," + AsWrite(e').value);
      if |k| <= |k'| {
        SameTextGoesOn(k, AsWrite(e).value, k', AsWrite(e').value);
      } else {
        SameTextGoesOn(k', AsWrite(e').value, k, AsWrite(e).value);
      }
    }
  }
}

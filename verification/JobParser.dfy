/** The reading code of src/server/parser.c and the command loop of run_job in
    src/server/main.c as far as it parses, proved against the functions of JobText. */
module JobParser {
  import opened Constants
  import opened Sequences
  import opened CStrings
  import opened KvsBuckets
  import opened JobText

  /** A string that was read, and what came with it. */
  ghost function Text(r: (int, string, string)): (string, (int, string)) {
    (r.1, (r.0, r.2))
  }

  /** A word is at the front exactly when the first bytes are the word. */
  lemma WordAt(s: string, word: string)
    ensures Clip(s, |word|) == word <==> word <= s
    ensures word <= s ==> JobText.After(s, |word|) == s[|word|..]
  {
    if word <= s {
      assert s[..|word|] == word;
      if |s| == |word| {
        assert s[|word|..] == "";
      }
    }
  }

  predicate AllDigits(d: string) {
    forall i :: 0 <= i < |d| ==> IsDigit(d[i])
  }

  lemma NumberEnds(s: string, d: string, rest: string)
    requires s == d + rest && AllDigits(d) && (rest != "" ==> !IsDigit(rest[0]))
    ensures ReadUint(s) == (if Decimal(d) > UINT_MAX then None else Some(Decimal(d)),
                            if rest == "" then NUL else rest[0],
                            JobText.After(rest, 1))
  {
    DigitsThen(d, rest);
    if rest != "" {
      assert s[|d|] == rest[0] && s[|d| + 1..] == rest[1..];
    }
  }

  /** An open job file: its contents and the read offset. */
  class JobFile {
    const data: string
    var pos: nat

    constructor (data: string)
      ensures this.data == data && Valid() && Rest() == data
    {
      this.data := data;
      pos := 0;
    }

    ghost predicate Valid()
      reads this
    {
      pos <= |data|
    }

    /** What is left to read. */
    ghost function Rest(): string
      requires Valid()
      reads this
    {
      data[pos..]
    }

    /** read of a regular file: fewer bytes only at the end. */
    method Read(n: nat) returns (chunk: string)
      requires Valid()
      modifies this
      ensures Valid() && Rest() == After(old(Rest()), n)
      ensures chunk == Clip(old(Rest()), n)
    {
      var end := if pos + n <= |data| then pos + n else |data|;
      chunk := data[pos..end];
      pos := end;
    }

    /** cleanup */
    method Cleanup()
      requires Valid()
      modifies this
      ensures Valid() && Rest() == SkipLine(old(Rest()))
    {
      ghost var s := Rest();
      while true
        invariant Valid() && SkipLine(Rest()) == SkipLine(s)
        decreases |data| - pos
      {
        var ch := Read(1);
        if ch == "" || ch[0] == '\n' {
          return;
        }
      }
    }

    /** read_string */
    method ReadStringAt(max: nat) returns (code: int, text: string)
      requires Valid()
      modifies this
      ensures Valid() && (code, text, Rest()) == ReadString(old(Rest()), max)
    {
      text := "";
      ghost var all := ReadString(Rest(), max);
      BehindNothing(Text(all));
      while |text| < max
        invariant Valid() && |text| <= max
        invariant Text(all) == Behind(text, Text(ReadString(Rest(), max - |text|)))
        decreases max - |text|
      {
        ghost var before, room := Rest(), max - |text|;
        assert text + "" == text;
        var ch := Read(1);
        if ch == "" {
          return -1, text;
        }
        assert before[0] == ch[0] && Rest() == before[1..];
        if ch[0] == ' ' {
          return -1, text;
        }
        if ch[0] == ',' {
          return 0, text;
        } else if ch[0] == ')' {
          return 1, text;
        } else if ch[0] == ']' {
          return 2, text;
        }
        BehindBoth(text, [ch[0]], Text(ReadString(Rest(), room - 1)));
        text := text + [ch[0]];
      }
      assert text + "" == text;
      code := -1;
    }

    /** A command word with its arguments behind it, of which one byte is already in buf. */
    method ExpectWord(first: string, word: string, kind: Kind) returns (k: Kind)
      requires Valid() && |first| == 1 <= |word|
      modifies this
      ensures Valid() && (k, Rest()) == WordThen(first + old(Rest()), word, kind)
    {
      ghost var s := first + Rest();
      var buf := Read(|word| - 1);
      assert first + buf == Clip(s, |word|);
      assert Rest() == JobText.After(s, |word|);
      if first + buf != word {
        Cleanup();
        return KInvalid;
      }
      return kind;
    }

    /** A command word alone on its line. */
    method ExpectAlone(first: string, word: string, kind: Kind) returns (k: Kind)
      requires Valid() && |first| == 1 <= |word|
      modifies this
      ensures Valid() && (k, Rest()) == WordAlone(first + old(Rest()), word, kind)
    {
      ghost var s := first + Rest();
      var buf := Read(|word| - 1);
      assert first + buf == Clip(s, |word|);
      assert Rest() == JobText.After(s, |word|);
      if first + buf != word {
        Cleanup();
        return KInvalid;
      }
      ghost var t := Rest();
      assert t == s[|word|..];
      var ch := Read(1);
      if ch != "" && ch[0] != '\n' {
        assert Rest() == s[|word| + 1..];
        Cleanup();
        return KInvalid;
      }
      return kind;
    }

    /** get_next; None is the end of commands. */
    method GetNextCommand() returns (k: Option<Kind>)
      requires Valid()
      modifies this
      ensures Valid()
      ensures old(Rest()) == "" ==> k == None && Rest() == ""
      ensures old(Rest()) != "" ==> (k, Rest()) == (Some(GetNext(old(Rest())).0), GetNext(old(Rest())).1)
    {
      ghost var s := Rest();
      var first := Read(1);
      if first == "" {
        return None;
      }
      assert s == first + Rest() && s[0] == first[0];
      var kind;
      match first[0] {
      case 'W' => kind := WaitOrWrite(first);
      case 'R' => kind := ExpectWord(first, "READ ", KRead);
      case 'D' => kind := ExpectWord(first, "DELETE ", KDelete);
      case 'S' => kind := ExpectAlone(first, "SHOW", KShow);
      case 'B' => kind := ExpectAlone(first, "BACKUP", KBackup);
      case 'H' => kind := ExpectAlone(first, "HELP", KHelp);
      case '#' => Cleanup(); kind := KEmpty;
      case '\n' => kind := KEmpty;
      case _ => Cleanup(); kind := KInvalid;
      }
      k := Some(kind);
    }

    /** WAIT and WRITE share their first letter: one byte more decides. */
    method WaitOrWrite(first: string) returns (k: Kind)
      requires Valid() && first == "W"
      modifies this
      ensures Valid()
      ensures var s := first + old(Rest());
              (k, Rest()) == if "WAIT " <= s then (KWait, s[5..]) else WordThen(s, "WRITE ", KWrite)
    {
      ghost var s := first + Rest();
      var wait, write := "WAIT ", "WRITE ";
      var buf := Read(4);
      WordAt(s, wait);
      assert first + buf == Clip(s, |wait|) && Rest() == JobText.After(s, |wait|);
      if first + buf == wait {
        return KWait;
      }
      var more := Read(1);
      WordAt(s, write);
      assert first + buf + more == Clip(s, |write|) && Rest() == JobText.After(s, |write|);
      if first + buf + more == write {
        return KWrite;
      }
      Cleanup();
      k := KInvalid;
    }

    /** parse_pair */
    method ParsePairAt() returns (p: Option<Pair>)
      requires Valid()
      modifies this
      ensures Valid() && (p, Rest()) == ParsePair(old(Rest()))
    {
      var code, key := ReadStringAt(MAX_STRING_SIZE);
      if code != 0 {
        Cleanup();
        return None;
      }
      var value;
      code, value := ReadStringAt(MAX_STRING_SIZE);
      if code != 1 {
        Cleanup();
        return None;
      }
      p := Some(Pair(CStr(key), CStr(value)));
    }

    /** One turn of the loop of parse_write. */
    method PairAndMarkAt() returns (p: Option<Pair>, last: bool)
      requires Valid()
      modifies this
      ensures Valid() && (p, last, Rest()) == PairAndMark(old(Rest()))
    {
      p := ParsePairAt();
      last := false;
      if p == None {
        Cleanup();
        return;
      }
      ghost var rest := Rest();
      var ch := Read(1);
      if ch == "" || (ch[0] != '(' && ch[0] != ']') {
        Cleanup();
        return None, false;
      }
      last := ch[0] == ']';
    }

    /** The loop of parse_write. */
    method ParsePairsAt() returns (r: Option<seq<Pair>>)
      requires Valid()
      modifies this
      ensures Valid() && (r, Rest()) == ParsePairs(old(Rest()), 0)
    {
      ghost var all := ParsePairs(Rest(), 0);
      JoinedNothing(all);
      var pairs: seq<Pair> := [];
      while true
        invariant Valid() && |pairs| < MAX_WRITE_SIZE
        invariant all == Joined(pairs, ParsePairs(Rest(), |pairs|))
        decreases MAX_WRITE_SIZE - |pairs|
      {
        var p, last := PairAndMarkAt();
        if p == None {
          return None;
        }
        if |pairs| + 1 == MAX_WRITE_SIZE {
          Cleanup();
          return None;
        }
        if last {
          return Some(pairs + [p.value]);
        }
        JoinedBoth(pairs, p.value, ParsePairs(Rest(), |pairs| + 1));
        pairs := pairs + [p.value];
      }
    }

    /** parse_write; None is a count of zero. */
    method ParseWriteAt() returns (r: Option<seq<Pair>>)
      requires Valid()
      modifies this
      ensures Valid() && (r, Rest()) == ParseWrite(old(Rest()))
    {
      ghost var s := Rest();
      var ch := Read(1);
      if ch == "" || ch[0] != '[' {
        Cleanup();
        return None;
      }
      ch := Read(1);
      assert Rest() == JobText.After(s, 2);
      if ch == "" || ch[0] != '(' {
        Cleanup();
        return None;
      }
      assert Rest() == s[2..];
      r := ParsePairsAt();
      if r == None {
        return;
      }
      ch := Read(1);
      if ch == "" || (ch[0] != '\n' && ch[0] != NUL) {
        Cleanup();
        return None;
      }
    }

    /** The loop of parse_read_delete. */
    method ParseKeysAt() returns (r: Option<seq<string>>)
      requires Valid()
      modifies this
      ensures Valid() && (r, Rest()) == ParseKeys(old(Rest()), 0)
    {
      ghost var all := ParseKeys(Rest(), 0);
      JoinedNothing(all);
      var keys: seq<string> := [];
      while true
        invariant Valid() && |keys| < MAX_WRITE_SIZE
        invariant all == Joined(keys, ParseKeys(Rest(), |keys|))
        decreases MAX_WRITE_SIZE - |keys|
      {
        var code, key := ReadStringAt(MAX_STRING_SIZE);
        if code < 0 || code == 1 || |keys| + 1 == MAX_WRITE_SIZE {
          Cleanup();
          return None;
        }
        if code == 2 {
          return Some(keys + [CStr(key)]);
        }
        JoinedBoth(keys, CStr(key), ParseKeys(Rest(), |keys| + 1));
        keys := keys + [CStr(key)];
      }
    }

    /** parse_read_delete; None is a count of zero. */
    method ParseReadDeleteAt() returns (r: Option<seq<string>>)
      requires Valid()
      modifies this
      ensures Valid() && (r, Rest()) == ParseReadDelete(old(Rest()))
    {
      var ch := Read(1);
      if ch == "" || ch[0] != '[' {
        Cleanup();
        return None;
      }
      r := ParseKeysAt();
      if r == None {
        return;
      }
      ch := Read(1);
      if ch == "" || (ch[0] != '\n' && ch[0] != NUL) {
        Cleanup();
        return None;
      }
    }

    /** read_uint: the digits go into a buffer, and the character behind them is consumed. */
    method ReadUintAt() returns (value: Option<nat>, next: char)
      requires Valid()
      modifies this
      ensures Valid() && (value, next, Rest()) == ReadUint(old(Rest()))
    {
      ghost var s := Rest();
      var buf := "";
      next := NUL;
      assert s == "" + Rest();
      while true
        invariant Valid() && s == buf + Rest() && AllDigits(buf) && next == NUL
        decreases |data| - pos
      {
        ghost var rest := Rest();
        var ch := Read(1);
        if ch == "" {
          NumberEnds(s, buf, rest);
          break;
        }
        assert rest == [ch[0]] + Rest();
        if !IsDigit(ch[0]) {
          next := ch[0];
          NumberEnds(s, buf, rest);
          break;
        }
        assert buf + ([ch[0]] + Rest()) == buf + [ch[0]] + Rest();
        buf := buf + [ch[0]];
      }
      var ul := Decimal(buf);
      value := if ul > UINT_MAX then None else Some(ul);
    }

    /** parse_wait as run_job calls it; None is -1. */
    method ParseWaitAt() returns (delay: Option<nat>)
      requires Valid()
      modifies this
      ensures Valid() && (delay, Rest()) == ParseWait(old(Rest()))
    {
      var next;
      delay, next := ReadUintAt();
      if delay == None {
        Cleanup();
      } else if next == ' ' {
        Cleanup();
      } else if next != '\n' && next != NUL {
        Cleanup();
        delay := None;
      }
    }

    /** The parsing part of the switch of run_job. */
    method ReadArguments(kind: Kind) returns (c: Command)
      requires Valid()
      modifies this
      ensures Valid() && (c, Rest()) == Arguments(kind, old(Rest()))
    {
      match kind
      case KWrite =>
        var pairs := ParseWriteAt();
        c := if pairs == None then Invalid else Write(pairs.value);
      case KRead =>
        var keys := ParseReadDeleteAt();
        c := if keys == None then Invalid else JobText.Read(keys.value);
      case KDelete =>
        var keys := ParseReadDeleteAt();
        c := if keys == None then Invalid else Delete(keys.value);
      case KWait =>
        var delay := ParseWaitAt();
        c := if delay == None then Invalid else Wait(delay.value);
      case KShow => c := ShowAll;
      case KBackup => c := Backup;
      case KHelp => c := Help;
      case KEmpty => c := Empty;
      case KInvalid => c := Invalid;
    }
  }
}

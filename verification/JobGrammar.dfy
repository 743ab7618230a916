/** Which texts the parser of job files takes for which command, exactly, and where it stops
    (src/server/parser.c). */
module JobGrammar {
  import opened Constants
  import opened Sequences
  import opened CStrings
  import opened KvsBuckets
  import opened JobText

  // ---- Lines that are skipped ----

  /** A line is skipped up to its newline and no further. */
  lemma {:induction false} SkipsOneLine(l: string, rest: string)
    requires '\n' !in l
    ensures SkipLine(l + "\n" + rest) == rest
  {
    var s := l + "\n" + rest;
    if l == "" {
      assert s[0] == '\n' && s[1..] == rest;
    } else {
      assert l[0] in l && s[1..] == l[1..] + "\n" + rest;
      SkipsOneLine(l[1..], rest);
    }
  }

  /** A comment is one empty command, and the job goes on with the next line. */
  lemma CommentIsEmpty(l: string, rest: string)
    requires '\n' !in l
    ensures ParseJob("#" + l + "\n" + rest) == [Empty] + ParseJob(rest)
  {
    var s := "#" + l + "\n" + rest;
    assert s[0] == '#' && s[1..] == l + "\n" + rest;
    SkipsOneLine(l, rest);
    assert Next(s) == (Empty, rest);
  }

  /** A line that begins like no command is one invalid command, and the job goes on with the next. */
  lemma OtherLineIsInvalid(c: char, l: string, rest: string)
    requires '\n' !in l
    requires c != 'W' && c != 'R' && c != 'D' && c != 'S' && c != 'B' && c != 'H' && c != '#' && c != '\n'
    ensures ParseJob([c] + l + "\n" + rest) == [Invalid] + ParseJob(rest)
  {
    var s := [c] + l + "\n" + rest;
    assert s[0] == c && s[1..] == l + "\n" + rest;
    SkipsOneLine(l, rest);
  }

  // ---- The texts of the commands ----

  /** The character that gives a delimiter's code. */
  function Delimiter(code: int): char
    requires 0 <= code <= 2
  {
    if code == 0 then ',' else if code == 1 then ')' else ']'
  }

  lemma {:induction false} StringWasThere(s: string, room: nat)
    requires NUL !in s
    ensures var (code, text, rest) := ReadString(s, room);
            && NUL !in text && NUL !in rest && CStr(text) == text
            && (code >= 0 ==> s == text + [Delimiter(code)] + rest)
  {
    var (code, text, rest) := ReadString(s, room);
    if room > 0 && s != "" && s[0] != ' ' && s[0] != ',' && s[0] != ')' && s[0] != ']' {
      assert forall c :: c in s[1..] ==> c in s;
      assert s[0] in s && s == [s[0]] + s[1..];
      StringWasThere(s[1..], room - 1);
    } else if s != "" {
      assert s == [s[0]] + s[1..];
      assert forall c :: c in s[1..] ==> c in s;
    }
    CStrUnique(text, text);
  }

  lemma PairWasThere(s: string)
    requires NUL !in s
    ensures var (pair, last, rest) := PairAndMark(s);
            pair.Some? ==>
              && NUL !in rest
              && s == PrintPair(pair.value) + ([if last then ']' else '('] + rest)
  {
    var (c1, key, rest1) := ReadString(s, MAX_STRING_SIZE);
    var (c2, value, rest2) := ReadString(rest1, MAX_STRING_SIZE);
    StringWasThere(s, MAX_STRING_SIZE);
    StringWasThere(rest1, MAX_STRING_SIZE);
    var (pair, last, rest) := PairAndMark(s);
    if pair.Some? {
      assert pair.value == Pair(key, value);
      assert rest2 == [rest2[0]] + rest;
      assert s == key + "," + (value + ")" + rest2);
      assert PrintPair(pair.value) + rest2 == key + "," + value + ")" + rest2;
      assert forall c :: c in rest ==> c in rest2;
    }
  }

  lemma PrintMorePairs(p: Pair, more: seq<Pair>, end: string)
    ensures PrintPairs([p]) + end == PrintPair(p) + ("]" + end)
    ensures more != [] ==> PrintPairs([p] + more) + end == PrintPair(p) + ("(" + (PrintPairs(more) + end))
  {
    Assoc(PrintPair(p), "]", end);
    if more != [] {
      assert ([p] + more)[1..] == more;
      Assoc(PrintPair(p), "(" + PrintPairs(more), end);
      Assoc("(", PrintPairs(more), end);
    }
  }

  /** What was parsed is what was printed at the head of the text. */
  ghost predicate PairsAt(s: string, r: (Option<seq<Pair>>, string)) {
    r.0.Some? ==> r.0.value != [] && NUL !in r.1 && s == PrintPairs(r.0.value) + r.1
  }

  lemma MorePairsAt(s: string, p: Pair, rest: string, r: (Option<seq<Pair>>, string))
    requires s == PrintPair(p) + ("(" + rest) && PairsAt(rest, r)
    ensures PairsAt(s, Joined([p], r))
  {
    if r.0.Some? {
      PrintMorePairs(p, r.0.value, r.1);
    }
  }

  lemma {:induction false} PairsWereThere(s: string, n: nat)
    requires n < MAX_WRITE_SIZE && NUL !in s
    ensures PairsAt(s, ParsePairs(s, n))
    decreases MAX_WRITE_SIZE - n
  {
    var (pair, last, rest) := PairAndMark(s);
    PairWasThere(s);
    if pair.Some? && n + 1 < MAX_WRITE_SIZE {
      if last {
        PrintMorePairs(pair.value, [], rest);
      } else {
        PairsWereThere(rest, n + 1);
        MorePairsAt(s, pair.value, rest, ParsePairs(rest, n + 1));
      }
    }
  }

  lemma PrintMoreKeys(key: string, more: seq<string>, end: string)
    ensures PrintKeys([key]) + end == key + "]" + end
    ensures more != [] ==> PrintKeys([key] + more) + end == key + "," + (PrintKeys(more) + end)
  {
    if more != [] {
      assert ([key] + more)[1..] == more;
      Assoc(key, "," + PrintKeys(more), end);
      Assoc(",", PrintKeys(more), end);
      Assoc(key, ",", PrintKeys(more) + end);
    }
  }

  lemma {:induction false} KeysWereThere(s: string, n: nat)
    requires n < MAX_WRITE_SIZE && NUL !in s
    ensures var (keys, rest) := ParseKeys(s, n);
            keys.Some? ==> keys.value != [] && NUL !in rest && s == PrintKeys(keys.value) + rest
    decreases MAX_WRITE_SIZE - n
  {
    var (code, key, rest) := ReadString(s, MAX_STRING_SIZE);
    StringWasThere(s, MAX_STRING_SIZE);
    if n + 1 < MAX_WRITE_SIZE && code == 2 {
      PrintMoreKeys(key, [], rest);
    } else if n + 1 < MAX_WRITE_SIZE && code == 0 {
      KeysWereThere(rest, n + 1);
      var (more, end) := ParseKeys(rest, n + 1);
      if more.Some? {
        PrintMoreKeys(key, more.value, end);
      }
    }
  }

  lemma NoNulBehind(s: string, n: nat)
    requires NUL !in s && n <= |s|
    ensures NUL !in s[n..]
  {
  }

  lemma NewlineWasThere(end: string)
    requires NUL !in end && EndOfLine(end)
    ensures end == "\n" + end[1..]
  {
    assert end[0] in end;
  }

  lemma WriteWasThere(s: string)
    requires NUL !in s
    ensures var (pairs, rest) := ParseWrite(s);
            pairs.Some? ==> pairs.value != [] && s == "[(" + PrintPairs(pairs.value) + ("\n" + rest)
  {
    if ParseWrite(s).0.Some? {
      NoNulBehind(s, 2);
      PairsWereThere(s[2..], 0);
      var (pairs, end) := ParsePairs(s[2..], 0);
      NewlineWasThere(end);
      assert s == "[(" + s[2..];
      Assoc("[(", PrintPairs(pairs.value), end);
    }
  }

  lemma KeysLineParts(s: string)
    requires ParseReadDelete(s).0.Some?
    ensures s != "" && s == "[" + s[1..]
    ensures var (keys, end) := ParseKeys(s[1..], 0);
            EndOfLine(end) && ParseReadDelete(s) == (keys, end[1..])
  {
  }

  lemma KeysLineWasThere(s: string)
    requires NUL !in s
    ensures var (keys, rest) := ParseReadDelete(s);
            keys.Some? ==> keys.value != [] && s == "[" + PrintKeys(keys.value) + ("\n" + rest)
  {
    if ParseReadDelete(s).0.Some? {
      KeysLineParts(s);
      NoNulBehind(s, 1);
      KeysWereThere(s[1..], 0);
      var (keys, end) := ParseKeys(s[1..], 0);
      NewlineWasThere(end);
      Assoc("[", PrintKeys(keys.value), end);
    }
  }

  /** A text begins with a WRITE command exactly when it begins as that command is printed. */
  lemma WriteExactly(s: string, pairs: seq<Pair>, rest: string)
    requires s != "" && NUL !in s
    ensures Next(s) == (Write(pairs), rest) <==> Printable(Write(pairs)) && s == Print(Write(pairs)) + rest
  {
    if Next(s) == (Write(pairs), rest) {
      AcceptedIsPrintable(s);
      WordWasThere(s, "WRITE ", KWrite);
      NoNulBehind(s, 6);
      WriteWasThere(s[6..]);
      LineThen("WRITE ", "[(" + PrintPairs(pairs), rest);
    }
    if Printable(Write(pairs)) && s == Print(Write(pairs)) + rest {
      NextOfPrint(Write(pairs), rest);
    }
  }

  lemma WordWasThere(s: string, word: string, kind: Kind)
    requires s != "" && GetNext(s).0 == kind
    requires (kind == KWrite && word == "WRITE ") || (kind == KRead && word == "READ ") ||
             (kind == KDelete && word == "DELETE ") || (kind == KWait && word == "WAIT ")
    ensures word <= s && GetNext(s) == (kind, s[|word|..]) && s == word + s[|word|..]
  {
  }

  /** The same for READ and DELETE. */
  lemma KeysExactly(s: string, c: Command, rest: string)
    requires s != "" && NUL !in s && (c.Read? || c.Delete?)
    ensures Next(s) == (c, rest) <==> Printable(c) && s == Print(c) + rest
  {
    if Next(s) == (c, rest) {
      var word := if c.Read? then "READ " else "DELETE ";
      AcceptedIsPrintable(s);
      WordWasThere(s, word, if c.Read? then KRead else KDelete);
      NoNulBehind(s, |word|);
      KeysLineWasThere(s[|word|..]);
      LineThen(word, "[" + PrintKeys(c.keys), rest);
    }
    if Printable(c) && s == Print(c) + rest {
      NextOfPrint(c, rest);
    }
  }

  lemma WordAloneExactly(s: string, word: string, kind: Kind, rest: string)
    requires kind != KInvalid
    ensures WordAlone(s, word, kind) == (kind, rest) <==> s == word + "\n" + rest || (s == word && rest == "")
  {
    if word <= s && |s| > |word| {
      assert s == word + [s[|word|]] + s[|word| + 1..];
    }
    if s == word + "\n" + rest {
      assert s[|word|] == '\n' && s[|word| + 1..] == rest;
    }
  }

  lemma AloneKind(s: string, c: Command, kind: Kind, rest: string)
    requires s != ""
    requires (c == ShowAll && kind == KShow) || (c == Backup && kind == KBackup) || (c == Help && kind == KHelp)
    ensures Next(s) == (c, rest) <==> GetNext(s) == (kind, rest)
  {
  }

  lemma AloneWord(s: string, word: string, kind: Kind)
    requires s != ""
    requires (word == "SHOW" && kind == KShow) || (word == "BACKUP" && kind == KBackup) ||
             (word == "HELP" && kind == KHelp)
    ensures if s[0] == word[0] then GetNext(s) == WordAlone(s, word, kind) else GetNext(s).0 != kind
    ensures s[0] != word[0] ==> WordAlone(s, word, kind).0 == KInvalid
  {
  }

  /** The same for the commands that stand alone, which the end of the file may end. */
  lemma AloneExactly(s: string, c: Command, word: string, rest: string)
    requires s != ""
    requires (c == ShowAll && word == "SHOW") || (c == Backup && word == "BACKUP") || (c == Help && word == "HELP")
    ensures Next(s) == (c, rest) <==> s == word + "\n" + rest || (s == word && rest == "")
  {
    var kind := if c == ShowAll then KShow else if c == Backup then KBackup else KHelp;
    AloneKind(s, c, kind, rest);
    AloneWord(s, word, kind);
    WordAloneExactly(s, word, kind, rest);
  }

  /** What WAIT takes: any digits, or none, up to UINT_MAX, that a newline or the end of the file ends,
      or a space, behind which the rest of the line is skipped. */
  ghost predicate WaitArguments(args: string, delay: nat, rest: string) {
    var d := Digits(args);
    var end := args[|d|..];
    && Decimal(d) == delay <= UINT_MAX
    && (end == "" || end[0] == '\n' || end[0] == ' ')
    && rest == if end == "" then "" else if end[0] == ' ' then SkipLine(end[1..]) else end[1..]
  }

  lemma WaitArgumentsExactly(args: string, delay: nat, rest: string)
    requires NUL !in args
    ensures ParseWait(args) == (Some(delay), rest) <==> WaitArguments(args, delay, rest)
  {
    var d := Digits(args);
    if |d| < |args| {
      assert args[|d|] in args && args[|d|..][1..] == args[|d| + 1..];
    }
  }

  lemma WaitExactly(s: string, delay: nat, rest: string)
    requires s != "" && NUL !in s
    ensures Next(s) == (Wait(delay), rest) <==> "WAIT " <= s && WaitArguments(s[5..], delay, rest)
  {
    if "WAIT " <= s {
      NoNulBehind(s, 5);
      WaitArgumentsExactly(s[5..], delay, rest);
    } else {
      assert GetNext(s).0 != KWait;
    }
  }

  // ---- Where the next command begins ----

  /** r is what is left of s at the head of a line, or nothing. */
  ghost predicate AtLine(s: string, r: string) {
    && Suffix(s, r)
    && (r == "" || (|r| < |s| && s[|s| - |r| - 1] == '\n'))
  }

  ghost predicate Suffix(s: string, r: string) {
    |r| <= |s| && s[|s| - |r|..] == r
  }

  lemma SuffixOfSuffix(s: string, r: string, q: string)
    requires Suffix(s, r)
    ensures Suffix(r, q) ==> Suffix(s, q)
    ensures AtLine(r, q) ==> AtLine(s, q)
  {
    if Suffix(r, q) {
      assert s[|s| - |q|..] == r[|r| - |q|..];
      if q != "" && |q| < |r| {
        assert s[|s| - |q| - 1] == r[|r| - |q| - 1];
      }
    }
  }

  lemma {:induction false} SkipsToLine(s: string)
    ensures AtLine(s, SkipLine(s))
  {
    if s != "" {
      if s[0] == '\n' {
        assert s[|s| - |s[1..]|..] == s[1..];
      } else {
        SkipsToLine(s[1..]);
        SuffixOfSuffix(s, s[1..], SkipLine(s[1..]));
      }
    }
  }

  /** Skipping the rest of a line behind some characters. */
  lemma SkipsBehind(s: string, r: string)
    requires Suffix(s, r)
    ensures AtLine(s, SkipLine(r))
  {
    SkipsToLine(r);
    SuffixOfSuffix(s, r, SkipLine(r));
  }

  lemma AfterIsSuffix(s: string, n: nat)
    ensures Suffix(s, After(s, n))
  {
  }

  lemma TailIsSuffix(s: string)
    requires s != ""
    ensures Suffix(s, s[1..]) && Suffix(s, s)
  {
  }

  lemma {:induction false} StringLeavesSuffix(s: string, room: nat)
    ensures Suffix(s, ReadString(s, room).2)
  {
    if room > 0 && s != "" {
      TailIsSuffix(s);
      if s[0] != ' ' && s[0] != ',' && s[0] != ')' && s[0] != ']' {
        StringLeavesSuffix(s[1..], room - 1);
        SuffixOfSuffix(s, s[1..], ReadString(s[1..], room - 1).2);
      }
    }
  }

  /** Behind a string, and with the rest of its line skipped. */
  lemma BehindString(s: string, r: string)
    requires Suffix(s, r)
    ensures var rest := ReadString(r, MAX_STRING_SIZE).2; Suffix(s, rest) && AtLine(s, SkipLine(rest))
  {
    var rest := ReadString(r, MAX_STRING_SIZE).2;
    StringLeavesSuffix(r, MAX_STRING_SIZE);
    SuffixOfSuffix(s, r, rest);
    SkipsBehind(s, rest);
  }

  lemma ParsePairLeaves(s: string)
    ensures Suffix(s, ParsePair(s).1)
  {
    var rest := ReadString(s, MAX_STRING_SIZE).2;
    BehindString(s, s);
    BehindString(s, rest);
  }

  lemma PairLeaves(s: string)
    ensures var r := PairAndMark(s); Suffix(s, r.2) && (r.0 == None ==> AtLine(s, r.2))
  {
    var rest := ParsePair(s).1;
    ParsePairLeaves(s);
    SkipsBehind(s, rest);
    BehindOne(s, rest);
  }

  lemma BehindOne(s: string, rest: string)
    requires Suffix(s, rest)
    ensures rest != "" ==> Suffix(s, rest[1..])
    ensures AtLine(s, SkipLine(After(rest, 1)))
  {
    AfterIsSuffix(rest, 1);
    SuffixOfSuffix(s, rest, After(rest, 1));
    SkipsBehind(s, After(rest, 1));
  }

  lemma {:induction false} PairsLeave(s: string, n: nat)
    requires n < MAX_WRITE_SIZE
    ensures var r := ParsePairs(s, n); Suffix(s, r.1) && (r.0 == None ==> AtLine(s, r.1))
    decreases MAX_WRITE_SIZE - n
  {
    var (pair, last, rest) := PairAndMark(s);
    PairLeaves(s);
    if pair.Some? {
      SkipsBehind(s, rest);
      if n + 1 < MAX_WRITE_SIZE && !last {
        PairsLeave(rest, n + 1);
        SuffixOfSuffix(s, rest, ParsePairs(rest, n + 1).1);
      }
    }
  }

  lemma {:induction false} KeysLeave(s: string, n: nat)
    requires n < MAX_WRITE_SIZE
    ensures var r := ParseKeys(s, n); Suffix(s, r.1) && (r.0 == None ==> AtLine(s, r.1))
    decreases MAX_WRITE_SIZE - n
  {
    var (code, key, rest) := ReadString(s, MAX_STRING_SIZE);
    StringLeavesSuffix(s, MAX_STRING_SIZE);
    SkipsBehind(s, rest);
    if code == 0 && n + 1 < MAX_WRITE_SIZE {
      KeysLeave(rest, n + 1);
      SuffixOfSuffix(s, rest, ParseKeys(rest, n + 1).1);
    }
  }

  /** The end of a list of arguments. */
  lemma EndLeaves(s: string, rest: string)
    requires NUL !in s && Suffix(s, rest)
    ensures AtLine(s, if EndOfLine(rest) then rest[1..] else SkipLine(After(rest, 1)))
  {
    BehindOne(s, rest);
    if EndOfLine(rest) {
      assert rest[0] in rest && forall c :: c in rest ==> c in s;
      assert AtLine(rest, rest[1..]);
      SuffixOfSuffix(s, rest, rest[1..]);
    }
  }

  lemma WriteLeaves(s: string)
    requires NUL !in s
    ensures AtLine(s, ParseWrite(s).1)
  {
    AfterIsSuffix(s, 1);
    SkipsBehind(s, After(s, 1));
    AfterIsSuffix(s, 2);
    SkipsBehind(s, After(s, 2));
    if |s| >= 2 {
      var (pairs, rest) := ParsePairs(s[2..], 0);
      PairsLeave(s[2..], 0);
      SuffixOfSuffix(s, s[2..], rest);
      EndLeaves(s, rest);
    }
  }

  lemma KeysLineLeaves(s: string)
    requires NUL !in s
    ensures AtLine(s, ParseReadDelete(s).1)
  {
    AfterIsSuffix(s, 1);
    SkipsBehind(s, After(s, 1));
    if |s| >= 1 {
      var (keys, rest) := ParseKeys(s[1..], 0);
      KeysLeave(s[1..], 0);
      SuffixOfSuffix(s, s[1..], rest);
      EndLeaves(s, rest);
    }
  }

  lemma NumberLeaves(s: string)
    requires NUL !in s
    ensures var (_, next, rest) := ReadUint(s);
            Suffix(s, rest) && (next == '\n' || next == NUL ==> AtLine(s, rest))
  {
    var d := Digits(s);
    AfterIsSuffix(s, |d| + 1);
    if |d| < |s| {
      assert s[|d|] in s;
    }
  }

  lemma WaitLeaves(s: string)
    requires NUL !in s
    ensures AtLine(s, ParseWait(s).1)
  {
    NumberLeaves(s);
    SkipsBehind(s, ReadUint(s).2);
  }

  lemma WordLeaves(s: string, word: string, kind: Kind)
    ensures var (k, rest) := WordThen(s, word, kind); Suffix(s, rest) && (k == kind || AtLine(s, rest))
    ensures AtLine(s, WordAlone(s, word, kind).1)
  {
    AfterIsSuffix(s, |word|);
    SkipsBehind(s, After(s, |word|));
    AfterIsSuffix(s, |word| + 1);
    SkipsBehind(s, After(s, |word| + 1));
  }

  lemma GetNextLeaves(s: string)
    requires s != ""
    ensures var (kind, rest) := GetNext(s);
            && Suffix(s, rest)
            && (kind == KWrite || kind == KRead || kind == KDelete || kind == KWait || AtLine(s, rest))
  {
    match s[0]
    case 'W' => WordLeaves(s, "WRITE ", KWrite);
    case 'R' => WordLeaves(s, "READ ", KRead);
    case 'D' => WordLeaves(s, "DELETE ", KDelete);
    case 'S' => WordLeaves(s, "SHOW", KShow);
    case 'B' => WordLeaves(s, "BACKUP", KBackup);
    case 'H' => WordLeaves(s, "HELP", KHelp);
    case _ => SkipsBehind(s, s[1..]);
  }

  /** Whatever stands in a job file, each command, valid or not, leaves the parser at the head of a line
      or at the end of the file. */
  lemma NextBeginsLine(s: string)
    requires s != "" && NUL !in s
    ensures AtLine(s, Next(s).1)
  {
    var (kind, rest) := GetNext(s);
    GetNextLeaves(s);
    assert forall c :: c in rest ==> c in s;
    match kind {
      case KWrite => WriteLeaves(rest);
      case KRead => KeysLineLeaves(rest);
      case KDelete => KeysLineLeaves(rest);
      case KWait => WaitLeaves(rest);
      case _ =>
    }
    SuffixOfSuffix(s, rest, Next(s).1);
  }
}

/** The job language (src/server/parser.c): what is parsed from the text that is left, and what
    is left after it. JobParser.dfy shows that the reading code computes these functions. */
module JobText {
  import opened Constants
  import opened Sequences
  import opened CStrings
  import opened KvsBuckets

  const UINT_MAX: nat := 4294967295

  datatype Command =
    | Write(pairs: seq<Pair>)
    | Read(keys: seq<string>)
    | Delete(keys: seq<string>)
    | ShowAll
    | Wait(delay: nat)
    | Backup
    | Help
    | Empty
    | Invalid

  /** cleanup: behind the next newline. */
  function SkipLine(s: string): (r: string)
    ensures |r| <= |s|
  {
    if s == "" then "" else if s[0] == '\n' then s[1..] else SkipLine(s[1..])
  }

  /** s without its first n characters, as far as there are any. */
  function After(s: string, n: nat): (r: string)
    ensures |r| <= |s| && (n > 0 && s != "" ==> |r| < |s|)
  {
    if |s| <= n then "" else s[n..]
  }

  /** read_string with room for so many characters: the code of the delimiter (0 for a comma, 1
      for a closing parenthesis, 2 for a closing bracket, -1 otherwise), the text, the rest. */
  function ReadString(s: string, room: nat): (r: (int, string, string))
    ensures |r.2| <= |s| && |r.1| <= room && -1 <= r.0 <= 2
    ensures r.0 >= 0 ==> |r.1| < room
  {
    if room == 0 || s == "" then (-1, "", s)
    else if s[0] == ' ' then (-1, "", s[1..])
    else if s[0] == ',' then (0, "", s[1..])
    else if s[0] == ')' then (1, "", s[1..])
    else if s[0] == ']' then (2, "", s[1..])
    else
      var (code, text, rest) := ReadString(s[1..], room - 1);
      (code, [s[0]] + text, rest)
  }

  datatype Kind = KWrite | KRead | KDelete | KShow | KWait | KBackup | KHelp | KEmpty | KInvalid

  /** A command word with its arguments behind it. */
  function WordThen(s: string, word: string, kind: Kind): (Kind, string) {
    if word <= s then (kind, s[|word|..]) else (KInvalid, SkipLine(After(s, |word|)))
  }

  /** A command word alone on its line, or at the end of the file. */
  function WordAlone(s: string, word: string, kind: Kind): (Kind, string) {
    if !(word <= s) then (KInvalid, SkipLine(After(s, |word|)))
    else if |s| == |word| then (kind, "")
    else if s[|word|] == '\n' then (kind, s[|word| + 1..])
    else (KInvalid, SkipLine(s[|word| + 1..]))
  }

  /** get_next, on a text that is not at its end. */
  function GetNext(s: string): (r: (Kind, string))
    requires s != ""
    ensures |r.1| < |s|
  {
    match s[0]
    case 'W' => if "WAIT " <= s then (KWait, s[5..]) else WordThen(s, "WRITE ", KWrite)
    case 'R' => WordThen(s, "READ ", KRead)
    case 'D' => WordThen(s, "DELETE ", KDelete)
    case 'S' => WordAlone(s, "SHOW", KShow)
    case 'B' => WordAlone(s, "BACKUP", KBackup)
    case 'H' => WordAlone(s, "HELP", KHelp)
    case '#' => (KEmpty, SkipLine(s[1..]))
    case '\n' => (KEmpty, s[1..])
    case _ => (KInvalid, SkipLine(s[1..]))
  }

  /** parse_pair: it cleans up after itself, and its caller cleans up again. */
  function ParsePair(s: string): (r: (Option<Pair>, string))
    ensures |r.1| <= |s|
  {
    var (c1, key, rest1) := ReadString(s, MAX_STRING_SIZE);
    if c1 != 0 then (None, SkipLine(rest1))
    else
      var (c2, value, rest2) := ReadString(rest1, MAX_STRING_SIZE);
      if c2 != 1 then (None, SkipLine(rest2)) else (Some(Pair(CStr(key), CStr(value))), rest2)
  }

  /** A pair and the character behind it: whether it was the last one of its list. */
  function PairAndMark(s: string): (r: (Option<Pair>, bool, string))
    ensures |r.2| <= |s|
  {
    var (pair, rest) := ParsePair(s);
    if pair == None then (None, false, SkipLine(rest))
    else if rest == "" || (rest[0] != '(' && rest[0] != ']') then (None, false, SkipLine(After(rest, 1)))
    else (pair, rest[0] == ']', rest[1..])
  }

  /** A parsed list behind one that was there before, if it was parsed at all. */
  function Joined<T>(done: seq<T>, r: (Option<seq<T>>, string)): (Option<seq<T>>, string) {
    if r.0 == None then r else (Some(done + r.0.value), r.1)
  }

  lemma JoinedNothing<T>(r: (Option<seq<T>>, string))
    ensures Joined([], r) == r
  {
    if r.0.Some? {
      assert [] + r.0.value == r.0.value;
    }
  }

  lemma JoinedBoth<T>(done: seq<T>, x: T, r: (Option<seq<T>>, string))
    ensures Joined(done, Joined([x], r)) == Joined(done + [x], r)
  {
    if r.0.Some? {
      Assoc(done, [x], r.0.value);
    }
  }

  /** The loop of parse_write, with n pairs stored; the text is behind an opening parenthesis. */
  function ParsePairs(s: string, n: nat): (r: (Option<seq<Pair>>, string))
    requires n < MAX_WRITE_SIZE
    ensures |r.1| <= |s|
    decreases MAX_WRITE_SIZE - n
  {
    var (pair, last, rest) := PairAndMark(s);
    if pair == None then (None, rest)
    else if n + 1 == MAX_WRITE_SIZE then (None, SkipLine(rest))
    else if last then (Some([pair.value]), rest)
    else Joined([pair.value], ParsePairs(rest, n + 1))
  }

  /** The end of a line of arguments: a newline or a zero byte. */
  predicate EndOfLine(s: string) {
    s != "" && (s[0] == '\n' || s[0] == NUL)
  }

  function ParseWrite(s: string): (r: (Option<seq<Pair>>, string))
    ensures |r.1| <= |s|
  {
    if s == "" || s[0] != '[' then (None, SkipLine(After(s, 1)))
    else if |s| == 1 || s[1] != '(' then (None, SkipLine(After(s, 2)))
    else
      var (pairs, rest) := ParsePairs(s[2..], 0);
      if pairs == None then (None, rest)
      else if EndOfLine(rest) then (pairs, rest[1..])
      else (None, SkipLine(After(rest, 1)))
  }

  /** The loop of parse_read_delete, with n keys stored. */
  function ParseKeys(s: string, n: nat): (r: (Option<seq<string>>, string))
    requires n < MAX_WRITE_SIZE
    ensures |r.1| <= |s|
    decreases MAX_WRITE_SIZE - n
  {
    var (code, key, rest) := ReadString(s, MAX_STRING_SIZE);
    if code < 0 || code == 1 || n + 1 == MAX_WRITE_SIZE then (None, SkipLine(rest))
    else if code == 2 then (Some([CStr(key)]), rest)
    else Joined([CStr(key)], ParseKeys(rest, n + 1))
  }

  function ParseReadDelete(s: string): (r: (Option<seq<string>>, string))
    ensures |r.1| <= |s|
  {
    if s == "" || s[0] != '[' then (None, SkipLine(After(s, 1)))
    else
      var (keys, rest) := ParseKeys(s[1..], 0);
      if keys == None then (None, rest)
      else if EndOfLine(rest) then (keys, rest[1..])
      else (None, SkipLine(After(rest, 1)))
  }

  predicate IsDigit(c: char) {
    '0' <= c <= '9'
  }

  function DigitValue(c: char): nat
    requires IsDigit(c)
  {
    (c as int) - ('0' as int)
  }

  /** The digits at the head of a text. */
  function Digits(s: string): (d: string)
    ensures d <= s && (forall i :: 0 <= i < |d| ==> IsDigit(d[i]))
    ensures |d| < |s| ==> !IsDigit(s[|d|])
  {
    if s == "" || !IsDigit(s[0]) then "" else [s[0]] + Digits(s[1..])
  }

  /** strtoul on digits. */
  function Decimal(d: string): nat
    requires forall i :: 0 <= i < |d| ==> IsDigit(d[i])
  {
    if d == "" then 0 else 10 * Decimal(d[..|d| - 1]) + DigitValue(d[|d| - 1])
  }

  /** read_uint: the number, the character behind it (zero at the end of the file), the rest. */
  function ReadUint(s: string): (r: (Option<nat>, char, string))
    ensures |r.2| <= |s|
  {
    var d := Digits(s);
    (if Decimal(d) > UINT_MAX then None else Some(Decimal(d)),
     if |d| < |s| then s[|d|] else NUL,
     After(s, |d| + 1))
  }

  /** parse_wait as the server calls it, without a thread number. */
  function ParseWait(s: string): (r: (Option<nat>, string))
    ensures |r.1| <= |s|
  {
    var (value, next, rest) := ReadUint(s);
    if value == None then (None, SkipLine(rest))
    else if next == ' ' then (value, SkipLine(rest))
    else if next == '\n' || next == NUL then (value, rest)
    else (None, SkipLine(rest))
  }

  /** The switch of run_job: the arguments of a command. */
  function Arguments(kind: Kind, rest: string): (r: (Command, string))
    ensures |r.1| <= |rest|
  {
    match kind
    case KWrite => var (pairs, r) := ParseWrite(rest); (if pairs == None then Invalid else Write(pairs.value), r)
    case KRead => var (keys, r) := ParseReadDelete(rest); (if keys == None then Invalid else Read(keys.value), r)
    case KDelete => var (keys, r) := ParseReadDelete(rest); (if keys == None then Invalid else Delete(keys.value), r)
    case KWait => var (delay, r) := ParseWait(rest); (if delay == None then Invalid else Wait(delay.value), r)
    case KShow => (ShowAll, rest)
    case KBackup => (Backup, rest)
    case KHelp => (Help, rest)
    case KEmpty => (Empty, rest)
    case KInvalid => (Invalid, rest)
  }

  /** One turn of run_job: the next command and the rest of the file. */
  function Next(s: string): (r: (Command, string))
    requires s != ""
    ensures |r.1| < |s|
  {
    var (kind, rest) := GetNext(s);
    Arguments(kind, rest)
  }

  /** The commands of a whole job file; every turn consumes something. */
  function ParseJob(s: string): seq<Command>
    decreases |s|
  {
    if s == "" then [] else [Next(s).0] + ParseJob(Next(s).1)
  }

  // ---- Printing ----

  /** What a key or value may be in a job file. */
  ghost predicate IsWord(w: string) {
    |w| < MAX_STRING_SIZE && forall c :: c in w ==> c != ' ' && c != ',' && c != ')' && c != ']' && c != NUL
  }

  ghost predicate Printable(c: Command) {
    match c
    case Write(pairs) =>
      && 0 < |pairs| < MAX_WRITE_SIZE
      && forall i :: 0 <= i < |pairs| ==> IsWord(pairs[i].key) && IsWord(pairs[i].value)
    case Read(keys) => 0 < |keys| < MAX_WRITE_SIZE && forall i :: 0 <= i < |keys| ==> IsWord(keys[i])
    case Delete(keys) => 0 < |keys| < MAX_WRITE_SIZE && forall i :: 0 <= i < |keys| ==> IsWord(keys[i])
    case Wait(delay) => delay <= UINT_MAX
    case Invalid => false
    case _ => true
  }

  /** (key,value)(key,value)...] behind the first parenthesis. */
  function PrintPairs(pairs: seq<Pair>): string
    requires pairs != []
  {
    PrintPair(pairs[0]) + if |pairs| == 1 then "]" else "(" + PrintPairs(pairs[1..])
  }

  function PrintKeys(keys: seq<string>): string
    requires keys != []
  {
    keys[0] + if |keys| == 1 then "]" else "," + PrintKeys(keys[1..])
  }

  function Digit(d: nat): (c: char)
    requires d < 10
    ensures IsDigit(c) && DigitValue(c) == d
  {
    (d + ('0' as int)) as char
  }

  function PrintNumber(n: nat): (d: string)
    ensures d != "" && (forall i :: 0 <= i < |d| ==> IsDigit(d[i])) && Decimal(d) == n
  {
    if n < 10 then
      assert Decimal([]) == 0 && [Digit(n)][..0] == [];
      [Digit(n)]
    else
      var front := PrintNumber(n / 10);
      assert (front + [Digit(n % 10)])[..|front|] == front;
      front + [Digit(n % 10)]
  }

  /** A command word, its arguments and a newline. */
  function Line(word: string, args: string): string {
    word + (args + "\n")
  }

  function Print(c: Command): string
    requires Printable(c)
  {
    match c
    case Write(pairs) => Line("WRITE ", "[(" + PrintPairs(pairs))
    case Read(keys) => Line("READ ", "[" + PrintKeys(keys))
    case Delete(keys) => Line("DELETE ", "[" + PrintKeys(keys))
    case ShowAll => Line("SHOW", "")
    case Wait(delay) => Line("WAIT ", PrintNumber(delay))
    case Backup => Line("BACKUP", "")
    case Help => Line("HELP", "")
    case Empty => Line("", "")
  }

  ghost predicate AllPrintable(cs: seq<Command>) {
    cs != [] ==> Printable(cs[0]) && AllPrintable(cs[1..])
  }

  // ---- Round trip ----

  ghost predicate Delimits(c: char, code: int) {
    (c == ',' && code == 0) || (c == ')' && code == 1) || (c == ']' && code == 2)
  }

  lemma {:induction false} ReadWord(w: string, c: char, code: int, rest: string, room: nat)
    requires |w| < room && Delimits(c, code)
    requires forall x :: x in w ==> x != ' ' && x != ',' && x != ')' && x != ']' && x != NUL
    ensures ReadString(w + [c] + rest, room) == (code, w, rest)
    ensures CStr(w) == w
  {
    var s := w + [c] + rest;
    if w == "" {
      assert s[0] == c && s[1..] == rest;
    } else {
      assert s[0] == w[0] && w[0] in w;
      assert s[1..] == w[1..] + [c] + rest;
      assert forall x :: x in w[1..] ==> x in w;
      ReadWord(w[1..], c, code, rest, room - 1);
      assert [w[0]] + w[1..] == w;
    }
  }

  function PrintPair(p: Pair): string {
    p.key + "," + p.value + ")"
  }

  lemma ReadPair(p: Pair, rest: string)
    requires IsWord(p.key) && IsWord(p.value)
    ensures ParsePair(PrintPair(p) + rest) == (Some(p), rest)
  {
    assert PrintPair(p) + rest == p.key + [','] + (p.value + [')'] + rest);
    ReadWord(p.key, ',', 0, p.value + [')'] + rest, MAX_STRING_SIZE);
    ReadWord(p.value, ')', 1, rest, MAX_STRING_SIZE);
  }

  lemma ReadPairAndMark(p: Pair, mark: char, rest: string)
    requires IsWord(p.key) && IsWord(p.value) && (mark == '(' || mark == ']')
    ensures PairAndMark(PrintPair(p) + ([mark] + rest)) == (Some(p), mark == ']', rest)
  {
    ReadPair(p, [mark] + rest);
    assert ([mark] + rest)[1..] == rest;
  }

  lemma {:induction false} ReadPairs(pairs: seq<Pair>, rest: string, n: nat)
    requires pairs != [] && n + |pairs| < MAX_WRITE_SIZE
    requires forall i :: 0 <= i < |pairs| ==> IsWord(pairs[i].key) && IsWord(pairs[i].value)
    ensures ParsePairs(PrintPairs(pairs) + rest, n) == (Some(pairs), rest)
    decreases |pairs|
  {
    assert [pairs[0]] + pairs[1..] == pairs;
    if |pairs| == 1 {
      assert PrintPairs(pairs) + rest == PrintPair(pairs[0]) + ("]" + rest);
      assert [pairs[0]] == pairs;
      ReadPairAndMark(pairs[0], ']', rest);
    } else {
      var more := PrintPairs(pairs[1..]) + rest;
      assert PrintPairs(pairs) + rest == PrintPair(pairs[0]) + ("(" + more);
      ReadPairAndMark(pairs[0], '(', more);
      ReadPairs(pairs[1..], rest, n + 1);
    }
  }

  lemma {:induction false} ReadKeys(keys: seq<string>, rest: string, n: nat)
    requires keys != [] && n + |keys| < MAX_WRITE_SIZE
    requires forall i :: 0 <= i < |keys| ==> IsWord(keys[i])
    ensures ParseKeys(PrintKeys(keys) + rest, n) == (Some(keys), rest)
    decreases |keys|
  {
    var s := PrintKeys(keys) + rest;
    if |keys| == 1 {
      assert s == keys[0] + [']'] + rest;
      ReadWord(keys[0], ']', 2, rest, MAX_STRING_SIZE);
      assert [keys[0]] == keys;
    } else {
      assert s == keys[0] + [','] + (PrintKeys(keys[1..]) + rest);
      ReadWord(keys[0], ',', 0, PrintKeys(keys[1..]) + rest, MAX_STRING_SIZE);
      ReadKeys(keys[1..], rest, n + 1);
      assert [keys[0]] + keys[1..] == keys;
    }
  }

  lemma {:induction false} DigitsThen(d: string, rest: string)
    requires (forall i :: 0 <= i < |d| ==> IsDigit(d[i])) && (rest != "" ==> !IsDigit(rest[0]))
    ensures Digits(d + rest) == d
  {
    if d == "" {
      assert d + rest == rest;
    } else {
      assert (d + rest)[0] == d[0] && (d + rest)[1..] == d[1..] + rest;
      DigitsThen(d[1..], rest);
      assert [d[0]] + d[1..] == d;
    }
  }

  lemma ReadNumber(n: nat, rest: string)
    requires n <= UINT_MAX
    ensures ParseWait(PrintNumber(n) + ("\n" + rest)) == (Some(n), rest)
  {
    var d := PrintNumber(n);
    var s := d + ("\n" + rest);
    DigitsThen(d, "\n" + rest);
    assert s[|d|] == '\n' && s[|d| + 1..] == rest;
    assert ReadUint(s) == (Some(n), '\n', rest);
  }

  /** A line with something behind it: the word, and then the arguments. */
  lemma LineThen(word: string, args: string, rest: string)
    ensures Line(word, args) + rest == word + (args + ("\n" + rest))
    ensures word <= Line(word, args) + rest
    ensures (Line(word, args) + rest)[|word|..] == args + ("\n" + rest)
  {
    var s := Line(word, args) + rest;
    Assoc(word, args + "\n", rest);
    Assoc(args, "\n", rest);
    assert s == word + (args + ("\n" + rest));
  }

  lemma PairsFound(pairs: seq<Pair>, rest: string)
    requires Printable(Write(pairs))
    ensures ParseWrite("[(" + PrintPairs(pairs) + ("\n" + rest)) == (Some(pairs), rest)
  {
    var args := "[(" + PrintPairs(pairs) + ("\n" + rest);
    assert args[0] == '[' && args[1] == '(' && args[2..] == PrintPairs(pairs) + ("\n" + rest);
    ReadPairs(pairs, "\n" + rest, 0);
    HeadAndTail('\n', rest);
  }

  lemma NextWrite(pairs: seq<Pair>, rest: string)
    requires Printable(Write(pairs))
    ensures var s := Line("WRITE ", "[(" + PrintPairs(pairs)) + rest;
            s != "" && Next(s) == (Write(pairs), rest)
  {
    var s := Line("WRITE ", "[(" + PrintPairs(pairs)) + rest;
    LineThen("WRITE ", "[(" + PrintPairs(pairs), rest);
    assert s[0] == 'W' && s[1] == 'R';
    assert GetNext(s) == (KWrite, "[(" + PrintPairs(pairs) + ("\n" + rest));
    PairsFound(pairs, rest);
  }

  lemma NextKeys(c: Command, word: string, keys: seq<string>, rest: string)
    requires (c == Read(keys) && word == "READ ") || (c == Delete(keys) && word == "DELETE ")
    requires Printable(c)
    ensures var s := Line(word, "[" + PrintKeys(keys)) + rest;
            s != "" && Next(s) == (c, rest)
  {
    var s, args := Line(word, "[" + PrintKeys(keys)) + rest, "[" + PrintKeys(keys) + ("\n" + rest);
    LineThen(word, "[" + PrintKeys(keys), rest);
    assert s[0] == word[0];
    assert GetNext(s) == (if c.Read? then KRead else KDelete, args);
    KeysFound(keys, rest);
  }

  lemma NextWait(delay: nat, rest: string)
    requires Printable(Wait(delay))
    ensures var s := Line("WAIT ", PrintNumber(delay)) + rest;
            s != "" && Next(s) == (Wait(delay), rest)
  {
    var s := Line("WAIT ", PrintNumber(delay)) + rest;
    LineThen("WAIT ", PrintNumber(delay), rest);
    assert s[0] == 'W';
    assert GetNext(s) == (KWait, PrintNumber(delay) + ("\n" + rest));
    ReadNumber(delay, rest);
  }

  lemma NextAlone(word: string, c: Command, rest: string)
    requires (c == ShowAll && word == "SHOW") || (c == Backup && word == "BACKUP") || (c == Help && word == "HELP")
    ensures var s := Line(word, "") + rest;
            s != "" && Next(s) == (c, rest)
  {
    var s := Line(word, "") + rest;
    LineThen(word, "", rest);
    assert "" + ("\n" + rest) == "\n" + rest;
    assert s[0] == word[0] && s[|word|] == '\n' && s[|word| + 1..] == rest;
  }

  lemma NextEmpty(rest: string)
    ensures Line("", "") + rest != "" && Next(Line("", "") + rest) == (Empty, rest)
  {
    assert Line("", "") == "\n";
    assert ("\n" + rest)[1..] == rest;
  }

  /** Reading a printed command gives it back and leaves what stands behind it. */
  lemma NextOfPrint(c: Command, rest: string)
    requires Printable(c)
    ensures Print(c) + rest != "" && Next(Print(c) + rest) == (c, rest)
  {
    match c
    case Write(pairs) => NextWrite(pairs, rest);
    case Read(keys) => NextKeys(c, "READ ", keys, rest);
    case Delete(keys) => NextKeys(c, "DELETE ", keys, rest);
    case Wait(delay) => NextWait(delay, rest);
    case ShowAll => NextAlone("SHOW", c, rest);
    case Backup => NextAlone("BACKUP", c, rest);
    case Help => NextAlone("HELP", c, rest);
    case Empty => NextEmpty(rest);
  }

  lemma HeadAndTail(c: char, s: string)
    ensures ([c] + s)[0] == c && ([c] + s)[1..] == s
  {
  }

  lemma BracketedKeys(args: string, keys: seq<string>, tail: string, rest: string)
    ensures && args != "" && args[0] == '[' && ParseKeys(args[1..], 0) == (Some(keys), tail)
            && tail != "" && tail[0] == '\n' && tail[1..] == rest
            ==> ParseReadDelete(args) == (Some(keys), rest)
  {
  }

  lemma KeysFound(keys: seq<string>, rest: string)
    requires 0 < |keys| < MAX_WRITE_SIZE && forall i :: 0 <= i < |keys| ==> IsWord(keys[i])
    ensures ParseReadDelete("[" + PrintKeys(keys) + ("\n" + rest)) == (Some(keys), rest)
  {
    var tail := "\n" + rest;
    HeadAndTail('\n', rest);
    ReadKeys(keys, tail, 0);
    Assoc("[", PrintKeys(keys), tail);
    HeadAndTail('[', PrintKeys(keys) + tail);
    BracketedKeys("[" + PrintKeys(keys) + tail, keys, tail, rest);
  }

  /** Reading commands with any reader until the text is used up. */
  ghost function ReadAll(next: string -> (Command, string), s: string): seq<Command>
    decreases |s|
  {
    if s == "" || |next(s).1| >= |s| then [] else [next(s).0] + ReadAll(next, next(s).1)
  }

  /** The reader of this language, on all texts. */
  ghost function NextOrNone(s: string): (Command, string) {
    if s == "" then (Invalid, "") else Next(s)
  }

  lemma {:induction false} ParseJobReadsAll(s: string)
    ensures ParseJob(s) == ReadAll(NextOrNone, s)
    decreases |s|
  {
    if s != "" {
      ParseJobReadsAll(Next(s).1);
    }
  }

  ghost function Concat(texts: seq<string>): string {
    if texts == [] then "" else texts[0] + Concat(texts[1..])
  }

  /** The reader gets the command from the text, whatever follows, and stops behind the text. */
  ghost predicate Gets(next: string -> (Command, string), text: string, c: Command) {
    text != "" && forall r :: next(text + r) == (c, r)
  }

  /** A reader that gets each command from the text printed for it gets all of them. */
  lemma {:induction false} ReadAllTexts(next: string -> (Command, string), texts: seq<string>,
                                        cs: seq<Command>, rest: string)
    requires |texts| == |cs|
    requires forall i :: 0 <= i < |texts| ==> Gets(next, texts[i], cs[i])
    ensures ReadAll(next, Concat(texts) + rest) == cs + ReadAll(next, rest)
  {
    if texts == [] {
      assert Concat(texts) + rest == rest;
    } else {
      Assoc(texts[0], Concat(texts[1..]), rest);
      forall i | 0 <= i < |texts[1..]| ensures Gets(next, texts[1..][i], cs[1..][i]) {
        assert Gets(next, texts[i + 1], cs[i + 1]);
      }
      assert Gets(next, texts[0], cs[0]);
      ReadAllTexts(next, texts[1..], cs[1..], rest);
      assert [cs[0]] + (cs[1..] + ReadAll(next, rest)) == cs + ReadAll(next, rest);
    }
  }

  ghost function PrintAll(cs: seq<Command>): seq<string>
    requires AllPrintable(cs)
  {
    if cs == [] then [] else [Print(cs[0])] + PrintAll(cs[1..])
  }

  lemma PrintedText(c: Command)
    requires Printable(c)
    ensures Gets(NextOrNone, Print(c), c)
  {
    NextOfPrint(c, "");
    assert Print(c) + "" == Print(c);
    forall r ensures NextOrNone(Print(c) + r) == (c, r) {
      NextOfPrint(c, r);
    }
  }

  lemma {:induction false} PrintedTexts(cs: seq<Command>)
    requires AllPrintable(cs)
    ensures |PrintAll(cs)| == |cs|
    ensures forall i :: 0 <= i < |cs| ==> Gets(NextOrNone, PrintAll(cs)[i], cs[i])
  {
    if cs != [] {
      PrintedTexts(cs[1..]);
      PrintedText(cs[0]);
      forall i | 0 <= i < |cs| ensures Gets(NextOrNone, PrintAll(cs)[i], cs[i]) {
        if i > 0 {
          assert Gets(NextOrNone, PrintAll(cs[1..])[i - 1], cs[1..][i - 1]);
        }
      }
    }
  }

  ghost function PrintJob(cs: seq<Command>): string
    requires AllPrintable(cs)
  {
    Concat(PrintAll(cs))
  }

  /** Job-file round trip: parsing a printed job gives its commands, and then whatever follows. */
  lemma JobRoundTrip(cs: seq<Command>, rest: string)
    requires AllPrintable(cs)
    ensures ParseJob(PrintJob(cs) + rest) == cs + ParseJob(rest)
  {
    PrintedTexts(cs);
    ReadAllTexts(NextOrNone, PrintAll(cs), cs, rest);
    ParseJobReadsAll(PrintJob(cs) + rest);
    ParseJobReadsAll(rest);
  }

  // ---- What the parser accepts ----

  lemma {:induction false} ReadStringWord(s: string, room: nat)
    ensures forall c :: c in ReadString(s, room).1 ==> c != ' ' && c != ',' && c != ')' && c != ']'
  {
    if room > 0 && s != "" && s[0] != ' ' && s[0] != ',' && s[0] != ')' && s[0] != ']' {
      ReadStringWord(s[1..], room - 1);
      var (code, text, rest) := ReadString(s[1..], room - 1);
      assert ReadString(s, room) == (code, [s[0]] + text, rest);
      assert forall c :: c in [s[0]] + text ==> c == s[0] || c in text;
    } else {
      assert ReadString(s, room).1 == "";
    }
  }

  lemma ParsedWord(s: string)
    ensures ReadString(s, MAX_STRING_SIZE).0 >= 0 ==> IsWord(CStr(ReadString(s, MAX_STRING_SIZE).1))
  {
    ReadStringWord(s, MAX_STRING_SIZE);
    var text := ReadString(s, MAX_STRING_SIZE).1;
    assert forall c :: c in CStr(text) ==> c in text;
  }

  lemma ParsedPair(s: string)
    ensures PairAndMark(s).0.Some? ==> IsWord(PairAndMark(s).0.value.key) && IsWord(PairAndMark(s).0.value.value)
  {
    ParsedWord(s);
    ParsedWord(ReadString(s, MAX_STRING_SIZE).2);
  }

  lemma {:induction false} ParsedPairs(s: string, n: nat)
    requires n < MAX_WRITE_SIZE
    ensures var (pairs, _) := ParsePairs(s, n);
            pairs.Some? ==> 0 < |pairs.value| < MAX_WRITE_SIZE - n &&
                            forall i :: 0 <= i < |pairs.value| ==>
                             IsWord(pairs.value[i].key) && IsWord(pairs.value[i].value)
    decreases MAX_WRITE_SIZE - n
  {
    ParsedPair(s);
    var (pair, last, rest) := PairAndMark(s);
    if pair.Some? && !last && n + 1 < MAX_WRITE_SIZE {
      ParsedPairs(rest, n + 1);
    }
  }

  lemma {:induction false} ParsedKeys(s: string, n: nat)
    requires n < MAX_WRITE_SIZE
    ensures var (keys, _) := ParseKeys(s, n);
            keys.Some? ==> 0 < |keys.value| < MAX_WRITE_SIZE - n &&
                           forall i :: 0 <= i < |keys.value| ==> IsWord(keys.value[i])
    decreases MAX_WRITE_SIZE - n
  {
    ParsedWord(s);
    var (code, key, rest) := ReadString(s, MAX_STRING_SIZE);
    if code == 0 && n + 1 < MAX_WRITE_SIZE {
      ParsedKeys(rest, n + 1);
    } else if code == 2 && n + 1 < MAX_WRITE_SIZE {
      assert ParseKeys(s, n) == (Some([CStr(key)]), rest);
    } else {
      assert ParseKeys(s, n).0 == None;
    }
  }

  /** A command the parser accepts is one that can be printed, so printing loses nothing. */
  lemma AcceptedIsPrintable(s: string)
    requires s != ""
    ensures Next(s).0 == Invalid || Printable(Next(s).0)
  {
    var (kind, rest) := GetNext(s);
    match kind
    case KWrite => if |rest| >= 2 { ParsedPairs(rest[2..], 0); }
    case KRead => if |rest| >= 1 { ParsedKeys(rest[1..], 0); }
    case KDelete => if |rest| >= 1 { ParsedKeys(rest[1..], 0); }
    case KWait =>
    case KShow =>
    case KBackup =>
    case KHelp =>
    case KEmpty =>
    case KInvalid =>
  }

  /** The valid commands of any job file, printed and parsed again, are the same commands. */
  lemma AcceptedCommandsReprint(cs: seq<Command>, s: string)
    requires cs == Valid(ParseJob(s))
    ensures AllPrintable(cs) && ParseJob(PrintJob(cs)) == cs
  {
    ValidPrintable(s);
    JobRoundTrip(cs, "");
    assert PrintJob(cs) + "" == PrintJob(cs);
    assert cs + ParseJob("") == cs;
  }

  function Valid(cs: seq<Command>): seq<Command> {
    if cs == [] then [] else (if cs[0] == Invalid then [] else [cs[0]]) + Valid(cs[1..])
  }

  lemma {:induction false} ValidPrintable(s: string)
    ensures AllPrintable(Valid(ParseJob(s)))
    decreases |s|
  {
    if s != "" {
      AcceptedIsPrintable(s);
      ValidPrintable(Next(s).1);
      var c, more := Next(s).0, Valid(ParseJob(Next(s).1));
      assert ParseJob(s)[1..] == ParseJob(Next(s).1);
      assert ([c] + more)[1..] == more && [] + more == more;
    }
  }

  // ---- Lines that are lost ----

  /** Skipping from behind the first n characters takes more than the rest of the line exactly when
      the line ends within them and there is something behind it. */
  lemma {:induction false} SkipsOwnLine(s: string, n: nat)
    ensures SkipLine(After(s, n)) == SkipLine(s) <==> '\n' !in Clip(s, n) || SkipLine(s) == ""
    decreases n
  {
    if n == 0 || s == "" {
      assert Clip(s, n) == "" && After(s, n) == s;
    } else {
      assert Clip(s, n) == [s[0]] + Clip(s[1..], n - 1);
      assert After(s, n) == After(s[1..], n - 1);
      if s[0] != '\n' {
        SkipsOwnLine(s[1..], n - 1);
      } else {
        SkipTakes(After(s, n));
      }
    }
  }

  lemma {:induction false} SkipTakes(s: string)
    ensures s != "" ==> |SkipLine(s)| < |s|
  {
    if s != "" && s[0] != '\n' {
      SkipTakes(s[1..]);
    }
  }

  /** A bad command word takes the next line with it exactly when the line ends within the length of
      the word it should have been, and something follows. */
  lemma BadWordTakesLine(s: string, word: string, kind: Kind)
    requires !(word <= s)
    ensures WordThen(s, word, kind).1 == WordAlone(s, word, kind).1
    ensures WordThen(s, word, kind).1 == SkipLine(s) <==> '\n' !in Clip(s, |word|) || SkipLine(s) == ""
  {
    SkipsOwnLine(s, |word|);
  }

  /** A pair that cannot be parsed takes the next line whenever there is one: parse_pair has skipped
      its own line, and parse_write skips again. */
  lemma BadPairTakesLine(s: string)
    requires ParsePair(s).0 == None
    ensures PairAndMark(s) == (None, false, SkipLine(ParsePair(s).1))
    ensures PairAndMark(s).2 == ParsePair(s).1 <==> ParsePair(s).1 == ""
  {
    SkipTakes(ParsePair(s).1);
  }

  /** The line behind SHO is lost. */
  lemma ShoTakesHelp()
    ensures ParseJob("SHO\nHELP\n") == [Invalid]
  {
    var s, rest := "SHO\nHELP\n", "HELP\n";
    assert s == "SHO\n" + rest && s[3] == '\n' && "SHOW"[3] == 'W';
    assert s[0] == 'S' && !("SHOW" <= s) && s[4..] == rest;
    assert "\n"[1..] == "" && SkipLine("\n") == "";
    assert "P\n"[1..] == "\n" && SkipLine("P\n") == "";
    assert "LP\n"[1..] == "P\n" && SkipLine("LP\n") == "";
    assert "ELP\n"[1..] == "LP\n" && SkipLine("ELP\n") == "";
    assert rest[1..] == "ELP\n" && SkipLine(rest) == "";
    assert Next(s) == (Invalid, "");
    assert ParseJob("") == [] && [Invalid] + [] == [Invalid];
  }
}

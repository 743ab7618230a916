/** What a wrong line of a job file costs (src/server/parser.c): for each way in which a command can be
    wrong, one invalid command, and where the job goes on. */
module JobErrors {
  import opened Constants
  import opened KvsBuckets
  import opened JobText
  import opened JobGrammar

  /** A line that ends with its newline, and what follows. */
  function Ended(l: string, rest: string): string {
    l + "\n" + rest
  }

  ghost predicate OneLine(l: string) {
    '\n' !in l
  }

  lemma OneLineSkipped(l: string, rest: string)
    requires OneLine(l)
    ensures SkipLine(Ended(l, rest)) == rest
  {
    SkipsOneLine(l, rest);
  }

  lemma HeadTail(c: char, s: string)
    ensures [c] + s != "" && ([c] + s)[0] == c && ([c] + s)[1..] == s && After([c] + s, 1) == s
  {
  }

  /** The command words that take arguments in brackets. */
  ghost predicate TakesArguments(word: string) {
    word == "WRITE " || word == "READ " || word == "DELETE "
  }

  lemma WordTaken(word: string, kind: Kind, args: string)
    requires (word == "WRITE " && kind == KWrite) || (word == "READ " && kind == KRead) ||
             (word == "DELETE " && kind == KDelete) || (word == "WAIT " && kind == KWait)
    ensures word + args != "" && GetNext(word + args) == (kind, args)
  {
    var s := word + args;
    assert s[0] == word[0] && s[1] == word[1];
    assert word <= s && s[|word|..] == args;
  }

  /** Arguments that cannot be read make one invalid command. */
  lemma WriteFails(args: string, rest: string)
    requires ParseWrite(args) == (None, rest)
    ensures ParseJob("WRITE " + args) == [Invalid] + ParseJob(rest)
  {
    WordTaken("WRITE ", KWrite, args);
  }

  lemma KeysFail(word: string, args: string, rest: string)
    requires (word == "READ " || word == "DELETE ") && ParseReadDelete(args) == (None, rest)
    ensures ParseJob(word + args) == [Invalid] + ParseJob(rest)
  {
    WordTaken(word, if word == "READ " then KRead else KDelete, args);
  }

  lemma WaitFails(args: string, rest: string)
    requires ParseWait(args) == (None, rest)
    ensures ParseJob("WAIT " + args) == [Invalid] + ParseJob(rest)
  {
    WordTaken("WAIT ", KWait, args);
  }

  /** Without an opening bracket the line behind the wrong character is lost: its own, unless that
      character is the newline. */
  lemma NoBracketTakesLine(word: string, c: char, l: string, rest: string)
    requires TakesArguments(word) && c != '[' && OneLine(l)
    ensures ParseJob(word + ([c] + Ended(l, rest))) == [Invalid] + ParseJob(rest)
  {
    var args := [c] + Ended(l, rest);
    HeadTail(c, Ended(l, rest));
    OneLineSkipped(l, rest);
    if word == "WRITE " {
      WriteFails(args, rest);
    } else {
      KeysFail(word, args, rest);
    }
  }

  lemma BehindTwo(c: char, c': char, s: string)
    ensures var t := [c] + ([c'] + s); |t| >= 2 && t[0] == c && t[1] == c' && t[2..] == s && After(t, 2) == s
  {
  }

  /** The same without an opening parenthesis behind the bracket of WRITE. */
  lemma NoParenthesisTakesLine(c: char, l: string, rest: string)
    requires c != '(' && OneLine(l)
    ensures ParseJob("WRITE " + (['['] + ([c] + Ended(l, rest)))) == [Invalid] + ParseJob(rest)
  {
    BehindTwo('[', c, Ended(l, rest));
    OneLineSkipped(l, rest);
    WriteFails(['['] + ([c] + Ended(l, rest)), rest);
  }

  // ---- Wrong pairs ----

  /** Good pairs, each with the parenthesis that opens the next one. */
  function PrintOpen(front: seq<Pair>): string {
    if front == [] then "" else PrintPair(front[0]) + ("(" + PrintOpen(front[1..]))
  }

  ghost predicate GoodPairs(front: seq<Pair>) {
    forall i :: 0 <= i < |front| ==> IsWord(front[i].key) && IsWord(front[i].value)
  }

  lemma OpenPair(p: Pair, more: string, n: nat)
    requires IsWord(p.key) && IsWord(p.value) && n + 1 < MAX_WRITE_SIZE
    ensures ParsePairs(PrintPair(p) + (['('] + more), n) == Joined([p], ParsePairs(more, n + 1))
  {
    ReadPairAndMark(p, '(', more);
  }

  lemma PrintOpenMore(front: seq<Pair>, s: string)
    requires front != []
    ensures PrintOpen(front) + s == PrintPair(front[0]) + (['('] + (PrintOpen(front[1..]) + s))
  {
  }

  lemma GoodTail(front: seq<Pair>)
    requires GoodPairs(front) && front != []
    ensures GoodPairs(front[1..]) && IsWord(front[0].key) && IsWord(front[0].value)
  {
  }

  lemma JoinedNone(done: seq<Pair>, r: (Option<seq<Pair>>, string))
    requires r.0 == None
    ensures Joined(done, r) == (None, r.1)
  {
  }

  type PairParser = (string, nat) -> (Option<seq<Pair>>, string)

  /** A parser that passes a good pair and goes on with what stands behind it. */
  ghost predicate PassesPairs(parse: PairParser) {
    forall p: Pair, more, n: nat :: IsWord(p.key) && IsWord(p.value) && n + 1 < MAX_WRITE_SIZE ==>
      parse(PrintPair(p) + (['('] + more), n) == Joined([p], parse(more, n + 1))
  }

  lemma {:induction false} PassesAll(parse: PairParser, front: seq<Pair>, s: string, n: nat)
    requires PassesPairs(parse) && GoodPairs(front) && n + |front| < MAX_WRITE_SIZE
    requires parse(s, n + |front|).0 == None
    ensures parse(PrintOpen(front) + s, n) == (None, parse(s, n + |front|).1)
    decreases |front|
  {
    if front == [] {
      assert PrintOpen(front) + s == s;
    } else {
      GoodTail(front);
      PrintOpenMore(front, s);
      PassesAll(parse, front[1..], s, n + 1);
      JoinedNone([front[0]], parse(PrintOpen(front[1..]) + s, n + 1));
    }
  }

  ghost function PairsFrom(s: string, n: nat): (Option<seq<Pair>>, string) {
    if n < MAX_WRITE_SIZE then ParsePairs(s, n) else (None, s)
  }

  lemma PairsPass()
    ensures PassesPairs(PairsFrom)
  {
    forall p: Pair, more, n: nat | IsWord(p.key) && IsWord(p.value) && n + 1 < MAX_WRITE_SIZE
      ensures PairsFrom(PrintPair(p) + (['('] + more), n) == Joined([p], PairsFrom(more, n + 1))
    {
      OpenPair(p, more, n);
    }
  }

  lemma GoodPairsRead(front: seq<Pair>, s: string, n: nat)
    requires GoodPairs(front) && n + |front| < MAX_WRITE_SIZE && ParsePairs(s, n + |front|).0 == None
    ensures ParsePairs(PrintOpen(front) + s, n) == (None, ParsePairs(s, n + |front|).1)
  {
    PairsPass();
    PassesAll(PairsFrom, front, s, n);
  }

  /** A list of pairs that goes wrong somewhere. */
  lemma BadPairs(front: seq<Pair>, bad: string, rest: string)
    requires GoodPairs(front) && |front| < MAX_WRITE_SIZE && ParsePairs(bad, |front|) == (None, rest)
    ensures ParseJob("WRITE " + (['['] + (['('] + (PrintOpen(front) + bad)))) == [Invalid] + ParseJob(rest)
  {
    GoodPairsRead(front, bad, 0);
    BehindTwo('[', '(', PrintOpen(front) + bad);
    WriteFails(['['] + (['('] + (PrintOpen(front) + bad)), rest);
  }

  /** A character that may not end a string where one of this code is due. */
  ghost predicate Misplaced(c: char, code: int) {
    (c == ' ' || Delimits(c, 0) || Delimits(c, 1) || Delimits(c, 2)) && !Delimits(c, code)
  }

  /** A word with a wrong character behind it: what is read, and what is left. */
  lemma {:induction false} ReadBadWord(w: string, c: char, code: int, rest: string, room: nat)
    requires IsWord(w) && |w| < room && Misplaced(c, code) && 0 <= code <= 2
    ensures var r := ReadString(w + [c] + rest, room); r.0 != code && r.2 == rest
  {
    var s := w + [c] + rest;
    if w == "" {
      assert s[0] == c && s[1..] == rest;
    } else {
      assert s[0] == w[0] && w[0] in w && s[1..] == w[1..] + [c] + rest;
      assert forall x :: x in w[1..] ==> x in w;
      ReadBadWord(w[1..], c, code, rest, room - 1);
    }
  }

  lemma TwoLinesSkipped(l: string, l2: string, rest: string)
    requires OneLine(l) && OneLine(l2)
    ensures SkipLine(SkipLine(Ended(l, Ended(l2, rest)))) == rest
  {
    OneLineSkipped(l, Ended(l2, rest));
    OneLineSkipped(l2, rest);
  }

  /** A WRITE with a key that ends wrongly loses its own line and the next one, however many good pairs
      stand before. */
  lemma BadKeyTakesTwoLines(front: seq<Pair>, key: string, c: char, l: string, l2: string, rest: string)
    requires GoodPairs(front) && |front| < MAX_WRITE_SIZE && IsWord(key) && Misplaced(c, 0)
    requires OneLine(l) && OneLine(l2)
    ensures ParseJob("WRITE " + (['['] + (['('] + (PrintOpen(front) + (key + [c] + Ended(l, Ended(l2, rest))))))) ==
            [Invalid] + ParseJob(rest)
  {
    var bad := key + [c] + Ended(l, Ended(l2, rest));
    ReadBadWord(key, c, 0, Ended(l, Ended(l2, rest)), MAX_STRING_SIZE);
    TwoLinesSkipped(l, l2, rest);
    assert PairAndMark(bad) == (None, false, rest);
    BadPairs(front, bad, rest);
  }

  /** So does one with a value that ends wrongly. */
  lemma BadValueTakesTwoLines(front: seq<Pair>, p: Pair, c: char, l: string, l2: string, rest: string)
    requires GoodPairs(front) && |front| < MAX_WRITE_SIZE && IsWord(p.key) && IsWord(p.value) && Misplaced(c, 1)
    requires OneLine(l) && OneLine(l2)
    ensures var bad := p.key + [','] + (p.value + [c] + Ended(l, Ended(l2, rest)));
            ParseJob("WRITE " + (['['] + (['('] + (PrintOpen(front) + bad)))) == [Invalid] + ParseJob(rest)
  {
    var behind := p.value + [c] + Ended(l, Ended(l2, rest));
    var bad := p.key + [','] + behind;
    ReadWord(p.key, ',', 0, behind, MAX_STRING_SIZE);
    ReadBadWord(p.value, c, 1, Ended(l, Ended(l2, rest)), MAX_STRING_SIZE);
    TwoLinesSkipped(l, l2, rest);
    assert PairAndMark(bad) == (None, false, rest);
    BadPairs(front, bad, rest);
  }

  /** A wrong character behind a pair loses the line behind that character: its own, unless the
      character is the newline. */
  lemma BadMarkTakesLine(front: seq<Pair>, p: Pair, c: char, l: string, rest: string)
    requires GoodPairs(front) && |front| < MAX_WRITE_SIZE && IsWord(p.key) && IsWord(p.value)
    requires c != '(' && c != ']' && OneLine(l)
    ensures ParseJob("WRITE " + (['['] + (['('] + (PrintOpen(front) + (PrintPair(p) + ([c] + Ended(l, rest))))))) ==
            [Invalid] + ParseJob(rest)
  {
    var bad := PrintPair(p) + ([c] + Ended(l, rest));
    ReadPair(p, [c] + Ended(l, rest));
    HeadTail(c, Ended(l, rest));
    OneLineSkipped(l, rest);
    assert PairAndMark(bad) == (None, false, rest);
    BadPairs(front, bad, rest);
  }

  /** 256 pairs are too many, and lose their own line only. */
  lemma TooManyPairsTakeLine(front: seq<Pair>, p: Pair, mark: char, l: string, rest: string)
    requires GoodPairs(front) && |front| == MAX_WRITE_SIZE - 1 && IsWord(p.key) && IsWord(p.value)
    requires (mark == '(' || mark == ']') && OneLine(l)
    ensures ParseJob("WRITE " + (['['] + (['('] + (PrintOpen(front) + (PrintPair(p) + ([mark] + Ended(l, rest))))))) ==
            [Invalid] + ParseJob(rest)
  {
    var bad := PrintPair(p) + ([mark] + Ended(l, rest));
    ReadPairAndMark(p, mark, Ended(l, rest));
    OneLineSkipped(l, rest);
    BadPairs(front, bad, rest);
  }

  // ---- Wrong keys ----

  /** Good keys, each with its comma. */
  function PrintOpenKeys(front: seq<string>): string {
    if front == [] then "" else front[0] + [','] + PrintOpenKeys(front[1..])
  }

  ghost predicate GoodKeys(front: seq<string>) {
    forall i :: 0 <= i < |front| ==> IsWord(front[i])
  }

  lemma {:induction false} GoodKeysRead(front: seq<string>, s: string, n: nat)
    requires GoodKeys(front) && n + |front| < MAX_WRITE_SIZE && ParseKeys(s, n + |front|).0 == None
    ensures ParseKeys(PrintOpenKeys(front) + s, n) == (None, ParseKeys(s, n + |front|).1)
    decreases |front|
  {
    if front == [] {
      assert PrintOpenKeys(front) + s == s;
    } else {
      var more := PrintOpenKeys(front[1..]) + s;
      assert PrintOpenKeys(front) + s == front[0] + [','] + more;
      ReadWord(front[0], ',', 0, more, MAX_STRING_SIZE);
      GoodKeysRead(front[1..], s, n + 1);
    }
  }

  lemma BadKeys(word: string, front: seq<string>, bad: string, rest: string)
    requires (word == "READ " || word == "DELETE ") && GoodKeys(front) && |front| < MAX_WRITE_SIZE
    requires ParseKeys(bad, |front|) == (None, rest)
    ensures ParseJob(word + (['['] + (PrintOpenKeys(front) + bad))) == [Invalid] + ParseJob(rest)
  {
    GoodKeysRead(front, bad, 0);
    HeadTail('[', PrintOpenKeys(front) + bad);
    KeysFail(word, ['['] + (PrintOpenKeys(front) + bad), rest);
  }

  /** A READ or DELETE with a key that ends wrongly loses its own line only. */
  lemma BadReadTakesLine(word: string, front: seq<string>, key: string, c: char, l: string, rest: string)
    requires (word == "READ " || word == "DELETE ") && GoodKeys(front) && |front| < MAX_WRITE_SIZE
    requires IsWord(key) && (c == ' ' || c == ')') && OneLine(l)
    ensures ParseJob(word + (['['] + (PrintOpenKeys(front) + (key + [c] + Ended(l, rest))))) ==
            [Invalid] + ParseJob(rest)
  {
    var bad := key + [c] + Ended(l, rest);
    ReadBadWord(key, c, 0, Ended(l, rest), MAX_STRING_SIZE);
    ReadBadWord(key, c, 2, Ended(l, rest), MAX_STRING_SIZE);
    OneLineSkipped(l, rest);
    BadKeys(word, front, bad, rest);
  }

  /** 256 keys are too many, and lose their own line only. */
  lemma TooManyKeysTakeLine(word: string, front: seq<string>, key: string, c: char, l: string, rest: string)
    requires (word == "READ " || word == "DELETE ") && GoodKeys(front) && |front| == MAX_WRITE_SIZE - 1
    requires IsWord(key) && (c == ',' || c == ']') && OneLine(l)
    ensures ParseJob(word + (['['] + (PrintOpenKeys(front) + (key + [c] + Ended(l, rest))))) ==
            [Invalid] + ParseJob(rest)
  {
    var bad := key + [c] + Ended(l, rest);
    ReadWord(key, c, if c == ',' then 0 else 2, Ended(l, rest), MAX_STRING_SIZE);
    OneLineSkipped(l, rest);
    BadKeys(word, front, bad, rest);
  }

  // ---- Something behind the arguments ----

  /** Anything but a newline behind the closing bracket of WRITE loses its own line. */
  lemma JunkBehindPairs(pairs: seq<Pair>, c: char, l: string, rest: string)
    requires Printable(Write(pairs)) && c != '\n' && c != '\0' && OneLine(l)
    ensures ParseJob("WRITE " + (['['] + (['('] + (PrintPairs(pairs) + ([c] + Ended(l, rest)))))) ==
            [Invalid] + ParseJob(rest)
  {
    var args := PrintPairs(pairs) + ([c] + Ended(l, rest));
    ReadPairs(pairs, [c] + Ended(l, rest), 0);
    BehindTwo('[', '(', args);
    HeadTail(c, Ended(l, rest));
    OneLineSkipped(l, rest);
    WriteFails(['['] + (['('] + args), rest);
  }

  /** The same for READ and DELETE. */
  lemma JunkBehindKeys(word: string, keys: seq<string>, c: char, l: string, rest: string)
    requires (word == "READ " || word == "DELETE ") && Printable(Read(keys)) && c != '\n' && c != '\0' && OneLine(l)
    ensures ParseJob(word + (['['] + (PrintKeys(keys) + ([c] + Ended(l, rest))))) == [Invalid] + ParseJob(rest)
  {
    var args := PrintKeys(keys) + ([c] + Ended(l, rest));
    ReadKeys(keys, [c] + Ended(l, rest), 0);
    HeadTail('[', args);
    HeadTail(c, Ended(l, rest));
    OneLineSkipped(l, rest);
    KeysFail(word, ['['] + args, rest);
  }

  lemma WordNotAlone(word: string, kind: Kind, c: char, tail: string)
    requires c != '\n'
    ensures WordAlone(word + ([c] + tail), word, kind) == (KInvalid, SkipLine(tail))
  {
    var s := word + ([c] + tail);
    assert word <= s && s[|word|] == c && s[|word| + 1..] == tail;
  }

  lemma InvalidNext(s: string, rest: string)
    requires s != "" && GetNext(s) == (KInvalid, rest)
    ensures ParseJob(s) == [Invalid] + ParseJob(rest)
  {
  }

  /** The same for the commands that stand alone. */
  lemma JunkBehindWord(word: string, c: char, l: string, rest: string)
    requires (word == "SHOW" || word == "BACKUP" || word == "HELP") && c != '\n' && OneLine(l)
    ensures ParseJob(word + ([c] + Ended(l, rest))) == [Invalid] + ParseJob(rest)
  {
    var s := word + ([c] + Ended(l, rest));
    var kind := if word == "SHOW" then KShow else if word == "BACKUP" then KBackup else KHelp;
    assert s[0] == word[0];
    OneLineSkipped(l, rest);
    WordNotAlone(word, kind, c, Ended(l, rest));
    AloneWord(s, word, kind);
    InvalidNext(s, rest);
  }

  // ---- Wrong numbers ----

  ghost predicate AllDigits(d: string) {
    forall i :: 0 <= i < |d| ==> IsDigit(d[i])
  }

  /** A number above UINT_MAX loses the line behind the character that ends it: its own, unless that is
      the newline. */
  lemma LargeNumberTakesLine(d: string, c: char, l: string, rest: string)
    requires AllDigits(d) && Decimal(d) > UINT_MAX && !IsDigit(c) && OneLine(l)
    ensures ParseJob("WAIT " + (d + ([c] + Ended(l, rest)))) == [Invalid] + ParseJob(rest)
  {
    var args := d + ([c] + Ended(l, rest));
    DigitsThen(d, [c] + Ended(l, rest));
    assert args[|d|] == c && After(args, |d| + 1) == Ended(l, rest);
    OneLineSkipped(l, rest);
    WaitFails(args, rest);
  }

  /** A number that something else than a space or a newline ends loses its own line. */
  lemma JunkBehindNumber(d: string, c: char, l: string, rest: string)
    requires AllDigits(d) && !IsDigit(c) && c != ' ' && c != '\n' && c != '\0' && OneLine(l)
    ensures ParseJob("WAIT " + (d + ([c] + Ended(l, rest)))) == [Invalid] + ParseJob(rest)
  {
    var args := d + ([c] + Ended(l, rest));
    DigitsThen(d, [c] + Ended(l, rest));
    assert args[|d|] == c && After(args, |d| + 1) == Ended(l, rest);
    OneLineSkipped(l, rest);
    WaitFails(args, rest);
  }
}

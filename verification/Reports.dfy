/** What READ and DELETE print (src/server/operations.c): bracketed pairs of which each is cut to 39
    bytes, and what a reader of the text gets back from it. */
module Reports {
  import opened Constants
  import opened Sequences
  import opened CStrings
  import opened KvsBuckets
  import opened Formatting
  import opened Batches
  import JobText

  /** One pair, as snprintf leaves it in 40 bytes. */
  function Item(p: Pair): string {
    Clip("(" + p.key + "," + p.value + ")", MAX_STRING_SIZE - 1)
  }

  function Items(l: seq<Pair>): string {
    if l == [] then "" else Items(l[..|l| - 1]) + Item(l[|l| - 1])
  }

  function Bracketed(items: string): string {
    "[" + items + "]\n"
  }

  lemma ItemsLast(l: seq<Pair>, p: Pair)
    ensures Items(l + [p]) == Items(l) + Item(p)
  {
    assert (l + [p])[..|l|] == l;
  }

  lemma ItemsOfOne(p: Pair)
    requires |p.key| + |p.value| + 3 < MAX_STRING_SIZE
    ensures Items([p]) == "(" + p.key + "," + p.value + ")"
  {
    assert [p][..0] == [];
    assert Items([p]) == "" + Item(p) == Item(p);
  }

  // ---- Reading the text back ----

  /** No pair is cut. */
  ghost predicate Fit(l: seq<Pair>) {
    forall i :: 0 <= i < |l| ==> |l[i].key| + |l[i].value| + 3 < MAX_STRING_SIZE
  }

  /** Keys and values are words of the job language. */
  ghost predicate Words(l: seq<Pair>) {
    forall i :: 0 <= i < |l| ==> JobText.IsWord(l[i].key) && JobText.IsWord(l[i].value)
  }

  lemma {:induction false} ItemsFirst(p: Pair, l: seq<Pair>)
    ensures Items([p] + l) == Item(p) + Items(l)
  {
    if l == [] {
      assert [p] + l == [p] && [p][..0] == [];
      assert "" + Item(p) == Item(p) == Item(p) + "";
    } else {
      var n := |l| - 1;
      ItemsFirst(p, l[..n]);
      assert ([p] + l)[..|[p] + l| - 1] == [p] + l[..n];
      Assoc(Item(p), Items(l[..n]), Item(l[n]));
    }
  }

  lemma WholeItem(p: Pair)
    requires |p.key| + |p.value| + 3 < MAX_STRING_SIZE
    ensures Item(p) == "(" + JobText.PrintPair(p)
  {
    var text := "(" + p.key + "," + p.value + ")";
    assert text == "(" + JobText.PrintPair(p);
  }

  /** Pairs that fit are printed like the arguments of WRITE. */
  lemma {:induction false} FitIsPrinted(l: seq<Pair>)
    requires l != [] && Fit(l)
    ensures Items(l) + "]" == "(" + JobText.PrintPairs(l)
  {
    var p, more := l[0], l[1..];
    var printed := JobText.PrintPair(p);
    ItemsFirst(p, more);
    assert l == [p] + more;
    WholeItem(p);
    if more == [] {
      assert Items(l) == Item(p);
      Assoc("(", printed, "]");
    } else {
      FitIsPrinted(more);
      Assoc(Item(p), Items(more), "]");
      Assoc("(", printed, "(" + JobText.PrintPairs(more));
    }
  }

  lemma SameText(items: string, printed: string)
    requires items + "]" == "(" + printed
    ensures Bracketed(items) == "[(" + printed + ("\n" + "")
  {
    assert "[" + items + "]\n" == "[" + (items + "]") + "\n";
    assert "[" + ("(" + printed) + "\n" == "[(" + printed + ("\n" + "");
  }

  lemma WordsPrint(l: seq<Pair>)
    requires 0 < |l| < MAX_WRITE_SIZE && Words(l)
    ensures JobText.Printable(JobText.Write(l))
  {
  }

  lemma FitIsParsed(l: seq<Pair>)
    requires 0 < |l| < MAX_WRITE_SIZE && Words(l) && Fit(l)
    ensures JobText.ParseWrite(Bracketed(Items(l))) == (Some(l), "")
  {
    FitIsPrinted(l);
    SameText(Items(l), JobText.PrintPairs(l));
    WordsPrint(l);
    JobText.PairsFound(l, "");
  }

  /** A list of arguments takes at least the bytes of its print. */
  lemma {:induction false} ReadStringTakes(s: string, room: nat)
    ensures var (code, text, rest) := JobText.ReadString(s, room);
            code >= 0 ==> |s| == |text| + 1 + |rest|
  {
    if room > 0 && s != "" {
      ReadStringTakes(s[1..], room - 1);
    }
  }

  lemma PairTakes(s: string)
    ensures var (pair, last, rest) := JobText.PairAndMark(s);
            pair.Some? ==> |s| >= |JobText.PrintPair(pair.value)| + 1 + |rest|
  {
    ReadStringTakes(s, MAX_STRING_SIZE);
    ReadStringTakes(JobText.ReadString(s, MAX_STRING_SIZE).2, MAX_STRING_SIZE);
  }

  ghost predicate TakesPairs(s: string, r: (Option<seq<Pair>>, string)) {
    r.0.Some? ==> r.0.value != [] && |s| >= |JobText.PrintPairs(r.0.value)| + |r.1|
  }

  lemma MorePairsTake(s: string, p: Pair, rest: string, r: (Option<seq<Pair>>, string))
    requires |s| >= |JobText.PrintPair(p)| + 1 + |rest| && TakesPairs(rest, r)
    ensures TakesPairs(s, JobText.Joined([p], r))
    ensures TakesPairs(s, (Some([p]), rest))
  {
    if r.0.Some? {
      assert ([p] + r.0.value)[1..] == r.0.value;
    }
  }

  lemma {:induction false} PairsTake(s: string, n: nat)
    requires n < MAX_WRITE_SIZE
    ensures TakesPairs(s, JobText.ParsePairs(s, n))
    decreases MAX_WRITE_SIZE - n
  {
    var (pair, last, rest) := JobText.PairAndMark(s);
    PairTakes(s);
    if pair.Some? && n + 1 < MAX_WRITE_SIZE {
      PairsTake(rest, n + 1);
      MorePairsTake(s, pair.value, rest, JobText.ParsePairs(rest, n + 1));
    }
  }

  lemma ParsedTakes(s: string)
    ensures var (pairs, rest) := JobText.ParseWrite(s);
            pairs.Some? ==> pairs.value != [] && |s| >= 3 + |JobText.PrintPairs(pairs.value)| + |rest|
  {
    if |s| >= 2 {
      PairsTake(s[2..], 0);
    }
  }

  lemma {:induction false} CutIsShorter(l: seq<Pair>)
    requires l != []
    ensures |Items(l)| <= |JobText.PrintPairs(l)|
    ensures !Fit(l) ==> |Items(l)| < |JobText.PrintPairs(l)|
  {
    var p, more := l[0], l[1..];
    ItemsFirst(p, more);
    assert l == [p] + more;
    if more != [] {
      CutIsShorter(more);
      assert Fit(more) && |p.key| + |p.value| + 3 < MAX_STRING_SIZE ==> Fit(l);
    }
  }

  /** A reader with the syntax of WRITE gets back all the pairs of the text, and nothing else, exactly
      when none of them is cut. */
  lemma ReadBackExactly(l: seq<Pair>)
    requires 0 < |l| < MAX_WRITE_SIZE && Words(l)
    ensures JobText.ParseWrite(Bracketed(Items(l))) == (Some(l), "") <==> Fit(l)
  {
    if Fit(l) {
      FitIsParsed(l);
    } else {
      CutIsShorter(l);
      ParsedTakes(Bracketed(Items(l)));
    }
  }

  // ---- The answer of READ ----

  /** What one key is answered with. */
  function Answer(key: string, result: Option<string>): Pair {
    Pair(key, if result == None then "KVSERROR" else result.value)
  }

  /** Each key with its value in the map, or with KVSERROR. */
  ghost predicate IsReply(m: Store, keys: seq<string>, pairs: seq<Pair>) {
    && |pairs| == |keys|
    && forall i :: 0 <= i < |keys| ==> pairs[i] == Pair(keys[i], if keys[i] in m then m[keys[i]] else "KVSERROR")
  }

  /** The text tells a reader these pairs. */
  ghost predicate Tells(text: string, pairs: seq<Pair>) {
    && text == Bracketed(Items(pairs))
    && (0 < |pairs| < MAX_WRITE_SIZE && Words(pairs) ==>
          (JobText.ParseWrite(text) == (Some(pairs), "") <==> Fit(pairs)))
  }

  lemma OneMoreReply(m: Store, keys: seq<string>, i: nat, pairs: seq<Pair>)
    requires i < |keys| && IsReply(m, keys[..i], pairs)
    ensures IsReply(m, keys[..i + 1], pairs + [Answer(keys[i], Lookup(m, keys[i]))])
  {
  }

  ghost predicate Answered(m: Store, keys: seq<string>, text: string) {
    exists pairs :: IsReply(m, keys, pairs) && Tells(text, pairs)
  }

  lemma Telling(pairs: seq<Pair>)
    ensures Tells(Bracketed(Items(pairs)), pairs)
  {
    if 0 < |pairs| < MAX_WRITE_SIZE && Words(pairs) {
      ReadBackExactly(pairs);
    }
  }

  // ---- The report of DELETE ----

  /** A key is missing in its turn when the store does not hold it, or it stands earlier in the batch. */
  ghost predicate IsMissing(m: Store, keys: seq<string>, i: nat) {
    i < |keys| && (keys[i] !in m || keys[i] in keys[..i])
  }

  /** The places of those keys. */
  ghost function Missing(m: Store, keys: seq<string>): nat -> bool {
    (i: nat) => IsMissing(m, keys, i)
  }

  /** These are the reports for the keys at some places. */
  ghost predicate MissingAt(pairs: seq<Pair>, keys: seq<string>, at: seq<int>) {
    && |at| == |pairs|
    && forall j :: 0 <= j < |at| ==> 0 <= at[j] < |keys| && pairs[j] == Pair(keys[at[j]], "KVSMISSING")
  }

  /** Exactly the keys that are missing in their turn are reported, in order. */
  ghost predicate IsReport(m: Store, keys: seq<string>, n: nat, pairs: seq<Pair>) {
    exists at :: Picks(at, n, Missing(m, keys)) && MissingAt(pairs, keys, at)
  }

  /** The missing keys of a delete batch, as each is found missing in turn. */
  ghost function MissingPairs(m: Store, keys: seq<string>, n: nat): seq<Pair>
    requires n <= |keys|
  {
    if n == 0 then []
    else MissingPairs(m, keys, n - 1) +
         if keys[n - 1] in After(m, DeleteBatch(keys), n - 1) then [] else [Pair(keys[n - 1], "KVSMISSING")]
  }

  lemma MissingInTurn(m: Store, keys: seq<string>, n: nat)
    requires n < |keys|
    ensures MissingPairs(m, keys, n + 1) ==
            MissingPairs(m, keys, n) + if Missing(m, keys)(n) then [Pair(keys[n], "KVSMISSING")] else []
  {
    DeletedOnce(m, DeleteBatch(keys), n, keys[n]);
  }

  lemma MissingAtOneMore(pairs: seq<Pair>, keys: seq<string>, at: seq<int>, n: nat)
    requires n < |keys| && MissingAt(pairs, keys, at)
    ensures MissingAt(pairs + [Pair(keys[n], "KVSMISSING")], keys, at + [n])
  {
  }

  lemma {:induction false} MissingReported(m: Store, keys: seq<string>, n: nat)
    requires n <= |keys|
    ensures MissingAt(MissingPairs(m, keys, n), keys, Places(n, Missing(m, keys)))
  {
    if n > 0 {
      var pairs, at := MissingPairs(m, keys, n - 1), Places(n - 1, Missing(m, keys));
      MissingReported(m, keys, n - 1);
      MissingInTurn(m, keys, n - 1);
      MissingAtOneMore(pairs, keys, at, n - 1);
      assert pairs + [] == pairs && at + [] == at;
    }
  }

  lemma MissingIsReport(m: Store, keys: seq<string>, n: nat)
    requires n <= |keys|
    ensures IsReport(m, keys, n, MissingPairs(m, keys, n))
  {
    PlacesArePicked(n, Missing(m, keys));
    MissingReported(m, keys, n);
  }

  /** Nothing is printed exactly when no key was missing. */
  ghost predicate Reported(m: Store, keys: seq<string>, text: string) {
    exists pairs :: IsReport(m, keys, |keys|, pairs) && if pairs == [] then text == "" else Tells(text, pairs)
  }

  // ---- The lines of SHOW ----

  /** What stands before the first c, and what stands from there on. */
  function Before(s: string, c: char): (r: (string, string))
    ensures |r.0| + |r.1| == |s|
  {
    if s == "" || s[0] == c then ("", s)
    else
      var (front, rest) := Before(s[1..], c);
      ([s[0]] + front, rest)
  }

  lemma {:induction false} BeforeFirst(front: string, c: char, rest: string)
    requires c !in front && rest != "" && rest[0] == c
    ensures Before(front + rest, c) == (front, rest)
  {
    if front == "" {
      assert front + rest == rest;
    } else {
      assert front[0] in front && (front + rest)[1..] == front[1..] + rest;
      BeforeFirst(front[1..], c, rest);
      assert [front[0]] + front[1..] == front;
    }
  }

  /** A line that is split at its comma and its closing parenthesis, and what stands behind it. */
  function ReadLine(s: string): (r: (Option<Pair>, string))
    ensures r.0.Some? ==> |s| == |r.0.value.key| + |r.0.value.value| + 5 + |r.1|
  {
    if s == "" || s[0] != '(' then (None, "")
    else
      var (key, rest) := Before(s[1..], ',');
      if !(", " <= rest) then (None, "")
      else
        var (value, end) := Before(rest[2..], ')');
        if !(")\n" <= end) then (None, "") else (Some(Pair(key, value)), end[2..])
  }

  /** A reader of the whole text. */
  function ReadShow(s: string): Option<seq<Pair>>
    decreases |s|
  {
    if s == "" then Some([])
    else
      var (p, rest) := ReadLine(s);
      if p == None then None
      else
        var more := ReadShow(rest);
        if more == None then None else Some([p.value] + more.value)
  }

  /** No line is cut. */
  ghost predicate FitLines(l: seq<Pair>) {
    forall i :: 0 <= i < |l| ==> |l[i].key| + |l[i].value| + 5 < MAX_STRING_SIZE
  }

  /** Nothing in the pairs looks like their separators. */
  ghost predicate Separable(l: seq<Pair>) {
    forall i :: 0 <= i < |l| ==> ',' !in l[i].key && ')' !in l[i].value
  }

  lemma ShowLineReads(p: Pair, rest: string)
    requires ',' !in p.key && ')' !in p.value && |p.key| + |p.value| + 5 < MAX_STRING_SIZE
    ensures ShowLine(p) + rest != "" && ReadLine(ShowLine(p) + rest) == (Some(p), rest)
  {
    var s, end := ShowLine(p) + rest, ")\n" + rest;
    var middle := ", " + (p.value + end);
    assert s == "(" + (p.key + middle);
    assert s[1..] == p.key + middle && middle[2..] == p.value + end && end[2..] == rest;
    BeforeFirst(p.key, ',', middle);
    BeforeFirst(p.value, ')', end);
  }

  lemma {:induction false} ShowFirst(p: Pair, l: seq<Pair>)
    ensures ShowText([p] + l) == ShowLine(p) + ShowText(l)
  {
    if l == [] {
      assert [p] + l == [p] && [p][..0] == [];
      assert "" + ShowLine(p) == ShowLine(p) == ShowLine(p) + "";
    } else {
      var n := |l| - 1;
      ShowFirst(p, l[..n]);
      assert ([p] + l)[..|[p] + l| - 1] == [p] + l[..n];
      Assoc(ShowLine(p), ShowText(l[..n]), ShowLine(l[n]));
    }
  }

  lemma {:induction false} FitLinesRead(l: seq<Pair>)
    requires Separable(l) && FitLines(l)
    ensures ReadShow(ShowText(l)) == Some(l)
  {
    if l != [] {
      var p, more := l[0], l[1..];
      assert l == [p] + more;
      ShowFirst(p, more);
      ShowLineReads(p, ShowText(more));
      FitLinesRead(more);
    }
  }

  /** The bytes of the lines of some pairs, when none is cut. */
  ghost function LinesSize(l: seq<Pair>): nat {
    if l == [] then 0 else |l[0].key| + |l[0].value| + 5 + LinesSize(l[1..])
  }

  lemma {:induction false} ReadSize(s: string)
    ensures ReadShow(s).Some? ==> LinesSize(ReadShow(s).value) == |s|
    decreases |s|
  {
    if s != "" && ReadLine(s).0.Some? {
      ReadSize(ReadLine(s).1);
      var more := ReadShow(ReadLine(s).1);
      if more.Some? {
        assert ([ReadLine(s).0.value] + more.value)[1..] == more.value;
      }
    }
  }

  lemma {:induction false} CutLinesAreShorter(l: seq<Pair>)
    ensures |ShowText(l)| <= LinesSize(l)
    ensures !FitLines(l) ==> |ShowText(l)| < LinesSize(l)
  {
    if l != [] {
      var p, more := l[0], l[1..];
      assert l == [p] + more;
      ShowFirst(p, more);
      CutLinesAreShorter(more);
      assert FitLines(more) && |p.key| + |p.value| + 5 < MAX_STRING_SIZE ==> FitLines(l);
    }
  }

  /** A reader of the text of SHOW gets back its pairs, in order and with nothing else, exactly when
      no line is cut. */
  lemma ShowReadsBackExactly(l: seq<Pair>)
    requires Separable(l)
    ensures ReadShow(ShowText(l)) == Some(l) <==> FitLines(l)
  {
    if FitLines(l) {
      FitLinesRead(l);
    } else {
      CutLinesAreShorter(l);
      ReadSize(ShowText(l));
    }
  }

  /** A text of these pairs, which a reader gets back exactly when no line is cut. */
  ghost predicate LinesOf(text: string, l: seq<Pair>) {
    text == ShowText(l) && (Separable(l) ==> (ReadShow(text) == Some(l) <==> FitLines(l)))
  }

  lemma PrintedLines(l: seq<Pair>)
    ensures LinesOf(ShowText(l), l)
  {
    if Separable(l) {
      ShowReadsBackExactly(l);
    }
  }
}

/** The leaderboard of gameapp.py: the text of leaderboard.txt, one
    "Score: <n>" record appended per ended session, and the displayed view,
    which parses every non-blank line, sorts the scores in descending order
    and keeps the first five. A missing file is `None`. */
module Leaderboard {
  import opened Wrappers

  /** Why reading the board raises in the source: a non-blank line without a
      ": " separator (IndexError) or a field int() rejects (ValueError). */
  datatype BoardError = MissingField(line: string) | NotAnInteger(field: string)

  /** The number of records the view shows. */
  const ViewSize: nat := 5

  // ---------------------------------------------------------------------------
  // Lines of the file

  /** Length of the first line of t, its '\n' included when it has one. */
  function LineLength(t: string): (k: nat)
    requires t != []
    ensures 1 <= k <= |t|
    ensures k < |t| ==> t[k - 1] == '\n'
  {
    if t[0] == '\n' || |t| == 1 then 1 else 1 + LineLength(t[1..])
  }

  /** The first line ends at the first '\n'. */
  lemma {:induction false} LineLengthIsFirstNewline(t: string)
    requires t != []
    ensures forall i :: 0 <= i < LineLength(t) - 1 ==> t[i] != '\n'
  {
    if !(t[0] == '\n' || |t| == 1) {
      LineLengthIsFirstNewline(t[1..]);
      forall i | 0 <= i < LineLength(t) - 1 ensures t[i] != '\n' {
        if i > 0 { assert t[i] == t[1..][i - 1]; }
      }
    }
  }

  /** The lines readlines() returns: each ends in '\n' except perhaps the
      last, and together they are the whole text. */
  function SplitLines(t: string): seq<string>
    decreases |t|
  {
    if t == [] then [] else [t[..LineLength(t)]] + SplitLines(t[LineLength(t)..])
  }

  /** Together the lines are the whole text. */
  lemma {:induction false} SplitLinesJoin(t: string)
    ensures Concat(SplitLines(t)) == t
    decreases |t|
  {
    if t != [] {
      var k := LineLength(t);
      SplitLinesJoin(t[k..]);
      ConcatCons(t[..k], SplitLines(t[k..]));
      assert t == t[..k] + t[k..];
    }
  }

  lemma ConcatCons(x: string, rest: seq<string>)
    ensures Concat([x] + rest) == x + Concat(rest)
  {
    assert ([x] + rest)[0] == x && ([x] + rest)[1..] == rest;
  }

  /** No line is empty, every line but the last ends in '\n', and no line
      holds a '\n' before its last character: the text is cut exactly after
      each '\n'. */
  lemma {:induction false} SplitLinesShape(t: string)
    ensures forall i :: 0 <= i < |SplitLines(t)| ==> SplitLines(t)[i] != []
    ensures forall i :: 0 <= i < |SplitLines(t)| - 1 ==> EndsWithNewline(SplitLines(t)[i])
    ensures forall i, j :: 0 <= i < |SplitLines(t)| && 0 <= j < |SplitLines(t)[i]| - 1 ==> SplitLines(t)[i][j] != '\n'
    decreases |t|
  {
    if t != [] {
      var k := LineLength(t);
      var rest := SplitLines(t[k..]);
      SplitLinesShape(t[k..]);
      LineLengthIsFirstNewline(t);
      var lines := [t[..k]] + rest;
      forall i | 0 <= i < |lines|
        ensures lines[i] != [] && (i < |lines| - 1 ==> EndsWithNewline(lines[i]))
        ensures forall j :: 0 <= j < |lines[i]| - 1 ==> lines[i][j] != '\n'
      {
        assert lines[0] == t[..k];
        if i > 0 {
          assert lines[i] == rest[i - 1];
        } else {
          if |lines| > 1 {
            assert t[k..] != [];
            assert lines[0][k - 1] == t[k - 1];
          }
          forall j | 0 <= j < k - 1 ensures lines[0][j] != '\n' {
            assert lines[0][j] == t[j];
          }
        }
      }
    }
  }

  function Concat(lines: seq<string>): string {
    if lines == [] then [] else lines[0] + Concat(lines[1..])
  }

  predicate EndsWithNewline(s: string) {
    s != [] && s[|s| - 1] == '\n'
  }

  /** The lines of the store; a missing file reads as no lines. */
  function Lines(store: Option<string>): seq<string> {
    match store
    case None => []
    case Some(t) => SplitLines(t)
  }

  // ---------------------------------------------------------------------------
  // Python's str.strip(), str.split(": ")[1] and int()

  /** str.isspace() of one character. */
  predicate IsSpace(c: char) {
    var n := c as int;
    (9 <= n <= 13) || (28 <= n <= 32) || n == 133 || n == 160 || n == 5760 ||
    (8192 <= n <= 8202) || n == 8232 || n == 8233 || n == 8239 || n == 8287 || n == 12288
  }

  /** The two notions of surrounding whitespace the leaderboard meets:
      str.strip() removes every str.isspace() character, while int() skips
      the ASCII whitespace " \t\n\v\f\r" and the non-ASCII isspace()
      characters, but not the separators U+001C to U+001F. */
  datatype Blanks = StrBlanks | IntBlanks

  predicate IsBlank(b: Blanks, c: char) {
    IsSpace(c) && (b == IntBlanks ==> !(28 <= c as int <= 31))
  }

  function TrimStart(b: Blanks, s: string): (r: string)
    ensures |r| <= |s| && r == s[|s| - |r|..]
    ensures forall i :: 0 <= i < |s| - |r| ==> IsBlank(b, s[i])
    ensures r == [] || !IsBlank(b, r[0])
  {
    if s != [] && IsBlank(b, s[0]) then TrimStart(b, s[1..]) else s
  }

  function TrimEnd(b: Blanks, s: string): (r: string)
    ensures |r| <= |s| && r == s[..|r|]
    ensures forall i :: |r| <= i < |s| ==> IsBlank(b, s[i])
    ensures r == [] || !IsBlank(b, r[|r| - 1])
  {
    if s != [] && IsBlank(b, s[|s| - 1]) then TrimEnd(b, s[..|s| - 1]) else s
  }

  /** Leading and trailing blanks of the given kind removed; StrBlanks gives str.strip(). */
  function Strip(b: Blanks, s: string): string {
    TrimStart(b, TrimEnd(b, s))
  }

  /** A ": " separator starts at index j of s. */
  predicate SeparatorAt(s: string, j: int) {
    0 <= j && j + 1 < |s| && s[j] == ':' && s[j + 1] == ' '
  }

  /** Index of the first ": " at or after index i of s. */
  function FindSeparator(s: string, i: nat): (r: Option<nat>)
    requires i <= |s|
    ensures r.Some? ==> i <= r.value && SeparatorAt(s, r.value)
    ensures r.Some? ==> forall j :: i <= j < r.value ==> !SeparatorAt(s, j)
    ensures r.None? ==> forall j :: i <= j ==> !SeparatorAt(s, j)
    decreases |s| - i
  {
    if i + 1 >= |s| then None
    else if SeparatorAt(s, i) then Some(i)
    else FindSeparator(s, i + 1)
  }

  /** s.split(": ")[1]: the text between the first and the second ": ", or
      after the first when there is no second; None when there is no ": ". */
  function SecondField(s: string): (r: Option<string>)
    ensures r.Some? <==> exists j :: SeparatorAt(s, j)
    ensures r.Some? ==> forall k :: 0 <= k < |r.value| ==> !SeparatorAt(r.value, k)
  {
    match FindSeparator(s, 0)
    case None => None
    case Some(i) =>
      match FindSeparator(s, i + 2)
      case None =>
        NoSeparatorInSlice(s, i + 2, |s|);
        assert s[i + 2..] == s[i + 2..|s|];
        Some(s[i + 2..])
      case Some(j) =>
        NoSeparatorInSlice(s, i + 2, j);
        Some(s[i + 2..j])
  }

  /** A slice of s without a ": " start holds no ": " itself. */
  lemma NoSeparatorInSlice(s: string, a: nat, b: nat)
    requires a <= b <= |s|
    requires forall j :: a <= j < b ==> !SeparatorAt(s, j)
    ensures forall k :: 0 <= k < b - a ==> !SeparatorAt(s[a..b], k)
  {
    forall k | 0 <= k < b - a && SeparatorAt(s[a..b], k) ensures false {
      assert SeparatorAt(s, a + k);
    }
  }

  predicate IsDigit(c: char) {
    '0' <= c <= '9'
  }

  /** The decimal literals int() accepts after its sign: digits, with single
      underscores allowed between two digits. */
  predicate IsDigitString(s: string) {
    s != [] && IsDigit(s[0]) && IsDigit(s[|s| - 1]) &&
    (forall i :: 0 <= i < |s| ==> IsDigit(s[i]) || s[i] == '_') &&
    (forall i :: 0 <= i < |s| ==> !DoubleUnderscoreAt(s, i))
  }

  predicate DoubleUnderscoreAt(s: string, i: int) {
    0 <= i && i + 1 < |s| && s[i] == '_' && s[i + 1] == '_'
  }

  /** The value of a digit string, underscores skipped. */
  function DigitsValue(s: string): (v: nat) {
    if s == [] then 0
    else if IsDigit(s[|s| - 1]) then 10 * DigitsValue(s[..|s| - 1]) + (s[|s| - 1] as int - '0' as int)
    else DigitsValue(s[..|s| - 1])
  }

  /** int(s) for a base-10 string of ASCII digits; None where int() rejects
      the text. The limit on the number of digits int() converts is not
      modelled. */
  function ParseInt(s: string): Option<int> {
    var t := Strip(IntBlanks, s);
    if t != [] && (t[0] == '+' || t[0] == '-') then
      if IsDigitString(t[1..]) then
        var v: int := DigitsValue(t[1..]);
        Some(if t[0] == '-' then -v else v)
      else None
    else if IsDigitString(t) then Some(DigitsValue(t))
    else None
  }

  /** The score on one non-blank, stripped line. */
  function ParseLine(line: string): Result<int, BoardError> {
    match SecondField(line)
    case None => Failure(MissingField(line))
    case Some(f) =>
      match ParseInt(f)
      case None => Failure(NotAnInteger(f))
      case Some(v) => Success(v)
  }

  /** One line of the list comprehension: None for a blank line (the filter
      `if s.strip()`), otherwise the parsed score. */
  function ParseEntry(line: string): Result<Option<int>, BoardError> {
    var stripped := Strip(StrBlanks, line);
    if stripped == [] then Success(None)
    else match ParseLine(stripped)
      case Failure(e) => Failure(e)
      case Success(v) => Success(Some(v))
  }

  function OptionToSeq(o: Option<int>): seq<int> {
    match o
    case None => []
    case Some(v) => [v]
  }

  /** The parse of every line, in file order. */
  function Entries(lines: seq<string>): (es: seq<Result<Option<int>, BoardError>>)
    ensures |es| == |lines|
    ensures forall i :: 0 <= i < |lines| ==> es[i] == ParseEntry(lines[i])
  {
    seq(|lines|, i requires 0 <= i < |lines| => ParseEntry(lines[i]))
  }

  /** int() skips fewer characters than str.strip() removes: U+001C is
      whitespace to str.isspace(), yet int() rejects it. */
  lemma SeparatorNotSkipped()
    ensures IsSpace('\U{1C}') && !IsBlank(IntBlanks, '\U{1C}')
    ensures ParseInt(['\U{1C}', '5']) == None
  {
    var a := ['\U{1C}', '5'];
    assert !IsBlank(IntBlanks, a[1]) && !IsBlank(IntBlanks, a[0]);
    assert TrimEnd(IntBlanks, a) == a;
    assert Strip(IntBlanks, a) == a;
    assert !IsDigit(a[0]);
  }

  /** int() skips a leading space and a trailing no-break space around any
      digit string. */
  lemma SpacesSkipped(d: string)
    requires IsDigitString(d)
    ensures ParseInt([' '] + d + ['\U{A0}']) == Some(DigitsValue(d))
  {
    StripAround(IntBlanks, ' ', d, '\U{A0}');
    ParseIntOfStripped([' '] + d + ['\U{A0}'], d);
  }

  /** Text that strips to a digit string reads as that digit string's value. */
  lemma ParseIntOfStripped(s: string, d: string)
    requires Strip(IntBlanks, s) == d && IsDigitString(d)
    ensures ParseInt(s) == Some(DigitsValue(d))
  {
  }

  /** One blank on either side of a text that neither starts nor ends blank. */
  lemma StripAround(b: Blanks, x: char, e: string, y: char)
    requires IsBlank(b, x) && IsBlank(b, y)
    requires e != [] && !IsBlank(b, e[0]) && !IsBlank(b, e[|e| - 1])
    ensures Strip(b, [x] + e + [y]) == e
  {
    var s := [x] + e + [y];
    assert s[..|s| - 1] == [x] + e;
    assert TrimEnd(b, [x] + e) == [x] + e;
    assert ([x] + e)[1..] == e;
  }

  /** The scores of the parsed lines; the first failure wins, as the list
      comprehension raises at the first malformed line. Written from the
      back: a failure in the earlier lines comes before the last line's. */
  function Collect(es: seq<Result<Option<int>, BoardError>>): (r: Result<seq<int>, BoardError>)
    ensures r.Success? ==> |r.value| <= |es|
    decreases |es|
  {
    if es == [] then Success([])
    else match Collect(es[..|es| - 1])
      case Failure(e) => Failure(e)
      case Success(vs) =>
        match es[|es| - 1]
        case Failure(e) => Failure(e)
        case Success(o) => Success(vs + OptionToSeq(o))
  }

  /** The scores of every non-blank line, in file order. */
  function ParseScores(lines: seq<string>): Result<seq<int>, BoardError> {
    Collect(Entries(lines))
  }

  // ---------------------------------------------------------------------------
  // Records

  function DigitChar(d: nat): char
    requires d < 10
  {
    ('0' as int + d) as char
  }

  /** f"{n}" for a non-negative int. */
  function NatToString(n: nat): (s: string)
    ensures s != [] && IsDigit(s[0])
    ensures forall i :: 0 <= i < |s| ==> IsDigit(s[i])
  {
    if n < 10 then [DigitChar(n)] else NatToString(n / 10) + [DigitChar(n % 10)]
  }

  /** The line end_game writes: f"Score: {score}\n". */
  function Record(score: nat): string {
    "Score: " + NatToString(score) + "\n"
  }

  /** The store after opening it in append mode and writing one record; the
      file is created when it is missing. */
  function Append(store: Option<string>, score: nat): Option<string> {
    Some(store.GetOr("") + Record(score))
  }

  /** The store ends at a line boundary, so an appended record is a line of
      its own. */
  predicate Terminated(store: Option<string>) {
    match store
    case None => true
    case Some(t) => t == [] || EndsWithNewline(t)
  }

  // ---------------------------------------------------------------------------
  // Ranking

  predicate NonIncreasing(s: seq<int>) {
    forall i, j :: 0 <= i < j < |s| ==> s[i] >= s[j]
  }

  function Insert(x: int, s: seq<int>): (r: seq<int>)
    requires NonIncreasing(s)
    ensures NonIncreasing(r)
    ensures multiset(r) == multiset(s) + multiset{x}
    ensures |r| == |s| + 1
  {
    if s == [] then [x]
    else if x >= s[0] then [x] + s
    else
      assert s == [s[0]] + s[1..];
      var tail := Insert(x, s[1..]);
      HeadBoundsTail(s[0], x, s[1..], tail);
      [s[0]] + tail
  }

  /** A head that bounds x and every element of s bounds every element of a
      sequence holding exactly those values. */
  lemma HeadBoundsTail(h: int, x: int, s: seq<int>, tail: seq<int>)
    requires x <= h
    requires forall i :: 0 <= i < |s| ==> s[i] <= h
    requires multiset(tail) == multiset(s) + multiset{x}
    requires NonIncreasing(tail)
    ensures NonIncreasing([h] + tail)
  {
    forall k | 0 <= k < |tail| ensures tail[k] <= h {
      assert tail[k] in multiset(tail);
      if tail[k] != x {
        assert tail[k] in multiset(s);
        var i :| 0 <= i < |s| && s[i] == tail[k];
      }
    }
  }

  /** sorted(scores, reverse=True). For integers a stable and an unstable
      sort give the same sequence (see SortedPermutationIsUnique). */
  function SortDescending(s: seq<int>): (r: seq<int>)
    ensures NonIncreasing(r)
    ensures multiset(r) == multiset(s)
    ensures |r| == |s|
  {
    if s == [] then []
    else
      assert s == [s[0]] + s[1..];
      Insert(s[0], SortDescending(s[1..]))
  }

  /** The slice [:5]: the first min(5, |s|) elements. */
  function TopFive(s: seq<int>): (r: seq<int>)
    ensures |r| == if |s| <= ViewSize then |s| else ViewSize
    ensures r == s[..|r|]
  {
    if |s| <= ViewSize then s else s[..ViewSize]
  }

  /** What update_leaderboard shows: the five best scores, best first. */
  function Board(store: Option<string>): Result<seq<int>, BoardError> {
    match ParseScores(Lines(store))
    case Failure(e) => Failure(e)
    case Success(scores) => Success(TopFive(SortDescending(scores)))
  }

  // ---------------------------------------------------------------------------
  // Properties of the view

  /** A missing file shows an empty board rather than an error. */
  lemma MissingStoreShowsNothing()
    ensures Board(None) == Success([])
  {
  }

  lemma HeadIsMaximum(s: seq<int>, x: int)
    requires NonIncreasing(s) && x in s
    ensures x <= s[0]
  {
  }

  /** Two descending orderings of the same scores are the same sequence, so
      the order of equal scores (sort stability) cannot show in the view. */
  lemma {:induction false} SortedPermutationIsUnique(a: seq<int>, b: seq<int>)
    requires NonIncreasing(a) && NonIncreasing(b)
    requires multiset(a) == multiset(b)
    ensures a == b
  {
    if a == [] {
      assert |multiset(b)| == 0;
    } else {
      assert b != [] by { assert a[0] in multiset(b); }
      HeadsAgree(a, b);
      TailMultiset(a);
      TailMultiset(b);
      SortedPermutationIsUnique(a[1..], b[1..]);
      ConsEqual(a, b);
    }
  }

  lemma HeadsAgree(a: seq<int>, b: seq<int>)
    requires a != [] && b != [] && NonIncreasing(a) && NonIncreasing(b)
    requires multiset(a) == multiset(b)
    ensures a[0] == b[0]
  {
    assert a[0] in multiset(b) && b[0] in multiset(a);
    HeadIsMaximum(b, a[0]);
    HeadIsMaximum(a, b[0]);
  }

  lemma TailMultiset(a: seq<int>)
    requires a != []
    ensures multiset(a[1..]) == multiset(a) - multiset{a[0]}
  {
    assert a == [a[0]] + a[1..];
  }

  lemma ConsEqual(a: seq<int>, b: seq<int>)
    requires a != [] && b != [] && a[0] == b[0] && a[1..] == b[1..]
    ensures a == b
  {
    assert a == [a[0]] + a[1..];
    assert b == [b[0]] + b[1..];
  }

  /** In a descending sequence, no element after a prefix beats one in it. */
  lemma PrefixIsTop(sorted: seq<int>, m: nat)
    requires NonIncreasing(sorted) && m <= |sorted|
    ensures NonIncreasing(sorted[..m])
    ensures multiset(sorted[..m]) <= multiset(sorted)
    ensures multiset(sorted) - multiset(sorted[..m]) == multiset(sorted[m..])
    ensures forall x, k :: x in multiset(sorted[m..]) && 0 <= k < m ==> x <= sorted[k]
  {
    assert sorted == sorted[..m] + sorted[m..];
    assert multiset(sorted) == multiset(sorted[..m]) + multiset(sorted[m..]);
    forall x, k | x in multiset(sorted[m..]) && 0 <= k < m
      ensures x <= sorted[k]
    {
      var i :| m <= i < |sorted| && sorted[i] == x;
    }
  }

  /** The view of a list of scores holds the five best, best first: at most
      five, in non-increasing order, drawn from the scores, and no score left
      off the view beats one on it. */
  lemma ViewIsTopFive(scores: seq<int>)
    ensures var shown := TopFive(SortDescending(scores));
      && |shown| == (if |scores| < ViewSize then |scores| else ViewSize)
      && NonIncreasing(shown)
      && multiset(shown) <= multiset(scores)
      && forall x, k :: x in multiset(scores) - multiset(shown) && 0 <= k < |shown| ==> x <= shown[k]
  {
    TopFiveOfSorted(scores, SortDescending(scores));
  }

  lemma TopFiveOfSorted(scores: seq<int>, sorted: seq<int>)
    requires NonIncreasing(sorted) && multiset(sorted) == multiset(scores)
    ensures var shown := TopFive(sorted);
      && |shown| == (if |scores| < ViewSize then |scores| else ViewSize)
      && NonIncreasing(shown)
      && multiset(shown) <= multiset(scores)
      && forall x, k :: x in multiset(scores) - multiset(shown) && 0 <= k < |shown| ==> x <= shown[k]
  {
    assert |sorted| == |multiset(scores)| == |scores|;
    var m := if |sorted| < ViewSize then |sorted| else ViewSize;
    assert TopFive(sorted) == sorted[..m];
    PrefixIsTop(sorted, m);
  }

  /** The board fails exactly when reading the scores fails, and otherwise
      is the view of the scores in file order. */
  lemma BoardOfStore(store: Option<string>)
    ensures Board(store).Failure? <==> ParseScores(Lines(store)).Failure?
    ensures Board(store).Success? ==>
      Board(store).value == TopFive(SortDescending(ParseScores(Lines(store)).value))
  {
  }

  // ---------------------------------------------------------------------------
  // Records read back

  lemma {:induction false} DigitsValueOfNatToString(n: nat)
    ensures IsDigitString(NatToString(n))
    ensures DigitsValue(NatToString(n)) == n
  {
    var s := NatToString(n);
    if n >= 10 {
      DigitsValueOfNatToString(n / 10);
      assert s[..|s| - 1] == NatToString(n / 10);
    }
  }

  lemma NoSpaceInDigits(b: Blanks, d: string)
    requires forall i :: 0 <= i < |d| ==> IsDigit(d[i])
    ensures Strip(b, d) == d
  {
    if d != [] {
      assert !IsBlank(b, d[|d| - 1]) && !IsBlank(b, d[0]);
    }
  }

  /** The stripped text of a record is its "Score: <digits>" part. */
  lemma StripRecord(n: nat)
    ensures Strip(StrBlanks, Record(n)) == "Score: " + NatToString(n)
  {
    var body := "Score: " + NatToString(n);
    var r := TrimEnd(StrBlanks, Record(n));
    assert Record(n) == body + "\n";
    assert !IsBlank(StrBlanks, body[|body| - 1]);
    assert |r| == |body|;
    assert TrimStart(StrBlanks, body) == body by { assert !IsBlank(StrBlanks, body[0]); }
  }

  /** A record is one line of the file. */
  lemma RecordIsOneLine(n: nat)
    ensures SplitLines(Record(n)) == [Record(n)]
  {
    var t := Record(n);
    assert t == "Score: " + NatToString(n) + "\n";
    forall i | 0 <= i < |t| - 1 ensures t[i] != '\n' {
      if i >= 7 { assert t[i] == NatToString(n)[i - 7]; }
    }
    assert LineLength(t) == |t|;
    assert t[..|t|] == t && t[|t|..] == [];
  }

  /** The field after "Score: " in a stripped record is the score's digits. */
  lemma RecordField(n: nat)
    ensures SecondField("Score: " + NatToString(n)) == Some(NatToString(n))
  {
    var d := NatToString(n);
    var body := "Score: " + d;
    assert SeparatorAt(body, 5);
    assert FindSeparator(body, 0) == Some(5);
    assert body[7..] == d;
    forall j | 7 <= j ensures !SeparatorAt(body, j) {
      if 7 <= j < |body| { assert body[j] == d[j - 7]; assert IsDigit(d[j - 7]); }
    }
    assert FindSeparator(body, 7) == None;
  }

  /** int() reads the digits f"{n}" wrote as n. */
  lemma ParseIntOfNatToString(n: nat)
    ensures ParseInt(NatToString(n)) == Some(n)
  {
    var d := NatToString(n);
    NoSpaceInDigits(IntBlanks, d);
    DigitsValueOfNatToString(n);
    assert d[0] != '+' && d[0] != '-';
  }

  lemma RecordEntry(n: nat)
    ensures ParseEntry(Record(n)) == Success(Some(n))
  {
    StripRecord(n);
    RecordField(n);
    ParseIntOfNatToString(n);
    assert ParseLine("Score: " + NatToString(n)) == Success(n);
  }

  /** What end_game writes, update_leaderboard reads back as the same score. */
  lemma RecordParses(n: nat)
    ensures ParseScores(SplitLines(Record(n))) == Success([n])
  {
    RecordIsOneLine(n);
    RecordEntry(n);
    SingleLineParses(Record(n), n);
  }

  lemma SingleLineParses(line: string, v: int)
    requires SplitLines(line) == [line]
    requires ParseEntry(line) == Success(Some(v))
    ensures ParseScores(SplitLines(line)) == Success([v])
  {
    var es := Entries(SplitLines(line));
    assert es == [Success(Some(v))];
    CollectSingle(es, v);
  }

  lemma CollectSingle(es: seq<Result<Option<int>, BoardError>>, v: int)
    requires es == [Success(Some(v))]
    ensures Collect(es) == Success([v])
  {
    assert es[..0] == [];
    assert Collect(es[..0]) == Success([]);
    assert OptionToSeq(es[0].value) == [v];
    assert [] + [v] == [v];
  }

  lemma ConcatLineBoundary(t: string, r: string)
    requires t != [] && EndsWithNewline(t)
    ensures LineLength(t + r) == LineLength(t)
    ensures (t + r)[LineLength(t)..] == t[LineLength(t)..] + r
  {
    var k := LineLength(t);
    var k' := LineLength(t + r);
    assert (t + r)[..|t|] == t;
    LineLengthIsFirstNewline(t);
    LineLengthIsFirstNewline(t + r);
  }

  /** A text with its only '\n' at the end is a single line. */
  lemma WholeLine(r: string)
    requires r != [] && EndsWithNewline(r)
    requires forall i :: 0 <= i < |r| - 1 ==> r[i] != '\n'
    ensures SplitLines(r) == [r]
  {
    assert LineLength(r) == |r|;
    assert r[..|r|] == r && r[|r|..] == [];
    assert SplitLines(r[|r|..]) == [];
  }

  lemma AppendStep(t: string, r: string, k: nat)
    requires t != [] && k == LineLength(t)
    requires LineLength(t + r) == k && (t + r)[k..] == t[k..] + r
    requires SplitLines(t[k..] + r) == SplitLines(t[k..]) + [r]
    ensures SplitLines(t + r) == SplitLines(t) + [r]
  {
    var tr := t + r;
    SplitLinesHead(tr);
    SplitLinesHead(t);
    assert tr[..k] == t[..k];
    assert [t[..k]] + (SplitLines(t[k..]) + [r]) == ([t[..k]] + SplitLines(t[k..])) + [r];
  }

  /** readlines() takes the first line off the front. */
  lemma SplitLinesHead(t: string)
    requires t != []
    ensures SplitLines(t) == [t[..LineLength(t)]] + SplitLines(t[LineLength(t)..])
  {
  }

  /** Appending a whole line to a text that ends at a line boundary adds
      exactly that line to what readlines() returns. */
  lemma {:induction false} SplitLinesAppend(t: string, r: string)
    requires t == [] || EndsWithNewline(t)
    requires r != [] && EndsWithNewline(r)
    requires forall i :: 0 <= i < |r| - 1 ==> r[i] != '\n'
    ensures SplitLines(t + r) == SplitLines(t) + [r]
    decreases |t|
  {
    if t == [] {
      assert t + r == r;
      WholeLine(r);
      assert SplitLines(t) == [];
    } else {
      var k := LineLength(t);
      ConcatLineBoundary(t, r);
      var rest := t[k..];
      assert rest == [] || EndsWithNewline(rest) by {
        if rest != [] { assert rest[|rest| - 1] == t[|t| - 1]; }
      }
      SplitLinesAppend(rest, r);
      AppendStep(t, r, k);
    }
  }

  /** One more successful entry adds its score, if any, at the end. */
  lemma CollectSnoc(es: seq<Result<Option<int>, BoardError>>, e: Result<Option<int>, BoardError>)
    requires Collect(es).Success? && e.Success?
    ensures Collect(es + [e]) == Success(Collect(es).value + OptionToSeq(e.value))
  {
    assert (es + [e])[..|es|] == es;
  }

  /** One more line holding a record adds its score at the end. */
  lemma ParseScoresSnoc(lines: seq<string>, line: string, v: int)
    requires ParseScores(lines).Success? && ParseEntry(line) == Success(Some(v))
    ensures ParseScores(lines + [line]) == Success(ParseScores(lines).value + [v])
  {
    EntriesSnoc(lines, line);
    CollectSnoc(Entries(lines), ParseEntry(line));
  }

  /** A blank line adds nothing to the scores: the filter `if s.strip()`. */
  lemma BlankLineSkipped(lines: seq<string>, line: string)
    requires ParseScores(lines).Success? && Strip(StrBlanks, line) == []
    ensures ParseScores(lines + [line]) == ParseScores(lines)
  {
    EntriesSnoc(lines, line);
    CollectSnoc(Entries(lines), ParseEntry(line));
    assert ParseScores(lines).value + [] == ParseScores(lines).value;
  }

  lemma EntriesSnoc(lines: seq<string>, line: string)
    ensures Entries(lines + [line]) == Entries(lines) + [ParseEntry(line)]
  {
    var es, e2 := Entries(lines), Entries(lines + [line]);
    forall i | 0 <= i < |e2| ensures e2[i] == (es + [ParseEntry(line)])[i] {
      if i < |lines| { assert (lines + [line])[i] == lines[i]; }
    }
  }

  /** A record holds no '\n' before its last character. */
  lemma RecordHasOneNewline(n: nat)
    ensures forall i :: 0 <= i < |Record(n)| - 1 ==> Record(n)[i] != '\n'
  {
    var r := Record(n);
    assert r == "Score: " + NatToString(n) + "\n";
    forall i | 0 <= i < |r| - 1 ensures r[i] != '\n' {
      if i >= 7 { assert r[i] == NatToString(n)[i - 7]; }
    }
  }

  /** end_game's append adds its score at the end of the recorded scores and
      leaves the file ready for the next record. */
  lemma AppendRecordsScore(store: Option<string>, n: nat)
    requires Terminated(store)
    requires ParseScores(Lines(store)).Success?
    ensures Terminated(Append(store, n))
    ensures ParseScores(Lines(Append(store, n))) == Success(ParseScores(Lines(store)).value + [n])
  {
    var t := store.GetOr("");
    var r := Record(n);
    RecordIsOneLine(n);
    RecordHasOneNewline(n);
    SplitLinesAppend(t, r);
    assert Lines(store) == SplitLines(t);
    RecordEntry(n);
    ParseScoresSnoc(SplitLines(t), r, n);
    assert (t + r)[|t + r| - 1] == '\n';
  }

  /** The file after records with the given scores were appended, in order,
      starting from no file. */
  function Written(scores: seq<nat>): Option<string>
    decreases |scores|
  {
    if scores == [] then None else Append(Written(scores[..|scores| - 1]), scores[|scores| - 1])
  }

  /** A file this program wrote reads back as exactly the scores it recorded. */
  lemma {:induction false} WrittenReadsBack(scores: seq<nat>)
    ensures Terminated(Written(scores))
    ensures ParseScores(Lines(Written(scores))) == Success(scores)
    decreases |scores|
  {
    if scores != [] {
      var init, last := scores[..|scores| - 1], scores[|scores| - 1];
      WrittenReadsBack(init);
      ReadsBackStep(Written(init), init, last);
      LastSplit(scores);
    }
  }

  lemma LastSplit(s: seq<nat>)
    requires s != []
    ensures s[..|s| - 1] + [s[|s| - 1]] == s
  {
  }

  /** One more record, over an abstract file. */
  lemma ReadsBackStep(w: Option<string>, init: seq<nat>, last: nat)
    requires Terminated(w) && ParseScores(Lines(w)) == Success(init)
    ensures Terminated(Append(w, last)) && ParseScores(Lines(Append(w, last))) == Success(init + [last])
  {
    AppendRecordsScore(w, last);
  }

  /** The board of a file this program wrote is the view of the scores it
      recorded, in the order it recorded them. */
  lemma BoardOfWritten(scores: seq<nat>)
    ensures Board(Written(scores)) == Success(TopFive(SortDescending(scores)))
  {
    WrittenReadsBack(scores);
    BoardOfStore(Written(scores));
  }

  /** The view is the only descending arrangement of the best scores. */
  lemma ViewIsUnique(scores: seq<int>, expected: seq<int>)
    requires |scores| <= ViewSize
    requires NonIncreasing(expected) && multiset(expected) == multiset(scores)
    ensures TopFive(SortDescending(scores)) == expected
  {
    SortedPermutationIsUnique(SortDescending(scores), expected);
  }

  /** Scores 5, 10, 5 and 8, in that order, show as 10, 8, 5, 5. */
  lemma ExampleView()
    ensures TopFive(SortDescending([5, 10, 5, 8])) == [10, 8, 5, 5]
  {
    var scores, expected := [5, 10, 5, 8], [10, 8, 5, 5];
    assert multiset(expected) == multiset(scores) by {
      assert scores == [5] + [10] + [5] + [8];
      assert expected == [10] + [8] + [5] + [5];
    }
    ViewIsUnique(scores, expected);
  }

  lemma {:induction false} CollectFails(es: seq<Result<Option<int>, BoardError>>, i: nat)
    requires i < |es| && es[i].Failure?
    ensures Collect(es).Failure?
  {
    if i < |es| - 1 {
      assert es[..|es| - 1][i] == es[i];
      CollectFails(es[..|es| - 1], i);
    }
  }

  /** One malformed line anywhere in the file makes the whole board fail,
      as the exception leaves the comprehension. */
  lemma MalformedLineFailsBoard(store: Option<string>, i: nat)
    requires i < |Lines(store)| && ParseEntry(Lines(store)[i]).Failure?
    ensures Board(store).Failure?
  {
    CollectFails(Entries(Lines(store)), i);
  }
}

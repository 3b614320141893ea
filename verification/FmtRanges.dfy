/** Integers printed as compact ranges, and the parser that undoes it. */
module FmtRanges {
  import opened Wrappers

  /** Within these bounds a double is exact, and so is its successor. */
  type Safe = n: int | -9007199254740991 <= n <= 9007199254740991

  /** A number of the input: a safe integer, or anything else, which is left out. */
  datatype Number = Whole(n: Safe) | Other

  datatype Run = Run(lo: int, hi: int)

  // ---- sorting without duplicates ----

  predicate Ascending(s: seq<int>) {
    forall i, j :: 0 <= i < j < |s| ==> s[i] < s[j]
  }

  function Insert(n: int, sorted: seq<int>): (r: seq<int>)
    requires Ascending(sorted)
    ensures Ascending(r) && forall x :: x in r <==> x == n || x in sorted
  {
    if sorted == [] then [n]
    else
      assert sorted == [sorted[0]] + sorted[1..];
      if n == sorted[0] then sorted
      else if n < sorted[0] then [n] + sorted
      else
        var rest := Insert(n, sorted[1..]);
        assert forall i :: 0 <= i < |rest| ==> rest[i] in rest;
        [sorted[0]] + rest
  }

  function Sorted(numbers: seq<Number>): (r: seq<int>)
    ensures Ascending(r)
    ensures forall x :: x in r <==> exists i :: 0 <= i < |numbers| && numbers[i].Whole? && numbers[i].n == x
  {
    if numbers == [] then []
    else
      var rest := Sorted(numbers[1..]);
      if numbers[0].Whole? then Insert(numbers[0].n, rest) else rest
  }

  // ---- maximal runs ----

  /** The index of the last number of the run that goes on from index `i`. */
  function RunEnd(s: seq<int>, i: nat): (j: nat)
    requires i < |s|
    ensures i <= j < |s|
    decreases |s| - i
  {
    if i + 1 < |s| && s[i + 1] == s[i] + 1 then RunEnd(s, i + 1) else i
  }

  /** A run is consecutive, and does not go on. */
  lemma {:induction false} RunIsConsecutive(s: seq<int>, i: nat)
    requires i < |s|
    ensures forall k :: i <= k <= RunEnd(s, i) ==> s[k] == s[i] + (k - i)
    ensures RunEnd(s, i) + 1 < |s| ==> s[RunEnd(s, i) + 1] != s[RunEnd(s, i)] + 1
    decreases |s| - i
  {
    if i + 1 < |s| && s[i + 1] == s[i] + 1 { RunIsConsecutive(s, i + 1); }
  }

  function RunsFrom(s: seq<int>, i: nat): seq<Run>
    requires i <= |s|
    decreases |s| - i
  {
    if i == |s| then []
    else
      var j := RunEnd(s, i);
      [Run(s[i], s[j])] + RunsFrom(s, j + 1)
  }

  predicate InRun(n: int, r: Run) {
    r.lo <= n <= r.hi
  }

  ghost predicate Denotes(runs: seq<Run>, n: int) {
    exists r :: r in runs && InRun(n, r)
  }

  /** Proper runs in ascending order, with a gap before each next one: none could be longer, none joined. */
  predicate Maximal(runs: seq<Run>) {
    && (forall k :: 0 <= k < |runs| ==> runs[k].lo <= runs[k].hi)
    && (forall k, l :: 0 <= k < l < |runs| ==> runs[k].hi + 1 < runs[l].lo)
  }

  lemma {:induction false} RunsAreMaximal(s: seq<int>, i: nat)
    requires Ascending(s) && i <= |s|
    ensures Maximal(RunsFrom(s, i))
    ensures forall r :: r in RunsFrom(s, i) ==> i < |s| && s[i] <= r.lo
    decreases |s| - i
  {
    if i < |s| {
      var j := RunEnd(s, i);
      RunsAreMaximal(s, j + 1);
      RunIsConsecutive(s, i);
      var rest := RunsFrom(s, j + 1);
      assert forall k :: 0 <= k < |rest| ==> rest[k] in rest;
    }
  }

  lemma RunCovers(s: seq<int>, i: nat, n: int)
    requires Ascending(s) && i < |s|
    ensures InRun(n, Run(s[i], s[RunEnd(s, i)])) <==> n in s[i..RunEnd(s, i) + 1]
  {
    var j := RunEnd(s, i);
    RunIsConsecutive(s, i);
    if s[i] <= n <= s[j] {
      assert s[i + (n - s[i])] == n && s[i..j + 1][n - s[i]] == n;
    }
    if n in s[i..j + 1] {
      var k :| 0 <= k < |s[i..j + 1]| && s[i..j + 1][k] == n;
      assert n == s[i + k];
    }
  }

  lemma DenotesCons(first: Run, rest: seq<Run>, n: int)
    ensures Denotes([first] + rest, n) <==> InRun(n, first) || Denotes(rest, n)
  {
    assert first in [first] + rest;
    if Denotes(rest, n) {
      var r :| r in rest && InRun(n, r);
      assert r in [first] + rest;
    }
  }

  lemma NothingDenoted(n: int)
    ensures !Denotes([], n)
  {
  }

  lemma MemberOfSplit(s: seq<int>, i: nat, j: nat, n: int)
    requires i <= j <= |s|
    ensures n in s[i..] <==> n in s[i..j] || n in s[j..]
  {
    assert s[i..] == s[i..j] + s[j..];
  }

  lemma RunsDenoteStep(s: seq<int>, i: nat, n: int)
    requires Ascending(s) && i < |s|
    requires Denotes(RunsFrom(s, RunEnd(s, i) + 1), n) <==> n in s[RunEnd(s, i) + 1..]
    ensures Denotes(RunsFrom(s, i), n) <==> n in s[i..]
  {
    var j := RunEnd(s, i);
    RunCovers(s, i, n);
    DenotesCons(Run(s[i], s[j]), RunsFrom(s, j + 1), n);
    MemberOfSplit(s, i, j + 1, n);
  }

  lemma {:induction false} RunsDenote(s: seq<int>, i: nat, n: int)
    requires Ascending(s) && i <= |s|
    ensures Denotes(RunsFrom(s, i), n) <==> n in s[i..]
    decreases |s| - i
  {
    if i < |s| {
      RunsDenote(s, RunEnd(s, i) + 1, n);
      RunsDenoteStep(s, i, n);
    } else {
      NothingDenoted(n);
    }
  }

  // ---- no fewer parts ----

  function Starts(runs: seq<Run>): (r: set<int>)
    ensures forall n :: n in r <==> exists k :: 0 <= k < |runs| && runs[k].lo == n
    ensures |r| <= |runs|
  {
    if runs == [] then {} else
      assert runs == runs[..|runs| - 1] + [runs[|runs| - 1]];
      Starts(runs[..|runs| - 1]) + {runs[|runs| - 1].lo}
  }

  lemma LastStartsLater(runs: seq<Run>)
    requires Maximal(runs) && runs != []
    ensures runs[|runs| - 1].lo !in Starts(runs[..|runs| - 1])
  {
    var front := runs[..|runs| - 1];
    forall k | 0 <= k < |front| ensures front[k].lo != runs[|runs| - 1].lo { assert runs[k].lo <= runs[k].hi; }
  }

  lemma FrontMaximal(runs: seq<Run>)
    requires Maximal(runs) && runs != []
    ensures Maximal(runs[..|runs| - 1])
  {
  }

  lemma {:induction false} MaximalStartsDiffer(runs: seq<Run>)
    requires Maximal(runs)
    ensures |Starts(runs)| == |runs|
  {
    if runs != [] {
      var front, lo := runs[..|runs| - 1], runs[|runs| - 1].lo;
      FrontMaximal(runs);
      LastStartsLater(runs);
      MaximalStartsDiffer(front);
      assert Starts(runs) == Starts(front) + {lo};
    }
  }

  /** Any other list of runs for the same numbers has at least as many parts. */
  lemma FewestParts(runs: seq<Run>, other: seq<Run>)
    requires Maximal(runs)
    requires forall n :: Denotes(runs, n) <==> Denotes(other, n)
    ensures |runs| <= |other|
  {
    forall n | n in Starts(runs) ensures n in Starts(other) {
      var k :| 0 <= k < |runs| && runs[k].lo == n;
      assert runs[k] in runs && InRun(n, runs[k]);
      assert Denotes(other, n);
      var r :| r in other && InRun(n, r);
      if r.lo < n {
        assert InRun(n - 1, r) && Denotes(other, n - 1);
        GapBefore(runs, k);
        assert false;
      }
      var l :| 0 <= l < |other| && other[l] == r;
    }
    assert Starts(runs) <= Starts(other);
    SubsetSmaller(Starts(runs), Starts(other));
    MaximalStartsDiffer(runs);
  }

  lemma GapBefore(runs: seq<Run>, k: nat)
    requires Maximal(runs) && k < |runs|
    ensures !Denotes(runs, runs[k].lo - 1)
  {
    forall r | r in runs ensures !InRun(runs[k].lo - 1, r) {
      var l :| 0 <= l < |runs| && runs[l] == r;
    }
  }

  lemma SubsetSmaller<T>(a: set<T>, b: set<T>)
    requires a <= b
    ensures |a| <= |b|
  {
    assert b == a + (b - a);
  }

  // ---- printing ----

  predicate IsDigit(c: char) {
    '0' <= c <= '9'
  }

  function DigitChar(d: nat): (c: char)
    requires d < 10
    ensures IsDigit(c) && DigitValue(c) == d
  {
    "0123456789"[d]
  }

  function DigitValue(c: char): nat
    requires IsDigit(c)
  {
    (c as int) - ('0' as int)
  }

  function Digits(n: nat): (text: string)
    ensures text != "" && IsDigit(text[0])
  {
    if n < 10 then [DigitChar(n)] else Digits(n / 10) + [DigitChar(n % 10)]
  }

  function Decimal(n: int): string {
    if n < 0 then "-" + Digits(-n) else Digits(n)
  }

  function Part(r: Run): string {
    if r.lo == r.hi then Decimal(r.lo) else Decimal(r.lo) + "-" + Decimal(r.hi)
  }

  function Parts(runs: seq<Run>): (parts: seq<string>)
    ensures |parts| == |runs|
  {
    if runs == [] then [] else [Part(runs[0])] + Parts(runs[1..])
  }

  function Join(parts: seq<string>): string {
    if parts == [] then "" else if |parts| == 1 then parts[0] else parts[0] + "," + Join(parts[1..])
  }

  function Print(runs: seq<Run>): string {
    Join(Parts(runs))
  }

  // ---- parsing ----

  function ParseDigits(value: int, text: string): (int, string)
    decreases |text|
  {
    if text == "" || !IsDigit(text[0]) then (value, text)
    else ParseDigits(value * 10 + DigitValue(text[0]), text[1..])
  }

  function ParseInt(text: string): Option<(int, string)> {
    if text != "" && text[0] == '-' then
      if |text| == 1 || !IsDigit(text[1]) then None
      else
        var (value, rest) := ParseDigits(0, text[1..]);
        Some((-value, rest))
    else if text == "" || !IsDigit(text[0]) then None
    else
      var (value, rest) := ParseDigits(0, text);
      Some((value, rest))
  }

  function ParsePart(text: string): Option<(Run, string)> {
    match ParseInt(text)
    case None => None
    case Some((lo, rest)) =>
      if rest == "" || rest[0] != '-' then Some((Run(lo, lo), rest))
      else
        match ParseInt(rest[1..])
        case None => None
        case Some((hi, rest')) => Some((Run(lo, hi), rest'))
  }

  function ParseParts(text: string, fuel: nat): Option<seq<Run>>
    decreases fuel
  {
    match ParsePart(text)
    case None => None
    case Some((r, rest)) =>
      if rest == "" then Some([r])
      else if rest[0] != ',' || fuel == 0 then None
      else
        match ParseParts(rest[1..], fuel - 1)
        case None => None
        case Some(runs) => Some([r] + runs)
  }

  /** The runs a text denotes; its length bounds the number of its parts. */
  function Parse(text: string): Option<seq<Run>> {
    if text == "" then Some([]) else ParseParts(text, |text|)
  }

  // ---- the parser undoes the printer ----

  predicate NoDigitAhead(rest: string) {
    rest == "" || !IsDigit(rest[0])
  }

  lemma {:induction false} DigitsParse(n: nat, rest: string)
    ensures ParseDigits(0, Digits(n) + rest) == ParseDigits(n, rest)
  {
    if n < 10 {
      assert ([DigitChar(n)] + rest)[1..] == rest;
    } else {
      var last := [DigitChar(n % 10)];
      DigitsParse(n / 10, last + rest);
      assert Digits(n) + rest == Digits(n / 10) + (last + rest);
      assert (last + rest)[1..] == rest;
    }
  }

  lemma DecimalParses(n: int, rest: string)
    requires NoDigitAhead(rest)
    ensures ParseInt(Decimal(n) + rest) == Some((n, rest))
  {
    if n < 0 {
      DigitsParse(-n, rest);
      var text := Decimal(n) + rest;
      assert text[1..] == Digits(-n) + rest;
      assert text[1] == Digits(-n)[0];
    } else {
      DigitsParse(n, rest);
      assert (Digits(n) + rest)[0] == Digits(n)[0];
    }
  }

  lemma PartParses(r: Run, rest: string)
    requires rest == "" || rest[0] == ','
    ensures ParsePart(Part(r) + rest) == Some((r, rest))
  {
    if r.lo == r.hi {
      DecimalParses(r.lo, rest);
    } else {
      var more := "-" + Decimal(r.hi) + rest;
      assert Part(r) + rest == Decimal(r.lo) + more;
      DecimalParses(r.lo, more);
      assert more[1..] == Decimal(r.hi) + rest;
      DecimalParses(r.hi, rest);
    }
  }

  lemma {:induction false} DigitsPlain(n: nat)
    ensures forall c :: c in Digits(n) ==> IsDigit(c)
    ensures |Digits(n)| > 1 ==> Digits(n)[0] != '0'
  {
    if n >= 10 {
      DigitsPlain(n / 10);
      if n / 10 < 10 { assert DigitValue(Digits(n / 10)[0]) == n / 10; }
    }
  }

  /** A number prints as a sign where it is negative and its digits, with no zero in front. */
  lemma NumberIsPlain(n: int)
    ensures
      var text := Decimal(n);
      var digits := if n < 0 then text[1..] else text;
      && ParseInt(text) == Some((n, "")) && (n < 0 ==> text[0] == '-')
      && (forall c :: c in digits ==> IsDigit(c)) && (|digits| > 1 ==> digits[0] != '0')
  {
    DecimalParses(n, "");
    assert Decimal(n) + "" == Decimal(n);
    DigitsPlain(if n < 0 then -n else n);
  }

  /** A run of one number prints as that number alone, and a longer one as its two ends with a dash between. */
  lemma PartIsPlain(r: Run)
    ensures r.lo == r.hi <==> ParseInt(Part(r)) == Some((r.lo, ""))
    ensures r.lo != r.hi ==>
      exists rest :: ParseInt(Part(r)) == Some((r.lo, "-" + rest)) && ParseInt(rest) == Some((r.hi, ""))
  {
    NumberIsPlain(r.lo);
    NumberIsPlain(r.hi);
    if r.lo != r.hi {
      var rest := Decimal(r.hi);
      DecimalParses(r.lo, "-" + rest);
      assert Part(r) == Decimal(r.lo) + ("-" + rest);
    }
  }

  lemma PrintCons(runs: seq<Run>)
    requires |runs| > 1
    ensures Print(runs) == Part(runs[0]) + ("," + Print(runs[1..]))
  {
    var parts := Parts(runs);
    assert parts[1..] == Parts(runs[1..]) && |parts| > 1;
    assert parts[0] + "," + Join(parts[1..]) == parts[0] + ("," + Join(parts[1..]));
  }

  lemma ParseCons(text: string, r: Run, tail: string, runs: seq<Run>, fuel: nat)
    requires ParsePart(text) == Some((r, "," + tail)) && fuel > 0
    requires ParseParts(tail, fuel - 1) == Some(runs)
    ensures ParseParts(text, fuel) == Some([r] + runs)
  {
    assert ("," + tail)[1..] == tail;
  }

  lemma {:induction false} PartsParse(runs: seq<Run>, fuel: nat)
    requires runs != [] && |runs| <= fuel + 1
    ensures ParseParts(Print(runs), fuel) == Some(runs)
    decreases |runs|
  {
    if |runs| == 1 {
      PartParses(runs[0], "");
      assert Part(runs[0]) + "" == Part(runs[0]) == Print(runs);
      assert runs == [runs[0]];
    } else {
      PrintCons(runs);
      PartParses(runs[0], "," + Print(runs[1..]));
      PartsParse(runs[1..], fuel - 1);
      ParseCons(Print(runs), runs[0], Print(runs[1..]), runs[1..], fuel);
      assert runs == [runs[0]] + runs[1..];
    }
  }

  lemma {:induction false} PrintLength(runs: seq<Run>)
    ensures |Print(runs)| >= |runs|
  {
    if |runs| > 1 {
      PrintLength(runs[1..]);
      assert |Part(runs[0])| >= 1;
    } else if |runs| == 1 {
      assert Print(runs) == Part(runs[0]);
    }
  }

  /** Parsing a printed list of runs gives the runs back, negative bounds included. */
  lemma PrintParses(runs: seq<Run>)
    ensures Parse(Print(runs)) == Some(runs)
  {
    PrintLength(runs);
    if runs != [] { PartsParse(runs, |Print(runs)|); }
  }

  // ---- the method ----

  ghost predicate Listed(numbers: seq<Number>, n: int) {
    exists i :: 0 <= i < |numbers| && numbers[i].Whole? && numbers[i].n == n
  }

  /** The text parses, as maximal runs in ascending order that denote exactly the integers given, and is their printed form. */
  ghost predicate IsRangesOf(text: string, numbers: seq<Number>) {
    && Parse(text).Some? && text == Print(Parse(text).value)
    && Maximal(Parse(text).value)
    && forall n :: Denotes(Parse(text).value, n) <==> Listed(numbers, n)
  }

  lemma RangesAre(numbers: seq<Number>)
    ensures IsRangesOf(Print(RunsFrom(Sorted(numbers), 0)), numbers)
  {
    var sorted := Sorted(numbers);
    RunsAreMaximal(sorted, 0);
    PrintParses(RunsFrom(sorted, 0));
    assert sorted[0..] == sorted;
    forall n ensures Denotes(RunsFrom(sorted, 0), n) <==> Listed(numbers, n) { RunsDenote(sorted, 0, n); }
  }

  /** The parts written so far are those of the runs before `index`. */
  ghost predicate Printing(sorted: seq<int>, parts: seq<string>, index: nat) {
    index <= |sorted| && parts + Parts(RunsFrom(sorted, index)) == Parts(RunsFrom(sorted, 0))
  }

  lemma PrintsNothing(sorted: seq<int>)
    ensures Printing(sorted, [], 0)
  {
  }

  lemma PrintsRun(sorted: seq<int>, parts: seq<string>, i: nat)
    requires Printing(sorted, parts, i) && i < |sorted|
    ensures Printing(sorted, parts + [Part(Run(sorted[i], sorted[RunEnd(sorted, i)]))], RunEnd(sorted, i) + 1)
  {
    var runs := RunsFrom(sorted, i);
    assert runs[1..] == RunsFrom(sorted, RunEnd(sorted, i) + 1);
    PartsAssoc(parts, [Part(runs[0])], Parts(runs[1..]));
  }

  lemma PartsAssoc(a: seq<string>, b: seq<string>, c: seq<string>)
    ensures a + (b + c) == (a + b) + c
  {
  }

  lemma PrintsAll(numbers: seq<Number>, parts: seq<string>)
    requires Printing(Sorted(numbers), parts, |Sorted(numbers)|)
    ensures IsRangesOf(Join(parts), numbers)
  {
    assert parts + [] == parts;
    RangesAre(numbers);
  }

  /** The last number of the run that begins at `first`, and its index. */
  method EndOfRun(sorted: seq<int>, first: nat) returns (index: nat, end: int)
    requires first < |sorted|
    ensures index == RunEnd(sorted, first) && end == sorted[index]
  {
    index, end := first, sorted[first];
    while index + 1 < |sorted| && sorted[index + 1] == end + 1
      invariant first <= index < |sorted| && end == sorted[index]
      invariant RunEnd(sorted, index) == RunEnd(sorted, first)
    {
      index := index + 1;
      end := sorted[index];
    }
  }

  method Ranges(numbers: seq<Number>) returns (text: string)
    ensures IsRangesOf(text, numbers)
  {
    var sorted := Sorted(numbers);
    var parts: seq<string> := [];
    var index := 0;
    PrintsNothing(sorted);
    while index < |sorted|
      invariant Printing(sorted, parts, index)
    {
      PrintsRun(sorted, parts, index);
      var start := sorted[index];
      var end;
      index, end := EndOfRun(sorted, index);
      var part := if start == end then Decimal(start) else Decimal(start) + "-" + Decimal(end);
      assert part == Part(Run(start, end));
      parts := parts + [part];
      index := index + 1;
    }
    PrintsAll(numbers, parts);
    text := Join(parts);
  }
}

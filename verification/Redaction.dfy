/** Scrubbing secrets from text and arguments by value, longest secret first. */
module Redaction {
  import opened Wrappers

  const REDACTED: string := "***"

  // ---- preparing the secrets ----

  /** The first of each value, in order: what a set built from a list iterates over. */
  function Distinct(values: seq<string>): (r: seq<string>)
    ensures forall v :: v in r <==> v in values
    ensures forall i, j :: 0 <= i < j < |r| ==> r[i] != r[j]
  {
    if values == [] then []
    else
      var front, v := Distinct(values[..|values| - 1]), values[|values| - 1];
      assert values == values[..|values| - 1] + [v];
      if v in front then front else front + [v]
  }

  function NonEmpty(values: seq<string>): (r: seq<string>)
    ensures forall v :: v in r <==> v in values && v != ""
  {
    if values == [] then []
    else (if values[0] == "" then [] else [values[0]]) + NonEmpty(values[1..])
  }

  predicate LongestFirst(values: seq<string>) {
    forall i, j :: 0 <= i < j < |values| ==> |values[i]| >= |values[j]|
  }

  function Insert(v: string, sorted: seq<string>): (r: seq<string>)
    requires LongestFirst(sorted)
    ensures LongestFirst(r) && multiset(r) == multiset(sorted) + multiset{v}
    ensures forall x :: x in r <==> x == v || x in sorted
  {
    if sorted == [] then [v]
    else if |v| >= |sorted[0]| then [v] + sorted
    else
      var rest := Insert(v, sorted[1..]);
      assert sorted == [sorted[0]] + sorted[1..];
      FirstIsLongest(sorted);
      LongestFirstCons(sorted[0], rest);
      [sorted[0]] + rest
  }

  lemma FirstIsLongest(sorted: seq<string>)
    requires LongestFirst(sorted) && sorted != []
    ensures LongestFirst(sorted[1..]) && forall x :: x in sorted[1..] ==> |x| <= |sorted[0]|
  {
  }

  lemma LongestFirstCons(v: string, rest: seq<string>)
    requires LongestFirst(rest) && forall x :: x in rest ==> |v| >= |x|
    ensures LongestFirst([v] + rest)
  {
    assert forall j :: 0 <= j < |rest| ==> rest[j] in rest;
  }

  /** The stable sort by descending length. */
  function SortLongest(values: seq<string>): (r: seq<string>)
    ensures LongestFirst(r) && multiset(r) == multiset(values)
  {
    if values == [] then []
    else
      assert values == [values[0]] + values[1..];
      Insert(values[0], SortLongest(values[1..]))
  }

  function Prepare(secrets: seq<string>): (values: seq<string>)
    ensures LongestFirst(values) && AllNonEmpty(values)
    ensures forall v :: v in values <==> v in secrets && v != ""
  {
    var kept := NonEmpty(Distinct(secrets));
    var values := SortLongest(kept);
    assert forall v :: v in values <==> v in multiset(values);
    assert forall v :: v in kept <==> v in multiset(kept);
    assert forall i :: 0 <= i < |values| ==> values[i] in values;
    values
  }

  // ---- replacing ----

  predicate Occurs(text: string, v: string, i: int) {
    0 <= i && i + |v| <= |text| && text[i..i + |v|] == v
  }

  /** Splitting on `v` and joining with the placeholder: the leftmost, non-overlapping occurrences go. */
  function Replace(text: string, v: string): string
    requires v != ""
  {
    if |text| < |v| then text
    else if text[..|v|] == v then REDACTED + Replace(text[|v|..], v)
    else [text[0]] + Replace(text[1..], v)
  }

  function JoinWith(pieces: seq<string>, separator: string): string
    requires pieces != []
  {
    if |pieces| == 1 then pieces[0] else pieces[0] + separator + JoinWith(pieces[1..], separator)
  }

  /** The text split on `v`: every piece ends where the next `v` first occurs, and `v` does not occur in the last. */
  ghost predicate SplitsOn(text: string, v: string, pieces: seq<string>)
    requires pieces != []
    decreases |pieces|
  {
    var n := |pieces[0]|;
    && (forall i :: 0 <= i < n ==> !Occurs(text, v, i))
    && if |pieces| == 1 then text == pieces[0]
       else n + |v| <= |text| && text[..n] == pieces[0] && Occurs(text, v, n) && SplitsOn(text[n + |v|..], v, pieces[1..])
  }

  lemma {:induction false} ReplaceUpTo(text: string, v: string, n: nat)
    requires v != "" && n <= |text| && forall i :: 0 <= i < n ==> !Occurs(text, v, i)
    ensures Replace(text, v) == text[..n] + Replace(text[n..], v)
    decreases n
  {
    if n > 0 {
      assert !Occurs(text, v, 0);
      forall i | 0 <= i < n - 1 ensures !Occurs(text[1..], v, i) {
        if i + 1 + |v| <= |text| { assert text[1..][i..i + |v|] == text[i + 1..i + 1 + |v|]; }
        assert !Occurs(text, v, i + 1);
      }
      ReplaceUpTo(text[1..], v, n - 1);
      assert text[1..][n - 1..] == text[n..] && text[..n] == [text[0]] + text[1..][..n - 1];
    } else {
      assert text[0..] == text;
    }
  }

  /** Replacing a value is splitting on it and joining the pieces with the placeholder, and there is such a split. */
  lemma {:induction false} ReplaceJoins(text: string, v: string, pieces: seq<string>)
    requires v != "" && pieces != [] && SplitsOn(text, v, pieces)
    ensures Replace(text, v) == JoinWith(pieces, REDACTED)
    decreases |pieces|
  {
    var n := |pieces[0]|;
    ReplaceUpTo(text, v, n);
    if |pieces| == 1 {
      assert text[n..] == "";
    } else {
      assert text[n..][..|v|] == v && text[n..][|v|..] == text[n + |v|..];
      ReplaceJoins(text[n + |v|..], v, pieces[1..]);
      assert text[..n] + (REDACTED + JoinWith(pieces[1..], REDACTED)) == pieces[0] + REDACTED + JoinWith(pieces[1..], REDACTED);
    }
  }

  lemma {:induction false} SplitExists(text: string, v: string) returns (pieces: seq<string>)
    requires v != ""
    ensures pieces != [] && SplitsOn(text, v, pieces)
    decreases |text|
  {
    if i :| Occurs(text, v, i) {
      var n := FirstOccurrence(text, v, i);
      var rest := SplitExists(text[n + |v|..], v);
      pieces := [text[..n]] + rest;
      assert pieces[1..] == rest;
    } else {
      pieces := [text];
    }
  }

  lemma {:induction false} FirstOccurrence(text: string, v: string, i: nat) returns (n: nat)
    requires Occurs(text, v, i)
    ensures Occurs(text, v, n) && forall j :: 0 <= j < n ==> !Occurs(text, v, j)
  {
    if j :| 0 <= j < i && Occurs(text, v, j) { n := FirstOccurrence(text, v, j); } else { n := i; }
  }

  predicate AllNonEmpty(values: seq<string>) {
    forall i :: 0 <= i < |values| ==> values[i] != ""
  }

  function ReplaceEach(text: string, values: seq<string>): string
    requires AllNonEmpty(values)
    decreases |values|
  {
    if values == [] then text else ReplaceEach(Replace(text, values[0]), values[1..])
  }

  method ReplaceAll(text: string, values: seq<string>) returns (out: string)
    requires AllNonEmpty(values)
    ensures out == ReplaceEach(text, values)
  {
    out := text;
    for i := 0 to |values|
      invariant AllNonEmpty(values[i..])
      invariant ReplaceEach(out, values[i..]) == ReplaceEach(text, values)
    {
      assert values[i..][1..] == values[i + 1..];
      out := Replace(out, values[i]);
    }
  }

  function Apply(text: string, secrets: seq<string>): string {
    if secrets == [] then text else ReplaceEach(text, Prepare(secrets))
  }

  method ApplyArgs(args: seq<string>, secrets: seq<string>) returns (out: seq<string>)
    ensures |out| == |args| && forall i :: 0 <= i < |args| ==> out[i] == Apply(args[i], secrets)
  {
    if secrets == [] { return args; }
    out := ReplaceInEach(args, Prepare(secrets));
  }

  method ReplaceInEach(args: seq<string>, values: seq<string>) returns (out: seq<string>)
    requires AllNonEmpty(values)
    ensures |out| == |args| && forall i :: 0 <= i < |args| ==> out[i] == ReplaceEach(args[i], values)
  {
    out := [];
    for i := 0 to |args|
      invariant |out| == i && forall k :: 0 <= k < i ==> out[k] == ReplaceEach(args[k], values)
    {
      var arg := ReplaceAll(args[i], values);
      out := out + [arg];
    }
  }

  // ---- no secret survives ----

  predicate NoTriple(v: string) {
    forall i :: 0 <= i <= |v| - |REDACTED| ==> !Occurs(v, REDACTED, i)
  }

  /** A secret no replacement can put together: the placeholder cannot supply a part of it. */
  predicate Safe(v: string) {
    v != "" && v[0] != '*' && v[|v| - 1] != '*' && NoTriple(v)
  }

  ghost predicate Contains(text: string, v: string) {
    exists i :: Occurs(text, v, i)
  }

  lemma OccursInside(text: string, v: string, i: int, offset: nat)
    requires offset <= |text| && Occurs(text[offset..], v, i)
    ensures Occurs(text, v, i + offset)
  {
    assert text[offset..][i..i + |v|] == text[i + offset..i + offset + |v|];
  }

  /** An occurrence in a concatenation that begins past its first part lies in the second. */
  lemma OccursAfter(front: string, rest: string, v: string, i: int)
    requires Occurs(front + rest, v, i) && i >= |front|
    ensures Occurs(rest, v, i - |front|)
  {
    assert (front + rest)[i..i + |v|] == rest[i - |front|..i - |front| + |v|];
  }

  /** What the placeholder cannot begin: it is empty, or ends in another character, and holds no triple. */
  predicate Unstarted(u: string) {
    u == "" || (u[|u| - 1] != '*' && NoTriple(u))
  }

  lemma UnstartedFrom(u: string)
    requires Unstarted(u) && u != ""
    ensures Unstarted(u[1..])
  {
    if u[1..] != "" {
      forall i | 0 <= i <= |u[1..]| - |REDACTED| ensures !Occurs(u[1..], REDACTED, i) {
        if Occurs(u[1..], REDACTED, i) { OccursInside(u, REDACTED, i, 1); }
      }
    }
  }

  lemma StarsStartNothing(out: string, u: string)
    requires Unstarted(u) && Occurs(out, u, 0) && |out| >= 3 && out[..3] == REDACTED
    ensures u == ""
  {
    if u != "" {
      assert forall k :: 0 <= k < 3 ==> out[k] == out[..3][k] == '*';
      assert forall k :: 0 <= k < |u| ==> u[k] == out[0..|u|][k] == out[k];
      if |u| >= 3 { assert u[0..3] == REDACTED; assert Occurs(u, REDACTED, 0); }
    }
  }

  /** A beginning of the replaced text that the placeholder cannot begin is a beginning of the text. */
  lemma {:induction false} PrefixKept(text: string, w: string, u: string)
    requires w != "" && Unstarted(u) && Occurs(Replace(text, w), u, 0)
    ensures Occurs(text, u, 0)
  {
    if u != "" && |text| >= |w| {
      if text[..|w|] == w {
        StarsStartNothing(Replace(text, w), u);
      } else {
        var rest := Replace(text[1..], w);
        assert ([text[0]] + rest)[..|u|] == [text[0]] + rest[..|u| - 1];
        assert u == [u[0]] + u[1..];
        UnstartedFrom(u);
        PrefixKept(text[1..], w, u[1..]);
        assert text[..|u|] == [text[0]] + text[1..][..|u| - 1];
      }
    }
  }

  /** Replacing never assembles a safe string, and leaves none of what it replaces. */
  lemma {:induction false} NothingAssembled(text: string, w: string, v: string, i: nat)
    requires w != "" && Safe(v) && Occurs(Replace(text, w), v, i)
    ensures v != w && Contains(text, v)
  {
    var out := Replace(text, w);
    if |text| < |w| {
      assert Occurs(text, v, i);
    } else if text[..|w|] == w {
      StarsAreNoOccurrence(out, v, i);
      OccursAfter(REDACTED, Replace(text[|w|..], w), v, i);
      NothingAssembled(text[|w|..], w, v, i - |REDACTED|);
      var k :| Occurs(text[|w|..], v, k);
      OccursInside(text, v, k, |w|);
    } else if i > 0 {
      OccursAfter([text[0]], Replace(text[1..], w), v, i);
      NothingAssembled(text[1..], w, v, i - 1);
      var k :| Occurs(text[1..], v, k);
      OccursInside(text, v, k, 1);
    } else {
      PrefixKept(text, w, v);
    }
  }

  lemma StarsAreNoOccurrence(out: string, v: string, i: nat)
    requires Safe(v) && Occurs(out, v, i) && |out| >= 3 && out[..3] == REDACTED
    ensures i >= 3
  {
    assert v[0] == out[i..i + |v|][0] == out[i];
    assert forall k :: 0 <= k < 3 ==> out[k] == out[..3][k] == '*';
  }

  lemma {:induction false} AbsenceKept(text: string, values: seq<string>, v: string)
    requires AllNonEmpty(values) && Safe(v)
    requires v in values || !Contains(text, v)
    ensures !Contains(ReplaceEach(text, values), v)
    decreases |values|
  {
    if values != [] {
      var out := Replace(text, values[0]);
      if v == values[0] || !Contains(text, v) {
        forall i ensures !Occurs(out, v, i) {
          if Occurs(out, v, i) { NothingAssembled(text, values[0], v, i); }
        }
      }
      AbsenceKept(out, values[1..], v);
    }
  }

  /** No safe secret is left in the text, whatever the other secrets are. */
  lemma NoSecretSurvives(text: string, secrets: seq<string>, v: string)
    requires v in secrets && Safe(v)
    ensures !Contains(Apply(text, secrets), v)
  {
    AbsenceKept(text, Prepare(secrets), v);
  }

  // ---- an unsafe secret can survive ----

  function Times(c: char, n: nat): (s: string)
    ensures |s| == n && forall i :: 0 <= i < n ==> s[i] == c
  {
    if n == 0 then "" else [c] + Times(c, n - 1)
  }

  /** A letter other than `c`. */
  function Other(c: char): (d: char)
    ensures d != c && d != '*'
  {
    if c == 'a' then 'b' else 'a'
  }

  lemma PrepareOne(secret: string)
    requires secret != ""
    ensures Prepare([secret]) == [secret]
  {
    assert |[secret][..0]| == 0 && |[secret][1..]| == 0;
    assert Distinct([secret]) == [secret] && NonEmpty([secret]) == [secret];
  }

  lemma PrepareTwo(v: string, x: string)
    requires |v| > |x| > 0
    ensures Prepare([v, x]) == [v, x]
  {
    var both := [v, x];
    assert both[..1] == [v] && both[1..] == [x] && [v][..0] == [] && [x][1..] == [];
    assert Distinct([v]) == [v] && Distinct(both) == both;
    assert NonEmpty([x]) == [x] && NonEmpty(both) == both;
    assert SortLongest([x]) == [x] && SortLongest(both) == both;
  }

  /** A run of a letter that the text before it does not end in is the first that is replaced. */
  lemma {:induction false} ReplacesRun(a: string, c: char, n: nat, b: string)
    requires |a| <= n && |b| < n && (a != "" ==> a[|a| - 1] != c)
    ensures Replace(a + Times(c, n) + b, Times(c, n)) == a + REDACTED + b
  {
    var x := Times(c, n);
    var text := a + x + b;
    if a == "" {
      assert text == x + b && text[..n] == x && text[n..] == b;
    } else {
      assert text[..n][|a| - 1] == a[|a| - 1] && x[|a| - 1] == c;
      assert text[1..] == a[1..] + x + b;
      ReplacesRun(a[1..], c, n, b);
      assert a == [a[0]] + a[1..];
    }
  }

  /** A text without `v`, from which the removal of the run leaves `v`. */
  lemma RunLeaves(a: string, n: nat, b: string, v: string) returns (text: string, secrets: seq<string>)
    requires a != "" && |a| <= n && |b| < n < |v|
    requires !Contains(a + Times(Other(a[|a| - 1]), n) + b, v)
    ensures v in secrets && Apply(text, secrets) == a + REDACTED + b
  {
    var x := Times(Other(a[|a| - 1]), n);
    text, secrets := a + x + b, [v, x];
    PrepareTwo(v, x);
    ReplaceNothing(text, v);
    ReplacesRun(a, Other(a[|a| - 1]), n, b);
    assert secrets[1..] == [x] && [x][1..] == [];
    assert ReplaceEach(text, secrets) == ReplaceEach(text, [x]) == Replace(text, x);
  }

  lemma DiffersAt(text: string, v: string, i: nat, k: nat)
    requires k < |v| && i + k < |text| && text[i + k] != v[k]
    ensures !Occurs(text, v, i)
  {
    if i + |v| <= |text| { assert text[i..i + |v|][k] == text[i + k]; }
  }

  lemma OccursStarts(text: string, v: string, i: int)
    requires Occurs(text, v, i) && v != ""
    ensures text[i] == v[0]
  {
    assert text[i..i + |v|][0] == text[i];
  }

  /** `*u`: its own removal leaves a star before what follows it. */
  lemma StarBefore(v: string) returns (text: string, secrets: seq<string>)
    requires v != "" && v[0] == '*'
    ensures v in secrets && Contains(Apply(text, secrets), v)
  {
    var u := v[1..];
    text, secrets := v + u, [v];
    PrepareOne(v);
    assert text[..|v|] == v && text[|v|..] == u && Replace(u, v) == u;
    assert secrets[1..] == [];
    assert ReplaceEach(text, secrets) == REDACTED + u;
    assert (REDACTED + u)[2..2 + |v|] == v;
    assert Occurs(REDACTED + u, v, 2);
  }

  lemma RunEndsStarless(u: string, v: string)
    requires u != "" && |v| == |u| + 1 && v[|u|] == '*'
    ensures !Contains(u + Times(Other(u[|u| - 1]), |u|) + "", v)
  {
    var run := u + Times(Other(u[|u| - 1]), |u|) + "";
    forall i ensures !Occurs(run, v, i) {
      if 0 <= i && i + |v| <= |run| { DiffersAt(run, v, i, |u|); }
    }
  }

  /** `u*`: another secret's removal leaves a star behind `u`. */
  lemma StarBehind(v: string) returns (text: string, secrets: seq<string>)
    requires |v| >= 2 && v[|v| - 1] == '*'
    ensures v in secrets && Contains(Apply(text, secrets), v)
  {
    var u := v[..|v| - 1];
    RunEndsStarless(u, v);
    text, secrets := RunLeaves(u, |u|, "", v);
    StarFollows(u, v);
  }

  lemma StarFollows(u: string, v: string)
    requires |v| == |u| + 1 && v[..|u|] == u && v[|u|] == '*'
    ensures Contains(u + REDACTED + "", v)
  {
    assert (u + REDACTED + "")[0..|v|] == v;
    assert Occurs(u + REDACTED + "", v, 0);
  }

  /** A run of another character lies across the star of any occurrence. */
  lemma RunBreaks(a: string, x: string, b: string, v: string)
    requires |v| == |a| + 3 + |b| && v[|a|] == '*' && '*' !in x && |a| < |x| && |b| < |x| <= |a| + |b| + 1
    ensures !Contains(a + x + b, v)
  {
    var run := a + x + b;
    forall i ensures !Occurs(run, v, i) {
      if 0 <= i && i + |v| <= |run| {
        assert run[i + |a|] == x[i] && x[i] in x;
        DiffersAt(run, v, i, |a|);
      }
    }
  }

  lemma SplitsAround(v: string, p: nat)
    requires Occurs(v, REDACTED, p)
    ensures p + 3 <= |v| && v[p] == '*' && v == v[..p] + REDACTED + v[p + 3..]
  {
    OccursStarts(v, REDACTED, p);
    assert v == v[..p] + v[p..p + 3] + v[p + 3..];
  }

  /** `a***b`: another secret's removal leaves the placeholder between `a` and `b`. */
  lemma StarsBetween(a: string, b: string, v: string) returns (text: string, secrets: seq<string>)
    requires a != "" && v == a + REDACTED + b
    ensures v in secrets && Contains(Apply(text, secrets), v)
  {
    var n := 1 + if |a| >= |b| then |a| else |b|;
    RunBreaks(a, Times(Other(a[|a| - 1]), n), b, v);
    text, secrets := RunLeaves(a, n, b, v);
    assert v[0..|v|] == v;
    assert Occurs(v, v, 0);
  }

  ghost predicate NeverSurvives(v: string) {
    forall text, secrets :: v in secrets ==> !Contains(Apply(text, secrets), v)
  }

  lemma UnsafeSurvives(v: string) returns (text: string, secrets: seq<string>)
    requires v != "" && !Safe(v)
    ensures v in secrets && Contains(Apply(text, secrets), v)
  {
    if v[0] == '*' {
      text, secrets := StarBefore(v);
    } else if v[|v| - 1] == '*' {
      text, secrets := StarBehind(v);
    } else {
      var p :| 0 <= p <= |v| - 3 && Occurs(v, REDACTED, p);
      SplitsAround(v, p);
      text, secrets := StarsBetween(v[..p], v[p + 3..], v);
    }
  }

  /**
   * A secret is left in no text, among whatever other secrets, exactly when it
   * neither begins nor ends with the placeholder's character and does not
   * contain the placeholder.
   */
  lemma SafeExactly(v: string)
    requires v != ""
    ensures NeverSurvives(v) <==> Safe(v)
  {
    if Safe(v) {
      forall text, secrets | v in secrets ensures !Contains(Apply(text, secrets), v) {
        NoSecretSurvives(text, secrets, v);
      }
    } else {
      var text, secrets := UnsafeSurvives(v);
      assert v in secrets && Contains(Apply(text, secrets), v);
    }
  }

  lemma {:induction false} ReplaceNothing(text: string, v: string)
    requires v != "" && !Contains(text, v)
    ensures Replace(text, v) == text
  {
    if |text| >= |v| {
      assert !Occurs(text, v, 0);
      forall i ensures !Occurs(text[1..], v, i) {
        if Occurs(text[1..], v, i) { OccursInside(text, v, i, 1); }
      }
      ReplaceNothing(text[1..], v);
    }
  }

  lemma {:induction false} ReplaceEachNothing(text: string, values: seq<string>)
    requires AllNonEmpty(values) && forall i :: 0 <= i < |values| ==> !Contains(text, values[i])
    ensures ReplaceEach(text, values) == text
  {
    if values != [] {
      ReplaceNothing(text, values[0]);
      ReplaceEachNothing(text, values[1..]);
    }
  }

  /** Scrubbing scrubbed text changes nothing. */
  lemma ApplyIdempotent(text: string, secrets: seq<string>)
    requires forall v :: v in secrets && v != "" ==> Safe(v)
    ensures Apply(Apply(text, secrets), secrets) == Apply(text, secrets)
  {
    forall v | v in Prepare(secrets) ensures !Contains(Apply(text, secrets), v) {
      NoSecretSurvives(text, secrets, v);
    }
    ReplaceEachNothing(Apply(text, secrets), Prepare(secrets));
  }

  // ---- arguments introduced by a secret's name ----

  function IndexOfEquals(arg: string): (i: int)
    ensures -1 <= i < |arg|
    ensures i >= 0 ==> arg[i] == '='
    ensures forall k :: 0 <= k < (if i == -1 then |arg| else i) ==> arg[k] != '='
  {
    if arg == "" then -1
    else if arg[0] == '=' then 0
    else
      var rest := IndexOfEquals(arg[1..]);
      if rest == -1 then -1 else rest + 1
  }

  predicate IsInline(arg: string, secretName: string -> bool) {
    IndexOfEquals(arg) > 0 && secretName(arg[..IndexOfEquals(arg)])
  }

  /** Whether argument `k` is the value of the secret flag before it, which is not itself such a value. */
  predicate IsConsumed(args: seq<string>, secretName: string -> bool, k: nat)
    requires k < |args|
  {
    k > 0 && !IsConsumed(args, secretName, k - 1)
    && !IsInline(args[k - 1], secretName) && secretName(args[k - 1])
  }

  function Scrubbed(args: seq<string>, secretName: string -> bool, k: nat): string
    requires k < |args|
  {
    if IsConsumed(args, secretName, k) then REDACTED
    else if IsInline(args[k], secretName) then args[k][..IndexOfEquals(args[k])] + "=" + REDACTED
    else args[k]
  }

  /** The argument reads `name=value`, cut at its first `=`. */
  predicate Reads(arg: string, name: string, value: string) {
    arg == name + "=" + value && '=' !in name
  }

  /** The argument reads `name=value` for a secret's name. */
  ghost predicate Introduces(arg: string, secretName: string -> bool) {
    exists name, value :: Reads(arg, name, value) && name != "" && secretName(name)
  }

  /**
   * The argument stands right after a secret's bare name, which is not itself
   * such a value: of a run of bare names every second one is a value.
   */
  ghost predicate IsValue(args: seq<string>, secretName: string -> bool, k: nat)
    requires k < |args|
  {
    k > 0 && secretName(args[k - 1]) && !Introduces(args[k - 1], secretName) && !IsValue(args, secretName, k - 1)
  }

  /** An argument is cut at its first `=` in one way, which the search finds. */
  lemma ReadsOnce(arg: string, name: string, value: string)
    requires Reads(arg, name, value)
    ensures IndexOfEquals(arg) == |name| && arg[..|name|] == name
  {
    assert arg[|name|] == '=' && forall i :: 0 <= i < |name| ==> arg[i] == name[i] && name[i] in name;
  }

  lemma IntroducesInline(arg: string, secretName: string -> bool)
    ensures Introduces(arg, secretName) <==> IsInline(arg, secretName)
  {
    var i := IndexOfEquals(arg);
    if IsInline(arg, secretName) {
      assert arg == arg[..i] + "=" + arg[i + 1..];
      assert Reads(arg, arg[..i], arg[i + 1..]);
    }
    if name, value :| Reads(arg, name, value) && name != "" && secretName(name) { ReadsOnce(arg, name, value); }
  }

  lemma {:induction false} ValuesAreConsumed(args: seq<string>, secretName: string -> bool, k: nat)
    requires k < |args|
    ensures IsValue(args, secretName, k) <==> IsConsumed(args, secretName, k)
  {
    if k > 0 {
      ValuesAreConsumed(args, secretName, k - 1);
      IntroducesInline(args[k - 1], secretName);
    }
  }

  /** Each value a secret's name introduces is replaced, whatever it is, and every other argument is unchanged. */
  ghost predicate ValuesHidden(args: seq<string>, secretName: string -> bool, out: seq<string>) {
    && |out| == |args|
    && (forall k :: 0 <= k < |args| && IsValue(args, secretName, k) ==> out[k] == REDACTED)
    && (forall k, name, value ::
          (0 <= k < |args| && !IsValue(args, secretName, k) && Reads(args[k], name, value) && name != "" && secretName(name)) ==>
            out[k] == name + "=" + REDACTED)
    && (forall k :: 0 <= k < |args| && !IsValue(args, secretName, k) && !Introduces(args[k], secretName) ==>
          out[k] == args[k])
  }

  /** What becomes of each argument, told from the arguments themselves. */
  lemma ScrubbedIs(args: seq<string>, secretName: string -> bool, k: nat)
    requires k < |args|
    ensures IsValue(args, secretName, k) ==> Scrubbed(args, secretName, k) == REDACTED
    ensures !IsValue(args, secretName, k) ==> forall name, value ::
      Reads(args[k], name, value) && name != "" && secretName(name) ==>
        Scrubbed(args, secretName, k) == name + "=" + REDACTED
    ensures !IsValue(args, secretName, k) && !Introduces(args[k], secretName) ==>
      Scrubbed(args, secretName, k) == args[k]
  {
    ValuesAreConsumed(args, secretName, k);
    IntroducesInline(args[k], secretName);
    forall name, value | Reads(args[k], name, value) ensures IndexOfEquals(args[k]) == |name| && args[k][..|name|] == name {
      ReadsOnce(args[k], name, value);
    }
  }

  lemma ScrubbedAre(args: seq<string>, secretName: string -> bool, out: seq<string>)
    requires |out| == |args| && forall k :: 0 <= k < |args| ==> out[k] == Scrubbed(args, secretName, k)
    ensures ValuesHidden(args, secretName, out)
  {
    forall k | 0 <= k < |args|
      ensures IsValue(args, secretName, k) ==> out[k] == REDACTED
      ensures !IsValue(args, secretName, k) ==> forall name, value ::
        Reads(args[k], name, value) && name != "" && secretName(name) ==> out[k] == name + "=" + REDACTED
      ensures !IsValue(args, secretName, k) && !Introduces(args[k], secretName) ==> out[k] == args[k]
    {
      ScrubbedIs(args, secretName, k);
    }
  }

  /**
   * Every value a secret's name introduces is replaced, whatever it is: after
   * the name's `=`, or as the next argument. No argument is added or lost, and
   * every other one is unchanged.
   */
  method ScrubArgs(args: seq<string>, secretName: string -> bool) returns (out: seq<string>)
    ensures |out| == |args|
    ensures forall k :: 0 <= k < |args| ==> out[k] == Scrubbed(args, secretName, k)
    ensures ValuesHidden(args, secretName, out)
  {
    out := [];
    var index := 0;
    while index < |args|
      invariant 0 <= index <= |args| && |out| == index
      invariant index < |args| ==> !IsConsumed(args, secretName, index)
      invariant forall k :: 0 <= k < index ==> out[k] == Scrubbed(args, secretName, k)
    {
      var arg := args[index];
      var equals := IndexOfEquals(arg);
      if equals > 0 && secretName(arg[..equals]) {
        out := out + [arg[..equals] + "=" + REDACTED];
        index := index + 1;
        continue;
      }
      out := out + [arg];
      if secretName(arg) && index + 1 < |args| {
        out := out + [REDACTED];
        index := index + 1;
      }
      index := index + 1;
    }
    ScrubbedAre(args, secretName, out);
  }
}

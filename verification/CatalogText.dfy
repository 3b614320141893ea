/**
 * The catalog literal as tokens of its source text, scanned by braces. The
 * reader and the writer both find an entry's body with the same depth scan;
 * the writer replaces the values of two fields in place.
 */
module CatalogText {
  import opened Wrappers

  /**
   * A token that names something also opens its brace. `exact` says an entry's
   * head is spelt `"name": {`, which is the only spelling the writer looks for;
   * the reader accepts any spacing.
   */
  datatype Token =
    | Catalog(name: string)
    | Packages
    | Entry(name: string, exact: bool)
    | Open
    | Close
    | Range(value: string)
    | Peer(value: string)
    | Other(text: string)

  datatype Found = Found(name: string, at: nat, close: nat)

  datatype Mismatch = Mismatch(pkg: string, from: string, to: string)

  type Plan = map<string, string>

  predicate Opens(t: Token) {
    t.Catalog? || t.Packages? || t.Entry? || t.Open?
  }

  function Delta(t: Token): int {
    if Opens(t) then 1 else if t.Close? then -1 else 0
  }

  // ---- the depth scan ----

  function NextOpen(s: seq<Token>, from: nat): (i: int)
    requires from <= |s|
    ensures i == -1 || (from <= i < |s| && Opens(s[i]))
    ensures forall k :: from <= k < (if i == -1 then |s| else i) ==> !Opens(s[k])
    decreases |s| - from
  {
    if from == |s| then -1 else if Opens(s[from]) then from else NextOpen(s, from + 1)
  }

  /** The brace depth reached by the tokens from `a` up to `b`. */
  function Depth(s: seq<Token>, a: nat, b: nat): int
    requires a <= b <= |s|
  {
    if a == b then 0 else Depth(s, a, b - 1) + Delta(s[b - 1])
  }

  /** `close` closes the brace opened at `open`: the depth is first back at zero there. */
  ghost predicate Closes(s: seq<Token>, open: nat, close: nat) {
    && open < close < |s| && s[close].Close?
    && Depth(s, open, close + 1) == 0
    && forall k :: open < k <= close ==> Depth(s, open, k) > 0
  }

  /** Where the brace opened before `i`, at this depth, is closed, or -1. */
  function CloseFrom(s: seq<Token>, i: nat, depth: int): (close: int)
    requires i <= |s|
    ensures close == -1 || i <= close < |s|
    decreases |s| - i
  {
    if i == |s| then -1
    else if s[i].Close? && depth == 1 then i
    else CloseFrom(s, i + 1, depth + Delta(s[i]))
  }

  function BraceAt(s: seq<Token>, from: nat): (close: int)
    requires from <= |s|
    ensures close == -1 || from < close < |s|
  {
    var open := NextOpen(s, from);
    if open == -1 then -1 else CloseFrom(s, open + 1, 1)
  }

  /** The index of the token that closes the first brace at or after `from`, or -1. */
  method MatchingBrace(s: seq<Token>, from: nat) returns (close: int)
    requires from <= |s|
    ensures close == BraceAt(s, from)
  {
    var open := NextOpen(s, from);
    if open == -1 { return -1; }
    var depth := 0;
    for i := open to |s|
      invariant i == open ==> depth == 0
      invariant i > open ==> BraceAt(s, from) == CloseFrom(s, i, depth)
    {
      if Opens(s[i]) {
        depth := depth + 1;
      } else if s[i].Close? {
        depth := depth - 1;
        if depth == 0 { return i; }
      }
    }
    return -1;
  }

  lemma {:induction false} CloseFromCloses(s: seq<Token>, open: nat, i: nat)
    requires open < i <= |s| && forall k :: open < k <= i ==> Depth(s, open, k) > 0
    ensures
      var close := CloseFrom(s, i, Depth(s, open, i));
      if close == -1 then forall k: nat :: i <= k ==> !Closes(s, open, k)
      else Closes(s, open, close)
    decreases |s| - i
  {
    if i < |s| && !(s[i].Close? && Depth(s, open, i) == 1) {
      CloseFromCloses(s, open, i + 1);
    }
  }

  /** The scan finds the closing brace of the first opening one: where the depth is first back at zero. */
  lemma BraceCloses(s: seq<Token>, from: nat)
    requires from <= |s|
    ensures
      var open, close := NextOpen(s, from), BraceAt(s, from);
      && (close != -1 ==> open != -1 && Closes(s, open, close))
      && (close == -1 && open != -1 ==> forall k: nat :: !Closes(s, open, k))
  {
    var open := NextOpen(s, from);
    if open != -1 {
      assert Depth(s, open, open) == 0;
      CloseFromCloses(s, open, open + 1);
    }
  }

  // ---- the reader ----

  function FirstCatalog(s: seq<Token>, name: string, i: nat): (r: int)
    requires i <= |s|
    ensures r == -1 || i <= r < |s|
    decreases |s| - i
  {
    if i == |s| then -1 else if s[i] == Catalog(name) then i else FirstCatalog(s, name, i + 1)
  }

  function FirstPackages(s: seq<Token>, i: nat): (r: int)
    requires i <= |s|
    ensures r == -1 || i <= r < |s|
    decreases |s| - i
  {
    if i == |s| then -1 else if s[i].Packages? then i else FirstPackages(s, i + 1)
  }

  /** A map keeps a name's first place and its last value. */
  function Put(entries: seq<Found>, f: Found): seq<Found> {
    if entries == [] then [f]
    else if entries[0].name == f.name then [f] + entries[1..]
    else [entries[0]] + Put(entries[1..], f)
  }

  /** The entries whose heads stand in `[from, k)`; an entry's body must close within the list's, before `end`. */
  function EntriesUpTo(s: seq<Token>, from: nat, k: nat, end: nat): seq<Found>
    requires from <= k <= end <= |s|
    decreases k
  {
    if k == from then []
    else
      var before := EntriesUpTo(s, from, k - 1, end);
      var close := BraceAt(s[..end], k - 1);
      if s[k - 1].Entry? && close != -1 then Put(before, Found(s[k - 1].name, k - 1, close)) else before
  }

  function Entries(s: seq<Token>, catalog: string): seq<Found> {
    var anchor := FirstCatalog(s, catalog, 0);
    if anchor == -1 then []
    else
      var packages := FirstPackages(s, anchor);
      if packages == -1 then []
      else
        var close := BraceAt(s, packages);
        if close == -1 then [] else EntriesUpTo(s, packages + 1, close, close)
  }

  method CatalogEntries(s: seq<Token>, catalog: string) returns (entries: seq<Found>)
    ensures entries == Entries(s, catalog)
  {
    var anchor := FirstCatalog(s, catalog, 0);
    if anchor == -1 { return []; }
    var packages := FirstPackages(s, anchor);
    if packages == -1 { return []; }
    var close := MatchingBrace(s, packages);
    if close == -1 { return []; }
    entries := [];
    for i := packages + 1 to close
      invariant entries == EntriesUpTo(s, packages + 1, i, close)
    {
      if s[i].Entry? {
        var valueClose := MatchingBrace(s[..close], i);
        if valueClose != -1 { entries := Put(entries, Found(s[i].name, i, valueClose)); }
      }
    }
  }

  function FirstRange(s: seq<Token>, a: nat, b: nat): (r: int)
    requires a <= b <= |s|
    ensures r == -1 || (a <= r < b && s[r].Range?)
    ensures forall k :: a <= k < (if r == -1 then b else r) ==> !s[k].Range?
    decreases b - a
  {
    if a == b then -1 else if s[a].Range? then a else FirstRange(s, a + 1, b)
  }

  function FirstPeer(s: seq<Token>, a: nat, b: nat): (r: int)
    requires a <= b <= |s|
    ensures r == -1 || (a <= r < b && s[r].Peer?)
    decreases b - a
  {
    if a == b then -1 else if s[a].Peer? then a else FirstPeer(s, a + 1, b)
  }

  predicate Within(s: seq<Token>, f: Found) {
    f.at < f.close < |s|
  }

  /** The field an entry's range is read from: the first one in its body, nested entries' included. */
  function RangeOf(s: seq<Token>, f: Found): int
    requires Within(s, f)
  {
    FirstRange(s, f.at, f.close + 1)
  }

  predicate Planned(s: seq<Token>, plan: Plan, f: Found) {
    Within(s, f) && f.name in plan && RangeOf(s, f) != -1
  }

  function Expected(plan: Plan, name: string): string
    requires name in plan
  {
    "^" + plan[name]
  }

  predicate IsMismatched(s: seq<Token>, plan: Plan, f: Found) {
    Planned(s, plan, f) && s[RangeOf(s, f)].value != Expected(plan, f.name)
  }

  function MismatchAt(s: seq<Token>, plan: Plan, f: Found): seq<Mismatch> {
    if IsMismatched(s, plan, f) then [Mismatch(f.name, s[RangeOf(s, f)].value, Expected(plan, f.name))] else []
  }

  function MismatchesOf(s: seq<Token>, plan: Plan, entries: seq<Found>): seq<Mismatch> {
    if entries == [] then []
    else MismatchesOf(s, plan, entries[..|entries| - 1]) + MismatchAt(s, plan, entries[|entries| - 1])
  }

  lemma MismatchesTo(s: seq<Token>, plan: Plan, entries: seq<Found>, i: nat)
    requires i < |entries|
    ensures MismatchesOf(s, plan, entries[..i + 1]) == MismatchesOf(s, plan, entries[..i]) + MismatchAt(s, plan, entries[i])
  {
    assert entries[..i + 1][..i] == entries[..i];
  }

  method RippleMismatches(s: seq<Token>, plan: Plan) returns (mismatches: seq<Mismatch>)
    ensures mismatches == MismatchesOf(s, plan, Entries(s, "effected"))
  {
    var entries := CatalogEntries(s, "effected");
    EntriesWithin(s, "effected");
    assert forall i :: 0 <= i < |entries| ==> entries[i] in entries;
    mismatches := CompareAll(s, plan, entries);
  }

  method CompareAll(s: seq<Token>, plan: Plan, entries: seq<Found>) returns (mismatches: seq<Mismatch>)
    requires forall i :: 0 <= i < |entries| ==> Within(s, entries[i])
    ensures mismatches == MismatchesOf(s, plan, entries)
  {
    mismatches := [];
    for i := 0 to |entries|
      invariant mismatches == MismatchesOf(s, plan, entries[..i])
    {
      MismatchesTo(s, plan, entries, i);
      if entries[i].name in plan {
        var range := FirstRange(s, entries[i].at, entries[i].close + 1);
        var expected := "^" + plan[entries[i].name];
        if range != -1 && s[range].value != expected {
          mismatches := mismatches + [Mismatch(entries[i].name, s[range].value, expected)];
        }
      }
    }
    assert entries[..|entries|] == entries;
  }

  lemma {:induction false} PutMembers(entries: seq<Found>, f: Found)
    ensures forall g :: g in Put(entries, f) ==> g == f || g in entries
  {
    if entries != [] { PutMembers(entries[1..], f); }
  }

  lemma {:induction false} EntriesUpToWithin(s: seq<Token>, from: nat, k: nat, end: nat)
    requires from <= k <= end <= |s|
    ensures forall f :: f in EntriesUpTo(s, from, k, end) ==>
      f.at < f.close < end && s[f.at].Entry? && s[f.at].name == f.name && f.close == BraceAt(s[..end], f.at)
    decreases k
  {
    if k > from {
      EntriesUpToWithin(s, from, k - 1, end);
      PutMembers(EntriesUpTo(s, from, k - 1, end), Found(if s[k - 1].Entry? then s[k - 1].name else "", k - 1,
        if BraceAt(s[..end], k - 1) != -1 then BraceAt(s[..end], k - 1) else 0));
    }
  }

  /** A brace closed within a slice is closed there in the whole text. */
  lemma {:induction false} CloseInSlice(s: seq<Token>, end: nat, i: nat, depth: int)
    requires i <= end <= |s| && CloseFrom(s[..end], i, depth) != -1
    ensures CloseFrom(s, i, depth) == CloseFrom(s[..end], i, depth)
    decreases end - i
  {
    if !(s[i].Close? && depth == 1) { CloseInSlice(s, end, i + 1, depth + Delta(s[i])); }
  }

  /** Every entry read is an entry of the text, with its own closing brace. */
  lemma EntriesWithin(s: seq<Token>, catalog: string)
    ensures forall f :: f in Entries(s, catalog) ==>
      Within(s, f) && s[f.at].Entry? && s[f.at].name == f.name && BraceAt(s, f.at) == f.close
  {
    var anchor := FirstCatalog(s, catalog, 0);
    if anchor != -1 && FirstPackages(s, anchor) != -1 && BraceAt(s, FirstPackages(s, anchor)) != -1 {
      var packages := FirstPackages(s, anchor);
      var end := BraceAt(s, packages);
      EntriesUpToWithin(s, packages + 1, end, end);
      forall f | f in Entries(s, catalog) ensures BraceAt(s, f.at) == f.close {
        assert NextOpen(s[..end], f.at) == f.at && NextOpen(s, f.at) == f.at;
        CloseInSlice(s, end, f.at + 1, 1);
      }
    }
  }

  // ---- the writer ----

  function UpToDot(v: string): (r: string)
    ensures |r| <= |v|
  {
    if v == "" || v[0] == '.' then "" else [v[0]] + UpToDot(v[1..])
  }

  /** The peer range floors the patch. */
  function PeerFor(version: string): string {
    var major := UpToDot(version);
    var minor := if |major| == |version| then "0" else UpToDot(version[|major| + 1..]);
    "^" + major + "." + minor + ".0"
  }

  function FirstExact(s: seq<Token>, name: string, i: nat): (r: int)
    requires i <= |s|
    ensures r == -1 || (i <= r < |s| && s[r] == Entry(name, true))
    ensures forall k :: i <= k < (if r == -1 then |s| else r) ==> s[k] != Entry(name, true)
    decreases |s| - i
  {
    if i == |s| then -1 else if s[i] == Entry(name, true) then i else FirstExact(s, name, i + 1)
  }

  /** The entry the writer edits for a package, when it finds one that is closed. */
  function Edited(s: seq<Token>, pkg: string): (f: Option<Found>)
    ensures f.Some? ==> Within(s, f.value)
  {
    var at := FirstExact(s, pkg, 0);
    if at == -1 || BraceAt(s, at) == -1 then None else Some(Found(pkg, at, BraceAt(s, at)))
  }

  function WriteRange(s: seq<Token>, f: Found, to: string): seq<Token>
    requires Within(s, f)
  {
    var r := FirstRange(s, f.at, f.close);
    if r == -1 then s else s[r := Range(to)]
  }

  function WritePeer(s: seq<Token>, f: Found, to: string): seq<Token>
    requires Within(s, f)
  {
    var p := FirstPeer(s, f.at, f.close);
    if p == -1 then s else s[p := Peer(to)]
  }

  function EditOne(s: seq<Token>, m: Mismatch): (r: seq<Token>)
    ensures |r| == |s|
  {
    var f := Edited(s, m.pkg);
    if f.None? then s
    else WritePeer(WriteRange(s, f.value, m.to), f.value, PeerFor(if m.to == "" then "" else m.to[1..]))
  }

  function EditAll(s: seq<Token>, ms: seq<Mismatch>): (r: seq<Token>)
    ensures |r| == |s|
    decreases |ms|
  {
    if ms == [] then s else EditAll(EditOne(s, ms[0]), ms[1..])
  }

  method ApplyRipples(s: seq<Token>, mismatches: seq<Mismatch>) returns (source: seq<Token>)
    ensures source == EditAll(s, mismatches)
  {
    source := s;
    for i := 0 to |mismatches|
      invariant EditAll(source, mismatches[i..]) == EditAll(s, mismatches)
    {
      var m := mismatches[i];
      assert mismatches[i..][1..] == mismatches[i + 1..];
      var at := FirstExact(source, m.pkg, 0);
      if at == -1 { continue; }
      var close := MatchingBrace(source, at);
      if close == -1 { continue; }
      var r := FirstRange(source, at, close);
      var edited := if r == -1 then source else source[r := Range(m.to)];
      var p := FirstPeer(edited, at, close);
      source := if p == -1 then edited else edited[p := Peer(PeerFor(if m.to == "" then "" else m.to[1..]))];
    }
  }
}

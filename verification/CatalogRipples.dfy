/**
 * When the writer's edits satisfy the reader: exactly when no two planned
 * entries read their range from one field for different versions, and every
 * stale field has an entry the writer can find.
 */
module CatalogRipples {
  import opened Wrappers
  import opened CatalogText

  // ---- editing values never moves a brace or an entry ----

  function Blank(t: Token): Token {
    match t
    case Range(_) => Range("")
    case Peer(_) => Peer("")
    case _ => t
  }

  ghost predicate SameShape(s: seq<Token>, t: seq<Token>) {
    |s| == |t| && forall i :: 0 <= i < |s| ==> Blank(s[i]) == Blank(t[i])
  }

  lemma {:induction false} SameClose(s: seq<Token>, t: seq<Token>, i: nat, depth: int)
    requires SameShape(s, t) && i <= |s|
    ensures CloseFrom(s, i, depth) == CloseFrom(t, i, depth)
    decreases |s| - i
  {
    if i < |s| {
      assert Blank(s[i]) == Blank(t[i]);
      SameClose(s, t, i + 1, depth + Delta(s[i]));
    }
  }

  lemma {:induction false} SameOpen(s: seq<Token>, t: seq<Token>, i: nat)
    requires SameShape(s, t) && i <= |s|
    ensures NextOpen(s, i) == NextOpen(t, i)
    decreases |s| - i
  {
    if i < |s| {
      assert Blank(s[i]) == Blank(t[i]);
      SameOpen(s, t, i + 1);
    }
  }

  lemma SameBrace(s: seq<Token>, t: seq<Token>, from: nat)
    requires SameShape(s, t) && from <= |s|
    ensures BraceAt(s, from) == BraceAt(t, from)
  {
    SameOpen(s, t, from);
    if NextOpen(s, from) != -1 { SameClose(s, t, NextOpen(s, from) + 1, 1); }
  }

  lemma {:induction false} SameAnchors(s: seq<Token>, t: seq<Token>, catalog: string, i: nat)
    requires SameShape(s, t) && i <= |s|
    ensures FirstCatalog(s, catalog, i) == FirstCatalog(t, catalog, i) && FirstPackages(s, i) == FirstPackages(t, i)
    ensures forall name :: FirstExact(s, name, i) == FirstExact(t, name, i)
    decreases |s| - i
  {
    if i < |s| {
      assert Blank(s[i]) == Blank(t[i]);
      SameAnchors(s, t, catalog, i + 1);
    }
  }

  lemma {:induction false} SameFields(s: seq<Token>, t: seq<Token>, a: nat, b: nat)
    requires SameShape(s, t) && a <= b <= |s|
    ensures FirstRange(s, a, b) == FirstRange(t, a, b) && FirstPeer(s, a, b) == FirstPeer(t, a, b)
    decreases b - a
  {
    if a < b {
      assert Blank(s[a]) == Blank(t[a]);
      SameFields(s, t, a + 1, b);
    }
  }

  lemma {:induction false} SameEntriesUpTo(s: seq<Token>, t: seq<Token>, from: nat, k: nat, end: nat)
    requires SameShape(s, t) && from <= k <= end <= |s|
    ensures EntriesUpTo(s, from, k, end) == EntriesUpTo(t, from, k, end)
    decreases k
  {
    if k > from {
      SameEntryAt(s, t, k - 1, end);
      SameEntriesUpTo(s, t, from, k - 1, end);
    }
  }

  lemma SameEntryAt(s: seq<Token>, t: seq<Token>, at: nat, end: nat)
    requires SameShape(s, t) && at < end <= |s|
    ensures BraceAt(s[..end], at) == BraceAt(t[..end], at)
    ensures s[at].Entry? || t[at].Entry? ==> s[at] == t[at]
  {
    assert Blank(s[at]) == Blank(t[at]);
    assert SameShape(s[..end], t[..end]);
    SameBrace(s[..end], t[..end], at);
  }

  lemma SamePackages(s: seq<Token>, t: seq<Token>, catalog: string)
    requires SameShape(s, t)
    ensures FirstCatalog(s, catalog, 0) == FirstCatalog(t, catalog, 0)
    ensures
      var anchor := FirstCatalog(s, catalog, 0);
      anchor != -1 ==> FirstPackages(s, anchor) == FirstPackages(t, anchor)
  {
    SameAnchors(s, t, catalog, 0);
    if FirstCatalog(s, catalog, 0) != -1 { SameAnchors(s, t, catalog, FirstCatalog(s, catalog, 0)); }
  }

  lemma SameEntries(s: seq<Token>, t: seq<Token>, catalog: string)
    requires SameShape(s, t)
    ensures Entries(s, catalog) == Entries(t, catalog)
  {
    SamePackages(s, t, catalog);
    var anchor := FirstCatalog(s, catalog, 0);
    if anchor != -1 && FirstPackages(s, anchor) != -1 { SameList(s, t, FirstPackages(s, anchor)); }
  }

  lemma SameList(s: seq<Token>, t: seq<Token>, packages: nat)
    requires SameShape(s, t) && packages < |s|
    ensures BraceAt(s, packages) == BraceAt(t, packages)
    ensures
      var close := BraceAt(s, packages);
      close != -1 ==> EntriesUpTo(s, packages + 1, close, close) == EntriesUpTo(t, packages + 1, close, close)
  {
    SameBrace(s, t, packages);
    var close := BraceAt(s, packages);
    if close != -1 { SameEntriesUpTo(s, t, packages + 1, close, close); }
  }

  lemma SameEdited(s: seq<Token>, t: seq<Token>, pkg: string)
    requires SameShape(s, t)
    ensures Edited(s, pkg) == Edited(t, pkg)
  {
    SameAnchors(s, t, "", 0);
    if FirstExact(s, pkg, 0) != -1 { SameBrace(s, t, FirstExact(s, pkg, 0)); }
  }

  // ---- what the writer writes ----

  /** The field whose range a mismatch rewrites, or -1. */
  function RangeWritten(s: seq<Token>, m: Mismatch): int {
    var f := Edited(s, m.pkg);
    if f.None? then -1 else FirstRange(s, f.value.at, f.value.close)
  }

  function PeerWritten(s: seq<Token>, m: Mismatch): int {
    var f := Edited(s, m.pkg);
    if f.None? then -1 else FirstPeer(s, f.value.at, f.value.close)
  }

  lemma EditOneIs(s: seq<Token>, m: Mismatch)
    ensures SameShape(s, EditOne(s, m))
    ensures RangeWritten(s, m) != -1 ==> s[RangeWritten(s, m)].Range? && EditOne(s, m)[RangeWritten(s, m)] == Range(m.to)
    ensures forall i :: 0 <= i < |s| && i != RangeWritten(s, m) && i != PeerWritten(s, m) ==> EditOne(s, m)[i] == s[i]
    ensures forall i :: 0 <= i < |s| && s[i].Range? && i != RangeWritten(s, m) ==> EditOne(s, m)[i] == s[i]
  {
    var f := Edited(s, m.pkg);
    if f.Some? {
      var t := WriteRange(s, f.value, m.to);
      assert SameShape(s, t);
      SameFields(s, t, f.value.at, f.value.close);
    }
  }

  lemma SameWritten(s: seq<Token>, t: seq<Token>, m: Mismatch)
    requires SameShape(s, t)
    ensures RangeWritten(s, m) == RangeWritten(t, m) && PeerWritten(s, m) == PeerWritten(t, m)
  {
    SameEdited(s, t, m.pkg);
    var f := Edited(s, m.pkg);
    if f.Some? { SameFields(s, t, f.value.at, f.value.close); }
  }

  lemma SameShapeTrans(a: seq<Token>, b: seq<Token>, c: seq<Token>)
    requires SameShape(a, b) && SameShape(b, c)
    ensures SameShape(a, c)
  {
    forall i | 0 <= i < |a| ensures Blank(a[i]) == Blank(c[i]) { assert Blank(b[i]) == Blank(c[i]); }
  }

  /** Only the fields the writer's search finds change, and only their values. */
  lemma {:induction false} EditsAreLocal(s: seq<Token>, ms: seq<Mismatch>)
    ensures SameShape(s, EditAll(s, ms))
    ensures forall i :: 0 <= i < |s| && EditAll(s, ms)[i] != s[i] ==>
      exists m :: m in ms && (i == RangeWritten(s, m) || i == PeerWritten(s, m))
    decreases |ms|
  {
    if ms != [] {
      var t := EditOne(s, ms[0]);
      EditOneIs(s, ms[0]);
      EditsAreLocal(t, ms[1..]);
      SameShapeTrans(s, t, EditAll(s, ms));
      forall i | 0 <= i < |s| && EditAll(s, ms)[i] != s[i]
        ensures exists m :: m in ms && (i == RangeWritten(s, m) || i == PeerWritten(s, m))
      {
        if EditAll(s, ms)[i] != t[i] {
          var m :| m in ms[1..] && (i == RangeWritten(t, m) || i == PeerWritten(t, m));
          SameWritten(s, t, m);
          assert m in ms;
        } else {
          assert ms[0] in ms;
        }
      }
    }
  }

  ghost predicate Writes(s: seq<Token>, ms: seq<Mismatch>, r: int) {
    exists m :: m in ms && RangeWritten(s, m) == r
  }

  /** When all the edits of a range agree, it ends with their value; a range no edit names keeps its own. */
  lemma {:induction false} RangeAfter(s: seq<Token>, ms: seq<Mismatch>, r: nat, to: string)
    requires r < |s| && s[r].Range?
    requires forall m :: m in ms && RangeWritten(s, m) == r ==> m.to == to
    ensures EditAll(s, ms)[r] == if Writes(s, ms, r) then Range(to) else s[r]
    decreases |ms|
  {
    if ms != [] {
      var t := EditOne(s, ms[0]);
      EditOneIs(s, ms[0]);
      assert Blank(s[r]) == Blank(t[r]);
      assert ms[0] in ms;
      forall m | m in ms[1..] ensures RangeWritten(t, m) == RangeWritten(s, m) && m in ms { SameWritten(s, t, m); }
      RangeAfter(t, ms[1..], r, to);
      assert Writes(s, ms, r) <==> RangeWritten(s, ms[0]) == r || Writes(t, ms[1..], r) by {
        if m :| m in ms && RangeWritten(s, m) == r { assert m == ms[0] || m in ms[1..]; }
        if m :| m in ms[1..] && RangeWritten(t, m) == r { assert m in ms; }
      }
    }
  }

  // ---- the reader's mismatches, one by one ----

  lemma {:induction false} MismatchesAre(s: seq<Token>, plan: Plan, entries: seq<Found>, m: Mismatch)
    ensures m in MismatchesOf(s, plan, entries) <==>
      exists f :: f in entries && IsMismatched(s, plan, f) && m == MismatchAt(s, plan, f)[0]
  {
    if entries != [] {
      var front, last := entries[..|entries| - 1], entries[|entries| - 1];
      MismatchesAre(s, plan, front, m);
      assert forall f :: f in entries <==> f in front || f == last;
      if IsMismatched(s, plan, last) { assert MismatchAt(s, plan, last) == [MismatchAt(s, plan, last)[0]]; }
    }
  }

  lemma NoMismatches(s: seq<Token>, plan: Plan, entries: seq<Found>)
    ensures MismatchesOf(s, plan, entries) == [] <==> forall f :: f in entries ==> !IsMismatched(s, plan, f)
  {
    var ms := MismatchesOf(s, plan, entries);
    if f :| f in entries && IsMismatched(s, plan, f) {
      MismatchesAre(s, plan, entries, MismatchAt(s, plan, f)[0]);
    }
    if ms != [] {
      MismatchesAre(s, plan, entries, ms[0]);
    }
  }

  // ---- the condition ----

  /** Each name heads one entry of the whole text. */
  ghost predicate NamesOnce(s: seq<Token>) {
    forall i, j :: 0 <= i < j < |s| && s[i].Entry? && s[j].Entry? ==> s[i].name != s[j].name
  }

  predicate IsExact(s: seq<Token>, f: Found) {
    Within(s, f) && s[f.at] == Entry(f.name, true)
  }

  predicate ShareRange(s: seq<Token>, plan: Plan, f: Found, g: Found) {
    Planned(s, plan, f) && Planned(s, plan, g) && RangeOf(s, f) == RangeOf(s, g)
  }

  /** No two planned entries read one field for different versions. */
  ghost predicate NoSharedRange(s: seq<Token>, plan: Plan, entries: seq<Found>) {
    forall f, g :: f in entries && g in entries && ShareRange(s, plan, f, g) ==>
      Expected(plan, f.name) == Expected(plan, g.name)
  }

  /** Every stale field is the range of a stale entry spelt the way the writer looks for it. */
  ghost predicate StaleAreExact(s: seq<Token>, plan: Plan, entries: seq<Found>) {
    forall f :: f in entries && IsMismatched(s, plan, f) ==>
      exists g :: g in entries && IsMismatched(s, plan, g) && IsExact(s, g) && RangeOf(s, g) == RangeOf(s, f)
  }

  lemma ReadsWhatIsWritten(s: seq<Token>, catalog: string, f: Found)
    requires NamesOnce(s) && f in Entries(s, catalog)
    ensures Within(s, f)
    ensures IsExact(s, f) ==> Edited(s, f.name) == Some(f)
    ensures !IsExact(s, f) ==> Edited(s, f.name).None?
    ensures FirstRange(s, f.at, f.close) == RangeOf(s, f)
  {
    EntriesWithin(s, catalog);
    BraceCloses(s, f.at);
    CloseIsNoRange(s, f.at, f.close);
  }

  lemma {:induction false} CloseIsNoRange(s: seq<Token>, a: nat, close: nat)
    requires a <= close < |s| && s[close].Close?
    ensures FirstRange(s, a, close) == FirstRange(s, a, close + 1)
    decreases close - a
  {
    if a < close { CloseIsNoRange(s, a + 1, close); }
  }

  /** The range a mismatch of the reader rewrites: its entry's own, if the writer finds the entry. */
  lemma WrittenByMismatch(s: seq<Token>, plan: Plan, f: Found)
    requires NamesOnce(s) && f in Entries(s, "effected") && IsMismatched(s, plan, f)
    ensures
      var m := MismatchAt(s, plan, f)[0];
      RangeWritten(s, m) == (if IsExact(s, f) then RangeOf(s, f) else -1) && m.to == Expected(plan, f.name)
  {
    ReadsWhatIsWritten(s, "effected", f);
  }

  /** A range is rewritten exactly when a stale entry the writer finds reads it. */
  lemma RewrittenExactly(s: seq<Token>, plan: Plan, r: nat)
    requires NamesOnce(s)
    ensures
      var entries := Entries(s, "effected");
      Writes(s, MismatchesOf(s, plan, entries), r) <==>
        exists g :: g in entries && IsMismatched(s, plan, g) && IsExact(s, g) && RangeOf(s, g) == r
  {
    var entries := Entries(s, "effected");
    var ms := MismatchesOf(s, plan, entries);
    if m :| m in ms && RangeWritten(s, m) == r {
      MismatchesAre(s, plan, entries, m);
      var g :| g in entries && IsMismatched(s, plan, g) && m == MismatchAt(s, plan, g)[0];
      WrittenByMismatch(s, plan, g);
    }
    if g :| g in entries && IsMismatched(s, plan, g) && IsExact(s, g) && RangeOf(s, g) == r {
      MismatchesAre(s, plan, entries, MismatchAt(s, plan, g)[0]);
      WrittenByMismatch(s, plan, g);
    }
  }

  lemma WriterAgrees(s: seq<Token>, plan: Plan, f: Found, m: Mismatch)
    requires NamesOnce(s)
    requires f in Entries(s, "effected") && Planned(s, plan, f) && NoSharedRange(s, plan, Entries(s, "effected"))
    requires m in MismatchesOf(s, plan, Entries(s, "effected")) && RangeWritten(s, m) == RangeOf(s, f)
    ensures m.to == Expected(plan, f.name)
  {
    var entries := Entries(s, "effected");
    MismatchesAre(s, plan, entries, m);
    var g :| g in entries && IsMismatched(s, plan, g) && m == MismatchAt(s, plan, g)[0];
    WrittenByMismatch(s, plan, g);
    assert ShareRange(s, plan, g, f);
  }

  lemma SameRangeOf(s: seq<Token>, t: seq<Token>, plan: Plan, f: Found)
    requires SameShape(s, t) && Within(s, f)
    ensures RangeOf(s, f) == RangeOf(t, f) && (Planned(s, plan, f) <==> Planned(t, plan, f))
  {
    SameFields(s, t, f.at, f.close + 1);
  }

  /** If nothing is stale after the edits, every planned range holds its expected value. */
  lemma CuredRanges(s: seq<Token>, plan: Plan, f: Found)
    requires
      var t := EditAll(s, MismatchesOf(s, plan, Entries(s, "effected")));
      MismatchesOf(t, plan, Entries(t, "effected")) == []
    requires f in Entries(s, "effected") && Planned(s, plan, f)
    ensures EditAll(s, MismatchesOf(s, plan, Entries(s, "effected")))[RangeOf(s, f)] == Range(Expected(plan, f.name))
  {
    var ms := MismatchesOf(s, plan, Entries(s, "effected"));
    var t := EditAll(s, ms);
    EditsAreLocal(s, ms);
    SameEntries(s, t, "effected");
    NoMismatches(t, plan, Entries(s, "effected"));
    SameRangeOf(s, t, plan, f);
    assert Blank(s[RangeOf(s, f)]) == Blank(t[RangeOf(s, f)]);
    assert !IsMismatched(t, plan, f);
  }

  /** ... so every stale range was rewritten. */
  lemma CuredWereExact(s: seq<Token>, plan: Plan)
    requires NamesOnce(s)
    requires
      var t := EditAll(s, MismatchesOf(s, plan, Entries(s, "effected")));
      MismatchesOf(t, plan, Entries(t, "effected")) == []
    ensures StaleAreExact(s, plan, Entries(s, "effected"))
  {
    var entries := Entries(s, "effected");
    var ms := MismatchesOf(s, plan, entries);
    var t := EditAll(s, ms);
    forall f | f in entries && IsMismatched(s, plan, f)
      ensures exists g :: g in entries && IsMismatched(s, plan, g) && IsExact(s, g) && RangeOf(s, g) == RangeOf(s, f)
    {
      var r := RangeOf(s, f);
      CuredRanges(s, plan, f);
      EditsAreLocal(s, ms);
      var m :| m in ms && (r == RangeWritten(s, m) || r == PeerWritten(s, m));
      assert Writes(s, ms, r);
      RewrittenExactly(s, plan, r);
    }
  }

  lemma CuredMeansCurable(s: seq<Token>, plan: Plan)
    requires NamesOnce(s)
    requires
      var t := EditAll(s, MismatchesOf(s, plan, Entries(s, "effected")));
      MismatchesOf(t, plan, Entries(t, "effected")) == []
    ensures NoSharedRange(s, plan, Entries(s, "effected")) && StaleAreExact(s, plan, Entries(s, "effected"))
  {
    CuredWereExact(s, plan);
    forall f, g | f in Entries(s, "effected") && g in Entries(s, "effected") && ShareRange(s, plan, f, g)
      ensures Expected(plan, f.name) == Expected(plan, g.name)
    {
      CuredRanges(s, plan, f);
      CuredRanges(s, plan, g);
    }
  }

  /** Under the condition, nothing is stale after the edits. */
  lemma CurableIsCured(s: seq<Token>, plan: Plan)
    requires NamesOnce(s)
    requires NoSharedRange(s, plan, Entries(s, "effected")) && StaleAreExact(s, plan, Entries(s, "effected"))
    ensures
      var t := EditAll(s, MismatchesOf(s, plan, Entries(s, "effected")));
      MismatchesOf(t, plan, Entries(t, "effected")) == []
  {
    var entries := Entries(s, "effected");
    var ms := MismatchesOf(s, plan, entries);
    var t := EditAll(s, ms);
    EditsAreLocal(s, ms);
    SameEntries(s, t, "effected");
    EntriesWithin(s, "effected");
    forall f | f in entries ensures !IsMismatched(t, plan, f) {
      SameRangeOf(s, t, plan, f);
      if Planned(s, plan, f) {
        var r := RangeOf(s, f);
        forall m | m in ms && RangeWritten(s, m) == r ensures m.to == Expected(plan, f.name) {
          WriterAgrees(s, plan, f, m);
        }
        RangeAfter(s, ms, r, Expected(plan, f.name));
        RewrittenExactly(s, plan, r);
      }
    }
    NoMismatches(t, plan, entries);
  }

  /**
   * Applying the ripples leaves no mismatch for the same plan exactly when no
   * two planned entries share their first range for different versions and
   * every stale range belongs to an entry the writer can find. Either way only
   * values change, and only in the fields the writer's search finds: the first
   * range and peer in a body, a nested entry's among them.
   */
  lemma RipplesCureExactly(s: seq<Token>, plan: Plan)
    requires NamesOnce(s)
    ensures
      var entries := Entries(s, "effected");
      var ms := MismatchesOf(s, plan, entries);
      var t := EditAll(s, ms);
      && (MismatchesOf(t, plan, Entries(t, "effected")) == [] <==>
            NoSharedRange(s, plan, entries) && StaleAreExact(s, plan, entries))
      && SameShape(s, t)
      && forall i :: 0 <= i < |s| && t[i] != s[i] ==>
           exists m :: m in ms && (i == RangeWritten(s, m) || i == PeerWritten(s, m))
  {
    var entries := Entries(s, "effected");
    var ms := MismatchesOf(s, plan, entries);
    var t := EditAll(s, ms);
    EditsAreLocal(s, ms);
    if MismatchesOf(t, plan, Entries(t, "effected")) == [] { CuredMeansCurable(s, plan); }
    if NoSharedRange(s, plan, entries) && StaleAreExact(s, plan, entries) { CurableIsCured(s, plan); }
  }

  // ---- an input for which it fails ----

  const INNER: string := "@effected/inner"
  const OUTER: string := "@effected/outer"

  /** An entry whose own range comes after a nested entry's. */
  function Nested(): seq<Token> {
    [Catalog("effected"), Packages,
     Entry(OUTER, true), Entry(INNER, true), Range("^1.0.0"), Close, Range("^1.0.0"), Close,
     Close, Close]
  }

  lemma NestedBody()
    ensures BraceAt(Nested(), 1) == 8 && BraceAt(Nested()[..8], 2) == 7 && BraceAt(Nested()[..8], 3) == 5
  {
    assert BraceAt(Nested(), 1) == 8;
    NestedInside(Nested()[..8]);
  }

  lemma NestedInside(body: seq<Token>)
    requires body == Nested()[..8]
    ensures BraceAt(body, 2) == 7 && BraceAt(body, 3) == 5
  {
    assert body == [Catalog("effected"), Packages, Entry(OUTER, true), Entry(INNER, true), Range("^1.0.0"), Close,
                    Range("^1.0.0"), Close];
    assert CloseFrom(body, 5, 1) == 5;
    assert CloseFrom(body, 4, 1) == 5;
    assert CloseFrom(body, 7, 1) == 7;
    assert CloseFrom(body, 6, 1) == 7;
    assert CloseFrom(body, 5, 2) == 7;
    assert CloseFrom(body, 4, 2) == 7;
    assert CloseFrom(body, 3, 1) == 7;
  }

  lemma NestedNames()
    ensures NamesOnce(Nested()) && OUTER != INNER
  {
    assert OUTER[10] != INNER[10];
  }

  lemma NestedEntries()
    ensures Entries(Nested(), "effected") == [Found(OUTER, 2, 7), Found(INNER, 3, 5)]
  {
    var s := Nested();
    NestedBody();
    NestedNames();
    assert EntriesUpTo(s, 2, 2, 8) == [];
    assert EntriesUpTo(s, 2, 3, 8) == [Found(OUTER, 2, 7)];
    assert EntriesUpTo(s, 2, 4, 8) == [Found(OUTER, 2, 7), Found(INNER, 3, 5)];
    assert EntriesUpTo(s, 2, 5, 8) == EntriesUpTo(s, 2, 4, 8);
    assert EntriesUpTo(s, 2, 6, 8) == EntriesUpTo(s, 2, 5, 8);
    assert EntriesUpTo(s, 2, 7, 8) == EntriesUpTo(s, 2, 6, 8);
    assert EntriesUpTo(s, 2, 8, 8) == EntriesUpTo(s, 2, 7, 8);
  }

  lemma NestedShares(plan: Plan)
    requires plan == map[OUTER := "2.0.0", INNER := "3.0.0"]
    ensures ShareRange(Nested(), plan, Found(OUTER, 2, 7), Found(INNER, 3, 5))
    ensures OUTER in plan && INNER in plan && Expected(plan, OUTER) != Expected(plan, INNER)
  {
    var s := Nested();
    NestedNames();
    assert FirstRange(s, 3, 6) == 4 && FirstRange(s, 2, 8) == 4;
    assert Expected(plan, OUTER)[1] == '2' && Expected(plan, INNER)[1] == '3';
  }

  ghost predicate Balanced(s: seq<Token>) {
    Depth(s, 0, |s|) == 0 && forall k :: 0 <= k <= |s| ==> Depth(s, 0, k) >= 0
  }

  /** The token at `r` stands directly in the body opened at `i`, not in one nested in it. */
  ghost predicate Directly(s: seq<Token>, i: nat, r: nat) {
    i < r < |s| && Depth(s, i, r) == 1 && forall k :: i < k <= r ==> Depth(s, i, k) >= 1
  }

  ghost predicate OwnRange(s: seq<Token>, i: nat, r: nat) {
    Directly(s, i, r) && s[r].Range?
  }

  ghost predicate OwnPeer(s: seq<Token>, i: nat, r: nat) {
    Directly(s, i, r) && s[r].Peer?
  }

  ghost predicate EachDeclaresRange(s: seq<Token>) {
    forall i: nat :: i < |s| && s[i].Entry? ==> exists r: nat :: OwnRange(s, i, r)
  }

  lemma NestedIsBalanced()
    ensures Balanced(Nested())
  {
    var s := Nested();
    assert Depth(s, 0, 1) == 1 && Depth(s, 0, 2) == 2 && Depth(s, 0, 3) == 3 && Depth(s, 0, 4) == 4 && Depth(s, 0, 5) == 4;
    assert Depth(s, 0, 6) == 3 && Depth(s, 0, 7) == 3 && Depth(s, 0, 8) == 2 && Depth(s, 0, 9) == 1 && Depth(s, 0, 10) == 0;
  }

  lemma NestedDeclares()
    ensures EachDeclaresRange(Nested())
  {
    var s := Nested();
    assert Depth(s, 2, 3) == 1 && Depth(s, 2, 4) == 2 && Depth(s, 2, 5) == 2 && Depth(s, 2, 6) == 1;
    assert OwnRange(s, 2, 6);
    assert Depth(s, 3, 4) == 1;
    assert OwnRange(s, 3, 4);
  }

  /** Balanced, every name once, every entry with a range of its own: and yet a mismatch is left. */
  lemma NestedStaysStale(plan: Plan)
    requires plan == map[OUTER := "2.0.0", INNER := "3.0.0"]
    ensures
      var s := Nested();
      var t := EditAll(s, MismatchesOf(s, plan, Entries(s, "effected")));
      && Balanced(s) && NamesOnce(s) && EachDeclaresRange(s)
      && MismatchesOf(t, plan, Entries(t, "effected")) != []
  {
    NestedNames();
    NestedIsBalanced();
    NestedDeclares();
    NestedShares(plan);
    NestedEntries();
    SharedRangeStaysStale(Nested(), plan, Found(OUTER, 2, 7), Found(INNER, 3, 5));
  }

  lemma SharedRangeStaysStale(s: seq<Token>, plan: Plan, f: Found, g: Found)
    requires NamesOnce(s) && f in Entries(s, "effected") && g in Entries(s, "effected")
    requires ShareRange(s, plan, f, g) && Expected(plan, f.name) != Expected(plan, g.name)
    ensures
      var t := EditAll(s, MismatchesOf(s, plan, Entries(s, "effected")));
      MismatchesOf(t, plan, Entries(t, "effected")) != []
  {
    RipplesCureExactly(s, plan);
  }
}

/**
 * What the reader lists and what the writer advertises, told from the tokens
 * alone: which entries of a catalog are read, in which order, which of them are
 * reported, and the peer that goes with a version.
 */
module CatalogRules {
  import opened Wrappers
  import opened CatalogText

  // ---- the peer range ----

  lemma {:induction false} UpToDotIs(v: string, rest: string)
    requires '.' !in v
    ensures UpToDot(v + "." + rest) == v && UpToDot(v) == v
  {
    if v == "" {
      assert v + "." + rest == "." + rest;
    } else {
      UpToDotIs(v[1..], rest);
      assert (v + "." + rest)[1..] == v[1..] + "." + rest;
    }
  }

  /** A version `major.minor.…` is advertised from `major.minor.0` on; what is missing counts as zero. */
  lemma PeerRule(major: string, minor: string, rest: string)
    requires '.' !in major && '.' !in minor
    ensures PeerFor(major + "." + minor + "." + rest) == "^" + major + "." + minor + ".0"
    ensures PeerFor(major + "." + minor) == "^" + major + "." + minor + ".0"
    ensures PeerFor(major) == "^" + major + ".0.0"
  {
    UpToDotIs(minor, rest);
    UpToDotIs(major, minor + "." + rest);
    UpToDotIs(major, minor);
    assert major + "." + minor + "." + rest == major + "." + (minor + "." + rest);
    assert (major + "." + (minor + "." + rest))[|major| + 1..] == minor + "." + rest;
    assert (major + "." + minor)[|major| + 1..] == minor;
    assert "^" + major + "." + "0" + ".0" == "^" + major + ".0.0";
  }

  // ---- the list of a catalog ----

  /** The list of this catalog: the first one after the catalog's first mention, and where its brace closes. */
  ghost predicate ListAt(s: seq<Token>, catalog: string, anchor: nat, packages: nat, close: nat) {
    && anchor <= packages < |s| && s[anchor] == Catalog(catalog) && s[packages].Packages?
    && (forall k :: 0 <= k < anchor ==> s[k] != Catalog(catalog))
    && (forall k :: anchor <= k < packages ==> !s[k].Packages?)
    && Closes(s, packages, close)
  }

  lemma {:induction false} FirstCatalogIs(s: seq<Token>, name: string, i: nat)
    requires i <= |s|
    ensures
      var r := FirstCatalog(s, name, i);
      && (r != -1 ==> s[r] == Catalog(name))
      && forall k :: i <= k < (if r == -1 then |s| else r) ==> s[k] != Catalog(name)
    decreases |s| - i
  {
    if i < |s| && s[i] != Catalog(name) { FirstCatalogIs(s, name, i + 1); }
  }

  lemma {:induction false} FirstPackagesIs(s: seq<Token>, i: nat)
    requires i <= |s|
    ensures
      var r := FirstPackages(s, i);
      && (r != -1 ==> s[r].Packages?)
      && forall k :: i <= k < (if r == -1 then |s| else r) ==> !s[k].Packages?
    decreases |s| - i
  {
    if i < |s| && !s[i].Packages? { FirstPackagesIs(s, i + 1); }
  }

  lemma OneClose(s: seq<Token>, open: nat, c: nat, d: nat)
    requires Closes(s, open, c) && Closes(s, open, d)
    ensures c == d
  {
  }

  lemma BraceIs(s: seq<Token>, open: nat, c: nat)
    requires open < |s| && Opens(s[open])
    ensures BraceAt(s, open) == c <==> Closes(s, open, c)
  {
    BraceCloses(s, open);
    assert NextOpen(s, open) == open;
    if Closes(s, open, c) && BraceAt(s, open) != -1 { OneClose(s, open, c, BraceAt(s, open)); }
  }

  /** Where the list is, the entries are those read from it; where there is none, there are none. */
  lemma ListFound(s: seq<Token>, catalog: string, anchor: nat, packages: nat, close: nat)
    requires ListAt(s, catalog, anchor, packages, close)
    ensures Entries(s, catalog) == EntriesUpTo(s, packages + 1, close, close)
  {
    FirstCatalogIs(s, catalog, 0);
    FirstPackagesIs(s, anchor);
    BraceIs(s, packages, close);
  }

  lemma NoListNoEntries(s: seq<Token>, catalog: string)
    requires forall anchor, packages, close :: !ListAt(s, catalog, anchor, packages, close)
    ensures Entries(s, catalog) == []
  {
    FirstCatalogIs(s, catalog, 0);
    var anchor := FirstCatalog(s, catalog, 0);
    if anchor != -1 {
      FirstPackagesIs(s, anchor);
      var packages := FirstPackages(s, anchor);
      if packages != -1 && BraceAt(s, packages) != -1 {
        BraceIs(s, packages, BraceAt(s, packages));
        assert ListAt(s, catalog, anchor, packages, BraceAt(s, packages));
      }
    }
  }

  // ---- its entries ----

  /** A head in `[from, to)` whose own brace closes before `end`. */
  ghost predicate IsHead(s: seq<Token>, from: nat, to: nat, end: nat, f: Found) {
    from <= f.at < to && f.at < |s| && s[f.at].Entry? && s[f.at].name == f.name && Closes(s, f.at, f.close) && f.close < end
  }

  lemma {:induction false} DepthInSlice(s: seq<Token>, end: nat, a: nat, b: nat)
    requires a <= b <= end <= |s|
    ensures Depth(s[..end], a, b) == Depth(s, a, b)
    decreases b
  {
    if a < b { DepthInSlice(s, end, a, b - 1); }
  }

  lemma ClosesInSlice(s: seq<Token>, end: nat, open: nat, c: nat)
    requires open < end <= |s|
    ensures Closes(s[..end], open, c) <==> Closes(s, open, c) && c < end
  {
    if open < c < end {
      forall k | open <= k <= c + 1 ensures Depth(s[..end], open, k) == Depth(s, open, k) { DepthInSlice(s, end, open, k); }
    }
  }

  lemma HeadReads(s: seq<Token>, end: nat, k: nat, c: nat)
    requires k < end <= |s| && s[k].Entry?
    ensures BraceAt(s[..end], k) == c <==> Closes(s, k, c) && c < end
  {
    BraceIs(s[..end], k, c);
    ClosesInSlice(s, end, k, c);
  }

  ghost predicate Distinct(entries: seq<Found>) {
    forall i, j :: 0 <= i < j < |entries| ==> entries[i].name != entries[j].name
  }

  lemma {:induction false} PutExactly(entries: seq<Found>, f: Found)
    requires Distinct(entries)
    ensures forall g :: g in Put(entries, f) <==> g == f || (g in entries && g.name != f.name)
  {
    if entries != [] {
      assert entries == [entries[0]] + entries[1..];
      PutExactly(entries[1..], f);
    }
  }

  lemma {:induction false} PutNames(entries: seq<Found>, f: Found)
    ensures
      var put := Put(entries, f);
      && |entries| <= |put| <= |entries| + 1
      && (forall i :: 0 <= i < |entries| ==> put[i].name == entries[i].name)
      && (|put| > |entries| ==> put[|entries|] == f && forall e :: e in entries ==> e.name != f.name)
  {
    if entries != [] && entries[0].name != f.name {
      PutNames(entries[1..], f);
      forall i | 0 <= i < |entries| ensures Put(entries, f)[i].name == entries[i].name {
        if i > 0 { assert entries[i] == entries[1..][i - 1]; }
      }
    }
  }

  lemma PutDistinct(entries: seq<Found>, f: Found)
    requires Distinct(entries)
    ensures Distinct(Put(entries, f))
  {
    PutNames(entries, f);
    var put := Put(entries, f);
    forall i, j | 0 <= i < j < |put| ensures put[i].name != put[j].name {
      if j == |entries| { assert entries[i] in entries; }
    }
  }

  ghost predicate IsLastHead(s: seq<Token>, from: nat, to: nat, end: nat, f: Found) {
    IsHead(s, from, to, end, f) && forall g :: IsHead(s, from, to, end, g) && g.name == f.name ==> g.at <= f.at
  }

  /** These entries are, each once, the last heads up to `k`. */
  ghost predicate ListsLast(s: seq<Token>, from: nat, k: nat, end: nat, entries: seq<Found>) {
    Distinct(entries) && forall f :: f in entries <==> IsLastHead(s, from, k, end, f)
  }

  lemma {:induction false} UpToExactly(s: seq<Token>, from: nat, k: nat, end: nat)
    requires from <= k <= end <= |s|
    ensures ListsLast(s, from, k, end, EntriesUpTo(s, from, k, end))
    decreases k
  {
    if k > from {
      UpToExactly(s, from, k - 1, end);
      var before, close := EntriesUpTo(s, from, k - 1, end), BraceAt(s[..end], k - 1);
      if s[k - 1].Entry? && close != -1 {
        HeadReads(s, end, k - 1, close);
        PutLists(s, from, k, end, before, Found(s[k - 1].name, k - 1, close));
      } else {
        forall g ensures g in before <==> IsLastHead(s, from, k, end, g) { NoHeadNext(s, from, k, end, g); }
      }
    }
  }

  lemma PutLists(s: seq<Token>, from: nat, k: nat, end: nat, before: seq<Found>, f: Found)
    requires from < k <= end <= |s| && ListsLast(s, from, k - 1, end, before)
    requires f.at == k - 1 && IsHead(s, from, k, end, f)
    ensures ListsLast(s, from, k, end, Put(before, f))
  {
    PutExactly(before, f);
    PutDistinct(before, f);
    forall g ensures g in Put(before, f) <==> IsLastHead(s, from, k, end, g) { LastHeadNext(s, from, k, end, f, g); }
  }

  lemma LastHeadNext(s: seq<Token>, from: nat, k: nat, end: nat, f: Found, g: Found)
    requires from < k <= end <= |s| && f.at == k - 1 && IsHead(s, from, k, end, f)
    ensures IsLastHead(s, from, k, end, g) <==> g == f || (IsLastHead(s, from, k - 1, end, g) && g.name != f.name)
  {
    forall h | IsHead(s, from, k, end, h) ensures h == f || IsHead(s, from, k - 1, end, h) {
      if h.at == k - 1 { OneClose(s, k - 1, h.close, f.close); }
    }
    if IsLastHead(s, from, k - 1, end, g) && g.name != f.name { assert IsHead(s, from, k, end, g); }
    forall h | IsHead(s, from, k - 1, end, h) ensures IsHead(s, from, k, end, h) {}
  }

  lemma NoHeadNext(s: seq<Token>, from: nat, k: nat, end: nat, g: Found)
    requires from < k <= end <= |s| && !(s[k - 1].Entry? && BraceAt(s[..end], k - 1) != -1)
    ensures IsLastHead(s, from, k, end, g) <==> IsLastHead(s, from, k - 1, end, g)
  {
    forall h | IsHead(s, from, k, end, h) ensures IsHead(s, from, k - 1, end, h) {
      if h.at == k - 1 { HeadReads(s, end, k - 1, h.close); }
    }
    forall h | IsHead(s, from, k - 1, end, h) ensures IsHead(s, from, k, end, h) {}
  }

  /** The entries of a catalog are, name by name, the last head in its list whose brace closes within it. */
  lemma EntriesExactly(s: seq<Token>, catalog: string, anchor: nat, packages: nat, close: nat, f: Found)
    requires ListAt(s, catalog, anchor, packages, close)
    ensures f in Entries(s, catalog) <==> IsLastHead(s, packages + 1, close, close, f)
  {
    ListFound(s, catalog, anchor, packages, close);
    UpToExactly(s, packages + 1, close, close);
  }

  // ---- their order ----

  ghost predicate IsFirstHead(s: seq<Token>, from: nat, to: nat, end: nat, f: Found) {
    IsHead(s, from, to, end, f) && forall g :: IsHead(s, from, to, end, g) && g.name == f.name ==> f.at <= g.at
  }

  /** Entry `i` has its first head at `f`, and a later entry `j` at `g`. */
  ghost predicate InTurn(s: seq<Token>, from: nat, to: nat, end: nat, entries: seq<Found>, i: int, j: int, f: Found, g: Found) {
    && 0 <= i < j < |entries| && f.name == entries[i].name && g.name == entries[j].name
    && IsFirstHead(s, from, to, end, f) && IsFirstHead(s, from, to, end, g)
  }

  ghost predicate HasName(entries: seq<Found>, name: string) {
    exists i :: 0 <= i < |entries| && entries[i].name == name
  }

  /** Every head's name is listed, and names are in the order of their first heads. */
  ghost predicate InOrder(s: seq<Token>, from: nat, to: nat, end: nat, entries: seq<Found>) {
    && (forall g :: IsHead(s, from, to, end, g) ==> HasName(entries, g.name))
    && (forall i, j, f, g :: InTurn(s, from, to, end, entries, i, j, f, g) ==> f.at < g.at)
  }

  lemma PutKeepsNames(entries: seq<Found>, f: Found, name: string)
    ensures HasName(Put(entries, f), name) <==> HasName(entries, name) || name == f.name
  {
    PutNames(entries, f);
    var put := Put(entries, f);
    PutMembers(entries, f);
    if i :| 0 <= i < |put| && put[i].name == name { assert put[i] in put; }
    if i :| 0 <= i < |entries| && entries[i].name == name { assert put[i].name == name; }
    if name == f.name && |put| == |entries| { PutReplaces(entries, f); }
  }

  lemma {:induction false} PutReplaces(entries: seq<Found>, f: Found)
    ensures f in Put(entries, f)
  {
    if entries != [] && entries[0].name != f.name { PutReplaces(entries[1..], f); }
  }

  /** A first head up to `k` that is not at `k - 1` is one up to `k - 1`. */
  lemma FirstHeadBefore(s: seq<Token>, from: nat, k: nat, end: nat, f: Found)
    requires from < k && IsFirstHead(s, from, k, end, f) && f.at < k - 1
    ensures IsFirstHead(s, from, k - 1, end, f)
  {
    forall h | IsHead(s, from, k - 1, end, h) ensures IsHead(s, from, k, end, h) {}
  }

  lemma PutInTurn(s: seq<Token>, from: nat, k: nat, end: nat, before: seq<Found>, head: Found, i: int, j: int, f: Found, g: Found)
    requires from < k && InOrder(s, from, k - 1, end, before) && Distinct(before)
    requires forall e :: e in before ==> IsHead(s, from, k - 1, end, e)
    requires InTurn(s, from, k, end, Put(before, head), i, j, f, g) && head.at == k - 1 && IsHead(s, from, k, end, head)
    ensures f.at < g.at
  {
    PutNames(before, head);
    PutDistinct(before, head);
    if g.at < k - 1 {
      FirstHeadBefore(s, from, k, end, g);
      assert HasName(before, g.name);
      var e := before[i];
      assert e in before && IsHead(s, from, k, end, e) && e.name == f.name;
      FirstHeadBefore(s, from, k, end, f);
      assert InTurn(s, from, k - 1, end, before, i, j, f, g);
    }
  }

  lemma {:induction false} UpToInOrder(s: seq<Token>, from: nat, k: nat, end: nat)
    requires from <= k <= end <= |s|
    ensures InOrder(s, from, k, end, EntriesUpTo(s, from, k, end))
    decreases k
  {
    if k > from {
      UpToInOrder(s, from, k - 1, end);
      UpToExactly(s, from, k - 1, end);
      var before, close := EntriesUpTo(s, from, k - 1, end), BraceAt(s[..end], k - 1);
      if s[k - 1].Entry? && close != -1 {
        HeadReads(s, end, k - 1, close);
        PutInOrder(s, from, k, end, before, Found(s[k - 1].name, k - 1, close));
      } else {
        SkipInOrder(s, from, k, end, before);
      }
    }
  }

  lemma PutInOrder(s: seq<Token>, from: nat, k: nat, end: nat, before: seq<Found>, head: Found)
    requires from < k <= end <= |s| && InOrder(s, from, k - 1, end, before) && ListsLast(s, from, k - 1, end, before)
    requires head.at == k - 1 && IsHead(s, from, k, end, head)
    ensures InOrder(s, from, k, end, Put(before, head))
  {
    var put := Put(before, head);
    forall g | IsHead(s, from, k, end, g) ensures HasName(put, g.name) {
      PutKeepsNames(before, head, g.name);
      if g.at < k - 1 { assert IsHead(s, from, k - 1, end, g); }
    }
    forall i, j, f, g | InTurn(s, from, k, end, put, i, j, f, g) ensures f.at < g.at {
      PutInTurn(s, from, k, end, before, head, i, j, f, g);
    }
  }

  lemma SkipInOrder(s: seq<Token>, from: nat, k: nat, end: nat, before: seq<Found>)
    requires from < k <= end <= |s| && InOrder(s, from, k - 1, end, before)
    requires !(s[k - 1].Entry? && BraceAt(s[..end], k - 1) != -1)
    ensures InOrder(s, from, k, end, before)
  {
    forall g | IsHead(s, from, k, end, g) ensures IsHead(s, from, k - 1, end, g) {
      if g.at == k - 1 { HeadReads(s, end, k - 1, g.close); }
    }
    forall i, j, f, g | InTurn(s, from, k, end, before, i, j, f, g) ensures f.at < g.at {
      FirstHeadBefore(s, from, k, end, f);
      FirstHeadBefore(s, from, k, end, g);
      assert InTurn(s, from, k - 1, end, before, i, j, f, g);
    }
  }

  /** They are listed in the order of their names' first heads. */
  lemma EntriesInOrder(s: seq<Token>, catalog: string, anchor: nat, packages: nat, close: nat, i: int, j: int, f: Found, g: Found)
    requires ListAt(s, catalog, anchor, packages, close)
    requires InTurn(s, packages + 1, close, close, Entries(s, catalog), i, j, f, g)
    ensures f.at < g.at
  {
    ListFound(s, catalog, anchor, packages, close);
    UpToInOrder(s, packages + 1, close, close);
  }

  // ---- what is reported of them ----

  /** The first range between the entry's head and its closing brace is not the planned one. */
  ghost predicate Reported(s: seq<Token>, plan: Plan, f: Found, r: nat, m: Mismatch) {
    && f.at <= r <= f.close < |s| && s[r].Range? && (forall k :: f.at <= k < r ==> !s[k].Range?)
    && m.pkg == f.name && f.name in plan && m.from == s[r].value && m.to == "^" + plan[f.name] && m.from != m.to
  }

  lemma {:induction false} OfEntries(s: seq<Token>, plan: Plan, entries: seq<Found>, m: Mismatch)
    requires forall f :: f in entries ==> Within(s, f)
    ensures m in MismatchesOf(s, plan, entries) <==> exists f, r: nat :: f in entries && Reported(s, plan, f, r, m)
    decreases |entries|
  {
    if entries != [] {
      var front, last := entries[..|entries| - 1], entries[|entries| - 1];
      assert entries == front + [last];
      OfEntries(s, plan, front, m);
      OfOne(s, plan, last, m);
      if m in MismatchAt(s, plan, last) { assert last in entries; }
    }
  }

  lemma OfOne(s: seq<Token>, plan: Plan, f: Found, m: Mismatch)
    requires Within(s, f)
    ensures m in MismatchAt(s, plan, f) <==> exists r: nat :: Reported(s, plan, f, r, m)
  {
    var r := RangeOf(s, f);
    if m in MismatchAt(s, plan, f) { assert Reported(s, plan, f, r, m); }
    if q: nat :| Reported(s, plan, f, q, m) { assert q == r; }
  }

  /** A mismatch is reported exactly for a planned entry whose first range is not the caret of its planned version. */
  lemma MismatchesExactly(s: seq<Token>, plan: Plan, catalog: string, m: Mismatch)
    ensures m in MismatchesOf(s, plan, Entries(s, catalog)) <==>
      exists f, r: nat :: f in Entries(s, catalog) && Reported(s, plan, f, r, m)
  {
    EntriesWithin(s, catalog);
    OfEntries(s, plan, Entries(s, catalog), m);
  }
}

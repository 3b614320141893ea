/**
 * Whose fields the writer's edits touch. Reader and writer both take the first
 * range and the first peer in an entry's body for its own, and where entries
 * nest those may be a nested entry's. The edits keep to the own fields of the
 * entries they are made for exactly when, in each of them, the first range and
 * the first peer stand directly in it.
 */
module CatalogLocality {
  import opened Wrappers
  import opened CatalogText
  import opened CatalogRipples

  function Ripples(s: seq<Token>, plan: Plan): seq<Mismatch> {
    MismatchesOf(s, plan, Entries(s, "effected"))
  }

  function Rippled(s: seq<Token>, plan: Plan): (t: seq<Token>)
    ensures |t| == |s|
  {
    EditAll(s, Ripples(s, plan))
  }

  predicate IsStale(s: seq<Token>, plan: Plan, f: Found) {
    f in Entries(s, "effected") && IsMismatched(s, plan, f)
  }

  /** A mismatched entry that the writer finds, and edits. */
  predicate IsEdited(s: seq<Token>, plan: Plan, f: Found) {
    IsStale(s, plan, f) && IsExact(s, f)
  }

  function PeerOf(s: seq<Token>, f: Found): int
    requires Within(s, f)
  {
    FirstPeer(s, f.at, f.close)
  }

  ghost predicate FirstRangeOwn(s: seq<Token>, f: Found)
    requires Within(s, f) && RangeOf(s, f) != -1
  {
    OwnRange(s, f.at, RangeOf(s, f))
  }

  /** The first range in the entry's body, and the first peer if there is one, stand directly in it. */
  ghost predicate FirstFieldsOwn(s: seq<Token>, f: Found)
    requires Within(s, f) && RangeOf(s, f) != -1
  {
    FirstRangeOwn(s, f) && (PeerOf(s, f) != -1 ==> OwnPeer(s, f.at, PeerOf(s, f)))
  }

  // ---- bodies and what stands in them ----

  lemma {:induction false} DepthAdds(s: seq<Token>, a: nat, b: nat, c: nat)
    requires a <= b <= c <= |s|
    ensures Depth(s, a, c) == Depth(s, a, b) + Depth(s, b, c)
    decreases c - b
  {
    if b < c { DepthAdds(s, a, b, c - 1); }
  }

  lemma EntryCloses(s: seq<Token>, f: Found)
    requires f in Entries(s, "effected")
    ensures Within(s, f) && s[f.at].Entry? && s[f.at].name == f.name && Closes(s, f.at, f.close)
  {
    EntriesWithin(s, "effected");
    BraceCloses(s, f.at);
    assert NextOpen(s, f.at) == f.at;
  }

  /** An entry is known by where it stands. */
  lemma EntryAt(s: seq<Token>, f: Found, g: Found)
    requires f in Entries(s, "effected") && g in Entries(s, "effected") && f.at == g.at
    ensures f == g
  {
    EntriesWithin(s, "effected");
  }

  lemma DirectlyInBody(s: seq<Token>, f: Found, i: nat)
    requires f in Entries(s, "effected") && Directly(s, f.at, i) && !s[i].Close?
    ensures i < f.close
  {
    EntryCloses(s, f);
  }

  /** Of all the bodies a token is in, the one it stands directly in is the innermost. */
  lemma OwnerIsInnermost(s: seq<Token>, f: Found, h: Found, i: nat)
    requires f in Entries(s, "effected") && h in Entries(s, "effected") && f != h
    requires Directly(s, f.at, i) && h.at < i <= h.close
    ensures h.at < f.at
  {
    EntryCloses(s, h);
    if f.at == h.at {
      EntryAt(s, f, h);
    } else if f.at < h.at {
      DepthAdds(s, f.at, h.at, i);
    }
  }

  /** A token stands directly in one entry at most. */
  lemma OneOwner(s: seq<Token>, f: Found, g: Found, i: nat)
    requires f in Entries(s, "effected") && g in Entries(s, "effected")
    requires Directly(s, f.at, i) && Directly(s, g.at, i) && !s[i].Close?
    ensures f == g
  {
    DirectlyInBody(s, f, i);
    DirectlyInBody(s, g, i);
    if f != g {
      OwnerIsInnermost(s, f, g, i);
      OwnerIsInnermost(s, g, f, i);
    }
  }

  // ---- what the edits write ----

  /** The mismatch of an edited entry rewrites the first range and the first peer in its body. */
  lemma EditedWrites(s: seq<Token>, plan: Plan, f: Found)
    requires NamesOnce(s) && IsEdited(s, plan, f)
    ensures
      var m := MismatchAt(s, plan, f)[0];
      && m in Ripples(s, plan) && m.to == Expected(plan, f.name)
      && RangeWritten(s, m) == RangeOf(s, f) && PeerWritten(s, m) == PeerOf(s, f)
  {
    ReadsWhatIsWritten(s, "effected", f);
    MismatchesAre(s, plan, Entries(s, "effected"), MismatchAt(s, plan, f)[0]);
  }

  /** Every field written is one of those. */
  lemma WrittenByEdited(s: seq<Token>, plan: Plan, m: Mismatch) returns (f: Found)
    requires NamesOnce(s) && m in Ripples(s, plan)
    ensures IsStale(s, plan, f) && m == MismatchAt(s, plan, f)[0]
    ensures RangeWritten(s, m) != -1 || PeerWritten(s, m) != -1 ==> IsEdited(s, plan, f)
  {
    MismatchesAre(s, plan, Entries(s, "effected"), m);
    f :| f in Entries(s, "effected") && IsMismatched(s, plan, f) && m == MismatchAt(s, plan, f)[0];
    ReadsWhatIsWritten(s, "effected", f);
  }

  /** An edit writes nothing but own fields of the entry whose mismatch it answers. */
  ghost predicate KeepsToOwn(s: seq<Token>, f: Found, m: Mismatch) {
    && (RangeWritten(s, m) != -1 ==> OwnRange(s, f.at, RangeWritten(s, m)))
    && (PeerWritten(s, m) != -1 ==> OwnPeer(s, f.at, PeerWritten(s, m)))
  }

  /**
   * Every edit keeps to the own fields of the entry it is made for exactly when,
   * in each mismatched entry the writer finds, the first range and the first
   * peer stand directly in it.
   */
  lemma EditsKeepToOwnExactly(s: seq<Token>, plan: Plan)
    requires NamesOnce(s)
    ensures
      (forall f :: IsStale(s, plan, f) ==> KeepsToOwn(s, f, MismatchAt(s, plan, f)[0])) <==>
      (forall f :: IsEdited(s, plan, f) ==> FirstFieldsOwn(s, f))
  {
    forall f | IsStale(s, plan, f)
      ensures KeepsToOwn(s, f, MismatchAt(s, plan, f)[0]) <==> (IsEdited(s, plan, f) ==> FirstFieldsOwn(s, f))
    {
      ReadsWhatIsWritten(s, "effected", f);
      if IsEdited(s, plan, f) { EditedWrites(s, plan, f); }
    }
  }

  // ---- which ranges change ----

  /** A range that is written ends with the value of one of its edits. */
  lemma {:induction false} RangeIsSomeEdits(s: seq<Token>, ms: seq<Mismatch>, r: nat)
    requires r < |s| && s[r].Range?
    ensures
      if Writes(s, ms, r) then exists m :: m in ms && RangeWritten(s, m) == r && EditAll(s, ms)[r] == Range(m.to)
      else EditAll(s, ms)[r] == s[r]
    decreases |ms|
  {
    if ms != [] {
      var t := EditOne(s, ms[0]);
      EditOneIs(s, ms[0]);
      assert Blank(s[r]) == Blank(t[r]) && ms[0] in ms;
      RangeIsSomeEdits(t, ms[1..], r);
      forall m | m in ms[1..] ensures m in ms && RangeWritten(t, m) == RangeWritten(s, m) { SameWritten(s, t, m); }
      if Writes(t, ms[1..], r) {
        var m :| m in ms[1..] && RangeWritten(t, m) == r && EditAll(t, ms[1..])[r] == Range(m.to);
        assert RangeWritten(s, m) == r;
      } else if RangeWritten(s, ms[0]) != r {
        forall m | m in ms ensures RangeWritten(s, m) != r {
          if m != ms[0] { assert m in ms[1..]; }
        }
      }
    }
  }

  /** The ranges that change are the first ones in the bodies of the edited entries. */
  lemma RangesThatChange(s: seq<Token>, plan: Plan, r: nat)
    requires NamesOnce(s) && r < |s| && s[r].Range?
    ensures Rippled(s, plan)[r] != s[r] <==> exists f :: IsEdited(s, plan, f) && RangeOf(s, f) == r
  {
    var ms := Ripples(s, plan);
    RangeIsSomeEdits(s, ms, r);
    RewrittenExactly(s, plan, r);
    if Writes(s, ms, r) {
      var m :| m in ms && RangeWritten(s, m) == r && Rippled(s, plan)[r] == Range(m.to);
      var f := WrittenByEdited(s, plan, m);
      EditedWrites(s, plan, f);
    }
    if f :| IsEdited(s, plan, f) && RangeOf(s, f) == r { assert f in Entries(s, "effected"); }
  }

  /** The entry's own range changes. */
  ghost predicate OwnRangeChanges(s: seq<Token>, plan: Plan, f: Found) {
    exists i: nat :: OwnRange(s, f.at, i) && Rippled(s, plan)[i] != s[i]
  }

  /** Where another entry's edit takes `f`'s own range, that entry encloses `f`. */
  lemma TakerEncloses(s: seq<Token>, plan: Plan, f: Found, h: Found, i: nat)
    requires IsEdited(s, plan, f) && IsEdited(s, plan, h) && f != h && OwnRange(s, f.at, i) && RangeOf(s, h) == i
    ensures h.at < f.at
  {
    EntryCloses(s, h);
    assert s[h.at].Entry?;
    OwnerIsInnermost(s, f, h, i);
  }

  /** If every edited entry's own range changes, no other entry's edit has taken it. */
  lemma NobodyTakes(s: seq<Token>, plan: Plan, f: Found, h: Found, i: nat)
    requires NamesOnce(s) && forall g :: IsEdited(s, plan, g) ==> OwnRangeChanges(s, plan, g)
    requires IsEdited(s, plan, f) && IsEdited(s, plan, h) && OwnRange(s, f.at, i) && RangeOf(s, h) == i
    ensures f == h
  {
    if f != h {
      TakerEncloses(s, plan, f, h, i);
      var j: nat :| OwnRange(s, h.at, j) && Rippled(s, plan)[j] != s[j];
      RangesThatChange(s, plan, j);
      var h2 :| IsEdited(s, plan, h2) && RangeOf(s, h2) == j;
      FirstComesFirst(s, f, h, h2, i, j);
      TakerEncloses(s, plan, h, h2, j);
    }
  }

  /** `h` reads `f`'s own range `i` before its own, `j`; so an entry that reads `j` begins after `i`. */
  lemma FirstComesFirst(s: seq<Token>, f: Found, h: Found, h2: Found, i: nat, j: nat)
    requires f in Entries(s, "effected") && h in Entries(s, "effected") && h2 in Entries(s, "effected") && f != h
    requires Within(s, h) && Within(s, h2)
    requires OwnRange(s, f.at, i) && RangeOf(s, h) == i && OwnRange(s, h.at, j) && RangeOf(s, h2) == j
    ensures h2.at > i
  {
    DirectlyInBody(s, h, j);
    if i == j { OneOwner(s, f, h, i); }
    assert i < j;
  }

  /**
   * The own range of each mismatched entry the writer finds is rewritten exactly
   * when in each of them the first range stands directly in it.
   */
  lemma OwnRangesChangeExactly(s: seq<Token>, plan: Plan)
    requires NamesOnce(s)
    ensures
      (forall f :: IsEdited(s, plan, f) ==> OwnRangeChanges(s, plan, f)) <==>
      (forall f :: IsEdited(s, plan, f) ==> FirstRangeOwn(s, f))
  {
    if forall f :: IsEdited(s, plan, f) ==> FirstRangeOwn(s, f) {
      forall f | IsEdited(s, plan, f) ensures OwnRangeChanges(s, plan, f) { OwnFirstChanges(s, plan, f); }
    }
    if forall f :: IsEdited(s, plan, f) ==> OwnRangeChanges(s, plan, f) {
      forall f | IsEdited(s, plan, f) ensures FirstRangeOwn(s, f) { ChangedIsFirst(s, plan, f); }
    }
  }

  lemma OwnFirstChanges(s: seq<Token>, plan: Plan, f: Found)
    requires NamesOnce(s) && IsEdited(s, plan, f) && FirstRangeOwn(s, f)
    ensures OwnRangeChanges(s, plan, f)
  {
    RangesThatChange(s, plan, RangeOf(s, f));
    assert OwnRange(s, f.at, RangeOf(s, f));
  }

  lemma ChangedIsFirst(s: seq<Token>, plan: Plan, f: Found)
    requires NamesOnce(s) && forall g :: IsEdited(s, plan, g) ==> OwnRangeChanges(s, plan, g)
    requires IsEdited(s, plan, f)
    ensures FirstRangeOwn(s, f)
  {
    var i: nat :| OwnRange(s, f.at, i) && Rippled(s, plan)[i] != s[i];
    RangesThatChange(s, plan, i);
    var h :| IsEdited(s, plan, h) && RangeOf(s, h) == i;
    NobodyTakes(s, plan, f, h, i);
  }

  // ---- the whole result, where the first fields are own ----

  lemma EditOnePeer(s: seq<Token>, m: Mismatch)
    ensures PeerWritten(s, m) != -1 ==> s[PeerWritten(s, m)].Peer?
    ensures PeerWritten(s, m) != -1 && m.to != "" ==> EditOne(s, m)[PeerWritten(s, m)] == Peer(PeerFor(m.to[1..]))
    ensures forall i :: 0 <= i < |s| && s[i].Peer? && i != PeerWritten(s, m) ==> EditOne(s, m)[i] == s[i]
  {
    var f := Edited(s, m.pkg);
    if f.Some? {
      var t := WriteRange(s, f.value, m.to);
      assert SameShape(s, t);
      SameFields(s, t, f.value.at, f.value.close);
    }
  }

  ghost predicate WritesPeer(s: seq<Token>, ms: seq<Mismatch>, p: int) {
    exists m :: m in ms && PeerWritten(s, m) == p
  }

  lemma {:induction false} PeerAfter(s: seq<Token>, ms: seq<Mismatch>, p: nat, to: string)
    requires p < |s| && s[p].Peer? && to != ""
    requires forall m :: m in ms && PeerWritten(s, m) == p ==> m.to == to
    ensures EditAll(s, ms)[p] == if WritesPeer(s, ms, p) then Peer(PeerFor(to[1..])) else s[p]
    decreases |ms|
  {
    if ms != [] {
      var t := EditOne(s, ms[0]);
      EditOneIs(s, ms[0]);
      EditOnePeer(s, ms[0]);
      assert Blank(s[p]) == Blank(t[p]);
      assert ms[0] in ms;
      forall m | m in ms[1..] ensures PeerWritten(t, m) == PeerWritten(s, m) && m in ms { SameWritten(s, t, m); }
      PeerAfter(t, ms[1..], p, to);
      assert WritesPeer(s, ms, p) <==> PeerWritten(s, ms[0]) == p || WritesPeer(t, ms[1..], p) by {
        if m :| m in ms && PeerWritten(s, m) == p { assert m == ms[0] || m in ms[1..]; }
        if m :| m in ms[1..] && PeerWritten(t, m) == p { assert m in ms; }
      }
    }
  }

  ghost predicate AllFirstFieldsOwn(s: seq<Token>, plan: Plan) {
    forall f :: IsEdited(s, plan, f) ==> FirstFieldsOwn(s, f)
  }

  lemma OwnRangeSet(s: seq<Token>, plan: Plan, f: Found)
    requires NamesOnce(s) && AllFirstFieldsOwn(s, plan) && IsEdited(s, plan, f)
    ensures Rippled(s, plan)[RangeOf(s, f)] == Range(Expected(plan, f.name))
  {
    var ms, r := Ripples(s, plan), RangeOf(s, f);
    forall m | m in ms && RangeWritten(s, m) == r ensures m.to == Expected(plan, f.name) {
      var g := WrittenByEdited(s, plan, m);
      EditedWrites(s, plan, g);
      OneOwner(s, f, g, r);
    }
    EditedWrites(s, plan, f);
    RangeAfter(s, ms, r, Expected(plan, f.name));
  }

  lemma OwnPeerSet(s: seq<Token>, plan: Plan, f: Found)
    requires NamesOnce(s) && AllFirstFieldsOwn(s, plan) && IsEdited(s, plan, f) && PeerOf(s, f) != -1
    ensures Rippled(s, plan)[PeerOf(s, f)] == Peer(PeerFor(plan[f.name]))
  {
    var ms, p := Ripples(s, plan), PeerOf(s, f);
    forall m | m in ms && PeerWritten(s, m) == p ensures m.to == Expected(plan, f.name) {
      var g := WrittenByEdited(s, plan, m);
      EditedWrites(s, plan, g);
      OneOwner(s, f, g, p);
    }
    EditedWrites(s, plan, f);
    assert Expected(plan, f.name)[1..] == plan[f.name];
    PeerAfter(s, ms, p, Expected(plan, f.name));
  }

  /**
   * Where the first fields are own, the edits give each mismatched entry the
   * writer finds its planned range and peer, in its own fields, and change
   * nothing else.
   */
  lemma OwnFieldsRewritten(s: seq<Token>, plan: Plan)
    requires NamesOnce(s) && AllFirstFieldsOwn(s, plan)
    ensures forall f :: IsEdited(s, plan, f) ==>
      && OwnRange(s, f.at, RangeOf(s, f)) && Rippled(s, plan)[RangeOf(s, f)] == Range(Expected(plan, f.name))
      && (PeerOf(s, f) != -1 ==>
            && OwnPeer(s, f.at, PeerOf(s, f))
            && Rippled(s, plan)[PeerOf(s, f)] == Peer(PeerFor(plan[f.name])))
    ensures forall i :: 0 <= i < |s| && Rippled(s, plan)[i] != s[i] ==>
      exists f :: IsEdited(s, plan, f) && (i == RangeOf(s, f) || i == PeerOf(s, f))
  {
    forall f | IsEdited(s, plan, f)
      ensures Rippled(s, plan)[RangeOf(s, f)] == Range(Expected(plan, f.name))
      ensures PeerOf(s, f) != -1 ==> Rippled(s, plan)[PeerOf(s, f)] == Peer(PeerFor(plan[f.name]))
    {
      OwnRangeSet(s, plan, f);
      if PeerOf(s, f) != -1 { OwnPeerSet(s, plan, f); }
    }
    EditsAreLocal(s, Ripples(s, plan));
    forall i | 0 <= i < |s| && Rippled(s, plan)[i] != s[i]
      ensures exists f :: IsEdited(s, plan, f) && (i == RangeOf(s, f) || i == PeerOf(s, f))
    {
      var m :| m in Ripples(s, plan) && (i == RangeWritten(s, m) || i == PeerWritten(s, m));
      var f := WrittenByEdited(s, plan, m);
      EditedWrites(s, plan, f);
    }
  }

  // ---- every planned entry's own range ----

  /** Planned entries that read their own ranges share none. */
  lemma OwnRangesUnshared(s: seq<Token>, plan: Plan)
    requires forall f :: f in Entries(s, "effected") && Planned(s, plan, f) ==> FirstRangeOwn(s, f)
    ensures NoSharedRange(s, plan, Entries(s, "effected"))
  {
    var entries := Entries(s, "effected");
    forall f, g | f in entries && g in entries && ShareRange(s, plan, f, g) ensures f == g {
      OneOwner(s, f, g, RangeOf(s, f));
    }
  }

  /**
   * Where the first range of every planned entry stands directly in it, each of
   * those ranges ends at the planned version exactly when every mismatched
   * entry is spelt the writer's way.
   */
  lemma OwnRangesPlanned(s: seq<Token>, plan: Plan)
    requires NamesOnce(s)
    requires forall f :: f in Entries(s, "effected") && Planned(s, plan, f) ==> FirstRangeOwn(s, f)
    ensures
      (forall f :: f in Entries(s, "effected") && Planned(s, plan, f) ==>
         Rippled(s, plan)[RangeOf(s, f)] == Range(Expected(plan, f.name))) <==>
      (forall f :: IsStale(s, plan, f) ==> IsExact(s, f))
  {
    if forall f :: IsStale(s, plan, f) ==> IsExact(s, f) {
      AllExactIsCured(s, plan);
      forall f | f in Entries(s, "effected") && Planned(s, plan, f)
        ensures Rippled(s, plan)[RangeOf(s, f)] == Range(Expected(plan, f.name))
      {
        CuredRanges(s, plan, f);
      }
    }
    if forall f :: f in Entries(s, "effected") && Planned(s, plan, f) ==>
         Rippled(s, plan)[RangeOf(s, f)] == Range(Expected(plan, f.name)) {
      forall f | IsStale(s, plan, f) ensures IsExact(s, f) { PlannedWasExact(s, plan, f); }
    }
  }

  lemma AllExactIsCured(s: seq<Token>, plan: Plan)
    requires NamesOnce(s)
    requires forall f :: f in Entries(s, "effected") && Planned(s, plan, f) ==> FirstRangeOwn(s, f)
    requires forall f :: IsStale(s, plan, f) ==> IsExact(s, f)
    ensures Ripples(Rippled(s, plan), plan) == []
  {
    var entries := Entries(s, "effected");
    OwnRangesUnshared(s, plan);
    forall f | f in entries && IsMismatched(s, plan, f)
      ensures exists g :: g in entries && IsMismatched(s, plan, g) && IsExact(s, g) && RangeOf(s, g) == RangeOf(s, f)
    {
      assert IsStale(s, plan, f);
    }
    RipplesCureExactly(s, plan);
  }

  lemma PlannedWasExact(s: seq<Token>, plan: Plan, f: Found)
    requires NamesOnce(s) && IsStale(s, plan, f)
    requires forall g :: g in Entries(s, "effected") && Planned(s, plan, g) ==> FirstRangeOwn(s, g)
    requires Rippled(s, plan)[RangeOf(s, f)] == Range(Expected(plan, f.name))
    ensures IsExact(s, f)
  {
    RangesThatChange(s, plan, RangeOf(s, f));
    var g :| IsEdited(s, plan, g) && RangeOf(s, g) == RangeOf(s, f);
    OneOwner(s, f, g, RangeOf(s, f));
  }

  // ---- an input for which a range that is not stale is rewritten ----

  const INNER_ENTRY: Found := Found(INNER, 3, 5)
  const OUTER_ENTRY: Found := Found(OUTER, 2, 7)

  lemma NestedRanges()
    ensures RangeOf(Nested(), OUTER_ENTRY) == 4 && IsExact(Nested(), OUTER_ENTRY)
    ensures OwnRange(Nested(), 2, 6) && OwnRange(Nested(), 3, 4)
  {
    var s := Nested();
    assert FirstRange(s, 3, 8) == 4 && FirstRange(s, 2, 8) == 4;
    assert Depth(s, 2, 3) == 1 && Depth(s, 2, 4) == 2 && Depth(s, 2, 5) == 2 && Depth(s, 2, 6) == 1;
    assert Depth(s, 3, 4) == 1;
  }

  lemma OuterIsStale(plan: Plan)
    requires plan == map[OUTER := "2.0.0"]
    ensures IsEdited(Nested(), plan, OUTER_ENTRY) && Expected(plan, OUTER) == "^2.0.0"
  {
    OuterExpects(plan);
    NestedRanges();
    OuterIsThere();
    assert Nested()[4] == Range("^1.0.0");
  }

  lemma OuterExpects(plan: Plan)
    requires plan == map[OUTER := "2.0.0"]
    ensures OUTER in plan && Expected(plan, OUTER) == "^2.0.0" && "^2.0.0" != "^1.0.0"
  {
    assert "^2.0.0"[1] != "^1.0.0"[1];
  }

  lemma OuterIsThere()
    ensures OUTER_ENTRY in Entries(Nested(), "effected")
  {
    NestedEntries();
    assert Entries(Nested(), "effected")[0] == OUTER_ENTRY;
  }

  /** Only the outer entry is planned, so it alone is edited. */
  lemma OnlyOuter(plan: Plan, f: Found)
    requires plan == map[OUTER := "2.0.0"] && f in Entries(Nested(), "effected") && f.name in plan
    ensures f == OUTER_ENTRY
  {
    NestedEntries();
    NestedNames();
  }

  lemma NestedRewrites(plan: Plan)
    requires plan == map[OUTER := "2.0.0"]
    ensures Rippled(Nested(), plan)[4] != Nested()[4] && Rippled(Nested(), plan)[6] == Nested()[6]
  {
    NestedNames();
    NestedRanges();
    OuterIsStale(plan);
    RangesThatChange(Nested(), plan, 4);
    RangesThatChange(Nested(), plan, 6);
    forall f | IsEdited(Nested(), plan, f) ensures RangeOf(Nested(), f) == 4 { OnlyOuter(plan, f); }
  }

  lemma NestedCured(plan: Plan)
    requires plan == map[OUTER := "2.0.0"]
    ensures Ripples(Rippled(Nested(), plan), plan) == []
  {
    var s, entries := Nested(), Entries(Nested(), "effected");
    NestedNames();
    NestedRanges();
    forall f, g | f in entries && g in entries && ShareRange(s, plan, f, g) ensures f == g {
      OnlyOuter(plan, f);
      OnlyOuter(plan, g);
    }
    forall f | f in entries && IsMismatched(s, plan, f) ensures IsExact(s, f) { OnlyOuter(plan, f); }
    RipplesCureExactly(s, plan);
  }

  lemma NestedNamesOuter(plan: Plan, m: Mismatch)
    requires plan == map[OUTER := "2.0.0"] && m in Ripples(Nested(), plan)
    ensures m.pkg == OUTER
  {
    NestedNames();
    var f := WrittenByEdited(Nested(), plan, m);
    OnlyOuter(plan, f);
  }

  /**
   * Balanced, every name once, every entry with a range of its own, and one
   * planned entry: every mismatch names it and none is left, and yet the range
   * that is rewritten is the nested entry's, and its own is not.
   */
  lemma NestedIsMiswritten(plan: Plan)
    requires plan == map[OUTER := "2.0.0"]
    ensures
      var s, t := Nested(), Rippled(Nested(), plan);
      && Balanced(s) && NamesOnce(s) && EachDeclaresRange(s)
      && (forall m :: m in Ripples(s, plan) ==> m.pkg == OUTER) && Ripples(t, plan) == []
      && s[3] == Entry(INNER, true) && OwnRange(s, 3, 4) && t[4] == Range("^2.0.0") != s[4]
      && s[2] == Entry(OUTER, true) && OwnRange(s, 2, 6) && t[6] == s[6]
  {
    NestedNames();
    NestedIsBalanced();
    NestedDeclares();
    NestedRanges();
    OuterIsStale(plan);
    NestedRewrites(plan);
    NestedCured(plan);
    CuredRanges(Nested(), plan, OUTER_ENTRY);
    forall m | m in Ripples(Nested(), plan) ensures m.pkg == OUTER { NestedNamesOuter(plan, m); }
  }
}

/** Merging config documents by priority: the deep merge, and the fold that applies it to every source. */
module ConfigMerge {
  import opened Wrappers

  datatype Proto = ObjectProto | NullProto | ClassProto(name: string)

  /**
   * A value of a document. An atom is anything that is never merged field by
   * field (a number, an array, a date); `source` tells whose atom it is.
   */
  datatype Value =
    | Atom(source: nat, id: int)
    | Record(proto: Proto, fields: map<string, Value>)

  const MAX_MERGE_DEPTH: nat := 1024
  const FORBIDDEN: set<string> := {"__proto__", "constructor", "prototype"}

  predicate IsPlain(v: Value) {
    v.Record? && !v.proto.ClassProto?
  }

  /** Whether two top-level values merge field by field. */
  predicate CanMerge(a: Value, b: Value) {
    (IsPlain(a) && IsPlain(b)) || (a.Record? && b.Record? && a.proto == b.proto)
  }

  function MergeRecords(base: Value, override: Value, depth: nat): (r: Value)
    requires base.Record? && override.Record? && depth <= MAX_MERGE_DEPTH
    ensures r.Record? && r.proto == override.proto
    ensures r.fields.Keys == (override.fields.Keys + base.fields.Keys) - FORBIDDEN
    decreases MAX_MERGE_DEPTH - depth
  {
    Record(override.proto,
           map key | key in (override.fields.Keys + base.fields.Keys) - FORBIDDEN ::
             MergedField(base, override, depth, key))
  }

  function MergedField(base: Value, override: Value, depth: nat, key: string): Value
    requires base.Record? && override.Record? && depth <= MAX_MERGE_DEPTH
    requires key in override.fields || key in base.fields
    decreases MAX_MERGE_DEPTH - depth, 0
  {
    if key !in override.fields then base.fields[key]
    else if depth < MAX_MERGE_DEPTH && key in base.fields
            && IsPlain(base.fields[key]) && IsPlain(override.fields[key]) then
      MergeRecords(base.fields[key], override.fields[key], depth + 1)
    else override.fields[key]
  }

  /** `override` over `base`. */
  function Deep(base: Value, override: Value): Value {
    if CanMerge(base, override) then MergeRecords(base, override, 1) else override
  }

  // ---- the fold over the sources, highest priority first ----

  function MergedFrom(sources: seq<Value>, i: nat): Value
    requires i < |sources|
    decreases |sources| - i
  {
    if i == |sources| - 1 then sources[i] else Deep(MergedFrom(sources, i + 1), sources[i])
  }

  method LayeredMerge(sources: seq<Value>) returns (merged: Value)
    requires sources != []
    ensures merged == MergedFrom(sources, 0)
  {
    merged := sources[|sources| - 1];
    var i := |sources| - 2;
    while i >= 0
      invariant -1 <= i <= |sources| - 2
      invariant merged == MergedFrom(sources, i + 1)
    {
      merged := Deep(merged, sources[i]);
      i := i - 1;
    }
  }

  // ---- paths ----

  function Lookup(v: Value, path: seq<string>): Option<Value>
    decreases |path|
  {
    if path == [] then Some(v)
    else if v.Record? && path[0] in v.fields then Lookup(v.fields[path[0]], path[1..])
    else None
  }

  predicate Mergeable(path: seq<string>) {
    0 < |path| <= MAX_MERGE_DEPTH && forall i :: 0 <= i < |path| ==> path[i] !in FORBIDDEN
  }

  /**
   * `over` leaves `v`'s value at `path` alone: it lacks the path, and every
   * record it does hold along the path is plain and meets a plain record of `v`.
   */
  predicate Spares(v: Value, over: Value, path: seq<string>)
    requires path != []
    decreases |path|
  {
    !(over.Record? && path[0] in over.fields)
    || (&& |path| > 1
        && IsPlain(over.fields[path[0]])
        && v.Record? && path[0] in v.fields && IsPlain(v.fields[path[0]])
        && Spares(v.fields[path[0]], over.fields[path[0]], path[1..]))
  }

  /** `m` holds `v`'s value at `path`, under records that are plain where `v`'s are. */
  predicate Carries(m: Value, v: Value, path: seq<string>)
    requires path != []
    decreases |path|
  {
    && m.Record? && v.Record? && path[0] in m.fields && path[0] in v.fields
    && var a, b := m.fields[path[0]], v.fields[path[0]];
       if |path| == 1 then a == b
       else (IsPlain(a) <==> IsPlain(b)) && Carries(a, b, path[1..])
  }

  lemma {:induction false} CarriesLookup(m: Value, v: Value, path: seq<string>)
    requires path != [] && Carries(m, v, path)
    ensures Lookup(m, path).Some? && Lookup(m, path) == Lookup(v, path)
    decreases |path|
  {
    if |path| > 1 { CarriesLookup(m.fields[path[0]], v.fields[path[0]], path[1..]); }
  }

  lemma {:induction false} CarriesItself(v: Value, path: seq<string>)
    requires path != [] && Lookup(v, path).Some?
    ensures Carries(v, v, path)
    decreases |path|
  {
    if |path| > 1 { CarriesItself(v.fields[path[0]], path[1..]); }
  }

  /** Sparing depends only on which of the records along the path are plain. */
  lemma {:induction false} SparesAlike(m: Value, v: Value, over: Value, path: seq<string>)
    requires path != [] && Carries(m, v, path)
    ensures Spares(m, over, path) <==> Spares(v, over, path)
    decreases |path|
  {
    if |path| > 1 && over.Record? && path[0] in over.fields {
      SparesAlike(m.fields[path[0]], v.fields[path[0]], over.fields[path[0]], path[1..]);
    }
  }

  predicate WithinDepth(path: seq<string>, depth: nat) {
    path != [] && depth + |path| - 1 <= MAX_MERGE_DEPTH && forall i :: 0 <= i < |path| ==> path[i] !in FORBIDDEN
  }

  lemma FieldOfMerge(base: Value, over: Value, depth: nat, key: string)
    requires base.Record? && over.Record? && depth <= MAX_MERGE_DEPTH && key !in FORBIDDEN
    ensures
      var r := MergeRecords(base, over, depth);
      && (key in r.fields <==> key in base.fields || key in over.fields)
      && (key in r.fields ==> r.fields[key] == MergedField(base, over, depth, key))
  {
  }

  /** What the override spares is carried on. */
  lemma {:induction false} SparedIsCarried(m: Value, v: Value, over: Value, path: seq<string>, depth: nat)
    requires WithinDepth(path, depth) && Carries(m, v, path) && Spares(v, over, path)
    requires over.Record?
    ensures Carries(MergeRecords(m, over, depth), v, path)
    decreases |path|
  {
    var key := path[0];
    FieldOfMerge(m, over, depth, key);
    if key in over.fields {
      SparedIsCarried(m.fields[key], v.fields[key], over.fields[key], path[1..], depth + 1);
    }
  }

  /** What the override does not spare is its own. */
  lemma {:induction false} UnsparedIsOverridden(m: Value, over: Value, path: seq<string>, depth: nat)
    requires WithinDepth(path, depth) && m.Record? && over.Record? && !Spares(m, over, path)
    requires Lookup(m, path).Some? && Lookup(m, path).value.Atom?
    ensures Lookup(MergeRecords(m, over, depth), path) == Lookup(over, path)
    decreases |path|
  {
    var key := path[0];
    FieldOfMerge(m, over, depth, key);
    if |path| > 1 && IsPlain(over.fields[key]) && IsPlain(m.fields[key]) {
      UnsparedIsOverridden(m.fields[key], over.fields[key], path[1..], depth + 1);
    }
  }

  /** The override's own values along a path are carried. */
  lemma {:induction false} OverrideIsCarried(m: Value, over: Value, path: seq<string>, depth: nat)
    requires WithinDepth(path, depth) && m.Record? && Lookup(over, path).Some? && Lookup(over, path).value.Atom?
    ensures over.Record? && Carries(MergeRecords(m, over, depth), over, path)
    decreases |path|
  {
    var key := path[0];
    FieldOfMerge(m, over, depth, key);
    if |path| > 1 {
      var a := over.fields[key];
      if key in m.fields && IsPlain(a) && IsPlain(m.fields[key]) {
        OverrideIsCarried(m.fields[key], a, path[1..], depth + 1);
      } else {
        CarriesItself(a, path[1..]);
      }
    }
  }

  /** An atom of a merge, at any path, is one of its parts' atoms at that path. */
  lemma {:induction false} AtomsComeFromParts(m: Value, over: Value, path: seq<string>, depth: nat)
    requires m.Record? && over.Record? && depth <= MAX_MERGE_DEPTH
    requires Lookup(MergeRecords(m, over, depth), path).Some? && Lookup(MergeRecords(m, over, depth), path).value.Atom?
    ensures
      var atom := Lookup(MergeRecords(m, over, depth), path);
      Lookup(m, path) == atom || Lookup(over, path) == atom
    decreases |path|
  {
    var key := path[0];
    assert MergeRecords(m, over, depth).fields[key] == MergedField(m, over, depth, key);
    if depth < MAX_MERGE_DEPTH && key in over.fields && key in m.fields
       && IsPlain(m.fields[key]) && IsPlain(over.fields[key]) {
      AtomsComeFromParts(m.fields[key], over.fields[key], path[1..], depth + 1);
    }
  }

  // ---- which leaf of which source survives ----

  /** Every atom of source `k` is tagged with it, wherever it stands. */
  ghost predicate Tagged(sources: seq<Value>) {
    forall k, path :: 0 <= k < |sources| && Lookup(sources[k], path).Some? && Lookup(sources[k], path).value.Atom? ==>
      Lookup(sources[k], path).value.source == k
  }

  predicate SparedBy(sources: seq<Value>, i: nat, path: seq<string>, j: nat)
    requires j < i < |sources| && path != []
  {
    CanMerge(sources[i], sources[j]) && Spares(sources[i], sources[j], path)
  }

  /** The leaf is still the merge's value when sources `j` and lower have been folded. */
  ghost predicate Holds(sources: seq<Value>, i: nat, path: seq<string>, j: nat)
    requires j <= i < |sources| && path != []
  {
    && CanMerge(MergedFrom(sources, j), sources[i])
    && Carries(MergedFrom(sources, j), sources[i], path)
  }

  lemma LeafEnters(sources: seq<Value>, i: nat, path: seq<string>)
    requires i < |sources| && Mergeable(path)
    requires Lookup(sources[i], path).Some? && Lookup(sources[i], path).value.Atom?
    ensures Holds(sources, i, path, i)
  {
    CarriesItself(sources[i], path);
    if i < |sources| - 1 && CanMerge(MergedFrom(sources, i + 1), sources[i]) {
      OverrideIsCarried(MergedFrom(sources, i + 1), sources[i], path, 1);
    }
  }

  lemma LeafStays(sources: seq<Value>, i: nat, path: seq<string>, j: nat)
    requires j < i < |sources| && Mergeable(path) && Holds(sources, i, path, j + 1) && SparedBy(sources, i, path, j)
    ensures Holds(sources, i, path, j)
  {
    SparedIsCarried(MergedFrom(sources, j + 1), sources[i], sources[j], path, 1);
  }

  lemma LeafGoes(sources: seq<Value>, i: nat, path: seq<string>, j: nat)
    requires j < i < |sources| && Mergeable(path) && Holds(sources, i, path, j + 1) && !SparedBy(sources, i, path, j)
    requires Lookup(sources[i], path).Some? && Lookup(sources[i], path).value.Atom?
    ensures Lookup(MergedFrom(sources, j), path) == Lookup(sources[j], path)
  {
    var m := MergedFrom(sources, j + 1);
    CarriesLookup(m, sources[i], path);
    SparesAlike(m, sources[i], sources[j], path);
    if CanMerge(m, sources[j]) { UnsparedIsOverridden(m, sources[j], path, 1); }
  }

  /** Once another source's value or nothing stands there, the leaf never comes back. */
  lemma {:induction false} LeafStaysGone(sources: seq<Value>, i: nat, path: seq<string>, j: nat)
    requires j < i < |sources| && Tagged(sources) && Lookup(sources[i], path).Some? && Lookup(sources[i], path).value.Atom?
    requires Lookup(MergedFrom(sources, j), path) != Lookup(sources[i], path)
    ensures Lookup(MergedFrom(sources, 0), path) != Lookup(sources[i], path)
  {
    if j > 0 {
      var m := MergedFrom(sources, j);
      var next := Lookup(MergedFrom(sources, j - 1), path);
      if CanMerge(m, sources[j - 1]) && next.Some? && next.value.Atom? {
        AtomsComeFromParts(m, sources[j - 1], path, 1);
      }
      LeafStaysGone(sources, i, path, j - 1);
    }
  }

  lemma {:induction false} LeafDecided(sources: seq<Value>, i: nat, path: seq<string>, j: nat)
    requires j <= i < |sources| && Tagged(sources) && Mergeable(path)
    requires Lookup(sources[i], path).Some? && Lookup(sources[i], path).value.Atom?
    requires Holds(sources, i, path, j)
    ensures Lookup(MergedFrom(sources, 0), path) == Lookup(sources[i], path) <==>
      forall k :: 0 <= k < j ==> SparedBy(sources, i, path, k)
    decreases j
  {
    if j == 0 {
      CarriesLookup(MergedFrom(sources, 0), sources[i], path);
    } else if SparedBy(sources, i, path, j - 1) {
      LeafStays(sources, i, path, j - 1);
      LeafDecided(sources, i, path, j - 1);
    } else {
      LeafGoes(sources, i, path, j - 1);
      LeafStaysGone(sources, i, path, j - 1);
    }
  }

  /**
   * For any number of sources: a leaf of a source is the merge's value at its
   * path exactly when every source of higher priority merges with it at the
   * top and spares the path.
   */
  lemma LeafSurvives(sources: seq<Value>, i: nat, path: seq<string>)
    requires i < |sources| && Tagged(sources) && Mergeable(path)
    requires Lookup(sources[i], path).Some? && Lookup(sources[i], path).value.Atom?
    ensures Lookup(MergedFrom(sources, 0), path) == Lookup(sources[i], path) <==>
      forall j :: 0 <= j < i ==> SparedBy(sources, i, path, j)
  {
    LeafEnters(sources, i, path);
    LeafDecided(sources, i, path, i);
  }

  /** The direction of the fold matters: merging the lower pair first is not merging the higher pair first. */
  lemma NotAssociative()
    ensures exists a, b, c :: Deep(Deep(c, b), a) != Deep(c, Deep(b, a))
  {
    var x, five, y := Atom(0, 1), Atom(1, 5), Atom(2, 2);
    var a := Record(ObjectProto, map["k" := Record(ObjectProto, map["x" := x])]);
    var b := Record(ObjectProto, map["k" := five]);
    var c := Record(ObjectProto, map["k" := Record(ObjectProto, map["y" := y])]);
    FieldOfMerge(c, b, 1, "k");
    FieldOfMerge(Deep(c, b), a, 1, "k");
    FieldOfMerge(b, a, 1, "k");
    FieldOfMerge(c, Deep(b, a), 1, "k");
    assert Deep(Deep(c, b), a).fields["k"] == a.fields["k"];
    var inner := Deep(c, Deep(b, a)).fields["k"];
    assert inner == MergeRecords(c.fields["k"], a.fields["k"], 2);
    FieldOfMerge(c.fields["k"], a.fields["k"], 2, "y");
    assert "y" in inner.fields && "y" !in a.fields["k"].fields;
  }
}

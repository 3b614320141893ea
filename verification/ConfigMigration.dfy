/** Bringing a parsed document up to the latest version: sorted steps, each applied and its version written back. */
module ConfigMigration {
  import opened Wrappers

  datatype Phase = ReadVersion | ApplyStep | WriteVersion

  datatype Error<+E> =
    | CodecFailed(cause: E)
    | MigrationFailed(version: real, name: string, phase: Phase, cause: E)

  datatype Step<!R, +E> = Step(version: real, name: string, up: R -> Result<R, E>)

  /** How the version is read from a document and written back. */
  datatype Access<!R, +E> = Access(read: R -> Result<real, E>, write: (R, real) -> Result<R, E>)

  /** A version written is the version read. */
  ghost predicate Lawful<R(!new), E>(access: Access<R, E>) {
    forall doc, v, doc' :: access.write(doc, v) == Ok(doc') ==> access.read(doc') == Ok(v)
  }

  // ---- the order of the steps ----

  predicate Ascending<R, E>(steps: seq<Step<R, E>>) {
    forall i, j :: 0 <= i < j < |steps| ==> steps[i].version <= steps[j].version
  }

  function Insert<R, E>(x: Step<R, E>, sorted: seq<Step<R, E>>): seq<Step<R, E>> {
    if sorted == [] then [x]
    else if x.version <= sorted[0].version then [x] + sorted
    else [sorted[0]] + Insert(x, sorted[1..])
  }

  /** The stable sort by version. */
  function Sorted<R, E>(steps: seq<Step<R, E>>): seq<Step<R, E>> {
    if steps == [] then [] else Insert(steps[0], Sorted(steps[1..]))
  }

  function UpTo<R, E>(steps: seq<Step<R, E>>, v: real): seq<Step<R, E>> {
    if steps == [] then [] else (if steps[0].version <= v then [steps[0]] else []) + UpTo(steps[1..], v)
  }

  function Above<R, E>(steps: seq<Step<R, E>>, v: real): seq<Step<R, E>> {
    if steps == [] then [] else (if steps[0].version > v then [steps[0]] else []) + Above(steps[1..], v)
  }

  function OfVersion<R, E>(steps: seq<Step<R, E>>, v: real): seq<Step<R, E>> {
    if steps == [] then [] else (if steps[0].version == v then [steps[0]] else []) + OfVersion(steps[1..], v)
  }

  lemma OfVersionCons<R, E>(x: Step<R, E>, s: seq<Step<R, E>>, v: real)
    ensures OfVersion([x] + s, v) == (if x.version == v then [x] else []) + OfVersion(s, v)
  {
    assert ([x] + s)[1..] == s;
  }

  lemma {:induction false} InsertOfVersion<R, E>(x: Step<R, E>, s: seq<Step<R, E>>, v: real)
    ensures OfVersion(Insert(x, s), v) == (if x.version == v then [x] else []) + OfVersion(s, v)
    decreases |s|
  {
    OfVersionCons(x, s, v);
    if s == [] {
      assert [x] + s == [x];
    } else if s[0].version < x.version {
      InsertOfVersion(x, s[1..], v);
      OfVersionCons(s[0], Insert(x, s[1..]), v);
      OfVersionCons(s[0], s[1..], v);
      assert s == [s[0]] + s[1..];
    }
  }

  lemma {:induction false} InsertAscending<R, E>(x: Step<R, E>, s: seq<Step<R, E>>)
    requires Ascending(s)
    ensures Ascending(Insert(x, s)) && |Insert(x, s)| == |s| + 1
    ensures Insert(x, s)[0].version == if s == [] || x.version <= s[0].version then x.version else s[0].version
    decreases |s|
  {
    if s != [] && s[0].version < x.version {
      InsertAscending(x, s[1..]);
      AscendingCons(s[0], Insert(x, s[1..]));
    }
  }

  lemma AscendingCons<R, E>(x: Step<R, E>, s: seq<Step<R, E>>)
    requires Ascending(s) && (s != [] ==> x.version <= s[0].version)
    ensures Ascending([x] + s)
  {
  }

  /** Ascending, and steps of one version keep the order they were given in: that determines the result. */
  lemma {:induction false} SortedIsStable<R, E>(steps: seq<Step<R, E>>, v: real)
    ensures Ascending(Sorted(steps)) && |Sorted(steps)| == |steps|
    ensures OfVersion(Sorted(steps), v) == OfVersion(steps, v)
  {
    if steps != [] {
      SortedIsStable(steps[1..], v);
      InsertAscending(steps[0], Sorted(steps[1..]));
      InsertOfVersion(steps[0], Sorted(steps[1..]), v);
    }
  }

  lemma {:induction false} InsertUpTo<R, E>(x: Step<R, E>, s: seq<Step<R, E>>, v: real)
    requires Ascending(s)
    ensures UpTo(Insert(x, s), v) == if x.version <= v then Insert(x, UpTo(s, v)) else UpTo(s, v)
    decreases |s|
  {
    if s == [] {
      assert [x][1..] == [];
    } else if x.version <= s[0].version {
      assert ([x] + s)[1..] == s;
      if s[0].version > v { NoneUpTo(s, v); }
    } else {
      InsertUpTo(x, s[1..], v);
      assert ([s[0]] + Insert(x, s[1..]))[1..] == Insert(x, s[1..]);
      if s[0].version <= v {
        assert ([s[0]] + UpTo(s[1..], v))[1..] == UpTo(s[1..], v);
      }
    }
  }

  lemma {:induction false} NoneUpTo<R, E>(s: seq<Step<R, E>>, v: real)
    requires forall i :: 0 <= i < |s| ==> s[i].version > v
    ensures UpTo(s, v) == [] && Above(s, v) == s
    decreases |s|
  {
    if s != [] { NoneUpTo(s[1..], v); }
  }

  lemma {:induction false} SortedUpTo<R, E>(steps: seq<Step<R, E>>, v: real)
    ensures Sorted(UpTo(steps, v)) == UpTo(Sorted(steps), v)
  {
    if steps != [] {
      SortedUpTo(steps[1..], v);
      SortedIsStable(steps[1..], v);
      InsertUpTo(steps[0], Sorted(steps[1..]), v);
      var kept := UpTo(steps[1..], v);
      if steps[0].version <= v {
        assert UpTo(steps, v) == [steps[0]] + kept && UpTo(steps, v)[1..] == kept;
      } else {
        assert UpTo(steps, v) == kept;
      }
    }
  }

  /** Ascending steps are the ones up to a version, then the ones above it. */
  lemma {:induction false} SplitsAtVersion<R, E>(s: seq<Step<R, E>>, v: real)
    requires Ascending(s)
    ensures s == UpTo(s, v) + Above(s, v)
    decreases |s|
  {
    if s != [] {
      SplitsAtVersion(s[1..], v);
      if s[0].version > v { NoneUpTo(s, v); }
    }
  }

  // ---- running ----

  function RunStep<R, E>(access: Access<R, E>, step: Step<R, E>, doc: R): Result<R, Error<E>> {
    match step.up(doc)
    case Err(e) => Err(MigrationFailed(step.version, step.name, ApplyStep, e))
    case Ok(changed) =>
      match access.write(changed, step.version)
      case Err(e) => Err(MigrationFailed(step.version, step.name, WriteVersion, e))
      case Ok(written) => Ok(written)
  }

  function RunSteps<R, E>(access: Access<R, E>, steps: seq<Step<R, E>>, doc: R): Result<R, Error<E>> {
    if steps == [] then Ok(doc)
    else
      match RunStep(access, steps[0], doc)
      case Err(e) => Err(e)
      case Ok(next) => RunSteps(access, steps[1..], next)
  }

  // ---- what a run of steps did, document by document ----

  /** The step's `up` succeeds on `doc`, and writing the step's version into what it gives yields `next`. */
  predicate StepGives<R(==), E>(access: Access<R, E>, step: Step<R, E>, doc: R, next: R) {
    && step.up(doc).Ok?
    && access.write(step.up(doc).value, step.version).Ok?
    && access.write(step.up(doc).value, step.version).value == next
  }

  /** The documents between the steps, each step giving the next one. */
  ghost predicate Chain<R, E>(access: Access<R, E>, steps: seq<Step<R, E>>, docs: seq<R>) {
    && |docs| == |steps| + 1
    && forall i :: 0 <= i < |steps| ==> StepGives(access, steps[i], docs[i], docs[i + 1])
  }

  ghost predicate Leads<R(!new), E>(access: Access<R, E>, steps: seq<Step<R, E>>, doc: R, last: R) {
    exists docs :: Chain(access, steps, docs) && docs[0] == doc && docs[|steps|] == last
  }

  lemma ChainCons<R(!new), E>(access: Access<R, E>, steps: seq<Step<R, E>>, doc: R, next: R, last: R)
    requires steps != [] && StepGives(access, steps[0], doc, next) && Leads(access, steps[1..], next, last)
    ensures Leads(access, steps, doc, last)
  {
    var rest :| Chain(access, steps[1..], rest) && rest[0] == next && rest[|steps| - 1] == last;
    var docs := [doc] + rest;
    forall i | 0 <= i < |steps| ensures StepGives(access, steps[i], docs[i], docs[i + 1]) {
      if i > 0 { assert StepGives(access, steps[1..][i - 1], rest[i - 1], rest[i]); }
    }
    assert Chain(access, steps, docs) && docs[|steps|] == last;
  }

  lemma ChainTail<R(!new), E>(access: Access<R, E>, steps: seq<Step<R, E>>, doc: R, last: R) returns (next: R)
    requires steps != [] && Leads(access, steps, doc, last)
    ensures StepGives(access, steps[0], doc, next) && Leads(access, steps[1..], next, last)
  {
    var docs :| Chain(access, steps, docs) && docs[0] == doc && docs[|steps|] == last;
    next := docs[1];
    forall i | 0 <= i < |steps| - 1 ensures StepGives(access, steps[1..][i], docs[1..][i], docs[1..][i + 1]) {
      assert StepGives(access, steps[i + 1], docs[i + 1], docs[i + 2]);
    }
    assert StepGives(access, steps[0], docs[0], docs[1]);
    assert Chain(access, steps[1..], docs[1..]) && docs[1..][0] == next && docs[1..][|steps| - 1] == last;
  }

  /** Running steps succeeds with a document exactly when the steps lead to it, each `up` and each write succeeding. */
  lemma {:induction false} StepsLead<R(!new), E>(access: Access<R, E>, steps: seq<Step<R, E>>, doc: R, last: R)
    ensures RunSteps(access, steps, doc) == Ok(last) <==> Leads(access, steps, doc, last)
    decreases |steps|
  {
    if steps == [] {
      if doc == last { assert Chain(access, steps, [doc]); }
    } else {
      if RunSteps(access, steps, doc) == Ok(last) {
        var next := RunStep(access, steps[0], doc).value;
        StepsLead(access, steps[1..], next, last);
        ChainCons(access, steps, doc, next, last);
      }
      if Leads(access, steps, doc, last) {
        var next := ChainTail(access, steps, doc, last);
        StepsLead(access, steps[1..], next, last);
      }
    }
  }

  /** The step fails on `doc`: its `up` does, or it succeeds and writing the version into what it gives does. */
  predicate StepFails<R, E(==)>(access: Access<R, E>, step: Step<R, E>, doc: R, e: Error<E>) {
    && e.MigrationFailed? && e.version == step.version && e.name == step.name
    && match step.up(doc)
       case Err(cause) => e.phase == ApplyStep && e.cause == cause
       case Ok(changed) =>
         e.phase == WriteVersion && access.write(changed, step.version).Err?
         && e.cause == access.write(changed, step.version).error
  }

  /** The steps before the `k`-th lead to a document on which that one fails. */
  ghost predicate FailsAt<R(!new), E>(access: Access<R, E>, steps: seq<Step<R, E>>, doc: R, e: Error<E>, k: nat) {
    k < |steps| && exists before :: Leads(access, steps[..k], doc, before) && StepFails(access, steps[k], before, e)
  }

  ghost predicate Fails<R(!new), E>(access: Access<R, E>, steps: seq<Step<R, E>>, doc: R, e: Error<E>) {
    exists k: nat :: FailsAt(access, steps, doc, e, k)
  }

  /** Running steps fails with an error exactly when some step fails with it, after all those before it succeeded. */
  lemma {:induction false} StepsFail<R(!new), E>(access: Access<R, E>, steps: seq<Step<R, E>>, doc: R, e: Error<E>)
    ensures RunSteps(access, steps, doc) == Err(e) <==> Fails(access, steps, doc, e)
  {
    if RunSteps(access, steps, doc) == Err(e) {
      var k := FailureNamesStep(access, steps, doc);
      var before := RunSteps(access, steps[..k], doc).value;
      StepsLead(access, steps[..k], doc, before);
      assert StepFails(access, steps[k], before, e);
      assert FailsAt(access, steps, doc, e, k);
    }
    if k: nat :| FailsAt(access, steps, doc, e, k) {
      var before :| Leads(access, steps[..k], doc, before) && StepFails(access, steps[k], before, e);
      StepsLead(access, steps[..k], doc, before);
      assert steps == steps[..k] + steps[k..];
      RunInStages(access, steps[..k], steps[k..], doc);
    }
  }

  function Migrate<R, E>(access: Access<R, E>, steps: seq<Step<R, E>>, doc: R): Result<R, Error<E>> {
    if steps == [] then Ok(doc)
    else
      match access.read(doc)
      case Err(e) => Err(MigrationFailed(0.0, "", ReadVersion, e))
      case Ok(current) => RunSteps(access, Above(Sorted(steps), current), doc)
  }

  /**
   * A migration succeeds exactly when there is no step at all, or the stored
   * version is read and the steps above it, ascending, lead to the result.
   */
  lemma MigrationLeads<R(!new), E>(access: Access<R, E>, steps: seq<Step<R, E>>, doc: R, last: R)
    ensures Migrate(access, steps, doc) == Ok(last) <==>
      if steps == [] then last == doc
      else access.read(doc).Ok? && Leads(access, Above(Sorted(steps), access.read(doc).value), doc, last)
  {
    if steps != [] && access.read(doc).Ok? { StepsLead(access, Above(Sorted(steps), access.read(doc).value), doc, last); }
  }

  /** ... and fails exactly when that version cannot be read, or one of those steps fails. */
  lemma MigrationFails<R(!new), E>(access: Access<R, E>, steps: seq<Step<R, E>>, doc: R, e: Error<E>)
    ensures Migrate(access, steps, doc) == Err(e) <==>
      && steps != []
      && match access.read(doc)
         case Err(cause) => e == MigrationFailed(0.0, "", ReadVersion, cause)
         case Ok(v) => Fails(access, Above(Sorted(steps), v), doc, e)
  {
    if steps != [] && access.read(doc).Ok? { StepsFail(access, Above(Sorted(steps), access.read(doc).value), doc, e); }
  }

  /** The document a text parses to: what the codec gives, migrated step by step. */
  ghost predicate ParsesTo<R(!new), E>(
    codec: string -> Result<R, E>, access: Access<R, E>, steps: seq<Step<R, E>>, raw: string, last: R)
  {
    && codec(raw).Ok?
    && var doc := codec(raw).value;
       if steps == [] then last == doc
       else access.read(doc).Ok? && Leads(access, Above(Sorted(steps), access.read(doc).value), doc, last)
  }

  /** Parses with the codec, then migrates what it parsed. */
  method Parse<R(!new), E>(codec: string -> Result<R, E>, access: Access<R, E>, steps: seq<Step<R, E>>, raw: string)
    returns (result: Result<R, Error<E>>)
    ensures codec(raw).Err? ==> result == Err(CodecFailed(codec(raw).error))
    ensures codec(raw).Ok? ==> result == Migrate(access, steps, codec(raw).value)
    ensures result.Ok? ==> ParsesTo(codec, access, steps, raw, result.value)
  {
    var sorted := Sorted(steps);
    var read := codec(raw);
    if read.Err? { return Err(CodecFailed(read.error)); }
    var parsed := read.value;
    if |sorted| == 0 {
      if steps != [] { SortedIsStable(steps, 0.0); }
      MigrationLeads(access, steps, parsed, parsed);
      return Ok(parsed);
    }
    var current := access.read(parsed);
    if current.Err? { return Err(MigrationFailed(0.0, "", ReadVersion, current.error)); }
    var pending := Above(sorted, current.value);
    for i := 0 to |pending|
      invariant RunSteps(access, pending[i..], parsed) == RunSteps(access, pending, read.value)
    {
      assert pending[i..][1..] == pending[i + 1..];
      var changed := pending[i].up(parsed);
      if changed.Err? {
        return Err(MigrationFailed(pending[i].version, pending[i].name, ApplyStep, changed.error));
      }
      var written := access.write(changed.value, pending[i].version);
      if written.Err? {
        return Err(MigrationFailed(pending[i].version, pending[i].name, WriteVersion, written.error));
      }
      parsed := written.value;
    }
    MigrationLeads(access, steps, read.value, parsed);
    return Ok(parsed);
  }

  // ---- which steps run ----

  lemma {:induction false} AboveBound<R, E>(s: seq<Step<R, E>>, c: real)
    requires Ascending(s)
    ensures Ascending(Above(s, c))
    ensures forall i :: 0 <= i < |Above(s, c)| ==> Above(s, c)[i].version > c && Above(s, c)[i].version >= s[0].version
    decreases |s|
  {
    if s != [] {
      AboveBound(s[1..], c);
      assert forall i :: 0 < i < |s| ==> s[i] == s[1..][i - 1];
      if s[0].version > c { AscendingCons(s[0], Above(s[1..], c)); }
    }
  }

  lemma {:induction false} AboveOfVersion<R, E>(s: seq<Step<R, E>>, c: real, v: real)
    ensures OfVersion(Above(s, c), v) == if v > c then OfVersion(s, v) else []
    decreases |s|
  {
    if s != [] {
      AboveOfVersion(s[1..], c, v);
      var rest := Above(s[1..], c);
      if s[0].version > c {
        assert Above(s, c) == [s[0]] + rest && Above(s, c)[1..] == rest;
      } else {
        assert Above(s, c) == rest;
      }
    }
  }

  /** The steps that run are, for each version above the stored one, all of its steps in the order given, lowest first. */
  lemma ExactlyTheStepsAbove<R, E>(steps: seq<Step<R, E>>, current: real, v: real)
    ensures Ascending(Above(Sorted(steps), current))
    ensures OfVersion(Above(Sorted(steps), current), v) == if v > current then OfVersion(steps, v) else []
  {
    SortedIsStable(steps, v);
    AboveBound(Sorted(steps), current);
    AboveOfVersion(Sorted(steps), current, v);
  }

  /** A failure names the step that failed and its phase; every step before it succeeded. */
  lemma {:induction false} FailureNamesStep<R, E>(access: Access<R, E>, steps: seq<Step<R, E>>, doc: R) returns (k: nat)
    requires RunSteps(access, steps, doc).Err?
    ensures k < |steps| && RunSteps(access, steps[..k], doc).Ok?
    ensures RunSteps(access, steps, doc).error.MigrationFailed?
    ensures
      var e := RunSteps(access, steps, doc).error;
      var before := RunSteps(access, steps[..k], doc).value;
      && e.version == steps[k].version && e.name == steps[k].name
      && (|| (e.phase == ApplyStep && steps[k].up(before) == Err(e.cause))
          || (e.phase == WriteVersion && steps[k].up(before).Ok?
              && access.write(steps[k].up(before).value, e.version) == Err(e.cause)))
  {
    var next := RunStep(access, steps[0], doc);
    if next.Err? {
      k := 0;
    } else {
      var l := FailureNamesStep(access, steps[1..], next.value);
      k := l + 1;
      assert steps[..k][1..] == steps[1..][..l];
    }
  }

  // ---- the version ends at the maximum ----

  lemma {:induction false} LastVersionWritten<R(!new), E>(access: Access<R, E>, steps: seq<Step<R, E>>, doc: R)
    requires Lawful(access) && steps != [] && RunSteps(access, steps, doc).Ok?
    ensures access.read(RunSteps(access, steps, doc).value) == Ok(steps[|steps| - 1].version)
  {
    if |steps| > 1 {
      LastVersionWritten(access, steps[1..], RunStep(access, steps[0], doc).value);
    } else {
      assert steps[1..] == [];
    }
  }

  lemma {:induction false} NoneAbove<R, E>(s: seq<Step<R, E>>, c: real)
    ensures Above(s, c) == [] <==> forall i :: 0 <= i < |s| ==> s[i].version <= c
  {
    if s != [] {
      NoneAbove(s[1..], c);
      if Above(s, c) == [] {
        forall i | 0 <= i < |s| ensures s[i].version <= c {
          if i > 0 { assert s[i] == s[1..][i - 1]; }
        }
      }
    }
  }

  /** The last step above a version is the last step of all, when there is one above it. */
  lemma {:induction false} LastAbove<R, E>(s: seq<Step<R, E>>, c: real)
    requires Ascending(s) && Above(s, c) != []
    ensures s != [] && Above(s, c)[|Above(s, c)| - 1] == s[|s| - 1]
    decreases |s|
  {
    if Above(s[1..], c) != [] {
      LastAbove(s[1..], c);
    } else {
      NoneAbove(s[1..], c);
    }
  }

  ghost predicate IsMaximum<R, E>(m: real, current: real, steps: seq<Step<R, E>>) {
    && m >= current && (forall step :: step in steps ==> m >= step.version)
    && (m == current || exists step :: step in steps && m == step.version)
  }

  lemma {:induction false} InsertMembers<R, E>(x: Step<R, E>, s: seq<Step<R, E>>)
    ensures forall step :: step in Insert(x, s) <==> step == x || step in s
    decreases |s|
  {
    if s != [] {
      InsertMembers(x, s[1..]);
      assert s == [s[0]] + s[1..];
    }
  }

  lemma {:induction false} SortedMembers<R, E>(steps: seq<Step<R, E>>)
    ensures forall step :: step in Sorted(steps) <==> step in steps
  {
    if steps != [] {
      SortedMembers(steps[1..]);
      InsertMembers(steps[0], Sorted(steps[1..]));
      assert steps == [steps[0]] + steps[1..];
    }
  }

  /** The last of ascending steps has the highest version. */
  lemma LastIsHighest<R, E>(sorted: seq<Step<R, E>>, step: Step<R, E>)
    requires Ascending(sorted) && step in sorted
    ensures step.version <= sorted[|sorted| - 1].version && sorted[|sorted| - 1] in sorted
  {
    var i :| 0 <= i < |sorted| && sorted[i] == step;
  }

  lemma MaximumOfSorted<R, E>(steps: seq<Step<R, E>>, current: real, m: real)
    requires
      var sorted := Sorted(steps);
      if Above(sorted, current) == [] then m == current
      else sorted != [] && m == sorted[|sorted| - 1].version && m > current
    ensures IsMaximum(m, current, steps)
  {
    var sorted := Sorted(steps);
    SortedIsStable(steps, current);
    SortedMembers(steps);
    forall step | step in steps ensures m >= step.version {
      LastIsHighest(sorted, step);
      if Above(sorted, current) == [] { NoneAboveMember(sorted, current, step); }
    }
    if Above(sorted, current) != [] {
      assert sorted[|sorted| - 1] in sorted;
    }
  }

  lemma NoneAboveMember<R, E>(s: seq<Step<R, E>>, c: real, step: Step<R, E>)
    requires Above(s, c) == [] && step in s
    ensures step.version <= c
  {
    NoneAbove(s, c);
    var i :| 0 <= i < |s| && s[i] == step;
  }

  /** A migrated document carries the maximum of its stored version and the steps' versions. */
  lemma EndsAtMaximum<R(!new), E>(access: Access<R, E>, steps: seq<Step<R, E>>, doc: R)
    requires Lawful(access) && steps != [] && access.read(doc).Ok? && Migrate(access, steps, doc).Ok?
    ensures access.read(Migrate(access, steps, doc).value).Ok?
    ensures IsMaximum(access.read(Migrate(access, steps, doc).value).value, access.read(doc).value, steps)
  {
    var sorted, c := Sorted(steps), access.read(doc).value;
    SortedIsStable(steps, c);
    AboveBound(sorted, c);
    if Above(sorted, c) != [] {
      LastVersionWritten(access, Above(sorted, c), doc);
      LastAbove(sorted, c);
    }
    MaximumOfSorted(steps, c, access.read(Migrate(access, steps, doc).value).value);
  }

  /** Parsing a migrated document again applies nothing. */
  lemma MigrateTwice<R(!new), E>(access: Access<R, E>, steps: seq<Step<R, E>>, doc: R)
    requires Lawful(access) && Migrate(access, steps, doc).Ok?
    ensures Migrate(access, steps, Migrate(access, steps, doc).value) == Migrate(access, steps, doc)
  {
    if steps != [] {
      EndsAtMaximum(access, steps, doc);
      SortedMembers(steps);
      var sorted, m := Sorted(steps), access.read(Migrate(access, steps, doc).value).value;
      forall i | 0 <= i < |sorted| ensures sorted[i].version <= m { assert sorted[i] in sorted; }
      NoneAbove(sorted, m);
    }
  }

  // ---- migrating in two stages ----

  lemma {:induction false} RunInStages<R, E>(access: Access<R, E>, a: seq<Step<R, E>>, b: seq<Step<R, E>>, doc: R)
    ensures RunSteps(access, a + b, doc) ==
      (match RunSteps(access, a, doc) case Err(e) => Err(e) case Ok(next) => RunSteps(access, b, next))
    decreases |a|
  {
    if a == [] {
      assert a + b == b;
    } else {
      assert (a + b)[1..] == a[1..] + b;
      var next := RunStep(access, a[0], doc);
      if next.Ok? { RunInStages(access, a[1..], b, next.value); }
    }
  }

  lemma {:induction false} AboveConcat<R, E>(a: seq<Step<R, E>>, b: seq<Step<R, E>>, c: real)
    ensures Above(a + b, c) == Above(a, c) + Above(b, c)
    decreases |a|
  {
    if a == [] {
      assert a + b == b;
    } else {
      assert (a + b)[1..] == a[1..] + b;
      AboveConcat(a[1..], b, c);
    }
  }

  lemma {:induction false} UpToBound<R, E>(s: seq<Step<R, E>>, v: real)
    requires Ascending(s)
    ensures Ascending(UpTo(s, v)) && forall i :: 0 <= i < |UpTo(s, v)| ==> s[0].version <= UpTo(s, v)[i].version <= v
    decreases |s|
  {
    if s != [] {
      UpToBound(s[1..], v);
      var rest := UpTo(s[1..], v);
      if s[0].version <= v {
        assert UpTo(s, v) == [s[0]] + rest;
      } else {
        assert UpTo(s, v) == rest;
      }
    }
  }

  lemma AllAbove<R, E>(s: seq<Step<R, E>>, c: real)
    requires forall i :: 0 <= i < |s| ==> s[i].version > c
    ensures Above(s, c) == s
  {
    NoneUpTo(s, c);
  }

  /** Past the first stage's last version, what is above is what the first stage left out. */
  lemma AboveLast<R, E>(sorted: seq<Step<R, E>>, v: real, c: real)
    requires Ascending(sorted) && Above(UpTo(sorted, v), c) != []
    ensures
      var low := UpTo(sorted, v);
      low != [] && Above(sorted, low[|low| - 1].version) == Above(Above(sorted, v), c)
  {
    var low, high := UpTo(sorted, v), Above(sorted, v);
    SplitsAtVersion(sorted, v);
    UpToBound(sorted, v);
    AboveBound(sorted, v);
    LastAbove(low, c);
    AboveBound(low, c);
    var last := low[|low| - 1].version;
    AboveConcat(low, high, last);
    NoneAbove(low, last);
    AllAbove(high, c);
    AllAbove(high, last);
  }

  /** After the first stage, what is still above the stored version is what the first stage left out. */
  lemma SecondStage<R(!new), E>(access: Access<R, E>, sorted: seq<Step<R, E>>, v: real, c: real, doc: R)
    requires Lawful(access) && Ascending(sorted) && access.read(doc) == Ok(c)
    requires RunSteps(access, Above(UpTo(sorted, v), c), doc).Ok?
    ensures
      var next := RunSteps(access, Above(UpTo(sorted, v), c), doc).value;
      access.read(next).Ok? &&
      RunSteps(access, Above(sorted, access.read(next).value), next) == RunSteps(access, Above(sorted, c), doc)
  {
    var low, high := UpTo(sorted, v), Above(sorted, v);
    SplitsAtVersion(sorted, v);
    AboveConcat(low, high, c);
    RunInStages(access, Above(low, c), Above(high, c), doc);
    if Above(low, c) != [] {
      LastVersionWritten(access, Above(low, c), doc);
      UpToBound(sorted, v);
      LastAbove(low, c);
      AboveLast(sorted, v, c);
    }
  }

  /** Migrating with the steps up to some version and then with all of them is migrating once, failures included. */
  lemma MigrateInStages<R(!new), E>(access: Access<R, E>, steps: seq<Step<R, E>>, v: real, doc: R)
    requires Lawful(access)
    ensures Migrate(access, steps, doc) ==
      match Migrate(access, UpTo(steps, v), doc) case Err(e) => Err(e) case Ok(next) => Migrate(access, steps, next)
  {
    if UpTo(steps, v) != [] && access.read(doc).Ok? {
      var c := access.read(doc).value;
      SortedUpTo(steps, v);
      SortedIsStable(steps, v);
      var low := UpTo(Sorted(steps), v);
      if RunSteps(access, Above(low, c), doc).Ok? {
        SecondStage(access, Sorted(steps), v, c, doc);
      } else {
        SplitsAtVersion(Sorted(steps), v);
        AboveConcat(low, Above(Sorted(steps), v), c);
        RunInStages(access, Above(low, c), Above(Above(Sorted(steps), v), c), doc);
      }
    }
  }
}

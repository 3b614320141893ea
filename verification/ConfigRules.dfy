/**
 * The rules of the config-file service on its inputs and results: what one read
 * gives, which sources discovery finds and in what order, what a load returns,
 * and what a save leaves on disk.
 */
module ConfigRules {
  import opened Wrappers
  import opened ConfigFile

  // ---- one read ----

  /** A read succeeds exactly when the file can be read and the text passes every stage. */
  lemma ReadsExactly<A(!new), P>(o: Options<A, P>, files: Files, path: string)
    ensures forall value :: ReadSource(o, files, path) == Ok(value) <==>
      && path in files && files[path].Readable? && o.parse(files[path].text).Some?
      && o.decode(o.parse(files[path].text).value).Some?
      && o.validate(o.decode(o.parse(files[path].text).value).value) == Some(value)
    ensures ReadSource(o, files, path) == Err(ReadFailed(path)) <==> path !in files || files[path].Unreadable?
    ensures ReadSource(o, files, path) == Err(ParseFailed(path)) <==>
      path in files && files[path].Readable? && o.parse(files[path].text).None?
    ensures ReadSource(o, files, path).Err? ==>
      ReadSource(o, files, path).error in {ReadFailed(path), ParseFailed(path), Invalid(Some(path))}
  {
  }

  // ---- lookups ----

  /** A probe is asked before a match, and a match before a plain lookup; only a probe that misses reports. */
  lemma FindsByBest(r: Resolver, files: Files)
    ensures r.resolveProbe.Some? ==> r.Find(files) == r.resolveProbe.value(files).found
    ensures r.resolveProbe.None? && r.resolveMatch.Some? ==> r.Find(files) == r.resolveMatch.value(files)
    ensures r.resolveProbe.None? && r.resolveMatch.None? ==> r.Find(files) == r.resolve(files)
    ensures forall c :: c in r.Probed(files) <==>
      r.resolveProbe.Some? && r.resolveProbe.value(files).found.None? && c in r.resolveProbe.value(files).probed
  {
  }

  ghost predicate FirstHit<A, P>(o: Options<A, P>, files: Files, from: nat, i: nat) {
    && from <= i < |o.resolvers| && o.resolvers[i].resolve(files).Some?
    && forall j :: from <= j < i ==> o.resolvers[j].resolve(files).None?
  }

  /** A save goes to the first path the chain finds by plain lookup. */
  lemma {:induction false} LocatesFirst<A, P>(o: Options<A, P>, files: Files, from: nat, i: nat)
    requires FirstHit(o, files, from, i)
    ensures Locate(o, files, from) == o.resolvers[i].resolve(files)
    decreases i - from
  {
    if i > from { LocatesFirst(o, files, from + 1, i); }
  }

  /** It has no path of its own exactly when every lookup misses. */
  lemma {:induction false} LocatesNone<A, P>(o: Options<A, P>, files: Files, from: nat)
    requires from <= |o.resolvers|
    ensures Locate(o, files, from).None? <==> forall j :: from <= j < |o.resolvers| ==> o.resolvers[j].resolve(files).None?
    decreases |o.resolvers| - from
  {
    if from < |o.resolvers| { LocatesNone(o, files, from + 1); }
  }

  // ---- discovery ----

  predicate Hit<A, P>(o: Options<A, P>, files: Files, i: nat)
    requires i < |o.resolvers|
  {
    o.resolvers[i].Find(files).Some?
  }

  /** How many of the resolvers `[from, i)` find something. */
  function HitsBetween<A, P>(o: Options<A, P>, files: Files, from: nat, i: nat): nat
    requires from <= i <= |o.resolvers|
    decreases i
  {
    if i == from then 0 else HitsBetween(o, files, from, i - 1) + if Hit(o, files, i - 1) then 1 else 0
  }

  lemma {:induction false} HitsFrom<A, P>(o: Options<A, P>, files: Files, from: nat, i: nat)
    requires from < i <= |o.resolvers|
    ensures HitsBetween(o, files, from, i) == HitsBetween(o, files, from + 1, i) + if Hit(o, files, from) then 1 else 0
    decreases i
  {
    if from + 1 < i { HitsFrom(o, files, from, i - 1); }
  }

  /** The source resolver `i` contributes. */
  ghost predicate Contributes<A, P>(o: Options<A, P>, files: Files, i: nat, source: Source<A>)
    requires i < |o.resolvers|
  {
    && Hit(o, files, i) && source.path == o.resolvers[i].Find(files).value && source.resolver == o.resolvers[i].name
    && ReadSource(o, files, source.path) == Ok(source.value)
  }

  /** The sources are those already there, and then one from each resolver that finds something, in chain order. */
  ghost predicate Gathers<A, P>(o: Options<A, P>, files: Files, from: nat, before: seq<Source<A>>, sources: seq<Source<A>>)
    requires from <= |o.resolvers|
  {
    && |sources| == |before| + HitsBetween(o, files, from, |o.resolvers|) && sources[..|before|] == before
    && forall i :: from <= i < |o.resolvers| && Hit(o, files, i) ==>
         var k := |before| + HitsBetween(o, files, from, i);
         k < |sources| && Contributes(o, files, i, sources[k])
  }

  /** Resolver `i` is the first whose path cannot be read, for this reason. */
  ghost predicate FirstFailure<A, P>(o: Options<A, P>, files: Files, from: nat, i: nat, e: Error) {
    && from <= i < |o.resolvers| && Hit(o, files, i) && ReadSource(o, files, o.resolvers[i].Find(files).value) == Err(e)
    && forall j :: from <= j < i && Hit(o, files, j) ==> ReadSource(o, files, o.resolvers[j].Find(files).value).Ok?
  }

  ghost predicate Discovers<A, P>(
    o: Options<A, P>, files: Files, from: nat, before: seq<Source<A>>, r: Result<seq<Source<A>>, Error>)
    requires from <= |o.resolvers|
  {
    && (r.Ok? ==> Gathers(o, files, from, before, r.value))
    && (r.Err? ==> exists i: nat :: FirstFailure(o, files, from, i, r.error))
    && forall i: nat, e :: FirstFailure(o, files, from, i, e) ==> r == Err(e)
  }

  /** Discovery gathers every source there is, or fails as the first read that fails. */
  lemma {:induction false} DiscoversExactly<A, P>(o: Options<A, P>, files: Files, from: nat, before: seq<Source<A>>)
    requires from <= |o.resolvers|
    ensures Discovers(o, files, from, before, DiscoverFrom(o, files, from, before))
    decreases |o.resolvers| - from
  {
    if from == |o.resolvers| {
      assert before[..|before|] == before;
    } else if !Hit(o, files, from) {
      DiscoversExactly(o, files, from + 1, before);
      DiscoversOn(o, files, from, before, before, DiscoverFrom(o, files, from + 1, before));
    } else {
      var path := o.resolvers[from].Find(files).value;
      match ReadSource(o, files, path) {
        case Err(e) =>
          DiscoversFailure(o, files, from, before, e);
        case Ok(value) =>
          var longer := before + [Source(path, o.resolvers[from].name, value)];
          DiscoversExactly(o, files, from + 1, longer);
          DiscoversOn(o, files, from, before, longer, DiscoverFrom(o, files, from + 1, longer));
      }
    }
  }

  lemma DiscoversFailure<A, P>(o: Options<A, P>, files: Files, from: nat, before: seq<Source<A>>, e: Error)
    requires from < |o.resolvers| && Hit(o, files, from) && ReadSource(o, files, o.resolvers[from].Find(files).value) == Err(e)
    ensures Discovers(o, files, from, before, Err(e))
  {
    assert FirstFailure(o, files, from, from, e);
  }

  /** One resolver that did not fail, before all the others. */
  lemma DiscoversOn<A, P>(
    o: Options<A, P>, files: Files, from: nat, before: seq<Source<A>>, longer: seq<Source<A>>, r: Result<seq<Source<A>>, Error>)
    requires from < |o.resolvers| && Discovers(o, files, from + 1, longer, r)
    requires if Hit(o, files, from) then |longer| == |before| + 1 && longer[..|before|] == before
                                         && Contributes(o, files, from, longer[|before|])
             else longer == before
    ensures Discovers(o, files, from, before, r)
  {
    if r.Ok? {
      GathersOn(o, files, from, before, longer, r.value);
    } else {
      var i: nat :| FirstFailure(o, files, from + 1, i, r.error);
      assert FirstFailure(o, files, from, i, r.error);
    }
    forall i: nat, e | FirstFailure(o, files, from, i, e) ensures r == Err(e) {
      assert FirstFailure(o, files, from + 1, i, e);
    }
  }

  lemma GathersOn<A, P>(
    o: Options<A, P>, files: Files, from: nat, before: seq<Source<A>>, longer: seq<Source<A>>, sources: seq<Source<A>>)
    requires from < |o.resolvers| && Gathers(o, files, from + 1, longer, sources)
    requires if Hit(o, files, from) then |longer| == |before| + 1 && longer[..|before|] == before
                                         && Contributes(o, files, from, longer[|before|])
             else longer == before
    ensures Gathers(o, files, from, before, sources)
  {
    HitsFrom(o, files, from, |o.resolvers|);
    assert sources[..|longer|][..|before|] == sources[..|before|];
    forall i | from <= i < |o.resolvers| && Hit(o, files, i)
      ensures
        var k := |before| + HitsBetween(o, files, from, i);
        k < |sources| && Contributes(o, files, i, sources[k])
    {
      if i > from { HitsFrom(o, files, from, i); } else { assert sources[|before|] == sources[..|longer|][|before|]; }
    }
  }

  /** What a load that finds nothing says it searched: every resolver by name, and all that their probes reported. */
  lemma {:induction false} NamesAll(resolvers: seq<Resolver>)
    ensures |Names(resolvers)| == |resolvers| && forall i :: 0 <= i < |resolvers| ==> Names(resolvers)[i] == resolvers[i].name
  {
    if resolvers != [] { NamesAll(resolvers[1..]); }
  }

  lemma {:induction false} CandidatesAll<A, P>(o: Options<A, P>, files: Files, from: nat, c: string)
    requires from <= |o.resolvers|
    ensures c in CandidatesFrom(o, files, from) <==> exists i :: from <= i < |o.resolvers| && c in o.resolvers[i].Probed(files)
    decreases |o.resolvers| - from
  {
    if from < |o.resolvers| { CandidatesAll(o, files, from + 1, c); }
  }

  // ---- a load ----

  /** A load merges what was discovered and is from the first source; with nothing discovered it is the default, or fails. */
  lemma LoadsExactly<A, P>(o: Options<A, P>, files: Files, fallback: Option<A>)
    ensures
      var found, r := DiscoverFrom(o, files, 0, []), Current(o, files, fallback);
      && (found.Err? ==> r == Err(found.error))
      && (found.Ok? && |found.value| > 0 ==>
            r.Ok? && r.value.value == o.merge(found.value) && r.value.source == Some(found.value[0].path))
      && (found == Ok([]) && fallback.Some? ==> r.Ok? && Some(r.value.value) == fallback && r.value.source == None)
      && (found == Ok([]) && fallback.None? ==> r.Err? && r.error.NothingFound?)
  {
  }

  // ---- a save ----

  /** The header stands first, ends its line, and the document follows it whole. */
  lemma HeaderFirst(document: string, header: Option<string>)
    ensures header.None? ==> PrependHeader(document, header) == document
    ensures header.Some? ==>
      var r := PrependHeader(document, header);
      && |header.value| <= |r| - |document| <= |header.value| + 1
      && r[..|header.value|] == header.value && r[|r| - |document|..] == document
      && r[|r| - |document| - 1] == '\n'
      && (|header.value| > 0 && header.value[|header.value| - 1] == '\n' ==> |r| == |header.value| + |document|)
  {
  }

  /** What is written is the stringified encoding behind the header given, or the stage that failed is named. */
  lemma EncodesExactly<A, P>(o: Options<A, P>, value: A, path: Option<string>, header: Option<string>)
    ensures
      var encoded, r := o.encode(value), Encoded(o, value, path, header);
      if encoded.None? then r == Err(Invalid(path))
      else if o.stringify(encoded.value).None? then r == Err(StringifyFailed)
      else r == Ok(PrependHeader(o.stringify(encoded.value).value, header))
  {
  }

  /** What a save to a target comes to, whether it is given or the default. */
  lemma SavesExactly<A, P>(o: Options<A, P>, files: Files, value: A, source: Option<string>, fault: Fault, target: string)
    requires source == Some(target) || (source.None? && o.defaultPath == Some(target))
    ensures
      var encoded := o.encode(value);
      var text := if encoded.Some? then o.stringify(encoded.value) else None;
      SaveResult(o, value, source, fault) ==
      if fault.MakeDirectoryFails? then Err(WriteFailed(target))
      else if encoded.None? then Err(Invalid(Some(target)))
      else if text.None? then Err(StringifyFailed)
      else if fault.WriteFails? then Err(WriteFailed(target))
      else Ok(target)
    ensures
      var files' := FilesAfterSave(o, files, value, source, fault);
      if SaveResult(o, value, source, fault).Ok? then
        files' == files[target := Readable(o.stringify(o.encode(value).value).value)]
      else files' == files
  {
  }

  /** With no target to save to, nothing is written. */
  lemma NowhereToSave<A, P>(o: Options<A, P>, files: Files, value: A, fault: Fault)
    requires o.defaultPath.None?
    ensures SaveResult(o, value, None, fault) == Err(NoDefaultPath) && FilesAfterSave(o, files, value, None, fault) == files
  {
  }

  /**
   * An update writes the function of what it loaded, to the source it read where
   * the service saves there, or fails as its load or its save.
   */
  lemma UpdatesExactly<A, P>(o: Options<A, P>, files: Files, fn: A -> A, fallback: Option<A>, fault: Fault)
    ensures
      var load, r := Current(o, files, fallback), UpdateResult(o, files, fn, fallback, fault);
      var files' := FilesAfterUpdate(o, files, fn, fallback, fault);
      if load.Err? then r == Err(load.error) && files' == files
      else
        var updated, source := fn(load.value.value), if o.toSource then load.value.source else None;
        && files' == FilesAfterSave(o, files, updated, source, fault)
        && r == if SaveResult(o, updated, source, fault).Ok? then Ok(updated)
                else Err(SaveResult(o, updated, source, fault).error)
  {
  }
}

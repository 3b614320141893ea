/**
 * What a series of updates leaves in the file that is in effect: under
 * first-match and a lawful codec, the successful functions composed in order.
 */
module ConfigComposition {
  import opened Wrappers
  import opened ConfigFile
  import opened ConfigUpdates

  /** The highest-priority source decides, and is what updates write. */
  ghost predicate FirstMatch<A(!new), P>(o: Options<A, P>) {
    o.toSource && forall sources: seq<Source<A>> :: sources != [] ==> o.merge(sources) == sources[0].value
  }

  /** Text written for a value reads back as that value. */
  ghost predicate LawfulCodec<A(!new), P>(o: Options<A, P>) {
    forall value, path, text :: Encoded(o, value, path, None) == Ok(text) ==> Decodes(o, text, value)
  }

  ghost predicate Decodes<A, P>(o: Options<A, P>, text: string, value: A) {
    o.parse(text).Some? && o.decode(o.parse(text).value) == Some(value)
  }

  /** Validation accepts or refuses; it does not change the value. */
  ghost predicate ValidateOnlyChecks<A(!new), P>(o: Options<A, P>) {
    forall value :: o.validate(value).Some? ==> o.validate(value) == Some(value)
  }

  /** What the resolvers find depends only on which files exist, so the first hit is stable. */
  ghost predicate FindsByExistence<A, P>(o: Options<A, P>) {
    forall i: nat, f: Files, g: Files :: i < |o.resolvers| && f.Keys == g.Keys ==>
      o.resolvers[i].Find(f) == o.resolvers[i].Find(g)
  }

  ghost predicate Lawful<A(!new), P>(o: Options<A, P>) {
    FirstMatch(o) && LawfulCodec(o) && ValidateOnlyChecks(o) && FindsByExistence(o)
  }

  /** The first path discovery finds: the source in effect. */
  function FirstFound<A, P>(o: Options<A, P>, files: Files, i: nat): Option<string>
    requires i <= |o.resolvers|
    decreases |o.resolvers| - i
  {
    if i == |o.resolvers| then None
    else if o.resolvers[i].Find(files).Some? then o.resolvers[i].Find(files)
    else FirstFound(o, files, i + 1)
  }

  /** Only the first source may differ from the files at the start, and it holds `value`. */
  ghost predicate HoldsValue<A, P>(o: Options<A, P>, files0: Files, files: Files, first: string, value: A) {
    && files.Keys == files0.Keys && first in files
    && (forall path :: path in files && path != first ==> files[path] == files0[path])
    && files[first].Readable? && Decodes(o, files[first].text, value)
  }

  lemma {:induction false} FirstByExistence<A, P>(o: Options<A, P>, f: Files, g: Files, i: nat)
    requires FindsByExistence(o) && f.Keys == g.Keys && i <= |o.resolvers|
    ensures FirstFound(o, f, i) == FirstFound(o, g, i)
    decreases |o.resolvers| - i
  {
    if i < |o.resolvers| { FirstByExistence(o, f, g, i + 1); }
  }

  lemma {:induction false} DiscoverKeepsFirst<A, P>(o: Options<A, P>, files: Files, i: nat, sources: seq<Source<A>>)
    requires i <= |o.resolvers| && sources != [] && DiscoverFrom(o, files, i, sources).Ok?
    ensures
      var found := DiscoverFrom(o, files, i, sources).value;
      found != [] && found[0] == sources[0]
    decreases |o.resolvers| - i
  {
    if i < |o.resolvers| {
      match o.resolvers[i].Find(files) {
        case None => DiscoverKeepsFirst(o, files, i + 1, sources);
        case Some(path) =>
          var source := Source(path, o.resolvers[i].name, ReadSource(o, files, path).value);
          assert (sources + [source])[0] == sources[0];
          DiscoverKeepsFirst(o, files, i + 1, sources + [source]);
      }
    }
  }

  /** The first source a load finds is the first path the chain locates. */
  lemma {:induction false} FirstIsFound<A, P>(o: Options<A, P>, files: Files, i: nat)
    requires i <= |o.resolvers| && DiscoverFrom(o, files, i, []).Ok? && FirstFound(o, files, i).Some?
    ensures
      var found, first := DiscoverFrom(o, files, i, []).value, FirstFound(o, files, i).value;
      found != [] && found[0].path == first && ReadSource(o, files, first) == Ok(found[0].value)
    decreases |o.resolvers| - i
  {
    match o.resolvers[i].Find(files) {
      case None => FirstIsFound(o, files, i + 1);
      case Some(path) =>
        var source := Source(path, o.resolvers[i].name, ReadSource(o, files, path).value);
        assert [] + [source] == [source];
        DiscoverKeepsFirst(o, files, i + 1, [source]);
    }
  }

  /** An update that loads reads the value the first source holds, and means to write it back there. */
  lemma ReadsHeldValue<A(!new), P>(o: Options<A, P>, files0: Files, files: Files, first: string, value: A, fallback: Option<A>)
    requires Lawful(o) && FirstFound(o, files0, 0) == Some(first) && HoldsValue(o, files0, files, first, value)
    requires Current(o, files, fallback).Ok?
    ensures Current(o, files, fallback) == Ok(Found(value, Some(first)))
  {
    FirstByExistence(o, files0, files, 0);
    FirstIsFound(o, files, 0);
  }

  /** The value after a call: its function applied when its write landed, and unchanged otherwise. */
  function ValueAfter<A, P>(o: Options<A, P>, files: Files, value: A, e: Entry<A>): A {
    if !e.ending.CutBefore? && UpdateResult(o, files, e.call.fn, e.call.fallback, e.fault).Ok? then e.call.fn(value)
    else value
  }

  /** The functions of the calls whose writes landed, composed in order. */
  function Composed<A, P>(o: Options<A, P>, files0: Files, value0: A, log: seq<Entry<A>>): A {
    if log == [] then value0
    else
      var front := log[..|log| - 1];
      ValueAfter(o, SerialFiles(o, files0, front), Composed(o, files0, value0, front), log[|log| - 1])
  }

  lemma OneUpdate<A(!new), P>(o: Options<A, P>, files0: Files, files: Files, first: string, value: A, e: Entry<A>)
    requires Lawful(o) && FirstFound(o, files0, 0) == Some(first) && HoldsValue(o, files0, files, first, value)
    ensures HoldsValue(o, files0, FilesAfter(o, files, e), first, ValueAfter(o, files, value, e))
    ensures OutcomeOf(o, files, e).Done? && OutcomeOf(o, files, e).result.Ok? ==>
      OutcomeOf(o, files, e).result.value == ValueAfter(o, files, value, e)
  {
    if !e.ending.CutBefore? && Current(o, files, e.call.fallback).Ok? {
      ReadsHeldValue(o, files0, files, first, value, e.call.fallback);
    }
  }

  /**
   * After any series of calls the first source holds the composition of the
   * functions of those whose writes landed: all that succeeded, and those
   * interrupted after their write. No other file has changed.
   */
  lemma {:induction false} UpdatesCompose<A(!new), P>(
    o: Options<A, P>, files0: Files, first: string, value0: A, log: seq<Entry<A>>)
    requires Lawful(o) && FirstFound(o, files0, 0) == Some(first) && HoldsValue(o, files0, files0, first, value0)
    ensures HoldsValue(o, files0, SerialFiles(o, files0, log), first, Composed(o, files0, value0, log))
  {
    if log != [] {
      var front := log[..|log| - 1];
      UpdatesCompose(o, files0, first, value0, front);
      OneUpdate(o, files0, SerialFiles(o, files0, front), first, Composed(o, files0, value0, front), log[|log| - 1]);
    }
  }

  // ---- reading it back ----

  lemma {:induction false} StillDiscovers<A, P>(
    o: Options<A, P>, f: Files, g: Files, first: string, i: nat, a: seq<Source<A>>, b: seq<Source<A>>)
    requires FindsByExistence(o) && f.Keys == g.Keys && i <= |o.resolvers|
    requires forall path :: path in f && path != first ==> f[path] == g[path]
    requires ReadSource(o, g, first).Ok? && DiscoverFrom(o, f, i, a).Ok?
    ensures DiscoverFrom(o, g, i, b).Ok?
    decreases |o.resolvers| - i
  {
    if i < |o.resolvers| {
      match o.resolvers[i].Find(f) {
        case None => StillDiscovers(o, f, g, first, i + 1, a, b);
        case Some(path) =>
          assert o.resolvers[i].Find(g) == Some(path);
          assert path != first ==> ReadSource(o, g, path) == ReadSource(o, f, path);
          StillDiscovers(o, f, g, first, i + 1,
                         a + [Source(path, o.resolvers[i].name, ReadSource(o, f, path).value)],
                         b + [Source(path, o.resolvers[i].name, ReadSource(o, g, path).value)]);
      }
    }
  }

  /** Where the chain discovered sources before, and the first one's value is now `value`, a load returns that. */
  lemma LoadsHeldValue<A(!new), P>(o: Options<A, P>, files0: Files, files: Files, first: string, value: A)
    requires Lawful(o) && FirstFound(o, files0, 0) == Some(first) && HoldsValue(o, files0, files, first, value)
    requires DiscoverFrom(o, files0, 0, []).Ok? && o.validate(value).Some?
    ensures Current(o, files, None) == Ok(Found(value, Some(first)))
  {
    assert ReadSource(o, files, first) == Ok(value);
    StillDiscovers(o, files0, files, first, 0, [], []);
    FirstByExistence(o, files0, files, 0);
    FirstIsFound(o, files, 0);
    ReadsHeldValue(o, files0, files, first, value, None);
  }

  lemma HoldsComposition<A(!new), P>(o: Options<A, P>, run: seq<State<A>>, i: nat, first: string, value0: A)
    requires IsRun(o, run) && i < |run|
    requires Lawful(o) && FirstFound(o, run[0].files, 0) == Some(first)
    requires Current(o, run[0].files, None) == Ok(Found(value0, Some(first)))
    ensures HoldsValue(o, run[0].files, run[i].files, first, Composed(o, run[0].files, value0, Committed(run[i])))
  {
    UpdatesAreSerial(o, run, i);
    FirstIsFound(o, run[0].files, 0);
    assert HoldsValue(o, run[0].files, run[0].files, first, value0);
    UpdatesCompose(o, run[0].files, first, value0, Committed(run[i]));
  }

  /**
   * In every interleaving of concurrent updates that starts from a loadable
   * chain, a load after it returns the composition in lock order of the updates
   * whose writes landed, whenever validation accepts that value.
   */
  lemma LoadAfterUpdates<A(!new), P>(o: Options<A, P>, run: seq<State<A>>, i: nat, first: string, value0: A)
    requires IsRun(o, run) && i < |run|
    requires Lawful(o) && FirstFound(o, run[0].files, 0) == Some(first)
    requires Current(o, run[0].files, None) == Ok(Found(value0, Some(first)))
    requires o.validate(Composed(o, run[0].files, value0, Committed(run[i]))).Some?
    ensures Current(o, run[i].files, None) == Ok(Found(Composed(o, run[0].files, value0, Committed(run[i])), Some(first)))
    ensures forall path :: path in run[i].files && path != first ==>
      path in run[0].files && run[i].files[path] == run[0].files[path]
  {
    var files, value := run[i].files, Composed(o, run[0].files, value0, Committed(run[i]));
    HoldsComposition(o, run, i, first, value0);
    LoadsHeldValue(o, run[0].files, files, first, value);
  }
}

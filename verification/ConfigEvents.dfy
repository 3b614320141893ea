/** The events of a load and of an update are words of one fixed grammar, which tells a subscriber how it ended. */
module ConfigEvents {
  import opened Wrappers
  import opened ConfigFile

  datatype Ending = Failed | Empty | LoadedAll(refs: seq<Ref>)

  /**
   * Reads a load's events: a block for each source found, which stops at its
   * first failure, and then either that nothing was found, or what was
   * resolved and loaded from exactly the sources of the blocks, in order.
   * `refs` are the sources of the blocks read so far.
   */
  function Accept(word: seq<Event>, refs: seq<Ref>): Option<Ending>
    decreases |word|
  {
    if word == [] then None
    else
      match word[0]
      case Discovered(path, resolver) =>
        if |word| == 1 then Some(Failed)
        else if word[1] == NotParsed(path) then (if |word| == 2 then Some(Failed) else None)
        else if word[1] != Parsed(path) || |word| == 2 then None
        else if word[2] == NotValidated(path) then (if |word| == 3 then Some(Failed) else None)
        else if word[2] != Validated(path) then None
        else Accept(word[3..], refs + [Ref(path, resolver)])
      case NotFound => if |word| == 1 && refs == [] then Some(Empty) else None
      case Resolved(sources) =>
        if |word| == 2 && word[1] == Loaded(sources) && sources == refs && refs != [] then Some(LoadedAll(refs)) else None
      case _ => None
  }

  /** What a load that gathered `found` announces at its end. */
  function Announced<A>(found: Result<seq<Source<A>>, Error>): seq<Event> {
    match found
    case Err(_) => []
    case Ok(sources) => if sources == [] then [NotFound] else [Resolved(Refs(sources)), Loaded(Refs(sources))]
  }

  function EndingOf<A>(found: Result<seq<Source<A>>, Error>): Ending {
    match found
    case Err(_) => Failed
    case Ok(sources) => if sources == [] then Empty else LoadedAll(Refs(sources))
  }

  lemma {:induction false} RefsOfMore<A>(sources: seq<Source<A>>, source: Source<A>)
    ensures Refs(sources + [source]) == Refs(sources) + [Ref(source.path, source.resolver)]
  {
  }

  lemma AcceptFailedBlock<A, P>(o: Options<A, P>, files: Files, path: string, name: string, refs: seq<Ref>)
    requires ReadSource(o, files, path).Err?
    ensures Accept([Discovered(path, name)] + SourceWord(o, files, path), refs) == Some(Failed)
  {
  }

  lemma AcceptReadBlock<A, P>(
    o: Options<A, P>, files: Files, path: string, name: string, refs: seq<Ref>, rest: seq<Event>)
    requires ReadSource(o, files, path).Ok?
    ensures Accept([Discovered(path, name)] + SourceWord(o, files, path) + rest, refs)
         == Accept(rest, refs + [Ref(path, name)])
  {
    var word := [Discovered(path, name)] + SourceWord(o, files, path) + rest;
    assert word[0] == Discovered(path, name) && word[1] == Parsed(path) && word[2] == Validated(path);
    assert word[3..] == rest;
  }

  lemma {:induction false} AcceptFrom<A, P>(o: Options<A, P>, files: Files, i: nat, sources: seq<Source<A>>)
    requires i <= |o.resolvers|
    ensures
      var found := DiscoverFrom(o, files, i, sources);
      Accept(DiscoverWord(o, files, i) + Announced(found), Refs(sources)) == Some(EndingOf(found))
    decreases |o.resolvers| - i
  {
    var found := DiscoverFrom(o, files, i, sources);
    if i < |o.resolvers| {
      match o.resolvers[i].Find(files) {
        case None => AcceptFrom(o, files, i + 1, sources);
        case Some(path) =>
          var name := o.resolvers[i].name;
          var block := [Discovered(path, name)] + SourceWord(o, files, path);
          match ReadSource(o, files, path) {
            case Err(e) =>
              AcceptFailedBlock(o, files, path, name, Refs(sources));
              assert DiscoverWord(o, files, i) + Announced(found) == block;
            case Ok(value) =>
              var source := Source(path, name, value);
              var rest := DiscoverWord(o, files, i + 1) + Announced(found);
              AcceptFrom(o, files, i + 1, sources + [source]);
              RefsOfMore(sources, source);
              AcceptReadBlock(o, files, path, name, Refs(sources), rest);
              assert DiscoverWord(o, files, i) + Announced(found) == block + rest;
          }
      }
    }
  }

  /** For every resolver chain and every outcome, a load's events are accepted, and say how the load ended. */
  lemma LoadIsAccepted<A, P>(o: Options<A, P>, files: Files)
    ensures Accept(LoadWord(o, files), []) == Some(EndingOf(DiscoverFrom(o, files, 0, [])))
  {
    AcceptFrom(o, files, 0, []);
  }

  predicate IsWriteEvent(e: Event) {
    e.Saved? || e.Written? || e.Updated? || e.NotStringified?
  }

  lemma {:induction false} DiscoverWritesNothing<A, P>(o: Options<A, P>, files: Files, i: nat)
    requires i <= |o.resolvers|
    ensures forall e :: e in DiscoverWord(o, files, i) ==> !IsWriteEvent(e)
    decreases |o.resolvers| - i
  {
    if i < |o.resolvers| { DiscoverWritesNothing(o, files, i + 1); }
  }

  lemma {:induction false} DiscoverNeverStringifies<A, P>(o: Options<A, P>, files: Files, i: nat, sources: seq<Source<A>>)
    requires i <= |o.resolvers|
    ensures DiscoverFrom(o, files, i, sources) != Err(Error.StringifyFailed)
    decreases |o.resolvers| - i
  {
    if i < |o.resolvers| {
      match o.resolvers[i].Find(files) {
        case None => DiscoverNeverStringifies(o, files, i + 1, sources);
        case Some(path) =>
          match ReadSource(o, files, path) {
            case Err(_) =>
            case Ok(value) =>
              DiscoverNeverStringifies(o, files, i + 1, sources + [Source(path, o.resolvers[i].name, value)]);
          }
      }
    }
  }

  /** What an update announces after its load. */
  function UpdateTail<A, P>(o: Options<A, P>, files: Files, fn: A -> A, fallback: Option<A>, fault: Fault): seq<Event> {
    match Current(o, files, fallback)
    case Err(_) => []
    case Ok(found) =>
      SaveWord(o, fn(found.value), if o.toSource then found.source else None, fault, path => Updated(path))
  }

  lemma TailSays<A, P>(o: Options<A, P>, files: Files, fn: A -> A, fallback: Option<A>, fault: Fault)
    ensures
      var tail := UpdateTail(o, files, fn, fallback, fault);
      match UpdateResult(o, files, fn, fallback, fault)
      case Ok(_) => |tail| == 1 && tail[0].Updated? && tail[0].path in FilesAfterUpdate(o, files, fn, fallback, fault)
      case Err(e) => tail == if e.StringifyFailed? then [NotStringified] else []
  {
    DiscoverNeverStringifies(o, files, 0, []);
  }

  lemma LoadWritesNothing<A, P>(o: Options<A, P>, files: Files)
    ensures forall e :: e in LoadWord(o, files) ==> !IsWriteEvent(e)
  {
    DiscoverWritesNothing(o, files, 0);
  }

  /**
   * An update's events are those of its load, and then one `Updated` naming a
   * file it wrote when it succeeds, a failed stringify when that is how it
   * failed, and otherwise nothing: never `Saved`.
   */
  lemma UpdateAnnounces<A, P>(o: Options<A, P>, files: Files, fn: A -> A, fallback: Option<A>, fault: Fault)
    ensures
      var tail := UpdateTail(o, files, fn, fallback, fault);
      && UpdateWord(o, files, fn, fallback, fault) == LoadWord(o, files) + tail
      && (forall e :: e in LoadWord(o, files) ==> !IsWriteEvent(e))
      && match UpdateResult(o, files, fn, fallback, fault)
         case Ok(_) => |tail| == 1 && tail[0].Updated? && tail[0].path in FilesAfterUpdate(o, files, fn, fallback, fault)
         case Err(e) => tail == if e.StringifyFailed? then [NotStringified] else []
  {
    LoadWritesNothing(o, files);
    TailSays(o, files, fn, fallback, fault);
  }
}

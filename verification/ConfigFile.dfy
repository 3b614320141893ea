/**
 * The config-file service: it discovers sources through a chain of resolvers,
 * reads and validates each, merges them, and writes back. Codec, schema,
 * validation and merge strategy are functions; the files are a map.
 */
module ConfigFile {
  import opened Wrappers

  /** A file that is there can still fail to be read. */
  datatype File = Readable(text: string) | Unreadable

  type Files = map<string, File>

  datatype Probe = Probe(found: Option<string>, probed: seq<string>)

  /** A lookup, and the two more telling forms of it that a resolver may offer. */
  datatype Resolver = Resolver(
    name: string, resolve: Files -> Option<string>,
    resolveMatch: Option<Files -> Option<string>>, resolveProbe: Option<Files -> Probe>)
  {
    /** What discovery finds: by the most telling form there is. */
    function Find(files: Files): Option<string> {
      if resolveProbe.Some? then resolveProbe.value(files).found
      else if resolveMatch.Some? then resolveMatch.value(files)
      else resolve(files)
    }

    /** What it reports having checked; only a probe that misses reports anything. */
    function Probed(files: Files): seq<string> {
      if resolveProbe.Some? && resolveProbe.value(files).found.None? then resolveProbe.value(files).probed else []
    }
  }

  datatype Source<+A> = Source(path: string, resolver: string, value: A)

  datatype Ref = Ref(path: string, resolver: string)

  datatype Error =
    | ReadFailed(path: string)
    | ParseFailed(path: string)
    | Invalid(at: Option<string>)
    | NothingFound(searched: seq<string>, candidates: seq<string>)
    | NoDefaultPath
    | StringifyFailed
    | WriteFailed(path: string)

  datatype Event =
    | Discovered(path: string, resolver: string)
    | Parsed(path: string)
    | NotParsed(path: string)
    | Validated(path: string)
    | NotValidated(path: string)
    | NotFound
    | Resolved(sources: seq<Ref>)
    | Loaded(sources: seq<Ref>)
    | NotStringified
    | Updated(path: string)
    | Saved(path: string)
    | Written(path: string)

  /** What can go wrong on disk while a file is written; the write itself is atomic. */
  datatype Fault = NoFault | MakeDirectoryFails | WriteFails

  datatype Options<!A, !P> = Options(
    resolvers: seq<Resolver>,
    parse: string -> Option<P>, decode: P -> Option<A>, validate: A -> Option<A>,
    encode: A -> Option<P>, stringify: P -> Option<string>,
    merge: seq<Source<A>> -> A,
    toSource: bool, defaultPath: Option<string>, events: bool)

  // ---- reading ----

  function ReadSource<A, P>(o: Options<A, P>, files: Files, path: string): Result<A, Error> {
    if path !in files || files[path].Unreadable? then Err(ReadFailed(path))
    else
      match o.parse(files[path].text)
      case None => Err(ParseFailed(path))
      case Some(parsed) =>
        match o.decode(parsed)
        case None => Err(Invalid(Some(path)))
        case Some(decoded) =>
          match o.validate(decoded)
          case None => Err(Invalid(Some(path)))
          case Some(value) => Ok(value)
  }

  function SourceWord<A, P>(o: Options<A, P>, files: Files, path: string): seq<Event> {
    if path !in files || files[path].Unreadable? then []
    else if o.parse(files[path].text).None? then [NotParsed(path)]
    else if ReadSource(o, files, path).Ok? then [Parsed(path), Validated(path)]
    else [Parsed(path), NotValidated(path)]
  }

  /** The sources found from resolver `i` on, after those already found; the first failing read ends it. */
  function DiscoverFrom<A, P>(o: Options<A, P>, files: Files, i: nat, sources: seq<Source<A>>): Result<seq<Source<A>>, Error>
    requires i <= |o.resolvers|
    decreases |o.resolvers| - i
  {
    if i == |o.resolvers| then Ok(sources)
    else
      match o.resolvers[i].Find(files)
      case None => DiscoverFrom(o, files, i + 1, sources)
      case Some(path) =>
        match ReadSource(o, files, path)
        case Err(e) => Err(e)
        case Ok(value) => DiscoverFrom(o, files, i + 1, sources + [Source(path, o.resolvers[i].name, value)])
  }

  function DiscoverWord<A, P>(o: Options<A, P>, files: Files, i: nat): seq<Event>
    requires i <= |o.resolvers|
    decreases |o.resolvers| - i
  {
    if i == |o.resolvers| then []
    else
      match o.resolvers[i].Find(files)
      case None => DiscoverWord(o, files, i + 1)
      case Some(path) =>
        [Discovered(path, o.resolvers[i].name)] + SourceWord(o, files, path)
        + if ReadSource(o, files, path).Ok? then DiscoverWord(o, files, i + 1) else []
  }

  function CandidatesFrom<A, P>(o: Options<A, P>, files: Files, i: nat): seq<string>
    requires i <= |o.resolvers|
    decreases |o.resolvers| - i
  {
    if i == |o.resolvers| then []
    else
      o.resolvers[i].Probed(files) + CandidatesFrom(o, files, i + 1)
  }

  function Names(resolvers: seq<Resolver>): seq<string> {
    if resolvers == [] then [] else [resolvers[0].name] + Names(resolvers[1..])
  }

  function Refs<A>(sources: seq<Source<A>>): (refs: seq<Ref>)
    ensures |refs| == |sources|
    ensures forall k :: 0 <= k < |sources| ==> refs[k] == Ref(sources[k].path, sources[k].resolver)
  {
    if sources == [] then []
    else [Ref(sources[0].path, sources[0].resolver)] + Refs(sources[1..])
  }

  datatype Found<+A> = Found(value: A, source: Option<string>)

  /** The merged value and the highest-priority source's path, or the default when nothing is found. */
  function Current<A, P>(o: Options<A, P>, files: Files, fallback: Option<A>): Result<Found<A>, Error> {
    match DiscoverFrom(o, files, 0, [])
    case Err(e) => Err(e)
    case Ok(sources) =>
      if sources != [] then Ok(Found(o.merge(sources), Some(sources[0].path)))
      else if fallback.Some? then Ok(Found(fallback.value, None))
      else Err(NothingFound(Names(o.resolvers), CandidatesFrom(o, files, 0)))
  }

  function LoadWord<A, P>(o: Options<A, P>, files: Files): seq<Event> {
    DiscoverWord(o, files, 0) +
    match DiscoverFrom(o, files, 0, [])
    case Err(_) => []
    case Ok(sources) => if sources == [] then [NotFound] else [Resolved(Refs(sources)), Loaded(Refs(sources))]
  }

  // ---- writing ----

  function PrependHeader(document: string, header: Option<string>): string {
    match header
    case None => document
    case Some(text) => if text != "" && text[|text| - 1] == '\n' then text + document else text + "\n" + document
  }

  function Encoded<A, P>(o: Options<A, P>, value: A, path: Option<string>, header: Option<string>): Result<string, Error> {
    match o.encode(value)
    case None => Err(Invalid(path))
    case Some(encoded) =>
      match o.stringify(encoded)
      case None => Err(StringifyFailed)
      case Some(text) => Ok(PrependHeader(text, header))
  }

  function Target<A, P>(o: Options<A, P>, source: Option<string>): Option<string> {
    if source.Some? then source else o.defaultPath
  }

  /** Where a save ends: the target written, or why not. */
  function SaveResult<A, P>(o: Options<A, P>, value: A, source: Option<string>, fault: Fault): Result<string, Error> {
    match Target(o, source)
    case None => Err(NoDefaultPath)
    case Some(target) =>
      if fault.MakeDirectoryFails? then Err(WriteFailed(target))
      else
        match Encoded(o, value, Some(target), None)
        case Err(e) => Err(e)
        case Ok(_) => if fault.WriteFails? then Err(WriteFailed(target)) else Ok(target)
  }

  function FilesAfterSave<A, P>(o: Options<A, P>, files: Files, value: A, source: Option<string>, fault: Fault): Files {
    match SaveResult(o, value, source, fault)
    case Err(_) => files
    case Ok(target) => files[target := Readable(Encoded(o, value, Some(target), None).value)]
  }

  function SaveWord<A, P>(o: Options<A, P>, value: A, source: Option<string>, fault: Fault, done: string -> Event): seq<Event> {
    match SaveResult(o, value, source, fault)
    case Err(e) => if e.StringifyFailed? then [NotStringified] else []
    case Ok(target) => [done(target)]
  }

  /** One update, taken by itself: load, transform, write where it read. */
  function UpdateResult<A, P>(o: Options<A, P>, files: Files, fn: A -> A, fallback: Option<A>, fault: Fault): Result<A, Error> {
    match Current(o, files, fallback)
    case Err(e) => Err(e)
    case Ok(found) =>
      match SaveResult(o, fn(found.value), if o.toSource then found.source else None, fault)
      case Err(e) => Err(e)
      case Ok(_) => Ok(fn(found.value))
  }

  function FilesAfterUpdate<A, P>(o: Options<A, P>, files: Files, fn: A -> A, fallback: Option<A>, fault: Fault): Files {
    match Current(o, files, fallback)
    case Err(_) => files
    case Ok(found) => FilesAfterSave(o, files, fn(found.value), if o.toSource then found.source else None, fault)
  }

  function UpdateWord<A, P>(o: Options<A, P>, files: Files, fn: A -> A, fallback: Option<A>, fault: Fault): seq<Event> {
    LoadWord(o, files) +
    match Current(o, files, fallback)
    case Err(_) => []
    case Ok(found) =>
      SaveWord(o, fn(found.value), if o.toSource then found.source else None, fault, path => Updated(path))
  }

  /** The first path the resolver chain finds, by plain lookup alone. */
  function Locate<A, P>(o: Options<A, P>, files: Files, i: nat): Option<string>
    requires i <= |o.resolvers|
    decreases |o.resolvers| - i
  {
    if i == |o.resolvers| then None
    else if o.resolvers[i].resolve(files).Some? then o.resolvers[i].resolve(files)
    else Locate(o, files, i + 1)
  }

  // ---- discovery, resolver by resolver ----

  /** What the first `i` resolvers gave, and the events so far; the rest is still to do. */
  ghost predicate Discovering<A, P>(
    o: Options<A, P>, files: Files, i: nat, sources: seq<Source<A>>, candidates: seq<string>, word: seq<Event>)
  {
    && i <= |o.resolvers|
    && DiscoverFrom(o, files, i, sources) == DiscoverFrom(o, files, 0, [])
    && candidates + CandidatesFrom(o, files, i) == CandidatesFrom(o, files, 0)
    && word + DiscoverWord(o, files, i) == DiscoverWord(o, files, 0)
  }

  lemma DiscoveringNothing<A, P>(o: Options<A, P>, files: Files)
    ensures Discovering(o, files, 0, [], [], [])
  {
  }

  lemma DiscoversNothing<A, P>(
    o: Options<A, P>, files: Files, i: nat, sources: seq<Source<A>>, candidates: seq<string>, word: seq<Event>)
    requires Discovering(o, files, i, sources, candidates, word) && i < |o.resolvers|
    requires o.resolvers[i].Find(files).None?
    ensures
      Discovering(o, files, i + 1, sources, candidates + o.resolvers[i].Probed(files), word)
  {
    var probed, rest := o.resolvers[i].Probed(files), CandidatesFrom(o, files, i + 1);
    assert candidates + (probed + rest) == candidates + probed + rest;
  }

  lemma DiscoversOne<A, P>(
    o: Options<A, P>, files: Files, i: nat, sources: seq<Source<A>>, candidates: seq<string>, word: seq<Event>)
    requires Discovering(o, files, i, sources, candidates, word) && i < |o.resolvers|
    requires o.resolvers[i].Find(files).Some?
    ensures
      var path, name := o.resolvers[i].Find(files).value, o.resolvers[i].name;
      var longer := word + ([Discovered(path, name)] + SourceWord(o, files, path));
      match ReadSource(o, files, path)
      case Err(e) => DiscoverFrom(o, files, 0, []) == Err(e) && longer == DiscoverWord(o, files, 0)
      case Ok(value) => Discovering(o, files, i + 1, sources + [Source(path, name, value)], candidates, longer)
  {
    var path, name := o.resolvers[i].Find(files).value, o.resolvers[i].name;
    var block := [Discovered(path, name)] + SourceWord(o, files, path);
    if ReadSource(o, files, path).Ok? {
      EventsAssoc(word, block, DiscoverWord(o, files, i + 1));
    } else {
      assert DiscoverWord(o, files, i) == block + [] == block;
    }
    assert candidates + ([] + CandidatesFrom(o, files, i + 1)) == candidates + CandidatesFrom(o, files, i + 1);
  }

  lemma DiscoveredAll<A, P>(
    o: Options<A, P>, files: Files, sources: seq<Source<A>>, candidates: seq<string>, word: seq<Event>)
    requires Discovering(o, files, |o.resolvers|, sources, candidates, word)
    ensures DiscoverFrom(o, files, 0, []) == Ok(sources) && candidates == CandidatesFrom(o, files, 0)
    ensures word == DiscoverWord(o, files, 0)
  {
    assert candidates + [] == candidates && word + [] == word;
  }

  lemma EventsAssoc(a: seq<Event>, b: seq<Event>, c: seq<Event>)
    ensures a + (b + c) == (a + b) + c
  {
  }

  /** What subscribers hear of a sequence of events: all of it, or nothing when events are not wired. */
  function Heard(events: bool, word: seq<Event>): seq<Event> {
    if events then word else []
  }

  lemma HeardMore(before: seq<Event>, events: bool, a: seq<Event>, b: seq<Event>)
    ensures before + Heard(events, a) + Heard(events, b) == before + Heard(events, a + b)
  {
  }

  // ---- the service ----

  class Service<A, P> {
    const o: Options<A, P>
    /** The disk, and the events published so far. */
    var files: Files
    var trace: seq<Event>

    constructor (o: Options<A, P>, files: Files)
      ensures this.o == o && this.files == files && trace == []
    {
      this.o, this.files, trace := o, files, [];
    }

    method Emit(event: Event)
      modifies this`trace
      ensures trace == if o.events then old(trace) + [event] else old(trace)
    {
      if o.events { trace := trace + [event]; }
    }

    method LoadFrom(target: string) returns (r: Result<A, Error>)
      modifies this`trace
      ensures r == ReadSource(o, files, target)
      ensures trace == old(trace) + Heard(o.events, SourceWord(o, files, target))
    {
      if target !in files || files[target].Unreadable? { return Err(ReadFailed(target)); }
      var parsed := o.parse(files[target].text);
      if parsed.None? {
        Emit(NotParsed(target));
        return Err(ParseFailed(target));
      }
      Emit(Parsed(target));
      var decoded := o.decode(parsed.value);
      var validated := if decoded.Some? then o.validate(decoded.value) else None;
      if validated.None? {
        Emit(NotValidated(target));
        return Err(Invalid(Some(target)));
      }
      Emit(Validated(target));
      return Ok(validated.value);
    }

    /** A probe reports what it checked only when it misses; the other forms report nothing. */
    method Lookup(resolver: Resolver) returns (found: Option<string>, probed: seq<string>)
      ensures found == resolver.Find(files) && probed == resolver.Probed(files)
    {
      probed := [];
      if resolver.resolveProbe.Some? {
        var probe := resolver.resolveProbe.value(files);
        found := probe.found;
        if found.None? { probed := probe.probed; }
      } else if resolver.resolveMatch.Some? {
        found := resolver.resolveMatch.value(files);
      } else {
        found := resolver.resolve(files);
      }
    }

    method Discover() returns (r: Result<seq<Source<A>>, Error>, candidates: seq<string>)
      modifies this`trace
      ensures r == DiscoverFrom(o, files, 0, [])
      ensures r.Ok? ==> candidates == CandidatesFrom(o, files, 0)
      ensures trace == old(trace) + Heard(o.events, DiscoverWord(o, files, 0))
    {
      var sources: seq<Source<A>> := [];
      candidates := [];
      ghost var word: seq<Event> := [];
      DiscoveringNothing(o, files);
      for i := 0 to |o.resolvers|
        invariant Discovering(o, files, i, sources, candidates, word)
        invariant trace == old(trace) + Heard(o.events, word)
      {
        var resolver := o.resolvers[i];
        var found, probed := Lookup(resolver);
        if found.None? {
          DiscoversNothing(o, files, i, sources, candidates, word);
          candidates := candidates + probed;
        } else {
          DiscoversOne(o, files, i, sources, candidates, word);
          ghost var discovered, read := [Discovered(found.value, resolver.name)], SourceWord(o, files, found.value);
          HeardMore(old(trace), o.events, word, discovered);
          HeardMore(old(trace), o.events, word + discovered, read);
          EventsAssoc(word, discovered, read);
          word := word + (discovered + read);
          Emit(Discovered(found.value, resolver.name));
          var value := LoadFrom(found.value);
          if value.Err? { return Err(value.error), candidates; }
          sources := sources + [Source(found.value, resolver.name, value.value)];
        }
      }
      DiscoveredAll(o, files, sources, candidates, word);
      return Ok(sources), candidates;
    }

    method LoadOrDefaultWithSource(fallback: Option<A>) returns (r: Result<Found<A>, Error>)
      modifies this`trace
      ensures r == Current(o, files, fallback)
      ensures trace == old(trace) + Heard(o.events, LoadWord(o, files))
    {
      var found, candidates := Discover();
      if found.Err? { return Err(found.error); }
      var sources := found.value;
      if sources == [] {
        Emit(NotFound);
        return if fallback.Some? then Ok(Found(fallback.value, None))
               else Err(NothingFound(Names(o.resolvers), candidates));
      }
      var value := o.merge(sources);
      Emit(Resolved(Refs(sources)));
      Emit(Loaded(Refs(sources)));
      return Ok(Found(value, Some(sources[0].path)));
    }

    method SaveTo(value: A, source: Option<string>, fault: Fault) returns (r: Result<string, Error>)
      modifies this`trace, this`files
      ensures r == SaveResult(o, value, source, fault)
      ensures files == FilesAfterSave(o, old(files), value, source, fault)
      ensures trace == old(trace) + Heard(o.events, if r == Err(StringifyFailed) then [NotStringified] else [])
    {
      if Target(o, source).None? { return Err(NoDefaultPath); }
      var target := Target(o, source).value;
      if fault.MakeDirectoryFails? { return Err(WriteFailed(target)); }
      var text := Encoded(o, value, Some(target), None);
      if text.Err? {
        if text.error.StringifyFailed? { Emit(NotStringified); }
        return Err(text.error);
      }
      if fault.WriteFails? { return Err(WriteFailed(target)); }
      files := files[target := Readable(text.value)];
      return Ok(target);
    }

    method FindFirst() returns (found: Option<string>)
      ensures found == Locate(o, files, 0)
    {
      for i := 0 to |o.resolvers|
        invariant Locate(o, files, i) == Locate(o, files, 0)
      {
        found := o.resolvers[i].resolve(files);
        if found.Some? { return; }
      }
      found := None;
    }

    method Save(value: A, fault: Fault) returns (r: Result<string, Error>)
      modifies this`trace, this`files
      ensures
        var source := if o.toSource then Locate(o, old(files), 0) else None;
        && r == SaveResult(o, value, source, fault)
        && files == FilesAfterSave(o, old(files), value, source, fault)
        && trace == old(trace) + Heard(o.events, SaveWord(o, value, source, fault, path => Saved(path)))
    {
      var source: Option<string> := None;
      if o.toSource { source := FindFirst(); }
      r := SaveTo(value, source, fault);
      if r.Ok? { Emit(Saved(r.value)); }
    }

    /** The critical section of `update`; what two of them do at once is in `ConfigUpdates`. */
    method Update(fn: A -> A, fallback: Option<A>, fault: Fault) returns (r: Result<A, Error>)
      modifies this`trace, this`files
      ensures r == UpdateResult(o, old(files), fn, fallback, fault)
      ensures files == FilesAfterUpdate(o, old(files), fn, fallback, fault)
      ensures trace == old(trace) + Heard(o.events, UpdateWord(o, old(files), fn, fallback, fault))
    {
      var current := LoadOrDefaultWithSource(fallback);
      if current.Err? { return Err(current.error); }
      var updated := fn(current.value.value);
      ghost var load, save := LoadWord(o, files), UpdateWord(o, files, fn, fallback, fault)[|LoadWord(o, files)|..];
      HeardMore(old(trace), o.events, load, save);
      var target := SaveTo(updated, if o.toSource then current.value.source else None, fault);
      if target.Err? { return Err(target.error); }
      Emit(Updated(target.value));
      return Ok(updated);
    }

    /** Writes to the caller's path, whose directory it trusts. */
    method Write(value: A, target: string, header: Option<string>, fails: bool) returns (r: Result<string, Error>)
      modifies this`trace, this`files
      ensures
        var text := Encoded(o, value, Some(target), header);
        && r == (if text.Err? then Err(text.error) else if fails then Err(WriteFailed(target)) else Ok(target))
        && files == (if r.Ok? then old(files)[target := Readable(text.value)] else old(files))
        && trace == old(trace) + Heard(o.events, if r.Ok? then [Written(target)] else if r.error.StringifyFailed? then [NotStringified] else [])
    {
      var text := Encoded(o, value, Some(target), header);
      if text.Err? {
        if text.error.StringifyFailed? { Emit(NotStringified); }
        return Err(text.error);
      }
      if fails { return Err(WriteFailed(target)); }
      files := files[target := Readable(text.value)];
      Emit(Written(target));
      return Ok(target);
    }

    /** Encoding publishes nothing and writes nothing. */
    method Encode(value: A, header: Option<string>) returns (r: Result<string, Error>)
      ensures r == Encoded(o, value, None, header)
    {
      r := Encoded(o, value, None, header);
    }
  }
}

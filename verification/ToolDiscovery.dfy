/**
 * Synchronous tool discovery: probe evidence is remembered only when it found
 * something, and each call's policy is applied to it.
 */
module ToolDiscovery {
  import opened Wrappers

  datatype Location = Global | Local
  datatype Source = Any | Both | Only(at: Location)
  datatype OnMismatch = FailOnMismatch | PreferGlobal | PreferLocal

  /** How a tool's version is asked for (`args`) and read. */
  datatype VersionProbe = VersionProbe(kind: string, args: seq<string>)

  datatype Tool = Tool(name: string, probe: VersionProbe, source: Source, onMismatch: OnMismatch, prefer: Option<Location>)

  datatype Key = Key(name: string, probe: VersionProbe)

  datatype Command = Command(executable: string, args: seq<string>, cwd: Option<string>)

  /** A spawn that could not start (or threw), or one that ended; a signal leaves no status. */
  datatype SpawnResult = CouldNotStart | Ended(status: Option<int>, stdout: string)

  datatype ExecContext = ExecContext(prefix: seq<string>, directory: string)

  datatype Probe = Probe(found: bool, version: Option<string>)

  datatype Evidence = Evidence(global: Probe, local: Probe, context: Option<ExecContext>)

  datatype Answer =
    | Refused
    | NotFound(searched: seq<Location>)
    | Mismatch(globalVersion: string, localVersion: string)
    | Resolved(source: Location, version: Option<string>, mismatch: bool, context: Option<ExecContext>)

  type Spawn = Command -> SpawnResult
  type Reader = (VersionProbe, string) -> Option<string>

  const ABSENT: Probe := Probe(false, None)

  predicate IsRefusedName(name: string) {
    name == "" || name[0] == '-'
  }

  predicate IsPositive(e: Evidence) {
    e.global.found || e.local.found
  }

  function KeyOf(tool: Tool): Key {
    Key(tool.name, tool.probe)
  }

  function ProbeLocation(at: Location, key: Key, command: Command, spawn: Spawn, read: Reader): Probe {
    match spawn(command)
    case CouldNotStart => ABSENT
    case Ended(status, stdout) =>
      if at.Local? && status != Some(0) then ABSENT else Probe(true, read(key.probe, stdout))
  }

  /** What probing both locations shows now; it does not depend on a tool's policy. */
  function Gather(key: Key, context: Option<ExecContext>, spawn: Spawn, read: Reader): Evidence {
    var args := key.probe.args;
    var local :=
      if context.None? then ABSENT
      else
        var where := context.value;
        ProbeLocation(Local, key,
                      if where.prefix == [] then Command(key.name, args, Some(where.directory))
                      else Command(where.prefix[0], where.prefix[1..] + [key.name] + args, Some(where.directory)),
                      spawn, read);
    Evidence(ProbeLocation(Global, key, Command(key.name, args, None), spawn, read), local, context)
  }

  predicate Satisfied(source: Source, e: Evidence) {
    match source
    case Any => e.global.found || e.local.found
    case Both => e.global.found && e.local.found
    case Only(at) => if at.Global? then e.global.found else e.local.found
  }

  function ProbeAt(e: Evidence, at: Location): Probe {
    if at.Local? then e.local else e.global
  }

  /** A tool's policy applied to evidence: a copy that resolves is one that was found. */
  function Decide(tool: Tool, e: Evidence): (a: Answer)
    ensures !a.Refused?
    ensures a.NotFound? <==> !Satisfied(tool.source, e)
    ensures a.Resolved? ==> ProbeAt(e, a.source).found && a.version == ProbeAt(e, a.source).version
    ensures a.Mismatch? ==> tool.onMismatch.FailOnMismatch? && e.global.found && e.local.found
                            && e.global.version != e.local.version
  {
    if !Satisfied(tool.source, e) then
      NotFound(match tool.source case Only(at) => [at] case _ => [Global, Local])
    else
      var both := e.global.found && e.local.found;
      var mismatch := both && e.global.version.Some? && e.local.version.Some? && e.global.version != e.local.version;
      if mismatch && tool.onMismatch.FailOnMismatch? then Mismatch(e.global.version.value, e.local.version.value)
      else
        var source :=
          match tool.source
          case Only(at) => at
          case _ =>
            if mismatch then (if tool.onMismatch.PreferGlobal? then Global else Local)
            else if both then (if tool.prefer.Some? then tool.prefer.value else Local)
            else if e.local.found then Local
            else Global;
        Resolved(source, ProbeAt(e, source).version, mismatch, if source.Local? then e.context else None)
  }

  // ---- the rules of a decision, on the evidence and the tool ----

  predicate BothFound(e: Evidence) {
    e.global.found && e.local.found
  }

  /** Both copies were found, with readable versions that differ. */
  predicate Differ(e: Evidence) {
    BothFound(e) && e.global.version.Some? && e.local.version.Some? && e.global.version.value != e.local.version.value
  }

  predicate Chooses(tool: Tool, e: Evidence, at: Location) {
    Decide(tool, e).Resolved? && Decide(tool, e).source == at
  }

  /** A source that is not there is not found, and the locations searched are the ones the source admits. */
  lemma NotFoundRule(tool: Tool, e: Evidence)
    ensures Decide(tool, e).NotFound? <==>
      match tool.source
      case Only(at) => if at.Local? then !e.local.found else !e.global.found
      case Any => !e.global.found && !e.local.found
      case Both => !BothFound(e)
    ensures Decide(tool, e).NotFound? ==>
      Decide(tool, e).searched == if tool.source.Only? then [tool.source.at] else [Global, Local]
  {
  }

  /** Differing versions are reported, with both of them, exactly for a tool that fails on a mismatch. */
  lemma MismatchRule(tool: Tool, e: Evidence)
    ensures Decide(tool, e).Mismatch? <==> Differ(e) && tool.onMismatch.FailOnMismatch?
    ensures Decide(tool, e).Mismatch? ==>
      Some(Decide(tool, e).globalVersion) == e.global.version && Some(Decide(tool, e).localVersion) == e.local.version
  {
  }

  /** An explicit location decides, whatever else was found and however versions compare. */
  lemma OnlyRule(tool: Tool, e: Evidence, at: Location)
    requires tool.source == Only(at) && ProbeAt(e, at).found && !(Differ(e) && tool.onMismatch.FailOnMismatch?)
    ensures Chooses(tool, e, at)
  {
  }

  /** Otherwise `onMismatch` decides between differing copies, `prefer` between others, and a single copy is the one. */
  lemma FreeRule(tool: Tool, e: Evidence)
    requires !tool.source.Only?
    ensures Differ(e) && tool.onMismatch.PreferGlobal? ==> Chooses(tool, e, Global)
    ensures Differ(e) && tool.onMismatch.PreferLocal? ==> Chooses(tool, e, Local)
    ensures BothFound(e) && !Differ(e) ==> Chooses(tool, e, if tool.prefer == Some(Global) then Global else Local)
    ensures tool.source.Any? && e.global.found && !e.local.found ==> Chooses(tool, e, Global)
    ensures tool.source.Any? && e.local.found && !e.global.found ==> Chooses(tool, e, Local)
  {
  }

  /** What a resolved copy comes with: its own version, whether the copies differ, and a context only for a local one. */
  lemma ResolvedRule(tool: Tool, e: Evidence)
    requires Decide(tool, e).Resolved?
    ensures
      var a := Decide(tool, e);
      && ProbeAt(e, a.source).found && a.version == ProbeAt(e, a.source).version
      && (a.mismatch <==> Differ(e))
      && (a.source == Local ==> a.context == e.context) && (a.source == Global ==> a.context == None)
  {
  }

  // ---- what the probes show ----

  /** A global copy is there when its spawn starts, however it ends; its version is read from what it prints. */
  lemma GlobalProbe(key: Key, context: Option<ExecContext>, spawn: Spawn, read: Reader)
    ensures
      var run, p := spawn(Command(key.name, key.probe.args, None)), Gather(key, context, spawn, read).global;
      && (p.found <==> run.Ended?)
      && (p.found ==> p.version == read(key.probe, run.stdout)) && (!p.found ==> p.version == None)
  {
  }

  /** A local copy is there when there is a context to run it in and its spawn, through that context, ends with status 0. */
  lemma LocalProbe(key: Key, context: Option<ExecContext>, spawn: Spawn, read: Reader)
    ensures
      var e := Gather(key, context, spawn, read);
      && e.context == context
      && (context.None? ==> e.local == ABSENT)
      && (context.Some? ==>
            var where := context.value;
            var run := spawn(if where.prefix == [] then Command(key.name, key.probe.args, Some(where.directory))
                             else Command(where.prefix[0], where.prefix[1..] + [key.name] + key.probe.args, Some(where.directory)));
            && (e.local.found <==> run.Ended? && run.status == Some(0))
            && (e.local.found ==> e.local.version == read(key.probe, run.stdout))
            && (!e.local.found ==> e.local.version == None))
  {
  }

  /** The answer of a resolver with no cache. */
  function Uncached(tool: Tool, context: Option<ExecContext>, spawn: Spawn, read: Reader): Answer {
    if IsRefusedName(tool.name) then Refused else Decide(tool, Gather(KeyOf(tool), context, spawn, read))
  }

  /** A name is refused, whatever the world, exactly when it is empty or reads as an option. */
  lemma RefusedRule(tool: Tool, context: Option<ExecContext>, spawn: Spawn, read: Reader)
    ensures Uncached(tool, context, spawn, read).Refused? <==> |tool.name| == 0 || tool.name[0] == '-'
  {
  }

  // ---- the resolver ----

  /** A call, and for a resolution the state of the world it probes. */
  datatype Call =
    | Resolve(tool: Tool, spawn: Spawn)
    | IsAvailable(tool: Tool, spawn: Spawn)
    | Invalidate(tool: Tool)
    | InvalidateAll

  type Cache = map<Key, Evidence>

  /** Whether the call consults evidence for the key. */
  predicate Asks(call: Call, key: Key) {
    (call.Resolve? || call.IsAvailable?) && !IsRefusedName(call.tool.name) && KeyOf(call.tool) == key
  }

  predicate Forgets(call: Call, key: Key) {
    call.InvalidateAll? || (call.Invalidate? && KeyOf(call.tool) == key)
  }

  datatype Setting = Setting(context: Option<ExecContext>, read: Reader)

  function Fresh(g: Setting, call: Call): Evidence
    requires call.Resolve? || call.IsAvailable?
  {
    Gather(KeyOf(call.tool), g.context, call.spawn, g.read)
  }

  function Used(g: Setting, cache: Cache, call: Call): Evidence
    requires call.Resolve? || call.IsAvailable?
  {
    if KeyOf(call.tool) in cache then cache[KeyOf(call.tool)] else Fresh(g, call)
  }

  function CacheAfter(g: Setting, cache: Cache, call: Call): Cache {
    match call
    case Invalidate(tool) => cache - {KeyOf(tool)}
    case InvalidateAll => map[]
    case _ =>
      if IsRefusedName(call.tool.name) || KeyOf(call.tool) in cache || !IsPositive(Fresh(g, call)) then cache
      else cache[KeyOf(call.tool) := Fresh(g, call)]
  }

  /** Tools share evidence exactly when they share name and version probe, whatever their policy. */
  lemma KeyRule(a: Tool, b: Tool)
    ensures KeyOf(a) == KeyOf(b) <==> a.name == b.name && a.probe == b.probe
    ensures KeyOf(a).name == a.name && KeyOf(a).probe == a.probe
  {
  }

  /** What one call leaves remembered: an invalidated key is gone, and a key asked for is kept if either copy was found. */
  lemma RemembersRule(g: Setting, cache: Cache, call: Call, key: Key)
    ensures
      key in CacheAfter(g, cache, call) <==>
      match call
      case InvalidateAll => false
      case Invalidate(tool) => key in cache && !(tool.name == key.name && tool.probe == key.probe)
      case _ =>
        || key in cache
        || (&& |key.name| > 0 && key.name[0] != '-' && call.tool.name == key.name && call.tool.probe == key.probe
            && var e := Gather(key, g.context, call.spawn, g.read); e.global.found || e.local.found)
    ensures key in CacheAfter(g, cache, call) ==>
      CacheAfter(g, cache, call)[key] == if key in cache then cache[key] else Gather(key, g.context, call.spawn, g.read)
  {
  }

  class Discovery {
    const context: Option<ExecContext>
    const read: Reader
    var cache: Cache

    constructor (context: Option<ExecContext>, read: Reader)
      ensures cache == map[] && this.context == context && this.read == read
    {
      this.context, this.read, cache := context, read, map[];
    }

    function G(): Setting {
      Setting(context, read)
    }

    /** Remembered evidence, or fresh evidence, remembered only when it found something. */
    method EvidenceFor(tool: Tool, spawn: Spawn) returns (e: Evidence, probed: bool)
      requires !IsRefusedName(tool.name)
      modifies this`cache
      ensures e == Used(G(), old(cache), Call.Resolve(tool, spawn))
      ensures cache == CacheAfter(G(), old(cache), Call.Resolve(tool, spawn))
      ensures probed <==> KeyOf(tool) !in old(cache)
    {
      var key := KeyOf(tool);
      if key in cache { return cache[key], false; }
      e, probed := Gather(key, context, spawn, read), true;
      if IsPositive(e) { cache := cache[key := e]; }
    }

    method Resolve(tool: Tool, spawn: Spawn) returns (a: Answer)
      modifies this`cache
      ensures cache == CacheAfter(G(), old(cache), Call.Resolve(tool, spawn))
      ensures a == if IsRefusedName(tool.name) then Refused else Decide(tool, Used(G(), old(cache), Call.Resolve(tool, spawn)))
    {
      if IsRefusedName(tool.name) { return Refused; }
      var e, _ := EvidenceFor(tool, spawn);
      a := Decide(tool, e);
    }

    method IsAvailable(tool: Tool, spawn: Spawn) returns (available: bool)
      modifies this`cache
      ensures cache == CacheAfter(G(), old(cache), Call.IsAvailable(tool, spawn))
      ensures available <==>
        !IsRefusedName(tool.name) && Decide(tool, Used(G(), old(cache), Call.IsAvailable(tool, spawn))).Resolved?
    {
      var a := Resolve(tool, spawn);
      available := a.Resolved?;
    }

    method Invalidate(tool: Tool)
      modifies this`cache
      ensures cache == CacheAfter(G(), old(cache), Call.Invalidate(tool))
    {
      cache := cache - {KeyOf(tool)};
    }

    method InvalidateAll()
      modifies this`cache
      ensures cache == CacheAfter(G(), old(cache), Call.InvalidateAll)
    {
      cache := map[];
    }
  }

  // ---- any sequence of calls on one resolver ----

  function CacheAt(g: Setting, calls: seq<Call>, j: nat): Cache
    requires j <= |calls|
  {
    if j == 0 then map[] else CacheAfter(g, CacheAt(g, calls, j - 1), calls[j - 1])
  }

  predicate KeptBetween(calls: seq<Call>, key: Key, i: nat, j: nat)
    requires i <= j <= |calls|
  {
    forall k :: i <= k < j ==> !Forgets(calls[k], key)
  }

  /** Call `i` probes the key and finds something, and it is not invalidated before call `j`. */
  ghost predicate FoundAt(g: Setting, calls: seq<Call>, key: Key, i: nat, j: nat)
    requires j <= |calls|
  {
    && i < j && Asks(calls[i], key) && IsPositive(Fresh(g, calls[i]))
    && KeptBetween(calls, key, i, j)
  }

  /** ... and its evidence is the one remembered. */
  ghost predicate RememberedFrom(g: Setting, calls: seq<Call>, key: Key, i: nat, j: nat)
    requires j <= |calls|
  {
    && FoundAt(g, calls, key, i, j) && key !in CacheAt(g, calls, i)
    && key in CacheAt(g, calls, j) && CacheAt(g, calls, j)[key] == Fresh(g, calls[i])
  }

  /** What is remembered is what some earlier probe found, not invalidated since; and whatever was found is remembered. */
  lemma {:induction false} RememberedExactly(g: Setting, calls: seq<Call>, key: Key, j: nat)
    requires j <= |calls|
    ensures key in CacheAt(g, calls, j) ==> exists i: nat :: RememberedFrom(g, calls, key, i, j)
    ensures (exists i: nat :: FoundAt(g, calls, key, i, j)) ==> key in CacheAt(g, calls, j)
  {
    if j > 0 {
      var before, call := CacheAt(g, calls, j - 1), calls[j - 1];
      RememberedExactly(g, calls, key, j - 1);
      if key in CacheAt(g, calls, j) {
        if key in before {
          var i: nat :| RememberedFrom(g, calls, key, i, j - 1);
          assert RememberedFrom(g, calls, key, i, j);
        } else {
          assert RememberedFrom(g, calls, key, j - 1, j);
        }
      }
      forall i: nat | FoundAt(g, calls, key, i, j) ensures key in CacheAt(g, calls, j) {
        if i < j - 1 { assert FoundAt(g, calls, key, i, j - 1); }
      }
    }
  }

  /** Evidence that is positive does not change until it is invalidated. */
  ghost predicate Stable(g: Setting, calls: seq<Call>) {
    forall key, i: nat, j: nat :: j < |calls| && FoundAt(g, calls, key, i, j) && Asks(calls[j], key) ==>
      Fresh(g, calls[j]) == Fresh(g, calls[i])
  }

  /** The evidence call `j` decides on is what probing at that moment would show. */
  ghost predicate Current(g: Setting, calls: seq<Call>, j: nat)
    requires j < |calls|
  {
    (calls[j].Resolve? || calls[j].IsAvailable?) && !IsRefusedName(calls[j].tool.name) ==>
      Used(g, CacheAt(g, calls, j), calls[j]) == Fresh(g, calls[j])
  }

  lemma StableIsCurrent(g: Setting, calls: seq<Call>, j: nat)
    requires Stable(g, calls) && j < |calls|
    ensures Current(g, calls, j)
  {
    if (calls[j].Resolve? || calls[j].IsAvailable?) && !IsRefusedName(calls[j].tool.name) {
      var key := KeyOf(calls[j].tool);
      RememberedExactly(g, calls, key, j);
      if key in CacheAt(g, calls, j) {
        var i: nat :| RememberedFrom(g, calls, key, i, j);
        assert Asks(calls[j], key);
      }
    }
  }

  /** From a positive answer to the next one for its key, the same evidence is remembered. */
  lemma {:induction false} HeldUntil(g: Setting, calls: seq<Call>, key: Key, i: nat, j: nat)
    requires j <= |calls| && FoundAt(g, calls, key, i, j) && Current(g, calls, i)
    ensures key in CacheAt(g, calls, j) && CacheAt(g, calls, j)[key] == Fresh(g, calls[i])
    decreases j
  {
    if i < j - 1 {
      assert FoundAt(g, calls, key, i, j - 1);
      HeldUntil(g, calls, key, i, j - 1);
      assert !Forgets(calls[j - 1], key);
    } else {
      assert !Forgets(calls[i], key);
    }
  }

  /**
   * Every call decides on what probing would show at that moment, exactly when
   * evidence that is positive does not change until it is invalidated.
   */
  lemma CacheIsCurrentExactlyWhenStable(g: Setting, calls: seq<Call>)
    ensures (forall j: nat :: j < |calls| ==> Current(g, calls, j)) <==> Stable(g, calls)
  {
    if Stable(g, calls) {
      forall j: nat | j < |calls| ensures Current(g, calls, j) { StableIsCurrent(g, calls, j); }
    }
    if forall j: nat :: j < |calls| ==> Current(g, calls, j) {
      forall key, i: nat, j: nat | j < |calls| && FoundAt(g, calls, key, i, j) && Asks(calls[j], key)
        ensures Fresh(g, calls[j]) == Fresh(g, calls[i])
      {
        HeldUntil(g, calls, key, i, j);
        assert Current(g, calls, j);
      }
    }
  }

  /** What call `j` answers: a resolution, or whether there is one. */
  function AnswerAt(g: Setting, calls: seq<Call>, j: nat): Answer
    requires j < |calls| && (calls[j].Resolve? || calls[j].IsAvailable?)
  {
    if IsRefusedName(calls[j].tool.name) then Refused
    else Decide(calls[j].tool, Used(g, CacheAt(g, calls, j), calls[j]))
  }

  /**
   * Then every answer, of tools that differ only in policy too, is the one a
   * resolver with no cache gives, and a tool is available when that resolves it.
   */
  lemma AnswersAsUncached(g: Setting, calls: seq<Call>, j: nat)
    requires Stable(g, calls) && j < |calls| && (calls[j].Resolve? || calls[j].IsAvailable?)
    ensures
      var uncached := Uncached(calls[j].tool, g.context, calls[j].spawn, g.read);
      AnswerAt(g, calls, j) == uncached && (AnswerAt(g, calls, j).Resolved? <==> uncached.Resolved?)
  {
    StableIsCurrent(g, calls, j);
  }

  /** Between invalidations a key that was found is never probed again, and one that was not found always is. */
  lemma ProbedAgainUnlessFound(g: Setting, calls: seq<Call>, key: Key, j: nat)
    requires j < |calls| && Asks(calls[j], key)
    ensures key !in CacheAt(g, calls, j) <==> forall i: nat :: !FoundAt(g, calls, key, i, j)
  {
    RememberedExactly(g, calls, key, j);
  }
}

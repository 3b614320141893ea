/**
 * Concurrent `update` calls on one service instance. Each call is a process
 * whose reads and writes interleave with the others' in any way the one-permit
 * lock allows; files are read one at a time, and any call can be interrupted,
 * before its write or after it.
 */
module ConfigUpdates {
  import opened Wrappers
  import opened ConfigFile

  datatype Call<!A> = Call(fn: A -> A, fallback: Option<A>)

  datatype Outcome<+A> = Done(result: Result<A, Error>) | Interrupted

  /**
   * Where a call has got to. `Opening` is between a resolver's lookup and the
   * read of what it found, and `Landed` between the write and the release.
   */
  datatype Pc<+A> =
    | Waiting
    | Looking(i: nat, sources: seq<Source<A>>, candidates: seq<string>)
    | Opening(i: nat, sources: seq<Source<A>>, candidates: seq<string>, path: string)
    | Saving(value: A, source: Option<string>)
    | Writing(value: A, target: string, text: string)
    | Landed(value: A)
    | Finished(outcome: Outcome<A>)

  datatype Proc<!A> = Proc(call: Call<A>, pc: Pc<A>)

  /** How a call left the lock: at its end, or interrupted before its write or after it. */
  datatype Ending = Ended | CutBefore | CutAfter

  /** One release of the lock: whose, how the world treated its writes, and how it ended. */
  datatype Entry<!A> = Entry(pid: nat, call: Call<A>, fault: Fault, ending: Ending)

  /** `acquired` lists the calls in the order they took the lock, `log` in the order they released it. */
  datatype State<!A> = State(
    files: Files, holder: Option<nat>, procs: seq<Proc<A>>, acquired: seq<nat>, log: seq<Entry<A>>)

  datatype Choice = Acquire(pid: nat) | Advance(pid: nat, fault: Fault) | Interrupt(pid: nat)

  // ---- one step ----

  predicate Enabled<A>(s: State<A>, c: Choice) {
    c.pid < |s.procs| &&
    match c
    case Acquire(p) => s.procs[p].pc.Waiting? && s.holder.None?
    case Advance(p, _) => s.holder == Some(p)
    case Interrupt(p) => s.procs[p].pc.Waiting? || s.holder == Some(p)
  }

  function At<A>(s: State<A>, p: nat, pc: Pc<A>): State<A>
    requires p < |s.procs|
  {
    s.(procs := s.procs[p := s.procs[p].(pc := pc)])
  }

  function Release<A>(s: State<A>, p: nat, outcome: Outcome<A>, fault: Fault, ending: Ending): State<A>
    requires p < |s.procs|
  {
    At(s, p, Finished(outcome)).(holder := None, log := s.log + [Entry(p, s.procs[p].call, fault, ending)])
  }

  /** The call ends by itself. */
  function End<A>(s: State<A>, p: nat, result: Result<A, Error>, fault: Fault): State<A>
    requires p < |s.procs|
  {
    Release(s, p, Done(result), fault, Ended)
  }

  /** The call is interrupted while it holds the lock: its write has landed, or it has written nothing. */
  function Cut<A>(s: State<A>, p: nat): State<A>
    requires p < |s.procs|
  {
    Release(s, p, Interrupted, NoFault, if s.procs[p].pc.Landed? then CutAfter else CutBefore)
  }

  function Look<A, P>(o: Options<A, P>, s: State<A>, p: nat): State<A>
    requires p < |s.procs| && s.procs[p].pc.Looking?
  {
    var call, pc := s.procs[p].call, s.procs[p].pc;
    if pc.i < |o.resolvers| then
      var resolver := o.resolvers[pc.i];
      match resolver.Find(s.files)
      case Some(path) => At(s, p, Opening(pc.i, pc.sources, pc.candidates, path))
      case None =>
        At(s, p, Looking(pc.i + 1, pc.sources, pc.candidates + resolver.Probed(s.files)))
    else if pc.sources != [] then
      At(s, p, Saving(call.fn(o.merge(pc.sources)), if o.toSource then Some(pc.sources[0].path) else None))
    else if call.fallback.Some? then At(s, p, Saving(call.fn(call.fallback.value), None))
    else End(s, p, Err(NothingFound(Names(o.resolvers), pc.candidates)), NoFault)
  }

  function Open<A, P>(o: Options<A, P>, s: State<A>, p: nat): State<A>
    requires p < |s.procs| && s.procs[p].pc.Opening? && s.procs[p].pc.i < |o.resolvers|
  {
    var pc := s.procs[p].pc;
    match ReadSource(o, s.files, pc.path)
    case Err(e) => End(s, p, Err(e), NoFault)
    case Ok(value) =>
      At(s, p, Looking(pc.i + 1, pc.sources + [Source(pc.path, o.resolvers[pc.i].name, value)], pc.candidates))
  }

  function Prepare<A, P>(o: Options<A, P>, s: State<A>, p: nat, fault: Fault): State<A>
    requires p < |s.procs| && s.procs[p].pc.Saving?
  {
    var pc := s.procs[p].pc;
    match Target(o, pc.source)
    case None => End(s, p, Err(NoDefaultPath), NoFault)
    case Some(target) =>
      if fault.MakeDirectoryFails? then End(s, p, Err(WriteFailed(target)), fault)
      else
        match Encoded(o, pc.value, Some(target), None)
        case Err(e) => End(s, p, Err(e), NoFault)
        case Ok(text) => At(s, p, Writing(pc.value, target, text))
  }

  function Commit<A>(s: State<A>, p: nat, fault: Fault): State<A>
    requires p < |s.procs| && s.procs[p].pc.Writing?
  {
    var pc := s.procs[p].pc;
    if fault.WriteFails? then End(s, p, Err(WriteFailed(pc.target)), fault)
    else At(s, p, Landed(pc.value)).(files := s.files[pc.target := Readable(pc.text)])
  }

  predicate WellAt<A, P>(o: Options<A, P>, pc: Pc<A>) {
    && !pc.Waiting? && !pc.Finished?
    && (pc.Looking? ==> pc.i <= |o.resolvers|) && (pc.Opening? ==> pc.i < |o.resolvers|)
  }

  function Apply<A, P>(o: Options<A, P>, s: State<A>, c: Choice): State<A>
    requires Enabled(s, c) && (c.Advance? ==> WellAt(o, s.procs[c.pid].pc))
  {
    match c
    case Acquire(p) => At(s, p, Looking(0, [], [])).(holder := Some(p), acquired := s.acquired + [p])
    case Interrupt(p) =>
      if s.procs[p].pc.Waiting? then At(s, p, Finished(Interrupted)) else Cut(s, p)
    case Advance(p, fault) =>
      match s.procs[p].pc
      case Looking(_, _, _) => Look(o, s, p)
      case Opening(_, _, _, _) => Open(o, s, p)
      case Saving(_, _) => Prepare(o, s, p, fault)
      case Writing(_, _, _) => Commit(s, p, fault)
      case Landed(value) => End(s, p, Ok(value), NoFault)
  }

  ghost predicate Next<A, P>(o: Options<A, P>, s: State<A>, s': State<A>) {
    exists c :: Enabled(s, c) && (c.Advance? ==> WellAt(o, s.procs[c.pid].pc)) && s' == Apply(o, s, c)
  }

  ghost predicate Initial<A>(s: State<A>) {
    && s.holder.None? && s.acquired == [] && s.log == []
    && forall p :: 0 <= p < |s.procs| ==> s.procs[p].pc.Waiting?
  }

  ghost predicate NextAt<A, P>(o: Options<A, P>, run: seq<State<A>>, i: nat)
    requires i + 1 < |run|
  {
    Next(o, run[i], run[i + 1])
  }

  ghost predicate IsRun<A, P>(o: Options<A, P>, run: seq<State<A>>) {
    |run| > 0 && Initial(run[0]) && forall i: nat :: i + 1 < |run| ==> NextAt(o, run, i)
  }

  // ---- the same calls one after another ----

  function FilesAfter<A, P>(o: Options<A, P>, files: Files, e: Entry<A>): Files {
    if e.ending.CutBefore? then files else FilesAfterUpdate(o, files, e.call.fn, e.call.fallback, e.fault)
  }

  function OutcomeOf<A, P>(o: Options<A, P>, files: Files, e: Entry<A>): Outcome<A> {
    if !e.ending.Ended? then Interrupted else Done(UpdateResult(o, files, e.call.fn, e.call.fallback, e.fault))
  }

  function SerialFiles<A, P>(o: Options<A, P>, files: Files, log: seq<Entry<A>>): Files {
    if log == [] then files
    else FilesAfter(o, SerialFiles(o, files, log[..|log| - 1]), log[|log| - 1])
  }

  /** The calls whose effect is in the files: those released, and one whose write has landed already. */
  function Committed<A>(s: State<A>): seq<Entry<A>> {
    if s.holder.Some? && s.holder.value < |s.procs| && s.procs[s.holder.value].pc.Landed? then
      s.log + [Entry(s.holder.value, s.procs[s.holder.value].call, NoFault, CutAfter)]
    else s.log
  }

  function Pids<A>(log: seq<Entry<A>>): (pids: seq<nat>)
    ensures |pids| == |log| && forall k :: 0 <= k < |log| ==> pids[k] == log[k].pid
  {
    if log == [] then [] else Pids(log[..|log| - 1]) + [log[|log| - 1].pid]
  }

  // ---- the invariant ----

  /** What the holder of the lock has done so far agrees with doing its update at once, on `files`. */
  ghost predicate OnCourse<A, P>(o: Options<A, P>, files: Files, proc: Proc<A>) {
    var current := Current(o, files, proc.call.fallback);
    match proc.pc
    case Looking(i, sources, candidates) =>
      && i <= |o.resolvers| && DiscoverFrom(o, files, i, sources) == DiscoverFrom(o, files, 0, [])
      && candidates + CandidatesFrom(o, files, i) == CandidatesFrom(o, files, 0)
    case Opening(i, sources, candidates, path) =>
      && i < |o.resolvers| && o.resolvers[i].Find(files) == Some(path)
      && DiscoverFrom(o, files, i, sources) == DiscoverFrom(o, files, 0, [])
      && candidates + CandidatesFrom(o, files, i) == CandidatesFrom(o, files, 0)
    case Saving(value, source) =>
      && current.Ok? && value == proc.call.fn(current.value.value)
      && source == if o.toSource then current.value.source else None
    case Writing(value, target, text) =>
      && current.Ok? && value == proc.call.fn(current.value.value)
      && Target(o, if o.toSource then current.value.source else None) == Some(target)
      && Encoded(o, value, Some(target), None) == Ok(text)
    case Landed(value) => UpdateResult(o, files, proc.call.fn, proc.call.fallback, NoFault) == Ok(value)
    case _ => false
  }

  /** The call's outcome is the one its place in the log gives it. */
  ghost predicate Explained<A, P>(o: Options<A, P>, files0: Files, log: seq<Entry<A>>, p: nat, outcome: Outcome<A>) {
    exists k: nat :: ExplainedAt(o, files0, log, p, outcome, k)
  }

  ghost predicate ExplainedAt<A, P>(o: Options<A, P>, files0: Files, log: seq<Entry<A>>, p: nat, outcome: Outcome<A>, k: nat) {
    k < |log| && log[k].pid == p && outcome == OutcomeOf(o, SerialFiles(o, files0, log[..k]), log[k])
  }

  ghost predicate ProcOk<A, P>(o: Options<A, P>, files0: Files, s: State<A>, p: nat)
    requires p < |s.procs|
  {
    match s.procs[p].pc
    case Waiting => s.holder != Some(p) && p !in Pids(s.log)
    case Finished(outcome) =>
      && s.holder != Some(p)
      && (p in Pids(s.log) ==> Explained(o, files0, s.log, p, outcome))
      && (p !in Pids(s.log) ==> outcome == Interrupted)
    case _ => s.holder == Some(p) && p !in Pids(s.log) && OnCourse(o, SerialFiles(o, files0, s.log), s.procs[p])
  }

  ghost predicate LogOk<A>(s: State<A>) {
    && (forall k :: 0 <= k < |s.log| ==> s.log[k].pid < |s.procs| && s.log[k].call == s.procs[s.log[k].pid].call)
    && (forall j, k :: 0 <= j < k < |s.log| ==> s.log[j].pid != s.log[k].pid)
    && s.acquired == Pids(s.log) + (if s.holder.Some? then [s.holder.value] else [])
    && (s.holder.Some? ==> s.holder.value < |s.procs|)
  }

  ghost predicate Inv<A, P>(o: Options<A, P>, files0: Files, s: State<A>) {
    && LogOk(s) && s.files == SerialFiles(o, files0, Committed(s))
    && forall p: nat :: p < |s.procs| ==> ProcOk(o, files0, s, p)
  }

  lemma LogGrows<A, P>(o: Options<A, P>, files0: Files, log: seq<Entry<A>>, e: Entry<A>, p: nat, outcome: Outcome<A>)
    ensures SerialFiles(o, files0, log + [e]) == FilesAfter(o, SerialFiles(o, files0, log), e)
    ensures Pids(log + [e]) == Pids(log) + [e.pid]
    ensures Explained(o, files0, log, p, outcome) ==> Explained(o, files0, log + [e], p, outcome)
  {
    assert (log + [e])[..|log|] == log;
    if k: nat :| ExplainedAt(o, files0, log, p, outcome, k) {
      assert (log + [e])[..k] == log[..k];
      assert ExplainedAt(o, files0, log + [e], p, outcome, k);
    }
  }

  /** Leaving the lock with what the update does to the files, and its outcome, keeps the account straight. */
  lemma Releases<A, P>(
    o: Options<A, P>, files0: Files, s: State<A>, p: nat, outcome: Outcome<A>, fault: Fault, ending: Ending, s': State<A>)
    requires Inv(o, files0, s) && s.holder == Some(p) && p < |s.procs| && s' == Release(s, p, outcome, fault, ending)
    requires
      var e, before := Entry(p, s.procs[p].call, fault, ending), SerialFiles(o, files0, s.log);
      s.files == FilesAfter(o, before, e) && outcome == OutcomeOf(o, before, e)
    ensures Inv(o, files0, s')
  {
    var e := Entry(p, s.procs[p].call, fault, ending);
    assert ProcOk(o, files0, s, p) && p !in Pids(s.log);
    LogGrows(o, files0, s.log, e, p, outcome);
    ReleaseKeepsLog(s, p, e, s');
    LeaverIsExplained(o, files0, s, p, outcome, e, s');
    forall q: nat | q < |s'.procs| && q != p ensures ProcOk(o, files0, s', q) {
      ReleaseKeepsOthers(o, files0, s, p, q, e, s');
    }
  }

  lemma ReleaseKeepsLog<A>(s: State<A>, p: nat, e: Entry<A>, s': State<A>)
    requires LogOk(s) && s.holder == Some(p) && p !in Pids(s.log) && p < |s.procs| == |s'.procs|
    requires e.pid == p && e.call == s.procs[p].call && s'.log == s.log + [e] && s'.holder.None? && s'.acquired == s.acquired
    requires forall q :: 0 <= q < |s.procs| ==> s'.procs[q].call == s.procs[q].call
    ensures LogOk(s')
  {
    forall j, k | 0 <= j < k < |s'.log| ensures s'.log[j].pid != s'.log[k].pid {
      if k == |s.log| { assert Pids(s.log)[j] in Pids(s.log); }
    }
    assert Pids(s'.log) == Pids(s.log) + [p];
  }

  lemma LeaverIsExplained<A, P>(
    o: Options<A, P>, files0: Files, s: State<A>, p: nat, outcome: Outcome<A>, e: Entry<A>, s': State<A>)
    requires p < |s'.procs| && s'.procs[p].pc == Finished(outcome) && s'.holder.None? && s'.log == s.log + [e] && e.pid == p
    requires outcome == OutcomeOf(o, SerialFiles(o, files0, s.log), e)
    ensures ProcOk(o, files0, s', p)
  {
    assert s'.log[..|s.log|] == s.log;
    assert ExplainedAt(o, files0, s'.log, p, outcome, |s.log|);
    assert Pids(s'.log)[|s.log|] == p;
  }

  lemma ReleaseKeepsOthers<A, P>(
    o: Options<A, P>, files0: Files, s: State<A>, p: nat, q: nat, e: Entry<A>, s': State<A>)
    requires Inv(o, files0, s) && s.holder == Some(p) && p < |s.procs| && q < |s.procs| == |s'.procs| && q != p
    requires s'.procs[q] == s.procs[q] && s'.holder.None? && s'.log == s.log + [e] && e.pid == p
    ensures ProcOk(o, files0, s', q)
  {
    assert ProcOk(o, files0, s, q);
    if s.procs[q].pc.Finished? { LogGrows(o, files0, s.log, e, q, s.procs[q].pc.outcome); }
  }

  /** Going on inside the lock, before the write, changes only the holder's own place. */
  lemma Moves<A, P>(o: Options<A, P>, files0: Files, s: State<A>, p: nat, pc: Pc<A>)
    requires Inv(o, files0, s) && s.holder == Some(p) && p < |s.procs| && !s.procs[p].pc.Landed? && !pc.Landed?
    requires OnCourse(o, s.files, Proc(s.procs[p].call, pc))
    ensures Inv(o, files0, At(s, p, pc))
  {
    var s' := At(s, p, pc);
    assert ProcOk(o, files0, s, p);
    forall q: nat | q < |s'.procs| ensures ProcOk(o, files0, s', q) { assert ProcOk(o, files0, s, q); }
  }

  lemma CourseOf<A, P>(o: Options<A, P>, files0: Files, s: State<A>, p: nat)
    requires Inv(o, files0, s) && s.holder == Some(p)
    ensures p < |s.procs| && OnCourse(o, SerialFiles(o, files0, s.log), s.procs[p])
    ensures !s.procs[p].pc.Landed? ==> s.files == SerialFiles(o, files0, s.log)
  {
    assert ProcOk(o, files0, s, p);
  }

  lemma LooksFurther<A, P>(o: Options<A, P>, files: Files, call: Call<A>, i: nat, sources: seq<Source<A>>, candidates: seq<string>)
    requires OnCourse(o, files, Proc(call, Looking(i, sources, candidates))) && i < |o.resolvers|
    ensures
      var resolver := o.resolvers[i];
      match resolver.Find(files)
      case Some(path) => OnCourse(o, files, Proc(call, Opening(i, sources, candidates, path)))
      case None =>
        OnCourse(o, files, Proc(call, Looking(i + 1, sources, candidates + resolver.Probed(files))))
  {
  }

  lemma LookedEverywhere<A, P>(o: Options<A, P>, files: Files, call: Call<A>, sources: seq<Source<A>>, candidates: seq<string>)
    requires OnCourse(o, files, Proc(call, Looking(|o.resolvers|, sources, candidates)))
    ensures DiscoverFrom(o, files, 0, []) == Ok(sources) && candidates == CandidatesFrom(o, files, 0)
  {
    assert candidates + [] == candidates;
  }

  lemma LookKeeps<A, P>(o: Options<A, P>, files0: Files, s: State<A>, p: nat)
    requires Inv(o, files0, s) && s.holder == Some(p) && p < |s.procs| && s.procs[p].pc.Looking?
    ensures Inv(o, files0, Look(o, s, p))
  {
    CourseOf(o, files0, s, p);
    var call, pc, s' := s.procs[p].call, s.procs[p].pc, Look(o, s, p);
    if pc.i < |o.resolvers| {
      LooksFurther(o, s.files, call, pc.i, pc.sources, pc.candidates);
      Moves(o, files0, s, p, s'.procs[p].pc);
    } else {
      LookedEverywhere(o, s.files, call, pc.sources, pc.candidates);
      if s'.holder.Some? {
        Moves(o, files0, s, p, s'.procs[p].pc);
      } else {
        Releases(o, files0, s, p, s'.procs[p].pc.outcome, NoFault, Ended, s');
      }
    }
  }

  lemma OpensFurther<A, P>(
    o: Options<A, P>, files: Files, call: Call<A>, i: nat, sources: seq<Source<A>>, candidates: seq<string>, path: string)
    requires OnCourse(o, files, Proc(call, Opening(i, sources, candidates, path)))
    ensures
      match ReadSource(o, files, path)
      case Err(e) => DiscoverFrom(o, files, 0, []) == Err(e)
      case Ok(value) =>
        OnCourse(o, files, Proc(call, Looking(i + 1, sources + [Source(path, o.resolvers[i].name, value)], candidates)))
  {
    assert candidates + ([] + CandidatesFrom(o, files, i + 1)) == candidates + CandidatesFrom(o, files, i + 1);
  }

  lemma OpenKeeps<A, P>(o: Options<A, P>, files0: Files, s: State<A>, p: nat)
    requires Inv(o, files0, s) && s.holder == Some(p) && p < |s.procs| && s.procs[p].pc.Opening?
    requires s.procs[p].pc.i < |o.resolvers|
    ensures Inv(o, files0, Open(o, s, p))
  {
    CourseOf(o, files0, s, p);
    var pc, s' := s.procs[p].pc, Open(o, s, p);
    OpensFurther(o, s.files, s.procs[p].call, pc.i, pc.sources, pc.candidates, pc.path);
    if s'.holder.Some? {
      Moves(o, files0, s, p, s'.procs[p].pc);
    } else {
      Releases(o, files0, s, p, s'.procs[p].pc.outcome, NoFault, Ended, s');
    }
  }

  lemma PrepareKeeps<A, P>(o: Options<A, P>, files0: Files, s: State<A>, p: nat, fault: Fault)
    requires Inv(o, files0, s) && s.holder == Some(p) && p < |s.procs| && s.procs[p].pc.Saving?
    ensures Inv(o, files0, Prepare(o, s, p, fault))
  {
    CourseOf(o, files0, s, p);
    var s' := Prepare(o, s, p, fault);
    if s'.holder.Some? {
      Moves(o, files0, s, p, s'.procs[p].pc);
    } else {
      var failed := Target(o, s.procs[p].pc.source).Some? && fault.MakeDirectoryFails?;
      Releases(o, files0, s, p, s'.procs[p].pc.outcome, if failed then fault else NoFault, Ended, s');
    }
  }

  /** The write lands: the call's effect is in the files before it leaves the lock. */
  lemma Lands<A, P>(o: Options<A, P>, files0: Files, s: State<A>, p: nat, s': State<A>)
    requires Inv(o, files0, s) && s.holder == Some(p) && p < |s.procs| && s.procs[p].pc.Writing?
    requires s' == Commit(s, p, NoFault)
    ensures Inv(o, files0, s')
  {
    CourseOf(o, files0, s, p);
    var e := Entry(p, s.procs[p].call, NoFault, CutAfter);
    assert Committed(s') == s.log + [e];
    LogGrows(o, files0, s.log, e, p, Interrupted);
    assert ProcOk(o, files0, s, p);
    forall q: nat | q < |s'.procs| ensures ProcOk(o, files0, s', q) { assert ProcOk(o, files0, s, q); }
  }

  lemma CommitKeeps<A, P>(o: Options<A, P>, files0: Files, s: State<A>, p: nat, fault: Fault)
    requires Inv(o, files0, s) && s.holder == Some(p) && p < |s.procs| && s.procs[p].pc.Writing?
    ensures Inv(o, files0, Commit(s, p, fault))
  {
    CourseOf(o, files0, s, p);
    var s' := Commit(s, p, fault);
    if fault.WriteFails? { Releases(o, files0, s, p, s'.procs[p].pc.outcome, fault, Ended, s'); }
    else { Lands(o, files0, s, p, s'); }
  }

  /** Once landed, a call leaves its effect behind, whether it ends or is cut. */
  lemma LandedReleases<A, P>(o: Options<A, P>, files0: Files, s: State<A>, p: nat, outcome: Outcome<A>, ending: Ending)
    requires Inv(o, files0, s) && s.holder == Some(p) && p < |s.procs| && s.procs[p].pc.Landed?
    requires if ending.Ended? then outcome == Done(Ok(s.procs[p].pc.value)) else ending.CutAfter? && outcome == Interrupted
    ensures Inv(o, files0, Release(s, p, outcome, NoFault, ending))
  {
    CourseOf(o, files0, s, p);
    LogGrows(o, files0, s.log, Entry(p, s.procs[p].call, NoFault, CutAfter), p, outcome);
    Releases(o, files0, s, p, outcome, NoFault, ending, Release(s, p, outcome, NoFault, ending));
  }

  lemma AcquireKeeps<A, P>(o: Options<A, P>, files0: Files, s: State<A>, p: nat)
    requires Inv(o, files0, s) && Enabled(s, Acquire(p))
    ensures Inv(o, files0, Apply(o, s, Acquire(p)))
  {
    var s' := Apply(o, s, Acquire(p));
    forall q: nat | q < |s'.procs| ensures ProcOk(o, files0, s', q) { assert ProcOk(o, files0, s, q); }
  }

  lemma WaiterLeaves<A, P>(o: Options<A, P>, files0: Files, s: State<A>, p: nat)
    requires Inv(o, files0, s) && p < |s.procs| && s.procs[p].pc.Waiting?
    ensures Inv(o, files0, At(s, p, Finished(Interrupted)))
  {
    var s' := At(s, p, Finished(Interrupted));
    assert ProcOk(o, files0, s, p);
    assert Committed(s') == Committed(s);
    forall q: nat | q < |s'.procs| ensures ProcOk(o, files0, s', q) { assert ProcOk(o, files0, s, q); }
  }

  /** Before its write, a call that is cut leaves nothing behind. */
  lemma CutBeforeWrite<A, P>(o: Options<A, P>, files0: Files, s: State<A>, p: nat)
    requires Inv(o, files0, s) && s.holder == Some(p) && p < |s.procs| && !s.procs[p].pc.Landed?
    ensures Inv(o, files0, Cut(s, p))
  {
    CourseOf(o, files0, s, p);
    Releases(o, files0, s, p, Interrupted, NoFault, CutBefore, Cut(s, p));
  }

  lemma InterruptKeeps<A, P>(o: Options<A, P>, files0: Files, s: State<A>, p: nat)
    requires Inv(o, files0, s) && Enabled(s, Interrupt(p))
    ensures Inv(o, files0, Apply(o, s, Interrupt(p)))
  {
    if s.procs[p].pc.Waiting? { WaiterLeaves(o, files0, s, p); }
    else if s.procs[p].pc.Landed? { LandedReleases(o, files0, s, p, Interrupted, CutAfter); }
    else { CutBeforeWrite(o, files0, s, p); }
  }

  lemma NextKeeps<A, P>(o: Options<A, P>, files0: Files, s: State<A>, s': State<A>)
    requires Inv(o, files0, s) && Next(o, s, s')
    ensures Inv(o, files0, s')
  {
    var c :| Enabled(s, c) && (c.Advance? ==> WellAt(o, s.procs[c.pid].pc)) && s' == Apply(o, s, c);
    match c {
      case Acquire(p) => AcquireKeeps(o, files0, s, p);
      case Interrupt(p) => InterruptKeeps(o, files0, s, p);
      case Advance(p, fault) =>
        match s.procs[p].pc {
          case Looking(_, _, _) => LookKeeps(o, files0, s, p);
          case Opening(_, _, _, _) => OpenKeeps(o, files0, s, p);
          case Saving(_, _) => PrepareKeeps(o, files0, s, p, fault);
          case Writing(_, _, _) => CommitKeeps(o, files0, s, p, fault);
          case Landed(value) => LandedReleases(o, files0, s, p, Done(Ok(value)), Ended);
        }
    }
  }

  lemma InitialInv<A, P>(o: Options<A, P>, s: State<A>)
    requires Initial(s)
    ensures Inv(o, s.files, s)
  {
  }

  lemma {:induction false} InvAlways<A, P>(o: Options<A, P>, run: seq<State<A>>, i: nat)
    requires IsRun(o, run) && i < |run|
    ensures Inv(o, run[0].files, run[i])
  {
    if i == 0 {
      InitialInv(o, run[0]);
    } else {
      InvAlways(o, run, i - 1);
      assert NextAt(o, run, i - 1);
      NextKeeps(o, run[0].files, run[i - 1], run[i]);
    }
  }

  /**
   * In every interleaving, the files are those of the committed calls run one
   * after another, in the order they took the lock; each of them ran once, and
   * each outcome is the one its turn gave it. No update is lost, a failed one
   * changes nothing, and an interrupted one contributes nothing or the whole of
   * its update.
   */
  lemma UpdatesAreSerial<A, P>(o: Options<A, P>, run: seq<State<A>>, i: nat)
    requires IsRun(o, run) && i < |run|
    ensures
      var s, files0 := run[i], run[0].files;
      && s.files == SerialFiles(o, files0, Committed(s))
      && s.log <= Committed(s) && Pids(Committed(s)) <= s.acquired && |s.acquired| <= |s.log| + 1
      && (forall j, k :: 0 <= j < k < |s.log| ==> s.log[j].pid != s.log[k].pid)
      && (forall p: nat :: p < |s.procs| && s.procs[p].pc.Finished? ==>
            if p in Pids(s.log) then Explained(o, files0, s.log, p, s.procs[p].pc.outcome)
            else s.procs[p].pc.outcome.Interrupted?)
  {
    InvAlways(o, run, i);
    var s, files0 := run[i], run[0].files;
    forall p: nat | p < |s.procs| && s.procs[p].pc.Finished?
      ensures if p in Pids(s.log) then Explained(o, files0, s.log, p, s.procs[p].pc.outcome)
              else s.procs[p].pc.outcome.Interrupted?
    {
      assert ProcOk(o, files0, s, p);
    }
  }

  /** The holder of the lock can always take its next step: the hypothesis of a step on its place never blocks it. */
  lemma HolderCanStep<A, P>(o: Options<A, P>, run: seq<State<A>>, i: nat, fault: Fault)
    requires IsRun(o, run) && i < |run| && run[i].holder.Some?
    ensures
      var c := Advance(run[i].holder.value, fault);
      Enabled(run[i], c) && WellAt(o, run[i].procs[c.pid].pc)
  {
    InvAlways(o, run, i);
    CourseOf(o, run[0].files, run[i], run[i].holder.value);
  }
}

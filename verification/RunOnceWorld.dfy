/**
 * Processes on one host running the protocol over a shared directory.
 * Paths name inodes; a create or write binds an empty inode at once and its
 * text lands on that inode at the writer's next step; a rename keeps the inode.
 */
module RunOnceWorld {
  import opened Wrappers
  import opened RunOnceMachine

  datatype Inode = Inode(text: Text, mtime: int)

  datatype Deferred = Deferred(id: nat, text: Text)

  datatype Disk = Disk(paths: map<Path, nat>, inodes: map<nat, Inode>, nextInode: nat) {

    /** Ids are allocated in order, every bound id exists, and no two paths share one. */
    ghost predicate Valid() {
      && (forall p :: p in paths ==> paths[p] in inodes)
      && (forall id :: id in inodes ==> id < nextInode)
      && (forall p, q :: p in paths && q in paths && paths[p] == paths[q] ==> p == q)
    }

    function FileAt(path: Path): Option<Inode> {
      if path in paths && paths[path] in inodes then Some(inodes[paths[path]]) else None
    }

    function TextAt(path: Path): Option<Text> {
      var file := FileAt(path);
      if file.Some? then Some(file.value.text) else None
    }

    function Bind(path: Path, mtime: int): Disk {
      Disk(paths[path := nextInode], inodes[nextInode := Inode(Garbled(""), mtime)], nextInode + 1)
    }

    function Unlink(path: Path): Disk {
      this.(paths := paths - {path})
    }

    function Move(from: Path, to: Path): Disk
      requires from in paths
    {
      this.(paths := (paths - {from})[to := paths[from]])
    }

    function Truncate(path: Path, mtime: int): Disk {
      if path in paths then this.(inodes := inodes[paths[path] := Inode(Garbled(""), mtime)])
      else Bind(path, mtime)
    }

    /** The text reaches its file, and stamps it if the file system does that. */
    function Land(deferred: Option<Deferred>, stamp: Option<int>): Disk {
      if deferred.Some? && deferred.value.id in inodes then
        var mtime := if stamp.Some? then stamp.value else inodes[deferred.value.id].mtime;
        this.(inodes := inodes[deferred.value.id := Inode(deferred.value.text, mtime)])
      else this
    }
  }

  /**
   * `seen` is the world's own record of the owners this process read at the
   * lock path, and `unearthed` of those it read in a tomb of the lock; the
   * machine keeps its `observed` set apart.
   */
  datatype Proc = Proc(
    cfg: Config, m: Machine, crashed: bool, running: bool, deferred: Option<Deferred>,
    seen: set<Nonce>, unearthed: set<Nonce>)

  /**
   * What the file system may do: fail to read the text of a file that is there
   * (`ReadText` answers `undefined` for an unreadable file), fail to read its
   * time, and stamp a file with the time its text lands. One that does not stamp
   * leaves a file the time of its create or truncation.
   */
  datatype FileSystem = FileSystem(textFails: bool, ageFails: bool, stamps: bool)

  function Reliable(stamps: bool): FileSystem {
    FileSystem(false, false, stamps)
  }

  /**
   * `posted` holds the nonces some create has carried and `succeeded` those
   * whose owner's work succeeded; neither is visible to a process.
   */
  datatype World = World(
    limits: Limits, fs: FileSystem, host: string, disk: Disk, clock: int, serial: nat,
    posted: set<Nonce>, succeeded: set<Nonce>, procs: seq<Proc>)

  /**
   * What the environment decides at one step: how much time passes, whether
   * the file operation fails (and leaves debris), the order of a listing, and
   * which processes the liveness probe would report dead.
   */
  datatype Oracle = Oracle(dt: nat, fault: bool, debris: bool, listing: seq<Path>, dead: set<int>)

  datatype Choice =
    | Step(pid: int, o: Oracle)
    | Finish(pid: int, succeeded: bool, dt: nat)
    | Crash(pid: int)

  predicate Live(s: World, p: int) {
    0 <= p < |s.procs| && !s.procs[p].crashed && !s.procs[p].m.ctl.Ended?
  }

  /**
   * A probe may call a finished or crashed process alive (a recycled pid),
   * never a live one dead; a listing is host-local, so it is current.
   */
  ghost predicate Honest(s: World, request: Request, o: Oracle) {
    && (forall q :: q in o.dead ==> !Live(s, q))
    && (request.AskReadText? && o.fault ==> s.fs.textFails)
    && (request.AskAgeMs? && o.fault ==> s.fs.ageFails)
    && (request.AskListDirectory? && !o.fault ==> forall p: Path :: p in o.listing <==> p in s.disk.paths)
  }

  /** The time a text that lands at this step gives its file, if it gives one. */
  function Stamp(s: World, o: Oracle): Option<int> {
    if s.fs.stamps then Some(s.clock + o.dt) else None
  }

  predicate PausesLongEnough(request: Request, dt: nat) {
    match request
    case AskSleep(ms) => dt >= ms
    case AskBackoff(ms) => dt >= ms
    case _ => true
  }

  ghost predicate Enabled(s: World, c: Choice) {
    && Live(s, c.pid)
    && match c
       case Step(p, o) =>
         var request := Ask(s.procs[p].cfg, s.procs[p].m.ctl);
         !s.procs[p].running && Honest(s, request, o) && PausesLongEnough(request, o.dt)
       case Finish(p, _, _) => s.procs[p].running && Ask(s.procs[p].cfg, s.procs[p].m.ctl).AskRun?
       case Crash(_) => true
  }

  datatype Served = Served(disk: Disk, deferred: Option<Deferred>, answer: Answer)

  /** One file request answered against the disk at time `clock`. */
  function Serve(disk: Disk, clock: int, nonce: Nonce, request: Request, o: Oracle): (r: Served)
    requires !request.AskRun?
    ensures Fits(request, r.answer)
  {
    match request
    case AskNow => Served(disk, None, Time(clock))
    case AskNonce => Served(disk, None, Drawn(nonce))
    case AskSleep(_) => Served(disk, None, Nothing)
    case AskBackoff(_) => Served(disk, None, Nothing)
    case AskMakeDirectory => Served(disk, None, MadeDirectory(!o.fault))
    case AskReadText(path) => Served(disk, None, Contents(if o.fault then None else disk.TextAt(path)))
    case AskCreateExclusive(path, text) =>
      if path in disk.paths then
        Served(disk, None, CreateAnswer(if o.fault then CreateFailed else AlreadyExists))
      else if o.fault then
        Served(if o.debris then disk.Bind(path, clock) else disk, None, CreateAnswer(CreateFailed))
      else
        Served(disk.Bind(path, clock), Some(Deferred(disk.nextInode, text)), CreateAnswer(CreatedNew))
    case AskWriteText(path, text) =>
      if o.fault then Served(if o.debris then disk.Truncate(path, clock) else disk, None, Nothing)
      else
        var id := if path in disk.paths then disk.paths[path] else disk.nextInode;
        Served(disk.Truncate(path, clock), Some(Deferred(id, text)), Nothing)
    case AskRemove(path) => Served(if o.fault then disk else disk.Unlink(path), None, Nothing)
    case AskAgeMs(path) =>
      var file := disk.FileAt(path);
      Served(disk, None, Age(if file.None? || o.fault then None else Some(clock - file.value.mtime)))
    case AskRename(from, to) =>
      if o.fault then Served(disk, None, RenameAnswer(RenameFailed))
      else if from !in disk.paths then Served(disk, None, RenameAnswer(NothingThere))
      else Served(disk.Move(from, to), None, RenameAnswer(RenamedAway))
    case AskListDirectory => Served(disk, None, Listing(if o.fault then None else Some(o.listing)))
  }

  /** The owner a read at the lock path shows its reader. */
  function Shown(request: Request, answer: Answer): set<Nonce> {
    if request.AskReadText? && request.path.Lock? && answer.Contents? then Adding({}, DecodeOwner(answer.text)) else {}
  }

  /** The owner a read of a tomb shows its reader. */
  function Unearthed(request: Request, answer: Answer): set<Nonce> {
    if request.AskReadText? && (request.path.Tomb? || request.path.OldTomb?) && answer.Contents? then
      Adding({}, DecodeOwner(answer.text))
    else {}
  }

  function Carried(request: Request): set<Nonce> {
    if request.AskCreateExclusive? then Adding({}, DecodeOwner(Some(request.text))) else {}
  }

  function Probe(o: Oracle): int -> bool {
    (pid: int) => pid !in o.dead
  }

  function Apply(s: World, c: Choice): World
    requires Live(s, c.pid)
    requires c.Finish? ==> Ask(s.procs[c.pid].cfg, s.procs[c.pid].m.ctl).AskRun?
  {
    var me := s.procs[c.pid];
    match c
    case Crash(p) => s.(procs := s.procs[p := me.(crashed := true, running := false)])
    case Finish(p, succeeded, dt) =>
      var m := Resume(me.cfg, me.m, Worked(succeeded), (_: int) => true);
      s.(clock := s.clock + dt,
         succeeded := if succeeded && me.m.ctl.RunHeld? then s.succeeded + {me.m.ctl.own.nonce} else s.succeeded,
         procs := s.procs[p := me.(m := m, running := false)])
    case Step(p, o) =>
      var request := Ask(me.cfg, me.m.ctl);
      var disk := s.disk.Land(me.deferred, Stamp(s, o));
      var clock := s.clock + o.dt;
      if request.AskRun? then
        s.(disk := disk, clock := clock, procs := s.procs[p := me.(running := true, deferred := None)])
      else
        var served := Serve(disk, clock, Issued(p, s.serial), request, o);
        var m := Resume(me.cfg, me.m, served.answer, Probe(o));
        s.(disk := served.disk,
           clock := clock,
           serial := if request.AskNonce? then s.serial + 1 else s.serial,
           posted := s.posted + Carried(request),
           procs := s.procs[p := me.(m := m, deferred := served.deferred,
                                     seen := me.seen + Shown(request, served.answer),
                                     unearthed := me.unearthed + Unearthed(request, served.answer))])
  }

  ghost predicate Next(s: World, s': World) {
    exists c :: Enabled(s, c) && s' == Apply(s, c)
  }

  predicate ConfigOf(s: World, p: int, cfg: Config) {
    && cfg.limits == s.limits && cfg.host == s.host && cfg.pid == p
    && (cfg.serialize ==> cfg.trustSequentialMs.None?)
  }

  /**
   * Any leftover files may be there at the start, written by processes that
   * are not part of this run: their nonces are foreign, and a done marker
   * among them records work that succeeded then.
   */
  ghost predicate Initial(s: World) {
    && s.disk.Valid()
    && s.serial == 0 && s.posted == {}
    && (forall id :: id in s.disk.inodes ==>
          var text := s.disk.inodes[id].text;
          && (text.Record? ==> text.owner.nonce.Foreign?)
          && (text.Mark? ==> text.nonce.Foreign? && text.nonce in s.succeeded))
    && (forall n :: n in s.succeeded ==> n.Foreign?)
    && (forall p :: p in s.disk.paths && p.Ticket? ==> p.nonce.Foreign?)
    && (forall p :: p in s.disk.paths && p.Tomb? ==> p.nonce.Foreign?)
    && (forall p :: 0 <= p < |s.procs| ==>
          ConfigOf(s, p, s.procs[p].cfg) && s.procs[p] == Proc(s.procs[p].cfg, Start(), false, false, None, {}, {}))
  }

  ghost predicate NextAt(run: seq<World>, i: int)
    requires 0 <= i < |run| - 1
  {
    Next(run[i], run[i + 1])
  }

  ghost predicate IsRun(run: seq<World>) {
    && |run| > 0 && Initial(run[0])
    && forall i :: 0 <= i < |run| - 1 ==> NextAt(run, i)
  }

  // ---- the phases the guarantees speak of ----

  /** The record of the lock this process created and has not yet released. */
  function Owned(ctl: Control): Option<Owner> {
    match ctl
    case Verify(own) => Some(own)
    case Repair(own) => Some(own)
    case ReadLate(own) => Some(own)
    case RunHeld(own) => Some(own)
    case MarkNow(own) => Some(own)
    case WriteMark(own, _) => Some(own)
    case Backoff(own, _, _) => Some(own)
    case TombNow(errand) => if errand.Releasing? then Some(errand.own) else None
    case TombRename(errand, _) => if errand.Releasing? then Some(errand.own) else None
    case _ => None
  }

  /** The breaker ticket this process has created and not yet withdrawn. */
  function Holding(ctl: Control): Option<Breaker> {
    match ctl
    case ListTickets(b) => Some(b)
    case ScanText(b, _, _, _) => Some(b)
    case ScanAge(b, _, _, _, _) => Some(b)
    case ScanRemove(b, _, _, _) => Some(b)
    case Withdraw(b) => Some(b)
    case JudgeText(b) => Some(b)
    case JudgeAge(b, _) => Some(b)
    case TombNow(errand) => if errand.Breaking? then Some(errand.b) else None
    case TombRename(errand, _) => if errand.Breaking? then Some(errand.b) else None
    case TombText(errand, _) => if errand.Breaking? then Some(errand.b) else None
    case TombAge(errand, _, _) => if errand.Breaking? then Some(errand.b) else None
    case PutBack(errand, _, _) => if errand.Breaking? then Some(errand.b) else None
    case TombRemove(errand, _, _) => if errand.Breaking? then Some(errand.b) else None
    case DropTicket(b, _) => Some(b)
    case _ => None
  }

  /** Holding a ticket, with the scan of the other tickets finished and uncontended. */
  predicate Cleared(ctl: Control) {
    Holding(ctl).Some? && !ctl.ListTickets? && !ctl.ScanText? && !ctl.ScanAge? && !ctl.ScanRemove? && !ctl.Withdraw?
  }

  ghost predicate AgedAtMost(s: World, path: Path, ms: int) {
    var file := s.disk.FileAt(path);
    file.Some? ==> s.clock - file.value.mtime <= ms
  }

  /** A live breaker holds its ticket for at most `breakMs`. */
  ghost predicate TicketsTimely(s: World, breakMs: nat) {
    forall p :: Live(s, p) && Holding(s.procs[p].m.ctl).Some? ==>
      AgedAtMost(s, Ticket(Holding(s.procs[p].m.ctl).value.mine), breakMs)
  }

  /**
   * How long a live process may stay in each critical phase: owning a lock,
   * between the lock's create and its check, and holding a ticket.
   */
  datatype Stalls = Stalls(ownMs: nat, createMs: nat, breakMs: nat)

  ghost predicate LocksTimely(s: World, stalls: Stalls) {
    forall p :: Live(s, p) ==>
      var ctl := s.procs[p].m.ctl;
      && (Owned(ctl).Some? ==> AgedAtMost(s, Lock, stalls.ownMs))
      && (ctl.Verify? ==> AgedAtMost(s, Lock, stalls.createMs))
  }

  ghost predicate Timely(s: World, stalls: Stalls) {
    LocksTimely(s, stalls) && TicketsTimely(s, stalls.breakMs)
  }

  ghost predicate TimelyRun(run: seq<World>, stalls: Stalls) {
    forall i :: 0 <= i < |run| ==> Timely(run[i], stalls)
  }

  // ---- which stalls the protocol withstands ----

  /** Tickets are never aged out, and no ticket can look missing because both its reads fail. */
  predicate TicketsSuffice(limits: Limits, fs: FileSystem, breakMs: nat) {
    breakMs <= limits.staleMs && !(fs.textFails && fs.ageFails)
  }

  /**
   * A breaker may read a lock's text before it has landed and its age after.
   * Where the landing stamps the file, that age is one stall or the other;
   * where it does not, the two add up.
   */
  predicate StallsSuffice(limits: Limits, fs: FileSystem, stalls: Stalls) {
    if fs.stamps then stalls.createMs <= limits.staleMs && stalls.breakMs <= limits.staleMs
    else stalls.createMs + stalls.breakMs <= limits.staleMs
  }

  /**
   * Either no lock is ever older than `staleMs`, or an owner's text can always
   * be read: then its lock may grow to `staleMs + waitTimeoutMs`, as long as
   * nobody stalls long enough to mistake a lock without its text for a stale one.
   */
  predicate Suffices(limits: Limits, fs: FileSystem, stalls: Stalls) {
    && TicketsSuffice(limits, fs, stalls.breakMs)
    && (|| stalls.ownMs <= limits.staleMs
        || (&& !fs.textFails
            && stalls.ownMs <= limits.staleMs + limits.waitTimeoutMs
            && StallsSuffice(limits, fs, stalls)))
  }
}

/**
 * The phases runs are put together from. Each takes one process from one
 * control point to another at no cost in time, except for the delays that are
 * parameters, and leaves every other process where it was. The processes are
 * once callers, and nothing but locks, tickets and their tombs is on the disk
 * unless a phase says so.
 */
module RunOncePhases {
  import opened Wrappers
  import opened RunOnceMachine
  import opened RunOnceWorld
  import opened RunOnceInvariant
  import opened RunOnceSafety
  import opened RunOnceScenes

  const HOST := "h"

  function ConfigFor(limits: Limits, pid: int): Config {
    Config(limits, None, false, pid, HOST)
  }

  function Opening(limits: Limits, fs: FileSystem, disk: Disk, clock: int, n: nat): World {
    World(limits, fs, HOST, disk, clock, 0, {}, {},
          seq(n, i => Proc(ConfigFor(limits, i), Start(), false, false, None, {}, {})))
  }

  /** Process `p` is about to make the request of `ctl`, with `pending` text on its way to a file. */
  predicate Comes(s: World, p: int, ctl: Control, pending: Option<Deferred>) {
    && Live(s, p) && s.host == HOST && s.procs[p].cfg == ConfigFor(s.limits, p)
    && !s.procs[p].running && s.procs[p].m.ctl == ctl && s.procs[p].deferred == pending
  }

  predicate At(s: World, p: int, ctl: Control) {
    Comes(s, p, ctl, None)
  }

  /** Nothing but `p` moved. */
  predicate Alone(s: World, p: int, s': World) {
    && 0 <= p < |s.procs| == |s'.procs|
    && s'.limits == s.limits && s'.fs == s.fs && s'.host == s.host
    && (forall q :: 0 <= q < |s.procs| && q != p ==> s'.procs[q] == s.procs[q])
    && s.procs[p].seen <= s'.procs[p].seen
  }

  /** `p` came to `ctl` at once, having drawn `drawn` nonces and left the disk as `d`. */
  predicate Brings(s: World, p: int, s': World, ctl: Control, d: Disk, drawn: nat) {
    && Alone(s, p, s') && At(s', p, ctl) && s'.disk == d && s'.clock == s.clock
    && s'.serial == s.serial + drawn && s'.procs[p].m.deadline == s.procs[p].m.deadline
  }

  function Quiet(): Oracle {
    Oracle(0, false, false, [], {})
  }

  function After(dt: nat): Oracle {
    Oracle(dt, false, false, [], {})
  }

  function Listed(names: seq<Path>): Oracle {
    Oracle(0, false, false, names, {})
  }

  function Read(blind: bool): Oracle {
    Oracle(0, blind, false, [], {})
  }

  ghost predicate Lists(names: seq<Path>, d: Disk) {
    forall path: Path :: path in names <==> path in d.paths
  }

  ghost predicate NoTombs(d: Disk) {
    forall path: Path :: path in d.paths ==> !path.Tomb? && !path.OldTomb?
  }

  lemma Enumerates(paths: set<Path>) returns (names: seq<Path>)
    ensures forall path: Path :: path in names <==> path in paths
  {
    if paths == {} {
      names := [];
    } else {
      var path :| path in paths;
      var rest := Enumerates(paths - {path});
      names := [path] + rest;
    }
  }

  lemma NothingToSweep(names: seq<Path>, now: int, staleMs: nat)
    requires forall path: Path :: path in names ==> !path.Tomb? && !path.OldTomb?
    ensures StaleTombs(names, now, staleMs) == []
  {
    if names != [] {
      assert names[0] in names;
      assert forall path: Path :: path in names[1..] ==> path in names;
      NothingToSweep(names[1..], now, staleMs);
    }
  }

  function AgeOf(d: Disk, path: Path, clock: int): Option<int> {
    var file := d.FileAt(path);
    if file.None? then None else Some(clock - file.value.mtime)
  }

  /** The disk once a pending text lands, now. */
  function Landing(s: World, pending: Option<Deferred>): Disk {
    s.disk.Land(pending, if s.fs.stamps then Some(s.clock) else None)
  }

  /** The file a create leaves once its text has landed. */
  function Posted(d: Disk, path: Path, text: Text, clock: int): Disk {
    Disk(d.paths[path := d.nextInode], d.inodes[d.nextInode := Inode(text, clock)], d.nextInode + 1)
  }

  lemma PostedFacts(d: Disk, path: Path, text: Text, clock: int)
    requires d.Valid()
    ensures
      var d' := Posted(d, path, text, clock);
      && d'.FileAt(path) == Some(Inode(text, clock))
      && (forall other :: other != path ==> d'.FileAt(other) == d.FileAt(other))
  {
  }

  /** A text that lands as soon as its file is created leaves the same file, stamped or not. */
  lemma PostedLands(s: World, d: Disk, path: Path, text: Text)
    requires s.disk == d.Bind(path, s.clock)
    ensures Landing(s, Some(Deferred(d.nextInode, text))) == Posted(d, path, text, s.clock)
  {
    assert s.disk.inodes[d.nextInode := Inode(text, s.clock)] == d.inodes[d.nextInode := Inode(text, s.clock)];
  }

  /**
   * The request of `ctl`, made under `o` by `p` with `pending` text on its way,
   * is served by `served`, whose answer brings `p` to `next`.
   */
  ghost predicate Leads(s: World, p: int, ctl: Control, pending: Option<Deferred>, o: Oracle, served: Served, next: Control) {
    && Comes(s, p, ctl, pending) && !ctl.SetDeadline? && o.dead == {}
    && var request := Ask(s.procs[p].cfg, ctl);
    && !request.AskRun? && !request.AskSleep? && !request.AskBackoff?
    && (request.AskReadText? && o.fault ==> s.fs.textFails)
    && (request.AskAgeMs? && o.fault ==> s.fs.ageFails)
    && (request.AskListDirectory? && !o.fault ==> Lists(o.listing, s.disk))
    && Serve(s.disk.Land(pending, Stamp(s, o)), s.clock + o.dt, Issued(p, s.serial), request, o) == served
    && Resume(s.procs[p].cfg, s.procs[p].m, served.answer, Probe(o)).ctl == next
  }

  /** What such a request does to the world. */
  ghost predicate LedTo(s: World, p: int, o: Oracle, served: Served, next: Control, s': World)
    requires Live(s, p)
  {
    && Alone(s, p, s') && s'.disk == served.disk && s'.clock == s.clock + o.dt
    && s'.serial == s.serial + (if RequestOf(s, p).AskNonce? then 1 else 0)
    && s'.procs[p].m.ctl == next && s'.procs[p].m.deadline == s.procs[p].m.deadline
    && (!next.Ended? ==> Comes(s', p, next, served.deferred))
    && Shown(RequestOf(s, p), served.answer) <= s'.procs[p].seen
  }

  lemma SameDeadline(cfg: Config, m: Machine, a: Answer, alive: int -> bool)
    requires !m.ctl.Ended? && Fits(Ask(cfg, m.ctl), a) && !m.ctl.SetDeadline?
    ensures Resume(cfg, m, a, alive).deadline == m.deadline
  {
  }

  lemma MayLead(s: World, p: int, ctl: Control, pending: Option<Deferred>, o: Oracle, served: Served, next: Control)
    requires Leads(s, p, ctl, pending, o, served, next)
    ensures Enabled(s, Step(p, o)) && PausesLongEnough(Ask(s.procs[p].cfg, s.procs[p].m.ctl), 0)
  {
  }

  /** The process once its request has been answered. */
  function Answered(proc: Proc, served: Served, o: Oracle): Proc
    requires !proc.m.ctl.Ended? && Fits(Ask(proc.cfg, proc.m.ctl), served.answer)
  {
    var request := Ask(proc.cfg, proc.m.ctl);
    proc.(m := Resume(proc.cfg, proc.m, served.answer, Probe(o)), deferred := served.deferred,
          seen := proc.seen + Shown(request, served.answer),
          unearthed := proc.unearthed + Unearthed(request, served.answer))
  }

  /** The world once a request has been served. */
  function Changed(s: World, p: int, o: Oracle, served: Served): World
    requires Live(s, p) && Fits(RequestOf(s, p), served.answer)
  {
    s.(disk := served.disk, clock := s.clock + o.dt,
       serial := if RequestOf(s, p).AskNonce? then s.serial + 1 else s.serial,
       posted := s.posted + Carried(RequestOf(s, p)),
       procs := s.procs[p := Answered(s.procs[p], served, o)])
  }

  lemma StepIs(s: World, p: int, o: Oracle, served: Served)
    requires Live(s, p) && !RequestOf(s, p).AskRun? && ServedAt(s, p, o) == served
    ensures Apply(s, Step(p, o)) == Changed(s, p, o, served)
  {
  }

  lemma ChangedAlone(s: World, p: int, o: Oracle, served: Served)
    requires Live(s, p) && Fits(RequestOf(s, p), served.answer)
    ensures Alone(s, p, Changed(s, p, o, served))
  {
  }

  lemma LeadsOn(s: World, p: int, ctl: Control, pending: Option<Deferred>, o: Oracle, served: Served, next: Control)
    requires Leads(s, p, ctl, pending, o, served, next)
    ensures LedTo(s, p, o, served, next, Apply(s, Step(p, o)))
  {
    StepIs(s, p, o, served);
    ChangedAlone(s, p, o, served);
    SameDeadline(s.procs[p].cfg, s.procs[p].m, served.answer, Probe(o));
  }

  lemma Does(g: Setting, s: World, p: int, ctl: Control, pending: Option<Deferred>, o: Oracle, served: Served, next: Control)
    returns (s': World)
    requires Reached(g, s) && Leads(s, p, ctl, pending, o, served, next) && o.dt == 0 && (g.smooth ==> !o.fault)
    ensures Reached(g, s') && LedTo(s, p, o, served, next, s')
  {
    MayLead(s, p, ctl, pending, o, served, next);
    LeadsOn(s, p, ctl, pending, o, served, next);
    s' := Acts(g, s, p, o);
  }

  /** ... and is answered `dt` from now. */
  lemma DoesLater(g: Setting, s: World, p: int, ctl: Control, dt: nat, served: Served, next: Control) returns (s': World)
    requires Reached(g, s) && Leads(s, p, ctl, None, After(dt), served, next) && Patient(g, s, dt)
    ensures Reached(g, s') && LedTo(s, p, After(dt), served, next, s')
  {
    MayLead(s, p, ctl, None, After(dt), served, next);
    LeadsOn(s, p, ctl, None, After(dt), served, next);
    s' := ActsLater(g, s, p, After(dt));
  }

  lemma SweepLists(g: Setting, s: World, p: int, after: AfterSweep, names: seq<Path>) returns (s': World)
    requires Reached(g, s) && At(s, p, SweepList(after)) && Lists(names, s.disk)
    ensures Reached(g, s') && Brings(s, p, s', SweepNow(after, names), s.disk, 0)
  {
    s' := Does(g, s, p, SweepList(after), None, Listed(names), Served(s.disk, None, Listing(Some(names))),
               SweepNow(after, names));
  }

  /** A sweep that finds nothing to remove. */
  lemma Sweeps(g: Setting, s: World, p: int, after: AfterSweep) returns (s': World)
    requires Reached(g, s) && At(s, p, SweepList(after)) && NoTombs(s.disk)
    ensures Reached(g, s') && Brings(s, p, s', AfterSweepAt(after), s.disk, 0)
  {
    var names := Enumerates(s.disk.paths.Keys);
    NothingToSweep(names, s.clock, s.limits.staleMs);
    s' := SweepLists(g, s, p, after, names);
    s' := Does(g, s', p, SweepNow(after, names), None, Quiet(), Served(s.disk, None, Time(s.clock)), AfterSweepAt(after));
  }

  /** `p` starts `dt` from now and comes to its first poll. */
  lemma Arrives(g: Setting, s: World, p: int, dt: nat) returns (s': World)
    requires Reached(g, s) && At(s, p, MakeDir) && NoTombs(s.disk)
    requires Patient(g, s, dt)
    ensures Reached(g, s') && Alone(s, p, s') && s'.disk == s.disk && s'.clock == s.clock + dt
    ensures At(s', p, ObserveText) && s'.procs[p].m.deadline == s'.clock + s.limits.waitTimeoutMs
    ensures s'.serial == s.serial
  {
    s' := Starts(g, s, p, dt);
    s' := Sweeps(g, s', p, ToDeadline);
    s' := SetsDeadline(g, s', p);
  }

  lemma Starts(g: Setting, s: World, p: int, dt: nat) returns (s': World)
    requires Reached(g, s) && At(s, p, MakeDir) && Patient(g, s, dt)
    ensures Reached(g, s') && LedTo(s, p, After(dt), Served(s.disk, None, MadeDirectory(true)), SweepList(ToDeadline), s')
  {
    s' := DoesLater(g, s, p, MakeDir, dt, Served(s.disk, None, MadeDirectory(true)), SweepList(ToDeadline));
  }

  lemma SetsDeadline(g: Setting, s: World, p: int) returns (s': World)
    requires Reached(g, s) && At(s, p, SetDeadline)
    ensures Reached(g, s') && Alone(s, p, s') && At(s', p, ObserveText) && s'.disk == s.disk
    ensures s'.clock == s.clock && s'.serial == s.serial
    ensures s'.procs[p].m.deadline == s.clock + s.limits.waitTimeoutMs
  {
    s' := Acts(g, s, p, Quiet());
  }

  /** What `p` reads at a path, if it can. */
  function Sight(d: Disk, path: Path, blind: bool): Option<Text> {
    if blind then None else d.TextAt(path)
  }

  /** What a poll makes of a lock. */
  function Found(text: Option<Text>, ageMs: Option<int>): LockState {
    var owner := DecodeOwner(text);
    if text.None? && ageMs.None? then Absent
    else Held(owner, ageMs, if owner.Some? && owner.value.host == HOST then Some(true) else None)
  }

  /** `p` may read with a fault only where reads of texts fail. */
  predicate MayRead(g: Setting, s: World, blind: bool) {
    blind ==> s.fs.textFails && !g.smooth
  }

  lemma LooksAtText(g: Setting, s: World, p: int, blind: bool) returns (s': World)
    requires Reached(g, s) && At(s, p, ObserveText) && MayRead(g, s, blind)
    ensures Reached(g, s') && Brings(s, p, s', ObserveAge(Sight(s.disk, Lock, blind)), s.disk, 0)
    ensures Adding({}, DecodeOwner(Sight(s.disk, Lock, blind))) <= s'.procs[p].seen
  {
    s' := Does(g, s, p, ObserveText, None, Read(blind), Served(s.disk, None, Contents(Sight(s.disk, Lock, blind))),
               ObserveAge(Sight(s.disk, Lock, blind)));
  }

  lemma LooksAtAge(g: Setting, s: World, p: int, text: Option<Text>) returns (s': World)
    requires Reached(g, s) && At(s, p, ObserveAge(text))
    ensures Reached(g, s')
    ensures Brings(s, p, s', ReadMarker(Found(text, AgeOf(s.disk, Lock, s.clock))), s.disk, 0)
  {
    var age := AgeOf(s.disk, Lock, s.clock);
    s' := Does(g, s, p, ObserveAge(text), None, Quiet(), Served(s.disk, None, Age(age)), ReadMarker(Found(text, age)));
  }

  /** No marker is there, or it is not read. */
  lemma LooksAtMarker(g: Setting, s: World, p: int, lock: LockState, blind: bool) returns (s': World)
    requires Reached(g, s) && At(s, p, ReadMarker(lock)) && MayRead(g, s, blind)
    requires Sight(s.disk, Done, blind).None?
    ensures Reached(g, s') && Brings(s, p, s', PollNow(lock, None), s.disk, 0)
  {
    s' := Does(g, s, p, ReadMarker(lock), None, Read(blind), Served(s.disk, None, Contents(Sight(s.disk, Done, blind))),
               PollNow(lock, None));
  }

  lemma LooksAtLock(g: Setting, s: World, p: int, blind: bool) returns (s': World)
    requires Reached(g, s) && At(s, p, ObserveText) && MayRead(g, s, blind)
    ensures Reached(g, s')
    ensures Brings(s, p, s', ReadMarker(Found(Sight(s.disk, Lock, blind), AgeOf(s.disk, Lock, s.clock))), s.disk, 0)
    ensures Adding({}, DecodeOwner(Sight(s.disk, Lock, blind))) <= s'.procs[p].seen
  {
    s' := LooksAtText(g, s, p, blind);
    s' := LooksAtAge(g, s', p, Sight(s.disk, Lock, blind));
  }

  lemma Looks(g: Setting, s: World, p: int, blind: bool) returns (s': World)
    requires Reached(g, s) && At(s, p, ObserveText) && MayRead(g, s, blind)
    requires Sight(s.disk, Done, blind).None?
    ensures Reached(g, s')
    ensures Brings(s, p, s', PollNow(Found(Sight(s.disk, Lock, blind), AgeOf(s.disk, Lock, s.clock)), None), s.disk, 0)
    ensures Adding({}, DecodeOwner(Sight(s.disk, Lock, blind))) <= s'.procs[p].seen
  {
    s' := LooksAtLock(g, s, p, blind);
    s' := LooksAtMarker(g, s', p, Found(Sight(s.disk, Lock, blind), AgeOf(s.disk, Lock, s.clock)), blind);
  }

  // ---- taking a ticket ----

  lemma Resolves(g: Setting, s: World, p: int, lock: LockState) returns (s': World)
    requires Reached(g, s) && At(s, p, PollNow(lock, None))
    requires Breakable(lock, s.limits) && s.clock <= s.procs[p].m.deadline
    ensures Reached(g, s') && Brings(s, p, s', SweepList(ToBreak(NonceOf(lock.owner))), s.disk, 0)
  {
    s' := Does(g, s, p, PollNow(lock, None), None, Quiet(), Served(s.disk, None, Time(s.clock)),
               SweepList(ToBreak(NonceOf(lock.owner))));
  }

  lemma NamesTicket(g: Setting, s: World, p: int, expected: Option<Nonce>) returns (s': World)
    requires Reached(g, s) && At(s, p, TicketNonce(expected))
    ensures Reached(g, s')
    ensures Brings(s, p, s', CreateTicket(Breaker(Issued(p, s.serial), expected), s.clock), s.disk, 1)
  {
    var b := Breaker(Issued(p, s.serial), expected);
    s' := Does(g, s, p, TicketNonce(expected), None, Quiet(), Served(s.disk, None, Drawn(b.mine)), TicketNow(b));
    s' := Does(g, s', p, TicketNow(b), None, Quiet(), Served(s.disk, None, Time(s.clock)), CreateTicket(b, s.clock));
  }

  /** `p` finds the lock breakable and is about to create its ticket. */
  lemma TakesOver(g: Setting, s: World, p: int, lock: LockState) returns (s': World)
    requires Reached(g, s) && At(s, p, PollNow(lock, None)) && NoTombs(s.disk)
    requires Breakable(lock, s.limits) && s.clock <= s.procs[p].m.deadline
    ensures Reached(g, s')
    ensures Brings(s, p, s', CreateTicket(Breaker(Issued(p, s.serial), NonceOf(lock.owner)), s.clock), s.disk, 1)
  {
    s' := Resolves(g, s, p, lock);
    s' := Sweeps(g, s', p, ToBreak(NonceOf(lock.owner)));
    s' := NamesTicket(g, s', p, NonceOf(lock.owner));
  }

  function TicketText(p: int, b: Breaker, startedAt: int): Text {
    Record(Owner(p, HOST, b.mine, startedAt), b.expected)
  }

  /** `dt` from now the ticket is there, its text still on its way. */
  lemma PostsTicket(g: Setting, s: World, p: int, b: Breaker, startedAt: int, dt: nat) returns (s': World)
    requires Reached(g, s) && At(s, p, CreateTicket(b, startedAt)) && Ticket(b.mine) !in s.disk.paths
    requires Patient(g, s, dt)
    ensures Reached(g, s') && Alone(s, p, s') && s'.clock == s.clock + dt && s'.serial == s.serial
    ensures Comes(s', p, ListTickets(b), Some(Deferred(s.disk.nextInode, TicketText(p, b, startedAt))))
    ensures s'.disk == s.disk.Bind(Ticket(b.mine), s.clock + dt)
    ensures s'.procs[p].m.deadline == s.procs[p].m.deadline
  {
    s' := DoesLater(g, s, p, CreateTicket(b, startedAt), dt,
                    Served(s.disk.Bind(Ticket(b.mine), s.clock + dt),
                           Some(Deferred(s.disk.nextInode, TicketText(p, b, startedAt))), CreateAnswer(CreatedNew)),
                    ListTickets(b));
  }

  /** The listing shows no ticket but its own. */
  lemma ListsAlone(g: Setting, s: World, p: int, b: Breaker, pending: Option<Deferred>) returns (s': World)
    requires Reached(g, s) && Comes(s, p, ListTickets(b), pending)
    requires forall path: Path :: path in s.disk.paths && (path.Ticket? || path.OldBreaker?) ==> path == Ticket(b.mine)
    ensures Reached(g, s') && Brings(s, p, s', JudgeText(b), Landing(s, pending), 0)
  {
    var names := Enumerates(s.disk.paths.Keys);
    if OtherTickets(names, b.mine) != [] { assert OtherTickets(names, b.mine)[0] in OtherTickets(names, b.mine); }
    s' := Does(g, s, p, ListTickets(b), pending, Listed(names), Served(Landing(s, pending), None, Listing(Some(names))),
               JudgeText(b));
  }

  lemma OneToScan(cfg: Config, m: Machine, b: Breaker, names: seq<Path>, other: TicketPath, alive: int -> bool)
    requires m.ctl == ListTickets(b) && OtherTickets(names, b.mine) == [other]
    ensures Resume(cfg, m, Listing(Some(names)), alive).ctl == ScanText(b, other, [], false)
  {
    assert [other][1..] == [];
  }

  lemma ListsAnother(g: Setting, s: World, p: int, b: Breaker, pending: Option<Deferred>, names: seq<Path>, other: TicketPath)
    returns (s': World)
    requires Reached(g, s) && Comes(s, p, ListTickets(b), pending) && Lists(names, s.disk)
    requires OtherTickets(names, b.mine) == [other]
    ensures Reached(g, s') && Brings(s, p, s', ScanText(b, other, [], false), Landing(s, pending), 0)
  {
    OneToScan(s.procs[p].cfg, s.procs[p].m, b, names, other, Probe(Listed(names)));
    s' := Does(g, s, p, ListTickets(b), pending, Listed(names), Served(Landing(s, pending), None, Listing(Some(names))),
               ScanText(b, other, [], false));
  }

  lemma ScansText(g: Setting, s: World, p: int, b: Breaker, other: TicketPath, blind: bool) returns (s': World)
    requires Reached(g, s) && At(s, p, ScanText(b, other, [], false)) && MayRead(g, s, blind)
    ensures Reached(g, s') && Brings(s, p, s', ScanAge(b, other, [], false, Sight(s.disk, other, blind)), s.disk, 0)
  {
    s' := Does(g, s, p, ScanText(b, other, [], false), None, Read(blind),
               Served(s.disk, None, Contents(Sight(s.disk, other, blind))),
               ScanAge(b, other, [], false, Sight(s.disk, other, blind)));
  }

  lemma OverAge(cfg: Config, m: Machine, b: Breaker, other: TicketPath, text: Option<Text>, age: int, alive: int -> bool)
    requires m.ctl == ScanAge(b, other, [], false, text) && age > cfg.limits.staleMs
    ensures Resume(cfg, m, Age(Some(age)), alive) == m.(ctl := ScanRemove(b, other, [], false))
  {
  }

  lemma Condemns(g: Setting, s: World, p: int, b: Breaker, other: TicketPath, text: Option<Text>) returns (s': World)
    requires Reached(g, s) && At(s, p, ScanAge(b, other, [], false, text))
    requires AgeOf(s.disk, other, s.clock).Some? && AgeOf(s.disk, other, s.clock).value > s.limits.staleMs
    ensures Reached(g, s') && Brings(s, p, s', ScanRemove(b, other, [], false), s.disk, 0)
  {
    var age := AgeOf(s.disk, other, s.clock);
    OverAge(s.procs[p].cfg, s.procs[p].m, b, other, text, age.value, Probe(Quiet()));
    s' := Does(g, s, p, ScanAge(b, other, [], false, text), None, Quiet(), Served(s.disk, None, Age(age)),
               ScanRemove(b, other, [], false));
  }

  lemma Reaps(g: Setting, s: World, p: int, b: Breaker, other: TicketPath) returns (s': World)
    requires Reached(g, s) && At(s, p, ScanRemove(b, other, [], false))
    ensures Reached(g, s') && Brings(s, p, s', JudgeText(b), s.disk.Unlink(other), 0)
  {
    s' := Does(g, s, p, ScanRemove(b, other, [], false), None, Quiet(), Served(s.disk.Unlink(other), None, Nothing),
               JudgeText(b));
  }

  /** Neither its text nor its age can be read: it is taken for missing. */
  lemma Overlooks(g: Setting, s: World, p: int, b: Breaker, other: TicketPath) returns (s': World)
    requires Reached(g, s) && At(s, p, ScanAge(b, other, [], false, None)) && s.fs.ageFails && !g.smooth
    ensures Reached(g, s') && Brings(s, p, s', JudgeText(b), s.disk, 0)
  {
    s' := Does(g, s, p, ScanAge(b, other, [], false, None), None, Read(true), Served(s.disk, None, Age(None)),
               JudgeText(b));
  }

  // ---- breaking ----

  lemma JudgesText(g: Setting, s: World, p: int, b: Breaker, blind: bool) returns (s': World)
    requires Reached(g, s) && At(s, p, JudgeText(b)) && MayRead(g, s, blind)
    ensures Reached(g, s') && Brings(s, p, s', JudgeAge(b, Sight(s.disk, Lock, blind)), s.disk, 0)
  {
    s' := Does(g, s, p, JudgeText(b), None, Read(blind), Served(s.disk, None, Contents(Sight(s.disk, Lock, blind))),
               JudgeAge(b, Sight(s.disk, Lock, blind)));
  }

  predicate Damning(s: World, b: Breaker, text: Option<Text>, clock: int) {
    var age := AgeOf(s.disk, Lock, clock);
    age.Some? && StillBreakable(b.expected, DecodeOwner(text), age, s.limits.staleMs)
  }

  /** The age is read, and the lock condemned. */
  lemma JudgesAge(g: Setting, s: World, p: int, b: Breaker, text: Option<Text>) returns (s': World)
    requires Reached(g, s) && At(s, p, JudgeAge(b, text)) && Damning(s, b, text, s.clock)
    ensures Reached(g, s') && Brings(s, p, s', TombNow(Breaking(b)), s.disk, 0)
  {
    s' := Does(g, s, p, JudgeAge(b, text), None, Quiet(), Served(s.disk, None, Age(AgeOf(s.disk, Lock, s.clock))),
               TombNow(Breaking(b)));
  }

  /** ... `dt` from now. */
  lemma JudgesAgeLater(g: Setting, s: World, p: int, b: Breaker, text: Option<Text>, dt: nat) returns (s': World)
    requires Reached(g, s) && At(s, p, JudgeAge(b, text)) && Patient(g, s, dt)
    requires Damning(s, b, text, s.clock + dt)
    ensures Reached(g, s') && Alone(s, p, s') && At(s', p, TombNow(Breaking(b)))
    ensures s'.disk == s.disk && s'.clock == s.clock + dt && s'.serial == s.serial
    ensures s'.procs[p].m.deadline == s.procs[p].m.deadline
  {
    var age := AgeOf(s.disk, Lock, s.clock + dt);
    s' := DoesLater(g, s, p, JudgeAge(b, text), dt, Served(s.disk, None, Age(age)), TombNow(Breaking(b)));
  }

  lemma NamesTomb(g: Setting, s: World, p: int, errand: Errand) returns (s': World)
    requires Reached(g, s) && At(s, p, TombNow(errand))
    ensures Reached(g, s')
    ensures Brings(s, p, s', TombRename(errand, Tomb(ErrandNonce(errand), s.clock)), s.disk, 0)
  {
    s' := Does(g, s, p, TombNow(errand), None, Quiet(), Served(s.disk, None, Time(s.clock)),
               TombRename(errand, Tomb(ErrandNonce(errand), s.clock)));
  }

  lemma Moves(g: Setting, s: World, p: int, errand: Errand, tomb: TombPath) returns (s': World)
    requires Reached(g, s) && At(s, p, TombRename(errand, tomb)) && Lock in s.disk.paths
    ensures Reached(g, s') && Brings(s, p, s', TombText(errand, tomb), s.disk.Move(Lock, tomb), 0)
  {
    s' := Does(g, s, p, TombRename(errand, tomb), None, Quiet(),
               Served(s.disk.Move(Lock, tomb), None, RenameAnswer(RenamedAway)), TombText(errand, tomb));
  }

  lemma OpensTomb(g: Setting, s: World, p: int, errand: Errand, tomb: TombPath) returns (s': World)
    requires Reached(g, s) && At(s, p, TombText(errand, tomb))
    ensures Reached(g, s') && Brings(s, p, s', TombAge(errand, tomb, s.disk.TextAt(tomb)), s.disk, 0)
  {
    s' := Does(g, s, p, TombText(errand, tomb), None, Quiet(), Served(s.disk, None, Contents(s.disk.TextAt(tomb))),
               TombAge(errand, tomb, s.disk.TextAt(tomb)));
  }

  /** What moved is what was judged, or nothing that can be put back. */
  lemma Confirms(g: Setting, s: World, p: int, errand: Errand, tomb: TombPath, text: Text) returns (s': World)
    requires Reached(g, s) && At(s, p, TombAge(errand, tomb, Some(text))) && AgeOf(s.disk, tomb, s.clock).Some?
    requires Accepts(s.procs[p].cfg, errand, DecodeOwner(Some(text)), AgeOf(s.disk, tomb, s.clock).value)
    ensures Reached(g, s') && Brings(s, p, s', TombRemove(errand, tomb, Deleted), s.disk, 0)
  {
    s' := Does(g, s, p, TombAge(errand, tomb, Some(text)), None, Quiet(),
               Served(s.disk, None, Age(AgeOf(s.disk, tomb, s.clock))), TombRemove(errand, tomb, Deleted));
  }

  lemma RefusedIsPutBack(cfg: Config, m: Machine, errand: Errand, tomb: TombPath, text: Text, age: int, alive: int -> bool)
    requires m.ctl == TombAge(errand, tomb, Some(text)) && DecodeOwner(Some(text)).Some?
    requires !Accepts(cfg, errand, DecodeOwner(Some(text)), age)
    ensures Resume(cfg, m, Age(Some(age)), alive).ctl == PutBack(errand, tomb, text)
  {
  }

  /** What moved is another's record: it is to be put back. */
  lemma Refuses(g: Setting, s: World, p: int, errand: Errand, tomb: TombPath, text: Text) returns (s': World)
    requires Reached(g, s) && At(s, p, TombAge(errand, tomb, Some(text))) && AgeOf(s.disk, tomb, s.clock).Some?
    requires !Accepts(s.procs[p].cfg, errand, DecodeOwner(Some(text)), AgeOf(s.disk, tomb, s.clock).value)
    requires DecodeOwner(Some(text)).Some?
    ensures Reached(g, s') && Brings(s, p, s', PutBack(errand, tomb, text), s.disk, 0)
  {
    var age := AgeOf(s.disk, tomb, s.clock);
    RefusedIsPutBack(s.procs[p].cfg, s.procs[p].m, errand, tomb, text, age.value, Probe(Quiet()));
    s' := Does(g, s, p, TombAge(errand, tomb, Some(text)), None, Quiet(), Served(s.disk, None, Age(age)),
               PutBack(errand, tomb, text));
  }

  lemma RemovesTomb(g: Setting, s: World, p: int, b: Breaker, tomb: TombPath, verdict: Verdict, pending: Option<Deferred>)
    returns (s': World)
    requires Reached(g, s) && Comes(s, p, TombRemove(Breaking(b), tomb, verdict), pending) && verdict != Stuck
    ensures Reached(g, s') && Brings(s, p, s', DropTicket(b, true), Landing(s, pending).Unlink(tomb), 0)
  {
    s' := Does(g, s, p, TombRemove(Breaking(b), tomb, verdict), pending, Quiet(),
               Served(Landing(s, pending).Unlink(tomb), None, Nothing), DropTicket(b, true));
  }

  lemma DropsTicket(g: Setting, s: World, p: int, b: Breaker) returns (s': World)
    requires Reached(g, s) && At(s, p, DropTicket(b, true))
    ensures Reached(g, s') && Brings(s, p, s', ObserveText, s.disk.Unlink(Ticket(b.mine)), 0)
  {
    s' := Does(g, s, p, DropTicket(b, true), None, Quiet(), Served(s.disk.Unlink(Ticket(b.mine)), None, Nothing),
               ObserveText);
  }

  /** A breaker that is done with its tomb clears up and polls again. */
  lemma Disbands(g: Setting, s: World, p: int, b: Breaker, tomb: TombPath, verdict: Verdict, pending: Option<Deferred>)
    returns (s': World)
    requires Reached(g, s) && Comes(s, p, TombRemove(Breaking(b), tomb, verdict), pending) && verdict != Stuck
    ensures Reached(g, s')
    ensures Brings(s, p, s', ObserveText, Landing(s, pending).Unlink(tomb).Unlink(Ticket(b.mine)), 0)
  {
    s' := RemovesTomb(g, s, p, b, tomb, verdict, pending);
    s' := DropsTicket(g, s', p, b);
  }

  lemma PutsBack(g: Setting, s: World, p: int, errand: Errand, tomb: TombPath, text: Text) returns (s': World)
    requires Reached(g, s) && At(s, p, PutBack(errand, tomb, text)) && Lock !in s.disk.paths
    ensures Reached(g, s') && Alone(s, p, s') && s'.clock == s.clock && s'.disk == s.disk.Bind(Lock, s.clock)
    ensures Comes(s', p, TombRemove(errand, tomb, Restored), Some(Deferred(s.disk.nextInode, text)))
    ensures s'.procs[p].m.deadline == s.procs[p].m.deadline && s'.serial == s.serial
  {
    s' := Does(g, s, p, PutBack(errand, tomb, text), None, Quiet(),
               Served(s.disk.Bind(Lock, s.clock), Some(Deferred(s.disk.nextInode, text)), CreateAnswer(CreatedNew)),
               TombRemove(errand, tomb, Restored));
  }

  /** The put-back fails outright. */
  lemma LosesIt(g: Setting, s: World, p: int, errand: Errand, tomb: TombPath, text: Text) returns (s': World)
    requires Reached(g, s) && At(s, p, PutBack(errand, tomb, text)) && !g.smooth
    ensures Reached(g, s') && Brings(s, p, s', TombRemove(errand, tomb, Lost), s.disk, 0)
  {
    var o := Read(true);
    s' := Does(g, s, p, PutBack(errand, tomb, text), None, o, Served(s.disk, None, CreateAnswer(CreateFailed)),
               TombRemove(errand, tomb, Lost));
  }

  // ---- owning ----

  function OwnerOf(s: World, p: int): Owner {
    Owner(p, HOST, Issued(p, s.serial), s.clock)
  }

  lemma NamesLock(g: Setting, s: World, p: int, startedAt: int) returns (s': World)
    requires Reached(g, s) && At(s, p, LockNonce(startedAt))
    ensures Reached(g, s')
    ensures Brings(s, p, s', CreateLock(Owner(p, HOST, Issued(p, s.serial), startedAt)), s.disk, 1)
  {
    var nonce := Issued(p, s.serial);
    s' := Does(g, s, p, LockNonce(startedAt), None, Quiet(), Served(s.disk, None, Drawn(nonce)),
               CreateLock(Owner(p, HOST, nonce, startedAt)));
  }

  lemma FindsNone(g: Setting, s: World, p: int) returns (s': World)
    requires Reached(g, s) && At(s, p, PollNow(Absent, None))
    ensures Reached(g, s') && Brings(s, p, s', CreateLock(OwnerOf(s, p)), s.disk, 1)
  {
    s' := Does(g, s, p, PollNow(Absent, None), None, Quiet(), Served(s.disk, None, Time(s.clock)), LockNonce(s.clock));
    s' := NamesLock(g, s', p, s.clock);
  }

  /** The lock is there, its text still on its way. */
  lemma CreatesLock(g: Setting, s: World, p: int, own: Owner) returns (s': World)
    requires Reached(g, s) && At(s, p, CreateLock(own)) && Lock !in s.disk.paths
    ensures Reached(g, s') && Alone(s, p, s') && s'.clock == s.clock && s'.disk == s.disk.Bind(Lock, s.clock)
    ensures Comes(s', p, Verify(own), Some(Deferred(s.disk.nextInode, Record(own, None))))
    ensures s'.procs[p].m.deadline == s.procs[p].m.deadline && s'.serial == s.serial
  {
    s' := Does(g, s, p, CreateLock(own), None, Quiet(),
               Served(s.disk.Bind(Lock, s.clock), Some(Deferred(s.disk.nextInode, Record(own, None))),
                      CreateAnswer(CreatedNew)),
               Verify(own));
  }

  lemma ChecksLock(g: Setting, s: World, p: int, own: Owner, id: nat) returns (s': World)
    requires Reached(g, s) && Comes(s, p, Verify(own), Some(Deferred(id, Record(own, None))))
    requires Lock in s.disk.paths && s.disk.paths[Lock] == id && id in s.disk.inodes
    ensures Reached(g, s')
    ensures Brings(s, p, s', ReadLate(own), Landing(s, Some(Deferred(id, Record(own, None)))), 0)
  {
    var pending := Some(Deferred(id, Record(own, None)));
    s' := Does(g, s, p, Verify(own), pending, Quiet(), Served(Landing(s, pending), None, Contents(Some(Record(own, None)))),
               ReadLate(own));
  }

  lemma GoesToWork(g: Setting, s: World, p: int, own: Owner, blind: bool) returns (s': World)
    requires Reached(g, s) && At(s, p, ReadLate(own)) && MayRead(g, s, blind) && Sight(s.disk, Done, blind).None?
    ensures Reached(g, s') && Brings(s, p, s', RunHeld(own), s.disk, 0)
  {
    s' := Does(g, s, p, ReadLate(own), None, Read(blind), Served(s.disk, None, Contents(Sight(s.disk, Done, blind))),
               RunHeld(own));
  }

  lemma Begins(g: Setting, s: World, p: int) returns (s': World)
    requires Reached(g, s) && Live(s, p) && At(s, p, s.procs[p].m.ctl)
    requires s.procs[p].m.ctl.RunHeld? || s.procs[p].m.ctl.RunAlone?
    ensures Reached(g, s') && Alone(s, p, s') && s'.disk == s.disk && s'.clock == s.clock && s'.serial == s.serial
    ensures s'.procs[p] == s.procs[p].(running := true)
  {
    BeginsApart(s, p);
    s' := Acts(g, s, p, Quiet());
  }

  lemma BeginsApart(s: World, p: int)
    requires Live(s, p) && At(s, p, s.procs[p].m.ctl)
    requires s.procs[p].m.ctl.RunHeld? || s.procs[p].m.ctl.RunAlone?
    ensures Enabled(s, Step(p, Quiet()))
    ensures Apply(s, Step(p, Quiet())) == s.(procs := s.procs[p := s.procs[p].(running := true)])
  {
    assert s.procs[p].deferred == None;
  }

  /** The work under the lock fails, and the release begins. */
  lemma Stops(g: Setting, s: World, p: int, own: Owner) returns (s': World)
    requires Reached(g, s) && At(s, p, RunHeld(own))
    ensures Reached(g, s')
    ensures Brings(s, p, s', TombRename(Releasing(own, 0, Ran), Tomb(own.nonce, s.clock)), s.disk, 0)
  {
    s' := Fails(g, s, p, own);
    s' := NamesTomb(g, s', p, Releasing(own, 0, Ran));
  }

  lemma Fails(g: Setting, s: World, p: int, own: Owner) returns (s': World)
    requires Reached(g, s) && At(s, p, RunHeld(own))
    ensures Reached(g, s') && Brings(s, p, s', TombNow(Releasing(own, 0, Ran)), s.disk, 0)
  {
    s' := Begins(g, s, p);
    s' := Ends(g, s', p, false);
  }

  lemma Succeeds(g: Setting, s: World, p: int, own: Owner) returns (s': World)
    requires Reached(g, s) && At(s, p, RunHeld(own))
    ensures Reached(g, s') && Brings(s, p, s', MarkNow(own), s.disk, 0)
  {
    s' := Begins(g, s, p);
    s' := Ends(g, s', p, true);
  }

  lemma NotesEnd(g: Setting, s: World, p: int, own: Owner) returns (s': World)
    requires Reached(g, s) && At(s, p, RunHeld(own))
    ensures Reached(g, s') && Brings(s, p, s', WriteMark(own, s.clock), s.disk, 0)
  {
    s' := Succeeds(g, s, p, own);
    s' := Does(g, s', p, MarkNow(own), None, Quiet(), Served(s.disk, None, Time(s.clock)), WriteMark(own, s.clock));
  }

  lemma WritesMark(g: Setting, s: World, p: int, own: Owner, at: int) returns (s': World)
    requires Reached(g, s) && At(s, p, WriteMark(own, at)) && Done !in s.disk.paths
    ensures Reached(g, s') && Alone(s, p, s') && s'.clock == s.clock && s'.disk == s.disk.Bind(Done, s.clock)
    ensures Comes(s', p, TombNow(Releasing(own, 0, Ran)), Some(Deferred(s.disk.nextInode, Mark(own.nonce, at))))
    ensures s'.serial == s.serial && s'.procs[p].m.deadline == s.procs[p].m.deadline
  {
    s' := Does(g, s, p, WriteMark(own, at), None, Quiet(),
               Served(s.disk.Bind(Done, s.clock), Some(Deferred(s.disk.nextInode, Mark(own.nonce, at))), Nothing),
               TombNow(Releasing(own, 0, Ran)));
  }

  lemma LandsMark(g: Setting, s: World, p: int, own: Owner, pending: Option<Deferred>) returns (s': World)
    requires Reached(g, s) && Comes(s, p, TombNow(Releasing(own, 0, Ran)), pending)
    ensures Reached(g, s')
    ensures Brings(s, p, s', TombRename(Releasing(own, 0, Ran), Tomb(own.nonce, s.clock)), Landing(s, pending), 0)
  {
    s' := Does(g, s, p, TombNow(Releasing(own, 0, Ran)), pending, Quiet(),
               Served(Landing(s, pending), None, Time(s.clock)),
               TombRename(Releasing(own, 0, Ran), Tomb(own.nonce, s.clock)));
  }

  /** The work under the lock succeeds, and the marker says so. */
  lemma Marks(g: Setting, s: World, p: int, own: Owner) returns (s': World)
    requires Reached(g, s) && At(s, p, RunHeld(own)) && Done !in s.disk.paths
    ensures Reached(g, s')
    ensures Brings(s, p, s', TombRename(Releasing(own, 0, Ran), Tomb(own.nonce, s.clock)),
                   Posted(s.disk, Done, Mark(own.nonce, s.clock), s.clock), 0)
  {
    s' := NotesEnd(g, s, p, own);
    s' := WritesMark(g, s', p, own, s.clock);
    PostedLands(s', s.disk, Done, Mark(own.nonce, s.clock));
    s' := LandsMark(g, s', p, own, Some(Deferred(s.disk.nextInode, Mark(own.nonce, s.clock))));
  }

  /** `p` has ended, and nothing but `p` moved. */
  predicate Leaves(s: World, p: int, s': World, d: Disk) {
    && Alone(s, p, s') && s'.procs[p].m.ctl.Ended? && s'.disk == d && s'.serial == s.serial
  }

  /** A release that finds no lock to remove. */
  lemma FindsGone(g: Setting, s: World, p: int, own: Owner, tomb: TombPath) returns (s': World)
    requires Reached(g, s) && At(s, p, TombRename(Releasing(own, 0, Ran), tomb)) && Lock !in s.disk.paths
    ensures Reached(g, s') && Leaves(s, p, s', s.disk) && s'.clock == s.clock
  {
    s' := Does(g, s, p, TombRename(Releasing(own, 0, Ran), tomb), None, Quiet(),
               Served(s.disk, None, RenameAnswer(NothingThere)), Ended(Ran));
  }

  lemma Released(g: Setting, s: World, p: int, own: Owner, tomb: TombPath, verdict: Verdict, pending: Option<Deferred>)
    returns (s': World)
    requires Reached(g, s) && Comes(s, p, TombRemove(Releasing(own, 0, Ran), tomb, verdict), pending)
    requires verdict != Stuck
    ensures Reached(g, s') && Leaves(s, p, s', Landing(s, pending).Unlink(tomb)) && s'.clock == s.clock
  {
    s' := Does(g, s, p, TombRemove(Releasing(own, 0, Ran), tomb, verdict), pending, Quiet(),
               Served(Landing(s, pending).Unlink(tomb), None, Nothing), Ended(Ran));
  }

  // ---- waiting ----

  lemma Waits(g: Setting, s: World, p: int, lock: LockState) returns (s': World)
    requires Reached(g, s) && At(s, p, PollNow(lock, None)) && lock.Held? && !Breakable(lock, s.limits)
    requires s.clock <= s.procs[p].m.deadline
    ensures Reached(g, s') && Brings(s, p, s', Pause, s.disk, 0)
  {
    s' := Does(g, s, p, PollNow(lock, None), None, Quiet(), Served(s.disk, None, Time(s.clock)), Pause);
  }

  /** The pause ends while no process is in a phase that has a limit. */
  lemma Wakes(g: Setting, s: World, p: int) returns (s': World)
    requires Reached(g, s) && At(s, p, Pause) && Patient(g, s, s.limits.pollMs)
    ensures Reached(g, s') && Alone(s, p, s') && At(s', p, ObserveText) && s'.disk == s.disk
    ensures s'.serial == s.serial && s'.procs[p].m.deadline == s.procs[p].m.deadline
  {
    var o, served := After(s.limits.pollMs), Served(s.disk, None, Nothing);
    s' := Apply(s, Step(p, o));
    PauseEnds(s, p);
    ChangedAlone(s, p, o, served);
    WakingIsTimely(g, s, p);
    ReachedNext(g, s, Step(p, o));
  }

  lemma PauseEnds(s: World, p: int)
    requires At(s, p, Pause)
    ensures
      var o := After(s.limits.pollMs);
      Enabled(s, Step(p, o)) && Apply(s, Step(p, o)) == Changed(s, p, o, Served(s.disk, None, Nothing))
  {
    assert RequestOf(s, p) == AskSleep(s.limits.pollMs);
    StepIs(s, p, After(s.limits.pollMs), Served(s.disk, None, Nothing));
  }

  lemma WakingIsTimely(g: Setting, s: World, p: int)
    requires At(s, p, Pause) && Patient(g, s, s.limits.pollMs)
    ensures Timely(Apply(s, Step(p, After(s.limits.pollMs))), g.stalls)
  {
    var later, s' := s.(clock := s.clock + s.limits.pollMs), Apply(s, Step(p, After(s.limits.pollMs)));
    PauseEnds(s, p);
    forall q | Live(s', q) && Owned(s'.procs[q].m.ctl).Some?
      ensures AgedAtMost(s', Lock, g.stalls.ownMs)
      ensures s'.procs[q].m.ctl.Verify? ==> AgedAtMost(s', Lock, g.stalls.createMs)
    {
      assert q != p && Live(later, q);
    }
    forall q | Live(s', q) && Holding(s'.procs[q].m.ctl).Some?
      ensures AgedAtMost(s', Ticket(Holding(s'.procs[q].m.ctl).value.mine), g.stalls.breakMs)
    {
      assert q != p && Live(later, q);
    }
  }

  lemma GivesUp(g: Setting, s: World, p: int, lock: LockState, dt: nat) returns (s': World)
    requires Reached(g, s) && At(s, p, PollNow(lock, None)) && lock.Held?
    requires s.clock + dt > s.procs[p].m.deadline && Patient(g, s, dt)
    ensures Reached(g, s') && Alone(s, p, s') && At(s', p, RunAlone(WaitTimeout)) && s'.disk == s.disk
    ensures s'.serial == s.serial
  {
    s' := DoesLater(g, s, p, PollNow(lock, None), dt, Served(s.disk, None, Time(s.clock + dt)), RunAlone(WaitTimeout));
  }

  lemma RunsAlone(g: Setting, s: World, p: int, reason: Reason) returns (s': World)
    requires Reached(g, s) && At(s, p, RunAlone(reason))
    ensures Reached(g, s') && Leaves(s, p, s', s.disk)
  {
    s' := Begins(g, s, p);
    s' := Ends(g, s', p, true);
  }
}

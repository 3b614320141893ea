/**
 * What a run leaves behind: with no crash and no failed file operation, every
 * lock, ticket and tomb the processes made is gone once they have all ended.
 * Each file in the directory is either the very one that was there at the
 * start, or is tended by some live process that will remove it: the owner of
 * the lock, the holder of the ticket, or the mover of the tomb. A tomb never
 * holds a lock that its mover must put back, so no put-back can be refused.
 */
module RunOnceQuiescence {
  import opened Wrappers
  import opened RunOnceMachine
  import opened RunOnceWorld
  import opened RunOnceFiles
  import opened RunOnceInvariant
  import opened RunOnceSafety
  import opened RunOnceExclusion
  import opened RunOnceTickets
  import opened RunOnceJudgement
  import opened RunOnceMutex

  predicate Smooth(c: Choice) {
    !c.Crash? && (c.Step? ==> !c.o.fault)
  }

  ghost predicate SmoothNext(s: World, s': World) {
    exists c :: Smooth(c) && Enabled(s, c) && s' == Apply(s, c)
  }

  ghost predicate SmoothAt(run: seq<World>, i: int)
    requires 0 <= i < |run| - 1
  {
    SmoothNext(run[i], run[i + 1])
  }

  /** The path names the file it named at the start. */
  predicate Leftover(d0: Disk, d: Disk, path: Path) {
    path in d0.paths && path in d.paths && d0.paths[path] == d.paths[path]
  }

  /** The tomb a process has renamed a lock to and not yet removed. */
  function InTomb(ctl: Control): Option<TombPath> {
    match ctl
    case TombText(_, tomb) => Some(tomb)
    case TombAge(_, tomb, _) => Some(tomb)
    case PutBack(_, tomb, _) => Some(tomb)
    case TombRemove(_, tomb, _) => Some(tomb)
    case _ => None
  }

  predicate HandlesTomb(s: World, p: int, path: Path) {
    Live(s, p) && InTomb(s.procs[p].m.ctl) == Some(path)
  }

  /** Every lock, ticket and tomb is a leftover or has a live process that will remove it. */
  ghost predicate Tended(d0: Disk, s: World, path: Path)
    requires path in s.disk.paths
  {
    || Leftover(d0, s.disk, path)
    || (match path
        case Lock => exists p :: Possesses(s, p)
        case Ticket(_) => exists p :: HoldsTicket(s, p, path)
        case Tomb(_, _) => exists p :: HandlesTomb(s, p, path)
        case OldTomb(_, _) => false
        case OldBreaker => false
        case Done => true
        case Alien(_) => true)
  }

  /** The tomb's file passes the judgement that is about to be made of it, now and later. */
  predicate Condemned(s: World, cfg: Config, errand: Errand, path: Path) {
    var file := s.disk.FileAt(path);
    file.Some? ==> Accepts(cfg, errand, DecodeOwner(Some(file.value.text)), s.clock - file.value.mtime)
  }

  ghost predicate NobodyWrites(s: World, path: Path) {
    path in s.disk.paths ==> forall p :: !WritesTo(s, p, s.disk.paths[path])
  }

  ghost predicate TombOk(d0: Disk, s: World, p: int)
    requires 0 <= p < |s.procs|
  {
    var ctl := s.procs[p].m.ctl;
    var cfg := s.procs[p].cfg;
    && !ctl.PutBack?
    && (ctl.JudgeAge? && Leftover(d0, s.disk, Lock) ==> s.disk.TextAt(Lock) == ctl.text)
    && ((ctl.TombNow? || ctl.TombRename?) && ctl.errand.Breaking? ==>
          Leftover(d0, s.disk, Lock) && Condemned(s, cfg, ctl.errand, Lock))
    && (ctl.TombRename? ==> ctl.tomb.Tomb? && ctl.tomb.nonce.Issued? && ctl.tomb.nonce.pid == p)
    && (InTomb(ctl).Some? ==>
          var tomb := InTomb(ctl).value;
          tomb.Tomb? && tomb.nonce.Issued? && tomb.nonce.pid == p)
    && (ctl.TombText? || ctl.TombAge? ==> Condemned(s, cfg, ctl.errand, ctl.tomb) && NobodyWrites(s, ctl.tomb))
    && (ctl.TombAge? && ctl.tomb in s.disk.paths ==> s.disk.TextAt(ctl.tomb) == ctl.text)
  }

  ghost predicate TidyInv(d0: Disk, s: World) {
    && d0.nextInode <= s.disk.nextInode
    && (forall path :: path in d0.paths ==> d0.paths[path] < d0.nextInode)
    && (forall path :: path in s.disk.paths ==> Tended(d0, s, path))
    && (forall p :: Live(s, p) ==> TombOk(d0, s, p))
    && (forall p :: Live(s, p) && s.procs[p].deferred.Some? && s.procs[p].deferred.value.id < d0.nextInode ==>
          Done in s.disk.paths && s.disk.paths[Done] == s.procs[p].deferred.value.id)
    && (forall path :: path in d0.paths && path.Ticket? ==> path.nonce.Foreign?)
    && (forall path :: path in d0.paths && path.Tomb? ==> path.nonce.Foreign?)
  }

  // ---- leftovers ----

  lemma LeftoverUnwritten(d0: Disk, s: World, path: Path)
    requires s.disk.Valid() && TidyInv(d0, s) && Leftover(d0, s.disk, path) && path != Done
    ensures NobodyWrites(s, path)
  {
  }

  lemma StepBinding(s: World, p: int, o: Oracle, s': World, path: Path)
    requires s.disk.Valid() && Stepped(s, p, o, s') && path in s'.disk.paths && !path.Tomb? && !path.OldTomb?
    ensures (path in s.disk.paths && s'.disk.paths[path] == s.disk.paths[path]) || s'.disk.paths[path] == s.disk.nextInode
  {
    StepFrame(s, p, o, s');
    LandKeeps(s.disk, s.procs[p].deferred, Stamp(s, o));
    if RequestOf(s, p).AskRename? { RenamesToTombs(s.procs[p].cfg, s.procs[p].m.ctl); }
    if !RequestOf(s, p).AskRun? {
      BindingArises(Landed(s, p, o), s'.clock, Issued(p, s.serial), RequestOf(s, p), o, path);
    }
  }

  /** A path names its first file only as long as it has never named another. */
  lemma LeftoverWasThere(d0: Disk, s: World, p: int, o: Oracle, s': World)
    requires s.disk.Valid() && TidyInv(d0, s) && Stepped(s, p, o, s') && Leftover(d0, s'.disk, Lock)
    ensures Leftover(d0, s.disk, Lock)
  {
    StepBinding(s, p, o, s', Lock);
  }

  // ---- paths stay tended ----

  lemma ControlKeepsTending(cfg: Config, m: Machine, a: Answer, alive: int -> bool)
    requires !m.ctl.Ended? && Fits(Ask(cfg, m.ctl), a)
    ensures
      var ctl := Resume(cfg, m, a, alive).ctl;
      && (Holding(m.ctl).Some? ==> Holding(ctl) == Holding(m.ctl) || m.ctl.Withdraw? || m.ctl.DropTicket?)
      && (InTomb(m.ctl).Some? ==> InTomb(ctl) == InTomb(m.ctl) || m.ctl.TombRemove?)
      && (Owned(m.ctl).Some? ==> Owned(ctl).Some? || m.ctl.TombRename? || m.ctl.Verify?)
  {
  }

  lemma HolderStays(s: World, p: int, o: Oracle, s': World, q: int, path: Path)
    requires s.disk.Valid() && Stepped(s, p, o, s') && HoldsTicket(s, q, path)
    requires q == p ==> !s.procs[p].m.ctl.Withdraw? && !s.procs[p].m.ctl.DropTicket?
    ensures HoldsTicket(s', q, path)
  {
    StepFrame(s, p, o, s');
    if q == p && !RequestOf(s, p).AskRun? {
      ControlKeepsTending(s.procs[p].cfg, s.procs[p].m, ServedAt(s, p, o).answer, Probe(o));
    }
  }

  lemma HandlerStays(s: World, p: int, o: Oracle, s': World, q: int, path: Path)
    requires s.disk.Valid() && Stepped(s, p, o, s') && HandlesTomb(s, q, path)
    requires q == p ==> !s.procs[p].m.ctl.TombRemove?
    ensures HandlesTomb(s', q, path)
  {
    StepFrame(s, p, o, s');
    if q == p && !RequestOf(s, p).AskRun? {
      ControlKeepsTending(s.procs[p].cfg, s.procs[p].m, ServedAt(s, p, o).answer, Probe(o));
    }
  }

  lemma OwnerStays(s: World, p: int, o: Oracle, s': World, q: int)
    requires s.disk.Valid() && LockInv(s) && Stepped(s, p, o, s') && Possesses(s, q) && !o.fault
    requires q == p ==> !s.procs[p].m.ctl.TombRename?
    ensures Possesses(s', q)
  {
    if s.procs[p].m.ctl.Verify? { VerifyHolds(s, p, o, s'); }
    OwnerGoesOn(s, p, o, s', q);
  }

  lemma OwnerGoesOn(s: World, p: int, o: Oracle, s': World, q: int)
    requires s.disk.Valid() && Stepped(s, p, o, s') && Possesses(s, q)
    requires q == p ==> !s.procs[p].m.ctl.TombRename? && (s.procs[p].m.ctl.Verify? ==> Owned(s'.procs[p].m.ctl).Some?)
    ensures Possesses(s', q)
  {
    StepFrame(s, p, o, s');
    if q == p && !RequestOf(s, p).AskRun? {
      ControlKeepsTending(s.procs[p].cfg, s.procs[p].m, ServedAt(s, p, o).answer, Probe(o));
    }
  }

  lemma VerifyHolds(s: World, p: int, o: Oracle, s': World)
    requires s.disk.Valid() && LockInv(s) && Stepped(s, p, o, s') && s.procs[p].m.ctl.Verify? && !o.fault
    ensures s'.procs[p].m.ctl == Acquired(s.procs[p].cfg, s.procs[p].m.ctl.own)
  {
    StepFrame(s, p, o, s');
    LandKeeps(s.disk, s.procs[p].deferred, Stamp(s, o));
    assert LockHeldBy(s, p);
  }

  /** The step by which a process gives up what it tends. */
  predicate Relinquishes(ctl: Control, path: Path) {
    || ((ctl.Withdraw? || ctl.DropTicket?) && path == Ticket(ctl.b.mine))
    || (ctl.TombRemove? && path == ctl.tomb)
    || (ctl.TombRename? && path == Lock)
  }

  lemma RelinquishingTouches(cfg: Config, ctl: Control, path: Path)
    requires !ctl.Ended? && Relinquishes(ctl, path)
    ensures Touches(Ask(cfg, ctl), path)
  {
  }

  /** A path that still names its file is tended by whoever tended it, unless that process gave it up. */
  lemma TendedStays(d0: Disk, s: World, p: int, o: Oracle, s': World, path: Path)
    requires s.disk.Valid() && LockInv(s) && Stepped(s, p, o, s') && !o.fault
    requires path in s.disk.paths && path in s'.disk.paths && s'.disk.paths[path] == s.disk.paths[path]
    requires Tended(d0, s, path) && !Relinquishes(s.procs[p].m.ctl, path)
    ensures Tended(d0, s', path)
  {
    if !Leftover(d0, s.disk, path) {
      match path {
        case Lock =>
          var q :| Possesses(s, q);
          OwnerStays(s, p, o, s', q);
        case Ticket(_) =>
          var q :| HoldsTicket(s, q, path);
          HolderStays(s, p, o, s', q, path);
        case Tomb(_, _) =>
          var q :| HandlesTomb(s, q, path);
          HandlerStays(s, p, o, s', q, path);
        case _ =>
      }
    }
  }

  lemma SamePath(s: World, p: int, o: Oracle, s': World, path: Path)
    requires s.disk.Valid() && Stepped(s, p, o, s') && !Touches(RequestOf(s, p), path)
    ensures path in s'.disk.paths <==> path in s.disk.paths
    ensures path in s.disk.paths ==> s'.disk.paths[path] == s.disk.paths[path]
  {
    StepFrame(s, p, o, s');
    LandKeeps(s.disk, s.procs[p].deferred, Stamp(s, o));
    if !RequestOf(s, p).AskRun? {
      ServeKeepsUntouched(Landed(s, p, o), s'.clock, Issued(p, s.serial), RequestOf(s, p), o, path);
    }
  }

  lemma Touchers(cfg: Config, ctl: Control, path: Path)
    requires !ctl.Ended? && Touches(Ask(cfg, ctl), path)
    ensures
      || Ask(cfg, ctl).AskRemove? || ctl.PutBack? || ctl.Repair?
      || (ctl.WriteMark? && path == Done)
      || (ctl.CreateLock? && path == Lock)
      || (ctl.CreateTicket? && path == Ticket(ctl.b.mine))
      || (ctl.TombRename? && (path == Lock || path == ctl.tomb))
  {
  }

  lemma RemovedPath(s: World, p: int, o: Oracle, s': World, path: Path)
    requires s.disk.Valid() && Stepped(s, p, o, s') && !o.fault
    requires RequestOf(s, p) == AskRemove(path)
    ensures path !in s'.disk.paths
  {
    StepFrame(s, p, o, s');
  }

  lemma NewLock(s: World, p: int, o: Oracle, s': World)
    requires s.disk.Valid() && Stepped(s, p, o, s') && !o.fault
    requires s.procs[p].m.ctl.CreateLock? && Lock !in s.disk.paths
    ensures Possesses(s', p)
  {
    StepFrame(s, p, o, s');
    LandKeeps(s.disk, s.procs[p].deferred, Stamp(s, o));
  }

  lemma NewTicket(s: World, p: int, o: Oracle, s': World)
    requires s.disk.Valid() && Stepped(s, p, o, s') && !o.fault
    requires s.procs[p].m.ctl.CreateTicket? && Ticket(s.procs[p].m.ctl.b.mine) !in s.disk.paths
    ensures HoldsTicket(s', p, Ticket(s.procs[p].m.ctl.b.mine))
  {
    StepFrame(s, p, o, s');
    LandKeeps(s.disk, s.procs[p].deferred, Stamp(s, o));
  }

  lemma NewTomb(s: World, p: int, o: Oracle, s': World)
    requires s.disk.Valid() && Stepped(s, p, o, s') && !o.fault
    requires s.procs[p].m.ctl.TombRename? && Lock in s.disk.paths
    ensures Lock !in s'.disk.paths && HandlesTomb(s', p, s.procs[p].m.ctl.tomb)
    ensures s'.disk == Landed(s, p, o).Move(Lock, s.procs[p].m.ctl.tomb)
    ensures s'.procs[p].m.ctl == TombText(s.procs[p].m.ctl.errand, s.procs[p].m.ctl.tomb)
  {
    StepFrame(s, p, o, s');
    LockMoves(s, p, o);
  }

  lemma LockMoves(s: World, p: int, o: Oracle)
    requires s.disk.Valid() && Live(s, p) && s.procs[p].m.ctl.TombRename? && Lock in s.disk.paths && !o.fault
    ensures
      var tomb := s.procs[p].m.ctl.tomb;
      && Lock in Landed(s, p, o).paths
      && ServedAt(s, p, o) == Served(Landed(s, p, o).Move(Lock, tomb), None, RenameAnswer(RenamedAway))
      && Lock !in ServedAt(s, p, o).disk.paths
  {
    LandKeeps(s.disk, s.procs[p].deferred, Stamp(s, o));
  }

  /** An exclusive create that finds the path bound leaves the binding as it was. */
  lemma RefusedCreate(s: World, p: int, o: Oracle, s': World)
    requires s.disk.Valid() && Stepped(s, p, o, s')
    requires RequestOf(s, p).AskCreateExclusive? && RequestOf(s, p).path in s.disk.paths
    ensures s'.disk.paths == s.disk.paths
  {
    StepFrame(s, p, o, s');
    LandKeeps(s.disk, s.procs[p].deferred, Stamp(s, o));
  }

  lemma LockIsThere(d0: Disk, s: World, p: int)
    requires LockInv(s) && Live(s, p) && TombOk(d0, s, p) && s.procs[p].m.ctl.TombRename?
    ensures Lock in s.disk.paths && s.procs[p].m.ctl.tomb.Tomb?
  {
    if Possesses(s, p) { assert LockHeldBy(s, p); }
  }

  lemma TouchedTended(d0: Disk, s: World, p: int, o: Oracle, s': World, path: Path)
    requires s.disk.Valid() && LockInv(s) && Stepped(s, p, o, s') && !o.fault && path in s'.disk.paths
    requires Touches(RequestOf(s, p), path) && TombOk(d0, s, p)
    requires path in s.disk.paths ==> Tended(d0, s, path)
    ensures Tended(d0, s', path)
  {
    var ctl := s.procs[p].m.ctl;
    if Possesses(s, p) { assert LockHeldBy(s, p); }
    Touchers(s.procs[p].cfg, ctl, path);
    if RequestOf(s, p).AskRemove? {
      RemovedPath(s, p, o, s', path);
    } else if ctl.TombRename? {
      LockIsThere(d0, s, p);
      NewTomb(s, p, o, s');
    } else if path != Done {
      if path in s.disk.paths {
        RefusedCreate(s, p, o, s');
        TendedStays(d0, s, p, o, s', path);
      } else if ctl.CreateLock? {
        NewLock(s, p, o, s');
      } else {
        NewTicket(s, p, o, s');
      }
    }
  }

  lemma PathTended(d0: Disk, s: World, p: int, o: Oracle, s': World, path: Path)
    requires s.disk.Valid() && LockInv(s) && TidyInv(d0, s) && Stepped(s, p, o, s') && !o.fault
    requires path in s'.disk.paths
    ensures Tended(d0, s', path)
  {
    assert TombOk(d0, s, p);
    if Touches(RequestOf(s, p), path) {
      TouchedTended(d0, s, p, o, s', path);
    } else {
      SamePath(s, p, o, s', path);
      if Relinquishes(s.procs[p].m.ctl, path) {
        RelinquishingTouches(s.procs[p].cfg, s.procs[p].m.ctl, path);
      }
      TendedStays(d0, s, p, o, s', path);
    }
  }

  // ---- judged files stay judged ----

  lemma LaterStillAccepts(cfg: Config, errand: Errand, owner: Option<Owner>, age: int, later: int)
    requires age <= later && Accepts(cfg, errand, owner, age)
    ensures Accepts(cfg, errand, owner, later)
  {
  }

  /** A file nobody writes, at a path the step leaves alone, keeps its contents and stays unwritten. */
  lemma UnwrittenStays(s: World, p: int, o: Oracle, s': World, path: Path)
    requires s.disk.Valid() && Stepped(s, p, o, s') && path in s.disk.paths && NobodyWrites(s, path)
    requires !Touches(RequestOf(s, p), path)
    ensures path in s'.disk.paths && s'.disk.FileAt(path) == s.disk.FileAt(path) && NobodyWrites(s', path)
  {
    StepFrame(s, p, o, s');
    LandKeeps(s.disk, s.procs[p].deferred, Stamp(s, o));
    UntouchedStep(s, p, o, s', path);
    var id := s.disk.paths[path];
    assert !WritesTo(s, p, id);
    forall q ensures !WritesTo(s', q, id) { assert !WritesTo(s, q, id); }
  }

  lemma CondemnedStays(s: World, p: int, o: Oracle, s': World, cfg: Config, errand: Errand, path: Path)
    requires s.disk.Valid() && Stepped(s, p, o, s') && NobodyWrites(s, path) && Condemned(s, cfg, errand, path)
    requires !Touches(RequestOf(s, p), path)
    ensures Condemned(s', cfg, errand, path) && NobodyWrites(s', path)
  {
    StepFrame(s, p, o, s');
    SamePath(s, p, o, s', path);
    if path in s.disk.paths {
      UnwrittenStays(s, p, o, s', path);
      var file := s.disk.FileAt(path).value;
      LaterStillAccepts(cfg, errand, DecodeOwner(Some(file.text)), s.clock - file.mtime, s'.clock - file.mtime);
    }
  }

  /** A lock that was there from the start, and still is, has not changed. */
  lemma LeftoverLockUnchanged(d0: Disk, s: World, p: int, o: Oracle, s': World)
    requires s.disk.Valid() && LockInv(s) && TidyInv(d0, s) && Stepped(s, p, o, s') && !o.fault
    requires Leftover(d0, s'.disk, Lock)
    ensures Leftover(d0, s.disk, Lock) && s'.disk.FileAt(Lock) == s.disk.FileAt(Lock) && NobodyWrites(s, Lock)
  {
    LeftoverWasThere(d0, s, p, o, s');
    LeftoverUnwritten(d0, s, Lock);
    assert TombOk(d0, s, p);
    if Possesses(s, p) { assert LockHeldBy(s, p); }
    if Touches(RequestOf(s, p), Lock) {
      Touchers(s.procs[p].cfg, s.procs[p].m.ctl, Lock);
      if s.procs[p].m.ctl.TombRename? { NewTomb(s, p, o, s'); }
      else { RefusedLock(s, p, o, s'); }
    } else {
      UnwrittenStays(s, p, o, s', Lock);
    }
  }

  lemma RefusedLock(s: World, p: int, o: Oracle, s': World)
    requires s.disk.Valid() && Stepped(s, p, o, s') && s.procs[p].m.ctl.CreateLock? && Lock in s.disk.paths
    requires NobodyWrites(s, Lock)
    ensures s'.disk.FileAt(Lock) == s.disk.FileAt(Lock)
  {
    StepFrame(s, p, o, s');
    LandKeeps(s.disk, s.procs[p].deferred, Stamp(s, o));
    assert !WritesTo(s, p, s.disk.paths[Lock]);
  }

  /** Only its owner's step touches a process's tomb, unless to remove it. */
  lemma TombSpared(d0: Disk, s: World, p: int, o: Oracle, s': World, q: int, tomb: TombPath)
    requires s.disk.Valid() && LockInv(s) && TidyInv(d0, s) && Stepped(s, p, o, s') && !o.fault && q != p
    requires HandlesTomb(s, q, tomb) && tomb in s'.disk.paths
    ensures !Touches(RequestOf(s, p), tomb)
  {
    assert TombOk(d0, s, p) && TombOk(d0, s, q);
    if Possesses(s, p) { assert LockHeldBy(s, p); }
    if Touches(RequestOf(s, p), tomb) {
      Touchers(s.procs[p].cfg, s.procs[p].m.ctl, tomb);
      if RequestOf(s, p).AskRemove? { RemovedPath(s, p, o, s', tomb); }
    }
  }

  lemma BystanderTomb(d0: Disk, s: World, p: int, o: Oracle, s': World, q: int, stalls: Stalls)
    requires Inv(s, stalls) && TidyInv(d0, s) && Stepped(s, p, o, s') && !o.fault && q != p && Live(s', q)
    ensures TombOk(d0, s', q)
  {
    StepFrame(s, p, o, s');
    assert Live(s, q) && TombOk(d0, s, q);
    var ctl := s.procs[q].m.ctl;
    var cfg := s.procs[q].cfg;
    if ctl.JudgeAge? && Leftover(d0, s'.disk, Lock) {
      LeftoverLockUnchanged(d0, s, p, o, s');
    }
    if (ctl.TombNow? || ctl.TombRename?) && ctl.errand.Breaking? {
      BystanderTarget(d0, s, p, o, s', q, stalls);
    }
    if ctl.TombText? || ctl.TombAge? {
      BystanderInTomb(d0, s, p, o, s', q);
    }
  }

  lemma BystanderTarget(d0: Disk, s: World, p: int, o: Oracle, s': World, q: int, stalls: Stalls)
    requires Inv(s, stalls) && TidyInv(d0, s) && Stepped(s, p, o, s') && !o.fault && q != p && Live(s, q)
    requires (s.procs[q].m.ctl.TombNow? || s.procs[q].m.ctl.TombRename?) && s.procs[q].m.ctl.errand.Breaking?
    ensures Leftover(d0, s'.disk, Lock) && Condemned(s', s.procs[q].cfg, s.procs[q].m.ctl.errand, Lock)
  {
    assert TombOk(d0, s, q);
    UnownedSpared(s, p, o, q, stalls);
    SparingStep(s, p, o, s');
    LeftoverLockUnchanged(d0, s, p, o, s');
    StepFrame(s, p, o, s');
    var file := s.disk.FileAt(Lock).value;
    LaterStillAccepts(s.procs[q].cfg, s.procs[q].m.ctl.errand, DecodeOwner(Some(file.text)),
                      s.clock - file.mtime, s'.clock - file.mtime);
  }

  lemma BystanderInTomb(d0: Disk, s: World, p: int, o: Oracle, s': World, q: int)
    requires s.disk.Valid() && LockInv(s) && TidyInv(d0, s) && Stepped(s, p, o, s') && !o.fault && q != p && Live(s, q)
    requires s.procs[q].m.ctl.TombText? || s.procs[q].m.ctl.TombAge?
    ensures
      var ctl := s.procs[q].m.ctl;
      && Condemned(s', s.procs[q].cfg, ctl.errand, ctl.tomb) && NobodyWrites(s', ctl.tomb)
      && (ctl.TombAge? && ctl.tomb in s'.disk.paths ==> s'.disk.TextAt(ctl.tomb) == ctl.text)
  {
    var ctl := s.procs[q].m.ctl;
    assert TombOk(d0, s, q);
    if ctl.tomb in s'.disk.paths {
      assert HandlesTomb(s, q, ctl.tomb);
      TombSpared(d0, s, p, o, s', q, ctl.tomb);
      SamePath(s, p, o, s', ctl.tomb);
      CondemnedStays(s, p, o, s', s.procs[q].cfg, ctl.errand, ctl.tomb);
      UnwrittenStays(s, p, o, s', ctl.tomb);
    }
  }

  // ---- the stepper's own errand ----

  /** How an errand moves on when no file operation fails. */
  lemma ErrandArises(cfg: Config, m: Machine, a: Answer, alive: int -> bool)
    requires !m.ctl.Ended? && Fits(Ask(cfg, m.ctl), a) && !m.ctl.PutBack?
    ensures
      var ctl := Resume(cfg, m, a, alive).ctl;
      && (ctl.PutBack? ==> m.ctl.TombAge? && m.ctl.text.Some? && a.ageMs.Some?
                           && !Accepts(cfg, m.ctl.errand, DecodeOwner(m.ctl.text), a.ageMs.value))
      && (ctl.JudgeAge? ==> m.ctl.JudgeText? && ctl.text == a.text)
      && (ctl.TombNow? && ctl.errand.Breaking? ==>
            m.ctl.JudgeAge? && ctl.errand.b == m.ctl.b
            && StillBreakable(m.ctl.b.expected, DecodeOwner(m.ctl.text), a.ageMs, cfg.limits.staleMs))
      && (ctl.TombRename? ==> m.ctl.TombNow? && ctl.errand == m.ctl.errand && ctl.tomb == Tomb(ErrandNonce(ctl.errand), a.now))
      && (ctl.TombText? ==> m.ctl.TombRename? && ctl.errand == m.ctl.errand && ctl.tomb == m.ctl.tomb)
      && (ctl.TombAge? ==> m.ctl.TombText? && ctl.errand == m.ctl.errand && ctl.tomb == m.ctl.tomb && ctl.text == a.text)
      && (InTomb(ctl).Some? ==> InTomb(ctl) == InTomb(m.ctl) || (m.ctl.TombRename? && InTomb(ctl) == Some(m.ctl.tomb)))
  {
  }

  /** The stepper's read of a path shows what its own landing left there, and changes nothing. */
  lemma ReadStep(s: World, p: int, o: Oracle, s': World, path: Path)
    requires s.disk.Valid() && Stepped(s, p, o, s') && RequestOf(s, p) == AskReadText(path) && !o.fault
    ensures s'.disk == Landed(s, p, o) && ServedAt(s, p, o).answer == Contents(s'.disk.TextAt(path))
    ensures s'.procs[p].deferred == None
  {
    StepFrame(s, p, o, s');
  }

  lemma AgeStep(s: World, p: int, o: Oracle, s': World, path: Path)
    requires s.disk.Valid() && Stepped(s, p, o, s') && !o.fault && RequestOf(s, p) == AskAgeMs(path)
    ensures s'.disk == Landed(s, p, o)
    ensures
      var file := s'.disk.FileAt(path);
      ServedAt(s, p, o).answer == Age(if file.Some? then Some(s'.clock - file.value.mtime) else None)
  {
    StepFrame(s, p, o, s');
  }

  /** The judged tomb is accepted, so nothing is ever put back. */
  lemma TombAccepted(d0: Disk, s: World, p: int, o: Oracle, s': World)
    requires s.disk.Valid() && TidyInv(d0, s) && Stepped(s, p, o, s') && !o.fault && s.procs[p].m.ctl.TombAge?
    ensures !s'.procs[p].m.ctl.PutBack?
  {
    StepFrame(s, p, o, s');
    assert TombOk(d0, s, p);
    var ctl := s.procs[p].m.ctl;
    AgeStep(s, p, o, s', ctl.tomb);
    ErrandArises(s.procs[p].cfg, s.procs[p].m, ServedAt(s, p, o).answer, Probe(o));
    if ctl.tomb in s.disk.paths {
      CondemnedStays(s, p, o, s', s.procs[p].cfg, ctl.errand, ctl.tomb);
      UnwrittenStays(s, p, o, s', ctl.tomb);
    } else {
      SamePath(s, p, o, s', ctl.tomb);
    }
  }

  lemma UnownedIsLeftover(d0: Disk, s: World)
    requires Unowned(s) && Tended(d0, s, Lock)
    ensures Leftover(d0, s.disk, Lock)
  {
    assert forall q :: !Possesses(s, q);
  }

  lemma TargetUnowned(s: World, p: int, stalls: Stalls)
    requires Inv(s, stalls) && Live(s, p) && s.procs[p].m.ctl.TombNow? && s.procs[p].m.ctl.errand.Breaking?
    ensures Unowned(s)
  {
  }

  /** What the judgement said of the age and text read, the file itself satisfies. */
  lemma JudgedFile(d0: Disk, s: World, p: int, o: Oracle, s': World)
    requires s.disk.Valid() && Stepped(s, p, o, s') && TombOk(d0, s, p) && !o.fault
    requires s.procs[p].m.ctl.JudgeAge? && s'.procs[p].m.ctl.TombNow?
    requires Leftover(d0, s.disk, Lock) && s'.disk.FileAt(Lock) == s.disk.FileAt(Lock)
    ensures s'.procs[p].m.ctl.errand.Breaking? && Condemned(s', s'.procs[p].cfg, s'.procs[p].m.ctl.errand, Lock)
  {
    StepFrame(s, p, o, s');
    AgeStep(s, p, o, s', Lock);
    ErrandArises(s.procs[p].cfg, s.procs[p].m, ServedAt(s, p, o).answer, Probe(o));
    assert s'.procs[p].m.ctl == TombNow(Breaking(s.procs[p].m.ctl.b));
  }

  /** A breaker's positive judgement is of the lock that was there from the start, as it is now. */
  lemma TargetCondemned(d0: Disk, s: World, p: int, o: Oracle, s': World, stalls: Stalls)
    requires Inv(s, stalls) && Inv(s', stalls) && TidyInv(d0, s) && Stepped(s, p, o, s') && !o.fault
    requires s.procs[p].m.ctl.JudgeAge? && s'.procs[p].m.ctl.TombNow? && s'.procs[p].m.ctl.errand.Breaking?
    requires Live(s', p)
    ensures Leftover(d0, s'.disk, Lock) && Condemned(s', s'.procs[p].cfg, s'.procs[p].m.ctl.errand, Lock)
  {
    TargetUnowned(s', p, stalls);
    PathTended(d0, s, p, o, s', Lock);
    UnownedIsLeftover(d0, s');
    LeftoverLockUnchanged(d0, s, p, o, s');
    assert TombOk(d0, s, p);
    JudgedFile(d0, s, p, o, s');
  }

  lemma MovedFile(s: World, p: int, o: Oracle, s': World)
    requires s.disk.Valid() && Stepped(s, p, o, s') && !o.fault
    requires s.procs[p].m.ctl.TombRename? && Lock in s.disk.paths && NobodyWrites(s, Lock)
    ensures
      var tomb := s.procs[p].m.ctl.tomb;
      && tomb in s'.disk.paths && s'.disk.FileAt(tomb) == s.disk.FileAt(Lock) && NobodyWrites(s', tomb)
  {
    StepFrame(s, p, o, s');
    LandKeeps(s.disk, s.procs[p].deferred, Stamp(s, o));
    NewTomb(s, p, o, s');
    var id := s.disk.paths[Lock];
    assert !WritesTo(s, p, id);
    forall q ensures !WritesTo(s', q, id) { assert !WritesTo(s, q, id); }
  }

  /** The renamed lock is the judged one, or the stepper's own: it will be accepted, and nobody writes it. */
  lemma MovedIsCondemned(d0: Disk, s: World, p: int, o: Oracle, s': World)
    requires s.disk.Valid() && LockInv(s) && TidyInv(d0, s) && Stepped(s, p, o, s') && !o.fault
    requires s.procs[p].m.ctl.TombRename?
    ensures
      var ctl := s'.procs[p].m.ctl;
      ctl.TombText? && Condemned(s', s'.procs[p].cfg, ctl.errand, ctl.tomb) && NobodyWrites(s', ctl.tomb)
  {
    StepFrame(s, p, o, s');
    assert TombOk(d0, s, p);
    LockIsThere(d0, s, p);
    NewTomb(s, p, o, s');
    LockUnwritten(d0, s, p);
    MovedFile(s, p, o, s');
    var file := s.disk.FileAt(Lock).value;
    LaterStillAccepts(s.procs[p].cfg, s.procs[p].m.ctl.errand, DecodeOwner(Some(file.text)),
                      s.clock - file.mtime, s'.clock - file.mtime);
  }

  lemma LockUnwritten(d0: Disk, s: World, p: int)
    requires s.disk.Valid() && LockInv(s) && TidyInv(d0, s) && Live(s, p) && s.procs[p].m.ctl.TombRename?
    ensures NobodyWrites(s, Lock) && Condemned(s, s.procs[p].cfg, s.procs[p].m.ctl.errand, Lock)
  {
    assert TombOk(d0, s, p);
    if s.procs[p].m.ctl.errand.Breaking? {
      LeftoverUnwritten(d0, s, Lock);
    } else {
      assert Possesses(s, p) && LockHeldBy(s, p);
    }
  }

  lemma TombNamed(s: World, p: int, o: Oracle, s': World)
    requires Inv0(s) && Stepped(s, p, o, s') && s'.procs[p].m.ctl.TombRename? && !s.procs[p].m.ctl.PutBack?
    requires !RequestOf(s, p).AskRun?
    ensures
      var tomb := s'.procs[p].m.ctl.tomb;
      tomb.Tomb? && tomb.nonce.Issued? && tomb.nonce.pid == p
  {
    StepFrame(s, p, o, s');
    assert LocalOk(s, p);
    ErrandArises(s.procs[p].cfg, s.procs[p].m, ServedAt(s, p, o).answer, Probe(o));
  }

  lemma JudgeReads(d0: Disk, s: World, p: int, o: Oracle, s': World)
    requires s.disk.Valid() && Stepped(s, p, o, s') && s'.procs[p].m.ctl.JudgeAge? && s.procs[p].m.ctl.JudgeText? && !o.fault
    ensures s'.disk.TextAt(Lock) == s'.procs[p].m.ctl.text
  {
    ReadStep(s, p, o, s', Lock);
    JudgeTextStep(s, p, o, s');
  }

  lemma TombReads(d0: Disk, s: World, p: int, o: Oracle, s': World)
    requires s.disk.Valid() && TidyInv(d0, s) && Stepped(s, p, o, s') && s.procs[p].m.ctl.TombText? && !o.fault
    ensures
      var ctl := s'.procs[p].m.ctl;
      && ctl.TombAge? && s'.disk.TextAt(ctl.tomb) == ctl.text
      && Condemned(s', s'.procs[p].cfg, ctl.errand, ctl.tomb) && NobodyWrites(s', ctl.tomb)
  {
    StepFrame(s, p, o, s');
    assert TombOk(d0, s, p);
    var ctl := s.procs[p].m.ctl;
    ReadStep(s, p, o, s', ctl.tomb);
    CondemnedStays(s, p, o, s', s.procs[p].cfg, ctl.errand, ctl.tomb);
  }

  lemma TargetStays(d0: Disk, s: World, p: int, o: Oracle, s': World)
    requires s.disk.Valid() && TidyInv(d0, s) && Stepped(s, p, o, s')
    requires s.procs[p].m.ctl.TombNow? && s.procs[p].m.ctl.errand.Breaking?
    ensures
      var errand := s.procs[p].m.ctl.errand;
      Leftover(d0, s'.disk, Lock) && Condemned(s', s'.procs[p].cfg, errand, Lock)
  {
    StepFrame(s, p, o, s');
    assert TombOk(d0, s, p);
    LeftoverUnwritten(d0, s, Lock);
    SamePath(s, p, o, s', Lock);
    CondemnedStays(s, p, o, s', s.procs[p].cfg, s.procs[p].m.ctl.errand, Lock);
  }

  lemma StepperTomb(d0: Disk, s: World, p: int, o: Oracle, s': World, stalls: Stalls)
    requires Inv(s, stalls) && Inv(s', stalls) && TidyInv(d0, s) && Stepped(s, p, o, s') && !o.fault
    requires Live(s', p) && !RequestOf(s, p).AskRun?
    ensures TombOk(d0, s', p)
  {
    StepFrame(s, p, o, s');
    assert TombOk(d0, s, p);
    var ctl, ctl' := s.procs[p].m.ctl, s'.procs[p].m.ctl;
    ErrandArises(s.procs[p].cfg, s.procs[p].m, ServedAt(s, p, o).answer, Probe(o));
    if ctl.TombAge? { TombAccepted(d0, s, p, o, s'); }
    if ctl'.JudgeAge? { JudgeReads(d0, s, p, o, s'); }
    if ctl'.TombNow? && ctl'.errand.Breaking? { TargetCondemned(d0, s, p, o, s', stalls); }
    if ctl'.TombRename? {
      TombNamed(s, p, o, s');
      if ctl'.errand.Breaking? { TargetStays(d0, s, p, o, s'); }
    }
    if ctl'.TombText? { MovedIsCondemned(d0, s, p, o, s'); }
    if ctl'.TombAge? { TombReads(d0, s, p, o, s'); }
  }

  // ---- whole runs ----

  lemma BeginTomb(d0: Disk, s: World, p: int, o: Oracle, s': World)
    requires s.disk.Valid() && TidyInv(d0, s) && Stepped(s, p, o, s') && RequestOf(s, p).AskRun?
    ensures TombOk(d0, s', p)
  {
    StepFrame(s, p, o, s');
    assert TombOk(d0, s, p);
  }

  lemma FreshTarget(s: World, p: int, o: Oracle, s': World)
    requires s.disk.Valid() && Stepped(s, p, o, s') && !RequestOf(s, p).AskWriteText?
    ensures s'.procs[p].deferred.Some? ==> s'.procs[p].deferred.value.id == s.disk.nextInode
  {
    StepFrame(s, p, o, s');
    LandKeeps(s.disk, s.procs[p].deferred, Stamp(s, o));
  }

  lemma WrittenTarget(s: World, p: int, o: Oracle, s': World)
    requires s.disk.Valid() && Stepped(s, p, o, s') && s.procs[p].m.ctl.WriteMark? && !o.fault
    ensures Done in s'.disk.paths && s'.procs[p].deferred.Some?
    ensures s'.disk.paths[Done] == s'.procs[p].deferred.value.id
    ensures Done in s.disk.paths ==> s'.disk.paths[Done] == s.disk.paths[Done]
  {
    StepFrame(s, p, o, s');
    LandKeeps(s.disk, s.procs[p].deferred, Stamp(s, o));
  }

  lemma WritesOnlyDone(cfg: Config, ctl: Control)
    requires !ctl.Ended? && !ctl.Repair? && !ctl.WriteMark?
    ensures !Ask(cfg, ctl).AskWriteText? && !Touches(Ask(cfg, ctl), Done)
  {
  }

  lemma TidyDeferred(d0: Disk, s: World, p: int, o: Oracle, s': World, q: int)
    requires s.disk.Valid() && LockInv(s) && TidyInv(d0, s) && Stepped(s, p, o, s') && !o.fault && Live(s', q)
    requires s'.procs[q].deferred.Some? && s'.procs[q].deferred.value.id < d0.nextInode
    ensures Done in s'.disk.paths && s'.disk.paths[Done] == s'.procs[q].deferred.value.id
  {
    StepFrame(s, p, o, s');
    if Possesses(s, p) { assert LockHeldBy(s, p); }
    if s.procs[p].m.ctl.WriteMark? {
      WrittenTarget(s, p, o, s');
    } else {
      WritesOnlyDone(s.procs[p].cfg, s.procs[p].m.ctl);
      FreshTarget(s, p, o, s');
      SamePath(s, p, o, s', Done);
    }
    assert q != p ==> Live(s, q);
  }

  lemma TidyStep(d0: Disk, s: World, p: int, o: Oracle, s': World, stalls: Stalls)
    requires Inv(s, stalls) && Inv(s', stalls) && TidyInv(d0, s) && Stepped(s, p, o, s') && !o.fault
    ensures TidyInv(d0, s')
  {
    StepFrame(s, p, o, s');
    forall path | path in s'.disk.paths ensures Tended(d0, s', path) { PathTended(d0, s, p, o, s', path); }
    forall q | Live(s', q) ensures TombOk(d0, s', q) {
      if q != p { BystanderTomb(d0, s, p, o, s', q, stalls); }
      else if RequestOf(s, p).AskRun? { BeginTomb(d0, s, p, o, s'); }
      else { StepperTomb(d0, s, p, o, s', stalls); }
    }
    forall q | Live(s', q) && s'.procs[q].deferred.Some? && s'.procs[q].deferred.value.id < d0.nextInode
      ensures Done in s'.disk.paths && s'.disk.paths[Done] == s'.procs[q].deferred.value.id
    {
      TidyDeferred(d0, s, p, o, s', q);
    }
  }

  lemma FinishTended(d0: Disk, s: World, p: int, ok: bool, dt: nat, path: Path)
    requires Enabled(s, Finish(p, ok, dt)) && path in s.disk.paths && Tended(d0, s, path)
    ensures Tended(d0, Apply(s, Finish(p, ok, dt)), path)
  {
    var s' := Apply(s, Finish(p, ok, dt));
    FinishFrame(s, p, ok, dt);
    if !Leftover(d0, s.disk, path) {
      match path {
        case Lock =>
          var q :| Possesses(s, q);
          FinishKeepsHands(s, p, ok, dt, q, path);
        case Ticket(_) =>
          var q :| HoldsTicket(s, q, path);
          FinishKeepsHands(s, p, ok, dt, q, path);
        case Tomb(_, _) =>
          var q :| HandlesTomb(s, q, path);
          FinishKeepsHands(s, p, ok, dt, q, path);
        case _ =>
      }
    }
  }

  lemma FinishKeepsHands(s: World, p: int, ok: bool, dt: nat, q: int, path: Path)
    requires Enabled(s, Finish(p, ok, dt))
    ensures
      var s' := Apply(s, Finish(p, ok, dt));
      && (Possesses(s, q) ==> Possesses(s', q)) && (HoldsTicket(s, q, path) ==> HoldsTicket(s', q, path))
      && (HandlesTomb(s, q, path) ==> HandlesTomb(s', q, path))
  {
    FinishFrame(s, p, ok, dt);
  }

  lemma FinishTombOk(d0: Disk, s: World, p: int, ok: bool, dt: nat, q: int)
    requires TidyInv(d0, s) && Enabled(s, Finish(p, ok, dt)) && Live(Apply(s, Finish(p, ok, dt)), q)
    ensures TombOk(d0, Apply(s, Finish(p, ok, dt)), q)
  {
    var s' := Apply(s, Finish(p, ok, dt));
    FinishFrame(s, p, ok, dt);
    assert Live(s, q) && TombOk(d0, s, q);
    var ctl := s.procs[q].m.ctl;
    if q != p {
      FinishKeepsUnwritten(s, p, ok, dt, if ctl.TombText? || ctl.TombAge? then ctl.tomb else Done);
      if ctl.TombText? || ctl.TombAge? { FinishKeepsCondemned(s, p, ok, dt, s.procs[q].cfg, ctl.errand, ctl.tomb); }
      if ctl.TombNow? || ctl.TombRename? { FinishKeepsCondemned(s, p, ok, dt, s.procs[q].cfg, ctl.errand, Lock); }
    }
  }

  lemma FinishKeepsUnwritten(s: World, p: int, ok: bool, dt: nat, path: Path)
    requires Enabled(s, Finish(p, ok, dt))
    ensures NobodyWrites(s, path) ==> NobodyWrites(Apply(s, Finish(p, ok, dt)), path)
  {
    FinishFrame(s, p, ok, dt);
    var s' := Apply(s, Finish(p, ok, dt));
    if path in s.disk.paths && NobodyWrites(s, path) {
      forall q ensures !WritesTo(s', q, s.disk.paths[path]) { assert !WritesTo(s, q, s.disk.paths[path]); }
    }
  }

  lemma FinishKeepsCondemned(s: World, p: int, ok: bool, dt: nat, cfg: Config, errand: Errand, path: Path)
    requires Enabled(s, Finish(p, ok, dt))
    ensures Condemned(s, cfg, errand, path) ==> Condemned(Apply(s, Finish(p, ok, dt)), cfg, errand, path)
  {
    FinishFrame(s, p, ok, dt);
    var file := s.disk.FileAt(path);
    if file.Some? && Condemned(s, cfg, errand, path) {
      LaterStillAccepts(cfg, errand, DecodeOwner(Some(file.value.text)),
                        s.clock - file.value.mtime, s.clock + dt - file.value.mtime);
    }
  }

  lemma TidyFinish(d0: Disk, s: World, p: int, ok: bool, dt: nat)
    requires TidyInv(d0, s) && Enabled(s, Finish(p, ok, dt))
    ensures TidyInv(d0, Apply(s, Finish(p, ok, dt)))
  {
    var s' := Apply(s, Finish(p, ok, dt));
    FinishFrame(s, p, ok, dt);
    forall path | path in s'.disk.paths ensures Tended(d0, s', path) { FinishTended(d0, s, p, ok, dt, path); }
    forall q | Live(s', q) ensures TombOk(d0, s', q) { FinishTombOk(d0, s, p, ok, dt, q); }
    assert forall q :: Live(s', q) ==> Live(s, q) && s'.procs[q].deferred == s.procs[q].deferred;
  }

  lemma TidyNext(d0: Disk, s: World, s': World, stalls: Stalls)
    requires Inv(s, stalls) && Inv(s', stalls) && TidyInv(d0, s) && SmoothNext(s, s')
    ensures TidyInv(d0, s')
  {
    var c :| Smooth(c) && Enabled(s, c) && s' == Apply(s, c);
    match c {
      case Step(p, o) => TidyStep(d0, s, p, o, s', stalls);
      case Finish(p, ok, dt) => TidyFinish(d0, s, p, ok, dt);
    }
  }

  lemma TidyInitial(s: World)
    requires Initial(s)
    ensures TidyInv(s.disk, s)
  {
    forall path | path in s.disk.paths ensures Tended(s.disk, s, path) {
      assert Leftover(s.disk, s.disk, path);
    }
  }

  ghost predicate SmoothRun(run: seq<World>) {
    forall k :: 0 <= k < |run| - 1 ==> SmoothAt(run, k)
  }

  lemma SmoothStep(run: seq<World>, k: nat)
    requires SmoothRun(run) && k + 1 < |run|
    ensures SmoothNext(run[k], run[k + 1])
  {
    assert SmoothAt(run, k);
  }

  lemma TidyAfter(run: seq<World>, i: nat, stalls: Stalls)
    requires IsRun(run) && TimelyRun(run, stalls) && 0 < i < |run|
    requires Suffices(run[0].limits, run[0].fs, stalls) && SmoothRun(run)
    requires TidyInv(run[0].disk, run[i - 1])
    ensures TidyInv(run[0].disk, run[i])
  {
    InvBeside(run, i, stalls);
    SmoothStep(run, i - 1);
    TidyNext(run[0].disk, run[i - 1], run[i], stalls);
  }

  lemma InvBeside(run: seq<World>, i: nat, stalls: Stalls)
    requires IsRun(run) && TimelyRun(run, stalls) && 0 < i < |run|
    requires Suffices(run[0].limits, run[0].fs, stalls)
    ensures Inv(run[i - 1], stalls) && Inv(run[i], stalls)
  {
    InvAlways(run, i - 1, stalls);
    InvAlways(run, i, stalls);
  }

  lemma {:induction false} TidyAlways(run: seq<World>, i: nat, stalls: Stalls)
    requires IsRun(run) && TimelyRun(run, stalls) && i < |run|
    requires Suffices(run[0].limits, run[0].fs, stalls) && SmoothRun(run)
    ensures TidyInv(run[0].disk, run[i])
  {
    if i == 0 {
      TidyInitial(run[0]);
    } else {
      TidyAlways(run, i - 1, stalls);
      TidyAfter(run, i, stalls);
    }
  }
}

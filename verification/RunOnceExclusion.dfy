/**
 * Who may move the lock file, and why two breakers never act at once. Only
 * three requests touch the lock's path: a create (a put-back is one), which fails
 * while the lock is there; the repair of a garbled lock, by its creator; and the rename of a
 * breaker or of a releasing owner. A breaker that is past its judgement means
 * to move a lock that no live process owns, and an owner that releases moves
 * its own; so a live owner's lock stays where it is, and nobody else writes
 * the file it names.
 */
module RunOnceExclusion {
  import opened Wrappers
  import opened RunOnceMachine
  import opened RunOnceWorld
  import opened RunOnceFiles
  import opened RunOnceInvariant
  import opened RunOnceSafety

  predicate Possesses(s: World, p: int) {
    Live(s, p) && Owned(s.procs[p].m.ctl).Some?
  }

  lemma SoleOwner(s: World, p: int, q: int)
    requires LockInv(s) && Possesses(s, p) && Possesses(s, q)
    requires LocalInv(s)
    ensures p == q
  {
    assert LockHeldBy(s, p) && LockHeldBy(s, q);
    assert LocalOk(s, p) && LocalOk(s, q);
    var id := s.disk.paths[Lock];
    assert s.procs[p].m.ctl.Verify? ==> WritesTo(s, p, id);
  }

  /** Only its owner's release can move a lock that a live process owns. */
  lemma MoverIsOwner(s: World, p: int, q: int, stalls: Stalls)
    requires Inv(s, stalls) && Possesses(s, q) && Live(s, p)
    requires s.procs[p].m.ctl.TombRename? || s.procs[p].m.ctl.Repair?
    ensures p == q && s.procs[p].m.ctl.TombRename?
  {
    var ctl := s.procs[p].m.ctl;
    if ctl.TombRename? && ctl.errand.Breaking? {
      assert false;
    } else {
      SoleOwner(s, p, q);
      assert LockHeldBy(s, p);
    }
  }

  lemma LockTouchers(cfg: Config, ctl: Control)
    requires !ctl.Ended? && Touches(Ask(cfg, ctl), Lock)
    ensures ctl.CreateLock? || ctl.PutBack? || ctl.TombRename? || ctl.Repair?
  {
  }

  /** A request that cannot disturb a lock file that is there. */
  predicate SparesLock(request: Request, o: Oracle) {
    !Touches(request, Lock) || request.AskCreateExclusive? || (request.AskRename? && o.fault)
  }

  lemma SparedLock(d: Disk, clock: int, nonce: Nonce, request: Request, o: Oracle)
    requires d.Valid() && Lock in d.paths && !request.AskRun? && SparesLock(request, o)
    ensures
      var r := Serve(d, clock, nonce, request, o);
      && SameFile(d, r.disk, Lock)
      && (r.deferred.Some? ==> r.deferred.value.id != d.paths[Lock])
  {
    if !Touches(request, Lock) {
      ServeKeepsUntouched(d, clock, nonce, request, o, Lock);
      DeferredTarget(d, clock, nonce, request, o, Lock);
    }
  }

  /** While a lock is owned, every step but its owner's own release spares it. */
  lemma OwnedLockSpared(s: World, p: int, o: Oracle, q: int, stalls: Stalls)
    requires Inv(s, stalls) && Live(s, p) && Possesses(s, q)
    requires s.procs[p].m.ctl.TombRename? ==> p != q || o.fault
    ensures SparesLock(RequestOf(s, p), o)
  {
    var ctl := s.procs[p].m.ctl;
    if ctl.TombRename? || ctl.Repair? { MoverIsOwner(s, p, q, stalls); }
    if Touches(RequestOf(s, p), Lock) { LockTouchers(s.procs[p].cfg, ctl); }
  }

  lemma SparingStep(s: World, p: int, o: Oracle, s': World)
    requires s.disk.Valid() && Stepped(s, p, o, s') && Lock in s.disk.paths
    requires SparesLock(RequestOf(s, p), o)
    ensures Lock in s'.disk.paths && SameFile(Landed(s, p, o), s'.disk, Lock)
    ensures s'.disk.paths[Lock] == s.disk.paths[Lock]
    ensures s'.procs[p].deferred.Some? ==> s'.procs[p].deferred.value.id != s.disk.paths[Lock]
  {
    StepFrame(s, p, o, s');
    LandKeeps(s.disk, s.procs[p].deferred, Stamp(s, o));
    if !RequestOf(s, p).AskRun? {
      SparedLock(Landed(s, p, o), s'.clock, Issued(p, s.serial), RequestOf(s, p), o);
    }
  }

  /** While a lock is owned, any step but a move of it leaves the file as the stepper's landing left it. */
  lemma OwnedLockStays(s: World, p: int, o: Oracle, s': World, q: int, stalls: Stalls)
    requires Inv(s, stalls) && Stepped(s, p, o, s') && Possesses(s, q)
    requires s.procs[p].m.ctl.TombRename? ==> p != q || o.fault
    ensures Lock in s'.disk.paths && SameFile(Landed(s, p, o), s'.disk, Lock)
    ensures Lock in s.disk.paths && s'.disk.paths[Lock] == s.disk.paths[Lock]
    ensures s'.procs[p].deferred.Some? ==> s'.procs[p].deferred.value.id != s.disk.paths[Lock]
  {
    assert LockHeldBy(s, q);
    OwnedLockSpared(s, p, o, q, stalls);
    SparingStep(s, p, o, s');
  }

  /** A bystander's step leaves an owner in possession. */
  lemma LockKeptForOthers(s: World, p: int, o: Oracle, s': World, q: int, stalls: Stalls)
    requires Inv(s, stalls) && Stepped(s, p, o, s') && q != p && Possesses(s', q)
    ensures LockHeldBy(s', q)
  {
    StepFrame(s, p, o, s');
    LandKeeps(s.disk, s.procs[p].deferred, Stamp(s, o));
    assert Possesses(s, q) && LockHeldBy(s, q);
    OwnedLockStays(s, p, o, s', q, stalls);
    var id := s.disk.paths[Lock];
    assert !WritesTo(s, p, id);
    forall r | r != q ensures !WritesTo(s', r, id) {
      assert !WritesTo(s, r, id);
    }
  }

  /** The stepper keeps its own lock, or has just created it. */
  lemma LockKeptForSelf(s: World, p: int, o: Oracle, s': World, stalls: Stalls)
    requires Inv(s, stalls) && Stepped(s, p, o, s') && Possesses(s', p)
    ensures LockHeldBy(s', p)
  {
    StepFrame(s, p, o, s');
    LandKeeps(s.disk, s.procs[p].deferred, Stamp(s, o));
    assert LocalOk(s, p);
    if RequestOf(s, p).AskRun? {
      assert LockHeldBy(s, p);
      var id := s.disk.paths[Lock];
      forall r | r != p ensures !WritesTo(s', r, id) {
        assert !WritesTo(s, r, id);
      }
    } else {
      OwnedArises(s.procs[p].cfg, s.procs[p].m, ServedAt(s, p, o).answer, Probe(o));
      if s.procs[p].m.ctl.CreateLock? {
        CreatedLockIsHeld(s, p, o, s', stalls);
      } else {
        HeldLockStaysOwn(s, p, o, s', stalls);
      }
    }
  }

  lemma CreatedLockIsHeld(s: World, p: int, o: Oracle, s': World, stalls: Stalls)
    requires Inv(s, stalls) && Stepped(s, p, o, s') && Possesses(s', p) && s.procs[p].m.ctl.CreateLock?
    ensures LockHeldBy(s', p)
  {
    StepFrame(s, p, o, s');
    LandKeeps(s.disk, s.procs[p].deferred, Stamp(s, o));
    assert s'.disk == Landed(s, p, o).Bind(Lock, s'.clock);
    forall r | r != p ensures !WritesTo(s', r, s.disk.nextInode) { NewFileUnwritten(s, p, o, s', r, stalls); }
  }

  lemma NewFileUnwritten(s: World, p: int, o: Oracle, s': World, r: int, stalls: Stalls)
    requires Inv(s, stalls) && Stepped(s, p, o, s') && r != p
    ensures !WritesTo(s', r, s.disk.nextInode)
  {
    StepFrame(s, p, o, s');
    assert !WritesTo(s, r, s.disk.nextInode);
  }

  /** An owner that stays one owned the same lock before, and its text is there once its own step has landed. */
  lemma OwnLockLanded(s: World, p: int, o: Oracle, s': World)
    requires Inv0(s) && LockInv(s) && Stepped(s, p, o, s') && Possesses(s', p)
    requires !s.procs[p].m.ctl.CreateLock? && !RequestOf(s, p).AskRun?
    ensures Possesses(s, p) && Owned(s'.procs[p].m.ctl) == Owned(s.procs[p].m.ctl)
    ensures s.procs[p].m.ctl.TombRename? ==> o.fault
    ensures Lock in s.disk.paths && s.disk.paths[Lock] in Landed(s, p, o).inodes
    ensures Landed(s, p, o).inodes[s.disk.paths[Lock]].text == Record(Owned(s.procs[p].m.ctl).value, None)
    ensures !s'.procs[p].m.ctl.Verify? && !s'.procs[p].m.ctl.Repair?
  {
    StepFrame(s, p, o, s');
    assert LocalOk(s, p);
    OwnedArises(s.procs[p].cfg, s.procs[p].m, ServedAt(s, p, o).answer, Probe(o));
    assert Possesses(s, p) && LockHeldBy(s, p);
  }

  lemma HeldLockStaysOwn(s: World, p: int, o: Oracle, s': World, stalls: Stalls)
    requires Inv(s, stalls) && Stepped(s, p, o, s') && Possesses(s', p)
    requires !s.procs[p].m.ctl.CreateLock? && !RequestOf(s, p).AskRun?
    ensures LockHeldBy(s', p)
  {
    StepFrame(s, p, o, s');
    LandKeeps(s.disk, s.procs[p].deferred, Stamp(s, o));
    OwnLockLanded(s, p, o, s');
    assert LockHeldBy(s, p);
    OwnedLockStays(s, p, o, s', p, stalls);
    var id := s.disk.paths[Lock];
    forall r | r != p ensures !WritesTo(s', r, id) {
      assert !WritesTo(s, r, id);
    }
  }

  lemma LockKept(s: World, p: int, o: Oracle, s': World, stalls: Stalls)
    requires Inv(s, stalls) && Stepped(s, p, o, s')
    ensures LockInv(s')
  {
    StepFrame(s, p, o, s');
    forall q | Possesses(s', q) ensures LockHeldBy(s', q) {
      if q == p { LockKeptForSelf(s, p, o, s', stalls); }
      else { LockKeptForOthers(s, p, o, s', q, stalls); }
    }
  }
}

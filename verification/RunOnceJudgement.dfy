/**
 * A breaker past its judgement has a lock in its hand that no live process
 * owns. It judges in two steps, the lock's text and then its age. When the text
 * shows the expected owner, that owner was dead or over age when the takeover
 * was decided, and its nonce is never used again. When the text shows no owner,
 * the age must be over `staleMs`. Where no live owner's lock grows that old the
 * lock is nobody's. Where one may, its text can be read, so it was blank because
 * its creator was between create and text. If the text has landed by the time the
 * age is read, and the landing stamped the file, the lock is younger than the
 * breaker's ticket; otherwise its age is at most the creator's stall, plus the
 * breaker's where landings do not stamp. All of these stay within `staleMs`.
 * Either way the lock that is renamed is unowned, and stays so until the rename,
 * because a create is refused while it is there.
 */
module RunOnceJudgement {
  import opened Wrappers
  import opened RunOnceMachine
  import opened RunOnceWorld
  import opened RunOnceFiles
  import opened RunOnceInvariant
  import opened RunOnceSafety
  import opened RunOnceExclusion
  import opened RunOnceTickets

  lemma TargetsAreCleared(ctl: Control)
    requires Targets(ctl)
    ensures Cleared(ctl) && Owned(ctl).None?
  {
  }

  /** Nobody but the one breaker can move or bind an unowned lock that is there. */
  lemma UnownedSpared(s: World, p: int, o: Oracle, q: int, stalls: Stalls)
    requires Inv(s, stalls) && Live(s, p) && Live(s, q) && q != p && Targets(s.procs[q].m.ctl)
    ensures SparesLock(RequestOf(s, p), o)
  {
    var ctl := s.procs[p].m.ctl;
    TargetsAreCleared(s.procs[q].m.ctl);
    assert Unowned(s);
    if Touches(RequestOf(s, p), Lock) {
      LockTouchers(s.procs[p].cfg, ctl);
      if ctl.TombRename? && ctl.errand.Breaking? {
        OneClearedBreaker(s, p, q);
      }
    }
  }

  lemma NoNewOwner(s: World, p: int, o: Oracle, s': World)
    requires Inv0(s) && Stepped(s, p, o, s') && Unowned(s)
    ensures forall r :: Live(s', r) ==> Owned(s'.procs[r].m.ctl).None?
  {
    StepFrame(s, p, o, s');
    LandKeeps(s.disk, s.procs[p].deferred, Stamp(s, o));
    assert LocalOk(s, p);
    if !RequestOf(s, p).AskRun? {
      OwnedArises(s.procs[p].cfg, s.procs[p].m, ServedAt(s, p, o).answer, Probe(o));
    }
  }

  lemma UnownedKept(s: World, p: int, o: Oracle, s': World)
    requires Inv0(s) && Stepped(s, p, o, s') && Unowned(s) && SparesLock(RequestOf(s, p), o)
    ensures Unowned(s')
  {
    SparingStep(s, p, o, s');
    NoNewOwner(s, p, o, s');
  }

  /** Reading an owned lock shows its owner, or nobody when the text has not landed. */
  lemma OwnerRead(s: World, p: int, o: Oracle, s': World, r: int, stalls: Stalls)
    requires Inv(s, stalls) && Stepped(s, p, o, s') && s.procs[p].m.ctl.JudgeText? && Possesses(s, r)
    ensures
      var read := DecodeOwner(CarriedText(s'.procs[p].m.ctl));
      read.None? || OwnsWith(s, r, read.value.nonce)
  {
    JudgeTextStep(s, p, o, s');
    LandingSparesLock(s, p, o, r);
    assert LockHeldBy(s, r);
  }

  /** A bystander's landing changes nothing at an owned lock. */
  lemma LandingSparesLock(s: World, p: int, o: Oracle, r: int)
    requires s.disk.Valid() && LockInv(s) && Possesses(s, r) && Live(s, p) && p != r
    ensures Landed(s, p, o).FileAt(Lock) == s.disk.FileAt(Lock)
  {
    LandKeeps(s.disk, s.procs[p].deferred, Stamp(s, o));
    assert LockHeldBy(s, r) && !WritesTo(s, p, s.disk.paths[Lock]);
  }

  lemma JudgeTextStep(s: World, p: int, o: Oracle, s': World)
    requires s.disk.Valid() && Stepped(s, p, o, s') && s.procs[p].m.ctl.JudgeText?
    ensures s'.procs[p].m.ctl == JudgeAge(s.procs[p].m.ctl.b, if o.fault then None else Landed(s, p, o).TextAt(Lock))
    ensures s'.disk == Landed(s, p, o) && (o.fault ==> s.fs.textFails)
  {
    StepFrame(s, p, o, s');
  }

  /** Evidence with a target names the expected owner. */
  lemma ReadIsExpected(b: Breaker, text: Option<Text>)
    requires Targets(JudgeAge(b, text))
    ensures DecodeOwner(text).Some? && Some(DecodeOwner(text).value.nonce) == b.expected
    ensures CarriedExpected(JudgeText(b)) == b.expected && CarriedText(JudgeAge(b, text)) == text
  {
  }

  lemma ExpectedIsSettled(s: World, p: int, o: Oracle, s': World, stalls: Stalls)
    requires Inv(s, stalls) && Stepped(s, p, o, s') && s.procs[p].m.ctl.JudgeText?
    requires Targets(s'.procs[p].m.ctl)
    ensures Lock in s.disk.paths
    ensures
      var read := DecodeOwner(CarriedText(s'.procs[p].m.ctl));
      read.Some? && Settled(s, read.value.nonce)
  {
    LandKeeps(s.disk, s.procs[p].deferred, Stamp(s, o));
    JudgeTextStep(s, p, o, s');
    ReadIsExpected(s.procs[p].m.ctl.b, if o.fault then None else Landed(s, p, o).TextAt(Lock));
    assert SettledOk(s, p);
  }

  lemma SettledNotOwned(s: World, r: int, n: Nonce)
    requires Settled(s, n)
    ensures !OwnsWith(s, r, n)
  {
  }

  /** A read that shows the expected owner shows that no live process owns the lock. */
  lemma ExpectedRead(s: World, p: int, o: Oracle, s': World, stalls: Stalls)
    requires Inv(s, stalls) && Stepped(s, p, o, s') && s.procs[p].m.ctl.JudgeText?
    requires Targets(s'.procs[p].m.ctl)
    ensures Unowned(s)
  {
    ExpectedIsSettled(s, p, o, s', stalls);
    forall r ensures !Possesses(s, r) {
      if Possesses(s, r) {
        SettledNotOwned(s, r, DecodeOwner(CarriedText(s'.procs[p].m.ctl)).value.nonce);
        OwnerRead(s, p, o, s', r, stalls);
      }
    }
    NobodyPossesses(s);
  }

  lemma NobodyPossesses(s: World)
    requires Lock in s.disk.paths && forall r :: !Possesses(s, r)
    ensures Unowned(s)
  {
    forall r | Live(s, r) ensures Owned(s.procs[r].m.ctl).None? { assert !Possesses(s, r); }
  }

  lemma JudgedStale(cfg: Config, m: Machine, a: Answer, alive: int -> bool)
    requires m.ctl.JudgeAge? && a.Age? && DecodeOwner(m.ctl.text).None?
    ensures
      var ctl := Resume(cfg, m, a, alive).ctl;
      && Holding(ctl) == Some(m.ctl.b)
      && (Targets(ctl) ==> a.ageMs.Some? && a.ageMs.value > cfg.limits.staleMs)
  {
  }

  /** Reading a lock's age changes nothing, and tells the age of the lock that was there. */
  lemma LockAgeRead(s: World, p: int, o: Oracle, s': World)
    requires Inv0(s) && Stepped(s, p, o, s') && s.procs[p].m.ctl.JudgeAge?
    ensures s'.disk == s.disk
    ensures
      var a := ServedAt(s, p, o).answer;
      a.Age? && (a.ageMs.Some? ==>
        && Lock in s.disk.paths
        && s.disk.FileAt(Lock).Some? && a.ageMs.value == s'.clock - s.disk.FileAt(Lock).value.mtime)
  {
    StepFrame(s, p, o, s');
    assert LocalOk(s, p);
  }

  /** Evidence with no owner in it, and yet stale, was not of a live owner's lock. */
  lemma StaleEvidence(s: World, p: int, o: Oracle, s': World, stalls: Stalls)
    requires Inv(s, stalls) && Stepped(s, p, o, s') && Timely(s', stalls)
    requires Suffices(s.limits, s.fs, stalls)
    requires s.procs[p].m.ctl.JudgeAge? && DecodeOwner(s.procs[p].m.ctl.text).None?
    requires Targets(s'.procs[p].m.ctl)
    ensures Unowned(s)
  {
    StepFrame(s, p, o, s');
    assert LocalOk(s, p);
    LockAgeRead(s, p, o, s');
    JudgedStale(s.procs[p].cfg, s.procs[p].m, ServedAt(s, p, o).answer, Probe(o));
    forall r ensures !Possesses(s, r) {
      if Possesses(s, r) {
        if MayOutlive(s, stalls) { StaleOutlivesStalls(s, p, o, s', r, stalls); }
        else { OwnedLockAge(s, p, o, s', r, stalls); }
      }
    }
    NobodyPossesses(s);
  }

  /** The age read of a lock that a live process owns is within that process's stall. */
  lemma OwnedLockAge(s: World, p: int, o: Oracle, s': World, r: int, stalls: Stalls)
    requires Inv(s, stalls) && Stepped(s, p, o, s') && LocksTimely(s', stalls)
    requires s.procs[p].m.ctl.JudgeAge? && Possesses(s, r)
    ensures
      var a := ServedAt(s, p, o).answer;
      a.Age? && (a.ageMs.Some? ==> a.ageMs.value <= stalls.ownMs)
  {
    LockAgeRead(s, p, o, s');
    OwnersWait(s, p, o, s', r);
    assert Live(s', r) && AgedAtMost(s', Lock, stalls.ownMs);
  }

  /** While one process reads an age every owner stays where it is. */
  lemma OwnersWait(s: World, p: int, o: Oracle, s': World, r: int)
    requires s.disk.Valid() && Stepped(s, p, o, s') && s.procs[p].m.ctl.JudgeAge? && Possesses(s, r)
    ensures Possesses(s', r) && r != p && s'.procs[r] == s.procs[r]
  {
    StepFrame(s, p, o, s');
  }

  /** Blank evidence of a live owner's lock is of one between its create and its text: too young to break. */
  lemma StaleOutlivesStalls(s: World, p: int, o: Oracle, s': World, r: int, stalls: Stalls)
    requires Inv(s, stalls) && Stepped(s, p, o, s') && Timely(s', stalls)
    requires MayOutlive(s, stalls) && StallsSuffice(s.limits, s.fs, stalls)
    requires s.procs[p].m.ctl.JudgeAge? && DecodeOwner(s.procs[p].m.ctl.text).None? && Possesses(s, r)
    ensures
      var a := ServedAt(s, p, o).answer;
      a.Age? && (a.ageMs.Some? ==> a.ageMs.value <= s.limits.staleMs)
  {
    assert LocalOk(s, p) && TicketHeldBy(s, p);
    LockAgeRead(s, p, o, s');
    OwnersWait(s, p, o, s', r);
    StillHoldsTicket(s, p, o, s');
    assert FreshEnough(s, s.procs[p].m.ctl.b, stalls) && Younger(s, r, s.procs[p].m.ctl.b, stalls);
    assert s.procs[r].m.ctl.Verify? ==> AgedAtMost(s', Lock, stalls.createMs);
    assert AgedAtMost(s', Ticket(s.procs[p].m.ctl.b.mine), stalls.breakMs);
  }

  lemma StillHoldsTicket(s: World, p: int, o: Oracle, s': World)
    requires s.disk.Valid() && Stepped(s, p, o, s') && s.procs[p].m.ctl.JudgeAge?
    ensures Live(s', p) && Holding(s'.procs[p].m.ctl) == Some(s.procs[p].m.ctl.b)
  {
  }

  lemma TargetsKept(s: World, p: int, o: Oracle, s': World, q: int, stalls: Stalls)
    requires Inv(s, stalls) && Stepped(s, p, o, s') && Timely(s', stalls)
    requires Suffices(s.limits, s.fs, stalls)
    requires Live(s', q) && Targets(s'.procs[q].m.ctl)
    ensures Unowned(s')
  {
    StepFrame(s, p, o, s');
    if q != p {
      assert Targets(s.procs[q].m.ctl) && Unowned(s);
      UnownedSpared(s, p, o, q, stalls);
    } else {
      TargetArises(s, p, o, s');
      var ctl := s.procs[p].m.ctl;
      if ctl.JudgeText? { ExpectedRead(s, p, o, s', stalls); }
      else if ctl.JudgeAge? && DecodeOwner(ctl.text).None? { StaleEvidence(s, p, o, s', stalls); }
      else { assert Targets(ctl) && Unowned(s); }
    }
    UnownedKept(s, p, o, s');
  }

  /** How a breaker comes to have a target. */
  lemma TargetArises(s: World, p: int, o: Oracle, s': World)
    requires s.disk.Valid() && Stepped(s, p, o, s') && Targets(s'.procs[p].m.ctl)
    ensures SparesLock(RequestOf(s, p), o)
    ensures
      var ctl := s.procs[p].m.ctl;
      ctl.JudgeText? || (ctl.JudgeAge? && DecodeOwner(ctl.text).None?) || Targets(ctl)
  {
    StepFrame(s, p, o, s');
    if !RequestOf(s, p).AskRun? {
      AimArises(s.procs[p].cfg, s.procs[p].m, ServedAt(s, p, o).answer, Probe(o));
    }
  }

  lemma AimArises(cfg: Config, m: Machine, a: Answer, alive: int -> bool)
    requires !m.ctl.Ended? && Fits(Ask(cfg, m.ctl), a) && Targets(Resume(cfg, m, a, alive).ctl)
    ensures !Touches(Ask(cfg, m.ctl), Lock)
    ensures m.ctl.JudgeText? || (m.ctl.JudgeAge? && DecodeOwner(m.ctl.text).None?) || Targets(m.ctl)
  {
  }

  // ---- unreadable evidence ----

  /** A read that shows no owner can only have met a lock between its create and its text. */
  lemma UnreadableRead(s: World, p: int, o: Oracle, s': World, stalls: Stalls)
    requires !s.fs.textFails
    requires Inv(s, stalls) && Stepped(s, p, o, s') && Timely(s', stalls)
    requires s.procs[p].m.ctl.JudgeText? && s'.procs[p].m.ctl.JudgeAge? && DecodeOwner(s'.procs[p].m.ctl.text).None?
    ensures FreshEnough(s', s'.procs[p].m.ctl.b, stalls)
  {
    JudgeTextStep(s, p, o, s');
    var b := s.procs[p].m.ctl.b;
    forall r ensures Possesses(s', r) ==> Younger(s', r, b, stalls) {
      if Possesses(s', r) { BlankIsFresh(s, p, o, s', r, stalls); }
    }
    PossessionSuffices(s', b, stalls);
  }

  lemma BlankIsFresh(s: World, p: int, o: Oracle, s': World, r: int, stalls: Stalls)
    requires Inv(s, stalls) && Stepped(s, p, o, s') && LocksTimely(s', stalls) && !s.fs.textFails
    requires s.procs[p].m.ctl.JudgeText? && DecodeOwner(CarriedText(s'.procs[p].m.ctl)).None? && Possesses(s', r)
    ensures Younger(s', r, s.procs[p].m.ctl.b, stalls)
  {
    SamePossessor(s, p, o, s', r);
    BlankIsMidCreate(s, p, o, s', r, stalls);
    TicketThere(s, p, o, s');
    assert AgedAtMost(s', Lock, stalls.createMs);
  }

  lemma SamePossessor(s: World, p: int, o: Oracle, s': World, r: int)
    requires s.disk.Valid() && Stepped(s, p, o, s') && s.procs[p].m.ctl.JudgeText? && Possesses(s', r)
    ensures r != p && Possesses(s, r) && s'.procs[r] == s.procs[r] && s'.fs == s.fs
  {
    StepFrame(s, p, o, s');
  }

  lemma TicketThere(s: World, p: int, o: Oracle, s': World)
    requires s.disk.Valid() && TicketInv(s) && Stepped(s, p, o, s') && s.procs[p].m.ctl.JudgeText?
    ensures
      var file := s'.disk.FileAt(Ticket(s.procs[p].m.ctl.b.mine));
      file.Some? && file.value.mtime <= s'.clock
  {
    StepFrame(s, p, o, s');
    LandKeeps(s.disk, s.procs[p].deferred, Stamp(s, o));
    assert TicketHeldBy(s, p);
  }

  lemma BlankIsMidCreate(s: World, p: int, o: Oracle, s': World, r: int, stalls: Stalls)
    requires Inv(s, stalls) && Stepped(s, p, o, s') && !s.fs.textFails
    requires s.procs[p].m.ctl.JudgeText? && DecodeOwner(CarriedText(s'.procs[p].m.ctl)).None? && Possesses(s, r)
    ensures s.procs[r].m.ctl.Verify? && s'.disk.FileAt(Lock).Some?
  {
    JudgeTextStep(s, p, o, s');
    LandingSparesLock(s, p, o, r);
    assert LockHeldBy(s, r);
  }

  /** A bystander's step leaves a breaker's ticket as it is. */
  lemma BystanderTicket(s: World, p: int, o: Oracle, s': World, q: int, stalls: Stalls)
    requires Inv(s, stalls) && Stepped(s, p, o, s') && q != p && Live(s, q) && s.procs[q].m.ctl.JudgeAge?
    ensures
      var path := Ticket(s.procs[q].m.ctl.b.mine);
      && s'.disk.FileAt(path) == s.disk.FileAt(path)
      && s.disk.FileAt(path).Some? && s.disk.FileAt(path).value.mtime <= s.clock
  {
    assert TicketHeldBy(s, q);
    TicketStays(s, p, o, s', q);
  }

  /** How a step changes the time of a lock that stays owned: only by its owner's landing, and only where that stamps. */
  lemma OwnedLockTime(s: World, p: int, o: Oracle, s': World, r: int, stalls: Stalls)
    requires Inv(s, stalls) && Stepped(s, p, o, s') && Possesses(s', r) && Possesses(s, r)
    ensures s.disk.FileAt(Lock).Some? && s'.disk.FileAt(Lock).Some?
    ensures
      var before, after := s.disk.FileAt(Lock).value.mtime, s'.disk.FileAt(Lock).value.mtime;
      after == before || (s.fs.stamps && p == r && s.procs[r].m.ctl.Verify? && after == s'.clock)
  {
    StepFrame(s, p, o, s');
    LandKeeps(s.disk, s.procs[p].deferred, Stamp(s, o));
    assert LockHeldBy(s, r);
    OwnershipStays(s, p, o, s', r);
    OwnedLockStays(s, p, o, s', r, stalls);
    assert p != r ==> !WritesTo(s, p, s.disk.paths[Lock]);
  }

  lemma VerifyPasses(s: World, p: int, o: Oracle, s': World, r: int)
    requires s.disk.Valid() && Stepped(s, p, o, s') && Live(s', r) && s'.procs[r].m.ctl.Verify? && Possesses(s, r)
    ensures s.procs[r].m.ctl.Verify? && r != p
  {
    StepFrame(s, p, o, s');
  }

  lemma OwnerKeepsFreshness(s: World, p: int, o: Oracle, s': World, q: int, r: int, stalls: Stalls)
    requires Inv(s, stalls) && Stepped(s, p, o, s') && q != p
    requires Live(s, q) && s.procs[q].m.ctl.JudgeAge? && FreshEnough(s, s.procs[q].m.ctl.b, stalls)
    requires Possesses(s', r) && Possesses(s, r)
    ensures Younger(s', r, s.procs[q].m.ctl.b, stalls)
  {
    StepFrame(s, p, o, s');
    BystanderTicket(s, p, o, s', q, stalls);
    OwnedLockTime(s, p, o, s', r, stalls);
    assert Younger(s, r, s.procs[q].m.ctl.b, stalls);
    assert p != r ==> s'.procs[r] == s.procs[r];
  }

  lemma NewOwnerIsFresh(s: World, p: int, o: Oracle, s': World, q: int, r: int, stalls: Stalls)
    requires Inv(s, stalls) && Stepped(s, p, o, s') && q != p
    requires Live(s, q) && s.procs[q].m.ctl.JudgeAge?
    requires Possesses(s', r) && !Possesses(s, r)
    ensures Younger(s', r, s.procs[q].m.ctl.b, stalls)
  {
    StepFrame(s, p, o, s');
    BystanderTicket(s, p, o, s', q, stalls);
    LockJustMade(s, p, o, s', r);
  }

  lemma OwnershipStays(s: World, p: int, o: Oracle, s': World, r: int)
    requires s.disk.Valid() && Stepped(s, p, o, s') && Possesses(s, r) && Possesses(s', r)
    ensures s.procs[p].m.ctl.TombRename? ==> p != r || o.fault
  {
  }

  lemma LockJustMade(s: World, p: int, o: Oracle, s': World, r: int)
    requires Inv0(s) && Stepped(s, p, o, s') && Possesses(s', r) && !Possesses(s, r)
    ensures s'.disk.FileAt(Lock).Some? && s'.disk.FileAt(Lock).value.mtime == s'.clock
  {
    StepFrame(s, p, o, s');
    LandKeeps(s.disk, s.procs[p].deferred, Stamp(s, o));
    assert LocalOk(s, p);
    OwnedArises(s.procs[p].cfg, s.procs[p].m, ServedAt(s, p, o).answer, Probe(o));
    assert s'.disk == Landed(s, p, o).Bind(Lock, s'.clock);
  }

  lemma FreshFor(s: World, p: int, o: Oracle, s': World, q: int, r: int, stalls: Stalls)
    requires Inv(s, stalls) && Stepped(s, p, o, s') && q != p
    requires Live(s, q) && s.procs[q].m.ctl.JudgeAge? && FreshEnough(s, s.procs[q].m.ctl.b, stalls)
    ensures Possesses(s', r) ==> Younger(s', r, s.procs[q].m.ctl.b, stalls)
  {
    if Possesses(s', r) {
      if Possesses(s, r) { OwnerKeepsFreshness(s, p, o, s', q, r, stalls); }
      else { NewOwnerIsFresh(s, p, o, s', q, r, stalls); }
    }
  }

  lemma FreshnessKeptForOther(s: World, p: int, o: Oracle, s': World, q: int, stalls: Stalls)
    requires Inv(s, stalls) && Stepped(s, p, o, s') && q != p
    requires Live(s, q) && s.procs[q].m.ctl.JudgeAge? && FreshEnough(s, s.procs[q].m.ctl.b, stalls)
    ensures FreshEnough(s', s.procs[q].m.ctl.b, stalls)
  {
    var b := s.procs[q].m.ctl.b;
    forall r ensures Possesses(s', r) ==> Younger(s', r, b, stalls) {
      FreshFor(s, p, o, s', q, r, stalls);
    }
    PossessionSuffices(s', b, stalls);
  }

  lemma PossessionSuffices(s: World, b: Breaker, stalls: Stalls)
    requires forall r :: Possesses(s, r) ==> Younger(s, r, b, stalls)
    ensures FreshEnough(s, b, stalls)
  {
    forall r | Live(s, r) && Owned(s.procs[r].m.ctl).Some? ensures Younger(s, r, b, stalls) {
      assert Possesses(s, r);
    }
  }

  lemma FreshnessKept(s: World, p: int, o: Oracle, s': World, q: int, stalls: Stalls)
    requires !s.fs.textFails && MayOutlive(s, stalls)
    requires Inv(s, stalls) && Stepped(s, p, o, s') && Timely(s', stalls)
    requires Live(s', q) && s'.procs[q].m.ctl.JudgeAge? && DecodeOwner(s'.procs[q].m.ctl.text).None?
    ensures FreshEnough(s', s'.procs[q].m.ctl.b, stalls)
  {
    if q == p {
      JudgeAgeArises(s, p, o, s');
      UnreadableRead(s, p, o, s', stalls);
    } else {
      StepFrame(s, p, o, s');
      FreshnessKeptForOther(s, p, o, s', q, stalls);
    }
  }

  lemma JudgeAgeArises(s: World, p: int, o: Oracle, s': World)
    requires s.disk.Valid() && Stepped(s, p, o, s') && s'.procs[p].m.ctl.JudgeAge?
    ensures s.procs[p].m.ctl.JudgeText?
  {
    StepFrame(s, p, o, s');
  }

  lemma JudgeKept(s: World, p: int, o: Oracle, s': World, stalls: Stalls)
    requires Inv(s, stalls) && Stepped(s, p, o, s') && Timely(s', stalls)
    requires Suffices(s.limits, s.fs, stalls)
    ensures JudgeInv(s', stalls)
  {
    StepFrame(s, p, o, s');
    forall q | Live(s', q) ensures
        var ctl := s'.procs[q].m.ctl;
        && (Targets(ctl) ==> Unowned(s'))
        && (MayOutlive(s', stalls) && ctl.JudgeAge? && DecodeOwner(ctl.text).None? ==> FreshEnough(s', ctl.b, stalls))
    {
      var ctl := s'.procs[q].m.ctl;
      if Targets(ctl) { TargetsKept(s, p, o, s', q, stalls); }
      if MayOutlive(s', stalls) && ctl.JudgeAge? && DecodeOwner(ctl.text).None? { FreshnessKept(s, p, o, s', q, stalls); }
    }
  }

  // ---- the whole invariant, over every kind of step ----

  lemma TicketsKept(s: World, p: int, o: Oracle, s': World, breakMs: nat)
    requires TicketsInv(s) && Stepped(s, p, o, s') && TicketsTimely(s', breakMs)
    requires TicketsSuffice(s.limits, s.fs, breakMs)
    ensures TicketsInv(s')
  {
    StepFrame(s, p, o, s');
    LocalKept(s, p, o, s');
    NonceKept(s, p, o, s');
    TicketKept(s, p, o, s');
    ScanKept(s, p, o, s', breakMs);
    ExclusionKept(s, p, o, s', breakMs);
  }

  lemma StepKept(s: World, p: int, o: Oracle, s': World, stalls: Stalls)
    requires Inv(s, stalls) && Stepped(s, p, o, s') && Timely(s', stalls)
    requires Suffices(s.limits, s.fs, stalls)
    ensures Inv(s', stalls)
  {
    StepFrame(s, p, o, s');
    TicketsKept(s, p, o, s', stalls.breakMs);
    SettledKept(s, p, o, s', stalls);
    LockKept(s, p, o, s', stalls);
    JudgeKept(s, p, o, s', stalls);
  }

  // ---- crashes ----

  lemma CrashFrame(s: World, p: int)
    requires Live(s, p)
    ensures
      var s' := Apply(s, Crash(p));
      forall q :: Live(s', q) ==> q != p && Live(s, q) && s'.procs[q] == s.procs[q]
  {
  }

  lemma CrashKeepsNonces(s: World, p: int)
    requires Inv0(s) && Live(s, p)
    ensures Inv0(Apply(s, Crash(p)))
  {
    var s' := Apply(s, Crash(p));
    CrashFrame(s, p);
    forall q | Live(s', q) ensures LocalOk(s', q) { assert LocalOk(s, q); }
  }

  lemma CrashKeepsTickets(s: World, p: int)
    requires TicketsInv(s) && Live(s, p)
    ensures TicketsInv(Apply(s, Crash(p)))
  {
    var s' := Apply(s, Crash(p));
    CrashFrame(s, p);
    CrashKeepsNonces(s, p);
    forall q | Live(s', q) && Holding(s'.procs[q].m.ctl).Some? ensures TicketHeldBy(s', q) {
      assert TicketHeldBy(s, q);
      var id := s.disk.paths[Ticket(Holding(s.procs[q].m.ctl).value.mine)];
      forall r | r != q ensures !WritesTo(s', r, id) { assert !WritesTo(s, r, id); }
    }
    forall h, q | Live(s', q) && HoldsTicket(s', h, UnderScan(s'.procs[q].m.ctl))
      ensures ScanSpares(s', h, q)
    {
      assert HoldsTicket(s, h, UnderScan(s.procs[q].m.ctl));
    }
    forall h, q | h != q && Listed(s', h) && Listed(s', q) ensures Sees(s', q, h) || Sees(s', h, q) {
      assert Listed(s, h) && Listed(s, q);
    }
  }

  /** A crash only takes a process away: everything the others rely on stays. */
  lemma CrashKept(s: World, p: int, stalls: Stalls)
    requires Inv(s, stalls) && Live(s, p)
    ensures Inv(Apply(s, Crash(p)), stalls)
  {
    var s' := Apply(s, Crash(p));
    CrashFrame(s, p);
    CrashKeepsTickets(s, p);
    forall n | Settled(s, n) ensures Settled(s', n) {
      forall q | 0 <= q < |s'.procs| ensures !OwnsWith(s', q, n) { assert !OwnsWith(s, q, n); }
    }
    forall q | Live(s', q) ensures SettledOk(s', q) { assert SettledOk(s, q); }
    forall q | Live(s', q) && Owned(s'.procs[q].m.ctl).Some? ensures LockHeldBy(s', q) {
      assert LockHeldBy(s, q);
      forall r | r != q ensures !WritesTo(s', r, s.disk.paths[Lock]) { assert !WritesTo(s, r, s.disk.paths[Lock]); }
    }
  }
}

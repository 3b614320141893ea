/**
 * Every step of the protocol keeps the invariant. A step is seen in three
 * parts: the control point alone (what `Resume` does to it, whatever the
 * answer), the disk alone (what `Serve` does to it, whatever the process), and
 * the frame (`StepFrame`: nothing else changes). Lemmas named `...Arises` say
 * how a control point comes to carry something; lemmas named `...Kept` put the
 * three parts together for one conjunct of the invariant. The conjuncts here
 * need no timing limit except where an owner is judged: that nonces are drawn
 * once, that every record names the process that drew its nonce, that pending
 * text is for a file that exists, and that an owner judged breakable is dead
 * or over age.
 */
module RunOnceSafety {
  import opened Wrappers
  import opened RunOnceMachine
  import opened RunOnceWorld
  import opened RunOnceFiles
  import opened RunOnceInvariant

  // ---- control flow alone ----

  lemma OwnedArises(cfg: Config, m: Machine, a: Answer, alive: int -> bool)
    requires !m.ctl.Ended? && Fits(Ask(cfg, m.ctl), a)
    requires m.ctl.TombRemove? ==> m.ctl.verdict != Stuck
    ensures
      var ctl := Resume(cfg, m, a, alive).ctl;
      Owned(ctl).Some? ==> Owned(m.ctl) == Owned(ctl) || (m.ctl.CreateLock? && ctl == Verify(m.ctl.own) && a == CreateAnswer(CreatedNew))
  {
  }

  lemma HoldingArises(cfg: Config, m: Machine, a: Answer, alive: int -> bool)
    requires !m.ctl.Ended? && Fits(Ask(cfg, m.ctl), a)
    ensures
      var ctl := Resume(cfg, m, a, alive).ctl;
      Holding(ctl).Some? ==> Holding(m.ctl) == Holding(ctl) || (m.ctl.CreateTicket? && ctl == ListTickets(m.ctl.b) && a == CreateAnswer(CreatedNew))
  {
  }

  lemma RenamesToTombs(cfg: Config, ctl: Control)
    requires !ctl.Ended? && Ask(cfg, ctl).AskRename?
    ensures Ask(cfg, ctl).to.Tomb? || Ask(cfg, ctl).to.OldTomb?
  {
  }

  lemma TicketTouchers(cfg: Config, ctl: Control, n: Nonce)
    requires !ctl.Ended? && Touches(Ask(cfg, ctl), Ticket(n))
    ensures
      || (ctl.CreateTicket? && ctl.b.mine == n)
      || (ctl.ScanRemove? && ctl.ticket == Ticket(n))
      || ((ctl.Withdraw? || ctl.DropTicket?) && ctl.b.mine == n)
  {
  }

  lemma LockArises(cfg: Config, m: Machine, a: Answer, alive: int -> bool)
    requires !m.ctl.Ended? && Fits(Ask(cfg, m.ctl), a)
    ensures
      var lock := CarriedLock(Resume(cfg, m, a, alive).ctl);
      || lock.Absent? || lock == CarriedLock(m.ctl)
      || (m.ctl.ObserveAge? && lock.owner == DecodeOwner(m.ctl.text))
  {
  }

  /** A text on its way to a file is the one its create or write carried. */
  lemma DeferralArises(d: Disk, clock: int, nonce: Nonce, request: Request, o: Oracle)
    requires !request.AskRun?
    ensures
      var deferred := Serve(d, clock, nonce, request, o).deferred;
      deferred.Some? ==>
        (request.AskCreateExclusive? || request.AskWriteText?) && deferred.value.text == request.text
  {
  }

  // ---- one step, seen from outside ----

  ghost predicate Stepped(s: World, p: int, o: Oracle, s': World) {
    Enabled(s, Step(p, o)) && s' == Apply(s, Step(p, o))
  }

  function RequestOf(s: World, p: int): Request
    requires Live(s, p)
  {
    Ask(s.procs[p].cfg, s.procs[p].m.ctl)
  }

  function Landed(s: World, p: int, o: Oracle): Disk
    requires Live(s, p)
  {
    s.disk.Land(s.procs[p].deferred, Stamp(s, o))
  }

  function ServedAt(s: World, p: int, o: Oracle): Served
    requires Live(s, p) && !RequestOf(s, p).AskRun?
  {
    Serve(Landed(s, p, o), s.clock + o.dt, Issued(p, s.serial), RequestOf(s, p), o)
  }

  ghost predicate Frame(s: World, p: int, s': World) {
    && 0 <= p < |s.procs| == |s'.procs|
    && (forall q :: 0 <= q < |s.procs| && q != p ==> s'.procs[q] == s.procs[q])
    && s'.procs[p].cfg == s.procs[p].cfg
    && s'.limits == s.limits && s'.fs == s.fs && s'.host == s.host && s.clock <= s'.clock
    && s.posted <= s'.posted && s.serial <= s'.serial
    && s.disk.inodes.Keys <= s'.disk.inodes.Keys && s.disk.nextInode <= s'.disk.nextInode
    && s'.disk.Valid()
  }

  lemma StepFrame(s: World, p: int, o: Oracle, s': World)
    requires s.disk.Valid() && Stepped(s, p, o, s')
    ensures Frame(s, p, s')
    ensures s'.clock == s.clock + o.dt
    ensures RequestOf(s, p).AskRun? ==>
              && s'.disk == Landed(s, p, o) && s'.posted == s.posted && s'.serial == s.serial
              && s'.procs[p].m == s.procs[p].m && s'.procs[p].deferred == None
    ensures !RequestOf(s, p).AskRun? ==>
              && s'.disk == ServedAt(s, p, o).disk && s'.procs[p].deferred == ServedAt(s, p, o).deferred
              && s'.procs[p].m == Resume(s.procs[p].cfg, s.procs[p].m, ServedAt(s, p, o).answer, Probe(o))
              && s'.posted == s.posted + Carried(RequestOf(s, p))
              && s'.serial == s.serial + (if RequestOf(s, p).AskNonce? then 1 else 0)
  {
    LandKeeps(s.disk, s.procs[p].deferred, Stamp(s, o));
    if !RequestOf(s, p).AskRun? {
      ServeKeepsValid(Landed(s, p, o), s.clock + o.dt, Issued(p, s.serial), RequestOf(s, p), o);
    }
  }

  /** A process that comes to own a lock does so under a nonce no create had carried. */
  lemma NewOwner(s: World, p: int, o: Oracle, s': World)
    requires Inv0(s) && Stepped(s, p, o, s')
    ensures forall q, n :: OwnsWith(s', q, n) && !OwnsWith(s, q, n) ==> q == p && n.Issued? && n !in s.posted
  {
    StepFrame(s, p, o, s');
    if !RequestOf(s, p).AskRun? {
      assert LocalOk(s, p);
      OwnedArises(s.procs[p].cfg, s.procs[p].m, ServedAt(s, p, o).answer, Probe(o));
    }
  }

  lemma SettledStays(s: World, p: int, o: Oracle, s': World, n: Nonce)
    requires Inv0(s) && Stepped(s, p, o, s') && Settled(s, n)
    ensures Settled(s', n)
  {
    StepFrame(s, p, o, s');
    NewOwner(s, p, o, s');
    forall q | 0 <= q < |s'.procs| ensures !OwnsWith(s', q, n) {
      assert !OwnsWith(s, q, n);
    }
  }

  lemma LocalKeptForOthers(s: World, p: int, o: Oracle, s': World, q: int)
    requires Inv0(s) && Stepped(s, p, o, s') && q != p && Live(s', q)
    ensures LocalOk(s', q)
  {
    StepFrame(s, p, o, s');
    var ctl := s.procs[q].m.ctl;
    assert Live(s, q) && LocalOk(s, q);
    if ctl.CreateLock? { PendingStays(s, p, o, s', q, ctl.own.nonce); }
    if ctl.TicketNow? || ctl.CreateTicket? { PendingStays(s, p, o, s', q, ctl.b.mine); }
  }

  lemma PendingStays(s: World, p: int, o: Oracle, s': World, q: int, n: Nonce)
    requires Inv0(s) && Stepped(s, p, o, s') && q != p && Pending(s, q, n)
    ensures Pending(s', q, n)
  {
    StepFrame(s, p, o, s');
    assert LocalOk(s, p);
  }

  // ---- texts stay genuine ----

  lemma LandedGenuine(s: World, p: int, o: Oracle)
    requires Inv0(s) && Live(s, p)
    ensures forall id :: id in Landed(s, p, o).inodes ==> GenuineText(s, Some(Landed(s, p, o).inodes[id].text))
  {
    LandKeeps(s.disk, s.procs[p].deferred, Stamp(s, o));
  }

  /** What a create or write carries is genuine once the create has carried it. */
  lemma CarriedGenuine(s: World, p: int, s': World)
    requires Inv0(s) && Live(s, p) && Frame(s, p, s')
    requires s'.posted == s.posted + Carried(RequestOf(s, p))
    ensures RequestOf(s, p).AskCreateExclusive? ==> GenuineText(s', Some(RequestOf(s, p).text))
    ensures RequestOf(s, p).AskWriteText? ==> GenuineText(s', Some(RequestOf(s, p).text))
    ensures forall n :: n in Carried(RequestOf(s, p)) ==> n.Foreign? || n.serial < s.serial
  {
    assert LocalOk(s, p);
  }

  /** A step binds a ticket path only by creating it, under the nonce its text carries. */
  lemma NewTicketPath(s: World, p: int, o: Oracle, s': World, path: Path)
    requires Inv0(s) && Stepped(s, p, o, s')
    requires path in s'.disk.paths && path !in s.disk.paths && path.Ticket?
    ensures path.nonce in s'.posted
  {
    NewPathTouched(s, p, o, s', path);
    TicketTouchers(s.procs[p].cfg, s.procs[p].m.ctl, path.nonce);
    StepFrame(s, p, o, s');
  }

  lemma NewPathTouched(s: World, p: int, o: Oracle, s': World, path: Path)
    requires s.disk.Valid() && Stepped(s, p, o, s') && path in s'.disk.paths && path !in s.disk.paths
    ensures !RequestOf(s, p).AskRun? && Touches(RequestOf(s, p), path) && !RequestOf(s, p).AskRemove?
  {
    StepFrame(s, p, o, s');
    LandKeeps(s.disk, s.procs[p].deferred, Stamp(s, o));
    BindsOrRenames(Landed(s, p, o), s'.clock, Issued(p, s.serial), RequestOf(s, p), o, path);
  }

  lemma BindsOrRenames(d: Disk, clock: int, nonce: Nonce, request: Request, o: Oracle, path: Path)
    requires !request.AskRun? && path !in d.paths && path in Serve(d, clock, nonce, request, o).disk.paths
    ensures Touches(request, path) && !request.AskRemove?
  {
  }

  /** After a step, every inode holds what it held once the stepper's own write landed, or is blank. */
  lemma StepTexts(s: World, p: int, o: Oracle, s': World, id: nat)
    requires s.disk.Valid() && Stepped(s, p, o, s') && id in s'.disk.inodes
    ensures
      || (id in Landed(s, p, o).inodes && s'.disk.inodes[id] == Landed(s, p, o).inodes[id])
      || s'.disk.inodes[id] == Inode(Garbled(""), s'.clock)
  {
    StepFrame(s, p, o, s');
    LandKeeps(s.disk, s.procs[p].deferred, Stamp(s, o));
    if !RequestOf(s, p).AskRun? {
      ServeKeepsValid(Landed(s, p, o), s'.clock, Issued(p, s.serial), RequestOf(s, p), o);
    }
  }

  lemma GenuineStays(s: World, s': World, text: Option<Text>)
    requires s.posted <= s'.posted && s.host == s'.host && GenuineText(s, text)
    ensures GenuineText(s', text)
  {
  }

  lemma TextsKept(s: World, p: int, o: Oracle, s': World, id: nat)
    requires Inv0(s) && Stepped(s, p, o, s') && id in s'.disk.inodes
    ensures GenuineText(s', Some(s'.disk.inodes[id].text))
  {
    StepFrame(s, p, o, s');
    StepTexts(s, p, o, s', id);
    LandedGenuine(s, p, o);
    if id in Landed(s, p, o).inodes {
      GenuineStays(s, s', Some(Landed(s, p, o).inodes[id].text));
    }
  }

  lemma DeferredKept(s: World, p: int, o: Oracle, s': World, q: int)
    requires Inv0(s) && Stepped(s, p, o, s') && Live(s', q) && s'.procs[q].deferred.Some?
    ensures GenuineText(s', Some(s'.procs[q].deferred.value.text)) && s'.procs[q].deferred.value.id in s'.disk.inodes
  {
    StepFrame(s, p, o, s');
    LandKeeps(s.disk, s.procs[p].deferred, Stamp(s, o));
    if q == p {
      CarriedGenuine(s, p, s');
      DeferralArises(Landed(s, p, o), s'.clock, Issued(p, s.serial), RequestOf(s, p), o);
      ServeKeepsValid(Landed(s, p, o), s'.clock, Issued(p, s.serial), RequestOf(s, p), o);
    } else {
      assert Live(s, q);
    }
  }

  lemma NonceKept(s: World, p: int, o: Oracle, s': World)
    requires Inv0(s) && Stepped(s, p, o, s')
    ensures NonceInv(s')
  {
    StepFrame(s, p, o, s');
    if !RequestOf(s, p).AskRun? { CarriedGenuine(s, p, s'); }
    forall id | id in s'.disk.inodes ensures GenuineText(s', Some(s'.disk.inodes[id].text)) {
      TextsKept(s, p, o, s', id);
    }
    forall path | path in s'.disk.paths && path.Ticket? ensures Public(s', path.nonce) {
      if path !in s.disk.paths { NewTicketPath(s, p, o, s', path); }
    }
    forall q | Live(s', q) && s'.procs[q].deferred.Some?
      ensures GenuineText(s', Some(s'.procs[q].deferred.value.text))
           && s'.procs[q].deferred.value.id in s'.disk.inodes
    {
      DeferredKept(s, p, o, s', q);
    }
  }

  // ---- the stepping process's own control point ----

  function CtlAfter(s: World, p: int, o: Oracle): Control
    requires Live(s, p) && !RequestOf(s, p).AskRun?
  {
    Resume(s.procs[p].cfg, s.procs[p].m, ServedAt(s, p, o).answer, Probe(o)).ctl
  }

  /** Whatever text a step leaves in the machine's hands was already there, or was just read from a file. */
  lemma CarriedTextArises(s: World, p: int, o: Oracle)
    requires Live(s, p) && !RequestOf(s, p).AskRun?
    ensures
      var text := CarriedText(CtlAfter(s, p, o));
      || text.None? || text == CarriedText(s.procs[p].m.ctl)
      || (RequestOf(s, p).AskReadText? && !o.fault && text == Landed(s, p, o).TextAt(RequestOf(s, p).path))
  {
  }

  lemma SelfText(s: World, p: int, o: Oracle, s': World)
    requires Inv0(s) && Stepped(s, p, o, s') && !RequestOf(s, p).AskRun?
    ensures GenuineText(s', CarriedText(CtlAfter(s, p, o)))
  {
    StepFrame(s, p, o, s');
    LandedGenuine(s, p, o);
    CarriedTextArises(s, p, o);
    assert LocalOk(s, p);
    GenuineStays(s, s', CarriedText(s.procs[p].m.ctl));
    if RequestOf(s, p).AskReadText? && !o.fault {
      GenuineStays(s, s', Landed(s, p, o).TextAt(RequestOf(s, p).path));
    }
  }

  /** The age a poll reads is that of the lock as it is now. */
  lemma PolledAge(s: World, p: int, o: Oracle, s': World)
    requires s.disk.Valid() && Stepped(s, p, o, s') && s.procs[p].m.ctl.ObserveAge?
    ensures
      var a := ServedAt(s, p, o).answer;
      a.Age? && (a.ageMs.Some? ==>
        s'.disk.FileAt(Lock).Some? && a.ageMs.value == s'.clock - s'.disk.FileAt(Lock).value.mtime)
  {
    StepFrame(s, p, o, s');
  }

  /** A live owner's lock is not breakable to any observer that read its record. */
  lemma LiveOwnerNotBreakable(s: World, p: int, o: Oracle, s': World, stalls: Stalls, q: int)
    requires Inv0(s) && LockInv(s) && Stepped(s, p, o, s') && LocksTimely(s', stalls)
    requires stalls.ownMs <= s.limits.staleMs + s.limits.waitTimeoutMs
    requires s.procs[p].m.ctl.ObserveAge? && DecodeOwner(s.procs[p].m.ctl.text).Some?
    requires OwnsWith(s, q, DecodeOwner(s.procs[p].m.ctl.text).value.nonce)
    ensures !Breakable(CarriedLock(CtlAfter(s, p, o)), s.limits)
  {
    StepFrame(s, p, o, s');
    PolledAge(s, p, o, s');
    var owner := DecodeOwner(s.procs[p].m.ctl.text).value;
    assert LocalOk(s, p) && LocalOk(s, q);
    assert owner.pid == q && q !in o.dead;
    assert Live(s', q) && AgedAtMost(s', Lock, stalls.ownMs);
  }

  /** The owner of a lock found breakable is not a live owner. */
  lemma ObservedSettled(s: World, p: int, o: Oracle, s': World, stalls: Stalls)
    requires Inv0(s) && LockInv(s) && Stepped(s, p, o, s') && LocksTimely(s', stalls)
    requires stalls.ownMs <= s.limits.staleMs + s.limits.waitTimeoutMs
    requires s.procs[p].m.ctl.ObserveAge? && DecodeOwner(s.procs[p].m.ctl.text).Some?
    requires Breakable(CarriedLock(CtlAfter(s, p, o)), s.limits)
    ensures Settled(s, DecodeOwner(s.procs[p].m.ctl.text).value.nonce)
  {
    assert LocalOk(s, p);
    var owner := DecodeOwner(s.procs[p].m.ctl.text).value;
    forall q | 0 <= q < |s.procs| ensures !OwnsWith(s, q, owner.nonce) {
      if OwnsWith(s, q, owner.nonce) {
        LiveOwnerNotBreakable(s, p, o, s', stalls, q);
      }
    }
  }

  lemma SelfLock(s: World, p: int, o: Oracle, s': World)
    requires Inv0(s) && Stepped(s, p, o, s') && !RequestOf(s, p).AskRun?
    ensures
      var lock := CarriedLock(CtlAfter(s, p, o));
      lock.Held? && lock.owner.Some? ==> Genuine(s', lock.owner.value)
  {
    StepFrame(s, p, o, s');
    assert LocalOk(s, p);
    var ctl := s.procs[p].m.ctl;
    var lock := CarriedLock(CtlAfter(s, p, o));
    LockArises(s.procs[p].cfg, s.procs[p].m, ServedAt(s, p, o).answer, Probe(o));
    if lock.Held? && lock.owner.Some? && ctl.ObserveAge? { GenuineStays(s, s', ctl.text); }
  }

  lemma PendingArises(cfg: Config, m: Machine, a: Answer, alive: int -> bool)
    requires !m.ctl.Ended? && Fits(Ask(cfg, m.ctl), a)
    ensures
      var ctl := Resume(cfg, m, a, alive).ctl;
      && (ctl.CreateLock? ==> m.ctl.LockNonce? && ctl.own == Owner(cfg.pid, cfg.host, a.nonce, m.ctl.startedAt))
      && (ctl.TicketNow? ==> m.ctl.TicketNonce? && ctl.b.mine == a.nonce)
      && (ctl.CreateTicket? ==> m.ctl.TicketNow? && ctl.b == m.ctl.b)
      && (ctl.TombRemove? ==> ctl.verdict != Stuck)
  {
  }

  function SweptFor(ctl: Control): Option<Nonce> {
    match ctl
    case SweepList(after) => if after.ToBreak? then after.expected else None
    case SweepNow(after, _) => if after.ToBreak? then after.expected else None
    case SweepRemove(after, _, _) => if after.ToBreak? then after.expected else None
    case TicketNonce(expected) => expected
    case _ => None
  }

  lemma SweepArises(cfg: Config, m: Machine, a: Answer, alive: int -> bool)
    requires !m.ctl.Ended? && Fits(Ask(cfg, m.ctl), a)
    ensures
      var expected := SweptFor(Resume(cfg, m, a, alive).ctl);
      expected.Some? ==>
        || expected == SweptFor(m.ctl)
        || (m.ctl.PollNow? && Breakable(m.ctl.lock, cfg.limits) && expected == NonceOf(m.ctl.lock.owner))
  {
  }

  /** The nonce a takeover means to break was already the one meant, or is that of a breakable lock just polled. */
  lemma ExpectedArises(cfg: Config, m: Machine, a: Answer, alive: int -> bool)
    requires !m.ctl.Ended? && Fits(Ask(cfg, m.ctl), a)
    ensures
      var expected := CarriedExpected(Resume(cfg, m, a, alive).ctl);
      expected.Some? ==>
        || expected == CarriedExpected(m.ctl)
        || (m.ctl.PollNow? && Breakable(m.ctl.lock, cfg.limits) && expected == NonceOf(m.ctl.lock.owner))
  {
    var ctl' := Resume(cfg, m, a, alive).ctl;
    if Holding(ctl').Some? {
      HoldingArises(cfg, m, a, alive);
    } else if ctl'.TicketNow? || ctl'.CreateTicket? {
      PendingArises(cfg, m, a, alive);
      assert m.ctl.TicketNonce? || m.ctl.TicketNow?;
    } else {
      SweepArises(cfg, m, a, alive);
    }
  }

  lemma SelfExpected(s: World, p: int, o: Oracle, s': World)
    requires Inv0(s) && Stepped(s, p, o, s') && !RequestOf(s, p).AskRun?
    ensures CarriedExpected(CtlAfter(s, p, o)).Some? ==> Public(s', CarriedExpected(CtlAfter(s, p, o)).value)
  {
    StepFrame(s, p, o, s');
    ExpectedArises(s.procs[p].cfg, s.procs[p].m, ServedAt(s, p, o).answer, Probe(o));
    assert LocalOk(s, p);
  }

  lemma SelfNonces(s: World, p: int, o: Oracle, s': World)
    requires Inv0(s) && Stepped(s, p, o, s') && !RequestOf(s, p).AskRun?
    ensures
      var ctl := CtlAfter(s, p, o);
      && (ctl.CreateLock? ==> Pending(s', p, ctl.own.nonce) && ctl.own.pid == p && ctl.own.host == s'.host)
      && (ctl.TicketNow? || ctl.CreateTicket? ==> Pending(s', p, ctl.b.mine))
      && (ctl.TombRemove? ==> ctl.verdict != Stuck)
      && (ctl.JudgeAge? ==> s'.procs[p].deferred.None?)
  {
    StepFrame(s, p, o, s');
    assert LocalOk(s, p);
    PendingArises(s.procs[p].cfg, s.procs[p].m, ServedAt(s, p, o).answer, Probe(o));
  }

  lemma SelfOwned(s: World, p: int, o: Oracle, s': World)
    requires Inv0(s) && Stepped(s, p, o, s') && !RequestOf(s, p).AskRun?
    ensures
      var ctl := CtlAfter(s, p, o);
      && (Owned(ctl).Some? ==>
            && MineAndPosted(s', p, Owned(ctl).value.nonce)
            && Owned(ctl).value.pid == p && Owned(ctl).value.host == s'.host)
      && (Holding(ctl).Some? ==> MineAndPosted(s', p, Holding(ctl).value.mine))
  {
    StepFrame(s, p, o, s');
    assert LocalOk(s, p);
    OwnedArises(s.procs[p].cfg, s.procs[p].m, ServedAt(s, p, o).answer, Probe(o));
    HoldingArises(s.procs[p].cfg, s.procs[p].m, ServedAt(s, p, o).answer, Probe(o));
  }

  lemma ScanArises(cfg: Config, m: Machine, a: Answer, alive: int -> bool)
    requires !m.ctl.Ended? && Fits(Ask(cfg, m.ctl), a)
    ensures
      var ctl := Resume(cfg, m, a, alive).ctl;
      && (forall t :: t in ToScan(ctl) ==>
            t in ToScan(m.ctl) || (m.ctl.ListTickets? && a.names.Some? && t in a.names.value))
      && (ctl.ScanRemove? ==> m.ctl.ScanAge? && ctl.ticket == m.ctl.ticket)
      && (ctl.ScanAge? ==> m.ctl.ScanText? && ctl.ticket == m.ctl.ticket)
  {
  }

  /** A scan works through the listing it took, and nothing else. */
  lemma ToScanArises(s: World, p: int, o: Oracle)
    requires Live(s, p) && !RequestOf(s, p).AskRun?
    ensures
      var ctl, ctl' := s.procs[p].m.ctl, CtlAfter(s, p, o);
      && (forall t :: t in ToScan(ctl') ==> t in ToScan(ctl) || (ctl.ListTickets? && !o.fault && t in o.listing))
      && (ctl'.ScanRemove? ==> ctl.ScanAge? && ctl'.ticket == ctl.ticket)
      && (ctl'.ScanAge? ==> ctl.ScanText? && ctl'.ticket == ctl.ticket)
  {
    ScanArises(s.procs[p].cfg, s.procs[p].m, ServedAt(s, p, o).answer, Probe(o));
  }

  lemma SelfScan(s: World, p: int, o: Oracle, s': World)
    requires Inv0(s) && Stepped(s, p, o, s') && !RequestOf(s, p).AskRun?
    ensures
      var ctl := CtlAfter(s, p, o);
      && (forall t :: t in ToScan(ctl) && t.Ticket? ==> Public(s', t.nonce))
      && (ctl.ScanRemove? && ctl.ticket.Ticket? ==> Public(s', ctl.ticket.nonce))
  {
    StepFrame(s, p, o, s');
    assert LocalOk(s, p);
    ToScanArises(s, p, o);
    if CtlAfter(s, p, o).ScanRemove? { assert s.procs[p].m.ctl.ticket in ToScan(s.procs[p].m.ctl); }
  }

  lemma LocalKept(s: World, p: int, o: Oracle, s': World)
    requires Inv0(s) && Stepped(s, p, o, s')
    ensures LocalInv(s')
  {
    StepFrame(s, p, o, s');
    assert LocalOk(s, p);
    if RequestOf(s, p).AskRun? {
      forall q | Live(s', q) ensures LocalOk(s', q) {
        if q != p { LocalKeptForOthers(s, p, o, s', q); }
      }
    } else {
      SelfText(s, p, o, s');
      SelfLock(s, p, o, s');
      SelfExpected(s, p, o, s');
      SelfNonces(s, p, o, s');
      SelfOwned(s, p, o, s');
      SelfScan(s, p, o, s');
      forall q | Live(s', q) ensures LocalOk(s', q) {
        if q != p { LocalKeptForOthers(s, p, o, s', q); }
      }
    }
  }

  lemma SettledKeptFor(s: World, p: int, o: Oracle, s': World, q: int)
    requires Inv0(s) && SettledInv(s) && Stepped(s, p, o, s') && Live(s', q)
    requires s'.procs[q].m.ctl == s.procs[q].m.ctl
    ensures SettledOk(s', q)
  {
    StepFrame(s, p, o, s');
    var ctl := s.procs[q].m.ctl;
    assert Live(s, q) && SettledOk(s, q);
    if CarriedExpected(ctl).Some? { SettledStays(s, p, o, s', CarriedExpected(ctl).value); }
    if CarriedLock(ctl).Held? && CarriedLock(ctl).owner.Some? && Breakable(CarriedLock(ctl), s.limits) {
      SettledStays(s, p, o, s', CarriedLock(ctl).owner.value.nonce);
    }
  }

  lemma SelfSettledLock(s: World, p: int, o: Oracle, s': World, stalls: Stalls)
    requires Inv0(s) && SettledInv(s) && LockInv(s) && Stepped(s, p, o, s') && LocksTimely(s', stalls)
    requires stalls.ownMs <= s.limits.staleMs + s.limits.waitTimeoutMs
    requires !RequestOf(s, p).AskRun?
    ensures
      var lock := CarriedLock(CtlAfter(s, p, o));
      lock.Held? && lock.owner.Some? && Breakable(lock, s'.limits) ==> Settled(s', lock.owner.value.nonce)
  {
    StepFrame(s, p, o, s');
    assert LocalOk(s, p) && SettledOk(s, p);
    var ctl := s.procs[p].m.ctl;
    var lock := CarriedLock(CtlAfter(s, p, o));
    if lock.Held? && lock.owner.Some? && Breakable(lock, s.limits) {
      LockArises(s.procs[p].cfg, s.procs[p].m, ServedAt(s, p, o).answer, Probe(o));
      if ctl.ObserveAge? { ObservedSettled(s, p, o, s', stalls); }
      SettledStays(s, p, o, s', lock.owner.value.nonce);
    }
  }

  lemma SelfSettledExpected(s: World, p: int, o: Oracle, s': World)
    requires Inv0(s) && SettledInv(s) && Stepped(s, p, o, s') && !RequestOf(s, p).AskRun?
    ensures SettledIfAny(s', CarriedExpected(CtlAfter(s, p, o)))
  {
    ExpectedArises(s.procs[p].cfg, s.procs[p].m, ServedAt(s, p, o).answer, Probe(o));
    assert LocalOk(s, p) && SettledOk(s, p);
    var expected := CarriedExpected(CtlAfter(s, p, o));
    if expected.Some? { SettledStays(s, p, o, s', expected.value); }
  }

  lemma SettledKept(s: World, p: int, o: Oracle, s': World, stalls: Stalls)
    requires Inv0(s) && SettledInv(s) && LockInv(s) && Stepped(s, p, o, s') && LocksTimely(s', stalls)
    requires stalls.ownMs <= s.limits.staleMs + s.limits.waitTimeoutMs
    ensures SettledInv(s')
  {
    StepFrame(s, p, o, s');
    if !RequestOf(s, p).AskRun? {
      SelfSettledLock(s, p, o, s', stalls);
      SelfSettledExpected(s, p, o, s');
    }
    forall q | Live(s', q) ensures SettledOk(s', q) {
      if q != p || RequestOf(s, p).AskRun? { SettledKeptFor(s, p, o, s', q); }
    }
  }
}

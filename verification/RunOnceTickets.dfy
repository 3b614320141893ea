/**
 * Breaker tickets: a live holder's ticket stays, and two listings never miss
 * one another. A ticket's name is its holder's nonce, so only the holder
 * creates it, and only its holder or a caller that judged it abandoned removes
 * it. A live holder's ticket is never judged abandoned: it is younger than
 * `staleMs`, and the probe of its holder says alive, or its record is not yet
 * readable. Of two contenders past their listing, the later lister saw the
 * earlier one's ticket, and it forgets that only by judging it or by giving up
 * its own.
 */
module RunOnceTickets {
  import opened Wrappers
  import opened RunOnceMachine
  import opened RunOnceWorld
  import opened RunOnceFiles
  import opened RunOnceInvariant
  import opened RunOnceSafety

  lemma UntouchedStep(s: World, p: int, o: Oracle, s': World, path: Path)
    requires s.disk.Valid() && Stepped(s, p, o, s') && path in s.disk.paths
    requires !Touches(RequestOf(s, p), path)
    ensures path in s'.disk.paths && SameFile(Landed(s, p, o), s'.disk, path)
    ensures s'.disk.paths[path] == s.disk.paths[path]
    ensures s'.procs[p].deferred.Some? ==> s'.procs[p].deferred.value.id != s.disk.paths[path]
  {
    StepFrame(s, p, o, s');
    LandKeeps(s.disk, s.procs[p].deferred, Stamp(s, o));
    if !RequestOf(s, p).AskRun? {
      ServeKeepsUntouched(Landed(s, p, o), s'.clock, Issued(p, s.serial), RequestOf(s, p), o, path);
      DeferredTarget(Landed(s, p, o), s'.clock, Issued(p, s.serial), RequestOf(s, p), o, path);
    }
  }

  /** No step touches a live holder's ticket, except the holder's own withdrawal. */
  lemma TicketSpared(s: World, p: int, q: int)
    requires TicketsInv(s) && Live(s, p) && Live(s, q) && Holding(s.procs[q].m.ctl).Some?
    requires p == q ==> !s.procs[p].m.ctl.Withdraw? && !s.procs[p].m.ctl.DropTicket?
    ensures !Touches(RequestOf(s, p), Ticket(Holding(s.procs[q].m.ctl).value.mine))
  {
    var ctl := s.procs[p].m.ctl;
    var mine := Holding(s.procs[q].m.ctl).value.mine;
    assert LocalOk(s, p) && LocalOk(s, q);
    if Touches(RequestOf(s, p), Ticket(mine)) {
      TicketTouchers(s.procs[p].cfg, ctl, mine);
      if ctl.ScanRemove? {
        assert HoldsTicket(s, q, UnderScan(ctl));
      }
    }
  }

  /** A bystander's step leaves a live holder's ticket as it is. */
  lemma TicketStays(s: World, p: int, o: Oracle, s': World, q: int)
    requires TicketsInv(s) && Stepped(s, p, o, s') && q != p && Live(s, q) && Holding(s.procs[q].m.ctl).Some?
    ensures
      var path := Ticket(Holding(s.procs[q].m.ctl).value.mine);
      && path in s.disk.paths && path in s'.disk.paths && s'.disk.paths[path] == s.disk.paths[path]
      && s.disk.FileAt(path).Some? && s'.disk.FileAt(path) == s.disk.FileAt(path)
      && (s'.procs[p].deferred.Some? ==> s'.procs[p].deferred.value.id != s.disk.paths[path])
  {
    LandKeeps(s.disk, s.procs[p].deferred, Stamp(s, o));
    assert TicketHeldBy(s, q);
    TicketSpared(s, p, q);
    var path := Ticket(Holding(s.procs[q].m.ctl).value.mine);
    UntouchedStep(s, p, o, s', path);
    assert !WritesTo(s, p, s.disk.paths[path]);
  }

  lemma TicketKeptForOthers(s: World, p: int, o: Oracle, s': World, q: int)
    requires TicketsInv(s) && Stepped(s, p, o, s') && q != p && Live(s', q) && Holding(s'.procs[q].m.ctl).Some?
    ensures TicketHeldBy(s', q)
  {
    StepFrame(s, p, o, s');
    assert Live(s, q) && TicketHeldBy(s, q);
    TicketStays(s, p, o, s', q);
    var id := s.disk.paths[Ticket(Holding(s.procs[q].m.ctl).value.mine)];
    forall r | r != q ensures !WritesTo(s', r, id) {
      assert !WritesTo(s, r, id);
    }
  }

  lemma CreatedTicketIsHeld(s: World, p: int, o: Oracle, s': World)
    requires TicketsInv(s) && Stepped(s, p, o, s') && Live(s', p) && Holding(s'.procs[p].m.ctl).Some?
    requires s.procs[p].m.ctl.CreateTicket?
    ensures TicketHeldBy(s', p)
  {
    StepFrame(s, p, o, s');
    LandKeeps(s.disk, s.procs[p].deferred, Stamp(s, o));
    assert LocalOk(s, p);
    var id := s.disk.nextInode;
    assert s'.disk == Landed(s, p, o).Bind(Ticket(s.procs[p].m.ctl.b.mine), s'.clock);
    forall r | r != p ensures !WritesTo(s', r, id) {
      assert !WritesTo(s, r, id);
    }
  }

  lemma HeldTicketStaysOwn(s: World, p: int, o: Oracle, s': World)
    requires TicketsInv(s) && Stepped(s, p, o, s') && Live(s', p) && Holding(s'.procs[p].m.ctl).Some?
    requires !s.procs[p].m.ctl.CreateTicket? && !RequestOf(s, p).AskRun?
    ensures TicketHeldBy(s', p)
  {
    StepFrame(s, p, o, s');
    LandKeeps(s.disk, s.procs[p].deferred, Stamp(s, o));
    HoldingArises(s.procs[p].cfg, s.procs[p].m, ServedAt(s, p, o).answer, Probe(o));
    var ctl := s.procs[p].m.ctl;
    assert TicketHeldBy(s, p);
    StillHolding(s.procs[p].cfg, s.procs[p].m, ServedAt(s, p, o).answer, Probe(o));
    TicketSpared(s, p, p);
    var path := Ticket(Holding(ctl).value.mine);
    UntouchedStep(s, p, o, s', path);
    var id := s.disk.paths[path];
    forall r | r != p ensures !WritesTo(s', r, id) {
      assert !WritesTo(s, r, id);
    }
    assert WritesTo(s, p, id) || Landed(s, p, o).inodes[id] == s.disk.inodes[id];
  }

  lemma StillHolding(cfg: Config, m: Machine, a: Answer, alive: int -> bool)
    requires !m.ctl.Ended? && Fits(Ask(cfg, m.ctl), a)
    ensures m.ctl.Withdraw? || m.ctl.DropTicket? ==> Holding(Resume(cfg, m, a, alive).ctl).None?
  {
  }

  lemma TicketKept(s: World, p: int, o: Oracle, s': World)
    requires TicketsInv(s) && Stepped(s, p, o, s')
    ensures TicketInv(s')
  {
    StepFrame(s, p, o, s');
    forall q | Live(s', q) && Holding(s'.procs[q].m.ctl).Some? ensures TicketHeldBy(s', q) {
      if q != p { TicketKeptForOthers(s, p, o, s', q); }
      else if s.procs[p].m.ctl.CreateTicket? { CreatedTicketIsHeld(s, p, o, s'); }
      else { HeldTicketStaysOwn(s, p, o, s'); }
    }
  }

  // ---- the scan ----

  lemma NewHolding(s: World, p: int, o: Oracle, s': World, q: int, path: Path)
    requires Inv0(s) && Stepped(s, p, o, s') && HoldsTicket(s', q, path)
    ensures HoldsTicket(s, q, path) || (q == p && s.procs[p].m.ctl.CreateTicket? && Pending(s, p, path.nonce))
  {
    StepFrame(s, p, o, s');
    assert LocalOk(s, p);
    if q == p && !RequestOf(s, p).AskRun? {
      HoldingArises(s.procs[p].cfg, s.procs[p].m, ServedAt(s, p, o).answer, Probe(o));
    }
  }

  /** Reading a live holder's ticket never shows another holder. */
  lemma ScanReads(s: World, p: int, o: Oracle, s': World, q: int)
    requires TicketsInv(s) && Stepped(s, p, o, s') && s.procs[p].m.ctl.ScanText?
    requires HoldsTicket(s, q, s.procs[p].m.ctl.ticket)
    ensures
      var ctl := s'.procs[p].m.ctl;
      ctl.ScanAge? && if ctl.text.Some? then NamesHolder(s, q, ctl.text.value) else s.fs.textFails
  {
    StepFrame(s, p, o, s');
    LandKeeps(s.disk, s.procs[p].deferred, Stamp(s, o));
    assert TicketHeldBy(s, q);
    var path := s.procs[p].m.ctl.ticket;
    var id := s.disk.paths[path];
    assert WritesTo(s, p, id) || Landed(s, p, o).inodes[id] == s.disk.inodes[id];
  }

  lemma ScanConfirms(cfg: Config, m: Machine, a: Answer, alive: int -> bool)
    requires m.ctl.ScanAge? && a.Age? && (m.ctl.text.Some? || a.ageMs.Some?)
    ensures
      var ctl := Resume(cfg, m, a, alive).ctl;
      && Holding(ctl) == Some(m.ctl.b)
      && (!TicketAbandoned(cfg, m.ctl.text, a.ageMs, alive) ==> ctl == ScanFrom(m.ctl.b, m.ctl.rest, true))
  {
  }

  lemma TicketAgeRead(s: World, p: int, o: Oracle, s': World, path: Path)
    requires s.disk.Valid() && Stepped(s, p, o, s') && path in s.disk.paths
    requires RequestOf(s, p) == AskAgeMs(path)
    ensures path in s'.disk.paths && s'.disk.FileAt(path).Some?
    ensures
      var a := ServedAt(s, p, o).answer;
      a.Age? && (!s.fs.ageFails ==> a.ageMs.Some?) && (a.ageMs.Some? ==> a.ageMs.value == s'.clock - s'.disk.FileAt(path).value.mtime)
  {
    StepFrame(s, p, o, s');
    LandKeeps(s.disk, s.procs[p].deferred, Stamp(s, o));
  }

  /** A live holder's ticket is never found abandoned. */
  lemma HolderNotAbandoned(s: World, p: int, o: Oracle, s': World, q: int, breakMs: nat)
    requires TicketsInv(s) && Stepped(s, p, o, s') && TicketsTimely(s', breakMs)
    requires TicketsSuffice(s.limits, s.fs, breakMs)
    requires s.procs[p].m.ctl.ScanAge? && HoldsTicket(s, q, s.procs[p].m.ctl.ticket)
    ensures
      var ctl := s.procs[p].m.ctl;
      s'.procs[p].m.ctl == ScanFrom(ctl.b, ctl.rest, true)
  {
    StepFrame(s, p, o, s');
    var ctl := s.procs[p].m.ctl;
    assert HoldsTicket(s, q, UnderScan(ctl));
    assert TicketHeldBy(s, q) && LocalOk(s, p);
    TicketAgeRead(s, p, o, s', ctl.ticket);
    ScanConfirms(s.procs[p].cfg, s.procs[p].m, ServedAt(s, p, o).answer, Probe(o));
    assert HoldsTicket(s', q, ctl.ticket);
    assert AgedAtMost(s', ctl.ticket, breakMs);
    assert q !in o.dead;
  }

  lemma ScanKept(s: World, p: int, o: Oracle, s': World, breakMs: nat)
    requires TicketsInv(s) && Stepped(s, p, o, s') && TicketsTimely(s', breakMs)
    requires TicketsSuffice(s.limits, s.fs, breakMs)
    ensures ScanInv(s')
  {
    StepFrame(s, p, o, s');
    forall h, q | Live(s', q) && HoldsTicket(s', h, UnderScan(s'.procs[q].m.ctl))
      ensures ScanSpares(s', h, q)
    {
      ScanKeptFor(s, p, o, s', h, q, breakMs);
    }
  }

  lemma ScanKeptFor(s: World, p: int, o: Oracle, s': World, h: int, q: int, breakMs: nat)
    requires TicketsInv(s) && Stepped(s, p, o, s') && TicketsTimely(s', breakMs)
    requires TicketsSuffice(s.limits, s.fs, breakMs)
    requires Live(s', q) && HoldsTicket(s', h, UnderScan(s'.procs[q].m.ctl))
    ensures ScanSpares(s', h, q)
  {
    StepFrame(s, p, o, s');
    var path := UnderScan(s'.procs[q].m.ctl);
    NewHolding(s, p, o, s', h, path);
    assert LocalOk(s, q);
    if q != p {
      assert s.procs[q].m.ctl.ScanAge? ==> path in ToScan(s.procs[q].m.ctl);
      assert HoldsTicket(s, h, UnderScan(s.procs[q].m.ctl));
    } else {
      ToScanArises(s, p, o);
      var ctl := s.procs[p].m.ctl;
      assert HoldsTicket(s, h, path);
      if ctl.ScanText? { ScanReads(s, p, o, s', h); }
      else { HolderNotAbandoned(s, p, o, s', h, breakMs); }
    }
  }

  // ---- exclusion of breakers ----

  predicate SeesTicket(ctl: Control, path: Path) {
    Contended(ctl) || path in ToScan(ctl)
  }

  /** A scan forgets a ticket it saw only by judging that very ticket, or by giving up its own. */
  lemma ScanRemembers(cfg: Config, m: Machine, a: Answer, alive: int -> bool, path: Path)
    requires !m.ctl.Ended? && Fits(Ask(cfg, m.ctl), a)
    requires SeesTicket(m.ctl, path)
    ensures
      var ctl := Resume(cfg, m, a, alive).ctl;
      SeesTicket(ctl, path) || Holding(ctl).None? || (m.ctl.ScanAge? && m.ctl.ticket == path)
  {
  }

  lemma ListingSees(cfg: Config, m: Machine, a: Answer, alive: int -> bool, path: Path)
    requires m.ctl.ListTickets? && a.Listing? && path.Ticket? && path != Ticket(m.ctl.b.mine)
    requires a.names.Some? ==> path in a.names.value
    ensures SeesTicket(Resume(cfg, m, a, alive).ctl, path)
  {
    if a.names.Some? {
      var tickets := OtherTickets(a.names.value, m.ctl.b.mine);
      assert path in tickets && tickets == [tickets[0]] + tickets[1..];
    }
  }

  /** A fresh listing shows every ticket a live process holds. */
  lemma ListerSees(s: World, p: int, o: Oracle, s': World, q: int)
    requires TicketsInv(s) && Stepped(s, p, o, s') && s.procs[p].m.ctl.ListTickets?
    requires q != p && Live(s, q) && Holding(s.procs[q].m.ctl).Some?
    ensures SeesTicket(s'.procs[p].m.ctl, Ticket(Holding(s.procs[q].m.ctl).value.mine))
  {
    StepFrame(s, p, o, s');
    assert TicketHeldBy(s, q) && LocalOk(s, q) && LocalOk(s, p);
    ListingSees(s.procs[p].cfg, s.procs[p].m, ServedAt(s, p, o).answer, Probe(o),
                Ticket(Holding(s.procs[q].m.ctl).value.mine));
  }

  /** What the stepper saw before, it still sees, as long as both hold their tickets. */
  lemma StepperStillSees(s: World, p: int, o: Oracle, s': World, q: int, breakMs: nat)
    requires TicketsInv(s) && Stepped(s, p, o, s') && TicketsTimely(s', breakMs)
    requires TicketsSuffice(s.limits, s.fs, breakMs)
    requires q != p && Listed(s, p) && Listed(s, q) && Sees(s, p, q) && Listed(s', p)
    ensures SeesTicket(s'.procs[p].m.ctl, Ticket(Holding(s.procs[q].m.ctl).value.mine))
  {
    StepFrame(s, p, o, s');
    var path := Ticket(Holding(s.procs[q].m.ctl).value.mine);
    ScanRemembers(s.procs[p].cfg, s.procs[p].m, ServedAt(s, p, o).answer, Probe(o), path);
    if s.procs[p].m.ctl.ScanAge? && s.procs[p].m.ctl.ticket == path {
      HolderNotAbandoned(s, p, o, s', q, breakMs);
    }
  }

  lemma ExclusionKeptWith(s: World, p: int, o: Oracle, s': World, q: int, breakMs: nat)
    requires TicketsInv(s) && Stepped(s, p, o, s') && TicketsTimely(s', breakMs)
    requires TicketsSuffice(s.limits, s.fs, breakMs)
    requires q != p && Listed(s', p) && Listed(s', q)
    ensures Sees(s', p, q) || Sees(s', q, p)
  {
    StepFrame(s, p, o, s');
    assert Listed(s, q);
    assert !RequestOf(s, p).AskRun?;
    HoldingArises(s.procs[p].cfg, s.procs[p].m, ServedAt(s, p, o).answer, Probe(o));
    if s.procs[p].m.ctl.ListTickets? {
      ListerSees(s, p, o, s', q);
    } else {
      assert Listed(s, p);
      if Sees(s, p, q) { StepperStillSees(s, p, o, s', q, breakMs); }
      else { assert Sees(s, q, p); }
    }
  }

  lemma ExclusionKept(s: World, p: int, o: Oracle, s': World, breakMs: nat)
    requires TicketsInv(s) && Stepped(s, p, o, s') && TicketsTimely(s', breakMs)
    requires TicketsSuffice(s.limits, s.fs, breakMs)
    ensures ExclusionInv(s')
  {
    StepFrame(s, p, o, s');
    forall h, q | h != q && Listed(s', h) && Listed(s', q) ensures Sees(s', q, h) || Sees(s', h, q) {
      if h == p { ExclusionKeptWith(s, p, o, s', q, breakMs); }
      else if q == p { ExclusionKeptWith(s, p, o, s', h, breakMs); }
      else { assert Listed(s, h) && Listed(s, q); }
    }
  }

  /** At most one live process is past its scan of the tickets. */
  lemma OneClearedBreaker(s: World, p: int, q: int)
    requires ExclusionInv(s)
    requires Live(s, p) && Live(s, q) && Cleared(s.procs[p].m.ctl) && Cleared(s.procs[q].m.ctl)
    ensures p == q
  {
    assert Listed(s, p) && Listed(s, q);
  }
}

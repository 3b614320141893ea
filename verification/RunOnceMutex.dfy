/**
 * The invariant of the lock over whole runs: any number of processes, any
 * crashes, any schedule. The invariant holds at the start and every step of a
 * timely run keeps it: a process's own step (`RunOnceJudgement.StepKept`), the
 * end of its work, or its crash. Mutual exclusion, one owner and one breaker
 * are read off the invariant in `RunOnceGuarantees`.
 */
module RunOnceMutex {
  import opened Wrappers
  import opened RunOnceMachine
  import opened RunOnceWorld
  import opened RunOnceFiles
  import opened RunOnceInvariant
  import opened RunOnceSafety
  import opened RunOnceExclusion
  import opened RunOnceTickets
  import opened RunOnceJudgement

  lemma InitialInv(s: World, stalls: Stalls)
    requires Initial(s)
    ensures Inv(s, stalls)
  {
    forall p | Live(s, p) ensures LocalOk(s, p) {}
  }

  // ---- the end of the work ----

  lemma FinishFrame(s: World, p: int, ok: bool, dt: nat)
    requires Enabled(s, Finish(p, ok, dt))
    ensures
      var s' := Apply(s, Finish(p, ok, dt));
      && s'.disk == s.disk && s'.limits == s.limits && s'.fs == s.fs && s'.host == s.host && s'.posted == s.posted
      && s'.serial == s.serial && s'.clock == s.clock + dt && |s'.procs| == |s.procs|
      && (forall q :: 0 <= q < |s.procs| && q != p ==> s'.procs[q] == s.procs[q])
      && s'.procs[p].deferred == s.procs[p].deferred && s'.procs[p].cfg == s.procs[p].cfg
      && s'.procs[p].crashed == s.procs[p].crashed
      && var ctl, ctl' := s.procs[p].m.ctl, s'.procs[p].m.ctl;
         || (ctl.RunHeld? && (ctl' == MarkNow(ctl.own) || ctl' == StartRelease(ctl.own, Ran)))
         || (ctl.RunAlone? && ctl'.Ended?)
  {
  }

  lemma FinishKeepsSettled(s: World, p: int, ok: bool, dt: nat, n: Nonce)
    requires Enabled(s, Finish(p, ok, dt)) && Settled(s, n)
    ensures Settled(Apply(s, Finish(p, ok, dt)), n)
  {
    var s' := Apply(s, Finish(p, ok, dt));
    FinishFrame(s, p, ok, dt);
    forall q | 0 <= q < |s'.procs| ensures !OwnsWith(s', q, n) { assert !OwnsWith(s, q, n); }
  }

  lemma FinishKeepsSettledOk(s: World, p: int, ok: bool, dt: nat, q: int)
    requires SettledInv(s) && Enabled(s, Finish(p, ok, dt)) && Live(Apply(s, Finish(p, ok, dt)), q)
    ensures SettledOk(Apply(s, Finish(p, ok, dt)), q)
  {
    FinishFrame(s, p, ok, dt);
    var ctl := s.procs[q].m.ctl;
    assert Live(s, q) && SettledOk(s, q);
    if CarriedExpected(ctl).Some? { FinishKeepsSettled(s, p, ok, dt, CarriedExpected(ctl).value); }
    if CarriedLock(ctl).Held? && CarriedLock(ctl).owner.Some? && Breakable(CarriedLock(ctl), s.limits) {
      FinishKeepsSettled(s, p, ok, dt, CarriedLock(ctl).owner.value.nonce);
    }
  }

  lemma FinishKeepsLocal(s: World, p: int, ok: bool, dt: nat, q: int)
    requires LocalInv(s) && Enabled(s, Finish(p, ok, dt)) && Live(Apply(s, Finish(p, ok, dt)), q)
    ensures LocalOk(Apply(s, Finish(p, ok, dt)), q)
  {
    FinishFrame(s, p, ok, dt);
    assert Live(s, q) && LocalOk(s, q);
    if q == p { FinisherIsLocal(s, p, ok, dt); }
  }

  lemma FinisherIsLocal(s: World, p: int, ok: bool, dt: nat)
    requires Enabled(s, Finish(p, ok, dt)) && LocalOk(s, p) && Live(Apply(s, Finish(p, ok, dt)), p)
    ensures LocalOk(Apply(s, Finish(p, ok, dt)), p)
  {
    FinishFrame(s, p, ok, dt);
  }

  lemma FinishKeepsNonceInv(s: World, p: int, ok: bool, dt: nat)
    requires NonceInv(s) && Enabled(s, Finish(p, ok, dt))
    ensures NonceInv(Apply(s, Finish(p, ok, dt)))
  {
    FinishFrame(s, p, ok, dt);
    assert forall q :: Live(Apply(s, Finish(p, ok, dt)), q) ==> Live(s, q);
  }

  lemma FinishKeepsNonces(s: World, p: int, ok: bool, dt: nat)
    requires Inv0(s) && Enabled(s, Finish(p, ok, dt))
    ensures Inv0(Apply(s, Finish(p, ok, dt)))
  {
    var s' := Apply(s, Finish(p, ok, dt));
    FinishFrame(s, p, ok, dt);
    FinishKeepsNonceInv(s, p, ok, dt);
    forall q | Live(s', q) ensures LocalOk(s', q) { FinishKeepsLocal(s, p, ok, dt, q); }
  }

  lemma FinishKeepsLock(s: World, p: int, ok: bool, dt: nat)
    requires LockInv(s) && Enabled(s, Finish(p, ok, dt))
    ensures LockInv(Apply(s, Finish(p, ok, dt)))
  {
    var s' := Apply(s, Finish(p, ok, dt));
    FinishFrame(s, p, ok, dt);
    forall q | Live(s', q) && Owned(s'.procs[q].m.ctl).Some? ensures LockHeldBy(s', q) {
      assert LockHeldBy(s, q);
      forall r | r != q ensures !WritesTo(s', r, s.disk.paths[Lock]) { assert !WritesTo(s, r, s.disk.paths[Lock]); }
    }
  }

  /** Ending the work moves only its own process, from a state without a ticket to another. */
  ghost predicate Finished(s: World, p: int, s': World) {
    && s'.disk == s.disk && s'.fs == s.fs && s'.host == s.host && |s'.procs| == |s.procs| && 0 <= p < |s.procs|
    && (forall q :: 0 <= q < |s.procs| && q != p ==> s'.procs[q] == s.procs[q])
    && Holding(s'.procs[p].m.ctl).None? && !Targets(s'.procs[p].m.ctl)
    && UnderScan(s'.procs[p].m.ctl) == Lock
  }

  lemma FinishIsFinished(s: World, p: int, ok: bool, dt: nat)
    requires Enabled(s, Finish(p, ok, dt))
    ensures Finished(s, p, Apply(s, Finish(p, ok, dt)))
  {
    FinishFrame(s, p, ok, dt);
  }

  lemma FinishedKeepsScan(s: World, p: int, s': World)
    requires ScanInv(s) && Finished(s, p, s')
    ensures ScanInv(s')
  {
    forall h, q | Live(s', q) && HoldsTicket(s', h, UnderScan(s'.procs[q].m.ctl))
      ensures ScanSpares(s', h, q)
    {
      assert HoldsTicket(s, h, UnderScan(s.procs[q].m.ctl));
    }
  }

  lemma FinishedKeepsExclusion(s: World, p: int, s': World)
    requires ExclusionInv(s) && Finished(s, p, s')
    ensures ExclusionInv(s')
  {
    forall h, q | h != q && Listed(s', h) && Listed(s', q) ensures Sees(s', q, h) || Sees(s', h, q) {
      assert Listed(s, h) && Listed(s, q);
    }
  }

  lemma FinishKeepsTickets(s: World, p: int, ok: bool, dt: nat)
    requires TicketsInv(s) && Enabled(s, Finish(p, ok, dt))
    ensures TicketsInv(Apply(s, Finish(p, ok, dt)))
  {
    var s' := Apply(s, Finish(p, ok, dt));
    FinishIsFinished(s, p, ok, dt);
    FinishKeepsNonces(s, p, ok, dt);
    FinishKeepsHeldTickets(s, p, ok, dt);
    FinishedKeepsScan(s, p, s');
    FinishedKeepsExclusion(s, p, s');
  }

  lemma FinishKeepsHeldTickets(s: World, p: int, ok: bool, dt: nat)
    requires TicketInv(s) && Enabled(s, Finish(p, ok, dt))
    ensures TicketInv(Apply(s, Finish(p, ok, dt)))
  {
    var s' := Apply(s, Finish(p, ok, dt));
    FinishFrame(s, p, ok, dt);
    forall q | Live(s', q) && Holding(s'.procs[q].m.ctl).Some? ensures TicketHeldBy(s', q) {
      assert q != p && TicketHeldBy(s, q);
      var id := s.disk.paths[Ticket(Holding(s.procs[q].m.ctl).value.mine)];
      forall r | r != q ensures !WritesTo(s', r, id) { assert !WritesTo(s, r, id); }
    }
  }

  lemma FinishKept(s: World, p: int, ok: bool, dt: nat, stalls: Stalls)
    requires Inv(s, stalls) && Enabled(s, Finish(p, ok, dt))
    ensures Inv(Apply(s, Finish(p, ok, dt)), stalls)
  {
    var s' := Apply(s, Finish(p, ok, dt));
    FinishKeepsTickets(s, p, ok, dt);
    FinishKeepsLock(s, p, ok, dt);
    forall q | Live(s', q) ensures SettledOk(s', q) { FinishKeepsSettledOk(s, p, ok, dt, q); }
    forall q | Live(s', q) ensures
        var ctl := s'.procs[q].m.ctl;
        && (Targets(ctl) ==> Unowned(s'))
        && (MayOutlive(s', stalls) && ctl.JudgeAge? && DecodeOwner(ctl.text).None? ==> FreshEnough(s', ctl.b, stalls))
    {
      FinishKeepsJudgement(s, p, ok, dt, q, stalls);
    }
  }

  lemma FinishKeepsJudgement(s: World, p: int, ok: bool, dt: nat, q: int, stalls: Stalls)
    requires Inv(s, stalls) && Enabled(s, Finish(p, ok, dt)) && Live(Apply(s, Finish(p, ok, dt)), q)
    ensures
      var s' := Apply(s, Finish(p, ok, dt));
      var ctl := s'.procs[q].m.ctl;
      && (Targets(ctl) ==> Unowned(s'))
      && (MayOutlive(s', stalls) && ctl.JudgeAge? && DecodeOwner(ctl.text).None? ==> FreshEnough(s', ctl.b, stalls))
  {
    FinishFrame(s, p, ok, dt);
    assert q != p ==> Live(s, q);
    FinishOwnsNoMore(s, p, ok, dt);
  }

  /** The end of the work makes no new owner, so what is unowned stays so, and what is fresh enough. */
  lemma FinishOwnsNoMore(s: World, p: int, ok: bool, dt: nat)
    requires Enabled(s, Finish(p, ok, dt))
    ensures Unowned(s) ==> Unowned(Apply(s, Finish(p, ok, dt)))
    ensures forall b, stalls :: FreshEnough(s, b, stalls) ==> FreshEnough(Apply(s, Finish(p, ok, dt)), b, stalls)
  {
    var s' := Apply(s, Finish(p, ok, dt));
    FinishFrame(s, p, ok, dt);
    forall r | Live(s', r) && Owned(s'.procs[r].m.ctl).Some?
      ensures Live(s, r) && Owned(s.procs[r].m.ctl).Some?
    {
    }
  }

  // ---- whole runs ----

  lemma NextKept(s: World, s': World, stalls: Stalls)
    requires Inv(s, stalls) && Next(s, s') && Timely(s', stalls)
    requires Suffices(s.limits, s.fs, stalls)
    ensures Inv(s', stalls)
  {
    var c :| Enabled(s, c) && s' == Apply(s, c);
    match c {
      case Step(p, o) => StepKept(s, p, o, s', stalls);
      case Finish(p, ok, dt) => FinishKept(s, p, ok, dt, stalls);
      case Crash(p) => CrashKept(s, p, stalls);
    }
  }

  lemma NextKeepsLimits(s: World, s': World)
    requires Next(s, s')
    ensures s'.limits == s.limits && s'.fs == s.fs
  {
  }

  lemma {:induction false} InvAlways(run: seq<World>, i: nat, stalls: Stalls)
    requires IsRun(run) && TimelyRun(run, stalls) && i < |run|
    requires Suffices(run[0].limits, run[0].fs, stalls)
    ensures Inv(run[i], stalls) && run[i].limits == run[0].limits && run[i].fs == run[0].fs
  {
    if i == 0 {
      InitialInv(run[0], stalls);
    } else {
      InvAlways(run, i - 1, stalls);
      assert NextAt(run, i - 1);
      NextKeepsLimits(run[i - 1], run[i]);
      NextKept(run[i - 1], run[i], stalls);
    }
  }

  /** A live process at or inside its work under the lock. */
  predicate InsideWork(s: World, p: int) {
    Live(s, p) && s.procs[p].m.ctl.RunHeld?
  }

  /** No two live processes inside serialized work, and the running owner's own record at the lock path. */
  ghost predicate Serialized(s: World) {
    && (forall p, q :: InsideWork(s, p) && InsideWork(s, q) ==> p == q)
    && (forall p :: InsideWork(s, p) ==> s.disk.TextAt(Lock) == Some(Record(s.procs[p].m.ctl.own, None)))
  }

  lemma {:induction false} TicketsInvAlways(run: seq<World>, i: nat, breakMs: nat)
    requires IsRun(run) && i < |run|
    requires forall k :: 0 <= k < |run| ==> TicketsTimely(run[k], breakMs)
    requires TicketsSuffice(run[0].limits, run[0].fs, breakMs)
    ensures TicketsInv(run[i]) && run[i].limits == run[0].limits && run[i].fs == run[0].fs
  {
    if i == 0 {
      InitialInv(run[0], Stalls(0, 0, 0));
    } else {
      TicketsInvAlways(run, i - 1, breakMs);
      assert NextAt(run, i - 1);
      NextKeepsLimits(run[i - 1], run[i]);
      NextKeepsTickets(run[i - 1], run[i], breakMs);
    }
  }

  lemma NextKeepsTickets(s: World, s': World, breakMs: nat)
    requires TicketsInv(s) && Next(s, s') && TicketsTimely(s', breakMs)
    requires TicketsSuffice(s.limits, s.fs, breakMs)
    ensures TicketsInv(s')
  {
    var c :| Enabled(s, c) && s' == Apply(s, c);
    match c {
      case Step(p, o) => TicketsKept(s, p, o, s', breakMs);
      case Finish(p, ok, dt) => FinishKeepsTickets(s, p, ok, dt);
      case Crash(p) => CrashKeepsTickets(s, p);
    }
  }

  predicate PastScan(s: World, p: int) {
    Live(s, p) && Cleared(s.procs[p].m.ctl)
  }
}

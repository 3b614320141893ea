/**
 * Building runs. A world is `Reached` when some run within the stalls of a
 * setting ends in it. A step that takes no time never breaks a stall, so a run
 * is put together from phases (one process comes to a poll, takes a ticket,
 * judges a lock, makes its own), and only the few steps at which time passes
 * have to be shown timely.
 */
module RunOnceScenes {
  import opened Wrappers
  import opened RunOnceMachine
  import opened RunOnceWorld
  import opened RunOnceFiles
  import opened RunOnceInvariant
  import opened RunOnceSafety
  import opened RunOnceMutex
  import opened RunOnceTrust
  import opened RunOnceQuiescence

  /** Where a run starts and what it keeps to; a smooth one has no crash and no failed operation. */
  datatype Setting = Setting(start: World, stalls: Stalls, smooth: bool)

  function Last(run: seq<World>): World
    requires |run| > 0
  {
    run[|run| - 1]
  }

  ghost predicate Follows(run: seq<World>, g: Setting) {
    && IsRun(run) && TimelyRun(run, g.stalls) && run[0] == g.start
    && (g.smooth ==> SmoothRun(run))
  }

  ghost predicate Reached(g: Setting, s: World) {
    exists run :: Follows(run, g) && Last(run) == s
  }

  lemma ReachedAtStart(g: Setting)
    requires Initial(g.start) && Timely(g.start, g.stalls)
    ensures Reached(g, g.start)
  {
    var run := [g.start];
    assert Follows(run, g) && Last(run) == g.start;
  }

  lemma ReachedNext(g: Setting, s: World, c: Choice)
    requires Reached(g, s) && Enabled(s, c) && Timely(Apply(s, c), g.stalls)
    requires g.smooth ==> Smooth(c)
    ensures Reached(g, Apply(s, c))
  {
    var s' := Apply(s, c);
    var run :| Follows(run, g) && Last(run) == s;
    var longer := run + [s'];
    forall i | 0 <= i < |longer| - 1 ensures NextAt(longer, i) {
      if i < |run| - 1 { assert NextAt(run, i); }
    }
    if g.smooth {
      forall i | 0 <= i < |longer| - 1 ensures SmoothAt(longer, i) {
        if i < |run| - 1 { assert SmoothAt(run, i); }
      }
    }
    assert Follows(longer, g) && Last(longer) == s';
  }

  lemma ReachedIsSound(g: Setting, s: World)
    requires Reached(g, s)
    ensures Inv0(s) && Timely(s, g.stalls)
  {
    var run :| Follows(run, g) && Last(run) == s;
    TrustAlways(run, |run| - 1);
  }

  lemma ReachedIsValid(g: Setting, s: World)
    requires Reached(g, s)
    ensures s.disk.Valid()
  {
    ReachedIsSound(g, s);
  }

  // ---- steps that take no time ----

  /** `path` names a file of the time it had, or of the present. */
  predicate TimeKept(d: Disk, d': Disk, path: Path, clock: int) {
    var file, file' := d.FileAt(path), d'.FileAt(path);
    || file'.None? || file'.value.mtime == clock
    || (path in d.paths && file.Some? && file'.value.mtime == file.value.mtime)
  }

  lemma ServeTimes(d: Disk, clock: int, nonce: Nonce, request: Request, o: Oracle, path: Path)
    requires d.Valid() && !request.AskRun? && (request.AskRename? ==> request.to != path)
    ensures TimeKept(d, Serve(d, clock, nonce, request, o).disk, path, clock)
  {
  }

  lemma LandTimes(d: Disk, deferred: Option<Deferred>, stamp: Option<int>, clock: int, path: Path)
    requires d.Valid() && (stamp.Some? ==> stamp.value == clock)
    ensures d.Land(deferred, stamp).Valid() && TimeKept(d, d.Land(deferred, stamp), path, clock)
  {
    LandKeeps(d, deferred, stamp);
  }

  lemma TimeStillKept(d: Disk, d1: Disk, d2: Disk, path: Path, clock: int)
    requires TimeKept(d, d1, path, clock) && TimeKept(d1, d2, path, clock)
    ensures TimeKept(d, d2, path, clock)
  {
  }

  /** A step gives a lock or a ticket no other time than the present. */
  lemma TimesStay(s: World, p: int, o: Oracle, s': World, path: Path)
    requires s.disk.Valid() && Stepped(s, p, o, s') && (path.Lock? || path.Ticket?)
    ensures TimeKept(s.disk, s'.disk, path, s'.clock)
  {
    StepFrame(s, p, o, s');
    LandTimes(s.disk, s.procs[p].deferred, Stamp(s, o), s'.clock, path);
    if !RequestOf(s, p).AskRun? { ServedTimes(s, p, o, path); }
  }

  lemma ServedTimes(s: World, p: int, o: Oracle, path: Path)
    requires s.disk.Valid() && Live(s, p) && !RequestOf(s, p).AskRun? && (path.Lock? || path.Ticket?)
    ensures TimeKept(s.disk, ServedAt(s, p, o).disk, path, s.clock + o.dt)
  {
    if RequestOf(s, p).AskRename? { RenamesToTombs(s.procs[p].cfg, s.procs[p].m.ctl); }
    LandTimes(s.disk, s.procs[p].deferred, Stamp(s, o), s.clock + o.dt, path);
    ServeTimes(Landed(s, p, o), s.clock + o.dt, Issued(p, s.serial), RequestOf(s, p), o, path);
    TimeStillKept(s.disk, Landed(s, p, o), ServedAt(s, p, o).disk, path, s.clock + o.dt);
  }

  lemma InstantAge(s: World, p: int, o: Oracle, s': World, path: Path, ms: nat)
    requires s.disk.Valid() && Stepped(s, p, o, s') && o.dt == 0 && (path.Lock? || path.Ticket?)
    requires path in s.disk.paths ==> AgedAtMost(s, path, ms)
    ensures AgedAtMost(s', path, ms)
  {
    StepFrame(s, p, o, s');
    TimesStay(s, p, o, s', path);
  }

  lemma CreateRefused(s: World, p: int, o: Oracle)
    requires s.disk.Valid() && Live(s, p) && s.procs[p].m.ctl.CreateLock? && Lock in s.disk.paths
    ensures ServedAt(s, p, o).answer != CreateAnswer(CreatedNew)
  {
  }

  /** While a lock is there nobody comes to own one. */
  lemma StepperOwned(s: World, p: int, o: Oracle, s': World)
    requires Inv0(s) && Stepped(s, p, o, s') && Lock in s.disk.paths && !RequestOf(s, p).AskRun?
    ensures Owned(s'.procs[p].m.ctl).Some? ==> Owned(s.procs[p].m.ctl) == Owned(s'.procs[p].m.ctl)
    ensures !s'.procs[p].m.ctl.Verify?
  {
    StepFrame(s, p, o, s');
    assert LocalOk(s, p);
    OwnedArises(s.procs[p].cfg, s.procs[p].m, ServedAt(s, p, o).answer, Probe(o));
    VerifyArises(s.procs[p].cfg, s.procs[p].m, ServedAt(s, p, o).answer, Probe(o));
    if s.procs[p].m.ctl.CreateLock? { CreateRefused(s, p, o); }
  }

  lemma VerifyArises(cfg: Config, m: Machine, a: Answer, alive: int -> bool)
    requires !m.ctl.Ended? && Fits(Ask(cfg, m.ctl), a)
    ensures Resume(cfg, m, a, alive).ctl.Verify? ==> m.ctl.CreateLock? && a == CreateAnswer(CreatedNew)
  {
  }

  lemma OwnersWereThere(s: World, p: int, o: Oracle, s': World, q: int)
    requires Inv0(s) && Stepped(s, p, o, s') && Live(s', q) && Lock in s.disk.paths
    ensures Live(s, q)
    ensures Owned(s'.procs[q].m.ctl).Some? ==> Owned(s.procs[q].m.ctl).Some?
    ensures s'.procs[q].m.ctl.Verify? ==> s.procs[q].m.ctl.Verify?
  {
    StepFrame(s, p, o, s');
    if q == p && !RequestOf(s, p).AskRun? { StepperOwned(s, p, o, s'); }
  }

  lemma InstantLock(s: World, p: int, o: Oracle, s': World, stalls: Stalls, q: int)
    requires Inv0(s) && LocksTimely(s, stalls) && Stepped(s, p, o, s') && o.dt == 0 && Live(s', q)
    ensures Owned(s'.procs[q].m.ctl).Some? ==> AgedAtMost(s', Lock, stalls.ownMs)
    ensures s'.procs[q].m.ctl.Verify? ==> AgedAtMost(s', Lock, stalls.createMs)
  {
    if Lock in s.disk.paths { OwnersWereThere(s, p, o, s', q); }
    if Owned(s'.procs[q].m.ctl).Some? { InstantAge(s, p, o, s', Lock, stalls.ownMs); }
    if s'.procs[q].m.ctl.Verify? { InstantAge(s, p, o, s', Lock, stalls.createMs); }
  }

  lemma InstantTicket(s: World, p: int, o: Oracle, s': World, breakMs: nat, q: int)
    requires Inv0(s) && TicketsTimely(s, breakMs) && Stepped(s, p, o, s') && o.dt == 0 && Live(s', q)
    requires Holding(s'.procs[q].m.ctl).Some?
    ensures AgedAtMost(s', Ticket(Holding(s'.procs[q].m.ctl).value.mine), breakMs)
  {
    StepFrame(s, p, o, s');
    assert LocalOk(s, p);
    if q == p && !RequestOf(s, p).AskRun? {
      HoldingArises(s.procs[p].cfg, s.procs[p].m, ServedAt(s, p, o).answer, Probe(o));
    }
    InstantAge(s, p, o, s', Ticket(Holding(s'.procs[q].m.ctl).value.mine), breakMs);
  }

  /** A step that takes no time breaks no stall. */
  lemma InstantIsTimely(s: World, p: int, o: Oracle, s': World, stalls: Stalls)
    requires Inv0(s) && Timely(s, stalls) && Stepped(s, p, o, s') && o.dt == 0
    ensures Timely(s', stalls)
  {
    forall q | Live(s', q)
      ensures Owned(s'.procs[q].m.ctl).Some? ==> AgedAtMost(s', Lock, stalls.ownMs)
      ensures s'.procs[q].m.ctl.Verify? ==> AgedAtMost(s', Lock, stalls.createMs)
    {
      InstantLock(s, p, o, s', stalls, q);
    }
    forall q | Live(s', q) && Holding(s'.procs[q].m.ctl).Some?
      ensures AgedAtMost(s', Ticket(Holding(s'.procs[q].m.ctl).value.mine), stalls.breakMs)
    {
      InstantTicket(s, p, o, s', stalls.breakMs, q);
    }
  }

  /** One request of `p`, answered at once. */
  lemma Acts(g: Setting, s: World, p: int, o: Oracle) returns (s': World)
    requires Reached(g, s) && Enabled(s, Step(p, o)) && o.dt == 0 && (g.smooth ==> !o.fault)
    ensures s' == Apply(s, Step(p, o)) && Reached(g, s')
  {
    s' := Apply(s, Step(p, o));
    ReachedIsSound(g, s);
    InstantIsTimely(s, p, o, s', g.stalls);
    ReachedNext(g, s, Step(p, o));
  }

  /** Every stall lasts `dt` longer. */
  ghost predicate Patient(g: Setting, s: World, dt: nat) {
    Timely(s.(clock := s.clock + dt), g.stalls)
  }

  lemma SoundLater(s: World, s': World, clock: int)
    requires Inv0(s) && s' == s.(clock := clock)
    ensures Inv0(s')
  {
    forall p | Live(s', p) ensures LocalOk(s', p) { assert LocalOk(s, p); }
  }

  /** A step that takes time is one that takes none, later. */
  lemma LaterStep(s: World, p: int, o: Oracle)
    requires Enabled(s, Step(p, o)) && PausesLongEnough(Ask(s.procs[p].cfg, s.procs[p].m.ctl), 0)
    ensures
      var later := s.(clock := s.clock + o.dt);
      Stepped(later, p, o.(dt := 0), Apply(s, Step(p, o)))
  {
    var later := s.(clock := s.clock + o.dt);
    assert Stamp(later, o.(dt := 0)) == Stamp(s, o);
    assert Enabled(later, Step(p, o.(dt := 0)));
  }

  /** One request of `p`, answered `o.dt` from now: the others' stalls, and its own, last until then. */
  lemma ActsLater(g: Setting, s: World, p: int, o: Oracle) returns (s': World)
    requires Reached(g, s) && Enabled(s, Step(p, o)) && (g.smooth ==> !o.fault)
    requires Patient(g, s, o.dt)
    requires PausesLongEnough(Ask(s.procs[p].cfg, s.procs[p].m.ctl), 0)
    ensures s' == Apply(s, Step(p, o)) && Reached(g, s')
  {
    s' := Apply(s, Step(p, o));
    var later := s.(clock := s.clock + o.dt);
    ReachedIsSound(g, s);
    SoundLater(s, later, later.clock);
    LaterStep(s, p, o);
    InstantIsTimely(later, p, o.(dt := 0), s', g.stalls);
    ReachedNext(g, s, Step(p, o));
  }

  /** The work of `p` ends at once. */
  lemma Ends(g: Setting, s: World, p: int, ok: bool) returns (s': World)
    requires Reached(g, s) && Enabled(s, Finish(p, ok, 0))
    ensures s' == Apply(s, Finish(p, ok, 0)) && Reached(g, s')
  {
    s' := Apply(s, Finish(p, ok, 0));
    ReachedIsSound(g, s);
    FinishFrame(s, p, ok, 0);
    forall q | Live(s', q)
      ensures Owned(s'.procs[q].m.ctl).Some? ==> AgedAtMost(s', Lock, g.stalls.ownMs)
      ensures s'.procs[q].m.ctl.Verify? ==> AgedAtMost(s', Lock, g.stalls.createMs)
    {
      assert Live(s, q);
    }
    forall q | Live(s', q) && Holding(s'.procs[q].m.ctl).Some?
      ensures AgedAtMost(s', Ticket(Holding(s'.procs[q].m.ctl).value.mine), g.stalls.breakMs)
    {
      assert q != p && Live(s, q);
    }
    ReachedNext(g, s, Finish(p, ok, 0));
  }
}

/**
 * A once caller never starts its work while the done marker names an owner it
 * has seen hold the lock. An owner writes its marker before it releases, and
 * the caller reads the marker once more after it has the lock; so a marker that
 * names an owner it saw was either there for that read, or its owner is still
 * between its work and its release, and then the caller does not have the lock.
 */
module RunOnceMarkers {
  import opened Wrappers
  import opened RunOnceMachine
  import opened RunOnceWorld
  import opened RunOnceFiles
  import opened RunOnceInvariant
  import opened RunOnceSafety
  import opened RunOnceExclusion
  import opened RunOnceJudgement
  import opened RunOnceMutex
  import opened RunOnceTrust

  /** The lock nonce a process read as its own, or is about to. */
  function OwnNonce(ctl: Control): set<Nonce> {
    if Owned(ctl).Some? then {Owned(ctl).value.nonce} else {}
  }

  /** The nonce in evidence whose age has not been read yet. */
  function InHand(ctl: Control): set<Nonce> {
    match ctl
    case ObserveAge(text) => Adding({}, DecodeOwner(text))
    case JudgeAge(_, text) => Adding({}, DecodeOwner(text))
    case _ => {}
  }

  /** Past its rename, a release only has its outcome left to report. */
  predicate Leaving(ctl: Control) {
    match ctl
    case TombText(errand, _) => errand.Releasing?
    case TombAge(errand, _, _) => errand.Releasing?
    case PutBack(errand, _, _) => errand.Releasing?
    case TombRemove(errand, _, _) => errand.Releasing?
    case Ended(_) => true
    case RunAlone(_) => true
    case _ => false
  }

  predicate SeenOk(proc: Proc) {
    Leaving(proc.m.ctl) || proc.seen <= proc.m.observed + OwnNonce(proc.m.ctl) + InHand(proc.m.ctl)
  }

  predicate HasNotRun(ctl: Control) {
    ctl.Verify? || ctl.ReadLate? || ctl.RunHeld?
  }

  /** The marker names nobody this process observed, nor itself. */
  predicate MarkerIsNews(s: World, p: int)
    requires 0 <= p < |s.procs| && s.procs[p].m.ctl.RunHeld?
  {
    var marker := s.disk.TextAt(Done);
    marker.Some? && marker.value.Mark? ==>
      marker.value.nonce !in s.procs[p].m.observed && marker.value.nonce != s.procs[p].m.ctl.own.nonce
  }

  ghost predicate MarkerOk(s: World, p: int)
    requires 0 <= p < |s.procs|
  {
    var proc := s.procs[p];
    && SeenOk(proc)
    && (proc.deferred.Some? && proc.deferred.value.text.Mark? ==>
          proc.m.ctl.TombNow? && proc.m.ctl.errand.Releasing?)
    && (HasNotRun(proc.m.ctl) ==> proc.m.ctl.own.nonce !in s.succeeded)
    && (proc.m.ctl.RunHeld? && !proc.cfg.serialize ==> MarkerIsNews(s, p))
  }

  ghost predicate MarkerInv(s: World) {
    && (forall n :: n in s.succeeded ==> Public(s, n))
    && (forall p :: Live(s, p) ==> MarkerOk(s, p))
  }

  // ---- the stepping process ----

  lemma LeavingStays(cfg: Config, m: Machine, a: Answer, alive: int -> bool)
    requires !m.ctl.Ended? && Fits(Ask(cfg, m.ctl), a)
    requires Leaving(m.ctl) && (m.ctl.TombRemove? ==> m.ctl.verdict != Stuck)
    ensures Leaving(Resume(cfg, m, a, alive).ctl)
  {
  }

  lemma HandsPassOn(cfg: Config, m: Machine, a: Answer, alive: int -> bool)
    requires !m.ctl.Ended? && Fits(Ask(cfg, m.ctl), a)
    requires !m.ctl.Verify? && !m.ctl.Repair? && !Leaving(m.ctl)
    ensures
      var m' := Resume(cfg, m, a, alive);
      || Leaving(m'.ctl)
      || (&& m.observed <= m'.observed
          && OwnNonce(m.ctl) <= OwnNonce(m'.ctl)
          && InHand(m.ctl) <= m'.observed
          && Shown(Ask(cfg, m.ctl), a) <= InHand(m'.ctl))
  {
  }

  lemma SeenArises(s: World, p: int, o: Oracle, s': World, stalls: Stalls)
    requires !s.fs.textFails
    requires Inv(s, stalls) && Stepped(s, p, o, s') && !RequestOf(s, p).AskRun?
    requires SeenOk(s.procs[p])
    ensures SeenOk(s'.procs[p])
  {
    StepFrame(s, p, o, s');
    var ctl := s.procs[p].m.ctl;
    assert LocalOk(s, p);
    if ctl.Verify? {
      VerifyReadsOwn(s, p, o, s', stalls);
    } else if Leaving(ctl) {
      LeavingStays(s.procs[p].cfg, s.procs[p].m, ServedAt(s, p, o).answer, Probe(o));
    } else {
      if Possesses(s, p) { assert LockHeldBy(s, p); }
      HandsPassOn(s.procs[p].cfg, s.procs[p].m, ServedAt(s, p, o).answer, Probe(o));
      SeenGrows(s, p, o, s');
    }
  }

  lemma SeenGrows(s: World, p: int, o: Oracle, s': World)
    requires s.disk.Valid() && Stepped(s, p, o, s') && !RequestOf(s, p).AskRun?
    ensures s'.procs[p].seen == s.procs[p].seen + Shown(RequestOf(s, p), ServedAt(s, p, o).answer)
  {
  }

  lemma VerifyReadsOwn(s: World, p: int, o: Oracle, s': World, stalls: Stalls)
    requires !s.fs.textFails
    requires Inv(s, stalls) && Stepped(s, p, o, s') && s.procs[p].m.ctl.Verify?
    ensures
      var own := s.procs[p].m.ctl.own;
      && s'.procs[p].m.ctl == Acquired(s.procs[p].cfg, own)
      && s'.procs[p].seen == s.procs[p].seen + {own.nonce}
  {
    StepFrame(s, p, o, s');
    LandKeeps(s.disk, s.procs[p].deferred, Stamp(s, o));
    assert LockHeldBy(s, p);
  }

  /** Only a marker's writer has a marker on its way to the disk. */
  lemma MarkOnItsWay(cfg: Config, m: Machine, d: Disk, clock: int, nonce: Nonce, o: Oracle, alive: int -> bool)
    requires !m.ctl.Ended? && !Ask(cfg, m.ctl).AskRun?
    requires m.ctl.PutBack? ==> m.ctl.moved.Record?
    ensures
      var served := Serve(d, clock, nonce, Ask(cfg, m.ctl), o);
      served.deferred.Some? && served.deferred.value.text.Mark? ==>
        var ctl := Resume(cfg, m, served.answer, alive).ctl;
        ctl.TombNow? && ctl.errand.Releasing?
  {
  }

  lemma NotRunArises(cfg: Config, m: Machine, a: Answer, alive: int -> bool)
    requires !m.ctl.Ended? && Fits(Ask(cfg, m.ctl), a) && !Ask(cfg, m.ctl).AskRun?
    ensures
      var ctl := Resume(cfg, m, a, alive).ctl;
      && (HasNotRun(ctl) ==> (HasNotRun(m.ctl) || m.ctl.CreateLock? || m.ctl.Repair?) && ctl.own == m.ctl.own)
      && (ctl.RunHeld? && !cfg.serialize ==>
            && m.ctl.ReadLate? && Resume(cfg, m, a, alive).observed == m.observed
            && (a.text.Some? && a.text.value.Mark? ==> a.text.value.nonce !in m.observed))
  {
  }

  /** The marker read just before the work is the one on the disk, and it is no news of an observed owner. */
  lemma LateReadIsCurrent(s: World, p: int, o: Oracle, s': World)
    requires !s.fs.textFails
    requires s.disk.Valid() && TrustInv(s) && Stepped(s, p, o, s') && s.procs[p].m.ctl.ReadLate?
    requires s.procs[p].m.ctl.own.nonce !in s.succeeded
    requires s'.procs[p].m.ctl.RunHeld? && !s.procs[p].cfg.serialize
    ensures MarkerIsNews(s', p)
  {
    StepFrame(s, p, o, s');
    LandedVouched(s, p, o);
    NotRunArises(s.procs[p].cfg, s.procs[p].m, ServedAt(s, p, o).answer, Probe(o));
    assert s'.disk == Landed(s, p, o);
  }

  lemma SelfMarkers(s: World, p: int, o: Oracle, s': World, stalls: Stalls)
    requires !s.fs.textFails
    requires Inv(s, stalls) && TrustInv(s) && MarkerInv(s) && Stepped(s, p, o, s')
    requires !RequestOf(s, p).AskRun? && Live(s', p)
    ensures MarkerOk(s', p)
  {
    StepFrame(s, p, o, s');
    StepFrameTrust(s, p, o, s');
    assert MarkerOk(s, p) && TrustOk(s, p) && LocalOk(s, p);
    SeenArises(s, p, o, s', stalls);
    MarkOnItsWay(s.procs[p].cfg, s.procs[p].m, Landed(s, p, o), s'.clock, Issued(p, s.serial), o, Probe(o));
    NotRunArises(s.procs[p].cfg, s.procs[p].m, ServedAt(s, p, o).answer, Probe(o));
    if Possesses(s, p) { assert LockHeldBy(s, p); }
    if s'.procs[p].m.ctl.RunHeld? && !s.procs[p].cfg.serialize {
      LateReadIsCurrent(s, p, o, s');
    }
  }

  /** Going to work lands nothing on the marker. */
  lemma BeginKeepsMarkers(s: World, p: int, o: Oracle, s': World)
    requires s.disk.Valid() && MarkerInv(s) && Stepped(s, p, o, s') && RequestOf(s, p).AskRun?
    ensures MarkerOk(s', p)
  {
    StepFrame(s, p, o, s');
    assert MarkerOk(s, p);
    LandingUnmarked(s, p, o);
  }

  /** A landing that is not a marker's writes no marker. */
  lemma LandingUnmarked(s: World, p: int, o: Oracle)
    requires s.disk.Valid() && Live(s, p)
    requires s.procs[p].deferred.Some? ==> !s.procs[p].deferred.value.text.Mark?
    ensures
      var marker := Landed(s, p, o).TextAt(Done);
      marker.Some? && marker.value.Mark? ==> marker == s.disk.TextAt(Done)
  {
    LandKeeps(s.disk, s.procs[p].deferred, Stamp(s, o));
  }

  // ---- everybody else ----

  lemma DoneTouchers(cfg: Config, ctl: Control)
    requires !ctl.Ended? && Touches(Ask(cfg, ctl), Done)
    ensures ctl.WriteMark?
  {
  }

  lemma NobodyElseWrites(s: World, p: int, q: int)
    requires LocalInv(s) && LockInv(s) && MarkerInv(s) && Live(s, p) && q != p && Possesses(s, q)
    ensures s.procs[p].deferred.Some? ==> !s.procs[p].deferred.value.text.Mark?
    ensures !Touches(RequestOf(s, p), Done)
  {
    assert MarkerOk(s, p);
    if Possesses(s, p) { SoleOwner(s, p, q); }
    if Touches(RequestOf(s, p), Done) { DoneTouchers(s.procs[p].cfg, s.procs[p].m.ctl); }
  }

  lemma DoneUntouched(s: World, p: int, o: Oracle, s': World)
    requires s.disk.Valid() && Stepped(s, p, o, s') && !Touches(RequestOf(s, p), Done)
    ensures s'.disk.TextAt(Done) == Landed(s, p, o).TextAt(Done)
  {
    StepFrame(s, p, o, s');
    LandKeeps(s.disk, s.procs[p].deferred, Stamp(s, o));
    if !RequestOf(s, p).AskRun? {
      ServeKeepsUntouched(Landed(s, p, o), s'.clock, Issued(p, s.serial), RequestOf(s, p), o, Done);
    }
  }

  /** While a process owns the lock, nobody else changes what the marker says. */
  lemma MarkerStays(s: World, p: int, o: Oracle, s': World, q: int)
    requires s.disk.Valid() && LocalInv(s) && LockInv(s) && MarkerInv(s) && Stepped(s, p, o, s')
    requires q != p && Possesses(s, q)
    ensures
      var marker := s'.disk.TextAt(Done);
      marker.Some? && marker.value.Mark? ==> marker == s.disk.TextAt(Done)
  {
    NobodyElseWrites(s, p, q);
    LandingUnmarked(s, p, o);
    DoneUntouched(s, p, o, s');
  }

  lemma MarkersKeptForOthers(s: World, p: int, o: Oracle, s': World, q: int, stalls: Stalls)
    requires Inv(s, stalls) && MarkerInv(s) && Stepped(s, p, o, s') && q != p && Live(s', q)
    ensures MarkerOk(s', q)
  {
    StepFrame(s, p, o, s');
    StepFrameTrust(s, p, o, s');
    assert Live(s, q) && MarkerOk(s, q);
    if s.procs[q].m.ctl.RunHeld? {
      assert Possesses(s, q);
      MarkerStays(s, p, o, s', q);
    }
  }

  lemma MarkersKept(s: World, p: int, o: Oracle, s': World, stalls: Stalls)
    requires !s.fs.textFails
    requires Inv(s, stalls) && TrustInv(s) && MarkerInv(s) && Stepped(s, p, o, s')
    ensures MarkerInv(s')
  {
    StepFrame(s, p, o, s');
    StepFrameTrust(s, p, o, s');
    forall q | Live(s', q) ensures MarkerOk(s', q) {
      if q != p { MarkersKeptForOthers(s, p, o, s', q, stalls); }
      else if RequestOf(s, p).AskRun? { BeginKeepsMarkers(s, p, o, s'); }
      else { SelfMarkers(s, p, o, s', stalls); }
    }
  }

  lemma FinisherMarkers(s: World, p: int, ok: bool, dt: nat)
    requires MarkerInv(s) && Enabled(s, Finish(p, ok, dt)) && Live(Apply(s, Finish(p, ok, dt)), p)
    ensures MarkerOk(Apply(s, Finish(p, ok, dt)), p)
  {
    FinishFrame(s, p, ok, dt);
    FinishMarkerFrame(s, p, ok, dt);
    assert MarkerOk(s, p);
  }

  lemma BystanderMarkers(s: World, p: int, ok: bool, dt: nat, q: int)
    requires LocalInv(s) && LockInv(s) && MarkerInv(s) && Enabled(s, Finish(p, ok, dt))
    requires q != p && Live(s, q)
    ensures MarkerOk(Apply(s, Finish(p, ok, dt)), q)
  {
    FinishFrame(s, p, ok, dt);
    FinishMarkerFrame(s, p, ok, dt);
    assert MarkerOk(s, q) && LocalOk(s, q) && LocalOk(s, p);
    if Possesses(s, q) && Possesses(s, p) { SoleOwner(s, p, q); }
  }

  lemma FinishMarkerFrame(s: World, p: int, ok: bool, dt: nat)
    requires Enabled(s, Finish(p, ok, dt))
    ensures
      var s' := Apply(s, Finish(p, ok, dt));
      && s'.procs[p].seen == s.procs[p].seen && s'.procs[p].m.observed == s.procs[p].m.observed
      && (forall n :: n in s'.succeeded ==>
            n in s.succeeded || (s.procs[p].m.ctl.RunHeld? && n == s.procs[p].m.ctl.own.nonce))
  {
  }

  lemma FinishKeepsMarkers(s: World, p: int, ok: bool, dt: nat, stalls: Stalls)
    requires Inv(s, stalls) && MarkerInv(s) && Enabled(s, Finish(p, ok, dt))
    ensures MarkerInv(Apply(s, Finish(p, ok, dt)))
  {
    var s' := Apply(s, Finish(p, ok, dt));
    FinishFrame(s, p, ok, dt);
    FinishMarkerFrame(s, p, ok, dt);
    assert LocalOk(s, p);
    forall q | Live(s', q) ensures MarkerOk(s', q) {
      if q == p { FinisherMarkers(s, p, ok, dt); }
      else { BystanderMarkers(s, p, ok, dt, q); }
    }
  }

  lemma CrashKeepsMarkers(s: World, p: int)
    requires MarkerInv(s) && Live(s, p)
    ensures MarkerInv(Apply(s, Crash(p)))
  {
    CrashFrame(s, p);
    forall q | Live(Apply(s, Crash(p)), q) ensures MarkerOk(Apply(s, Crash(p)), q) { assert MarkerOk(s, q); }
  }

  lemma NextKeepsMarkers(s: World, s': World, stalls: Stalls)
    requires !s.fs.textFails
    requires Inv(s, stalls) && TrustInv(s) && MarkerInv(s) && Next(s, s')
    ensures MarkerInv(s')
  {
    var c :| Enabled(s, c) && s' == Apply(s, c);
    match c {
      case Step(p, o) => MarkersKept(s, p, o, s', stalls);
      case Finish(p, ok, dt) => FinishKeepsMarkers(s, p, ok, dt, stalls);
      case Crash(p) => CrashKeepsMarkers(s, p);
    }
  }

  lemma {:induction false} MarkersAlways(run: seq<World>, i: nat, stalls: Stalls)
    requires IsRun(run) && TimelyRun(run, stalls) && i < |run|
    requires Suffices(run[0].limits, run[0].fs, stalls) && !run[0].fs.textFails
    ensures MarkerInv(run[i])
  {
    if i > 0 {
      MarkersAlways(run, i - 1, stalls);
      InvAlways(run, i - 1, stalls);
      TrustAlways(run, i - 1);
      assert NextAt(run, i - 1);
      NextKeepsMarkers(run[i - 1], run[i], stalls);
    }
  }
}

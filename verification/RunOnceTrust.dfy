/**
 * Whom a caller trusts, and which callers are ever trusted. This holds in every
 * run, whatever its timing: a marker is only ever written by a once caller
 * whose work succeeded, and a caller's trust set holds only owners whose record
 * it read at the lock path or in a tomb of the lock. The world keeps its own
 * account of both (`succeeded`, `seen`, `unearthed`), apart from the machine.
 */
module RunOnceTrust {
  import opened Wrappers
  import opened RunOnceMachine
  import opened RunOnceWorld
  import opened RunOnceFiles
  import opened RunOnceInvariant
  import opened RunOnceSafety
  import opened RunOnceJudgement
  import opened RunOnceMutex

  /** An owner whose work succeeded, and who writes markers. */
  predicate Vouched(s: World, n: Nonce) {
    && n in s.succeeded
    && (n.Issued? ==> 0 <= n.pid < |s.procs| && !s.procs[n.pid].cfg.serialize)
  }

  predicate VouchedText(s: World, text: Option<Text>) {
    text.Some? && text.value.Mark? ==> Vouched(s, text.value.nonce)
  }

  function WasRead(proc: Proc): set<Nonce> {
    proc.seen + proc.unearthed
  }

  predicate TrustsRightly(s: World, p: int, outcome: Outcome)
    requires 0 <= p < |s.procs|
  {
    outcome.Trusted? ==>
      && Vouched(s, outcome.owner) && !s.procs[p].cfg.serialize
      && (outcome.owner in WasRead(s.procs[p]) || s.procs[p].cfg.trustSequentialMs.Some?)
  }

  predicate ReadersHands(proc: Proc) {
    var ctl := proc.m.ctl;
    match ctl
    case ObserveAge(text) => DecodeOwner(text).Some? ==> DecodeOwner(text).value.nonce in WasRead(proc)
    case JudgeAge(_, text) => DecodeOwner(text).Some? ==> DecodeOwner(text).value.nonce in WasRead(proc)
    case TombAge(_, _, text) => DecodeOwner(text).Some? ==> DecodeOwner(text).value.nonce in WasRead(proc)
    case _ => true
  }

  ghost predicate TrustOk(s: World, p: int)
    requires 0 <= p < |s.procs|
  {
    var ctl := s.procs[p].m.ctl;
    var serialize := s.procs[p].cfg.serialize;
    && s.procs[p].m.observed <= WasRead(s.procs[p])
    && (serialize ==> s.procs[p].cfg.trustSequentialMs.None?)
    && ReadersHands(s.procs[p])
    && (ctl.PollNow? && ctl.done.Some? ==> !serialize && VouchedText(s, ctl.done))
    && (ctl.ReadMarker? || ctl.ReadLate? || ctl.MarkNow? || ctl.WriteMark? ==> !serialize)
    && (ctl.MarkNow? || ctl.WriteMark? ==> Vouched(s, ctl.own.nonce))
    && (ctl.PutBack? ==> ctl.moved.Record?)
    && (OutcomeOf(ctl).Some? ==> TrustsRightly(s, p, OutcomeOf(ctl).value))
  }

  ghost predicate TrustInv(s: World) {
    && (forall p :: 0 <= p < |s.procs| ==> TrustOk(s, p))
    && (forall id :: id in s.disk.inodes ==> VouchedText(s, Some(s.disk.inodes[id].text)))
    && (forall p :: 0 <= p < |s.procs| && s.procs[p].deferred.Some? ==>
          VouchedText(s, Some(s.procs[p].deferred.value.text)))
  }

  // ---- one step ----

  lemma StepFrameTrust(s: World, p: int, o: Oracle, s': World)
    requires s.disk.Valid() && Stepped(s, p, o, s')
    ensures s'.succeeded == s.succeeded
    ensures WasRead(s.procs[p]) <= WasRead(s'.procs[p])
    ensures forall n :: Vouched(s, n) ==> Vouched(s', n)
  {
    StepFrame(s, p, o, s');
  }

  /** Whatever a read of a file hands the machine is entered in the world's record of what it read. */
  lemma ReadIsRecorded(s: World, p: int, o: Oracle, s': World)
    requires s.disk.Valid() && Stepped(s, p, o, s') && !RequestOf(s, p).AskRun?
    requires ReadersHands(s.procs[p])
    ensures ReadersHands(s'.procs[p])
  {
    StepFrame(s, p, o, s');
  }

  lemma ObservedIsRead(s: World, p: int, o: Oracle, s': World)
    requires s.disk.Valid() && Stepped(s, p, o, s') && !RequestOf(s, p).AskRun? && TrustOk(s, p)
    ensures s'.procs[p].m.observed <= WasRead(s'.procs[p])
  {
    StepFrame(s, p, o, s');
    StepFrameTrust(s, p, o, s');
    ObservedArises(s.procs[p].cfg, s.procs[p].m, ServedAt(s, p, o).answer, Probe(o));
  }

  lemma ObservedArises(cfg: Config, m: Machine, a: Answer, alive: int -> bool)
    requires !m.ctl.Ended? && Fits(Ask(cfg, m.ctl), a)
    ensures forall n :: n in Resume(cfg, m, a, alive).observed && n !in m.observed ==>
      && (m.ctl.ObserveAge? || m.ctl.JudgeAge? || m.ctl.TombAge?)
      && DecodeOwner(m.ctl.text).Some? && DecodeOwner(m.ctl.text).value.nonce == n
  {
  }

  /** How an outcome arises: only from a marker just read. */
  lemma OutcomeArises(cfg: Config, m: Machine, a: Answer, alive: int -> bool)
    requires !m.ctl.Ended? && Fits(Ask(cfg, m.ctl), a)
    ensures
      var outcome := OutcomeOf(Resume(cfg, m, a, alive).ctl);
      outcome.Some? && outcome.value.Trusted? ==>
        || outcome == OutcomeOf(m.ctl)
        || (m.ctl.PollNow? && m.ctl.done.Some? && m.ctl.done.value == Mark(outcome.value.owner, outcome.value.finishedAt)
            && (outcome.value.owner in m.observed || cfg.trustSequentialMs.Some?))
        || (m.ctl.ReadLate? && a.text == Some(Mark(outcome.value.owner, outcome.value.finishedAt))
            && outcome.value.owner in m.observed)
  {
  }

  lemma MarkerArises(cfg: Config, m: Machine, a: Answer, alive: int -> bool)
    requires !m.ctl.Ended? && Fits(Ask(cfg, m.ctl), a)
    ensures
      var ctl := Resume(cfg, m, a, alive).ctl;
      && (ctl.PollNow? && ctl.done.Some? ==> m.ctl.ReadMarker? && ctl.done == a.text)
      && (ctl.ReadMarker? || ctl.ReadLate? ==> !cfg.serialize)
      && (ctl.MarkNow? ==> m.ctl.RunHeld? && ctl.own == m.ctl.own && !cfg.serialize)
      && (ctl.WriteMark? ==> m.ctl.MarkNow? && ctl.own == m.ctl.own)
      && (ctl.PutBack? ==> ctl.moved.Record?)
  {
  }

  lemma LandedVouched(s: World, p: int, o: Oracle)
    requires s.disk.Valid() && TrustInv(s) && Live(s, p)
    ensures forall id :: id in Landed(s, p, o).inodes ==> VouchedText(s, Some(Landed(s, p, o).inodes[id].text))
  {
    LandKeeps(s.disk, s.procs[p].deferred, Stamp(s, o));
  }

  lemma SelfTrust(s: World, p: int, o: Oracle, s': World)
    requires s.disk.Valid() && TrustInv(s) && Stepped(s, p, o, s') && !RequestOf(s, p).AskRun?
    ensures TrustOk(s', p)
  {
    StepFrame(s, p, o, s');
    StepFrameTrust(s, p, o, s');
    assert TrustOk(s, p);
    LandedVouched(s, p, o);
    ReadIsRecorded(s, p, o, s');
    ObservedIsRead(s, p, o, s');
    OutcomeArises(s.procs[p].cfg, s.procs[p].m, ServedAt(s, p, o).answer, Probe(o));
    MarkerArises(s.procs[p].cfg, s.procs[p].m, ServedAt(s, p, o).answer, Probe(o));
  }

  lemma TrustKeptForOthers(s: World, p: int, o: Oracle, s': World, q: int)
    requires s.disk.Valid() && TrustInv(s) && Stepped(s, p, o, s') && 0 <= q < |s'.procs|
    requires q != p || RequestOf(s, p).AskRun?
    ensures TrustOk(s', q)
  {
    StepFrame(s, p, o, s');
    StepFrameTrust(s, p, o, s');
    assert TrustOk(s, q);
  }

  lemma TrustTextsKept(s: World, p: int, o: Oracle, s': World, id: nat)
    requires s.disk.Valid() && TrustInv(s) && Stepped(s, p, o, s') && id in s'.disk.inodes
    ensures VouchedText(s', Some(s'.disk.inodes[id].text))
  {
    StepFrameTrust(s, p, o, s');
    StepTexts(s, p, o, s', id);
    LandedVouched(s, p, o);
  }

  lemma TrustDeferredKept(s: World, p: int, o: Oracle, s': World)
    requires s.disk.Valid() && TrustInv(s) && Stepped(s, p, o, s') && s'.procs[p].deferred.Some?
    ensures VouchedText(s', Some(s'.procs[p].deferred.value.text))
  {
    StepFrame(s, p, o, s');
    StepFrameTrust(s, p, o, s');
    assert TrustOk(s, p);
  }

  lemma TrustKept(s: World, p: int, o: Oracle, s': World)
    requires s.disk.Valid() && TrustInv(s) && Stepped(s, p, o, s')
    ensures TrustInv(s')
  {
    StepFrame(s, p, o, s');
    StepFrameTrust(s, p, o, s');
    forall q | 0 <= q < |s'.procs| ensures TrustOk(s', q) {
      if q != p || RequestOf(s, p).AskRun? { TrustKeptForOthers(s, p, o, s', q); }
      else { SelfTrust(s, p, o, s'); }
    }
    forall id | id in s'.disk.inodes ensures VouchedText(s', Some(s'.disk.inodes[id].text)) {
      TrustTextsKept(s, p, o, s', id);
    }
    forall q | 0 <= q < |s'.procs| && s'.procs[q].deferred.Some?
      ensures VouchedText(s', Some(s'.procs[q].deferred.value.text))
    {
      if q == p { TrustDeferredKept(s, p, o, s'); }
    }
  }

  lemma FinishTrustFrame(s: World, p: int, ok: bool, dt: nat)
    requires Enabled(s, Finish(p, ok, dt))
    ensures
      var s' := Apply(s, Finish(p, ok, dt));
      && WasRead(s'.procs[p]) == WasRead(s.procs[p]) && s'.procs[p].m.observed == s.procs[p].m.observed
      && s.succeeded <= s'.succeeded
      && (s'.procs[p].m.ctl.MarkNow? ==>
            !s.procs[p].cfg.serialize && s.procs[p].m.ctl.RunHeld? && s.procs[p].m.ctl.own.nonce in s'.succeeded)
      && (OutcomeOf(s'.procs[p].m.ctl).Some? ==> !OutcomeOf(s'.procs[p].m.ctl).value.Trusted?)
  {
  }

  lemma FinishKeepsVouched(s: World, p: int, ok: bool, dt: nat, n: Nonce)
    requires Enabled(s, Finish(p, ok, dt)) && Vouched(s, n)
    ensures Vouched(Apply(s, Finish(p, ok, dt)), n)
  {
    FinishFrame(s, p, ok, dt);
    FinishTrustFrame(s, p, ok, dt);
  }

  lemma FinishKeepsTrustOk(s: World, p: int, ok: bool, dt: nat, q: int)
    requires Inv0(s) && TrustInv(s) && Enabled(s, Finish(p, ok, dt)) && 0 <= q < |s.procs|
    ensures TrustOk(Apply(s, Finish(p, ok, dt)), q)
  {
    FinishFrame(s, p, ok, dt);
    FinishTrustFrame(s, p, ok, dt);
    assert TrustOk(s, q) && LocalOk(s, p);
    forall n | Vouched(s, n) ensures Vouched(Apply(s, Finish(p, ok, dt)), n) { FinishKeepsVouched(s, p, ok, dt, n); }
  }

  lemma FinishKeepsTrust(s: World, p: int, ok: bool, dt: nat)
    requires Inv0(s) && TrustInv(s) && Enabled(s, Finish(p, ok, dt))
    ensures TrustInv(Apply(s, Finish(p, ok, dt)))
  {
    var s' := Apply(s, Finish(p, ok, dt));
    FinishFrame(s, p, ok, dt);
    forall n | Vouched(s, n) ensures Vouched(s', n) { FinishKeepsVouched(s, p, ok, dt, n); }
    forall q | 0 <= q < |s'.procs| ensures TrustOk(s', q) { FinishKeepsTrustOk(s, p, ok, dt, q); }
  }

  lemma NextKeepsTrust(s: World, s': World)
    requires Inv0(s) && TrustInv(s) && Next(s, s')
    ensures Inv0(s') && TrustInv(s')
  {
    var c :| Enabled(s, c) && s' == Apply(s, c);
    match c {
      case Step(p, o) =>
        StepFrame(s, p, o, s');
        LocalKept(s, p, o, s');
        NonceKept(s, p, o, s');
        TrustKept(s, p, o, s');
      case Finish(p, ok, dt) =>
        FinishKeepsNonces(s, p, ok, dt);
        FinishKeepsTrust(s, p, ok, dt);
      case Crash(p) =>
        CrashKeepsTrust(s, p);
    }
  }

  lemma CrashKeepsTrust(s: World, p: int)
    requires Inv0(s) && TrustInv(s) && Live(s, p)
    ensures Inv0(Apply(s, Crash(p))) && TrustInv(Apply(s, Crash(p)))
  {
    var s' := Apply(s, Crash(p));
    CrashKeepsNonces(s, p);
    forall q | 0 <= q < |s'.procs| ensures TrustOk(s', q) { assert TrustOk(s, q); }
  }

  lemma {:induction false} TrustAlways(run: seq<World>, i: nat)
    requires IsRun(run) && i < |run|
    ensures Inv0(run[i]) && TrustInv(run[i])
  {
    if i == 0 {
      InitialInv(run[0], Stalls(0, 0, 0));
    } else {
      TrustAlways(run, i - 1);
      assert NextAt(run, i - 1);
      NextKeepsTrust(run[i - 1], run[i]);
    }
  }
}

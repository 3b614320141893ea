/**
 * Every process of a run has its account: the exchanges it had, each with the
 * step at which the directory answered it. So what a caller's exchanges say of
 * how it ended holds in every run, whatever its timing and faults.
 */
module RunOnceAccounts {
  import opened Wrappers
  import opened RunOnceMachine
  import opened RunOnceWorld
  import opened RunOnceSafety
  import opened RunOnceQuiescence
  import opened RunOnceTalk
  import opened RunOnceGenerator
  import opened RunOnceDriver
  import opened RunOnceOutcomes

  /** From `s` to `s'` process `p` asked `x.request` and the directory answered. */
  ghost predicate Answers(s: World, s': World, p: int, o: Oracle, x: Exchange) {
    && Enabled(s, Step(p, o)) && s' == Apply(s, Step(p, o)) && !RequestOf(s, p).AskRun?
    && x == Exchange(RequestOf(s, p), ServedAt(s, p, o).answer, Probe(o))
  }

  /** From `s` to `s'` the work of process `p` came to its end. */
  ghost predicate Finishes(s: World, s': World, p: int, ok: bool, dt: nat, x: Exchange) {
    && Enabled(s, Finish(p, ok, dt)) && s' == Apply(s, Finish(p, ok, dt))
    && x.request == AskRun && x.answer == Worked(ok)
  }

  /** Exchange `x` of process `p` is step `i` of the run; in a smooth step nothing failed. */
  ghost predicate Happened(run: seq<World>, i: int, p: int, x: Exchange) {
    0 <= i < |run| - 1 && ((exists o :: AnsweredAt(run, i, p, o, x)) || (exists ok, dt :: FinishedAt(run, i, p, ok, dt, x)))
  }

  ghost predicate AnsweredAt(run: seq<World>, i: int, p: int, o: Oracle, x: Exchange) {
    0 <= i < |run| - 1 && Answers(run[i], run[i + 1], p, o, x) && (SmoothAt(run, i) ==> !o.fault)
  }

  ghost predicate FinishedAt(run: seq<World>, i: int, p: int, ok: bool, dt: nat, x: Exchange) {
    0 <= i < |run| - 1 && Finishes(run[i], run[i + 1], p, ok, dt, x)
  }

  /** `t` is what process `p` has said in the run up to `i`, exchange `k` at step `when[k]`. */
  ghost predicate Account(run: seq<World>, i: int, p: int, t: Talk, when: seq<nat>) {
    && 0 <= i < |run| && 0 <= p < |run[i].procs|
    && t.Valid() && t.cfg == run[i].procs[p].cfg && t.Last() == run[i].procs[p].m
    && |when| == |t.said|
    && (forall k :: 0 <= k < |when| ==> Told(run, i, p, t, when, k))
    && (forall j, k :: 0 <= j < k < |when| ==> when[j] < when[k])
  }

  ghost predicate Told(run: seq<World>, i: int, p: int, t: Talk, when: seq<nat>, k: int)
    requires 0 <= i < |run| && |when| == |t.said| == |t.at| - 1 && 0 <= k < |when|
  {
    when[k] < i && 0 <= p < |run[when[k]].procs| && run[when[k]].procs[p].m == t.at[k] && Happened(run, when[k], p, t.said[k])
  }

  // ---- one step of a run ----

  ghost predicate MadeAt(run: seq<World>, i: int, c: Choice) {
    0 <= i < |run| - 1 && Enabled(run[i], c) && run[i + 1] == Apply(run[i], c) && (SmoothAt(run, i) ==> Smooth(c))
  }

  /** The choice made at a step, a smooth one where there is one. */
  lemma ChosenAt(run: seq<World>, i: nat) returns (c: Choice)
    requires IsRun(run) && i < |run| - 1
    ensures MadeAt(run, i, c)
  {
    assert NextAt(run, i);
    var s, s' := run[i], run[i + 1];
    if SmoothAt(run, i) {
      c :| Smooth(c) && Enabled(s, c) && s' == Apply(s, c);
    } else {
      c :| Enabled(s, c) && s' == Apply(s, c);
    }
  }

  /** Only an answered request, or the end of the work, moves a machine, and only its own. */
  lemma MovesOwn(s: World, c: Choice, p: int)
    requires Enabled(s, c) && 0 <= p < |s.procs|
    ensures |Apply(s, c).procs| == |s.procs| && Apply(s, c).procs[p].cfg == s.procs[p].cfg
    ensures c.pid != p || c.Crash? || (c.Step? && RequestOf(s, p).AskRun?) ==> Apply(s, c).procs[p].m == s.procs[p].m
    ensures c.Step? && c.pid == p && !RequestOf(s, p).AskRun? ==>
      Apply(s, c).procs[p].m == Resume(s.procs[p].cfg, s.procs[p].m, ServedAt(s, p, c.o).answer, Probe(c.o))
  {
  }

  lemma FinishMoves(s: World, p: int, ok: bool, dt: nat, alive: int -> bool)
    requires Enabled(s, Finish(p, ok, dt))
    ensures StepsTo(s.procs[p].cfg, s.procs[p].m, Exchange(AskRun, Worked(ok), alive), Apply(s, Finish(p, ok, dt)).procs[p].m)
  {
  }

  /** The account one step further on. */
  lemma TellsMore(run: seq<World>, i: nat, p: int, t: Talk, when: seq<nat>, x: Exchange)
    requires Account(run, i, p, t, when) && i + 1 < |run| && 0 <= p < |run[i + 1].procs|
    requires run[i + 1].procs[p].cfg == run[i].procs[p].cfg
    requires Happened(run, i, p, x) && StepsTo(t.cfg, t.Last(), x, run[i + 1].procs[p].m)
    ensures Account(run, i + 1, p, Also(t, x, run[i + 1].procs[p].m), when + [i])
  {
    var m := run[i + 1].procs[p].m;
    GoesOn(t, x, m);
    var next, t', when' := i + 1, Also(t, x, m), when + [i];
    forall k | 0 <= k < |when'| ensures Told(run, next, p, t', when', k) {
      if k < |when| { assert Told(run, i, p, t, when, k); }
    }
    forall j, k | 0 <= j < k < |when'| ensures when'[j] < when'[k] {
      if k == |when| { assert Told(run, i, p, t, when, j); }
    }
  }

  lemma TellsSame(run: seq<World>, i: nat, p: int, t: Talk, when: seq<nat>)
    requires Account(run, i, p, t, when) && i + 1 < |run| && 0 <= p < |run[i + 1].procs|
    requires run[i + 1].procs[p].cfg == run[i].procs[p].cfg && run[i + 1].procs[p].m == run[i].procs[p].m
    ensures Account(run, i + 1, p, t, when)
  {
    var next := i + 1;
    forall k | 0 <= k < |when| ensures Told(run, next, p, t, when, k) { assert Told(run, i, p, t, when, k); }
  }

  /** Every process has an account. */
  lemma {:induction false} AccountOf(run: seq<World>, i: nat, p: int) returns (t: Talk, when: seq<nat>)
    requires IsRun(run) && i < |run| && 0 <= p < |run[i].procs|
    ensures Account(run, i, p, t, when)
  {
    if i == 0 {
      t, when := Opening(run[0].procs[p].cfg), [];
    } else {
      var c := ChosenAt(run, i - 1);
      assert 0 <= p < |run[i - 1].procs| by { SameProcs(run[i - 1], c); }
      t, when := AccountOf(run, i - 1, p);
      t, when := AccountOn(run, i - 1, p, c, t, when);
    }
  }

  lemma SameProcs(s: World, c: Choice)
    requires Enabled(s, c)
    ensures |Apply(s, c).procs| == |s.procs|
  {
  }

  lemma AccountOn(run: seq<World>, i: nat, p: int, c: Choice, t0: Talk, when0: seq<nat>) returns (t: Talk, when: seq<nat>)
    requires Account(run, i, p, t0, when0) && i + 1 < |run|
    requires MadeAt(run, i, c)
    ensures Account(run, i + 1, p, t, when)
  {
    var s := run[i];
    MovesOwn(s, c, p);
    if c.pid != p || c.Crash? || (c.Step? && RequestOf(s, p).AskRun?) {
      TellsSame(run, i, p, t0, when0);
      t, when := t0, when0;
    } else {
      var x: Exchange;
      if c.Step? {
        x := Exchange(RequestOf(s, p), ServedAt(s, p, c.o).answer, Probe(c.o));
        assert AnsweredAt(run, i, p, c.o, x);
      } else {
        x := Exchange(AskRun, Worked(c.succeeded), Probe(Oracle(0, false, false, [], {})));
        FinishMoves(s, p, c.succeeded, c.dt, x.alive);
        assert FinishedAt(run, i, p, c.succeeded, c.dt, x);
      }
      TellsMore(run, i, p, t0, when0, x);
      t, when := Also(t0, x, run[i + 1].procs[p].m), when0 + [i];
    }
  }

  // ---- working without the lock ----

  /** At unserialized work for this reason, or past it. */
  predicate Alone(ctl: Control, reason: Reason) {
    ctl == RunAlone(reason) || ctl == Ended(RanUnserialized(reason))
  }

  /** At step `i` the directory failed process `p`, which was making the directory or creating its own lock. */
  ghost predicate FailedAt(run: seq<World>, i: int, p: int, o: Oracle) {
    && 0 <= i < |run| - 1 && Enabled(run[i], Step(p, o)) && run[i + 1] == Apply(run[i], Step(p, o)) && o.fault
    && (RequestOf(run[i], p).AskMakeDirectory? || run[i].procs[p].m.ctl.CreateLock?)
  }

  /** The exchange that sent a caller off alone. */
  lemma AloneAt(t: Talk, reason: Reason) returns (k: nat)
    requires t.Valid() && Alone(t.Last().ctl, reason)
    ensures k < |t.said| && t.at[k + 1].ctl == RunAlone(reason)
  {
    var n := |t.said|;
    assert n > 0;
    if t.Last().ctl.Ended? {
      EndsAlone(t, n - 1, reason);
      assert t.at[0] == Start();
      k := n - 2;
    } else {
      k := n - 1;
    }
  }

  lemma RefusedByFault(s: World, s': World, p: int, o: Oracle, x: Exchange)
    requires Answers(s, s', p, o, x)
    requires x.answer == MadeDirectory(false) || x.answer == CreateAnswer(CreateFailed)
    ensures o.fault
  {
  }

  /** The failure behind a refusal, which no smooth step has. */
  lemma RefusalAt(run: seq<World>, i: nat, p: int, t: Talk, when: seq<nat>, k: nat) returns (o: Oracle)
    requires Account(run, i, p, t, when) && k < |t.said| && t.at[k + 1].ctl == RunAlone(LockUnavailable)
    ensures when[k] < i && FailedAt(run, when[k], p, o) && !SmoothAt(run, when[k])
  {
    assert t.Steps(k);
    RefusedArises(t.cfg, t.at[k], t.said[k], t.at[k + 1]);
    assert Told(run, i, p, t, when, k);
    o :| AnsweredAt(run, when[k], p, o, t.said[k]);
    RefusedByFault(run[when[k]], run[when[k] + 1], p, o, t.said[k]);
  }

  /** In every run, who works alone for want of a lock had its own make-directory or lock create fail. */
  lemma AloneByRefusal(run: seq<World>, i: nat, p: int) returns (j: nat, o: Oracle)
    requires IsRun(run) && i < |run| && 0 <= p < |run[i].procs| && Alone(run[i].procs[p].m.ctl, LockUnavailable)
    ensures j < i && FailedAt(run, j, p, o)
  {
    var t, when := AccountOf(run, i, p);
    var k := AloneAt(t, LockUnavailable);
    j := when[k];
    o := RefusalAt(run, i, p, t, when, k);
  }

  /** So where nothing fails, nobody works alone for want of a lock, however many race for it. */
  lemma SmoothNeverUnlocked(run: seq<World>, i: nat, p: int)
    requires IsRun(run) && SmoothRun(run) && i < |run| && 0 <= p < |run[i].procs|
    ensures !Alone(run[i].procs[p].m.ctl, LockUnavailable)
  {
    if Alone(run[i].procs[p].m.ctl, LockUnavailable) {
      var t, when := AccountOf(run, i, p);
      var k := AloneAt(t, LockUnavailable);
      var o := RefusalAt(run, i, p, t, when, k);
    }
  }

  /** The clock a process reads is the one its step leaves. */
  lemma ClockRead(run: seq<World>, i: int, p: int, x: Exchange)
    requires Happened(run, i, p, x) && x.request.AskNow?
    ensures x.answer == Time(run[i + 1].clock)
  {
    var o :| AnsweredAt(run, i, p, o, x);
  }

  /**
   * In every run, who gave up waiting had polled and read the lock as held, at a
   * time more than `waitTimeoutMs` past the clock that set its deadline.
   */
  lemma AloneByTimeout(run: seq<World>, i: nat, p: int) returns (t: Talk, when: seq<nat>, j: nat, d: nat)
    requires IsRun(run) && i < |run| && 0 <= p < |run[i].procs| && Alone(run[i].procs[p].m.ctl, WaitTimeout)
    ensures Account(run, i, p, t, when) && Polls(t, j) && SetsDeadline(t, d) && d < j
    ensures t.said[j].answer.text.Some? || t.said[j + 1].answer.ageMs.Some?
    ensures
      var k := ClockOf(t.cfg, j);
      when[d] < i && when[k] < i && run[when[k] + 1].clock > run[when[d] + 1].clock + t.cfg.limits.waitTimeoutMs
  {
    t, when := AccountOf(run, i, p);
    var k := AloneAt(t, WaitTimeout);
    j, d := TimedOut(t, k);
    assert Told(run, i, p, t, when, k) && Told(run, i, p, t, when, d);
    ClockRead(run, when[k], p, t.said[k]);
    ClockRead(run, when[d], p, t.said[d]);
  }

  /** In every run, a caller past its work under the lock was at it, with the lock it had created itself and seen confirmed. */
  lemma RanHeldLock(run: seq<World>, i: nat, p: int) returns (t: Talk, when: seq<nat>, c: int, own: Owner, w: nat)
    requires IsRun(run) && i < |run| && 0 <= p < |run[i].procs| && WorkedHeld(run[i].procs[p].m.ctl)
    ensures Account(run, i, p, t, when) && WorksUnder(t, c, own, w) && when[w] < i
    ensures 0 <= p < |run[when[w]].procs| && run[when[w]].procs[p].m.ctl.RunHeld?
  {
    t, when := AccountOf(run, i, p);
    c, own, w := RanUnderLock(t, |t.said|);
    assert Told(run, i, p, t, when, w);
  }

  /** In every run, a poll that read a marker to trust ended the call, trusting the owner it names. */
  lemma TrustedInRun(run: seq<World>, i: nat, p: int, t: Talk, when: seq<nat>, j: nat, nonce: Nonce, at: int)
    requires Account(run, i, p, t, when) && Polls(t, j) && ClockOf(t.cfg, j) + 1 == |t.said|
    ensures run[i].procs[p].m.ctl == Ended(Trusted(nonce, at)) <==> MarkerTrusted(t, j, nonce, at)
  {
    TrustExactly(t, j, nonce, at);
  }
}

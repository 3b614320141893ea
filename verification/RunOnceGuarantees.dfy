/** What the run-once lock guarantees over whole runs, and for which limits exactly. */
module RunOnceGuarantees {
  import opened Wrappers
  import opened RunOnceMachine
  import opened RunOnceWorld
  import opened RunOnceFiles
  import opened RunOnceInvariant
  import opened RunOnceSafety
  import opened RunOnceExclusion
  import opened RunOnceTickets
  import opened RunOnceMutex
  import opened RunOnceTrust
  import opened RunOnceMarkers
  import opened RunOnceQuiescence
  import opened RunOnceScenes
  import opened RunOncePhases
  import opened RunOnceLimits
  import opened RunOnceAftermath

  /** A run of these settings in which no live process outstays `stalls`. */
  ghost predicate Within(run: seq<World>, limits: Limits, fs: FileSystem, stalls: Stalls) {
    && IsRun(run) && TimelyRun(run, stalls)
    && run[0].limits == limits && run[0].fs == fs
  }

  lemma ReachedIsWithin(g: Setting, s: World) returns (run: seq<World>)
    requires Reached(g, s)
    ensures Within(run, g.start.limits, g.start.fs, g.stalls) && run[0] == g.start
    ensures run[|run| - 1] == s && (g.smooth ==> SmoothRun(run))
  {
    run :| Follows(run, g) && Last(run) == s;
  }

  // ---- one owner ----

  /** Serialized work never overlaps and a running owner's lock is never displaced. */
  lemma MutualExclusion(run: seq<World>, i: nat, stalls: Stalls)
    requires IsRun(run) && TimelyRun(run, stalls) && i < |run|
    requires Suffices(run[0].limits, run[0].fs, stalls)
    ensures Serialized(run[i])
  {
    OneOwner(run, i, stalls);
    SoleOwnersSerialize(run[i]);
  }

  /** From its create to its release a live owner is alone, and its file is the one at the lock path. */
  ghost predicate SoleOwners(s: World) {
    && (forall p, q :: Possesses(s, p) && Possesses(s, q) ==> p == q)
    && (forall p :: Possesses(s, p) && !s.procs[p].m.ctl.Verify? ==>
          s.disk.TextAt(Lock) == Some(Record(Owned(s.procs[p].m.ctl).value, None)))
  }

  lemma SoleOwnersSerialize(s: World)
    requires SoleOwners(s)
    ensures Serialized(s)
  {
    forall p, q | InsideWork(s, p) && InsideWork(s, q) ensures p == q {
      assert Possesses(s, p) && Possesses(s, q);
    }
    forall p | InsideWork(s, p) ensures s.disk.TextAt(Lock) == Some(Record(s.procs[p].m.ctl.own, None)) {
      assert Possesses(s, p);
    }
  }

  lemma OneOwner(run: seq<World>, i: nat, stalls: Stalls)
    requires IsRun(run) && TimelyRun(run, stalls) && i < |run|
    requires Suffices(run[0].limits, run[0].fs, stalls)
    ensures SoleOwners(run[i])
  {
    var s := run[i];
    InvAlways(run, i, stalls);
    forall p, q | Possesses(s, p) && Possesses(s, q) ensures p == q {
      SoleOwner(s, p, q);
    }
    forall p | Possesses(s, p) && !s.procs[p].m.ctl.Verify?
      ensures s.disk.TextAt(Lock) == Some(Record(Owned(s.procs[p].m.ctl).value, None))
    {
      assert LockHeldBy(s, p);
    }
  }

  ghost predicate SafeUnder(limits: Limits, fs: FileSystem, stalls: Stalls) {
    forall run: seq<World>, i: nat :: Within(run, limits, fs, stalls) && i < |run| ==> Serialized(run[i])
  }

  ghost predicate OwnedUnder(limits: Limits, fs: FileSystem, stalls: Stalls) {
    forall run: seq<World>, i: nat :: Within(run, limits, fs, stalls) && i < |run| ==> SoleOwners(run[i])
  }

  /** Whenever the limits do not suffice, some run within them displaces the lock of an owner at its work. */
  lemma UnsafeBeyond(limits: Limits, fs: FileSystem, stalls: Stalls) returns (run: seq<World>)
    requires !Suffices(limits, fs, stalls)
    ensures Within(run, limits, fs, stalls) && !Serialized(run[|run| - 1])
  {
    var g, poised, own, b, tomb := AnyPoised(limits, fs, stalls, false, 2);
    var moved := PoisedDisplaces(g, poised, own, b, tomb);
    DisplacedIsUnsafe(moved, own, b, tomb);
    run := ReachedIsWithin(g, moved);
  }

  lemma DisplacedIsUnsafe(s: World, own: Owner, b: Breaker, tomb: TombPath)
    requires Displaced(s, own, b, tomb)
    ensures !Serialized(s)
  {
    assert InsideWork(s, CREATOR);
  }

  /** Serialized work is safe in every run, and every lock its owner's, exactly when the limits suffice. */
  lemma LimitsAreExact(limits: Limits, fs: FileSystem, stalls: Stalls)
    ensures SafeUnder(limits, fs, stalls) <==> Suffices(limits, fs, stalls)
    ensures OwnedUnder(limits, fs, stalls) <==> Suffices(limits, fs, stalls)
  {
    if Suffices(limits, fs, stalls) {
      forall run: seq<World>, i: nat | Within(run, limits, fs, stalls) && i < |run|
        ensures Serialized(run[i]) && SoleOwners(run[i])
      {
        MutualExclusion(run, i, stalls);
        OneOwner(run, i, stalls);
      }
    } else {
      var run := UnsafeBeyond(limits, fs, stalls);
      if SoleOwners(run[|run| - 1]) { SoleOwnersSerialize(run[|run| - 1]); }
    }
  }

  /**
   * Where landings stamp files and texts can be read, the documented limits are
   * the exact ones: an owner within `staleMs + waitTimeoutMs`, a creator and a
   * breaker each within `staleMs`. An owner's limit bounds its own create too.
   */
  lemma DocumentedLimits(limits: Limits, fs: FileSystem, stalls: Stalls)
    requires fs.stamps && !fs.textFails
    ensures SafeUnder(limits, fs, stalls) <==>
      && stalls.ownMs <= limits.staleMs + limits.waitTimeoutMs
      && (stalls.createMs <= limits.staleMs || stalls.ownMs <= limits.staleMs)
      && stalls.breakMs <= limits.staleMs
  {
    LimitsAreExact(limits, fs, stalls);
  }

  // ---- one breaker ----

  /** At most one live process is past its scan of the tickets. */
  ghost predicate SoleBreaker(s: World) {
    forall p, q :: PastScan(s, p) && PastScan(s, q) ==> p == q
  }

  /** Create-ticket-then-list admits one breaker, whatever becomes of the locks. */
  lemma OneBreaker(run: seq<World>, i: nat, breakMs: nat)
    requires IsRun(run) && i < |run|
    requires forall k :: 0 <= k < |run| ==> TicketsTimely(run[k], breakMs)
    requires TicketsSuffice(run[0].limits, run[0].fs, breakMs)
    ensures SoleBreaker(run[i])
  {
    TicketsInvAlways(run, i, breakMs);
    forall p, q | PastScan(run[i], p) && PastScan(run[i], q) ensures p == q {
      OneClearedBreaker(run[i], p, q);
    }
  }

  ghost predicate TicketsWithin(run: seq<World>, limits: Limits, fs: FileSystem, breakMs: nat) {
    && IsRun(run) && run[0].limits == limits && run[0].fs == fs
    && forall k :: 0 <= k < |run| ==> TicketsTimely(run[k], breakMs)
  }

  ghost predicate ExclusiveUnder(limits: Limits, fs: FileSystem, breakMs: nat) {
    forall run: seq<World>, i: nat :: TicketsWithin(run, limits, fs, breakMs) && i < |run| ==> SoleBreaker(run[i])
  }

  lemma TwoBreakersBeyond(limits: Limits, fs: FileSystem, breakMs: nat) returns (run: seq<World>)
    requires !TicketsSuffice(limits, fs, breakMs)
    ensures TicketsWithin(run, limits, fs, breakMs) && !SoleBreaker(run[|run| - 1])
  {
    var g := SettingOf(limits, fs, Stalls(0, 0, breakMs), false, true, 2);
    var s := BothPastScan(g, breakMs > limits.staleMs);
    run := ReachedIsWithin(g, s);
    assert forall k :: 0 <= k < |run| ==> Timely(run[k], g.stalls);
  }

  lemma BothPastScan(g: Setting, aged: bool) returns (s: World)
    requires StartsWrecked(g) && !g.smooth
    requires if aged then g.stalls.breakMs > g.start.limits.staleMs else g.start.fs.textFails && g.start.fs.ageFails
    ensures Reached(g, s) && !SoleBreaker(s)
  {
    var b, c := Breaker(Issued(BREAKER, 0), None), Breaker(Issued(CREATOR, 1), None);
    var hold := if aged then g.start.limits.staleMs + 1 else 0;
    s := SlipsPast(g, b, Tomb(b.mine, g.start.clock), c, hold, !aged);
    PastEachOther(s, b, Tomb(b.mine, g.start.clock), c);
  }

  lemma PastEachOther(s: World, b: Breaker, tomb: TombPath, c: Breaker)
    requires At(s, CREATOR, JudgeText(c)) && At(s, BREAKER, TombRename(Breaking(b), tomb))
    ensures !SoleBreaker(s)
  {
    assert PastScan(s, CREATOR) && PastScan(s, BREAKER);
  }

  /** Breakers exclude one another in every run exactly when the tickets' limit suffices. */
  lemma TicketsAreExact(limits: Limits, fs: FileSystem, breakMs: nat)
    ensures ExclusiveUnder(limits, fs, breakMs) <==> TicketsSuffice(limits, fs, breakMs)
  {
    if TicketsSuffice(limits, fs, breakMs) {
      forall run: seq<World>, i: nat | TicketsWithin(run, limits, fs, breakMs) && i < |run|
        ensures SoleBreaker(run[i])
      {
        OneBreaker(run, i, breakMs);
      }
    } else {
      var run := TwoBreakersBeyond(limits, fs, breakMs);
      assert !SoleBreaker(run[|run| - 1]);
    }
  }

  // ---- whom a caller trusts ----

  /**
   * In every run, whatever its timing: a `Trusted` outcome names an owner whose
   * work succeeded and who writes markers; without `trustSequentialMs` it is
   * one whose lock this caller itself read. A serialize caller is never
   * `Trusted`.
   */
  lemma TrustedOutcomes(run: seq<World>, i: nat, p: int)
    requires IsRun(run) && i < |run| && 0 <= p < |run[i].procs|
    requires run[i].procs[p].m.ctl.Ended? && run[i].procs[p].m.ctl.outcome.Trusted?
    ensures
      var proc := run[i].procs[p];
      var owner := proc.m.ctl.outcome.owner;
      && owner in run[i].succeeded
      && !proc.cfg.serialize
      && (proc.cfg.trustSequentialMs.None? ==> owner in WasRead(proc))
  {
    TrustAlways(run, i);
    assert TrustOk(run[i], p);
  }

  /** No process in serialize mode ever writes the done marker, and no marker ever names one. */
  lemma MarkersAreOnceCallers(run: seq<World>, i: nat)
    requires IsRun(run) && i < |run|
    ensures forall p :: Live(run[i], p) && run[i].procs[p].m.ctl.WriteMark? ==> !run[i].procs[p].cfg.serialize
    ensures
      var marker := run[i].disk.TextAt(Done);
      marker.Some? && marker.value.Mark? ==> Vouched(run[i], marker.value.nonce)
  {
    TrustAlways(run, i);
    forall p | Live(run[i], p) && run[i].procs[p].m.ctl.WriteMark? ensures !run[i].procs[p].cfg.serialize {
      assert TrustOk(run[i], p);
    }
  }

  /**
   * A once caller at its work, or about to begin it, faces no marker that names
   * an owner it ever read at the lock path, as long as markers can be read.
   */
  lemma NeverRunsDespiteObservedDone(run: seq<World>, i: nat, p: int, stalls: Stalls)
    requires IsRun(run) && TimelyRun(run, stalls) && i < |run|
    requires Suffices(run[0].limits, run[0].fs, stalls) && !run[0].fs.textFails
    ensures !Unheeding(run[i], p)
  {
    MarkersAlways(run, i, stalls);
    if InsideWork(run[i], p) { assert MarkerOk(run[i], p); }
  }

  ghost predicate HeedsUnder(limits: Limits, fs: FileSystem, stalls: Stalls) {
    forall run: seq<World>, i: nat, p: int :: Within(run, limits, fs, stalls) && i < |run| ==> !Unheeding(run[i], p)
  }

  lemma UnheedingBeyond(limits: Limits, fs: FileSystem, stalls: Stalls) returns (run: seq<World>, p: int)
    requires fs.textFails || !Suffices(limits, fs, stalls)
    ensures Within(run, limits, fs, stalls) && Unheeding(run[|run| - 1], p)
  {
    if fs.textFails { run, p := BlindUnheeding(limits, fs, stalls); }
    else { run, p := StalledUnheeding(limits, fs, stalls); }
  }

  lemma BlindUnheeding(limits: Limits, fs: FileSystem, stalls: Stalls) returns (run: seq<World>, p: int)
    requires fs.textFails
    ensures Within(run, limits, fs, stalls) && Unheeding(run[|run| - 1], p)
  {
    var g := SettingOf(limits, fs, stalls, false, false, 2);
    var s := SecondUnheeding(g);
    p := BREAKER;
    run := ReachedIsWithin(g, s);
  }

  lemma StalledUnheeding(limits: Limits, fs: FileSystem, stalls: Stalls) returns (run: seq<World>, p: int)
    requires !fs.textFails && !Suffices(limits, fs, stalls)
    ensures Within(run, limits, fs, stalls) && Unheeding(run[|run| - 1], p)
  {
    var g, poised, own, b, tomb := AnyPoised(limits, fs, stalls, false, 3);
    var s;
    s, p := PoisedUnheeding(g, poised, own, b, tomb);
    run := ReachedIsWithin(g, s);
  }

  lemma PoisedUnheeding(g: Setting, poised: World, own: Owner, b: Breaker, tomb: TombPath) returns (s: World, p: int)
    requires Reached(g, poised) && Poised(poised, own, b, tomb) && !g.smooth
    requires if b.expected == None then |poised.procs| == 3
             else b.expected == Some(own.nonce) && own.nonce in poised.procs[BREAKER].seen
    ensures Reached(g, s) && Unheeding(s, p)
  {
    if b.expected == None {
      p := WITNESS;
      s := WitnessUnheeding(g, poised, own, b, tomb);
    } else {
      p := BREAKER;
      var moved := PoisedDisplaces(g, poised, own, b, tomb);
      s := BreakerUnheeding(g, moved, own, b, tomb);
    }
  }

  /** Markers are heeded in every run exactly when they can be read and the limits suffice. */
  lemma HeedingIsExact(limits: Limits, fs: FileSystem, stalls: Stalls)
    ensures HeedsUnder(limits, fs, stalls) <==> !fs.textFails && Suffices(limits, fs, stalls)
  {
    if !fs.textFails && Suffices(limits, fs, stalls) {
      forall run: seq<World>, i: nat, p: int | Within(run, limits, fs, stalls) && i < |run| ensures !Unheeding(run[i], p) {
        NeverRunsDespiteObservedDone(run, i, p, stalls);
      }
    } else {
      var run, p := UnheedingBeyond(limits, fs, stalls);
      assert Unheeding(run[|run| - 1], p);
    }
  }

  // ---- what is left behind ----

  ghost predicate AllEnded(s: World) {
    forall p :: 0 <= p < |s.procs| ==> s.procs[p].m.ctl.Ended?
  }

  /** Each lock, ticket or tomb is the very file that was there at the start. */
  ghost predicate Tidy(d0: Disk, d: Disk) {
    forall path :: path in d.paths && path != Done && !path.Alien? ==> Leftover(d0, d, path)
  }

  /**
   * In a run with no crash and no failed operation, once every process has
   * ended, nothing is left that was not there at the start.
   */
  lemma NothingLeftBehind(run: seq<World>, i: nat, stalls: Stalls)
    requires IsRun(run) && TimelyRun(run, stalls) && i < |run| && SmoothRun(run)
    requires Suffices(run[0].limits, run[0].fs, stalls)
    requires AllEnded(run[i])
    ensures Tidy(run[0].disk, run[i].disk)
  {
    TidyAlways(run, i, stalls);
    forall path | path in run[i].disk.paths && path != Done && !path.Alien?
      ensures Leftover(run[0].disk, run[i].disk, path)
    {
      assert Tended(run[0].disk, run[i], path);
    }
  }

  predicate PuttingBack(s: World, p: int) {
    Live(s, p) && s.procs[p].m.ctl.PutBack?
  }

  /** In such a run a lock or ticket moved aside is always the one judged: nothing is ever put back. */
  lemma NothingPutBack(run: seq<World>, i: nat, p: int, stalls: Stalls)
    requires IsRun(run) && TimelyRun(run, stalls) && i < |run| && SmoothRun(run)
    requires Suffices(run[0].limits, run[0].fs, stalls)
    ensures !PuttingBack(run[i], p)
  {
    TidyAlways(run, i, stalls);
    if Live(run[i], p) { assert TombOk(run[0].disk, run[i], p); }
  }

  /** In such a run no operation fails, so it is one of a host whose operations never do. */
  ghost predicate SmoothWithin(run: seq<World>, limits: Limits, stamps: bool, stalls: Stalls) {
    Within(run, limits, Reliable(stamps), stalls) && SmoothRun(run)
  }

  ghost predicate TidyUnder(limits: Limits, stamps: bool, stalls: Stalls) {
    forall run: seq<World>, i: nat :: SmoothWithin(run, limits, stamps, stalls) && i < |run| && AllEnded(run[i]) ==>
      Tidy(run[0].disk, run[i].disk)
  }

  ghost predicate KeepsUnder(limits: Limits, stamps: bool, stalls: Stalls) {
    forall run: seq<World>, i: nat, p: int :: SmoothWithin(run, limits, stamps, stalls) && i < |run| ==> !PuttingBack(run[i], p)
  }

  /** Whenever the limits do not suffice, some smooth run puts a lock back for nobody, and leaves it. */
  lemma UntidyBeyond(limits: Limits, stamps: bool, stalls: Stalls) returns (run: seq<World>, putting: seq<World>, p: int)
    requires !Suffices(limits, Reliable(stamps), stalls)
    ensures SmoothWithin(run, limits, stamps, stalls)
    ensures AllEnded(run[|run| - 1]) && !Tidy(run[0].disk, run[|run| - 1].disk)
    ensures SmoothWithin(putting, limits, stamps, stalls) && PuttingBack(putting[|putting| - 1], p)
  {
    var g, poised, own, b, tomb := AnyPoised(limits, Reliable(stamps), stalls, true, 2);
    var moved := PoisedDisplaces(g, poised, own, b, tomb);
    var restoring, left: World;
    if b.expected == None {
      p := BREAKER;
      restoring, left := RestoresForNobody(g, moved, own, b, tomb);
    } else {
      p := CREATOR;
      restoring, left := RestoresTheirs(g, moved, own, b, tomb);
    }
    NewLockIsUntidy(g.start.disk, left.disk);
    run := ReachedIsWithin(g, left);
    putting := ReachedIsWithin(g, restoring);
  }

  lemma NewLockIsUntidy(d0: Disk, d: Disk)
    requires Lock in d.paths && (Lock in d0.paths ==> d0.paths[Lock] == 0 && d.paths[Lock] >= 1)
    ensures !Tidy(d0, d)
  {
    assert !Leftover(d0, d, Lock);
  }

  /** Smooth runs are tidy, and put nothing back, exactly when the limits suffice. */
  lemma TidinessIsExact(limits: Limits, stamps: bool, stalls: Stalls)
    ensures TidyUnder(limits, stamps, stalls) <==> Suffices(limits, Reliable(stamps), stalls)
    ensures KeepsUnder(limits, stamps, stalls) <==> Suffices(limits, Reliable(stamps), stalls)
  {
    if Suffices(limits, Reliable(stamps), stalls) {
      forall run: seq<World>, i: nat | SmoothWithin(run, limits, stamps, stalls) && i < |run| && AllEnded(run[i])
        ensures Tidy(run[0].disk, run[i].disk)
      {
        NothingLeftBehind(run, i, stalls);
      }
      forall run: seq<World>, i: nat, p: int | SmoothWithin(run, limits, stamps, stalls) && i < |run| ensures !PuttingBack(run[i], p) {
        NothingPutBack(run, i, p, stalls);
      }
    } else {
      var run, putting, p := UntidyBeyond(limits, stamps, stalls);
      assert !Tidy(run[0].disk, run[|run| - 1].disk);
      assert PuttingBack(putting[|putting| - 1], p);
    }
  }
}

/**
 * What follows when a breaker moves the lock of an owner at its work: the same
 * limits that keep the work serialized keep the directory tidy and the done
 * marker heeded. The owner's release finds its lock gone while the breaker puts
 * it back, and nobody is left to remove it; or the owner writes its marker
 * while a caller that saw its lock is already at work under another.
 */
module RunOnceAftermath {
  import opened Wrappers
  import opened RunOnceMachine
  import opened RunOnceWorld
  import opened RunOnceInvariant
  import opened RunOnceSafety
  import opened RunOnceMutex
  import opened RunOnceScenes
  import opened RunOncePhases
  import opened RunOnceLimits

  lemma NobodyBound(g: Setting, s: World, dt: nat)
    requires Lock !in s.disk.paths || forall q :: Live(s, q) ==> Owned(s.procs[q].m.ctl).None?
    requires forall q :: Live(s, q) ==> Holding(s.procs[q].m.ctl).None?
    ensures Patient(g, s, dt)
  {
    assert forall q :: Live(s.(clock := s.clock + dt), q) ==> Live(s, q);
  }

  /** The lock is gone, the breaker has it in its tomb, and its owner is at its work. */
  ghost predicate Displaced(s: World, own: Owner, b: Breaker, tomb: TombPath) {
    && At(s, CREATOR, RunHeld(own)) && At(s, BREAKER, TombText(Breaking(b), tomb))
    && Lock !in s.disk.paths && Done !in s.disk.paths && s.disk.TextAt(tomb) == Some(Record(own, None))
    && (forall path: Path :: path in s.disk.paths && (path.Tomb? || path.OldTomb?) ==> path == tomb)
    && (forall q :: 2 <= q < |s.procs| ==> At(s, q, MakeDir))
  }

  lemma PoisedDisplaces(g: Setting, s: World, own: Owner, b: Breaker, tomb: TombPath) returns (s': World)
    requires Reached(g, s) && Poised(s, own, b, tomb)
    ensures Reached(g, s') && Displaced(s', own, b, tomb) && |s'.procs| == |s.procs| && s'.limits == s.limits
    ensures s.procs[BREAKER].seen <= s'.procs[BREAKER].seen
  {
    assert tomb !in s.disk.paths;
    s' := Displaces(g, s, own, b, tomb);
    MovedIsDisplaced(s, s', own, b, tomb);
  }

  lemma MovedIsDisplaced(s: World, s': World, own: Owner, b: Breaker, tomb: TombPath)
    requires Poised(s, own, b, tomb) && Alone(s, BREAKER, s') && At(s', BREAKER, TombText(Breaking(b), tomb))
    requires s'.disk == s.disk.Move(Lock, tomb)
    ensures Displaced(s', own, b, tomb)
  {
    MoveFacts(s.disk, tomb);
    forall q | 2 <= q < |s'.procs| ensures At(s', q, MakeDir) { assert At(s, q, MakeDir); }
  }

  // ---- a lock put back that nobody owns any more ----

  /** The owner's release finds its lock gone; the breaker then has a dead owner's record to put back. */
  lemma OwnerLeaves(g: Setting, s: World, own: Owner, b: Breaker, tomb: TombPath) returns (s': World)
    requires Reached(g, s) && Displaced(s, own, b, tomb)
    ensures Reached(g, s') && Leaves(s, CREATOR, s', s.disk) && s'.clock == s.clock
  {
    s' := Stops(g, s, CREATOR, own);
    s' := FindsGone(g, s', CREATOR, own, Tomb(own.nonce, s.clock));
  }

  lemma BreakerRefuses(g: Setting, s: World, own: Owner, b: Breaker, tomb: TombPath) returns (s': World)
    requires Reached(g, s) && At(s, BREAKER, TombText(Breaking(b), tomb)) && b.expected == None
    requires s.disk.TextAt(tomb) == Some(Record(own, None))
    ensures Reached(g, s') && Brings(s, BREAKER, s', PutBack(Breaking(b), tomb, Record(own, None)), s.disk, 0)
  {
    s' := OpensTomb(g, s, BREAKER, Breaking(b), tomb);
    s' := RefusesOwner(g, s', own, b, tomb);
  }

  lemma RefusesOwner(g: Setting, s: World, own: Owner, b: Breaker, tomb: TombPath) returns (s': World)
    requires Reached(g, s) && At(s, BREAKER, TombAge(Breaking(b), tomb, Some(Record(own, None))))
    requires b.expected == None && AgeOf(s.disk, tomb, s.clock).Some?
    ensures Reached(g, s') && Brings(s, BREAKER, s', PutBack(Breaking(b), tomb, Record(own, None)), s.disk, 0)
  {
    s' := Refuses(g, s, BREAKER, Breaking(b), tomb, Record(own, None));
  }

  /** The put-back succeeds; the breaker clears up and polls a lock whose owner has left. */
  lemma BreakerRestores(g: Setting, s: World, own: Owner, b: Breaker, tomb: TombPath) returns (s': World)
    requires Reached(g, s) && At(s, BREAKER, PutBack(Breaking(b), tomb, Record(own, None)))
    requires Lock !in s.disk.paths && Done !in s.disk.paths && tomb in s.disk.paths
    ensures Reached(g, s') && Alone(s, BREAKER, s') && At(s', BREAKER, ObserveText)
    ensures Lock in s'.disk.paths && s'.disk.paths[Lock] >= 1 && s'.disk.FileAt(Lock).Some? && Done !in s'.disk.paths
  {
    var pending := Some(Deferred(s.disk.nextInode, Record(own, None)));
    InodesCount(g, s, tomb);
    var restored := PutsBack(g, s, BREAKER, Breaking(b), tomb, Record(own, None));
    RestoredDisk(s.disk, restored, pending, tomb, Ticket(b.mine));
    s' := Disbands(g, restored, BREAKER, b, tomb, Restored, pending);
  }

  lemma RestoredDisk(d: Disk, s: World, pending: Option<Deferred>, tomb: Path, ticket: Path)
    requires s.disk == d.Bind(Lock, s.clock) && Done !in d.paths && d.nextInode >= 1 && !tomb.Lock? && !ticket.Lock?
    ensures
      var d' := Landing(s, pending).Unlink(tomb).Unlink(ticket);
      Lock in d'.paths && d'.paths[Lock] >= 1 && d'.FileAt(Lock).Some? && Done !in d'.paths
  {
  }

  lemma InodesCount(g: Setting, s: World, path: Path)
    requires Reached(g, s) && path in s.disk.paths
    ensures s.disk.nextInode >= 1
  {
    ReachedIsValid(g, s);
  }

  /** It waits past its deadline, works alone and leaves the lock behind. */
  lemma BreakerLeaves(g: Setting, s: World) returns (s': World)
    requires Reached(g, s) && |s.procs| == 2 && s.procs[CREATOR].m.ctl.Ended? && At(s, BREAKER, ObserveText)
    requires s.disk.FileAt(Lock).Some? && Done !in s.disk.paths
    ensures Reached(g, s') && Leaves(s, BREAKER, s', s.disk)
  {
    var lock := Found(s.disk.TextAt(Lock), AgeOf(s.disk, Lock, s.clock));
    s' := Looks(g, s, BREAKER, false);
    s' := BreakerTires(g, s', lock);
    s' := RunsAlone(g, s', BREAKER, WaitTimeout);
  }

  lemma BreakerTires(g: Setting, s: World, lock: LockState) returns (s': World)
    requires Reached(g, s) && |s.procs| == 2 && s.procs[CREATOR].m.ctl.Ended?
    requires At(s, BREAKER, PollNow(lock, None)) && lock.Held?
    ensures Reached(g, s') && Alone(s, BREAKER, s') && At(s', BREAKER, RunAlone(WaitTimeout))
    ensures s'.disk == s.disk && s'.serial == s.serial
  {
    var deadline := s.procs[BREAKER].m.deadline;
    var dt := if deadline >= s.clock then deadline - s.clock + 1 else 0;
    NobodyBound(g, s, dt);
    s' := GivesUp(g, s, BREAKER, lock, dt);
  }

  ghost predicate LeavesLock(s: World) {
    && (forall q :: 0 <= q < |s.procs| ==> s.procs[q].m.ctl.Ended?)
    && Lock in s.disk.paths && s.disk.paths[Lock] >= 1
  }

  /** A breaker with no record in mind refuses what it moved: it puts it back, for nobody. */
  lemma RestoresForNobody(g: Setting, s: World, own: Owner, b: Breaker, tomb: TombPath)
    returns (putting: World, left: World)
    requires Reached(g, s) && Displaced(s, own, b, tomb) && b.expected == None && |s.procs| == 2
    ensures Reached(g, putting) && Live(putting, BREAKER) && putting.procs[BREAKER].m.ctl.PutBack?
    ensures Reached(g, left) && LeavesLock(left)
  {
    var ended := OwnerLeaves(g, s, own, b, tomb);
    putting := BreakerRefuses(g, ended, own, b, tomb);
    var restored := BreakerRestores(g, putting, own, b, tomb);
    left := BreakerLeaves(g, restored);
  }

  // ---- a takeover of a living owner ----

  /** The breaker accepts what it moved, and makes a lock of its own. */
  lemma BreakerTakesOver(g: Setting, s: World, own: Owner, b: Breaker, tomb: TombPath) returns (s': World, theirs: Owner)
    requires Reached(g, s) && Displaced(s, own, b, tomb) && b.expected == Some(own.nonce)
    ensures Reached(g, s') && Alone(s, BREAKER, s') && At(s', BREAKER, RunHeld(theirs)) && s'.clock == s.clock
    ensures s'.disk.TextAt(Lock) == Some(Record(theirs, None)) && Done !in s'.disk.paths && NoTombs(s'.disk)
    ensures theirs.nonce != own.nonce
  {
    OwnNonce(g, s, own);
    s' := BreakerClears(g, s, own, b, tomb);
    s', theirs := BreakerOwns(g, s');
  }

  lemma BreakerOwns(g: Setting, s: World) returns (s': World, theirs: Owner)
    requires Reached(g, s) && At(s, BREAKER, ObserveText) && Lock !in s.disk.paths && Done !in s.disk.paths
    requires NoTombs(s.disk)
    ensures Reached(g, s') && Alone(s, BREAKER, s') && At(s', BREAKER, RunHeld(theirs)) && s'.clock == s.clock
    ensures s'.disk.TextAt(Lock) == Some(Record(theirs, None)) && Done !in s'.disk.paths && NoTombs(s'.disk)
    ensures theirs.nonce == Issued(BREAKER, s.serial)
  {
    theirs := OwnerOf(s, BREAKER);
    LockPosted(g, s, theirs);
    s' := Owns(g, s, BREAKER, false);
  }

  lemma OwnNonce(g: Setting, s: World, own: Owner)
    requires Reached(g, s) && At(s, CREATOR, RunHeld(own))
    ensures own.nonce.Issued? && own.nonce.pid == CREATOR
  {
    ReachedIsSound(g, s);
    assert LocalOk(s, CREATOR);
  }

  lemma BreakerClears(g: Setting, s: World, own: Owner, b: Breaker, tomb: TombPath) returns (s': World)
    requires Reached(g, s) && Displaced(s, own, b, tomb) && b.expected == Some(own.nonce)
    ensures Reached(g, s')
    ensures Brings(s, BREAKER, s', ObserveText, s.disk.Unlink(tomb).Unlink(Ticket(b.mine)), 0)
  {
    s' := BreakerAccepts(g, s, own, b, tomb);
    s' := Disbands(g, s', BREAKER, b, tomb, Deleted, None);
  }

  lemma BreakerAccepts(g: Setting, s: World, own: Owner, b: Breaker, tomb: TombPath) returns (s': World)
    requires Reached(g, s) && At(s, BREAKER, TombText(Breaking(b), tomb)) && b.expected == Some(own.nonce)
    requires s.disk.TextAt(tomb) == Some(Record(own, None))
    ensures Reached(g, s') && Brings(s, BREAKER, s', TombRemove(Breaking(b), tomb, Deleted), s.disk, 0)
  {
    s' := OpensTomb(g, s, BREAKER, Breaking(b), tomb);
    s' := AcceptsOwner(g, s', own, b, tomb);
  }

  lemma AcceptsOwner(g: Setting, s: World, own: Owner, b: Breaker, tomb: TombPath) returns (s': World)
    requires Reached(g, s) && At(s, BREAKER, TombAge(Breaking(b), tomb, Some(Record(own, None))))
    requires b.expected == Some(own.nonce) && AgeOf(s.disk, tomb, s.clock).Some?
    ensures Reached(g, s') && Brings(s, BREAKER, s', TombRemove(Breaking(b), tomb, Deleted), s.disk, 0)
  {
    s' := Confirms(g, s, BREAKER, Breaking(b), tomb, Record(own, None));
  }

  /** The first owner's release moves the second one's lock; the second one's finds it gone. */
  lemma BothRelease(g: Setting, s: World, own: Owner, theirs: Owner) returns (s': World)
    requires Reached(g, s) && At(s, CREATOR, RunHeld(own)) && At(s, BREAKER, RunHeld(theirs))
    requires s.disk.TextAt(Lock) == Some(Record(theirs, None)) && NoTombs(s.disk) && theirs.nonce != own.nonce
    ensures Reached(g, s') && |s'.procs| == |s.procs| && s'.procs[BREAKER].m.ctl.Ended?
    ensures At(s', CREATOR, PutBack(Releasing(own, 0, Ran), Tomb(own.nonce, s.clock), Record(theirs, None)))
    ensures Lock !in s'.disk.paths && Tomb(own.nonce, s.clock) in s'.disk.paths
  {
    s' := CreatorReleases(g, s, own, theirs);
    MoveFacts(s.disk, Tomb(own.nonce, s.clock));
    s' := BreakerGoes(g, s', theirs);
  }

  lemma BreakerGoes(g: Setting, s: World, theirs: Owner) returns (s': World)
    requires Reached(g, s) && At(s, BREAKER, RunHeld(theirs)) && Lock !in s.disk.paths
    ensures Reached(g, s') && Leaves(s, BREAKER, s', s.disk) && s'.clock == s.clock
  {
    s' := Stops(g, s, BREAKER, theirs);
    s' := FindsGone(g, s', BREAKER, theirs, Tomb(theirs.nonce, s.clock));
  }

  lemma CreatorReleases(g: Setting, s: World, own: Owner, theirs: Owner) returns (s': World)
    requires Reached(g, s) && At(s, CREATOR, RunHeld(own)) && NoTombs(s.disk) && theirs.nonce != own.nonce
    requires s.disk.TextAt(Lock) == Some(Record(theirs, None))
    ensures Reached(g, s')
    ensures
      var grave := Tomb(own.nonce, s.clock);
      Brings(s, CREATOR, s', PutBack(Releasing(own, 0, Ran), grave, Record(theirs, None)), s.disk.Move(Lock, grave), 0)
  {
    var grave := Tomb(own.nonce, s.clock);
    MoveFacts(s.disk, grave);
    s' := Stops(g, s, CREATOR, own);
    s' := Exhumes(g, s', CREATOR, Releasing(own, 0, Ran), grave, Record(theirs, None));
    s' := CreatorRefuses(g, s', own, grave, theirs);
  }

  lemma CreatorRefuses(g: Setting, s: World, own: Owner, grave: TombPath, theirs: Owner) returns (s': World)
    requires Reached(g, s) && At(s, CREATOR, TombAge(Releasing(own, 0, Ran), grave, Some(Record(theirs, None))))
    requires theirs.nonce != own.nonce && AgeOf(s.disk, grave, s.clock).Some?
    ensures Reached(g, s')
    ensures Brings(s, CREATOR, s', PutBack(Releasing(own, 0, Ran), grave, Record(theirs, None)), s.disk, 0)
  {
    s' := Refuses(g, s, CREATOR, Releasing(own, 0, Ran), grave, Record(theirs, None));
  }

  /** ... and the first puts back a lock that nobody owns any more. */
  lemma CreatorLeaves(g: Setting, s: World, own: Owner, grave: TombPath, text: Text) returns (s': World)
    requires Reached(g, s) && At(s, CREATOR, PutBack(Releasing(own, 0, Ran), grave, text))
    requires Lock !in s.disk.paths && grave in s.disk.paths
    ensures Reached(g, s') && Alone(s, CREATOR, s') && s'.procs[CREATOR].m.ctl.Ended? && Lock in s'.disk.paths
  {
    s' := PutsBack(g, s, CREATOR, Releasing(own, 0, Ran), grave, text);
    s' := Released(g, s', CREATOR, own, grave, Restored, Some(Deferred(s.disk.nextInode, text)));
  }

  lemma RestoresTaken(g: Setting, s: World, own: Owner, theirs: Owner) returns (putting: World, left: World)
    requires Reached(g, s) && At(s, CREATOR, RunHeld(own)) && At(s, BREAKER, RunHeld(theirs)) && |s.procs| == 2
    requires s.disk.TextAt(Lock) == Some(Record(theirs, None)) && NoTombs(s.disk) && theirs.nonce != own.nonce
    ensures Reached(g, putting) && Live(putting, CREATOR) && putting.procs[CREATOR].m.ctl.PutBack?
    ensures Reached(g, left) && Lock in left.disk.paths
    ensures forall q :: 0 <= q < |left.procs| ==> left.procs[q].m.ctl.Ended?
  {
    putting := BothRelease(g, s, own, theirs);
    left := CreatorLeaves(g, putting, own, Tomb(own.nonce, s.clock), Record(theirs, None));
  }

  lemma RestoresTheirs(g: Setting, s: World, own: Owner, b: Breaker, tomb: TombPath)
    returns (putting: World, left: World)
    requires Reached(g, s) && Displaced(s, own, b, tomb) && b.expected == Some(own.nonce) && |s.procs| == 2
    ensures Reached(g, putting) && Live(putting, CREATOR) && putting.procs[CREATOR].m.ctl.PutBack?
    ensures Reached(g, left) && Lock in left.disk.paths
    ensures forall q :: 0 <= q < |left.procs| ==> left.procs[q].m.ctl.Ended?
  {
    var taken, theirs := BreakerTakesOver(g, s, own, b, tomb);
    putting, left := RestoresTaken(g, taken, own, theirs);
  }

  // ---- a marker that names an observed owner ----

  /** A caller at its work faces a marker that names an owner it read at the lock path. */
  predicate Unheeding(s: World, p: int) {
    && InsideWork(s, p) && !s.procs[p].cfg.serialize
    && var marker := s.disk.TextAt(Done);
       marker.Some? && marker.value.Mark? && marker.value.nonce in s.procs[p].seen
  }

  /** Its owner's work succeeds while `p` is at its own: the marker comes too late. */
  lemma MarksTooLate(g: Setting, s: World, own: Owner, theirs: Owner, p: int) returns (s': World)
    requires Reached(g, s) && At(s, CREATOR, RunHeld(own)) && p != CREATOR && At(s, p, RunHeld(theirs))
    requires Done !in s.disk.paths && own.nonce in s.procs[p].seen
    ensures Reached(g, s') && Unheeding(s', p)
  {
    MarkPosted(g, s, own);
    s' := Marks(g, s, CREATOR, own);
  }

  /** The breaker itself saw the lock it took over. */
  lemma BreakerUnheeding(g: Setting, s: World, own: Owner, b: Breaker, tomb: TombPath) returns (s': World)
    requires Reached(g, s) && Displaced(s, own, b, tomb) && b.expected == Some(own.nonce)
    requires own.nonce in s.procs[BREAKER].seen
    ensures Reached(g, s') && Unheeding(s', BREAKER)
  {
    var taken, theirs := BreakerTakesOver(g, s, own, b, tomb);
    s' := MarksTooLate(g, taken, own, theirs, BREAKER);
  }

  /** A third caller polls the lock before it is moved. */
  lemma WitnessSees(g: Setting, s: World, own: Owner, b: Breaker, tomb: TombPath) returns (s': World)
    requires Reached(g, s) && Poised(s, own, b, tomb) && |s.procs| == 3
    ensures Reached(g, s') && Alone(s, WITNESS, s') && s'.disk == s.disk && s'.clock == s.clock
    ensures At(s', WITNESS, ObserveAge(Some(Record(own, None)))) && own.nonce in s'.procs[WITNESS].seen
    ensures s'.procs[WITNESS].m.deadline >= s'.clock
  {
    assert At(s, WITNESS, MakeDir);
    s' := WitnessComes(g, s);
    s' := LooksAtText(g, s', WITNESS, false);
  }

  lemma WitnessComes(g: Setting, s: World) returns (s': World)
    requires Reached(g, s) && At(s, WITNESS, MakeDir) && NoTombs(s.disk)
    ensures Reached(g, s') && Alone(s, WITNESS, s') && At(s', WITNESS, ObserveText)
    ensures s'.disk == s.disk && s'.clock == s.clock && s'.procs[WITNESS].m.deadline >= s'.clock
  {
    PatientNow(g, s);
    s' := Arrives(g, s, WITNESS, 0);
  }

  /** The put-back fails, and the breaker clears up. */
  lemma BreakerLoses(g: Setting, s: World, own: Owner, b: Breaker, tomb: TombPath) returns (s': World)
    requires Reached(g, s) && At(s, BREAKER, TombText(Breaking(b), tomb)) && b.expected == None && !g.smooth
    requires s.disk.TextAt(tomb) == Some(Record(own, None))
    ensures Reached(g, s')
    ensures Brings(s, BREAKER, s', ObserveText, s.disk.Unlink(tomb).Unlink(Ticket(b.mine)), 0)
  {
    s' := BreakerDrops(g, s, own, b, tomb);
    s' := Disbands(g, s', BREAKER, b, tomb, Lost, None);
  }

  lemma BreakerDrops(g: Setting, s: World, own: Owner, b: Breaker, tomb: TombPath) returns (s': World)
    requires Reached(g, s) && At(s, BREAKER, TombText(Breaking(b), tomb)) && b.expected == None && !g.smooth
    requires s.disk.TextAt(tomb) == Some(Record(own, None))
    ensures Reached(g, s') && Brings(s, BREAKER, s', TombRemove(Breaking(b), tomb, Lost), s.disk, 0)
  {
    s' := BreakerRefuses(g, s, own, b, tomb);
    s' := LosesIt(g, s', BREAKER, Breaking(b), tomb, Record(own, None));
  }

  /** The witness finds the lock's age gone, and waits. */
  lemma WitnessWaits(g: Setting, s: World, own: Owner) returns (s': World)
    requires Reached(g, s) && At(s, WITNESS, ObserveAge(Some(Record(own, None)))) && own.host == HOST
    requires Lock !in s.disk.paths && Done !in s.disk.paths && s.clock <= s.procs[WITNESS].m.deadline
    ensures Reached(g, s') && Brings(s, WITNESS, s', Pause, s.disk, 0)
  {
    var lock := Found(Some(Record(own, None)), None);
    s' := LooksAtAge(g, s, WITNESS, Some(Record(own, None)));
    s' := LooksAtMarker(g, s', WITNESS, lock, false);
    s' := Waits(g, s', WITNESS, lock);
  }

  /** With the lock moved and not put back, the witness makes its own. */
  lemma WitnessWorks(g: Setting, s: World, own: Owner) returns (s': World, theirs: Owner)
    requires Reached(g, s) && |s.procs| == 3 && At(s, CREATOR, RunHeld(own)) && At(s, BREAKER, ObserveText)
    requires At(s, WITNESS, Pause) && Lock !in s.disk.paths && Done !in s.disk.paths
    ensures Reached(g, s') && Alone(s, WITNESS, s') && At(s', WITNESS, RunHeld(theirs)) && Done !in s'.disk.paths
  {
    NobodyBound(g, s, s.limits.pollMs);
    s' := Wakes(g, s, WITNESS);
    theirs := OwnerOf(s', WITNESS);
    LockPosted(g, s', theirs);
    s' := Owns(g, s', WITNESS, false);
  }

  lemma OwnHost(g: Setting, s: World, own: Owner)
    requires Reached(g, s) && At(s, CREATOR, RunHeld(own))
    ensures own.host == HOST
  {
    ReachedIsSound(g, s);
    assert LocalOk(s, CREATOR);
  }

  /** The witness saw the lock that was moved from under its owner. */
  lemma WitnessUnheeding(g: Setting, s: World, own: Owner, b: Breaker, tomb: TombPath) returns (s': World)
    requires Reached(g, s) && Poised(s, own, b, tomb) && |s.procs| == 3 && b.expected == None && !g.smooth
    ensures Reached(g, s') && Unheeding(s', WITNESS)
  {
    OwnHost(g, s, own);
    MoveFacts(s.disk, tomb);
    var seen := WitnessSees(g, s, own, b, tomb);
    var moved := Moves(g, seen, BREAKER, Breaking(b), tomb);
    var lost := BreakerLoses(g, moved, own, b, tomb);
    var waiting := WitnessWaits(g, lost, own);
    var working, theirs := WitnessWorks(g, waiting, own);
    s' := MarksTooLate(g, working, own, theirs, WITNESS);
  }

  // ---- a marker that cannot be read ----

  /** A second caller sees the lock of the first, and pauses. */
  lemma SecondPauses(g: Setting) returns (s: World, own: Owner)
    requires StartsClean(g)
    ensures Reached(g, s) && Idle(g, s) && At(s, CREATOR, RunHeld(own)) && At(s, BREAKER, Pause)
    ensures s.disk.paths == map[Lock := 0] && s.disk.TextAt(Lock) == Some(Record(own, None))
    ensures own.nonce in s.procs[BREAKER].seen
  {
    var aged: World;
    aged, own := OwnerAges(g, 0);
    s := SecondWaits(g, aged, own);
    IdleStays(g, aged, BREAKER, s);
  }

  lemma SecondWaits(g: Setting, s: World, own: Owner) returns (s': World)
    requires Reached(g, s) && At(s, BREAKER, ObserveText) && Done !in s.disk.paths && own.host == HOST
    requires s.disk.FileAt(Lock) == Some(Inode(Record(own, None), s.clock)) && s.clock <= s.procs[BREAKER].m.deadline
    ensures Reached(g, s') && Brings(s, BREAKER, s', Pause, s.disk, 0) && own.nonce in s'.procs[BREAKER].seen
  {
    s' := Looks(g, s, BREAKER, false);
    s' := Waits(g, s', BREAKER, Found(Some(Record(own, None)), Some(0)));
  }

  /** The first marks its success and releases. */
  lemma FirstReleases(g: Setting, s: World, own: Owner) returns (s': World)
    requires Reached(g, s) && At(s, CREATOR, RunHeld(own)) && Done !in s.disk.paths && NoTombs(s.disk)
    requires s.disk.TextAt(Lock) == Some(Record(own, None))
    ensures Reached(g, s') && Alone(s, CREATOR, s') && s'.procs[CREATOR].m.ctl.Ended?
    ensures Lock !in s'.disk.paths && s'.disk.TextAt(Done) == Some(Mark(own.nonce, s.clock))
  {
    MarkPosted(g, s, own);
    s' := Marks(g, s, CREATOR, own);
    s' := FirstUnlocks(g, s', own, Tomb(own.nonce, s.clock));
  }

  lemma MarkPosted(g: Setting, s: World, own: Owner)
    requires Reached(g, s)
    ensures
      var d := Posted(s.disk, Done, Mark(own.nonce, s.clock), s.clock);
      && d.paths == s.disk.paths[Done := s.disk.nextInode] && d.TextAt(Lock) == s.disk.TextAt(Lock)
      && d.TextAt(Done) == Some(Mark(own.nonce, s.clock))
  {
    ReachedIsValid(g, s);
    PostedFacts(s.disk, Done, Mark(own.nonce, s.clock), s.clock);
  }

  lemma FirstUnlocks(g: Setting, s: World, own: Owner, grave: TombPath) returns (s': World)
    requires Reached(g, s) && At(s, CREATOR, TombRename(Releasing(own, 0, Ran), grave)) && grave !in s.disk.paths
    requires s.disk.TextAt(Lock) == Some(Record(own, None))
    ensures Reached(g, s') && Leaves(s, CREATOR, s', s.disk.Move(Lock, grave).Unlink(grave)) && s'.clock == s.clock
  {
    MoveFacts(s.disk, grave);
    s' := Exhumes(g, s, CREATOR, Releasing(own, 0, Ran), grave, Record(own, None));
    s' := Confirms(g, s', CREATOR, Releasing(own, 0, Ran), grave, Record(own, None));
    s' := Released(g, s', CREATOR, own, grave, Deleted, None);
  }

  /** The second cannot read the marker, and goes to work. */
  lemma SecondUnheeding(g: Setting) returns (s: World)
    requires StartsClean(g) && g.start.fs.textFails && !g.smooth
    ensures Reached(g, s) && Unheeding(s, BREAKER)
  {
    var paused, own := SecondPauses(g);
    var released := FirstReleases(g, paused, own);
    NobodyBound(g, released, released.limits.pollMs);
    var polling := Wakes(g, released, BREAKER);
    LockPosted(g, polling, OwnerOf(polling, BREAKER));
    s := Owns(g, polling, BREAKER, true);
  }
}

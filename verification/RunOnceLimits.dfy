/**
 * The limits are exact: for all others some run within them has a breaker
 * poised to move the lock of an owner that is at its work. There are five ways
 * to get there. A creator's stall outlives `staleMs`: the breaker judges a lock
 * whose text is not there yet (`CreatorStallsLong`). Where landings do not stamp
 * files, a creator's stall and a breaker's stall together do: the breaker reads
 * a text that is not there yet, and then an age that is (`BothStall`). A breaker outlives its own ticket, or its ticket cannot
 * be read at all, so another breaker passes it by (`SlipsPast`). An owner's lock
 * outgrows `staleMs` and its text cannot be read, or it outgrows
 * `staleMs + waitTimeoutMs` (`OwnsForLong`).
 */
module RunOnceLimits {
  import opened Wrappers
  import opened RunOnceMachine
  import opened RunOnceWorld
  import opened RunOnceInvariant
  import opened RunOnceSafety
  import opened RunOnceScenes
  import opened RunOncePhases

  const CREATOR := 0
  const BREAKER := 1
  const WITNESS := 2
  const WRECK := Garbled("wreck")

  /** An unreadable lock, left over from before. */
  function WreckDisk(): Disk {
    Disk(map[Lock := 0], map[0 := Inode(WRECK, 0)], 1)
  }

  // ---- phases put together ----

  /** `p` finds the lock breakable and comes to the creation of its ticket. */
  lemma Applies(g: Setting, s: World, p: int, blind: bool) returns (s': World)
    requires Reached(g, s) && At(s, p, ObserveText) && MayRead(g, s, blind) && NoTombs(s.disk)
    requires Sight(s.disk, Done, blind).None? && s.clock <= s.procs[p].m.deadline
    requires Breakable(Found(Sight(s.disk, Lock, blind), AgeOf(s.disk, Lock, s.clock)), s.limits)
    ensures Reached(g, s')
    ensures
      var expected := NonceOf(DecodeOwner(Sight(s.disk, Lock, blind)));
      Brings(s, p, s', CreateTicket(Breaker(Issued(p, s.serial), expected), s.clock), s.disk, 1)
    ensures Adding({}, DecodeOwner(Sight(s.disk, Lock, blind))) <= s'.procs[p].seen
  {
    s' := Looks(g, s, p, blind);
    s' := TakesOver(g, s', p, Found(Sight(s.disk, Lock, blind), AgeOf(s.disk, Lock, s.clock)));
  }

  /** `dt` from now it creates its ticket, and finds no other. */
  lemma Enters(g: Setting, s: World, p: int, b: Breaker, startedAt: int, dt: nat) returns (s': World)
    requires Reached(g, s) && At(s, p, CreateTicket(b, startedAt)) && Patient(g, s, dt)
    requires forall path: Path :: path in s.disk.paths ==> !path.Ticket? && !path.OldBreaker?
    ensures Reached(g, s') && Alone(s, p, s') && s'.clock == s.clock + dt && s'.serial == s.serial
    ensures At(s', p, JudgeText(b)) && s'.procs[p].m.deadline == s.procs[p].m.deadline
    ensures s'.disk == Posted(s.disk, Ticket(b.mine), TicketText(p, b, startedAt), s.clock + dt)
  {
    s' := PostsTicket(g, s, p, b, startedAt, dt);
    PostedLands(s', s.disk, Ticket(b.mine), TicketText(p, b, startedAt));
    s' := ListsAlone(g, s', p, b, Some(Deferred(s.disk.nextInode, TicketText(p, b, startedAt))));
  }

  /** It judges the lock and is about to move it. */
  lemma Judges(g: Setting, s: World, p: int, b: Breaker, blind: bool) returns (s': World)
    requires Reached(g, s) && At(s, p, JudgeText(b)) && MayRead(g, s, blind)
    requires Damning(s, b, Sight(s.disk, Lock, blind), s.clock)
    ensures Reached(g, s') && Brings(s, p, s', TombRename(Breaking(b), Tomb(b.mine, s.clock)), s.disk, 0)
  {
    var text := Sight(s.disk, Lock, blind);
    s' := JudgesText(g, s, p, b, blind);
    s' := ConvictsLock(g, s', p, b, text);
  }

  lemma ConvictsLock(g: Setting, s: World, p: int, b: Breaker, text: Option<Text>) returns (s': World)
    requires Reached(g, s) && At(s, p, JudgeAge(b, text)) && Damning(s, b, text, s.clock)
    ensures Reached(g, s') && Brings(s, p, s', TombRename(Breaking(b), Tomb(b.mine, s.clock)), s.disk, 0)
  {
    s' := JudgesAge(g, s, p, b, text);
    s' := NamesTomb(g, s', p, Breaking(b));
  }

  lemma PatientNow(g: Setting, s: World)
    requires Reached(g, s)
    ensures Patient(g, s, 0)
  {
    ReachedIsSound(g, s);
    assert s.(clock := s.clock + 0) == s;
  }

  lemma EntersNow(g: Setting, s: World, p: int, b: Breaker, startedAt: int) returns (s': World)
    requires Reached(g, s) && At(s, p, CreateTicket(b, startedAt))
    requires forall path: Path :: path in s.disk.paths ==> !path.Ticket? && !path.OldBreaker?
    ensures Reached(g, s')
    ensures Brings(s, p, s', JudgeText(b), Posted(s.disk, Ticket(b.mine), TicketText(p, b, startedAt), s.clock), 0)
  {
    PatientNow(g, s);
    s' := Enters(g, s, p, b, startedAt, 0);
  }

  /** A lock that `p`, polling, finds breakable, with no other ticket in its way. */
  ghost predicate Tempting(s: World, p: int, b: Breaker, blind: bool) {
    && At(s, p, ObserveText) && NoTombs(s.disk) && s.disk.FileAt(Lock).Some?
    && Sight(s.disk, Done, blind).None? && s.clock <= s.procs[p].m.deadline
    && Breakable(Found(Sight(s.disk, Lock, blind), AgeOf(s.disk, Lock, s.clock)), s.limits)
    && (forall path: Path :: path in s.disk.paths ==> !path.Ticket? && !path.OldBreaker?)
    && b == Breaker(Issued(p, s.serial), NonceOf(DecodeOwner(Sight(s.disk, Lock, blind))))
  }

  lemma Readies(g: Setting, s: World, p: int, b: Breaker, blind: bool) returns (s': World)
    requires Reached(g, s) && Tempting(s, p, b, blind) && MayRead(g, s, blind)
    ensures Reached(g, s')
    ensures Brings(s, p, s', JudgeText(b), Posted(s.disk, Ticket(b.mine), TicketText(p, b, s.clock), s.clock), 1)
    ensures Adding({}, DecodeOwner(Sight(s.disk, Lock, blind))) <= s'.procs[p].seen
  {
    s' := Applies(g, s, p, blind);
    s' := EntersNow(g, s', p, b, s.clock);
  }

  lemma StillDamned(g: Setting, s: World, s': World, p: int, b: Breaker, blind: bool)
    requires Reached(g, s) && Tempting(s, p, b, blind)
    requires s'.disk == Posted(s.disk, Ticket(b.mine), TicketText(p, b, s.clock), s.clock)
    requires s'.clock == s.clock && s'.limits == s.limits
    ensures Sight(s'.disk, Lock, blind) == Sight(s.disk, Lock, blind)
    ensures Damning(s', b, Sight(s.disk, Lock, blind), s'.clock)
  {
    TicketSparesLock(g, s, p, b, s.clock);
    DamningStays(s, s', p, b, Sight(s.disk, Lock, blind));
  }

  /** From its poll on, all at once. */
  lemma Attacks(g: Setting, s: World, p: int, b: Breaker, blind: bool) returns (s': World)
    requires Reached(g, s) && Tempting(s, p, b, blind) && MayRead(g, s, blind)
    ensures Reached(g, s')
    ensures Brings(s, p, s', TombRename(Breaking(b), Tomb(b.mine, s.clock)),
                   Posted(s.disk, Ticket(b.mine), TicketText(p, b, s.clock), s.clock), 1)
    ensures Adding({}, DecodeOwner(Sight(s.disk, Lock, blind))) <= s'.procs[p].seen
  {
    s' := Readies(g, s, p, b, blind);
    StillDamned(g, s, s', p, b, blind);
    s' := Judges(g, s', p, b, blind);
  }

  lemma LockPosted(g: Setting, s: World, own: Owner)
    requires Reached(g, s)
    ensures
      var d := Posted(s.disk, Lock, Record(own, None), s.clock);
      && d.paths == s.disk.paths[Lock := s.disk.nextInode]
      && d.FileAt(Lock) == Some(Inode(Record(own, None), s.clock))
      && (forall other :: other != Lock ==> d.FileAt(other) == s.disk.FileAt(other))
  {
    ReachedIsValid(g, s);
    PostedFacts(s.disk, Lock, Record(own, None), s.clock);
  }

  lemma TicketSparesLock(g: Setting, s: World, p: int, b: Breaker, startedAt: int)
    requires Reached(g, s)
    ensures Posted(s.disk, Ticket(b.mine), TicketText(p, b, startedAt), s.clock).FileAt(Lock) == s.disk.FileAt(Lock)
  {
    ReachedIsValid(g, s);
    PostedFacts(s.disk, Ticket(b.mine), TicketText(p, b, startedAt), s.clock);
  }

  /** A breaker that found the lock breakable finds it so still. */
  lemma DamningStays(s: World, s': World, p: int, b: Breaker, text: Option<Text>)
    requires s'.disk.FileAt(Lock) == s.disk.FileAt(Lock) && s'.clock == s.clock && s'.limits == s.limits
    requires Breakable(Found(text, AgeOf(s.disk, Lock, s.clock)), s.limits)
    requires b.expected == NonceOf(DecodeOwner(text))
    requires s.disk.FileAt(Lock).Some?
    ensures Damning(s', b, text, s'.clock)
  {
  }

  lemma MoveFacts(d: Disk, tomb: TombPath)
    requires Lock in d.paths && tomb !in d.paths
    ensures
      var d' := d.Move(Lock, tomb);
      && d'.FileAt(tomb) == d.FileAt(Lock) && Lock !in d'.paths && d'.nextInode == d.nextInode
      && (forall path :: path != Lock && path != tomb ==> d'.FileAt(path) == d.FileAt(path))
      && (forall path :: path in d'.paths ==> path in d.paths || path == tomb)
  {
  }

  /** It moves the lock and reads what it moved. */
  lemma Exhumes(g: Setting, s: World, p: int, errand: Errand, tomb: TombPath, text: Text) returns (s': World)
    requires Reached(g, s) && At(s, p, TombRename(errand, tomb)) && tomb !in s.disk.paths
    requires s.disk.TextAt(Lock) == Some(text)
    ensures Reached(g, s') && Brings(s, p, s', TombAge(errand, tomb, Some(text)), s.disk.Move(Lock, tomb), 0)
  {
    MoveFacts(s.disk, tomb);
    s' := Moves(g, s, p, errand, tomb);
    s' := OpensTomb(g, s', p, errand, tomb);
  }

  lemma DamnedIsAccepted(s: World, b: Breaker, text: Text, d: Disk, tomb: TombPath)
    requires Damning(s, b, Some(text), s.clock) && d.FileAt(tomb) == s.disk.FileAt(Lock)
    ensures
      var age := AgeOf(d, tomb, s.clock);
      age.Some? && forall p: int :: Accepts(ConfigFor(s.limits, p), Breaking(b), DecodeOwner(Some(text)), age.value)
  {
  }

  /** It moves what it judged, finds it so, and is about to remove it. */
  lemma Entombs(g: Setting, s: World, p: int, b: Breaker, tomb: TombPath, text: Text) returns (s': World)
    requires Reached(g, s) && At(s, p, TombRename(Breaking(b), tomb)) && tomb !in s.disk.paths
    requires s.disk.TextAt(Lock) == Some(text) && Damning(s, b, Some(text), s.clock)
    ensures Reached(g, s') && Brings(s, p, s', TombRemove(Breaking(b), tomb, Deleted), s.disk.Move(Lock, tomb), 0)
  {
    MoveFacts(s.disk, tomb);
    s' := Exhumes(g, s, p, Breaking(b), tomb, text);
    DamnedIsAccepted(s, b, text, s'.disk, tomb);
    s' := Confirms(g, s', p, Breaking(b), tomb, text);
  }

  /** ... removes it, and polls again. */
  lemma Buries(g: Setting, s: World, p: int, b: Breaker, tomb: TombPath, text: Text) returns (s': World)
    requires Reached(g, s) && At(s, p, TombRename(Breaking(b), tomb)) && tomb !in s.disk.paths
    requires s.disk.TextAt(Lock) == Some(text) && Damning(s, b, Some(text), s.clock)
    ensures Reached(g, s')
    ensures Brings(s, p, s', ObserveText, s.disk.Move(Lock, tomb).Unlink(tomb).Unlink(Ticket(b.mine)), 0)
  {
    s' := Entombs(g, s, p, b, tomb, text);
    s' := Disbands(g, s', p, b, tomb, Deleted, None);
  }

  lemma LooksInVain(g: Setting, s: World, p: int, blind: bool) returns (s': World)
    requires Reached(g, s) && At(s, p, ObserveText) && MayRead(g, s, blind)
    requires Lock !in s.disk.paths && Sight(s.disk, Done, blind).None?
    ensures Reached(g, s') && Brings(s, p, s', PollNow(Absent, None), s.disk, 0)
  {
    assert Found(Sight(s.disk, Lock, blind), AgeOf(s.disk, Lock, s.clock)) == Absent;
    s' := Looks(g, s, p, blind);
  }

  lemma FindsNoLock(g: Setting, s: World, p: int, blind: bool) returns (s': World)
    requires Reached(g, s) && At(s, p, ObserveText) && MayRead(g, s, blind)
    requires Lock !in s.disk.paths && Sight(s.disk, Done, blind).None?
    ensures Reached(g, s') && Brings(s, p, s', CreateLock(OwnerOf(s, p)), s.disk, 1)
  {
    s' := LooksInVain(g, s, p, blind);
    s' := FindsNone(g, s', p);
  }

  /** It finds no lock and creates its own. */
  lemma Creates(g: Setting, s: World, p: int, blind: bool) returns (s': World)
    requires Reached(g, s) && At(s, p, ObserveText) && MayRead(g, s, blind)
    requires Lock !in s.disk.paths && Sight(s.disk, Done, blind).None?
    ensures Reached(g, s') && Alone(s, p, s') && s'.clock == s.clock && s'.disk == s.disk.Bind(Lock, s.clock)
    ensures Comes(s', p, Verify(OwnerOf(s, p)), Some(Deferred(s.disk.nextInode, Record(OwnerOf(s, p), None))))
    ensures s'.serial == s.serial + 1 && s'.procs[p].m.deadline == s.procs[p].m.deadline
  {
    s' := FindsNoLock(g, s, p, blind);
    s' := CreatesLock(g, s', p, OwnerOf(s, p));
  }

  /** ... and comes to its work. */
  lemma Owns(g: Setting, s: World, p: int, blind: bool) returns (s': World)
    requires Reached(g, s) && At(s, p, ObserveText) && MayRead(g, s, blind)
    requires Lock !in s.disk.paths && Sight(s.disk, Done, blind).None?
    ensures Reached(g, s')
    ensures Brings(s, p, s', RunHeld(OwnerOf(s, p)), Posted(s.disk, Lock, Record(OwnerOf(s, p), None), s.clock), 1)
  {
    ReachedIsValid(g, s);
    PostedFacts(s.disk, Lock, Record(OwnerOf(s, p), None), s.clock);
    s' := Creates(g, s, p, blind);
    PostedLands(s', s.disk, Lock, Record(OwnerOf(s, p), None));
    s' := Settles(g, s', p, OwnerOf(s, p), s.disk.nextInode, blind);
  }

  lemma Settles(g: Setting, s: World, p: int, own: Owner, id: nat, blind: bool) returns (s': World)
    requires Reached(g, s) && Comes(s, p, Verify(own), Some(Deferred(id, Record(own, None)))) && MayRead(g, s, blind)
    requires Lock in s.disk.paths && s.disk.paths[Lock] == id && id in s.disk.inodes
    requires Sight(Landing(s, Some(Deferred(id, Record(own, None)))), Done, blind).None?
    ensures Reached(g, s')
    ensures Brings(s, p, s', RunHeld(own), Landing(s, Some(Deferred(id, Record(own, None)))), 0)
  {
    s' := ChecksLock(g, s, p, own, id);
    s' := GoesToWork(g, s', p, own, blind);
  }

  // ---- a breaker poised to move a lock whose owner is at its work ----

  ghost predicate Poised(s: World, own: Owner, b: Breaker, tomb: TombPath) {
    && At(s, CREATOR, RunHeld(own)) && At(s, BREAKER, TombRename(Breaking(b), tomb))
    && s.disk.TextAt(Lock) == Some(Record(own, None)) && Done !in s.disk.paths && NoTombs(s.disk)
    && (forall q :: 2 <= q < |s.procs| ==> At(s, q, MakeDir))
  }

  // ---- two breakers at once ----

  ghost predicate StartsWrecked(g: Setting) {
    g.start == Opening(g.start.limits, g.start.fs, WreckDisk(), g.start.limits.staleMs + 1, |g.start.procs|)
    && |g.start.procs| >= 2
  }

  /** Everybody but the two has yet to begin. */
  ghost predicate Idle(g: Setting, s: World) {
    && |s.procs| == |g.start.procs| && s.limits == g.start.limits && s.fs == g.start.fs
    && forall q :: 2 <= q < |s.procs| ==> At(s, q, MakeDir)
  }

  lemma IdleStays(g: Setting, s: World, p: int, s': World)
    requires Idle(g, s) && Alone(s, p, s') && p < 2
    ensures Idle(g, s')
  {
    forall q | 2 <= q < |s'.procs| ensures At(s', q, MakeDir) { assert At(s, q, MakeDir); }
  }

  lemma ComesPoised(g: Setting, s: World, own: Owner, b: Breaker, tomb: TombPath)
    requires Idle(g, s) && At(s, CREATOR, RunHeld(own)) && At(s, BREAKER, TombRename(Breaking(b), tomb))
    requires s.disk.TextAt(Lock) == Some(Record(own, None))
    requires forall path: Path :: path in s.disk.paths ==> path.Lock? || path.Ticket?
    ensures Poised(s, own, b, tomb)
  {
  }

  lemma AllBegin(g: Setting, disk: Disk, clock: int)
    requires g.start == Opening(g.start.limits, g.start.fs, disk, clock, |g.start.procs|) && |g.start.procs| >= 2
    ensures Idle(g, g.start) && At(g.start, CREATOR, MakeDir) && At(g.start, BREAKER, MakeDir)
  {
  }

  lemma ArrivesNow(g: Setting, s: World, p: int) returns (s': World)
    requires Reached(g, s) && Idle(g, s) && At(s, p, MakeDir) && p < 2 && NoTombs(s.disk)
    ensures Reached(g, s') && Idle(g, s') && Alone(s, p, s') && At(s', p, ObserveText)
    ensures s'.disk == s.disk && s'.clock == s.clock && s'.serial == s.serial
    ensures s'.procs[p].m.deadline == s.clock + s.limits.waitTimeoutMs
  {
    PatientNow(g, s);
    s' := Arrives(g, s, p, 0);
    IdleStays(g, s, p, s');
  }

  /** A process at `ctl` stays within its stalls for `dt` more. */
  ghost predicate Endures(g: Setting, s: World, ctl: Control, dt: nat) {
    && (Owned(ctl).Some? ==> AgedAtMost(s, Lock, g.stalls.ownMs - dt))
    && (ctl.Verify? ==> AgedAtMost(s, Lock, g.stalls.createMs - dt))
    && (Holding(ctl).Some? ==> AgedAtMost(s, Ticket(Holding(ctl).value.mine), g.stalls.breakMs - dt))
  }

  lemma BothPatient(g: Setting, s: World, dt: nat)
    requires Idle(g, s) && |s.procs| >= 2
    requires Endures(g, s, s.procs[CREATOR].m.ctl, dt) && Endures(g, s, s.procs[BREAKER].m.ctl, dt)
    ensures Patient(g, s, dt)
  {
    var later := s.(clock := s.clock + dt);
    forall p | Live(later, p)
      ensures Owned(later.procs[p].m.ctl).Some? ==> AgedAtMost(later, Lock, g.stalls.ownMs)
      ensures later.procs[p].m.ctl.Verify? ==> AgedAtMost(later, Lock, g.stalls.createMs)
    {
      assert p >= 2 ==> At(s, p, MakeDir);
    }
    forall p | Live(later, p) && Holding(later.procs[p].m.ctl).Some?
      ensures AgedAtMost(later, Ticket(Holding(later.procs[p].m.ctl).value.mine), g.stalls.breakMs)
    {
      assert p >= 2 ==> At(s, p, MakeDir);
    }
  }

  /** The lock is the wreck still, or again, and nothing else is there but tickets. */
  ghost predicate WreckThere(s: World) {
    && s.disk.FileAt(Lock) == Some(Inode(WRECK, 0)) && s.clock > s.limits.staleMs
    && (forall path: Path :: path in s.disk.paths ==> path.Lock? || path.Ticket?)
  }

  lemma WreckTempts(s: World, p: int, b: Breaker)
    requires WreckThere(s) && At(s, p, ObserveText) && s.clock <= s.procs[p].m.deadline
    requires forall path: Path :: path in s.disk.paths ==> !path.Ticket?
    requires b == Breaker(Issued(p, s.serial), None)
    ensures Tempting(s, p, b, false)
  {
  }

  lemma BreakerPolls(g: Setting) returns (s: World)
    requires StartsWrecked(g)
    ensures Reached(g, s) && Idle(g, s) && At(s, CREATOR, MakeDir) && At(s, BREAKER, ObserveText)
    ensures s.procs[BREAKER].m.deadline == s.clock + s.limits.waitTimeoutMs
    ensures s.disk == WreckDisk() && s.clock == g.start.clock && s.serial == 0
  {
    ReachedAtStart(g);
    AllBegin(g, WreckDisk(), g.start.limits.staleMs + 1);
    s := ArrivesNow(g, g.start, BREAKER);
  }

  /** The breaker, alone, comes to its rename of the wreck. */
  lemma BreakerStalls(g: Setting, b: Breaker, tomb: TombPath) returns (s: World)
    requires StartsWrecked(g) && b == Breaker(Issued(BREAKER, 0), None) && tomb == Tomb(b.mine, g.start.clock)
    ensures Reached(g, s) && Idle(g, s) && At(s, CREATOR, MakeDir) && At(s, BREAKER, TombRename(Breaking(b), tomb))
    ensures s.disk == Posted(WreckDisk(), Ticket(b.mine), TicketText(BREAKER, b, g.start.clock), g.start.clock)
    ensures s.clock == g.start.clock && s.serial == 1
  {
    var polling := BreakerPolls(g);
    WreckTempts(polling, BREAKER, b);
    s := Attacks(g, polling, BREAKER, b, false);
    IdleStays(g, polling, BREAKER, s);
  }

  lemma CreatorArrives(g: Setting, b: Breaker, tomb: TombPath, hold: nat) returns (s: World)
    requires StartsWrecked(g) && b == Breaker(Issued(BREAKER, 0), None) && tomb == Tomb(b.mine, g.start.clock)
    requires hold <= g.stalls.breakMs
    ensures Reached(g, s) && Idle(g, s) && At(s, CREATOR, ObserveText) && At(s, BREAKER, TombRename(Breaking(b), tomb))
    ensures s.disk == Posted(WreckDisk(), Ticket(b.mine), TicketText(BREAKER, b, g.start.clock), g.start.clock)
    ensures s.clock == g.start.clock + hold && s.serial == 1 && s.clock <= s.procs[CREATOR].m.deadline
  {
    var stalled := BreakerStalls(g, b, tomb);
    PostedFacts(WreckDisk(), Ticket(b.mine), TicketText(BREAKER, b, g.start.clock), g.start.clock);
    s := CreatorComes(g, stalled, b, tomb, hold);
  }

  /** The creator comes by `hold` later and takes a ticket of its own. */
  lemma CreatorJoins(g: Setting, b: Breaker, tomb: TombPath, c: Breaker, hold: nat) returns (s: World)
    requires StartsWrecked(g) && b == Breaker(Issued(BREAKER, 0), None) && tomb == Tomb(b.mine, g.start.clock)
    requires c == Breaker(Issued(CREATOR, 1), None) && hold <= g.stalls.breakMs
    ensures Reached(g, s) && Idle(g, s) && At(s, CREATOR, CreateTicket(c, s.clock))
    ensures At(s, BREAKER, TombRename(Breaking(b), tomb)) && s.clock == g.start.clock + hold && s.serial == 2
    ensures s.disk == Posted(WreckDisk(), Ticket(b.mine), TicketText(BREAKER, b, g.start.clock), g.start.clock)
  {
    var polling := CreatorArrives(g, b, tomb, hold);
    PostedFacts(WreckDisk(), Ticket(b.mine), TicketText(BREAKER, b, g.start.clock), g.start.clock);
    s := Applies(g, polling, CREATOR, false);
    IdleStays(g, polling, CREATOR, s);
  }

  lemma CreatorComes(g: Setting, stalled: World, b: Breaker, tomb: TombPath, hold: nat) returns (s: World)
    requires Reached(g, stalled) && Idle(g, stalled) && At(stalled, CREATOR, MakeDir) && NoTombs(stalled.disk)
    requires At(stalled, BREAKER, TombRename(Breaking(b), tomb)) && hold <= g.stalls.breakMs
    requires AgeOf(stalled.disk, Ticket(b.mine), stalled.clock) == Some(0)
    ensures Reached(g, s) && Idle(g, s) && Alone(stalled, CREATOR, s) && At(s, CREATOR, ObserveText)
    ensures s.disk == stalled.disk && s.clock == stalled.clock + hold && s.serial == stalled.serial
    ensures s.clock <= s.procs[CREATOR].m.deadline
  {
    BothPatient(g, stalled, hold);
    s := Arrives(g, stalled, CREATOR, hold);
    IdleStays(g, stalled, CREATOR, s);
  }

  lemma OneOther(other: TicketPath, mine: Nonce)
    requires other != Ticket(mine)
    ensures OtherTickets([Lock, other, Ticket(mine)], mine) == [other]
  {
    var last: seq<Path> := [Ticket(mine)];
    var two: seq<Path> := [other] + last;
    var names: seq<Path> := [Lock] + two;
    assert last[1..] == [] && OtherTickets(last, mine) == [];
    assert two[1..] == last && OtherTickets(two, mine) == [other];
    assert names[1..] == two && OtherTickets(names, mine) == [other];
    assert names == [Lock, other, Ticket(mine)];
  }

  /** The breaker's ticket and the wreck, then the creator's ticket too. */
  lemma TwoTickets(b: Breaker, bText: Text, c: Breaker, cText: Text, clock: int, now: int)
    requires b.mine != c.mine
    ensures
      var one := Posted(WreckDisk(), Ticket(b.mine), bText, clock);
      var two := Posted(one, Ticket(c.mine), cText, now);
      && Ticket(c.mine) !in one.paths && Lists([Lock, Ticket(b.mine), Ticket(c.mine)], one.Bind(Ticket(c.mine), now))
      && two.FileAt(Lock) == Some(Inode(WRECK, 0)) && AgeOf(two, Ticket(b.mine), now) == Some(now - clock)
      && (forall path: Path :: path in two.paths ==> path.Lock? || path.Ticket?)
  {
    var one := Posted(WreckDisk(), Ticket(b.mine), bText, clock);
    PostedFacts(WreckDisk(), Ticket(b.mine), bText, clock);
    PostedFacts(one, Ticket(c.mine), cText, now);
  }

  /** The creator posts its ticket and lists the breaker's beside it. */
  lemma CreatorLists(g: Setting, b: Breaker, tomb: TombPath, c: Breaker, hold: nat) returns (s: World)
    requires StartsWrecked(g) && b == Breaker(Issued(BREAKER, 0), None) && tomb == Tomb(b.mine, g.start.clock)
    requires c == Breaker(Issued(CREATOR, 1), None) && hold <= g.stalls.breakMs
    ensures Reached(g, s) && Idle(g, s) && At(s, CREATOR, ScanText(c, Ticket(b.mine), [], false))
    ensures At(s, BREAKER, TombRename(Breaking(b), tomb)) && WreckThere(s)
    ensures AgeOf(s.disk, Ticket(b.mine), s.clock) == Some(hold)
  {
    var joined := CreatorJoins(g, b, tomb, c, hold);
    TwoTickets(b, TicketText(BREAKER, b, g.start.clock), c, TicketText(CREATOR, c, joined.clock), g.start.clock, joined.clock);
    s := CreatorScans(g, joined, b, c);
    assert s.clock > s.limits.staleMs;
  }

  lemma CreatorScans(g: Setting, joined: World, b: Breaker, c: Breaker) returns (s: World)
    requires Reached(g, joined) && Idle(g, joined) && At(joined, CREATOR, CreateTicket(c, joined.clock))
    requires b.mine != c.mine && Ticket(c.mine) !in joined.disk.paths
    requires Lists([Lock, Ticket(b.mine), Ticket(c.mine)], joined.disk.Bind(Ticket(c.mine), joined.clock))
    ensures Reached(g, s) && Idle(g, s)
    ensures Brings(joined, CREATOR, s, ScanText(c, Ticket(b.mine), [], false),
                   Posted(joined.disk, Ticket(c.mine), TicketText(CREATOR, c, joined.clock), joined.clock), 0)
  {
    var text := TicketText(CREATOR, c, joined.clock);
    var posted := PostsTicketNow(g, joined, CREATOR, c, joined.clock);
    PostedLands(posted, joined.disk, Ticket(c.mine), text);
    OneOther(Ticket(b.mine), c.mine);
    s := ListsAnother(g, posted, CREATOR, c, Some(Deferred(joined.disk.nextInode, text)),
                      [Lock, Ticket(b.mine), Ticket(c.mine)], Ticket(b.mine));
    IdleStays(g, joined, CREATOR, s);
  }

  lemma PostsTicketNow(g: Setting, s: World, p: int, b: Breaker, startedAt: int) returns (s': World)
    requires Reached(g, s) && At(s, p, CreateTicket(b, startedAt)) && Ticket(b.mine) !in s.disk.paths
    ensures Reached(g, s') && Alone(s, p, s') && s'.clock == s.clock && s'.serial == s.serial
    ensures Comes(s', p, ListTickets(b), Some(Deferred(s.disk.nextInode, TicketText(p, b, startedAt))))
    ensures s'.disk == s.disk.Bind(Ticket(b.mine), s.clock) && s'.procs[p].m.deadline == s.procs[p].m.deadline
  {
    PatientNow(g, s);
    s' := PostsTicket(g, s, p, b, startedAt, 0);
  }

  /** The breaker's ticket is over age: the creator removes it. */
  lemma ReapsBreaker(g: Setting, listed: World, b: Breaker, c: Breaker) returns (s: World)
    requires Reached(g, listed) && Idle(g, listed) && At(listed, CREATOR, ScanText(c, Ticket(b.mine), [], false))
    requires AgeOf(listed.disk, Ticket(b.mine), listed.clock).Some?
    requires AgeOf(listed.disk, Ticket(b.mine), listed.clock).value > listed.limits.staleMs
    ensures Reached(g, s) && Brings(listed, CREATOR, s, JudgeText(c), listed.disk.Unlink(Ticket(b.mine)), 0)
  {
    s := ScansText(g, listed, CREATOR, c, Ticket(b.mine), false);
    s := Condemns(g, s, CREATOR, c, Ticket(b.mine), Sight(listed.disk, Ticket(b.mine), false));
    s := Reaps(g, s, CREATOR, c, Ticket(b.mine));
  }

  /** Neither its text nor its age can be read: the creator takes it for missing. */
  lemma OverlooksBreaker(g: Setting, listed: World, b: Breaker, c: Breaker) returns (s: World)
    requires Reached(g, listed) && Idle(g, listed) && At(listed, CREATOR, ScanText(c, Ticket(b.mine), [], false))
    requires g.start.fs.textFails && g.start.fs.ageFails && !g.smooth
    ensures Reached(g, s) && Brings(listed, CREATOR, s, JudgeText(c), listed.disk, 0)
  {
    s := ScansText(g, listed, CREATOR, c, Ticket(b.mine), true);
    s := Overlooks(g, s, CREATOR, c, Ticket(b.mine));
  }

  /** Either way the two are past each other. */
  lemma SlipsPast(g: Setting, b: Breaker, tomb: TombPath, c: Breaker, hold: nat, blind: bool) returns (s: World)
    requires StartsWrecked(g) && b == Breaker(Issued(BREAKER, 0), None) && tomb == Tomb(b.mine, g.start.clock)
    requires c == Breaker(Issued(CREATOR, 1), None) && hold <= g.stalls.breakMs
    requires if blind then g.start.fs.textFails && g.start.fs.ageFails && !g.smooth else hold > g.start.limits.staleMs
    ensures Reached(g, s) && Idle(g, s) && At(s, CREATOR, JudgeText(c))
    ensures At(s, BREAKER, TombRename(Breaking(b), tomb)) && WreckThere(s)
  {
    var listed := CreatorLists(g, b, tomb, c, hold);
    if blind { s := OverlooksBreaker(g, listed, b, c); }
    else { s := ReapsBreaker(g, listed, b, c); }
    WreckStays(listed, s, Ticket(b.mine));
    IdleStays(g, listed, CREATOR, s);
  }

  lemma WreckStays(s: World, s': World, path: Path)
    requires WreckThere(s) && !path.Lock? && (s'.disk == s.disk || s'.disk == s.disk.Unlink(path))
    requires s'.clock == s.clock && s'.limits == s.limits
    ensures WreckThere(s')
  {
  }

  /** The creator removes the wreck, under the breaker's rename. */
  lemma ClearsWreck(g: Setting, start: World, c: Breaker) returns (s: World)
    requires Reached(g, start) && Idle(g, start) && |start.procs| >= 2 && WreckThere(start) && c.expected == None
    requires At(start, CREATOR, JudgeText(c))
    ensures Reached(g, s) && Idle(g, s) && Alone(start, CREATOR, s) && At(s, CREATOR, ObserveText)
    ensures s.clock == start.clock && s.serial == start.serial
    ensures forall path: Path :: path in s.disk.paths ==> path.Ticket? && path != Ticket(c.mine) && path in start.disk.paths
  {
    var grave := Tomb(c.mine, start.clock);
    s := DamnsWreck(g, start, c);
    s := BuriesWreck(g, s, c, grave);
    IdleStays(g, start, CREATOR, s);
  }

  lemma DamnsWreck(g: Setting, start: World, c: Breaker) returns (s: World)
    requires Reached(g, start) && WreckThere(start) && c.expected == None && At(start, CREATOR, JudgeText(c))
    ensures Reached(g, s) && WreckThere(s)
    ensures Brings(start, CREATOR, s, TombRename(Breaking(c), Tomb(c.mine, start.clock)), start.disk, 0)
  {
    WreckDamns(start, c);
    s := Judges(g, start, CREATOR, c, false);
  }

  lemma WreckDamns(s: World, c: Breaker)
    requires WreckThere(s) && c.expected == None
    ensures Sight(s.disk, Lock, false) == Some(WRECK) && Damning(s, c, Some(WRECK), s.clock)
  {
  }

  lemma BuriesWreck(g: Setting, start: World, c: Breaker, grave: TombPath) returns (s: World)
    requires Reached(g, start) && WreckThere(start) && c.expected == None
    requires At(start, CREATOR, TombRename(Breaking(c), grave))
    ensures Reached(g, s) && Alone(start, CREATOR, s) && At(s, CREATOR, ObserveText)
    ensures s.clock == start.clock && s.serial == start.serial
    ensures forall path: Path :: path in s.disk.paths ==> path.Ticket? && path != Ticket(c.mine) && path in start.disk.paths
  {
    WreckDamns(start, c);
    MoveFacts(start.disk, grave);
    s := Buries(g, start, CREATOR, c, grave, WRECK);
  }

  /** Past each other's tickets, the creator comes to its own work, under the breaker's rename. */
  lemma Overtakes(g: Setting, start: World, b: Breaker, tomb: TombPath, c: Breaker) returns (s: World, own: Owner)
    requires Reached(g, start) && Idle(g, start) && |start.procs| >= 2 && WreckThere(start) && c.expected == None
    requires At(start, CREATOR, JudgeText(c)) && At(start, BREAKER, TombRename(Breaking(b), tomb))
    ensures Reached(g, s) && Idle(g, s) && Poised(s, own, b, tomb)
  {
    var cleared := ClearsWreck(g, start, c);
    own := OwnerOf(cleared, CREATOR);
    LockPosted(g, cleared, own);
    s := Owns(g, cleared, CREATOR, false);
    IdleStays(g, cleared, CREATOR, s);
    ComesPoised(g, s, own, b, tomb);
  }

  // ---- a creator and a breaker that both stall ----

  lemma BothPoll(g: Setting, b: Breaker) returns (s: World)
    requires StartsWrecked(g) && b == Breaker(Issued(BREAKER, 0), None)
    ensures Reached(g, s) && Idle(g, s) && At(s, CREATOR, ObserveText) && At(s, BREAKER, CreateTicket(b, s.clock))
    ensures s.disk == WreckDisk() && s.clock == s.limits.staleMs + 1 && s.serial == 1
    ensures s.procs[CREATOR].m.deadline == s.clock + s.limits.waitTimeoutMs
  {
    var parked := BreakerParks(g, b);
    s := ArrivesNow(g, parked, CREATOR);
  }

  lemma BreakerParks(g: Setting, b: Breaker) returns (s: World)
    requires StartsWrecked(g) && b == Breaker(Issued(BREAKER, 0), None)
    ensures Reached(g, s) && Idle(g, s) && At(s, CREATOR, MakeDir) && At(s, BREAKER, CreateTicket(b, s.clock))
    ensures s.disk == WreckDisk() && s.clock == s.limits.staleMs + 1 && s.serial == 1
  {
    var polling := BreakerPolls(g);
    s := Applies(g, polling, BREAKER, false);
    IdleStays(g, polling, BREAKER, s);
  }

  /** Both have polled the wreck; the creator has taken its ticket, the breaker is about to. */
  lemma BothApply(g: Setting, b: Breaker, c: Breaker) returns (s: World)
    requires StartsWrecked(g) && b == Breaker(Issued(BREAKER, 0), None) && c == Breaker(Issued(CREATOR, 1), None)
    ensures Reached(g, s) && Idle(g, s) && WreckThere(s) && At(s, CREATOR, JudgeText(c))
    ensures At(s, BREAKER, CreateTicket(b, s.clock))
    ensures s.disk.paths.Keys == {Lock, Ticket(c.mine)}
  {
    var arrived := BothPoll(g, b);
    WreckTempts(arrived, CREATOR, c);
    s := Readies(g, arrived, CREATOR, c, false);
    PostedFacts(WreckDisk(), Ticket(c.mine), TicketText(CREATOR, c, arrived.clock), arrived.clock);
    IdleStays(g, arrived, CREATOR, s);
  }

  /** The creator has broken the wreck and created its own lock, whose text has not landed. */
  ghost predicate MidCreate(s: World, own: Owner, mtime: int) {
    && s.disk.FileAt(Lock) == Some(Inode(Garbled(""), mtime))
    && Comes(s, CREATOR, Verify(own), Some(Deferred(s.disk.paths[Lock], Record(own, None))))
    && (forall path: Path :: path in s.disk.paths ==> path.Lock? || path.Ticket?)
  }

  lemma CreatorClears(g: Setting, b: Breaker, c: Breaker) returns (s: World)
    requires StartsWrecked(g) && b == Breaker(Issued(BREAKER, 0), None) && c == Breaker(Issued(CREATOR, 1), None)
    ensures Reached(g, s) && Idle(g, s) && At(s, CREATOR, ObserveText) && At(s, BREAKER, CreateTicket(b, s.clock))
    ensures s.disk.paths == map[]
  {
    var applied := BothApply(g, b, c);
    s := ClearsWreck(g, applied, c);
    assert forall path: Path :: path !in s.disk.paths;
  }

  lemma CreatorStalls(g: Setting, b: Breaker, c: Breaker) returns (s: World, own: Owner)
    requires StartsWrecked(g) && b == Breaker(Issued(BREAKER, 0), None) && c == Breaker(Issued(CREATOR, 1), None)
    ensures Reached(g, s) && Idle(g, s) && MidCreate(s, own, s.clock) && At(s, BREAKER, CreateTicket(b, s.clock))
    ensures forall path: Path :: path in s.disk.paths ==> path == Lock
  {
    var cleared := CreatorClears(g, b, c);
    own := OwnerOf(cleared, CREATOR);
    s := Creates(g, cleared, CREATOR, false);
    CreatedIsMidCreate(g, cleared, s, own);
    IdleStays(g, cleared, CREATOR, s);
  }

  lemma CreatedIsMidCreate(g: Setting, s: World, s': World, own: Owner)
    requires Reached(g, s) && s'.disk == s.disk.Bind(Lock, s.clock)
    requires Comes(s', CREATOR, Verify(own), Some(Deferred(s.disk.nextInode, Record(own, None))))
    requires forall path: Path :: path in s.disk.paths ==> path.Ticket?
    ensures MidCreate(s', own, s.clock)
  {
    ReachedIsValid(g, s);
  }

  /** `stall` later the breaker takes its ticket and reads a text that is not there yet. */
  lemma BreakerMisled(g: Setting, b: Breaker, c: Breaker, stall: nat) returns (s: World, own: Owner)
    requires StartsWrecked(g) && b == Breaker(Issued(BREAKER, 0), None) && c == Breaker(Issued(CREATOR, 1), None)
    requires stall <= g.stalls.createMs && stall <= g.stalls.ownMs
    ensures Reached(g, s) && Idle(g, s) && MidCreate(s, own, s.clock - stall)
    ensures At(s, BREAKER, JudgeAge(b, Some(Garbled(""))))
    ensures AgeOf(s.disk, Ticket(b.mine), s.clock) == Some(0)
  {
    var stalled: World;
    stalled, own := CreatorStalls(g, b, c);
    var entered := BreakerComes(g, stalled, own, b, stall);
    s := ReadsNothing(g, entered, own, b, stall);
  }

  lemma ReadsNothing(g: Setting, entered: World, own: Owner, b: Breaker, stall: nat) returns (s: World)
    requires Reached(g, entered) && Idle(g, entered) && MidCreate(entered, own, entered.clock - stall)
    requires At(entered, BREAKER, JudgeText(b))
    ensures Reached(g, s) && Idle(g, s) && MidCreate(s, own, s.clock - stall)
    ensures At(s, BREAKER, JudgeAge(b, Some(Garbled("")))) && s.disk == entered.disk && s.clock == entered.clock
  {
    s := JudgesText(g, entered, BREAKER, b, false);
    MidCreateStays(entered, s, own, s.clock - stall);
    IdleStays(g, entered, BREAKER, s);
  }

  lemma MidCreateStays(s: World, s': World, own: Owner, mtime: int)
    requires MidCreate(s, own, mtime) && Alone(s, BREAKER, s') && s'.disk == s.disk
    ensures MidCreate(s', own, mtime)
  {
  }

  lemma BreakerComes(g: Setting, stalled: World, own: Owner, b: Breaker, stall: nat) returns (s: World)
    requires Reached(g, stalled) && Idle(g, stalled) && MidCreate(stalled, own, stalled.clock)
    requires At(stalled, BREAKER, CreateTicket(b, stalled.clock)) && |stalled.procs| >= 2
    requires forall path: Path :: path in stalled.disk.paths ==> path == Lock
    requires stall <= g.stalls.createMs && stall <= g.stalls.ownMs
    ensures Reached(g, s) && Idle(g, s) && MidCreate(s, own, s.clock - stall) && At(s, BREAKER, JudgeText(b))
    ensures AgeOf(s.disk, Ticket(b.mine), s.clock) == Some(0)
  {
    s := EntersLate(g, stalled, own, b, stall);
    MidCreateBesideTicket(g, stalled, s, own, b, TicketText(BREAKER, b, stalled.clock), stall);
    IdleStays(g, stalled, BREAKER, s);
  }

  lemma EntersLate(g: Setting, stalled: World, own: Owner, b: Breaker, stall: nat) returns (s: World)
    requires Reached(g, stalled) && Idle(g, stalled) && MidCreate(stalled, own, stalled.clock)
    requires At(stalled, BREAKER, CreateTicket(b, stalled.clock)) && |stalled.procs| >= 2
    requires forall path: Path :: path in stalled.disk.paths ==> path == Lock
    requires stall <= g.stalls.createMs && stall <= g.stalls.ownMs
    ensures Reached(g, s) && Alone(stalled, BREAKER, s) && At(s, BREAKER, JudgeText(b))
    ensures s.clock == stalled.clock + stall
    ensures s.disk == Posted(stalled.disk, Ticket(b.mine), TicketText(BREAKER, b, stalled.clock), s.clock)
  {
    StallsPatiently(g, stalled, own, b, stall);
    s := Enters(g, stalled, BREAKER, b, stalled.clock, stall);
  }

  lemma StallsPatiently(g: Setting, stalled: World, own: Owner, b: Breaker, stall: nat)
    requires Idle(g, stalled) && MidCreate(stalled, own, stalled.clock) && |stalled.procs| >= 2
    requires At(stalled, BREAKER, CreateTicket(b, stalled.clock))
    requires stall <= g.stalls.createMs && stall <= g.stalls.ownMs
    ensures Patient(g, stalled, stall)
  {
    BothPatient(g, stalled, stall);
  }

  lemma MidCreateBesideTicket(g: Setting, s: World, s': World, own: Owner, b: Breaker, text: Text, stall: nat)
    requires Reached(g, s) && MidCreate(s, own, s.clock) && Alone(s, BREAKER, s') && s'.clock == s.clock + stall
    requires s'.disk == Posted(s.disk, Ticket(b.mine), text, s'.clock)
    ensures MidCreate(s', own, s'.clock - stall) && AgeOf(s'.disk, Ticket(b.mine), s'.clock) == Some(0)
  {
    TicketPosted(g, s, b, text, s'.clock);
  }

  lemma TicketPosted(g: Setting, s: World, b: Breaker, text: Text, clock: int)
    requires Reached(g, s)
    ensures
      var d := Posted(s.disk, Ticket(b.mine), text, clock);
      && d.paths == s.disk.paths[Ticket(b.mine) := s.disk.nextInode]
      && d.FileAt(Lock) == s.disk.FileAt(Lock) && AgeOf(d, Ticket(b.mine), clock) == Some(0)
  {
    ReachedIsValid(g, s);
    PostedFacts(s.disk, Ticket(b.mine), text, clock);
  }

  lemma LandsRecord(g: Setting, s: World, own: Owner, mtime: int, b: Breaker)
    requires Reached(g, s) && MidCreate(s, own, mtime)
    ensures
      var d := Landing(s, Some(Deferred(s.disk.paths[Lock], Record(own, None))));
      && d.paths == s.disk.paths && d.FileAt(Lock) == Some(Inode(Record(own, None), if s.fs.stamps then s.clock else mtime))
      && AgeOf(d, Ticket(b.mine), s.clock) == AgeOf(s.disk, Ticket(b.mine), s.clock)
  {
    ReachedIsValid(g, s);
  }

  /** The creator's text lands, and it comes to its work. */
  lemma CreatorCatchesUp(g: Setting, start: World, own: Owner, mtime: int, b: Breaker) returns (s: World)
    requires Reached(g, start) && Idle(g, start) && MidCreate(start, own, mtime)
    ensures Reached(g, s) && Idle(g, s) && Alone(start, CREATOR, s) && s.clock == start.clock
    ensures At(s, CREATOR, RunHeld(own))
    ensures s.disk.FileAt(Lock) == Some(Inode(Record(own, None), if s.fs.stamps then s.clock else mtime))
    ensures forall path: Path :: path in s.disk.paths ==> path.Lock? || path.Ticket?
    ensures AgeOf(s.disk, Ticket(b.mine), s.clock) == AgeOf(start.disk, Ticket(b.mine), s.clock)
  {
    LandsRecord(g, start, own, mtime, b);
    s := Settles(g, start, CREATOR, own, start.disk.paths[Lock], false);
    IdleStays(g, start, CREATOR, s);
  }

  lemma BreakerHolds(g: Setting, working: World, own: Owner, b: Breaker, stall: nat, hold: nat) returns (s: World)
    requires Reached(g, working) && Idle(g, working) && |working.procs| >= 2
    requires stall + hold == g.start.limits.staleMs + 1 <= g.stalls.ownMs && hold <= g.stalls.breakMs
    requires At(working, CREATOR, RunHeld(own)) && At(working, BREAKER, JudgeAge(b, Some(Garbled("")))) && b.expected == None
    requires AgeOf(working.disk, Lock, working.clock) == Some(stall)
    requires AgeOf(working.disk, Ticket(b.mine), working.clock) == Some(0)
    ensures Reached(g, s) && Idle(g, s) && Alone(working, BREAKER, s) && At(s, BREAKER, TombNow(Breaking(b)))
    ensures s.disk == working.disk
  {
    BothPatient(g, working, hold);
    s := JudgesAgeLater(g, working, BREAKER, b, Some(Garbled("")), hold);
    IdleStays(g, working, BREAKER, s);
  }

  /** The creator is at its work, and the breaker's evidence of its lock is out of date. */
  lemma BreakerMisledOver(g: Setting, b: Breaker, stall: nat) returns (s: World, own: Owner)
    requires StartsWrecked(g) && b == Breaker(Issued(BREAKER, 0), None) && !g.start.fs.stamps
    requires stall <= g.stalls.createMs && stall <= g.stalls.ownMs
    ensures Reached(g, s) && Idle(g, s) && At(s, CREATOR, RunHeld(own))
    ensures At(s, BREAKER, JudgeAge(b, Some(Garbled(""))))
    ensures s.disk.TextAt(Lock) == Some(Record(own, None)) && AgeOf(s.disk, Lock, s.clock) == Some(stall)
    ensures AgeOf(s.disk, Ticket(b.mine), s.clock) == Some(0)
    ensures forall path: Path :: path in s.disk.paths ==> path.Lock? || path.Ticket?
  {
    var misled: World;
    misled, own := BreakerMisled(g, b, Breaker(Issued(CREATOR, 1), None), stall);
    s := CreatorCatchesUp(g, misled, own, misled.clock - stall, b);
  }

  /** `hold` later still, the breaker reads an age that condemns the lock: its landing left it the time of its create. */
  lemma BothStall(g: Setting, stall: nat, hold: nat) returns (s: World, own: Owner, b: Breaker, tomb: TombPath)
    requires StartsWrecked(g) && !g.start.fs.stamps && stall + hold == g.start.limits.staleMs + 1 <= g.stalls.ownMs
    requires stall <= g.stalls.createMs && hold <= g.stalls.breakMs
    ensures Reached(g, s) && Idle(g, s) && Poised(s, own, b, tomb) && b.expected == None
  {
    b := Breaker(Issued(BREAKER, 0), None);
    var working: World;
    working, own := BreakerMisledOver(g, b, stall);
    var judged := BreakerHolds(g, working, own, b, stall, hold);
    tomb := Tomb(b.mine, judged.clock);
    s := NamesGrave(g, judged, own, b);
  }

  lemma NamesGrave(g: Setting, judged: World, own: Owner, b: Breaker) returns (s: World)
    requires Reached(g, judged) && Idle(g, judged) && At(judged, CREATOR, RunHeld(own))
    requires At(judged, BREAKER, TombNow(Breaking(b))) && judged.disk.TextAt(Lock) == Some(Record(own, None))
    requires forall path: Path :: path in judged.disk.paths ==> path.Lock? || path.Ticket?
    ensures Reached(g, s) && Idle(g, s) && Poised(s, own, b, Tomb(b.mine, judged.clock))
  {
    s := NamesTomb(g, judged, BREAKER, Breaking(b));
    IdleStays(g, judged, BREAKER, s);
    ComesPoised(g, s, own, b, Tomb(b.mine, judged.clock));
  }

  // ---- a creator that stalls past `staleMs` ----

  /** The breaker reads an age that condemns the lock before its text lands, and names its tomb. */
  lemma BreakerCondemns(g: Setting, misled: World, own: Owner, b: Breaker, stall: nat) returns (s: World)
    requires Reached(g, misled) && Idle(g, misled) && MidCreate(misled, own, misled.clock - stall)
    requires At(misled, BREAKER, JudgeAge(b, Some(Garbled("")))) && b.expected == None && stall > misled.limits.staleMs
    ensures Reached(g, s) && Idle(g, s) && MidCreate(s, own, s.clock - stall)
    ensures At(s, BREAKER, TombRename(Breaking(b), Tomb(b.mine, s.clock)))
  {
    BlankDamns(misled, own, b, stall);
    s := ConvictsLock(g, misled, BREAKER, b, Some(Garbled("")));
    MidCreateStays(misled, s, own, s.clock - stall);
    IdleStays(g, misled, BREAKER, s);
  }

  lemma BlankDamns(s: World, own: Owner, b: Breaker, stall: nat)
    requires MidCreate(s, own, s.clock - stall) && b.expected == None && stall > s.limits.staleMs
    ensures Damning(s, b, Some(Garbled("")), s.clock)
  {
  }

  lemma CondemnsUnlanded(g: Setting, b: Breaker, stall: nat) returns (s: World, own: Owner)
    requires StartsWrecked(g) && b == Breaker(Issued(BREAKER, 0), None)
    requires g.start.limits.staleMs < stall <= g.stalls.createMs && stall <= g.stalls.ownMs
    ensures Reached(g, s) && Idle(g, s) && MidCreate(s, own, s.clock - stall)
    ensures At(s, BREAKER, TombRename(Breaking(b), Tomb(b.mine, s.clock)))
  {
    var misled: World;
    misled, own := BreakerMisled(g, b, Breaker(Issued(CREATOR, 1), None), stall);
    s := BreakerCondemns(g, misled, own, b, stall);
  }

  /** A creator's stall alone outlives `staleMs`, and the breaker's evidence is complete before the text lands. */
  lemma CreatorStallsLong(g: Setting, stall: nat) returns (s: World, own: Owner, b: Breaker, tomb: TombPath)
    requires StartsWrecked(g) && g.start.limits.staleMs < stall <= g.stalls.createMs && stall <= g.stalls.ownMs
    ensures Reached(g, s) && Idle(g, s) && Poised(s, own, b, tomb) && b.expected == None
  {
    b := Breaker(Issued(BREAKER, 0), None);
    var judged: World;
    judged, own := CondemnsUnlanded(g, b, stall);
    tomb := Tomb(b.mine, judged.clock);
    s := CreatorCatchesUp(g, judged, own, judged.clock - stall, b);
    ComesPoised(g, s, own, b, tomb);
  }

  // ---- an owner that keeps its lock ----

  ghost predicate StartsClean(g: Setting) {
    g.start == Opening(g.start.limits, g.start.fs, Disk(map[], map[], 0), 0, 2)
  }

  /** The creator is at its work, and the breaker has not begun. */
  lemma CreatorOwns(g: Setting) returns (s: World, own: Owner)
    requires StartsClean(g)
    ensures Reached(g, s) && Idle(g, s) && At(s, CREATOR, RunHeld(own)) && At(s, BREAKER, MakeDir)
    ensures s.disk.paths == map[Lock := 0] && s.disk.FileAt(Lock) == Some(Inode(Record(own, None), s.clock))
    ensures own.host == HOST
  {
    ReachedAtStart(g);
    AllBegin(g, Disk(map[], map[], 0), 0);
    var polling := ArrivesNow(g, g.start, CREATOR);
    own := OwnerOf(polling, CREATOR);
    PostedFacts(polling.disk, Lock, Record(own, None), polling.clock);
    s := Owns(g, polling, CREATOR, false);
    IdleStays(g, polling, CREATOR, s);
  }

  /** `age` later the breaker comes to poll the lock. */
  lemma OwnerAges(g: Setting, age: nat) returns (s: World, own: Owner)
    requires StartsClean(g) && age <= g.stalls.ownMs
    ensures Reached(g, s) && Idle(g, s) && At(s, CREATOR, RunHeld(own)) && At(s, BREAKER, ObserveText)
    ensures s.disk.paths == map[Lock := 0] && s.disk.FileAt(Lock) == Some(Inode(Record(own, None), s.clock - age))
    ensures s.clock <= s.procs[BREAKER].m.deadline && own.host == HOST
  {
    var owned: World;
    owned, own := CreatorOwns(g);
    BothPatient(g, owned, age);
    s := Arrives(g, owned, BREAKER, age);
    IdleStays(g, owned, BREAKER, s);
  }

  /** An owner whose lock is as old as it may be is judged by a caller that reads its record, or cannot. */
  lemma OwnsForLong(g: Setting, blind: bool, age: nat) returns (s: World, own: Owner, b: Breaker, tomb: TombPath)
    requires StartsClean(g) && age <= g.stalls.ownMs && (blind ==> g.start.fs.textFails && !g.smooth)
    requires age > g.start.limits.staleMs + if blind then 0 else g.start.limits.waitTimeoutMs
    ensures Reached(g, s) && Idle(g, s) && Poised(s, own, b, tomb)
    ensures b.expected == if blind then None else Some(own.nonce)
    ensures !blind ==> own.nonce in s.procs[BREAKER].seen
  {
    var aged: World;
    aged, own := OwnerAges(g, age);
    b := Breaker(Issued(BREAKER, aged.serial), if blind then None else Some(own.nonce));
    tomb := Tomb(b.mine, aged.clock);
    OldLockTempts(aged, own, b, blind, age);
    s := AttacksOwner(g, aged, own, b, blind);
  }

  lemma AttacksOwner(g: Setting, aged: World, own: Owner, b: Breaker, blind: bool) returns (s: World)
    requires Reached(g, aged) && Idle(g, aged) && At(aged, CREATOR, RunHeld(own))
    requires Tempting(aged, BREAKER, b, blind) && MayRead(g, aged, blind)
    requires aged.disk.paths == map[Lock := 0] && aged.disk.TextAt(Lock) == Some(Record(own, None))
    ensures Reached(g, s) && Idle(g, s) && Poised(s, own, b, Tomb(b.mine, aged.clock))
    ensures !blind ==> own.nonce in s.procs[BREAKER].seen
  {
    s := Attacks(g, aged, BREAKER, b, blind);
    IdleStays(g, aged, BREAKER, s);
    TicketBesideLock(g, aged, own, b);
    ComesPoised(g, s, own, b, Tomb(b.mine, aged.clock));
  }

  lemma TicketBesideLock(g: Setting, s: World, own: Owner, b: Breaker)
    requires Reached(g, s) && s.disk.paths == map[Lock := 0] && s.disk.TextAt(Lock) == Some(Record(own, None))
    ensures
      var d := Posted(s.disk, Ticket(b.mine), TicketText(BREAKER, b, s.clock), s.clock);
      && d.TextAt(Lock) == Some(Record(own, None))
      && (forall path: Path :: path in d.paths ==> path.Lock? || path.Ticket?)
  {
    TicketPosted(g, s, b, TicketText(BREAKER, b, s.clock), s.clock);
  }

  lemma OldLockTempts(s: World, own: Owner, b: Breaker, blind: bool, age: nat)
    requires At(s, BREAKER, ObserveText) && s.clock <= s.procs[BREAKER].m.deadline && own.host == HOST
    requires s.disk.paths == map[Lock := 0] && s.disk.FileAt(Lock) == Some(Inode(Record(own, None), s.clock - age))
    requires age > s.limits.staleMs + if blind then 0 else s.limits.waitTimeoutMs
    requires b == Breaker(Issued(BREAKER, s.serial), if blind then None else Some(own.nonce))
    ensures Tempting(s, BREAKER, b, blind)
  {
  }

  // ---- all the limits that do not suffice ----

  function SettingOf(limits: Limits, fs: FileSystem, stalls: Stalls, smooth: bool, wrecked: bool, n: nat): Setting {
    var start := if wrecked then Opening(limits, fs, WreckDisk(), limits.staleMs + 1, n)
                 else Opening(limits, fs, Disk(map[], map[], 0), 0, n);
    Setting(start, stalls, smooth)
  }

  /** Of `n` processes, the two come to a poised rename of a wreck, each past the other's ticket. */
  lemma PoisedByTickets(g: Setting, hold: nat, blind: bool) returns (s: World, own: Owner, b: Breaker, tomb: TombPath)
    requires StartsWrecked(g) && hold <= g.stalls.breakMs
    requires if blind then g.start.fs.textFails && g.start.fs.ageFails && !g.smooth else hold > g.start.limits.staleMs
    ensures Reached(g, s) && Idle(g, s) && Poised(s, own, b, tomb) && b.expected == None
  {
    b := Breaker(Issued(BREAKER, 0), None);
    tomb := Tomb(b.mine, g.start.clock);
    var c := Breaker(Issued(CREATOR, 1), None);
    var past := SlipsPast(g, b, tomb, c, hold, blind);
    s, own := Overtakes(g, past, b, tomb, c);
  }

  /** Whenever the limits do not suffice, a breaker gets poised to move the lock of an owner at its work. */
  lemma AnyPoised(limits: Limits, fs: FileSystem, stalls: Stalls, smooth: bool, n: nat)
    returns (g: Setting, s: World, own: Owner, b: Breaker, tomb: TombPath)
    requires !Suffices(limits, fs, stalls) && (smooth ==> fs == Reliable(fs.stamps)) && n >= 2
    ensures g.start.limits == limits && g.start.fs == fs && g.stalls == stalls && g.smooth == smooth
    ensures Reached(g, s) && Poised(s, own, b, tomb)
    ensures
      || (b.expected == None && StartsWrecked(g) && |s.procs| == n)
      || (b.expected == None && fs.textFails)
      || (b.expected == Some(own.nonce) && StartsClean(g) && |s.procs| == 2
          && own.nonce in s.procs[BREAKER].seen)
  {
    if stalls.breakMs > limits.staleMs {
      g := SettingOf(limits, fs, stalls, smooth, true, n);
      s, own, b, tomb := PoisedByTickets(g, limits.staleMs + 1, false);
    } else if fs.textFails && fs.ageFails {
      g := SettingOf(limits, fs, stalls, smooth, true, n);
      s, own, b, tomb := PoisedByTickets(g, 0, true);
    } else if stalls.createMs > limits.staleMs {
      g := SettingOf(limits, fs, stalls, smooth, true, n);
      s, own, b, tomb := CreatorStallsLong(g, limits.staleMs + 1);
    } else if !fs.stamps && stalls.createMs + stalls.breakMs > limits.staleMs {
      g := SettingOf(limits, fs, stalls, smooth, true, n);
      s, own, b, tomb := BothStall(g, stalls.createMs, limits.staleMs + 1 - stalls.createMs);
    } else {
      g := SettingOf(limits, fs, stalls, smooth, false, 2);
      var age := limits.staleMs + 1 + if fs.textFails then 0 else limits.waitTimeoutMs;
      s, own, b, tomb := OwnsForLong(g, fs.textFails, age);
    }
  }

  /** The rename displaces the lock of the owner at its work. */
  lemma Displaces(g: Setting, s: World, own: Owner, b: Breaker, tomb: TombPath) returns (s': World)
    requires Reached(g, s) && Poised(s, own, b, tomb)
    ensures Reached(g, s') && At(s', CREATOR, RunHeld(own)) && s'.disk.TextAt(Lock) == None
    ensures Brings(s, BREAKER, s', TombText(Breaking(b), tomb), s.disk.Move(Lock, tomb), 0)
  {
    s' := Moves(g, s, BREAKER, Breaking(b), tomb);
  }
}

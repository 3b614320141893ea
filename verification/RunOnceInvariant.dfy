/**
 * The inductive invariant of the protocol: what every reachable state of any
 * number of processes, crashing or not, satisfies under the timing limits.
 */
module RunOnceInvariant {
  import opened Wrappers
  import opened RunOnceMachine
  import opened RunOnceWorld

  // ---- nonces ----

  /** The nonce was carried by some create of this run, or belongs to no process of this run. */
  predicate Public(s: World, n: Nonce) {
    n.Foreign? || n in s.posted
  }

  /** A record names the process that drew its nonce. */
  predicate Genuine(s: World, o: Owner) {
    Public(s, o.nonce) && (o.nonce.Issued? ==> o.pid == o.nonce.pid && o.host == s.host)
  }

  predicate GenuineText(s: World, text: Option<Text>) {
    text.Some? && text.value.Record? ==> Genuine(s, text.value.owner)
  }

  /** Drawn by `p` and carried by no create yet. */
  predicate Pending(s: World, p: int, n: Nonce) {
    n.Issued? && n.pid == p && n.serial < s.serial && n !in s.posted
  }

  predicate MineAndPosted(s: World, p: int, n: Nonce) {
    n.Issued? && n.pid == p && n in s.posted
  }

  predicate OwnsWith(s: World, p: int, n: Nonce) {
    Live(s, p) && Owned(s.procs[p].m.ctl).Some? && Owned(s.procs[p].m.ctl).value.nonce == n
  }

  /** No live process owns a lock under this nonce, now or later. */
  ghost predicate Settled(s: World, n: Nonce) {
    Public(s, n) && forall p :: 0 <= p < |s.procs| ==> !OwnsWith(s, p, n)
  }

  ghost predicate SettledIfAny(s: World, n: Option<Nonce>) {
    n.Some? ==> Settled(s, n.value)
  }

  // ---- what a control point carries ----

  function CarriedText(ctl: Control): Option<Text> {
    match ctl
    case ObserveAge(text) => text
    case ScanAge(_, _, _, _, text) => text
    case JudgeAge(_, text) => text
    case TombAge(_, _, text) => text
    case PutBack(_, _, moved) => Some(moved)
    case _ => None
  }

  function CarriedLock(ctl: Control): LockState {
    match ctl
    case ReadMarker(lock) => lock
    case PollNow(lock, _) => lock
    case _ => Absent
  }

  /** The breaker attempt a control point belongs to, from its first nonce on. */
  function Attempt(ctl: Control): Option<Breaker> {
    match ctl
    case TicketNow(b) => Some(b)
    case CreateTicket(b, _) => Some(b)
    case _ => Holding(ctl)
  }

  function CarriedExpected(ctl: Control): Option<Nonce> {
    match ctl
    case SweepList(after) => if after.ToBreak? then after.expected else None
    case SweepNow(after, _) => if after.ToBreak? then after.expected else None
    case SweepRemove(after, _, _) => if after.ToBreak? then after.expected else None
    case TicketNonce(expected) => expected
    case _ => if Attempt(ctl).Some? then Attempt(ctl).value.expected else None
  }

  /** The tickets a scan has still to judge, the one under its hand included. */
  function ToScan(ctl: Control): seq<TicketPath> {
    match ctl
    case ScanText(_, ticket, rest, _) => [ticket] + rest
    case ScanAge(_, ticket, rest, _, _) => [ticket] + rest
    case ScanRemove(_, _, rest, _) => rest
    case _ => []
  }

  predicate Contended(ctl: Control) {
    match ctl
    case ScanText(_, _, _, contended) => contended
    case ScanAge(_, _, _, contended, _) => contended
    case ScanRemove(_, _, _, contended) => contended
    case Withdraw(_) => true
    case _ => false
  }

  // ---- the invariant, conjunct by conjunct ----

  ghost predicate LocalOk(s: World, p: int)
    requires 0 <= p < |s.procs|
  {
    var ctl := s.procs[p].m.ctl;
    && ConfigOf(s, p, s.procs[p].cfg)
    && GenuineText(s, CarriedText(ctl))
    && (CarriedLock(ctl).Held? && CarriedLock(ctl).owner.Some? ==>
          Genuine(s, CarriedLock(ctl).owner.value))
    && (CarriedExpected(ctl).Some? ==> Public(s, CarriedExpected(ctl).value))
    && (ctl.CreateLock? ==> Pending(s, p, ctl.own.nonce) && ctl.own.pid == p && ctl.own.host == s.host)
    && (ctl.TicketNow? || ctl.CreateTicket? ==> Pending(s, p, ctl.b.mine))
    && (Owned(ctl).Some? ==>
          && MineAndPosted(s, p, Owned(ctl).value.nonce)
          && Owned(ctl).value.pid == p && Owned(ctl).value.host == s.host)
    && (Holding(ctl).Some? ==> MineAndPosted(s, p, Holding(ctl).value.mine))
    && (ctl.TombRemove? ==> ctl.verdict != Stuck)
    && (ctl.JudgeAge? ==> s.procs[p].deferred.None?)
    && (forall t :: t in ToScan(ctl) && t.Ticket? ==> Public(s, t.nonce))
    && (ctl.ScanRemove? && ctl.ticket.Ticket? ==> Public(s, ctl.ticket.nonce))
  }

  ghost predicate LocalInv(s: World) {
    forall p :: Live(s, p) ==> LocalOk(s, p)
  }

  /** What a process means to break, or would break, no live process owns. */
  ghost predicate SettledOk(s: World, p: int)
    requires 0 <= p < |s.procs|
  {
    var ctl := s.procs[p].m.ctl;
    && (CarriedLock(ctl).Held? && CarriedLock(ctl).owner.Some? && Breakable(CarriedLock(ctl), s.limits) ==>
          Settled(s, CarriedLock(ctl).owner.value.nonce))
    && SettledIfAny(s, CarriedExpected(ctl))
  }

  ghost predicate SettledInv(s: World) {
    forall p :: Live(s, p) ==> SettledOk(s, p)
  }

  ghost predicate NonceInv(s: World) {
    && (forall n :: n in s.posted ==> n.Foreign? || n.serial < s.serial)
    && (forall id :: id in s.disk.inodes ==> GenuineText(s, Some(s.disk.inodes[id].text)))
    && (forall p :: p in s.disk.paths && p.Ticket? ==> Public(s, p.nonce))
    && (forall p :: Live(s, p) && s.procs[p].deferred.Some? ==>
          && GenuineText(s, Some(s.procs[p].deferred.value.text))
          && s.procs[p].deferred.value.id in s.disk.inodes)
  }

  predicate WritesTo(s: World, p: int, id: nat) {
    Live(s, p) && s.procs[p].deferred.Some? && s.procs[p].deferred.value.id == id
  }

  /** The lock path holds the owner's own file, which nobody else writes. */
  ghost predicate LockHeldBy(s: World, p: int)
    requires 0 <= p < |s.procs| && Owned(s.procs[p].m.ctl).Some?
  {
    var ctl := s.procs[p].m.ctl;
    var own := Record(Owned(ctl).value, None);
    && !ctl.Repair?
    && Lock in s.disk.paths && s.disk.paths[Lock] in s.disk.inodes
    && var id := s.disk.paths[Lock];
    && (if ctl.Verify? then
          s.disk.inodes[id].text == Garbled("") && s.procs[p].deferred == Some(Deferred(id, own))
        else
          s.disk.inodes[id].text == own && !WritesTo(s, p, id))
    && forall q :: q != p ==> !WritesTo(s, q, id)
  }

  ghost predicate LockInv(s: World) {
    forall p :: Live(s, p) && Owned(s.procs[p].m.ctl).Some? ==> LockHeldBy(s, p)
  }

  /** A text that does not say the ticket belongs to somebody else. */
  predicate NamesHolder(s: World, p: int, text: Text) {
    text.Record? ==> text.owner.pid == p && text.owner.host == s.host
  }

  ghost predicate TicketHeldBy(s: World, p: int)
    requires 0 <= p < |s.procs| && Holding(s.procs[p].m.ctl).Some?
  {
    var path := Ticket(Holding(s.procs[p].m.ctl).value.mine);
    && path in s.disk.paths && s.disk.paths[path] in s.disk.inodes
    && var id := s.disk.paths[path];
    && NamesHolder(s, p, s.disk.inodes[id].text)
    && s.disk.inodes[id].mtime <= s.clock
    && (WritesTo(s, p, id) ==> NamesHolder(s, p, s.procs[p].deferred.value.text))
    && forall q :: q != p ==> !WritesTo(s, q, id)
  }

  ghost predicate TicketInv(s: World) {
    forall p :: Live(s, p) && Holding(s.procs[p].m.ctl).Some? ==> TicketHeldBy(s, p)
  }

  predicate HoldsTicket(s: World, p: int, path: Path) {
    Live(s, p) && Holding(s.procs[p].m.ctl).Some? && path == Ticket(Holding(s.procs[p].m.ctl).value.mine)
  }

  /** The ticket a scan has read, or has condemned. */
  function UnderScan(ctl: Control): Path {
    match ctl
    case ScanAge(_, ticket, _, _, _) => ticket
    case ScanRemove(_, ticket, _, _) => ticket
    case _ => Lock
  }

  /** The evidence in `q`'s scan does not condemn `p`'s ticket; it is blank only where reads of texts may fail. */
  predicate ScanSpares(s: World, p: int, q: int)
    requires 0 <= q < |s.procs|
  {
    var ctl := s.procs[q].m.ctl;
    && ctl.ScanAge?
    && if ctl.text.Some? then NamesHolder(s, p, ctl.text.value) else s.fs.textFails
  }

  ghost predicate ScanInv(s: World) {
    forall p, q :: Live(s, q) && HoldsTicket(s, p, UnderScan(s.procs[q].m.ctl)) ==> ScanSpares(s, p, q)
  }

  predicate Listed(s: World, p: int) {
    Live(s, p) && Holding(s.procs[p].m.ctl).Some? && !s.procs[p].m.ctl.ListTickets?
  }

  /** `q` saw `p`'s ticket: it has yet to judge it, or it already knows it is contended. */
  predicate Sees(s: World, q: int, p: int)
    requires Listed(s, p) && Listed(s, q)
  {
    Contended(s.procs[q].m.ctl) || Ticket(Holding(s.procs[p].m.ctl).value.mine) in ToScan(s.procs[q].m.ctl)
  }

  /** Of two contenders past their listing, the later lister saw the earlier one's ticket. */
  ghost predicate ExclusionInv(s: World) {
    forall p, q :: p != q && Listed(s, p) && Listed(s, q) ==> Sees(s, q, p) || Sees(s, p, q)
  }

  /** The breaker holds evidence naming the lock it means to remove. */
  predicate Targets(ctl: Control) {
    || (ctl.JudgeAge? && ctl.b.expected.Some? && NonceOf(DecodeOwner(ctl.text)) == ctl.b.expected)
    || (ctl.TombNow? && ctl.errand.Breaking?)
    || (ctl.TombRename? && ctl.errand.Breaking?)
  }

  ghost predicate Unowned(s: World) {
    Lock in s.disk.paths && forall p :: Live(s, p) ==> Owned(s.procs[p].m.ctl).None?
  }

  predicate LockNoOlder(d: Disk, ticket: Nonce, slack: nat) {
    var lock, mine := d.FileAt(Lock), d.FileAt(Ticket(ticket));
    lock.Some? && mine.Some? && mine.value.mtime <= lock.value.mtime + slack
  }

  /**
   * `p`'s lock is no older than `b`'s ticket. Where a landing stamps the file
   * that holds once the lock's text has landed; elsewhere up to a creator's stall.
   */
  predicate Younger(s: World, p: int, b: Breaker, stalls: Stalls)
    requires 0 <= p < |s.procs|
  {
    if s.fs.stamps then s.procs[p].m.ctl.Verify? || LockNoOlder(s.disk, b.mine, 0)
    else LockNoOlder(s.disk, b.mine, stalls.createMs)
  }

  /** A live owner's lock is younger than the ticket of a breaker with unreadable evidence. */
  ghost predicate FreshEnough(s: World, b: Breaker, stalls: Stalls) {
    forall p :: Live(s, p) && Owned(s.procs[p].m.ctl).Some? ==> Younger(s, p, b, stalls)
  }

  /** A live owner's lock may outgrow `staleMs`, so that its age alone does not save it. */
  predicate MayOutlive(s: World, stalls: Stalls) {
    stalls.ownMs > s.limits.staleMs
  }

  ghost predicate JudgeInv(s: World, stalls: Stalls) {
    forall p :: Live(s, p) ==>
      var ctl := s.procs[p].m.ctl;
      && (Targets(ctl) ==> Unowned(s))
      && (MayOutlive(s, stalls) && ctl.JudgeAge? && DecodeOwner(ctl.text).None? ==> FreshEnough(s, ctl.b, stalls))
  }

  /** Nonces and files are in order. */
  ghost predicate Inv0(s: World) {
    s.disk.Valid() && LocalInv(s) && NonceInv(s)
  }

  /** What breaker exclusion rests on: it needs no limit but the tickets'. */
  ghost predicate TicketsInv(s: World) {
    Inv0(s) && TicketInv(s) && ScanInv(s) && ExclusionInv(s)
  }

  ghost predicate Inv(s: World, stalls: Stalls) {
    TicketsInv(s) && SettledInv(s) && LockInv(s) && JudgeInv(s, stalls)
  }
}

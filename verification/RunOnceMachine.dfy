/**
 * The run-once protocol as a suspended generator: a control point asks for one
 * IO request, and an answer moves it to the next control point.
 * Nothing here performs IO; every rule of the protocol is in `Resume`.
 */
module RunOnceMachine {
  import opened Wrappers

  /** A token that names files. Issued tokens carry who drew them, as the model checker's host spells them. */
  datatype Nonce = Issued(pid: int, serial: nat) | Foreign(name: string)

  datatype Owner = Owner(pid: int, host: string, nonce: Nonce, startedAt: int)

  /**
   * What a file can hold. An owner record and a breaker ticket decode as one
   * another, so they are one shape; anything undecodable is `Garbled`.
   */
  datatype Text =
    | Garbled(raw: string)
    | Record(owner: Owner, breaking: Option<Nonce>)
    | Mark(nonce: Nonce, at: int)

  datatype Path =
    | Lock
    | Done
    | Ticket(nonce: Nonce)
    | OldBreaker
    | Tomb(nonce: Nonce, renamedAt: int)
    | OldTomb(nonce: Nonce, renamedAt: int)
    | Alien(name: string)

  type TicketPath = p: Path | p.Ticket? || p.OldBreaker? witness OldBreaker
  type TombPath = p: Path | p.Tomb? || p.OldTomb? witness Tomb(Foreign(""), 0)

  datatype Limits = Limits(staleMs: nat, pollMs: nat, waitTimeoutMs: nat)

  datatype Config = Config(
    limits: Limits, trustSequentialMs: Option<nat>, serialize: bool, pid: int, host: string)

  datatype Reason = WaitTimeout | LockUnavailable

  datatype Outcome =
    | Ran
    | RanUnserialized(reason: Reason)
    | Trusted(owner: Nonce, finishedAt: int)

  datatype LockState = Absent | Held(owner: Option<Owner>, ageMs: Option<int>, alive: Option<bool>)

  datatype Decision = Trust(nonce: Nonce, at: int) | Create | Takeover(expected: Option<Nonce>) | Wait | GiveUp

  datatype Breaker = Breaker(mine: Nonce, expected: Option<Nonce>)

  datatype Verdict = Deleted | Restored | Lost | Missing | Stuck

  /** Who asked for a compare-and-delete, and what follows it. */
  datatype Errand =
    | Breaking(b: Breaker)
    | Releasing(own: Owner, attempt: nat, outcome: Outcome)

  datatype AfterSweep = ToDeadline | ToBreak(expected: Option<Nonce>)

  datatype Control =
    | MakeDir
    | SweepList(after: AfterSweep)
    | SweepNow(after: AfterSweep, names: seq<Path>)
    | SweepRemove(after: AfterSweep, tomb: TombPath, doomed: seq<TombPath>)
    | SetDeadline
    | ObserveText
    | ObserveAge(text: Option<Text>)
    | ReadMarker(lock: LockState)
    | PollNow(lock: LockState, done: Option<Text>)
    | Pause
    | LockNonce(startedAt: int)
    | CreateLock(own: Owner)
    | Verify(own: Owner)
    | Repair(own: Owner)
    | ReadLate(own: Owner)
    | RunHeld(own: Owner)
    | MarkNow(own: Owner)
    | WriteMark(own: Owner, at: int)
    | TicketNonce(expected: Option<Nonce>)
    | TicketNow(b: Breaker)
    | CreateTicket(b: Breaker, startedAt: int)
    | ListTickets(b: Breaker)
    | ScanText(b: Breaker, ticket: TicketPath, rest: seq<TicketPath>, contended: bool)
    | ScanAge(b: Breaker, ticket: TicketPath, rest: seq<TicketPath>, contended: bool, text: Option<Text>)
    | ScanRemove(b: Breaker, ticket: TicketPath, rest: seq<TicketPath>, contended: bool)
    | Withdraw(b: Breaker)
    | JudgeText(b: Breaker)
    | JudgeAge(b: Breaker, text: Option<Text>)
    | TombNow(errand: Errand)
    | TombRename(errand: Errand, tomb: TombPath)
    | TombText(errand: Errand, tomb: TombPath)
    | TombAge(errand: Errand, tomb: TombPath, text: Option<Text>)
    | PutBack(errand: Errand, tomb: TombPath, moved: Text)
    | TombRemove(errand: Errand, tomb: TombPath, verdict: Verdict)
    | DropTicket(b: Breaker, movedOn: bool)
    | Backoff(own: Owner, attempt: nat, outcome: Outcome)
    | RunAlone(reason: Reason)
    | Ended(outcome: Outcome)

  datatype Machine = Machine(ctl: Control, deadline: int, observed: set<Nonce>)

  datatype Request =
    | AskNow
    | AskNonce
    | AskSleep(ms: nat)
    | AskBackoff(ms: nat)
    | AskMakeDirectory
    | AskReadText(path: Path)
    | AskCreateExclusive(path: Path, text: Text)
    | AskWriteText(path: Path, text: Text)
    | AskRemove(path: Path)
    | AskAgeMs(path: Path)
    | AskRename(from: Path, to: Path)
    | AskListDirectory
    | AskRun

  datatype Created = CreatedNew | AlreadyExists | CreateFailed
  datatype Renamed = RenamedAway | NothingThere | RenameFailed

  datatype Answer =
    | Nothing
    | Time(now: int)
    | Drawn(nonce: Nonce)
    | MadeDirectory(ok: bool)
    | Contents(text: Option<Text>)
    | Age(ageMs: Option<int>)
    | CreateAnswer(created: Created)
    | RenameAnswer(renamed: Renamed)
    | Listing(names: Option<seq<Path>>)
    | Worked(succeeded: bool)

  const RELEASE_PAUSES: seq<nat> := [0, 10, 25, 50, 100, 200]

  function DecodeOwner(text: Option<Text>): Option<Owner> {
    if text.Some? && text.value.Record? then Some(text.value.owner) else None
  }

  function DecodeMark(text: Option<Text>): Option<Text> {
    if text.Some? && text.value.Mark? then text else None
  }

  function NonceOf(owner: Option<Owner>): Option<Nonce> {
    if owner.Some? then Some(owner.value.nonce) else None
  }

  /** Whether a held lock may be taken over on this evidence. */
  predicate Breakable(lock: LockState, limits: Limits) {
    lock.Held? &&
    var age := if lock.ageMs.Some? then lock.ageMs.value else 0;
    || lock.alive == Some(false)
    || (lock.alive == None && age > limits.staleMs)
    || (lock.alive == Some(true) && age > limits.staleMs + limits.waitTimeoutMs)
  }

  /** Whether a done marker, read as `done`, is trusted by a caller that observed `observed`. */
  predicate Trusts(done: Option<Text>, now: int, observed: set<Nonce>, cfg: Config) {
    done.Some? && done.value.Mark? &&
    (|| done.value.nonce in observed
     || (cfg.trustSequentialMs.Some? && now - done.value.at <= cfg.trustSequentialMs.value))
  }

  function Decide(done: Option<Text>, lock: LockState, now: int, m: Machine, cfg: Config): Decision {
    if Trusts(done, now, m.observed, cfg) then Trust(done.value.nonce, done.value.at)
    else if lock.Absent? then Create
    else if now > m.deadline then GiveUp
    else if Breakable(lock, cfg.limits) then Takeover(NonceOf(lock.owner))
    else Wait
  }

  predicate StillBreakable(expected: Option<Nonce>, owner: Option<Owner>, ageMs: Option<int>, staleMs: nat) {
    if expected.Some? then NonceOf(owner) == expected
    else owner.None? && ageMs.Some? && ageMs.value > staleMs
  }

  /** Whether a ticket's evidence lets another caller remove it. `alive` answers the liveness probe. */
  predicate TicketAbandoned(cfg: Config, text: Option<Text>, ageMs: Option<int>, alive: int -> bool) {
    || (ageMs.Some? && ageMs.value > cfg.limits.staleMs)
    || (var holder := DecodeOwner(text);
        && holder.Some?
        && holder.value.host == cfg.host
        && holder.value.pid != cfg.pid
        && !alive(holder.value.pid))
  }

  /** The other tickets in a listing, in listing order. */
  function OtherTickets(names: seq<Path>, mine: Nonce): (tickets: seq<TicketPath>)
    ensures forall p: Path :: p in tickets <==> p in names && (p.Ticket? || p.OldBreaker?) && p != Ticket(mine)
  {
    if names == [] then []
    else if (names[0].Ticket? || names[0].OldBreaker?) && names[0] != Ticket(mine) then
      [names[0]] + OtherTickets(names[1..], mine)
    else OtherTickets(names[1..], mine)
  }

  /** The tombs in a listing whose rename is older than `staleMs`. */
  function StaleTombs(names: seq<Path>, now: int, staleMs: nat): seq<TombPath> {
    if names == [] then []
    else if (names[0].Tomb? || names[0].OldTomb?) && now - names[0].renamedAt > staleMs then
      [names[0]] + StaleTombs(names[1..], now, staleMs)
    else StaleTombs(names[1..], now, staleMs)
  }

  function Ask(cfg: Config, ctl: Control): Request
    requires !ctl.Ended?
  {
    match ctl
    case MakeDir => AskMakeDirectory
    case SweepList(_) => AskListDirectory
    case SweepNow(_, _) => AskNow
    case SweepRemove(_, tomb, _) => AskRemove(tomb)
    case SetDeadline => AskNow
    case ObserveText => AskReadText(Lock)
    case ObserveAge(_) => AskAgeMs(Lock)
    case ReadMarker(_) => AskReadText(Done)
    case PollNow(_, _) => AskNow
    case Pause => AskSleep(cfg.limits.pollMs)
    case LockNonce(_) => AskNonce
    case CreateLock(own) => AskCreateExclusive(Lock, Record(own, None))
    case Verify(_) => AskReadText(Lock)
    case Repair(own) => AskWriteText(Lock, Record(own, None))
    case ReadLate(_) => AskReadText(Done)
    case RunHeld(_) => AskRun
    case MarkNow(_) => AskNow
    case WriteMark(own, at) => AskWriteText(Done, Mark(own.nonce, at))
    case TicketNonce(_) => AskNonce
    case TicketNow(_) => AskNow
    case CreateTicket(b, startedAt) =>
      AskCreateExclusive(Ticket(b.mine), Record(Owner(cfg.pid, cfg.host, b.mine, startedAt), b.expected))
    case ListTickets(_) => AskListDirectory
    case ScanText(_, ticket, _, _) => AskReadText(ticket)
    case ScanAge(_, ticket, _, _, _) => AskAgeMs(ticket)
    case ScanRemove(_, ticket, _, _) => AskRemove(ticket)
    case Withdraw(b) => AskRemove(Ticket(b.mine))
    case JudgeText(_) => AskReadText(Lock)
    case JudgeAge(_, _) => AskAgeMs(Lock)
    case TombNow(_) => AskNow
    case TombRename(_, tomb) => AskRename(Lock, tomb)
    case TombText(_, tomb) => AskReadText(tomb)
    case TombAge(_, tomb, _) => AskAgeMs(tomb)
    case PutBack(_, _, moved) => AskCreateExclusive(Lock, moved)
    case TombRemove(_, tomb, _) => AskRemove(tomb)
    case DropTicket(b, _) => AskRemove(Ticket(b.mine))
    case Backoff(_, attempt, _) =>
      AskBackoff(if attempt < |RELEASE_PAUSES| then RELEASE_PAUSES[attempt] else 0)
    case RunAlone(_) => AskRun
  }

  predicate Fits(request: Request, answer: Answer) {
    match request
    case AskNow => answer.Time?
    case AskNonce => answer.Drawn?
    case AskSleep(_) => answer.Nothing?
    case AskBackoff(_) => answer.Nothing?
    case AskMakeDirectory => answer.MadeDirectory?
    case AskReadText(_) => answer.Contents?
    case AskCreateExclusive(_, _) => answer.CreateAnswer?
    case AskWriteText(_, _) => answer.Nothing?
    case AskRemove(_) => answer.Nothing?
    case AskAgeMs(_) => answer.Age?
    case AskRename(_, _) => answer.RenameAnswer?
    case AskListDirectory => answer.Listing?
    case AskRun => answer.Worked?
  }

  // ---- the pieces of the generator's body that more than one control point reaches ----

  function AfterSweepAt(after: AfterSweep): Control {
    match after
    case ToDeadline => SetDeadline
    case ToBreak(expected) => TicketNonce(expected)
  }

  function SweepFrom(after: AfterSweep, doomed: seq<TombPath>): Control {
    if doomed == [] then AfterSweepAt(after) else SweepRemove(after, doomed[0], doomed[1..])
  }

  function ScanFrom(b: Breaker, rest: seq<TicketPath>, contended: bool): Control {
    if rest != [] then ScanText(b, rest[0], rest[1..], contended)
    else if contended then Withdraw(b)
    else JudgeText(b)
  }

  function Polled(cfg: Config, m: Machine, lock: LockState, done: Option<Text>, now: int): Control {
    match Decide(done, lock, now, m, cfg)
    case Trust(nonce, at) => Ended(Trusted(nonce, at))
    case GiveUp => RunAlone(WaitTimeout)
    case Wait => Pause
    case Takeover(expected) => SweepList(ToBreak(expected))
    case Create => LockNonce(now)
  }

  /** The lock is held and verified: consult the marker once more, or go straight to work. */
  function Acquired(cfg: Config, own: Owner): Control {
    if cfg.serialize then RunHeld(own) else ReadLate(own)
  }

  function StartRelease(own: Owner, outcome: Outcome): Control {
    TombNow(Releasing(own, 0, outcome))
  }

  function Concluded(errand: Errand, verdict: Verdict): Control {
    match errand
    case Breaking(b) => DropTicket(b, verdict != Stuck)
    case Releasing(own, attempt, outcome) =>
      if verdict == Stuck && attempt + 1 < |RELEASE_PAUSES| then Backoff(own, attempt + 1, outcome)
      else Ended(outcome)
  }

  function ErrandNonce(errand: Errand): Nonce {
    if errand.Breaking? then errand.b.mine else errand.own.nonce
  }

  predicate Accepts(cfg: Config, errand: Errand, owner: Option<Owner>, ageMs: int) {
    match errand
    case Breaking(b) => StillBreakable(b.expected, owner, Some(ageMs), cfg.limits.staleMs)
    case Releasing(own, _, _) => NonceOf(owner) == Some(own.nonce)
  }

  function Adding(observed: set<Nonce>, owner: Option<Owner>): set<Nonce> {
    if owner.Some? then observed + {owner.value.nonce} else observed
  }

  function Resume(cfg: Config, m: Machine, answer: Answer, alive: int -> bool): Machine
    requires !m.ctl.Ended? && Fits(Ask(cfg, m.ctl), answer)
  {
    match m.ctl
    case MakeDir =>
      m.(ctl := if answer.ok then SweepList(ToDeadline) else RunAlone(LockUnavailable))
    case SweepList(after) =>
      m.(ctl := if answer.names.Some? then SweepNow(after, answer.names.value) else AfterSweepAt(after))
    case SweepNow(after, names) =>
      m.(ctl := SweepFrom(after, StaleTombs(names, answer.now, cfg.limits.staleMs)))
    case SweepRemove(after, _, doomed) => m.(ctl := SweepFrom(after, doomed))
    case SetDeadline => m.(ctl := ObserveText, deadline := answer.now + cfg.limits.waitTimeoutMs)
    case ObserveText => m.(ctl := ObserveAge(answer.text))
    case ObserveAge(text) =>
      var owner := DecodeOwner(text);
      var lock :=
        if text.None? && answer.ageMs.None? then Absent
        else Held(owner, answer.ageMs,
                  if owner.Some? && owner.value.host == cfg.host then Some(alive(owner.value.pid)) else None);
      m.(ctl := if cfg.serialize then PollNow(lock, None) else ReadMarker(lock),
         observed := if lock.Held? then Adding(m.observed, owner) else m.observed)
    case ReadMarker(lock) => m.(ctl := PollNow(lock, DecodeMark(answer.text)))
    case PollNow(lock, done) => m.(ctl := Polled(cfg, m, lock, done, answer.now))
    case Pause => m.(ctl := ObserveText)
    case LockNonce(startedAt) => m.(ctl := CreateLock(Owner(cfg.pid, cfg.host, answer.nonce, startedAt)))
    case CreateLock(own) =>
      m.(ctl := match answer.created
                case CreatedNew => Verify(own)
                case AlreadyExists => ObserveText
                case CreateFailed => RunAlone(LockUnavailable))
    case Verify(own) =>
      m.(ctl := if answer.text == Some(Record(own, None)) then Acquired(cfg, own)
                else if answer.text.None? || DecodeOwner(answer.text).Some? then ObserveText
                else Repair(own))
    case Repair(own) => m.(ctl := Acquired(cfg, own))
    case ReadLate(own) =>
      var late := DecodeMark(answer.text);
      m.(ctl := if late.Some? && late.value.Mark? && late.value.nonce in m.observed
                then StartRelease(own, Trusted(late.value.nonce, late.value.at))
                else RunHeld(own))
    case RunHeld(own) =>
      m.(ctl := if answer.succeeded && !cfg.serialize then MarkNow(own) else StartRelease(own, Ran))
    case MarkNow(own) => m.(ctl := WriteMark(own, answer.now))
    case WriteMark(own, _) => m.(ctl := StartRelease(own, Ran))
    case TicketNonce(expected) => m.(ctl := TicketNow(Breaker(answer.nonce, expected)))
    case TicketNow(b) => m.(ctl := CreateTicket(b, answer.now))
    case CreateTicket(b, _) => m.(ctl := if answer.created.CreatedNew? then ListTickets(b) else Pause)
    case ListTickets(b) =>
      m.(ctl := if answer.names.None? then Withdraw(b)
                else ScanFrom(b, OtherTickets(answer.names.value, b.mine), false))
    case ScanText(b, ticket, rest, contended) => m.(ctl := ScanAge(b, ticket, rest, contended, answer.text))
    case ScanAge(b, ticket, rest, contended, text) =>
      m.(ctl := if text.None? && answer.ageMs.None? then ScanFrom(b, rest, contended)
                else if TicketAbandoned(cfg, text, answer.ageMs, alive) then ScanRemove(b, ticket, rest, contended)
                else ScanFrom(b, rest, true))
    case ScanRemove(b, _, rest, contended) => m.(ctl := ScanFrom(b, rest, contended))
    case Withdraw(_) => m.(ctl := Pause)
    case JudgeText(b) => m.(ctl := JudgeAge(b, answer.text))
    case JudgeAge(b, text) =>
      var owner := DecodeOwner(text);
      m.(ctl := if !(text.None? && answer.ageMs.None?)
                   && StillBreakable(b.expected, owner, answer.ageMs, cfg.limits.staleMs)
                then TombNow(Breaking(b))
                else DropTicket(b, true),
         observed := Adding(m.observed, owner))
    case TombNow(errand) => m.(ctl := TombRename(errand, Tomb(ErrandNonce(errand), answer.now)))
    case TombRename(errand, tomb) =>
      m.(ctl := match answer.renamed
                case RenamedAway => TombText(errand, tomb)
                case NothingThere => Concluded(errand, Missing)
                case RenameFailed => Concluded(errand, Stuck))
    case TombText(errand, tomb) => m.(ctl := TombAge(errand, tomb, answer.text))
    case TombAge(errand, tomb, text) =>
      if text.None? || answer.ageMs.None? then m.(ctl := TombRemove(errand, tomb, Deleted))
      else
        var owner := DecodeOwner(text);
        m.(ctl := if !Accepts(cfg, errand, owner, answer.ageMs.value) && owner.Some?
                  then PutBack(errand, tomb, text.value)
                  else TombRemove(errand, tomb, Deleted),
           observed := if errand.Breaking? then Adding(m.observed, owner) else m.observed)
    case PutBack(errand, tomb, _) =>
      m.(ctl := TombRemove(errand, tomb, if answer.created.CreatedNew? then Restored else Lost))
    case TombRemove(errand, _, verdict) => m.(ctl := Concluded(errand, verdict))
    case DropTicket(_, movedOn) => m.(ctl := if movedOn then ObserveText else Pause)
    case Backoff(own, attempt, outcome) => m.(ctl := TombNow(Releasing(own, attempt, outcome)))
    case RunAlone(reason) => m.(ctl := Ended(RanUnserialized(reason)))
  }

  function Start(): Machine {
    Machine(MakeDir, 0, {})
  }

  /** The outcome the protocol has come to, or will come to once its release is done. */
  function OutcomeOf(ctl: Control): Option<Outcome> {
    match ctl
    case Ended(outcome) => Some(outcome)
    case Backoff(_, _, outcome) => Some(outcome)
    case TombNow(errand) => if errand.Releasing? then Some(errand.outcome) else None
    case TombRename(errand, _) => if errand.Releasing? then Some(errand.outcome) else None
    case TombText(errand, _) => if errand.Releasing? then Some(errand.outcome) else None
    case TombAge(errand, _, _) => if errand.Releasing? then Some(errand.outcome) else None
    case PutBack(errand, _, _) => if errand.Releasing? then Some(errand.outcome) else None
    case TombRemove(errand, _, _) => if errand.Releasing? then Some(errand.outcome) else None
    case _ => None
  }
}

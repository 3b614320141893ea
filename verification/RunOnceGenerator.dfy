/**
 * The protocol as the generator it is written as: straight code that asks for
 * one thing after another, in terms of the answers it gets. Each part is given
 * the exchanges still to come; it is left pending at a request nobody has
 * answered, or done with a value. The suspended machine asks for the very same
 * things and comes to the same outcome, on all answers whatever.
 */
module RunOnceGenerator {
  import opened Wrappers
  import opened RunOnceMachine
  import opened RunOnceTalk

  datatype Part<+T> = Pending(request: Request) | Finished(value: T, rest: seq<Exchange>)

  /** A file's text and age, read one after the other, and the probe at that moment. */
  datatype Seen = Seen(text: Option<Text>, ageMs: Option<int>, alive: int -> bool)

  ghost function Evidence(path: Path, h: seq<Exchange>): (r: Part<Seen>)
    ensures r.Finished? ==> |r.rest| < |h|
  {
    if Awaits(h, AskReadText(path)) then Pending(AskReadText(path))
    else if Awaits(h[1..], AskAgeMs(path)) then Pending(AskAgeMs(path))
    else Finished(Seen(h[0].answer.text, h[1].answer.ageMs, h[1].alive), h[2..])
  }

  predicate Nowhere(seen: Seen) {
    seen.text.None? && seen.ageMs.None?
  }

  // ---- sweepTombs ----

  ghost function RemoveStale(cfg: Config, names: seq<Path>, now: int, h: seq<Exchange>): (r: Part<()>)
    ensures r.Finished? ==> |r.rest| <= |h|
    decreases |names|
  {
    if |names| == 0 then Finished((), h)
    else if !((names[0].Tomb? || names[0].OldTomb?) && now - names[0].renamedAt > cfg.limits.staleMs) then
      RemoveStale(cfg, names[1..], now, h)
    else if Awaits(h, AskRemove(names[0])) then Pending(AskRemove(names[0]))
    else RemoveStale(cfg, names[1..], now, h[1..])
  }

  ghost function SweepTombs(cfg: Config, h: seq<Exchange>): (r: Part<()>)
    ensures r.Finished? ==> |r.rest| <= |h|
  {
    if Awaits(h, AskListDirectory) then Pending(AskListDirectory)
    else if h[0].answer.names.None? then Finished((), h[1..])
    else if Awaits(h[1..], AskNow) then Pending(AskNow)
    else RemoveStale(cfg, h[0].answer.names.value, h[1].answer.now, h[2..])
  }

  // ---- takeBreaker ----

  /** The ticket is older than `staleMs`, or its holder is another, dead process of this host. */
  predicate Abandoned(cfg: Config, seen: Seen) {
    || (seen.ageMs.Some? && seen.ageMs.value > cfg.limits.staleMs)
    || (seen.text.Some? && seen.text.value.Record? && seen.text.value.owner.host == cfg.host
        && seen.text.value.owner.pid != cfg.pid && !seen.alive(seen.text.value.owner.pid))
  }

  ghost function WithdrawTicket(mine: Nonce, h: seq<Exchange>): (r: Part<Option<Nonce>>)
    ensures r.Finished? ==> |r.rest| <= |h|
  {
    if Awaits(h, AskRemove(Ticket(mine))) then Pending(AskRemove(Ticket(mine))) else Finished(None, h[1..])
  }

  ghost function ScanTickets(cfg: Config, mine: Nonce, names: seq<Path>, contended: bool, h: seq<Exchange>)
    : (r: Part<Option<Nonce>>)
    ensures r.Finished? ==> |r.rest| <= |h|
    decreases |names|
  {
    if |names| == 0 then (if contended then WithdrawTicket(mine, h) else Finished(Some(mine), h))
    else if !(names[0].Ticket? || names[0].OldBreaker?) || names[0] == Ticket(mine) then
      ScanTickets(cfg, mine, names[1..], contended, h)
    else
      match Evidence(names[0], h)
      case Pending(request) => Pending(request)
      case Finished(seen, rest) =>
        if Nowhere(seen) then ScanTickets(cfg, mine, names[1..], contended, rest)
        else if !Abandoned(cfg, seen) then ScanTickets(cfg, mine, names[1..], true, rest)
        else if Awaits(rest, AskRemove(names[0])) then Pending(AskRemove(names[0]))
        else ScanTickets(cfg, mine, names[1..], contended, rest[1..])
  }

  ghost function TakeBreaker(cfg: Config, expected: Option<Nonce>, h: seq<Exchange>): (r: Part<Option<Nonce>>)
    ensures r.Finished? ==> |r.rest| <= |h|
  {
    if Awaits(h, AskNonce) then Pending(AskNonce)
    else if Awaits(h[1..], AskNow) then Pending(AskNow)
    else
      var mine := h[0].answer.nonce;
      var create := AskCreateExclusive(Ticket(mine), Record(Owner(cfg.pid, cfg.host, mine, h[1].answer.now), expected));
      if Awaits(h[2..], create) then Pending(create)
      else if !h[2].answer.created.CreatedNew? then Finished(None, h[3..])
      else if Awaits(h[3..], AskListDirectory) then Pending(AskListDirectory)
      else if h[3].answer.names.None? then WithdrawTicket(mine, h[4..])
      else ScanTickets(cfg, mine, h[3].answer.names.value, false, h[4..])
  }

  // ---- compareAndDelete ----

  /** How it went, and the owner shown to `accept`, if it was asked. */
  datatype Deletion = Deletion(verdict: Verdict, shown: Option<Owner>)

  ghost function RemoveTomb(tomb: Path, d: Deletion, h: seq<Exchange>): (r: Part<Deletion>)
    ensures r.Finished? ==> |r.rest| <= |h|
  {
    if Awaits(h, AskRemove(tomb)) then Pending(AskRemove(tomb)) else Finished(d, h[1..])
  }

  ghost function JudgeTomb(tomb: Path, seen: Seen, accept: (Option<Owner>, int) -> bool, h: seq<Exchange>): (r: Part<Deletion>)
    ensures r.Finished? ==> |r.rest| <= |h|
  {
    if seen.text.None? || seen.ageMs.None? then RemoveTomb(tomb, Deletion(Deleted, None), h)
    else
      var text, owner := seen.text.value, DecodeOwner(seen.text);
      if accept(owner, seen.ageMs.value) || owner.None? then RemoveTomb(tomb, Deletion(Deleted, owner), h)
      else if Awaits(h, AskCreateExclusive(Lock, text)) then Pending(AskCreateExclusive(Lock, text))
      else RemoveTomb(tomb, Deletion(if h[0].answer.created.CreatedNew? then Restored else Lost, owner), h[1..])
  }

  ghost function CompareAndDelete(mine: Nonce, accept: (Option<Owner>, int) -> bool, h: seq<Exchange>): (r: Part<Deletion>)
    ensures r.Finished? ==> |r.rest| <= |h|
  {
    if Awaits(h, AskNow) then Pending(AskNow)
    else
      var tomb := Tomb(mine, h[0].answer.now);
      if Awaits(h[1..], AskRename(Lock, tomb)) then Pending(AskRename(Lock, tomb))
      else
        match h[1].answer.renamed
        case NothingThere => Finished(Deletion(Missing, None), h[2..])
        case RenameFailed => Finished(Deletion(Stuck, None), h[2..])
        case RenamedAway =>
          match Evidence(tomb, h[2..])
          case Pending(request) => Pending(request)
          case Finished(seen, rest) => JudgeTomb(tomb, seen, accept, rest)
  }

  // ---- breakLock ----

  /** Still the lock that was judged: the same owner, or still no record and still stale. */
  predicate SameStill(cfg: Config, expected: Option<Nonce>, owner: Option<Owner>, ageMs: Option<int>) {
    match expected
    case Some(nonce) => owner.Some? && owner.value.nonce == nonce
    case None => owner.None? && ageMs.Some? && ageMs.value > cfg.limits.staleMs
  }

  /** Whether the state moved on, and the trust set. */
  datatype Broken = Broken(movedOn: bool, observed: set<Nonce>)

  ghost function DropOwnTicket(mine: Nonce, b: Broken, h: seq<Exchange>): (r: Part<Broken>)
    ensures r.Finished? ==> |r.rest| <= |h|
  {
    if Awaits(h, AskRemove(Ticket(mine))) then Pending(AskRemove(Ticket(mine))) else Finished(b, h[1..])
  }

  ghost function JudgeLock(cfg: Config, mine: Nonce, expected: Option<Nonce>, seen: Seen, observed: set<Nonce>,
                           h: seq<Exchange>): (r: Part<Broken>)
    ensures r.Finished? ==> |r.rest| <= |h|
  {
    if Nowhere(seen) || !SameStill(cfg, expected, DecodeOwner(seen.text), seen.ageMs) then
      DropOwnTicket(mine, Broken(true, observed), h)
    else
      match CompareAndDelete(mine, (owner: Option<Owner>, ageMs: int) => SameStill(cfg, expected, owner, Some(ageMs)), h)
      case Pending(request) => Pending(request)
      case Finished(d, rest) => DropOwnTicket(mine, Broken(d.verdict != Stuck, With(observed, d.shown)), rest)
  }

  function With(observed: set<Nonce>, owner: Option<Owner>): set<Nonce> {
    if owner.Some? then observed + {owner.value.nonce} else observed
  }

  ghost function BreakLock(cfg: Config, expected: Option<Nonce>, observed: set<Nonce>, h: seq<Exchange>): (r: Part<Broken>)
    ensures r.Finished? ==> |r.rest| <= |h|
  {
    match TakeBreaker(cfg, expected, h)
    case Pending(request) => Pending(request)
    case Finished(mine, rest) =>
      if mine.None? then Finished(Broken(false, observed), rest)
      else
        match Evidence(Lock, rest)
        case Pending(request) => Pending(request)
        case Finished(seen, rest') =>
          JudgeLock(cfg, mine.value, expected, seen, With(observed, DecodeOwner(seen.text)), rest')
  }

  // ---- release ----

  const BACKOFFS: seq<nat> := [10, 25, 50, 100, 200]

  /** One try at removing the owner's own lock, then one after each pause, until one is not stuck. */
  ghost function ReleaseLock(own: Owner, pauses: seq<nat>, outcome: Outcome, h: seq<Exchange>): Turn
    decreases |pauses|
  {
    match CompareAndDelete(own.nonce, (owner: Option<Owner>, _: int) => owner.Some? && owner.value.nonce == own.nonce, h)
    case Pending(request) => Asks(request)
    case Finished(d, rest) =>
      if d.verdict != Stuck || |pauses| == 0 then Ends(outcome)
      else if Awaits(rest, AskBackoff(pauses[0])) then Asks(AskBackoff(pauses[0]))
      else ReleaseLock(own, pauses[1..], outcome, rest[1..])
  }

  // ---- the protocol ----

  ghost function Unserialized(reason: Reason, h: seq<Exchange>): Turn {
    if Awaits(h, AskRun) then Asks(AskRun) else Ends(RanUnserialized(reason))
  }

  /** The work under the lock, its marker if it succeeds, and the release. */
  ghost function Work(cfg: Config, own: Owner, h: seq<Exchange>): Turn {
    if Awaits(h, AskRun) then Asks(AskRun)
    else if !h[0].answer.succeeded || cfg.serialize then ReleaseLock(own, BACKOFFS, Ran, h[1..])
    else if Awaits(h[1..], AskNow) then Asks(AskNow)
    else
      var write := AskWriteText(Done, Mark(own.nonce, h[1].answer.now));
      if Awaits(h[2..], write) then Asks(write) else ReleaseLock(own, BACKOFFS, Ran, h[3..])
  }

  /** The marker is read once more, unless none is ever trusted, before the work. */
  ghost function Enter(cfg: Config, own: Owner, observed: set<Nonce>, h: seq<Exchange>): Turn {
    if cfg.serialize then Work(cfg, own, h)
    else if Awaits(h, AskReadText(Done)) then Asks(AskReadText(Done))
    else
      var late := h[0].answer.text;
      if late.Some? && late.value.Mark? && late.value.nonce in observed then
        ReleaseLock(own, BACKOFFS, Trusted(late.value.nonce, late.value.at), h[1..])
      else Work(cfg, own, h[1..])
  }

  /** The lock is absent: create it, and go on polling when another was first or took it. */
  ghost function CreateOwn(cfg: Config, deadline: int, observed: set<Nonce>, now: int, h: seq<Exchange>): Turn
    decreases |h|, 0
  {
    if Awaits(h, AskNonce) then Asks(AskNonce)
    else
      var own := Owner(cfg.pid, cfg.host, h[0].answer.nonce, now);
      var create := AskCreateExclusive(Lock, Record(own, None));
      if Awaits(h[1..], create) then Asks(create)
      else
        match h[1].answer.created
        case CreateFailed => Unserialized(LockUnavailable, h[2..])
        case AlreadyExists => Poll(cfg, deadline, observed, h[2..])
        case CreatedNew =>
          if Awaits(h[2..], AskReadText(Lock)) then Asks(AskReadText(Lock))
          else if h[2].answer.text == Some(Record(own, None)) then Enter(cfg, own, observed, h[3..])
          else if h[2].answer.text.None? || h[2].answer.text.value.Record? then Poll(cfg, deadline, observed, h[3..])
          else
            var repair := AskWriteText(Lock, Record(own, None));
            if Awaits(h[3..], repair) then Asks(repair) else Enter(cfg, own, observed, h[4..])
  }

  /** What a poll sees: the lock, the marker if any is ever trusted, and the time. */
  datatype View = View(seen: Seen, done: Option<Text>, now: int)

  ghost function Look(cfg: Config, h: seq<Exchange>): (r: Part<View>)
    ensures r.Finished? ==> |r.rest| < |h|
  {
    match Evidence(Lock, h)
    case Pending(request) => Pending(request)
    case Finished(seen, rest) =>
      if cfg.serialize then
        if Awaits(rest, AskNow) then Pending(AskNow) else Finished(View(seen, None, rest[0].answer.now), rest[1..])
      else if Awaits(rest, AskReadText(Done)) then Pending(AskReadText(Done))
      else if Awaits(rest[1..], AskNow) then Pending(AskNow)
      else Finished(View(seen, rest[0].answer.text, rest[1].answer.now), rest[2..])
  }

  /** The marker is trusted: it names an owner observed, or the caller trusts markers this young. */
  predicate Trustworthy(cfg: Config, observed: set<Nonce>, v: View) {
    v.done.Some? && v.done.value.Mark? &&
    (|| v.done.value.nonce in observed
     || (cfg.trustSequentialMs.Some? && v.now - v.done.value.at <= cfg.trustSequentialMs.value))
  }

  /** The owner is a process of this host. */
  predicate Probed(cfg: Config, seen: Seen) {
    seen.text.Some? && seen.text.value.Record? && seen.text.value.owner.host == cfg.host
  }

  /**
   * The lock may be taken over: a dead owner's at once, one nobody can be asked
   * about past `staleMs`, a live one's past the wait too.
   */
  predicate Forfeit(cfg: Config, seen: Seen) {
    var age := if seen.ageMs.Some? then seen.ageMs.value else 0;
    if !Probed(cfg, seen) then age > cfg.limits.staleMs
    else !seen.alive(seen.text.value.owner.pid) || age > cfg.limits.staleMs + cfg.limits.waitTimeoutMs
  }

  /** Poll until the outcome is trusted, the lock is created, or the wait is over. */
  ghost function Poll(cfg: Config, deadline: int, observed: set<Nonce>, h: seq<Exchange>): Turn
    decreases |h|, 1
  {
    match Look(cfg, h)
    case Pending(request) => Asks(request)
    case Finished(v, rest) => Act(cfg, deadline, With(observed, DecodeOwner(v.seen.text)), v, rest)
  }

  /** What a poll does about what it saw. */
  ghost function Act(cfg: Config, deadline: int, observed: set<Nonce>, v: View, h: seq<Exchange>): Turn
    decreases |h|, 4
  {
    if Trustworthy(cfg, observed, v) then Ends(Trusted(v.done.value.nonce, v.done.value.at))
    else if Nowhere(v.seen) then CreateOwn(cfg, deadline, observed, v.now, h)
    else if v.now > deadline then Unserialized(WaitTimeout, h)
    else if Forfeit(cfg, v.seen) then Takeover(cfg, deadline, NonceOf(DecodeOwner(v.seen.text)), observed, h)
    else PauseThenPoll(cfg, deadline, observed, h)
  }

  /** Sweep, try to break the lock, and poll again: at once if anything moved, else after a pause. */
  ghost function Takeover(cfg: Config, deadline: int, expected: Option<Nonce>, observed: set<Nonce>, h: seq<Exchange>): Turn
    decreases |h|, 3
  {
    match SweepTombs(cfg, h)
    case Pending(request) => Asks(request)
    case Finished(_, rest) =>
      match BreakLock(cfg, expected, observed, rest)
      case Pending(request) => Asks(request)
      case Finished(b, more) =>
        if b.movedOn then Poll(cfg, deadline, b.observed, more) else PauseThenPoll(cfg, deadline, b.observed, more)
  }

  ghost function PauseThenPoll(cfg: Config, deadline: int, observed: set<Nonce>, h: seq<Exchange>): Turn
    decreases |h|, 2
  {
    if Awaits(h, AskSleep(cfg.limits.pollMs)) then Asks(AskSleep(cfg.limits.pollMs))
    else Poll(cfg, deadline, observed, h[1..])
  }

  ghost function Protocol(cfg: Config, h: seq<Exchange>): Turn {
    if Awaits(h, AskMakeDirectory) then Asks(AskMakeDirectory)
    else if !h[0].answer.ok then Unserialized(LockUnavailable, h[1..])
    else
      match SweepTombs(cfg, h[1..])
      case Pending(request) => Asks(request)
      case Finished(_, rest) =>
        if Awaits(rest, AskNow) then Asks(AskNow)
        else Poll(cfg, rest[0].answer.now + cfg.limits.waitTimeoutMs, {}, rest[1..])
  }

  // ---- the machine goes through the same parts ----

  /** From `m` the machine is left where the part is, or goes on from `next` with what the part left over. */
  ghost predicate Runs<T>(cfg: Config, m: Machine, h: seq<Exchange>, part: Part<T>, next: Machine) {
    TurnFrom(cfg, m, h) == if part.Pending? then Asks(part.request) else TurnFrom(cfg, next, part.rest)
  }

  lemma OneStep(cfg: Config, m: Machine, h: seq<Exchange>)
    requires !m.ctl.Ended?
    ensures Awaits(h, Ask(cfg, m.ctl)) ==> TurnFrom(cfg, m, h) == Asks(Ask(cfg, m.ctl))
    ensures !Awaits(h, Ask(cfg, m.ctl)) ==>
      TurnFrom(cfg, m, h) == TurnFrom(cfg, Resume(cfg, m, h[0].answer, h[0].alive), h[1..])
  {
  }

  lemma {:induction false} RemoveStaleRuns(cfg: Config, m: Machine, after: AfterSweep, names: seq<Path>, now: int,
                                           h: seq<Exchange>)
    requires m.ctl == SweepFrom(after, StaleTombs(names, now, cfg.limits.staleMs))
    ensures Runs(cfg, m, h, RemoveStale(cfg, names, now, h), m.(ctl := AfterSweepAt(after)))
    decreases |names|
  {
    if |names| > 0 {
      if (names[0].Tomb? || names[0].OldTomb?) && now - names[0].renamedAt > cfg.limits.staleMs {
        var doomed := StaleTombs(names[1..], now, cfg.limits.staleMs);
        assert StaleTombs(names, now, cfg.limits.staleMs) == [names[0]] + doomed && ([names[0]] + doomed)[1..] == doomed;
        OneStep(cfg, m, h);
        if !Awaits(h, AskRemove(names[0])) {
          RemoveStaleRuns(cfg, m.(ctl := SweepFrom(after, doomed)), after, names[1..], now, h[1..]);
        }
      } else {
        RemoveStaleRuns(cfg, m, after, names[1..], now, h);
      }
    }
  }

  lemma SweepRuns(cfg: Config, m: Machine, after: AfterSweep, h: seq<Exchange>)
    requires m.ctl == SweepList(after)
    ensures Runs(cfg, m, h, SweepTombs(cfg, h), m.(ctl := AfterSweepAt(after)))
  {
    OneStep(cfg, m, h);
    if !Awaits(h, AskListDirectory) && h[0].answer.names.Some? {
      var m' := m.(ctl := SweepNow(after, h[0].answer.names.value));
      OneStep(cfg, m', h[1..]);
      if !Awaits(h[1..], AskNow) {
        assert h[1..][1..] == h[2..];
        RemoveStaleRuns(cfg, m.(ctl := SweepFrom(after, StaleTombs(m'.ctl.names, h[1].answer.now, cfg.limits.staleMs))), after,
                        m'.ctl.names, h[1].answer.now, h[2..]);
      }
    }
  }

  // ---- takeBreaker ----

  lemma WithdrawRuns(cfg: Config, m: Machine, b: Breaker, h: seq<Exchange>)
    requires m.ctl == Withdraw(b)
    ensures Runs(cfg, m, h, WithdrawTicket(b.mine, h), m.(ctl := Pause))
  {
    OneStep(cfg, m, h);
  }

  function Taken(b: Breaker, mine: Option<Nonce>): Control {
    if mine.None? then Pause else JudgeText(b)
  }

  ghost predicate TakesUp(cfg: Config, m: Machine, b: Breaker, h: seq<Exchange>, part: Part<Option<Nonce>>) {
    && (part.Finished? && part.value.Some? ==> part.value.value == b.mine)
    && Runs(cfg, m, h, part, m.(ctl := if part.Finished? then Taken(b, part.value) else m.ctl))
  }

  /** Where one ticket's evidence leaves the scan: waiting, or going on past it. */
  ghost predicate PassesTicket(cfg: Config, m: Machine, b: Breaker, ticket: TicketPath, rest: seq<TicketPath>, contended: bool,
                               h: seq<Exchange>)
  {
    var part := Evidence(ticket, h);
    if part.Pending? then TurnFrom(cfg, m, h) == Asks(part.request)
    else if Nowhere(part.value) then TurnFrom(cfg, m, h) == TurnFrom(cfg, m.(ctl := ScanFrom(b, rest, contended)), part.rest)
    else if !Abandoned(cfg, part.value) then TurnFrom(cfg, m, h) == TurnFrom(cfg, m.(ctl := ScanFrom(b, rest, true)), part.rest)
    else if Awaits(part.rest, AskRemove(ticket)) then TurnFrom(cfg, m, h) == Asks(AskRemove(ticket))
    else TurnFrom(cfg, m, h) == TurnFrom(cfg, m.(ctl := ScanFrom(b, rest, contended)), part.rest[1..])
  }

  lemma TicketRuns(cfg: Config, m: Machine, b: Breaker, ticket: TicketPath, rest: seq<TicketPath>, contended: bool,
                   h: seq<Exchange>)
    requires m.ctl == ScanText(b, ticket, rest, contended)
    ensures PassesTicket(cfg, m, b, ticket, rest, contended, h)
  {
    OneStep(cfg, m, h);
    if !Awaits(h, AskReadText(ticket)) {
      AgedTicketRuns(cfg, m.(ctl := ScanAge(b, ticket, rest, contended, h[0].answer.text)), h[1..]);
      if |h| > 1 { assert h[1..][1..] == h[2..] && h[1..][0] == h[1]; }
    }
  }

  lemma AgedTicketRuns(cfg: Config, m: Machine, h: seq<Exchange>)
    requires m.ctl.ScanAge?
    ensures Awaits(h, AskAgeMs(m.ctl.ticket)) ==> TurnFrom(cfg, m, h) == Asks(AskAgeMs(m.ctl.ticket))
    ensures !Awaits(h, AskAgeMs(m.ctl.ticket)) ==>
      PassesJudged(cfg, m, Seen(m.ctl.text, h[0].answer.ageMs, h[0].alive), h, h[1..])
  {
    OneStep(cfg, m, h);
    if !Awaits(h, AskAgeMs(m.ctl.ticket)) {
      var m' := Resume(cfg, m, h[0].answer, h[0].alive);
      if m'.ctl.ScanRemove? { OneStep(cfg, m', h[1..]); }
    }
  }

  ghost predicate PassesJudged(cfg: Config, m: Machine, seen: Seen, h: seq<Exchange>, more: seq<Exchange>)
    requires m.ctl.ScanAge?
  {
    var next := m.(ctl := ScanFrom(m.ctl.b, m.ctl.rest, m.ctl.contended));
    if Nowhere(seen) then TurnFrom(cfg, m, h) == TurnFrom(cfg, next, more)
    else if !Abandoned(cfg, seen) then
      TurnFrom(cfg, m, h) == TurnFrom(cfg, m.(ctl := ScanFrom(m.ctl.b, m.ctl.rest, true)), more)
    else if Awaits(more, AskRemove(m.ctl.ticket)) then TurnFrom(cfg, m, h) == Asks(AskRemove(m.ctl.ticket))
    else TurnFrom(cfg, m, h) == TurnFrom(cfg, next, more[1..])
  }

  lemma {:induction false} ScanRuns(cfg: Config, m: Machine, b: Breaker, names: seq<Path>, contended: bool, h: seq<Exchange>)
    requires m.ctl == ScanFrom(b, OtherTickets(names, b.mine), contended)
    ensures TakesUp(cfg, m, b, h, ScanTickets(cfg, b.mine, names, contended, h))
    decreases |names|
  {
    if |names| == 0 {
      if contended { WithdrawRuns(cfg, m, b, h); }
    } else if !(names[0].Ticket? || names[0].OldBreaker?) || names[0] == Ticket(b.mine) {
      ScanRuns(cfg, m, b, names[1..], contended, h);
    } else {
      var rest := OtherTickets(names[1..], b.mine);
      assert ([names[0]] + rest)[1..] == rest;
      TicketRuns(cfg, m, b, names[0], rest, contended, h);
      var part := Evidence(names[0], h);
      if part.Finished? {
        var seen, more := part.value, part.rest;
        if Nowhere(seen) {
          ScanRuns(cfg, m.(ctl := ScanFrom(b, rest, contended)), b, names[1..], contended, more);
        } else if !Abandoned(cfg, seen) {
          ScanRuns(cfg, m.(ctl := ScanFrom(b, rest, true)), b, names[1..], true, more);
        } else if !Awaits(more, AskRemove(names[0])) {
          ScanRuns(cfg, m.(ctl := ScanFrom(b, rest, contended)), b, names[1..], contended, more[1..]);
        }
      }
    }
  }

  lemma ListRuns(cfg: Config, m: Machine, b: Breaker, h: seq<Exchange>)
    requires m.ctl == ListTickets(b)
    ensures
      if Awaits(h, AskListDirectory) then TurnFrom(cfg, m, h) == Asks(AskListDirectory)
      else if h[0].answer.names.None? then TakesUp(cfg, m, b, h, WithdrawTicket(b.mine, h[1..]))
      else TakesUp(cfg, m, b, h, ScanTickets(cfg, b.mine, h[0].answer.names.value, false, h[1..]))
  {
    OneStep(cfg, m, h);
    if !Awaits(h, AskListDirectory) {
      if h[0].answer.names.None? {
        WithdrawRuns(cfg, m.(ctl := Withdraw(b)), b, h[1..]);
      } else {
        var names := h[0].answer.names.value;
        ScanRuns(cfg, m.(ctl := ScanFrom(b, OtherTickets(names, b.mine), false)), b, names, false, h[1..]);
      }
    }
  }

  lemma CreateTicketRuns(cfg: Config, m: Machine, b: Breaker, startedAt: int, h: seq<Exchange>)
    requires m.ctl == CreateTicket(b, startedAt)
    ensures
      var create := Ask(cfg, m.ctl);
      if Awaits(h, create) then TurnFrom(cfg, m, h) == Asks(create)
      else if !h[0].answer.created.CreatedNew? then TurnFrom(cfg, m, h) == TurnFrom(cfg, m.(ctl := Pause), h[1..])
      else if Awaits(h[1..], AskListDirectory) then TurnFrom(cfg, m, h) == Asks(AskListDirectory)
      else if h[1].answer.names.None? then TakesUp(cfg, m, b, h, WithdrawTicket(b.mine, h[2..]))
      else TakesUp(cfg, m, b, h, ScanTickets(cfg, b.mine, h[1].answer.names.value, false, h[2..]))
  {
    OneStep(cfg, m, h);
    if !Awaits(h, Ask(cfg, m.ctl)) && h[0].answer.created.CreatedNew? {
      ListRuns(cfg, m.(ctl := ListTickets(b)), b, h[1..]);
      if |h| > 1 { assert h[1..][1..] == h[2..] && h[1..][0] == h[1]; }
    }
  }

  lemma TakeRuns(cfg: Config, m: Machine, expected: Option<Nonce>, h: seq<Exchange>)
    requires m.ctl == TicketNonce(expected)
    ensures
      var part := TakeBreaker(cfg, expected, h);
      Runs(cfg, m, h, part,
           m.(ctl := if part.Finished? && part.value.Some? then JudgeText(Breaker(part.value.value, expected)) else Pause))
  {
    OneStep(cfg, m, h);
    if !Awaits(h, AskNonce) {
      var b := Breaker(h[0].answer.nonce, expected);
      OneStep(cfg, m.(ctl := TicketNow(b)), h[1..]);
      if !Awaits(h[1..], AskNow) {
        assert h[1..][1..] == h[2..] && h[1..][0] == h[1];
        CreateTicketRuns(cfg, m.(ctl := CreateTicket(b, h[1].answer.now)), b, h[1].answer.now, h[2..]);
        assert (|h| > 2 ==> h[2..][1..] == h[3..]) && (|h| > 3 ==> h[2..][2..] == h[4..]);
      }
    }
  }

  // ---- compareAndDelete ----

  /** Where the machine stands once the deletion is over. */
  function Deleting(m: Machine, errand: Errand, d: Deletion): Machine {
    m.(ctl := Concluded(errand, d.verdict), observed := if errand.Breaking? then With(m.observed, d.shown) else m.observed)
  }

  ghost predicate Deletes(cfg: Config, m: Machine, base: Machine, errand: Errand, h: seq<Exchange>, part: Part<Deletion>) {
    Runs(cfg, m, h, part, if part.Finished? then Deleting(base, errand, part.value) else m)
  }

  lemma RemoveTombRuns(cfg: Config, m: Machine, errand: Errand, tomb: TombPath, d: Deletion, h: seq<Exchange>)
    requires m.ctl == TombRemove(errand, tomb, d.verdict)
    ensures Runs(cfg, m, h, RemoveTomb(tomb, d, h), m.(ctl := Concluded(errand, d.verdict)))
  {
    OneStep(cfg, m, h);
  }

  lemma JudgeTombRuns(cfg: Config, m: Machine, errand: Errand, tomb: TombPath, seen: Seen, accept: (Option<Owner>, int) -> bool,
                      h: seq<Exchange>)
    requires m.ctl == TombAge(errand, tomb, seen.text)
    requires forall owner, ageMs :: accept(owner, ageMs) == Accepts(cfg, errand, owner, ageMs)
    ensures Deletes(cfg, Resume(cfg, m, Age(seen.ageMs), seen.alive), m, errand, h, JudgeTomb(tomb, seen, accept, h))
  {
    var m' := Resume(cfg, m, Age(seen.ageMs), seen.alive);
    if seen.text.None? || seen.ageMs.None? {
      RemoveTombRuns(cfg, m', errand, tomb, Deletion(Deleted, None), h);
    } else {
      var owner := DecodeOwner(seen.text);
      if accept(owner, seen.ageMs.value) || owner.None? {
        RemoveTombRuns(cfg, m', errand, tomb, Deletion(Deleted, owner), h);
      } else {
        PutBackRuns(cfg, m', errand, tomb, seen.text.value, h);
      }
    }
  }

  lemma PutBackRuns(cfg: Config, m: Machine, errand: Errand, tomb: TombPath, moved: Text, h: seq<Exchange>)
    requires m.ctl == PutBack(errand, tomb, moved)
    ensures
      if Awaits(h, AskCreateExclusive(Lock, moved)) then TurnFrom(cfg, m, h) == Asks(AskCreateExclusive(Lock, moved))
      else
        var verdict := if h[0].answer.created.CreatedNew? then Restored else Lost;
        if Awaits(h[1..], AskRemove(tomb)) then TurnFrom(cfg, m, h) == Asks(AskRemove(tomb))
        else TurnFrom(cfg, m, h) == TurnFrom(cfg, m.(ctl := Concluded(errand, verdict)), h[1..][1..])
  {
    OneStep(cfg, m, h);
    if !Awaits(h, AskCreateExclusive(Lock, moved)) {
      var d := Deletion(if h[0].answer.created.CreatedNew? then Restored else Lost, None);
      RemoveTombRuns(cfg, m.(ctl := TombRemove(errand, tomb, d.verdict)), errand, tomb, d, h[1..]);
    }
  }

  lemma TombAgeRuns(cfg: Config, m: Machine, errand: Errand, tomb: TombPath, accept: (Option<Owner>, int) -> bool,
                    h: seq<Exchange>)
    requires m.ctl.TombAge? && m.ctl.errand == errand && m.ctl.tomb == tomb
    requires forall owner, ageMs :: accept(owner, ageMs) == Accepts(cfg, errand, owner, ageMs)
    ensures Awaits(h, AskAgeMs(tomb)) ==> TurnFrom(cfg, m, h) == Asks(AskAgeMs(tomb))
    ensures !Awaits(h, AskAgeMs(tomb)) ==>
      Deletes(cfg, m, m, errand, h, JudgeTomb(tomb, Seen(m.ctl.text, h[0].answer.ageMs, h[0].alive), accept, h[1..]))
  {
    OneStep(cfg, m, h);
    if !Awaits(h, AskAgeMs(tomb)) {
      JudgeTombRuns(cfg, m, errand, tomb, Seen(m.ctl.text, h[0].answer.ageMs, h[0].alive), accept, h[1..]);
    }
  }

  lemma TombRuns(cfg: Config, m: Machine, errand: Errand, tomb: TombPath, accept: (Option<Owner>, int) -> bool,
                 h: seq<Exchange>)
    requires m.ctl == TombText(errand, tomb)
    requires forall owner, ageMs :: accept(owner, ageMs) == Accepts(cfg, errand, owner, ageMs)
    ensures
      var part := Evidence(tomb, h);
      if part.Pending? then TurnFrom(cfg, m, h) == Asks(part.request)
      else Deletes(cfg, m, m, errand, h, JudgeTomb(tomb, part.value, accept, part.rest))
  {
    OneStep(cfg, m, h);
    if !Awaits(h, AskReadText(tomb)) {
      TombAgeRuns(cfg, m.(ctl := TombAge(errand, tomb, h[0].answer.text)), errand, tomb, accept, h[1..]);
      if |h| > 1 { assert h[1..][1..] == h[2..] && h[1..][0] == h[1]; }
    }
  }

  lemma DeletionRuns(cfg: Config, m: Machine, errand: Errand, accept: (Option<Owner>, int) -> bool, h: seq<Exchange>)
    requires m.ctl == TombNow(errand)
    requires forall owner, ageMs :: accept(owner, ageMs) == Accepts(cfg, errand, owner, ageMs)
    ensures Deletes(cfg, m, m, errand, h, CompareAndDelete(ErrandNonce(errand), accept, h))
  {
    OneStep(cfg, m, h);
    if !Awaits(h, AskNow) {
      var tomb := Tomb(ErrandNonce(errand), h[0].answer.now);
      OneStep(cfg, m.(ctl := TombRename(errand, tomb)), h[1..]);
      if !Awaits(h[1..], AskRename(Lock, tomb)) {
        assert h[1..][1..] == h[2..] && h[1..][0] == h[1];
        if h[1].answer.renamed.RenamedAway? { TombRuns(cfg, m.(ctl := TombText(errand, tomb)), errand, tomb, accept, h[2..]); }
      }
    }
  }

  // ---- breakLock ----

  /** Where the machine stands once the break is over. */
  function BrokenOff(m: Machine, b: Broken): Machine {
    m.(ctl := if b.movedOn then ObserveText else Pause, observed := b.observed)
  }

  ghost predicate Breaks(cfg: Config, m: Machine, h: seq<Exchange>, part: Part<Broken>) {
    Runs(cfg, m, h, part, if part.Finished? then BrokenOff(m, part.value) else m)
  }

  lemma DropRuns(cfg: Config, m: Machine, b: Breaker, movedOn: bool, h: seq<Exchange>)
    requires m.ctl == DropTicket(b, movedOn)
    ensures Breaks(cfg, m, h, DropOwnTicket(b.mine, Broken(movedOn, m.observed), h))
  {
    OneStep(cfg, m, h);
  }

  lemma JudgeLockRuns(cfg: Config, m: Machine, b: Breaker, seen: Seen, h: seq<Exchange>)
    requires m.ctl == JudgeAge(b, seen.text)
    ensures
      var m' := Resume(cfg, m, Age(seen.ageMs), seen.alive);
      Breaks(cfg, m', h, JudgeLock(cfg, b.mine, b.expected, seen, With(m.observed, DecodeOwner(seen.text)), h))
  {
    var m' := Resume(cfg, m, Age(seen.ageMs), seen.alive);
    if Nowhere(seen) || !SameStill(cfg, b.expected, DecodeOwner(seen.text), seen.ageMs) {
      DropRuns(cfg, m', b, true, h);
    } else {
      var accept := (owner: Option<Owner>, ageMs: int) => SameStill(cfg, b.expected, owner, Some(ageMs));
      DeletionRuns(cfg, m', Breaking(b), accept, h);
      var part := CompareAndDelete(b.mine, accept, h);
      if part.Finished? {
        DropRuns(cfg, Deleting(m', Breaking(b), part.value), b, part.value.verdict != Stuck, part.rest);
      }
    }
  }

  lemma LockRuns(cfg: Config, m: Machine, b: Breaker, h: seq<Exchange>)
    requires m.ctl == JudgeText(b)
    ensures
      var part := Evidence(Lock, h);
      if part.Pending? then TurnFrom(cfg, m, h) == Asks(part.request)
      else
        var observed := With(m.observed, DecodeOwner(part.value.text));
        Breaks(cfg, m, h, JudgeLock(cfg, b.mine, b.expected, part.value, observed, part.rest))
  {
    OneStep(cfg, m, h);
    if !Awaits(h, AskReadText(Lock)) {
      AgedLockRuns(cfg, m.(ctl := JudgeAge(b, h[0].answer.text)), h[1..]);
      if |h| > 1 { assert h[1..][1..] == h[2..] && h[1..][0] == h[1]; }
    }
  }

  lemma AgedLockRuns(cfg: Config, m: Machine, h: seq<Exchange>)
    requires m.ctl.JudgeAge?
    ensures Awaits(h, AskAgeMs(Lock)) ==> TurnFrom(cfg, m, h) == Asks(AskAgeMs(Lock))
    ensures !Awaits(h, AskAgeMs(Lock)) ==>
      var b, seen := m.ctl.b, Seen(m.ctl.text, h[0].answer.ageMs, h[0].alive);
      Breaks(cfg, m, h, JudgeLock(cfg, b.mine, b.expected, seen, With(m.observed, DecodeOwner(seen.text)), h[1..]))
  {
    OneStep(cfg, m, h);
    if !Awaits(h, AskAgeMs(Lock)) {
      JudgeLockRuns(cfg, m, m.ctl.b, Seen(m.ctl.text, h[0].answer.ageMs, h[0].alive), h[1..]);
    }
  }

  lemma BreakRuns(cfg: Config, m: Machine, expected: Option<Nonce>, h: seq<Exchange>)
    requires m.ctl == TicketNonce(expected)
    ensures Breaks(cfg, m, h, BreakLock(cfg, expected, m.observed, h))
  {
    TakeRuns(cfg, m, expected, h);
    var part := TakeBreaker(cfg, expected, h);
    if part.Finished? && part.value.Some? {
      var b := Breaker(part.value.value, expected);
      LockRuns(cfg, m.(ctl := JudgeText(b)), b, part.rest);
    }
  }

  // ---- release ----

  lemma BackoffRuns(cfg: Config, m: Machine, own: Owner, attempt: nat, outcome: Outcome, h: seq<Exchange>)
    requires m.ctl == Backoff(own, attempt + 1, outcome) && attempt < |BACKOFFS|
    ensures
      TurnFrom(cfg, m, h) ==
      if Awaits(h, AskBackoff(BACKOFFS[attempt])) then Asks(AskBackoff(BACKOFFS[attempt]))
      else TurnFrom(cfg, m.(ctl := TombNow(Releasing(own, attempt + 1, outcome))), h[1..])
  {
    OneStep(cfg, m, h);
  }

  lemma {:induction false} ReleaseRuns(cfg: Config, m: Machine, own: Owner, attempt: nat, outcome: Outcome, h: seq<Exchange>)
    requires m.ctl == TombNow(Releasing(own, attempt, outcome)) && attempt <= |BACKOFFS|
    ensures TurnFrom(cfg, m, h) == ReleaseLock(own, BACKOFFS[attempt..], outcome, h)
    decreases |BACKOFFS| - attempt
  {
    var errand := Releasing(own, attempt, outcome);
    var accept := (owner: Option<Owner>, _: int) => owner.Some? && owner.value.nonce == own.nonce;
    DeletionRuns(cfg, m, errand, accept, h);
    var part := CompareAndDelete(own.nonce, accept, h);
    if part.Finished? {
      var m' := Deleting(m, errand, part.value);
      if part.value.verdict == Stuck && attempt < |BACKOFFS| {
        BackoffRuns(cfg, m', own, attempt, outcome, part.rest);
        assert BACKOFFS[attempt..][1..] == BACKOFFS[attempt + 1..];
        if !Awaits(part.rest, AskBackoff(BACKOFFS[attempt])) {
          ReleaseRuns(cfg, m'.(ctl := TombNow(Releasing(own, attempt + 1, outcome))), own, attempt + 1, outcome,
                      part.rest[1..]);
        }
      }
    }
  }

  lemma ReleaseAtOnce(cfg: Config, m: Machine, own: Owner, outcome: Outcome, h: seq<Exchange>)
    requires m.ctl == StartRelease(own, outcome)
    ensures TurnFrom(cfg, m, h) == ReleaseLock(own, BACKOFFS, outcome, h)
  {
    assert BACKOFFS[0..] == BACKOFFS;
    ReleaseRuns(cfg, m, own, 0, outcome, h);
  }

  // ---- the protocol ----

  lemma AloneRuns(cfg: Config, m: Machine, reason: Reason, h: seq<Exchange>)
    requires m.ctl == RunAlone(reason)
    ensures TurnFrom(cfg, m, h) == Unserialized(reason, h)
  {
    OneStep(cfg, m, h);
  }

  lemma MarkRuns(cfg: Config, m: Machine, own: Owner, h: seq<Exchange>)
    requires m.ctl == MarkNow(own)
    ensures
      if Awaits(h, AskNow) then TurnFrom(cfg, m, h) == Asks(AskNow)
      else if Awaits(h[1..], AskWriteText(Done, Mark(own.nonce, h[0].answer.now))) then
        TurnFrom(cfg, m, h) == Asks(AskWriteText(Done, Mark(own.nonce, h[0].answer.now)))
      else TurnFrom(cfg, m, h) == ReleaseLock(own, BACKOFFS, Ran, h[2..])
  {
    OneStep(cfg, m, h);
    if !Awaits(h, AskNow) {
      var m' := m.(ctl := WriteMark(own, h[0].answer.now));
      OneStep(cfg, m', h[1..]);
      if !Awaits(h[1..], Ask(cfg, m'.ctl)) {
        assert h[1..][1..] == h[2..];
        ReleaseAtOnce(cfg, m.(ctl := StartRelease(own, Ran)), own, Ran, h[2..]);
      }
    }
  }

  lemma WorkRuns(cfg: Config, m: Machine, own: Owner, h: seq<Exchange>)
    requires m.ctl == RunHeld(own)
    ensures TurnFrom(cfg, m, h) == Work(cfg, own, h)
  {
    OneStep(cfg, m, h);
    if !Awaits(h, AskRun) {
      if !h[0].answer.succeeded || cfg.serialize {
        ReleaseAtOnce(cfg, m.(ctl := StartRelease(own, Ran)), own, Ran, h[1..]);
      } else {
        MarkRuns(cfg, m.(ctl := MarkNow(own)), own, h[1..]);
        assert (|h| > 1 ==> h[1..][1..] == h[2..]) && (|h| > 2 ==> h[1..][2..] == h[3..]);
      }
    }
  }

  lemma EnterRuns(cfg: Config, m: Machine, own: Owner, h: seq<Exchange>)
    requires m.ctl == Acquired(cfg, own)
    ensures TurnFrom(cfg, m, h) == Enter(cfg, own, m.observed, h)
  {
    if cfg.serialize {
      WorkRuns(cfg, m, own, h);
    } else {
      OneStep(cfg, m, h);
      if !Awaits(h, AskReadText(Done)) {
        var m' := Resume(cfg, m, h[0].answer, h[0].alive);
        if m'.ctl.RunHeld? { WorkRuns(cfg, m', own, h[1..]); }
        else { ReleaseAtOnce(cfg, m', own, m'.ctl.errand.outcome, h[1..]); }
      }
    }
  }

  /** The machine once a poll has seen all it looks at. */
  function Settled(cfg: Config, m: Machine, v: View): Machine {
    var observed := With(m.observed, DecodeOwner(v.seen.text));
    m.(observed := observed,
       ctl := if Trustworthy(cfg, observed, v) then Ended(Trusted(v.done.value.nonce, v.done.value.at))
              else if Nowhere(v.seen) then LockNonce(v.now)
              else if v.now > m.deadline then RunAlone(WaitTimeout)
              else if Forfeit(cfg, v.seen) then SweepList(ToBreak(NonceOf(DecodeOwner(v.seen.text))))
              else Pause)
  }

  /** The lock as a poll's evidence shows it. */
  function LockSeen(cfg: Config, seen: Seen): LockState {
    if Nowhere(seen) then Absent
    else Held(DecodeOwner(seen.text), seen.ageMs,
              if Probed(cfg, seen) then Some(seen.alive(seen.text.value.owner.pid)) else None)
  }

  lemma SeesLock(cfg: Config, m: Machine, seen: Seen)
    requires m.ctl == ObserveAge(seen.text)
    ensures
      Resume(cfg, m, Age(seen.ageMs), seen.alive)
      == m.(ctl := if cfg.serialize then PollNow(LockSeen(cfg, seen), None) else ReadMarker(LockSeen(cfg, seen)),
            observed := With(m.observed, DecodeOwner(seen.text)))
  {
  }

  /** The decision on a poll's view, by the machine that has read all of it. */
  lemma Decides(cfg: Config, m: Machine, v: View)
    requires m.ctl == PollNow(LockSeen(cfg, v.seen), DecodeMark(v.done))
    requires m.observed == With(m.observed, DecodeOwner(v.seen.text))
    ensures Resume(cfg, m, Time(v.now), v.seen.alive) == Settled(cfg, m, v)
  {
    var lock := LockSeen(cfg, v.seen);
    if Probed(cfg, v.seen) {
      if v.seen.alive(v.seen.text.value.owner.pid) {
        assert lock.alive == Some(true);
      } else {
        assert lock.alive == Some(false);
      }
    }
  }

  lemma LookRuns(cfg: Config, m: Machine, h: seq<Exchange>)
    requires m.ctl == ObserveText
    ensures
      var part := Look(cfg, h);
      Runs(cfg, m, h, part, if part.Finished? then Settled(cfg, m, part.value) else m)
  {
    OneStep(cfg, m, h);
    if !Awaits(h, AskReadText(Lock)) {
      AgedLookRuns(cfg, m.(ctl := ObserveAge(h[0].answer.text)), h[1..]);
      if |h| > 1 { assert h[1..][1..] == h[2..] && h[1..][0] == h[1]; }
    }
  }

  lemma AgedLookRuns(cfg: Config, m: Machine, h: seq<Exchange>)
    requires m.ctl.ObserveAge?
    ensures Awaits(h, AskAgeMs(Lock)) ==> TurnFrom(cfg, m, h) == Asks(AskAgeMs(Lock))
    ensures !Awaits(h, AskAgeMs(Lock)) ==>
      Glances(cfg, m, Seen(m.ctl.text, h[0].answer.ageMs, h[0].alive), TurnFrom(cfg, m, h), h[1..])
  {
    OneStep(cfg, m, h);
    if !Awaits(h, AskAgeMs(Lock)) {
      var seen := Seen(m.ctl.text, h[0].answer.ageMs, h[0].alive);
      SeesLock(cfg, m, seen);
      if cfg.serialize { TimeRuns(cfg, Resume(cfg, m, h[0].answer, h[0].alive), seen, None, h[1..]); }
      else { MarkerRuns(cfg, Resume(cfg, m, h[0].answer, h[0].alive), seen, h[1..]); }
    }
  }

  /** The rest of a look, once the lock's text and age are in, comes to `turn`. */
  ghost predicate Glances(cfg: Config, m: Machine, seen: Seen, turn: Turn, h: seq<Exchange>) {
    if cfg.serialize then
      turn ==
      if Awaits(h, AskNow) then Asks(AskNow) else TurnFrom(cfg, Settled(cfg, m, View(seen, None, h[0].answer.now)), h[1..])
    else if Awaits(h, AskReadText(Done)) then turn == Asks(AskReadText(Done))
    else
      turn ==
      if Awaits(h[1..], AskNow) then Asks(AskNow)
      else TurnFrom(cfg, Settled(cfg, m, View(seen, h[0].answer.text, h[1].answer.now)), h[2..])
  }

  lemma TimeRuns(cfg: Config, m: Machine, seen: Seen, done: Option<Text>, h: seq<Exchange>)
    requires m.ctl == PollNow(LockSeen(cfg, seen), DecodeMark(done))
    requires m.observed == With(m.observed, DecodeOwner(seen.text))
    ensures
      TurnFrom(cfg, m, h) ==
      if Awaits(h, AskNow) then Asks(AskNow) else TurnFrom(cfg, Settled(cfg, m, View(seen, done, h[0].answer.now)), h[1..])
  {
    OneStep(cfg, m, h);
    if !Awaits(h, AskNow) { Decides(cfg, m, View(seen, done, h[0].answer.now)); }
  }

  lemma MarkerRuns(cfg: Config, m: Machine, seen: Seen, h: seq<Exchange>)
    requires m.ctl == ReadMarker(LockSeen(cfg, seen)) && !cfg.serialize
    requires m.observed == With(m.observed, DecodeOwner(seen.text))
    ensures Glances(cfg, m, seen, TurnFrom(cfg, m, h), h)
  {
    OneStep(cfg, m, h);
    if !Awaits(h, AskReadText(Done)) {
      TimeRuns(cfg, m.(ctl := PollNow(LockSeen(cfg, seen), DecodeMark(h[0].answer.text))), seen, h[0].answer.text, h[1..]);
      if |h| > 1 { assert h[1..][1..] == h[2..] && h[1..][0] == h[1]; }
    }
  }

  /** Reading back what was just created. */
  ghost predicate ConfirmsOwn(cfg: Config, m: Machine, own: Owner, h: seq<Exchange>) {
    if Awaits(h, AskReadText(Lock)) then TurnFrom(cfg, m, h) == Asks(AskReadText(Lock))
    else if h[0].answer.text == Some(Record(own, None)) then TurnFrom(cfg, m, h) == Enter(cfg, own, m.observed, h[1..])
    else if h[0].answer.text.None? || h[0].answer.text.value.Record? then
      TurnFrom(cfg, m, h) == TurnFrom(cfg, m.(ctl := ObserveText), h[1..])
    else if Awaits(h[1..], AskWriteText(Lock, Record(own, None))) then
      TurnFrom(cfg, m, h) == Asks(AskWriteText(Lock, Record(own, None)))
    else TurnFrom(cfg, m, h) == Enter(cfg, own, m.observed, h[2..])
  }

  lemma ConfirmRuns(cfg: Config, m: Machine, own: Owner, h: seq<Exchange>)
    requires m.ctl == Verify(own)
    ensures ConfirmsOwn(cfg, m, own, h)
  {
    OneStep(cfg, m, h);
    if !Awaits(h, AskReadText(Lock)) {
      if h[0].answer.text == Some(Record(own, None)) {
        EnterRuns(cfg, m.(ctl := Acquired(cfg, own)), own, h[1..]);
      } else if h[0].answer.text.Some? && !h[0].answer.text.value.Record? {
        OneStep(cfg, m.(ctl := Repair(own)), h[1..]);
        if !Awaits(h[1..], AskWriteText(Lock, Record(own, None))) {
          assert h[1..][1..] == h[2..];
          EnterRuns(cfg, m.(ctl := Acquired(cfg, own)), own, h[2..]);
        }
      }
    }
  }

  /** The nonce drawn and the lock created, or not. */
  lemma CreateSteps(cfg: Config, m: Machine, h: seq<Exchange>)
    requires m.ctl.LockNonce?
    ensures Awaits(h, AskNonce) ==> TurnFrom(cfg, m, h) == Asks(AskNonce)
    ensures !Awaits(h, AskNonce) ==>
      var own := Owner(cfg.pid, cfg.host, h[0].answer.nonce, m.ctl.startedAt);
      var create := AskCreateExclusive(Lock, Record(own, None));
      TurnFrom(cfg, m, h) ==
      if Awaits(h[1..], create) then Asks(create)
      else TurnFrom(cfg, m.(ctl := match h[1].answer.created
                                   case CreatedNew => Verify(own)
                                   case AlreadyExists => ObserveText
                                   case CreateFailed => RunAlone(LockUnavailable)), h[2..])
  {
    OneStep(cfg, m, h);
    if !Awaits(h, AskNonce) {
      var m' := m.(ctl := CreateLock(Owner(cfg.pid, cfg.host, h[0].answer.nonce, m.ctl.startedAt)));
      OneStep(cfg, m', h[1..]);
      if !Awaits(h[1..], Ask(cfg, m'.ctl)) { assert h[1..][1..] == h[2..] && h[1..][0] == h[1]; }
    }
  }

  lemma {:induction false} CreateRuns(cfg: Config, m: Machine, h: seq<Exchange>)
    requires m.ctl.LockNonce?
    ensures TurnFrom(cfg, m, h) == CreateOwn(cfg, m.deadline, m.observed, m.ctl.startedAt, h)
    decreases |h|, 0
  {
    CreateSteps(cfg, m, h);
    if !Awaits(h, AskNonce) {
      var own := Owner(cfg.pid, cfg.host, h[0].answer.nonce, m.ctl.startedAt);
      if !Awaits(h[1..], AskCreateExclusive(Lock, Record(own, None))) {
        match h[1].answer.created {
          case CreateFailed => AloneRuns(cfg, m.(ctl := RunAlone(LockUnavailable)), LockUnavailable, h[2..]);
          case AlreadyExists => PollRuns(cfg, m.(ctl := ObserveText), h[2..]);
          case CreatedNew =>
            ConfirmRuns(cfg, m.(ctl := Verify(own)), own, h[2..]);
            if |h| > 2 {
              assert h[2..][1..] == h[3..] && h[2..][0] == h[2];
              if !Awaits(h[2..], AskReadText(Lock)) { PollRuns(cfg, m.(ctl := ObserveText), h[3..]); }
              if |h| > 3 { assert h[2..][2..] == h[4..]; }
            }
        }
      }
    }
  }

  lemma {:induction false} PollRuns(cfg: Config, m: Machine, h: seq<Exchange>)
    requires m.ctl == ObserveText
    ensures TurnFrom(cfg, m, h) == Poll(cfg, m.deadline, m.observed, h)
    decreases |h|, 1
  {
    LookRuns(cfg, m, h);
    var part := Look(cfg, h);
    if part.Finished? { ActRuns(cfg, m, part.value, part.rest); }
  }

  lemma {:induction false} ActRuns(cfg: Config, m: Machine, v: View, h: seq<Exchange>)
    ensures TurnFrom(cfg, Settled(cfg, m, v), h) == Act(cfg, m.deadline, With(m.observed, DecodeOwner(v.seen.text)), v, h)
    decreases |h|, 4
  {
    var m' := Settled(cfg, m, v);
    match m'.ctl {
      case LockNonce(_) => CreateRuns(cfg, m', h);
      case RunAlone(_) => AloneRuns(cfg, m', WaitTimeout, h);
      case Pause => PauseRuns(cfg, m', h);
      case SweepList(_) => TakeoverRuns(cfg, m', m'.ctl.after.expected, h);
      case Ended(_) =>
    }
  }

  lemma {:induction false} TakeoverRuns(cfg: Config, m: Machine, expected: Option<Nonce>, h: seq<Exchange>)
    requires m.ctl == SweepList(ToBreak(expected))
    ensures TurnFrom(cfg, m, h) == Takeover(cfg, m.deadline, expected, m.observed, h)
    decreases |h|, 3
  {
    SweepRuns(cfg, m, ToBreak(expected), h);
    var swept := SweepTombs(cfg, h);
    if swept.Finished? {
      var m' := m.(ctl := TicketNonce(expected));
      BreakRuns(cfg, m', expected, swept.rest);
      var part := BreakLock(cfg, expected, m.observed, swept.rest);
      if part.Finished? {
        if part.value.movedOn { PollRuns(cfg, BrokenOff(m', part.value), part.rest); }
        else { PauseRuns(cfg, BrokenOff(m', part.value), part.rest); }
      }
    }
  }

  lemma {:induction false} PauseRuns(cfg: Config, m: Machine, h: seq<Exchange>)
    requires m.ctl == Pause
    ensures TurnFrom(cfg, m, h) == PauseThenPoll(cfg, m.deadline, m.observed, h)
    decreases |h|, 2
  {
    OneStep(cfg, m, h);
    if !Awaits(h, AskSleep(cfg.limits.pollMs)) { PollRuns(cfg, m.(ctl := ObserveText), h[1..]); }
  }

  lemma DeadlineRuns(cfg: Config, m: Machine, h: seq<Exchange>)
    requires m.ctl == SetDeadline && m.observed == {}
    ensures
      TurnFrom(cfg, m, h) ==
      if Awaits(h, AskNow) then Asks(AskNow) else Poll(cfg, h[0].answer.now + cfg.limits.waitTimeoutMs, {}, h[1..])
  {
    OneStep(cfg, m, h);
    if !Awaits(h, AskNow) {
      PollRuns(cfg, Machine(ObserveText, h[0].answer.now + cfg.limits.waitTimeoutMs, {}), h[1..]);
    }
  }

  /**
   * On whatever answers, the suspended machine asks for what the generator asks
   * for, waits where it waits, and ends as it ends.
   */
  lemma MachineIsGenerator(cfg: Config, h: seq<Exchange>)
    ensures TurnFrom(cfg, Start(), h) == Protocol(cfg, h)
  {
    OneStep(cfg, Start(), h);
    if !Awaits(h, AskMakeDirectory) {
      if !h[0].answer.ok {
        AloneRuns(cfg, Start().(ctl := RunAlone(LockUnavailable)), LockUnavailable, h[1..]);
      } else {
        SweepRuns(cfg, Start().(ctl := SweepList(ToDeadline)), ToDeadline, h[1..]);
        var part := SweepTombs(cfg, h[1..]);
        if part.Finished? { DeadlineRuns(cfg, Start().(ctl := SetDeadline), part.rest); }
      }
    }
  }
}

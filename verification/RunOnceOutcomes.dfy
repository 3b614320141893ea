/**
 * What a caller asked and was answered, by the way it ends: which answers send
 * it to work unserialized, what a poll's evidence leads to, and what precedes
 * work under the lock. Each is told from the exchanges themselves.
 */
module RunOnceOutcomes {
  import opened Wrappers
  import opened RunOnceMachine
  import opened RunOnceTalk
  import opened RunOnceGenerator
  import opened RunOnceDriver

  ghost predicate Asked(t: Talk, k: int, request: Request) {
    0 <= k < |t.said| && t.said[k].request == request && Fits(request, t.said[k].answer)
  }

  // ---- creating the lock ----

  /** Exchange `k` creates the lock for the caller itself: by the nonce drawn just before, at the time read before that. */
  ghost predicate CreatesOwn(t: Talk, k: int, own: Owner) {
    && Asked(t, k - 2, AskNow) && Asked(t, k - 1, AskNonce) && Asked(t, k, AskCreateExclusive(Lock, Record(own, None)))
    && own == Owner(t.cfg.pid, t.cfg.host, t.said[k - 1].answer.nonce, t.said[k - 2].answer.now)
  }

  lemma CreateArises(cfg: Config, m: Machine, x: Exchange, m': Machine)
    requires StepsTo(cfg, m, x, m')
    ensures m'.ctl.LockNonce? ==> x.request == AskNow && m'.ctl.startedAt == x.answer.now
    ensures m'.ctl.CreateLock? <==> m.ctl.LockNonce?
    ensures m.ctl.LockNonce? ==>
      x.request == AskNonce && m'.ctl.own == Owner(cfg.pid, cfg.host, x.answer.nonce, m.ctl.startedAt)
    ensures x.request == AskNonce && !m.ctl.LockNonce? ==> m'.ctl.TicketNow?
  {
  }

  lemma CreateAsks(cfg: Config, m: Machine, x: Exchange, m': Machine)
    requires StepsTo(cfg, m, x, m')
    ensures m.ctl.CreateLock? ==> x.request == AskCreateExclusive(Lock, Record(m.ctl.own, None))
    ensures m.ctl.TicketNow? ==> x.request == AskNow
  {
  }

  /** The pattern is exactly the protocol's own create, never the put-back of another's lock. */
  lemma CreateIsOwn(t: Talk, k: nat, own: Owner)
    requires t.Valid() && k < |t.said|
    ensures CreatesOwn(t, k, own) <==> t.at[k].ctl == CreateLock(own)
  {
    assert t.Steps(k);
    CreateAsks(t.cfg, t.at[k], t.said[k], t.at[k + 1]);
    if k >= 1 {
      assert t.Steps(k - 1);
      CreateArises(t.cfg, t.at[k - 1], t.said[k - 1], t.at[k]);
      if k >= 2 {
        assert t.Steps(k - 2);
        CreateArises(t.cfg, t.at[k - 2], t.said[k - 2], t.at[k - 1]);
      }
    }
  }

  /** The loser of a race for the lock goes back to polling; only a create that failed sends it off alone. */
  lemma CreateDecides(t: Talk, k: nat, own: Owner)
    requires t.Valid() && CreatesOwn(t, k, own)
    ensures
      t.at[k + 1].ctl ==
      match t.said[k].answer.created
      case CreatedNew => Verify(own)
      case AlreadyExists => ObserveText
      case CreateFailed => RunAlone(LockUnavailable)
  {
    CreateIsOwn(t, k, own);
    assert t.Steps(k);
  }

  // ---- no lock to be had ----

  /** Exchange `k` could not make the directory, or could not create the caller's own lock. */
  ghost predicate Refused(t: Talk, k: int) {
    || (Asked(t, k, AskMakeDirectory) && !t.said[k].answer.ok)
    || (exists own :: CreatesOwn(t, k, own) && t.said[k].answer.created.CreateFailed?)
  }

  lemma RefusedArises(cfg: Config, m: Machine, x: Exchange, m': Machine)
    requires StepsTo(cfg, m, x, m')
    ensures m'.ctl == RunAlone(LockUnavailable) <==>
      || (x.request == AskMakeDirectory && x.answer == MadeDirectory(false))
      || (m.ctl.CreateLock? && x.answer == CreateAnswer(CreateFailed))
  {
  }

  /** A caller goes on without the lock for this reason exactly when an answer refused it the lock. */
  lemma LockUnavailableExactly(t: Talk, k: nat)
    requires t.Valid() && k < |t.said|
    ensures t.at[k + 1].ctl == RunAlone(LockUnavailable) <==> Refused(t, k)
  {
    assert t.Steps(k);
    RefusedArises(t.cfg, t.at[k], t.said[k], t.at[k + 1]);
    if t.at[k].ctl.CreateLock? { CreateIsOwn(t, k, t.at[k].ctl.own); }
    if own :| CreatesOwn(t, k, own) { CreateIsOwn(t, k, own); }
  }

  // ---- the end of unserialized work ----

  /** Nothing is released after unserialized work. */
  predicate OnlyEnds(ctl: Control) {
    OutcomeOf(ctl).Some? && OutcomeOf(ctl).value.RanUnserialized? ==> ctl.Ended?
  }

  lemma AloneArises(cfg: Config, m: Machine, x: Exchange, m': Machine)
    requires StepsTo(cfg, m, x, m') && OnlyEnds(m.ctl)
    ensures OnlyEnds(m'.ctl)
    ensures forall reason :: m'.ctl == Ended(RanUnserialized(reason)) <==> m.ctl == RunAlone(reason)
    ensures m.ctl.RunAlone? ==> x.request == AskRun
  {
  }

  lemma {:induction false} OnlyEndsAlways(t: Talk, k: nat)
    requires t.Valid() && k <= |t.said|
    ensures OnlyEnds(t.at[k].ctl)
  {
    if k > 0 {
      OnlyEndsAlways(t, k - 1);
      assert t.Steps(k - 1);
      AloneArises(t.cfg, t.at[k - 1], t.said[k - 1], t.at[k]);
    }
  }

  /** Unserialized work is the one exchange after the decision for it. */
  lemma EndsAlone(t: Talk, k: nat, reason: Reason)
    requires t.Valid() && k < |t.said|
    ensures t.at[k + 1].ctl == Ended(RanUnserialized(reason)) <==> Asked(t, k, AskRun) && t.at[k].ctl == RunAlone(reason)
  {
    OnlyEndsAlways(t, k);
    assert t.Steps(k);
    AloneArises(t.cfg, t.at[k], t.said[k], t.at[k + 1]);
  }

  // ---- the deadline ----

  ghost predicate NoLockRead(t: Talk, k: int) {
    forall j :: 0 <= j < k && j < |t.said| ==> t.said[j].request != AskReadText(Lock)
  }

  /** Exchange `d` read the clock just before the lock was read for the first time: the wait counts from there. */
  ghost predicate SetsDeadline(t: Talk, d: int) {
    Asked(t, d, AskNow) && Asked(t, d + 1, AskReadText(Lock)) && NoLockRead(t, d + 1)
  }

  predicate Before(ctl: Control) {
    match ctl
    case MakeDir => true
    case SweepList(after) => after.ToDeadline?
    case SweepNow(after, _) => after.ToDeadline?
    case SweepRemove(after, _, _) => after.ToDeadline?
    case SetDeadline => true
    case _ => false
  }

  predicate Timed(ctl: Control) {
    !Before(ctl) && !ctl.RunAlone? && !ctl.Ended?
  }

  lemma DeadlineArises(cfg: Config, m: Machine, x: Exchange, m': Machine)
    requires StepsTo(cfg, m, x, m')
    ensures Before(m'.ctl) ==> Before(m.ctl)
    ensures Before(m.ctl) ==> x.request != AskReadText(Lock)
    ensures Timed(m'.ctl) ==>
      || (Timed(m.ctl) && m'.deadline == m.deadline && (m.ctl == ObserveText ==> x.request == AskReadText(Lock)))
      || (Before(m.ctl) && m'.ctl == ObserveText && x.request == AskNow
          && m'.deadline == x.answer.now + cfg.limits.waitTimeoutMs)
  {
  }

  /** Before exchange `k`: the lock unread until the deadline is set, and the deadline counted from there on. */
  ghost predicate DeadlineKnown(t: Talk, k: int)
    requires |t.at| == |t.said| + 1 && 0 <= k <= |t.said|
  {
    var m := t.at[k];
    && (Before(m.ctl) ==> NoLockRead(t, k))
    && (Timed(m.ctl) ==>
          if NoLockRead(t, k) then
            && m.ctl == ObserveText && Asked(t, k - 1, AskNow)
            && m.deadline == t.said[k - 1].answer.now + t.cfg.limits.waitTimeoutMs
          else exists d :: SetsDeadline(t, d) && m.deadline == t.said[d].answer.now + t.cfg.limits.waitTimeoutMs)
  }

  lemma {:induction false} DeadlineAlways(t: Talk, k: nat)
    requires t.Valid() && k <= |t.said|
    ensures DeadlineKnown(t, k)
  {
    if k > 0 {
      DeadlineAlways(t, k - 1);
      DeadlineStep(t, k - 1);
    }
  }

  lemma DeadlineStep(t: Talk, k: nat)
    requires t.Valid() && k < |t.said| && DeadlineKnown(t, k)
    ensures DeadlineKnown(t, k + 1)
  {
    assert t.Steps(k);
    var m, x, m' := t.at[k], t.said[k], t.at[k + 1];
    DeadlineArises(t.cfg, m, x, m');
    if x.request == AskReadText(Lock) {
      assert !NoLockRead(t, k + 1);
      if NoLockRead(t, k) && Timed(m'.ctl) { assert SetsDeadline(t, k - 1); }
    } else {
      assert NoLockRead(t, k + 1) <==> NoLockRead(t, k);
    }
  }

  lemma DeadlineOf(t: Talk, k: nat, d: int)
    requires t.Valid() && SetsDeadline(t, d) && d + 1 < k <= |t.said| && Timed(t.at[k].ctl)
    ensures t.at[k].deadline == t.said[d].answer.now + t.cfg.limits.waitTimeoutMs
  {
    DeadlineAlways(t, k);
    assert t.said[d + 1].request == AskReadText(Lock);
    var e :| SetsDeadline(t, e) && t.at[k].deadline == t.said[e].answer.now + t.cfg.limits.waitTimeoutMs;
    assert t.said[e + 1].request == AskReadText(Lock);
  }

  // ---- the owners a caller has observed ----

  predicate IsTomb(path: Path) {
    path.Tomb? || path.OldTomb?
  }

  /** Exchanges `k` and `k + 1` read this owner's record, and then the age, at the lock path or of a tomb. */
  ghost predicate ReadsOwner(t: Talk, k: int, nonce: Nonce) {
    && 0 <= k && k + 1 < |t.said| && t.said[k].request.AskReadText?
    && var path, text := t.said[k].request.path, t.said[k].answer;
    && Asked(t, k, AskReadText(path)) && Asked(t, k + 1, AskAgeMs(path))
    && (path.Lock? || (IsTomb(path) && t.said[k + 1].answer.ageMs.Some?))
    && text.text.Some? && text.text.value.Record? && text.text.value.owner.nonce == nonce
  }

  /** Before exchange `k` the caller had read this owner. */
  ghost predicate Watched(t: Talk, k: int, nonce: Nonce) {
    exists j :: ReadsOwner(t, j, nonce) && j + 1 < k
  }

  /** Not yet releasing, and not ended: nothing observed later counts. */
  predicate Choosing(ctl: Control) {
    match ctl
    case TombNow(errand) => errand.Breaking?
    case TombRename(errand, _) => errand.Breaking?
    case TombText(errand, _) => errand.Breaking?
    case TombAge(errand, _, _) => errand.Breaking?
    case PutBack(errand, _, _) => errand.Breaking?
    case TombRemove(errand, _, _) => errand.Breaking?
    case Backoff(_, _, _) => false
    case Ended(_) => false
    case _ => true
  }

  /** Where the text just read is kept while the age is asked for. */
  function TextInHand(ctl: Control): Option<(Path, Option<Text>)> {
    match ctl
    case ObserveAge(text) => Some((Lock, text))
    case JudgeAge(_, text) => Some((Lock, text))
    case TombAge(_, tomb, text) => Some((tomb, text))
    case _ => None
  }

  lemma InHandArises(cfg: Config, m: Machine, x: Exchange, m': Machine)
    requires StepsTo(cfg, m, x, m') && TextInHand(m'.ctl).Some?
    ensures x.request == AskReadText(TextInHand(m'.ctl).value.0) && x.answer.text == TextInHand(m'.ctl).value.1
  {
  }

  /** The text in hand names this owner, and its age makes it count. */
  ghost predicate Counts(m: Machine, x: Exchange, nonce: Nonce) {
    TextInHand(m.ctl).Some? &&
    var (path, text) := TextInHand(m.ctl).value;
    && x.request == AskAgeMs(path) && x.answer.Age? && (path.Lock? || x.answer.ageMs.Some?)
    && text.Some? && text.value.Record? && text.value.owner.nonce == nonce
  }

  lemma StillChoosing(cfg: Config, m: Machine, x: Exchange, m': Machine)
    requires StepsTo(cfg, m, x, m') && Choosing(m'.ctl)
    ensures Choosing(m.ctl)
    ensures TextInHand(m.ctl).None? ==> m'.observed == m.observed
  {
  }

  lemma HandCounts(cfg: Config, m: Machine, x: Exchange, m': Machine, nonce: Nonce)
    requires StepsTo(cfg, m, x, m') && Choosing(m.ctl) && TextInHand(m.ctl).Some?
    ensures nonce in m'.observed <==> nonce in m.observed || Counts(m, x, nonce)
  {
  }

  lemma AgeAskedOf(cfg: Config, m: Machine, x: Exchange, m': Machine)
    requires StepsTo(cfg, m, x, m')
    ensures (TextInHand(m.ctl).Some? ==>
               var path := TextInHand(m.ctl).value.0; x.request == AskAgeMs(path) && (path.Lock? || IsTomb(path)))
    ensures x.request.AskAgeMs? && (x.request.path.Lock? || IsTomb(x.request.path)) ==> TextInHand(m.ctl).Some?
    ensures Fits(x.request, x.answer)
  {
  }

  /** Two exchanges read an owner exactly when the machine counts it. */
  lemma ReadCounts(t: Talk, k: nat, nonce: Nonce)
    requires t.Valid() && k < |t.said|
    ensures ReadsOwner(t, k - 1, nonce) <==> Counts(t.at[k], t.said[k], nonce)
  {
    assert t.Steps(k);
    AgeAskedOf(t.cfg, t.at[k], t.said[k], t.at[k + 1]);
    if k > 0 {
      assert t.Steps(k - 1);
      AgeAskedOf(t.cfg, t.at[k - 1], t.said[k - 1], t.at[k]);
      if TextInHand(t.at[k].ctl).Some? { InHandArises(t.cfg, t.at[k - 1], t.said[k - 1], t.at[k]); }
    }
  }

  /** Until it releases, a caller's trust set is exactly the owners its own exchanges read. */
  lemma {:induction false} ObservedIsWatched(t: Talk, k: nat, nonce: Nonce)
    requires t.Valid() && k <= |t.said| && Choosing(t.at[k].ctl)
    ensures nonce in t.at[k].observed <==> Watched(t, k, nonce)
  {
    if k > 0 {
      assert t.Steps(k - 1);
      StillChoosing(t.cfg, t.at[k - 1], t.said[k - 1], t.at[k]);
      if TextInHand(t.at[k - 1].ctl).Some? { HandCounts(t.cfg, t.at[k - 1], t.said[k - 1], t.at[k], nonce); }
      ObservedIsWatched(t, k - 1, nonce);
      ReadCounts(t, k - 1, nonce);
      WatchedOn(t, k - 1, nonce);
    }
  }

  lemma WatchedOn(t: Talk, k: nat, nonce: Nonce)
    ensures Watched(t, k + 1, nonce) <==> Watched(t, k, nonce) || ReadsOwner(t, k - 1, nonce)
  {
    if j :| ReadsOwner(t, j, nonce) && j + 1 < k + 1 {
      if j + 1 < k { assert Watched(t, k, nonce); }
    }
  }

  // ---- what a poll leads to ----

  /** Where a poll that begins at `j` reads the clock: a once caller reads the marker too. */
  function ClockOf(cfg: Config, j: int): int {
    if cfg.serialize then j + 2 else j + 3
  }

  /**
   * A poll from exchange `j` on: the lock's text and age, the marker unless the
   * caller is in serialize mode, and the time. A breaker in serialize mode
   * reads the same three, but not from where a poll begins.
   */
  ghost predicate Polls(t: Talk, j: int)
    requires t.Valid()
  {
    && Asked(t, j, AskReadText(Lock)) && Asked(t, j + 1, AskAgeMs(Lock)) && Asked(t, ClockOf(t.cfg, j), AskNow)
    && (if t.cfg.serialize then t.at[j].ctl == ObserveText else Asked(t, j + 2, AskReadText(Done)))
  }

  /** All that a poll saw, as it was answered. */
  ghost function Evidenced(t: Talk, j: int): View
    requires t.Valid() && Polls(t, j)
  {
    View(Seen(t.said[j].answer.text, t.said[j + 1].answer.ageMs, t.said[j + 1].alive),
         if t.cfg.serialize then None else t.said[j + 2].answer.text, t.said[ClockOf(t.cfg, j)].answer.now)
  }

  lemma PollArises(cfg: Config, m: Machine, x: Exchange, m': Machine)
    requires StepsTo(cfg, m, x, m')
    ensures m'.ctl.ReadMarker? ==> m.ctl.ObserveAge? && !cfg.serialize && x.request == AskAgeMs(Lock)
    ensures m'.ctl.PollNow? ==>
      || (m.ctl.ObserveAge? && cfg.serialize && x.request == AskAgeMs(Lock))
      || (m.ctl.ReadMarker? && x.request == AskReadText(Done))
    ensures m'.ctl.ObserveAge? ==> m.ctl == ObserveText && x.request == AskReadText(Lock)
    ensures m.ctl.PollNow? ==> x.request == AskNow
    ensures Fits(x.request, x.answer)
  {
  }

  /** Only a poll reads the marker right after the lock. */
  lemma MarkerFollows(cfg: Config, m: Machine, x: Exchange, m': Machine, y: Exchange, m'': Machine)
    requires StepsTo(cfg, m, x, m') && StepsTo(cfg, m', y, m'')
    requires x.request == AskAgeMs(Lock) && y.request == AskReadText(Done)
    ensures m.ctl.ObserveAge?
  {
  }

  lemma PollBegins(t: Talk, j: nat)
    requires t.Valid() && Polls(t, j)
    ensures t.at[j].ctl == ObserveText
  {
    if !t.cfg.serialize {
      assert t.Steps(j) && t.Steps(j + 1) && t.Steps(j + 2);
      MarkerFollows(t.cfg, t.at[j + 1], t.said[j + 1], t.at[j + 2], t.said[j + 2], t.at[j + 3]);
      PollArises(t.cfg, t.at[j], t.said[j], t.at[j + 1]);
    }
  }

  /** The exchange before a decision, or the marker read before it. */
  lemma PollStep(t: Talk, k: nat)
    requires t.Valid() && k <= |t.said|
    requires t.at[k].ctl.PollNow? || t.at[k].ctl.ReadMarker? || t.at[k].ctl.ObserveAge?
    ensures k > 0 && Fits(t.said[k - 1].request, t.said[k - 1].answer)
    ensures t.at[k].ctl.ObserveAge? ==> t.at[k - 1].ctl == ObserveText && t.said[k - 1].request == AskReadText(Lock)
    ensures t.at[k].ctl.ReadMarker? ==>
      t.at[k - 1].ctl.ObserveAge? && t.said[k - 1].request == AskAgeMs(Lock) && !t.cfg.serialize
    ensures t.at[k].ctl.PollNow? ==>
      || (t.at[k - 1].ctl.ObserveAge? && t.said[k - 1].request == AskAgeMs(Lock) && t.cfg.serialize)
      || (t.at[k - 1].ctl.ReadMarker? && t.said[k - 1].request == AskReadText(Done))
  {
    if k > 0 {
      assert t.Steps(k - 1);
      PollArises(t.cfg, t.at[k - 1], t.said[k - 1], t.at[k]);
    }
  }

  /** Every decision ends a poll. */
  lemma PollBack(t: Talk, k: nat) returns (j: nat)
    requires t.Valid() && k < |t.said| && t.at[k].ctl.PollNow?
    ensures k == ClockOf(t.cfg, j) && Polls(t, j)
  {
    assert t.Steps(k);
    PollArises(t.cfg, t.at[k], t.said[k], t.at[k + 1]);
    PollStep(t, k);
    PollStep(t, k - 1);
    if t.at[k - 1].ctl.ReadMarker? {
      PollStep(t, k - 2);
      j := k - 3;
    } else {
      j := k - 2;
    }
  }

  /** The lock's text and age, read from where a poll begins. */
  lemma LockRead(t: Talk, j: nat)
    requires t.Valid() && j + 1 < |t.said| && t.at[j].ctl == ObserveText
    ensures t.said[j].answer.Contents? && t.said[j + 1].answer.Age?
    ensures
      var m, seen := t.at[j], Seen(t.said[j].answer.text, t.said[j + 1].answer.ageMs, t.said[j + 1].alive);
      t.at[j + 2]
      == m.(ctl := if t.cfg.serialize then PollNow(LockSeen(t.cfg, seen), None) else ReadMarker(LockSeen(t.cfg, seen)),
            observed := With(m.observed, DecodeOwner(seen.text)))
  {
    assert t.Steps(j);
    assert t.Steps(j + 1);
    SeesLock(t.cfg, t.at[j + 1], Seen(t.said[j].answer.text, t.said[j + 1].answer.ageMs, t.said[j + 1].alive));
  }

  lemma MarkerRead(t: Talk, k: nat)
    requires t.Valid() && k < |t.said| && t.at[k].ctl.ReadMarker?
    ensures t.said[k].answer.Contents?
    ensures t.at[k + 1] == t.at[k].(ctl := PollNow(t.at[k].ctl.lock, DecodeMark(t.said[k].answer.text)))
  {
    assert t.Steps(k);
  }

  /** A poll settles what comes next from what it saw, the deadline and the trust set. */
  lemma PollSettles(t: Talk, j: nat)
    requires t.Valid() && Polls(t, j)
    ensures t.at[ClockOf(t.cfg, j) + 1] == Settled(t.cfg, t.at[j], Evidenced(t, j))
  {
    PollBegins(t, j);
    LockRead(t, j);
    if !t.cfg.serialize { MarkerRead(t, j + 2); }
    var k := ClockOf(t.cfg, j);
    assert t.Steps(k);
    Decides(t.cfg, t.at[k], Evidenced(t, j));
  }

  /** The marker a poll read names this owner, which the caller had observed or whose marker is young enough. */
  ghost predicate MarkerTrusted(t: Talk, j: int, nonce: Nonce, at: int)
    requires t.Valid() && Polls(t, j)
  {
    var v := Evidenced(t, j);
    && v.done == Some(Mark(nonce, at))
    && (|| Watched(t, ClockOf(t.cfg, j), nonce)
        || (t.cfg.trustSequentialMs.Some? && v.now - at <= t.cfg.trustSequentialMs.value))
  }

  ghost predicate AnyTrusted(t: Talk, j: int)
    requires t.Valid() && Polls(t, j)
  {
    exists nonce, at :: MarkerTrusted(t, j, nonce, at)
  }

  /** The trust set a poll decides by is the owners watched up to its clock. */
  lemma PollWatches(t: Talk, j: nat, nonce: Nonce)
    requires t.Valid() && Polls(t, j)
    ensures nonce in With(t.at[j].observed, DecodeOwner(Evidenced(t, j).seen.text)) <==> Watched(t, ClockOf(t.cfg, j), nonce)
  {
    PollBegins(t, j);
    LockRead(t, j);
    if !t.cfg.serialize { MarkerRead(t, j + 2); }
    ObservedIsWatched(t, ClockOf(t.cfg, j), nonce);
  }

  /** A poll ends the call trusting an owner exactly when the marker it read is one to trust. */
  lemma TrustExactly(t: Talk, j: nat, nonce: Nonce, at: int)
    requires t.Valid() && Polls(t, j)
    ensures t.at[ClockOf(t.cfg, j) + 1].ctl == Ended(Trusted(nonce, at)) <==> MarkerTrusted(t, j, nonce, at)
  {
    PollSettles(t, j);
    PollWatches(t, j, nonce);
  }

  lemma TrustsSome(t: Talk, j: nat)
    requires t.Valid() && Polls(t, j)
    ensures t.at[ClockOf(t.cfg, j) + 1].ctl.Ended? <==> AnyTrusted(t, j)
  {
    PollSettles(t, j);
    var next := t.at[ClockOf(t.cfg, j) + 1].ctl;
    if next.Ended? { TrustExactly(t, j, next.outcome.owner, next.outcome.finishedAt); }
    if nonce, at :| MarkerTrusted(t, j, nonce, at) { TrustExactly(t, j, nonce, at); }
  }

  lemma DeadlineAt(t: Talk, j: nat) returns (d: nat)
    requires t.Valid() && Polls(t, j)
    ensures SetsDeadline(t, d) && d < j && t.at[j].deadline == t.said[d].answer.now + t.cfg.limits.waitTimeoutMs
  {
    PollBegins(t, j);
    DeadlineAlways(t, j);
    if NoLockRead(t, j) {
      d := j - 1;
    } else {
      d :| SetsDeadline(t, d) && t.at[j].deadline == t.said[d].answer.now + t.cfg.limits.waitTimeoutMs;
      assert t.said[d + 1].request == AskReadText(Lock);
    }
  }

  /**
   * A poll that trusts no marker creates an absent lock, gives up past the
   * deadline, takes over a lock that is forfeit, and otherwise waits.
   */
  lemma PollDecides(t: Talk, j: nat, d: nat)
    requires t.Valid() && Polls(t, j) && SetsDeadline(t, d) && !AnyTrusted(t, j)
    ensures
      var v, next := Evidenced(t, j), t.at[ClockOf(t.cfg, j) + 1].ctl;
      var late := v.now > t.said[d].answer.now + t.cfg.limits.waitTimeoutMs;
      if v.seen.text.None? && v.seen.ageMs.None? then next == LockNonce(v.now)
      else if late then next == RunAlone(WaitTimeout)
      else if Forfeit(t.cfg, v.seen) then
        var owned := v.seen.text.Some? && v.seen.text.value.Record?;
        next == SweepList(ToBreak(if owned then Some(v.seen.text.value.owner.nonce) else None))
      else next == Pause
  {
    PollSettles(t, j);
    TrustsSome(t, j);
    PollBegins(t, j);
    DeadlineAlways(t, j);
    var e := DeadlineAt(t, j);
    assert t.said[e + 1].request == AskReadText(Lock) && t.said[d + 1].request == AskReadText(Lock);
  }

  lemma TimeoutArises(cfg: Config, m: Machine, x: Exchange, m': Machine)
    requires StepsTo(cfg, m, x, m')
    ensures m'.ctl == RunAlone(WaitTimeout) ==> m.ctl.PollNow?
  {
  }

  /**
   * A caller gives up waiting only after a poll that read the lock as held, and
   * a clock more than `waitTimeoutMs` past the one that set its deadline.
   */
  lemma TimedOut(t: Talk, k: nat) returns (j: nat, d: nat)
    requires t.Valid() && k < |t.said| && t.at[k + 1].ctl == RunAlone(WaitTimeout)
    ensures Polls(t, j) && k == ClockOf(t.cfg, j) && SetsDeadline(t, d) && d < j
    ensures t.said[j].answer.text.Some? || t.said[j + 1].answer.ageMs.Some?
    ensures t.said[k].answer.now > t.said[d].answer.now + t.cfg.limits.waitTimeoutMs
  {
    assert t.Steps(k);
    TimeoutArises(t.cfg, t.at[k], t.said[k], t.at[k + 1]);
    j := PollBack(t, k);
    PollSettles(t, j);
    d := DeadlineAt(t, j);
  }

  // ---- work under the lock ----

  /** Exchange `c` created the lock, and by `e` it was read back, or found garbled and written again. */
  ghost predicate Confirms(t: Talk, c: int, own: Owner, e: int) {
    && CreatesOwn(t, c, own) && t.said[c].answer.created.CreatedNew? && Asked(t, c + 1, AskReadText(Lock))
    && var held := t.said[c + 1].answer.text;
    if held == Some(Record(own, None)) then e == c + 2
    else held.Some? && !held.value.Record? && Asked(t, c + 2, AskWriteText(Lock, Record(own, None))) && e == c + 3
  }

  lemma OwnArises(cfg: Config, m: Machine, x: Exchange, m': Machine)
    requires StepsTo(cfg, m, x, m')
    ensures m'.ctl.Verify? ==> m.ctl == CreateLock(m'.ctl.own) && x.answer.created.CreatedNew?
    ensures m'.ctl.Repair? ==>
      m.ctl == Verify(m'.ctl.own) && x.request == AskReadText(Lock) && x.answer.text.Some? && !x.answer.text.value.Record?
    ensures m'.ctl.ReadLate? ==> !cfg.serialize && IsConfirmed(m, x, m'.ctl.own)
    ensures m'.ctl.RunHeld? ==>
      if cfg.serialize && !m.ctl.ReadLate? then IsConfirmed(m, x, m'.ctl.own)
      else
        && m.ctl == ReadLate(m'.ctl.own) && x.request == AskReadText(Done)
        && forall nonce, at :: x.answer.text == Some(Mark(nonce, at)) ==> nonce !in m.observed
    ensures Fits(x.request, x.answer)
  {
  }

  /** The lock was just read back, or written again. */
  ghost predicate IsConfirmed(m: Machine, x: Exchange, own: Owner) {
    || (m.ctl == Verify(own) && x.request == AskReadText(Lock) && x.answer == Contents(Some(Record(own, None))))
    || (m.ctl == Repair(own) && x.request == AskWriteText(Lock, Record(own, None)))
  }

  lemma VerifiesOwn(t: Talk, k: nat)
    requires t.Valid() && k <= |t.said| && t.at[k].ctl.Verify?
    ensures k > 0 && CreatesOwn(t, k - 1, t.at[k].ctl.own) && t.said[k - 1].answer.created.CreatedNew?
  {
    if k > 0 {
      assert t.Steps(k - 1);
      OwnArises(t.cfg, t.at[k - 1], t.said[k - 1], t.at[k]);
      CreateIsOwn(t, k - 1, t.at[k].ctl.own);
    }
  }

  lemma ConfirmedOwn(t: Talk, e: nat, own: Owner) returns (c: nat)
    requires t.Valid() && 0 < e <= |t.said| && IsConfirmed(t.at[e - 1], t.said[e - 1], own)
    requires Fits(t.said[e - 1].request, t.said[e - 1].answer)
    ensures Confirms(t, c, own, e)
  {
    if t.at[e - 1].ctl.Verify? {
      VerifiesOwn(t, e - 1);
      c := e - 2;
    } else {
      if e > 1 {
        assert t.Steps(e - 2);
        OwnArises(t.cfg, t.at[e - 2], t.said[e - 2], t.at[e - 1]);
        VerifiesOwn(t, e - 2);
      }
      c := e - 3;
    }
  }

  /** Exchange `w` is the work, under the lock created at `c`, with no marker read late that names an owner watched. */
  ghost predicate WorksUnder(t: Talk, c: int, own: Owner, w: int) {
    && Asked(t, w, AskRun)
    && (if t.cfg.serialize then Confirms(t, c, own, w)
        else
          && Confirms(t, c, own, w - 1) && Asked(t, w - 1, AskReadText(Done))
          && forall nonce, at :: t.said[w - 1].answer.text == Some(Mark(nonce, at)) ==> !Watched(t, w - 1, nonce))
  }

  lemma WorkIsUnderLock(t: Talk, w: nat) returns (c: nat)
    requires t.Valid() && w < |t.said| && t.at[w].ctl.RunHeld?
    ensures WorksUnder(t, c, t.at[w].ctl.own, w)
  {
    assert t.Steps(w);
    if w > 0 {
      assert t.Steps(w - 1);
      var own := t.at[w].ctl.own;
      OwnArises(t.cfg, t.at[w - 1], t.said[w - 1], t.at[w]);
      if t.at[w - 1].ctl.ReadLate? {
        LateIsConfirmed(t, w - 1);
        c := ConfirmedOwn(t, w - 1, own);
        forall nonce, at | t.said[w - 1].answer.text == Some(Mark(nonce, at)) ensures !Watched(t, w - 1, nonce) {
          ObservedIsWatched(t, w - 1, nonce);
        }
      } else {
        c := ConfirmedOwn(t, w, own);
      }
    }
  }

  lemma LateIsConfirmed(t: Talk, k: nat)
    requires t.Valid() && k <= |t.said| && t.at[k].ctl.ReadLate?
    ensures k > 0 && !t.cfg.serialize && IsConfirmed(t.at[k - 1], t.said[k - 1], t.at[k].ctl.own)
    ensures Fits(t.said[k - 1].request, t.said[k - 1].answer)
  {
    if k > 0 {
      assert t.Steps(k - 1);
      OwnArises(t.cfg, t.at[k - 1], t.said[k - 1], t.at[k]);
    }
  }

  /** Under the lock and past the work, or released after it. */
  predicate WorkedHeld(ctl: Control) {
    ctl.MarkNow? || ctl.WriteMark? || OutcomeOf(ctl) == Some(Ran)
  }

  lemma HeldArises(cfg: Config, m: Machine, x: Exchange, m': Machine)
    requires StepsTo(cfg, m, x, m')
    ensures WorkedHeld(m'.ctl) <==> WorkedHeld(m.ctl) || m.ctl.RunHeld?
  {
  }

  /** A caller that ran under the lock created that lock itself and had it confirmed, then worked once. */
  lemma {:induction false} RanUnderLock(t: Talk, k: nat) returns (c: nat, own: Owner, w: nat)
    requires t.Valid() && k <= |t.said| && WorkedHeld(t.at[k].ctl)
    ensures w < k && WorksUnder(t, c, own, w) && t.at[w].ctl == RunHeld(own)
  {
    if k > 0 {
      assert t.Steps(k - 1);
      HeldArises(t.cfg, t.at[k - 1], t.said[k - 1], t.at[k]);
      if t.at[k - 1].ctl.RunHeld? {
        w := k - 1;
        own := t.at[w].ctl.own;
        c := WorkIsUnderLock(t, w);
      } else {
        c, own, w := RanUnderLock(t, k - 1);
      }
    }
  }

  lemma {:induction false} WorkStaysDone(t: Talk, w: nat, k: nat)
    requires t.Valid() && w < k <= |t.said| && Asked(t, w, AskRun)
    ensures WorkDone(t.at[k].ctl)
  {
    assert t.Steps(k - 1);
    WorkDoneArises(t.cfg, t.at[k - 1], t.said[k - 1].answer, t.said[k - 1].alive);
    if w < k - 1 { WorkStaysDone(t, w, k - 1); }
  }

  /** No caller is ever asked to work twice. */
  lemma WorkedOnce(t: Talk, v: nat, w: nat)
    requires t.Valid() && Asked(t, v, AskRun) && Asked(t, w, AskRun)
    ensures v == w
  {
    assert t.Steps(v) && t.Steps(w);
    WorkDoneArises(t.cfg, t.at[v], t.said[v].answer, t.said[v].alive);
    WorkDoneArises(t.cfg, t.at[w], t.said[w].answer, t.said[w].alive);
    if v < w { WorkStaysDone(t, v, w); }
    if w < v { WorkStaysDone(t, w, v); }
  }
}

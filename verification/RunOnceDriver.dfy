/** The synchronous driver: it answers the protocol's requests and pairs its outcome with the work's own value. */
module RunOnceDriver {
  import opened Wrappers
  import opened RunOnceMachine
  import opened RunOnceTalk
  import opened RunOnceGenerator

  /** How the caller's work can end. */
  datatype WorkEnd<+A, +E> = Returned(value: A) | Failed(error: E) | Threw(what: string)

  datatype Report<+A> =
    | RanWith(value: A)
    | RanUnserializedWith(value: A, reason: Reason)
    | TrustedOwner(owner: Nonce, finishedAt: int)

  /** A driver's result, or `Rethrown` when the work threw. `Polling` is a call the host has not let finish. */
  datatype Ending<+A, +E> = Reported(report: Report<A>) | WorkFailed(error: E) | Rethrown(what: string) | Polling

  /** Whether the protocol has already asked for the work. */
  predicate WorkDone(ctl: Control) {
    || ctl.MarkNow? || ctl.WriteMark?
    || (OutcomeOf(ctl).Some? && !OutcomeOf(ctl).value.Trusted?)
  }

  /** Asking for the work, and nothing else, makes the work done. */
  lemma WorkDoneArises(cfg: Config, m: Machine, a: Answer, alive: int -> bool)
    requires !m.ctl.Ended? && Fits(Ask(cfg, m.ctl), a)
    ensures WorkDone(Resume(cfg, m, a, alive).ctl) <==> WorkDone(m.ctl) || Ask(cfg, m.ctl).AskRun?
    ensures Ask(cfg, m.ctl).AskRun? ==> !WorkDone(m.ctl)
  {
  }

  lemma AskedOnlyOnce(cfg: Config, ctl: Control)
    requires !ctl.Ended? && Ask(cfg, ctl).AskRun?
    ensures !WorkDone(ctl)
  {
  }

  /** The caller gets the work's own value, in this report, or its failure or throw. */
  ghost predicate Passes<A, E>(ending: Ending<A, E>, end: WorkEnd<A, E>, report: A -> Report<A>) {
    match end
    case Returned(value) => ending == Reported(report(value))
    case Failed(error) => ending == WorkFailed(error)
    case Threw(what) => ending == Rethrown(what)
  }

  /** What a caller is owed, by the protocol's outcome and how its work ended. */
  ghost predicate Pairs<A, E>(ending: Ending<A, E>, outcome: Outcome, end: WorkEnd<A, E>) {
    match outcome
    case Trusted(owner, at) => ending == Reported(TrustedOwner(owner, at))
    case Ran => Passes(ending, end, value => RanWith(value))
    case RanUnserialized(reason) => Passes(ending, end, value => RanUnserializedWith(value, reason))
  }

  /** The protocol's outcome paired with how the work ended, if it was asked for. */
  method Conclude<A, E>(outcome: Outcome, ran: Option<WorkEnd<A, E>>, ghost end: WorkEnd<A, E>) returns (ending: Ending<A, E>)
    requires ran == if outcome.Trusted? then None else Some(end)
    ensures Pairs(ending, outcome, end)
  {
    if ran.Some? && ran.value.Threw? {
      ending := Rethrown(ran.value.what);
    } else if ran.Some? && ran.value.Failed? {
      ending := WorkFailed(ran.value.error);
    } else if outcome.Trusted? {
      ending := Reported(TrustedOwner(outcome.owner, outcome.finishedAt));
    } else {
      var value := ran.value.value;
      ending := Reported(if outcome.Ran? then RanWith(value) else RanUnserializedWith(value, outcome.reason));
    }
  }

  /** A talk has come to where the generator is on the same answers. */
  lemma TalkIsProtocol(talk: Talk)
    requires talk.Valid()
    ensures Protocol(talk.cfg, talk.said) ==
      if talk.Last().ctl.Ended? then Ends(talk.Last().ctl.outcome) else Asks(Ask(talk.cfg, talk.Last().ctl))
  {
    MachineIsGenerator(talk.cfg, talk.said);
    TalkTurn(talk, |talk.said|);
  }

  /** What answers exchange `k`: the caller's own work if it is asked for, and the host otherwise. */
  ghost predicate Hosted<A, E>(x: Exchange, k: nat, host: (nat, Request) -> Answer, alive: int -> bool,
                               work: nat -> WorkEnd<A, E>)
  {
    x.alive == alive && x.answer == if x.request.AskRun? then Worked(work(0).Returned?) else host(k, x.request)
  }

  ghost predicate AllHosted<A, E>(talk: Talk, host: (nat, Request) -> Answer, alive: int -> bool, work: nat -> WorkEnd<A, E>) {
    forall k :: 0 <= k < |talk.said| ==> Hosted(talk.said[k], k, host, alive, work)
  }

  lemma HeardMore<A, E>(talk: Talk, x: Exchange, m: Machine,
                        host: (nat, Request) -> Answer, alive: int -> bool, work: nat -> WorkEnd<A, E>)
    requires talk.Valid() && StepsTo(talk.cfg, talk.Last(), x, m) && AllHosted(talk, host, alive, work)
    requires Hosted(x, |talk.said|, host, alive, work)
    ensures Also(talk, x, m).Valid() && Also(talk, x, m).Last() == m && AllHosted(Also(talk, x, m), host, alive, work)
  {
    GoesOn(talk, x, m);
  }

  /** One request answered: the work is called here, and what it came to is kept. */
  method AnswerOne<A, E>(request: Request, k: nat, host: (nat, Request) -> Answer, work: nat -> WorkEnd<A, E>,
                         was: Option<WorkEnd<A, E>>, before: nat)
    returns (answer: Answer, ran: Option<WorkEnd<A, E>>, calls: nat)
    requires Fits(request, host(k, request)) && (request.AskRun? ==> before == 0)
    ensures Fits(request, answer)
    ensures if request.AskRun? then answer == Worked(work(0).Returned?) && ran == Some(work(0)) && calls == 1
            else answer == host(k, request) && ran == was && calls == before
  {
    if request.AskRun? {
      var end := work(before);
      return Worked(end.Returned?), Some(end), before + 1;
    }
    return host(k, request), was, before;
  }

  /** Answers the protocol's requests until it ends, or `steps` of them. */
  method Drive<A, E>(cfg: Config, host: (nat, Request) -> Answer, alive: int -> bool,
                     work: nat -> WorkEnd<A, E>, steps: nat)
    returns (m: Machine, ran: Option<WorkEnd<A, E>>, calls: nat, ghost talk: Talk)
    requires forall k: nat, request :: Fits(request, host(k, request))
    ensures talk.Valid() && talk.cfg == cfg && talk.Last() == m && AllHosted(talk, host, alive, work)
    ensures |talk.said| <= steps && (!m.ctl.Ended? ==> |talk.said| == steps)
    ensures calls == (if WorkDone(m.ctl) then 1 else 0) && ran == (if calls == 0 then None else Some(work(0)))
  {
    m := Start();
    calls := 0;
    talk := Opening(cfg);
    ran := None;
    var k: nat := 0;
    while !m.ctl.Ended? && k < steps
      invariant calls == (if WorkDone(m.ctl) then 1 else 0)
      invariant ran == (if calls == 0 then None else Some(work(0)))
      invariant talk.Valid() && talk.cfg == cfg && talk.Last() == m && |talk.said| == k <= steps
      invariant AllHosted(talk, host, alive, work)
    {
      var request := Ask(cfg, m.ctl);
      if request.AskRun? { AskedOnlyOnce(cfg, m.ctl); }
      var answer: Answer;
      answer, ran, calls := AnswerOne(request, k, host, work, ran, calls);
      WorkDoneArises(cfg, m, answer, alive);
      ghost var x := Exchange(request, answer, alive);
      m := Resume(cfg, m, answer, alive);
      HeardMore(talk, x, m, host, alive, work);
      talk := Also(talk, x, m);
      k := k + 1;
    }
  }

  /**
   * The protocol over a synchronous host, for at most `steps` requests. What it
   * said is the generator's own talk, up to where that waits or ends. The work
   * is called at most once: not at all when another owner is trusted, and
   * exactly once otherwise, and its own value, failure or throw is what the
   * caller gets.
   */
  method RunSync<A, E>(cfg: Config, host: (nat, Request) -> Answer, alive: int -> bool,
                       work: nat -> WorkEnd<A, E>, steps: nat)
    returns (ending: Ending<A, E>, calls: nat, m: Machine, ghost talk: Talk)
    requires forall k: nat, request :: Fits(request, host(k, request))
    ensures talk.Valid() && talk.cfg == cfg && talk.Last() == m && AllHosted(talk, host, alive, work)
    ensures Protocol(cfg, talk.said) == if m.ctl.Ended? then Ends(m.ctl.outcome) else Asks(Ask(cfg, m.ctl))
    ensures |talk.said| <= steps && (!m.ctl.Ended? ==> |talk.said| == steps && ending == Polling)
    ensures calls <= 1 && (m.ctl.Ended? ==> (calls == 0 <==> m.ctl.outcome.Trusted?))
    ensures m.ctl.Ended? ==> Pairs(ending, m.ctl.outcome, work(0))
  {
    var ran: Option<WorkEnd<A, E>>;
    m, ran, calls, talk := Drive(cfg, host, alive, work, steps);
    TalkIsProtocol(talk);
    if m.ctl.Ended? {
      ending := Conclude(m.ctl.outcome, ran, work(0));
    } else {
      ending := Polling;
    }
  }
}

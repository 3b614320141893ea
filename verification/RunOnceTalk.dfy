/**
 * What one caller and its host say to one another: the requests the protocol
 * makes, each with the answer it got and what the liveness probe would have
 * said then.
 */
module RunOnceTalk {
  import opened Wrappers
  import opened RunOnceMachine

  datatype Exchange = Exchange(request: Request, answer: Answer, alive: int -> bool)

  /** The host has nothing more to say, or nothing that answers this request. */
  ghost predicate Awaits(h: seq<Exchange>, request: Request) {
    |h| == 0 || !Fits(request, h[0].answer)
  }

  /** What a caller does next: it waits for an answer, or it has ended. */
  datatype Turn = Asks(request: Request) | Ends(outcome: Outcome)

  /** The turn the suspended machine comes to, going on from `m` on these answers. */
  ghost function TurnFrom(cfg: Config, m: Machine, h: seq<Exchange>): Turn
    decreases |h|
  {
    if m.ctl.Ended? then Ends(m.ctl.outcome)
    else if Awaits(h, Ask(cfg, m.ctl)) then Asks(Ask(cfg, m.ctl))
    else TurnFrom(cfg, Resume(cfg, m, h[0].answer, h[0].alive), h[1..])
  }

  /** Exchange `x` takes the machine from `m` to `m'`. */
  ghost predicate StepsTo(cfg: Config, m: Machine, x: Exchange, m': Machine) {
    !m.ctl.Ended? && x.request == Ask(cfg, m.ctl) && Fits(x.request, x.answer) && m' == Resume(cfg, m, x.answer, x.alive)
  }

  /** A caller's exchanges from its start, and the machine before each of them and after the last. */
  datatype Talk = Talk(cfg: Config, said: seq<Exchange>, at: seq<Machine>) {
    ghost predicate Steps(k: int)
      requires |at| == |said| + 1
    {
      0 <= k < |said| && StepsTo(cfg, at[k], said[k], at[k + 1])
    }

    ghost predicate Valid() {
      && |at| == |said| + 1 && at[0] == Start()
      && forall k :: 0 <= k < |said| ==> Steps(k)
    }

    function Last(): Machine
      requires |at| > 0
    {
      at[|at| - 1]
    }
  }

  function Opening(cfg: Config): Talk {
    Talk(cfg, [], [Start()])
  }

  function Also(t: Talk, x: Exchange, m: Machine): Talk {
    Talk(t.cfg, t.said + [x], t.at + [m])
  }

  lemma GoesOn(t: Talk, x: Exchange, m: Machine)
    requires t.Valid() && StepsTo(t.cfg, t.Last(), x, m)
    ensures Also(t, x, m).Valid() && Also(t, x, m).Last() == m
  {
    var t' := Also(t, x, m);
    forall k | 0 <= k < |t'.said| ensures t'.Steps(k) {
      if k < |t.said| { assert t.Steps(k); }
    }
  }

  /** The turn after a talk is the one its machine has come to. */
  lemma {:induction false} TalkTurn(t: Talk, k: nat)
    requires t.Valid() && k <= |t.said|
    ensures TurnFrom(t.cfg, t.at[k], t.said[k..]) == TurnFrom(t.cfg, Start(), t.said)
    decreases k
  {
    if k == 0 {
      assert t.said[0..] == t.said;
    } else {
      TalkTurn(t, k - 1);
      assert t.Steps(k - 1);
      assert t.said[k - 1..][1..] == t.said[k..];
    }
  }
}

/**
 * Never preempting a process just before a local request. Where nobody can tell
 * when a local request is made, this hides nothing: every schedule without
 * crashes that runs to the end of every process can be rearranged, one local
 * request at a time, into one that keeps to the reduction, with the same end
 * and no more preemptions. Ends are the same up to a relation the reader
 * chooses, which may forget whatever neither the moves nor the checks ever look
 * at, such as how nonces are numbered. Where a local request reads the clock
 * that the others' steps move, the reduction can hide a violation.
 */
module ExplorerReduction {
  import opened Wrappers
  import opened ExplorerTree
  import opened ExplorerSpec
  import opened ExplorerBudget

  // ---- requests nobody else can tell apart ----

  predicate CouldMove<S>(m: Model<S>, s: S, p: int) {
    p in m.live(s) && !m.running(s, p)
  }

  predicate PendingLocal<S>(m: Model<S>, s: S, p: int) {
    CouldMove(m, s, p) && m.local(s, p)
  }

  predicate SameFor<S>(m: Model<S>, s: S, t: S, q: int) {
    (q in m.live(t) <==> q in m.live(s)) && (m.running(t, q) <==> m.running(s, q))
  }

  /** No check, and no question of who may move, tells the two states apart. */
  predicate LooksLike<S>(m: Model<S>, s: S, t: S, p: int) {
    && m.live(s) == m.live(t) && m.overslept(s) == m.overslept(t) && m.seen(s) == m.seen(t) && m.atEnd(s) == m.atEnd(t)
    && m.running(s, p) == m.running(t, p) && m.local(s, p) == m.local(t, p)
  }

  /** States related by `same` look alike, and go on looking alike whatever moves are made. */
  ghost predicate Indistinct<S(!new)>(m: Model<S>, o: Options, same: (S, S) -> bool) {
    && (forall s :: same(s, s))
    && (forall s, t, u :: same(s, t) && same(t, u) ==> same(s, u))
    && (forall s, t, p: int :: same(s, t) ==> LooksLike(m, s, t, p))
    && (forall s, t, c: Choice :: same(s, t) && Enabled(m, o, s, c) ==> same(m.after(s, c), m.after(t, c)))
  }

  /** What another process does before `p`'s local request comes to the same done after it. */
  ghost predicate Commutes<S>(m: Model<S>, same: (S, S) -> bool, s: S, p: int, c: Choice) {
    PendingLocal(m, m.after(s, c), p) && same(m.after(m.after(s, Move(p)), c), m.after(m.after(s, c), Move(p)))
  }

  /** `p`'s local request changes nothing about anybody else, and nobody else changes it. */
  ghost predicate Private<S>(m: Model<S>, o: Options, same: (S, S) -> bool, s: S, p: int) {
    && m.overslept(m.after(s, Move(p))) == m.overslept(s)
    && (forall q :: q != p ==> SameFor(m, s, m.after(s, Move(p)), q))
    && (forall c: Choice :: c.pid != p && !c.Crash? && Enabled(m, o, s, c) ==> Commutes(m, same, s, p, c))
  }

  /** Every local request is private, in every state, and -1 names no process. */
  ghost predicate LocalIsPrivate<S(!new)>(m: Model<S>, o: Options, same: (S, S) -> bool) {
    && Indistinct(m, o, same)
    && (forall s :: -1 !in m.live(s))
    && forall s: S, p: int :: PendingLocal(m, s, p) ==> Private(m, o, same, s, p)
  }

  ghost predicate CrashFree(moves: seq<Choice>) {
    forall c :: c in moves ==> !c.Crash?
  }

  ghost predicate Others(b: seq<Choice>, p: int) {
    forall c :: c in b ==> c.pid != p && !c.Crash?
  }

  /** The same exploration, allowed to preempt anywhere. */
  function Full(o: Options): Options {
    o.(reduceLocal := false)
  }

  function Reduced(o: Options): Options {
    o.(reduceLocal := true)
  }

  // ---- making a local request earlier ----

  lemma ScheduleFront<S>(m: Model<S>, o: Options, a: seq<Choice>, c: Choice)
    requires Schedule(m, o, a + [c])
    ensures Schedule(m, o, a) && !Complete(m, a) && Enabled(m, o, StateAfter(m, a), c)
  {
    assert (a + [c])[..|a|] == a;
  }

  lemma StateOn<S>(m: Model<S>, a: seq<Choice>, c: Choice)
    ensures StateAfter(m, a + [c]) == m.after(StateAfter(m, a), c)
    ensures LastMover(a + [c]) == if c.Crash? then LastMover(a) else c.pid
  {
    assert (a + [c])[..|a|] == a;
  }

  lemma {:induction false} SchedulePrefix<S>(m: Model<S>, o: Options, a: seq<Choice>, b: seq<Choice>)
    requires Schedule(m, o, a + b)
    ensures Schedule(m, o, a)
  {
    if b == [] {
      assert a + b == a;
    } else {
      assert a + b == (a + b[..|b| - 1]) + [b[|b| - 1]];
      ScheduleFront(m, o, a + b[..|b| - 1], b[|b| - 1]);
      SchedulePrefix(m, o, a, b[..|b| - 1]);
    }
  }

  /** However far the others have gone, making `p`'s request before they did leads where making it now does. */
  lemma {:induction false} Ahead<S(!new)>(
    m: Model<S>, o: Options, same: (S, S) -> bool, a: seq<Choice>, p: int, b: seq<Choice>)
    requires LocalIsPrivate(m, o, same) && Schedule(m, Full(o), a + b) && PendingLocal(m, StateAfter(m, a), p)
    requires Others(b, p)
    ensures PendingLocal(m, StateAfter(m, a + b), p)
    ensures same(StateAfter(m, a + [Move(p)] + b), m.after(StateAfter(m, a + b), Move(p)))
  {
    if b == [] {
      assert a + b == a && a + [Move(p)] + b == a + [Move(p)];
      StateOn(m, a, Move(p));
    } else {
      var front, c := b[..|b| - 1], b[|b| - 1];
      assert a + b == (a + front) + [c] && a + [Move(p)] + b == (a + [Move(p)] + front) + [c];
      ScheduleFront(m, Full(o), a + front, c);
      Ahead(m, o, same, a, p, front);
      StateOn(m, a + front, c);
      StateOn(m, a + [Move(p)] + front, c);
      var s, t := StateAfter(m, a + front), StateAfter(m, a + [Move(p)] + front);
      assert c in b && Private(m, o, same, s, p) && Commutes(m, same, s, p, c);
      assert SameFor(m, s, m.after(s, Move(p)), c.pid) && LooksLike(m, t, m.after(s, Move(p)), c.pid);
      assert Enabled(m, o, t, c) && same(m.after(t, c), m.after(m.after(s, Move(p)), c));
    }
  }

  /** With the request made early the others' moves are as possible as before. */
  lemma {:induction false} AheadScheduled<S(!new)>(
    m: Model<S>, o: Options, same: (S, S) -> bool, a: seq<Choice>, p: int, b: seq<Choice>)
    requires LocalIsPrivate(m, o, same) && Schedule(m, Full(o), a + b) && PendingLocal(m, StateAfter(m, a), p)
    requires Others(b, p)
    requires a != [] && |a + b| < STEP_CAP && !Complete(m, a)
    ensures Schedule(m, Full(o), a + [Move(p)] + b)
  {
    if b == [] {
      assert a + b == a && a + [Move(p)] + b == a + [Move(p)];
      assert (a + [Move(p)])[..|a|] == a;
    } else {
      var front, c := b[..|b| - 1], b[|b| - 1];
      assert a + b == (a + front) + [c] && a + [Move(p)] + b == (a + [Move(p)] + front) + [c];
      ScheduleFront(m, Full(o), a + front, c);
      Ahead(m, o, same, a, p, front);
      AheadScheduled(m, o, same, a, p, front);
      var s, t := StateAfter(m, a + front), StateAfter(m, a + [Move(p)] + front);
      assert c in b && Private(m, o, same, s, p);
      assert SameFor(m, s, m.after(s, Move(p)), c.pid) && LooksLike(m, t, m.after(s, Move(p)), c.pid);
      assert ((a + [Move(p)] + front) + [c])[..|a + [Move(p)] + front|] == a + [Move(p)] + front;
    }
  }

  lemma MoverMoves<S>(m: Model<S>, o: Options, a: seq<Choice>, c: Choice, z: seq<Choice>)
    requires Schedule(m, Full(o), a + [c] + z) && !c.Crash? && CouldMove(m, StateAfter(m, a), c.pid)
    ensures c == Move(c.pid)
  {
    SchedulePrefix(m, Full(o), a + [c], z);
    ScheduleFront(m, Full(o), a, c);
  }

  /** A process whose local request is pending is still live when the others have moved. */
  lemma StillLive<S(!new)>(
    m: Model<S>, o: Options, same: (S, S) -> bool, a: seq<Choice>, p: int, b: seq<Choice>, z: seq<Choice>)
    requires LocalIsPrivate(m, o, same) && Schedule(m, Full(o), a + b + z)
    requires PendingLocal(m, StateAfter(m, a), p) && Others(b, p)
    ensures PendingLocal(m, StateAfter(m, a + b), p)
    ensures m.live(StateAfter(m, a + b + z)) == [] ==> z != []
  {
    SchedulePrefix(m, Full(o), a + b, z);
    Ahead(m, o, same, a, p, b);
    if z == [] { assert a + b + z == a + b; }
  }

  /** Its own next move makes the request. */
  lemma RequestMade<S(!new)>(
    m: Model<S>, o: Options, same: (S, S) -> bool, a: seq<Choice>, p: int, b: seq<Choice>, c: Choice, z: seq<Choice>)
    requires LocalIsPrivate(m, o, same) && Schedule(m, Full(o), a + b + [c] + z) && !c.Crash? && c.pid == p
    requires PendingLocal(m, StateAfter(m, a), p) && Others(b, p)
    ensures c == Move(p)
  {
    assert a + b + [c] + z == a + b + ([c] + z);
    StillLive(m, o, same, a, p, b, [c] + z);
    MoverMoves(m, o, a + b, c, z);
  }

  /** What comes before `p`'s first move, and that move with what follows. */
  function BeforeOwn(rest: seq<Choice>, p: int): (split: (seq<Choice>, seq<Choice>))
    ensures rest == split.0 + split.1 && (forall c :: c in split.0 ==> c.pid != p)
    ensures split.1 != [] ==> split.1[0].pid == p
  {
    if rest == [] || rest[0].pid == p then ([], rest)
    else
      var (b, z) := BeforeOwn(rest[1..], p);
      assert rest == [rest[0]] + rest[1..];
      ([rest[0]] + b, z)
  }

  // ---- what it does to the preemptions ----

  predicate Preempts<S>(m: Model<S>, moves: seq<Choice>, c: Choice) {
    !c.Crash? && c.pid != LastMover(moves) && CouldMove(m, StateAfter(m, moves), LastMover(moves))
  }

  lemma PreemptionsOn<S>(m: Model<S>, a: seq<Choice>, c: Choice)
    ensures EndsInPreemption(m, a + [c]) <==> Preempts(m, a, c)
    ensures Preemptions(m, a + [c]) == Preemptions(m, a) + if Preempts(m, a, c) then 1 else 0
  {
    assert (a + [c])[..|a|] == a;
  }

  /** Making the request before the others are switched to, and not after, preempts no more often. */
  lemma {:induction false} AheadPreempts<S(!new)>(
    m: Model<S>, o: Options, same: (S, S) -> bool, a: seq<Choice>, p: int, b: seq<Choice>)
    requires LocalIsPrivate(m, o, same) && Schedule(m, Full(o), a + b) && PendingLocal(m, StateAfter(m, a), p)
    requires Others(b, p)
    requires LastMover(a) == p && b != []
    ensures Preemptions(m, a + [Move(p)] + b) <= Preemptions(m, a + b)
    ensures LastMover(a + [Move(p)] + b) == LastMover(a + b) == b[|b| - 1].pid
  {
    var front, c := b[..|b| - 1], b[|b| - 1];
    assert a + b == (a + front) + [c] && a + [Move(p)] + b == (a + [Move(p)] + front) + [c] && c in b;
    StateOn(m, a + front, c);
    StateOn(m, a + [Move(p)] + front, c);
    PreemptionsOn(m, a + front, c);
    PreemptionsOn(m, a + [Move(p)] + front, c);
    if front == [] {
      assert a + front == a && a + [Move(p)] + front == a + [Move(p)];
      PreemptionsOn(m, a, Move(p));
    } else {
      ScheduleFront(m, Full(o), a + front, c);
      AheadPreempts(m, o, same, a, p, front);
      Ahead(m, o, same, a, p, front);
      var q := front[|front| - 1].pid;
      assert front[|front| - 1] in b;
      var s := StateAfter(m, a + front);
      assert Private(m, o, same, s, p) && SameFor(m, s, m.after(s, Move(p)), q);
      assert LooksLike(m, StateAfter(m, a + [Move(p)] + front), m.after(s, Move(p)), q);
    }
  }

  /** Nor does what comes next: what it may now preempt, the request itself preempted before. */
  lemma AheadPreemptsNext<S(!new)>(
    m: Model<S>, o: Options, same: (S, S) -> bool, a: seq<Choice>, p: int, b: seq<Choice>, c: Choice)
    requires LocalIsPrivate(m, o, same) && Schedule(m, Full(o), a + b) && PendingLocal(m, StateAfter(m, a), p)
    requires Others(b, p)
    requires LastMover(a) == p && b != []
    ensures Preemptions(m, a + [Move(p)] + b + [c]) <= Preemptions(m, a + b + [Move(p)] + [c])
  {
    var q := b[|b| - 1].pid;
    assert b[|b| - 1] in b;
    AheadPreempts(m, o, same, a, p, b);
    Ahead(m, o, same, a, p, b);
    PreemptionsOn(m, a + b, Move(p));
    PreemptionsOn(m, a + b + [Move(p)], c);
    PreemptionsOn(m, a + [Move(p)] + b, c);
    var s := StateAfter(m, a + b);
    assert Private(m, o, same, s, p) && SameFor(m, s, m.after(s, Move(p)), q);
    assert LooksLike(m, StateAfter(m, a + [Move(p)] + b), m.after(s, Move(p)), q);
  }

  lemma SameStep<S(!new)>(m: Model<S>, o: Options, same: (S, S) -> bool, u: seq<Choice>, v: seq<Choice>, c: Choice)
    requires Indistinct(m, o, same) && same(StateAfter(m, u), StateAfter(m, v)) && |u| == |v| && Schedule(m, Full(o), u)
    requires Schedule(m, Full(o), v + [c])
    ensures Schedule(m, Full(o), u + [c]) && same(StateAfter(m, u + [c]), StateAfter(m, v + [c]))
  {
    ScheduleFront(m, Full(o), v, c);
    StateOn(m, u, c);
    StateOn(m, v, c);
    assert LooksLike(m, StateAfter(m, u), StateAfter(m, v), c.pid) && Enabled(m, o, StateAfter(m, u), c);
    assert (u + [c])[..|u|] == u;
  }

  lemma SamePreemption<S(!new)>(
    m: Model<S>, o: Options, same: (S, S) -> bool, u: seq<Choice>, v: seq<Choice>, d: Choice)
    requires Indistinct(m, o, same) && same(StateAfter(m, u), StateAfter(m, v)) && LastMover(u) == LastMover(v)
    ensures Preemptions(m, u + [d]) - Preemptions(m, u) == Preemptions(m, v + [d]) - Preemptions(m, v)
  {
    PreemptionsOn(m, u, d);
    PreemptionsOn(m, v, d);
    assert LooksLike(m, StateAfter(m, u), StateAfter(m, v), LastMover(u));
  }

  lemma LastOfTail(u: seq<Choice>, z: seq<Choice>)
    requires z != [] && CrashFree(z)
    ensures LastMover(u + z) == z[|z| - 1].pid
  {
    assert z[|z| - 1] in z && (u + z)[|u + z| - 1] == z[|z| - 1];
  }

  /** From the same state the same moves go on. */
  lemma {:induction false} SameTail<S(!new)>(
    m: Model<S>, o: Options, same: (S, S) -> bool, u: seq<Choice>, v: seq<Choice>, z: seq<Choice>)
    requires Indistinct(m, o, same) && same(StateAfter(m, u), StateAfter(m, v)) && |u| == |v| && Schedule(m, Full(o), u)
    requires Schedule(m, Full(o), v + z) && CrashFree(z)
    requires z == [] ==> Preemptions(m, u) <= Preemptions(m, v)
    requires z != [] ==> Preemptions(m, u + [z[0]]) <= Preemptions(m, v + [z[0]])
    ensures Schedule(m, Full(o), u + z) && same(StateAfter(m, u + z), StateAfter(m, v + z))
    ensures Preemptions(m, u + z) <= Preemptions(m, v + z)
    decreases |z|, 0
  {
    if z == [] {
      assert u + z == u && v + z == v;
    } else if |z| == 1 {
      assert z == [z[0]];
      SameStep(m, o, same, u, v, z[0]);
    } else {
      var front, d := z[..|z| - 1], z[|z| - 1];
      assert z == front + [d] && front[0] == z[0];
      LongerTail(m, o, same, u, v, front, d);
    }
  }

  lemma LongerTail<S(!new)>(
    m: Model<S>, o: Options, same: (S, S) -> bool, u: seq<Choice>, v: seq<Choice>, front: seq<Choice>, d: Choice)
    requires Indistinct(m, o, same) && same(StateAfter(m, u), StateAfter(m, v)) && |u| == |v| && Schedule(m, Full(o), u)
    requires Schedule(m, Full(o), v + (front + [d])) && CrashFree(front + [d]) && front != []
    requires Preemptions(m, u + [front[0]]) <= Preemptions(m, v + [front[0]])
    ensures Schedule(m, Full(o), u + (front + [d]))
    ensures same(StateAfter(m, u + (front + [d])), StateAfter(m, v + (front + [d])))
    ensures Preemptions(m, u + (front + [d])) <= Preemptions(m, v + (front + [d]))
    decreases |front|, 1
  {
    assert u + (front + [d]) == u + front + [d] && v + (front + [d]) == v + front + [d];
    assert forall c :: c in front ==> c in front + [d];
    ScheduleFront(m, Full(o), v + front, d);
    SameTail(m, o, same, u, v, front);
    SameStep(m, o, same, u + front, v + front, d);
    LastOfTail(u, front);
    LastOfTail(v, front);
    SamePreemption(m, o, same, u + front, v + front, d);
  }

  /** A local request made late, after the others' moves `b`, made before them. */
  lemma MadeEarlier<S(!new)>(
    m: Model<S>, o: Options, same: (S, S) -> bool, a: seq<Choice>, p: int, b: seq<Choice>, z: seq<Choice>)
    requires LocalIsPrivate(m, o, same) && Schedule(m, Full(o), a + b + [Move(p)] + z) && CrashFree(z)
    requires PendingLocal(m, StateAfter(m, a), p) && LastMover(a) == p && Others(b, p) && b != []
    ensures Schedule(m, Full(o), a + [Move(p)] + b + z)
    ensures same(StateAfter(m, a + [Move(p)] + b + z), StateAfter(m, a + b + [Move(p)] + z))
    ensures Preemptions(m, a + [Move(p)] + b + z) <= Preemptions(m, a + b + [Move(p)] + z)
  {
    SchedulePrefix(m, Full(o), a + b + [Move(p)], z);
    ScheduleFront(m, Full(o), a + b, Move(p));
    assert a + b == (a + [b[0]]) + b[1..];
    SchedulePrefix(m, Full(o), a + [b[0]], b[1..]);
    ScheduleFront(m, Full(o), a, b[0]);
    assert a != [] by { assert -1 !in m.live(StateAfter(m, a)); }
    Ahead(m, o, same, a, p, b);
    AheadScheduled(m, o, same, a, p, b);
    StateOn(m, a + b, Move(p));
    AheadPreempts(m, o, same, a, p, b);
    PreemptionsOn(m, a + b, Move(p));
    if z != [] { AheadPreemptsNext(m, o, same, a, p, b, z[0]); }
    SameTail(m, o, same, a + [Move(p)] + b, a + b + [Move(p)], z);
  }

  // ---- the reduction misses nothing ----

  lemma ScheduleOn<S>(m: Model<S>, o: Options, a: seq<Choice>, c: Choice)
    ensures Schedule(m, o, a + [c]) <==>
      && Schedule(m, o, a) && !Complete(m, a) && Enabled(m, o, StateAfter(m, a), c)
      && (o.reduceLocal && Preempts(m, a, c) ==> !m.local(StateAfter(m, a), LastMover(a)))
  {
    assert (a + [c])[..|a|] == a;
    PreemptionsOn(m, a, c);
  }

  /** A schedule that departs from the reduction passes over a pending local request. */
  lemma PassedOver<S>(m: Model<S>, o: Options, a: seq<Choice>, c: Choice)
    requires Schedule(m, Full(o), a + [c]) && Schedule(m, Reduced(o), a) && !Schedule(m, Reduced(o), a + [c])
    ensures PendingLocal(m, StateAfter(m, a), LastMover(a)) && c.pid != LastMover(a)
    ensures Schedule(m, Reduced(o), a + [Move(LastMover(a))])
  {
    ScheduleOn(m, Full(o), a, c);
    ScheduleOn(m, Reduced(o), a, c);
    ScheduleOn(m, Reduced(o), a, Move(LastMover(a)));
  }

  /** The request passed over can be made instead. */
  lemma Departure<S(!new)>(
    m: Model<S>, o: Options, same: (S, S) -> bool, a: seq<Choice>, rest: seq<Choice>)
    returns (later: seq<Choice>)
    requires LocalIsPrivate(m, o, same) && Schedule(m, Full(o), a + rest) && CrashFree(rest)
    requires m.live(StateAfter(m, a + rest)) == []
    requires rest != [] && PendingLocal(m, StateAfter(m, a), LastMover(a)) && rest[0].pid != LastMover(a)
    ensures |later| == |rest| - 1 && CrashFree(later)
    ensures Schedule(m, Full(o), a + [Move(LastMover(a))] + later)
    ensures same(StateAfter(m, a + [Move(LastMover(a))] + later), StateAfter(m, a + rest))
    ensures Preemptions(m, a + [Move(LastMover(a))] + later) <= Preemptions(m, a + rest)
  {
    var p := LastMover(a);
    var b, y := PassedWhile(m, o, same, a, rest);
    assert a + rest == a + b + [Move(p)] + y;
    MadeEarlier(m, o, same, a, p, b, y);
    later := b + y;
    assert a + [Move(p)] + b + y == a + [Move(p)] + later;
  }

  /** What the others did before the request was made, and what followed it. */
  lemma PassedWhile<S(!new)>(m: Model<S>, o: Options, same: (S, S) -> bool, a: seq<Choice>, rest: seq<Choice>)
    returns (b: seq<Choice>, y: seq<Choice>)
    requires LocalIsPrivate(m, o, same) && Schedule(m, Full(o), a + rest) && CrashFree(rest)
    requires m.live(StateAfter(m, a + rest)) == []
    requires rest != [] && PendingLocal(m, StateAfter(m, a), LastMover(a)) && rest[0].pid != LastMover(a)
    ensures rest == b + [Move(LastMover(a))] + y && Others(b, LastMover(a)) && b != [] && CrashFree(y)
  {
    var p := LastMover(a);
    var split := BeforeOwn(rest, p);
    var z := split.1;
    b := split.0;
    assert (forall d :: d in b || d in z ==> d in rest) && a + rest == a + b + z;
    StillLive(m, o, same, a, p, b, z);
    y := z[1..];
    assert z == [z[0]] + y && a + rest == a + b + [z[0]] + y;
    RequestMade(m, o, same, a, p, b, z[0], y);
  }

  lemma EndsAlike<S(!new)>(m: Model<S>, o: Options, same: (S, S) -> bool, s: S, t: S)
    requires Indistinct(m, o, same) && same(s, t) && m.live(t) == []
    ensures m.live(s) == []
  {
    assert LooksLike(m, s, t, 0);
  }

  lemma SameChain<S(!new)>(m: Model<S>, o: Options, same: (S, S) -> bool, s: S, t: S, u: S)
    requires Indistinct(m, o, same) && same(s, t) && same(t, u)
    ensures same(s, u)
  {
  }

  /** A crash-free schedule that every process sees to its end. */
  ghost predicate RunsOut<S>(m: Model<S>, o: Options, w: seq<Choice>) {
    Schedule(m, Full(o), w) && CrashFree(w) && m.live(StateAfter(m, w)) == []
  }

  /** `v` is as long as `w`, ends as it does and preempts no more. */
  ghost predicate AsGood<S>(m: Model<S>, same: (S, S) -> bool, v: seq<Choice>, w: seq<Choice>) {
    |v| == |w| && same(StateAfter(m, v), StateAfter(m, w)) && Preemptions(m, v) <= Preemptions(m, w)
  }

  /** A schedule that starts as the reduction asks, and is about to depart from it, can keep to it for one move more. */
  lemma Mended<S(!new)>(
    m: Model<S>, o: Options, same: (S, S) -> bool, a: seq<Choice>, rest: seq<Choice>)
    returns (v: seq<Choice>)
    requires LocalIsPrivate(m, o, same) && RunsOut(m, o, a + rest) && Schedule(m, Reduced(o), a) && rest != []
    requires Schedule(m, Full(o), a + [rest[0]]) && !Schedule(m, Reduced(o), a + [rest[0]])
    ensures RunsOut(m, o, v) && AsGood(m, same, v, a + rest)
    ensures v[..|a| + 1] == a + [Move(LastMover(a))] && Schedule(m, Reduced(o), a + [Move(LastMover(a))])
  {
    assert forall c :: c in a || c in rest <==> c in a + rest;
    PassedOver(m, o, a, rest[0]);
    var later := Departure(m, o, same, a, rest);
    v := a + [Move(LastMover(a))] + later;
    assert v[..|a| + 1] == a + [Move(LastMover(a))];
    EndsAlike(m, o, same, StateAfter(m, v), StateAfter(m, a + rest));
  }

  lemma OneMore<S(!new)>(m: Model<S>, o: Options, same: (S, S) -> bool, w: seq<Choice>, n: nat) returns (v: seq<Choice>)
    requires LocalIsPrivate(m, o, same) && RunsOut(m, o, w) && n < |w| && Schedule(m, Reduced(o), w[..n])
    ensures RunsOut(m, o, v) && AsGood(m, same, v, w) && Schedule(m, Reduced(o), v[..n + 1])
  {
    assert w == w[..n] + w[n..] && w == w[..n + 1] + w[n + 1..] && w[..n + 1] == w[..n] + [w[n]];
    SchedulePrefix(m, Full(o), w[..n + 1], w[n + 1..]);
    if Schedule(m, Reduced(o), w[..n + 1]) {
      v := w;
    } else {
      v := Mended(m, o, same, w[..n], w[n..]);
    }
  }

  /** A schedule that keeps to the reduction for `n` moves can be rearranged, after them, to keep to it throughout. */
  lemma {:induction false} Rearranged<S(!new)>(m: Model<S>, o: Options, same: (S, S) -> bool, w: seq<Choice>, n: nat)
    returns (v: seq<Choice>)
    requires LocalIsPrivate(m, o, same) && RunsOut(m, o, w) && n <= |w| && Schedule(m, Reduced(o), w[..n])
    ensures RunsOut(m, o, v) && AsGood(m, same, v, w) && Schedule(m, Reduced(o), v)
    decreases |w| - n
  {
    if n == |w| {
      v := w;
      assert w[..n] == w;
    } else {
      var better := OneMore(m, o, same, w, n);
      v := Rearranged(m, o, same, better, n + 1);
      SameChain(m, o, same, StateAfter(m, v), StateAfter(m, better), StateAfter(m, w));
    }
  }

  /** A crash-free schedule within the budgets that every process sees to its end, showing `kind`. */
  ghost predicate EndsBadly<S>(m: Model<S>, o: Options, moves: seq<Choice>, kind: string) {
    Bad(m, o, moves, kind) && CrashFree(moves) && m.live(StateAfter(m, moves)) == []
  }

  /** Keeping to the reduction is one way of not keeping to it. */
  lemma {:induction false} ReducedIsFull<S>(m: Model<S>, o: Options, moves: seq<Choice>)
    requires Schedule(m, Reduced(o), moves)
    ensures Schedule(m, Full(o), moves)
  {
    if moves != [] { ReducedIsFull(m, o, moves[..|moves| - 1]); }
  }

  lemma {:induction false} NoCrashes(moves: seq<Choice>)
    requires CrashFree(moves)
    ensures Crashes(moves) == 0
  {
    if moves != [] {
      assert moves[|moves| - 1] in moves;
      NoCrashes(moves[..|moves| - 1]);
    }
  }

  /**
   * Where local requests are private, up to any relation that the moves and the
   * checks respect, the reduction neither hides a violation
   * nor adds one, among the schedules without crashes that run to their end.
   */
  lemma ReductionMissesNothing<S(!new)>(m: Model<S>, o: Options, same: (S, S) -> bool, kind: string)
    requires LocalIsPrivate(m, o, same)
    ensures (exists w :: EndsBadly(m, Full(o), w, kind)) <==> (exists w :: EndsBadly(m, Reduced(o), w, kind))
  {
    if w :| EndsBadly(m, Full(o), w, kind) {
      var v := Rearranged(m, o, same, w, 0);
      assert LooksLike(m, StateAfter(m, v), StateAfter(m, w), 0);
      NoCrashes(v);
      assert EndsBadly(m, Reduced(o), v, kind);
    }
    if w :| EndsBadly(m, Reduced(o), w, kind) {
      ReducedIsFull(m, o, w);
      assert EndsBadly(m, Full(o), w, kind);
    }
  }

  // ---- where the clock is visible ----

  /** Two processes on one clock: the first reads it twice, the second takes a single shared step. */
  datatype Clocked = Clocked(time: nat, readings: seq<nat>, stepped: bool)

  function Tick(s: Clocked, c: Choice): Clocked {
    var t := s.time + 1;
    if c.pid == 1 then Clocked(t, s.readings + [t], s.stepped) else Clocked(t, s.readings, true)
  }

  predicate Late(s: Clocked) {
    |s.readings| == 2 && s.readings[1] > s.readings[0] + 1
  }

  /** The first process's readings are its only requests, and local; two that are apart are a violation. */
  function ClockModel(): Model<Clocked> {
    Model(
      Clocked(0, [], false),
      (s: Clocked) => (if |s.readings| < 2 then [1] else []) + (if s.stepped then [] else [2]),
      (s: Clocked, p: int) => false,
      (s: Clocked, p: int) => p == 1,
      (s: Clocked, c: Choice) => Tick(s, c),
      (s: Clocked) => false,
      (s: Clocked) => {},
      (s: Clocked) => if Late(s) then {"LATE"} else {})
  }

  /** Under the reduction the second reading follows the first at once. */
  lemma {:induction false} ReadTogether(o: Options, w: seq<Choice>)
    requires Schedule(ClockModel(), Reduced(o), w) && CrashFree(w)
    ensures
      var s := StateAfter(ClockModel(), w);
      && !Late(s) && |s.readings| <= 2
      && (|s.readings| == 1 ==> LastMover(w) == 1 && s.readings[0] == s.time)
  {
    if w != [] {
      var front, c := w[..|w| - 1], w[|w| - 1];
      ReadTogether(o, front);
      assert w == front + [c] && c in w;
      PreemptionsOn(ClockModel(), front, c);
    }
  }

  /** With one preemption the other process's step comes between the two readings. */
  lemma ReadApart(o: Options)
    requires o.preemptions >= 1
    ensures exists w :: EndsBadly(ClockModel(), Full(o), w, "LATE")
  {
    var m, none: seq<Choice> := ClockModel(), [];
    var w1, w2, w3 := [Move(1)], [Move(1), Move(2)], [Move(1), Move(2), Move(1)];
    assert w1 == none + [Move(1)] && w2 == w1 + [Move(2)] && w3 == w2 + [Move(1)];
    assert w1[..0] == none && w2[..1] == w1 && w3[..2] == w2;
    StateOn(m, none, Move(1));
    StateOn(m, w1, Move(2));
    StateOn(m, w2, Move(1));
    assert StateAfter(m, w3) == Clocked(3, [1, 3], true);
    PreemptionsOn(m, none, Move(1));
    PreemptionsOn(m, w1, Move(2));
    PreemptionsOn(m, w2, Move(1));
    NoCrashes(w3);
    assert m.live(StateAfter(m, none)) == [1, 2] && m.live(StateAfter(m, w1)) == [1, 2] && m.live(StateAfter(m, w2)) == [1];
    assert Schedule(m, Full(o), none);
    assert Schedule(m, Full(o), w1);
    assert Schedule(m, Full(o), w2);
    assert Schedule(m, Full(o), w3);
    assert EndsBadly(m, Full(o), w3, "LATE");
  }

  /**
   * A local request that reads the clock is not private, and the reduction then
   * hides what one preemption shows, however many it is allowed.
   */
  lemma ReductionCanMiss(o: Options)
    requires o.preemptions >= 1
    ensures exists w :: EndsBadly(ClockModel(), Full(o), w, "LATE")
    ensures forall w :: !EndsBadly(ClockModel(), Reduced(o), w, "LATE")
    ensures forall same :: !LocalIsPrivate(ClockModel(), o, same)
  {
    ReadApart(o);
    forall w ensures !EndsBadly(ClockModel(), Reduced(o), w, "LATE") {
      if EndsBadly(ClockModel(), Reduced(o), w, "LATE") { ReadTogether(o, w); }
    }
    forall same ensures !LocalIsPrivate(ClockModel(), o, same) {
      if LocalIsPrivate(ClockModel(), o, same) { ReductionMissesNothing(ClockModel(), o, same, "LATE"); }
    }
  }
}

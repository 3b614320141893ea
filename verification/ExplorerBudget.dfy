/**
 * What the choice tree stands for: its leaves are, one for one, the complete
 * schedules of the system that stay within the preemption and crash budgets.
 * Here a schedule is a sequence of moves, and the budgets are counted on it,
 * with no tree and no remaining budget in sight.
 */
module ExplorerBudget {
  import opened Wrappers
  import opened ExplorerTree
  import opened ExplorerSpec

  // ---- schedules of the system itself ----

  function StateAfter<S>(m: Model<S>, moves: seq<Choice>): S {
    if moves == [] then m.start
    else m.after(StateAfter(m, moves[..|moves| - 1]), moves[|moves| - 1])
  }

  /** The process that took the last step, crashes aside; -1 before the first. */
  function LastMover(moves: seq<Choice>): int {
    if moves == [] then -1
    else if moves[|moves| - 1].Crash? then LastMover(moves[..|moves| - 1])
    else moves[|moves| - 1].pid
  }

  /** The last move switches away from a process that could have taken another step. */
  predicate EndsInPreemption<S>(m: Model<S>, moves: seq<Choice>) {
    moves != [] &&
    var front, c := moves[..|moves| - 1], moves[|moves| - 1];
    var s, last := StateAfter(m, front), LastMover(front);
    !c.Crash? && c.pid != last && last in m.live(s) && !m.running(s, last)
  }

  function Preemptions<S>(m: Model<S>, moves: seq<Choice>): nat {
    if moves == [] then 0
    else Preemptions(m, moves[..|moves| - 1]) + if EndsInPreemption(m, moves) then 1 else 0
  }

  function Crashes(moves: seq<Choice>): nat {
    if moves == [] then 0
    else Crashes(moves[..|moves| - 1]) + if moves[|moves| - 1].Crash? then 1 else 0
  }

  predicate Complete<S>(m: Model<S>, moves: seq<Choice>) {
    || (|moves| > 0 && m.overslept(StateAfter(m, moves)))
    || m.live(StateAfter(m, moves)) == []
    || |moves| >= STEP_CAP
  }

  /** A schedule of the system: every move is enabled, none follows its end, and none preempts a local request. */
  predicate Schedule<S>(m: Model<S>, o: Options, moves: seq<Choice>) {
    moves == [] ||
    var front, c := moves[..|moves| - 1], moves[|moves| - 1];
    && Schedule(m, o, front) && !Complete(m, front)
    && Enabled(m, o, StateAfter(m, front), c)
    && (o.reduceLocal && EndsInPreemption(m, moves) ==> !m.local(StateAfter(m, front), LastMover(front)))
  }

  predicate WithinBudgets<S>(m: Model<S>, o: Options, moves: seq<Choice>) {
    Preemptions(m, moves) <= o.preemptions && Crashes(moves) <= o.crashes
  }

  // ---- paths of the tree spell schedules ----

  function Moves<S>(m: Model<S>, o: Options, path: seq<nat>): (moves: seq<Choice>)
    requires IsPath(m, o, path)
    ensures |moves| == |path|
  {
    if path == [] then []
    else
      var front := path[..|path| - 1];
      Moves(m, o, front) + [Allowed(m, o, At(m, o, front))[path[|path| - 1]]]
  }

  /** A node of the tree remembers exactly the state, the last mover and what is left of the budgets. */
  ghost predicate Mirrors<S>(m: Model<S>, o: Options, n: Node<S>, moves: seq<Choice>) {
    && n.s == StateAfter(m, moves) && n.last == LastMover(moves) && n.steps == |moves|
    && n.preemptionsLeft == o.preemptions - Preemptions(m, moves)
    && n.crashesLeft == o.crashes - Crashes(moves)
  }

  lemma MirrorsOn<S>(m: Model<S>, o: Options, n: Node<S>, moves: seq<Choice>, c: Choice)
    requires Mirrors(m, o, n, moves)
    ensures Mirrors(m, o, After(m, n, c), moves + [c])
    ensures EndsInPreemption(m, moves + [c]) <==> IsPreemption(m, n, c)
    ensures Ended(m, n) <==> Complete(m, moves)
  {
    assert (moves + [c])[..|moves + [c]| - 1] == moves;
  }

  /** Taking a permitted choice is going on with a schedule within its budgets. */
  lemma PermittedIsScheduled<S>(m: Model<S>, o: Options, n: Node<S>, moves: seq<Choice>, c: Choice)
    requires Mirrors(m, o, n, moves) && Schedule(m, o, moves) && WithinBudgets(m, o, moves) && !Ended(m, n)
    ensures c in Allowed(m, o, n) <==> Schedule(m, o, moves + [c]) && WithinBudgets(m, o, moves + [c])
  {
    AllowedExactly(m, o, n, c);
    MirrorsOn(m, o, n, moves, c);
    assert (moves + [c])[..|moves + [c]| - 1] == moves;
  }

  /** Every path spells a schedule within the budgets, and its node knows exactly what they have left. */
  lemma {:induction false} PathsAreSchedules<S>(m: Model<S>, o: Options, path: seq<nat>)
    requires IsPath(m, o, path)
    ensures Mirrors(m, o, At(m, o, path), Moves(m, o, path))
    ensures Schedule(m, o, Moves(m, o, path)) && WithinBudgets(m, o, Moves(m, o, path))
  {
    if path != [] {
      var front := path[..|path| - 1];
      var n := At(m, o, front);
      PathsAreSchedules(m, o, front);
      var c := Allowed(m, o, n)[path[|path| - 1]];
      MirrorsOn(m, o, n, Moves(m, o, front), c);
      PermittedIsScheduled(m, o, n, Moves(m, o, front), c);
    }
  }

  lemma BudgetsShrink<S>(m: Model<S>, o: Options, moves: seq<Choice>)
    requires moves != [] && WithinBudgets(m, o, moves)
    ensures WithinBudgets(m, o, moves[..|moves| - 1])
  {
  }

  /** Every schedule within the budgets is spelt by a path. */
  lemma {:induction false} SchedulesArePaths<S>(m: Model<S>, o: Options, moves: seq<Choice>) returns (path: seq<nat>)
    requires Schedule(m, o, moves) && WithinBudgets(m, o, moves)
    ensures IsPath(m, o, path) && Moves(m, o, path) == moves
  {
    if moves == [] {
      path := [];
    } else {
      var front, c := moves[..|moves| - 1], moves[|moves| - 1];
      BudgetsShrink(m, o, moves);
      var shorter := SchedulesArePaths(m, o, front);
      var n := At(m, o, shorter);
      PathsAreSchedules(m, o, shorter);
      MirrorsOn(m, o, n, front, c);
      assert moves == front + [c];
      PermittedIsScheduled(m, o, n, front, c);
      var i: nat :| i < |Allowed(m, o, n)| && Allowed(m, o, n)[i] == c;
      PathExtends(m, o, shorter, i);
      path := shorter + [i];
      assert path[..|path| - 1] == shorter;
    }
  }

  /** No two paths spell the same schedule, when no process is listed twice. */
  lemma {:induction false} PathsSpellOnce<S(!new)>(m: Model<S>, o: Options, a: seq<nat>, b: seq<nat>)
    requires forall s :: Distinct(m.live(s))
    requires IsPath(m, o, a) && IsPath(m, o, b) && Moves(m, o, a) == Moves(m, o, b)
    ensures a == b
  {
    assert |a| == |Moves(m, o, a)| == |b|;
    if a != [] {
      var fa, fb := a[..|a| - 1], b[..|b| - 1];
      assert Moves(m, o, fa) == Moves(m, o, a)[..|a| - 1] && Moves(m, o, fb) == Moves(m, o, b)[..|b| - 1];
      PathsSpellOnce(m, o, fa, fb);
      AllowedDistinct(m, o, At(m, o, fa));
      assert a == fa + [a[|a| - 1]] && b == fb + [b[|b| - 1]];
      assert Moves(m, o, a)[|a| - 1] == Moves(m, o, b)[|b| - 1];
    }
  }

  /**
   * The leaves of the tree are exactly the complete schedules with at most the
   * allowed preemptions and crashes: none is missed and nothing else is there.
   */
  lemma LeavesAreSchedules<S>(m: Model<S>, o: Options, moves: seq<Choice>)
    ensures Schedule(m, o, moves) && Complete(m, moves) && WithinBudgets(m, o, moves) <==>
      exists leaf :: IsLeaf(m, o, leaf) && Moves(m, o, leaf) == moves
  {
    if Schedule(m, o, moves) && Complete(m, moves) && WithinBudgets(m, o, moves) {
      var leaf := SchedulesArePaths(m, o, moves);
      PathsAreSchedules(m, o, leaf);
      MirrorsOn(m, o, At(m, o, leaf), moves, Move(0));
      assert IsLeaf(m, o, leaf);
    }
    forall leaf | IsLeaf(m, o, leaf) && Moves(m, o, leaf) == moves
      ensures Schedule(m, o, moves) && Complete(m, moves) && WithinBudgets(m, o, moves)
    {
      PathsAreSchedules(m, o, leaf);
      MirrorsOn(m, o, At(m, o, leaf), moves, Move(0));
    }
  }

  // ---- what a report decides ----

  /** The violations a complete schedule counts for. */
  function ShownBy<S>(m: Model<S>, o: Options, moves: seq<Choice>): set<string> {
    var s := StateAfter(m, moves);
    if moves != [] && m.overslept(s) then (if o.countPrunedSafety then m.seen(s) * SAFETY else {})
    else m.seen(s) + m.atEnd(s) + if m.live(s) == [] then {} else {"HOT_LOOP"}
  }

  ghost predicate Bad<S>(m: Model<S>, o: Options, moves: seq<Choice>, kind: string) {
    Schedule(m, o, moves) && Complete(m, moves) && WithinBudgets(m, o, moves) && kind in ShownBy(m, o, moves)
  }

  lemma BadLeaf<S>(m: Model<S>, o: Options, leaf: seq<nat>, kind: string)
    requires IsLeaf(m, o, leaf)
    ensures Shows(m, o, leaf, kind) <==> Bad(m, o, Moves(m, o, leaf), kind)
  {
    PathsAreSchedules(m, o, leaf);
    MirrorsOn(m, o, At(m, o, leaf), Moves(m, o, leaf), Move(0));
  }

  /**
   * An uncapped report is a verdict on every schedule within the budgets: it
   * lists a violation exactly when some such schedule shows it.
   */
  lemma ReportIsVerdict<S>(m: Model<S>, o: Options, r: Report, visited: seq<seq<nat>>, kind: string)
    requires Accounts(m, o, r, visited)
    requires forall leaf :: IsLeaf(m, o, leaf) <==> leaf in visited
    ensures kind in r.violations && r.violations[kind] > 0 <==> exists moves :: Bad(m, o, moves, kind)
  {
    TallyPositive(m, o, visited, kind);
    if exists leaf :: leaf in visited && Shows(m, o, leaf, kind) {
      var leaf :| leaf in visited && Shows(m, o, leaf, kind);
      BadLeaf(m, o, leaf, kind);
    }
    if exists moves :: Bad(m, o, moves, kind) {
      var moves :| Bad(m, o, moves, kind);
      LeavesAreSchedules(m, o, moves);
      var leaf :| IsLeaf(m, o, leaf) && Moves(m, o, leaf) == moves;
      BadLeaf(m, o, leaf, kind);
    }
  }
}

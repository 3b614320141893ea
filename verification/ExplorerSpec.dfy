/** What an exploration is to find: the leaves of the choice tree, and the tally of what they show. */
module ExplorerSpec {
  import opened Wrappers
  import opened ExplorerTree

  datatype Report = Report(leaves: nat, pruned: nat, capped: bool, violations: map<string, nat>)

  // ---- the finite set of leaves ----

  function Turns<S>(m: Model<S>, o: Options, path: seq<nat>): nat {
    if IsPath(m, o, path) && !Ended(m, At(m, o, path)) then |Allowed(m, o, At(m, o, path))| else 0
  }

  ghost function Extensions(paths: set<seq<nat>>, turns: seq<nat> -> nat): set<seq<nat>> {
    set p, i | p in paths && 0 <= i < turns(p) :: p + [i]
  }

  lemma ExtensionsHas(paths: set<seq<nat>>, turns: seq<nat> -> nat, p: seq<nat>, i: nat)
    requires p in paths && i < turns(p)
    ensures p + [i] in Extensions(paths, turns)
  {
  }

  ghost predicate CoversUpTo<S>(m: Model<S>, o: Options, paths: set<seq<nat>>, length: nat) {
    forall p :: IsPath(m, o, p) && |p| <= length ==> p in paths
  }

  lemma PathTurns<S>(m: Model<S>, o: Options, path: seq<nat>)
    requires IsPath(m, o, path) && path != []
    ensures IsPath(m, o, path[..|path| - 1]) && path[|path| - 1] < Turns(m, o, path[..|path| - 1])
    ensures |path| <= STEP_CAP
  {
  }

  lemma CoversMore<S>(m: Model<S>, o: Options, paths: set<seq<nat>>, length: nat, p: seq<nat>)
    requires CoversUpTo(m, o, paths, length) && IsPath(m, o, p) && |p| == length + 1
    ensures p in Extensions(paths, q => Turns(m, o, q))
  {
    var front, i := p[..|p| - 1], p[|p| - 1];
    PathTurns(m, o, p);
    ExtensionsHas(paths, q => Turns(m, o, q), front, i);
    assert p == front + [i];
  }

  /** The tree has finitely many paths: the step cap bounds their length. */
  lemma FinitelyMany<S>(m: Model<S>, o: Options) returns (paths: set<seq<nat>>)
    ensures forall p :: IsPath(m, o, p) ==> p in paths
  {
    paths := {[]};
    for length := 0 to STEP_CAP
      invariant CoversUpTo(m, o, paths, length)
    {
      var more := Extensions(paths, q => Turns(m, o, q));
      forall p | IsPath(m, o, p) && |p| <= length + 1 ensures p in paths + more {
        if |p| == length + 1 { CoversMore(m, o, paths, length, p); }
      }
      paths := paths + more;
    }
    forall p | IsPath(m, o, p) ensures p in paths {
      if p != [] { PathTurns(m, o, p); }
    }
  }

  ghost predicate AreLeaves<S>(m: Model<S>, o: Options, leaves: set<seq<nat>>) {
    forall p :: p in leaves <==> IsLeaf(m, o, p)
  }

  lemma LeavesExist<S>(m: Model<S>, o: Options)
    ensures exists leaves: set<seq<nat>> :: AreLeaves(m, o, leaves)
  {
    var paths := FinitelyMany(m, o);
    assert AreLeaves(m, o, set p | p in paths && IsLeaf(m, o, p));
  }

  /** Every leaf of the tree. */
  ghost function Leaves<S>(m: Model<S>, o: Options): (leaves: set<seq<nat>>)
    ensures AreLeaves(m, o, leaves)
  {
    LeavesExist(m, o);
    var leaves: set<seq<nat>> :| AreLeaves(m, o, leaves);
    leaves
  }

  // ---- what a schedule reports ----

  /** The violations counted for a schedule that stopped at `n`. */
  function Kinds<S>(m: Model<S>, o: Options, n: Node<S>): set<string> {
    if Pruned(m, n) then (if o.countPrunedSafety then m.seen(n.s) * SAFETY else {})
    else m.seen(n.s) + m.atEnd(n.s) + if m.live(n.s) == [] then {} else {"HOT_LOOP"}
  }

  ghost predicate Shows<S>(m: Model<S>, o: Options, path: seq<nat>, kind: string) {
    IsLeaf(m, o, path) && kind in Kinds(m, o, At(m, o, path))
  }

  ghost predicate WasPruned<S>(m: Model<S>, o: Options, path: seq<nat>) {
    IsLeaf(m, o, path) && Pruned(m, At(m, o, path))
  }

  /** How many of the visited schedules show a violation. */
  ghost function Tally<S>(m: Model<S>, o: Options, visited: seq<seq<nat>>, kind: string): nat {
    if visited == [] then 0
    else Tally(m, o, visited[..|visited| - 1], kind) + if Shows(m, o, visited[|visited| - 1], kind) then 1 else 0
  }

  ghost function TallyPruned<S>(m: Model<S>, o: Options, visited: seq<seq<nat>>): nat {
    if visited == [] then 0
    else TallyPruned(m, o, visited[..|visited| - 1]) + if WasPruned(m, o, visited[|visited| - 1]) then 1 else 0
  }

  function Counted(violations: map<string, nat>, kinds: set<string>): map<string, nat> {
    map kind | kind in violations.Keys + kinds ::
      (if kind in violations then violations[kind] else 0) + (if kind in kinds then 1 else 0)
  }

  ghost predicate Accounts<S>(m: Model<S>, o: Options, r: Report, visited: seq<seq<nat>>) {
    && r.leaves + r.pruned == |visited|
    && r.pruned == TallyPruned(m, o, visited)
    && forall kind ::
         Tally(m, o, visited, kind) == if kind in r.violations then r.violations[kind] else 0
  }

  lemma AccountsFor<S>(m: Model<S>, o: Options, r: Report, visited: seq<seq<nat>>, path: seq<nat>, r': Report)
    requires Accounts(m, o, r, visited) && IsLeaf(m, o, path)
    requires
      var n := At(m, o, path);
      && r'.leaves == r.leaves + (if Pruned(m, n) then 0 else 1)
      && r'.pruned == r.pruned + (if Pruned(m, n) then 1 else 0)
      && r'.violations == Counted(r.violations, Kinds(m, o, n))
    ensures Accounts(m, o, r', visited + [path])
  {
    assert (visited + [path])[..|visited + [path]| - 1] == visited;
  }

  lemma {:induction false} TallyPositive<S>(m: Model<S>, o: Options, visited: seq<seq<nat>>, kind: string)
    ensures Tally(m, o, visited, kind) > 0 <==> exists path :: path in visited && Shows(m, o, path, kind)
  {
    if visited != [] {
      var front, path := visited[..|visited| - 1], visited[|visited| - 1];
      TallyPositive(m, o, front, kind);
      assert visited == front + [path];
    }
  }
}

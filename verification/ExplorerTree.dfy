/**
 * The schedules of a bounded model checker as a tree of choices: at each node
 * the live processes offer moves, and the preemption and crash budgets decide
 * which of them may be taken. The machine under test is any function.
 */
module ExplorerTree {
  import opened Wrappers

  datatype Choice = Move(pid: int) | Finish(pid: int, succeeded: bool) | Crash(pid: int)

  /**
   * The system under exploration, deterministic in its choices. `local` says
   * that a process's next request touches no shared file; `seen` holds the
   * violations met so far and `atEnd` those a complete schedule shows.
   */
  datatype Model<!S> = Model(
    start: S, live: S -> seq<int>, running: (S, int) -> bool, local: (S, int) -> bool,
    after: (S, Choice) -> S, overslept: S -> bool, seen: S -> set<string>, atEnd: S -> set<string>)

  datatype Options = Options(
    crashes: nat, preemptions: nat, runFail: bool, reduceLocal: bool, countPrunedSafety: bool,
    maxSchedules: Option<nat>)

  datatype Node<S> = Node(s: S, crashesLeft: int, preemptionsLeft: int, last: int, steps: nat)

  const STEP_CAP: nat := 4000
  const SAFETY: set<string> :=
    {"DOUBLE_RUN_OVERLAP", "RAN_DESPITE_OBSERVED_DONE", "LOCK_DISPLACED_WHILE_RUNNING", "HOT_LOOP"}

  function Root<S>(m: Model<S>, o: Options): Node<S> {
    Node(m.start, o.crashes, o.preemptions, -1, 0)
  }

  /** Some process has just slept once too often. */
  predicate Pruned<S>(m: Model<S>, n: Node<S>) {
    n.steps > 0 && m.overslept(n.s)
  }

  /** A schedule stops when it is pruned, when no process is live, or at the step cap. */
  predicate Ended<S>(m: Model<S>, n: Node<S>) {
    Pruned(m, n) || m.live(n.s) == [] || n.steps >= STEP_CAP
  }

  /** The process that moved last is still live, outside its work. */
  predicate CouldStep<S>(m: Model<S>, n: Node<S>) {
    n.last in m.live(n.s) && !m.running(n.s, n.last)
  }

  predicate LastLocal<S>(m: Model<S>, o: Options, n: Node<S>) {
    o.reduceLocal && CouldStep(m, n) && m.local(n.s, n.last)
  }

  predicate IsPreemption<S>(m: Model<S>, n: Node<S>, c: Choice) {
    CouldStep(m, n) && c.pid != n.last && !c.Crash?
  }

  predicate Permitted<S>(m: Model<S>, o: Options, n: Node<S>, c: Choice) {
    !IsPreemption(m, n, c) || (n.preemptionsLeft > 0 && !LastLocal(m, o, n))
  }

  function Offers<S>(m: Model<S>, o: Options, n: Node<S>, pid: int): seq<Choice> {
    (if m.running(n.s, pid) then [Finish(pid, true)] + (if o.runFail then [Finish(pid, false)] else [])
     else [Move(pid)])
    + (if n.crashesLeft > 0 then [Crash(pid)] else [])
  }

  function OffersOf<S>(m: Model<S>, o: Options, n: Node<S>, pids: seq<int>): seq<Choice> {
    if pids == [] then []
    else OffersOf(m, o, n, pids[..|pids| - 1]) + Offers(m, o, n, pids[|pids| - 1])
  }

  function Permit<S>(m: Model<S>, o: Options, n: Node<S>, choices: seq<Choice>): seq<Choice> {
    if choices == [] then []
    else
      var c := choices[|choices| - 1];
      Permit(m, o, n, choices[..|choices| - 1]) + (if Permitted(m, o, n, c) then [c] else [])
  }

  function Allowed<S>(m: Model<S>, o: Options, n: Node<S>): seq<Choice> {
    Permit(m, o, n, OffersOf(m, o, n, m.live(n.s)))
  }

  function After<S>(m: Model<S>, n: Node<S>, c: Choice): Node<S> {
    Node(m.after(n.s, c),
         if c.Crash? then n.crashesLeft - 1 else n.crashesLeft,
         if IsPreemption(m, n, c) then n.preemptionsLeft - 1 else n.preemptionsLeft,
         if c.Crash? then n.last else c.pid,
         n.steps + 1)
  }

  // ---- paths of the tree ----

  /** A path of choice indices that never goes past the end of a schedule. */
  predicate IsPath<S>(m: Model<S>, o: Options, path: seq<nat>)
    decreases |path|, 0
  {
    path == [] ||
    var front := path[..|path| - 1];
    && IsPath(m, o, front)
    && !Ended(m, At(m, o, front))
    && path[|path| - 1] < |Allowed(m, o, At(m, o, front))|
  }

  function At<S>(m: Model<S>, o: Options, path: seq<nat>): (n: Node<S>)
    requires IsPath(m, o, path)
    ensures n.steps == |path|
    decreases |path|, 1
  {
    if path == [] then Root(m, o)
    else
      var n := At(m, o, path[..|path| - 1]);
      After(m, n, Allowed(m, o, n)[path[|path| - 1]])
  }

  predicate IsLeaf<S>(m: Model<S>, o: Options, path: seq<nat>) {
    IsPath(m, o, path) && Ended(m, At(m, o, path))
  }

  /** What a path does at depth `k`: it goes on, through one of the choices offered there. */
  predicate GoesOn<S>(m: Model<S>, o: Options, path: seq<nat>, k: nat)
    requires k < |path|
  {
    && IsPath(m, o, path[..k]) && !Ended(m, At(m, o, path[..k]))
    && path[k] < |Allowed(m, o, At(m, o, path[..k]))|
  }

  lemma {:induction false} PathGoesOn<S>(m: Model<S>, o: Options, path: seq<nat>, k: nat)
    requires IsPath(m, o, path) && k < |path|
    ensures GoesOn(m, o, path, k)
  {
    var front := path[..|path| - 1];
    if k < |front| {
      PathGoesOn(m, o, front, k);
      assert front[..k] == path[..k];
    }
  }

  lemma PathExtends<S>(m: Model<S>, o: Options, path: seq<nat>, i: nat)
    requires IsPath(m, o, path) && !Ended(m, At(m, o, path)) && i < |Allowed(m, o, At(m, o, path))|
    ensures IsPath(m, o, path + [i])
    ensures At(m, o, path + [i]) == After(m, At(m, o, path), Allowed(m, o, At(m, o, path))[i])
  {
    assert (path + [i])[..|path + [i]| - 1] == path;
  }

  /** No leaf lies below another. */
  lemma LeavesAreFinal<S>(m: Model<S>, o: Options, a: seq<nat>, b: seq<nat>)
    requires IsLeaf(m, o, a) && IsPath(m, o, b) && |a| <= |b| && b[..|a|] == a
    ensures a == b
  {
    if |a| < |b| {
      PathGoesOn(m, o, b, |a|);
    }
  }

  // ---- lexicographic order ----

  predicate TurnsAt(a: seq<nat>, b: seq<nat>, k: nat) {
    k < |a| && k < |b| && a[..k] == b[..k] && a[k] < b[k]
  }

  /** `a` leaves `b`'s path to an earlier choice. */
  ghost predicate Before(a: seq<nat>, b: seq<nat>) {
    exists k: nat :: TurnsAt(a, b, k)
  }

  /** Of two different leaves, one comes before the other. */
  lemma LeavesAreOrdered<S>(m: Model<S>, o: Options, a: seq<nat>, b: seq<nat>)
    requires IsLeaf(m, o, a) && IsLeaf(m, o, b) && a != b
    ensures Before(a, b) || Before(b, a)
  {
    var k := CommonPrefix(a, b);
    if k == |a| {
      LeavesAreFinal(m, o, a, b);
    } else if k == |b| {
      LeavesAreFinal(m, o, b, a);
    } else if a[k] < b[k] {
      assert TurnsAt(a, b, k);
    } else {
      assert TurnsAt(b, a, k);
    }
  }

  function CommonPrefix(a: seq<nat>, b: seq<nat>): (k: nat)
    ensures k <= |a| && k <= |b| && a[..k] == b[..k]
    ensures k < |a| && k < |b| ==> a[k] != b[k]
  {
    if a == [] || b == [] || a[0] != b[0] then 0
    else
      var k := CommonPrefix(a[1..], b[1..]);
      assert a[..k + 1] == [a[0]] + a[1..][..k] && b[..k + 1] == [b[0]] + b[1..][..k];
      k + 1
  }

  // ---- the choices offered are exactly the moves the budgets leave ----

  predicate Enabled<S>(m: Model<S>, o: Options, s: S, c: Choice) {
    && c.pid in m.live(s)
    && match c
       case Move(p) => !m.running(s, p)
       case Finish(p, succeeded) => m.running(s, p) && (succeeded || o.runFail)
       case Crash(_) => true
  }

  lemma OffersOwn<S>(m: Model<S>, o: Options, n: Node<S>, pid: int)
    ensures forall c :: c in Offers(m, o, n, pid) ==> c.pid == pid
    ensures Distinct(Offers(m, o, n, pid))
  {
  }

  lemma {:induction false} OffersExactly<S>(m: Model<S>, o: Options, n: Node<S>, pids: seq<int>, c: Choice)
    ensures c in OffersOf(m, o, n, pids) <==> c.pid in pids && c in Offers(m, o, n, c.pid)
  {
    if pids != [] {
      var front, pid := pids[..|pids| - 1], pids[|pids| - 1];
      OffersExactly(m, o, n, front, c);
      OffersOwn(m, o, n, pid);
      assert c.pid in pids <==> c.pid in front || c.pid == pid by { assert pids == front + [pid]; }
    }
  }

  lemma {:induction false} PermitExactly<S>(m: Model<S>, o: Options, n: Node<S>, choices: seq<Choice>, c: Choice)
    ensures c in Permit(m, o, n, choices) <==> c in choices && Permitted(m, o, n, c)
  {
    if choices != [] {
      PermitExactly(m, o, n, choices[..|choices| - 1], c);
      assert choices == choices[..|choices| - 1] + [choices[|choices| - 1]];
    }
  }

  lemma OfferedExactly<S>(m: Model<S>, o: Options, n: Node<S>, c: Choice)
    ensures c.pid in m.live(n.s) && c in Offers(m, o, n, c.pid) <==>
      Enabled(m, o, n.s, c) && (c.Crash? ==> n.crashesLeft > 0)
  {
  }

  lemma AllowedExactly<S>(m: Model<S>, o: Options, n: Node<S>, c: Choice)
    ensures c in Allowed(m, o, n) <==>
      Enabled(m, o, n.s, c) && Permitted(m, o, n, c) && (c.Crash? ==> n.crashesLeft > 0)
  {
    OfferedExactly(m, o, n, c);
    OffersExactly(m, o, n, m.live(n.s), c);
    PermitExactly(m, o, n, OffersOf(m, o, n, m.live(n.s)), c);
  }

  /** A schedule that has not ended always has a next choice. */
  lemma NeverStuck<S>(m: Model<S>, o: Options, n: Node<S>)
    requires !Ended(m, n)
    ensures Allowed(m, o, n) != []
  {
    var pid := if CouldStep(m, n) then n.last else m.live(n.s)[0];
    var c := if m.running(n.s, pid) then Finish(pid, true) else Move(pid);
    AllowedExactly(m, o, n, c);
  }

  predicate Distinct<T(==)>(s: seq<T>) {
    forall i, j :: 0 <= i < j < |s| ==> s[i] != s[j]
  }

  lemma DistinctConcat<T>(a: seq<T>, b: seq<T>)
    requires Distinct(a) && Distinct(b) && forall x :: x in a ==> x !in b
    ensures Distinct(a + b)
  {
    forall i, j | 0 <= i < j < |a + b| ensures (a + b)[i] != (a + b)[j] {
      assert i < |a| ==> (a + b)[i] in a;
      assert j >= |a| ==> (a + b)[j] in b;
    }
  }

  lemma {:induction false} OffersDistinct<S>(m: Model<S>, o: Options, n: Node<S>, pids: seq<int>)
    requires Distinct(pids)
    ensures Distinct(OffersOf(m, o, n, pids))
  {
    if pids != [] {
      var front, pid := pids[..|pids| - 1], pids[|pids| - 1];
      OffersDistinct(m, o, n, front);
      OffersOwn(m, o, n, pid);
      assert pid !in front;
      forall c | c in OffersOf(m, o, n, front) ensures c !in Offers(m, o, n, pid) {
        OffersExactly(m, o, n, front, c);
      }
      DistinctConcat(OffersOf(m, o, n, front), Offers(m, o, n, pid));
    }
  }

  lemma {:induction false} PermitDistinct<S>(m: Model<S>, o: Options, n: Node<S>, choices: seq<Choice>)
    requires Distinct(choices)
    ensures Distinct(Permit(m, o, n, choices))
  {
    if choices != [] {
      var front, c := choices[..|choices| - 1], choices[|choices| - 1];
      PermitDistinct(m, o, n, front);
      PermitExactly(m, o, n, front, c);
      assert c !in front;
      DistinctConcat(Permit(m, o, n, front), if Permitted(m, o, n, c) then [c] else []);
    }
  }

  /** No choice is offered twice. */
  lemma AllowedDistinct<S>(m: Model<S>, o: Options, n: Node<S>)
    requires Distinct(m.live(n.s))
    ensures Distinct(Allowed(m, o, n))
  {
    OffersDistinct(m, o, n, m.live(n.s));
    PermitDistinct(m, o, n, OffersOf(m, o, n, m.live(n.s)));
  }
}

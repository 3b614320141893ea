/**
 * The explorer: a depth-first search that replays every schedule from scratch
 * and is driven only by a stack of choices. It is proved to visit every leaf
 * of the bounded choice tree, in lexicographic order, once each.
 */
module Explorer {
  import opened Wrappers
  import opened ExplorerTree
  import opened ExplorerSpec

  datatype Entry = Entry(index: nat, count: nat)

  // ---- the choice stack ----

  /** The stack spells a path of the tree, and remembers how many choices each node offered. */
  ghost predicate Sound<S>(m: Model<S>, o: Options, stack: seq<Entry>, path: seq<nat>) {
    && |stack| == |path| && IsPath(m, o, path)
    && forall d: nat :: d < |stack| ==> EntryAt(m, o, stack[d], path, d)
  }

  ghost predicate EntryAt<S>(m: Model<S>, o: Options, entry: Entry, path: seq<nat>, d: nat) {
    && d < |path| && entry.index == path[d]
    && GoesOn(m, o, path, d) && entry.count == |Allowed(m, o, At(m, o, path[..d]))|
  }

  lemma EntryOfFront<S>(m: Model<S>, o: Options, entry: Entry, path: seq<nat>, d: nat, length: nat)
    requires d < length <= |path|
    ensures EntryAt(m, o, entry, path, d) <==> EntryAt(m, o, entry, path[..length], d)
  {
    assert path[..length][..d] == path[..d];
  }

  lemma SoundFront<S>(m: Model<S>, o: Options, stack: seq<Entry>, path: seq<nat>, length: nat)
    requires Sound(m, o, stack, path) && length <= |stack|
    ensures Sound(m, o, stack[..length], path[..length])
  {
    if length < |stack| {
      assert EntryAt(m, o, stack[length], path, length);
    } else {
      assert path[..length] == path;
    }
    forall d: nat | d < length ensures EntryAt(m, o, stack[d], path[..length], d) {
      EntryOfFront(m, o, stack[d], path, d, length);
    }
  }

  lemma SoundPush<S>(m: Model<S>, o: Options, stack: seq<Entry>, path: seq<nat>, entry: Entry)
    requires Sound(m, o, stack, path) && !Ended(m, At(m, o, path))
    requires entry.index < entry.count == |Allowed(m, o, At(m, o, path))|
    ensures Sound(m, o, stack + [entry], path + [entry.index])
  {
    var longer := path + [entry.index];
    assert longer[..|path|] == path;
    PathExtends(m, o, path, entry.index);
    forall d: nat | d < |stack| ensures EntryAt(m, o, stack[d], longer, d) {
      EntryOfFront(m, o, stack[d], longer, d, |path|);
    }
  }

  // ---- how the frontier moves ----

  /** The leaves visited so far: each once, in order, and exactly those before the frontier. */
  ghost predicate VisitedBefore<S>(m: Model<S>, o: Options, visited: seq<seq<nat>>, frontier: seq<nat>) {
    forall leaf :: IsLeaf(m, o, leaf) ==> (leaf in visited <==> Before(leaf, frontier))
  }

  ghost predicate InOrder<S>(m: Model<S>, o: Options, visited: seq<seq<nat>>) {
    && (forall leaf :: leaf in visited ==> IsLeaf(m, o, leaf))
    && (forall i, j :: 0 <= i < j < |visited| ==> Before(visited[i], visited[j]))
  }

  /** Replaying a frontier takes the first choice below it, which nothing comes before. */
  lemma FirstBelow(frontier: seq<nat>, leaf: seq<nat>, other: seq<nat>)
    requires FirstFrom(frontier, leaf)
    ensures Before(other, leaf) <==> Before(other, frontier)
  {
    if Before(other, leaf) {
      var k: nat :| TurnsAt(other, leaf, k);
      assert leaf[..k] == frontier[..k];
      assert TurnsAt(other, frontier, k);
    }
    if Before(other, frontier) {
      var k: nat :| TurnsAt(other, frontier, k);
      assert leaf[..k] == frontier[..k];
      assert TurnsAt(other, leaf, k);
    }
  }

  /** The path takes the last choice offered at depth `d`. */
  ghost predicate TakesLast<S>(m: Model<S>, o: Options, path: seq<nat>, d: nat) {
    d < |path| && GoesOn(m, o, path, d) && path[d] + 1 >= |Allowed(m, o, At(m, o, path[..d]))|
  }

  ghost predicate LastFrom<S>(m: Model<S>, o: Options, path: seq<nat>, from: nat) {
    forall d: nat :: from <= d < |path| ==> TakesLast(m, o, path, d)
  }

  lemma LastIsLast<S>(m: Model<S>, o: Options, leaf: seq<nat>, other: seq<nat>, k: nat)
    requires IsPath(m, o, other) && TurnsAt(leaf, other, k)
    ensures !TakesLast(m, o, leaf, k)
  {
    PathGoesOn(m, o, other, k);
  }

  lemma AgreeUpTo(a: seq<nat>, b: seq<nat>, from: nat, k: nat)
    requires k < from <= |a| && from <= |b| && a[..from] == b[..from]
    ensures a[k] == b[k]
  {
    assert a[k] == a[..from][k] && b[k] == b[..from][k];
  }

  /** When a leaf takes the last choice everywhere from some depth, no leaf of that subtree comes after it. */
  lemma NothingAfter<S>(m: Model<S>, o: Options, leaf: seq<nat>, other: seq<nat>, from: nat)
    requires IsLeaf(m, o, leaf) && IsLeaf(m, o, other) && other != leaf
    requires LastFrom(m, o, leaf, from)
    requires from <= |leaf| && from <= |other| && leaf[..from] == other[..from]
    ensures Before(other, leaf)
  {
    LeavesAreOrdered(m, o, leaf, other);
    if Before(leaf, other) {
      var k: nat :| TurnsAt(leaf, other, k);
      LastIsLast(m, o, leaf, other, k);
      assert k < from;
      AgreeUpTo(leaf, other, from, k);
      assert false;
    }
  }

  lemma AdvanceCovers(leaf: seq<nat>, frontier: seq<nat>, other: seq<nat>)
    requires 0 < |frontier| <= |leaf| && frontier == Bumped(leaf, |frontier|)
    requires Before(other, leaf) || other == leaf
    ensures Before(other, frontier)
  {
    var j := |frontier| - 1;
    if other == leaf {
      assert TurnsAt(other, frontier, j);
    } else {
      var k: nat :| TurnsAt(other, leaf, k);
      if k <= j {
        assert frontier[..k] == leaf[..k];
        assert TurnsAt(other, frontier, k);
      } else {
        AgreeBelow(other, leaf, k, j);
        assert TurnsAt(other, frontier, j);
      }
    }
  }

  lemma AgreeBelow(a: seq<nat>, b: seq<nat>, k: nat, j: nat)
    requires j < k <= |a| && k <= |b| && a[..k] == b[..k]
    ensures a[j] == b[j] && a[..j] == b[..j]
  {
    AgreeUpTo(a, b, k, j);
    assert a[..j] == a[..k][..j] && b[..j] == b[..k][..j];
  }

  /** Moving the frontier past an exhausted subtree leaves just that leaf behind it. */
  lemma Advances<S>(m: Model<S>, o: Options, leaf: seq<nat>, frontier: seq<nat>, other: seq<nat>)
    requires IsLeaf(m, o, leaf) && IsLeaf(m, o, other)
    requires 0 < |frontier| <= |leaf|
    requires frontier == Bumped(leaf, |frontier|)
    requires LastFrom(m, o, leaf, |frontier|)
    ensures Before(other, frontier) <==> Before(other, leaf) || other == leaf
  {
    if Before(other, leaf) || other == leaf {
      AdvanceCovers(leaf, frontier, other);
    } else if Before(other, frontier) {
      AdvanceIsTight(m, o, leaf, frontier, other);
    }
  }

  lemma AdvanceIsTight<S>(m: Model<S>, o: Options, leaf: seq<nat>, frontier: seq<nat>, other: seq<nat>)
    requires IsLeaf(m, o, leaf) && IsLeaf(m, o, other) && other != leaf
    requires 0 < |frontier| <= |leaf|
    requires frontier == Bumped(leaf, |frontier|)
    requires LastFrom(m, o, leaf, |frontier|) && Before(other, frontier)
    ensures Before(other, leaf)
  {
    var j := |frontier| - 1;
    var k: nat :| TurnsAt(other, frontier, k);
    assert k <= j;
    assert frontier[..k] == leaf[..k];
    if k < j || other[k] < leaf[k] {
      assert TurnsAt(other, leaf, k);
    } else {
      assert other[..j + 1] == other[..j] + [other[j]] && leaf[..j + 1] == leaf[..j] + [leaf[j]];
      NothingAfter(m, o, leaf, other, j + 1);
    }
  }

  // ---- the search ----

  /** The choices of one node, gathered live process by live process. */
  method ListChoices<S>(m: Model<S>, o: Options, n: Node<S>) returns (choices: seq<Choice>)
    ensures choices == OffersOf(m, o, n, m.live(n.s))
  {
    choices := [];
    var live := m.live(n.s);
    for i := 0 to |live|
      invariant choices == OffersOf(m, o, n, live[..i])
    {
      if m.running(n.s, live[i]) {
        choices := choices + [Finish(live[i], true)];
        if o.runFail { choices := choices + [Finish(live[i], false)]; }
      } else {
        choices := choices + [Move(live[i])];
      }
      if n.crashesLeft > 0 { choices := choices + [Crash(live[i])]; }
      assert live[..i + 1][..i] == live[..i];
    }
    assert live[..|live|] == live;
  }

  /** The replay stands at depth `depth` of the stack's path. */
  ghost predicate Stands<S>(m: Model<S>, o: Options, path: seq<nat>, depth: nat, n: Node<S>) {
    depth <= |path| && IsPath(m, o, path[..depth]) && n == At(m, o, path[..depth])
  }

  /** The stack is a path: wherever it has an entry, the schedule goes on through it. */
  lemma Descends<S>(m: Model<S>, o: Options, entry: Entry, path: seq<nat>, depth: nat, n: Node<S>)
    requires Stands(m, o, path, depth, n) && EntryAt(m, o, entry, path, depth)
    ensures !Ended(m, n) && entry.index < |Allowed(m, o, n)|
    ensures Stands(m, o, path, depth + 1, After(m, n, Allowed(m, o, n)[entry.index]))
  {
    PathExtends(m, o, path[..depth], entry.index);
    assert path[..depth + 1] == path[..depth] + [entry.index];
  }

  /** Past the end of the stack a first choice is pushed. */
  lemma Pushes<S>(m: Model<S>, o: Options, stack: seq<Entry>, path: seq<nat>, n: Node<S>)
    requires Sound(m, o, stack, path) && Stands(m, o, path, |path|, n) && !Ended(m, n)
    ensures
      var entry := Entry(0, |Allowed(m, o, n)|);
      Sound(m, o, stack + [entry], path + [0]) && Stands(m, o, path + [0], |path|, n)
  {
    assert path[..|path|] == path && (path + [0])[..|path|] == path;
    NeverStuck(m, o, n);
    SoundPush(m, o, stack, path, Entry(0, |Allowed(m, o, n)|));
  }

  /** `leaf` goes on from `frontier` with first choices only. */
  ghost predicate FirstFrom(frontier: seq<nat>, leaf: seq<nat>) {
    && |frontier| <= |leaf| && leaf[..|frontier|] == frontier
    && forall d :: |frontier| <= d < |leaf| ==> leaf[d] == 0
  }

  lemma FirstFromMore(frontier: seq<nat>, leaf: seq<nat>)
    requires FirstFrom(frontier, leaf)
    ensures FirstFrom(frontier, leaf + [0])
  {
    assert (leaf + [0])[..|frontier|] == leaf[..|frontier|];
  }

  function Pushed(stack: seq<Entry>, depth: nat, count: nat): seq<Entry> {
    if depth == |stack| then stack + [Entry(0, count)] else stack
  }

  function PushedPath(leaf: seq<nat>, depth: nat): seq<nat> {
    if depth == |leaf| then leaf + [0] else leaf
  }

  ghost predicate Replaying<S>(
    m: Model<S>, o: Options, frontier: seq<nat>, stack: seq<Entry>, leaf: seq<nat>, depth: nat, n: Node<S>)
  {
    && Sound(m, o, stack, leaf) && Stands(m, o, leaf, depth, n)
    && FirstFrom(frontier, leaf) && (|leaf| > |frontier| ==> depth == |leaf|)
  }

  lemma SoundEntry<S>(m: Model<S>, o: Options, stack: seq<Entry>, path: seq<nat>, d: nat)
    requires Sound(m, o, stack, path) && d < |stack|
    ensures EntryAt(m, o, stack[d], path, d)
  {
  }

  lemma RootStands<S>(m: Model<S>, o: Options, frontier: seq<nat>, stack: seq<Entry>)
    requires Sound(m, o, stack, frontier)
    ensures Replaying(m, o, frontier, stack, frontier, 0, Root(m, o))
  {
    assert frontier[..0] == [];
  }

  /** A choice read from the stack, or pushed onto it, takes the replay one node down. */
  lemma Chooses<S>(
    m: Model<S>, o: Options, frontier: seq<nat>, stack: seq<Entry>, leaf: seq<nat>, depth: nat, n: Node<S>)
    requires Replaying(m, o, frontier, stack, leaf, depth, n) && !Ended(m, n)
    ensures
      var longer := Pushed(stack, depth, |Allowed(m, o, n)|);
      && depth < |longer| && longer[depth].index < |Allowed(m, o, n)|
      && Replaying(m, o, frontier, longer, PushedPath(leaf, depth), depth + 1,
                   After(m, n, Allowed(m, o, n)[longer[depth].index]))
  {
    var longer, path := Pushed(stack, depth, |Allowed(m, o, n)|), PushedPath(leaf, depth);
    if depth == |stack| {
      Pushes(m, o, stack, leaf, n);
      FirstFromMore(frontier, leaf);
    }
    SoundEntry(m, o, longer, path, depth);
    Descends(m, o, longer[depth], path, depth, n);
  }

  /** A schedule that ends is a leaf, and the whole stack was used. */
  lemma EndsAtLeaf<S>(
    m: Model<S>, o: Options, frontier: seq<nat>, stack: seq<Entry>, leaf: seq<nat>, depth: nat, n: Node<S>)
    requires Replaying(m, o, frontier, stack, leaf, depth, n) && Ended(m, n)
    ensures IsLeaf(m, o, leaf) && n == At(m, o, leaf)
  {
    if depth < |stack| {
      SoundEntry(m, o, stack, leaf, depth);
      Descends(m, o, stack[depth], leaf, depth, n);
    }
    assert leaf[..depth] == leaf;
  }

  /** Replays one schedule from scratch: the stack's choices, then first choices to the end. */
  method Replay<S>(m: Model<S>, o: Options, prefix: seq<Entry>, ghost frontier: seq<nat>)
    returns (stack: seq<Entry>, n: Node<S>, ghost leaf: seq<nat>)
    requires Sound(m, o, prefix, frontier)
    ensures Ended(m, n) && |prefix| <= |stack|
    ensures Sound(m, o, stack, leaf) && IsLeaf(m, o, leaf) && n == At(m, o, leaf)
    ensures FirstFrom(frontier, leaf)
  {
    stack, n, leaf := prefix, Root(m, o), frontier;
    var depth := 0;
    RootStands(m, o, frontier, stack);
    while !Pruned(m, n) && m.live(n.s) != [] && n.steps < STEP_CAP
      invariant Replaying(m, o, frontier, stack, leaf, depth, n)
      decreases STEP_CAP - n.steps
    {
      var choices := ListChoices(m, o, n);
      var allowed := Permit(m, o, n, choices);
      Chooses(m, o, frontier, stack, leaf, depth, n);
      if depth == |stack| { stack := stack + [Entry(0, |allowed|)]; }
      leaf := PushedPath(leaf, depth);
      n := After(m, n, allowed[stack[depth].index]);
      depth := depth + 1;
    }
    EndsAtLeaf(m, o, frontier, stack, leaf, depth, n);
  }

  lemma DropsLast<S>(m: Model<S>, o: Options, entry: Entry, path: seq<nat>, d: nat)
    requires EntryAt(m, o, entry, path, d) && entry.index + 1 >= entry.count && LastFrom(m, o, path, d + 1)
    ensures LastFrom(m, o, path, d)
  {
    assert TakesLast(m, o, path, d);
  }

  function Bumped(path: seq<nat>, length: nat): seq<nat>
    requires 0 < length <= |path|
  {
    path[..length - 1] + [path[length - 1] + 1]
  }

  lemma SoundBump<S>(m: Model<S>, o: Options, front: seq<Entry>, top: Entry, path: seq<nat>, length: nat)
    requires 0 < length <= |path| && Sound(m, o, front, path[..length - 1])
    requires EntryAt(m, o, top, path, length - 1) && top.index + 1 < top.count
    ensures Sound(m, o, front + [top.(index := top.index + 1)], Bumped(path, length))
  {
    SoundPush(m, o, front, path[..length - 1], top.(index := top.index + 1));
  }

  /** The next frontier: the front of the stack, and its top entry moved on. */
  lemma BumpsStack<S>(m: Model<S>, o: Options, full: seq<Entry>, path: seq<nat>, stack: seq<Entry>)
    requires Sound(m, o, full, path) && 0 < |stack| <= |full| && stack == full[..|stack|]
    requires stack[|stack| - 1].index + 1 < stack[|stack| - 1].count
    ensures
      var top := stack[|stack| - 1];
      |stack| <= |path| &&
      Sound(m, o, stack[..|stack| - 1] + [top.(index := top.index + 1)], Bumped(path, |stack|))
  {
    var length := |stack|;
    SoundFront(m, o, full, path, length - 1);
    SoundEntry(m, o, full, path, length - 1);
    assert stack[..length - 1] == full[..length - 1];
    SoundBump(m, o, full[..length - 1], full[length - 1], path, length);
  }

  /** Drops the choices that have no alternative left. */
  method DropExhausted<S>(ghost m: Model<S>, ghost o: Options, full: seq<Entry>, ghost leaf: seq<nat>)
    returns (stack: seq<Entry>)
    requires Sound(m, o, full, leaf)
    ensures |stack| <= |full| && stack == full[..|stack|] && LastFrom(m, o, leaf, |stack|)
    ensures stack != [] ==> stack[|stack| - 1].index + 1 < stack[|stack| - 1].count
  {
    stack := full;
    while |stack| > 0 && stack[|stack| - 1].index + 1 >= stack[|stack| - 1].count
      invariant |stack| <= |full| && stack == full[..|stack|]
      invariant LastFrom(m, o, leaf, |stack|)
    {
      SoundEntry(m, o, full, leaf, |stack| - 1);
      DropsLast(m, o, full[|stack| - 1], leaf, |stack| - 1);
      stack := stack[..|stack| - 1];
    }
  }

  /** Drops the choices with no alternative left, and moves the last one that has one: the next schedule to replay. */
  method Backtrack<S>(ghost m: Model<S>, ghost o: Options, full: seq<Entry>, ghost leaf: seq<nat>)
    returns (stack: seq<Entry>, ghost frontier: seq<nat>)
    requires Sound(m, o, full, leaf)
    ensures |stack| <= |leaf| && Sound(m, o, stack, frontier) && LastFrom(m, o, leaf, |stack|)
    ensures stack != [] ==> frontier == Bumped(leaf, |stack|)
  {
    stack := DropExhausted(m, o, full, leaf);
    if stack == [] {
      SoundFront(m, o, full, leaf, 0);
      frontier := [];
    } else {
      BumpsStack(m, o, full, leaf, stack);
      frontier := Bumped(leaf, |stack|);
      var top := stack[|stack| - 1];
      var bumped := stack[..|stack| - 1] + [top.(index := top.index + 1)];
      assert |bumped| == |stack|;
      stack := bumped;
    }
  }

  /** Visiting the first leaf at the frontier keeps the order. */
  lemma Visits<S>(m: Model<S>, o: Options, visited: seq<seq<nat>>, frontier: seq<nat>, leaf: seq<nat>)
    requires InOrder(m, o, visited) && VisitedBefore(m, o, visited, frontier) && IsLeaf(m, o, leaf)
    requires FirstFrom(frontier, leaf)
    ensures leaf !in visited && InOrder(m, o, visited + [leaf])
    ensures forall other :: IsLeaf(m, o, other) ==>
      (other in visited + [leaf] <==> Before(other, leaf) || other == leaf)
  {
    forall other | IsLeaf(m, o, other) ensures other in visited <==> Before(other, leaf) {
      FirstBelow(frontier, leaf, other);
    }
    forall i, j | 0 <= i < j < |visited + [leaf]| ensures Before((visited + [leaf])[i], (visited + [leaf])[j]) {
      assert visited[i] in visited;
    }
  }

  /** There is always another leaf at the frontier. */
  lemma {:induction false} LeafBelow<S>(m: Model<S>, o: Options, path: seq<nat>) returns (leaf: seq<nat>)
    requires IsPath(m, o, path)
    ensures IsLeaf(m, o, leaf) && |path| <= |leaf| && leaf[..|path|] == path
    decreases STEP_CAP - |path|
  {
    leaf := path;
    if !Ended(m, At(m, o, path)) {
      NeverStuck(m, o, At(m, o, path));
      PathExtends(m, o, path, 0);
      leaf := LeafBelow(m, o, path + [0]);
      assert leaf[..|path|] == leaf[..|path| + 1][..|path|];
    }
  }

  lemma BeforeTrans(a: seq<nat>, b: seq<nat>, c: seq<nat>)
    requires Before(a, b) && Before(b, c)
    ensures Before(a, c)
  {
    var i: nat :| TurnsAt(a, b, i);
    var j: nat :| TurnsAt(b, c, j);
    var k := if i < j then i else j;
    assert a[..k] == a[..i][..k] && b[..k] == b[..i][..k] && b[..k] == b[..j][..k] && c[..k] == c[..j][..k];
    assert i < j ==> b[..j][i] == c[..j][i];
    assert j < i ==> a[..i][j] == b[..i][j];
    assert TurnsAt(a, c, k);
  }

  // ---- the search between two schedules ----

  /** Every leaf is either visited or unseen. */
  ghost predicate Splits<S>(m: Model<S>, o: Options, visited: seq<seq<nat>>, unseen: set<seq<nat>>) {
    && (forall leaf :: leaf in unseen <==> IsLeaf(m, o, leaf) && leaf !in visited)
    && |visited| + |unseen| == |Leaves(m, o)|
  }

  ghost predicate Recorded<S>(m: Model<S>, o: Options, r: Report, visited: seq<seq<nat>>, unseen: set<seq<nat>>) {
    InOrder(m, o, visited) && Accounts(m, o, r, visited) && Splits(m, o, visited, unseen)
  }

  /** The leaves visited are exactly `leaf` and those before it. */
  ghost predicate VisitedUpTo<S>(m: Model<S>, o: Options, visited: seq<seq<nat>>, leaf: seq<nat>) {
    forall other :: IsLeaf(m, o, other) ==> (other in visited <==> Before(other, leaf) || other == leaf)
  }

  /** Nothing visited comes after a leaf that was skipped. */
  ghost predicate NoneSkipped<S>(m: Model<S>, o: Options, visited: seq<seq<nat>>) {
    forall leaf, later :: IsLeaf(m, o, leaf) && later in visited && Before(leaf, later) ==> leaf in visited
  }

  function Recording<S>(m: Model<S>, o: Options, r: Report, n: Node<S>): Report {
    Report(if Pruned(m, n) then r.leaves else r.leaves + 1,
           if Pruned(m, n) then r.pruned + 1 else r.pruned,
           r.capped,
           Counted(r.violations, Kinds(m, o, n)))
  }

  lemma Records<S>(m: Model<S>, o: Options, r: Report, visited: seq<seq<nat>>, unseen: set<seq<nat>>,
                   frontier: seq<nat>, leaf: seq<nat>)
    requires Recorded(m, o, r, visited, unseen) && VisitedBefore(m, o, visited, frontier) && IsLeaf(m, o, leaf)
    requires FirstFrom(frontier, leaf)
    ensures Recorded(m, o, Recording(m, o, r, At(m, o, leaf)), visited + [leaf], unseen - {leaf})
    ensures leaf in unseen && VisitedUpTo(m, o, visited + [leaf], leaf)
  {
    Visits(m, o, visited, frontier, leaf);
    AccountsFor(m, o, r, visited, leaf, Recording(m, o, r, At(m, o, leaf)));
  }

  /** A leaf that takes every last choice is the last leaf. */
  lemma Exhausts<S>(m: Model<S>, o: Options, visited: seq<seq<nat>>, unseen: set<seq<nat>>, leaf: seq<nat>)
    requires IsLeaf(m, o, leaf) && LastFrom(m, o, leaf, 0)
    requires VisitedUpTo(m, o, visited, leaf) && Splits(m, o, visited, unseen)
    ensures |visited| == |Leaves(m, o)| && forall other :: IsLeaf(m, o, other) ==> other in visited
  {
    forall other | IsLeaf(m, o, other) ensures other in visited {
      if other != leaf { NothingAfter(m, o, leaf, other, 0); }
    }
    assert unseen == {};
  }

  lemma MovesOn<S>(m: Model<S>, o: Options, visited: seq<seq<nat>>, leaf: seq<nat>, frontier: seq<nat>)
    requires IsLeaf(m, o, leaf) && 0 < |frontier| <= |leaf|
    requires frontier == Bumped(leaf, |frontier|)
    requires LastFrom(m, o, leaf, |frontier|) && VisitedUpTo(m, o, visited, leaf)
    ensures VisitedBefore(m, o, visited, frontier)
  {
    forall other | IsLeaf(m, o, other) ensures other in visited <==> Before(other, frontier) {
      Advances(m, o, leaf, frontier, other);
    }
  }

  /** While the stack is not exhausted, some leaf is still to come, and none was skipped. */
  lemma Unfinished<S>(m: Model<S>, o: Options, visited: seq<seq<nat>>, unseen: set<seq<nat>>, frontier: seq<nat>)
    requires IsPath(m, o, frontier) && VisitedBefore(m, o, visited, frontier)
    requires InOrder(m, o, visited) && Splits(m, o, visited, unseen)
    ensures |visited| < |Leaves(m, o)| && NoneSkipped(m, o, visited)
  {
    var leaf := LeafBelow(m, o, frontier);
    forall k: nat ensures !TurnsAt(leaf, frontier, k) {
      assert k < |frontier| ==> leaf[..|frontier|][k] == frontier[k];
    }
    assert leaf in unseen;
    forall earlier, later | IsLeaf(m, o, earlier) && later in visited && Before(earlier, later)
      ensures earlier in visited
    {
      BeforeTrans(earlier, later, frontier);
    }
  }

  lemma Capped<S>(m: Model<S>, o: Options, r: Report, visited: seq<seq<nat>>, unseen: set<seq<nat>>, frontier: seq<nat>)
    requires Recorded(m, o, r, visited, unseen) && VisitedBefore(m, o, visited, frontier) && IsPath(m, o, frontier)
    ensures |visited| < |Leaves(m, o)| && NoneSkipped(m, o, visited)
    ensures Recorded(m, o, r.(capped := true), visited, unseen)
  {
    Unfinished(m, o, visited, unseen, frontier);
  }

  function Limit(o: Options, all: nat): nat {
    if o.maxSchedules.None? || all <= o.maxSchedules.value then all
    else if o.maxSchedules.value == 0 then 1
    else o.maxSchedules.value
  }

  lemma Begins<S>(m: Model<S>, o: Options)
    ensures Sound(m, o, [], []) && VisitedBefore(m, o, [], [])
    ensures Recorded(m, o, Report(0, 0, false, map[]), [], Leaves(m, o))
  {
  }

  method Enter<S>(m: Model<S>, o: Options, r: Report, n: Node<S>) returns (r': Report)
    ensures r' == Recording(m, o, r, n)
  {
    r' := r;
    if Pruned(m, n) {
      r' := r'.(pruned := r'.pruned + 1);
    } else {
      r' := r'.(leaves := r'.leaves + 1);
    }
    r' := r'.(violations := Counted(r'.violations, Kinds(m, o, n)));
  }

  /** Replays the schedule at the frontier and enters it in the report. */
  method Visit<S>(m: Model<S>, o: Options, stack: seq<Entry>, r: Report, ghost frontier: seq<nat>,
                  ghost visited: seq<seq<nat>>, ghost unseen: set<seq<nat>>)
    returns (full: seq<Entry>, r': Report, ghost leaf: seq<nat>)
    requires Sound(m, o, stack, frontier)
    requires Recorded(m, o, r, visited, unseen) && VisitedBefore(m, o, visited, frontier)
    ensures Sound(m, o, full, leaf) && IsLeaf(m, o, leaf) && leaf in unseen
    ensures r' == Recording(m, o, r, At(m, o, leaf))
    ensures Recorded(m, o, r', visited + [leaf], unseen - {leaf}) && VisitedUpTo(m, o, visited + [leaf], leaf)
  {
    var n;
    full, n, leaf := Replay(m, o, stack, frontier);
    Records(m, o, r, visited, unseen, frontier, leaf);
    r' := Enter(m, o, r, n);
  }

  /**
   * Explores every schedule. Without a limit on their number, the schedules
   * visited are exactly the leaves of the tree, in strict lexicographic order;
   * a limit stops the search after that many, and says so when leaves remain.
   * The report tallies what the visited schedules show.
   */
  method Explore<S>(m: Model<S>, o: Options) returns (r: Report, ghost visited: seq<seq<nat>>)
    ensures InOrder(m, o, visited) && NoneSkipped(m, o, visited) && Accounts(m, o, r, visited)
    ensures !r.capped ==> forall leaf :: IsLeaf(m, o, leaf) ==> leaf in visited
    ensures r.capped <==> r.leaves + r.pruned < |Leaves(m, o)|
    ensures r.leaves + r.pruned == Limit(o, |Leaves(m, o)|)
  {
    var stack: seq<Entry> := [];
    r := Report(0, 0, false, map[]);
    visited := [];
    ghost var unseen, frontier := Leaves(m, o), [];
    Begins(m, o);
    while true
      invariant Sound(m, o, stack, frontier) && !r.capped
      invariant Recorded(m, o, r, visited, unseen) && VisitedBefore(m, o, visited, frontier)
      invariant o.maxSchedules.Some? && visited != [] ==> |visited| < o.maxSchedules.value
      decreases |unseen|
    {
      ghost var leaf;
      var full;
      full, r, leaf := Visit(m, o, stack, r, frontier, visited, unseen);
      visited, unseen := visited + [leaf], unseen - {leaf};
      stack, frontier := Backtrack(m, o, full, leaf);
      if stack == [] {
        Exhausts(m, o, visited, unseen, leaf);
        break;
      }
      MovesOn(m, o, visited, leaf, frontier);
      if o.maxSchedules.Some? && r.leaves + r.pruned >= o.maxSchedules.value {
        Capped(m, o, r, visited, unseen, frontier);
        r := r.(capped := true);
        break;
      }
    }
  }
}

/**
 * Where the characters of scrubbed text come from. Every character is followed
 * through the replacements, so that what is left of a secret can be stated:
 * nothing, when no other occurrence of a secret as long overlaps it.
 */
module RedactionTrace {
  import opened Wrappers
  import opened Redaction

  /**
   * A character, and the place in the input it was copied from; the
   * placeholder's come from nowhere, and `nth` is their place in it.
   */
  datatype Cell = Cell(c: char, from: Option<nat>, nth: nat)

  const STARS: seq<Cell> := [Cell('*', None, 0), Cell('*', None, 1), Cell('*', None, 2)]

  predicate MatchesAt(cells: seq<Cell>, v: string, i: int) {
    0 <= i && i + |v| <= |cells| && forall j :: 0 <= j < |v| ==> cells[i + j].c == v[j]
  }

  function ReplaceCells(cells: seq<Cell>, v: string): seq<Cell>
    requires v != ""
  {
    if |cells| < |v| then cells
    else if MatchesAt(cells, v, 0) then STARS + ReplaceCells(cells[|v|..], v)
    else [cells[0]] + ReplaceCells(cells[1..], v)
  }

  function ReplaceEachCell(cells: seq<Cell>, values: seq<string>): seq<Cell>
    requires AllNonEmpty(values)
    decreases |values|
  {
    if values == [] then cells else ReplaceEachCell(ReplaceCells(cells, values[0]), values[1..])
  }

  function Labelled(text: string, at: nat): (cells: seq<Cell>)
    ensures |cells| == |text|
    ensures forall i :: 0 <= i < |cells| ==> cells[i] == Cell(text[i], Some(at + i), 0)
  {
    if text == "" then [] else [Cell(text[0], Some(at), 0)] + Labelled(text[1..], at + 1)
  }

  /** The scrubbed text with the origin of each of its characters. */
  function Trace(text: string, secrets: seq<string>): seq<Cell> {
    ReplaceEachCell(Labelled(text, 0), Prepare(secrets))
  }

  function Chars(cells: seq<Cell>): (text: string)
    ensures |text| == |cells| && forall i :: 0 <= i < |cells| ==> text[i] == cells[i].c
  {
    if cells == [] then "" else [cells[0].c] + Chars(cells[1..])
  }

  // ---- the trace follows the text ----

  lemma CharsFrom(cells: seq<Cell>, k: nat)
    requires k <= |cells|
    ensures Chars(cells[k..]) == Chars(cells)[k..]
  {
  }

  lemma CharsConcat(a: seq<Cell>, b: seq<Cell>)
    ensures Chars(a + b) == Chars(a) + Chars(b)
  {
  }

  lemma StartsAlike(cells: seq<Cell>, v: string)
    requires |v| <= |cells|
    ensures MatchesAt(cells, v, 0) <==> Chars(cells)[..|v|] == v
  {
    if MatchesAt(cells, v, 0) {
      assert forall j :: 0 <= j < |v| ==> cells[0 + j].c == v[j];
    } else {
      var j :| 0 <= j < |v| && cells[0 + j].c != v[j];
      assert Chars(cells)[..|v|][j] != v[j];
    }
  }

  lemma {:induction false} TraceOfReplace(cells: seq<Cell>, v: string)
    requires v != ""
    ensures Chars(ReplaceCells(cells, v)) == Replace(Chars(cells), v)
  {
    if |cells| >= |v| {
      StartsAlike(cells, v);
      if MatchesAt(cells, v, 0) {
        TraceOfReplace(cells[|v|..], v);
        CharsFrom(cells, |v|);
        CharsConcat(STARS, ReplaceCells(cells[|v|..], v));
        assert Chars(STARS) == REDACTED;
      } else {
        TraceOfReplace(cells[1..], v);
        CharsFrom(cells, 1);
        CharsConcat([cells[0]], ReplaceCells(cells[1..], v));
        assert Chars([cells[0]]) == [cells[0].c];
      }
    }
  }

  lemma {:induction false} TraceOfEach(cells: seq<Cell>, values: seq<string>)
    requires AllNonEmpty(values)
    ensures Chars(ReplaceEachCell(cells, values)) == ReplaceEach(Chars(cells), values)
    decreases |values|
  {
    if values != [] {
      TraceOfReplace(cells, values[0]);
      TraceOfEach(ReplaceCells(cells, values[0]), values[1..]);
    }
  }

  lemma {:induction false} TraceFollowsText(text: string, secrets: seq<string>)
    ensures Chars(Trace(text, secrets)) == Apply(text, secrets)
  {
    TraceOfEach(Labelled(text, 0), Prepare(secrets));
    assert Chars(Labelled(text, 0)) == text;
    if secrets == [] { assert Prepare(secrets) == []; }
  }

  // ---- cells copied from the input stay in order, and neighbours stay neighbours ----

  ghost predicate Faithful(text: string, cells: seq<Cell>) {
    forall i :: 0 <= i < |cells| ==>
      if cells[i].from.Some? then cells[i].from.value < |text| && cells[i].c == text[cells[i].from.value]
      else cells[i].c == '*' && cells[i].nth < 3
  }

  ghost predicate Contiguous(cells: seq<Cell>) {
    forall i :: 0 <= i < |cells| - 1 && cells[i].from.Some? && cells[i + 1].from.Some? ==>
      cells[i + 1].from.value == cells[i].from.value + 1
  }

  ghost predicate Ascending(cells: seq<Cell>) {
    forall i, j :: 0 <= i < j < |cells| && cells[i].from.Some? && cells[j].from.Some? ==>
      cells[i].from.value < cells[j].from.value
  }

  ghost predicate Traced(text: string, cells: seq<Cell>) {
    Faithful(text, cells) && Contiguous(cells) && Ascending(cells)
  }

  lemma TracedFrom(text: string, cells: seq<Cell>, k: nat)
    requires Traced(text, cells) && k <= |cells|
    ensures Traced(text, cells[k..])
  {
    var rest := cells[k..];
    assert forall i :: 0 <= i < |rest| ==> rest[i] == cells[i + k];
  }

  /** A replacement only drops cells and adds stars. */
  lemma {:induction false} NoNewCells(cells: seq<Cell>, v: string)
    requires v != ""
    ensures forall cell :: cell in ReplaceCells(cells, v) && cell.from.Some? ==> cell in cells
    ensures var out := ReplaceCells(cells, v);
      (out == [] <==> cells == []) && (out != [] ==> out[0] == STARS[0] || out[0] == cells[0])
  {
    if |cells| >= |v| {
      if MatchesAt(cells, v, 0) { NoNewCells(cells[|v|..], v); } else { NoNewCells(cells[1..], v); }
    }
  }

  lemma TracedCons(text: string, cell: Cell, rest: seq<Cell>)
    requires Traced(text, rest) && Faithful(text, [cell])
    requires rest != [] && cell.from.Some? && rest[0].from.Some? ==> rest[0].from.value == cell.from.value + 1
    requires forall other :: other in rest && other.from.Some? && cell.from.Some? ==> cell.from.value < other.from.value
    ensures Traced(text, [cell] + rest)
  {
    var all := [cell] + rest;
    assert forall i :: 0 < i < |all| ==> all[i] == rest[i - 1] && rest[i - 1] in rest;
    assert [cell][0] == cell;
  }

  lemma {:induction false} TracedKept(text: string, cells: seq<Cell>, v: string)
    requires v != "" && Traced(text, cells)
    ensures Traced(text, ReplaceCells(cells, v))
  {
    if |cells| >= |v| {
      if MatchesAt(cells, v, 0) {
        TracedFrom(text, cells, |v|);
        TracedKept(text, cells[|v|..], v);
        var rest := ReplaceCells(cells[|v|..], v);
        TracedCons(text, STARS[2], rest);
        TracedCons(text, STARS[1], [STARS[2]] + rest);
        TracedCons(text, STARS[0], [STARS[1]] + ([STARS[2]] + rest));
        assert STARS + rest == [STARS[0]] + ([STARS[1]] + ([STARS[2]] + rest));
      } else {
        TracedFrom(text, cells, 1);
        TracedKept(text, cells[1..], v);
        NoNewCells(cells[1..], v);
        TracedCons(text, cells[0], ReplaceCells(cells[1..], v));
      }
    }
  }

  // ---- placeholders stay whole ----

  predicate Star(cell: Cell, n: nat) {
    cell.from.None? && cell.nth == n
  }

  /** Beside a star stand the others of its placeholder, but for those cut off at the front. */
  predicate Joined(cells: seq<Cell>, i: int)
    requires 0 <= i < |cells|
  {
    cells[i].from.None? ==>
      && (cells[i].nth < 2 ==> i + 1 < |cells| && Star(cells[i + 1], cells[i].nth + 1))
      && (i > 0 && cells[i].nth > 0 ==> Star(cells[i - 1], cells[i].nth - 1))
  }

  ghost predicate Whole(cells: seq<Cell>) {
    forall i :: 0 <= i < |cells| ==> Joined(cells, i)
  }

  lemma WholeFrom(cells: seq<Cell>, k: nat)
    requires Whole(cells) && k <= |cells|
    ensures Whole(cells[k..])
  {
    forall i | 0 <= i < |cells[k..]| ensures Joined(cells[k..], i) { assert Joined(cells, i + k); }
  }

  /** Going left from a star among matched cells, its placeholder's first star comes up, or the first cell. */
  lemma {:induction false} StarsBack(cells: seq<Cell>, i: nat, j: nat)
    requires Whole(cells) && i + j < |cells| && cells[i + j].from.None?
    ensures
      var n := cells[i + j].nth;
      if j >= n then Star(cells[i + j - n], 0) else Star(cells[i], n - j)
    decreases j
  {
    assert Joined(cells, i + j);
    if j > 0 && cells[i + j].nth > 0 { StarsBack(cells, i, j - 1); }
  }

  /** A match of a safe secret holds no star of a placeholder. */
  lemma NoStarMatched(text: string, cells: seq<Cell>, w: string, i: nat, j: nat)
    requires Traced(text, cells) && Whole(cells) && MatchesAt(cells, w, i) && Safe(w) && j < |w|
    ensures cells[i + j].from.Some?
  {
    if cells[i + j].from.None? {
      StarsBack(cells, i, j);
      var n := cells[i + j].nth;
      assert cells[i + 0].c == w[0];
      assert j >= n;
      WholePlaceholder(text, cells, w, i, j - n);
    }
  }

  /** A placeholder that begins in a match either outlasts it, so that it ends in a star, or is part of it. */
  lemma WholePlaceholder(text: string, cells: seq<Cell>, w: string, i: nat, k: nat)
    requires Traced(text, cells) && Whole(cells) && MatchesAt(cells, w, i) && k < |w| && Star(cells[i + k], 0)
    ensures !Safe(w)
  {
    assert Joined(cells, i + k) && Joined(cells, i + k + 1);
    assert cells[i + k].c == w[k] == '*';
    if k + 1 < |w| { assert cells[i + (k + 1)].c == w[k + 1] == '*'; }
    if k + 2 < |w| {
      assert cells[i + (k + 2)].c == w[k + 2] == '*';
      assert w[k..k + 3] == REDACTED;
      assert Occurs(w, REDACTED, k);
    }
  }

  predicate Adjoins(cell: Cell, rest: seq<Cell>) {
    && (cell.from.None? && cell.nth < 2 ==> rest != [] && Star(rest[0], cell.nth + 1))
    && (rest != [] && rest[0].from.None? && rest[0].nth > 0 ==> Star(cell, rest[0].nth - 1))
  }

  lemma WholeCons(cell: Cell, rest: seq<Cell>)
    requires Whole(rest) && Adjoins(cell, rest)
    ensures Whole([cell] + rest)
  {
    var all := [cell] + rest;
    forall i | 0 <= i < |all| ensures Joined(all, i) {
      if i > 0 { assert Joined(rest, i - 1); }
    }
  }

  lemma WholeBehindStars(rest: seq<Cell>)
    requires Whole(rest) && (rest != [] ==> rest[0].from.Some? || rest[0].nth == 0)
    ensures Whole(STARS + rest)
  {
    WholeCons(STARS[2], rest);
    WholeCons(STARS[1], [STARS[2]] + rest);
    WholeCons(STARS[0], [STARS[1]] + ([STARS[2]] + rest));
    assert STARS + rest == [STARS[0]] + ([STARS[1]] + ([STARS[2]] + rest));
  }

  /** What follows a match of a safe value begins no placeholder in the middle. */
  lemma NoneCutOff(text: string, cells: seq<Cell>, w: string)
    requires Traced(text, cells) && Whole(cells) && MatchesAt(cells, w, 0) && Safe(w) && |w| < |cells|
    ensures cells[|w|].from.Some? || cells[|w|].nth == 0
  {
    NoStarMatched(text, cells, w, 0, |w| - 1);
    assert Joined(cells, |w|);
  }

  /** Replacing a safe value takes no placeholder apart. */
  lemma {:induction false} WholeKept(text: string, cells: seq<Cell>, w: string)
    requires Traced(text, cells) && Whole(cells) && Safe(w)
    ensures Whole(ReplaceCells(cells, w))
  {
    if |cells| >= |w| {
      if MatchesAt(cells, w, 0) {
        var rest := cells[|w|..];
        TracedFrom(text, cells, |w|);
        WholeFrom(cells, |w|);
        WholeKept(text, rest, w);
        NoNewCells(rest, w);
        if rest != [] { NoneCutOff(text, cells, w); }
        WholeBehindStars(ReplaceCells(rest, w));
      } else {
        var rest := cells[1..];
        TracedFrom(text, cells, 1);
        WholeFrom(cells, 1);
        WholeKept(text, rest, w);
        StaysAdjoined(text, cells, w);
        WholeCons(cells[0], ReplaceCells(rest, w));
      }
    }
  }

  /** No match of a safe value begins at a star, so a star keeps its neighbour. */
  lemma StaysAdjoined(text: string, cells: seq<Cell>, w: string)
    requires Traced(text, cells) && Whole(cells) && Safe(w) && cells != []
    ensures Adjoins(cells[0], ReplaceCells(cells[1..], w))
  {
    var rest := cells[1..];
    NoNewCells(rest, w);
    TracedFrom(text, cells, 1);
    assert Joined(cells, 0);
    if rest != [] {
      assert Joined(cells, 1);
      if rest[0].from.None? { StarBeginsNoMatch(text, rest, w); }
    }
  }

  lemma StarBeginsNoMatch(text: string, cells: seq<Cell>, w: string)
    requires Traced(text, cells) && Safe(w) && cells != [] && cells[0].from.None?
    ensures !MatchesAt(cells, w, 0)
  {
    if |w| <= |cells| { assert cells[0 + 0].c != w[0]; }
  }

  // ---- a match of a safe secret is an occurrence in the input ----

  lemma {:induction false} MatchIsCopied(text: string, cells: seq<Cell>, w: string, i: nat, j: nat)
    requires Traced(text, cells) && Whole(cells) && MatchesAt(cells, w, i) && Safe(w) && j < |w|
    ensures cells[i].from.Some? && cells[i + j].from == Some(cells[i].from.value + j)
  {
    NoStarMatched(text, cells, w, i, 0);
    NoStarMatched(text, cells, w, i, j);
    if j > 0 { MatchIsCopied(text, cells, w, i, j - 1); }
  }

  lemma MatchOccurs(text: string, cells: seq<Cell>, w: string, i: nat)
    requires Traced(text, cells) && Whole(cells) && MatchesAt(cells, w, i) && Safe(w)
    ensures cells[i].from.Some? && Occurs(text, w, cells[i].from.value)
  {
    MatchIsCopied(text, cells, w, i, 0);
    var at := cells[i].from.value;
    forall j | 0 <= j < |w| ensures at + j < |text| && text[at + j] == w[j] {
      MatchIsCopied(text, cells, w, i, j);
      assert cells[i + j].c == w[j];
    }
    MatchIsCopied(text, cells, w, i, |w| - 1);
    assert cells[i + (|w| - 1)].from.value < |text|;
    assert text[at..at + |w|] == w;
  }

  // ---- an occurrence nothing else touches ----

  /** The `n` input characters from `at` on are in the text still, side by side from place `p` on. */
  ghost predicate IntactAt(cells: seq<Cell>, at: nat, n: nat, p: int) {
    0 <= p && p + n <= |cells| && forall i :: p <= i < p + n ==> cells[i].from == Some(at + (i - p))
  }

  predicate Overlap(i: int, n: int, k: int, m: int) {
    i < k + m && k < i + n
  }

  /** No match of `w` touches the block at `p`. */
  ghost predicate Untouched(cells: seq<Cell>, w: string, p: int, n: nat) {
    forall q :: MatchesAt(cells, w, q) ==> !Overlap(q, |w|, p, n)
  }

  lemma UntouchedFrom(cells: seq<Cell>, w: string, p: int, n: nat, k: nat)
    requires Untouched(cells, w, p, n) && k <= |cells|
    ensures Untouched(cells[k..], w, p - k, n)
  {
    forall q | MatchesAt(cells[k..], w, q) ensures !Overlap(q, |w|, p - k, n) {
      assert forall i :: 0 <= i < |cells[k..]| ==> cells[k..][i] == cells[i + k];
      assert MatchesAt(cells, w, q + k);
    }
  }

  lemma IntactFrom(cells: seq<Cell>, at: nat, n: nat, p: nat, k: nat)
    requires IntactAt(cells, at, n, p) && k <= p
    ensures IntactAt(cells[k..], at, n, p - k)
  {
  }

  lemma IntactBehind(front: seq<Cell>, cells: seq<Cell>, at: nat, n: nat, p: nat)
    requires IntactAt(cells, at, n, p)
    ensures IntactAt(front + cells, at, n, p + |front|)
  {
    assert forall i :: 0 <= i < |cells| ==> (front + cells)[i + |front|] == cells[i];
  }

  /** A block that no match touches is copied whole. */
  lemma {:induction false} IntactKept(cells: seq<Cell>, w: string, at: nat, n: nat, p: nat) returns (p': nat)
    requires w != "" && n > 0 && IntactAt(cells, at, n, p) && Untouched(cells, w, p, n)
    ensures IntactAt(ReplaceCells(cells, w), at, n, p')
    decreases |cells|
  {
    if |cells| < |w| {
      p' := p;
    } else if MatchesAt(cells, w, 0) {
      assert !Overlap(0, |w|, p, n);
      UntouchedFrom(cells, w, p, n, |w|);
      IntactFrom(cells, at, n, p, |w|);
      p' := IntactKept(cells[|w|..], w, at, n, p - |w|);
      IntactBehind(STARS, ReplaceCells(cells[|w|..], w), at, n, p');
      p' := p' + |STARS|;
    } else if p > 0 {
      UntouchedFrom(cells, w, p, n, 1);
      IntactFrom(cells, at, n, p, 1);
      p' := IntactKept(cells[1..], w, at, n, p - 1);
      IntactBehind([cells[0]], ReplaceCells(cells[1..], w), at, n, p');
      p' := p' + 1;
    } else {
      StartsIntact(cells, w, at, n);
      p' := 0;
    }
  }

  lemma {:induction false} StartsIntact(cells: seq<Cell>, w: string, at: nat, n: nat)
    requires w != "" && IntactAt(cells, at, n, 0) && Untouched(cells, w, 0, n)
    ensures IntactAt(ReplaceCells(cells, w), at, n, 0)
    decreases n
  {
    if n > 0 && |cells| >= |w| {
      assert !MatchesAt(cells, w, 0);
      UntouchedFrom(cells, w, 0, n, 1);
      forall q | MatchesAt(cells[1..], w, q) ensures !Overlap(q, |w|, 0, n - 1) {
        assert !Overlap(q, |w|, -1, n);
      }
      assert IntactAt(cells[1..], at + 1, n - 1, 0);
      StartsIntact(cells[1..], w, at + 1, n - 1);
      var rest := ReplaceCells(cells[1..], w);
      assert forall j :: 0 < j < n ==> ([cells[0]] + rest)[j] == rest[j - 1];
    }
  }

  /** No cell of the block is in the text. */
  ghost predicate Gone(cells: seq<Cell>, at: nat, n: nat) {
    forall cell :: cell in cells && cell.from.Some? ==> !(at <= cell.from.value < at + n)
  }

  lemma AfterBlockGone(text: string, cells: seq<Cell>, at: nat, n: nat)
    requires Traced(text, cells) && n > 0 && IntactAt(cells, at, n, 0)
    ensures Gone(cells[n..], at, n)
  {
    assert cells[n - 1].from == Some(at + (n - 1));
    forall cell | cell in cells[n..] && cell.from.Some? ensures !(at <= cell.from.value < at + n) {
      var k :| 0 <= k < |cells[n..]| && cells[n..][k] == cell;
      assert cells[n - 1].from.value < cells[k + n].from.value;
    }
  }

  /** The match at `p` is the only match of `v` near it. */
  ghost predicate Lone(cells: seq<Cell>, v: string, p: int) {
    forall q :: MatchesAt(cells, v, q) && q != p ==> !Overlap(q, |v|, p, |v|)
  }

  lemma LoneFrom(text: string, cells: seq<Cell>, v: string, at: nat, p: int, k: nat)
    requires Traced(text, cells) && MatchesAt(cells, v, p) && IntactAt(cells, at, |v|, p) && Lone(cells, v, p)
    requires k <= p
    ensures Traced(text, cells[k..]) && MatchesAt(cells[k..], v, p - k)
    ensures IntactAt(cells[k..], at, |v|, p - k) && Lone(cells[k..], v, p - k)
  {
    var rest := cells[k..];
    assert forall i :: 0 <= i < |rest| ==> rest[i] == cells[i + k];
    TracedFrom(text, cells, k);
    forall q | MatchesAt(rest, v, q) && q != p - k ensures !Overlap(q, |v|, p - k, |v|) {
      assert MatchesAt(cells, v, q + k);
    }
  }

  lemma BeforeBlock(text: string, cells: seq<Cell>, at: nat, n: nat, p: nat)
    requires Traced(text, cells) && IntactAt(cells, at, n, p) && 0 < p && 0 < n
    ensures cells[0].from.Some? ==> cells[0].from.value < at
  {
    assert cells[p].from == Some(at + (p - p));
  }

  lemma GoneBehind(front: seq<Cell>, cells: seq<Cell>, at: nat, n: nat)
    requires Gone(front, at, n) && Gone(cells, at, n)
    ensures Gone(front + cells, at, n)
  {
  }

  lemma FrontMatchGoes(text: string, cells: seq<Cell>, v: string, at: nat)
    requires Traced(text, cells) && v != "" && MatchesAt(cells, v, 0) && IntactAt(cells, at, |v|, 0)
    ensures Gone(ReplaceCells(cells, v), at, |v|)
  {
    AfterBlockGone(text, cells, at, |v|);
    NoNewCells(cells[|v|..], v);
    GoneBehind(STARS, ReplaceCells(cells[|v|..], v), at, |v|);
  }

  /** A match that no other match touches is replaced: none of its characters stays. */
  lemma {:induction false} MatchGoes(text: string, cells: seq<Cell>, v: string, at: nat, p: nat)
    requires Traced(text, cells) && v != "" && MatchesAt(cells, v, p) && IntactAt(cells, at, |v|, p)
    requires Lone(cells, v, p)
    ensures Gone(ReplaceCells(cells, v), at, |v|)
    decreases |cells|
  {
    if p == 0 {
      FrontMatchGoes(text, cells, v, at);
    } else {
      var k := if MatchesAt(cells, v, 0) then |v| else 1;
      assert MatchesAt(cells, v, 0) ==> !Overlap(0, |v|, p, |v|);
      LoneFrom(text, cells, v, at, p, k);
      MatchGoes(text, cells[k..], v, at, p - k);
      BeforeBlock(text, cells, at, |v|, p);
      GoneBehind(if MatchesAt(cells, v, 0) then STARS else [cells[0]], ReplaceCells(cells[k..], v), at, |v|);
    }
  }

  lemma {:induction false} GoneStays(cells: seq<Cell>, values: seq<string>, at: nat, n: nat)
    requires AllNonEmpty(values) && Gone(cells, at, n)
    ensures Gone(ReplaceEachCell(cells, values), at, n)
    decreases |values|
  {
    if values != [] {
      NoNewCells(cells, values[0]);
      GoneStays(ReplaceCells(cells, values[0]), values[1..], at, n);
    }
  }

  /** No other occurrence of a secret as long as `v` overlaps `v`'s occurrence at `at`. */
  ghost predicate Isolated(text: string, values: seq<string>, v: string, at: nat) {
    forall w, k :: w in values && |w| >= |v| && Occurs(text, w, k) && Overlap(k, |w|, at, |v|) ==> w == v && k == at
  }

  lemma MatchesElsewhere(text: string, cells: seq<Cell>, values: seq<string>, v: string, at: nat, p: nat, w: string, q: int)
    requires Traced(text, cells) && Whole(cells) && IntactAt(cells, at, |v|, p) && Isolated(text, values, v, at)
    requires v != "" && w in values && Safe(w) && |w| >= |v|
    requires MatchesAt(cells, w, q) && Overlap(q, |w|, p, |v|)
    ensures w == v && q == p
  {
    MatchOccurs(text, cells, w, q);
    var k := cells[q].from.value;
    var shared := if q < p then p else q;
    MatchIsCopied(text, cells, w, q, shared - q);
    assert cells[shared].from == Some(at + (shared - p));
    assert k + (shared - q) == at + (shared - p);
    assert Overlap(k, |w|, at, |v|);
  }

  lemma {:induction false} IsolatedGoes(
    text: string, cells: seq<Cell>, values: seq<string>, all: seq<string>, v: string, at: nat, p: nat)
    requires Traced(text, cells) && Whole(cells) && IntactAt(cells, at, |v|, p) && Isolated(text, all, v, at)
    requires AllNonEmpty(values) && LongestFirst(values) && v in values
    requires forall w :: w in values ==> w in all && (|w| >= |v| ==> Safe(w))
    requires Occurs(text, v, at)
    ensures Gone(ReplaceEachCell(cells, values), at, |v|)
    decreases |values|
  {
    var w := values[0];
    assert w in values && values[0] != "";
    var next := ReplaceCells(cells, w);
    assert values == [w] + values[1..];
    if w == v {
      BlockMatches(text, cells, v, at, p);
      forall q | MatchesAt(cells, v, q) && q != p ensures !Overlap(q, |v|, p, |v|) {
        if Overlap(q, |v|, p, |v|) { MatchesElsewhere(text, cells, all, v, at, p, v, q); }
      }
      MatchGoes(text, cells, v, at, p);
      GoneStays(next, values[1..], at, |v|);
    } else {
      var i :| 0 <= i < |values| && values[i] == v;
      assert |w| >= |v| && v != "";
      forall q | MatchesAt(cells, w, q) ensures !Overlap(q, |w|, p, |v|) {
        if Overlap(q, |w|, p, |v|) { MatchesElsewhere(text, cells, all, v, at, p, w, q); }
      }
      var p' := IntactKept(cells, w, at, |v|, p);
      TracedKept(text, cells, w);
      WholeKept(text, cells, w);
      IsolatedGoes(text, next, values[1..], all, v, at, p');
    }
  }

  lemma BlockMatches(text: string, cells: seq<Cell>, v: string, at: nat, p: nat)
    requires Traced(text, cells) && IntactAt(cells, at, |v|, p) && Occurs(text, v, at)
    ensures MatchesAt(cells, v, p)
  {
    forall j | 0 <= j < |v| ensures cells[p + j].c == v[j] {
      assert cells[p + j].from == Some(at + j);
      assert text[at..at + |v|][j] == text[at + j];
    }
  }

  /**
   * An occurrence of a secret that overlaps no other occurrence of an equally
   * long or longer one leaves none of its characters in the scrubbed text.
   * Longest-first is what makes this so: a shorter secret inside it is too late.
   */
  lemma NoCharacterSurvives(text: string, secrets: seq<string>, v: string, at: nat)
    requires forall w :: w in secrets && |w| >= |v| ==> Safe(w)
    requires v in secrets && v != "" && Occurs(text, v, at) && Isolated(text, secrets, v, at)
    ensures Chars(Trace(text, secrets)) == Apply(text, secrets)
    ensures Gone(Trace(text, secrets), at, |v|)
  {
    TraceFollowsText(text, secrets);
    IsolatedGone(text, secrets, v, at);
  }

  lemma IsolatedGone(text: string, secrets: seq<string>, v: string, at: nat)
    requires forall w :: w in secrets && |w| >= |v| ==> Safe(w)
    requires v in secrets && v != "" && Occurs(text, v, at) && Isolated(text, secrets, v, at)
    ensures Gone(Trace(text, secrets), at, |v|)
  {
    var cells, values := Labelled(text, 0), Prepare(secrets);
    assert Traced(text, cells) && IntactAt(cells, at, |v|, at);
    IsolatedGoes(text, cells, values, secrets, v, at, at);
  }
}

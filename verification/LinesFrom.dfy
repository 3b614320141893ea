/** Splitting a growing text into lines, snapshot by snapshot. */
module LinesFrom {
  import opened Wrappers

  /** Everything a stream carried so far, and whether it has ended. */
  datatype Captured = Captured(text: string, done: bool)

  /** The index of the first newline at or after `from`, or -1. */
  function IndexOfNewline(text: string, from: nat): (i: int)
    requires from <= |text|
    ensures i == -1 || from <= i < |text|
    decreases |text| - from
  {
    if from == |text| then -1 else if text[from] == '\n' then from else IndexOfNewline(text, from + 1)
  }

  lemma {:induction false} IsFirstNewline(text: string, from: nat)
    requires from <= |text|
    ensures
      var i := IndexOfNewline(text, from);
      && (i != -1 ==> text[i] == '\n')
      && forall k :: from <= k < (if i == -1 then |text| else i) ==> text[k] != '\n'
    decreases |text| - from
  {
    if from < |text| && text[from] != '\n' { IsFirstNewline(text, from + 1); }
  }

  function WithoutReturn(line: string): string {
    if line != "" && line[|line| - 1] == '\r' then line[..|line| - 1] else line
  }

  // ---- splitting a text once ----

  /** The pieces between newlines: one more than there are newlines. */
  function Pieces(text: string, from: nat): (pieces: seq<string>)
    requires from <= |text|
    ensures |pieces| > 0
    decreases |text| - from
  {
    var nl := IndexOfNewline(text, from);
    if nl == -1 then [text[from..]] else [text[from..nl]] + Pieces(text, nl + 1)
  }

  /** Pieces put back with a newline between them. */
  function Joined(pieces: seq<string>): string
    requires pieces != []
  {
    if |pieces| == 1 then pieces[0] else pieces[0] + "\n" + Joined(pieces[1..])
  }

  lemma JoinedCons(first: string, rest: seq<string>)
    requires rest != []
    ensures Joined([first] + rest) == first + "\n" + Joined(rest)
  {
    assert ([first] + rest)[1..] == rest;
  }

  lemma SplitAt(text: string, from: nat, nl: nat)
    requires from <= nl < |text| && text[nl] == '\n'
    ensures text[from..] == text[from..nl] + "\n" + text[nl + 1..]
  {
  }

  /** Splitting loses nothing: the pieces put back are the text. */
  lemma {:induction false} PiecesJoin(text: string, from: nat)
    requires from <= |text|
    ensures Joined(Pieces(text, from)) == text[from..]
    decreases |text| - from
  {
    var nl := IndexOfNewline(text, from);
    if nl != -1 {
      PiecesJoin(text, nl + 1);
      IsFirstNewline(text, from);
      JoinedCons(text[from..nl], Pieces(text, nl + 1));
      SplitAt(text, from, nl);
    }
  }

  lemma NoNewlineIn(text: string, from: nat, to: nat)
    requires from <= to <= |text| && forall k :: from <= k < to ==> text[k] != '\n'
    ensures '\n' !in text[from..to]
  {
  }

  /** No piece holds a newline. */
  lemma {:induction false} PiecesHoldNoNewline(text: string, from: nat, i: nat)
    requires from <= |text| && i < |Pieces(text, from)|
    ensures '\n' !in Pieces(text, from)[i]
    decreases |text| - from
  {
    var nl := IndexOfNewline(text, from);
    IsFirstNewline(text, from);
    if nl == -1 {
      NoNewlineIn(text, from, |text|);
      assert text[from..|text|] == text[from..];
    } else if i == 0 {
      NoNewlineIn(text, from, nl);
    } else {
      PiecesHoldNoNewline(text, nl + 1, i - 1);
    }
  }

  // ---- the lines ----

  /** The terminated lines from `from` on, each without the return before its newline. */
  function Terminated(text: string, from: nat): seq<string>
    requires from <= |text|
    decreases |text| - from
  {
    var nl := IndexOfNewline(text, from);
    if nl == -1 then [] else [WithoutReturn(text[from..nl])] + Terminated(text, nl + 1)
  }

  /** Where the last line, which no newline ends, begins. */
  function LastStart(text: string, from: nat): (start: nat)
    requires from <= |text|
    ensures from <= start <= |text|
    decreases |text| - from
  {
    var nl := IndexOfNewline(text, from);
    if nl == -1 then from else LastStart(text, nl + 1)
  }

  /** The unterminated last line, if it holds anything. */
  function LastLine(text: string, from: nat): seq<string>
    requires from <= |text|
  {
    if LastStart(text, from) == |text| then [] else [text[LastStart(text, from)..]]
  }

  /** The lines of a finished text: the terminated ones, and an unterminated last one as it is. */
  function LinesOf(text: string): seq<string> {
    Terminated(text, 0) + LastLine(text, 0)
  }

  function EachWithoutReturn(lines: seq<string>): seq<string> {
    if lines == [] then [] else [WithoutReturn(lines[0])] + EachWithoutReturn(lines[1..])
  }

  lemma EachOfCons(line: string, rest: seq<string>)
    ensures EachWithoutReturn([line] + rest) == [WithoutReturn(line)] + EachWithoutReturn(rest)
  {
    assert ([line] + rest)[1..] == rest;
  }

  function Front(pieces: seq<string>): seq<string>
    requires pieces != []
  {
    pieces[..|pieces| - 1]
  }

  lemma PiecesCons(text: string, from: nat)
    requires from <= |text| && IndexOfNewline(text, from) != -1
    ensures
      var nl := IndexOfNewline(text, from);
      && Front(Pieces(text, from)) == [text[from..nl]] + Front(Pieces(text, nl + 1))
      && Pieces(text, from)[|Pieces(text, from)| - 1] == Pieces(text, nl + 1)[|Pieces(text, nl + 1)| - 1]
  {
  }

  /** The terminated lines are the pieces but the last. */
  lemma {:induction false} LinesArePieces(text: string, from: nat)
    requires from <= |text|
    ensures Terminated(text, from) == EachWithoutReturn(Front(Pieces(text, from)))
    decreases |text| - from
  {
    var nl := IndexOfNewline(text, from);
    if nl != -1 {
      LinesArePieces(text, nl + 1);
      PiecesCons(text, from);
      EachOfCons(text[from..nl], Front(Pieces(text, nl + 1)));
    }
  }

  /** What follows the last newline is the last piece. */
  lemma {:induction false} RestIsLastPiece(text: string, from: nat)
    requires from <= |text|
    ensures text[LastStart(text, from)..] == Pieces(text, from)[|Pieces(text, from)| - 1]
    decreases |text| - from
  {
    var nl := IndexOfNewline(text, from);
    if nl != -1 {
      RestIsLastPiece(text, nl + 1);
      PiecesCons(text, from);
    }
  }

  // ---- the lines, told from the text alone ----

  /** The pieces hold no newline, and put back with newlines between them they are the text. */
  predicate Splits(pieces: seq<string>, text: string) {
    pieces != [] && (forall i :: 0 <= i < |pieces| ==> '\n' !in pieces[i]) && Joined(pieces) == text
  }

  /** The line is the piece without the one return at its end, or the piece itself when there is none. */
  predicate DropsReturn(piece: string, line: string) {
    if piece != "" && piece[|piece| - 1] == '\r' then piece == line + "\r" else line == piece
  }

  /** The lines are the pieces before the last, each without the return at its end. */
  predicate AreFront(lines: seq<string>, pieces: seq<string>)
    requires pieces != []
  {
    |lines| == |pieces| - 1 && forall i :: 0 <= i < |lines| ==> DropsReturn(pieces[i], lines[i])
  }

  /** ... and then the last piece as it is, unless it is empty. */
  predicate AreAll(lines: seq<string>, pieces: seq<string>)
    requires pieces != []
  {
    var last := pieces[|pieces| - 1];
    if last == "" then AreFront(lines, pieces)
    else lines != [] && lines[|lines| - 1] == last && AreFront(lines[..|lines| - 1], pieces)
  }

  lemma FirstPiece(pieces: seq<string>, text: string, from: nat)
    requires from <= |text| && Splits(pieces, text[from..])
    ensures
      var nl := IndexOfNewline(text, from);
      if nl == -1 then |pieces| == 1 && pieces[0] == text[from..]
      else |pieces| > 1 && pieces[0] == text[from..nl] && Splits(pieces[1..], text[nl + 1..])
  {
    var nl := IndexOfNewline(text, from);
    IsFirstNewline(text, from);
    if |pieces| == 1 {
      forall k | from <= k < |text| ensures text[k] != '\n' {
        assert text[k] == pieces[0][k - from] && pieces[0][k - from] in pieces[0];
      }
    } else {
      var first, rest := pieces[0], Joined(pieces[1..]);
      assert text[from..] == first + "\n" + rest;
      assert text[from + |first|] == text[from..][|first|] == '\n';
      assert forall k :: from <= k < from + |first| ==> text[k] == first[k - from] && first[k - from] in first;
      assert nl == from + |first|;
      assert text[nl + 1..] == rest;
    }
  }

  /** A text splits in one way. */
  lemma {:induction false} SplitsOnce(pieces: seq<string>, text: string, from: nat)
    requires from <= |text| && Splits(pieces, text[from..])
    ensures pieces == Pieces(text, from)
    decreases |pieces|
  {
    FirstPiece(pieces, text, from);
    var nl := IndexOfNewline(text, from);
    if nl != -1 { SplitsOnce(pieces[1..], text, nl + 1); }
    FirstThenRest(pieces, text, from);
  }

  lemma FirstThenRest(pieces: seq<string>, text: string, from: nat)
    requires from <= |text| && pieces != []
    requires
      var nl := IndexOfNewline(text, from);
      if nl == -1 then pieces == [text[from..]] else pieces[0] == text[from..nl] && pieces[1..] == Pieces(text, nl + 1)
    ensures pieces == Pieces(text, from)
  {
    assert pieces == [pieces[0]] + pieces[1..];
  }

  /** ... and does split so. */
  lemma PiecesSplit(text: string, from: nat)
    requires from <= |text|
    ensures Splits(Pieces(text, from), text[from..])
  {
    PiecesJoin(text, from);
    forall i | 0 <= i < |Pieces(text, from)| ensures '\n' !in Pieces(text, from)[i] { PiecesHoldNoNewline(text, from, i); }
  }

  lemma ReturnDropped(piece: string)
    ensures DropsReturn(piece, WithoutReturn(piece))
  {
  }

  lemma {:induction false} EachDropsReturn(pieces: seq<string>)
    ensures |EachWithoutReturn(pieces)| == |pieces|
    ensures forall i :: 0 <= i < |pieces| ==> DropsReturn(pieces[i], EachWithoutReturn(pieces)[i])
  {
    if pieces != [] { EachDropsReturn(pieces[1..]); }
  }

  lemma TerminatedAreFront(text: string, from: nat, pieces: seq<string>)
    requires from <= |text| && Splits(pieces, text[from..])
    ensures AreFront(Terminated(text, from), pieces)
  {
    SplitsOnce(pieces, text, from);
    LinesArePieces(text, from);
    EachDropsReturn(Front(pieces));
  }

  /**
   * What a reader is shown of a text from `from` on: the pieces between newlines,
   * each but the last without the return at its end, and the last one as it is
   * once the text has ended, unless it is empty. It goes on where that last piece
   * begins, or past it.
   */
  ghost predicate ShowsPieces(captured: Captured, from: nat, lines: seq<string>, start: nat) {
    from <= |captured.text| &&
    forall pieces :: Splits(pieces, captured.text[from..]) ==>
      if captured.done then AreAll(lines, pieces) && start == |captured.text|
      else AreFront(lines, pieces) && start + |pieces[|pieces| - 1]| == |captured.text|
  }

  lemma LinesAreShown(captured: Captured, from: nat)
    requires from <= |captured.text|
    ensures ShowsPieces(captured, from, LinesAt(captured, from),
                        if captured.done then |captured.text| else LastStart(captured.text, from))
  {
    var text, lines := captured.text, Terminated(captured.text, from);
    forall pieces | Splits(pieces, text[from..])
      ensures
        && AreFront(lines, pieces) && LastStart(text, from) + |pieces[|pieces| - 1]| == |text|
        && (captured.done ==> AreAll(LinesAt(captured, from), pieces))
    {
      TerminatedAreFront(text, from, pieces);
      SplitsOnce(pieces, text, from);
      RestIsLastPiece(text, from);
      if captured.done && LastStart(text, from) < |text| {
        assert LinesAt(captured, from)[..|lines|] == lines;
      } else if captured.done {
        assert LinesAt(captured, from) == lines;
      }
    }
  }

  // ---- a snapshot is a beginning of the text ----

  predicate Begins(text: string, longer: string) {
    |text| <= |longer| && forall k :: 0 <= k < |text| ==> longer[k] == text[k]
  }

  lemma Assoc(a: seq<string>, b: seq<string>, c: seq<string>)
    ensures a + (b + c) == (a + b) + c
  {
  }

  lemma TerminatedCons(text: string, from: nat)
    requires from <= |text| && IndexOfNewline(text, from) != -1
    ensures
      var nl := IndexOfNewline(text, from);
      && Terminated(text, from) == [WithoutReturn(text[from..nl])] + Terminated(text, nl + 1)
      && LastStart(text, from) == LastStart(text, nl + 1)
  {
  }

  lemma {:induction false} NewlineStays(text: string, longer: string, from: nat)
    requires Begins(text, longer) && from <= |text| && IndexOfNewline(text, from) != -1
    ensures IndexOfNewline(longer, from) == IndexOfNewline(text, from)
    decreases |text| - from
  {
    if text[from] != '\n' { NewlineStays(text, longer, from + 1); }
  }

  lemma Shifted(line: string, whole: seq<string>, a: seq<string>, b: seq<string>)
    requires whole == a + b
    ensures [line] + whole == ([line] + a) + b
  {
  }

  lemma Unterminated(text: string, longer: string, from: nat)
    requires Begins(text, longer) && from <= |text| && IndexOfNewline(text, from) == -1
    ensures Terminated(longer, from) == Terminated(text, from) + Terminated(longer, LastStart(text, from))
    ensures LastStart(longer, from) == LastStart(longer, LastStart(text, from))
  {
  }

  /** Going on from where a shorter snapshot's last line began gives the longer text's lines. */
  lemma {:induction false} GoesOn(text: string, longer: string, from: nat)
    requires Begins(text, longer) && from <= |text|
    ensures Terminated(longer, from) == Terminated(text, from) + Terminated(longer, LastStart(text, from))
    ensures LastStart(longer, from) == LastStart(longer, LastStart(text, from))
    decreases |text| - from
  {
    var nl := IndexOfNewline(text, from);
    if nl == -1 {
      Unterminated(text, longer, from);
    } else {
      NewlineStays(text, longer, from);
      GoesOn(text, longer, nl + 1);
      LinesAlike(text, longer, from, nl);
      TerminatedCons(text, from);
      TerminatedCons(longer, from);
      Shifted(WithoutReturn(text[from..nl]), Terminated(longer, nl + 1), Terminated(text, nl + 1),
              Terminated(longer, LastStart(text, from)));
    }
  }

  lemma LinesAlike(text: string, longer: string, from: nat, nl: nat)
    requires Begins(text, longer) && from <= nl <= |text|
    ensures text[from..nl] == longer[from..nl]
  {
  }

  // ---- one call ----

  function Slice(text: string, from: nat, to: int): string
    requires from <= |text| && to <= |text|
  {
    if from <= to then text[from..to] else ""
  }

  lemma LineSlice(text: string, start: nat, end: nat)
    requires start <= end < |text|
    ensures Slice(text, start, if end > 0 && text[end - 1] == '\r' then end - 1 else end)
         == WithoutReturn(text[start..end])
  {
  }

  /** `lines` are the lines from `offset` up to `start`. */
  ghost predicate Reading(text: string, offset: nat, start: nat, lines: seq<string>) {
    && offset <= start <= |text|
    && Terminated(text, offset) == lines + Terminated(text, start)
    && LastStart(text, offset) == LastStart(text, start)
  }

  lemma ReadsNothing(text: string, offset: nat)
    requires offset <= |text|
    ensures Reading(text, offset, offset, [])
  {
  }

  lemma ReadsLine(text: string, offset: nat, start: nat, lines: seq<string>, end: nat)
    requires Reading(text, offset, start, lines) && end == IndexOfNewline(text, start)
    ensures Reading(text, offset, end + 1, lines + [WithoutReturn(text[start..end])])
  {
    TerminatedCons(text, start);
    Assoc(lines, [WithoutReturn(text[start..end])], Terminated(text, end + 1));
  }

  lemma ReadsRest(text: string, offset: nat, start: nat, lines: seq<string>)
    requires Reading(text, offset, start, lines) && IndexOfNewline(text, start) == -1
    ensures Terminated(text, offset) == lines && LastStart(text, offset) == start
  {
  }

  /** The lines a snapshot shows from `offset` on. */
  function LinesAt(captured: Captured, offset: nat): seq<string>
    requires offset <= |captured.text|
  {
    Terminated(captured.text, offset) + if captured.done then LastLine(captured.text, offset) else []
  }

  /** The complete lines of the text from `offset`, and the rest too once it has ended; with the offset after them. */
  method Read(offset: nat, captured: Captured) returns (start: nat, lines: seq<string>)
    requires offset <= |captured.text|
    ensures lines == LinesAt(captured, offset)
    ensures start == if captured.done then |captured.text| else LastStart(captured.text, offset)
    ensures ShowsPieces(captured, offset, lines, start)
  {
    LinesAreShown(captured, offset);
    var text := captured.text;
    lines, start := [], offset;
    var end := IndexOfNewline(text, start);
    ReadsNothing(text, offset);
    while end != -1
      invariant Reading(text, offset, start, lines) && end == IndexOfNewline(text, start)
      decreases |text| - start
    {
      LineSlice(text, start, end);
      ReadsLine(text, offset, start, lines, end);
      lines := lines + [Slice(text, start, if end > 0 && text[end - 1] == '\r' then end - 1 else end)];
      start := end + 1;
      end := IndexOfNewline(text, start);
    }
    ReadsRest(text, offset, start, lines);
    if captured.done && start < |text| {
      lines := lines + [text[start..]];
      start := |text|;
    }
  }

  // ---- every call ----

  predicate Growing(snapshots: seq<Captured>) {
    && (forall i :: 0 <= i < |snapshots| - 1 ==> !snapshots[i].done)
    && (forall i, j :: 0 <= i <= j < |snapshots| ==> Begins(snapshots[i].text, snapshots[j].text))
  }

  /** The reader has every line of the snapshot, and knows where its last line begins. */
  ghost predicate CaughtUp(captured: Captured, offset: nat, lines: seq<string>) {
    lines == LinesAt(captured, 0) && (!captured.done ==> offset == LastStart(captured.text, 0))
  }

  lemma CatchesUp(before: Captured, captured: Captured, offset: nat, lines: seq<string>, start: nat)
    requires Begins(before.text, captured.text) && !before.done && CaughtUp(before, offset, lines)
    requires start == if captured.done then |captured.text| else LastStart(captured.text, offset)
    ensures offset <= |captured.text| && CaughtUp(captured, start, lines + LinesAt(captured, offset))
  {
    GoesOn(before.text, captured.text, 0);
    assert lines == Terminated(before.text, 0);
    Assoc(lines, Terminated(captured.text, offset), if captured.done then LastLine(captured.text, offset) else []);
  }

  /**
   * The lines a reader gets, whatever snapshots it happened to see: once the
   * stream has ended they are the lines of the final text, split once.
   */
  method AllLines(snapshots: seq<Captured>) returns (lines: seq<string>)
    requires snapshots != [] && Growing(snapshots)
    ensures lines == LinesAt(snapshots[|snapshots| - 1], 0)
    ensures snapshots[|snapshots| - 1].done ==> lines == LinesOf(snapshots[|snapshots| - 1].text)
    ensures snapshots[|snapshots| - 1].done ==>
      forall pieces :: Splits(pieces, snapshots[|snapshots| - 1].text) ==> AreAll(lines, pieces)
  {
    var offset;
    offset, lines := Read(0, snapshots[0]);
    for i := 1 to |snapshots|
      invariant CaughtUp(snapshots[i - 1], offset, lines)
    {
      var last, more := offset, [];
      assert Begins(snapshots[i - 1].text, snapshots[i].text);
      CatchesUp(snapshots[i - 1], snapshots[i], last, lines,
                if snapshots[i].done then |snapshots[i].text| else LastStart(snapshots[i].text, last));
      offset, more := Read(last, snapshots[i]);
      lines := lines + more;
    }
    LinesAreShown(snapshots[|snapshots| - 1], 0);
    assert snapshots[|snapshots| - 1].text[0..] == snapshots[|snapshots| - 1].text;
  }
}

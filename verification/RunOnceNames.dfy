/**
 * The file names of the protocol as strings. A key may hold dots, so the files
 * of different keys share prefixes: the grammar must still be unambiguous, and
 * the name tests must accept the names of their own key and no other.
 */
module RunOnceNames {
  import opened Wrappers

  predicate IsNonce(text: string) {
    && |text| > 0 && text != "lock" && text != "done"
    && '.' !in text && '/' !in text && '\\' !in text
  }

  predicate IsDigits(text: string) {
    |text| > 0 && forall i :: 0 <= i < |text| ==> '0' <= text[i] <= '9'
  }

  /** The names the protocol produces for a key. */
  datatype FileName =
    | LockName
    | DoneName
    | TicketName(nonce: string)
    | OldBreakerName
    | TombName(nonce: string, renamedAt: string)
    | OldTombName(nonce: string, renamedAt: string)

  predicate WellNamed(f: FileName) {
    && (f.TicketName? || f.TombName? || f.OldTombName? ==> IsNonce(f.nonce))
    && (f.TombName? || f.OldTombName? ==> IsDigits(f.renamedAt))
  }

  function Spell(key: string, f: FileName): string {
    match f
    case LockName => key + ".lock"
    case DoneName => key + ".done"
    case TicketName(nonce) => key + ".lock.break." + nonce
    case OldBreakerName => key + ".lock.break"
    case TombName(nonce, at) => key + ".lock.tomb." + nonce + "." + at
    case OldTombName(nonce, at) => key + ".lock.break.tomb." + nonce + "." + at
  }

  // ---- the tests the protocol applies to a directory listing ----

  predicate StartsWith(text: string, prefix: string) {
    |prefix| <= |text| && text[..|prefix|] == prefix
  }

  /** Whether `name` is one of `key`'s breaker tickets, or its old breaker file. */
  predicate IsTicketName(key: string, name: string) {
    var legacy := key + ".lock.break";
    name == legacy || (StartsWith(name, legacy + ".") && IsNonce(name[|legacy| + 1..]))
  }

  /** The index of the last dot, or -1. */
  function LastDot(text: string): (i: int)
    ensures -1 <= i < |text|
    ensures i >= 0 ==> text[i] == '.'
  {
    if text == [] then -1
    else if text[|text| - 1] == '.' then |text| - 1
    else LastDot(text[..|text| - 1])
  }

  function TombPrefix(key: string, name: string): Option<string> {
    if StartsWith(name, key + ".lock.tomb.") then Some(key + ".lock.tomb.")
    else if StartsWith(name, key + ".lock.break.tomb.") then Some(key + ".lock.break.tomb.")
    else None
  }

  /** The rename time in the name of one of `key`'s tombs, or none when `name` is not one. */
  function TombRenamedAt(key: string, name: string): Option<string> {
    var prefix := TombPrefix(key, name);
    if prefix.None? then None
    else
      var rest := name[|prefix.value|..];
      var dot := LastDot(rest);
      if dot == -1 || !IsNonce(rest[..dot]) || !IsDigits(rest[dot + 1..]) then None else Some(rest[dot + 1..])
  }

  // ---- the grammar, one segment at a time ----

  /** A name is its segments, appended one by one behind a dot. */
  function Dotted(front: string, segment: string): string {
    front + "." + segment
  }

  function Segments(f: FileName): seq<string> {
    match f
    case LockName => ["lock"]
    case DoneName => ["done"]
    case TicketName(nonce) => ["lock", "break", nonce]
    case OldBreakerName => ["lock", "break"]
    case TombName(nonce, at) => ["lock", "tomb", nonce, at]
    case OldTombName(nonce, at) => ["lock", "break", "tomb", nonce, at]
  }

  function Joined(key: string, segments: seq<string>): string {
    if segments == [] then key else Dotted(Joined(key, segments[..|segments| - 1]), segments[|segments| - 1])
  }

  predicate Plain(segments: seq<string>) {
    forall i :: 0 <= i < |segments| ==> '.' !in segments[i]
  }

  /** The last segment of a name is determined by the name. */
  lemma DottedInjective(a: string, x: string, b: string, y: string)
    requires Dotted(a, x) == Dotted(b, y) && '.' !in x && '.' !in y
    ensures a == b && x == y
  {
    var name := Dotted(a, x);
    assert name[|a|] == '.' && name[|b|] == '.';
    assert x == name[|a| + 1..] && y == name[|b| + 1..];
    assert forall k :: |a| < k < |name| ==> name[k] == x[k - |a| - 1];
    assert forall k :: |b| < k < |name| ==> name[k] == y[k - |b| - 1];
    assert a == name[..|a|] && b == name[..|b|];
  }

  lemma Joined1(key: string, a: string)
    ensures Joined(key, [a]) == Dotted(key, a)
  {
    assert [a][..0] == [];
  }

  lemma Joined2(key: string, a: string, b: string)
    ensures Joined(key, [a, b]) == Dotted(Dotted(key, a), b)
  {
    Joined1(key, a);
    assert [a, b][..1] == [a];
  }

  lemma Joined3(key: string, a: string, b: string, c: string)
    ensures Joined(key, [a, b, c]) == Dotted(Dotted(Dotted(key, a), b), c)
  {
    Joined2(key, a, b);
    assert [a, b, c][..2] == [a, b];
  }

  lemma Joined4(key: string, a: string, b: string, c: string, d: string)
    ensures Joined(key, [a, b, c, d]) == Dotted(Dotted(Dotted(Dotted(key, a), b), c), d)
  {
    Joined3(key, a, b, c);
    assert [a, b, c, d][..3] == [a, b, c];
  }

  lemma Joined5(key: string, a: string, b: string, c: string, d: string, e: string)
    ensures Joined(key, [a, b, c, d, e]) == Dotted(Dotted(Dotted(Dotted(Dotted(key, a), b), c), d), e)
  {
    Joined4(key, a, b, c, d);
    assert [a, b, c, d, e][..4] == [a, b, c, d];
  }

  lemma SpellsFlat(key: string, nonce: string)
    ensures key + ".lock.break" == Dotted(Dotted(key, "lock"), "break")
    ensures key + ".lock.break." + nonce == Dotted(Dotted(Dotted(key, "lock"), "break"), nonce)
    ensures key + ".lock.tomb." + nonce == Dotted(Dotted(Dotted(key, "lock"), "tomb"), nonce)
    ensures key + ".lock.break.tomb." + nonce == Dotted(Dotted(Dotted(Dotted(key, "lock"), "break"), "tomb"), nonce)
  {
    var lock := Dotted(key, "lock");
    assert lock == key + ".lock";
    assert ".lock.break" == ".lock" + ".break" && ".lock.tomb." == ".lock" + ".tomb.";
    assert ".lock.break.tomb." == ".lock.break" + ".tomb." && ".lock.break." == ".lock.break" + ".";
    assert Dotted(lock, "break") == key + ".lock.break";
    assert Dotted(lock, "tomb") + "." == key + ".lock.tomb.";
  }

  lemma SpellIsJoined(key: string, f: FileName)
    ensures Spell(key, f) == Joined(key, Segments(f))
  {
    match f {
      case LockName => Joined1(key, "lock");
      case DoneName => Joined1(key, "done");
      case TicketName(nonce) =>
        SpellsFlat(key, nonce);
        Joined3(key, "lock", "break", nonce);
      case OldBreakerName =>
        SpellsFlat(key, "");
        Joined2(key, "lock", "break");
      case TombName(nonce, at) =>
        SpellsFlat(key, nonce);
        Joined4(key, "lock", "tomb", nonce, at);
      case OldTombName(nonce, at) =>
        SpellsFlat(key, nonce);
        Joined5(key, "lock", "break", "tomb", nonce, at);
    }
  }

  lemma SegmentsPlain(f: FileName)
    requires WellNamed(f)
    ensures Plain(Segments(f))
  {
  }

  /** The `i`th segment from the right. */
  function FromEnd(x: seq<string>, i: nat): string
    requires i < |x|
  {
    x[|x| - 1 - i]
  }

  /** Two joined names agree from the right, as far as both have segments. */
  lemma {:induction false} JoinedAgree(a: string, x: seq<string>, b: string, y: seq<string>, i: nat)
    requires Joined(a, x) == Joined(b, y) && Plain(x) && Plain(y) && i < |x| && i < |y|
    ensures FromEnd(x, i) == FromEnd(y, i)
  {
    DottedInjective(Joined(a, x[..|x| - 1]), FromEnd(x, 0), Joined(b, y[..|y| - 1]), FromEnd(y, 0));
    if i > 0 {
      JoinedAgree(a, x[..|x| - 1], b, y[..|y| - 1], i - 1);
    }
  }

  lemma {:induction false} JoinedSameKey(a: string, x: seq<string>, b: string)
    requires Joined(a, x) == Joined(b, x) && Plain(x)
    ensures a == b
  {
    if x != [] {
      DottedInjective(Joined(a, x[..|x| - 1]), FromEnd(x, 0), Joined(b, x[..|x| - 1]), FromEnd(x, 0));
      JoinedSameKey(a, x[..|x| - 1], b);
    }
  }

  predicate Agree(x: seq<string>, y: seq<string>) {
    forall i: nat :: i < |x| && i < |y| ==> FromEnd(x, i) == FromEnd(y, i)
  }

  lemma LettersAreNoDigits(at: string)
    requires IsDigits(at)
    ensures at != "break" && at != "lock" && at != "done"
  {
    assert '0' <= at[0] <= '9';
  }

  /** Names that agree in every segment both have are of one kind: no segments are missing. */
  lemma AgreeingNamesAreEqual(f: FileName, g: FileName)
    requires WellNamed(f) && WellNamed(g) && Agree(Segments(f), Segments(g))
    requires |Segments(f)| <= |Segments(g)|
    ensures f == g
  {
    var x, y := Segments(f), Segments(g);
    if g.TombName? || g.OldTombName? { LettersAreNoDigits(g.renamedAt); }
    assert FromEnd(x, 0) == FromEnd(y, 0);
    if |x| > 1 { assert FromEnd(x, 1) == FromEnd(y, 1); }
    if |x| > 2 { assert FromEnd(x, 2) == FromEnd(y, 2); }
    if |x| > 3 { assert FromEnd(x, 3) == FromEnd(y, 3); }
  }

  /** The grammar is unambiguous: a name determines its key, its kind, its nonce and its time. */
  lemma SpellInjective(key: string, f: FileName, other: string, g: FileName)
    requires WellNamed(f) && WellNamed(g) && Spell(key, f) == Spell(other, g)
    ensures key == other && f == g
  {
    var x, y := Segments(f), Segments(g);
    SpellIsJoined(key, f);
    SpellIsJoined(other, g);
    SegmentsPlain(f);
    SegmentsPlain(g);
    forall i: nat | i < |x| && i < |y| ensures FromEnd(x, i) == FromEnd(y, i) { JoinedAgree(key, x, other, y, i); }
    if |x| <= |y| { AgreeingNamesAreEqual(f, g); } else { AgreeingNamesAreEqual(g, f); }
    JoinedSameKey(key, x, other);
  }

  // ---- the tests accept exactly the names the grammar produces ----

  predicate IsTicket(f: FileName) {
    WellNamed(f) && (f.TicketName? || f.OldBreakerName?)
  }

  predicate IsTombOf(f: FileName, at: string) {
    WellNamed(f) && (f.TombName? || f.OldTombName?) && f.renamedAt == at
  }

  /** What an accepted ticket name spells. */
  function ReadTicket(key: string, name: string): (f: FileName)
    requires IsTicketName(key, name)
    ensures IsTicket(f) && Spell(key, f) == name
  {
    if name == key + ".lock.break" then OldBreakerName
    else
      var nonce := name[|key + ".lock.break"| + 1..];
      assert name == (key + ".lock.break" + ".") + nonce;
      assert key + ".lock.break." == key + ".lock.break" + ".";
      TicketName(nonce)
  }

  /** What an accepted tomb name spells. */
  function ReadTomb(key: string, name: string): (f: FileName)
    requires TombRenamedAt(key, name).Some?
    ensures IsTombOf(f, TombRenamedAt(key, name).value) && Spell(key, f) == name
  {
    var prefix := TombPrefix(key, name).value;
    var rest := name[|prefix|..];
    var dot := LastDot(rest);
    assert name == prefix + rest;
    assert rest == rest[..dot] + "." + rest[dot + 1..];
    assert name == prefix + rest[..dot] + "." + rest[dot + 1..];
    if StartsWith(name, key + ".lock.tomb.") then TombName(rest[..dot], rest[dot + 1..])
    else OldTombName(rest[..dot], rest[dot + 1..])
  }

  lemma SpelledTicketAccepted(key: string, f: FileName)
    requires IsTicket(f)
    ensures IsTicketName(key, Spell(key, f))
  {
    if f.TicketName? {
      var name := Spell(key, f);
      assert key + ".lock.break." == key + ".lock.break" + ".";
      assert name[|key + ".lock.break"| + 1..] == f.nonce;
    }
  }

  lemma {:induction false} LastDotAt(front: string, digits: string)
    requires digits == "" || IsDigits(digits)
    ensures LastDot(front + "." + digits) == |front|
    decreases |digits|
  {
    var text := front + "." + digits;
    if digits != "" {
      var fewer := digits[..|digits| - 1];
      assert text[..|text| - 1] == front + "." + fewer;
      assert text[|text| - 1] == digits[|digits| - 1];
      LastDotAt(front, fewer);
    }
  }

  lemma TombReadBack(key: string, name: string, prefix: string, nonce: string, at: string)
    requires IsNonce(nonce) && IsDigits(at)
    requires TombPrefix(key, name) == Some(prefix) && name == prefix + nonce + "." + at
    ensures TombRenamedAt(key, name) == Some(at)
  {
    var rest := nonce + "." + at;
    assert name[|prefix|..] == rest;
    LastDotAt(nonce, at);
    assert rest[..|nonce|] == nonce && rest[|nonce| + 1..] == at;
  }

  lemma SpelledTombAccepted(key: string, f: FileName, at: string)
    requires IsTombOf(f, at)
    ensures TombRenamedAt(key, Spell(key, f)) == Some(at)
  {
    var name := Spell(key, f);
    if f.TombName? {
      assert name[..|key + ".lock.tomb."|] == key + ".lock.tomb.";
      TombReadBack(key, name, key + ".lock.tomb.", f.nonce, at);
    } else {
      assert name[..|key + ".lock.break.tomb."|] == key + ".lock.break.tomb.";
      assert name[|key| + 6] == 'b';
      assert (key + ".lock.tomb.")[|key| + 6] == 't';
      TombReadBack(key, name, key + ".lock.break.tomb.", f.nonce, at);
    }
  }

  /**
   * Whatever dots the keys hold, a key's ticket test accepts exactly its own
   * tickets among the files of every key, so no caller ever lists, judges or
   * removes another key's file as a ticket.
   */
  lemma TicketsToldApart(key: string, other: string, f: FileName)
    requires WellNamed(f)
    ensures IsTicketName(key, Spell(other, f)) <==> key == other && IsTicket(f)
  {
    if key == other && IsTicket(f) { SpelledTicketAccepted(key, f); }
    if IsTicketName(key, Spell(other, f)) {
      SpellInjective(key, ReadTicket(key, Spell(other, f)), other, f);
    }
  }

  /** The same for tombs, and the time read back is the time of the rename: no sweep removes another key's file. */
  lemma TombsToldApart(key: string, other: string, f: FileName, at: string)
    requires WellNamed(f)
    ensures TombRenamedAt(key, Spell(other, f)) == Some(at) <==> key == other && IsTombOf(f, at)
  {
    if key == other && IsTombOf(f, at) { SpelledTombAccepted(key, f, at); }
    if TombRenamedAt(key, Spell(other, f)) == Some(at) {
      SpellInjective(key, ReadTomb(key, Spell(other, f)), other, f);
    }
  }
}

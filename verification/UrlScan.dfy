/**
 * Finding the URLs of a text by a linear hand scan, proved to rewrite exactly
 * the leftmost, greedy, non-overlapping matches of
 *   [a-z][a-z\d+.-]*://[^\s"'<>`]+   (ignoring case)
 * with at most six character inspections per input character.
 */
module UrlScan {
  import opened Wrappers

  predicate IsLetter(c: char) {
    'A' <= c <= 'Z' || 'a' <= c <= 'z'
  }

  predicate IsSchemeChar(c: char) {
    IsLetter(c) || '0' <= c <= '9' || c == '+' || c == '-' || c == '.'
  }

  predicate IsSpace(c: char) {
    || '\t' <= c <= '\r' || c == ' ' || c == '\U{00A0}' || c == '\U{1680}'
    || '\U{2000}' <= c <= '\U{200A}' || c == '\U{2028}' || c == '\U{2029}'
    || c == '\U{202F}' || c == '\U{205F}' || c == '\U{3000}' || c == '\U{FEFF}'
  }

  predicate IsStop(c: char) {
    IsSpace(c) || c == '"' || c == '\'' || c == '<' || c == '>' || c == '`'
  }

  // ---- the regular expression ----

  predicate SeparatorAt(t: string, k: int) {
    0 <= k && k + 3 <= |t| && t[k] == ':' && t[k + 1] == '/' && t[k + 2] == '/'
  }

  /** `w` is a scheme of `k` characters, a separator, and a tail: one word of the regular expression. */
  predicate SplitsAt(w: string, k: nat) {
    && 0 < k && k + 3 < |w|
    && IsLetter(w[0]) && (forall j :: 0 < j < k ==> IsSchemeChar(w[j]))
    && SeparatorAt(w, k)
    && forall j :: k + 3 <= j < |w| ==> !IsStop(w[j])
  }

  ghost predicate InLanguage(w: string) {
    exists k: nat :: SplitsAt(w, k)
  }

  ghost predicate Matches(t: string, i: nat, e: nat) {
    i <= e <= |t| && InLanguage(t[i..e])
  }

  /** The match a search from `from` finds: no match starts earlier, and none from there is longer. */
  ghost predicate FirstMatch(t: string, from: nat, i: nat, e: nat) {
    && from <= i && Matches(t, i, e)
    && (forall i': nat, e': nat :: from <= i' < i ==> !Matches(t, i', e'))
    && (forall e': nat :: Matches(t, i, e') ==> e' <= e)
  }

  /** The text from `from` on, with every match replaced by its image and all else copied. */
  ghost function Rewrite(t: string, from: nat, url: string -> string): string
    requires from <= |t|
    decreases |t| - from
  {
    if i: nat, e: nat :| FirstMatch(t, from, i, e) then
      MatchIsNonEmpty(t, i, e);
      t[from..i] + url(t[i..e]) + Rewrite(t, e, url)
    else t[from..]
  }

  lemma MatchIsNonEmpty(t: string, i: nat, e: nat)
    requires Matches(t, i, e)
    ensures i < e
  {
  }

  lemma FirstMatchUnique(t: string, from: nat, i: nat, e: nat, i': nat, e': nat)
    requires FirstMatch(t, from, i, e) && FirstMatch(t, from, i', e')
    ensures i == i' && e == e'
  {
  }

  lemma RewriteAtMatch(t: string, from: nat, url: string -> string, i: nat, e: nat)
    requires from <= |t| && FirstMatch(t, from, i, e)
    ensures from <= i < e <= |t|
    ensures Rewrite(t, from, url) == t[from..i] + url(t[i..e]) + Rewrite(t, e, url)
  {
    MatchIsNonEmpty(t, i, e);
    forall i': nat, e': nat | FirstMatch(t, from, i', e') ensures i' == i && e' == e {
      FirstMatchUnique(t, from, i, e, i', e');
    }
  }

  lemma RewriteWithoutMatch(t: string, from: nat, url: string -> string)
    requires from <= |t| && forall i: nat, e: nat :: from <= i ==> !Matches(t, i, e)
    ensures Rewrite(t, from, url) == t[from..]
  {
    forall i: nat, e: nat ensures !FirstMatch(t, from, i, e) {
      assert from <= i ==> !Matches(t, i, e);
    }
  }

  // ---- the scan's own view of a match ----

  /** A scheme from `i` up to a separator at `k`, and the first character of a tail. */
  predicate HeadAt(t: string, i: nat, k: nat) {
    && i < k && k + 3 < |t|
    && IsLetter(t[i]) && (forall j :: i < j < k ==> IsSchemeChar(t[j]))
    && SeparatorAt(t, k) && !IsStop(t[k + 3])
  }

  predicate TailTo(t: string, k: nat, e: nat) {
    k + 3 < e <= |t| && forall j :: k + 3 <= j < e ==> !IsStop(t[j])
  }

  lemma MatchHasHead(t: string, i: nat, e: nat) returns (k: nat)
    requires Matches(t, i, e)
    ensures HeadAt(t, i, k) && TailTo(t, k, e)
  {
    var w := t[i..e];
    var d: nat :| SplitsAt(w, d);
    k := i + d;
    assert w[0] == t[i] && w[d] == t[k] && w[d + 1] == t[k + 1] && w[d + 2] == t[k + 2] && w[d + 3] == t[k + 3];
    forall j | i < j < k ensures IsSchemeChar(t[j]) { assert w[j - i] == t[j]; }
    forall j | k + 3 <= j < e ensures !IsStop(t[j]) { assert w[j - i] == t[j]; }
  }

  lemma NoHeadNoMatch(t: string, i: nat, e: nat)
    requires forall k: nat :: HeadAt(t, i, k) ==> !TailTo(t, k, e)
    ensures !Matches(t, i, e)
  {
    if Matches(t, i, e) {
      var k := MatchHasHead(t, i, e);
    }
  }

  lemma HeadMatches(t: string, i: nat, k: nat, e: nat)
    requires HeadAt(t, i, k) && TailTo(t, k, e)
    ensures Matches(t, i, e)
  {
    assert SplitsAt(t[i..e], k - i);
  }

  /** A start has one separator: the first character past its scheme run. */
  lemma HeadsAgree(t: string, i: nat, k: nat, i': nat, k': nat)
    requires HeadAt(t, i, k) && HeadAt(t, i', k') && i' < k && i < k'
    ensures k == k'
  {
  }

  /** No separator of the text before `from` heads a match that starts at `copied` or later. */
  ghost predicate NoneBefore(t: string, copied: nat, from: nat) {
    forall i: nat, k: nat :: copied <= i && k < from ==> !HeadAt(t, i, k)
  }

  /** `s` is the first separator at or after `from`, or -1. */
  ghost predicate FirstSeparator(t: string, from: nat, s: int) {
    && (s == -1 || (from <= s && SeparatorAt(t, s)))
    && forall k :: from <= k && (s == -1 || k < s) ==> !SeparatorAt(t, k)
  }

  /** `start` is the first letter of the scheme run that ends at `s`, or `s` when the run has none. */
  ghost predicate SchemeStart(t: string, copied: nat, s: nat, start: nat) {
    && copied <= start <= s <= |t|
    && (forall j :: start <= j < s ==> IsSchemeChar(t[j]))
    && (start < s ==> IsLetter(t[start]))
    && (forall i :: copied <= i < start ==> !IsLetter(t[i]) || exists j :: i < j < s && !IsSchemeChar(t[j]))
  }

  lemma RefusedHasNoHead(t: string, copied: nat, from: nat, s: nat, start: nat)
    requires NoneBefore(t, copied, from) && FirstSeparator(t, from, s) && SchemeStart(t, copied, s, start)
    requires start == s || s + 3 >= |t| || IsStop(t[s + 3])
    ensures NoneBefore(t, copied, s + 1)
  {
    forall i: nat, k: nat | copied <= i && k < s + 1 ensures !HeadAt(t, i, k) {
      if k >= from && k < s { assert !SeparatorAt(t, k); }
    }
  }

  lemma NoEarlierHead(t: string, copied: nat, from: nat, s: nat, start: nat, i: nat, k: nat)
    requires NoneBefore(t, copied, from) && FirstSeparator(t, from, s) && SchemeStart(t, copied, s, start)
    requires start < s && s + 3 <= |t| && copied <= i < start
    ensures !HeadAt(t, i, k)
  {
    if from <= k < s { assert !SeparatorAt(t, k); }
  }

  lemma AcceptedIsFirst(t: string, copied: nat, from: nat, s: nat, start: nat, e: nat)
    requires NoneBefore(t, copied, from) && FirstSeparator(t, from, s) && SchemeStart(t, copied, s, start)
    requires start < s && TailTo(t, s, e) && (e == |t| || IsStop(t[e]))
    ensures FirstMatch(t, copied, start, e)
  {
    assert HeadAt(t, start, s);
    HeadMatches(t, start, s, e);
    forall i: nat, e': nat | copied <= i < start ensures !Matches(t, i, e') {
      forall k: nat ensures !HeadAt(t, i, k) { NoEarlierHead(t, copied, from, s, start, i, k); }
      NoHeadNoMatch(t, i, e');
    }
    forall e': nat | e' > e ensures !Matches(t, start, e') {
      forall k: nat | HeadAt(t, start, k) ensures !TailTo(t, k, e') { HeadsAgree(t, start, s, start, k); }
      NoHeadNoMatch(t, start, e');
    }
  }

  lemma NoneLeft(t: string, copied: nat, from: nat)
    requires NoneBefore(t, copied, from) && FirstSeparator(t, from, -1)
    ensures forall i: nat, e: nat :: copied <= i ==> !Matches(t, i, e)
  {
    forall i: nat, e: nat | copied <= i ensures !Matches(t, i, e) {
      forall k: nat ensures !HeadAt(t, i, k) {
        if k >= from { assert !SeparatorAt(t, k); }
      }
      NoHeadNoMatch(t, i, e);
    }
  }

  // ---- the matches found so far ----

  datatype Span = Span(start: nat, end: nat)

  function EndOf(spans: seq<Span>): nat {
    if spans == [] then 0 else spans[|spans| - 1].end
  }

  /** The spans are the matches of a search from the start, one after another. */
  ghost predicate AreMatches(t: string, spans: seq<Span>) {
    spans == [] ||
    var front, last := spans[..|spans| - 1], spans[|spans| - 1];
    AreMatches(t, front) && FirstMatch(t, EndOf(front), last.start, last.end)
  }

  function Cut(t: string, a: nat, b: nat): string {
    if a <= b <= |t| then t[a..b] else ""
  }

  /** The text up to the end of the spans, with each span replaced by its image. */
  function Render(t: string, spans: seq<Span>, url: string -> string): string {
    if spans == [] then ""
    else
      var front, last := spans[..|spans| - 1], spans[|spans| - 1];
      Render(t, front, url) + Cut(t, EndOf(front), last.start) + url(Cut(t, last.start, last.end))
  }

  lemma FourParts(a: string, b: string, c: string, d: string)
    ensures a + (b + c + d) == a + b + c + d
  {
  }

  /** Rendering the matches found, and rewriting what follows them, rewrites the text. */
  lemma {:induction false} RendersRewrite(t: string, spans: seq<Span>, url: string -> string)
    requires AreMatches(t, spans)
    ensures EndOf(spans) <= |t| && Render(t, spans, url) + Rewrite(t, EndOf(spans), url) == Rewrite(t, 0, url)
  {
    if spans != [] {
      var front, last := spans[..|spans| - 1], spans[|spans| - 1];
      RendersRewrite(t, front, url);
      RewriteAtMatch(t, EndOf(front), url, last.start, last.end);
      FourParts(Render(t, front, url), t[EndOf(front)..last.start], url(t[last.start..last.end]), Rewrite(t, last.end, url));
    }
  }

  lemma OneMore(t: string, spans: seq<Span>, url: string -> string, start: nat, end: nat)
    requires AreMatches(t, spans) && FirstMatch(t, EndOf(spans), start, end)
    ensures EndOf(spans) <= start < end <= |t| && AreMatches(t, spans + [Span(start, end)])
    ensures Render(t, spans + [Span(start, end)], url)
         == Render(t, spans, url) + t[EndOf(spans)..start] + url(t[start..end])
  {
    assert (spans + [Span(start, end)])[..|spans|] == spans;
    MatchIsNonEmpty(t, start, end);
  }

  lemma {:induction false} LongestFrom(t: string, i: nat, e: nat) returns (longest: nat)
    requires Matches(t, i, e)
    ensures Matches(t, i, longest) && forall e': nat :: Matches(t, i, e') ==> e' <= longest
    decreases |t| - e
  {
    if e': nat :| e' > e && Matches(t, i, e') { longest := LongestFrom(t, i, e'); } else { longest := e; }
  }

  /** Where there is a match there is a first one. */
  lemma {:induction false} FirstMatchExists(t: string, from: nat, i: nat, e: nat) returns (start: nat, end: nat)
    requires from <= i && Matches(t, i, e)
    ensures FirstMatch(t, from, start, end)
    decreases i
  {
    if i': nat, e': nat :| from <= i' < i && Matches(t, i', e') {
      start, end := FirstMatchExists(t, from, i', e');
    } else {
      start := i;
      end := LongestFrom(t, i, e);
    }
  }

  /** Every match from the start on is among the spans. */
  ghost predicate AllMatches(t: string, spans: seq<Span>) {
    AreMatches(t, spans) && forall i: nat, e: nat :: EndOf(spans) <= i ==> !Matches(t, i, e)
  }

  lemma {:induction false} SpansExist(t: string, found: seq<Span>) returns (spans: seq<Span>)
    requires AreMatches(t, found)
    ensures AllMatches(t, spans)
    decreases |t| - EndOf(found)
  {
    if i: nat, e: nat :| EndOf(found) <= i && Matches(t, i, e) {
      var start, end := FirstMatchExists(t, EndOf(found), i, e);
      OneMore(t, found, w => w, start, end);
      spans := SpansExist(t, found + [Span(start, end)]);
    } else {
      spans := found;
    }
  }

  /**
   * The matches of a text are spans of it, and whatever `url` makes of each of
   * them, every character outside the spans is copied.
   */
  lemma RewriteIsLocal(t: string) returns (spans: seq<Span>)
    ensures AllMatches(t, spans) && EndOf(spans) <= |t|
    ensures forall url: string -> string :: Rewrite(t, 0, url) == Render(t, spans, url) + t[EndOf(spans)..]
  {
    spans := SpansExist(t, []);
    RendersRewrite(t, spans, w => w);
    forall url: string -> string ensures Rewrite(t, 0, url) == Render(t, spans, url) + t[EndOf(spans)..] {
      RendersRewrite(t, spans, url);
      RewriteWithoutMatch(t, EndOf(spans), url);
    }
  }

  /** The scan's state: the matches it has copied up to, and where the search for the next separator resumes. */
  ghost predicate Scanning(t: string, spans: seq<Span>, copied: nat, from: nat) {
    && AreMatches(t, spans) && copied == EndOf(spans) && copied <= from <= |t|
    && (copied < from ==> !IsSchemeChar(t[from - 1]))
    && NoneBefore(t, copied, from)
  }

  lemma Begins(t: string)
    ensures Scanning(t, [], 0, 0)
  {
  }

  lemma Refuses(t: string, spans: seq<Span>, copied: nat, from: nat, s: nat, start: nat)
    requires Scanning(t, spans, copied, from)
    requires FirstSeparator(t, from, s) && SchemeStart(t, copied, s, start)
    requires start == s || s + 3 >= |t| || IsStop(t[s + 3])
    ensures Scanning(t, spans, copied, s + 1)
  {
    RefusedHasNoHead(t, copied, from, s, start);
  }

  lemma Accepts(t: string, spans: seq<Span>, url: string -> string, copied: nat, from: nat, s: nat, start: nat, e: nat)
    requires Scanning(t, spans, copied, from)
    requires FirstSeparator(t, from, s) && SchemeStart(t, copied, s, start)
    requires start < s && TailTo(t, s, e) && (e == |t| || IsStop(t[e]))
    ensures Scanning(t, spans + [Span(start, e)], e, e) && copied <= start < e <= |t|
    ensures Render(t, spans + [Span(start, e)], url) == Render(t, spans, url) + t[copied..start] + url(t[start..e])
  {
    AcceptedIsFirst(t, copied, from, s, start, e);
    OneMore(t, spans, url, start, e);
  }

  lemma Finishes(t: string, spans: seq<Span>, url: string -> string, copied: nat, from: nat)
    requires Scanning(t, spans, copied, from) && FirstSeparator(t, from, -1)
    ensures Rewrite(t, 0, url) == (if copied == 0 then t else Render(t, spans, url) + t[copied..])
  {
    NoneLeft(t, copied, from);
    RendersRewrite(t, spans, url);
    RewriteWithoutMatch(t, copied, url);
    if copied == 0 { NoSpans(t, spans); }
  }

  lemma NoSpans(t: string, spans: seq<Span>)
    requires AreMatches(t, spans) && EndOf(spans) == 0
    ensures spans == []
  {
    if spans != [] { MatchIsNonEmpty(t, spans[|spans| - 1].start, spans[|spans| - 1].end); }
  }

  // ---- the scan ----

  /** The next separator, and how many characters the search looked at. */
  method IndexOfSeparator(t: string, from: nat) returns (s: int, looked: nat)
    requires from <= |t|
    ensures FirstSeparator(t, from, s)
    ensures looked <= 3 * ((if s == -1 then |t| else s + 1) - from)
  {
    looked := 0;
    s := from;
    while s + 3 <= |t|
      invariant from <= s <= |t|
      invariant forall k :: from <= k < s ==> !SeparatorAt(t, k)
      invariant looked <= 3 * (s - from)
    {
      looked := looked + 3;
      if t[s] == ':' && t[s + 1] == '/' && t[s + 2] == '/' {
        return s, looked;
      }
      s := s + 1;
    }
    s := -1;
  }

  /**
   * Walks back over the scheme run that ends at `s`, then forward to its first
   * letter. The run never reaches below `from`: either that is where copying
   * ended, or a refused separator stands just before it.
   */
  method FindScheme(t: string, copied: nat, from: nat, s: nat) returns (start: nat, looked: nat)
    requires copied <= from <= s && s + 3 <= |t|
    requires copied < from ==> !IsSchemeChar(t[from - 1])
    ensures SchemeStart(t, copied, s, start)
    ensures looked <= 2 * (s - from + 1)
  {
    looked := 0;
    start := s;
    while start > copied && IsSchemeChar(t[start - 1])
      invariant from <= start <= s
      invariant forall j :: start <= j < s ==> IsSchemeChar(t[j])
      invariant looked == s - start
    {
      start := start - 1;
      looked := looked + 1;
    }
    looked := looked + 1;
    ghost var run := start;
    while start < s && !IsLetter(t[start])
      invariant run <= start <= s
      invariant forall j :: run <= j < start ==> !IsLetter(t[j])
      invariant looked <= (s - run + 1) + (start - run)
    {
      start := start + 1;
      looked := looked + 1;
    }
    looked := looked + 1;
    forall i | copied <= i < start
      ensures !IsLetter(t[i]) || exists j :: i < j < s && !IsSchemeChar(t[j])
    {
      if i < run - 1 { assert i < run - 1 < s && !IsSchemeChar(t[run - 1]); }
    }
  }

  method FindEnd(t: string, s: nat) returns (end: nat, looked: nat)
    requires s + 3 < |t| && !IsStop(t[s + 3])
    ensures TailTo(t, s, end) && (end == |t| || IsStop(t[end]))
    ensures looked <= end - s
  {
    end := s + 4;
    looked := 0;
    while end < |t| && !IsStop(t[end])
      invariant TailTo(t, s, end)
      invariant looked == end - (s + 4)
    {
      end := end + 1;
      looked := looked + 1;
    }
    looked := looked + 1;
  }

  /** Rewrites every URL of `raw` by `url`: the regular expression's replacement, in a linear number of inspections. */
  method UrlsInText(raw: string, url: string -> string) returns (result: string, looked: nat)
    ensures result == Rewrite(raw, 0, url)
    ensures looked <= 6 * |raw|
  {
    var out, copied, from := "", 0, 0;
    ghost var spans: seq<Span> := [];
    looked := 0;
    Begins(raw);
    while true
      invariant Scanning(raw, spans, copied, from) && out == Render(raw, spans, url)
      invariant looked <= 6 * from
      decreases |raw| - from
    {
      var separator, searched := IndexOfSeparator(raw, from);
      looked := looked + searched;
      if separator == -1 { break; }
      var start, walked := FindScheme(raw, copied, from, separator);
      looked := looked + walked + 1;
      if start == separator || separator + 3 >= |raw| || IsStop(raw[separator + 3]) {
        Refuses(raw, spans, copied, from, separator, start);
        from := separator + 1;
        continue;
      }
      var end, tail := FindEnd(raw, separator);
      looked := looked + tail;
      Accepts(raw, spans, url, copied, from, separator, start, end);
      out := out + raw[copied..start] + url(raw[start..end]);
      spans := spans + [Span(start, end)];
      copied := end;
      from := end;
    }
    Finishes(raw, spans, url, copied, from);
    result := if copied == 0 then raw else out + raw[copied..];
  }
}

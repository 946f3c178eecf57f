/**
 * The regular expressions of the detector, written out as string functions.
 *
 * Each shape of expression the detector uses is a `Pattern`; `MatchAt` says what the
 * expression matches when the match must start at a given position (greedy quantifiers
 * take the longest run and give back characters one at a time, lazy ones the shortest),
 * and `Leftmost` / `MatchAll` are `String.prototype.match` without and with the `g` flag.
 */
module Patterns {
  import opened Wrappers
  import opened JsText

  /** The character classes inside the expressions. */
  datatype CharClass = NotSlash | NotSlashOrSpace | Space | NotLineTerminator | NotGreaterThan

  predicate InClass(c: char, cls: CharClass) {
    match cls
    case NotSlash => c != '/'
    case NotSlashOrSpace => c != '/' && !IsSpace(c)
    case Space => IsSpace(c)
    case NotLineTerminator => !IsLineTerminator(c)
    case NotGreaterThan => c != '>'
  }

  /** Length of the longest run of `cls` characters starting at k (what a greedy `cls*` takes). */
  function Run(s: string, k: nat, cls: CharClass): (n: nat)
    requires k <= |s|
    ensures k + n <= |s|
    ensures forall m {:trigger InClass(s[m], cls)} | k <= m < k + n :: InClass(s[m], cls)
    ensures k + n == |s| || !InClass(s[k + n], cls)
    decreases |s| - k
  {
    if k == |s| || !InClass(s[k], cls) then 0 else 1 + Run(s, k + 1, cls)
  }

  /** A run of `cls` characters from k that stops after n of them has length n. */
  lemma {:induction false} RunStopsAt(s: string, k: nat, cls: CharClass, n: nat)
    requires k + n <= |s|
    requires forall m | k <= m < k + n :: InClass(s[m], cls)
    requires k + n == |s| || !InClass(s[k + n], cls)
    ensures Run(s, k, cls) == n
    decreases n
  {
    if n > 0 {
      assert InClass(s[k], cls);
      RunStopsAt(s, k + 1, cls, n - 1);
    }
  }

  /** `s.indexOf(t, from)`, with None for -1. */
  function IndexOf(s: string, t: string, from: nat): (q: Option<nat>)
    requires from <= |s|
    ensures q.Some? ==> from <= q.value && q.value + |t| <= |s| && StartsWith(s[q.value..], t)
    ensures q.Some? ==> forall j | from <= j < q.value :: !StartsWith(s[j..], t)
    ensures q.None? ==> forall j | from <= j <= |s| :: !StartsWith(s[j..], t)
    decreases |s| - from
  {
    if StartsWith(s[from..], t) then Some(from)
    else if from == |s| then None
    else IndexOf(s, t, from + 1)
  }

  /** The shapes of regular expression the detector uses. */
  datatype Pattern =
    | Segment(marker: string)        // marker([^/]+)/
    | CommentRef(alts: seq<string>)  // <!--[^>]*(alt1|alt2|...)([^/\s]+), case-insensitive
    | Word(marker: string)           // marker([^/\s]+)
    | Field(key: string)             // key\s*(.+), case-insensitive
    | BlockComment                   // \/\*\s*([\s\S]*?)\*\/

  /** One match: where it starts and ends in the subject, and the text of its one capture group. */
  datatype Match = Match(start: nat, end: nat, capture: string)

  /** The match of `pat` that starts exactly at position i, if any. */
  function MatchAt(s: string, pat: Pattern, i: nat): (m: Option<Match>)
    requires i <= |s|
    ensures m.Some? ==> m.value.start == i && i < m.value.end <= |s|
  {
    match pat
    case Segment(marker) => SegmentMatchAt(s, marker, i)
    case CommentRef(alts) => CommentRefMatchAt(s, alts, i)
    case Word(marker) => WordMatchAt(s, marker, i)
    case Field(key) => FieldMatchAt(s, key, i)
    case BlockComment => BlockCommentMatchAt(s, i)
  }

  /** `marker([^/]+)/` at i: the longest slash-free run after the marker, if it is non-empty and a `/` follows. */
  function SegmentMatchAt(s: string, marker: string, i: nat): (m: Option<Match>)
    requires i <= |s|
    ensures m.Some? ==> m.value.start == i && i < m.value.end <= |s|
  {
    if StartsWith(s[i..], marker) then
      var k := i + |marker|;
      var n := Run(s, k, NotSlash);
      if 0 < n && k + n < |s| then Some(Match(i, k + n + 1, s[k..k + n])) else None
    else None
  }

  function CommentRefMatchAt(s: string, alts: seq<string>, i: nat): (m: Option<Match>)
    requires i <= |s|
    ensures m.Some? ==> m.value.start == i && i < m.value.end <= |s|
  {
    if StartsWith(s[i..], "<!--") then
      var lo := i + 4;
      CommentBacktrack(s, alts, i, lo, lo + Run(s, lo, NotGreaterThan))
    else None
  }

  /** `marker([^/\s]+)` at i: the longest run of `[^/\s]` after the marker, if it is non-empty. */
  function WordMatchAt(s: string, marker: string, i: nat): (m: Option<Match>)
    requires i <= |s|
    ensures m.Some? ==> m.value.start == i && i < m.value.end <= |s|
  {
    if StartsWith(s[i..], marker) then
      var k := i + |marker|;
      var n := Run(s, k, NotSlashOrSpace);
      if 0 < n then Some(Match(i, k + n, s[k..k + n])) else None
    else None
  }

  function FieldMatchAt(s: string, key: string, i: nat): (m: Option<Match>)
    requires i <= |s|
    ensures m.Some? ==> m.value.start == i && i < m.value.end <= |s|
  {
    if StartsWithIgnoringCase(s[i..], key) then
      var p := i + |key|;
      FieldBacktrack(s, i, p, p + Run(s, p, Space))
    else None
  }

  function BlockCommentMatchAt(s: string, i: nat): (m: Option<Match>)
    requires i <= |s|
    ensures m.Some? ==> m.value.start == i && i < m.value.end <= |s|
  {
    if StartsWith(s[i..], "/*") then
      var w := i + 2 + Run(s, i + 2, Space);
      // the lazy capture stops at the first `*/`; no `*/` can begin inside the
      // white space before w, so giving back white space never helps
      match IndexOf(s, "*/", w)
      case None => None
      case Some(q) => Some(Match(i, q + 2, s[w..q]))
    else None
  }

  /**
   * `[^>]*` after `<!--` (from lo) takes the longest run first, ending at j, and gives back one
   * character at a time; the first end j from which an alternative and its capture match wins.
   */
  function CommentBacktrack(s: string, alts: seq<string>, start: nat, lo: nat, j: nat): (m: Option<Match>)
    requires start < lo <= j <= |s|
    ensures m.Some? ==> m.value.start == start && lo <= m.value.end <= |s|
    decreases j
  {
    match AltCapture(s, alts, start, j)
    case Some(m) => Some(m)
    case None => if j == lo then None else CommentBacktrack(s, alts, start, lo, j - 1)
  }

  /** The first alternative (case-insensitively) at j that is followed by at least one `[^/\s]`. */
  function AltCapture(s: string, alts: seq<string>, start: nat, j: nat): (m: Option<Match>)
    requires j <= |s|
    ensures m.Some? ==> m.value.start == start && j < m.value.end <= |s|
    decreases |alts|
  {
    if alts == [] then None
    else if StartsWithIgnoringCase(s[j..], alts[0]) && 0 < Run(s, j + |alts[0]|, NotSlashOrSpace) then
      var k := j + |alts[0]|;
      var n := Run(s, k, NotSlashOrSpace);
      Some(Match(start, k + n, s[k..k + n]))
    else AltCapture(s, alts[1..], start, j)
  }

  /**
   * `\s*(.+)` from p: `\s*` first takes all the white space (up to k) and gives it back one
   * character at a time until `.+` can take at least one character that ends no line.
   */
  function FieldBacktrack(s: string, start: nat, p: nat, k: nat): (m: Option<Match>)
    requires start <= p <= k <= |s|
    ensures m.Some? ==> m.value.start == start && p < m.value.end <= |s|
    decreases k
  {
    if k < |s| && !IsLineTerminator(s[k]) then
      var n := Run(s, k, NotLineTerminator);
      Some(Match(start, k + n, s[k..k + n]))
    else if k == p then None
    else FieldBacktrack(s, start, p, k - 1)
  }

  /** No match of `pat` starts at any position from lo up to (not including) hi. */
  predicate NoMatchIn(s: string, pat: Pattern, lo: nat, hi: nat) {
    forall j | lo <= j < hi && j <= |s| :: MatchAt(s, pat, j).None?
  }

  /** A failed match at lo extends a match-free stretch that starts just after it. */
  lemma NoMatchExtend(s: string, pat: Pattern, lo: nat, hi: nat)
    requires lo < hi && lo <= |s| && MatchAt(s, pat, lo).None? && NoMatchIn(s, pat, lo + 1, hi)
    ensures NoMatchIn(s, pat, lo, hi)
  {
  }

  /** `s.match(re)` for a non-global `re`: the match at the least position where there is one. */
  function Leftmost(s: string, pat: Pattern, from: nat): (m: Option<Match>)
    requires from <= |s|
    ensures m.Some? ==> from <= m.value.start <= |s| && MatchAt(s, pat, m.value.start) == m
    ensures m.Some? ==> NoMatchIn(s, pat, from, m.value.start)
    ensures m.None? ==> NoMatchIn(s, pat, from, |s| + 1)
    decreases |s| - from
  {
    var here := MatchAt(s, pat, from);
    if here.Some? then here
    else if from == |s| then None
    else
      var r := Leftmost(s, pat, from + 1);
      NoMatchExtend(s, pat, from, if r.Some? then r.value.start else |s| + 1);
      r
  }

  /**
   * `s.match(re)` for a global `re`: each search resumes where the previous match ended,
   * so the matches are the leftmost ones, none skipped before, between or after them.
   */
  function MatchAll(s: string, pat: Pattern, from: nat): (ms: seq<Match>)
    requires from <= |s|
    ensures forall k | 0 <= k < |ms| :: from <= ms[k].start < ms[k].end <= |s|
    ensures forall k | 0 <= k < |ms| :: MatchAt(s, pat, ms[k].start) == Some(ms[k])
    ensures forall k | 0 < k < |ms| :: ms[k - 1].end <= ms[k].start
    ensures ms == [] ==> NoMatchIn(s, pat, from, |s| + 1)
    ensures ms != [] ==> NoMatchIn(s, pat, from, ms[0].start) && NoMatchIn(s, pat, ms[|ms| - 1].end, |s| + 1)
    ensures forall k | 0 < k < |ms| :: NoMatchIn(s, pat, ms[k - 1].end, ms[k].start)
    decreases |s| - from
  {
    match Leftmost(s, pat, from)
    case None => []
    case Some(m) =>
      var rest := MatchAll(s, pat, m.end);
      MatchAllStep(s, pat, m, rest);
      [m] + rest
  }

  lemma MatchAllStep(s: string, pat: Pattern, m: Match, rest: seq<Match>)
    requires m.end <= |s|
    requires forall k | 0 < k < |rest| :: NoMatchIn(s, pat, rest[k - 1].end, rest[k].start)
    requires rest != [] ==> NoMatchIn(s, pat, m.end, rest[0].start)
    ensures forall k | 0 < k < |[m] + rest| :: NoMatchIn(s, pat, ([m] + rest)[k - 1].end, ([m] + rest)[k].start)
  {
    forall k | 0 < k < |[m] + rest|
      ensures NoMatchIn(s, pat, ([m] + rest)[k - 1].end, ([m] + rest)[k].start)
    {
      assert ([m] + rest)[k] == rest[k - 1];
      if k > 1 {
        assert ([m] + rest)[k - 1] == rest[k - 2];
      }
    }
  }

  /** The text of the first capture group of `s.match(re)`, if it matches. */
  function FirstCapture(s: string, pat: Pattern): Option<string> {
    match Leftmost(s, pat, 0)
    case None => None
    case Some(m) => Some(m.capture)
  }

  // ---------------------------------------------------------------- `marker([^/]+)/`

  /** At i: the marker, then c (non-empty, free of `/`), then `/`. */
  ghost predicate SegmentAt(s: string, marker: string, i: nat, c: string) {
    i <= |s| && c != [] && '/' !in c && StartsWith(s[i..], marker + c + "/")
  }

  /** A `marker([^/]+)/` capture is non-empty, free of `/`, and the subject holds marker + capture + "/". */
  lemma SegmentCapture(s: string, marker: string, i: nat)
    requires i <= |s| && MatchAt(s, Segment(marker), i).Some?
    ensures var c := MatchAt(s, Segment(marker), i).value.capture;
      c != [] && '/' !in c && StartsWith(s[i..], marker + c + "/")
  {
    var k := i + |marker|;
    var n := Run(s, k, NotSlash);
    var c := s[k..k + n];
    forall m | 0 <= m < n
      ensures c[m] != '/'
    {
      assert InClass(s[k + m], NotSlash);
    }
    assert s[i..][..|marker + c + "/"|] == marker + c + "/" by {
      assert s[i..][..|marker|] == marker;
      assert s[i..][|marker|..|marker| + n] == c;
      assert s[i..][|marker| + n] == '/';
    }
  }

  /** `marker([^/]+)/` matches at i, capturing c, exactly when such a segment sits at i. */
  lemma {:induction false} SegmentMatch(s: string, marker: string, i: nat, c: string)
    requires i <= |s|
    ensures SegmentAt(s, marker, i, c) <==>
      MatchAt(s, Segment(marker), i).Some? && MatchAt(s, Segment(marker), i).value.capture == c
  {
    if MatchAt(s, Segment(marker), i).Some? {
      SegmentCapture(s, marker, i);
    }
    if SegmentAt(s, marker, i, c) {
      var whole := marker + c + "/";
      var k := i + |marker|;
      assert s[i..][..|marker|] == whole[..|marker|] == marker;
      forall m | 0 <= m < |c|
        ensures c[m] == s[k + m]
      {
        assert s[i..][|marker| + m] == whole[|marker| + m];
      }
      forall m | k <= m < k + |c|
        ensures InClass(s[m], NotSlash)
      {
        assert c[m - k] == s[m];
      }
      assert s[i..][|marker| + |c|] == whole[|marker| + |c|] == '/';
      RunStopsAt(s, k, NotSlash, |c|);
      assert s[k..k + |c|] == c;
    }
  }

  /** What `s.match(/marker([^/]+)\//)` captures: the segment at the least position that has one, if any. */
  ghost predicate IsFirstSegment(s: string, marker: string, r: Option<string>) {
    match r
    case None => forall i, c | 0 <= i <= |s| :: !SegmentAt(s, marker, i, c)
    case Some(c) => exists i | 0 <= i <= |s| ::
      SegmentAt(s, marker, i, c) && forall j, d | 0 <= j < i :: !SegmentAt(s, marker, j, d)
  }

  lemma FirstSegment(s: string, marker: string)
    ensures IsFirstSegment(s, marker, FirstCapture(s, Segment(marker)))
  {
    var m := Leftmost(s, Segment(marker), 0);
    forall j, d | 0 <= j <= |s| && (m.None? || j < m.value.start)
      ensures !SegmentAt(s, marker, j, d)
    {
      SegmentMatch(s, marker, j, d);
    }
    if m.Some? {
      SegmentMatch(s, marker, m.value.start, m.value.capture);
    }
  }

  // ---------------------------------------------------------------- `marker([^/\s]+)`

  /** c is a longest run of `[^/\s]` characters from k: what a greedy `([^/\s]+)` captures there. */
  ghost predicate WordRunAt(s: string, k: nat, c: string) {
    && k + |c| <= |s| && s[k..k + |c|] == c && c != []
    && (forall m | 0 <= m < |c| :: c[m] != '/' && !IsSpace(c[m]))
    && (k + |c| == |s| || s[k + |c|] == '/' || IsSpace(s[k + |c|]))
  }

  /** The marker at i, followed by a character other than `/` and white space. */
  ghost predicate WordStartsAt(s: string, marker: string, i: nat) {
    i <= |s| && StartsWith(s[i..], marker) && i + |marker| < |s|
    && s[i + |marker|] != '/' && !IsSpace(s[i + |marker|])
  }

  /** `marker([^/\s]+)` matches at i exactly when the marker is followed by a `[^/\s]`; it captures the whole run, and ends with it. */
  lemma WordCapture(s: string, marker: string, i: nat)
    requires i <= |s|
    ensures MatchAt(s, Word(marker), i).Some? <==> WordStartsAt(s, marker, i)
    ensures MatchAt(s, Word(marker), i).Some? ==>
      var m := MatchAt(s, Word(marker), i).value;
      && StartsWith(s[i..], marker + m.capture)
      && WordRunAt(s, i + |marker|, m.capture)
      && m.end == i + |marker| + |m.capture|
  {
    if StartsWith(s[i..], marker) {
      var k := i + |marker|;
      var n := Run(s, k, NotSlashOrSpace);
      var c := s[k..k + n];
      RunStarts(s, k, NotSlashOrSpace);
      if 0 < n {
        assert MatchAt(s, Word(marker), i) == Some(Match(i, k + n, c));
        RunIsWord(s, k, c);
        MarkerThenRun(s, i, marker, n);
      }
    }
  }

  /** The marker at i followed by the n characters after it. */
  lemma MarkerThenRun(s: string, i: nat, marker: string, n: nat)
    requires i <= |s| && StartsWith(s[i..], marker) && i + |marker| + n <= |s|
    ensures StartsWith(s[i..], marker + s[i + |marker|..i + |marker| + n])
  {
    var k := i + |marker|;
    var w := marker + s[k..k + n];
    forall m | 0 <= m < |w|
      ensures s[i..][m] == w[m]
    {
      if m < |marker| {
        assert s[i..][..|marker|][m] == s[i..][m];
      } else {
        assert s[k..k + n][m - |marker|] == s[k + m - |marker|];
      }
    }
    assert s[i..][..|w|] == w;
  }

  /** What `s.match(/marker([^/\s]+)/)` captures: the run after the marker at the least position where one follows. */
  ghost predicate IsFirstWord(s: string, marker: string, r: Option<string>) {
    match r
    case None => forall i | 0 <= i <= |s| :: !WordStartsAt(s, marker, i)
    case Some(c) => exists i | 0 <= i <= |s| ::
      && WordStartsAt(s, marker, i) && WordRunAt(s, i + |marker|, c)
      && forall j | 0 <= j < i :: !WordStartsAt(s, marker, j)
  }

  lemma FirstWord(s: string, marker: string)
    ensures IsFirstWord(s, marker, FirstCapture(s, Word(marker)))
  {
    var m := Leftmost(s, Word(marker), 0);
    forall j | 0 <= j <= |s| && (m.None? || j < m.value.start)
      ensures !WordStartsAt(s, marker, j)
    {
      WordCapture(s, marker, j);
    }
    if m.Some? {
      WordCapture(s, marker, m.value.start);
    }
  }

  // ---------------------------------------------------------------- `<!--[^>]*(alt|...)([^/\s]+)`

  /** `<!--` at i and no `>` from its end up to j: the places where an alternative may start. */
  ghost predicate InComment(s: string, i: nat, j: nat) {
    i + 4 <= j <= |s| && StartsWith(s[i..], "<!--") && forall k | i + 4 <= k < j :: s[k] != '>'
  }

  /** Alternative a, case-insensitively, at j, followed by a character other than `/` and white space. */
  ghost predicate AltWord(s: string, j: nat, a: string) {
    j <= |s| && StartsWithIgnoringCase(s[j..], a) && j + |a| < |s|
    && s[j + |a|] != '/' && !IsSpace(s[j + |a|])
  }

  ghost predicate AltAt(s: string, alts: seq<string>, j: nat) {
    exists a | a in alts :: AltWord(s, j, a)
  }

  /** Some alternative at j is followed by the run c. */
  ghost predicate AltCaptures(s: string, alts: seq<string>, j: nat, c: string) {
    exists a | a in alts :: AltWord(s, j, a) && WordRunAt(s, j + |a|, c)
  }

  /** A comment opening at i holds an alternative followed by a `[^/\s]`. */
  ghost predicate CommentRefOccurs(s: string, alts: seq<string>, i: nat) {
    exists j | i <= j <= |s| :: InComment(s, i, j) && AltAt(s, alts, j)
  }

  /** The capture c comes after the alternative at j, the last place in the comment opening at i where one fits. */
  ghost predicate CommentRefChoice(s: string, alts: seq<string>, i: nat, j: nat, c: string) {
    && InComment(s, i, j) && AltCaptures(s, alts, j, c)
    && forall j' | j < j' <= |s| && InComment(s, i, j') :: !AltAt(s, alts, j')
  }

  lemma AltsCons(s: string, alts: seq<string>, j: nat, c: string)
    requires alts != []
    ensures AltAt(s, alts, j) <==> AltWord(s, j, alts[0]) || AltAt(s, alts[1..], j)
    ensures AltCaptures(s, alts[1..], j, c) ==> AltCaptures(s, alts, j, c)
  {
    assert forall b | b in alts[1..] :: b in alts;
    assert forall b | b in alts :: b == alts[0] || b in alts[1..] by {
      assert alts == [alts[0]] + alts[1..];
    }
  }

  lemma RunStarts(s: string, k: nat, cls: CharClass)
    requires k <= |s|
    ensures 0 < Run(s, k, cls) <==> k < |s| && InClass(s[k], cls)
  {
  }

  /** A non-empty `[^/\s]*` run at k is a maximal word run. */
  lemma RunIsWord(s: string, k: nat, c: string)
    requires k <= |s| && 0 < Run(s, k, NotSlashOrSpace) && c == s[k..k + Run(s, k, NotSlashOrSpace)]
    ensures WordRunAt(s, k, c)
  {
    forall m | 0 <= m < |c|
      ensures c[m] != '/' && !IsSpace(c[m])
    {
      assert c[m] == s[k + m] && InClass(s[k + m], NotSlashOrSpace);
    }
  }

  /** When the first alternative fits at j, its word run is the capture. */
  lemma HeadAltCapture(s: string, alts: seq<string>, start: nat, j: nat)
    requires j <= |s| && alts != []
    requires StartsWithIgnoringCase(s[j..], alts[0]) && 0 < Run(s, j + |alts[0]|, NotSlashOrSpace)
    ensures AltCapture(s, alts, start, j).Some?
    ensures AltWord(s, j, alts[0]) && WordRunAt(s, j + |alts[0]|, AltCapture(s, alts, start, j).value.capture)
  {
    var k := j + |alts[0]|;
    var c := AltCapture(s, alts, start, j).value.capture;
    assert c == s[k..k + Run(s, k, NotSlashOrSpace)];
    RunStarts(s, k, NotSlashOrSpace);
    RunIsWord(s, k, c);
  }

  lemma AltCapturesAt(s: string, alts: seq<string>, j: nat, a: string, c: string)
    requires a in alts && AltWord(s, j, a) && WordRunAt(s, j + |a|, c)
    ensures AltCaptures(s, alts, j, c)
  {
  }

  /** Trying the alternatives at j finds one exactly when some alternative fits there. */
  lemma {:induction false} AltCaptureFinds(s: string, alts: seq<string>, start: nat, j: nat)
    requires j <= |s|
    ensures AltCapture(s, alts, start, j).Some? <==> AltAt(s, alts, j)
    decreases |alts|
  {
    if alts != [] {
      var a := alts[0];
      AltsCons(s, alts, j, []);
      if StartsWithIgnoringCase(s[j..], a) {
        RunStarts(s, j + |a|, NotSlashOrSpace);
      }
      AltCaptureFinds(s, alts[1..], start, j);
    }
  }

  /** What it captures is the word run after an alternative that fits at j. */
  lemma {:induction false} AltCaptureWord(s: string, alts: seq<string>, start: nat, j: nat)
    requires j <= |s| && AltCapture(s, alts, start, j).Some?
    ensures AltCaptures(s, alts, j, AltCapture(s, alts, start, j).value.capture)
    decreases |alts|
  {
    var a := alts[0];
    var r := AltCapture(s, alts, start, j);
    if StartsWithIgnoringCase(s[j..], a) && 0 < Run(s, j + |a|, NotSlashOrSpace) {
      HeadAltCapture(s, alts, start, j);
      AltCapturesAt(s, alts, j, a, r.value.capture);
    } else {
      assert r == AltCapture(s, alts[1..], start, j);
      AltCaptureWord(s, alts[1..], start, j);
      AltsCons(s, alts, j, r.value.capture);
    }
  }

  /** Giving back from j down to lo finds a match exactly when an alternative fits somewhere in between. */
  lemma {:induction false} BacktrackFinds(s: string, alts: seq<string>, start: nat, lo: nat, j: nat)
    requires start < lo <= j <= |s|
    ensures CommentBacktrack(s, alts, start, lo, j).Some? <==> exists j' | lo <= j' <= j :: AltAt(s, alts, j')
    decreases j
  {
    AltCaptureFinds(s, alts, start, j);
    if AltCapture(s, alts, start, j).None? && j > lo {
      BacktrackFinds(s, alts, start, lo, j - 1);
    }
  }

  /** The match found is the one at j', the last place up to j where trying the alternatives succeeds. */
  lemma {:induction false} BacktrackChoice(s: string, alts: seq<string>, start: nat, lo: nat, j: nat) returns (j': nat)
    requires start < lo <= j <= |s| && CommentBacktrack(s, alts, start, lo, j).Some?
    ensures lo <= j' <= j
    ensures AltCapture(s, alts, start, j') == CommentBacktrack(s, alts, start, lo, j)
    ensures forall j'' | j' < j'' <= j :: AltCapture(s, alts, start, j'').None?
    decreases j
  {
    if AltCapture(s, alts, start, j).Some? {
      j' := j;
    } else {
      assert j > lo && CommentBacktrack(s, alts, start, lo, j) == CommentBacktrack(s, alts, start, lo, j - 1);
      j' := BacktrackChoice(s, alts, start, lo, j - 1);
    }
  }

  /** After `<!--` at i the places without a `>` before them are those up to where `[^>]*` stops. */
  lemma CommentWindow(s: string, i: nat)
    requires i <= |s| && StartsWith(s[i..], "<!--")
    ensures forall j | 0 <= j <= |s| ::
      InComment(s, i, j) <==> i + 4 <= j <= i + 4 + Run(s, i + 4, NotGreaterThan)
  {
    var hi := i + 4 + Run(s, i + 4, NotGreaterThan);
    forall j | hi < j <= |s|
      ensures !InComment(s, i, j)
    {
      assert s[hi] == '>';
    }
    forall j | i + 4 <= j <= hi
      ensures InComment(s, i, j)
    {
      forall k | i + 4 <= k < j
        ensures s[k] != '>'
      {
        assert InClass(s[k], NotGreaterThan);
      }
    }
  }

  /** `<!--[^>]*(alt|...)([^/\s]+)` matches at i exactly when the comment opening there holds an alternative followed by a `[^/\s]`. */
  lemma CommentRefMatches(s: string, alts: seq<string>, i: nat)
    requires i <= |s|
    ensures MatchAt(s, CommentRef(alts), i).Some? <==> CommentRefOccurs(s, alts, i)
  {
    if StartsWith(s[i..], "<!--") {
      var lo := i + 4;
      var hi := lo + Run(s, lo, NotGreaterThan);
      assert MatchAt(s, CommentRef(alts), i) == CommentBacktrack(s, alts, i, lo, hi);
      BacktrackFinds(s, alts, i, lo, hi);
      CommentWindow(s, i);
    }
  }

  /**
   * The capture of a CommentRef match at i is the whole `[^/\s]` run after the alternative at
   * the last place in the comment where one fits (the greedy `[^>]*` gives characters back from
   * the right); it is non-empty and free of `/` and white space.
   */
  lemma CommentRefCapture(s: string, alts: seq<string>, i: nat)
    requires i <= |s| && MatchAt(s, CommentRef(alts), i).Some?
    ensures var c := MatchAt(s, CommentRef(alts), i).value.capture;
      && c != [] && (forall k | 0 <= k < |c| :: c[k] != '/' && !IsSpace(c[k]))
      && exists j | i <= j <= |s| :: CommentRefChoice(s, alts, i, j, c)
  {
    var lo := i + 4;
    var hi := lo + Run(s, lo, NotGreaterThan);
    var c := MatchAt(s, CommentRef(alts), i).value.capture;
    assert MatchAt(s, CommentRef(alts), i) == CommentBacktrack(s, alts, i, lo, hi);
    var j := BacktrackChoice(s, alts, i, lo, hi);
    CommentWindow(s, i);
    AltCaptureWord(s, alts, i, j);
    forall j'' | j < j'' <= |s| && InComment(s, i, j'')
      ensures !AltAt(s, alts, j'')
    {
      AltCaptureFinds(s, alts, i, j'');
    }
    assert CommentRefChoice(s, alts, i, j, c);
  }

  /** What a non-global CommentRef match captures: the choice in the first comment that holds a reference. */
  ghost predicate IsFirstCommentRef(s: string, alts: seq<string>, r: Option<string>) {
    match r
    case None => forall i | 0 <= i <= |s| :: !CommentRefOccurs(s, alts, i)
    case Some(c) => exists i, j | 0 <= i <= j <= |s| ::
      && (forall i' | 0 <= i' < i :: !CommentRefOccurs(s, alts, i'))
      && CommentRefChoice(s, alts, i, j, c)
  }

  lemma FirstCommentRef(s: string, alts: seq<string>)
    ensures IsFirstCommentRef(s, alts, FirstCapture(s, CommentRef(alts)))
  {
    var m := Leftmost(s, CommentRef(alts), 0);
    forall i | 0 <= i <= |s| && (m.None? || i < m.value.start)
      ensures !CommentRefOccurs(s, alts, i)
    {
      CommentRefMatches(s, alts, i);
    }
    if m.Some? {
      CommentRefCapture(s, alts, m.value.start);
    }
  }

  // ---------------------------------------------------------------- `key\s*(.+)`, case-insensitive

  /**
   * `\s*` given back from K towards p: the capture starts at the last position k in [p, K] whose
   * character ends no line, and runs up to the next line terminator or the end.
   */
  lemma {:induction false} FieldBacktrackCapture(s: string, start: nat, p: nat, K: nat)
    requires start <= p <= K <= |s|
    ensures FieldBacktrack(s, start, p, K).None? <==> forall j | p <= j <= K :: j == |s| || IsLineTerminator(s[j])
    ensures var m := FieldBacktrack(s, start, p, K);
      m.Some? ==>
        var k := m.value.end - |m.value.capture|;
        && p <= k <= K && k < |s| && m.value.capture == s[k..m.value.end] && m.value.capture != []
        && (forall j | k <= j < m.value.end :: !IsLineTerminator(s[j]))
        && (m.value.end == |s| || IsLineTerminator(s[m.value.end]))
        && (forall j | k < j <= K :: j == |s| || IsLineTerminator(s[j]))
    decreases K
  {
    if K < |s| && !IsLineTerminator(s[K]) {
      var n := Run(s, K, NotLineTerminator);
      forall j | K <= j < K + n
        ensures !IsLineTerminator(s[j])
      {
        assert InClass(s[j], NotLineTerminator);
      }
    } else if K > p {
      FieldBacktrackCapture(s, start, p, K - 1);
    }
  }

  /**
   * What `\s*(.+)` takes from p in match m: white space up to the capture, then the capture,
   * which is the non-empty rest of the line. The white space gives back as little as it can:
   * no later position that the greedy `\s*` reaches holds a character ending no line.
   */
  ghost predicate FieldTail(s: string, p: nat, m: Match)
    requires p <= |s|
  {
    var k := m.end - |m.capture|;
    && p <= k < m.end <= |s| && m.capture == s[k..m.end]
    && (forall j | p <= j < k :: IsSpace(s[j]))
    && (forall j | k <= j < m.end :: !IsLineTerminator(s[j]))
    && (m.end == |s| || IsLineTerminator(s[m.end]))
    && (forall j | k < j <= p + Run(s, p, Space) :: j == |s| || IsLineTerminator(s[j]))
  }

  /** A match of `key\s*(.+)` at i: the key sits at i (letter case aside), then the field's tail. */
  lemma FieldCapture(s: string, key: string, i: nat)
    requires i <= |s|
    ensures var m := MatchAt(s, Field(key), i);
      m.Some? ==> StartsWithIgnoringCase(s[i..], key) && FieldTail(s, i + |key|, m.value)
  {
    assert MatchAt(s, Field(key), i) == FieldMatchAt(s, key, i);
    if StartsWithIgnoringCase(s[i..], key) {
      FieldAfterKey(s, i, i + |key|);
    }
  }

  /** The capture after the key at p: white space first, then the rest of the line. */
  lemma FieldAfterKey(s: string, start: nat, p: nat)
    requires start <= p <= |s|
    ensures var m := FieldBacktrack(s, start, p, p + Run(s, p, Space));
      m.Some? ==> FieldTail(s, p, m.value)
  {
    var w := Run(s, p, Space);
    FieldBacktrackCapture(s, start, p, p + w);
    forall j | p <= j < p + w
      ensures IsSpace(s[j])
    {
      assert InClass(s[j], Space);
    }
  }

  /** Conversely, the key followed by white space only and then a character ending no line is a match. */
  lemma FieldMatches(s: string, key: string, i: nat, k: nat)
    requires i <= |s| && StartsWithIgnoringCase(s[i..], key)
    requires i + |key| <= k < |s| && !IsLineTerminator(s[k])
    requires forall j | i + |key| <= j < k :: IsSpace(s[j])
    ensures MatchAt(s, Field(key), i).Some?
  {
    var p := i + |key|;
    var w := Run(s, p, Space);
    FieldBacktrackCapture(s, i, p, p + w);
  }

  // ---------------------------------------------------------------- `\/\*\s*([\s\S]*?)\*\/`

  // No closing star-slash starts on a white-space character.
  lemma NoCloserInSpace(s: string, lo: nat, hi: nat)
    requires lo <= hi <= |s|
    requires forall j | lo <= j < hi :: IsSpace(s[j])
    ensures forall q | lo <= q < hi :: !StartsWith(s[q..], "*/")
  {
    forall q | lo <= q < hi
      ensures !StartsWith(s[q..], "*/")
    {
      assert IsSpace(s[q]);
    }
  }

  // The block comment matches at i exactly when an opening slash-star sits at i and some
  // closing star-slash starts at i + 2 or later. The match ends at the first such closer, and
  // the capture is what lies between the white space after the opener and that closer.
  lemma BlockCommentCapture(s: string, i: nat)
    requires i <= |s|
    ensures MatchAt(s, BlockComment, i).None? <==>
      !StartsWith(s[i..], "/*") || forall q | i + 2 <= q <= |s| :: !StartsWith(s[q..], "*/")
    ensures var m := MatchAt(s, BlockComment, i);
      m.Some? ==>
        && StartsWith(s[i..], "/*")
        && var w := i + 2 + Run(s, i + 2, Space);
        && w <= m.value.end - 2 && m.value.capture == s[w..m.value.end - 2]
        && StartsWith(s[m.value.end - 2..], "*/")
        && forall q | i + 2 <= q < m.value.end - 2 :: !StartsWith(s[q..], "*/")
  {
    if StartsWith(s[i..], "/*") {
      var n := Run(s, i + 2, Space);
      forall j | i + 2 <= j < i + 2 + n
        ensures IsSpace(s[j])
      {
        assert InClass(s[j], Space);
      }
      NoCloserInSpace(s, i + 2, i + 2 + n);
    }
  }
}

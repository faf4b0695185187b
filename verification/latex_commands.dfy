/**
 * The newer reasoning page's inline renderer, which besides `$…$` spans
 * also detects bare LaTeX commands: from each unescaped backslash it reads
 * the command name, its `{…}`/`[…]` arguments and the mathematical
 * characters around it. The two kinds of matches are merged, sorted by
 * start, and overlapping ones are dropped (the first kept wins).
 */
module LatexCommands {
  import opened Wrappers
  import opened Strings
  import opened Latex

  // ---------------------------------------------------------------------
  // Character classes

  /** `[a-zA-Z@]`: the characters of a command name. */
  predicate NameChar(c: char) {
    'a' <= c <= 'z' || 'A' <= c <= 'Z' || c == '@'
  }

  /** `[a-zA-Z0-9]`. */
  predicate Alnum(c: char) {
    'a' <= c <= 'z' || 'A' <= c <= 'Z' || '0' <= c <= '9'
  }

  /** `α-ωΑ-Ω`. */
  predicate Greek(c: char) {
    'α' <= c <= 'ω' || 'Α' <= c <= 'Ω'
  }

  /** The operators and symbols every class below shares. */
  predicate Operator(c: char) {
    c in "()+-*/=<>≤≥≠±×÷∑∏∫√∞"
  }

  /** The class that ends an argument scan when a character is outside it. */
  predicate ArgChar(c: char) {
    Alnum(c) || c == '^' || c == '_' || c == '{' || c == '[' || Operator(c) || Greek(c) || JsSpace(c)
  }

  /** The class the match grows over to the left (no whitespace, opening brackets). */
  predicate LeftChar(c: char) {
    Alnum(c) || c == '^' || c == '_' || c == '{' || c == '[' || Operator(c) || Greek(c)
  }

  /** The class the match grows over to the right (whitespace, closing brackets). */
  predicate RightChar(c: char) {
    Alnum(c) || c == '^' || c == '_' || c == '}' || c == ']' || Operator(c) || Greek(c) || JsSpace(c)
  }

  // ---------------------------------------------------------------------
  // One command

  /** The end of the run of name characters starting at `k`. */
  function NameEnd(s: string, k: nat): (n: nat)
    requires k <= |s|
    ensures k <= n <= |s|
    ensures forall j | k <= j < n :: NameChar(s[j])
    ensures n < |s| ==> !NameChar(s[n])
    decreases |s| - k
  {
    if k < |s| && NameChar(s[k]) then NameEnd(s, k + 1) else k
  }

  /**
   * The argument loop: braces and brackets are counted and a closing one
   * without an opening one stops the scan; at nesting depth 0 a backslash
   * not preceded by one, `^`/`_` and their argument, and the characters of
   * `ArgChar` extend the match. After `^` or `_` with neither `{` nor a
   * letter or digit next, the loop's own increment runs too, so the
   * position moves two characters on; at the end of the text that is one
   * past the end.
   */
  function ArgScan(s: string, pos: nat, brace: int, bracket: int): (e: nat)
    requires 1 <= pos <= |s| + 1
    ensures pos <= e <= |s| + 1
    decreases |s| + 1 - pos
  {
    if pos >= |s| then pos
    else
      var c := s[pos];
      if c == '{' then ArgScan(s, pos + 1, brace + 1, bracket)
      else if c == '}' then (if brace - 1 < 0 then pos else ArgScan(s, pos + 1, brace - 1, bracket))
      else if c == '[' then ArgScan(s, pos + 1, brace, bracket + 1)
      else if c == ']' then (if bracket - 1 < 0 then pos else ArgScan(s, pos + 1, brace, bracket - 1))
      else if brace == 0 && bracket == 0 then
        if c == '\\' && s[pos - 1] != '\\' then ArgScan(s, pos + 1, brace, bracket)
        else if c == '^' || c == '_' then
          if pos + 1 < |s| && s[pos + 1] == '{' then ArgScan(s, pos + 2, brace + 1, bracket)
          else if pos + 1 < |s| && Alnum(s[pos + 1]) then ArgScan(s, pos + 2, brace, bracket)
          else ArgScan(s, pos + 2, brace, bracket)
        else if !ArgChar(c) then pos
        else ArgScan(s, pos + 1, brace, bracket)
      else ArgScan(s, pos + 1, brace, bracket)
  }

  /** Growing to the right over `RightChar` and unescaped backslashes. */
  function RightExtend(s: string, e: nat): (r: nat)
    requires 1 <= e <= |s| + 1
    ensures e <= r <= |s| + 1
    ensures r > |s| ==> r == e
    decreases |s| + 1 - e
  {
    if e >= |s| then e
    else if s[e] == '\\' && s[e - 1] != '\\' then RightExtend(s, e + 1)
    else if !RightChar(s[e]) then e
    else RightExtend(s, e + 1)
  }

  /** Growing to the left over `LeftChar`. */
  function LeftExtend(s: string, st: nat): (r: nat)
    requires st <= |s|
    ensures r <= st
    ensures forall j | r <= j < st :: LeftChar(s[j])
    ensures r > 0 ==> !LeftChar(s[r - 1])
  {
    if st > 0 && LeftChar(s[st - 1]) then LeftExtend(s, st - 1) else st
  }

  /** A command starting at `i`: an unescaped backslash followed by at least one name character. */
  predicate CommandStart(s: string, i: nat) {
    i + 1 < |s| && s[i] == '\\' && (i == 0 || s[i - 1] != '\\') && NameChar(s[i + 1])
  }

  /** The raw range [start, end) the page computes for the command at `i`; `end` may be `|s| + 1`. */
  function CommandRange(s: string, i: nat): (r: (nat, nat))
    requires CommandStart(s, i)
    ensures r.0 <= i && i + 2 <= r.1 <= |s| + 1
  {
    var n := NameEnd(s, i + 1);
    (LeftExtend(s, i), RightExtend(s, ArgScan(s, n, 0, 0)))
  }

  /** `inlineMatches.some(m => i >= m.start && i < m.end)`. */
  predicate InsideAny(sp: seq<Span>, i: nat) {
    exists j | 0 <= j < |sp| :: sp[j].start <= i < sp[j].end
  }

  function Min(a: nat, b: nat): nat {
    if a <= b then a else b
  }

  /** The match the page records for the command at `i`: its raw range and its trimmed text. */
  function CommandMatchAsWritten(s: string, i: nat): (m: Span)
    requires CommandStart(s, i)
  {
    var (st, e) := CommandRange(s, i);
    Span(st, e, Trim(s[st..Min(e, |s|)], JsSpace))
  }

  /**
   * The scan as the page writes it: each command's match (kept when its
   * text is not blank), resuming at the match's raw end.
   */
  function CommandScanAsWritten(s: string, i: nat, inl: seq<Span>): (sp: seq<Span>)
    requires i <= |s| + 1
    decreases |s| + 1 - i
  {
    if i >= |s| then []
    else if InsideAny(inl, i) then CommandScanAsWritten(s, i + 1, inl)
    else if CommandStart(s, i) then
      var m := CommandMatchAsWritten(s, i);
      (if m.content != "" then [m] else []) + CommandScanAsWritten(s, m.end, inl)
    else CommandScanAsWritten(s, i + 1, inl)
  }

  /**
   * A `^` at the very end of the text makes the recorded match end one past
   * the end: for `\a^` (three characters) the match is [0, 4).
   */
  lemma CommandOvershoots()
    ensures CommandScanAsWritten("\\a^", 0, []) == [Span(0, 4, "\\a^")]
  {
    var s := "\\a^";
    assert CommandStart(s, 0);
    assert NameEnd(s, 1) == 2;
    assert ArgScan(s, 2, 0, 0) == 4;
    assert RightExtend(s, 4) == 4;
    assert LeftExtend(s, 0) == 0;
    assert s[0..3] == s;
    assert !JsSpace(s[0]) && !JsSpace(s[2]);
    assert Trim(s, JsSpace) == s by {
      assert TrimStart(s, JsSpace) == s;
      assert TrimEnd(s, JsSpace) == s;
    }
    assert CommandScanAsWritten(s, 4, []) == [];
  }

  /** A command match inside the text: non-empty range, its text trimmed and not blank. */
  predicate IsCommand(s: string, m: Span) {
    m.start < m.end <= |s| && m.content == Trim(s[m.start..m.end], JsSpace) && m.content != ""
  }

  /**
   * The match with its end kept within the text, as the rest of the
   * renderer evidently assumes (`slice` already treats it so).
   */
  function CommandMatch(s: string, i: nat): (m: Span)
    requires CommandStart(s, i)
    ensures IsCommand(s, m)
    ensures m.start <= i && m.end == Min(CommandMatchAsWritten(s, i).end, |s|)
    ensures m == CommandMatchAsWritten(s, i).(end := m.end)
  {
    var (st, e) := CommandRange(s, i);
    var t := s[st..Min(e, |s|)];
    VisibleNotBlank(t, i - st);
    Span(st, Min(e, |s|), Trim(t, JsSpace))
  }

  /** A text holding a visible character does not trim to nothing. */
  lemma {:induction false} VisibleNotBlank(t: string, k: nat)
    requires k < |t| && !JsSpace(t[k])
    ensures Trim(t, JsSpace) != ""
  {
  }

  /** Every element is a command match in `s`. */
  predicate AllCommands(s: string, sp: seq<Span>) {
    |sp| == 0 || (IsCommand(s, sp[0]) && AllCommands(s, sp[1..]))
  }

  lemma {:induction false} CommandsInside(s: string, sp: seq<Span>)
    requires AllCommands(s, sp)
    ensures forall x | x in sp :: x.start < x.end <= |s|
  {
    if |sp| > 0 {
      CommandsInside(s, sp[1..]);
      assert forall x | x in sp :: x == sp[0] || x in sp[1..];
    }
  }

  /** The corrected scan: the same commands, each end pulled back into the text. */
  function CommandScan(s: string, i: nat, inl: seq<Span>): (sp: seq<Span>)
    requires i <= |s| + 1
    ensures AllCommands(s, sp)
    decreases |s| + 1 - i
  {
    if i >= |s| then []
    else if InsideAny(inl, i) then CommandScan(s, i + 1, inl)
    else if CommandStart(s, i) then
      var m := CommandMatch(s, i);
      var rest := CommandScan(s, CommandMatchAsWritten(s, i).end, inl);
      assert ([m] + rest)[1..] == rest;
      [m] + rest
    else CommandScan(s, i + 1, inl)
  }

  /** `c` is `a` with every end pulled back to at most `n`. */
  predicate ClampedTo(a: seq<Span>, c: seq<Span>, n: nat) {
    |a| == |c| && (|a| == 0 || (c[0] == a[0].(end := Min(a[0].end, n)) && ClampedTo(a[1..], c[1..], n)))
  }

  /** The pointwise reading of `ClampedTo`. */
  lemma {:induction false} ClampedPointwise(a: seq<Span>, c: seq<Span>, n: nat)
    requires ClampedTo(a, c, n)
    ensures |a| == |c| && forall j | 0 <= j < |a| :: c[j] == a[j].(end := Min(a[j].end, n))
  {
    if |a| > 0 {
      ClampedPointwise(a[1..], c[1..], n);
      forall j | 1 <= j < |a|
        ensures c[j] == a[j].(end := Min(a[j].end, n))
      {
        assert a[1..][j - 1] == a[j] && c[1..][j - 1] == c[j];
      }
    }
  }

  /** The corrected scan finds the same commands with the same texts; only an overshooting end is pulled back. */
  lemma {:induction false} ScanAgreesUpToClamp(s: string, i: nat, inl: seq<Span>)
    requires i <= |s| + 1
    ensures ClampedTo(CommandScanAsWritten(s, i, inl), CommandScan(s, i, inl), |s|)
    decreases |s| + 1 - i
  {
    if i < |s| {
      if InsideAny(inl, i) {
        ScanAgreesUpToClamp(s, i + 1, inl);
      } else if CommandStart(s, i) {
        var m := CommandMatchAsWritten(s, i);
        var c := CommandMatch(s, i);
        ScanAgreesUpToClamp(s, m.end, inl);
        var ra := CommandScanAsWritten(s, m.end, inl);
        var rc := CommandScan(s, m.end, inl);
        assert m.content != "";
        assert CommandScanAsWritten(s, i, inl) == [m] + ra;
        assert CommandScan(s, i, inl) == [c] + rc;
        assert ([m] + ra)[1..] == ra && ([c] + rc)[1..] == rc;
      } else {
        ScanAgreesUpToClamp(s, i + 1, inl);
      }
    }
  }

  // ---------------------------------------------------------------------
  // Merging

  predicate SortedByStart(sp: seq<Span>) {
    forall i, j | 0 <= i < j < |sp| :: sp[i].start <= sp[j].start
  }

  /** Inserting before the first match that starts at or after `m` keeps earlier equals first. */
  function Insert(m: Span, sp: seq<Span>): (r: seq<Span>)
    ensures multiset(r) == multiset(sp) + multiset{m}
    ensures |r| == |sp| + 1
  {
    if |sp| == 0 || m.start <= sp[0].start then [m] + sp
    else
      assert sp == [sp[0]] + sp[1..];
      [sp[0]] + Insert(m, sp[1..])
  }

  lemma {:induction false} InsertSorted(m: Span, sp: seq<Span>)
    requires SortedByStart(sp)
    ensures SortedByStart(Insert(m, sp))
  {
    if |sp| > 0 && m.start > sp[0].start {
      var tail := sp[1..];
      var rest := Insert(m, tail);
      InsertSorted(m, tail);
      assert forall k | 0 <= k < |tail| :: sp[0].start <= tail[k].start by {
        forall k | 0 <= k < |tail| ensures sp[0].start <= tail[k].start {
          assert tail[k] == sp[k + 1];
        }
      }
      InsertLowerBound(m, tail, sp[0].start);
      var r := [sp[0]] + rest;
      forall i, j | 0 <= i < j < |r|
        ensures r[i].start <= r[j].start
      {
        if i == 0 {
          assert r[j] == rest[j - 1];
        } else {
          assert r[i] == rest[i - 1] && r[j] == rest[j - 1];
        }
      }
    }
  }

  /** A bound below `m` and every element of `sp` is a bound below their insertion. */
  lemma {:induction false} InsertLowerBound(m: Span, sp: seq<Span>, b: int)
    requires b <= m.start && forall k | 0 <= k < |sp| :: b <= sp[k].start
    ensures forall k | 0 <= k < |Insert(m, sp)| :: b <= Insert(m, sp)[k].start
  {
    if |sp| > 0 && m.start > sp[0].start {
      var tail := sp[1..];
      InsertLowerBound(m, tail, b);
      var r := Insert(m, sp);
      assert r == [sp[0]] + Insert(m, tail);
      forall k | 0 <= k < |r| ensures b <= r[k].start {
        if k > 0 {
          assert r[k] == Insert(m, tail)[k - 1];
        }
      }
    }
  }

  /** `sort((a, b) => a.start - b.start)`: a stable sort by start. */
  function SortByStart(sp: seq<Span>): (r: seq<Span>)
    ensures multiset(r) == multiset(sp)
  {
    if |sp| == 0 then []
    else
      assert sp == [sp[0]] + sp[1..];
      Insert(sp[0], SortByStart(sp[1..]))
  }

  lemma {:induction false} SortByStartSorted(sp: seq<Span>)
    ensures SortedByStart(SortByStart(sp))
  {
    if |sp| > 0 {
      SortByStartSorted(sp[1..]);
      InsertSorted(sp[0], SortByStart(sp[1..]));
    }
  }

  /** Sorting what is already sorted changes nothing. */
  lemma {:induction false} SortSortedIsIdentity(sp: seq<Span>)
    requires SortedByStart(sp)
    ensures SortByStart(sp) == sp
  {
    if |sp| > 0 {
      var tail := sp[1..];
      SortedTail(sp);
      SortSortedIsIdentity(tail);
      assert SortByStart(sp) == Insert(sp[0], SortByStart(tail));
      assert |tail| == 0 || sp[0].start <= tail[0].start;
      assert Insert(sp[0], tail) == [sp[0]] + tail;
      assert sp == [sp[0]] + tail;
    }
  }

  predicate Overlap(a: Span, b: Span) {
    a.start < b.end && a.end > b.start
  }

  predicate Disjoint(sp: seq<Span>) {
    forall i, j | 0 <= i < j < |sp| :: !Overlap(sp[j], sp[i])
  }

  predicate OverlapsSome(m: Span, kept: seq<Span>) {
    exists j | 0 <= j < |kept| :: Overlap(m, kept[j])
  }

  /** The overlap filter: a match is kept unless it overlaps one kept before it. */
  function KeepDisjoint(ms: seq<Span>, kept: seq<Span>): (r: seq<Span>)
    decreases |ms|
  {
    if |ms| == 0 then kept
    else if OverlapsSome(ms[0], kept) then KeepDisjoint(ms[1..], kept)
    else KeepDisjoint(ms[1..], kept + [ms[0]])
  }

  /** Every kept match starts no later than any match still to come. */
  predicate StartsBefore(kept: seq<Span>, ms: seq<Span>) {
    forall a, b | a in kept && b in ms :: a.start <= b.start
  }

  lemma {:induction false} SortedTail(ms: seq<Span>)
    requires |ms| > 0 && SortedByStart(ms)
    ensures SortedByStart(ms[1..]) && StartsBefore([ms[0]], ms[1..])
  {
    forall i, j | 0 <= i < j < |ms[1..]|
      ensures ms[1..][i].start <= ms[1..][j].start
    {
      assert ms[1..][i] == ms[i + 1] && ms[1..][j] == ms[j + 1];
    }
    forall a, b | a in [ms[0]] && b in ms[1..]
      ensures a.start <= b.start
    {
      var k :| 0 <= k < |ms[1..]| && ms[1..][k] == b;
      assert ms[k + 1] == b;
    }
  }

  /** Appending a match that starts after the kept ones and overlaps none of them keeps them sorted and disjoint. */
  lemma {:induction false} AppendKept(kept: seq<Span>, m: Span)
    requires SortedByStart(kept) && Disjoint(kept)
    requires forall a | a in kept :: a.start <= m.start
    requires !OverlapsSome(m, kept)
    ensures SortedByStart(kept + [m]) && Disjoint(kept + [m])
  {
    var k2 := kept + [m];
    forall i, j | 0 <= i < j < |k2|
      ensures k2[i].start <= k2[j].start && !Overlap(k2[j], k2[i])
    {
      assert k2[i] == kept[i];
      if j < |kept| {
        assert k2[j] == kept[j];
      } else {
        assert kept[i] in kept;
        assert !Overlap(m, kept[i]);
      }
    }
  }

  /** Over matches sorted by start, the filter's result is sorted and pairwise disjoint and extends what was kept. */
  lemma {:induction false} KeepDisjointSound(ms: seq<Span>, kept: seq<Span>)
    requires SortedByStart(ms) && SortedByStart(kept) && Disjoint(kept) && StartsBefore(kept, ms)
    ensures SortedByStart(KeepDisjoint(ms, kept)) && Disjoint(KeepDisjoint(ms, kept))
    ensures kept <= KeepDisjoint(ms, kept)
    decreases |ms|
  {
    if |ms| > 0 {
      var m := ms[0];
      SortedTail(ms);
      if OverlapsSome(m, kept) {
        KeepDisjointSound(ms[1..], kept);
      } else {
        AppendKept(kept, m);
        assert StartsBefore(kept + [m], ms[1..]) by {
          forall a, b | a in kept + [m] && b in ms[1..] ensures a.start <= b.start {
            assert b in ms;
            assert m in [ms[0]];
          }
        }
        KeepDisjointSound(ms[1..], kept + [m]);
      }
    }
  }

  /** The filter keeps only matches it was given, and drops a match only when it overlaps a kept one. */
  lemma {:induction false} KeepDisjointSelects(ms: seq<Span>, kept: seq<Span>)
    ensures forall x | x in KeepDisjoint(ms, kept) :: x in kept || x in ms
    ensures forall x | x in ms :: x in KeepDisjoint(ms, kept) || OverlapsSome(x, KeepDisjoint(ms, kept))
    decreases |ms|
  {
    if |ms| > 0 {
      var m := ms[0];
      var k2 := if OverlapsSome(m, kept) then kept else kept + [m];
      KeepDisjointSelects(ms[1..], k2);
      KeepDisjointGrows(ms[1..], k2);
      var r := KeepDisjoint(ms, kept);
      assert r == KeepDisjoint(ms[1..], k2);
      if OverlapsSome(m, kept) {
        var j :| 0 <= j < |kept| && Overlap(m, kept[j]);
        assert r[j] == kept[j];
      } else {
        assert r[|kept|] == m;
      }
    }
  }

  lemma {:induction false} KeepDisjointGrows(ms: seq<Span>, kept: seq<Span>)
    ensures kept <= KeepDisjoint(ms, kept)
    decreases |ms|
  {
    if |ms| > 0 {
      var k2 := if OverlapsSome(ms[0], kept) then kept else kept + [ms[0]];
      KeepDisjointGrows(ms[1..], k2);
    }
  }

  /** Sorted, pairwise disjoint, non-empty matches inside the text are ordered as `Cut` needs. */
  lemma {:induction false} SortedDisjointOrdered(sp: seq<Span>, n: nat)
    requires SortedByStart(sp) && Disjoint(sp)
    requires forall i | 0 <= i < |sp| :: sp[i].start < sp[i].end <= n
    ensures Ordered(sp, 0, n)
  {
    forall i | 0 <= i < |sp| - 1
      ensures sp[i].end <= sp[i + 1].start
    {
      assert !Overlap(sp[i + 1], sp[i]);
    }
  }

  // ---------------------------------------------------------------------
  // The renderer

  /** Both kinds of matches, in the order the page lists them. */
  function Found(s: string): seq<Span> {
    var inl := InlineMatches(s);
    inl + CommandScan(s, 0, inl)
  }

  /** Every match found lies inside the text and is non-empty. */
  lemma {:induction false} FoundInside(s: string)
    ensures forall x | x in Found(s) :: x.start < x.end <= |s|
  {
    var inl := InlineMatches(s);
    var cs := CommandScan(s, 0, inl);
    CommandsInside(s, cs);
    assert forall x | x in inl :: x.start < x.end <= |s| by {
      forall x | x in inl
        ensures x.start < x.end <= |s|
      {
        var k :| 0 <= k < |inl| && inl[k] == x;
      }
    }
    assert forall x | x in Found(s) :: x in inl || x in cs;
  }

  /** The kept matches: found, sorted, filtered, sorted again. */
  function Kept(s: string): (sp: seq<Span>) {
    SortByStart(KeepDisjoint(SortByStart(Found(s)), []))
  }

  /**
   * The kept matches are ordered and disjoint inside the text, each was
   * found, and every found match is kept or overlaps a kept one; the second
   * sort changes nothing.
   */
  lemma {:induction false} KeptSound(s: string)
    ensures Ordered(Kept(s), 0, |s|)
    ensures Kept(s) == KeepDisjoint(SortByStart(Found(s)), [])
    ensures forall x | x in Kept(s) :: x in Found(s)
    ensures forall x | x in Found(s) :: x in Kept(s) || OverlapsSome(x, Kept(s))
  {
    var all := SortByStart(Found(s));
    SortByStartSorted(Found(s));
    KeepDisjointSound(all, []);
    KeepDisjointSelects(all, []);
    var kept := KeepDisjoint(all, []);
    SortSortedIsIdentity(kept);
    FoundInside(s);
    forall x | x in all
      ensures x in Found(s)
    {
      assert x in multiset(all);
    }
    forall x | x in Found(s)
      ensures x in all
    {
      assert x in multiset(Found(s));
    }
    forall i | 0 <= i < |kept|
      ensures kept[i].start < kept[i].end <= |s|
    {
      assert kept[i] in all;
    }
    SortedDisjointOrdered(kept, |s|);
  }

  /**
   * `renderInlineMath` of the newer page over the corrected matches: `[]`
   * for empty text, blank gaps dropped, `[text]` when nothing was emitted.
   */
  function RenderInlineCorrected(text: string): (ps: seq<Part>)
    ensures text == "" ==> ps == []
    ensures text != "" ==> |ps| > 0
    ensures forall i | 0 <= i < |ps| :: !ps[i].BlockMath?
    ensures forall i | 0 <= i < |ps| :: ps[i].Text? ==> !AllSpace(ps[i].text, JsSpace) || ps == [Text(text)]
  {
    if text == "" then []
    else
      KeptSound(text);
      var ps := InlineParts(Cut(text, Kept(text), 0), false);
      if |ps| == 0 then [Text(text)] else ps
  }

  // ---------------------------------------------------------------------
  // The renderer as written

  /** `text.slice(a, b)`: both ends clamped to the text, empty when they cross. */
  function JsSlice(t: string, a: nat, b: nat): (r: string)
    ensures |r| <= |t|
  {
    if Min(a, |t|) <= Min(b, |t|) then t[Min(a, |t|)..Min(b, |t|)] else ""
  }

  /** A plain stretch is shown only when it is not blank. */
  function Gap(g: string): (ps: seq<Part>)
    ensures ps == (if AllSpace(g, JsSpace) then [] else [Text(g)])
  {
    if AllSpace(g, JsSpace) then [] else [Text(g)]
  }

  /** What one turn of the page's loop shows for the match `m`: the stretch before it when it starts later, then its formula. */
  function LoopStep(t: string, m: Span, last: nat): (ps: seq<Part>)
    ensures |ps| <= 2
    ensures forall i | 0 <= i < |ps| :: !ps[i].BlockMath?
    ensures forall i | 0 <= i < |ps| :: ps[i].Text? ==> !AllSpace(ps[i].text, JsSpace)
  {
    var formula := FormulaParts(m.content, false);
    if m.start <= last then formula
    else
      var g := JsSlice(t, last, m.start);
      if AllSpace(g, JsSpace) then formula else [Text(g)] + formula
  }

  /**
   * The page's loop over the kept matches, from `lastIndex == last`: each
   * match's turn, then whatever follows the last match's end. Ends past the
   * text are allowed, and `slice` clamps them.
   */
  function Loop(t: string, ms: seq<Span>, last: nat): (ps: seq<Part>)
    ensures forall i | 0 <= i < |ps| :: !ps[i].BlockMath?
    ensures forall i | 0 <= i < |ps| :: ps[i].Text? ==> !AllSpace(ps[i].text, JsSpace)
    decreases |ms|
  {
    if |ms| == 0 then (if last < |t| then Gap(t[last..]) else [])
    else LoopStep(t, ms[0], last) + Loop(t, ms[1..], ms[0].end)
  }

  /** Both kinds of matches, with the command matches as the page records them. */
  function FoundAsWritten(s: string): seq<Span> {
    var inl := InlineMatches(s);
    inl + CommandScanAsWritten(s, 0, inl)
  }

  /** The kept matches as the page computes them from its own command matches. */
  function KeptAsWritten(s: string): seq<Span> {
    SortByStart(KeepDisjoint(SortByStart(FoundAsWritten(s)), []))
  }

  /** The page's loop over the matches `ms`, falling back to `[text]` when it emitted nothing. */
  function RenderWith(text: string, ms: seq<Span>): (ps: seq<Part>)
    ensures text == "" ==> ps == []
    ensures text != "" ==> |ps| > 0
    ensures forall i | 0 <= i < |ps| :: !ps[i].BlockMath?
    ensures forall i | 0 <= i < |ps| :: ps[i].Text? ==> !AllSpace(ps[i].text, JsSpace) || ps == [Text(text)]
  {
    if text == "" then []
    else
      var ps := Loop(text, ms, 0);
      if |ps| == 0 then [Text(text)] else ps
  }

  /**
   * `renderInlineMath` of the newer page as written: the page's loop over
   * its own kept matches, whose last end may lie one past the text.
   */
  function RenderInline(text: string): (ps: seq<Part>)
    ensures text == "" ==> ps == []
    ensures text != "" ==> |ps| > 0
    ensures forall i | 0 <= i < |ps| :: !ps[i].BlockMath?
    ensures forall i | 0 <= i < |ps| :: ps[i].Text? ==> !AllSpace(ps[i].text, JsSpace) || ps == [Text(text)]
  {
    RenderWith(text, KeptAsWritten(text))
  }

  /** Every match starts inside the text. */
  predicate StartsBelow(sp: seq<Span>, n: nat) {
    forall i | 0 <= i < |sp| :: sp[i].start < n
  }

  lemma {:induction false} ClampedSelf(a: seq<Span>, n: nat)
    requires forall i | 0 <= i < |a| :: a[i].end <= n
    ensures ClampedTo(a, a, n)
    decreases |a|
  {
    if |a| > 0 {
      ClampedSelf(a[1..], n);
    }
  }

  lemma {:induction false} ClampedAppend(a1: seq<Span>, c1: seq<Span>, a2: seq<Span>, c2: seq<Span>, n: nat)
    requires ClampedTo(a1, c1, n) && ClampedTo(a2, c2, n)
    ensures ClampedTo(a1 + a2, c1 + c2, n)
    decreases |a1|
  {
    if |a1| == 0 {
      assert a1 + a2 == a2 && c1 + c2 == c2;
    } else {
      ClampedAppend(a1[1..], c1[1..], a2, c2, n);
      assert (a1 + a2)[0] == a1[0] && (c1 + c2)[0] == c1[0];
      assert (a1 + a2)[1..] == a1[1..] + a2 && (c1 + c2)[1..] == c1[1..] + c2;
    }
  }

  /** Clamping an end does not move a match's place among others sorted by start. */
  lemma {:induction false} ClampedInsert(m: Span, a: seq<Span>, c: seq<Span>, n: nat)
    requires ClampedTo(a, c, n)
    ensures ClampedTo(Insert(m, a), Insert(m.(end := Min(m.end, n)), c), n)
    decreases |a|
  {
    var mc := m.(end := Min(m.end, n));
    if |a| == 0 || m.start <= a[0].start {
      assert ([m] + a)[1..] == a && ([mc] + c)[1..] == c;
    } else {
      ClampedInsert(m, a[1..], c[1..], n);
      var ra := Insert(m, a[1..]);
      var rc := Insert(mc, c[1..]);
      assert Insert(m, a) == [a[0]] + ra && ([a[0]] + ra)[1..] == ra;
      assert Insert(mc, c) == [c[0]] + rc && ([c[0]] + rc)[1..] == rc;
    }
  }

  lemma {:induction false} ClampedSort(a: seq<Span>, c: seq<Span>, n: nat)
    requires ClampedTo(a, c, n)
    ensures ClampedTo(SortByStart(a), SortByStart(c), n)
    decreases |a|
  {
    if |a| > 0 {
      ClampedSort(a[1..], c[1..], n);
      ClampedInsert(a[0], SortByStart(a[1..]), SortByStart(c[1..]), n);
    }
  }

  /** For matches that start inside the text, clamping an end changes no overlap test. */
  lemma {:induction false} ClampedOverlaps(m: Span, kept: seq<Span>, keptc: seq<Span>, n: nat)
    requires m.start < n && ClampedTo(kept, keptc, n) && StartsBelow(keptc, n)
    ensures OverlapsSome(m, kept) <==> OverlapsSome(m.(end := Min(m.end, n)), keptc)
  {
    ClampedPointwise(kept, keptc, n);
    var mc := m.(end := Min(m.end, n));
    if OverlapsSome(m, kept) {
      var j :| 0 <= j < |kept| && Overlap(m, kept[j]);
      assert Overlap(mc, keptc[j]);
    }
    if OverlapsSome(mc, keptc) {
      var j :| 0 <= j < |keptc| && Overlap(mc, keptc[j]);
      assert Overlap(m, kept[j]);
    }
  }

  lemma {:induction false} ClampedKeep(ms: seq<Span>, mc: seq<Span>, kept: seq<Span>, keptc: seq<Span>, n: nat)
    requires ClampedTo(ms, mc, n) && ClampedTo(kept, keptc, n)
    requires StartsBelow(mc, n) && StartsBelow(keptc, n)
    ensures ClampedTo(KeepDisjoint(ms, kept), KeepDisjoint(mc, keptc), n)
    decreases |ms|
  {
    if |ms| > 0 {
      ClampedPointwise(ms, mc, n);
      assert StartsBelow(mc[1..], n) by {
        forall i | 0 <= i < |mc[1..]| ensures mc[1..][i].start < n {
          assert mc[1..][i] == mc[i + 1];
        }
      }
      ClampedOverlaps(ms[0], kept, keptc, n);
      if OverlapsSome(ms[0], kept) {
        ClampedKeep(ms[1..], mc[1..], kept, keptc, n);
      } else {
        ClampedSelf([], n);
        assert ClampedTo([ms[0]], [mc[0]], n);
        ClampedAppend(kept, keptc, [ms[0]], [mc[0]], n);
        ClampedKeep(ms[1..], mc[1..], kept + [ms[0]], keptc + [mc[0]], n);
      }
    }
  }

  /** Matches with the same elements start inside the text together. */
  lemma {:induction false} StartsBelowPermuted(a: seq<Span>, b: seq<Span>, n: nat)
    requires multiset(a) == multiset(b) && StartsBelow(b, n)
    ensures StartsBelow(a, n)
  {
    forall i | 0 <= i < |a| ensures a[i].start < n {
      assert a[i] in multiset(b);
      var j :| 0 <= j < |b| && b[j] == a[i];
    }
  }

  /** The page's own kept matches are the corrected ones with each end clamped to the text. */
  lemma {:induction false} KeptClamps(s: string)
    ensures ClampedTo(KeptAsWritten(s), Kept(s), |s|)
  {
    var inl := InlineMatches(s);
    ClampedSelf(inl, |s|);
    ScanAgreesUpToClamp(s, 0, inl);
    ClampedAppend(inl, inl, CommandScanAsWritten(s, 0, inl), CommandScan(s, 0, inl), |s|);
    FoundInside(s);
    var sorted := SortByStart(Found(s));
    assert StartsBelow(Found(s), |s|) by {
      forall i | 0 <= i < |Found(s)| ensures Found(s)[i].start < |s| {
        assert Found(s)[i] in Found(s);
      }
    }
    StartsBelowPermuted(sorted, Found(s), |s|);
    ClampedSort(FoundAsWritten(s), Found(s), |s|);
    ClampedKeep(SortByStart(FoundAsWritten(s)), sorted, [], [], |s|);
    ClampedSort(KeepDisjoint(SortByStart(FoundAsWritten(s)), []), KeepDisjoint(sorted, []), |s|);
  }

  /**
   * The loop gives the same parts for matches that differ only in ends
   * clamped to the text: a start inside the text compares the same with
   * either last end, and `slice` reads the same characters.
   */
  lemma {:induction false} LoopClamp(t: string, a: seq<Span>, c: seq<Span>, la: nat, lc: nat)
    requires ClampedTo(a, c, |t|) && StartsBelow(c, |t|) && Min(la, |t|) == Min(lc, |t|)
    ensures Loop(t, a, la) == Loop(t, c, lc)
    decreases |a|
  {
    if |a| > 0 {
      assert StartsBelow(c[1..], |t|) by {
        forall i | 0 <= i < |c[1..]| ensures c[1..][i].start < |t| {
          assert c[1..][i] == c[i + 1];
        }
      }
      LoopClamp(t, a[1..], c[1..], a[0].end, c[0].end);
    }
  }

  /** Over ordered matches inside the text the page's loop renders exactly the cut pieces. */
  lemma {:induction false} LoopIsCut(t: string, sp: seq<Span>, last: nat)
    requires last <= |t| && Ordered(sp, last, |t|)
    ensures Loop(t, sp, last) == InlineParts(Cut(t, sp, last), false)
    decreases |sp|
  {
    if |sp| == 0 {
      if last < |t| {
        assert InlineParts([Plain(t[last..])], false) == Gap(t[last..]);
      }
    } else {
      var m := sp[0];
      OrderedTail(sp, last, |t|);
      LoopIsCut(t, sp[1..], m.end);
      var pre: seq<Seg> := if m.start > last then [Plain(t[last..m.start])] else [];
      var mid: seq<Seg> := [Math(t[m.start..m.end], m.content)];
      var rest := Cut(t, sp[1..], m.end);
      assert Cut(t, sp, last) == pre + mid + rest;
      InlinePartsAppend(pre + mid, rest, false);
      InlinePartsAppend(pre, mid, false);
      assert InlineParts(mid, false) == FormulaParts(m.content, false);
      if m.start > last {
        assert InlineParts(pre, false) == Gap(t[last..m.start]);
        assert JsSlice(t, last, m.start) == t[last..m.start];
      }
    }
  }

  /**
   * The renderer as written and the corrected one give the same parts: the
   * only match that can end past the text is the last one, and `slice`
   * already reads it up to the end.
   */
  lemma {:induction false} RenderInlinesAgree(text: string)
    ensures RenderInline(text) == RenderInlineCorrected(text)
  {
    if text != "" {
      KeptSound(text);
      KeptClamps(text);
      assert StartsBelow(Kept(text), |text|);
      LoopClamp(text, KeptAsWritten(text), Kept(text), 0, 0);
      LoopIsCut(text, Kept(text), 0);
    }
  }
}

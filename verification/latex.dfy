/**
 * The LaTeX segmentation of the answer cards (`renderMath` and
 * `renderInlineMath`): `$$…$$` blocks are found left to right, the text
 * between blocks is searched for `$…$` spans, and the pieces become plain
 * text, inline formulas and block formulas. The regular expressions are
 * written out as explicit scanners over character positions.
 */
module Latex {
  import opened Wrappers
  import opened Strings
  import opened Lines

  /** A match: the half-open range [start, end) of the text and the formula it holds. */
  datatype Span = Span(start: nat, end: nat, content: string)

  /** Non-empty matches inside [lo, hi], ordered by start, pairwise disjoint. */
  predicate Ordered(sp: seq<Span>, lo: nat, hi: nat) {
    && (forall i | 0 <= i < |sp| :: lo <= sp[i].start < sp[i].end <= hi)
    && (forall i | 0 <= i < |sp| - 1 :: sp[i].end <= sp[i + 1].start)
  }

  lemma {:induction false} OrderedCons(m: Span, rest: seq<Span>, lo: nat, hi: nat)
    requires lo <= m.start < m.end <= hi && Ordered(rest, m.end, hi)
    ensures Ordered([m] + rest, lo, hi)
  {
  }

  lemma {:induction false} OrderedTail(sp: seq<Span>, lo: nat, hi: nat)
    requires |sp| > 0 && Ordered(sp, lo, hi)
    ensures Ordered(sp[1..], sp[0].end, hi)
  {
    forall i | 0 <= i < |sp| - 1
      ensures sp[0].end <= sp[1..][i].start
    {
      if i > 0 {
        OrderedChain(sp, lo, hi, 0, i + 1);
      }
    }
  }

  /** In ordered matches, a later match starts after every earlier one ends. */
  lemma {:induction false} OrderedChain(sp: seq<Span>, lo: nat, hi: nat, i: nat, j: nat)
    requires Ordered(sp, lo, hi) && i < j < |sp|
    ensures sp[i].end <= sp[j].start
    decreases j - i
  {
    if j > i + 1 {
      OrderedChain(sp, lo, hi, i + 1, j);
    }
  }

  // ---------------------------------------------------------------------
  // Cutting a text at its matches

  /** A piece of the text: plain text, or a match's raw text with the formula inside it. */
  datatype Seg = Plain(text: string) | Math(raw: string, content: string)

  function Raw(g: Seg): string {
    match g
    case Plain(t) => t
    case Math(r, _) => r
  }

  function Raws(gs: seq<Seg>): (rs: seq<string>)
    ensures |rs| == |gs|
    ensures forall i | 0 <= i < |gs| :: rs[i] == Raw(gs[i])
  {
    if |gs| == 0 then [] else [Raw(gs[0])] + Raws(gs[1..])
  }

  /**
   * The loop over the matches: the text before each match (when there is
   * any), the match, and after the last match the rest of the text.
   */
  function Cut(s: string, sp: seq<Span>, last: nat): (gs: seq<Seg>)
    requires last <= |s| && Ordered(sp, last, |s|)
    ensures forall i | 0 <= i < |gs| :: gs[i].Plain? ==> gs[i].text != ""
    decreases |sp|
  {
    if |sp| == 0 then (if last < |s| then [Plain(s[last..])] else [])
    else
      var m := sp[0];
      OrderedTail(sp, last, |s|);
      (if m.start > last then [Plain(s[last..m.start])] else [])
        + [Math(s[m.start..m.end], m.content)]
        + Cut(s, sp[1..], m.end)
  }

  lemma {:induction false} RawsAppend(a: seq<Seg>, b: seq<Seg>)
    ensures Raws(a + b) == Raws(a) + Raws(b)
  {
    assert Raws(a + b) == Raws(a) + Raws(b);
  }

  lemma {:induction false} SliceThree(s: string, a: nat, b: nat, c: nat)
    requires a <= b <= c <= |s|
    ensures s[a..] == s[a..b] + s[b..c] + s[c..]
  {
  }

  /** The pieces, plain and matched alike, put back together give the text. */
  lemma {:induction false} CutReconstructs(s: string, sp: seq<Span>, last: nat)
    requires last <= |s| && Ordered(sp, last, |s|)
    ensures Concat(Raws(Cut(s, sp, last))) == s[last..]
    decreases |sp|
  {
    if |sp| > 0 {
      var m := sp[0];
      OrderedTail(sp, last, |s|);
      var pre: seq<Seg> := if m.start > last then [Plain(s[last..m.start])] else [];
      var rest := Cut(s, sp[1..], m.end);
      CutReconstructs(s, sp[1..], m.end);
      assert Cut(s, sp, last) == pre + [Math(s[m.start..m.end], m.content)] + rest;
      RawsAppend(pre + [Math(s[m.start..m.end], m.content)], rest);
      RawsAppend(pre, [Math(s[m.start..m.end], m.content)]);
      ConcatAppend(Raws(pre) + [s[m.start..m.end]], Raws(rest));
      ConcatAppend(Raws(pre), [s[m.start..m.end]]);
      assert Concat(Raws(pre)) == s[last..m.start];
      assert Concat([s[m.start..m.end]]) == s[m.start..m.end];
      SliceThree(s, last, m.start, m.end);
    } else if last < |s| {
      assert Concat([s[last..]]) == s[last..];
    }
  }

  /** Text with no match is one plain piece (none when it is empty). */
  lemma {:induction false} CutWithoutMatches(s: string)
    ensures Cut(s, [], 0) == (if s == "" then [] else [Plain(s)])
  {
    assert s[0..] == s;
  }

  // ---------------------------------------------------------------------
  // Blocks: /\$\$([\s\S]*?)\$\$/g

  predicate PairAt(s: string, i: nat) {
    i + 1 < |s| && s[i] == '$' && s[i + 1] == '$'
  }

  /** The first `$$` at or after `from`, or `|s|` when there is none. */
  function FindPair(s: string, from: nat): (k: nat)
    requires from <= |s|
    ensures from <= k <= |s|
    ensures k < |s| ==> PairAt(s, k)
    ensures forall j | from <= j < k :: !PairAt(s, j)
    decreases |s| - from
  {
    if from == |s| then from
    else if PairAt(s, from) then from
    else FindPair(s, from + 1)
  }

  /** A block `$$…$$` occupies [p, e): delimiters at both ends, no `$$` starting inside. */
  predicate BlockAt(s: string, p: nat, e: nat) {
    && p + 4 <= e <= |s| && PairAt(s, p) && PairAt(s, e - 2)
    && forall j | p + 2 <= j < e - 2 :: !PairAt(s, j)
  }

  /** A block match and the text between its delimiters. */
  predicate IsBlock(s: string, m: Span) {
    BlockAt(s, m.start, m.end) && m.content == s[m.start + 2..m.end - 2]
  }

  /**
   * The global search: the leftmost `$$` opens a block, the nearest `$$` at
   * least two characters later closes it, and the search resumes after it.
   */
  function BlockSpans(s: string, from: nat): (sp: seq<Span>)
    requires from <= |s|
    ensures Ordered(sp, from, |s|)
    ensures forall i | 0 <= i < |sp| :: IsBlock(s, sp[i])
    ensures |sp| > 0 ==> forall j | from <= j < sp[0].start :: !PairAt(s, j)
    decreases |s| - from
  {
    var p := FindPair(s, from);
    if p == |s| then []
    else
      var q := FindPair(s, p + 2);
      if q == |s| then []
      else
        var m := Span(p, q + 2, s[p + 2..q]);
        var rest := BlockSpans(s, q + 2);
        OrderedCons(m, rest, from, |s|);
        assert IsBlock(s, m);
        [m] + rest
  }

  /**
   * Nothing is missed: when the search finds no block, the text holds no
   * two `$$` at least two characters apart.
   */
  lemma {:induction false} BlockSpansComplete(s: string, from: nat)
    requires from <= |s| && BlockSpans(s, from) == []
    ensures forall p, q | from <= p && p + 2 <= q :: !(PairAt(s, p) && PairAt(s, q))
  {
    var p0 := FindPair(s, from);
    if p0 < |s| {
      var q0 := FindPair(s, p0 + 2);
      assert q0 == |s|;
    }
  }

  // ---------------------------------------------------------------------
  // Inline spans: /(?<!\$)\$(?!\$)([^$\n]+?)\$(?!\$)/g

  /** The first `$` at or after `k`, or `|s|`. */
  function NextDollar(s: string, k: nat): (j: nat)
    requires k <= |s|
    ensures k <= j <= |s|
    ensures j < |s| ==> s[j] == '$'
    ensures forall i | k <= i < j :: s[i] != '$'
    decreases |s| - k
  {
    if k == |s| || s[k] == '$' then k else NextDollar(s, k + 1)
  }

  /** No `$` right before `p` and none right at `e`. */
  predicate Isolated(s: string, p: nat, e: nat)
    requires p <= |s| && e <= |s|
  {
    (p == 0 || s[p - 1] != '$') && (e == |s| || s[e] != '$')
  }

  /**
   * An inline match occupies [p, e): `$`, one or more characters other
   * than `$` and line breaks, `$`, with no `$` just before or just after.
   */
  predicate InlineAt(s: string, p: nat, e: nat) {
    && p + 3 <= e <= |s| && s[p] == '$' && s[e - 1] == '$'
    && (forall k | p < k < e - 1 :: s[k] != '$' && s[k] != '\n')
    && Isolated(s, p, e)
  }

  /** Whether the pattern matches at `p`, and where that match ends. */
  function InlineEnd(s: string, p: nat): (r: Option<nat>)
    requires p < |s|
    ensures r.Some? ==> InlineAt(s, p, r.value)
  {
    if s[p] == '$' && (p == 0 || s[p - 1] != '$') then
      var q := NextDollar(s, p + 1);
      if q < |s| && q > p + 1 && NoNewline(s[p + 1..q]) && (q + 1 == |s| || s[q + 1] != '$') then
        assert forall k | p < k < q :: s[k] == s[p + 1..q][k - p - 1];
        Some(q + 1)
      else None
    else None
  }

  /** The scanner agrees with the declarative definition of a match. */
  lemma {:induction false} InlineEndIff(s: string, p: nat, e: nat)
    requires p < |s|
    ensures InlineEnd(s, p) == Some(e) <==> InlineAt(s, p, e)
  {
    if InlineAt(s, p, e) {
      var q := NextDollar(s, p + 1);
      assert q == e - 1;
    }
  }

  /** A match of the inline pattern, holding the text between its dollars. */
  predicate IsInline(s: string, m: Span) {
    InlineAt(s, m.start, m.end) && m.content == s[m.start + 1..m.end - 1]
  }

  lemma {:induction false} InlineCons(s: string, m: Span, rest: seq<Span>)
    requires IsInline(s, m) && forall i | 0 <= i < |rest| :: IsInline(s, rest[i])
    ensures forall i | 0 <= i < |[m] + rest| :: IsInline(s, ([m] + rest)[i])
  {
    forall i | 0 <= i < |[m] + rest|
      ensures IsInline(s, ([m] + rest)[i])
    {
      if i > 0 { assert ([m] + rest)[i] == rest[i - 1]; }
    }
  }

  /** The global search: try each position in turn, resume after a match. */
  function InlineSpans(s: string, p: nat): (sp: seq<Span>)
    requires p <= |s|
    ensures Ordered(sp, p, |s|)
    ensures forall i | 0 <= i < |sp| :: IsInline(s, sp[i])
    ensures |sp| > 0 ==> forall k | p <= k < sp[0].start :: InlineEnd(s, k).None?
    decreases |s| - p
  {
    if p == |s| then []
    else
      match InlineEnd(s, p)
      case Some(e) =>
        var m := Span(p, e, s[p + 1..e - 1]);
        var rest := InlineSpans(s, e);
        OrderedCons(m, rest, p, |s|);
        InlineCons(s, m, rest);
        [m] + rest
      case None => InlineSpans(s, p + 1)
  }

  /** The extra check on the characters around each match. */
  function KeepIsolated(s: string, sp: seq<Span>): (r: seq<Span>)
    requires forall i | 0 <= i < |sp| :: sp[i].start <= |s| && sp[i].end <= |s|
    ensures |r| <= |sp|
  {
    if |sp| == 0 then []
    else if Isolated(s, sp[0].start, sp[0].end) then [sp[0]] + KeepIsolated(s, sp[1..])
    else KeepIsolated(s, sp[1..])
  }

  /** The look-around assertions already exclude a neighbouring `$`, so the check drops nothing. */
  lemma {:induction false} IsolationCheckRedundant(s: string, sp: seq<Span>)
    requires forall i | 0 <= i < |sp| :: sp[i].start <= |s| && sp[i].end <= |s| && InlineAt(s, sp[i].start, sp[i].end)
    ensures KeepIsolated(s, sp) == sp
    decreases |sp|
  {
    if |sp| > 0 {
      IsolationCheckRedundant(s, sp[1..]);
    }
  }

  /** The matches of `renderInlineMath`. */
  function InlineMatches(s: string): (sp: seq<Span>)
    ensures Ordered(sp, 0, |s|)
    ensures forall i | 0 <= i < |sp| :: InlineAt(s, sp[i].start, sp[i].end)
  {
    var sp := InlineSpans(s, 0);
    IsolationCheckRedundant(s, sp);
    KeepIsolated(s, sp)
  }

  /** Nothing is missed: with no match found, no position starts a match. */
  lemma {:induction false} InlineMatchesComplete(s: string)
    requires InlineMatches(s) == []
    ensures forall p: nat, e: nat | p < |s| :: !InlineAt(s, p, e)
  {
    IsolationCheckRedundant(s, InlineSpans(s, 0));
    forall p: nat, e: nat | p < |s|
      ensures !InlineAt(s, p, e)
    {
      InlineSpansNone(s, 0, p);
      InlineEndIff(s, p, e);
    }
  }

  lemma {:induction false} InlineSpansNone(s: string, from: nat, p: nat)
    requires from <= p < |s| && InlineSpans(s, from) == []
    ensures InlineEnd(s, p).None?
    decreases |s| - from
  {
    if from < p {
      match InlineEnd(s, from)
      case None => InlineSpansNone(s, from + 1, p);
      case Some(_) =>
    }
  }

  // ---------------------------------------------------------------------
  // Rendering

  datatype Part = Text(text: string) | InlineMath(math: string) | BlockMath(math: string)

  /** A match becomes a formula holding its trimmed content, or nothing when that is blank. */
  function FormulaParts(content: string, block: bool): (ps: seq<Part>)
    ensures |ps| <= 1
    ensures |ps| == 1 <==> !AllSpace(content, JsSpace)
    ensures |ps| == 1 ==> ps[0] == (if block then BlockMath(Trim(content, JsSpace)) else InlineMath(Trim(content, JsSpace)))
  {
    if AllSpace(content, JsSpace) then []
    else if block then [BlockMath(Trim(content, JsSpace))]
    else [InlineMath(Trim(content, JsSpace))]
  }

  /**
   * The parts of a text cut at its inline matches. The older page keeps
   * every gap; the newer pages drop gaps that are only whitespace.
   */
  function InlineParts(gs: seq<Seg>, keepBlankGaps: bool): (ps: seq<Part>)
    ensures |ps| <= |gs|
    ensures !keepBlankGaps ==> forall i | 0 <= i < |ps| :: ps[i].Text? ==> !AllSpace(ps[i].text, JsSpace)
    ensures forall i | 0 <= i < |ps| :: !ps[i].BlockMath?
  {
    if |gs| == 0 then []
    else
      var head := match gs[0]
        case Plain(t) => if keepBlankGaps || !AllSpace(t, JsSpace) then [Text(t)] else []
        case Math(_, c) => FormulaParts(c, false);
      head + InlineParts(gs[1..], keepBlankGaps)
  }

  /** The parts of two runs of pieces are the parts of each, in order. */
  lemma {:induction false} InlinePartsAppend(x: seq<Seg>, y: seq<Seg>, keepBlankGaps: bool)
    ensures InlineParts(x + y, keepBlankGaps) == InlineParts(x, keepBlankGaps) + InlineParts(y, keepBlankGaps)
    decreases |x|
  {
    if |x| == 0 {
      assert x + y == y;
    } else {
      assert (x + y)[1..] == x[1..] + y;
      InlinePartsAppend(x[1..], y, keepBlankGaps);
    }
  }

  /** `renderInlineMath` without command detection: `[]` for empty text, `[text]` when nothing was emitted. */
  function RenderInline(text: string, keepBlankGaps: bool): (ps: seq<Part>)
    ensures text == "" ==> ps == []
    ensures text != "" ==> |ps| > 0
  {
    if text == "" then []
    else
      var ps := InlineParts(Cut(text, InlineMatches(text), 0), keepBlankGaps);
      if |ps| == 0 then [Text(text)] else ps
  }

  /** Text without any inline match renders as itself. */
  lemma {:induction false} NoInlineMatchIsText(text: string, keepBlankGaps: bool)
    requires text != "" && InlineMatches(text) == []
    ensures RenderInline(text, keepBlankGaps) == [Text(text)]
  {
    CutWithoutMatches(text);
    assert Cut(text, [], 0) == [Plain(text)];
  }

  /**
   * In the older page every piece of plain text survives, so the plain
   * parts put back together with the raw matches give the text.
   */
  lemma {:induction false} KeptGapsAreThePlainPieces(gs: seq<Seg>)
    requires forall i | 0 <= i < |gs| :: gs[i].Plain? ==> gs[i].text != ""
    ensures Texts(InlineParts(gs, true)) == PlainTexts(gs)
    decreases |gs|
  {
    if |gs| > 0 {
      KeptGapsAreThePlainPieces(gs[1..]);
      var head := match gs[0]
        case Plain(t) => [Text(t)]
        case Math(_, c) => FormulaParts(c, false);
      assert InlineParts(gs, true) == head + InlineParts(gs[1..], true);
      TextsAppend(head, InlineParts(gs[1..], true));
    }
  }

  /**
   * The older page's inline renderer keeps the text between formulas
   * verbatim: its plain parts are the plain pieces of the cut, and the
   * pieces with the raw matches give back the text.
   */
  lemma {:induction false} GapsKeptVerbatim(text: string)
    requires text != ""
    ensures var gs := Cut(text, InlineMatches(text), 0);
            && Concat(Raws(gs)) == text
            && (|InlineParts(gs, true)| > 0 ==> Texts(RenderInline(text, true)) == PlainTexts(gs))
  {
    var gs := Cut(text, InlineMatches(text), 0);
    CutReconstructs(text, InlineMatches(text), 0);
    assert text[0..] == text;
    KeptGapsAreThePlainPieces(gs);
  }

  /** The plain text parts, in order. */
  function Texts(ps: seq<Part>): seq<string> {
    if |ps| == 0 then []
    else if ps[0].Text? then [ps[0].text] + Texts(ps[1..])
    else Texts(ps[1..])
  }

  lemma {:induction false} TextsAppend(a: seq<Part>, b: seq<Part>)
    ensures Texts(a + b) == Texts(a) + Texts(b)
    decreases |a|
  {
    if |a| == 0 {
      assert a + b == b;
    } else {
      assert (a + b)[1..] == a[1..] + b;
      TextsAppend(a[1..], b);
    }
  }

  function PlainTexts(gs: seq<Seg>): seq<string> {
    if |gs| == 0 then []
    else if gs[0].Plain? then [gs[0].text] + PlainTexts(gs[1..])
    else PlainTexts(gs[1..])
  }

  /**
   * `renderMath`: block formulas for the `$$…$$` matches, the inline
   * renderer on the text between them; `['']` for empty text and `[text]`
   * when nothing was emitted.
   */
  function RenderMath(text: string, inline: string -> seq<Part>): (ps: seq<Part>)
    ensures text == "" ==> ps == [Text("")]
    ensures |ps| > 0
  {
    if text == "" then [Text("")]
    else
      var ps := BlockParts(Cut(text, BlockSpans(text, 0), 0), inline);
      if |ps| == 0 then [Text(text)] else ps
  }

  function BlockParts(gs: seq<Seg>, inline: string -> seq<Part>): (ps: seq<Part>) {
    if |gs| == 0 then []
    else
      var head := match gs[0]
        case Plain(t) => inline(t)
        case Math(_, c) => FormulaParts(c, true);
      head + BlockParts(gs[1..], inline)
  }

  /** The block formulas, in order: the trimmed non-blank block contents. */
  function Formulas(ps: seq<Part>): seq<string> {
    if |ps| == 0 then []
    else if ps[0].BlockMath? then [ps[0].math] + Formulas(ps[1..])
    else Formulas(ps[1..])
  }

  function BlockContents(gs: seq<Seg>): seq<string> {
    if |gs| == 0 then []
    else if gs[0].Math? && !AllSpace(gs[0].content, JsSpace) then [Trim(gs[0].content, JsSpace)] + BlockContents(gs[1..])
    else BlockContents(gs[1..])
  }

  lemma {:induction false} FormulasAppend(a: seq<Part>, b: seq<Part>)
    ensures Formulas(a + b) == Formulas(a) + Formulas(b)
    decreases |a|
  {
    if |a| == 0 {
      assert a + b == b;
    } else {
      assert (a + b)[1..] == a[1..] + b;
      FormulasAppend(a[1..], b);
    }
  }

  /**
   * The block formulas shown are exactly the non-blank block contents,
   * trimmed, in text order, whatever the inline renderer does with the
   * text between them (as long as it makes no block formulas).
   */
  lemma {:induction false} BlockFormulasInOrder(gs: seq<Seg>, inline: string -> seq<Part>)
    requires forall t :: Formulas(inline(t)) == []
    ensures Formulas(BlockParts(gs, inline)) == BlockContents(gs)
    decreases |gs|
  {
    if |gs| > 0 {
      BlockFormulasInOrder(gs[1..], inline);
      var head := match gs[0]
        case Plain(t) => inline(t)
        case Math(_, c) => FormulaParts(c, true);
      FormulasAppend(head, BlockParts(gs[1..], inline));
    }
  }
}

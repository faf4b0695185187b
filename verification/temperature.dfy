/**
 * The temperature comparison page: one prompt answered at temperatures 0,
 * 0.7 and 1.2 at once, then a fourth call asking the model to compare the
 * answers, whose reply is cut into three metrics.
 */
module Temperature {
  import opened Wrappers
  import opened Strings
  import opened Lines
  import opened Wire
  import opened Entries

  /** The temperatures as the page prints them (`${temp}`) and as numbers. */
  const Labels: seq<string> := ["0", "0.7", "1.2"]
  const Values: seq<real> := [0.0, 0.7, 1.2]

  /** `temp-${temp}`. */
  function CardId(shown: string): string {
    "temp-" + shown
  }

  // ---------------------------------------------------------------------
  // The batch

  /** The three loading cards a submit creates; the card's title is the printed temperature. */
  function Batch(prompt: string): (es: seq<Entry>)
    ensures |es| == 3
    ensures forall k | 0 <= k < 3 :: es[k] == Loading(CardId(Labels[k]), Labels[k], prompt)
  {
    seq(3, k requires 0 <= k < 3 => Loading(CardId(Labels[k]), Labels[k], prompt))
  }

  /** The card ids are `temp-0`, `temp-0.7`, `temp-1.2`, pairwise distinct. */
  lemma {:induction false} BatchIds(prompt: string)
    ensures Ids(Batch(prompt)) == ["temp-0", "temp-0.7", "temp-1.2"]
    ensures forall i, j | 0 <= i < j < 3 :: Batch(prompt)[i].id != Batch(prompt)[j].id
  {
    var es := Batch(prompt);
    assert es[0].id == "temp-0" && es[1].id == "temp-0.7" && es[2].id == "temp-1.2";
    assert Ids(es) == [es[0].id, es[1].id, es[2].id];
  }

  /** The body of card k's call: the page's prompt and that card's temperature, nothing else. */
  function CardRequest(prompt: string, k: nat): (req: ChatRequest)
    requires k < 3
    ensures req.prompt == Some(prompt) && req.temperature == Some(Values[k])
    ensures req.systemPrompt.None? && req.messages.None? && req.maxTokens.None?
  {
    ChatRequest(Some(prompt), None, None, Some(Values[k]), None)
  }

  /** The three requests differ in the temperature only, and there they all differ. */
  lemma {:induction false} RequestsDifferOnlyInTemperature(prompt: string, i: nat, j: nat)
    requires i < 3 && j < 3
    ensures CardRequest(prompt, i).(temperature := None) == CardRequest(prompt, j).(temperature := None)
    ensures i != j ==> CardRequest(prompt, i).temperature != CardRequest(prompt, j).temperature
  {
  }

  /**
   * The three calls run concurrently; whatever the interleaving of their
   * writes, each card ends as its own writes applied in order.
   */
  lemma {:induction false} BatchOutcome(prompt: string, sched: seq<(string, Write)>)
    ensures var r := ApplySchedule(Batch(prompt), sched);
            && |r| == 3
            && forall k | 0 <= k < 3 :: r[k] == ApplyAll(Batch(prompt)[k], WritesFor(sched, CardId(Labels[k])))
  {
    ScheduleProjection(Batch(prompt), sched);
  }

  // ---------------------------------------------------------------------
  // The analysis

  /** `r.response && !r.error`. */
  predicate Usable(e: Entry) {
    e.response != "" && (e.error.None? || e.error.value == "")
  }

  /** The cards handed to the analysis, in list order. */
  function Answered(es: seq<Entry>): (cs: seq<Entry>)
    ensures |cs| <= |es|
    ensures forall i | 0 <= i < |cs| :: Usable(cs[i]) && cs[i] in es
    ensures forall i | 0 <= i < |es| :: Usable(es[i]) ==> es[i] in cs
  {
    if |es| == 0 then []
    else if Usable(es[0]) then [es[0]] + Answered(es[1..])
    else Answered(es[1..])
  }

  lemma {:induction false} AnsweredAppend(a: seq<Entry>, b: seq<Entry>)
    ensures Answered(a + b) == Answered(a) + Answered(b)
    decreases |a|
  {
    if |a| == 0 {
      assert a + b == b;
    } else {
      assert (a + b)[1..] == a[1..] + b;
      AnsweredAppend(a[1..], b);
    }
  }

  /** The analysis runs exactly when some card answered without error. */
  lemma {:induction false} AnalysisRunsIff(es: seq<Entry>)
    ensures |Answered(es)| > 0 <==> exists i | 0 <= i < |es| :: Usable(es[i])
  {
    if |Answered(es)| > 0 {
      assert Usable(Answered(es)[0]);
    }
  }

  /** Filtering is idempotent: the analysed cards are exactly the usable ones. */
  lemma {:induction false} AnsweredIdempotent(es: seq<Entry>)
    ensures Answered(Answered(es)) == Answered(es)
    decreases |es|
  {
    if |es| > 0 {
      AnsweredIdempotent(es[1..]);
    }
  }

  /** One answer's block: the printed temperature, the answer, a rule. */
  function Block(e: Entry): (b: string)
    ensures StartsWith(b, "Температура " + e.title + ":\n")
    ensures EndsWith(b, e.response + "\n\n---")
  {
    var head := "Температура " + e.title + ":\n";
    var b := head + e.response + "\n\n---";
    assert b[..|head|] == head;
    assert b[|b| - |e.response + "\n\n---"|..] == e.response + "\n\n---";
    b
  }

  function Blocks(cs: seq<Entry>): (bs: seq<string>)
    ensures |bs| == |cs|
    ensures forall i | 0 <= i < |cs| :: bs[i] == Block(cs[i])
  {
    if |cs| == 0 then [] else [Block(cs[0])] + Blocks(cs[1..])
  }

  /** `responsesText`: the blocks of the usable cards separated by a blank line. */
  function ResponsesText(es: seq<Entry>): string {
    JoinWith(Blocks(Answered(es)), "\n\n")
  }

  const AnalysisHead: string :=
    "Проанализируй следующие ответы на один и тот же запрос, полученные с разными значениями температуры (0, 0.7, 1.2):\n\n"
  const AnalysisTail: string :=
    "\n\nОцени каждый ответ по следующим критериям:\n"
    + "1. **Точность** - насколько ответ корректен и соответствует фактам\n"
    + "2. **Креативность** - насколько ответ оригинален и нестандартен\n"
    + "3. **Разнообразие** - насколько ответ отличается от других ответов\n\n"
    + "Предоставь краткий анализ в следующем формате:\n"
    + "**Температура 0:**\n- Точность: [оценка]\n- Креативность: [оценка]\n- Разнообразие: [оценка]\n\n"
    + "**Температура 0.7:**\n- Точность: [оценка]\n- Креативность: [оценка]\n- Разнообразие: [оценка]\n\n"
    + "**Температура 1.2:**\n- Точность: [оценка]\n- Креативность: [оценка]\n- Разнообразие: [оценка]\n\n"
    + "**Общий вывод:** [краткое сравнение и рекомендации]"

  /** The analysis prompt: the fixed head and tail frame the answers' text. */
  function AnalysisPrompt(es: seq<Entry>): (p: string)
    ensures |p| == |AnalysisHead| + |ResponsesText(es)| + |AnalysisTail|
    ensures StartsWith(p, AnalysisHead) && EndsWith(p, AnalysisTail)
    ensures p[|AnalysisHead|..|p| - |AnalysisTail|] == ResponsesText(es)
  {
    FrameParts(AnalysisHead, ResponsesText(es), AnalysisTail);
    AnalysisHead + ResponsesText(es) + AnalysisTail
  }

  /** A card without an answer, or with an error, never reaches the analysis prompt's text. */
  lemma {:induction false} FailedCardsLeftOut(a: seq<Entry>, e: Entry, b: seq<Entry>)
    requires !Usable(e)
    ensures ResponsesText(a + [e] + b) == ResponsesText(a + b)
  {
    AnsweredAppend(a + [e], b);
    AnsweredAppend(a, [e]);
    AnsweredAppend(a, b);
    assert Answered([e]) == [];
    assert Answered(a) + [] == Answered(a);
  }

  // ---------------------------------------------------------------------
  // Metrics

  /** The three groups one temperature's pattern captures: accuracy, creativity, diversity. */
  datatype Capture = Capture(accuracy: string, creativity: string, diversity: string)

  /**
   * The case-insensitive pattern `Температура <t>:` … `Точность:(…)` …
   * `Креативность:(…)` … `Разнообразие:(…)` for one printed temperature:
   * the groups it captures, or `None` when the text does not match.
   */
  type Matcher = (string, string) -> Option<Capture>

  /** Each group is `[^\n]+`: non-empty and without a line break. */
  ghost predicate LineGroups(m: Matcher) {
    forall text, shown | m(text, shown).Some? :: LineGroup(m(text, shown).value)
  }

  predicate LineGroup(c: Capture) {
    && c.accuracy != "" && NoNewline(c.accuracy)
    && c.creativity != "" && NoNewline(c.creativity)
    && c.diversity != "" && NoNewline(c.diversity)
  }

  datatype Metrics = Metrics(accuracy: string, creativity: string, diversity: string)

  /** `Temp 0: a\nTemp 0.7: b\nTemp 1.2: c`. */
  function Lines3(a: string, b: string, c: string): (r: string)
    ensures StartsWith(r, "Temp 0: ")
  {
    var r := "Temp 0: " + a + "\nTemp 0.7: " + b + "\nTemp 1.2: " + c;
    assert r[..8] == "Temp 0: ";
    r
  }

  /** The metric parsing of the analysis text. */
  function Extract(analysis: string, m: Matcher): (r: Metrics)
    ensures m(analysis, "0").None? || m(analysis, "0.7").None? || m(analysis, "1.2").None? ==>
              r == Metrics(analysis, analysis, analysis)
    ensures m(analysis, "0").Some? && m(analysis, "0.7").Some? && m(analysis, "1.2").Some? ==>
              StartsWith(r.accuracy, "Temp 0: ") && StartsWith(r.creativity, "Temp 0: ")
              && StartsWith(r.diversity, "Temp 0: ")
  {
    match (m(analysis, "0"), m(analysis, "0.7"), m(analysis, "1.2"))
    case (Some(c0), Some(c1), Some(c2)) =>
      Metrics(
        Lines3(Trim(c0.accuracy, JsSpace), Trim(c1.accuracy, JsSpace), Trim(c2.accuracy, JsSpace)),
        Lines3(Trim(c0.creativity, JsSpace), Trim(c1.creativity, JsSpace), Trim(c2.creativity, JsSpace)),
        Lines3(Trim(c0.diversity, JsSpace), Trim(c1.diversity, JsSpace), Trim(c2.diversity, JsSpace)))
    case _ => Metrics(analysis, analysis, analysis)
  }

  /** Trimming keeps a line free of line breaks. */
  lemma {:induction false} TrimNoNewline(s: string)
    requires NoNewline(s)
    ensures NoNewline(Trim(s, JsSpace))
  {
    var t := Trim(s, JsSpace);
    var o := TrimOffset(s, JsSpace);
    SliceNoNewline(s, o, o + |t|);
  }

  /** Three newline-free values in `Lines3` read back as three lines, one per temperature. */
  lemma {:induction false} Lines3ReadsBack(a: string, b: string, c: string)
    requires NoNewline(a) && NoNewline(b) && NoNewline(c)
    ensures SplitLines(Lines3(a, b, c)) == ["Temp 0: " + a, "Temp 0.7: " + b, "Temp 1.2: " + c]
  {
    var ls := ["Temp 0: " + a, "Temp 0.7: " + b, "Temp 1.2: " + c];
    assert JoinWith(ls[2..], "\n") == ls[2];
    assert JoinWith(ls[1..], "\n") == ls[1] + "\n" + ls[2];
    assert JoinLines(ls) == Lines3(a, b, c);
    LabelsNoNewline();
    NoNewlineAppend("Temp 0: ", a);
    NoNewlineAppend("Temp 0.7: ", b);
    NoNewlineAppend("Temp 1.2: ", c);
    JoinThenSplit(ls);
  }

  lemma LabelsNoNewline()
    ensures NoNewline("Temp 0: ") && NoNewline("Temp 0.7: ") && NoNewline("Temp 1.2: ")
  {
    var x, y, z := "Temp 0: ", "Temp 0.7: ", "Temp 1.2: ";
    forall i | 0 <= i < |x| ensures x[i] != '\n' { }
    forall i | 0 <= i < |y| ensures y[i] != '\n' { }
    forall i | 0 <= i < |z| ensures z[i] != '\n' { }
  }

  /** Three newline-free captures, trimmed and laid out by `Lines3`, read back as three lines. */
  lemma {:induction false} MetricReadsBack(x0: string, x1: string, x2: string)
    requires NoNewline(x0) && NoNewline(x1) && NoNewline(x2)
    ensures SplitLines(Lines3(Trim(x0, JsSpace), Trim(x1, JsSpace), Trim(x2, JsSpace)))
         == ["Temp 0: " + Trim(x0, JsSpace), "Temp 0.7: " + Trim(x1, JsSpace), "Temp 1.2: " + Trim(x2, JsSpace)]
  {
    TrimNoNewline(x0);
    TrimNoNewline(x1);
    TrimNoNewline(x2);
    Lines3ReadsBack(Trim(x0, JsSpace), Trim(x1, JsSpace), Trim(x2, JsSpace));
  }

  /**
   * When all three temperatures match, every metric is exactly three lines,
   * `Temp <t>: <trimmed capture>` for 0, 0.7 and 1.2 in that order.
   */
  lemma {:induction false} MetricsAreThreeLines(analysis: string, m: Matcher)
    requires LineGroups(m)
    requires m(analysis, "0").Some? && m(analysis, "0.7").Some? && m(analysis, "1.2").Some?
    ensures var r := Extract(analysis, m);
            var c0, c1, c2 := m(analysis, "0").value, m(analysis, "0.7").value, m(analysis, "1.2").value;
            && SplitLines(r.accuracy)
               == ["Temp 0: " + Trim(c0.accuracy, JsSpace), "Temp 0.7: " + Trim(c1.accuracy, JsSpace), "Temp 1.2: " + Trim(c2.accuracy, JsSpace)]
            && SplitLines(r.creativity)
               == ["Temp 0: " + Trim(c0.creativity, JsSpace), "Temp 0.7: " + Trim(c1.creativity, JsSpace), "Temp 1.2: " + Trim(c2.creativity, JsSpace)]
            && SplitLines(r.diversity)
               == ["Temp 0: " + Trim(c0.diversity, JsSpace), "Temp 0.7: " + Trim(c1.diversity, JsSpace), "Temp 1.2: " + Trim(c2.diversity, JsSpace)]
  {
    var c0, c1, c2 := m(analysis, "0").value, m(analysis, "0.7").value, m(analysis, "1.2").value;
    assert LineGroup(c0) && LineGroup(c1) && LineGroup(c2);
    var r := Extract(analysis, m);
    assert r.accuracy == Lines3(Trim(c0.accuracy, JsSpace), Trim(c1.accuracy, JsSpace), Trim(c2.accuracy, JsSpace));
    assert r.creativity == Lines3(Trim(c0.creativity, JsSpace), Trim(c1.creativity, JsSpace), Trim(c2.creativity, JsSpace));
    assert r.diversity == Lines3(Trim(c0.diversity, JsSpace), Trim(c1.diversity, JsSpace), Trim(c2.diversity, JsSpace));
    MetricReadsBack(c0.accuracy, c1.accuracy, c2.accuracy);
    MetricReadsBack(c0.creativity, c1.creativity, c2.creativity);
    MetricReadsBack(c0.diversity, c1.diversity, c2.diversity);
  }

  // ---------------------------------------------------------------------
  // The page

  /**
   * What the analysis call yields: the fetch or the JSON decoding throws, or
   * the decoded object, whose `response` may be missing (the status is not
   * checked, so an error body decodes to an object without one).
   */
  datatype AnalysisReply = Thrown | Decoded(response: Option<string>)

  /**
   * `analyzeResults`: the metrics, or nothing when the call throws or the
   * reply has no `response` (calling `match` on `undefined` throws, and the
   * catch only logs).
   */
  function Analyze(reply: AnalysisReply, m: Matcher): (r: Option<Metrics>)
    ensures r.Some? <==> reply.Decoded? && reply.response.Some?
    ensures r.Some? ==> r.value == Extract(reply.response.value, m)
  {
    match reply
    case Decoded(Some(text)) => Some(Extract(text, m))
    case _ => None
  }

  datatype Page = Page(prompt: string, results: seq<Entry>, processing: bool, comparison: Option<Metrics>)

  /** `handleSubmit` up to the calls: a no-op on a blank prompt or while processing. */
  function Submit(p: Page): (r: Page)
    ensures AllSpace(p.prompt, JsSpace) || p.processing ==> r == p
    ensures !AllSpace(p.prompt, JsSpace) && !p.processing ==>
              r.processing && r.comparison.None? && r.prompt == p.prompt
              && |r.results| == 3
              && forall k | 0 <= k < 3 :: r.results[k].isLoading && r.results[k].response == ""
                                           && r.results[k].prompt == p.prompt
  {
    if AllSpace(p.prompt, JsSpace) || p.processing then p
    else p.(results := Batch(p.prompt), processing := true, comparison := None)
  }

  /**
   * The rest of `handleSubmit`: the cards' writes land, the analysis runs
   * only when some card answered, and processing ends.
   */
  function Finish(p: Page, sched: seq<(string, Write)>, reply: AnalysisReply, m: Matcher): (r: Page)
    ensures !r.processing && r.prompt == p.prompt
    ensures r.results == ApplySchedule(p.results, sched)
    ensures |Answered(r.results)| == 0 ==> r.comparison == p.comparison
    ensures |Answered(r.results)| > 0 ==> r.comparison == Analyze(reply, m)
  {
    var es := ApplySchedule(p.results, sched);
    p.(results := es, processing := false,
       comparison := if |Answered(es)| > 0 then Analyze(reply, m) else p.comparison)
  }

  /** A submitted batch in which no card answered ends without a comparison. */
  lemma {:induction false} NoAnswersNoComparison(p: Page, sched: seq<(string, Write)>, reply: AnalysisReply, m: Matcher)
    requires !AllSpace(p.prompt, JsSpace) && !p.processing
    requires forall i | 0 <= i < |ApplySchedule(Submit(p).results, sched)| ::
               !Usable(ApplySchedule(Submit(p).results, sched)[i])
    ensures Finish(Submit(p), sched, reply, m).comparison.None?
  {
    AnalysisRunsIff(ApplySchedule(Submit(p).results, sched));
  }
}

/**
 * The reasoning comparison page: one task solved by six methods at once
 * (direct, step by step, a prompt written by another model, three experts),
 * then, in the newer page, a seventh card comparing the answers. Both
 * versions of the page share the batch and the method calls; they differ
 * in the request body and in the summarizer.
 */
module Reasoning {
  import opened Wrappers
  import opened Strings
  import opened Wire
  import opened Entries
  import opened Records
  import opened StreamConsumer
  import BackendMessages

  const MethodIds: seq<string> := ["direct", "stepwise", "prompt-engineering", "expert-1", "expert-2", "expert-3"]
  const MethodTitles: seq<string> := [
    "Прямой ответ", "Пошаговое решение", "Промпт от другого ИИ",
    "Эксперт 1 (Математик)", "Эксперт 2 (Логик)", "Эксперт 3 (Аналитик)"]
  const SummarizerId: string := "summarizer"
  const SummarizerTitle: string := "Сравнение и анализ ответов"
  const StepwiseSuffix: string := "\n\nРешай пошагово, объясняя каждый шаг."
  const EngineeredSystem: string :=
    "ОБЯЗАТЕЛЬНО используй LaTeX для всех математических формул, уравнений и выражений. Формат: $...$ для inline и $$...$$ для блочных формул."

  /**
   * The instruction texts a page version uses: the LaTeX instruction, the
   * three expert system prompts and the prompt generator's system prompt and
   * template. The newer page imports them from a constants file that is not
   * part of this model, so they are parameters there.
   */
  datatype Texts = Texts(
    latex: string,
    mathematician: string,
    logician: string,
    analyst: string,
    generatorSystem: string,
    generatorPrompt: string -> string)

  const SrcLatex: string :=
    "\n\nВАЖНО: Все математические формулы, уравнения, выражения и символы должны быть строго в формате LaTeX. Используй синтаксис LaTeX: $...$ для inline формул и $$...$$ для блочных формул. Например: $x^2 + 5x + 6 = 0$ или $$\\int_0^1 x^2 dx = \\frac{1}{3}$$"
  const SrcGeneratorHead: string :=
    "Создай оптимальный промпт для решения следующей задачи, который поможет получить наиболее точный и полный ответ. ОБЯЗАТЕЛЬНО включи в промпт требование: \"Все математические формулы, уравнения, выражения и символы должны быть строго в формате LaTeX. Используй синтаксис LaTeX: $...$ для inline формул и $$...$$ для блочных формул.\" Отвечай только промптом, без дополнительных пояснений.\n\nЗадача: "

  /** The older page's texts, written out in the page itself. */
  function SrcTexts(): Texts {
    Texts(
      SrcLatex,
      "Ты — опытный математик с глубокими знаниями в алгебре, геометрии и математическом анализе. Реши задачу, показав все математические выкладки и обоснования. Все формулы должны быть в формате LaTeX.",
      "Ты — эксперт по логике и дедуктивному мышлению. Реши задачу, используя логические рассуждения и пошаговый анализ. Если в задаче есть математические элементы, используй LaTeX для их записи.",
      "Ты — аналитик, специализирующийся на комплексном анализе проблем. Реши задачу, рассмотрев её с разных углов и предложив наиболее эффективное решение. ОБЯЗАТЕЛЬНО: все математические формулы, уравнения, выражения и символы должны быть строго в формате LaTeX. Используй синтаксис LaTeX: $...$ для inline формул (например: $x^2 + 5x + 6 = 0$) и $$...$$ для блочных формул (например: $$\\int_0^1 x^2 dx = \\frac{1}{3}$$). Никогда не используй обычный текст для математических выражений.",
      "Ты — эксперт по созданию промптов для решения задач. Все создаваемые тобой промпты ОБЯЗАТЕЛЬНО должны включать требование использовать LaTeX для всех математических формул.",
      SrcGeneratorPrompt)
  }

  /** The older page's generator template: the fixed request text, then the task. */
  function SrcGeneratorPrompt(task: string): (g: string)
    ensures |g| == |SrcGeneratorHead| + |task|
    ensures g[|SrcGeneratorHead|..] == task && EndsWith(g, task)
  {
    var g := SrcGeneratorHead + task;
    assert g[|g| - |task|..] == task;
    g
  }

  // ---------------------------------------------------------------------
  // The batch

  /** The six loading cards a submit creates, all carrying the task as prompt. */
  function Batch(task: string): (es: seq<Entry>)
    ensures |es| == 6 && Ids(es) == MethodIds
    ensures forall i | 0 <= i < 6 :: es[i] == Loading(MethodIds[i], MethodTitles[i], task)
  {
    seq(6, i requires 0 <= i < 6 => Loading(MethodIds[i], MethodTitles[i], task))
  }

  /** The method ids are pairwise distinct, so every per-id write lands on exactly one card. */
  lemma MethodIdsDistinct()
    ensures forall i, j | 0 <= i < j < |MethodIds| :: MethodIds[i] != MethodIds[j]
    ensures SummarizerId !in MethodIds
  {
  }

  datatype Page = Page(task: string, results: seq<Entry>, processing: bool)

  /** `handleSubmit` up to the calls: a no-op on a blank task or while processing, otherwise the fresh batch. */
  function Submit(p: Page): (r: Page)
    ensures AllSpace(p.task, JsSpace) || p.processing ==> r == p
    ensures !AllSpace(p.task, JsSpace) && !p.processing ==>
              r.processing && r.task == p.task && Ids(r.results) == MethodIds
              && forall i | 0 <= i < |r.results| :: r.results[i].isLoading && r.results[i].prompt == p.task
  {
    if AllSpace(p.task, JsSpace) || p.processing then p
    else p.(results := Batch(p.task), processing := true)
  }

  // ---------------------------------------------------------------------
  // The calls

  /** What `callAPIStream` is asked for: the user prompt and an optional system prompt. */
  datatype StreamCall = StreamCall(prompt: string, system: Option<string>)

  /**
   * The call each method makes; the prompt-engineering card uses the prompt
   * generated by the first call. Unknown ids make none.
   */
  function MethodCall(id: string, task: string, generated: string, t: Texts): (c: Option<StreamCall>)
    ensures c.Some? <==> id in MethodIds
    ensures c.Some? && id != "prompt-engineering" ==> StartsWith(c.value.prompt, task + t.latex)
    ensures c.Some? && id == "prompt-engineering" ==> c.value.prompt == generated + t.latex
    ensures c.Some? ==> (c.value.system.None? <==> id == "direct" || id == "stepwise")
  {
    if id == "direct" then Some(StreamCall(task + t.latex, None))
    else if id == "stepwise" then Some(StreamCall(task + t.latex + StepwiseSuffix, None))
    else if id == "prompt-engineering" then Some(StreamCall(generated + t.latex, Some(EngineeredSystem)))
    else if id == "expert-1" then Some(StreamCall(task + t.latex, Some(t.mathematician)))
    else if id == "expert-2" then Some(StreamCall(task + t.latex, Some(t.logician)))
    else if id == "expert-3" then Some(StreamCall(task + t.latex, Some(t.analyst)))
    else None
  }

  /** The newer page's body: the prompt, and `system_prompt` only when it is truthy. */
  function PromptBody(c: StreamCall): (req: ChatRequest)
    ensures req.prompt == Some(c.prompt) && req.messages.None?
    ensures req.systemPrompt.Some? <==> Truthy(c.system)
  {
    ChatRequest(Some(c.prompt), if Truthy(c.system) then c.system else None, None, None, None)
  }

  /** The older page's body: an optional system message, then exactly one user message holding the prompt. */
  function MessagesBody(c: StreamCall): (req: ChatRequest)
    ensures req.prompt.None? && req.systemPrompt.None? && req.messages.Some?
    ensures var ms := req.messages.value;
            && |ms| == (if Truthy(c.system) then 2 else 1)
            && ms[|ms| - 1] == Msg("user", c.prompt)
            && (|ms| == 2 ==> ms[0] == Msg("system", c.system.value))
  {
    ChatRequest(None, None, Some(BackendMessages.SystemPart(c.system) + [Msg("user", c.prompt)]), None, None)
  }

  /** The root backend keeps the older page's messages as sent. */
  lemma {:induction false} MainKeepsMessagesBody(c: StreamCall)
    ensures BackendMessages.AssembleMessages(MessagesBody(c)) == Ok(MessagesBody(c).messages.value)
  {
  }

  /** The root backend ignores the newer page's system prompt: only the user turn goes upstream. */
  lemma {:induction false} MainDropsSystemOfPromptBody(c: StreamCall)
    requires c.prompt != ""
    ensures BackendMessages.AssembleMessages(PromptBody(c)) == Ok([Msg("user", c.prompt)])
  {
  }

  /** The chat router keeps the newer page's system prompt in front of the user turn. */
  lemma {:induction false} RouterKeepsPromptBody(c: StreamCall)
    requires c.prompt != ""
    ensures BackendMessages.PrepareMessages(PromptBody(c))
         == Ok(BackendMessages.SystemPart(c.system) + [Msg("user", c.prompt)])
  {
  }

  /** The chat router ignores the older page's system message: only `system_prompt` counts there. */
  lemma {:induction false} RouterDropsSystemOfMessagesBody(c: StreamCall)
    requires c.prompt != ""
    ensures BackendMessages.PrepareMessages(MessagesBody(c)) == Ok([Msg("user", c.prompt)])
  {
    var ms := MessagesBody(c).messages.value;
    BackendMessages.LastUserUnique(ms, |ms| - 1);
    assert BackendMessages.UserContent(MessagesBody(c)) == Ok(c.prompt);
    var r := BackendMessages.PrepareMessages(MessagesBody(c));
    assert r.Ok? && |r.value| == 1;
    assert r.value == [Msg("user", c.prompt)];
  }

  // ---------------------------------------------------------------------
  // The prompt-engineering card

  /**
   * The older page's request to the prompt generator: a system message with
   * the generator's instructions, then one user message holding the template
   * filled with the task, and nothing else.
   */
  function GeneratorMessagesBody(task: string, t: Texts): (req: ChatRequest)
    ensures req.prompt.None? && req.systemPrompt.None? && req.temperature.None? && req.maxTokens.None?
    ensures req.messages.Some? && |req.messages.value| == 2
    ensures RoleOf(req.messages.value[0]) == "system" && ContentOf(req.messages.value[0]) == t.generatorSystem
    ensures RoleOf(req.messages.value[1]) == "user" && ContentOf(req.messages.value[1]) == t.generatorPrompt(task)
  {
    ChatRequest(None, None, Some([Msg("system", t.generatorSystem), Msg("user", t.generatorPrompt(task))]), None, None)
  }

  /** The newer page's request to the prompt generator: `system_prompt` and `prompt`, nothing else. */
  function GeneratorPromptBody(task: string, t: Texts): (req: ChatRequest)
    ensures req.prompt == Some(t.generatorPrompt(task)) && req.systemPrompt == Some(t.generatorSystem)
    ensures req.messages.None? && req.temperature.None? && req.maxTokens.None?
  {
    ChatRequest(Some(t.generatorPrompt(task)), Some(t.generatorSystem), None, None, None)
  }

  /** The root backend forwards the older page's generator request as sent: instructions first, then the filled template. */
  lemma {:induction false} MainKeepsGeneratorMessages(task: string, t: Texts)
    ensures BackendMessages.AssembleMessages(GeneratorMessagesBody(task, t))
         == Ok([Msg("system", t.generatorSystem), Msg("user", t.generatorPrompt(task))])
  {
  }

  /** The root backend drops the newer page's generator instructions: only the filled template goes upstream. */
  lemma {:induction false} MainDropsGeneratorSystem(task: string, t: Texts)
    requires t.generatorPrompt(task) != ""
    ensures BackendMessages.AssembleMessages(GeneratorPromptBody(task, t)) == Ok([Msg("user", t.generatorPrompt(task))])
  {
  }

  /** The chat router keeps the newer page's generator instructions in front of the filled template. */
  lemma {:induction false} RouterKeepsGeneratorSystem(task: string, t: Texts)
    requires t.generatorPrompt(task) != "" && t.generatorSystem != ""
    ensures BackendMessages.PrepareMessages(GeneratorPromptBody(task, t))
         == Ok([Msg("system", t.generatorSystem), Msg("user", t.generatorPrompt(task))])
  {
    var c := StreamCall(t.generatorPrompt(task), Some(t.generatorSystem));
    assert GeneratorPromptBody(task, t) == PromptBody(c);
    RouterKeepsPromptBody(c);
    assert BackendMessages.SystemPart(c.system) == [Msg("system", t.generatorSystem)];
    assert [Msg("system", t.generatorSystem)] + [Msg("user", c.prompt)]
        == [Msg("system", t.generatorSystem), Msg("user", t.generatorPrompt(task))];
  }

  /** What the prompt generator call gave: a thrown error, or the parsed body's optional `response`. */
  datatype Generated = GeneratorFailed(message: string) | GeneratorBody(response: Option<string>)

  /** JavaScript string interpolation of a possibly undefined field. */
  function Interpolated(s: Option<string>): string {
    if s.Some? then s.value else "undefined"
  }

  const BannerOpen: string := "Использованный промпт: \""
  const BannerClose: string := "\"\n\n---\n\nРешение:\n"

  /** The banner put in front of the engineered answer: the generated prompt, quoted, then the heading of the answer. */
  function BannerHead(generated: string): (b: string)
    ensures |b| == |BannerOpen| + |generated| + |BannerClose|
    ensures StartsWith(b, BannerOpen) && EndsWith(b, BannerClose)
    ensures b[|BannerOpen|..|BannerOpen| + |generated|] == generated
  {
    var b := BannerOpen + generated + BannerClose;
    assert b[|b| - |BannerClose|..] == BannerClose;
    b
  }

  /**
   * Every write one method makes to its own card: the stream's writes and,
   * for the prompt-engineering card, the banner afterwards (whatever the
   * stream did), or the failure of the generator call.
   */
  function MethodWrites(id: string, gen: Generated, reply: Reply, parse: Parser): (ws: seq<Write>)
    ensures id != "prompt-engineering" ==> ws == StreamWrites(reply, parse)
    ensures id == "prompt-engineering" && gen.GeneratorFailed? ==> ws == [Fail(gen.message)]
    ensures id == "prompt-engineering" && gen.GeneratorBody? ==>
              ws == StreamWrites(reply, parse) + [Prepend(BannerHead(Interpolated(gen.response)))]
  {
    if id != "prompt-engineering" then StreamWrites(reply, parse)
    else match gen
      case GeneratorFailed(m) => [Fail(m)]
      case GeneratorBody(r) => StreamWrites(reply, parse) + [Prepend(BannerHead(Interpolated(r)))]
  }

  /** A completed engineered stream shows the banner, then the streamed answer. */
  lemma {:induction false} EngineeredEntry(e: Entry, generated: Option<string>, chunks: seq<string>, parse: Parser)
    ensures var r := ApplyAll(e, MethodWrites("prompt-engineering", GeneratorBody(generated), Streamed(chunks, None), parse));
            && r.response == BannerHead(Interpolated(generated)) + StreamText(chunks, parse)
            && !r.isLoading && r.progress == Some(100.0) && r.error == e.error
  {
    StreamThenPrepend(e, BannerHead(Interpolated(generated)), chunks, parse);
  }

  /** A completed stream followed by a prefix write: the prefix, then the streamed answer. */
  lemma {:induction false} StreamThenPrepend(e: Entry, head: string, chunks: seq<string>, parse: Parser)
    ensures var r := ApplyAll(e, StreamWrites(Streamed(chunks, None), parse) + [Prepend(head)]);
            && r.response == head + StreamText(chunks, parse)
            && !r.isLoading && r.progress == Some(100.0) && r.error == e.error
  {
    var ws := StreamWrites(Streamed(chunks, None), parse);
    CompletedStreamEntry(e, chunks, parse);
    StreamTextChunkIndependent(chunks, parse);
    ThenPrepend(e, ws, head);
  }

  lemma {:induction false} ThenPrepend(e: Entry, ws: seq<Write>, head: string)
    ensures var mid := ApplyAll(e, ws);
            ApplyAll(e, ws + [Prepend(head)]) == mid.(response := head + mid.response)
  {
    var b := [Prepend(head)];
    ApplyAllAppend(e, ws, b);
    var mid := ApplyAll(e, ws);
    assert ApplyAll(mid, b) == ApplyAll(ApplyWrite(mid, Prepend(head)), []);
  }

  /** A generator body without `response` still runs, on the prompt text "undefined". */
  lemma {:induction false} MissingGeneratedPrompt(task: string, t: Texts)
    ensures MethodCall("prompt-engineering", task, Interpolated(None), t).value.prompt == "undefined" + t.latex
  {
  }

  /**
   * The six methods run concurrently; whatever the interleaving, each card
   * ends as its own writes applied in order and the others stay untouched.
   */
  lemma {:induction false} BatchOutcome(task: string, sched: seq<(string, Write)>)
    ensures var r := ApplySchedule(Batch(task), sched);
            && Ids(r) == MethodIds
            && forall i | 0 <= i < 6 :: r[i] == ApplyAll(Batch(task)[i], WritesFor(sched, MethodIds[i]))
  {
    ScheduleProjection(Batch(task), sched);
    var r := ApplySchedule(Batch(task), sched);
    assert forall i | 0 <= i < 6 :: r[i].id == MethodIds[i];
  }

  // ---------------------------------------------------------------------
  // The summarizer (newer page)

  /** JavaScript `!r.error`. */
  predicate NoError(e: Entry) {
    e.error.None? || e.error.value == ""
  }

  /** `r.response && !r.error && r.id !== 'summarizer'`. */
  predicate Comparable(e: Entry) {
    e.response != "" && NoError(e) && e.id != SummarizerId
  }

  /** The cards compared, in list order. */
  function Candidates(es: seq<Entry>): (cs: seq<Entry>)
    ensures |cs| <= |es|
    ensures forall i | 0 <= i < |cs| :: Comparable(cs[i]) && cs[i] in es
    ensures forall i | 0 <= i < |es| :: Comparable(es[i]) ==> es[i] in cs
  {
    if |es| == 0 then []
    else if Comparable(es[0]) then [es[0]] + Candidates(es[1..])
    else Candidates(es[1..])
  }

  lemma {:induction false} CandidatesAppend(a: seq<Entry>, b: seq<Entry>)
    ensures Candidates(a + b) == Candidates(a) + Candidates(b)
    decreases |a|
  {
    if |a| == 0 {
      assert a + b == b;
    } else {
      assert (a + b)[1..] == a[1..] + b;
      CandidatesAppend(a[1..], b);
    }
  }

  /** One answer's block in the comparison prompt, numbered from 1. */
  function AnswerBlock(n: nat, e: Entry): string {
    "Метод " + NatToString(n) + ": " + e.title + "\nОтвет:\n" + e.response + "\n\n---"
  }

  function Numbered(cs: seq<Entry>, from: nat): (bs: seq<string>)
    ensures |bs| == |cs|
    ensures forall i | 0 <= i < |cs| :: bs[i] == AnswerBlock(from + i, cs[i])
  {
    if |cs| == 0 then [] else [AnswerBlock(from, cs[0])] + Numbered(cs[1..], from + 1)
  }

  /** `responsesText`: the numbered blocks separated by a blank line. */
  function ResponsesText(cs: seq<Entry>): string {
    JoinWith(Numbered(cs, 1), "\n\n")
  }

  /** The i-th block names method i + 1 with its title and answer. */
  lemma {:induction false} BlockNumbering(cs: seq<Entry>, i: nat)
    requires i < |cs|
    ensures StartsWith(Numbered(cs, 1)[i], "Метод " + NatToString(i + 1) + ": " + cs[i].title + "\nОтвет:\n")
    ensures EndsWith(Numbered(cs, 1)[i], cs[i].response + "\n\n---")
  {
    var b := Numbered(cs, 1)[i];
    var head := "Метод " + NatToString(i + 1) + ": " + cs[i].title + "\nОтвет:\n";
    assert b == head + (cs[i].response + "\n\n---");
    assert b[..|head|] == head;
    assert b[|b| - |cs[i].response + "\n\n---"|..] == cs[i].response + "\n\n---";
  }

  /** The summarizer's card texts from the constants file. */
  datatype SummaryTexts = SummaryTexts(comparer: string, comparison: (string, string) -> string)

  /** After the batch: the summarizer card is appended iff some card is comparable. */
  function WithSummarizer(es: seq<Entry>, task: string): (r: seq<Entry>)
    ensures |Candidates(es)| > 0 ==> r == es + [Loading(SummarizerId, SummarizerTitle, task)]
    ensures |Candidates(es)| == 0 ==> r == es
  {
    if |Candidates(es)| > 0 then es + [Loading(SummarizerId, SummarizerTitle, task)] else es
  }

  /** The summarizer's call: the comparison of the candidates' answers, with the LaTeX instruction. */
  function SummarizerCall(es: seq<Entry>, task: string, t: Texts, st: SummaryTexts): (c: StreamCall)
    ensures c.system == Some(st.comparer)
    ensures EndsWith(c.prompt, t.latex)
  {
    var head := st.comparison(task, ResponsesText(Candidates(es)));
    assert (head + t.latex)[|head|..] == t.latex;
    StreamCall(head + t.latex, Some(st.comparer))
  }

  /** Adding the summarizer's own card does not change what it is asked to compare. */
  lemma {:induction false} SummarizerCallIgnoresOwnCard(es: seq<Entry>, task: string, t: Texts, st: SummaryTexts)
    ensures SummarizerCall(WithSummarizer(es, task), task, t, st) == SummarizerCall(es, task, t, st)
  {
    SummarizerNotCompared(es, task);
  }

  /** The summarizer's own card never takes part in a comparison. */
  lemma {:induction false} SummarizerNotCompared(es: seq<Entry>, task: string)
    ensures Candidates(WithSummarizer(es, task)) == Candidates(es)
  {
    if |Candidates(es)| > 0 {
      var s := Loading(SummarizerId, SummarizerTitle, task);
      CandidatesAppend(es, [s]);
      assert Candidates([s]) == [];
    }
  }

  /** A finished batch with no comparable card (every call failed or answered empty) gets no summarizer. */
  lemma {:induction false} NoAnswersNoSummarizer(es: seq<Entry>, task: string)
    requires forall i | 0 <= i < |es| :: es[i].response == "" || !NoError(es[i])
    ensures Candidates(es) == [] && WithSummarizer(es, task) == es
    decreases |es|
  {
    if |es| > 0 {
      NoAnswersNoSummarizer(es[1..], task);
    }
  }
}

/**
 * The model comparison page: one prompt sent to DeepSeek and to Llama at
 * once, each answer streamed into its own card. Every state write of a
 * batch is guarded by the batch's request id, so the page is a run of
 * `RequestGuard` events.
 */
module ModelComparison {
  import opened Wrappers
  import opened Strings
  import opened Wire
  import opened Entries
  import opened RequestGuard
  import BackendMessages

  /** The `max_tokens` both calls ask for. */
  const CallMaxTokens: int := 1000

  /** The two cards a batch creates. */
  const Cards: seq<Entry> := [Loading("deepseek", "DeepSeek", ""), Loading("llama", "Llama 3.2-1B", "")]

  /**
   * The body both calls send: the prompt with the LaTeX instruction appended
   * (the instruction lives in a constants file that is not part of this
   * model, so it is a parameter), `max_tokens` 1000, and `system_prompt`
   * only when one is given and non-empty.
   */
  function StreamBody(prompt: string, system: Option<string>, latex: string): (req: ChatRequest)
    ensures req.prompt == Some(prompt + latex) && req.maxTokens == Some(CallMaxTokens)
    ensures req.systemPrompt.Some? <==> Truthy(system)
    ensures req.systemPrompt.Some? ==> req.systemPrompt == system
    ensures req.messages.None? && req.temperature.None?
  {
    ChatRequest(Some(prompt + latex), if Truthy(system) then system else None, None, None, Some(CallMaxTokens))
  }

  /** The root backend's stream route turns the body into the single user turn. */
  lemma {:induction false} MainRouteSendsOneTurn(prompt: string, system: Option<string>, latex: string)
    requires prompt + latex != ""
    ensures BackendMessages.AssembleMessages(StreamBody(prompt, system, latex)) == Ok([Msg("user", prompt + latex)])
  {
  }

  /**
   * The routers put the system prompt first when one is sent and keep the
   * 1000-token limit.
   */
  lemma {:induction false} RouterMessages(prompt: string, system: Option<string>, latex: string)
    requires prompt + latex != ""
    ensures var req := StreamBody(prompt, system, latex);
            && BackendMessages.PrepareMessages(req)
               == Ok(BackendMessages.SystemPart(system) + [Msg("user", prompt + latex)])
            && BackendMessages.MaxTokensOr(req.maxTokens, BackendMessages.DefaultMaxTokens) == CallMaxTokens
  {
    var req := StreamBody(prompt, system, latex);
    var r := BackendMessages.PrepareMessages(req);
    assert BackendMessages.UserContent(req) == Ok(prompt + latex);
    assert r.Ok?;
    var sp := BackendMessages.SystemPart(system);
    if Truthy(system) {
      assert |r.value| == 2 && r.value == [sp[0], Msg("user", prompt + latex)];
    } else {
      assert |r.value| == 1 && sp == [];
    }
  }

  // ---------------------------------------------------------------------
  // A batch as guarded events

  /**
   * `handleSubmit` run to the end without a newer submit: both cards end
   * holding exactly their own call's writes, in order, whatever the
   * interleaving of the two streams.
   */
  lemma {:induction false} UninterruptedComparison(s: State, token: nat, prompt: string, sched: seq<(string, Write)>)
    requires !AllSpace(prompt, JsSpace) && !s.processing
    ensures var r := Run(s, BatchEvents(token, prompt, Cards, sched));
            && r.current == Some(token) && !r.processing
            && |r.results| == 2
            && r.results[0] == ApplyAll(Cards[0], WritesFor(sched, "deepseek"))
            && r.results[1] == ApplyAll(Cards[1], WritesFor(sched, "llama"))
  {
    UninterruptedBatch(s, token, prompt, Cards, sched);
    ScheduleProjection(Cards, sched);
  }
}

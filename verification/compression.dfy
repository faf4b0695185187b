/**
 * The history-compression router: once a conversation reaches ten
 * messages, the largest multiple of ten of its oldest messages is replaced
 * by one system message holding an LLM-written summary of them.
 */
module Compression {
  import opened Wrappers
  import opened Strings
  import opened Wire
  import opened Entries
  import opened BackendMessages

  const Threshold: nat := 10
  const HistoryTemperature: real := 0.7
  const SummaryTemperature: real := 0.3
  const SummaryMaxTokens: int := 500
  const Placeholder: string := "[Суммаризация предыдущего диалога]"
  const SummarizerRole: string :=
    "Ты помощник, который создает краткие и информативные суммаризации диалогов, сохраняя важный контекст для продолжения разговора."
  const PromptHead: string :=
    "Создай краткую суммаризацию следующего диалога, сохраняя ключевую информацию, контекст и важные детали. \n"
    + "Суммаризация должна быть достаточно подробной, чтобы ассистент мог продолжить диалог естественным образом.\n\n"
    + "Диалог:\n"
  const PromptTail: string := "\n\nСуммаризация:"
  const UnexpectedFormat: string := "Unexpected response format from DeepSeek API"

  // ---------------------------------------------------------------------
  // _create_summary_prompt

  /** The label a role gets in the dialogue transcript; other roles are left out. */
  function RoleLabel(role: string): Option<string> {
    if role == "user" then Some("Пользователь: ")
    else if role == "assistant" then Some("Ассистент: ")
    else if role == "system" then Some("Система: ")
    else None
  }

  predicate Labelled(m: Message) {
    RoleLabel(RoleOf(m)).Some?
  }

  function Block(m: Message): string {
    match RoleLabel(RoleOf(m))
    case None => ""
    case Some(l) => l + ContentOf(m) + "\n\n"
  }

  /** `history_text`: one block per message, in order. */
  function Transcript(ms: seq<Message>): string
    decreases |ms|
  {
    if |ms| == 0 then "" else Block(ms[0]) + Transcript(ms[1..])
  }

  /** The messages the transcript speaks about. */
  function LabelledOnly(ms: seq<Message>): (ks: seq<Message>)
    ensures |ks| <= |ms|
    ensures forall i | 0 <= i < |ks| :: Labelled(ks[i])
    ensures forall i | 0 <= i < |ms| :: Labelled(ms[i]) ==> ms[i] in ks
  {
    if |ms| == 0 then []
    else if Labelled(ms[0]) then [ms[0]] + LabelledOnly(ms[1..])
    else LabelledOnly(ms[1..])
  }

  lemma {:induction false} TranscriptAppend(a: seq<Message>, b: seq<Message>)
    ensures Transcript(a + b) == Transcript(a) + Transcript(b)
    decreases |a|
  {
    if |a| == 0 {
      assert a + b == b;
    } else {
      assert (a + b)[0] == a[0];
      assert (a + b)[1..] == a[1..] + b;
      TranscriptAppend(a[1..], b);
      assert Transcript(a + b) == Block(a[0]) + (Transcript(a[1..]) + Transcript(b));
      assert Transcript(a) == Block(a[0]) + Transcript(a[1..]);
      AppendAssoc(Block(a[0]), Transcript(a[1..]), Transcript(b));
    }
  }

  /** Messages with any other role contribute nothing to the transcript. */
  lemma {:induction false} OtherRolesSkipped(ms: seq<Message>)
    ensures Transcript(ms) == Transcript(LabelledOnly(ms))
    decreases |ms|
  {
    if |ms| > 0 {
      OtherRolesSkipped(ms[1..]);
    }
  }

  /** A single labelled message's block: its label, its content, a blank line. */
  lemma {:induction false} TranscriptOfOne(m: Message)
    requires Labelled(m)
    ensures Transcript([m]) == RoleLabel(RoleOf(m)).value + ContentOf(m) + "\n\n"
  {
    assert [m][1..] == [];
  }

  /** `_create_summary_prompt`: the fixed instruction framing the transcript. */
  function SummaryPrompt(ms: seq<Message>): (p: string)
    ensures StartsWith(p, PromptHead) && EndsWith(p, PromptTail)
    ensures |p| == |PromptHead| + |Transcript(ms)| + |PromptTail|
    ensures p[|PromptHead|..|p| - |PromptTail|] == Transcript(ms)
  {
    var p := PromptHead + Transcript(ms) + PromptTail;
    assert p[|p| - |PromptTail|..] == PromptTail;
    assert p[|PromptHead|..|p| - |PromptTail|] == Transcript(ms);
    p
  }

  // ---------------------------------------------------------------------
  // The upstream call

  /** What `call_deepseek_api` is asked for. */
  datatype Call = Call(messages: seq<Message>, temperature: real, maxTokens: Option<int>)

  /** The token counts a reply may carry, each possibly missing. */
  datatype UsageReport = UsageReport(promptTokens: Option<nat>, completionTokens: Option<nat>, totalTokens: Option<nat>)

  /** The parsed reply, or the text of the exception `call_deepseek_api` raised (no key, network, status, JSON). */
  datatype Outcome = Returned(data: Completion, usage: Option<UsageReport>) | Raised(message: string)

  /** The upstream service, as an oracle from call to outcome. */
  type Api = Call -> Outcome

  /** The call `summarize_messages` makes. */
  function SummaryCall(ms: seq<Message>): Call {
    Call([Msg("system", SummarizerRole), Msg("user", SummaryPrompt(ms))], SummaryTemperature, Some(SummaryMaxTokens))
  }

  /** `str(e)` of an `HTTPException`. */
  function ExceptionText(e: HttpError): string {
    NatToString(e.status) + ": " + e.detail
  }

  /**
   * `summarize_messages`: "" for no messages, without a call; otherwise the
   * first choice's content. Every failure becomes a 500 whose detail starts
   * with "Error summarizing messages: " (its own 500 for a reply without
   * choices is caught by the same `except` and wrapped once more).
   */
  function Summarize(ms: seq<Message>, api: Api): (r: Result<string>)
    ensures |ms| == 0 ==> r == Ok("")
    ensures r.Err? <==> |ms| > 0 && (api(SummaryCall(ms)).Raised? || !NonEmpty(api(SummaryCall(ms)).data.choices))
    ensures |ms| > 0 && r.Ok? ==> r.value == api(SummaryCall(ms)).data.choices.value[0]
    ensures r.Err? ==> r.error.status == 500 && StartsWith(r.error.detail, "Error summarizing messages: ")
  {
    if |ms| == 0 then Ok("")
    else
      var prefix := "Error summarizing messages: ";
      match api(SummaryCall(ms))
      case Raised(m) => Err(HttpError(500, prefix + m))
      case Returned(data, _) =>
        match ReplyText(data)
        case Ok(s) => Ok(s)
        case Err(e) => Err(HttpError(500, prefix + ExceptionText(e)))
  }

  // ---------------------------------------------------------------------
  // compress_history

  /** `compress_history`: below the threshold the identity, otherwise a placeholder in place of the first `threshold` messages. */
  function CompressHistory(ms: seq<Message>, threshold: nat): (r: seq<Message>)
    ensures |ms| < threshold ==> r == ms
    ensures |ms| >= threshold ==> |r| == 1 + |ms| - threshold
    ensures |ms| >= threshold ==> r[0] == Msg("system", Placeholder) && r[1..] == ms[threshold..]
  {
    if |ms| < threshold then ms else [Msg("system", Placeholder)] + ms[threshold..]
  }

  // ---------------------------------------------------------------------
  // chat_with_history and chat_with_history_stream

  /** `last_compression_point`: the largest multiple of ten not above n. */
  function CompressionPoint(n: nat): (p: nat)
    ensures p % Threshold == 0 && p <= n < p + Threshold
    ensures p == n - n % Threshold
    ensures n >= Threshold ==> p >= Threshold
  {
    (n / Threshold) * Threshold
  }

  /** The system message that stands in for the summarised messages. */
  function SummaryMessage(count: nat, summary: string): (m: Message)
    ensures RoleOf(m) == "system"
    ensures EndsWith(ContentOf(m), ":\n" + summary)
  {
    var head := "Суммаризация предыдущего диалога (" + NatToString(count) + " сообщений)";
    assert (head + ":\n" + summary)[|head|..] == ":\n" + summary;
    Msg("system", head + ":\n" + summary)
  }

  /** The list sent upstream and the summary, when one was made. */
  datatype Plan = Plan(messages: seq<Message>, summary: Option<string>)

  /**
   * Compression happens iff there are at least ten messages; then the first
   * `CompressionPoint(n)` are summarised and replaced by one system message,
   * so the list has `1 + n % 10` messages and ends with the unsummarised ones.
   */
  function Compress(ms: seq<Message>, api: Api): (r: Result<Plan>)
    ensures |ms| < Threshold ==> r == Ok(Plan(ms, None))
    ensures r.Err? <==> |ms| >= Threshold && Summarize(ms[..CompressionPoint(|ms|)], api).Err?
    ensures r.Ok? && |ms| >= Threshold ==>
              && r.value.summary == Some(Summarize(ms[..CompressionPoint(|ms|)], api).value)
              && |r.value.messages| == 1 + |ms| % Threshold
              && r.value.messages[0] == SummaryMessage(CompressionPoint(|ms|), r.value.summary.value)
              && r.value.messages[1..] == ms[CompressionPoint(|ms|)..]
  {
    if |ms| < Threshold then Ok(Plan(ms, None))
    else
      var p := CompressionPoint(|ms|);
      match Summarize(ms[..p], api)
      case Err(e) => Err(e)
      case Ok(s) => Ok(Plan([SummaryMessage(p, s)] + ms[p..], Some(s)))
  }

  /** The request body of both endpoints. */
  datatype HistoryRequest = HistoryRequest(messages: seq<Message>, temperature: Option<real>, maxTokens: Option<int>)

  /** What both endpoints report about compression. */
  datatype Info = Info(compressed: bool, originalCount: nat, compressedCount: nat, summary: Option<string>)

  function InfoOf(ms: seq<Message>, plan: Plan): Info {
    Info(plan.summary.Some?, |ms|, |plan.messages|, plan.summary)
  }

  /** The `/chat` reply. */
  datatype HistoryReply = HistoryReply(response: string, info: Info, usage: Option<Usage>)

  /** `data["usage"].get(key, 0)` for each of the three counts. */
  function UsageOf(u: UsageReport): (r: Usage)
    ensures r.promptTokens == u.promptTokens.GetOr(0)
    ensures r.completionTokens == u.completionTokens.GetOr(0)
    ensures r.totalTokens == u.totalTokens.GetOr(0)
  {
    Usage(u.promptTokens.GetOr(0), u.completionTokens.GetOr(0), u.totalTokens.GetOr(0))
  }

  /** The call the endpoints make with the (possibly compressed) list. */
  function HistoryCall(req: HistoryRequest, plan: Plan): Call {
    Call(plan.messages, TemperatureOr(req.temperature, HistoryTemperature), req.maxTokens)
  }

  /**
   * `chat_with_history`: the counts it reports satisfy
   * original − compressed = ⌊n/10⌋·10 − 1 whenever compression was applied;
   * summary errors pass through, a reply without choices is a 500, any other
   * failure a 500 with "Internal server error: ".
   */
  function ChatWithHistory(req: HistoryRequest, api: Api): (r: Result<HistoryReply>)
    ensures r.Ok? ==> r.value.info.originalCount == |req.messages|
    ensures r.Ok? ==> (r.value.info.compressed <==> |req.messages| >= Threshold)
    ensures r.Ok? ==> (r.value.info.summary.Some? <==> r.value.info.compressed)
    ensures r.Ok? && r.value.info.compressed ==>
              && r.value.info.compressedCount == 1 + |req.messages| % Threshold
              && r.value.info.originalCount - r.value.info.compressedCount == CompressionPoint(|req.messages|) - 1
    ensures r.Ok? && !r.value.info.compressed ==> r.value.info.compressedCount == r.value.info.originalCount
    ensures Compress(req.messages, api).Err? ==> r.Err? && r.error == Compress(req.messages, api).error
    ensures r.Err? && Compress(req.messages, api).Ok? ==> r.error.status == 500
  {
    match Compress(req.messages, api)
    case Err(e) => Err(e)
    case Ok(plan) =>
      match api(HistoryCall(req, plan))
      case Raised(m) => Err(HttpError(500, "Internal server error: " + m))
      case Returned(data, usage) =>
        if NonEmpty(data.choices) then
          Ok(HistoryReply(data.choices.value[0], InfoOf(req.messages, plan),
             if usage.Some? then Some(UsageOf(usage.value)) else None))
        else Err(HttpError(500, UnexpectedFormat))
  }

  /**
   * `chat_with_history_stream` up to its first frame: the same compression
   * and the same counts, reported before any content arrives.
   */
  function StreamInfo(req: HistoryRequest, api: Api): (r: Result<(Info, Call)>)
    ensures r.Ok? <==> Compress(req.messages, api).Ok?
    ensures r.Ok? ==> r.value.1 == HistoryCall(req, Compress(req.messages, api).value)
  {
    match Compress(req.messages, api)
    case Err(e) => Err(e)
    case Ok(plan) => Ok((InfoOf(req.messages, plan), HistoryCall(req, plan)))
  }

  /** The streaming endpoint reports exactly what the plain one reports, and sends the same call. */
  lemma {:induction false} StreamAgreesWithChat(req: HistoryRequest, api: Api)
    requires ChatWithHistory(req, api).Ok?
    ensures StreamInfo(req, api).Ok?
    ensures StreamInfo(req, api).value.0 == ChatWithHistory(req, api).value.info
  {
  }

  /**
   * For histories of ten to nineteen messages, the endpoints cut where
   * `compress_history` cuts: both keep the same tail after one leading
   * system message.
   */
  lemma {:induction false} CompressAgreesWithCompressHistory(ms: seq<Message>, api: Api)
    requires Threshold <= |ms| < 2 * Threshold
    requires Compress(ms, api).Ok?
    ensures |Compress(ms, api).value.messages| == |CompressHistory(ms, Threshold)|
    ensures Compress(ms, api).value.messages[1..] == CompressHistory(ms, Threshold)[1..]
  {
    assert CompressionPoint(|ms|) == Threshold;
  }

  /** The summarised part and the kept part partition the history, and the summary call sees exactly the summarised part. */
  lemma {:induction false} CompressionPartition(ms: seq<Message>, api: Api)
    requires |ms| >= Threshold
    ensures var p := CompressionPoint(|ms|);
            && ms[..p] + ms[p..] == ms
            && |ms[..p]| == p && |ms[p..]| < Threshold
            && SummaryCall(ms[..p]).messages[1].content == Some(SummaryPrompt(ms[..p]))
  {
    var p := CompressionPoint(|ms|);
    assert ms[..p] + ms[p..] == ms;
  }

  /** A summary of an empty list costs no call and is the empty string. */
  lemma {:induction false} EmptySummaryNoCall(api: Api)
    ensures Summarize([], api) == Ok("")
  {
  }
}

/**
 * How the backend turns a request body into the message list it sends
 * upstream: the root `main.py` keeps the whole history, the chat and llama
 * routers keep only the system prompt and one user turn, the Llama service
 * flattens the list into one text prompt, and the llama router cleans the
 * generated text it gets back.
 */
module BackendMessages {
  import opened Wrappers
  import opened Strings
  import opened Lines
  import opened Wire

  const NeitherDetail: string := "Either 'prompt' or 'messages' must be provided"
  const NoUserDetail: string := "No user message found in request"

  /** The optional leading system message: present iff the system prompt is truthy. */
  function SystemPart(system: Option<string>): (ms: seq<Message>)
    ensures |ms| <= 1
    ensures |ms| == 1 <==> Truthy(system)
    ensures |ms| == 1 ==> ms[0] == Msg("system", system.value)
  {
    if Truthy(system) then [Msg("system", system.value)] else []
  }

  // ---------------------------------------------------------------------
  // main.py

  /**
   * The message list of `chat` and `chat_stream` in `main.py`, with the
   * missing-input error as the code evidently means it (status 400).
   */
  function AssembleMessages(req: ChatRequest): (r: Result<seq<Message>>)
    ensures r.Ok? <==> NonEmpty(req.messages) || Truthy(req.prompt)
    ensures NonEmpty(req.messages) ==>
              && r.Ok?
              && |r.value| == |req.messages.value| + (if Truthy(req.systemPrompt) then 1 else 0)
              && r.value[|r.value| - |req.messages.value|..] == req.messages.value
              && (Truthy(req.systemPrompt) ==> r.value[0] == Msg("system", req.systemPrompt.value))
    ensures !NonEmpty(req.messages) && Truthy(req.prompt) ==> r == Ok([Msg("user", req.prompt.value)])
    ensures r.Err? ==> r.error == HttpError(400, NeitherDetail)
  {
    if NonEmpty(req.messages) then
      Ok(SystemPart(req.systemPrompt) + req.messages.value)
    else if Truthy(req.prompt) then
      Ok([Msg("user", req.prompt.value)])
    else
      Err(HttpError(400, NeitherDetail))
  }

  /**
   * What `main.py`'s generic `except Exception` makes of an `HTTPException`
   * raised inside its own `try`: a 500 whose detail embeds `str(e)`, which
   * is `"<status>: <detail>"`.
   */
  function CaughtByGenericHandler(e: HttpError): (r: HttpError)
    ensures r.status == 500
    ensures StartsWith(r.detail, "Internal server error: ") && EndsWith(r.detail, e.detail)
  {
    var d := "Internal server error: " + NatToString(e.status) + ": " + e.detail;
    assert d[|d| - |e.detail|..] == e.detail;
    HttpError(500, d)
  }

  /** `main.py` as written: the 400 it raises is re-raised as a 500. */
  function AssembleMessagesAsWritten(req: ChatRequest): (r: Result<seq<Message>>)
    ensures r.Ok? ==> r == AssembleMessages(req)
    ensures r.Err? ==> AssembleMessages(req).Err? && r.error == CaughtByGenericHandler(AssembleMessages(req).error)
  {
    match AssembleMessages(req)
    case Ok(ms) => Ok(ms)
    case Err(e) => Err(CaughtByGenericHandler(e))
  }

  /** A request with neither prompt nor messages gets status 500 from `main.py`, not the 400 it raises. */
  lemma MissingInputAnswered500()
    ensures var req := ChatRequest(None, None, None, None, None);
            && AssembleMessages(req) == Err(HttpError(400, NeitherDetail))
            && AssembleMessagesAsWritten(req).Err?
            && AssembleMessagesAsWritten(req).error.status == 500
  {
  }

  /** Both agree on every request that has a prompt or messages. */
  lemma {:induction false} AsWrittenAgreesOnValidInput(req: ChatRequest)
    requires NonEmpty(req.messages) || Truthy(req.prompt)
    ensures AssembleMessagesAsWritten(req) == AssembleMessages(req)
  {
  }

  /** The upstream reply: the `content` of each element of `choices` (None when `choices` is missing). */
  datatype Completion = Completion(choices: Option<seq<string>>)

  /** `data["choices"][0]["message"]["content"]`, or a 500 when there is no choice. */
  function ReplyText(data: Completion): (r: Result<string>)
    ensures r.Ok? <==> NonEmpty(data.choices)
    ensures r.Ok? ==> r.value == data.choices.value[0]
    ensures r.Err? ==> r.error.status == 500
  {
    if NonEmpty(data.choices) then Ok(data.choices.value[0])
    else Err(HttpError(500, "Unexpected response format from DeepSeek API"))
  }

  // ---------------------------------------------------------------------
  // backend/routers/chat.py and backend/routers/llama.py

  /** The content of the last message whose role is "user", if any (itself possibly missing). */
  function LastUserContent(ms: seq<Message>): (r: Option<Option<string>>)
    ensures r.Some? <==> exists i | 0 <= i < |ms| :: ms[i].role == Some("user")
    ensures r.Some? ==> exists i | 0 <= i < |ms| :: ms[i].role == Some("user") && r.value == ms[i].content
                          && forall j | i < j < |ms| :: ms[j].role != Some("user")
  {
    if |ms| == 0 then None
    else if ms[|ms| - 1].role == Some("user") then Some(ms[|ms| - 1].content)
    else
      var r := LastUserContent(ms[..|ms| - 1]);
      assert forall i | 0 <= i < |ms| - 1 :: ms[..|ms| - 1][i] == ms[i];
      r
  }

  /** The single user turn `_prepare_messages` keeps. */
  function UserContent(req: ChatRequest): (r: Result<string>)
    ensures r.Ok? ==> r.value != ""
    ensures Truthy(req.prompt) ==> r == Ok(req.prompt.value)
    ensures !Truthy(req.prompt) && !NonEmpty(req.messages) ==> r == Err(HttpError(400, NeitherDetail))
    ensures r.Err? && NonEmpty(req.messages) ==> r.error == HttpError(400, NoUserDetail)
  {
    if Truthy(req.prompt) then Ok(req.prompt.value)
    else if NonEmpty(req.messages) then
      var ms := req.messages.value;
      var fromUser: Option<string> := match LastUserContent(ms) case Some(c) => c case None => None;
      var c := if Truthy(fromUser) then fromUser.value else ContentOf(ms[|ms| - 1]);
      if c != "" then Ok(c) else Err(HttpError(400, NoUserDetail))
    else Err(HttpError(400, NeitherDetail))
  }

  /** `_prepare_messages`: the optional system message, then exactly one user message. */
  function PrepareMessages(req: ChatRequest): (r: Result<seq<Message>>)
    ensures r.Ok? <==> UserContent(req).Ok?
    ensures r.Ok? ==> 1 <= |r.value| <= 2
    ensures r.Ok? ==> r.value[|r.value| - 1] == Msg("user", UserContent(req).value)
    ensures r.Ok? ==> (|r.value| == 2 <==> Truthy(req.systemPrompt))
    ensures r.Ok? && |r.value| == 2 ==> r.value[0] == Msg("system", req.systemPrompt.value)
    ensures r.Err? ==> r.error.status == 400
  {
    match UserContent(req)
    case Ok(c) => Ok(SystemPart(req.systemPrompt) + [Msg("user", c)])
    case Err(e) => Err(e)
  }

  /**
   * With no prompt, the kept turn is the last user message when its content
   * is truthy, and otherwise the content of the last message of any role.
   */
  lemma {:induction false} UserTurnChoice(req: ChatRequest, i: nat)
    requires !Truthy(req.prompt) && NonEmpty(req.messages)
    requires i < |req.messages.value|
    requires req.messages.value[i].role == Some("user")
    requires forall j | i < j < |req.messages.value| :: req.messages.value[j].role != Some("user")
    ensures var ms := req.messages.value;
            Truthy(ms[i].content) ==> UserContent(req) == Ok(ms[i].content.value)
    ensures var ms := req.messages.value;
            !Truthy(ms[i].content) && ContentOf(ms[|ms| - 1]) != "" ==> UserContent(req) == Ok(ContentOf(ms[|ms| - 1]))
  {
    LastUserUnique(req.messages.value, i);
  }

  lemma {:induction false} LastUserUnique(ms: seq<Message>, i: nat)
    requires i < |ms| && ms[i].role == Some("user")
    requires forall j | i < j < |ms| :: ms[j].role != Some("user")
    ensures LastUserContent(ms) == Some(ms[i].content)
    decreases |ms|
  {
    if i < |ms| - 1 {
      var ms' := ms[..|ms| - 1];
      LastUserUnique(ms', i);
    }
  }

  /** The history before the kept turn is discarded: only the last messages matter. */
  lemma {:induction false} PrepareIgnoresEarlierHistory(req: ChatRequest, earlier: seq<Message>)
    requires NonEmpty(req.messages)
    requires req.messages.value[|req.messages.value| - 1].role == Some("user")
    ensures PrepareMessages(req.(messages := Some(earlier + req.messages.value))) == PrepareMessages(req)
  {
    var ms := req.messages.value;
    var all := earlier + ms;
    assert all[|all| - 1] == ms[|ms| - 1];
    LastUserUnique(all, |all| - 1);
    LastUserUnique(ms, |ms| - 1);
  }

  const ChatTemperature: real := 0.3
  const LlamaTemperature: real := 0.7

  /** `request.temperature if request.temperature is not None else default`. */
  function TemperatureOr(requested: Option<real>, default: real): (t: real)
    ensures requested.Some? ==> t == requested.value
    ensures requested.None? ==> t == default
  {
    if requested.Some? then requested.value else default
  }

  /** Python `max_tokens or default`: None and 0 both fall back. */
  function MaxTokensOr(requested: Option<int>, default: int): (n: int)
    ensures n == default <==> requested.None? || requested.value == 0 || requested.value == default
    ensures requested.Some? && requested.value != 0 ==> n == requested.value
  {
    if requested.Some? && requested.value != 0 then requested.value else default
  }

  /** `MAX_TOKENS` when the environment does not set it, and the Llama services' fixed fallback. */
  const DefaultMaxTokens: int := 1000

  // ---------------------------------------------------------------------
  // backend/services/llama_api.py: flattening into one text prompt

  /** The prompt line a message contributes, or None for a role the flattening skips. */
  function PromptLine(m: Message): (l: Option<string>)
    ensures l.Some? <==> RoleOf(m) == "system" || RoleOf(m) == "user" || RoleOf(m) == "assistant"
    ensures l.Some? ==> EndsWith(l.value, ": " + ContentOf(m))
  {
    var role := RoleOf(m);
    if role == "system" then Some("System: " + ContentOf(m))
    else if role == "user" then Some("User: " + ContentOf(m))
    else if role == "assistant" then Some("Assistant: " + ContentOf(m))
    else None
  }

  /** The lines of the known-role messages, in order. */
  function PromptLines(ms: seq<Message>): (ls: seq<string>)
    ensures |ls| <= |ms|
  {
    if |ms| == 0 then []
    else match PromptLine(ms[0])
      case Some(l) => [l] + PromptLines(ms[1..])
      case None => PromptLines(ms[1..])
  }

  /** `"".join(prompt_parts) + "Assistant:"`. */
  function LlamaPrompt(ms: seq<Message>): (p: string)
    ensures EndsWith(p, "Assistant:")
  {
    var p := Parts(ms) + "Assistant:";
    assert p[|p| - 10..] == "Assistant:";
    p
  }

  function Parts(ms: seq<Message>): string {
    if |ms| == 0 then ""
    else match PromptLine(ms[0])
      case Some(l) => l + "\n" + Parts(ms[1..])
      case None => Parts(ms[1..])
  }

  lemma {:induction false} PartsAreTerminatedLines(ms: seq<Message>)
    ensures Parts(ms) == Terminated(PromptLines(ms))
  {
    if |ms| > 0 {
      PartsAreTerminatedLines(ms[1..]);
    }
  }

  /**
   * When no content holds a newline, the flattened prompt reads back line by
   * line: one `Role: content` line per known-role message in order, then the
   * unterminated `Assistant:` cue.
   */
  lemma {:induction false} LlamaPromptReadsBack(ms: seq<Message>)
    requires forall i | 0 <= i < |ms| :: NoNewline(ContentOf(ms[i]))
    ensures CompleteLines(LlamaPrompt(ms)) == PromptLines(ms)
    ensures Unterminated(LlamaPrompt(ms)) == "Assistant:"
  {
    var ls := PromptLines(ms);
    PartsAreTerminatedLines(ms);
    PromptLinesNoNewline(ms);
    CueNoNewline();
    assert LlamaPrompt(ms) == Terminated(ls) + "Assistant:";
    TerminatedRoundTrip(ls, "Assistant:");
  }

  lemma CueNoNewline()
    ensures NoNewline("Assistant:")
  {
    var u := "Assistant:";
    forall i | 0 <= i < |u| ensures u[i] != '\n' {
    }
  }

  lemma {:induction false} PromptLinesNoNewline(ms: seq<Message>)
    requires forall i | 0 <= i < |ms| :: NoNewline(ContentOf(ms[i]))
    ensures forall i | 0 <= i < |PromptLines(ms)| :: NoNewline(PromptLines(ms)[i])
  {
    if |ms| > 0 {
      PromptLinesNoNewline(ms[1..]);
      assert NoNewline(ContentOf(ms[0]));
      match PromptLine(ms[0])
      case Some(l) =>
        assert l[|l| - |ContentOf(ms[0])|..] == ContentOf(ms[0]);
        assert forall k | 0 <= k < |l| - |ContentOf(ms[0])| :: l[k] != '\n';
        assert forall k | |l| - |ContentOf(ms[0])| <= k < |l| :: l[k] == ContentOf(ms[0])[k - (|l| - |ContentOf(ms[0])|)];
        assert NoNewline(l);
        assert PromptLines(ms) == [l] + PromptLines(ms[1..]);
      case None =>
    }
  }

  /** Messages of unknown roles add nothing to the flattened prompt. */
  lemma {:induction false} UnknownRoleSkipped(m: Message, ms: seq<Message>)
    requires PromptLine(m).None?
    ensures LlamaPrompt([m] + ms) == LlamaPrompt(ms)
  {
    assert ([m] + ms)[1..] == ms;
  }

  // ---------------------------------------------------------------------
  // backend/routers/llama.py: reading the generated text

  /** The shapes the Hugging Face response takes, with `str(data)` kept for the fallback. */
  datatype HfData =
    | HfList(first: Option<Option<string>>, repr: string)  // first element's `generated_text`, None for an empty list
    | HfDict(generatedText: Option<string>, text: Option<string>, repr: string)
    | HfOther(repr: string)

  /** List: first element's `generated_text`; dict: `generated_text`, else `text`; otherwise "". */
  function GeneratedText(data: HfData): (g: string)
    ensures data.HfOther? || (data.HfList? && data.first.None?) ==> g == ""
    ensures data.HfDict? && data.generatedText.Some? ==> g == data.generatedText.value
    ensures data.HfDict? && data.generatedText.None? && data.text.Some? ==> g == data.text.value
  {
    match data
    case HfList(Some(t), _) => t.GetOr("")
    case HfList(None, _) => ""
    case HfDict(Some(t), _, _) => t
    case HfDict(None, Some(t), _) => t
    case HfDict(None, None, _) => ""
    case HfOther(_) => ""
  }

  /** `"".join(f"{role}: {content}" for m in messages)`: the text the router looks for in the output. */
  function MessagesText(ms: seq<Message>): string {
    if |ms| == 0 then "" else RoleOf(ms[0]) + ": " + ContentOf(ms[0]) + MessagesText(ms[1..])
  }

  /** As written: if the messages text occurs anywhere, drop that many leading characters and strip. */
  function StripPromptAsWritten(g: string, mt: string): (r: string)
    ensures Contains(g, mt) ==> |mt| <= |g| && r == Trim(g[|mt|..], PySpace)
    ensures !Contains(g, mt) ==> r == g
  {
    if Contains(g, mt) then
      ContainsFits(g, mt);
      Trim(g[|mt|..], PySpace)
    else g
  }

  lemma {:induction false} ContainsFits(hay: string, needle: string)
    requires Contains(hay, needle)
    ensures |needle| <= |hay|
    decreases |hay|
  {
    if !StartsWith(hay, needle) {
      ContainsFits(hay[1..], needle);
    }
  }

  /** The text is cut by length, not at the occurrence: an echo after the start removes the wrong characters. */
  lemma StripCutsByLength()
    ensures StripPromptAsWritten("A user: q", "user: q") == "q"
  {
    var g := "A user: q";
    assert g[2..][..7] == "user: q";
    ContainsAt(g, "user: q", 2);
    assert g[7..] == " q";
    TrimOfSpaceQ();
  }

  lemma TrimOfSpaceQ()
    ensures Trim(" q", PySpace) == "q"
  {
    assert TrimStart(" q", PySpace) == "q";
    assert TrimEnd("q", PySpace) == "q";
  }

  /** Removing the messages text only when the output starts with it, as the comment beside it says. */
  function StripPrompt(g: string, mt: string): (r: string)
    ensures StartsWith(g, mt) ==> r == Trim(g[|mt|..], PySpace)
    ensures !StartsWith(g, mt) ==> r == g
  {
    if StartsWith(g, mt) then Trim(g[|mt|..], PySpace) else g
  }

  /** The corrected strip leaves an output alone when the echo is not at its start. */
  lemma StripKeepsInnerEcho()
    ensures StripPrompt("A user: q", "user: q") == "A user: q"
  {
    assert "A user: q"[..7] != "user: q" by { assert "A user: q"[0] == 'A'; }
  }

  /** An output that starts with the echoed messages text is reduced to the stripped remainder. */
  lemma {:induction false} StripPromptRemovesEcho(mt: string, rest: string)
    ensures StripPrompt(mt + rest, mt) == Trim(rest, PySpace)
  {
    var g := mt + rest;
    assert g[..|mt|] == mt;
    assert g[|mt|..] == rest;
  }

  /** The note the router returns when no text could be extracted: at most 500 characters of the raw data. */
  function UnexpectedNote(data: HfData): (r: string)
    ensures |r| <= 521
    ensures StartsWith(r, "[Unexpected format: ") && r[|r| - 1] == ']'
  {
    "[Unexpected format: " + data.repr[..if |data.repr| < 500 then |data.repr| else 500] + "]"
  }

  /** The llama router's reply text as written: an echo found anywhere costs the reply its leading characters. */
  function LlamaReply(data: HfData, ms: seq<Message>): (r: string)
    ensures GeneratedText(data) == "" ==> r == UnexpectedNote(data)
    ensures GeneratedText(data) != "" && !Contains(GeneratedText(data), MessagesText(ms)) ==>
              r == GeneratedText(data)
    ensures GeneratedText(data) != "" && Contains(GeneratedText(data), MessagesText(ms)) ==>
              |MessagesText(ms)| + |r| <= |GeneratedText(data)|
              && r == Trim(GeneratedText(data)[|MessagesText(ms)|..], PySpace)
  {
    var g := GeneratedText(data);
    if g != "" then StripPromptAsWritten(g, MessagesText(ms)) else UnexpectedNote(data)
  }

  /** The reply with the echo removed only from the start of the output. */
  function LlamaReplyCorrected(data: HfData, ms: seq<Message>): (r: string)
    ensures GeneratedText(data) == "" ==> r == UnexpectedNote(data)
    ensures GeneratedText(data) != "" && !StartsWith(GeneratedText(data), MessagesText(ms)) ==>
              r == GeneratedText(data)
    ensures GeneratedText(data) != "" && StartsWith(GeneratedText(data), MessagesText(ms)) ==>
              |MessagesText(ms)| + |r| <= |GeneratedText(data)|
  {
    var g := GeneratedText(data);
    if g != "" then StripPrompt(g, MessagesText(ms)) else UnexpectedNote(data)
  }

  /** A model output that repeats the conversation before its answer is answered with the stripped answer alone. */
  lemma {:induction false} LlamaReplyDropsEcho(data: HfData, ms: seq<Message>, rest: string)
    requires GeneratedText(data) == MessagesText(ms) + rest && GeneratedText(data) != ""
    ensures LlamaReply(data, ms) == Trim(rest, PySpace)
    ensures LlamaReplyCorrected(data, ms) == Trim(rest, PySpace)
  {
  }

  /** The two replies differ only when the echo occurs after the start of the output. */
  lemma {:induction false} LlamaRepliesAgree(data: HfData, ms: seq<Message>)
    requires StartsWith(GeneratedText(data), MessagesText(ms)) || !Contains(GeneratedText(data), MessagesText(ms))
    ensures LlamaReply(data, ms) == LlamaReplyCorrected(data, ms)
  {
  }
}

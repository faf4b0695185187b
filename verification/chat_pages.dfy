/**
 * The two plain chat pages of the `src` frontend: the prompt-writing chat,
 * which sends a fixed system prompt with the recent history, and the
 * system-prompt lab, where the user edits the system prompt, applies it in
 * the middle of a conversation and sees which replies came after the
 * change. Both append the user's message and a typing placeholder on
 * submit and later settle only that placeholder.
 */
module ChatPages {
  import opened Wrappers
  import opened Strings
  import opened Wire
  import BackendMessages
  import StreamConsumer

  datatype Role = User | Assistant | SystemChange

  /** A chat bubble; `systemPrompt` is carried by system-change markers only. */
  datatype ChatMessage = ChatMessage(
    id: string,
    role: Role,
    content: string,
    isTyping: bool,
    copied: bool,
    systemPrompt: Option<string>)

  const Typing: string := "..."

  /** How the call ends: the decoded answer, an error status with its body, or an exception. */
  datatype Reply =
    | Answered(response: string)
    | Refused(status: nat, body: StreamConsumer.ErrorBody)
    | Thrown(message: string)

  // ---------------------------------------------------------------------
  // Submitting and settling, as both pages do it

  /** A submit goes through only with a non-blank input and no request in flight. */
  predicate CanSubmit(input: string, loading: bool) {
    !AllSpace(input, JsSpace) && !loading
  }

  function UserMessage(id: string, input: string): ChatMessage {
    ChatMessage(id, User, Trim(input, JsSpace), false, false, None)
  }

  function Placeholder(id: string): ChatMessage {
    ChatMessage(id, Assistant, Typing, true, false, None)
  }

  /** What the placeholder finally shows: the answer once typed out, or the error. */
  function ReplyText(r: Reply): (t: string)
    ensures r.Answered? ==> t == r.response
    ensures !r.Answered? ==> StartsWith(t, "Ошибка: ")
  {
    match r
    case Answered(text) => text
    case Refused(status, body) => "Ошибка: " + StreamConsumer.HttpErrorMessage(status, body)
    case Thrown(m) => "Ошибка: " + m
  }

  /** The placeholder, and only it, gets its final text and stops typing. */
  function Settle(ms: seq<ChatMessage>, loadingId: string, r: Reply): (rs: seq<ChatMessage>)
    ensures |rs| == |ms|
    ensures forall i | 0 <= i < |ms| ::
              rs[i] == if ms[i].id == loadingId then ms[i].(content := ReplyText(r), isTyping := false) else ms[i]
  {
    if |ms| == 0 then []
    else [if ms[0].id == loadingId then ms[0].(content := ReplyText(r), isTyping := false) else ms[0]]
         + Settle(ms[1..], loadingId, r)
  }

  predicate FreshId(ms: seq<ChatMessage>, id: string) {
    forall i | 0 <= i < |ms| :: ms[i].id != id
  }

  /** Settling a fresh placeholder appended last leaves every earlier message as it was. */
  lemma {:induction false} SettleLast(ms: seq<ChatMessage>, u: ChatMessage, loadingId: string, r: Reply)
    requires FreshId(ms, loadingId) && u.id != loadingId
    ensures Settle(ms + [u, Placeholder(loadingId)], loadingId, r)
            == ms + [u, ChatMessage(loadingId, Assistant, ReplyText(r), false, false, None)]
  {
    var xs := ms + [u, Placeholder(loadingId)];
    var ys := ms + [u, ChatMessage(loadingId, Assistant, ReplyText(r), false, false, None)];
    var rs := Settle(xs, loadingId, r);
    assert |rs| == |ys|;
    forall i | 0 <= i < |xs| ensures rs[i] == ys[i] {
      if i < |ms| {
        assert xs[i] == ms[i] && ys[i] == ms[i];
      }
    }
  }

  /** JavaScript `slice(-n)` for `n > 0`: the last `n` elements, or all when there are fewer. */
  function LastN<T>(s: seq<T>, n: nat): (r: seq<T>)
    ensures |r| == if |s| < n then |s| else n
    ensures r == s[|s| - |r|..]
  {
    if |s| <= n then s else s[|s| - n..]
  }

  /** `filter`: the elements that pass, in order. */
  function Filter(ms: seq<ChatMessage>, keep: ChatMessage -> bool): (r: seq<ChatMessage>)
    ensures |r| <= |ms|
  {
    if |ms| == 0 then []
    else (if keep(ms[0]) then [ms[0]] else []) + Filter(ms[1..], keep)
  }

  /** The filter keeps exactly the messages that pass. */
  lemma {:induction false} FilterKeeps(ms: seq<ChatMessage>, keep: ChatMessage -> bool)
    ensures forall x :: x in Filter(ms, keep) <==> x in ms && keep(x)
  {
    if |ms| > 0 {
      FilterKeeps(ms[1..], keep);
      assert forall x :: x in ms <==> x == ms[0] || x in ms[1..];
    }
  }

  lemma {:induction false} FilterAppend(a: seq<ChatMessage>, b: seq<ChatMessage>, keep: ChatMessage -> bool)
    ensures Filter(a + b, keep) == Filter(a, keep) + Filter(b, keep)
  {
    if |a| == 0 {
      assert a + b == b;
    } else {
      var hd := if keep(a[0]) then [a[0]] else [];
      assert (a + b)[0] == a[0];
      assert (a + b)[1..] == a[1..] + b;
      FilterAppend(a[1..], b, keep);
      assert Filter(a + b, keep) == hd + (Filter(a[1..], keep) + Filter(b, keep));
      assert Filter(a, keep) == hd + Filter(a[1..], keep);
    }
  }

  function RoleName(r: Role): string {
    match r
    case User => "user"
    case Assistant => "assistant"
    case SystemChange => "system-change"
  }

  function ToWire(ms: seq<ChatMessage>, role: Role -> string): (ws: seq<Message>)
    ensures |ws| == |ms|
    ensures forall i | 0 <= i < |ms| :: ws[i] == Msg(role(ms[i].role), ms[i].content)
  {
    if |ms| == 0 then [] else [Msg(role(ms[0].role), ms[0].content)] + ToWire(ms[1..], role)
  }

  // ---------------------------------------------------------------------
  // The prompt-writing chat (src/Chat.tsx)

  datatype Chat = Chat(messages: seq<ChatMessage>, input: string, loading: bool)

  const WelcomeId: string := "welcome"
  const Welcome: ChatMessage :=
    ChatMessage(WelcomeId, Assistant, "Привет! Опиши задачу — я помогу сформулировать идеальный промпт для Cursor.", false, false, None)
  const ChatStart: Chat := Chat([Welcome], "", false)

  predicate NotWelcome(m: ChatMessage) {
    m.id != WelcomeId
  }

  /**
   * The history sent with a new user message: the last ten messages other
   * than the welcome, roles kept, then the new message; at most eleven.
   */
  function ChatHistory(ms: seq<ChatMessage>, content: string): (h: seq<Message>)
    ensures 1 <= |h| <= 11 && h[|h| - 1] == Msg("user", content)
    ensures |h| == 11 <==> |Filter(ms, NotWelcome)| >= 10
  {
    ToWire(LastN(Filter(ms, NotWelcome), 10), RoleName) + [Msg("user", content)]
  }

  /** The request: the page's fixed system prompt (a parameter here) and the history. */
  function ChatBody(p: Chat, system: string): (req: ChatRequest)
    ensures req.systemPrompt == Some(system) && req.prompt.None?
    ensures req.messages == Some(ChatHistory(p.messages, Trim(p.input, JsSpace)))
  {
    ChatRequest(None, Some(system), Some(ChatHistory(p.messages, Trim(p.input, JsSpace))), None, None)
  }

  /** The root backend forwards the system prompt first and then the whole history it was sent. */
  lemma {:induction false} ChatBodyKeepsHistory(p: Chat, system: string)
    requires system != ""
    ensures BackendMessages.AssembleMessages(ChatBody(p, system))
            == Ok([Msg("system", system)] + ChatHistory(p.messages, Trim(p.input, JsSpace)))
  {
    var h := ChatHistory(p.messages, Trim(p.input, JsSpace));
    var r := BackendMessages.AssembleMessages(ChatBody(p, system));
    assert NonEmpty(Some(h));
    assert r.Ok? && |r.value| == |h| + 1;
    assert r.value[1..] == h && r.value[0] == Msg("system", system);
    assert r.value == [r.value[0]] + r.value[1..];
  }

  /**
   * `handleSubmit` followed by its reply: ignored on a blank input or while
   * loading; otherwise the trimmed user message and the placeholder are
   * appended, the input cleared, and when the reply is in the placeholder
   * is settled and loading ends.
   */
  function ChatExchange(p: Chat, userId: string, loadingId: string, r: Reply): (q: Chat)
    ensures !CanSubmit(p.input, p.loading) ==> q == p
    ensures CanSubmit(p.input, p.loading) ==> q.input == "" && !q.loading && |q.messages| == |p.messages| + 2
  {
    if !CanSubmit(p.input, p.loading) then p
    else
      var ms := p.messages + [UserMessage(userId, p.input), Placeholder(loadingId)];
      Chat(Settle(ms, loadingId, r), "", false)
  }

  /** With fresh ids, an exchange only adds the user's trimmed message and the reply's text. */
  lemma {:induction false} ChatExchangeAppends(p: Chat, userId: string, loadingId: string, r: Reply)
    requires CanSubmit(p.input, p.loading) && FreshId(p.messages, loadingId) && userId != loadingId
    ensures ChatExchange(p, userId, loadingId, r).messages
            == p.messages + [UserMessage(userId, p.input), ChatMessage(loadingId, Assistant, ReplyText(r), false, false, None)]
    ensures Trim(p.input, JsSpace) != ""
  {
    SettleLast(p.messages, UserMessage(userId, p.input), loadingId, r);
  }

  /**
   * The next request remembers the last exchange: its history ends with the
   * previous user message, the reply shown for it, and the new message.
   */
  lemma {:induction false} NextTurnRemembers(p: Chat, userId: string, loadingId: string, r: Reply, next: string)
    requires CanSubmit(p.input, p.loading) && FreshId(p.messages, loadingId) && userId != loadingId
    requires userId != WelcomeId && loadingId != WelcomeId
    ensures var h := ChatHistory(ChatExchange(p, userId, loadingId, r).messages, next);
            && |h| >= 3
            && h[|h| - 3] == Msg("user", Trim(p.input, JsSpace))
            && h[|h| - 2] == Msg("assistant", ReplyText(r))
            && h[|h| - 1] == Msg("user", next)
  {
    ChatExchangeAppends(p, userId, loadingId, r);
    var u := UserMessage(userId, p.input);
    var a := ChatMessage(loadingId, Assistant, ReplyText(r), false, false, None);
    HistoryEndsWith(p.messages, u, a, next);
  }

  /** The history of a list that ends with two non-welcome messages ends with those two and the new one. */
  lemma {:induction false} HistoryEndsWith(ms: seq<ChatMessage>, u: ChatMessage, a: ChatMessage, next: string)
    requires NotWelcome(u) && NotWelcome(a)
    ensures var h := ChatHistory(ms + [u, a], next);
            && |h| >= 3
            && h[|h| - 3] == Msg(RoleName(u.role), u.content)
            && h[|h| - 2] == Msg(RoleName(a.role), a.content)
            && h[|h| - 1] == Msg("user", next)
  {
    var f := Filter(ms, NotWelcome);
    assert Filter(ms + [u, a], NotWelcome) == f + [u, a] by {
      FilterAppend(ms, [u, a], NotWelcome);
      FilterTwo(u, a, NotWelcome);
    }
    WireEndsWithPair(f, u, a, next);
  }

  lemma {:induction false} WireEndsWithPair(f: seq<ChatMessage>, u: ChatMessage, a: ChatMessage, next: string)
    ensures var h := ToWire(LastN(f + [u, a], 10), RoleName) + [Msg("user", next)];
            && |h| >= 3
            && h[|h| - 3] == Msg(RoleName(u.role), u.content)
            && h[|h| - 2] == Msg(RoleName(a.role), a.content)
            && h[|h| - 1] == Msg("user", next)
  {
    LastNEndsWithPair(f, u, a, 10);
  }

  lemma {:induction false} LastNEndsWithPair<T>(s: seq<T>, u: T, a: T, n: nat)
    requires n >= 2
    ensures var last := LastN(s + [u, a], n); |last| >= 2 && last[|last| - 2] == u && last[|last| - 1] == a
  {
    var t := s + [u, a];
    assert t[|t| - 2] == u && t[|t| - 1] == a;
  }

  lemma {:induction false} FilterTwo(u: ChatMessage, a: ChatMessage, keep: ChatMessage -> bool)
    requires keep(u) && keep(a)
    ensures Filter([u, a], keep) == [u, a]
  {
    assert [u, a][1..] == [a];
    assert [a][1..] == [];
  }

  /** Copying marks only the message with that id; the reset two seconds later clears it again. */
  function MarkCopied(ms: seq<ChatMessage>, id: string, copied: bool): (rs: seq<ChatMessage>)
    ensures |rs| == |ms|
    ensures forall i | 0 <= i < |ms| :: rs[i] == if ms[i].id == id then ms[i].(copied := copied) else ms[i]
  {
    if |ms| == 0 then [] else [if ms[0].id == id then ms[0].(copied := copied) else ms[0]] + MarkCopied(ms[1..], id, copied)
  }

  /** A copy and its reset give back the list, as long as that message was not marked already. */
  lemma {:induction false} CopyThenResetRestores(ms: seq<ChatMessage>, id: string)
    requires forall i | 0 <= i < |ms| :: ms[i].id == id ==> !ms[i].copied
    ensures MarkCopied(MarkCopied(ms, id, true), id, false) == ms
  {
    var rs := MarkCopied(MarkCopied(ms, id, true), id, false);
    assert forall i | 0 <= i < |ms| :: rs[i] == ms[i];
  }

  // ---------------------------------------------------------------------
  // The system-prompt lab (src/SystemPromptTest.tsx)

  /** The draft in the editor, the chat, the applied prompt and whether it was ever changed since the last clear. */
  datatype Lab = Lab(
    draft: string,
    messages: seq<ChatMessage>,
    input: string,
    loading: bool,
    current: string,
    changed: bool)

  const DefaultPrompt: string := "Ты — полезный ассистент. Отвечай кратко и по делу."
  const LabStart: Lab := Lab(DefaultPrompt, [], "", false, DefaultPrompt, false)

  function ChangeMarker(id: string, prompt: string): ChatMessage {
    ChatMessage(id, SystemChange, "System Prompt изменён", false, false, Some(prompt))
  }

  /** Whether applying the draft does anything: its trimmed text differs from the applied one. */
  predicate DraftDiffers(p: Lab) {
    Trim(p.draft, JsSpace) != Trim(p.current, JsSpace)
  }

  /**
   * `handleChangeSystemPrompt`: a no-op when the trimmed draft equals the
   * trimmed applied prompt; otherwise one marker carrying the draft is
   * appended, the draft becomes the applied prompt and the change is flagged.
   */
  function ApplyPrompt(p: Lab, changeId: string): (q: Lab)
    ensures !DraftDiffers(p) ==> q == p
    ensures DraftDiffers(p) ==>
              && q.messages == p.messages + [ChangeMarker(changeId, p.draft)]
              && q.current == p.draft && q.changed
              && q.draft == p.draft && q.input == p.input && q.loading == p.loading
  {
    if !DraftDiffers(p) then p
    else p.(messages := p.messages + [ChangeMarker(changeId, p.draft)], current := p.draft, changed := true)
  }

  /** Applying the same draft a second time changes nothing. */
  lemma {:induction false} ApplyTwiceIsOnce(p: Lab, id1: string, id2: string)
    ensures ApplyPrompt(ApplyPrompt(p, id1), id2) == ApplyPrompt(p, id1)
  {
  }

  predicate NotChange(m: ChatMessage) {
    m.role != SystemChange
  }

  /** Anything that is not the user's is sent as the assistant's. */
  function LabRole(r: Role): string {
    if r == User then "user" else "assistant"
  }

  /**
   * The history of the lab: the last ten messages other than change
   * markers, as user or assistant turns, then the new message.
   */
  function LabHistory(ms: seq<ChatMessage>, content: string): (h: seq<Message>)
    ensures 1 <= |h| <= 11 && h[|h| - 1] == Msg("user", content)
    ensures forall i | 0 <= i < |h| :: h[i].role == Some("user") || h[i].role == Some("assistant")
  {
    ToWire(LastN(Filter(ms, NotChange), 10), LabRole) + [Msg("user", content)]
  }

  /** The request carries the applied prompt, never the draft. */
  function LabBody(p: Lab): (req: ChatRequest)
    ensures req.systemPrompt == Some(p.current) && req.prompt.None?
    ensures req.messages == Some(LabHistory(p.messages, Trim(p.input, JsSpace)))
  {
    ChatRequest(None, Some(p.current), Some(LabHistory(p.messages, Trim(p.input, JsSpace))), None, None)
  }

  /** Editing the draft without applying it does not change the request; applying a differing draft sends it. */
  lemma {:induction false} DraftSentOnlyOnceApplied(p: Lab, edited: string, changeId: string)
    ensures LabBody(p.(draft := edited)) == LabBody(p)
    ensures DraftDiffers(p) ==> LabBody(ApplyPrompt(p, changeId)).systemPrompt == Some(p.draft)
  {
  }

  function LabExchange(p: Lab, userId: string, loadingId: string, r: Reply): (q: Lab)
    ensures !CanSubmit(p.input, p.loading) ==> q == p
    ensures CanSubmit(p.input, p.loading) ==>
              && q.input == "" && !q.loading && |q.messages| == |p.messages| + 2
              && q.current == p.current && q.changed == p.changed && q.draft == p.draft
  {
    if !CanSubmit(p.input, p.loading) then p
    else
      var ms := p.messages + [UserMessage(userId, p.input), Placeholder(loadingId)];
      p.(messages := Settle(ms, loadingId, r), input := "", loading := false)
  }

  /** `clearChat`: no messages, no change flagged, and the draft becomes the applied prompt. */
  function Clear(p: Lab): (q: Lab)
    ensures q.messages == [] && !q.changed && q.current == q.draft
    ensures q.draft == p.draft && q.input == p.input && q.loading == p.loading
  {
    p.(messages := [], changed := false, current := p.draft)
  }

  /** After a clear the draft is what applying would leave in place, so applying it again does nothing. */
  lemma {:induction false} ClearThenApplyIsNoOp(p: Lab, changeId: string)
    ensures ApplyPrompt(Clear(p), changeId) == Clear(p)
  {
  }

  /** `findLastSystemChangeIndex`: the greatest index of a change marker, or -1. */
  function LastChangeIndex(ms: seq<ChatMessage>): (k: int)
    ensures -1 <= k < |ms|
    ensures k == -1 <==> forall i | 0 <= i < |ms| :: ms[i].role != SystemChange
    ensures k >= 0 ==> ms[k].role == SystemChange && forall i | k < i < |ms| :: ms[i].role != SystemChange
  {
    if |ms| == 0 then -1
    else if ms[|ms| - 1].role == SystemChange then |ms| - 1
    else LastChangeIndex(ms[..|ms| - 1])
  }

  /** Whether the message at `i` is shown as a reaction after the change. */
  predicate AfterChange(p: Lab, i: nat)
    requires i < |p.messages|
  {
    p.changed && i > LastChangeIndex(p.messages) && p.messages[i].role != SystemChange
  }

  /** Right after a prompt is applied nothing is flagged yet: the new marker is last. */
  lemma {:induction false} FreshChangeFlagsNothing(p: Lab, changeId: string)
    requires DraftDiffers(p)
    ensures var q := ApplyPrompt(p, changeId);
            LastChangeIndex(q.messages) == |q.messages| - 1 && forall i | 0 <= i < |q.messages| :: !AfterChange(q, i)
  {
  }

  /** The exchange that follows an applied prompt is flagged: both its user message and its reply. */
  lemma {:induction false} ReactionsFlagged(p: Lab, changeId: string, userId: string, loadingId: string, r: Reply)
    requires DraftDiffers(p) && CanSubmit(p.input, p.loading)
    requires FreshId(p.messages, loadingId) && changeId != loadingId && userId != loadingId
    ensures var q := LabExchange(ApplyPrompt(p, changeId), userId, loadingId, r);
            && |q.messages| == |p.messages| + 3
            && AfterChange(q, |p.messages| + 1) && AfterChange(q, |p.messages| + 2)
            && !AfterChange(q, |p.messages|)
  {
    var a := ApplyPrompt(p, changeId);
    var c := ChangeMarker(changeId, p.draft);
    var u := UserMessage(userId, a.input);
    var settled := ChatMessage(loadingId, Assistant, ReplyText(r), false, false, None);
    FreshIdAppend(p.messages, c, loadingId);
    SettleLast(a.messages, u, loadingId, r);
    var q := LabExchange(a, userId, loadingId, r);
    var n := |p.messages|;
    assert q.messages == p.messages + [c] + [u, settled];
    assert q.messages[n + 1] == u && q.messages[n + 2] == settled;
    LastChangeAfterAppend(p.messages, c, u, settled);
  }

  lemma {:induction false} FreshIdAppend(ms: seq<ChatMessage>, m: ChatMessage, id: string)
    requires FreshId(ms, id) && m.id != id
    ensures FreshId(ms + [m], id)
  {
    forall i | 0 <= i < |ms| + 1 ensures (ms + [m])[i].id != id {
      if i < |ms| {
        assert (ms + [m])[i] == ms[i];
      }
    }
  }

  lemma {:induction false} LastChangeAfterAppend(ms: seq<ChatMessage>, c: ChatMessage, u: ChatMessage, a: ChatMessage)
    requires c.role == SystemChange && u.role != SystemChange && a.role != SystemChange
    ensures LastChangeIndex(ms + [c] + [u, a]) == |ms|
  {
    var zs := ms + [c];
    var ys := zs + [u];
    var xs := ys + [a];
    assert xs == ms + [c] + [u, a];
    assert zs[|zs| - 1] == c;
    assert LastChangeIndex(zs) == |ms|;
    assert ys[..|ys| - 1] == zs && ys[|ys| - 1] == u;
    assert LastChangeIndex(ys) == |ms|;
    assert xs[..|xs| - 1] == ys && xs[|xs| - 1] == a;
  }
}

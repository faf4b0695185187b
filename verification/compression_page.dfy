/**
 * The compression test page: a chat whose history is sent whole to the
 * compression endpoint, and which hides the messages the backend reports
 * as summarised behind one summary message shown after the welcome.
 */
module CompressionPage {
  import opened Wrappers
  import opened Strings
  import opened Wire
  import opened Entries
  import Compression
  import StreamConsumer

  datatype ChatMessage = ChatMessage(id: string, role: string, content: string, isTyping: bool, isSummary: bool)

  const WelcomeId: string := "welcome"
  const WelcomeText: string :=
    "Привет! Это тест сжатия истории диалога. Каждые 5 сообщений история будет автоматически сжиматься через суммаризацию. Начните диалог!"
  const Welcome: ChatMessage := ChatMessage(WelcomeId, "assistant", WelcomeText, false, false)
  const Typing: string := "..."
  const RequestTemperature: real := 0.7

  const NoUsage: Usage := Usage(0, 0, 0)

  /** The page state: messages, input, loading flag, compression info, token totals, message counter, hidden ids, summary. */
  datatype Page = Page(
    messages: seq<ChatMessage>,
    input: string,
    loading: bool,
    info: Option<Compression.Info>,
    totals: Usage,
    count: nat,
    compressed: set<string>,
    summary: Option<ChatMessage>)

  const Start: Page := Page([Welcome], "", false, None, NoUsage, 0, {}, None)

  // ---------------------------------------------------------------------
  // Submitting

  /** A submit goes through only with a non-blank input and no request in flight. */
  predicate Accepts(p: Page) {
    !AllSpace(p.input, JsSpace) && !p.loading
  }

  function UserMessage(p: Page, userId: string): ChatMessage {
    ChatMessage(userId, "user", Trim(p.input, JsSpace), false, false)
  }

  function Placeholder(loadingId: string): ChatMessage {
    ChatMessage(loadingId, "assistant", Typing, true, false)
  }

  /** The writes `handleSubmit` makes before its first `await`. */
  function Submit(p: Page, userId: string, loadingId: string): (r: Page)
    ensures !Accepts(p) ==> r == p
    ensures Accepts(p) ==>
              && r.messages == p.messages + [UserMessage(p, userId), Placeholder(loadingId)]
              && r.input == "" && r.loading
              && r == p.(messages := r.messages, input := "", loading := true)
    ensures Accepts(p) ==> r.messages[|p.messages|].content != ""
  {
    if !Accepts(p) then p
    else
      TrimBlank(p.input);
      p.(messages := p.messages + [UserMessage(p, userId), Placeholder(loadingId)], input := "", loading := true)
  }

  /** A non-blank input trims to a non-empty message. */
  lemma {:induction false} TrimBlank(s: string)
    requires !AllSpace(s, JsSpace)
    ensures Trim(s, JsSpace) != ""
  {
  }

  /** A message that counts as already on screen and not yet summarised (the code's filter). */
  predicate Shown(m: ChatMessage, hidden: set<string>) {
    m.id != WelcomeId && !m.isTyping && m.id !in hidden
  }

  /** The code's `visibleMessages`: shown messages, summary message included. */
  function VisibleAsWritten(ms: seq<ChatMessage>, hidden: set<string>): (vs: seq<ChatMessage>)
    ensures |vs| <= |ms|
    ensures forall i | 0 <= i < |vs| :: Shown(vs[i], hidden)
  {
    if |ms| == 0 then []
    else if Shown(ms[0], hidden) then [ms[0]] + VisibleAsWritten(ms[1..], hidden)
    else VisibleAsWritten(ms[1..], hidden)
  }

  /** Shown messages that are not the summary message. */
  function Visible(ms: seq<ChatMessage>, hidden: set<string>): (vs: seq<ChatMessage>)
    ensures |vs| <= |ms|
    ensures forall i | 0 <= i < |vs| :: Shown(vs[i], hidden) && !vs[i].isSummary
  {
    if |ms| == 0 then []
    else if Shown(ms[0], hidden) && !ms[0].isSummary then [ms[0]] + Visible(ms[1..], hidden)
    else Visible(ms[1..], hidden)
  }

  /** The code's filter keeps exactly the shown messages. */
  lemma {:induction false} VisibleAsWrittenKeeps(ms: seq<ChatMessage>, hidden: set<string>)
    ensures forall x :: x in VisibleAsWritten(ms, hidden) <==> x in ms && Shown(x, hidden)
  {
    if |ms| > 0 {
      VisibleAsWrittenKeeps(ms[1..], hidden);
      assert forall x :: x in ms <==> x == ms[0] || x in ms[1..];
    }
  }

  /** The corrected filter keeps exactly the shown messages that are not the summary. */
  lemma {:induction false} VisibleKeeps(ms: seq<ChatMessage>, hidden: set<string>)
    ensures forall x :: x in Visible(ms, hidden) <==> x in ms && Shown(x, hidden) && !x.isSummary
  {
    if |ms| > 0 {
      VisibleKeeps(ms[1..], hidden);
      assert forall x :: x in ms <==> x == ms[0] || x in ms[1..];
    }
  }

  lemma {:induction false} VisibleAppend(a: seq<ChatMessage>, b: seq<ChatMessage>, hidden: set<string>)
    ensures Visible(a + b, hidden) == Visible(a, hidden) + Visible(b, hidden)
    decreases |a|
  {
    if |a| == 0 {
      assert a + b == b;
    } else {
      var hd := if Shown(a[0], hidden) && !a[0].isSummary then [a[0]] else [];
      assert (a + b)[0] == a[0];
      assert (a + b)[1..] == a[1..] + b;
      VisibleAppend(a[1..], b, hidden);
      assert Visible(a + b, hidden) == hd + (Visible(a[1..], hidden) + Visible(b, hidden));
      assert Visible(a, hidden) == hd + Visible(a[1..], hidden);
    }
  }

  lemma {:induction false} VisibleAsWrittenAppend(a: seq<ChatMessage>, b: seq<ChatMessage>, hidden: set<string>)
    ensures VisibleAsWritten(a + b, hidden) == VisibleAsWritten(a, hidden) + VisibleAsWritten(b, hidden)
    decreases |a|
  {
    if |a| == 0 {
      assert a + b == b;
    } else {
      var hd := if Shown(a[0], hidden) then [a[0]] else [];
      assert (a + b)[0] == a[0];
      assert (a + b)[1..] == a[1..] + b;
      VisibleAsWrittenAppend(a[1..], b, hidden);
      assert VisibleAsWritten(a + b, hidden) == hd + (VisibleAsWritten(a[1..], hidden) + VisibleAsWritten(b, hidden));
      assert VisibleAsWritten(a, hidden) == hd + VisibleAsWritten(a[1..], hidden);
    }
  }

  /** Without summary messages on screen, both filters agree. */
  lemma {:induction false} VisibleWithoutSummaries(ms: seq<ChatMessage>, hidden: set<string>)
    requires forall i | 0 <= i < |ms| :: !ms[i].isSummary
    ensures Visible(ms, hidden) == VisibleAsWritten(ms, hidden)
    decreases |ms|
  {
    if |ms| > 0 {
      VisibleWithoutSummaries(ms[1..], hidden);
    }
  }

  function SummaryPrefix(p: Page): (s: seq<ChatMessage>)
    ensures |s| <= 1
  {
    if p.summary.Some? then [p.summary.value] else []
  }

  /** The history the code sends: summary, then every shown message (the summary again among them), then the new user turn. */
  function HistoryAsWritten(p: Page, userId: string): (h: seq<ChatMessage>)
    ensures |h| == |SummaryPrefix(p)| + |VisibleAsWritten(p.messages, p.compressed)| + 1
    ensures h[|h| - 1] == UserMessage(p, userId)
  {
    SummaryPrefix(p) + VisibleAsWritten(p.messages, p.compressed) + [UserMessage(p, userId)]
  }

  /** The history as meant: the summary once, then the shown non-summary messages in order, then the new user turn. */
  function History(p: Page, userId: string): (h: seq<ChatMessage>)
    ensures |h| == |SummaryPrefix(p)| + |Visible(p.messages, p.compressed)| + 1
    ensures h[|h| - 1] == UserMessage(p, userId)
    ensures p.summary.Some? ==> h[0] == p.summary.value
    ensures forall i | |SummaryPrefix(p)| <= i < |h| :: !h[i].isSummary
  {
    SummaryPrefix(p) + Visible(p.messages, p.compressed) + [UserMessage(p, userId)]
  }

  /** What goes over the wire: role and content of each history message. */
  function ToWire(h: seq<ChatMessage>): (ms: seq<Message>)
    ensures |ms| == |h|
    ensures forall i | 0 <= i < |h| :: ms[i] == Msg(h[i].role, h[i].content)
  {
    if |h| == 0 then [] else [Msg(h[0].role, h[0].content)] + ToWire(h[1..])
  }

  /**
   * The request body as written: the code's history on the wire, with
   * temperature 0.7 and no token limit. The summary, when there is one,
   * goes first and the new user turn last.
   */
  function Request(p: Page, userId: string): (r: Compression.HistoryRequest)
    ensures |r.messages| == |SummaryPrefix(p)| + |VisibleAsWritten(p.messages, p.compressed)| + 1
    ensures r.messages[|r.messages| - 1] == Msg("user", Trim(p.input, JsSpace))
    ensures p.summary.Some? ==> r.messages[0] == Msg(p.summary.value.role, p.summary.value.content)
    ensures r.temperature == Some(RequestTemperature) && r.maxTokens.None?
  {
    Compression.HistoryRequest(ToWire(HistoryAsWritten(p, userId)), Some(RequestTemperature), None)
  }

  /** The request body with the corrected history: the summary once, then the shown non-summary messages. */
  function RequestCorrected(p: Page, userId: string): (r: Compression.HistoryRequest)
    ensures |r.messages| == |SummaryPrefix(p)| + |Visible(p.messages, p.compressed)| + 1
    ensures r.messages[|r.messages| - 1] == Msg("user", Trim(p.input, JsSpace))
    ensures p.summary.Some? ==> r.messages[0] == Msg(p.summary.value.role, p.summary.value.content)
    ensures r.temperature == Some(RequestTemperature) && r.maxTokens.None?
  {
    Compression.HistoryRequest(ToWire(History(p, userId)), Some(RequestTemperature), None)
  }

  /**
   * Once a summary exists it is also on screen, so the code's history
   * carries it twice: first as the summary, then among the shown messages.
   */
  lemma {:induction false} SummarySentTwice(p: Page, userId: string)
    requires p.summary.Some?
    requires p.messages == [Welcome, p.summary.value]
    requires Shown(p.summary.value, p.compressed)
    ensures var h := HistoryAsWritten(p, userId);
            |h| == 3 && h[0] == p.summary.value && h[1] == p.summary.value
  {
    var s := p.summary.value;
    assert p.messages[1..] == [s];
    assert VisibleAsWritten([s], p.compressed) == [s];
  }

  /** With the summary filter, the summary is sent exactly once, in front. */
  lemma {:induction false} SummarySentOnce(p: Page, userId: string)
    requires p.summary.Some? && p.summary.value.isSummary
    ensures var h := History(p, userId);
            && h[0] == p.summary.value
            && (forall i | 0 <= i < |h| :: h[i].isSummary <==> i == 0)
  {
  }

  // ---------------------------------------------------------------------
  // Receiving

  /** The reply body fields the page reads. */
  datatype PageData = PageData(
    response: string,
    applied: Option<bool>,
    originalCount: Option<nat>,
    compressedCount: Option<nat>,
    summary: Option<string>,
    usage: Option<Usage>)

  datatype Reply =
    | Thrown(message: string)                              // `fetch` or `res.json()` threw
    | Refused(status: nat, body: StreamConsumer.ErrorBody) // `!res.ok`
    | Answered(data: PageData)

  /** JavaScript `slice(0, k)`: a negative end counts from the back. */
  function SliceTo<T>(s: seq<T>, k: int): (r: seq<T>)
    ensures r <= s
    ensures 0 <= k ==> |r| == if k < |s| then k else |s|
    ensures k < 0 ==> |r| == if |s| + k < 0 then 0 else |s| + k
  {
    var e := if k < 0 then (if |s| + k < 0 then 0 else |s| + k) else (if k < |s| then k else |s|);
    s[..e]
  }

  function IdsOf(ms: seq<ChatMessage>): (ids: set<string>)
    ensures forall i | 0 <= i < |ms| :: ms[i].id in ids
    ensures forall x | x in ids :: exists i | 0 <= i < |ms| :: ms[i].id == x
  {
    if |ms| == 0 then {} else {ms[0].id} + IdsOf(ms[1..])
  }

  /** The code's `messagesToCompressCount`: original minus compressed count. */
  function HideCountAsWritten(data: PageData): int {
    data.originalCount.GetOr(0) - data.compressedCount.GetOr(0)
  }

  /**
   * The number of shown messages the backend summarised: the backend
   * replaced `original − compressed + 1` messages by one, the summary the
   * page sent in front being one of them.
   */
  function HideCount(data: PageData, summarySent: bool): int {
    HideCountAsWritten(data) + (if summarySent then 0 else 1)
  }

  /** The ids the code hides, taken from the front of the shown messages after the submit. */
  function HiddenAsWritten(p: Page, prev: seq<ChatMessage>, data: PageData): set<string> {
    IdsOf(SliceTo(VisibleAsWritten(prev, p.compressed), HideCountAsWritten(data)))
  }

  function Hidden(p: Page, prev: seq<ChatMessage>, data: PageData): set<string> {
    IdsOf(SliceTo(Visible(prev, p.compressed), HideCount(data, p.summary.Some?)))
  }

  /** Index of the first welcome message, or |ms|. */
  function WelcomeIndex(ms: seq<ChatMessage>): (k: nat)
    ensures k <= |ms|
    ensures k < |ms| ==> ms[k].id == WelcomeId
    ensures forall i | 0 <= i < k :: ms[i].id != WelcomeId
  {
    if |ms| == 0 then 0 else if ms[0].id == WelcomeId then 0 else 1 + WelcomeIndex(ms[1..])
  }

  /** Non-summary messages. */
  function WithoutSummaries(ms: seq<ChatMessage>): (rs: seq<ChatMessage>)
    ensures |rs| <= |ms|
    ensures forall i | 0 <= i < |rs| :: !rs[i].isSummary && rs[i] in ms
    ensures forall i | 0 <= i < |ms| :: !ms[i].isSummary ==> ms[i] in rs
  {
    if |ms| == 0 then []
    else if ms[0].isSummary then WithoutSummaries(ms[1..])
    else [ms[0]] + WithoutSummaries(ms[1..])
  }

  /** Where the new summary goes in `base`: right after the first welcome message, or first. */
  function SummarySlot(base: seq<ChatMessage>): (at: nat)
    ensures at <= |base|
    ensures at > 0 ==> base[at - 1].id == WelcomeId && forall i | 0 <= i < at - 1 :: base[i].id != WelcomeId
    ensures at == 0 ==> forall i | 0 <= i < |base| :: base[i].id != WelcomeId
  {
    var k := WelcomeIndex(base);
    if k < |base| then k + 1 else 0
  }

  /** Drop every old summary and put `s` right after the welcome message, or first when there is none. */
  function PlaceSummary(ms: seq<ChatMessage>, s: ChatMessage): (rs: seq<ChatMessage>)
    requires s.isSummary
    ensures var base := WithoutSummaries(ms);
            var at := SummarySlot(base);
            && |rs| == |base| + 1
            && rs[at] == s && rs[..at] == base[..at] && rs[at + 1..] == base[at..]
    ensures forall i | 0 <= i < |rs| :: rs[i].isSummary <==> i == SummarySlot(WithoutSummaries(ms))
  {
    var base := WithoutSummaries(ms);
    var at := SummarySlot(base);
    var rs := base[..at] + [s] + base[at..];
    forall i | 0 <= i < |rs| ensures rs[i].isSummary <==> i == at {
      if i < at {
        assert rs[i] == base[i];
      } else if i > at {
        assert rs[i] == base[i - 1];
      }
    }
    assert rs[at + 1..] == base[at..];
    rs
  }

  /** Rewrite the placeholder (by id) with its final text, not typing. */
  function Settle(ms: seq<ChatMessage>, loadingId: string, text: string): (rs: seq<ChatMessage>)
    ensures |rs| == |ms|
    ensures forall i | 0 <= i < |ms| ::
              rs[i] == if ms[i].id == loadingId then ms[i].(content := text, isTyping := false) else ms[i]
  {
    if |ms| == 0 then []
    else [if ms[0].id == loadingId then ms[0].(content := text, isTyping := false) else ms[0]]
         + Settle(ms[1..], loadingId, text)
  }

  function AddUsage(a: Usage, b: Usage): (r: Usage)
    ensures r.promptTokens == a.promptTokens + b.promptTokens
    ensures r.completionTokens == a.completionTokens + b.completionTokens
    ensures r.totalTokens == a.totalTokens + b.totalTokens
  {
    Usage(a.promptTokens + b.promptTokens, a.completionTokens + b.completionTokens, a.totalTokens + b.totalTokens)
  }

  /** `compression_applied && summary`, as JavaScript reads it. */
  predicate Compressing(data: PageData) {
    data.applied == Some(true) && Truthy(data.summary)
  }

  /** Messages other than the welcome and typing placeholders (the code's message counter, before the submit). */
  function Counted(ms: seq<ChatMessage>): nat {
    if |ms| == 0 then 0
    else (if ms[0].id != WelcomeId && !ms[0].isTyping then 1 else 0) + Counted(ms[1..])
  }

  function FailureText(reply: Reply): string {
    match reply
    case Thrown(m) => m
    case Refused(status, body) => StreamConsumer.HttpErrorMessage(status, body)
    case Answered(_) => ""
  }

  /** A compressing reply's effect on the page after the submit, hiding the given ids (`prev` is the message list after the submit). */
  function CompactedHiding(p: Page, prev: seq<ChatMessage>, loadingId: string, summaryId: string, data: PageData,
                           hidden: set<string>): (r: Page)
    requires Compressing(data)
    ensures r.summary == Some(ChatMessage(summaryId, "system", data.summary.value, false, true))
    ensures forall i | 0 <= i < |r.messages| :: r.messages[i].isSummary <==> i == SummarySlot(WithoutSummaries(prev))
    ensures r.compressed == p.compressed + hidden
    ensures r.info == Some(Compression.Info(true, data.originalCount.GetOr(0), data.compressedCount.GetOr(0), data.summary))
  {
    var s := ChatMessage(summaryId, "system", data.summary.value, false, true);
    var ms := PlaceSummary(prev, s);
    var settled := Settle(ms, loadingId, data.response);
    p.(messages := settled, info := Some(Compression.Info(true, data.originalCount.GetOr(0), data.compressedCount.GetOr(0), data.summary)),
       compressed := p.compressed + hidden, summary := Some(s))
  }

  /** What a compressing reply does to the page as written: it hides `original − compressed` shown messages. */
  function Compacted(p: Page, prev: seq<ChatMessage>, loadingId: string, summaryId: string, data: PageData): (r: Page)
    requires Compressing(data)
    ensures r.summary == Some(ChatMessage(summaryId, "system", data.summary.value, false, true))
    ensures forall i | 0 <= i < |r.messages| :: r.messages[i].isSummary <==> i == SummarySlot(WithoutSummaries(prev))
    ensures r.compressed == p.compressed + HiddenAsWritten(p, prev, data)
    ensures r.info == Some(Compression.Info(true, data.originalCount.GetOr(0), data.compressedCount.GetOr(0), data.summary))
  {
    CompactedHiding(p, prev, loadingId, summaryId, data, HiddenAsWritten(p, prev, data))
  }

  /** The compressing reply with the corrected count: every summarised message is hidden. */
  function CompactedCorrected(p: Page, prev: seq<ChatMessage>, loadingId: string, summaryId: string, data: PageData): (r: Page)
    requires Compressing(data)
    ensures r.summary == Some(ChatMessage(summaryId, "system", data.summary.value, false, true))
    ensures r.compressed == p.compressed + Hidden(p, prev, data)
  {
    CompactedHiding(p, prev, loadingId, summaryId, data, Hidden(p, prev, data))
  }

  /**
   * A whole exchange: the submit, then what the reply does to the page
   * (the typewriter effect run to its end). `p` is the page the handler
   * closed over; `hides` says which ids a compressing reply hides, given
   * the messages after the submit.
   */
  function ExchangeHiding(p: Page, userId: string, loadingId: string, summaryId: string, reply: Reply,
                          hides: (seq<ChatMessage>, PageData) -> set<string>): (r: Page)
    ensures !Accepts(p) ==> r == p
    ensures Accepts(p) ==> !r.loading && r.input == ""
    ensures Accepts(p) ==> p.compressed <= r.compressed
    ensures Accepts(p) && !reply.Answered? ==>
              r == p.(messages := Settle(Submit(p, userId, loadingId).messages, loadingId, "Ошибка: " + FailureText(reply)),
                      input := "")
    ensures Accepts(p) && reply.Answered? && !Compressing(reply.data) ==>
              r.info.None? && r.compressed == p.compressed && r.summary == p.summary
              && r.messages == Settle(Submit(p, userId, loadingId).messages, loadingId, reply.data.response)
    ensures Accepts(p) && reply.Answered? && Compressing(reply.data) ==>
              && r.summary == Some(ChatMessage(summaryId, "system", reply.data.summary.value, false, true))
              && (forall i | 0 <= i < |r.messages| ::
                    r.messages[i].isSummary <==> i == SummarySlot(WithoutSummaries(Submit(p, userId, loadingId).messages)))
              && r.compressed == p.compressed + hides(Submit(p, userId, loadingId).messages, reply.data)
    ensures Accepts(p) && reply.Answered? ==>
              r.totals == (if reply.data.usage.Some? then AddUsage(p.totals, reply.data.usage.value) else p.totals)
              && r.count == Counted(p.messages) + 1
  {
    if !Accepts(p) then p
    else
      var prev := Submit(p, userId, loadingId).messages;
      match reply
      case Answered(data) =>
        var totals := if data.usage.Some? then AddUsage(p.totals, data.usage.value) else p.totals;
        var count := Counted(p.messages) + 1;
        if Compressing(data) then
          CompactedHiding(p, prev, loadingId, summaryId, data, hides(prev, data)).(input := "", loading := false, totals := totals, count := count)
        else
          Page(Settle(prev, loadingId, data.response), "", false, None, totals, count, p.compressed, p.summary)
      case _ =>
        p.(messages := Settle(prev, loadingId, "Ошибка: " + FailureText(reply)), input := "")
  }

  /** The exchange as written: a compressing reply hides `original − compressed` of the messages shown after the submit. */
  function Exchange(p: Page, userId: string, loadingId: string, summaryId: string, reply: Reply): (r: Page)
    ensures !Accepts(p) ==> r == p
    ensures Accepts(p) ==> !r.loading && r.input == ""
    ensures Accepts(p) ==> p.compressed <= r.compressed
    ensures Accepts(p) && !reply.Answered? ==>
              r == p.(messages := Settle(Submit(p, userId, loadingId).messages, loadingId, "Ошибка: " + FailureText(reply)),
                      input := "")
    ensures Accepts(p) && reply.Answered? && !Compressing(reply.data) ==>
              r.info.None? && r.compressed == p.compressed && r.summary == p.summary
              && r.messages == Settle(Submit(p, userId, loadingId).messages, loadingId, reply.data.response)
    ensures Accepts(p) && reply.Answered? && Compressing(reply.data) ==>
              && r.summary == Some(ChatMessage(summaryId, "system", reply.data.summary.value, false, true))
              && (forall i | 0 <= i < |r.messages| ::
                    r.messages[i].isSummary <==> i == SummarySlot(WithoutSummaries(Submit(p, userId, loadingId).messages)))
              && r.compressed == p.compressed + HiddenAsWritten(p, Submit(p, userId, loadingId).messages, reply.data)
    ensures Accepts(p) && reply.Answered? ==>
              r.totals == (if reply.data.usage.Some? then AddUsage(p.totals, reply.data.usage.value) else p.totals)
              && r.count == Counted(p.messages) + 1
  {
    ExchangeHiding(p, userId, loadingId, summaryId, reply, (prev, data) => HiddenAsWritten(p, prev, data))
  }

  /** The exchange with the corrected count: a compressing reply hides every message it summarised. */
  function ExchangeCorrected(p: Page, userId: string, loadingId: string, summaryId: string, reply: Reply): (r: Page)
    ensures !Accepts(p) ==> r == p
    ensures Accepts(p) && reply.Answered? && Compressing(reply.data) ==>
              r.compressed == p.compressed + Hidden(p, Submit(p, userId, loadingId).messages, reply.data)
  {
    ExchangeHiding(p, userId, loadingId, summaryId, reply, (prev, data) => Hidden(p, prev, data))
  }

  /** The written and corrected exchanges leave the same page apart from the hidden ids, and the same page outright without compression. */
  lemma {:induction false} ExchangesAgree(p: Page, userId: string, loadingId: string, summaryId: string, reply: Reply)
    ensures ExchangeCorrected(p, userId, loadingId, summaryId, reply)
         == Exchange(p, userId, loadingId, summaryId, reply).(compressed := ExchangeCorrected(p, userId, loadingId, summaryId, reply).compressed)
    ensures !(reply.Answered? && Compressing(reply.data)) ==>
              ExchangeCorrected(p, userId, loadingId, summaryId, reply) == Exchange(p, userId, loadingId, summaryId, reply)
  {
  }

  /** `handleClear`: only the welcome message, no totals, no hidden ids, no summary. */
  function Clear(p: Page): (r: Page)
    ensures r.messages == [Welcome] && r.totals == NoUsage && r.count == 0
    ensures r.compressed == {} && r.summary.None? && r.info.None?
    ensures r.input == p.input && r.loading == p.loading
  {
    p.(messages := [Welcome], info := None, totals := NoUsage, count := 0, compressed := {}, summary := None)
  }

  /** After a clear, the next request carries only the new user turn. */
  lemma {:induction false} ClearForgetsHistory(p: Page, userId: string)
    ensures HistoryAsWritten(Clear(p), userId) == [UserMessage(Clear(p), userId)]
    ensures History(Clear(p), userId) == [UserMessage(Clear(p), userId)]
  {
    assert VisibleAsWritten([Welcome], {}) == [];
    assert Visible([Welcome], {}) == [];
  }

  // ---------------------------------------------------------------------
  // Which messages get hidden

  /** The ids in a history are pairwise distinct. */
  predicate DistinctIds(h: seq<ChatMessage>) {
    forall i, j | 0 <= i < j < |h| :: h[i].id != h[j].id
  }

  /** The counts the compression endpoint reports for a history of n messages that it compressed. */
  predicate BackendCounts(data: PageData, n: nat) {
    && n >= Compression.Threshold
    && data.originalCount == Some(n)
    && data.compressedCount == Some(1 + n % Compression.Threshold)
  }

  /** The user message of a fresh id is shown and not a summary. */
  lemma {:induction false} ShownAfterSubmit(p: Page, userId: string, loadingId: string)
    requires Accepts(p) && userId != WelcomeId && userId !in p.compressed
    ensures Visible(Submit(p, userId, loadingId).messages, p.compressed)
         == Visible(p.messages, p.compressed) + [UserMessage(p, userId)]
    ensures VisibleAsWritten(Submit(p, userId, loadingId).messages, p.compressed)
         == VisibleAsWritten(p.messages, p.compressed) + [UserMessage(p, userId)]
  {
    var tail := [UserMessage(p, userId), Placeholder(loadingId)];
    VisibleAppend(p.messages, tail, p.compressed);
    VisibleAsWrittenAppend(p.messages, tail, p.compressed);
    assert tail[1..][1..] == [];
  }

  /**
   * On the first compression the code hides one message fewer than the
   * backend summarised: the last summarised message of the history stays
   * on screen and is sent again with the next request.
   */
  lemma {:induction false} FirstCompressionLeavesOneVisible(p: Page, userId: string, loadingId: string, data: PageData)
    requires Accepts(p) && p.summary.None?
    requires userId != WelcomeId && userId !in p.compressed
    requires forall i | 0 <= i < |p.messages| :: !p.messages[i].isSummary
    requires var h := HistoryAsWritten(p, userId); DistinctIds(h) && BackendCounts(data, |h|)
    ensures var h := HistoryAsWritten(p, userId);
            var last := h[Compression.CompressionPoint(|h|) - 1];
            last.id !in HiddenAsWritten(p, Submit(p, userId, loadingId).messages, data)
  {
    var h := HistoryAsWritten(p, userId);
    var pt := Compression.CompressionPoint(|h|);
    var vis := VisibleAsWritten(Submit(p, userId, loadingId).messages, p.compressed);
    ShownIsHistoryAsWritten(p, userId, loadingId);
    assert HideCountAsWritten(data) == pt - 1;
    assert SliceTo(vis, pt - 1) == h[..pt - 1];
    IdNotInPrefix(h, pt - 1);
  }

  /**
   * The whole first compressing exchange as written: the last message the
   * backend folded into the summary is still not hidden afterwards.
   */
  lemma {:induction false} FirstExchangeKeepsLastShown(p: Page, userId: string, loadingId: string, summaryId: string, data: PageData)
    requires Accepts(p) && p.summary.None? && Compressing(data)
    requires userId != WelcomeId && userId !in p.compressed
    requires forall i | 0 <= i < |p.messages| :: !p.messages[i].isSummary
    requires var h := HistoryAsWritten(p, userId); DistinctIds(h) && BackendCounts(data, |h|)
    ensures var h := HistoryAsWritten(p, userId);
            h[Compression.CompressionPoint(|h|) - 1].id !in Exchange(p, userId, loadingId, summaryId, Answered(data)).compressed
  {
    var h := HistoryAsWritten(p, userId);
    var last := h[Compression.CompressionPoint(|h|) - 1];
    FirstCompressionLeavesOneVisible(p, userId, loadingId, data);
    ShownIsHistoryAsWritten(p, userId, loadingId);
    var vis := VisibleAsWritten(Submit(p, userId, loadingId).messages, p.compressed);
    assert last in vis;
  }

  /** Without a summary, the messages the code shows after the submit are the history it sent. */
  lemma {:induction false} ShownIsHistoryAsWritten(p: Page, userId: string, loadingId: string)
    requires Accepts(p) && p.summary.None?
    requires userId != WelcomeId && userId !in p.compressed
    ensures VisibleAsWritten(Submit(p, userId, loadingId).messages, p.compressed) == HistoryAsWritten(p, userId)
  {
    ShownAfterSubmit(p, userId, loadingId);
    assert SummaryPrefix(p) == [];
    AppendAssoc([], VisibleAsWritten(p.messages, p.compressed), [UserMessage(p, userId)]);
  }

  /** With distinct ids, a message's id is not among those of the messages before it. */
  lemma {:induction false} IdNotInPrefix(h: seq<ChatMessage>, k: nat)
    requires DistinctIds(h) && k < |h|
    ensures h[k].id !in IdsOf(h[..k])
  {
    var pre := h[..k];
    forall i | 0 <= i < |pre| ensures pre[i].id != h[k].id {
      assert pre[i] == h[i];
    }
  }

  /**
   * With the corrected count (and the summary sent once), the ids hidden
   * are exactly those of the messages the backend summarised, apart from
   * the summary itself.
   */
  lemma {:induction false} HiddenAreSummarised(p: Page, userId: string, loadingId: string, data: PageData)
    requires Accepts(p)
    requires userId != WelcomeId && userId !in p.compressed
    requires var h := History(p, userId); BackendCounts(data, |h|)
    ensures var h := History(p, userId);
            Hidden(p, Submit(p, userId, loadingId).messages, data)
              == IdsOf(h[|SummaryPrefix(p)|..Compression.CompressionPoint(|h|)])
  {
    var h := History(p, userId);
    var k := |SummaryPrefix(p)|;
    var pt := Compression.CompressionPoint(|h|);
    var vis := Visible(Submit(p, userId, loadingId).messages, p.compressed);
    HistoryTail(p, userId, loadingId);
    assert vis == h[k..];
    HideCountValue(data, |h|, p.summary.Some?);
    assert HideCount(data, p.summary.Some?) == pt - k;
    SliceOfSuffix(h, k, pt);
    var cut := SliceTo(vis, HideCount(data, p.summary.Some?));
    assert cut == h[k..pt];
    assert Hidden(p, Submit(p, userId, loadingId).messages, data) == IdsOf(cut);
  }

  /** After the submit, the shown non-summary messages are the history minus its summary prefix. */
  lemma {:induction false} HistoryTail(p: Page, userId: string, loadingId: string)
    requires Accepts(p)
    requires userId != WelcomeId && userId !in p.compressed
    ensures Visible(Submit(p, userId, loadingId).messages, p.compressed) == History(p, userId)[|SummaryPrefix(p)|..]
  {
    ShownAfterSubmit(p, userId, loadingId);
    var h := History(p, userId);
    var pre, v := SummaryPrefix(p), Visible(p.messages, p.compressed) + [UserMessage(p, userId)];
    AppendAssoc(pre, Visible(p.messages, p.compressed), [UserMessage(p, userId)]);
    assert h[|pre|..] == v;
  }

  /** The corrected count, for the counts the backend reports: the compression point less the summary sent in front. */
  lemma {:induction false} HideCountValue(data: PageData, n: nat, summarySent: bool)
    requires BackendCounts(data, n)
    ensures HideCount(data, summarySent) == Compression.CompressionPoint(n) - (if summarySent then 1 else 0)
    ensures HideCountAsWritten(data) == Compression.CompressionPoint(n) - 1
  {
  }

  lemma {:induction false} SliceOfSuffix<T>(h: seq<T>, k: nat, pt: nat)
    requires k <= pt <= |h|
    ensures SliceTo(h[k..], pt - k) == h[k..pt]
  {
  }

  /** The page's request reaches the compression endpoint whole: the reported counts come out as the backend promises. */
  lemma {:induction false} RequestCounts(p: Page, userId: string, api: Compression.Api)
    requires Compression.ChatWithHistory(Request(p, userId), api).Ok?
    requires |HistoryAsWritten(p, userId)| >= Compression.Threshold
    ensures var info := Compression.ChatWithHistory(Request(p, userId), api).value.info;
            info.compressed && info.originalCount - info.compressedCount == Compression.CompressionPoint(|HistoryAsWritten(p, userId)|) - 1
  {
  }
}

/**
 * The token comparison page: from one base prompt it builds three prompts
 * of about 200, 8000 and 34000 estimated tokens, sends them one after the
 * other, and shows each answer with the usage the backend reports. All of
 * its state writes are guarded by the batch's request id.
 */
module TokenBudget {
  import opened Wrappers
  import opened Strings
  import opened Wire
  import opened Entries
  import opened RequestGuard
  import BackendMessages
  import StreamConsumer

  // ---------------------------------------------------------------------
  // The estimate

  /** The number of whitespace-separated words (`trim().split(/\s+/).filter(Boolean)`). */
  function WordCount(t: string): nat {
    |Words(t, JsSpace)|
  }

  function Max(a: int, b: int): int {
    if a >= b then a else b
  }

  /**
   * `estimateTokens`: the larger of ⌈characters / 4⌉ and ⌈1.3 · words⌉,
   * and at least 1. That is, the least positive count that allows four
   * characters and 1.3 words per token.
   */
  function Estimate(t: string): (n: nat)
    ensures n >= 1 && 4 * n >= |t| && 10 * n >= 13 * WordCount(t)
    ensures n == 1 || 4 * (n - 1) < |t| || 10 * (n - 1) < 13 * WordCount(t)
  {
    Max(Max((|t| + 3) / 4, (13 * WordCount(t) + 9) / 10), 1)
  }

  /** One visible character is estimated as two tokens (⌈1.3⌉), and nothing of length one as more. */
  lemma {:induction false} OneCharacter(t: string)
    requires |t| == 1
    ensures Estimate(t) <= 2
    ensures !JsSpace(t[0]) ==> Estimate(t) == 2
  {
    assert WordCount(t) <= 1;
    if !JsSpace(t[0]) {
      assert Words(t, JsSpace) == [t[..RunLen(t, JsSpace)]] + Words(t[RunLen(t, JsSpace)..], JsSpace);
    }
  }

  // ---------------------------------------------------------------------
  // Building a prompt of a given size

  /** The prompt and its estimate, as `buildPromptToTargetTokens` returns them. */
  datatype Built = Built(prompt: string, estimatedTokens: nat)

  const Separator := "\n\n---\n\n"

  /** Above this length the growing loop stops appending. */
  const GrowLimit: nat := 2_000_000

  /** The seed followed by `k` more copies, each after the separator. */
  function Expanded(seed: string, k: nat): (r: string)
    ensures seed <= r
  {
    if k == 0 then seed else Expanded(seed, k - 1) + Separator + seed
  }

  /**
   * The shrink branch's first cut: the target's share of the seed's length
   * (at least 40 characters), but never more than the whole seed.
   */
  function FirstCut(seed: string, target: int): (n: nat)
    requires seed != ""
    ensures n <= |seed| && (n == |seed| || 40 <= n)
  {
    var approx := Max(40, |seed| * target / Estimate(seed));
    if approx < |seed| then approx else |seed|
  }

  /**
   * The shrink branch: cut the seed to its first cut, then drop 10
   * characters at a time, at most 200 times, while the estimate is over the
   * target. The result is a non-empty prefix of the seed; the loop stops on
   * a fitting prompt, on one character, or when its 200 cuts are used up.
   */
  method Shrink(seed: string, target: int) returns (r: string)
    requires seed != "" && Estimate(seed) >= target
    ensures r != "" && r <= seed && |r| <= FirstCut(seed, target)
    ensures Estimate(r) <= target || |r| == 1 || |r| + 2000 == FirstCut(seed, target)
  {
    r := CutDown(seed, FirstCut(seed, target), target);
  }

  /** The shrink loop from a first cut of `first` characters. */
  method CutDown(seed: string, first: nat, target: int) returns (r: string)
    requires 1 <= first <= |seed|
    ensures r != "" && r <= seed && |r| <= first
    ensures Estimate(r) <= target || |r| == 1 || |r| + 2000 == first
  {
    var candidate := seed[..first];
    var i := 0;
    while i < 200 && Estimate(candidate) > target
      invariant 0 <= i <= 200
      invariant |candidate| == Max(1, first - 10 * i)
      invariant candidate == seed[..|candidate|]
    {
      candidate := candidate[..Max(1, |candidate| - 10)];
      i := i + 1;
    }
    r := candidate;
  }

  /** `k` copies are still under the target. */
  predicate UnderTarget(seed: string, k: nat, target: int) {
    Estimate(Expanded(seed, k)) < target
  }

  /**
   * The growing loop: append the separator and the seed while the estimate
   * is under the target, giving up once the text is over two million
   * characters. It stops at the first number of copies that reaches the
   * target, unless the length limit stopped it first.
   */
  method Grow(seed: string, target: int) returns (out: string, ghost k: nat)
    ensures out == Expanded(seed, k)
    ensures Estimate(out) >= target || |out| > GrowLimit
    ensures forall j: nat | j < k :: UnderTarget(seed, j, target)
  {
    var bound: nat := if |seed| > GrowLimit then |seed| else GrowLimit;
    out := seed;
    k := 0;
    while Estimate(out) < target
      invariant out == Expanded(seed, k)
      invariant |out| <= bound
      invariant forall j: nat | j < k :: UnderTarget(seed, j, target)
      decreases bound - |out|
    {
      assert UnderTarget(seed, k, target);
      out := out + Separator + seed;
      k := k + 1;
      assert out == Expanded(seed, k);
      if |out| > GrowLimit {
        break;
      }
    }
  }

  /**
   * The cap: cut 1000 characters at a time (keeping at least one) while the
   * estimate is over `maxTokens`. It leaves a fitting text alone and returns
   * a non-empty prefix that fits. The finer 50-character loop after it in
   * the page never runs, because this one already ends within the cap.
   */
  method Cap(out: string, maxTokens: int) returns (r: string)
    requires out != "" && !JsSpace(out[0])
    requires maxTokens >= 2
    ensures r != "" && r <= out && Estimate(r) <= maxTokens
    ensures Estimate(out) <= maxTokens ==> r == out
  {
    r := out;
    while Estimate(r) > maxTokens
      invariant r != "" && r <= out
      invariant Estimate(out) <= maxTokens ==> r == out
      decreases |r|
    {
      if |r| == 1 {
        OneCharacter(r);
      }
      r := r[..Max(1, |r| - 1000)];
    }
  }

  /** What `buildPromptToTargetTokens(input, target, maxTokens)` promises. */
  ghost predicate BuiltFor(input: string, target: int, maxTokens: int, b: Built) {
    var seed := Trim(input, JsSpace);
    && (seed == "" ==> b == Built("", 0))
    && (seed != "" ==> b.prompt != "" && b.estimatedTokens == Estimate(b.prompt))
    && (seed != "" && Estimate(seed) >= target ==>
          && b.prompt <= seed && |b.prompt| <= FirstCut(seed, target)
          && (Estimate(b.prompt) <= target || |b.prompt| == 1 || |b.prompt| + 2000 == FirstCut(seed, target)))
    && (seed != "" && Estimate(seed) < target ==>
          Estimate(b.prompt) <= maxTokens && GrownAndCapped(seed, target, maxTokens, b.prompt))
  }

  /**
   * The grow branch's outcome: a prefix of the first repetition that reaches
   * the target (or passes the length limit), and that repetition itself
   * when it already fits the cap.
   */
  ghost predicate GrownAndCapped(seed: string, target: int, maxTokens: int, prompt: string) {
    exists k: nat ::
      && prompt <= Expanded(seed, k)
      && (forall j: nat | j < k :: UnderTarget(seed, j, target))
      && (Estimate(Expanded(seed, k)) >= target || |Expanded(seed, k)| > GrowLimit)
      && (Estimate(Expanded(seed, k)) <= maxTokens ==> prompt == Expanded(seed, k))
  }

  /**
   * `buildPromptToTargetTokens`: a blank input gives the empty prompt with
   * estimate 0; a seed at or over the target is shrunk to a prefix of
   * itself; a smaller one is grown by repetition and then capped. The cap
   * loop only ends when `maxTokens` is at least 2 (see `CapNeedsTwo`).
   */
  method BuildPrompt(input: string, target: int, maxTokens: int) returns (b: Built)
    requires Trim(input, JsSpace) == "" || Estimate(Trim(input, JsSpace)) >= target || maxTokens >= 2
    ensures BuiltFor(input, target, maxTokens, b)
  {
    var seed := Trim(input, JsSpace);
    if seed == "" {
      return Built("", 0);
    }
    if Estimate(seed) >= target {
      var candidate := Shrink(seed, target);
      return Built(candidate, Estimate(candidate));
    }
    var out, k := Grow(seed, target);
    var capped := Cap(out, maxTokens);
    assert capped <= Expanded(seed, k);

    return Built(capped, Estimate(capped));
  }

  /**
   * With a cap below 2 the cap loop cannot finish: every prompt it can reach
   * starts with the seed's first, visible character, and that character
   * alone is already estimated at 2.
   */
  lemma {:induction false} CapNeedsTwo(seed: string, k: nat)
    requires seed != "" && !JsSpace(seed[0])
    ensures forall n | 1 <= n <= |Expanded(seed, k)| :: Estimate(Expanded(seed, k)[..n]) >= 2
  {
    forall n | 1 <= n <= |Expanded(seed, k)|
      ensures Estimate(Expanded(seed, k)[..n]) >= 2
    {
      var p := Expanded(seed, k)[..n];
      assert p[0] == seed[0];
      WordsOfVisibleStart(p);
    }
  }

  /** A text that starts with a visible character has at least one word. */
  lemma {:induction false} WordsOfVisibleStart(t: string)
    requires t != "" && !JsSpace(t[0])
    ensures WordCount(t) >= 1
  {
    assert Words(t, JsSpace) == [t[..RunLen(t, JsSpace)]] + Words(t[RunLen(t, JsSpace)..], JsSpace);
  }

  /** The three prompts of the page, built for 200, 8000 and 34000 tokens, each capped at its own target. */
  datatype Variants = Variants(short: Built, long: Built, limit: Built)

  const ShortTarget := 200
  const LongTarget := 8000
  const LimitTarget := 34000

  method BuildVariants(basePrompt: string) returns (v: Variants)
    ensures BuiltFor(basePrompt, ShortTarget, ShortTarget, v.short)
    ensures BuiltFor(basePrompt, LongTarget, LongTarget, v.long)
    ensures BuiltFor(basePrompt, LimitTarget, LimitTarget, v.limit)
  {
    var short := BuildPrompt(basePrompt, ShortTarget, ShortTarget);
    var long := BuildPrompt(basePrompt, LongTarget, LongTarget);
    var limit := BuildPrompt(basePrompt, LimitTarget, LimitTarget);
    v := Variants(short, long, limit);
  }

  // ---------------------------------------------------------------------
  // The calls

  /** The body of each call: the prompt and a 1000-token answer limit. */
  function CallBody(prompt: string): (req: ChatRequest)
    ensures req.prompt == Some(prompt) && req.maxTokens == Some(1000)
    ensures req.systemPrompt.None? && req.messages.None? && req.temperature.None?
  {
    ChatRequest(Some(prompt), None, None, None, Some(1000))
  }

  /** The backend turns a non-empty prompt into the single user turn. */
  lemma {:induction false} CallSendsPrompt(prompt: string)
    requires prompt != ""
    ensures BackendMessages.AssembleMessages(CallBody(prompt)) == Ok([Msg("user", prompt)])
  {
  }

  /** How one call ends: a decoded body, an error status with its body, or an exception. */
  datatype Reply =
    | Answered(response: Option<string>, usage: Option<Usage>)
    | Refused(status: nat, body: StreamConsumer.ErrorBody)
    | Thrown(message: string)

  /**
   * The write the call's outcome makes: the answer (an absent or empty
   * response shown as empty) with its usage, or the error's message.
   */
  function Outcome(r: Reply): (w: Write)
    ensures r.Answered? <==> w.Answer?
    ensures r.Answered? ==> w.usage == r.usage && (Truthy(r.response) ==> w.response == r.response.value)
    ensures r.Answered? && !Truthy(r.response) ==> w.response == ""
    ensures r.Refused? ==> w == Fail(StreamConsumer.HttpErrorMessage(r.status, r.body))
    ensures r.Thrown? ==> w == Fail(r.message)
  {
    match r
    case Answered(resp, u) => Answer(if Truthy(resp) then resp.value else "", u)
    case Refused(status, body) => Fail(StreamConsumer.HttpErrorMessage(status, body))
    case Thrown(m) => Fail(m)
  }

  /** The three cards, in the order they are sent, each loading and showing its prompt. */
  function Cards(v: Variants): (cs: seq<Entry>)
    ensures |cs| == 3 && Ids(cs) == ["short", "long", "limit"]
    ensures cs[0].prompt == v.short.prompt && cs[1].prompt == v.long.prompt && cs[2].prompt == v.limit.prompt
    ensures forall i | 0 <= i < 3 :: cs[i].isLoading && cs[i].response == "" && cs[i].error.None? && cs[i].usage.None?
  {
    [Loading("short", "short", v.short.prompt), Loading("long", "long", v.long.prompt),
     Loading("limit", "limit", v.limit.prompt)]
  }

  /** The calls run one after another: each first marks its card loading, then writes its outcome. */
  function Schedule(replies: seq<Reply>): (sched: seq<(string, Write)>)
    requires |replies| == 3
  {
    Call("short", Outcome(replies[0])) + Call("long", Outcome(replies[1])) + Call("limit", Outcome(replies[2]))
  }

  /** One call's two writes to its card. */
  function Call(id: string, outcome: Write): seq<(string, Write)> {
    [(id, Restart), (id, outcome)]
  }

  lemma {:induction false} WritesForAppend(a: seq<(string, Write)>, b: seq<(string, Write)>, id: string)
    ensures WritesFor(a + b, id) == WritesFor(a, id) + WritesFor(b, id)
    decreases |a|
  {
    if |a| > 0 {
      assert (a + b)[1..] == a[1..] + b;
      WritesForAppend(a[1..], b, id);
      var h: seq<Write> := if a[0].0 == id then [a[0].1] else [];
      AppendAssoc(h, WritesFor(a[1..], id), WritesFor(b, id));
    } else {
      assert a + b == b;
    }
  }

  /** The writes a call makes to its own card and to any other. */
  lemma {:induction false} CallWrites(id: string, outcome: Write, other: string)
    ensures WritesFor(Call(id, outcome), other) == if other == id then [Restart, outcome] else []
  {
    var c := Call(id, outcome);
    assert c[1..][1..] == [];
  }

  /** A card after its call: no longer loading, and holding the answer or the error. */
  predicate Settled(c: Entry, card: Entry, reply: Reply) {
    && c.id == card.id && c.prompt == card.prompt && !c.isLoading
    && (reply.Answered? ==> c.response == Outcome(reply).response && c.usage == reply.usage && c.error.None?)
    && (!reply.Answered? ==> c.response == "" && c.usage.None? && c.error == Some(Outcome(reply).message))
  }

  /**
   * `handleTest` run to the end without a newer submit: the page is idle
   * again, its id still current, and each card settled by its own reply.
   */
  lemma {:induction false} UninterruptedTest(s: State, token: nat, prompt: string, v: Variants, replies: seq<Reply>)
    requires !AllSpace(prompt, JsSpace) && !s.processing && |replies| == 3
    ensures var r := Run(s, BatchEvents(token, prompt, Cards(v), Schedule(replies)));
            && r.current == Some(token) && !r.processing && |r.results| == 3
            && forall i | 0 <= i < 3 :: Settled(r.results[i], Cards(v)[i], replies[i])
  {
    var cards := Cards(v);
    var sched := Schedule(replies);
    UninterruptedBatch(s, token, prompt, cards, sched);
    ScheduleProjection(cards, sched);
    var r := ApplySchedule(cards, sched);
    forall i | 0 <= i < 3
      ensures Settled(r[i], cards[i], replies[i])
    {
      assert cards[i].id == Ids(cards)[i];
      ScheduleWritesFor(replies, i);
      CallSettles(cards[i], replies[i]);
    }
  }

  /** The writes the schedule makes to the `k`-th card are that card's call's two writes. */
  lemma {:induction false} ScheduleWritesFor(replies: seq<Reply>, k: nat)
    requires |replies| == 3 && k < 3
    ensures WritesFor(Schedule(replies), ["short", "long", "limit"][k]) == [Restart, Outcome(replies[k])]
  {
    assert "short" != "long" && "short" != "limit" && "long" != "limit" by {
      assert "short"[0] != "limit"[0] && |"long"| != |"short"| && |"long"| != |"limit"|;
    }
    ThreeCalls("short", "long", "limit", Outcome(replies[0]), Outcome(replies[1]), Outcome(replies[2]), k);
  }

  /** Three calls to distinct cards: each card receives exactly its own call's writes. */
  lemma {:induction false} ThreeCalls(i0: string, i1: string, i2: string, w0: Write, w1: Write, w2: Write, k: nat)
    requires k < 3 && i0 != i1 && i0 != i2 && i1 != i2
    ensures WritesFor(Call(i0, w0) + Call(i1, w1) + Call(i2, w2), [i0, i1, i2][k]) == [Restart, [w0, w1, w2][k]]
  {
    var id := [i0, i1, i2][k];
    var a, b, c := Call(i0, w0), Call(i1, w1), Call(i2, w2);
    ThreeAppend(a, b, c, id);
    if k == 0 {
      assert id == i0;
      CallWrites(i0, w0, i0);
      CallWrites(i1, w1, i0);
      CallWrites(i2, w2, i0);
    } else if k == 1 {
      assert id == i1;
      CallWrites(i0, w0, i1);
      CallWrites(i1, w1, i1);
      CallWrites(i2, w2, i1);
    } else {
      assert id == i2;
      CallWrites(i0, w0, i2);
      CallWrites(i1, w1, i2);
      CallWrites(i2, w2, i2);
    }
  }

  lemma {:induction false} ThreeAppend(a: seq<(string, Write)>, b: seq<(string, Write)>, c: seq<(string, Write)>, id: string)
    ensures WritesFor(a + b + c, id) == WritesFor(a, id) + WritesFor(b, id) + WritesFor(c, id)
  {
    WritesForAppend(a + b, c, id);
    WritesForAppend(a, b, id);
  }

  lemma {:induction false} CallSettles(card: Entry, reply: Reply)
    requires card.response == "" && card.usage.None?
    ensures Settled(ApplyAll(card, [Restart, Outcome(reply)]), card, reply)
  {
    var e1 := ApplyWrite(card, Restart);
    assert ApplyAll(card, [Restart, Outcome(reply)]) == ApplyAll(e1, [Outcome(reply)]);
    assert ApplyAll(e1, [Outcome(reply)]) == ApplyWrite(e1, Outcome(reply));
  }

  /**
   * A test that is ignored (blank prompt, or one still running) leaves the
   * page as it was, whatever the rest of its events would have done.
   */
  lemma {:induction false} IgnoredTestInert(s: State, token: nat, prompt: string, v: Variants, replies: seq<Reply>)
    requires AllSpace(prompt, JsSpace) || s.processing
    requires s.current != Some(token) && |replies| == 3
    ensures Run(s, BatchEvents(token, prompt, Cards(v), Schedule(replies))) == s
  {
    var es := BatchEvents(token, prompt, Cards(v), Schedule(replies));
    assert Step(s, es[0]) == s;
    SupersededBatchInert(s, es[1..], token);
  }
}

/**
 * The stale-batch guard of the model and token comparison pages. Each submit
 * installs a fresh request id in `currentRequestIdRef`; every later state
 * write of that batch is immediately preceded (no `await` in between) by a
 * check that the id is still current, so it can be modelled as one atomic
 * event that is applied only when its id is current.
 */
module RequestGuard {
  import opened Wrappers
  import opened Strings
  import opened Entries

  /** `currentRequestIdRef.current` (None before the first submit), the result list and `isProcessing`. */
  datatype State = State(current: Option<nat>, results: seq<Entry>, processing: bool)

  const Initial := State(None, [], false)

  datatype Event =
    | Submit(token: nat, prompt: string)         // handleSubmit / handleTest up to its first await
    | Init(token: nat, entries: seq<Entry>)      // the guarded `setResults(initialResults)`
    | Write(token: nat, id: string, w: Write)    // a guarded per-card write of a call of that batch
    | Finish(token: nat)                         // the guarded `setIsProcessing(false)`

  /** Whether the event is guarded by the id it carries (every event but a submit). */
  predicate Guarded(e: Event) {
    !e.Submit?
  }

  function Step(s: State, e: Event): (r: State)
    ensures Guarded(e) && s.current != Some(e.token) ==> r == s
    ensures Guarded(e) ==> r.current == s.current
  {
    match e
    case Submit(t, p) =>
      if AllSpace(p, JsSpace) || s.processing then s else State(Some(t), [], true)
    case Init(t, es) =>
      if s.current == Some(t) then s.(results := es) else s
    case Write(t, id, w) =>
      if s.current == Some(t) then s.(results := UpdateById(s.results, id, w)) else s
    case Finish(t) =>
      if s.current == Some(t) then s.(processing := false) else s
  }

  function Run(s: State, es: seq<Event>): State
    decreases |es|
  {
    if |es| == 0 then s else Run(Step(s, es[0]), es[1..])
  }

  /** The events whose id is `token`, plus every submit, in order. */
  function Relevant(es: seq<Event>, token: Option<nat>): (r: seq<Event>)
    ensures |r| <= |es|
    ensures forall i | 0 <= i < |r| :: !Guarded(r[i]) || Some(r[i].token) == token
  {
    if |es| == 0 then []
    else if Guarded(es[0]) && Some(es[0].token) != token then Relevant(es[1..], token)
    else [es[0]] + Relevant(es[1..], token)
  }

  /**
   * Between two submits, writes that carry a stale id change nothing: running
   * the events is the same as running only those of the current batch.
   */
  lemma {:induction false} StaleEventsIgnored(s: State, es: seq<Event>)
    requires forall i | 0 <= i < |es| :: Guarded(es[i])
    ensures Run(s, es) == Run(s, Relevant(es, s.current))
    decreases |es|
  {
    if |es| > 0 {
      var s' := Step(s, es[0]);
      assert s'.current == s.current;
      StaleEventsIgnored(s', es[1..]);
    }
  }

  /** Once a newer submit has replaced a batch's id, nothing that batch still does has any effect. */
  lemma {:induction false} SupersededBatchInert(s: State, es: seq<Event>, token: nat)
    requires s.current != Some(token)
    requires forall i | 0 <= i < |es| :: Guarded(es[i]) && es[i].token == token
    ensures Run(s, es) == s
    decreases |es|
  {
    if |es| > 0 {
      SupersededBatchInert(Step(s, es[0]), es[1..], token);
    }
  }

  /** Applying a batch's writes directly, without any guard. */
  function Unguarded(results: seq<Entry>, es: seq<Event>): seq<Entry>
    decreases |es|
  {
    if |es| == 0 then results
    else
      var r := match es[0]
        case Write(_, id, w) => UpdateById(results, id, w)
        case Init(_, entries) => entries
        case _ => results;
      Unguarded(r, es[1..])
  }

  /** While a batch is current, its guarded writes act exactly as unguarded ones would. */
  lemma {:induction false} CurrentBatchUnaffected(s: State, es: seq<Event>, token: nat)
    requires s.current == Some(token)
    requires forall i | 0 <= i < |es| :: Guarded(es[i]) && es[i].token == token
    ensures Run(s, es).results == Unguarded(s.results, es)
    ensures Run(s, es).current == Some(token)
    decreases |es|
  {
    if |es| > 0 {
      CurrentBatchUnaffected(Step(s, es[0]), es[1..], token);
    }
  }

  /** A submit is ignored on a blank prompt or while a batch is processing; otherwise it installs its id and clears the results. */
  lemma {:induction false} SubmitContract(s: State, token: nat, prompt: string)
    ensures var r := Step(s, Submit(token, prompt));
            && (AllSpace(prompt, JsSpace) || s.processing ==> r == s)
            && (!AllSpace(prompt, JsSpace) && !s.processing ==>
                  r.current == Some(token) && r.results == [] && r.processing)
  {
  }

  /** Only the batch whose id is still current can clear the processing flag. */
  lemma {:induction false} FinishContract(s: State, token: nat)
    ensures Step(s, Finish(token)).processing == (s.processing && s.current != Some(token))
  {
  }

  /** While processing, no submit gets through, so the current id cannot change. */
  lemma {:induction false} ProcessingPinsId(s: State, es: seq<Event>)
    requires s.processing
    requires forall i | 0 <= i < |es| :: !es[i].Finish?
    ensures Run(s, es).current == s.current && Run(s, es).processing
    decreases |es|
  {
    if |es| > 0 {
      ProcessingPinsId(Step(s, es[0]), es[1..]);
    }
  }

  // ---------------------------------------------------------------------
  // A whole batch

  /** One call's writes, each guarded by the batch's id. */
  function WriteEvents(token: nat, sched: seq<(string, Write)>): (es: seq<Event>)
    ensures |es| == |sched|
    ensures forall i | 0 <= i < |es| :: es[i] == Event.Write(token, sched[i].0, sched[i].1)
  {
    if |sched| == 0 then [] else [Event.Write(token, sched[0].0, sched[0].1)] + WriteEvents(token, sched[1..])
  }

  /**
   * A batch as the pages run it: the submit, the guarded creation of the
   * cards, the calls' writes in the order they happen, the guarded finish.
   */
  function BatchEvents(token: nat, prompt: string, cards: seq<Entry>, sched: seq<(string, Write)>): (es: seq<Event>)
    ensures |es| == |sched| + 3
    ensures es[0] == Submit(token, prompt) && es[1] == Init(token, cards) && es[|es| - 1] == Finish(token)
    ensures forall i | 1 <= i < |es| :: Guarded(es[i]) && es[i].token == token
  {
    [Submit(token, prompt), Init(token, cards)] + WriteEvents(token, sched) + [Finish(token)]
  }

  /** Guarded writes with no guard are the per-id updates in the same order. */
  lemma {:induction false} UnguardedWrites(results: seq<Entry>, token: nat, sched: seq<(string, Write)>)
    ensures Unguarded(results, WriteEvents(token, sched)) == ApplySchedule(results, sched)
    decreases |sched|
  {
    if |sched| > 0 {
      var es := WriteEvents(token, sched);
      assert es[1..] == WriteEvents(token, sched[1..]);
      UnguardedWrites(UpdateById(results, sched[0].0, sched[0].1), token, sched[1..]);
    }
  }

  lemma {:induction false} UnguardedAppend(results: seq<Entry>, a: seq<Event>, b: seq<Event>)
    ensures Unguarded(results, a + b) == Unguarded(Unguarded(results, a), b)
    decreases |a|
  {
    if |a| == 0 {
      assert a + b == b;
    } else {
      assert (a + b)[1..] == a[1..] + b;
      var r := match a[0]
        case Write(_, id, w) => UpdateById(results, id, w)
        case Init(_, entries) => entries
        case _ => results;
      UnguardedAppend(r, a[1..], b);
    }
  }

  /** A run of one batch's events that ends with its finish leaves the flag cleared. */
  lemma {:induction false} RunFinishes(s: State, es: seq<Event>, token: nat)
    requires s.current == Some(token) && |es| > 0 && es[|es| - 1] == Finish(token)
    requires forall i | 0 <= i < |es| :: Guarded(es[i]) && es[i].token == token
    ensures !Run(s, es).processing
    decreases |es|
  {
    if |es| > 1 {
      RunFinishes(Step(s, es[0]), es[1..], token);
    }
  }

  /**
   * A batch that nothing interrupts: submitted on a non-blank prompt while
   * idle, it ends idle with its id current and the cards it created
   * updated by exactly its writes.
   */
  lemma {:induction false} UninterruptedBatch(s: State, token: nat, prompt: string, cards: seq<Entry>, sched: seq<(string, Write)>)
    requires !AllSpace(prompt, JsSpace) && !s.processing
    ensures var r := Run(s, BatchEvents(token, prompt, cards, sched));
            r.current == Some(token) && !r.processing && r.results == ApplySchedule(cards, sched)
  {
    var es := BatchEvents(token, prompt, cards, sched);
    var s1 := Step(s, es[0]);
    assert s1 == State(Some(token), [], true);
    assert Run(s, es) == Run(s1, es[1..]);
    var rest := es[1..];
    CurrentBatchUnaffected(s1, rest, token);
    BatchBody(token, prompt, cards, sched);
    RunFinishes(s1, rest, token);
  }

  /** After its submit, a batch's events without any guard create the cards and apply the schedule. */
  lemma {:induction false} BatchBody(token: nat, prompt: string, cards: seq<Entry>, sched: seq<(string, Write)>)
    ensures Unguarded([], BatchEvents(token, prompt, cards, sched)[1..]) == ApplySchedule(cards, sched)
  {
    var rest := BatchEvents(token, prompt, cards, sched)[1..];
    var body := [Init(token, cards)] + WriteEvents(token, sched);
    assert rest == body + [Finish(token)];
    UnguardedAppend([], body, [Finish(token)]);
    UnguardedAppend([], [Init(token, cards)], WriteEvents(token, sched));
    assert Unguarded([], [Init(token, cards)]) == cards;
    UnguardedWrites(cards, token, sched);
  }
}

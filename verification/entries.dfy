/**
 * The result lists the comparison pages display, and the per-id rewrite
 * every state update performs: `prev.map(r => r.id === id ? {...r, ...} : r)`.
 */
module Entries {
  import opened Wrappers

  /** Token counts reported by the backend for one completion. */
  datatype Usage = Usage(promptTokens: nat, completionTokens: nat, totalTokens: nat)

  /**
   * One result card. `title` is the page's descriptive field (title, model
   * name, temperature or prompt-size type); `prompt` is only used by the
   * token page; `progress` and `usage` are absent until written.
   */
  datatype Entry = Entry(
    id: string,
    title: string,
    prompt: string,
    response: string,
    isLoading: bool,
    error: Option<string>,
    progress: Option<real>,
    usage: Option<Usage>)

  /** A freshly created card: empty response, loading, no error. */
  function Loading(id: string, title: string, prompt: string): (e: Entry)
    ensures e.id == id && e.response == "" && e.isLoading && e.error == None
  {
    Entry(id, title, prompt, "", true, None, None, None)
  }

  /** The state writes the pages perform on a single card. */
  datatype Write =
    | Begin                                 // streaming starts: loading, progress 10, response cleared
    | Partial(text: string, progress: real) // a content record arrived
    | Complete(text: string)                // the stream ended: not loading, progress 100
    | Fail(message: string)                 // an exception reached the outer catch
    | Restart                               // a non-streamed call starts: loading, error cleared
    | Answer(response: string, usage: Option<Usage>) // a non-streamed call succeeded
    | Prepend(prefix: string)               // text put in front of the response shown so far

  function ApplyWrite(e: Entry, w: Write): (r: Entry)
    ensures r.id == e.id && r.title == e.title && r.prompt == e.prompt
  {
    match w
    case Begin => e.(isLoading := true, progress := Some(10.0), response := "")
    case Partial(t, p) => e.(response := t, isLoading := true, progress := Some(p))
    case Complete(t) => e.(isLoading := false, progress := Some(100.0), response := t)
    case Fail(m) => e.(isLoading := false, error := Some(m))
    case Restart => e.(isLoading := true, error := None)
    case Answer(resp, u) => e.(response := resp, usage := u, isLoading := false)
    case Prepend(prefix) => e.(response := prefix + e.response)
  }

  function ApplyAll(e: Entry, ws: seq<Write>): (r: Entry)
    ensures r.id == e.id
    decreases |ws|
  {
    if |ws| == 0 then e else ApplyAll(ApplyWrite(e, ws[0]), ws[1..])
  }

  lemma {:induction false} ApplyAllAppend(e: Entry, a: seq<Write>, b: seq<Write>)
    ensures ApplyAll(e, a + b) == ApplyAll(ApplyAll(e, a), b)
    decreases |a|
  {
    if |a| == 0 {
      assert a + b == b;
    } else {
      assert (a + b)[1..] == a[1..] + b;
      ApplyAllAppend(ApplyWrite(e, a[0]), a[1..], b);
    }
  }

  /** Writes made while a response streams in. */
  predicate Streaming(w: Write) {
    w.Begin? || w.Partial?
  }

  /** Streaming writes touch only the response, the loading flag and the progress. */
  lemma {:induction false} StreamingWritesKeepRest(e: Entry, ws: seq<Write>)
    requires forall i | 0 <= i < |ws| :: Streaming(ws[i])
    ensures ApplyAll(e, ws).(response := e.response, isLoading := e.isLoading, progress := e.progress) == e
    decreases |ws|
  {
    if |ws| > 0 {
      var e' := ApplyWrite(e, ws[0]);
      StreamingWritesKeepRest(e', ws[1..]);
    }
  }

  function Ids(es: seq<Entry>): (ids: seq<string>)
    ensures |ids| == |es|
    ensures forall i | 0 <= i < |es| :: ids[i] == es[i].id
  {
    if |es| == 0 then [] else [es[0].id] + Ids(es[1..])
  }

  /** `prev.map(r => r.id === id ? f(r) : r)`. */
  function UpdateById(es: seq<Entry>, id: string, w: Write): (r: seq<Entry>)
    ensures |r| == |es|
    ensures forall i | 0 <= i < |es| :: r[i] == (if es[i].id == id then ApplyWrite(es[i], w) else es[i])
  {
    if |es| == 0 then [] else [if es[0].id == id then ApplyWrite(es[0], w) else es[0]] + UpdateById(es[1..], id, w)
  }

  /** The first card with the given id. */
  function Find(es: seq<Entry>, id: string): (r: Option<Entry>)
    ensures r.Some? <==> id in Ids(es)
    ensures r.Some? ==> r.value in es && r.value.id == id
  {
    if |es| == 0 then None else if es[0].id == id then Some(es[0]) else Find(es[1..], id)
  }

  /** A write for an id no card carries changes nothing. */
  lemma {:induction false} UpdateAbsentId(es: seq<Entry>, id: string, w: Write)
    requires id !in Ids(es)
    ensures UpdateById(es, id, w) == es
  {
    assert forall i | 0 <= i < |es| :: es[i].id != id by {
      forall i | 0 <= i < |es| ensures es[i].id != id {
        assert Ids(es)[i] == es[i].id;
      }
    }
  }

  /** A write keeps the list's length and ids, rewrites the card it names and no other. */
  lemma {:induction false} UpdateFind(es: seq<Entry>, id: string, w: Write, other: string)
    ensures Ids(UpdateById(es, id, w)) == Ids(es)
    ensures Find(UpdateById(es, id, w), id) == (if id in Ids(es) then Some(ApplyWrite(Find(es, id).value, w)) else None)
    ensures other != id ==> Find(UpdateById(es, id, w), other) == Find(es, other)
  {
    var r := UpdateById(es, id, w);
    assert Ids(r) == Ids(es);
    if |es| > 0 {
      UpdateFind(es[1..], id, w, other);
      assert r[1..] == UpdateById(es[1..], id, w);
    }
  }

  /** Writes to different cards can be applied in either order. */
  lemma {:induction false} UpdatesCommute(es: seq<Entry>, a: string, wa: Write, b: string, wb: Write)
    requires a != b
    ensures UpdateById(UpdateById(es, a, wa), b, wb) == UpdateById(UpdateById(es, b, wb), a, wa)
  {
  }

  /** Writes addressed to cards by id, in the order they happen (any interleaving of concurrent calls). */
  function ApplySchedule(es: seq<Entry>, sched: seq<(string, Write)>): (r: seq<Entry>)
    ensures |r| == |es|
    ensures forall i | 0 <= i < |es| :: r[i].id == es[i].id
    decreases |sched|
  {
    if |sched| == 0 then es else ApplySchedule(UpdateById(es, sched[0].0, sched[0].1), sched[1..])
  }

  /** The writes of a schedule addressed to one id, in order. */
  function WritesFor(sched: seq<(string, Write)>, id: string): (ws: seq<Write>)
    ensures |ws| <= |sched|
    ensures forall w | w in ws :: (id, w) in sched
    ensures (forall j | 0 <= j < |sched| :: sched[j].0 != id) ==> ws == []
    ensures |sched| > 0 && sched[0].0 == id ==> |ws| > 0 && ws[0] == sched[0].1
  {
    if |sched| == 0 then []
    else
      var rest := WritesFor(sched[1..], id);
      assert forall j | 0 <= j < |sched[1..]| :: sched[1..][j] == sched[j + 1];
      (if sched[0].0 == id then [sched[0].1] else []) + rest
  }

  /**
   * However the writes of different cards interleave, each card ends up as
   * its own writes applied in order: the list keeps its length and ids.
   */
  lemma {:induction false} ScheduleProjection(es: seq<Entry>, sched: seq<(string, Write)>)
    ensures |ApplySchedule(es, sched)| == |es|
    ensures forall i | 0 <= i < |es| :: ApplySchedule(es, sched)[i] == ApplyAll(es[i], WritesFor(sched, es[i].id))
    decreases |sched|
  {
    if |sched| > 0 {
      var (id, w) := sched[0];
      var es' := UpdateById(es, id, w);
      ScheduleProjection(es', sched[1..]);
      forall i | 0 <= i < |es|
        ensures ApplySchedule(es, sched)[i] == ApplyAll(es[i], WritesFor(sched, es[i].id))
      {
        assert es'[i].id == es[i].id;
        assert ApplySchedule(es, sched) == ApplySchedule(es', sched[1..]);
        if es[i].id == id {
          var rest := WritesFor(sched[1..], id);
          assert WritesFor(sched, id) == [w] + rest;
          assert ([w] + rest)[1..] == rest;
          assert es'[i] == ApplyWrite(es[i], w);
          assert ApplyAll(es[i], [w] + rest) == ApplyAll(es'[i], rest);
        } else {
          assert WritesFor(sched, es[i].id) == [] + WritesFor(sched[1..], es[i].id);
          assert [] + WritesFor(sched[1..], es[i].id) == WritesFor(sched[1..], es[i].id);
          assert es'[i] == es[i];
        }
      }
    }
  }
}

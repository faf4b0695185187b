/**
 * `callAPIStream` (and the identical loops of the model, temperature and
 * reasoning pages) as the sequence of writes it makes to its own card. The
 * network is replaced by what `fetch` and the reader deliver: a rejection,
 * a non-ok status with its error body, a missing body, or the decoded
 * chunks followed by the end of the stream or by a read failure.
 */
module StreamConsumer {
  import opened Wrappers
  import opened Strings
  import opened Lines
  import opened Records
  import opened Entries

  /** What `res.json()` yields for a non-ok response: unreadable, or an object with an optional `detail`. */
  datatype ErrorBody = Unreadable | Body(detail: Option<string>)

  datatype Reply =
    | Rejected(message: string)                     // `fetch` itself throws
    | NotOk(status: nat, body: ErrorBody)           // `!res.ok`
    | NoBody                                        // `res.body` is null
    | Streamed(chunks: seq<string>, failure: Option<string>) // decoded chunks, then done or a read error

  /** `errorData.detail || \`HTTP error! status: ${res.status}\``, where an unreadable body reads as `{detail: 'Unknown error'}`. */
  function HttpErrorMessage(status: nat, body: ErrorBody): (m: string)
    ensures m != ""
    ensures body == Unreadable ==> m == "Unknown error"
    ensures body.Body? && body.detail.Some? && body.detail.value != "" ==> m == body.detail.value
    ensures body.Body? && (body.detail.None? || body.detail.value == "") ==>
              m == "HTTP error! status: " + NatToString(status)
  {
    match body
    case Unreadable => "Unknown error"
    case Body(Some(d)) => if d != "" then d else "HTTP error! status: " + NatToString(status)
    case Body(None) => "HTTP error! status: " + NatToString(status)
  }

  /**
   * The status code can be read back from the fallback message: the message
   * is the fixed prefix followed by the decimal status.
   */
  lemma {:induction false} HttpErrorMessageNamesStatus(status: nat)
    ensures var m := HttpErrorMessage(status, Body(None));
            StartsWith(m, "HTTP error! status: ") && DigitsValue(m[20..]) == status
  {
    var m := HttpErrorMessage(status, Body(None));
    assert m[20..] == NatToString(status);
    NatToStringRoundTrip(status);
  }

  /** The progress updates the record loop makes for `lines`, starting from the response `acc`. */
  function PartialWrites(acc: string, lines: seq<string>, parse: Parser): (ws: seq<Write>)
    ensures |ws| == |Contents(lines, parse)|
    ensures forall i | 0 <= i < |ws| :: ws[i].Partial? && ws[i].progress == Progress(|ws[i].text|)
    ensures forall i | 0 <= i < |ws| :: acc < ws[i].text
    decreases |lines|
  {
    if |lines| == 0 then []
    else
      var c := LineContent(lines[0], parse);
      if c == "" then
        PartialWrites(acc, lines[1..], parse)
      else
        var t := acc + c;
        assert acc < t;
        [Partial(t, Progress(|t|))] + PartialWrites(t, lines[1..], parse)
  }

  /** Each write shows a strict prefix of the text of every later one. */
  predicate Growing(ws: seq<Write>)
    requires forall i | 0 <= i < |ws| :: ws[i].Partial?
  {
    forall i, j | 0 <= i < j < |ws| :: ws[i].text < ws[j].text
  }

  /** Each progress update shows strictly more text than the one before. */
  lemma {:induction false} PartialWritesIncreasing(acc: string, lines: seq<string>, parse: Parser)
    ensures Growing(PartialWrites(acc, lines, parse))
    decreases |lines|
  {
    if |lines| > 0 {
      var c := LineContent(lines[0], parse);
      if c == "" {
        PartialWritesIncreasing(acc, lines[1..], parse);
        assert PartialWrites(acc, lines, parse) == PartialWrites(acc, lines[1..], parse);
        assert Growing(PartialWrites(acc, lines[1..], parse));
      } else {
        var t := acc + c;
        PartialWritesIncreasing(t, lines[1..], parse);
        var rest := PartialWrites(t, lines[1..], parse);
        var ws := PartialWrites(acc, lines, parse);
        assert ws == [Partial(t, Progress(|t|))] + rest;
        forall i, j | 0 <= i < j < |ws| ensures ws[i].text < ws[j].text {
          assert ws[j] == rest[j - 1];
          if i == 0 {
            assert ws[0].text == t;
            assert t < rest[j - 1].text;
          } else {
            assert ws[i] == rest[i - 1];
            assert Growing(rest);
            assert rest[i - 1].text < rest[j - 1].text;
          }
        }
      }
    }
  }

  /** The last progress update shows everything accumulated. */
  lemma {:induction false} PartialWritesLast(acc: string, lines: seq<string>, parse: Parser)
    ensures var ws := PartialWrites(acc, lines, parse);
            |ws| > 0 ==> ws[|ws| - 1].text == Accumulate(acc, lines, parse)
    decreases |lines|
  {
    if |lines| > 0 {
      var c := LineContent(lines[0], parse);
      if c == "" {
        assert acc + c == acc;
        PartialWritesLast(acc, lines[1..], parse);
      } else {
        var t := acc + c;
        var tail := PartialWrites(t, lines[1..], parse);
        assert PartialWrites(acc, lines, parse) == [Partial(t, Progress(|t|))] + tail;
        assert Accumulate(acc, lines, parse) == Accumulate(t, lines[1..], parse);
        if |tail| == 0 {
          AccumulateIsConcat(t, lines[1..], parse);
          assert Contents(lines[1..], parse) == [];
        } else {
          PartialWritesLast(t, lines[1..], parse);
        }
      }
    }
  }

  /** Every write one call makes to its card, in order. */
  function StreamWrites(reply: Reply, parse: Parser): (ws: seq<Write>)
    ensures |ws| >= 1
  {
    match reply
    case Rejected(m) => [Fail(m)]
    case NotOk(status, body) => [Fail(HttpErrorMessage(status, body))]
    case NoBody => [Fail("No response body")]
    case Streamed(chunks, failure) =>
      var lines := FeedAll(Fresh, chunks).lines;
      [Begin] + PartialWrites("", lines, parse)
        + (match failure
           case None => [Complete(StreamText(chunks, parse))]
           case Some(m) => [Fail(m)])
  }

  /** The writes of a delivered stream: `Begin`, the progress updates, then the closing write. */
  lemma {:induction false} StreamedWrites(chunks: seq<string>, failure: Option<string>, parse: Parser)
    ensures StreamWrites(Streamed(chunks, failure), parse)
         == [Begin] + PartialWrites("", FeedAll(Fresh, chunks).lines, parse)
            + [if failure.None? then Complete(StreamText(chunks, parse)) else Fail(failure.value)]
  {
  }

  /** Progress updates never show less progress than an earlier one, and every shown text is a prefix of the last. */
  lemma {:induction false} PartialWritesOrdered(acc: string, lines: seq<string>, parse: Parser)
    ensures var ps := PartialWrites(acc, lines, parse);
            && (forall i, j | 0 <= i < j < |ps| :: ps[i].progress <= ps[j].progress)
            && (forall i | 0 <= i < |ps| :: ps[i].text <= Accumulate(acc, lines, parse))
  {
    var ps := PartialWrites(acc, lines, parse);
    PartialWritesIncreasing(acc, lines, parse);
    PartialWritesLast(acc, lines, parse);
    forall i, j | 0 <= i < j < |ps|
      ensures ps[i].progress <= ps[j].progress
    {
      ProgressMonotone(|ps[i].text|, |ps[j].text|);
    }
    forall i | 0 <= i < |ps|
      ensures ps[i].text <= Accumulate(acc, lines, parse)
    {
      if i < |ps| - 1 {
        assert ps[i].text < ps[|ps| - 1].text;
      }
    }
  }

  /**
   * A stream that ends normally shows progress 10 first, then values within
   * [10, 90] that never decrease, then exactly 100; every shown response
   * is a prefix of the final one.
   */
  lemma {:induction false} ProgressTrace(chunks: seq<string>, parse: Parser)
    ensures var ws := StreamWrites(Streamed(chunks, None), parse);
            && ws[0] == Begin
            && ws[|ws| - 1] == Complete(StreamText(chunks, parse))
            && (forall i | 0 < i < |ws| - 1 :: ws[i].Partial? && 10.0 <= ws[i].progress <= 90.0)
            && (forall i, j | 0 < i < j < |ws| - 1 :: ws[i].progress <= ws[j].progress)
            && (forall i | 0 < i < |ws| - 1 :: ws[i].text <= StreamText(chunks, parse))
  {
    var lines := FeedAll(Fresh, chunks).lines;
    var ps := PartialWrites("", lines, parse);
    StreamedWrites(chunks, None, parse);
    PartialWritesOrdered("", lines, parse);
    var ws := StreamWrites(Streamed(chunks, None), parse);
    assert forall i | 0 < i < |ws| - 1 :: ws[i] == ps[i - 1];
  }

  /**
   * A stream that ends normally leaves its card not loading, at progress 100,
   * holding the concatenated contents of the complete `data: ` lines; the
   * card's error is untouched, so `{error}` records never surface.
   */
  lemma {:induction false} CompletedStreamEntry(e: Entry, chunks: seq<string>, parse: Parser)
    ensures ApplyAll(e, StreamWrites(Streamed(chunks, None), parse))
         == e.(response := Concat(Contents(CompleteLines(Concat(chunks)), parse)),
               isLoading := false, progress := Some(100.0))
  {
    var lines := FeedAll(Fresh, chunks).lines;
    var streaming := [Begin] + PartialWrites("", lines, parse);
    var ws := StreamWrites(Streamed(chunks, None), parse);
    assert ws == streaming + [Complete(StreamText(chunks, parse))];
    ApplyAllAppend(e, streaming, [Complete(StreamText(chunks, parse))]);
    StreamingWritesKeepRest(e, streaming);
    StreamTextChunkIndependent(chunks, parse);
  }

  /** A call that fails before streaming leaves its card not loading with the failure's message, and nothing else changed. */
  lemma {:induction false} FailedCallEntry(e: Entry, reply: Reply, parse: Parser)
    requires !reply.Streamed?
    ensures ApplyAll(e, StreamWrites(reply, parse)) == e.(isLoading := false, error := Some(
              match reply
              case Rejected(m) => m
              case NotOk(s, b) => HttpErrorMessage(s, b)
              case _ => "No response body"))
  {
  }

  /** A read failure after some chunks keeps the partial response and records the failure. */
  lemma {:induction false} InterruptedStreamEntry(e: Entry, chunks: seq<string>, failure: string, parse: Parser)
    ensures var r := ApplyAll(e, StreamWrites(Streamed(chunks, Some(failure)), parse));
            && r.error == Some(failure) && !r.isLoading
            && r.response <= StreamText(chunks, parse)
            && r.title == e.title && r.id == e.id
  {
    var lines := FeedAll(Fresh, chunks).lines;
    var ps := PartialWrites("", lines, parse);
    var streaming := [Begin] + ps;
    StreamedWrites(chunks, Some(failure), parse);
    ApplyAllAppend(e, streaming, [Fail(failure)]);
    StreamingWritesKeepRest(e, streaming);
    LastStreamingWrite(e, streaming);
    PartialWritesOrdered("", lines, parse);
    if |ps| > 0 {
      assert streaming[|streaming| - 1] == ps[|ps| - 1];
    }
  }

  /** After streaming writes, the card shows the text of the last one. */
  lemma {:induction false} LastStreamingWrite(e: Entry, ws: seq<Write>)
    requires |ws| > 0 && forall i | 0 <= i < |ws| :: Streaming(ws[i])
    ensures ApplyAll(e, ws).response == (if ws[|ws| - 1].Partial? then ws[|ws| - 1].text else "")
    decreases |ws|
  {
    if |ws| > 1 {
      LastStreamingWrite(ApplyWrite(e, ws[0]), ws[1..]);
    }
  }
}

/**
 * The backend side of the stream: the DeepSeek service (and the identical
 * loop of `main.py`) re-frames upstream server-sent lines as `{"content": …}`
 * records, the Llama service fakes streaming by cutting the generated text
 * into 10-character pieces, and the routers frame every record as
 * `data: <json>\n\n`. Read back by the page's record loop, the framed
 * stream gives the page exactly the concatenated contents.
 */
module StreamProducers {
  import opened Wrappers
  import opened Strings
  import opened Lines
  import opened Records

  /** A record the backend emits. */
  datatype Out = ContentOut(content: string) | ErrorOut(message: string)

  /** How an upstream `data: ` body decodes. */
  datatype Delta =
    | Undecodable                     // `json.JSONDecodeError`: the line is skipped
    | Malformed(message: string)      // any other exception while reading the record: the stream ends
    | Chunk(content: Option<string>)  // `choices[0].delta.content`, None when any part is absent

  /** The upstream response as `aiter_lines` delivers it, then an optional failure (including a bad status). */
  datatype Upstream = Upstream(lines: seq<string>, failure: Option<string>)

  /** Result of re-framing one upstream line. */
  datatype Step = Emit(outs: seq<Out>) | Stop(outs: seq<Out>)

  const Done: string := "[DONE]"

  /** One turn of the `async for line in response.aiter_lines()` loop. */
  function ReframeLine(line: string, decode: string -> Delta): (st: Step)
    ensures |st.outs| <= 1
    ensures Payload(line).None? ==> st == Emit([])
    ensures Payload(line) == Some(Done) ==> st == Stop([])
    ensures st.Emit? ==> forall i | 0 <= i < |st.outs| :: st.outs[i].ContentOut? && st.outs[i].content != ""
    ensures st.Stop? && |st.outs| > 0 ==> st.outs[0].ErrorOut?
  {
    match Payload(line)
    case None => Emit([])
    case Some(body) =>
      if body == Done then Stop([])
      else match decode(body)
        case Undecodable => Emit([])
        case Malformed(m) => Stop([ErrorOut(m)])
        case Chunk(c) => if Truthy(c) then Emit([ContentOut(c.value)]) else Emit([])
  }

  predicate Truthy(c: Option<string>) {
    c.Some? && c.value != ""
  }

  /** `stream_deepseek_api` and `main.py`'s `generate`: the records yielded for an upstream response. */
  function Reframe(up: Upstream, decode: string -> Delta): (outs: seq<Out>)
    ensures forall i | 0 <= i < |outs| :: outs[i].ContentOut? ==> outs[i].content != ""
    ensures forall i | 0 <= i < |outs| - 1 :: outs[i].ContentOut?
    decreases |up.lines|
  {
    if |up.lines| == 0 then
      match up.failure
      case None => []
      case Some(m) => [ErrorOut(m)]
    else
      match ReframeLine(up.lines[0], decode)
      case Stop(o) => o
      case Emit(o) => o + Reframe(Upstream(up.lines[1..], up.failure), decode)
  }

  /** The service with no API key: one error record and no request. */
  function DeepSeekStream(keyConfigured: bool, up: Upstream, decode: string -> Delta): (outs: seq<Out>)
    ensures !keyConfigured ==> outs == [ErrorOut("API key is not configured")]
    ensures keyConfigured ==> outs == Reframe(up, decode)
  {
    if !keyConfigured then [ErrorOut("API key is not configured")] else Reframe(up, decode)
  }

  /** The upstream delta contents up to the first `[DONE]`, in order: what the re-framing should forward. */
  function DeltaContents(lines: seq<string>, decode: string -> Delta): seq<string>
    decreases |lines|
  {
    if |lines| == 0 then []
    else match Payload(lines[0])
      case None => DeltaContents(lines[1..], decode)
      case Some(body) =>
        if body == Done then []
        else match decode(body)
          case Chunk(c) =>
            if Truthy(c) then [c.value] + DeltaContents(lines[1..], decode) else DeltaContents(lines[1..], decode)
          case _ => DeltaContents(lines[1..], decode)
  }

  function OutContents(outs: seq<Out>): seq<string> {
    if |outs| == 0 then []
    else if outs[0].ContentOut? then [outs[0].content] + OutContents(outs[1..])
    else OutContents(outs[1..])
  }

  lemma {:induction false} OutContentsAppend(a: seq<Out>, b: seq<Out>)
    ensures OutContents(a + b) == OutContents(a) + OutContents(b)
    decreases |a|
  {
    if |a| == 0 {
      assert a + b == b;
    } else {
      assert (a + b)[1..] == a[1..] + b;
      OutContentsAppend(a[1..], b);
      var h := if a[0].ContentOut? then [a[0].content] else [];
      AppendAssoc(h, OutContents(a[1..]), OutContents(b));
    }
  }

  predicate NoMalformed(lines: seq<string>, decode: string -> Delta) {
    forall i | 0 <= i < |lines| :: Payload(lines[i]).Some? ==> !decode(Payload(lines[i]).value).Malformed?
  }

  /**
   * Without malformed records, the re-framing forwards every non-empty delta
   * content up to `[DONE]`, in order, and at most one error record, last.
   */
  lemma {:induction false} ReframeForwardsDeltas(up: Upstream, decode: string -> Delta)
    requires NoMalformed(up.lines, decode)
    ensures OutContents(Reframe(up, decode)) == DeltaContents(up.lines, decode)
    decreases |up.lines|
  {
    if |up.lines| > 0 {
      var rest := Upstream(up.lines[1..], up.failure);
      assert NoMalformed(rest.lines, decode) by {
        forall i | 0 <= i < |rest.lines| ensures Payload(rest.lines[i]).Some? ==> !decode(Payload(rest.lines[i]).value).Malformed? {
          assert rest.lines[i] == up.lines[i + 1];
        }
      }
      ReframeForwardsDeltas(rest, decode);
      match ReframeLine(up.lines[0], decode)
      case Stop(o) =>
      case Emit(o) => OutContentsAppend(o, Reframe(rest, decode));
    }
  }

  /** A `[DONE]` line ends the stream: nothing after it is read, and no failure after it is reported. */
  lemma {:induction false} DoneEndsStream(before: seq<string>, after: seq<string>, failure: Option<string>, decode: string -> Delta)
    requires forall i | 0 <= i < |before| :: ReframeLine(before[i], decode).Emit?
    ensures Reframe(Upstream(before + ["data: [DONE]"] + after, failure), decode)
         == Reframe(Upstream(before + ["data: [DONE]"], None), decode)
  {
    DoneEndsStreamFrom(before, after, failure, decode);
  }

  lemma {:induction false} DoneEndsStreamFrom(before: seq<string>, after: seq<string>, failure: Option<string>, decode: string -> Delta)
    requires forall i | 0 <= i < |before| :: ReframeLine(before[i], decode).Emit?
    ensures Reframe(Upstream(before + ["data: [DONE]"] + after, failure), decode)
         == Reframe(Upstream(before + ["data: [DONE]"], None), decode)
    decreases |before|
  {
    if |before| == 0 {
      PayloadOfRecordLine(Done);
      assert DataPrefix + Done == "data: [DONE]";
      assert (before + ["data: [DONE]"] + after)[0] == "data: [DONE]";
      assert (before + ["data: [DONE]"])[0] == "data: [DONE]";
    } else {
      assert (before + ["data: [DONE]"] + after)[1..] == before[1..] + ["data: [DONE]"] + after;
      assert (before + ["data: [DONE]"])[1..] == before[1..] + ["data: [DONE]"];
      DoneEndsStreamFrom(before[1..], after, failure, decode);
    }
  }

  // ---------------------------------------------------------------------
  // backend/services/llama_api.py

  const ChunkSize: nat := 10

  /** `[text[i:i + 10] for i in range(0, len(text), 10)]`. */
  function Pieces(text: string): (ps: seq<string>)
    ensures Concat(ps) == text
    ensures forall i | 0 <= i < |ps| :: 0 < |ps[i]| <= ChunkSize
    ensures forall i | 0 <= i < |ps| - 1 :: |ps[i]| == ChunkSize
    ensures |ps| == (|text| + ChunkSize - 1) / ChunkSize
    decreases |text|
  {
    if |text| == 0 then []
    else if |text| <= ChunkSize then [text]
    else
      var rest := Pieces(text[ChunkSize..]);
      assert text == text[..ChunkSize] + text[ChunkSize..];
      [text[..ChunkSize]] + rest
  }

  /** The Hugging Face response shapes, as far as the streaming service reads them. */
  datatype HfReply =
    | Loading(error: Option<string>)                 // status 503, with the body's `error` field
    | HttpFailure(status: nat, text: string)         // any other error status
    | Failure(message: string)                       // any other exception
    | Generated(text: string)                        // a list or dict carrying `generated_text`
    | Unexpected(repr: string)                       // anything else, as `str(data)`

  /** `stream_llama_api`: the records yielded for a reply. */
  function LlamaStream(keyConfigured: bool, reply: HfReply): (outs: seq<Out>)
    ensures !keyConfigured ==> |outs| == 1 && outs[0].ErrorOut?
    ensures keyConfigured && reply.Generated? ==> OutContents(outs) == Pieces(reply.text)
    ensures keyConfigured && !reply.Generated? ==> |outs| == 1
  {
    if !keyConfigured then [ErrorOut("HUGGINGFACE_API_KEY not found in environment variables")]
    else match reply
      case Loading(e) =>
        [ErrorOut("Model is loading: " + e.GetOr("Model is loading, please try again in a few moments"))]
      case HttpFailure(status, text) =>
        [ErrorOut("HTTP " + NatToString(status) + ": " + text[..if |text| < 200 then |text| else 200])]
      case Failure(m) => [ErrorOut(m)]
      case Generated(t) => AsContent(Pieces(t))
      case Unexpected(repr) => [ContentOut(repr)]
  }

  function AsContent(ps: seq<string>): (outs: seq<Out>)
    ensures |outs| == |ps|
    ensures OutContents(outs) == ps
    ensures forall i | 0 <= i < |outs| :: outs[i] == ContentOut(ps[i])
  {
    if |ps| == 0 then [] else [ContentOut(ps[0])] + AsContent(ps[1..])
  }

  /** Empty generated text emits no record at all. */
  lemma EmptyTextNoRecords()
    ensures LlamaStream(true, Generated("")) == []
  {
  }

  // ---------------------------------------------------------------------
  // Framing, and the round trip through the page's record loop

  /** The JSON encoder, as seen by the routers. */
  type Encoder = Out -> string

  /** `f"data: {chunk}\n\n"` for each record. */
  function Framed(outs: seq<Out>, enc: Encoder): string {
    if |outs| == 0 then "" else DataPrefix + enc(outs[0]) + "\n\n" + Framed(outs[1..], enc)
  }

  /** The lines the framing produces: each record line followed by a blank separator line. */
  function FrameLines(outs: seq<Out>, enc: Encoder): (ls: seq<string>)
    ensures |ls| == 2 * |outs|
  {
    if |outs| == 0 then [] else [DataPrefix + enc(outs[0]), ""] + FrameLines(outs[1..], enc)
  }

  /** The encoder and the page's parser agree, and encoded records are single lines (as `json.dumps` makes them). */
  ghost predicate Compatible(enc: Encoder, parse: Parser) {
    && (forall o: Out :: NoNewline(enc(o)))
    && (forall c: string :: parse(enc(ContentOut(c))) == Some(Record(Some(c), None)))
    && (forall m: string :: parse(enc(ErrorOut(m))) == Some(Record(None, Some(m))))
  }

  lemma {:induction false} FramedIsTerminated(outs: seq<Out>, enc: Encoder)
    ensures Framed(outs, enc) == Terminated(FrameLines(outs, enc))
  {
    if |outs| > 0 {
      FramedIsTerminated(outs[1..], enc);
      var l := DataPrefix + enc(outs[0]);
      assert Terminated(FrameLines(outs, enc)) == l + "\n" + ("" + "\n" + Terminated(FrameLines(outs[1..], enc)));
    }
  }

  lemma {:induction false} FrameLinesNoNewline(outs: seq<Out>, enc: Encoder)
    requires forall o: Out :: NoNewline(enc(o))
    ensures forall i | 0 <= i < |FrameLines(outs, enc)| :: NoNewline(FrameLines(outs, enc)[i])
  {
    if |outs| > 0 {
      FrameLinesNoNewline(outs[1..], enc);
      var l := DataPrefix + enc(outs[0]);
      assert NoNewline(enc(outs[0]));
      assert forall k | 0 <= k < |l| :: l[k] != '\n' by {
        forall k | 0 <= k < |l| ensures l[k] != '\n' {
          if k >= |DataPrefix| {
            assert l[k] == enc(outs[0])[k - |DataPrefix|];
          }
        }
      }
      var ls := FrameLines(outs, enc);
      assert ls == [l, ""] + FrameLines(outs[1..], enc);
    }
  }

  lemma {:induction false} FrameLinesContents(outs: seq<Out>, enc: Encoder, parse: Parser)
    requires Compatible(enc, parse)
    ensures Concat(Contents(FrameLines(outs, enc), parse)) == Concat(OutContents(outs))
  {
    if |outs| > 0 {
      FrameLinesContents(outs[1..], enc, parse);
      var o := outs[0];
      var ls := FrameLines(outs, enc);
      assert ls[1..][1..] == FrameLines(outs[1..], enc);
      assert LineContent("", parse) == "";
      assert Contents(ls[1..], parse) == Contents(FrameLines(outs[1..], enc), parse);
      PayloadOfRecordLine(enc(o));
      match o
      case ContentOut(c) =>
        assert LineContent(ls[0], parse) == c;
        if c == "" {
          assert Contents(ls, parse) == Contents(ls[1..], parse);
        } else {
          assert Contents(ls, parse) == [c] + Contents(ls[1..], parse);
        }
        ConcatAppend([c], OutContents(outs[1..]));
        ConcatAppend([c], Contents(ls[1..], parse));
      case ErrorOut(m) =>
        assert LineContent(ls[0], parse) == "";
    }
  }

  /**
   * Producer/consumer round trip: however the framed stream is cut into
   * chunks, the page's response is the concatenation of the contents the
   * backend emitted, and error records contribute nothing.
   */
  lemma {:induction false} RoundTrip(outs: seq<Out>, enc: Encoder, parse: Parser, chunks: seq<string>)
    requires Compatible(enc, parse)
    requires Concat(chunks) == Framed(outs, enc)
    ensures StreamText(chunks, parse) == Concat(OutContents(outs))
  {
    StreamTextChunkIndependent(chunks, parse);
    FramedIsTerminated(outs, enc);
    FrameLinesNoNewline(outs, enc);
    TerminatedRoundTrip(FrameLines(outs, enc), "");
    assert Terminated(FrameLines(outs, enc)) + "" == Framed(outs, enc);
    FrameLinesContents(outs, enc, parse);
  }

  /** End to end for Llama: the page shows exactly the generated text. */
  lemma {:induction false} LlamaEndToEnd(text: string, enc: Encoder, parse: Parser, chunks: seq<string>)
    requires Compatible(enc, parse)
    requires Concat(chunks) == Framed(LlamaStream(true, Generated(text)), enc)
    ensures StreamText(chunks, parse) == text
  {
    RoundTrip(LlamaStream(true, Generated(text)), enc, parse, chunks);
  }

  /** End to end for DeepSeek: the page shows the upstream delta contents up to `[DONE]`. */
  lemma {:induction false} DeepSeekEndToEnd(up: Upstream, decode: string -> Delta, enc: Encoder, parse: Parser, chunks: seq<string>)
    requires Compatible(enc, parse)
    requires NoMalformed(up.lines, decode)
    requires Concat(chunks) == Framed(DeepSeekStream(true, up, decode), enc)
    ensures StreamText(chunks, parse) == Concat(DeltaContents(up.lines, decode))
  {
    RoundTrip(DeepSeekStream(true, up, decode), enc, parse, chunks);
    ReframeForwardsDeltas(up, decode);
  }
}

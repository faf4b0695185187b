/**
 * The record loop of the streamed-response consumer: only lines that start
 * with `data: ` are records, their body is parsed as JSON (an abstract
 * parser here), and a truthy `content` field is appended to the response.
 * Parse failures and `{error}` records fall into the same swallowing
 * `catch`, so both leave the response unchanged and the loop keeps going.
 */
module Records {
  import opened Wrappers
  import opened Strings
  import opened Lines

  /** The `content` and `error` fields of a parsed record, when present. */
  datatype Record = Record(content: Option<string>, error: Option<string>)

  /** The JSON parser, as seen by the loop: None when `JSON.parse` throws or yields a non-object. */
  type Parser = string -> Option<Record>

  const DataPrefix: string := "data: "

  /** The body of a record line (`line.slice(6)`), or None for a line that is not a record. */
  function Payload(line: string): (p: Option<string>)
    ensures p.Some? <==> StartsWith(line, DataPrefix)
    ensures p.Some? ==> DataPrefix + p.value == line
  {
    if StartsWith(line, DataPrefix) then Some(line[|DataPrefix|..]) else None
  }

  /** A record line is recognised again from its body. */
  lemma {:induction false} PayloadOfRecordLine(body: string)
    ensures Payload(DataPrefix + body) == Some(body)
  {
    assert (DataPrefix + body)[..|DataPrefix|] == DataPrefix;
    assert (DataPrefix + body)[|DataPrefix|..] == body;
  }

  /** What one line adds to the response: the truthy content of its record, else nothing. */
  function LineContent(line: string, parse: Parser): string {
    match Payload(line)
    case None => ""
    case Some(body) =>
      match parse(body)
      case Some(Record(Some(c), _)) => c
      case _ => ""
  }

  /** A line that does not start with `data: ` adds nothing. */
  lemma {:induction false} NonRecordLineIgnored(line: string, parse: Parser)
    requires !StartsWith(line, DataPrefix)
    ensures LineContent(line, parse) == ""
  {
  }

  /** A record whose body does not parse adds nothing. */
  lemma {:induction false} ParseFailureSkipped(body: string, parse: Parser)
    requires parse(body) == None
    ensures LineContent(DataPrefix + body, parse) == ""
  {
    PayloadOfRecordLine(body);
  }

  /** An `{error}` record is thrown and caught by the loop's own `catch`: it adds nothing. */
  lemma {:induction false} ErrorRecordSwallowed(body: string, message: string, parse: Parser)
    requires parse(body) == Some(Record(None, Some(message)))
    ensures LineContent(DataPrefix + body, parse) == ""
  {
    PayloadOfRecordLine(body);
  }

  /** A record with content adds exactly that content, whatever its `error` field says. */
  lemma {:induction false} ContentRecordAppends(body: string, c: string, err: Option<string>, parse: Parser)
    requires parse(body) == Some(Record(Some(c), err))
    ensures LineContent(DataPrefix + body, parse) == c
  {
    PayloadOfRecordLine(body);
  }

  /** The response after the record loop has run over `lines`, starting from `acc`. */
  function Accumulate(acc: string, lines: seq<string>, parse: Parser): (r: string)
    ensures acc <= r
    decreases |lines|
  {
    if |lines| == 0 then acc else Accumulate(acc + LineContent(lines[0], parse), lines[1..], parse)
  }

  /** The truthy contents carried by `lines`, in arrival order. */
  function Contents(lines: seq<string>, parse: Parser): (cs: seq<string>)
    ensures |cs| <= |lines|
    ensures forall i | 0 <= i < |cs| :: cs[i] != ""
  {
    if |lines| == 0 then []
    else if LineContent(lines[0], parse) == "" then Contents(lines[1..], parse)
    else [LineContent(lines[0], parse)] + Contents(lines[1..], parse)
  }

  /** The response is the starting text followed by every truthy content, in arrival order. */
  lemma {:induction false} AccumulateIsConcat(acc: string, lines: seq<string>, parse: Parser)
    ensures Accumulate(acc, lines, parse) == acc + Concat(Contents(lines, parse))
    decreases |lines|
  {
    if |lines| > 0 {
      var c := LineContent(lines[0], parse);
      AccumulateIsConcat(acc + c, lines[1..], parse);
      if c == "" {
        assert acc + c == acc;
      }
    }
  }

  /** The response produced by a stream cut into `chunks`. */
  function StreamText(chunks: seq<string>, parse: Parser): string {
    Accumulate("", FeedAll(Fresh, chunks).lines, parse)
  }

  /** The response depends only on the decoded text, never on how it was cut into chunks. */
  lemma {:induction false} StreamTextChunkIndependent(chunks: seq<string>, parse: Parser)
    ensures StreamText(chunks, parse) == Concat(Contents(CompleteLines(Concat(chunks)), parse))
  {
    ChunkIndependence(chunks);
    AccumulateIsConcat("", CompleteLines(Concat(chunks)), parse);
  }

  /**
   * A last line with no newline after it is never read: the stream gives the
   * same response as the same stream without that fragment.
   */
  lemma {:induction false} TrailingFragmentIgnored(chunks: seq<string>, text: string, tail: string, parse: Parser)
    requires Concat(chunks) == text + tail
    requires text == "" || text[|text| - 1] == '\n'
    requires NoNewline(tail)
    ensures StreamText(chunks, parse) == StreamText([text], parse)
  {
    StreamTextChunkIndependent(chunks, parse);
    StreamTextChunkIndependent([text], parse);
    assert Concat([text]) == text;
    FragmentAddsNoLines(text, tail);
  }

  /** `Math.min(90, 10 + (length / 1000) * 80)`: the progress shown while a response streams in. */
  function Progress(length: nat): (p: real)
    ensures 10.0 <= p <= 90.0
    ensures p == 90.0 <==> length >= 1000
  {
    var raw := 10.0 + (length as real / 1000.0) * 80.0;
    if raw < 90.0 then raw else 90.0
  }

  /** A longer response never shows less progress. */
  lemma {:induction false} ProgressMonotone(a: nat, b: nat)
    requires a <= b
    ensures Progress(a) <= Progress(b)
  {
  }
}

/**
 * The line framing of the streamed-response loop shared by every comparison
 * page: decoded chunks are appended to a buffer, the buffer is split on '\n',
 * every piece but the last is handed to the record loop, and the last piece
 * becomes the new buffer. The buffer is never flushed when the stream ends.
 */
module Lines {
  import opened Strings

  predicate NoNewline(s: string) {
    forall i | 0 <= i < |s| :: s[i] != '\n'
  }

  lemma {:induction false} NoNewlineAppend(x: string, y: string)
    requires NoNewline(x) && NoNewline(y)
    ensures NoNewline(x + y)
  {
    forall i | 0 <= i < |x + y| ensures (x + y)[i] != '\n' {
      if i >= |x| {
        assert (x + y)[i] == y[i - |x|];
      }
    }
  }

  lemma {:induction false} SliceNoNewline(s: string, a: nat, b: nat)
    requires a <= b <= |s| && NoNewline(s)
    ensures NoNewline(s[a..b])
  {
    forall i | 0 <= i < b - a ensures s[a..b][i] != '\n' {
      assert s[a..b][i] == s[a + i];
    }
  }

  /** Index of the first '\n' in `s`, or `|s|` when there is none. */
  function NewlineIndex(s: string): (k: nat)
    ensures k <= |s|
    ensures forall i | 0 <= i < k :: s[i] != '\n'
    ensures k < |s| ==> s[k] == '\n'
    decreases |s|
  {
    if |s| == 0 || s[0] == '\n' then 0 else 1 + NewlineIndex(s[1..])
  }

  /** JavaScript's `s.split('\n')`: always at least one piece, none holding a newline. */
  function SplitLines(s: string): (pieces: seq<string>)
    ensures |pieces| >= 1
    ensures forall i | 0 <= i < |pieces| :: NoNewline(pieces[i])
    decreases |s|
  {
    var k := NewlineIndex(s);
    if k == |s| then [s] else [s[..k]] + SplitLines(s[k + 1..])
  }

  function JoinLines(ls: seq<string>): string {
    JoinWith(ls, "\n")
  }

  /** Splitting and joining again gives back the text. */
  lemma {:induction false} SplitThenJoin(s: string)
    ensures JoinLines(SplitLines(s)) == s
    decreases |s|
  {
    var k := NewlineIndex(s);
    if k < |s| {
      var rest := s[k + 1..];
      SplitThenJoin(rest);
      assert s == s[..k] + "\n" + rest;
    }
  }

  /** Joining newline-free pieces and splitting again gives back the pieces. */
  lemma {:induction false} JoinThenSplit(ls: seq<string>)
    requires |ls| >= 1
    requires forall i | 0 <= i < |ls| :: NoNewline(ls[i])
    ensures SplitLines(JoinLines(ls)) == ls
  {
    if |ls| > 1 {
      var s := JoinLines(ls);
      var x := ls[0];
      assert s == x + "\n" + JoinLines(ls[1..]);
      assert s[..|x|] == x;
      assert s[|x| + 1..] == JoinLines(ls[1..]);
      assert NewlineIndex(s) == |x| by {
        NewlineIndexAt(s, |x|);
      }
      JoinThenSplit(ls[1..]);
    } else {
      assert NewlineIndex(ls[0]) == |ls[0]| by {
        NewlineIndexAt(ls[0], |ls[0]|);
      }
    }
  }

  lemma {:induction false} NewlineIndexAt(s: string, k: nat)
    requires k <= |s|
    requires forall i | 0 <= i < k :: s[i] != '\n'
    requires k < |s| ==> s[k] == '\n'
    ensures NewlineIndex(s) == k
    decreases k
  {
    if k > 0 {
      NewlineIndexAt(s[1..], k - 1);
    }
  }

  /** The complete (newline-terminated) lines of `s`, in order. */
  function CompleteLines(s: string): (ls: seq<string>)
    ensures forall i | 0 <= i < |ls| :: NoNewline(ls[i])
    decreases |s|
  {
    var k := NewlineIndex(s);
    if k == |s| then [] else [s[..k]] + CompleteLines(s[k + 1..])
  }

  /** The text after the last newline of `s`: what stays in the buffer. */
  function Unterminated(s: string): (u: string)
    ensures NoNewline(u)
    decreases |s|
  {
    var k := NewlineIndex(s);
    if k == |s| then s else Unterminated(s[k + 1..])
  }

  /** `split('\n')` followed by `pop()` separates the complete lines from the unterminated tail. */
  lemma {:induction false} SplitPop(s: string)
    ensures SplitLines(s) == CompleteLines(s) + [Unterminated(s)]
    decreases |s|
  {
    var k := NewlineIndex(s);
    if k < |s| {
      SplitPop(s[k + 1..]);
    }
  }

  /** Each line followed by the newline that ended it. */
  function Terminated(ls: seq<string>): string {
    if |ls| == 0 then "" else ls[0] + "\n" + Terminated(ls[1..])
  }

  /**
   * The record loop sees exactly the text up to and including the last
   * newline; what follows it is left in the buffer and is never processed.
   */
  lemma {:induction false} UnterminatedTailNeverProcessed(s: string)
    ensures Terminated(CompleteLines(s)) + Unterminated(s) == s
    decreases |s|
  {
    var k := NewlineIndex(s);
    if k < |s| {
      var rest := s[k + 1..];
      LinesAt(s, k);
      TerminatedCons(s[..k], CompleteLines(rest));
      UnterminatedTailNeverProcessed(rest);
      CutAt(s, k);
    } else {
      NoLines(s);
    }
  }

  /** A text is its part before position `k`, the character there, and the rest. */
  lemma {:induction false} CutAt(s: string, k: nat)
    requires k < |s|
    ensures s == s[..k] + [s[k]] + s[k + 1..]
  {
  }

  lemma {:induction false} TerminatedCons(x: string, ls: seq<string>)
    ensures Terminated([x] + ls) == x + "\n" + Terminated(ls)
  {
    assert ([x] + ls)[0] == x && ([x] + ls)[1..] == ls;
  }

  /** The buffer is left empty exactly when the text is empty or ends with a newline. */
  lemma {:induction false} UnterminatedEmpty(s: string)
    ensures Unterminated(s) == "" <==> (s == "" || s[|s| - 1] == '\n')
  {
    UnterminatedTailNeverProcessed(s);
    var t := Terminated(CompleteLines(s));
    var u := Unterminated(s);
    if u == "" && s != "" {
      assert t == s;
      TerminatedEndsInNewline(CompleteLines(s));
    }
  }

  lemma {:induction false} TerminatedEndsInNewline(ls: seq<string>)
    ensures Terminated(ls) == "" || Terminated(ls)[|Terminated(ls)| - 1] == '\n'
  {
    if |ls| > 0 {
      TerminatedEndsInNewline(ls[1..]);
      var rest := Terminated(ls[1..]);
      if rest != "" {
        assert Terminated(ls)[|Terminated(ls)| - 1] == rest[|rest| - 1];
      }
    }
  }

  /** Newline-free lines, each terminated, followed by a newline-free tail, split back into those lines and that tail. */
  lemma {:induction false} TerminatedRoundTrip(ls: seq<string>, u: string)
    requires forall i | 0 <= i < |ls| :: NoNewline(ls[i])
    requires NoNewline(u)
    ensures CompleteLines(Terminated(ls) + u) == ls
    ensures Unterminated(Terminated(ls) + u) == u
    decreases |ls|
  {
    if |ls| == 0 {
      assert Terminated(ls) + u == u;
      NewlineIndexAt(u, |u|);
    } else {
      var s := Terminated(ls) + u;
      var rest := Terminated(ls[1..]) + u;
      assert s == ls[0] + "\n" + rest;
      NewlineIndexAt(s, |ls[0]|);
      assert s[..|ls[0]|] == ls[0];
      assert s[|ls[0]| + 1..] == rest;
      TerminatedRoundTrip(ls[1..], u);
    }
  }

  /** A fragment with no newline, after newline-terminated text, completes no line. */
  lemma {:induction false} FragmentAddsNoLines(text: string, tail: string)
    requires text == "" || text[|text| - 1] == '\n'
    requires NoNewline(tail)
    ensures CompleteLines(text + tail) == CompleteLines(text)
    ensures Unterminated(text + tail) == tail
  {
    AppendLines(text, tail);
    UnterminatedEmpty(text);
    assert Unterminated(text) + tail == tail;
    NewlineIndexAt(tail, |tail|);
    assert CompleteLines(text) + [] == CompleteLines(text);
  }

  /** Appending text only changes the lines from the old unterminated tail onwards. */
  lemma {:induction false} AppendLines(a: string, c: string)
    ensures CompleteLines(a + c) == CompleteLines(a) + CompleteLines(Unterminated(a) + c)
    ensures Unterminated(a + c) == Unterminated(Unterminated(a) + c)
  {
    AppendComplete(a, c);
    AppendUnterminated(a, c);
  }

  lemma {:induction false} AppendComplete(a: string, c: string)
    ensures CompleteLines(a + c) == CompleteLines(a) + CompleteLines(Unterminated(a) + c)
    decreases |a|
  {
    var k := NewlineIndex(a);
    if k < |a| {
      var rest := a[k + 1..];
      LinesAt(a, k);
      assert (a + c)[..k] == a[..k] && (a + c)[k + 1..] == rest + c;
      LinesAt(a + c, k);
      AppendComplete(rest, c);
    } else {
      NoLines(a);
    }
  }

  lemma {:induction false} AppendUnterminated(a: string, c: string)
    ensures Unterminated(a + c) == Unterminated(Unterminated(a) + c)
    decreases |a|
  {
    var k := NewlineIndex(a);
    if k < |a| {
      var rest := a[k + 1..];
      LinesAt(a, k);
      assert (a + c)[..k] == a[..k] && (a + c)[k + 1..] == rest + c;
      LinesAt(a + c, k);
      AppendUnterminated(rest, c);
    } else {
      NoLines(a);
    }
  }

  /** A text whose first newline is at `k` starts with the line before it. */
  lemma {:induction false} LinesAt(s: string, k: nat)
    requires k < |s| && s[k] == '\n' && forall i | 0 <= i < k :: s[i] != '\n'
    ensures CompleteLines(s) == [s[..k]] + CompleteLines(s[k + 1..])
    ensures Unterminated(s) == Unterminated(s[k + 1..])
  {
    CompleteAt(s, k);
    UnterminatedAt(s, k);
  }

  lemma {:induction false} CompleteAt(s: string, k: nat)
    requires k < |s| && s[k] == '\n' && forall i | 0 <= i < k :: s[i] != '\n'
    ensures CompleteLines(s) == [s[..k]] + CompleteLines(s[k + 1..])
  {
    NewlineIndexAt(s, k);
  }

  lemma {:induction false} UnterminatedAt(s: string, k: nat)
    requires k < |s| && s[k] == '\n' && forall i | 0 <= i < k :: s[i] != '\n'
    ensures Unterminated(s) == Unterminated(s[k + 1..])
  {
    NewlineIndexAt(s, k);
  }

  lemma {:induction false} NoLines(s: string)
    requires NoNewline(s)
    ensures CompleteLines(s) == [] && Unterminated(s) == s
  {
    NewlineIndexAt(s, |s|);
  }

  /** What the reading loop has handed to the record loop so far, and its buffer. */
  datatype Reader = Reader(lines: seq<string>, buffer: string)

  /** One turn of the reading loop: `buffer += chunk; lines = buffer.split('\n'); buffer = lines.pop()`. */
  function Feed(r: Reader, chunk: string): (r': Reader)
    ensures r.lines <= r'.lines && NoNewline(r'.buffer)
    ensures forall i | |r.lines| <= i < |r'.lines| :: NoNewline(r'.lines[i])
  {
    var pieces := SplitLines(r.buffer + chunk);
    Reader(r.lines + pieces[..|pieces| - 1], pieces[|pieces| - 1])
  }

  function FeedAll(r: Reader, chunks: seq<string>): (r': Reader)
    ensures r.lines <= r'.lines
    ensures |chunks| > 0 ==> NoNewline(r'.buffer)
    ensures forall i | |r.lines| <= i < |r'.lines| :: NoNewline(r'.lines[i])
    decreases |chunks|
  {
    if |chunks| == 0 then r else FeedAll(Feed(r, chunks[0]), chunks[1..])
  }

  const Fresh := Reader([], "")

  /** One turn of the loop on a buffer that is the tail of `a` moves the reader to `a + c`. */
  lemma {:induction false} FeedStep(a: string, c: string)
    ensures Feed(Reader(CompleteLines(a), Unterminated(a)), c)
         == Reader(CompleteLines(a + c), Unterminated(a + c))
  {
    AppendLines(a, c);
    var b := Unterminated(a) + c;
    SplitPop(b);
    var pieces := SplitLines(b);
    assert pieces[..|pieces| - 1] == CompleteLines(b);
  }

  lemma {:induction false} FeedAllFrom(a: string, chunks: seq<string>)
    ensures FeedAll(Reader(CompleteLines(a), Unterminated(a)), chunks)
         == Reader(CompleteLines(a + Concat(chunks)), Unterminated(a + Concat(chunks)))
    decreases |chunks|
  {
    if |chunks| == 0 {
      assert a + Concat(chunks) == a;
    } else {
      var c, rest := chunks[0], chunks[1..];
      var t := a + Concat(chunks);
      assert t == (a + c) + Concat(rest);
      FeedStep(a, c);
      assert FeedAll(Reader(CompleteLines(a), Unterminated(a)), chunks)
          == FeedAll(Reader(CompleteLines(a + c), Unterminated(a + c)), rest);
      FeedAllFrom(a + c, rest);
    }
  }

  /**
   * However the decoded text is cut into chunks, the reading loop hands the
   * same lines to the record loop and keeps the same buffer: the complete
   * lines and the unterminated tail of the concatenated text.
   */
  lemma {:induction false} ChunkIndependence(chunks: seq<string>)
    ensures FeedAll(Fresh, chunks) == Reader(CompleteLines(Concat(chunks)), Unterminated(Concat(chunks)))
  {
    assert Reader(CompleteLines(""), Unterminated("")) == Fresh;
    FeedAllFrom("", chunks);
    assert "" + Concat(chunks) == Concat(chunks);
  }

  /** Two chunkings of the same text are indistinguishable to the record loop. */
  lemma {:induction false} SameTextSameLines(c1: seq<string>, c2: seq<string>)
    requires Concat(c1) == Concat(c2)
    ensures FeedAll(Fresh, c1) == FeedAll(Fresh, c2)
  {
    ChunkIndependence(c1);
    ChunkIndependence(c2);
  }
}

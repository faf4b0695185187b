/**
 * String helpers shared by the frontend (TypeScript) and backend (Python)
 * models: the two languages' whitespace sets, trimming, splitting into words,
 * prefix and infix tests, joining, and decimal rendering of naturals.
 */
module Strings {

  /** JavaScript WhiteSpace and LineTerminator code points: what `trim()` strips and `\s` matches. */
  predicate JsSpace(c: char) {
    || c == ' ' || c == '\t' || c == '\n' || c == '\r' || c == '\U{000B}' || c == '\U{000C}'
    || c == '\U{00A0}' || c == '\U{1680}' || ('\U{2000}' <= c <= '\U{200A}')
    || c == '\U{2028}' || c == '\U{2029}' || c == '\U{202F}' || c == '\U{205F}'
    || c == '\U{3000}' || c == '\U{FEFF}'
  }

  /** Python `str.isspace()`: what `strip()` removes and `split()` separates on. */
  predicate PySpace(c: char) {
    || c == ' ' || c == '\t' || c == '\n' || c == '\r' || c == '\U{000B}' || c == '\U{000C}'
    || ('\U{001C}' <= c <= '\U{001F}') || c == '\U{0085}' || c == '\U{00A0}' || c == '\U{1680}'
    || ('\U{2000}' <= c <= '\U{200A}') || c == '\U{2028}' || c == '\U{2029}' || c == '\U{202F}'
    || c == '\U{205F}' || c == '\U{3000}'
  }

  /** Every character of `s` satisfies `sp`; with `JsSpace` this is `!s.trim()`. */
  predicate AllSpace(s: string, sp: char -> bool) {
    forall i | 0 <= i < |s| :: sp(s[i])
  }

  function TrimStart(s: string, sp: char -> bool): (r: string)
    ensures |r| <= |s| && r == s[|s| - |r|..]
    ensures forall i | 0 <= i < |s| - |r| :: sp(s[i])
    ensures |r| > 0 ==> !sp(r[0])
    decreases |s|
  {
    if |s| > 0 && sp(s[0]) then TrimStart(s[1..], sp) else s
  }

  function TrimEnd(s: string, sp: char -> bool): (r: string)
    ensures |r| <= |s| && r == s[..|r|]
    ensures forall i | |r| <= i < |s| :: sp(s[i])
    ensures |r| > 0 ==> !sp(r[|r| - 1])
    decreases |s|
  {
    if |s| > 0 && sp(s[|s| - 1]) then TrimEnd(s[..|s| - 1], sp) else s
  }

  /** Number of characters `Trim` removes from the front. */
  function TrimOffset(s: string, sp: char -> bool): nat
    ensures TrimOffset(s, sp) <= |s|
  {
    |s| - |TrimStart(s, sp)|
  }

  /** `trim()` / `strip()`: the infix of `s` left after removing `sp` characters at both ends. */
  function Trim(s: string, sp: char -> bool): (r: string)
    ensures TrimOffset(s, sp) + |r| <= |s|
    ensures r == s[TrimOffset(s, sp)..TrimOffset(s, sp) + |r|]
    ensures r == "" <==> AllSpace(s, sp)
    ensures |r| > 0 ==> !sp(r[0]) && !sp(r[|r| - 1])
  {
    var t := TrimStart(s, sp);
    var r := TrimEnd(t, sp);
    var k := |s| - |t|;
    assert r == s[k..][..|r|];
    assert r == "" ==> |t| == 0 by {
      assert |t| > 0 ==> !sp(t[0]);
    }
    assert r != "" ==> !AllSpace(s, sp) by {
      if r != "" {
        assert r[0] == s[k];
      }
    }
    r
  }

  /** Trimming twice is trimming once. */
  lemma {:induction false} TrimIdempotent(s: string, sp: char -> bool)
    ensures Trim(Trim(s, sp), sp) == Trim(s, sp)
  {
    var r := Trim(s, sp);
    if |r| > 0 {
      assert TrimStart(r, sp) == r;
      assert TrimEnd(r, sp) == r;
    }
  }

  /** Length of the leading run of non-`sp` characters. */
  function RunLen(s: string, sp: char -> bool): (n: nat)
    ensures n <= |s|
    ensures forall i | 0 <= i < n :: !sp(s[i])
    ensures n < |s| ==> sp(s[n])
    decreases |s|
  {
    if |s| == 0 || sp(s[0]) then 0 else 1 + RunLen(s[1..], sp)
  }

  /** A word followed by a separator is the first of the text's words. */
  lemma {:induction false} FirstWordOf(w: string, rest: string, sp: char -> bool)
    requires |w| > 0 && forall i | 0 <= i < |w| :: !sp(w[i])
    requires |rest| > 0 && sp(rest[0])
    ensures var ws := Words(w + rest, sp); |ws| > 0 && ws[0] == w
  {
    var s := w + rest;
    assert s[|w|] == rest[0];
    assert RunLen(s, sp) == |w| by {
      assert forall i | 0 <= i < |w| :: s[i] == w[i];
      RunLenAt(s, sp, |w|);
    }
    assert s[..|w|] == w;
  }

  lemma {:induction false} RunLenAt(s: string, sp: char -> bool, n: nat)
    requires n < |s| && sp(s[n]) && forall i | 0 <= i < n :: !sp(s[i])
    ensures RunLen(s, sp) == n
  {
    if n > 0 {
      RunLenAt(s[1..], sp, n - 1);
    }
  }

  /**
   * The maximal runs of non-`sp` characters, in order: JavaScript's
   * `s.trim().split(/\s+/).filter(Boolean)` and Python's `s.split()`.
   */
  function Words(s: string, sp: char -> bool): (ws: seq<string>)
    ensures |ws| <= |s|
    ensures forall i | 0 <= i < |ws| :: |ws[i]| > 0 && !HasSpace(ws[i], sp)
    decreases |s|
  {
    if |s| == 0 then []
    else if sp(s[0]) then Words(s[1..], sp)
    else
      var n := RunLen(s, sp);
      [s[..n]] + Words(s[n..], sp)
  }

  predicate HasSpace(s: string, sp: char -> bool) {
    exists i | 0 <= i < |s| :: sp(s[i])
  }

  /** The characters of `s` that are not `sp`, in order. */
  function NonSpace(s: string, sp: char -> bool): string {
    if |s| == 0 then ""
    else if sp(s[0]) then NonSpace(s[1..], sp)
    else [s[0]] + NonSpace(s[1..], sp)
  }

  function Concat(ss: seq<string>): string {
    if |ss| == 0 then "" else ss[0] + Concat(ss[1..])
  }

  lemma {:induction false} AppendAssoc<T>(x: seq<T>, y: seq<T>, z: seq<T>)
    ensures x + (y + z) == (x + y) + z
  {
  }

  lemma {:induction false} ConcatAppend(a: seq<string>, b: seq<string>)
    ensures Concat(a + b) == Concat(a) + Concat(b)
  {
    if |a| == 0 {
      assert a + b == b;
    } else {
      assert (a + b)[1..] == a[1..] + b;
      ConcatAppend(a[1..], b);
    }
  }

  /** Splitting into words loses exactly the whitespace: the words concatenate to the non-space characters. */
  lemma {:induction false} WordsCoverNonSpace(s: string, sp: char -> bool)
    ensures Concat(Words(s, sp)) == NonSpace(s, sp)
    decreases |s|
  {
    if |s| == 0 {
    } else if sp(s[0]) {
      WordsCoverNonSpace(s[1..], sp);
    } else {
      var n := RunLen(s, sp);
      WordsCoverNonSpace(s[n..], sp);
      NonSpaceOfRun(s, n, sp);
    }
  }

  lemma {:induction false} NonSpaceOfRun(s: string, n: nat, sp: char -> bool)
    requires n <= |s|
    requires forall i | 0 <= i < n :: !sp(s[i])
    ensures NonSpace(s, sp) == s[..n] + NonSpace(s[n..], sp)
    decreases n
  {
    if n > 0 {
      NonSpaceOfRun(s[1..], n - 1, sp);
      assert s[1..][n - 1..] == s[n..];
      assert [s[0]] + s[1..][..n - 1] == s[..n];
    }
  }

  predicate StartsWith(s: string, p: string) {
    |p| <= |s| && s[..|p|] == p
  }

  predicate EndsWith(s: string, p: string) {
    |p| <= |s| && s[|s| - |p|..] == p
  }

  /** A text framed by a head and a tail starts with the head, ends with the tail, and holds the middle between them. */
  lemma {:induction false} FrameParts(h: string, m: string, t: string)
    ensures var p := h + m + t;
            && |p| == |h| + |m| + |t|
            && StartsWith(p, h) && EndsWith(p, t) && p[|h|..|p| - |t|] == m
  {
    var p := h + m + t;
    assert p[..|h|] == h;
    assert p[|p| - |t|..] == t;
    assert p[|h|..|p| - |t|] == m;
  }

  /** Python's `needle in hay` / JavaScript's `hay.includes(needle)`. */
  predicate Contains(hay: string, needle: string)
    decreases |hay|
  {
    StartsWith(hay, needle) || (|hay| > 0 && Contains(hay[1..], needle))
  }

  lemma {:induction false} ContainsAt(hay: string, needle: string, i: nat)
    requires i <= |hay| && StartsWith(hay[i..], needle)
    ensures Contains(hay, needle)
    decreases i
  {
    if i > 0 {
      assert hay[1..][i - 1..] == hay[i..];
      ContainsAt(hay[1..], needle, i - 1);
    }
  }

  /** `ss.join(sep)` in both languages. */
  function JoinWith(ss: seq<string>, sep: string): string {
    if |ss| == 0 then ""
    else if |ss| == 1 then ss[0]
    else ss[0] + sep + JoinWith(ss[1..], sep)
  }

  predicate IsDigit(c: char) {
    '0' <= c <= '9'
  }

  predicate AllDigits(s: string) {
    forall i | 0 <= i < |s| :: IsDigit(s[i])
  }

  function DigitChar(d: nat): char
    requires d < 10
  {
    "0123456789"[d]
  }

  /** Decimal value of a string of ASCII digits (Python `int`, JavaScript `Number`). */
  function DigitsValue(s: string): nat
    requires AllDigits(s)
  {
    if |s| == 0 then 0
    else DigitsValue(s[..|s| - 1]) * 10 + ((s[|s| - 1] as int - '0' as int) as nat)
  }

  /** Decimal rendering of a natural, as `${n}` and `str(n)` print it. */
  function NatToString(n: nat): (r: string)
    ensures |r| >= 1 && AllDigits(r)
    ensures r[0] == '0' ==> r == "0"
  {
    if n < 10 then [DigitChar(n)] else NatToString(n / 10) + [DigitChar(n % 10)]
  }

  /** Rendering a natural and reading it back gives the natural. */
  lemma {:induction false} NatToStringRoundTrip(n: nat)
    ensures DigitsValue(NatToString(n)) == n
  {
    if n >= 10 {
      NatToStringRoundTrip(n / 10);
      var r := NatToString(n);
      assert r[..|r| - 1] == NatToString(n / 10);
    }
  }

  /** Lower-cases the ASCII letters A-Z and leaves every other character as it is. */
  function AsciiLower(s: string): (r: string)
    ensures |r| == |s|
    ensures forall i | 0 <= i < |s| :: r[i] == (if 'A' <= s[i] <= 'Z' then (s[i] as int + 32) as char else s[i])
  {
    seq(|s|, i requires 0 <= i < |s| => LowerChar(s[i]))
  }

  function LowerChar(c: char): char {
    if 'A' <= c <= 'Z' then (c as int + 32) as char else c
  }
}

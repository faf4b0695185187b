/**
 * The command-line client's argument parser: each `key=value` token becomes
 * one entry of the tool's argument object, with booleans and naturals
 * recognised, surrounding double quotes removed, and a bare token taken as
 * a flag set to true.
 */
module CliArgs {
  import opened Wrappers
  import opened Strings

  datatype Value = Flag(b: bool) | Number(n: nat) | Text(s: string)

  /** The position of the first `=` in `s`, if any. */
  function FirstEq(s: string): (r: Option<nat>)
    ensures r.None? <==> '=' !in s
    ensures r.Some? ==> r.value < |s| && s[r.value] == '=' && '=' !in s[..r.value]
  {
    if |s| == 0 then None
    else if s[0] == '=' then Some(0)
    else match FirstEq(s[1..])
      case None => None
      case Some(i) =>
        assert s[..i + 1] == [s[0]] + s[1..][..i];
        Some(i + 1)
  }

  /** Drops one double quote at each end when the value both starts and ends with one. */
  function Unquote(v: string): (r: string)
    ensures |r| <= |v|
  {
    if StartsWith(v, "\"") && EndsWith(v, "\"") then
      if |v| >= 2 then v[1..|v| - 1] else ""
    else v
  }

  /** `true`/`false` in any letter case, then a non-empty run of ASCII digits, then the text itself. */
  function Convert(v: string): (r: Value)
    ensures r.Flag? <==> AsciiLower(v) == "true" || AsciiLower(v) == "false"
    ensures r.Flag? ==> (r.b <==> AsciiLower(v) == "true")
    ensures r.Number? <==> !r.Flag? && |v| > 0 && AllDigits(v)
    ensures r.Text? ==> r.s == v
  {
    if AsciiLower(v) == "true" then Flag(true)
    else if AsciiLower(v) == "false" then Flag(false)
    else if |v| > 0 && AllDigits(v) then Number(DigitsValue(v))
    else Text(v)
  }

  /** A natural written in decimal converts back to that number. */
  lemma {:induction false} ConvertNumber(n: nat)
    ensures Convert(NatToString(n)) == Number(n)
  {
    var r := NatToString(n);
    NatToStringRoundTrip(n);
    assert IsDigit(r[0]);
    assert AsciiLower(r)[0] == r[0];
    assert AsciiLower(r) != "true" && AsciiLower(r) != "false";
  }

  function ParseValue(raw: string): Value {
    Convert(Unquote(Trim(raw, PySpace)))
  }

  /**
   * One token: split at the first `=`, both sides stripped; a token with
   * no `=` is a flag named by the whole token.
   */
  function ParseToken(s: string): (kv: (string, Value))
    ensures '=' !in s ==> kv == (s, Flag(true))
    ensures '=' in s ==> '=' !in kv.0
  {
    match FirstEq(s)
    case None => (s, Flag(true))
    case Some(i) =>
      var k := Trim(s[..i], PySpace);
      assert forall j | 0 <= j < |k| :: k[j] in s[..i];
      (k, ParseValue(s[i + 1..]))
  }

  /** Pairs entered into a dictionary in order, a later pair overwriting an earlier one's key. */
  function Collect<K(==), V>(kvs: seq<(K, V)>): map<K, V>
  {
    if |kvs| == 0 then map[]
    else Collect(kvs[..|kvs| - 1])[kvs[|kvs| - 1].0 := kvs[|kvs| - 1].1]
  }

  /** Pair `i` is the last one with its key. */
  predicate LastWithKey<K(==), V>(kvs: seq<(K, V)>, i: nat)
    requires i < |kvs|
  {
    forall j | i < j < |kvs| :: kvs[j].0 != kvs[i].0
  }

  /** The keys are exactly the pairs' keys. */
  lemma {:induction false} CollectKeys<K, V>(kvs: seq<(K, V)>)
    ensures forall i | 0 <= i < |kvs| :: kvs[i].0 in Collect(kvs)
    ensures forall k | k in Collect(kvs) :: exists i | 0 <= i < |kvs| :: kvs[i].0 == k
  {
    if |kvs| > 0 {
      var init := kvs[..|kvs| - 1];
      CollectKeys(init);
      forall k | k in Collect(kvs)
        ensures exists i | 0 <= i < |kvs| :: kvs[i].0 == k
      {
        if k != kvs[|kvs| - 1].0 {
          assert k in Collect(init);
          var i :| 0 <= i < |init| && init[i].0 == k;
          assert kvs[i].0 == k;
        }
      }
    }
  }

  /** Each key holds the value of the last pair that names it. */
  lemma {:induction false} CollectLastWins<K, V>(kvs: seq<(K, V)>)
    ensures forall i | 0 <= i < |kvs| && LastWithKey(kvs, i) :: kvs[i].0 in Collect(kvs) && Collect(kvs)[kvs[i].0] == kvs[i].1
  {
    if |kvs| > 0 {
      var init := kvs[..|kvs| - 1];
      CollectLastWins(init);
      forall i | 0 <= i < |kvs| && LastWithKey(kvs, i)
        ensures kvs[i].0 in Collect(kvs) && Collect(kvs)[kvs[i].0] == kvs[i].1
      {
        if i < |kvs| - 1 {
          assert LastWithKey(init, i) by {
            forall j | i < j < |init|
              ensures init[j].0 != init[i].0
            {
              assert init[j] == kvs[j];
            }
          }
        }
      }
    }
  }

  function Tokens(args: seq<string>): (kvs: seq<(string, Value)>)
    ensures |kvs| == |args|
    ensures forall i | 0 <= i < |args| :: kvs[i] == ParseToken(args[i])
  {
    seq(|args|, i requires 0 <= i < |args| => ParseToken(args[i]))
  }

  /** `_parse_args`: the tokens in order, each later token overwriting an earlier one's key. */
  function ParseArgs(args: seq<string>): (out: map<string, Value>)
  {
    Collect(Tokens(args))
  }

  /**
   * The keys are exactly the tokens' keys, and each key holds the value of
   * the last token that names it.
   */
  lemma {:induction false} ParseArgsLastWins(args: seq<string>)
    ensures forall i | 0 <= i < |args| :: ParseToken(args[i]).0 in ParseArgs(args)
    ensures forall k | k in ParseArgs(args) :: exists i | 0 <= i < |args| :: ParseToken(args[i]).0 == k
    ensures forall i | 0 <= i < |args| && LastWithKey(Tokens(args), i) ::
              ParseArgs(args)[ParseToken(args[i]).0] == ParseToken(args[i]).1
  {
    CollectKeys(Tokens(args));
    CollectLastWins(Tokens(args));
  }

  lemma {:induction false} FirstEqAt(s: string, i: nat)
    requires i < |s| && s[i] == '=' && '=' !in s[..i]
    ensures FirstEq(s) == Some(i)
  {
    if i > 0 {
      assert s[0] in s[..i];
      assert s[1..][..i - 1] == s[1..i];
      assert forall c | c in s[1..i] :: c in s[..i];
      FirstEqAt(s[1..], i - 1);
    }
  }

  /** Only the first `=` splits: the value keeps any later ones. */
  lemma {:induction false} SplitAtFirstEq(k: string, v: string)
    requires '=' !in k
    ensures ParseToken(k + "=" + v) == (Trim(k, PySpace), ParseValue(v))
  {
    var s := k + "=" + v;
    assert s[..|k|] == k;
    assert s[|k| + 1..] == v;
    FirstEqAt(s, |k|);
  }

  /** A natural written as `key=<digits>` reads back as that number. */
  lemma {:induction false} NumberRoundTrip(k: string, n: nat)
    requires '=' !in k
    ensures ParseToken(k + "=" + NatToString(n)) == (Trim(k, PySpace), Number(n))
  {
    SplitAtFirstEq(k, NatToString(n));
    NumberValue(n);
  }

  lemma {:induction false} NumberValue(n: nat)
    ensures ParseValue(NatToString(n)) == Number(n)
  {
    var d := NatToString(n);
    Untrimmed(d);
    assert Unquote(d) == d by { assert IsDigit(d[0]); }
    assert AsciiLower(d) != "true" && AsciiLower(d) != "false" by {
      assert AsciiLower(d)[0] == d[0];
    }
    NatToStringRoundTrip(n);
  }

  /** A string whose two ends are not spaces is its own strip. */
  lemma {:induction false} Untrimmed(s: string)
    requires |s| > 0 && !PySpace(s[0]) && !PySpace(s[|s| - 1])
    ensures Trim(s, PySpace) == s
  {
    assert TrimStart(s, PySpace) == s;
    assert TrimEnd(s, PySpace) == s;
  }

  /** `key=true` and `key=false`, in any letter case, read back as that boolean. */
  lemma {:induction false} FlagRoundTrip(k: string, v: string, b: bool)
    requires '=' !in k
    requires AsciiLower(v) == (if b then "true" else "false")
    ensures ParseToken(k + "=" + v) == (Trim(k, PySpace), Flag(b))
  {
    SplitAtFirstEq(k, v);
    FlagValue(v, b);
  }

  lemma {:induction false} FlagValue(v: string, b: bool)
    requires AsciiLower(v) == (if b then "true" else "false")
    ensures ParseValue(v) == Flag(b)
  {
    FlagEnds(v, b);
    Untrimmed(v);
    assert Unquote(v) == v by { assert !StartsWith(v, "\""); }
  }

  /** A spelling of `true` or `false` neither starts nor ends with a space, nor starts with a quote. */
  lemma {:induction false} FlagEnds(v: string, b: bool)
    requires AsciiLower(v) == (if b then "true" else "false")
    ensures |v| >= 4 && !PySpace(v[0]) && v[0] != '"' && !PySpace(v[|v| - 1])
  {
    var w := if b then "true" else "false";
    assert |w| >= 4 && 'a' <= w[0] <= 'z' && 'a' <= w[|w| - 1] <= 'z';
    LetterEnds(v, w);
  }

  lemma {:induction false} LetterEnds(v: string, w: string)
    requires AsciiLower(v) == w && |w| > 0
    requires 'a' <= w[0] <= 'z' && 'a' <= w[|w| - 1] <= 'z'
    ensures |v| == |w| && !PySpace(v[0]) && v[0] != '"' && !PySpace(v[|v| - 1])
  {
    LowerKeepsKind(v[0], w[0]);
    LowerKeepsKind(v[|v| - 1], w[|w| - 1]);
  }

  /** A letter of `true` or `false` comes only from a letter, never from a space or a quote. */
  lemma {:induction false} LowerKeepsKind(c: char, d: char)
    requires d == (if 'A' <= c <= 'Z' then (c as int + 32) as char else c)
    requires 'a' <= d <= 'z'
    ensures !PySpace(c) && c != '"'
  {
  }

  /** A double-quoted value loses exactly its quotes before it is converted. */
  lemma {:induction false} QuotesRemoved(k: string, w: string)
    requires '=' !in k
    ensures ParseToken(k + "=" + "\"" + w + "\"") == (Trim(k, PySpace), Convert(w))
  {
    var q := "\"" + w + "\"";
    assert k + "=" + "\"" + w + "\"" == k + "=" + q;
    SplitAtFirstEq(k, q);
    QuotedValue(w);
  }

  lemma {:induction false} QuotedValue(w: string)
    ensures ParseValue("\"" + w + "\"") == Convert(w)
  {
    var q := "\"" + w + "\"";
    assert q[0] == '"' && q[|q| - 1] == '"';
    Untrimmed(q);
    assert StartsWith(q, "\"") && EndsWith(q, "\"");
    assert q[1..|q| - 1] == w;
    assert Unquote(q) == w;
  }
}

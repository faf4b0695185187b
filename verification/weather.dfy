/**
 * The weather chat route: it reads a weather intent out of the user's
 * prompt (current weather or a forecast, a location, a number of days),
 * calls the weather tool server with it, and answers with the tool's text,
 * asking the model to phrase the answer when the prompt is a question.
 */
module Weather {
  import opened Wrappers
  import opened Strings
  import opened Wire
  import BackendMessages

  const WeatherWords: seq<string> :=
    ["погода", "weather", "температура", "temperature", "дождь", "rain",
     "снег", "snow", "ветер", "wind", "прогноз", "forecast"]
  const ForecastWords: seq<string> := ["прогноз", "forecast", "на несколько дней", "на неделю"]
  const DaySuffixes: seq<string> := ["дн", "day", "день", "дня", "дней"]
  const StopWords: seq<string> := ["какая", "какой", "какое", "the", "a"]
  const NameKeywords: seq<string> := ["погода", "weather", "прогноз", "forecast", "температура", "temperature"]
  const QuestionWords: seq<string> := ["что", "как", "почему", "расскажи", "объясни"]

  const DefaultDays: nat := 3
  const MaxDays: nat := 7

  /**
   * Python's Unicode `str.lower()` and `str.isupper()` on one character,
   * which the model leaves abstract.
   */
  datatype Casing = Casing(lower: string -> string, isUpper: char -> bool)

  /** `any(w in hay for w in words)`. */
  predicate AnyIn(hay: string, words: seq<string>) {
    exists i | 0 <= i < |words| :: Contains(hay, words[i])
  }

  datatype Kind = Current | Forecast
  datatype Intent = Intent(kind: Kind, location: Option<string>, days: nat)

  // ---------------------------------------------------------------------
  // The number of days: `(\d+)\s*(?:дн|day|день|дня|дней)`

  /** The end of the run of digits starting at `i`. */
  function DigitsEnd(s: string, i: nat): (e: nat)
    requires i <= |s|
    ensures i <= e <= |s| && (e < |s| ==> !IsDigit(s[e]))
    ensures forall k | i <= k < e :: IsDigit(s[k])
    decreases |s| - i
  {
    if i < |s| && IsDigit(s[i]) then DigitsEnd(s, i + 1) else i
  }

  /** The end of the run of whitespace starting at `i`. */
  function SpacesEnd(s: string, i: nat): (e: nat)
    requires i <= |s|
    ensures i <= e <= |s|
    decreases |s| - i
  {
    if i < |s| && PySpace(s[i]) then SpacesEnd(s, i + 1) else i
  }

  /**
   * The pattern matches starting at `i`. Giving back digits cannot help,
   * since the suffix does not start with a digit, so the greedy run is the
   * only candidate.
   */
  predicate DaysAt(s: string, i: nat) {
    i < |s| && IsDigit(s[i]) &&
    var k := SpacesEnd(s, DigitsEnd(s, i));
    AnyStarts(s[k..], DaySuffixes)
  }

  predicate AnyStarts(s: string, ps: seq<string>) {
    exists j | 0 <= j < |ps| :: StartsWith(s, ps[j])
  }

  /** `re.search`: the digits of the leftmost match at or after `from`. */
  function FindDays(s: string, from: nat): (r: Option<(nat, nat)>)
    requires from <= |s|
    ensures r.None? <==> forall j | from <= j < |s| :: !DaysAt(s, j)
    ensures r.Some? ==> && from <= r.value.0 < r.value.1 <= |s|
                        && DaysAt(s, r.value.0) && r.value.1 == DigitsEnd(s, r.value.0)
                        && forall j | from <= j < r.value.0 :: !DaysAt(s, j)
    decreases |s| - from
  {
    if from == |s| then None
    else if DaysAt(s, from) then Some((from, DigitsEnd(s, from)))
    else FindDays(s, from + 1)
  }

  /** `min(int(group(1)), 7)` when there is a match, and the default otherwise. */
  function Days(lowered: string): (d: nat)
    ensures d <= MaxDays
    ensures (forall j | 0 <= j < |lowered| :: !DaysAt(lowered, j)) ==> d == DefaultDays
  {
    match FindDays(lowered, 0)
    case None => DefaultDays
    case Some((st, e)) =>
      var n := DigitsValue(lowered[st..e]);
      if n < MaxDays then n else MaxDays
  }

  // ---------------------------------------------------------------------
  // The location

  /** A captured location is kept when, stripped, it is longer than two characters and not a filler word. */
  predicate Accepted(loc: string) {
    |loc| > 2 && loc !in StopWords
  }

  /**
   * The three location patterns are tried in order on the lowered prompt
   * (`captures` holds each one's first group, or None when it does not
   * match); the first accepted one wins.
   */
  function FromPatterns(captures: seq<Option<string>>): (r: Option<string>)
    ensures r.Some? ==> Accepted(r.value)
    ensures r.None? <==> forall i | 0 <= i < |captures| :: captures[i].None? || !Accepted(Trim(captures[i].value, PySpace))
  {
    if |captures| == 0 then None
    else if captures[0].Some? && Accepted(Trim(captures[0].value, PySpace)) then Some(Trim(captures[0].value, PySpace))
    else
      var r := FromPatterns(captures[1..]);
      assert forall i | 1 <= i < |captures| :: captures[i] == captures[1..][i - 1];
      r
  }

  /** A word the fallback takes as a place name, as written: capitalised, longer than two, not a weather word. */
  predicate NameLikeAsWritten(w: string, c: Casing) {
    |w| > 2 && c.isUpper(w[0]) && c.lower(w) !in NameKeywords
  }

  /** The same test that also rejects the filler words the patterns reject. */
  predicate NameLike(w: string, c: Casing) {
    NameLikeAsWritten(w, c) && c.lower(w) !in StopWords
  }

  /** The first of `ws` that passes `ok`. */
  function FirstPassing(ws: seq<string>, ok: string -> bool): (r: Option<string>)
    ensures r.Some? ==> r.value in ws && ok(r.value)
    ensures r.None? <==> forall i | 0 <= i < |ws| :: !ok(ws[i])
  {
    if |ws| == 0 then None
    else if ok(ws[0]) then Some(ws[0])
    else
      var r := FirstPassing(ws[1..], ok);
      assert forall i | 1 <= i < |ws| :: ws[i] == ws[1..][i - 1];
      r
  }

  // ---------------------------------------------------------------------
  // The intent

  function IntentWith(prompt: string, c: Casing, captures: seq<Option<string>>, nameLike: string -> bool): (r: Option<Intent>)
  {
    var low := c.lower(prompt);
    if !AnyIn(low, WeatherWords) then None
    else
      var forecast := AnyIn(low, ForecastWords);
      var loc := match FromPatterns(captures)
        case Some(l) => Some(l)
        case None => FirstPassing(Words(prompt, PySpace), nameLike);
      Some(Intent(if forecast then Forecast else Current, loc, if forecast then Days(low) else DefaultDays))
  }

  /**
   * `_extract_weather_intent` as written: no intent unless the lowered
   * prompt names the weather; a forecast exactly when it mentions one, with
   * the days asked for (at most 7) or 3; otherwise the current weather for
   * 3 days. The location is the first accepted capture, or else the first
   * word of the original prompt that is capitalised, longer than two and
   * not a weather word.
   */
  function ExtractIntentAsWritten(prompt: string, c: Casing, captures: seq<Option<string>>): (r: Option<Intent>)
    ensures r.None? <==> !AnyIn(c.lower(prompt), WeatherWords)
    ensures r.Some? ==> (r.value.kind == Forecast <==> AnyIn(c.lower(prompt), ForecastWords))
    ensures r.Some? ==> r.value.days <= MaxDays && (r.value.kind == Current ==> r.value.days == DefaultDays)
    ensures r.Some? && r.value.kind == Forecast ==> r.value.days == Days(c.lower(prompt))
    ensures r.Some? && r.value.location.Some? ==>
              var l := r.value.location.value;
              Accepted(l) || (l in Words(prompt, PySpace) && NameLikeAsWritten(l, c))
    ensures r.Some? && FromPatterns(captures).Some? ==> r.value.location == FromPatterns(captures)
    ensures r.Some? && FromPatterns(captures).None? ==>
              (r.value.location.None? <==> forall w | w in Words(prompt, PySpace) :: !NameLikeAsWritten(w, c))
  {
    IntentWith(prompt, c, captures, w => NameLikeAsWritten(w, c))
  }

  /**
   * The intent with the fallback corrected: the same, except that the
   * fallback also rejects the filler words the patterns reject.
   */
  function ExtractIntent(prompt: string, c: Casing, captures: seq<Option<string>>): (r: Option<Intent>)
    ensures r.None? <==> !AnyIn(c.lower(prompt), WeatherWords)
    ensures r.Some? ==> (r.value.kind == Forecast <==> AnyIn(c.lower(prompt), ForecastWords))
    ensures r.Some? ==> r.value.days <= MaxDays && (r.value.kind == Current ==> r.value.days == DefaultDays)
    ensures r.Some? && r.value.kind == Forecast ==> r.value.days == Days(c.lower(prompt))
    ensures r.Some? && r.value.location.Some? ==>
              var l := r.value.location.value;
              Accepted(l) || (l in Words(prompt, PySpace) && NameLike(l, c))
    ensures r.Some? && FromPatterns(captures).Some? ==> r.value.location == FromPatterns(captures)
    ensures r.Some? && FromPatterns(captures).None? ==>
              (r.value.location.None? <==> forall w | w in Words(prompt, PySpace) :: !NameLike(w, c))
  {
    IntentWith(prompt, c, captures, w => NameLike(w, c))
  }

  /** The fallback's choice depends only on how its test judges the words it looks at. */
  lemma {:induction false} FirstPassingAgree(ws: seq<string>, ok1: string -> bool, ok2: string -> bool)
    requires forall i | 0 <= i < |ws| :: ok1(ws[i]) == ok2(ws[i])
    ensures FirstPassing(ws, ok1) == FirstPassing(ws, ok2)
    decreases |ws|
  {
    if |ws| > 0 && !ok1(ws[0]) {
      assert forall i | 0 <= i < |ws[1..]| :: ws[1..][i] == ws[i + 1];
      FirstPassingAgree(ws[1..], ok1, ok2);
    }
  }

  /**
   * The written and the corrected intent differ only when the patterns
   * found no place and the prompt holds a capitalised filler word.
   */
  lemma {:induction false} IntentsAgree(prompt: string, c: Casing, captures: seq<Option<string>>)
    requires FromPatterns(captures).Some?
             || forall w | w in Words(prompt, PySpace) :: NameLikeAsWritten(w, c) ==> c.lower(w) !in StopWords
    ensures ExtractIntentAsWritten(prompt, c, captures) == ExtractIntent(prompt, c, captures)
  {
    if FromPatterns(captures).None? {
      var ws := Words(prompt, PySpace);
      FirstPassingAgree(ws, w => NameLikeAsWritten(w, c), w => NameLike(w, c));
    }
  }

  /**
   * With a capitalised filler word such as `Какая` in front, the fallback as
   * written takes it as the place, although the same word is rejected when
   * a pattern captures it.
   */
  lemma {:induction false} FillerWordTakenAsPlace(c: Casing)
    requires c.lower("Какая погода?") == "какая погода?"
    requires c.lower("Какая") == "какая" && c.isUpper('К')
    ensures var r := ExtractIntentAsWritten("Какая погода?", c, [None, None, Some("какая")]);
            r.Some? && r.value.location == Some("Какая") && ToolCall(r.value).1.location == Some("Какая")
    ensures var r := ExtractIntent("Какая погода?", c, [None, None, Some("какая")]);
            r.Some? && r.value.location != Some("Какая")
    ensures !Accepted("какая")
  {
    var prompt := "Какая погода?";
    var captures: seq<Option<string>> := [None, None, Some("какая")];
    var ok := w => NameLikeAsWritten(w, c);
    AskingNamesWeather();
    FillerCaptureRejected();
    FallbackLocation(prompt, c, captures, ok);
    FallbackLocation(prompt, c, captures, w => NameLike(w, c));
    FirstWordOfAsking();
    var ws := Words(prompt, PySpace);
    FillerNotKeyword();
    assert NameLikeAsWritten(ws[0], c);
    assert FirstPassing(ws, ok) == Some("Какая");
    assert !NameLike("Какая", c) by { assert StopWords[0] == "какая"; }
    FillerNotAccepted();
  }

  /** Without an accepted capture, the place is the first word that passes the fallback's test. */
  lemma {:induction false} FallbackLocation(prompt: string, c: Casing, captures: seq<Option<string>>, ok: string -> bool)
    requires AnyIn(c.lower(prompt), WeatherWords) && FromPatterns(captures).None?
    ensures var r := IntentWith(prompt, c, captures, ok);
            r.Some? && r.value.location == FirstPassing(Words(prompt, PySpace), ok)
  {
  }

  lemma FillerNotKeyword()
    ensures "какая" !in NameKeywords
  {
    assert forall i | 0 <= i < |NameKeywords| :: |NameKeywords[i]| > 5;
  }

  lemma AskingNamesWeather()
    ensures AnyIn("какая погода?", WeatherWords)
  {
    assert StartsWith("какая погода?"[6..], "погода");
    ContainsAt("какая погода?", "погода", 6);
    assert WeatherWords[0] == "погода";
  }

  lemma FillerCaptureRejected()
    ensures FromPatterns([None, None, Some("какая")]) == None
  {
    FillerNotAccepted();
    ThirdCaptureRejected("какая");
  }

  lemma {:induction false} ThirdCaptureRejected(w: string)
    requires !Accepted(Trim(w, PySpace))
    ensures FromPatterns([None, None, Some(w)]) == None
  {
    var c1: seq<Option<string>> := [Some(w)];
    assert FromPatterns(c1) == FromPatterns([]) by { assert c1[1..] == []; }
    var c2: seq<Option<string>> := [None] + c1;
    assert FromPatterns(c2) == FromPatterns(c1) by { assert c2[1..] == c1; }
    var c3: seq<Option<string>> := [None] + c2;
    assert FromPatterns(c3) == FromPatterns(c2) by { assert c3[1..] == c2; }
    assert c3 == [None, None, Some(w)];
  }

  lemma FillerNotAccepted()
    ensures !Accepted(Trim("какая", PySpace))
  {
    FillerUntrimmed();
    assert StopWords[0] == "какая";
  }

  lemma FillerUntrimmed()
    ensures Trim("какая", PySpace) == "какая"
  {
    FillerNoLeadingSpace();
    var s := "какая";
    assert TrimEnd(s, PySpace) == s by { assert !PySpace(s[4]); }
  }

  lemma FillerNoLeadingSpace()
    ensures TrimStart("какая", PySpace) == "какая"
  {
    var s := "какая";
    assert !PySpace(s[0]);
  }

  lemma FirstWordOfAsking()
    ensures var ws := Words("Какая погода?", PySpace); |ws| > 0 && ws[0] == "Какая"
  {
    AskingWordUnspaced();
    AskingSplit();
    FirstWordOf("Какая", " погода?", PySpace);
  }

  lemma AskingWordUnspaced()
    ensures forall i | 0 <= i < |"Какая"| :: !PySpace("Какая"[i])
  {
    var w := "Какая";
    assert !PySpace(w[0]) && !PySpace(w[1]) && !PySpace(w[2]) && !PySpace(w[3]) && !PySpace(w[4]);
  }

  lemma AskingSplit()
    ensures "Какая" + " погода?" == "Какая погода?"
    ensures PySpace(" погода?"[0])
  {
  }


  // ---------------------------------------------------------------------
  // The tool call

  /** The tool's arguments: `days` for a forecast, `location` when one was found. */
  datatype Args = Args(days: Option<nat>, location: Option<string>)

  /** `_get_weather_data`'s choice of tool and arguments. */
  function ToolCall(intent: Intent): (call: (string, Args))
    ensures call.0 == "get_weather_forecast" <==> intent.kind == Forecast
    ensures call.0 == "get_current_weather" <==> intent.kind.Current?
    ensures call.1.days.Some? <==> intent.kind == Forecast
    ensures call.1.days.Some? ==> call.1.days.value == intent.days
    ensures call.1.location == (if intent.location.Some? && intent.location.value != "" then intent.location else None)
  {
    var loc := if intent.location.Some? && intent.location.value != "" then intent.location else None;
    assert "get_weather_forecast"[4] != "get_current_weather"[4];
    if intent.kind == Forecast then ("get_weather_forecast", Args(Some(intent.days), loc))
    else ("get_current_weather", Args(None, loc))
  }

  /** One element of the tool's `content` list. */
  datatype Item = TextItem(text: string) | Plain(s: string) | OtherItem

  /** The texts of the items that carry one, in order. */
  function TextParts(items: seq<Item>): (ps: seq<string>)
    ensures |ps| <= |items|
    ensures (forall i | 0 <= i < |items| :: !items[i].OtherItem?) ==> |ps| == |items|
  {
    if |items| == 0 then []
    else
      (match items[0]
       case TextItem(t) => [t]
       case Plain(s) => [s]
       case OtherItem => []) + TextParts(items[1..])
  }

  lemma {:induction false} TextPartsAppend(a: seq<Item>, b: seq<Item>)
    ensures TextParts(a + b) == TextParts(a) + TextParts(b)
  {
    if |a| == 0 {
      assert a + b == b;
    } else {
      assert (a + b)[1..] == a[1..] + b;
      TextPartsAppend(a[1..], b);
    }
  }

  /** The tool's answer: its error flag, its `content` (None when not a list), its `str()` and whether it is empty. */
  datatype ToolResult = ToolResult(isError: bool, content: Option<seq<Item>>, shown: string, isEmpty: bool)

  /**
   * The text taken from the tool's answer: nothing on an error, the text
   * parts joined by blank lines, or else the answer printed as it is.
   */
  function ToolText(r: ToolResult): (t: Option<string>)
    ensures r.isError ==> t.None?
    ensures !r.isError && r.content.Some? && |TextParts(r.content.value)| > 0 ==>
              t == Some(JoinWith(TextParts(r.content.value), "\n\n"))
  {
    if r.isError then None
    else if r.content.Some? && |r.content.value| > 0 && |TextParts(r.content.value)| > 0 then
      Some(JoinWith(TextParts(r.content.value), "\n\n"))
    else if r.isEmpty then None
    else Some(r.shown)
  }

  /** Joining two non-empty runs of parts puts exactly one blank line between them. */
  lemma {:induction false} JoinAppend(a: seq<string>, b: seq<string>, sep: string)
    requires |a| > 0 && |b| > 0
    ensures JoinWith(a + b, sep) == JoinWith(a, sep) + sep + JoinWith(b, sep)
  {
    if |a| == 1 {
      assert (a + b)[1..] == b;
    } else {
      assert (a + b)[1..] == a[1..] + b;
      JoinAppend(a[1..], b, sep);
    }
  }

  // ---------------------------------------------------------------------
  // The route

  const PrefixText := "Вот информация о погоде:\n\n"
  const GeneralSystem :=
    "Ты помощник, который помогает с вопросами о погоде. Если пользователь спрашивает о погоде, используй доступные инструменты для получения актуальной информации."
  const BriefSystem := "Ты помощник, который помогает с вопросами о погоде. Отвечай кратко и по делу."
  const ApologySystem :=
    "Ты помощник, который помогает с вопросами о погоде. Если не удалось получить данные о погоде, извинись и предложи уточнить запрос."

  /** A follow-up model call is made only for a question: a `?` or one of the question words. */
  predicate IsQuestion(prompt: string, c: Casing) {
    Contains(prompt, "?") || AnyIn(c.lower(prompt), QuestionWords)
  }

  function FollowUpTurn(prompt: string, data: string): string {
    "Вопрос: " + prompt + "\n\nДанные о погоде:\n" + data
    + "\n\nОтветь на вопрос пользователя, используя предоставленные данные о погоде."
  }

  /**
   * `_get_weather_data`: the text of the tool's answer to the intent's tool
   * call. `tool` stands for the weather server and gives None when the
   * server reports an error or the call raises.
   */
  function WeatherData(intent: Intent, tool: ((string, Args)) -> Option<ToolResult>): (d: Option<string>)
    ensures d.Some? ==> tool(ToolCall(intent)).Some? && !tool(ToolCall(intent)).value.isError
    ensures tool(ToolCall(intent)).Some? ==> d == ToolText(tool(ToolCall(intent)).value)
  {
    match tool(ToolCall(intent))
    case None => None
    case Some(res) => ToolText(res)
  }

  /** The answer once the intent is known. */
  function Answer(prompt: string, c: Casing, intent: Option<Intent>,
                  tool: ((string, Args)) -> Option<ToolResult>,
                  model: seq<Message> -> BackendMessages.Completion): Result<string>
  {
    match intent
    case None => BackendMessages.ReplyText(model([Msg("system", GeneralSystem), Msg("user", prompt)]))
    case Some(i) =>
      var data := WeatherData(i, tool);
      if Truthy(data) then
        var plain := PrefixText + data.value;
        if IsQuestion(prompt, c) then
          match BackendMessages.ReplyText(model([Msg("system", BriefSystem), Msg("user", FollowUpTurn(prompt, data.value))]))
          case Ok(text) => Ok(text)
          case Err(_) => Ok(plain)
        else Ok(plain)
      else BackendMessages.ReplyText(model([Msg("system", ApologySystem), Msg("user", prompt)]))
  }

  /**
   * `weather_chat` as written: without an intent, or when no weather text
   * came back, the model answers on its own (a 500 when it gives no
   * choice); with the text, the answer is the text behind a fixed heading,
   * or for a question the model's phrasing of it when the model gives one.
   */
  function Route(prompt: string, c: Casing, captures: seq<Option<string>>,
                 tool: ((string, Args)) -> Option<ToolResult>,
                 model: seq<Message> -> BackendMessages.Completion): (r: Result<string>)
    ensures ExtractIntentAsWritten(prompt, c, captures).None? ==>
              r == BackendMessages.ReplyText(model([Msg("system", GeneralSystem), Msg("user", prompt)]))
    ensures var i := ExtractIntentAsWritten(prompt, c, captures);
            i.Some? && !Truthy(WeatherData(i.value, tool)) ==>
              r == BackendMessages.ReplyText(model([Msg("system", ApologySystem), Msg("user", prompt)]))
    ensures var i := ExtractIntentAsWritten(prompt, c, captures);
            i.Some? && Truthy(WeatherData(i.value, tool)) && !IsQuestion(prompt, c) ==>
              r == Ok(PrefixText + WeatherData(i.value, tool).value)
    ensures var i := ExtractIntentAsWritten(prompt, c, captures);
            i.Some? && Truthy(WeatherData(i.value, tool)) && IsQuestion(prompt, c) ==>
              var d := WeatherData(i.value, tool).value;
              var follow := BackendMessages.ReplyText(model([Msg("system", BriefSystem), Msg("user", FollowUpTurn(prompt, d))]));
              r == (if follow.Ok? then follow else Ok(PrefixText + d))
  {
    Answer(prompt, c, ExtractIntentAsWritten(prompt, c, captures), tool, model)
  }

  /** The route with the corrected fallback for the place. */
  function RouteCorrected(prompt: string, c: Casing, captures: seq<Option<string>>,
                          tool: ((string, Args)) -> Option<ToolResult>,
                          model: seq<Message> -> BackendMessages.Completion): (r: Result<string>)
    ensures ExtractIntent(prompt, c, captures).None? ==>
              r == BackendMessages.ReplyText(model([Msg("system", GeneralSystem), Msg("user", prompt)]))
    ensures var i := ExtractIntent(prompt, c, captures);
            i.Some? && Truthy(WeatherData(i.value, tool)) ==> r.Ok?
  {
    Answer(prompt, c, ExtractIntent(prompt, c, captures), tool, model)
  }

  /** The two routes answer alike whenever the two intents agree. */
  lemma {:induction false} RoutesAgree(prompt: string, c: Casing, captures: seq<Option<string>>,
                                       tool: ((string, Args)) -> Option<ToolResult>,
                                       model: seq<Message> -> BackendMessages.Completion)
    requires FromPatterns(captures).Some?
             || forall w | w in Words(prompt, PySpace) :: NameLikeAsWritten(w, c) ==> c.lower(w) !in StopWords
    ensures Route(prompt, c, captures, tool, model) == RouteCorrected(prompt, c, captures, tool, model)
  {
    IntentsAgree(prompt, c, captures);
  }

  /** A prompt that names no weather is answered by the model alone, whatever the tool would say. */
  lemma {:induction false} RouteWithoutWeatherWord(prompt: string, c: Casing, captures: seq<Option<string>>,
                                                   tool1: ((string, Args)) -> Option<ToolResult>,
                                                   tool2: ((string, Args)) -> Option<ToolResult>,
                                                   model: seq<Message> -> BackendMessages.Completion)
    requires !AnyIn(c.lower(prompt), WeatherWords)
    ensures Route(prompt, c, captures, tool1, model) == Route(prompt, c, captures, tool2, model)
  {
  }
}

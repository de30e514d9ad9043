/** The `generate-meal-plan` function: the age text put into the prompts, the handling of
    the gateway's status, and the extraction of the JSON object from the completion. */
module MealPlan {
  import opened Common
  import opened Decimal
  import opened AiGateway

  const RateLimitMessage: string := "Rate limit exceeded. Please try again later."
  const PaymentMessage: string := "Payment required. Please add credits."
  const GatewayErrorMessage: string := "AI gateway error"
  const ParseErrorMessage: string := "Failed to parse meal plan response"
  const DefaultChildName: string := "anak"

  /** The age in Indonesian: whole months below a year, otherwise years and remaining
      months. Read back word by word, the numbers give the age: the months alone (with a
      minus sign for a birth date in the future), or years and fewer than twelve months. */
  function AgeText(ageMonths: int): (r: string)
    ensures var w := Split(r, ' ');
      && (ageMonths < 12 ==> |w| == 2 && w[1] == "bulan" && 1 <= |w[0]|)
      && (0 <= ageMonths < 12 ==> AllDigits(w[0]) && ParseDigits(w[0]) == ageMonths)
      && (ageMonths < 0 ==> w[0][0] == '-' && AllDigits(w[0][1..]) && ParseDigits(w[0][1..]) == -ageMonths)
      && (12 <= ageMonths ==>
            && |w| == 4 && w[1] == "tahun" && w[3] == "bulan"
            && AllDigits(w[0]) && AllDigits(w[2]) && ParseDigits(w[2]) < 12
            && 12 * ParseDigits(w[0]) + ParseDigits(w[2]) == ageMonths)
  {
    if ageMonths < 12 then
      MonthsWords(ageMonths);
      IntToString(ageMonths) + " bulan"
    else
      YearsWords(ageMonths);
      NatToString(ageMonths / 12) + " tahun " + NatToString(ageMonths % 12) + " bulan"
  }

  /** Two space-free words joined by a space split back into those words. */
  lemma SplitTwoWords(x: string, y: string)
    requires ' ' !in x && ' ' !in y
    ensures Split(x + " " + y, ' ') == [x, y]
  {
    assert Join([x, y], ' ') == x + " " + y;
    SplitJoin([x, y], ' ');
  }

  /** The words of a text in months alone, and the number the first one reads as. */
  lemma MonthsWords(n: int)
    requires n < 12
    ensures var w := Split(IntToString(n) + " bulan", ' ');
      && |w| == 2 && w[0] == IntToString(n) && w[1] == "bulan" && 1 <= |w[0]|
      && (0 <= n ==> AllDigits(w[0]) && ParseDigits(w[0]) == n)
      && (n < 0 ==> w[0][0] == '-' && AllDigits(w[0][1..]) && ParseDigits(w[0][1..]) == -n)
  {
    IntToStringNoSpace(n);
    assert ' ' !in IntToString(n);
    assert IntToString(n) + " bulan" == IntToString(n) + " " + "bulan";
    SplitTwoWords(IntToString(n), "bulan");
    IntToStringReads(n);
  }

  /** The words of a text in years and months, and the numbers they read as. */
  lemma YearsWords(n: int)
    requires 12 <= n
    ensures var w := Split(NatToString(n / 12) + " tahun " + NatToString(n % 12) + " bulan", ' ');
      && |w| == 4 && w[0] == NatToString(n / 12) && w[1] == "tahun"
      && w[2] == NatToString(n % 12) && w[3] == "bulan"
      && AllDigits(w[0]) && AllDigits(w[2]) && ParseDigits(w[2]) < 12
      && 12 * ParseDigits(w[0]) + ParseDigits(w[2]) == n
  {
    var y, m := NatToString(n / 12), NatToString(n % 12);
    IntToStringNoSpace(n / 12);
    IntToStringNoSpace(n % 12);
    assert Join([m, "bulan"], ' ') == m + " bulan";
    assert Join(["tahun", m, "bulan"], ' ') == "tahun " + m + " bulan";
    assert Join([y, "tahun", m, "bulan"], ' ') == y + " tahun " + m + " bulan";
    SplitJoin([y, "tahun", m, "bulan"], ' ');
    ParseNatToString(n / 12);
    ParseNatToString(n % 12);
  }

  predicate NoSpace(s: string) {
    forall k :: 0 <= k < |s| ==> s[k] != ' '
  }

  lemma IntToStringNoSpace(i: int)
    ensures NoSpace(IntToString(i))
  {
    var r := IntToString(i);
    forall k | 0 <= k < |r|
      ensures r[k] != ' '
    {
      if k == 0 && i < 0 {
        assert r[k] == '-';
      } else if k == 0 {
        assert IsDigit(r[k]);
      }
    }
  }

  /** Different ages give different texts, so the prompt identifies the child's age. */
  lemma AgeTextInjective(a: int, b: int)
    requires AgeText(a) == AgeText(b)
    ensures a == b
  {
  }

  /** The last position of `c` in `s` (`lastIndexOf`). */
  function LastIndexOf(s: string, c: char): (r: Option<nat>)
    ensures r.Some? ==> r.value < |s| && s[r.value] == c
    ensures r.Some? ==> forall k :: r.value < k < |s| ==> s[k] != c
    ensures r.None? ==> forall k :: 0 <= k < |s| ==> s[k] != c
  {
    if |s| == 0 then None
    else if s[|s| - 1] == c then Some(|s| - 1)
    else LastIndexOf(s[..|s| - 1], c)
  }

  /** Whether some `}` comes after some `{`, which is when the pattern `\{[\s\S]*\}` matches. */
  predicate HasBracedSpan(s: string) {
    exists i, j :: 0 <= i < j < |s| && s[i] == '{' && s[j] == '}'
  }

  /** Where the pattern's match lies: the leftmost `{` that has a `}` after it — the first
      `{` of the text — through the last `}` (the greedy middle). */
  function JsonSpanBounds(s: string): (r: Option<(nat, nat)>)
    ensures r.Some? <==> HasBracedSpan(s)
    ensures r.Some? ==> r.value.0 < r.value.1 < |s| && s[r.value.0] == '{' && s[r.value.1] == '}'
    ensures r.Some? ==> FirstIndexOf(s, '{') == Some(r.value.0) && LastIndexOf(s, '}') == Some(r.value.1)
  {
    match FirstIndexOf(s, '{')
    case None => None
    case Some(i) =>
      match LastIndexOf(s, '}')
      case None => None
      case Some(j) => if i < j then Some((i, j)) else None
  }

  /** The matched text, `jsonMatch[0]`. */
  function JsonSpan(s: string): (r: Option<string>)
    ensures r.Some? <==> HasBracedSpan(s)
    ensures r.Some? ==> 2 <= |r.value| && r.value[0] == '{' && r.value[|r.value| - 1] == '}'
    ensures r.Some? ==> r.value == s[FirstIndexOf(s, '{').value..LastIndexOf(s, '}').value + 1]
  {
    match JsonSpanBounds(s)
    case None => None
    case Some((i, j)) => Some(s[i..j + 1])
  }

  /** The span keeps every brace-delimited part of the text: no `{` before it and no `}`
      after it. */
  lemma SpanIsMaximal(s: string)
    requires HasBracedSpan(s)
    ensures var b := JsonSpanBounds(s).value;
      && (forall k :: 0 <= k < b.0 ==> s[k] != '{')
      && (forall k :: b.1 < k < |s| ==> s[k] != '}')
      && JsonSpan(s) == Some(s[b.0..b.1 + 1])
  {
  }

  /** The request fields the function reads. */
  datatype MealPlanRequest = MealPlanRequest(ageMonths: int, preferences: Option<string>, childName: Option<string>)

  /** The varying parts of the two prompts sent to the gateway. */
  datatype Prompts = Prompts(ageText: string, childName: string, preferenceLine: string, preferenceSuffix: string)

  /** The system prompt's preference line, present only for non-empty preferences. */
  function PreferenceLine(p: Option<string>): string {
    if Truthy(p) then "Preferensi makanan: " + p.value else ""
  }

  /** The user prompt's preference clause, present only for non-empty preferences. */
  function PreferenceSuffix(p: Option<string>): string {
    if Truthy(p) then " dengan preferensi: " + p.value else ""
  }

  function PromptsOf(req: MealPlanRequest): Prompts {
    Prompts(AgeText(req.ageMonths),
            if Truthy(req.childName) then req.childName.value else DefaultChildName,
            PreferenceLine(req.preferences), PreferenceSuffix(req.preferences))
  }

  /** Preferences reach the prompts exactly when they are non-empty, and then verbatim at
      the end of both clauses. */
  lemma PreferencesOnlyWhenGiven(req: MealPlanRequest)
    ensures var pr := PromptsOf(req);
      && (pr.preferenceLine == "" <==> !Truthy(req.preferences))
      && (pr.preferenceSuffix == "" <==> !Truthy(req.preferences))
      && (Truthy(req.preferences) ==>
            var p := req.preferences.value;
            && pr.preferenceLine[|pr.preferenceLine| - |p|..] == p
            && pr.preferenceSuffix[|pr.preferenceSuffix| - |p|..] == p)
  {
  }

  /** The function's answer and the prompts it sent to the gateway, if it got that far. */
  datatype Outcome = Outcome(reply: Reply, sent: Option<Prompts>)

  /** The function. `parses` says which texts `JSON.parse` accepts; the answer body is the
      extracted object. */
  function GenerateMealPlan(apiKey: Option<string>, req: MealPlanRequest, upstream: Upstream,
                            parses: string -> bool): (r: Outcome)
    ensures !Truthy(apiKey) ==> r == Outcome(Failed(500, MissingKeyMessage), None)
    ensures Truthy(apiKey) ==> r.sent == Some(PromptsOf(req))
    ensures Truthy(apiKey) && upstream.status == 429 ==> r.reply == Failed(429, RateLimitMessage)
    ensures Truthy(apiKey) && upstream.status == 402 ==> r.reply == Failed(402, PaymentMessage)
    ensures Truthy(apiKey) && !IsOk(upstream.status) && upstream.status != 429 && upstream.status != 402 ==>
      r.reply == Failed(500, GatewayErrorMessage)
    ensures r.reply.Ok? <==>
      && Truthy(apiKey) && IsOk(upstream.status) && upstream.content.Some?
      && JsonSpan(upstream.content.value).Some? && parses(JsonSpan(upstream.content.value).value)
    ensures r.reply.Ok? ==> r.reply.body == JsonSpan(upstream.content.value).value
    ensures Truthy(apiKey) && IsOk(upstream.status) && !r.reply.Ok? ==> r.reply == Failed(500, ParseErrorMessage)
  {
    if !Truthy(apiKey) then Outcome(Failed(500, MissingKeyMessage), None)
    else
      var sent := Some(PromptsOf(req));
      if !IsOk(upstream.status) then
        if upstream.status == 429 then Outcome(Failed(429, RateLimitMessage), sent)
        else if upstream.status == 402 then Outcome(Failed(402, PaymentMessage), sent)
        else Outcome(Failed(500, GatewayErrorMessage), sent)
      else match upstream.content
        case None => Outcome(Failed(500, ParseErrorMessage), sent)
        case Some(c) =>
          match JsonSpan(c)
          case None => Outcome(Failed(500, ParseErrorMessage), sent)
          case Some(span) =>
            if parses(span) then Outcome(Ok(span), sent) else Outcome(Failed(500, ParseErrorMessage), sent)
  }

  /** Text before and after the object is ignored: wrapping the object in prose or a code
      fence without braces yields the same meal plan. */
  lemma SurroundingProseIgnored(before: string, obj: string, after: string, apiKey: Option<string>,
                                req: MealPlanRequest, status: int, parses: string -> bool)
    requires Truthy(apiKey) && IsOk(status)
    requires 2 <= |obj| && obj[0] == '{' && obj[|obj| - 1] == '}'
    requires forall k :: 0 <= k < |before| ==> before[k] != '{'
    requires forall k :: 0 <= k < |after| ==> after[k] != '}'
    requires parses(obj)
    ensures GenerateMealPlan(apiKey, req, Upstream(status, Some(before + obj + after)), parses).reply == Ok(obj)
  {
    var s := before + obj + after;
    var i, j := |before|, |before| + |obj| - 1;
    assert s[i] == '{' && s[j] == '}';
    assert HasBracedSpan(s);
    assert forall k :: 0 <= k < i ==> s[k] == before[k];
    assert forall k :: j < k < |s| ==> s[k] == after[k - j - 1];
    assert JsonSpanBounds(s) == Some((i, j));
    assert s[i..j + 1] == obj;
  }
}

/** The `growth-assistant` function: dispatch on the request type, the milestone list in
    the prompt, the gateway status handling and the fallback advice. */
module GrowthAssistant {
  import opened Common
  import opened AiGateway

  const InvalidTypeMessage: string := "Invalid request type"
  const RateLimitMessage: string := "Batas penggunaan terlampaui. Silakan coba lagi nanti."
  const PaymentMessage: string := "Layanan AI memerlukan pembayaran. Silakan hubungi dukungan."
  const ServiceErrorMessage: string := "AI service error"
  const FallbackAdvice: string := "Tidak dapat menghasilkan saran saat ini."

  datatype RequestKind = GrowthAnalysis | MilestoneEvaluation | GeneralAdvice

  /** The `type` value naming each kind of request. */
  function KindName(k: RequestKind): string {
    match k
    case GrowthAnalysis => "growth_analysis"
    case MilestoneEvaluation => "milestone_evaluation"
    case GeneralAdvice => "general_advice"
  }

  /** The `switch (type)`: one of the three names, or nothing. */
  function KindOf(t: Option<string>): (r: Option<RequestKind>)
    ensures r.Some? ==> t == Some(KindName(r.value))
  {
    if t == Some("growth_analysis") then Some(GrowthAnalysis)
    else if t == Some("milestone_evaluation") then Some(MilestoneEvaluation)
    else if t == Some("general_advice") then Some(GeneralAdvice)
    else None
  }

  /** Exactly the three names are accepted, each for its own kind. */
  lemma KindNamesAccepted(t: Option<string>)
    ensures forall k :: KindOf(Some(KindName(k))) == Some(k)
    ensures KindOf(t).Some? <==> exists k :: t == Some(KindName(k))
  {
    if t.Some? && KindOf(t).None? {
      forall k ensures t != Some(KindName(k)) {
      }
    }
  }

  /** A milestone as the client sends it. */
  datatype MilestoneStatus = MilestoneStatus(title: string, isAchieved: bool)

  function MilestoneLine(m: MilestoneStatus): string {
    "- " + m.title + ": " + (if m.isAchieved then "Tercapai" else "Belum tercapai")
  }

  function MilestoneLines(ms: seq<MilestoneStatus>): (r: seq<string>)
    ensures |r| == |ms| && forall i :: 0 <= i < |ms| ==> r[i] == MilestoneLine(ms[i])
  {
    seq(|ms|, i requires 0 <= i < |ms| => MilestoneLine(ms[i]))
  }

  /** The milestone block of the prompt has one line per milestone, in input order, saying
      whether it is reached (for titles without line breaks, and a non-empty list). */
  lemma MilestoneBlockLines(ms: seq<MilestoneStatus>)
    requires |ms| >= 1
    requires forall i :: 0 <= i < |ms| ==> '\n' !in ms[i].title
    ensures var lines := Split(Join(MilestoneLines(ms), '\n'), '\n');
      && |lines| == |ms|
      && forall i :: 0 <= i < |ms| ==>
           lines[i] == "- " + ms[i].title + ": " + (if ms[i].isAchieved then "Tercapai" else "Belum tercapai")
  {
    var ls := MilestoneLines(ms);
    forall i | 0 <= i < |ls|
      ensures '\n' !in ls[i]
    {
      var st := if ms[i].isAchieved then "Tercapai" else "Belum tercapai";
      assert ls[i] == "- " + ms[i].title + (": " + st);
    }
    SplitJoin(ls, '\n');
  }

  /** The `data` fields the prompts read. */
  datatype RequestData = RequestData(
    name: string, ageMonths: int, gender: string, height: real, weight: real, bmi: real,
    milestones: seq<MilestoneStatus>, question: string)

  /** The user prompt sent for each kind: the growth figures, the milestone list for an
      age, or the question itself. The fixed wording around them is not modelled. */
  datatype UserPrompt =
    | GrowthFigures(name: string, ageMonths: int, gender: string, height: real, weight: real, bmi: real)
    | MilestoneReview(ageMonths: int, block: string)
    | Verbatim(text: string)

  function PromptFor(k: RequestKind, d: RequestData): UserPrompt {
    match k
    case GrowthAnalysis => GrowthFigures(d.name, d.ageMonths, d.gender, d.height, d.weight, d.bmi)
    case MilestoneEvaluation => MilestoneReview(d.ageMonths, Join(MilestoneLines(d.milestones), '\n'))
    case GeneralAdvice => Verbatim(d.question)
  }

  datatype Outcome = Outcome(reply: Reply, sent: Option<UserPrompt>)

  /** The function: key check, then dispatch, then the gateway call; a 200 answer carries
      the completion, or the fallback text when the completion is missing or empty. */
  function Advise(apiKey: Option<string>, kind: Option<string>, data: RequestData, upstream: Upstream): (r: Outcome)
    ensures !Truthy(apiKey) ==> r == Outcome(Failed(500, MissingKeyMessage), None)
    ensures Truthy(apiKey) && KindOf(kind).None? ==> r == Outcome(Failed(500, InvalidTypeMessage), None)
    ensures r.sent.Some? <==> Truthy(apiKey) && KindOf(kind).Some?
    ensures r.sent.Some? ==> r.sent.value == PromptFor(KindOf(kind).value, data)
    ensures r.sent.Some? && upstream.status == 429 ==> r.reply == Failed(429, RateLimitMessage)
    ensures r.sent.Some? && upstream.status == 402 ==> r.reply == Failed(402, PaymentMessage)
    ensures r.sent.Some? && !IsOk(upstream.status) && upstream.status != 429 && upstream.status != 402 ==>
      r.reply == Failed(500, ServiceErrorMessage)
    ensures r.reply.Ok? <==> r.sent.Some? && IsOk(upstream.status)
    ensures r.reply.Ok? ==> r.reply.body == if Truthy(upstream.content) then upstream.content.value else FallbackAdvice
  {
    if !Truthy(apiKey) then Outcome(Failed(500, MissingKeyMessage), None)
    else match KindOf(kind)
      case None => Outcome(Failed(500, InvalidTypeMessage), None)
      case Some(k) =>
        var sent := Some(PromptFor(k, data));
        if !IsOk(upstream.status) then
          if upstream.status == 429 then Outcome(Failed(429, RateLimitMessage), sent)
          else if upstream.status == 402 then Outcome(Failed(402, PaymentMessage), sent)
          else Outcome(Failed(500, ServiceErrorMessage), sent)
        else
          var advice := if Truthy(upstream.content) then upstream.content.value else FallbackAdvice;
          Outcome(Ok(advice), sent)
  }

  /** A general question reaches the gateway exactly as typed, and a 200 answer is never empty. */
  lemma QuestionSentVerbatim(apiKey: Option<string>, data: RequestData, upstream: Upstream)
    requires Truthy(apiKey)
    ensures Advise(apiKey, Some("general_advice"), data, upstream).sent == Some(Verbatim(data.question))
    ensures var r := Advise(apiKey, Some("general_advice"), data, upstream).reply;
      r.Ok? ==> r.body != ""
  {
  }
}

/** The recommendation endpoint (`POST`): the request body is handed to the language-model
    service, and what comes back is normalised to the page's record by its `typeof`: free
    text goes through the section parser, an object through the field mapping. Any throw
    on the way ends in a fixed error body. */
module Route {
  import opened Wrappers
  import opened Text
  import opened ModelAnswer
  import opened Recommend
  import opened FreeText
  import opened OpenAi

  const ErrorMessage := "很抱歉，推荐生成失败，请稍后重试。建议您根据自己的喜好选择适合的首饰。"

  /** The JSON the endpoint answers with. */
  datatype ApiResponse = Record(rec: Recommendation) | ErrorBody(error: string)

  /** The dispatch on `typeof`: a string is parsed as text (by the section pattern as
      compiled), anything else is mapped field by field, which may throw (`None`). Both
      paths leave `personality` and `transportationAdvice` empty, keep the two
      generations of psychological names equal and display every element item. */
  function Normalize(m: ModelResult): (r: Option<Recommendation>)
    ensures r.None? <==> m.ObjectResult? && Throws(m.answer)
    ensures r.Some? ==> r.value.personality == "" && r.value.transportationAdvice == ""
    ensures r.Some? ==> Aliased(r.value.psychologicalAnalysis)
    ensures r.Some? ==> r.value.elements == Displays(r.value.elementsItems)
  {
    match m
    case TextResult(t) => Some(FromTextAsWritten(t))
    case ObjectResult(a) =>
      var r := TransformResult(a);
      if r.Some? then
        assert r.value.elements == Displays(r.value.elementsItems);
        r
      else r
  }

  /** The same dispatch with the section pattern as intended (`FreeText.FromText`): the
      corrected endpoint. It differs from `Normalize` only on free text. */
  function NormalizeIntended(m: ModelResult): (r: Option<Recommendation>)
    ensures r.None? <==> m.ObjectResult? && Throws(m.answer)
    ensures r.Some? ==> r.value.personality == "" && r.value.transportationAdvice == ""
    ensures r.Some? ==> Aliased(r.value.psychologicalAnalysis)
    ensures r.Some? ==> r.value.elements == Displays(r.value.elementsItems)
  {
    match m
    case TextResult(t) => Some(FromText(t))
    case ObjectResult(a) => TransformResult(a)
  }

  /** A fate section right after its header: the endpoint as written answers no element
      items, the corrected one answers the items of the section's element lines. */
  lemma IntendedReadsFate(pre: string, body: string)
    requires '【' !in pre && '【' !in body
    requires body != [] && !IsLetterS(body[0]) && !IsSpace(body[|body| - 1])
    ensures var m := TextResult(pre + Header(FateName) + body);
      && Normalize(m).Some? && Normalize(m).value.elementsItems == []
      && NormalizeIntended(m).Some? && NormalizeIntended(m).value.elementsItems == FateItems(Trim(body))
  {
    var t := pre + Header(FateName) + body;
    FateSectionLost(pre, body);
    TextDispatch(t);
  }

  lemma TextDispatch(t: string)
    ensures Normalize(TextResult(t)) == Some(FromTextAsWritten(t))
    ensures NormalizeIntended(TextResult(t)) == Some(FromText(t))
  {
  }

  /** On a structured answer the corrected endpoint and the endpoint as written agree. */
  lemma IntendedAgreesOnObjects(a: StructuredAnswer)
    ensures NormalizeIntended(ObjectResult(a)) == Normalize(ObjectResult(a))
  {
  }

  /** The endpoint's answer. `body` is `None` when the request body is not JSON, which
      `request.json()` rejects. */
  function Respond(body: Option<UserData>, ask: string -> Reply): ApiResponse {
    if body.None? then ErrorBody(ErrorMessage)
    else match Generate(body.value, ask)
      case Rejected => ErrorBody(ErrorMessage)
      case Resolved(m) =>
        match Normalize(m)
        case Some(r) => Record(r)
        case None => ErrorBody(ErrorMessage)
  }

  method Post(body: Option<UserData>, ask: string -> Reply) returns (resp: ApiResponse)
    ensures resp == Respond(body, ask)
  {
    resp := ErrorBody(ErrorMessage);
    if body.Some? {
      var outcome := Generate(body.value, ask);
      if outcome.Resolved? {
        RespondResolved(body, ask, outcome.result);
        match outcome.result {
          case TextResult(t) =>
            var r := ParseFromText(t);
            resp := Record(r);
          case ObjectResult(a) =>
            var r := TransformResult(a);
            if r.Some? {
              resp := Record(r.value);
            }
        }
      }
    }
  }

  lemma RespondResolved(body: Option<UserData>, ask: string -> Reply, m: ModelResult)
    requires body.Some? && Generate(body.value, ask) == Resolved(m)
    ensures Normalize(m).Some? ==> Respond(body, ask) == Record(Normalize(m).value)
    ensures Normalize(m).None? ==> Respond(body, ask) == ErrorBody(ErrorMessage)
  {
  }

  /** The error body is sent exactly when the body is not JSON, the service rejects it, or
      the structured answer makes `transformResult` throw. */
  lemma RespondErrors(body: Option<UserData>, ask: string -> Reply)
    ensures Respond(body, ask).ErrorBody? <==>
      || body.None?
      || Generate(body.value, ask).Rejected?
      || (Generate(body.value, ask).result.ObjectResult? && Throws(Generate(body.value, ask).result.answer))
    ensures Respond(body, ask).ErrorBody? ==> Respond(body, ask).error == ErrorMessage
  {
  }

  /** A free-text answer always reaches the page as a record, and with the section pattern
      as compiled that record is empty except for a material explanation made of the
      letters `s` and `S`. */
  lemma TextAnswerLost(body: Option<UserData>, ask: string -> Reply, t: string)
    requires body.Some? && Generate(body.value, ask) == Resolved(TextResult(t))
    ensures Respond(body, ask).Record?
    ensures var r := Respond(body, ask).rec;
      && r.coreConclusion == CoreConclusion([], "", "")
      && r.elements == [] && r.elementsItems == [] && r.recommendations == []
      && r.psychologicalAnalysis == Psychology("", "", "")
      && Letters(r.jewelryDecision)
  {
    var r := FromTextAsWritten(t);
    AsWrittenLosesEverything(t);
    assert Normalize(TextResult(t)) == Some(r);
    RespondResolved(body, ask, TextResult(t));
  }

  /** When the model call fails, answers with a non-ok status or answers with nothing, the
      service's fallback text has no `【` section, so the page receives an empty record: the
      canned recommendation itself is not shown. */
  lemma FallbackIsEmpty(user: UserData, ask: string -> Reply)
    requires user.chineseCalendar.Some? && user.answers.Some?
    ensures var reply := ask(BuildPrompt(user.chineseCalendar.value, user.direction, user.answers.value, user.birthday));
      (reply.Failure? || !(200 <= reply.status < 300) || !Present(reply.content)) ==>
        Respond(Some(user), ask) == Record(EmptyRecord)
  {
    var reply := ask(BuildPrompt(user.chineseCalendar.value, user.direction, user.answers.value, user.birthday));
    if reply.Failure? || !(200 <= reply.status < 300) || !Present(reply.content) {
      GenerateFallbackBare(user, ask);
      UnsectionedAnswer(Some(user), ask, Generate(user, ask).result.text);
    }
  }

  lemma UnsectionedAnswer(body: Option<UserData>, ask: string -> Reply, t: string)
    requires body.Some? && Generate(body.value, ask) == Resolved(TextResult(t)) && Avoids(t, '【')
    ensures Respond(body, ask) == Record(EmptyRecord)
  {
    AsWrittenUnsectioned(t);
  }
}

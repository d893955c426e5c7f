/** The `createSurvey` server action: an alternative construction of the same
    survey record, with 1-based orders and attributes passed through as
    submitted. Every failure, including a missing session, comes back as a
    value rather than an exception. */
module CreateAction {
  import opened SurveyTypes
  import SurveyRoute

  /** One element of the `choices` JSON field as the action reads it. */
  datatype ActionChoice = ActionChoice(text: Option<string>, imageUrl: Option<string>)

  /** One element of the `attributes` JSON field. */
  datatype ActionAttribute = ActionAttribute(kind: string, title: Option<string>, choices: seq<string>)

  /** The form. `choices` and `attributes` are None when their JSON does not
      parse into an array of the expected shape. */
  datatype ActionForm = ActionForm(
    title: string,
    choiceType: string,
    choices: Option<seq<ActionChoice>>,
    attributes: Option<seq<ActionAttribute>>)

  /** `{ success: true, surveyId }` (the record stands for the created row and
      its generated id) or `{ success: false, error: String(error) }`; the
      error text is known only for the missing session. */
  datatype ActionResult =
    | Success(survey: SurveyRoute.NewSurvey)
    | Failure(error: Option<string>)

  const UnauthorizedError := "Error: Unauthorized"

  /** `choices.map((choice, index) => ({ text, image_url: choice.imageUrl, order: index + 1 }))` */
  function ActionChoices(inputs: seq<ActionChoice>): seq<SurveyRoute.NewChoice>
  {
    seq(|inputs|, i requires 0 <= i < |inputs| =>
      SurveyRoute.NewChoice(inputs[i].text, inputs[i].imageUrl, i + 1))
  }

  /** One setting per submitted attribute, type and title copied, choices numbered from 1. */
  function ActionAttributes(inputs: seq<ActionAttribute>): seq<SurveyRoute.NewAttribute>
  {
    seq(|inputs|, i requires 0 <= i < |inputs| =>
      SurveyRoute.NewAttribute(inputs[i].kind, inputs[i].title, SurveyRoute.Numbered(inputs[i].choices, 1)))
  }

  function CreateSurvey(session: Option<string>, form: ActionForm, env: SurveyRoute.Env,
                        encode: string -> string): (result: ActionResult)
    ensures session.None? ==> result == Failure(Some(UnauthorizedError))
    ensures session.Some? && (form.choices.None? || form.attributes.None?) ==> result.Failure?
    ensures result.Success? <==> session.Some? && form.choices.Some? && form.attributes.Some?
    ensures result.Success? ==>
              && result.survey.userId == session.value
              && result.survey.title == form.title
              && result.survey.choiceType == form.choiceType
              && result.survey.thumbnailUrl == SurveyRoute.ThumbnailUrl(env, form.title, encode)
              && result.survey.votingEnd.None?
  {
    if session.None? then Failure(Some(UnauthorizedError))
    else if form.choices.None? || form.attributes.None? then Failure(None)
    else
      Success(SurveyRoute.NewSurvey(
        form.title,
        form.choiceType,
        session.value,
        SurveyRoute.ThumbnailUrl(env, form.title, encode),
        None,
        ActionChoices(form.choices.value),
        ActionAttributes(form.attributes.value)))
  }

  /** Choices are created one per input in order, numbered from 1, with the
      submitted text and image URL unchanged (empty text is kept, unlike the
      API route); attributes are created one per input in order with their
      type, title and choice texts, choices numbered from 1. */
  lemma CreatedRecord(session: Option<string>, form: ActionForm, env: SurveyRoute.Env, encode: string -> string)
    requires CreateSurvey(session, form, env, encode).Success?
    ensures var r := CreateSurvey(session, form, env, encode).survey;
            && |r.choices| == |form.choices.value|
            && (forall i :: 0 <= i < |r.choices| ==>
                  r.choices[i].order == i + 1
                  && r.choices[i].text == form.choices.value[i].text
                  && r.choices[i].imageUrl == form.choices.value[i].imageUrl)
            && |r.attributes| == |form.attributes.value|
            && (forall i :: 0 <= i < |r.attributes| ==>
                  var a := form.attributes.value[i];
                  && r.attributes[i].kind == a.kind
                  && r.attributes[i].title == a.title
                  && |r.attributes[i].choices| == |a.choices|
                  && (forall k :: 0 <= k < |a.choices| ==>
                        r.attributes[i].choices[k].text == a.choices[k]
                        && r.attributes[i].choices[k].order == k + 1))
  {
  }

  /** The action and the API route build the same record from the same
      title and environment, but number choices differently: the action's
      order of choice i is the route's plus one. */
  lemma OrdersDifferByOne(actionInputs: seq<ActionChoice>, routeInputs: seq<SurveyRoute.ChoiceInput>,
                          files: map<nat, SurveyRoute.FormFile>, userId: string, stamp: nat -> string,
                          upload: (SurveyRoute.FormFile, string) -> Option<string>)
    requires |actionInputs| == |routeInputs|
    ensures forall i :: 0 <= i < |actionInputs| ==>
              ActionChoices(actionInputs)[i].order
              == SurveyRoute.BuildChoices(routeInputs, files, userId, stamp, upload)[i].order + 1
  {
  }
}

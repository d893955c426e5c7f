/** `POST /api/surveys/response`: records one response per (user, survey)
    pair. The Response table is a list of rows; the handler looks the pair up
    and inserts only when it is absent. */
module ResponseRoute {
  import opened SurveyTypes

  /** One element of the request's `attributes` array. */
  datatype AttributeAnswer = AttributeAnswer(attributeId: string, choiceId: string)

  /** The JSON body `{ surveyId, choiceId, attributes }`; a field the client
      left out is None. */
  datatype ResponseBody = ResponseBody(
    surveyId: Option<string>,
    choiceId: Option<string>,
    attributes: Option<seq<AttributeAnswer>>)

  /** A RespondentAttribute row as created (its generated ids are not modelled). */
  datatype StoredAttribute = StoredAttribute(attributeSettingId: string, attributeChoiceId: string)

  /** A Response row with its RespondentAttribute children. */
  datatype StoredResponse = StoredResponse(
    surveyId: string,
    userId: string,
    choiceId: string,
    attributes: seq<StoredAttribute>)

  datatype Reply =
    | Unauthorized        // 401
    | AlreadyResponded    // 400 "Already responded"
    | ServerError         // 500, any exception inside the try block
    | Created(response: StoredResponse)

  /** The HTTP status of a reply: 200 on success, 401 without a session,
      400 when the user already responded, 500 on a server error. */
  function StatusOf(reply: Reply): (status: nat)
    ensures status == 200 <==> reply.Created?
    ensures status == 401 <==> reply.Unauthorized?
    ensures status == 400 <==> reply.AlreadyResponded?
    ensures status == 500 <==> reply.ServerError?
  {
    match reply
    case Unauthorized => 401
    case AlreadyResponded => 400
    case ServerError => 500
    case Created(_) => 200
  }

  /** `attributes.map(attr => ({ attributeSettingId: attr.attributeId, attributeChoiceId: attr.choiceId }))` */
  function ToStoredAttributes(answers: seq<AttributeAnswer>): seq<StoredAttribute>
  {
    seq(|answers|, i requires 0 <= i < |answers| =>
      StoredAttribute(answers[i].attributeId, answers[i].choiceId))
  }

  ghost predicate IsFor(row: StoredResponse, userId: string, surveyId: string)
  {
    row.userId == userId && row.surveyId == surveyId
  }

  /** At most one row per (userId, surveyId). */
  ghost predicate Unique(rows: seq<StoredResponse>)
  {
    forall i, j :: 0 <= i < j < |rows| ==>
      !(rows[i].userId == rows[j].userId && rows[i].surveyId == rows[j].surveyId)
  }

  /** `prisma.response.findUnique({ where: { userId_surveyId } })` */
  function FindResponse(rows: seq<StoredResponse>, userId: string, surveyId: string): (r: Option<StoredResponse>)
    ensures r.None? <==> forall i :: 0 <= i < |rows| ==> !IsFor(rows[i], userId, surveyId)
    ensures r.Some? ==> r.value in rows && IsFor(r.value, userId, surveyId)
  {
    if rows == [] then None
    else if rows[0].userId == userId && rows[0].surveyId == surveyId then Some(rows[0])
    else
      var r := FindResponse(rows[1..], userId, surveyId);
      assert forall i :: 1 <= i < |rows| ==> rows[i] == rows[1..][i - 1];
      r
  }

  /** Appending a row for a pair that has none keeps the rows unique. */
  lemma AppendKeepsUnique(rows: seq<StoredResponse>, row: StoredResponse)
    requires Unique(rows)
    requires FindResponse(rows, row.userId, row.surveyId).None?
    ensures Unique(rows + [row])
  {
    var all := rows + [row];
    forall i, j | 0 <= i < j < |all|
      ensures !(all[i].userId == all[j].userId && all[i].surveyId == all[j].surveyId)
    {
      if j == |rows| {
        assert !IsFor(rows[i], row.userId, row.surveyId);
      }
    }
  }

  class ResponseStore {
    var rows: seq<StoredResponse>

    ghost predicate Valid()
      reads this
    {
      Unique(rows)
    }

    constructor ()
      ensures Valid() && rows == []
    {
      rows := [];
    }

    /** The handler. `session` is the signed-in user's id, None without a
        session; `body` is None when the request body is not JSON. */
    method Post(session: Option<string>, body: Option<ResponseBody>) returns (reply: Reply)
      requires Valid()
      modifies this
      ensures Valid()
      ensures session.None? ==> reply == Unauthorized && rows == old(rows)
      ensures session.Some? && body.None? ==> reply == ServerError && rows == old(rows)
      ensures session.Some? && body.Some? && body.value.surveyId.None? ==>
                reply == ServerError && rows == old(rows)
      ensures session.Some? && body.Some? && body.value.surveyId.Some?
              && FindResponse(old(rows), session.value, body.value.surveyId.value).Some? ==>
                reply == AlreadyResponded && rows == old(rows)
      ensures session.Some? && body.Some? && body.value.surveyId.Some?
              && FindResponse(old(rows), session.value, body.value.surveyId.value).None?
              && (body.value.choiceId.None? || body.value.attributes.None?) ==>
                reply == ServerError && rows == old(rows)
      ensures session.Some? && body.Some? && body.value.surveyId.Some?
              && FindResponse(old(rows), session.value, body.value.surveyId.value).None?
              && body.value.choiceId.Some? && body.value.attributes.Some? ==>
                var row := StoredResponse(body.value.surveyId.value, session.value, body.value.choiceId.value,
                                          ToStoredAttributes(body.value.attributes.value));
                reply == Created(row) && rows == old(rows) + [row]
    {
      if session.None? {
        return Unauthorized;
      }
      var userId := session.value;
      if body.None? || body.value.surveyId.None? {
        return ServerError;
      }
      var surveyId := body.value.surveyId.value;
      var existing := FindResponse(rows, userId, surveyId);
      if existing.Some? {
        return AlreadyResponded;
      }
      if body.value.choiceId.None? || body.value.attributes.None? {
        return ServerError;
      }
      var row := StoredResponse(surveyId, userId, body.value.choiceId.value,
                                ToStoredAttributes(body.value.attributes.value));
      AppendKeepsUnique(rows, row);
      rows := rows + [row];
      reply := Created(row);
    }
  }

  /** Each created RespondentAttribute copies one submitted pair, in order:
      `attributeId` becomes the setting id and `choiceId` the attribute choice id. */
  lemma StoredAttributesFollowAnswers(answers: seq<AttributeAnswer>)
    ensures |ToStoredAttributes(answers)| == |answers|
    ensures forall i :: 0 <= i < |answers| ==>
      ToStoredAttributes(answers)[i].attributeSettingId == answers[i].attributeId
      && ToStoredAttributes(answers)[i].attributeChoiceId == answers[i].choiceId
  {
  }

  /** Two submissions by the same user for the same survey: the second is
      refused and leaves the first in place. */
  method SecondSubmissionRefused(userId: string, first: ResponseBody, second: ResponseBody)
    returns (r1: Reply, r2: Reply)
    requires first.surveyId.Some? && first.choiceId.Some? && first.attributes.Some?
    requires second.surveyId == first.surveyId
    ensures r1.Created? && r2 == AlreadyResponded
  {
    var store := new ResponseStore();
    r1 := store.Post(Some(userId), Some(first));
    r2 := store.Post(Some(userId), Some(second));
  }
}

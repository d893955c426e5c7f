/** The records of a survey as the results view, the response form and the
    API handlers see them. Ids are opaque strings; timestamps are not part of
    this model. */
module SurveyTypes {

  datatype Option<+T> = None | Some(value: T)

  datatype Choice = Choice(
    id: string,
    text: Option<string>,
    imageUrl: Option<string>,
    order: int,
    surveyId: string)

  datatype AttributeChoice = AttributeChoice(
    id: string,
    text: string,
    order: int,
    attributeSettingId: string)

  datatype AttributeSetting = AttributeSetting(
    id: string,
    kind: string,
    title: Option<string>,
    surveyId: string,
    choices: seq<AttributeChoice>)

  datatype RespondentAttribute = RespondentAttribute(
    id: string,
    responseId: string,
    attributeSettingId: string,
    attributeChoiceId: string)

  datatype Response = Response(
    id: string,
    surveyId: string,
    userId: string,
    choiceId: string,
    attributes: seq<RespondentAttribute>)

  datatype Survey = Survey(
    id: string,
    title: string,
    choiceType: string,
    userId: string,
    choices: seq<Choice>,
    attributes: seq<AttributeSetting>,
    responses: seq<Response>)

  /** JavaScript truthiness of an optional string: null, undefined and "" are falsy. */
  predicate Truthy(s: Option<string>)
  {
    s.Some? && s.value != ""
  }

  /** `Array.prototype.filter`: the elements satisfying `p`, in their order. */
  function Filter<T>(s: seq<T>, p: T -> bool): (r: seq<T>)
    ensures |r| <= |s|
    ensures forall i :: 0 <= i < |r| ==> r[i] in s && p(r[i])
    ensures forall i :: 0 <= i < |s| && p(s[i]) ==> s[i] in r
    ensures Subsequence(r, s)
  {
    if s == [] then []
    else if p(s[0]) then [s[0]] + Filter(s[1..], p)
    else Filter(s[1..], p)
  }

  /** `r` is `s` with some elements left out and the rest in their order. */
  ghost predicate Subsequence<T>(r: seq<T>, s: seq<T>)
    decreases |s|
  {
    if r == [] then true
    else if s == [] then false
    else (r[0] == s[0] && Subsequence(r[1..], s[1..])) || Subsequence(r, s[1..])
  }

  lemma {:induction false} FilterAppend<T>(s: seq<T>, t: seq<T>, p: T -> bool)
    ensures Filter(s + t, p) == Filter(s, p) + Filter(t, p)
  {
    if s == [] {
      assert s + t == t;
    } else {
      assert (s + t)[1..] == s[1..] + t;
      FilterAppend(s[1..], t, p);
    }
  }

  /** A filter keeps every element satisfying `p` exactly as often as it occurs. */
  lemma {:induction false} FilterMultiplicity<T>(s: seq<T>, p: T -> bool, x: T)
    ensures multiset(Filter(s, p))[x] == if p(x) then multiset(s)[x] else 0
  {
    if s != [] {
      assert s == [s[0]] + s[1..];
      FilterMultiplicity(s[1..], p, x);
    }
  }
}

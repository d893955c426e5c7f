/** The response form of a survey (client side). `selectedAttributes` is a
    JavaScript object, kept here as its entries in insertion order; the
    completeness check on the attributes lives only here, not in the API
    handler. */
module SurveyResponseForm {
  import opened SurveyTypes
  import ResponseRoute

  /** One key/value pair of `selectedAttributes`: attribute id to attribute choice id. */
  datatype Entry = Entry(key: string, value: string)

  function Keys(entries: seq<Entry>): seq<string>
  {
    seq(|entries|, i requires 0 <= i < |entries| => entries[i].key)
  }

  ghost predicate DistinctKeys(entries: seq<Entry>)
  {
    forall i, j :: 0 <= i < j < |entries| ==> entries[i].key != entries[j].key
  }

  lemma KeysCons(e: Entry, rest: seq<Entry>)
    ensures Keys([e] + rest) == [e.key] + Keys(rest)
  {
  }

  /** `selectedAttributes[key]`: None when the key is absent. */
  function Lookup(entries: seq<Entry>, key: string): (r: Option<string>)
    ensures r.None? <==> key !in Keys(entries)
    ensures r.Some? ==> Entry(key, r.value) in entries
  {
    if entries == [] then None
    else
      KeysCons(entries[0], entries[1..]);
      assert [entries[0]] + entries[1..] == entries;
      if entries[0].key == key then Some(entries[0].value)
      else Lookup(entries[1..], key)
  }

  /** `{ ...prev, [key]: value }`: an existing key keeps its position and takes
      the new value; a new key goes last. */
  function SetEntry(entries: seq<Entry>, key: string, value: string): (r: seq<Entry>)
    ensures |r| == if key in Keys(entries) then |entries| else |entries| + 1
  {
    if entries == [] then [Entry(key, value)]
    else
      KeysCons(entries[0], entries[1..]);
      assert [entries[0]] + entries[1..] == entries;
      if entries[0].key == key then [Entry(key, value)] + entries[1..]
      else [entries[0]] + SetEntry(entries[1..], key, value)
  }

  /** The spread update: the key now reads `value`, every other key reads
      what it read before, the key order is kept and a new key goes last. */
  lemma {:induction false} SetEntryUpdates(entries: seq<Entry>, key: string, value: string)
    ensures Lookup(SetEntry(entries, key, value), key) == Some(value)
    ensures forall k :: k != key ==> Lookup(SetEntry(entries, key, value), k) == Lookup(entries, k)
    ensures Keys(SetEntry(entries, key, value)) == if key in Keys(entries) then Keys(entries) else Keys(entries) + [key]
  {
    var r := SetEntry(entries, key, value);
    if entries == [] {
      assert Keys(r) == [key];
    } else {
      KeysCons(entries[0], entries[1..]);
      assert [entries[0]] + entries[1..] == entries;
      if entries[0].key == key {
        KeysCons(Entry(key, value), entries[1..]);
      } else {
        var rest := SetEntry(entries[1..], key, value);
        SetEntryUpdates(entries[1..], key, value);
        KeysCons(entries[0], rest);
        assert r == [entries[0]] + rest;
        assert ([entries[0]] + rest)[1..] == rest;
      }
    }
  }

  /** The update never duplicates a key. */
  lemma SetEntryKeepsDistinct(entries: seq<Entry>, key: string, value: string)
    requires DistinctKeys(entries)
    ensures DistinctKeys(SetEntry(entries, key, value))
  {
    SetEntryUpdates(entries, key, value);
    var r := SetEntry(entries, key, value);
    forall i, j | 0 <= i < j < |r| ensures r[i].key != r[j].key {
      assert Keys(r)[i] == r[i].key && Keys(r)[j] == r[j].key;
      assert Keys(entries)[i] == entries[i].key;
      if j < |entries| {
        assert Keys(entries)[j] == entries[j].key;
      } else {
        assert key !in Keys(entries);
      }
    }
  }

  /** `survey.attributes.every(attr => selectedAttributes[attr.id])`: every
      attribute has a selection, and the placeholder "" does not count. */
  function HasAllRequiredAttributes(attributes: seq<AttributeSetting>, entries: seq<Entry>): (b: bool)
    ensures b <==> forall i :: 0 <= i < |attributes| ==> Truthy(Lookup(entries, attributes[i].id))
  {
    if attributes == [] then true
    else
      var rest := HasAllRequiredAttributes(attributes[1..], entries);
      assert forall i :: 1 <= i < |attributes| ==> attributes[i] == attributes[1..][i - 1];
      Truthy(Lookup(entries, attributes[0].id)) && rest
  }

  /** `Object.entries(selectedAttributes).map(([attributeId, choiceId]) => ({ attributeId, choiceId }))` */
  function Payload(entries: seq<Entry>): seq<ResponseRoute.AttributeAnswer>
  {
    seq(|entries|, i requires 0 <= i < |entries| => ResponseRoute.AttributeAnswer(entries[i].key, entries[i].value))
  }

  datatype SubmitOutcome =
    | LoginPrompt                       // no session: the form is not shown
    | NoChoiceAlert                     // no choice selected
    | MissingAttributesAlert            // some attribute has no selection
    | Sent(request: ResponseRoute.ResponseBody, accepted: bool)

  function AttributeIds(attributes: seq<AttributeSetting>): seq<string>
  {
    seq(|attributes|, i requires 0 <= i < |attributes| => attributes[i].id)
  }

  class ResponseForm {
    const survey: Survey
    const signedIn: bool
    var selectedChoice: Option<string>
    var selectedAttributes: seq<Entry>
    var isSubmitting: bool

    /** Keys are distinct and only ever survey attribute ids. */
    ghost predicate Valid()
      reads this
    {
      DistinctKeys(selectedAttributes)
      && forall k :: k in Keys(selectedAttributes) ==> k in AttributeIds(survey.attributes)
    }

    constructor (survey: Survey, signedIn: bool)
      ensures Valid()
      ensures this.survey == survey && this.signedIn == signedIn
      ensures selectedChoice.None? && selectedAttributes == [] && !isSubmitting
    {
      this.survey := survey;
      this.signedIn := signedIn;
      selectedChoice := None;
      selectedAttributes := [];
      isSubmitting := false;
    }

    /** A choice button: `setSelectedChoice(choice.id)`. */
    method SelectChoice(choiceId: string)
      modifies this`selectedChoice
      ensures selectedChoice == Some(choiceId)
    {
      selectedChoice := Some(choiceId);
    }

    /** The select of one survey attribute: overwrites that key only. */
    method SelectAttribute(attributeId: string, value: string)
      requires Valid()
      requires attributeId in AttributeIds(survey.attributes)
      modifies this`selectedAttributes
      ensures Valid()
      ensures Lookup(selectedAttributes, attributeId) == Some(value)
      ensures forall k :: k != attributeId ==> Lookup(selectedAttributes, k) == Lookup(old(selectedAttributes), k)
      ensures Keys(selectedAttributes) == if attributeId in Keys(old(selectedAttributes)) then Keys(old(selectedAttributes))
                                          else Keys(old(selectedAttributes)) + [attributeId]
    {
      SetEntryUpdates(selectedAttributes, attributeId, value);
      SetEntryKeepsDistinct(selectedAttributes, attributeId, value);
      selectedAttributes := SetEntry(selectedAttributes, attributeId, value);
    }

    /** `handleSubmit`. `serverOk` stands for `response.ok` of the request,
        when one is sent. */
    method HandleSubmit(serverOk: bool) returns (outcome: SubmitOutcome)
      requires Valid()
      modifies this`isSubmitting
      ensures !isSubmitting
      ensures !signedIn ==> outcome == LoginPrompt
      ensures signedIn && !Truthy(selectedChoice) ==> outcome == NoChoiceAlert
      ensures signedIn && Truthy(selectedChoice)
              && !HasAllRequiredAttributes(survey.attributes, selectedAttributes) ==>
                outcome == MissingAttributesAlert
      ensures signedIn && Truthy(selectedChoice)
              && HasAllRequiredAttributes(survey.attributes, selectedAttributes) ==>
                outcome == Sent(ResponseRoute.ResponseBody(Some(survey.id), selectedChoice, Some(Payload(selectedAttributes))),
                                serverOk)
    {
      if !signedIn {
        isSubmitting := false;
        return LoginPrompt;
      }
      if !Truthy(selectedChoice) {
        isSubmitting := false;
        return NoChoiceAlert;
      }
      isSubmitting := true;
      if !HasAllRequiredAttributes(survey.attributes, selectedAttributes) {
        outcome := MissingAttributesAlert;
      } else {
        var request := ResponseRoute.ResponseBody(Some(survey.id), selectedChoice, Some(Payload(selectedAttributes)));
        outcome := Sent(request, serverOk);
      }
      isSubmitting := false;
    }
  }

  /** A request the form sends names every survey attribute, once, with a
      non-empty selection, and nothing else. */
  lemma PayloadCoversAttributes(attributes: seq<AttributeSetting>, entries: seq<Entry>)
    requires DistinctKeys(entries)
    requires forall k :: k in Keys(entries) ==> k in AttributeIds(attributes)
    requires HasAllRequiredAttributes(attributes, entries)
    ensures forall i :: 0 <= i < |attributes| ==>
      exists j :: 0 <= j < |Payload(entries)| && Payload(entries)[j].attributeId == attributes[i].id
                  && Payload(entries)[j].choiceId != ""
    ensures forall j :: 0 <= j < |Payload(entries)| ==> Payload(entries)[j].attributeId in AttributeIds(attributes)
    ensures forall i, j :: 0 <= i < j < |Payload(entries)| ==> Payload(entries)[i].attributeId != Payload(entries)[j].attributeId
  {
    forall i | 0 <= i < |attributes|
      ensures exists j :: 0 <= j < |Payload(entries)| && Payload(entries)[j].attributeId == attributes[i].id
                          && Payload(entries)[j].choiceId != ""
    {
      var v := Lookup(entries, attributes[i].id);
      assert Truthy(v);
      var j :| 0 <= j < |entries| && entries[j] == Entry(attributes[i].id, v.value);
      assert Payload(entries)[j].attributeId == attributes[i].id;
    }
    forall j | 0 <= j < |Payload(entries)| ensures Payload(entries)[j].attributeId in AttributeIds(attributes) {
      assert Keys(entries)[j] == entries[j].key;
    }
  }
}

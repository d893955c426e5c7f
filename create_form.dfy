/** The survey creation form: its editable lists of choices and custom
    attributes, the voting period fields, and the multipart form it submits
    to `POST /api/surveys`. */
module CreateForm {
  import opened SurveyTypes
  import SurveyRoute
  import VotingStatus

  /** A choice being edited. `imageUrl` is set to "" for choices added while
      the survey type shows images; `file` is the image picked for it. */
  datatype FormChoice = FormChoice(text: string, imageUrl: Option<string>, file: Option<SurveyRoute.FormFile>)

  /** A custom attribute being edited: its title and its choice texts. */
  datatype CustomAttribute = CustomAttribute(title: string, choices: seq<string>)

  const MinChoices := 2
  const MaxChoices := 10
  const MinAttributeChoices := 1
  const MaxAttributeChoices := 10

  /** `arr.filter((_, i) => i !== index)`: drops the element at `index`, if any. */
  function Without<T>(s: seq<T>, index: int): (r: seq<T>)
    ensures 0 <= index < |s| ==> |r| == |s| - 1
    ensures !(0 <= index < |s|) ==> r == s
    ensures 0 <= index < |s| ==> forall i :: 0 <= i < |r| ==> r[i] == if i < index then s[i] else s[i + 1]
  {
    if 0 <= index < |s| then s[..index] + s[index + 1..] else s
  }

  predicate IsDigit(c: char)
  {
    '0' <= c <= '9'
  }

  /** `/^\d+$/.test(value)` */
  predicate AllDigits(s: string)
  {
    |s| > 0 && forall i :: 0 <= i < |s| ==> IsDigit(s[i])
  }

  /** The decimal value of a digit string. */
  function DecimalValue(s: string): (v: nat)
    requires forall i :: 0 <= i < |s| ==> IsDigit(s[i])
  {
    if s == [] then 0
    else
      assert IsDigit(s[|s| - 1]);
      DecimalValue(s[..|s| - 1]) * 10 + (s[|s| - 1] as int - '0' as int)
  }

  /** Number of leading decimal digits. */
  function LeadingDigits(s: string): (n: nat)
    ensures n <= |s|
    ensures forall i :: 0 <= i < n ==> IsDigit(s[i])
    ensures n < |s| ==> !IsDigit(s[n])
  {
    if s == [] || !IsDigit(s[0]) then 0 else LeadingDigits(s[1..]) + 1
  }

  /** `parseInt(s) || 0` on text without sign or leading blanks: the value of
      the leading digits, and 0 when there are none. */
  function ParseIntOrZero(s: string): (v: nat)
    ensures AllDigits(s) ==> v == DecimalValue(s)
    ensures |s| > 0 && !IsDigit(s[0]) ==> v == 0
  {
    var n := LeadingDigits(s);
    assert AllDigits(s) ==> s[..n] == s;
    if n == 0 then 0 else DecimalValue(s[..n])
  }

  /** The voting period as whole minutes after the moment of submission.
      With hours and minutes within their menus' ranges it splits back into
      the three parsed fields. */
  function VotingOffsetMinutes(days: string, hours: string, minutes: string): (m: nat)
    ensures ParseIntOrZero(hours) < 24 && ParseIntOrZero(minutes) < 60 ==>
              && m / 1440 == ParseIntOrZero(days)
              && (m % 1440) / 60 == ParseIntOrZero(hours)
              && m % 60 == ParseIntOrZero(minutes)
  {
    var d, h, n := ParseIntOrZero(days), ParseIntOrZero(hours), ParseIntOrZero(minutes);
    if h < 24 && n < 60 then
      OffsetSplitsBack(d, h, n);
      d * 1440 + h * 60 + n
    else
      d * 1440 + h * 60 + n
  }

  /** The countdown read at the moment of submission shows the three period
      fields as they were parsed, whenever hours and minutes come from their
      menus (0 to 23 and 0 to 59). */
  lemma CountdownShowsFields(now: int, days: string, hours: string, minutes: string)
    requires ParseIntOrZero(hours) < 24 && ParseIntOrZero(minutes) < 60
    ensures VotingStatus.TimeRemaining(now + VotingOffsetMinutes(days, hours, minutes) * 60000, now)
            == VotingStatus.Remaining(ParseIntOrZero(days), ParseIntOrZero(hours), ParseIntOrZero(minutes))
  {
    VotingStatus.RemainingRecoversOffset(now, ParseIntOrZero(days), ParseIntOrZero(hours), ParseIntOrZero(minutes));
  }

  /** The three period fields. */
  datatype TimeField = Days | Hours | Minutes

  /** The form's state. */
  class SurveyForm {
    var title: string
    var choiceType: string
    var choices: seq<FormChoice>
    var useAge: bool
    var useGender: bool
    var useLocation: bool
    var customAttributes: seq<CustomAttribute>
    var votingEndDays: string
    var votingEndHours: string
    var votingEndMinutes: string
    var isSubmitting: bool

    /** The bounds the handlers keep: 2 to 10 choices, and 1 to 10 choices in
        every custom attribute. */
    ghost predicate Valid()
      reads this
    {
      MinChoices <= |choices| <= MaxChoices
      && forall i :: 0 <= i < |customAttributes| ==>
           MinAttributeChoices <= |customAttributes[i].choices| <= MaxAttributeChoices
    }

    constructor ()
      ensures Valid()
      ensures title == "" && choiceType == "TEXT_ONLY"
      ensures choices == [FormChoice("", None, None), FormChoice("", None, None)]
      ensures !useAge && !useGender && !useLocation && customAttributes == []
      ensures votingEndDays == "1" && votingEndHours == "0" && votingEndMinutes == "0"
      ensures !isSubmitting
    {
      title := "";
      choiceType := "TEXT_ONLY";
      choices := [FormChoice("", None, None), FormChoice("", None, None)];
      useAge, useGender, useLocation := false, false, false;
      customAttributes := [];
      votingEndDays, votingEndHours, votingEndMinutes := "1", "0", "0";
      isSubmitting := false;
    }

    /** `handleAddChoice`: appends an empty choice when there are fewer than 10. */
    method AddChoice()
      requires Valid()
      modifies this`choices
      ensures Valid()
      ensures |old(choices)| < MaxChoices ==>
                choices == old(choices) + [FormChoice("", if choiceType == "TEXT_ONLY" then None else Some(""), None)]
      ensures |old(choices)| >= MaxChoices ==> choices == old(choices)
    {
      if |choices| < MaxChoices {
        choices := choices + [FormChoice("", if choiceType == "TEXT_ONLY" then None else Some(""), None)];
      }
    }

    /** `handleRemoveChoice`: drops the choice at `index` when there are more than 2. */
    method RemoveChoice(index: int)
      requires Valid()
      modifies this`choices
      ensures Valid()
      ensures |old(choices)| > MinChoices ==> choices == Without(old(choices), index)
      ensures |old(choices)| <= MinChoices ==> choices == old(choices)
    {
      if |choices| > MinChoices {
        choices := Without(choices, index);
      }
    }

    /** `handleChoiceTextChange`: replaces the text of choice `index` only. */
    method SetChoiceText(index: int, text: string)
      requires Valid()
      requires 0 <= index < |choices|
      modifies this`choices
      ensures Valid()
      ensures choices == old(choices)[index := old(choices)[index].(text := text)]
    {
      choices := choices[index := choices[index].(text := text)];
    }

    /** `handleImageUpload`: attaches the picked file to choice `index` only. */
    method SetChoiceFile(index: int, file: SurveyRoute.FormFile)
      requires Valid()
      requires 0 <= index < |choices|
      modifies this`choices
      ensures Valid()
      ensures choices == old(choices)[index := old(choices)[index].(file := Some(file))]
    {
      choices := choices[index := choices[index].(file := Some(file))];
    }

    /** `handleAddCustomAttribute`: a new attribute with an empty title and one empty choice. */
    method AddCustomAttribute()
      requires Valid()
      modifies this`customAttributes
      ensures Valid()
      ensures customAttributes == old(customAttributes) + [CustomAttribute("", [""])]
    {
      customAttributes := customAttributes + [CustomAttribute("", [""])];
    }

    /** `handleRemoveCustomAttribute` */
    method RemoveCustomAttribute(index: int)
      requires Valid()
      modifies this`customAttributes
      ensures Valid()
      ensures customAttributes == Without(old(customAttributes), index)
    {
      customAttributes := Without(customAttributes, index);
    }

    /** `handleCustomAttributeTitleChange` */
    method SetCustomAttributeTitle(index: int, title: string)
      requires Valid()
      requires 0 <= index < |customAttributes|
      modifies this`customAttributes
      ensures Valid()
      ensures customAttributes == old(customAttributes)[index := old(customAttributes)[index].(title := title)]
    {
      customAttributes := customAttributes[index := customAttributes[index].(title := title)];
    }

    /** `handleAddCustomChoice`: appends an empty choice when the attribute has fewer than 10. */
    method AddCustomChoice(attributeIndex: int)
      requires Valid()
      requires 0 <= attributeIndex < |customAttributes|
      modifies this`customAttributes
      ensures Valid()
      ensures var a := old(customAttributes)[attributeIndex];
              customAttributes == if |a.choices| < MaxAttributeChoices
                                  then old(customAttributes)[attributeIndex := a.(choices := a.choices + [""])]
                                  else old(customAttributes)
    {
      var a := customAttributes[attributeIndex];
      if |a.choices| < MaxAttributeChoices {
        customAttributes := customAttributes[attributeIndex := a.(choices := a.choices + [""])];
      }
    }

    /** `handleRemoveCustomChoice`: drops one choice when the attribute has more than 1. */
    method RemoveCustomChoice(attributeIndex: int, choiceIndex: int)
      requires Valid()
      requires 0 <= attributeIndex < |customAttributes|
      modifies this`customAttributes
      ensures Valid()
      ensures var a := old(customAttributes)[attributeIndex];
              customAttributes == if |a.choices| > MinAttributeChoices
                                  then old(customAttributes)[attributeIndex := a.(choices := Without(a.choices, choiceIndex))]
                                  else old(customAttributes)
    {
      var a := customAttributes[attributeIndex];
      if |a.choices| > MinAttributeChoices {
        customAttributes := customAttributes[attributeIndex := a.(choices := Without(a.choices, choiceIndex))];
      }
    }

    /** `handleCustomChoiceTextChange` */
    method SetCustomChoiceText(attributeIndex: int, choiceIndex: int, text: string)
      requires Valid()
      requires 0 <= attributeIndex < |customAttributes|
      requires 0 <= choiceIndex < |customAttributes[attributeIndex].choices|
      modifies this`customAttributes
      ensures Valid()
      ensures var a := old(customAttributes)[attributeIndex];
              customAttributes == old(customAttributes)[attributeIndex := a.(choices := a.choices[choiceIndex := text])]
    {
      var a := customAttributes[attributeIndex];
      customAttributes := customAttributes[attributeIndex := a.(choices := a.choices[choiceIndex := text])];
    }

    function TimeValue(field: TimeField): string
      reads this
    {
      match field
      case Days => votingEndDays
      case Hours => votingEndHours
      case Minutes => votingEndMinutes
    }

    /** `handleTimeChange`: stores `value` in the field when it is empty or
        all digits and its value does not exceed `max`. */
    method SetTime(field: TimeField, value: string, max: int)
      modifies this`votingEndDays, this`votingEndHours, this`votingEndMinutes
      ensures (value == "" || AllDigits(value)) && ParseIntOrZero(value) <= max ==>
                TimeValue(field) == value
      ensures !((value == "" || AllDigits(value)) && ParseIntOrZero(value) <= max) ==>
                TimeValue(field) == old(TimeValue(field))
      ensures forall f :: f != field ==> TimeValue(f) == old(TimeValue(f))
    {
      if value == "" || AllDigits(value) {
        assert DecimalValue("0") == 0 by {
          assert "0"[..0] == "";
        }
        var numValue := ParseIntOrZero(if value == "" then "0" else value);
        if numValue <= max {
          match field
          case Days => votingEndDays := value;
          case Hours => votingEndHours := value;
          case Minutes => votingEndMinutes := value;
        }
      }
    }

    /** The request `handleSubmit` sends, for a submission at `now` (in
        milliseconds); `isoOf` renders an instant as `toISOString` does. No
        `file_<i>` field is appended. */
    function Submission(now: int, isoOf: int -> string): (form: SurveyRoute.SurveyForm)
      reads this
      ensures form.files == map[]
      ensures form.title == title && form.choiceType == choiceType
      ensures form.choices == Some(ChoicesJson(choices))
      ensures form.attributes.Some?
      ensures var a := form.attributes.value;
              && a.useAge == useAge && a.useGender == useGender && a.useLocation == useLocation
              && |a.customAttributes| == |customAttributes|
              && forall i :: 0 <= i < |customAttributes| ==>
                   a.customAttributes[i].title == customAttributes[i].title
                   && a.customAttributes[i].choices == customAttributes[i].choices
      ensures form.votingEnd == Some(isoOf(now + VotingOffsetMinutes(votingEndDays, votingEndHours, votingEndMinutes) * 60000))
    {
      SurveyRoute.SurveyForm(
        title,
        choiceType,
        Some(ChoicesJson(choices)),
        Some(SurveyRoute.AttributesInput(useAge, useGender, useLocation, CustomJson(customAttributes))),
        Some(isoOf(now + VotingOffsetMinutes(votingEndDays, votingEndHours, votingEndMinutes) * 60000)),
        map[])
    }

    /** The same request with a `file_<i>` field for every choice that has a picked image. */
    function CorrectedSubmission(now: int, isoOf: int -> string): (form: SurveyRoute.SurveyForm)
      reads this
      ensures form == Submission(now, isoOf).(files := form.files)
      ensures forall i: nat :: i in form.files <==> i < |choices| && choices[i].file.Some?
      ensures forall i: nat :: i in form.files ==> form.files[i] == choices[i].file.value
    {
      Submission(now, isoOf).(files := PickedFiles(choices))
    }

    /** `handleSubmit`: `isSubmitting` is set for the request and cleared on
        every path afterwards. */
    method HandleSubmit(now: int, isoOf: int -> string) returns (request: SurveyRoute.SurveyForm)
      modifies this`isSubmitting
      ensures request == Submission(now, isoOf)
      ensures !isSubmitting
    {
      isSubmitting := true;
      request := Submission(now, isoOf);
      isSubmitting := false;
    }
  }

  /** `JSON.stringify(choices)` read back by the route: the text, and whether
      the `file` key survived (a `File` becomes `{}`, which is truthy). */
  function ChoicesJson(choices: seq<FormChoice>): (r: seq<SurveyRoute.ChoiceInput>)
    ensures |r| == |choices|
    ensures forall i :: 0 <= i < |r| ==> r[i].text == Some(choices[i].text) && (r[i].file <==> choices[i].file.Some?)
  {
    seq(|choices|, i requires 0 <= i < |choices| =>
      SurveyRoute.ChoiceInput(Some(choices[i].text), choices[i].file.Some?))
  }

  function CustomJson(attributes: seq<CustomAttribute>): seq<SurveyRoute.CustomAttributeInput>
  {
    seq(|attributes|, i requires 0 <= i < |attributes| =>
      SurveyRoute.CustomAttributeInput(attributes[i].title, attributes[i].choices))
  }

  /** `file_<i>` for every choice `i` with a picked image. */
  function PickedFiles(choices: seq<FormChoice>): (files: map<nat, SurveyRoute.FormFile>)
    ensures forall i: nat :: i in files <==> i < |choices| && choices[i].file.Some?
    ensures forall i: nat :: i in files ==> files[i] == choices[i].file.value
  {
    map i: nat | i < |choices| && choices[i].file.Some? :: choices[i].file.value
  }

  /** As written, a signed-in submission is always created, and no choice
      ever gets an image: the route finds no `file_<i>` field, whatever
      images were picked. */
  lemma SubmittedImagesDropped(f: SurveyForm, now: int, isoOf: int -> string, session: Option<string>,
                               env: SurveyRoute.Env, encode: string -> string, stamp: nat -> string,
                               upload: (SurveyRoute.FormFile, string) -> Option<string>)
    requires session.Some?
    ensures SurveyRoute.Post(session, f.Submission(now, isoOf), env, encode, stamp, upload).Created?
    ensures var created := SurveyRoute.Post(session, f.Submission(now, isoOf), env, encode, stamp, upload).survey;
            forall i :: 0 <= i < |created.choices| ==> created.choices[i].imageUrl.None?
  {
    SurveyRoute.CreatedChoices(session, f.Submission(now, isoOf), env, encode, stamp, upload);
  }

  /** With the files appended, a choice gets exactly the URL its picked image
      was uploaded to, and a choice without one gets none. */
  lemma CorrectedSubmissionKeepsImages(f: SurveyForm, now: int, isoOf: int -> string, session: Option<string>,
                                       env: SurveyRoute.Env, encode: string -> string, stamp: nat -> string,
                                       upload: (SurveyRoute.FormFile, string) -> Option<string>)
    requires session.Some?
    requires !SurveyRoute.SomeUploadFails(f.CorrectedSubmission(now, isoOf).choices.value,
                                          f.CorrectedSubmission(now, isoOf).files, session.value, stamp, upload)
    ensures SurveyRoute.Post(session, f.CorrectedSubmission(now, isoOf), env, encode, stamp, upload).Created?
    ensures var created := SurveyRoute.Post(session, f.CorrectedSubmission(now, isoOf), env, encode, stamp, upload).survey;
            |created.choices| == |f.choices|
            && forall i :: 0 <= i < |created.choices| ==>
                 (created.choices[i].imageUrl.Some? <==> f.choices[i].file.Some?)
                 && (f.choices[i].file.Some? ==>
                       created.choices[i].imageUrl
                       == upload(f.choices[i].file.value,
                                 SurveyRoute.UploadName(session.value, stamp(i), f.choices[i].file.value)))
  {
    SurveyRoute.CreatedChoices(session, f.CorrectedSubmission(now, isoOf), env, encode, stamp, upload);
  }

  /** Fields picked from the menus (at most 30 days, 23 hours and 59 minutes)
      give an offset that splits back into the same days, hours and minutes. */
  lemma OffsetSplitsBack(days: nat, hours: nat, minutes: nat)
    requires hours < 24 && minutes < 60
    ensures var m := days * 1440 + hours * 60 + minutes;
            m / 1440 == days && (m % 1440) / 60 == hours && m % 60 == minutes
  {
    var m := days * 1440 + hours * 60 + minutes;
    assert m == (days * 24 + hours) * 60 + minutes;
  }
}

/** `POST /api/surveys`: shapes the submitted form into the nested survey
    record that is written in one store call. The upload to object storage,
    `encodeURIComponent` and the clock are parameters. */
module SurveyRoute {
  import opened SurveyTypes

  /** One element of the `choices` JSON field. `file` is the truthiness of
      `choice.file` after the JSON round trip. */
  datatype ChoiceInput = ChoiceInput(text: Option<string>, file: bool)

  /** A `File` form field. */
  datatype FormFile = FormFile(name: string, mimeType: string)

  /** One element of `attributes.customAttributes`. */
  datatype CustomAttributeInput = CustomAttributeInput(title: string, choices: seq<string>)

  /** The `attributes` JSON field. */
  datatype AttributesInput = AttributesInput(
    useAge: bool,
    useGender: bool,
    useLocation: bool,
    customAttributes: seq<CustomAttributeInput>)

  /** The multipart form. `choices` and `attributes` are None when their JSON
      does not parse into the expected shape; `files` holds the `file_<i>`
      fields that are present, by index. */
  datatype SurveyForm = SurveyForm(
    title: string,
    choiceType: string,
    choices: Option<seq<ChoiceInput>>,
    attributes: Option<AttributesInput>,
    votingEnd: Option<string>,
    files: map<nat, FormFile>)

  /** The environment variables the base URL is taken from. */
  datatype Env = Env(publicBaseUrl: Option<string>, vercelUrl: Option<string>)

  /** The rows the store call creates (generated ids and timestamps aside). */
  datatype NewChoice = NewChoice(text: Option<string>, imageUrl: Option<string>, order: int)
  datatype NewAttributeChoice = NewAttributeChoice(text: string, order: int)
  datatype NewAttribute = NewAttribute(kind: string, title: Option<string>, choices: seq<NewAttributeChoice>)
  datatype NewSurvey = NewSurvey(
    title: string,
    choiceType: string,
    userId: string,
    thumbnailUrl: string,
    votingEnd: Option<string>,
    choices: seq<NewChoice>,
    attributes: seq<NewAttribute>)

  datatype Reply =
    | Unauthorized          // 401
    | ServerError           // 500, any exception inside the try block
    | Created(survey: NewSurvey)

  const LocalBaseUrl := "http://localhost:3000"
  const ThumbnailPath := "/api/thumbnail?title="

  /** `NEXT_PUBLIC_BASE_URL || (VERCEL_URL ? "https://" + VERCEL_URL : "http://localhost:3000")` */
  function BaseUrl(env: Env): (url: string)
    ensures Truthy(env.publicBaseUrl) ==> url == env.publicBaseUrl.value
    ensures !Truthy(env.publicBaseUrl) && Truthy(env.vercelUrl) ==> url == "https://" + env.vercelUrl.value
    ensures !Truthy(env.publicBaseUrl) && !Truthy(env.vercelUrl) ==> url == LocalBaseUrl
    ensures url != ""
  {
    if Truthy(env.publicBaseUrl) then env.publicBaseUrl.value
    else if Truthy(env.vercelUrl) then "https://" + env.vercelUrl.value
    else LocalBaseUrl
  }

  /** The thumbnail endpoint on the base URL, with the encoded title as its query. */
  function ThumbnailUrl(env: Env, title: string, encode: string -> string): (url: string)
  {
    BaseUrl(env) + ThumbnailPath + encode(title)
  }

  /** The thumbnail URL splits back into the base URL, the thumbnail path and
      the encoded title. */
  lemma ThumbnailUrlParts(env: Env, title: string, encode: string -> string)
    ensures var url := ThumbnailUrl(env, title, encode);
            var n := |BaseUrl(env)|;
            url[..n] == BaseUrl(env)
            && url[n..n + |ThumbnailPath|] == ThumbnailPath
            && url[n + |ThumbnailPath|..] == encode(title)
  {
  }

  /** `choice.text || null` */
  function TextOrNull(text: Option<string>): (r: Option<string>)
    ensures r.Some? <==> Truthy(text)
    ensures r.Some? ==> r == text
  {
    if Truthy(text) then text else None
  }

  /** The object name of an upload: `${userId}_${Date.now()}_${file.name}`. */
  function UploadName(userId: string, stamp: string, file: FormFile): string
  {
    userId + "_" + stamp + "_" + file.name
  }

  /** Whether choice `index` is uploaded: its `file` flag is set and the form
      has a `file_<index>` field. */
  predicate Uploads(c: ChoiceInput, index: nat, files: map<nat, FormFile>)
  {
    c.file && index in files
  }

  /** The choice's `image_url`. `upload(file, name)` is the storage call: the
      object URL, or None when it throws. `stamp(index)` is `Date.now()` at
      that choice's upload, as text. */
  function ImageUrl(c: ChoiceInput, index: nat, files: map<nat, FormFile>, userId: string,
                    stamp: nat -> string, upload: (FormFile, string) -> Option<string>): (url: Option<string>)
    ensures url.Some? <==> Uploads(c, index, files) && upload(files[index], UploadName(userId, stamp(index), files[index])).Some?
    ensures url.Some? ==> url == upload(files[index], UploadName(userId, stamp(index), files[index]))
  {
    if Uploads(c, index, files) then upload(files[index], UploadName(userId, stamp(index), files[index]))
    else None
  }

  /** Some upload of a flagged choice throws, so `Promise.all` rejects. */
  predicate SomeUploadFails(inputs: seq<ChoiceInput>, files: map<nat, FormFile>, userId: string,
                            stamp: nat -> string, upload: (FormFile, string) -> Option<string>)
  {
    exists i :: 0 <= i < |inputs| && Uploads(inputs[i], i, files)
                && upload(files[i], UploadName(userId, stamp(i), files[i])).None?
  }

  /** `choicesWithUrls` mapped to created rows: text or null, the image URL,
      and `order = index`. */
  function BuildChoices(inputs: seq<ChoiceInput>, files: map<nat, FormFile>, userId: string,
                        stamp: nat -> string, upload: (FormFile, string) -> Option<string>): seq<NewChoice>
  {
    seq(|inputs|, i requires 0 <= i < |inputs| =>
      NewChoice(TextOrNull(inputs[i].text), ImageUrl(inputs[i], i, files, userId, stamp, upload), i))
  }

  /** The AGE preset: six age bands. */
  const AgeChoices: seq<string> := ["10代以下", "20代", "30代", "40代", "50代", "60代以上"]
  /** The GENDER preset. */
  const GenderChoices: seq<string> := ["男性", "女性", "その他", "回答しない"]
  /** The LOCATION preset: the 47 prefectures in their conventional order. */
  const Prefectures: seq<string> := [
    "北海道", "青森県", "岩手県", "宮城県", "秋田県", "山形県", "福島県",
    "茨城県", "栃木県", "群馬県", "埼玉県", "千葉県", "東京都", "神奈川県",
    "新潟県", "富山県", "石川県", "福井県", "山梨県", "長野県", "岐阜県",
    "静岡県", "愛知県", "三重県", "滋賀県", "京都府", "大阪府", "兵庫県",
    "奈良県", "和歌山県", "鳥取県", "島根県", "岡山県", "広島県", "山口県",
    "徳島県", "香川県", "愛媛県", "高知県", "福岡県", "佐賀県", "長崎県",
    "熊本県", "大分県", "宮崎県", "鹿児島県", "沖縄県"]

  /** Attribute choices from their texts, numbered from `base` in the given order. */
  function Numbered(texts: seq<string>, base: int): (r: seq<NewAttributeChoice>)
    ensures |r| == |texts|
    ensures forall i :: 0 <= i < |r| ==> r[i].text == texts[i] && r[i].order == i + base
  {
    seq(|texts|, i requires 0 <= i < |texts| => NewAttributeChoice(texts[i], i + base))
  }

  function AgeSetting(): NewAttribute
  {
    NewAttribute("AGE", Some("年代"), Numbered(AgeChoices, 0))
  }

  function GenderSetting(): NewAttribute
  {
    NewAttribute("GENDER", Some("性別"), Numbered(GenderChoices, 0))
  }

  function LocationSetting(): NewAttribute
  {
    NewAttribute("LOCATION", Some("居住地"), Numbered(Prefectures, 0))
  }


  function CustomSetting(a: CustomAttributeInput): NewAttribute
  {
    NewAttribute("CUSTOM", Some(a.title), Numbered(a.choices, 0))
  }

  /** The presets whose flags are set, in the order AGE, GENDER, LOCATION. */
  function Presets(a: AttributesInput): seq<NewAttribute>
  {
    (if a.useAge then [AgeSetting()] else [])
    + (if a.useGender then [GenderSetting()] else [])
    + (if a.useLocation then [LocationSetting()] else [])
  }

  /** One CUSTOM setting per custom attribute, in submitted order. */
  function Customs(a: AttributesInput): seq<NewAttribute>
  {
    seq(|a.customAttributes|, i requires 0 <= i < |a.customAttributes| => CustomSetting(a.customAttributes[i]))
  }

  function BuildAttributes(a: AttributesInput): seq<NewAttribute>
  {
    Presets(a) + Customs(a)
  }

  /** The handler. `session` is the signed-in user's id. */
  function Post(session: Option<string>, form: SurveyForm, env: Env, encode: string -> string,
                stamp: nat -> string, upload: (FormFile, string) -> Option<string>): (reply: Reply)
    ensures session.None? <==> reply == Unauthorized
    ensures session.Some? && (form.choices.None? || form.attributes.None?) ==> reply == ServerError
    ensures session.Some? && form.choices.Some?
            && SomeUploadFails(form.choices.value, form.files, session.value, stamp, upload) ==>
              reply == ServerError
    ensures session.Some? && form.choices.Some? && form.attributes.Some?
            && !SomeUploadFails(form.choices.value, form.files, session.value, stamp, upload) ==>
              && reply.Created?
              && reply.survey.choices == BuildChoices(form.choices.value, form.files, session.value, stamp, upload)
              && reply.survey.attributes == BuildAttributes(form.attributes.value)
    ensures reply.Created? ==>
              && session.Some? && form.choices.Some? && form.attributes.Some?
              && !SomeUploadFails(form.choices.value, form.files, session.value, stamp, upload)
              && reply.survey.userId == session.value
              && reply.survey.title == form.title
              && reply.survey.choiceType == form.choiceType
              && reply.survey.thumbnailUrl == ThumbnailUrl(env, form.title, encode)
              && (reply.survey.votingEnd.Some? <==> Truthy(form.votingEnd))
              && (reply.survey.votingEnd.Some? ==> reply.survey.votingEnd == form.votingEnd)
  {
    if session.None? then Unauthorized
    else if form.choices.None? || form.attributes.None? then ServerError
    else if SomeUploadFails(form.choices.value, form.files, session.value, stamp, upload) then ServerError
    else
      var votingEnd := if Truthy(form.votingEnd) then form.votingEnd else None;
      Created(NewSurvey(
        form.title,
        form.choiceType,
        session.value,
        ThumbnailUrl(env, form.title, encode),
        votingEnd,
        BuildChoices(form.choices.value, form.files, session.value, stamp, upload),
        BuildAttributes(form.attributes.value)))
  }

  /** Choices are created one per input, in submitted order, with 0-based
      `order`, empty text stored as null, and an image URL exactly when the
      choice was flagged, its file field is present and the upload returned. */
  lemma CreatedChoices(session: Option<string>, form: SurveyForm, env: Env, encode: string -> string,
                       stamp: nat -> string, upload: (FormFile, string) -> Option<string>)
    requires Post(session, form, env, encode, stamp, upload).Created?
    ensures var cs := Post(session, form, env, encode, stamp, upload).survey.choices;
            var inputs := form.choices.value;
            |cs| == |inputs|
            && forall i :: 0 <= i < |cs| ==>
                 && cs[i].order == i
                 && (cs[i].text.Some? <==> Truthy(inputs[i].text))
                 && (cs[i].text.Some? ==> cs[i].text == inputs[i].text)
                 && (cs[i].imageUrl.Some? <==> inputs[i].file && i in form.files)
                 && (cs[i].imageUrl.Some? ==>
                       cs[i].imageUrl == upload(form.files[i], UploadName(session.value, stamp(i), form.files[i])))
  {
  }

  /** Order of a setting kind in the created list: the presets first, in a
      fixed order, then the custom settings. */
  function KindRank(kind: string): nat
  {
    if kind == "AGE" then 0
    else if kind == "GENDER" then 1
    else if kind == "LOCATION" then 2
    else 3
  }

  function PresetCount(a: AttributesInput): nat
  {
    (if a.useAge then 1 else 0) + (if a.useGender then 1 else 0) + (if a.useLocation then 1 else 0)
  }

  lemma PresetKinds(a: AttributesInput)
    ensures var s := Presets(a);
            && |s| == PresetCount(a)
            && (a.useAge <==> exists i :: 0 <= i < |s| && s[i].kind == "AGE")
            && (a.useGender <==> exists i :: 0 <= i < |s| && s[i].kind == "GENDER")
            && (a.useLocation <==> exists i :: 0 <= i < |s| && s[i].kind == "LOCATION")
            && (forall i, j :: 0 <= i < j < |s| ==> KindRank(s[i].kind) < KindRank(s[j].kind))
            && (forall i :: 0 <= i < |s| ==> KindRank(s[i].kind) < 3)
  {
    var s := Presets(a);
    var age := if a.useAge then [AgeSetting()] else [];
    var gender := if a.useGender then [GenderSetting()] else [];
    var location := if a.useLocation then [LocationSetting()] else [];
    assert s == age + gender + location;
    if a.useAge {
      assert s[0].kind == "AGE";
    }
    if a.useGender {
      assert s[|age|].kind == "GENDER";
    }
    if a.useLocation {
      assert s[|age| + |gender|].kind == "LOCATION";
    }
    assert forall i :: 0 <= i < |s| ==> s[i] in age || s[i] in gender || s[i] in location;
  }

  lemma CustomKinds(a: AttributesInput)
    ensures forall k :: 0 <= k < |Customs(a)| ==> Customs(a)[k].kind == "CUSTOM" && KindRank(Customs(a)[k].kind) == 3
  {
  }

  /** The created settings: the selected presets first (see PresetKinds),
      ranked AGE, GENDER, LOCATION with strictly increasing rank (so
      no preset occurs twice), then the custom
      attributes in submitted order as CUSTOM settings. */
  lemma AttributeOrder(a: AttributesInput)
    ensures |BuildAttributes(a)| == PresetCount(a) + |a.customAttributes|
    ensures BuildAttributes(a)[..PresetCount(a)] == Presets(a)
    ensures forall i, j :: 0 <= i < j < |BuildAttributes(a)| ==>
              KindRank(BuildAttributes(a)[i].kind) <= KindRank(BuildAttributes(a)[j].kind)
    ensures forall i, j :: 0 <= i < j < |BuildAttributes(a)| && KindRank(BuildAttributes(a)[i].kind) < 3 ==>
              KindRank(BuildAttributes(a)[i].kind) < KindRank(BuildAttributes(a)[j].kind)
    ensures forall k :: 0 <= k < |a.customAttributes| ==>
              BuildAttributes(a)[PresetCount(a) + k] == CustomSetting(a.customAttributes[k])
  {
    PresetKinds(a);
    CustomKinds(a);
    RanksConcatenate(Presets(a), Customs(a));
  }

  /** Settings of rank below 3 in strictly increasing rank, followed by
      settings of rank 3, are ranked in non-decreasing order overall. */
  lemma RanksConcatenate(x: seq<NewAttribute>, y: seq<NewAttribute>)
    requires forall i, j :: 0 <= i < j < |x| ==> KindRank(x[i].kind) < KindRank(x[j].kind)
    requires forall i :: 0 <= i < |x| ==> KindRank(x[i].kind) < 3
    requires forall k :: 0 <= k < |y| ==> KindRank(y[k].kind) == 3
    ensures forall i, j :: 0 <= i < j < |x + y| ==> KindRank((x + y)[i].kind) <= KindRank((x + y)[j].kind)
    ensures forall i, j :: 0 <= i < j < |x + y| && KindRank((x + y)[i].kind) < 3 ==>
              KindRank((x + y)[i].kind) < KindRank((x + y)[j].kind)
  {
    var s := x + y;
    forall i | 0 <= i < |s| ensures s[i] == if i < |x| then x[i] else y[i - |x|] {
    }
  }

  /** The presets have 6, 4 and 47 choices, numbered from 0 in listed order. */
  lemma PresetSizes()
    ensures |AgeSetting().choices| == 6 && |GenderSetting().choices| == 4 && |LocationSetting().choices| == 47
    ensures forall i :: 0 <= i < |AgeSetting().choices| ==> AgeSetting().choices[i].order == i
    ensures forall i :: 0 <= i < |GenderSetting().choices| ==> GenderSetting().choices[i].order == i
    ensures forall i :: 0 <= i < |LocationSetting().choices| ==> LocationSetting().choices[i].order == i
    ensures LocationSetting().choices[12].text == "東京都"
  {
  }
}

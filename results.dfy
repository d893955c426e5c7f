/** The results view of a survey: the overall tally sorted by count, the
    per-attribute segmentation shown as pie charts, and the cross-tabulated
    table. Percentages are exact: the overall one in integer tenths of a
    percent (it is rounded to one decimal), the table one as a real. */
module SurveyResults {
  import opened SurveyTypes

  /** Label of a choice that has no text. */
  const ImageOnlyLabel: string := "画像のみの選択肢"

  /** `choice.text || '画像のみの選択肢'` */
  function ChoiceName(c: Choice): string
  {
    if Truthy(c.text) then c.text.value else ImageOnlyLabel
  }

  function HasChoice(choiceId: string): Response -> bool
  {
    (r: Response) => r.choiceId == choiceId
  }

  /** Number of responses that chose `choiceId`. */
  function CountFor(responses: seq<Response>, choiceId: string): (n: nat)
    ensures n <= |responses|
  {
    if responses == [] then 0
    else (if responses[0].choiceId == choiceId then 1 else 0) + CountFor(responses[1..], choiceId)
  }

  /** The count is `responses.filter(r => r.choiceId === choiceId).length`. */
  lemma {:induction false} CountForIsFilterLength(responses: seq<Response>, choiceId: string)
    ensures CountFor(responses, choiceId) == |Filter(responses, HasChoice(choiceId))|
  {
    if responses != [] {
      CountForIsFilterLength(responses[1..], choiceId);
    }
  }

  function ChoiceIds(responses: seq<Response>): seq<string>
  {
    seq(|responses|, i requires 0 <= i < |responses| => responses[i].choiceId)
  }

  /** A choice's count is the multiplicity of its id among the chosen ids. */
  lemma {:induction false} CountForIsMultiplicity(responses: seq<Response>, choiceId: string)
    ensures CountFor(responses, choiceId) == multiset(ChoiceIds(responses))[choiceId]
  {
    if responses != [] {
      CountForIsMultiplicity(responses[1..], choiceId);
      assert ChoiceIds(responses) == [responses[0].choiceId] + ChoiceIds(responses[1..]);
    }
  }

  // ---------------------------------------------------------------------
  // Overall tally
  // ---------------------------------------------------------------------

  function Max1(n: nat): nat
  {
    if n < 1 then 1 else n
  }

  /** `Math.round(count / Math.max(total, 1) * 100 * 10) / 10`, counted in tenths
      of a percent: the nearest tenth, halves rounded up. */
  function PercentTenths(count: nat, total: nat): (t: nat)
    ensures 2 * t * Max1(total) <= 2000 * count + Max1(total) < 2 * t * Max1(total) + 2 * Max1(total)
    ensures count <= Max1(total) ==> t <= 1000
  {
    var d := Max1(total);
    var t := (2000 * count + d) / (2 * d);
    NearestTenth(count, d, t);
    t
  }

  lemma NearestTenth(count: nat, d: nat, t: nat)
    requires d >= 1 && t == (2000 * count + d) / (2 * d)
    ensures 2 * t * d <= 2000 * count + d < 2 * t * d + 2 * d
    ensures count <= d ==> t <= 1000
  {
    assert 2 * d * t <= 2000 * count + d < 2 * d * t + 2 * d;
    if count <= d {
      assert 2000 * count + d < 2 * d * 1001 by {
        assert 2000 * count <= 2000 * d;
      }
    }
  }

  /** One row of the overall result. `choiceId` is not displayed by the view;
      it names the choice the row was computed for. */
  datatype OverallRow = OverallRow(
    choiceId: string,
    name: string,
    count: nat,
    percentTenths: nat,
    imageUrl: Option<string>)

  function RowFor(c: Choice, responses: seq<Response>): OverallRow
  {
    var n := CountFor(responses, c.id);
    OverallRow(c.id, ChoiceName(c), n, PercentTenths(n, |responses|), c.imageUrl)
  }

  /** `survey.choices.map(...)`, before the sort. */
  function UnsortedRows(choices: seq<Choice>, responses: seq<Response>): seq<OverallRow>
  {
    seq(|choices|, i requires 0 <= i < |choices| => RowFor(choices[i], responses))
  }

  ghost predicate NonIncreasing(rows: seq<OverallRow>)
  {
    forall i, j :: 0 <= i < j < |rows| ==> rows[i].count >= rows[j].count
  }

  /** Inserts `x` in front of the first row whose count is not larger. */
  function InsertByCount(x: OverallRow, rows: seq<OverallRow>): (r: seq<OverallRow>)
    ensures multiset(r) == multiset(rows) + multiset{x}
    ensures |r| == |rows| + 1
  {
    if rows == [] || rows[0].count <= x.count then
      [x] + rows
    else
      assert rows == [rows[0]] + rows[1..];
      [rows[0]] + InsertByCount(x, rows[1..])
  }

  lemma {:induction false} InsertSorted(x: OverallRow, rows: seq<OverallRow>)
    requires NonIncreasing(rows)
    ensures NonIncreasing(InsertByCount(x, rows))
  {
    if rows != [] && rows[0].count > x.count {
      var rest := InsertByCount(x, rows[1..]);
      InsertSorted(x, rows[1..]);
      forall k | 0 <= k < |rest| ensures rest[k].count <= rows[0].count {
        assert rest[k] in multiset(rest);
        if rest[k] != x {
          assert rest[k] in multiset(rows[1..]);
          var m :| 0 <= m < |rows[1..]| && rows[1..][m] == rest[k];
          assert rows[m + 1] == rest[k];
        }
      }
      assert InsertByCount(x, rows) == [rows[0]] + rest;
    }
  }

  /** `results.sort((a, b) => b.count - a.count)`: a stable sort, count descending. */
  function SortByCount(rows: seq<OverallRow>): (r: seq<OverallRow>)
    ensures |r| == |rows|
    ensures multiset(r) == multiset(rows)
    ensures NonIncreasing(r)
  {
    if rows == [] then []
    else
      assert rows == [rows[0]] + rows[1..];
      var rest := SortByCount(rows[1..]);
      InsertSorted(rows[0], rest);
      InsertByCount(rows[0], rest)
  }

  /** `overallResults` of the results view. */
  function OverallResults(survey: Survey): seq<OverallRow>
  {
    SortByCount(UnsortedRows(survey.choices, survey.responses))
  }

  function WithCount(k: nat): OverallRow -> bool
  {
    (row: OverallRow) => row.count == k
  }

  lemma {:induction false} InsertKeepsTies(x: OverallRow, rows: seq<OverallRow>, k: nat)
    ensures Filter(InsertByCount(x, rows), WithCount(k))
         == if x.count == k then [x] + Filter(rows, WithCount(k)) else Filter(rows, WithCount(k))
  {
    if rows == [] || rows[0].count <= x.count {
      assert ([x] + rows)[1..] == rows;
    } else {
      InsertKeepsTies(x, rows[1..], k);
      assert ([rows[0]] + InsertByCount(x, rows[1..]))[1..] == InsertByCount(x, rows[1..]);
    }
  }

  /** Stability: rows with equal counts keep their relative order. */
  lemma {:induction false} SortKeepsTies(rows: seq<OverallRow>, k: nat)
    ensures Filter(SortByCount(rows), WithCount(k)) == Filter(rows, WithCount(k))
  {
    if rows != [] {
      SortKeepsTies(rows[1..], k);
      InsertKeepsTies(rows[0], SortByCount(rows[1..]), k);
    }
  }

  /** The overall result has one row per choice, each counting the responses
      that chose it, sorted by count descending; equal counts stay in choice order. */
  lemma OverallResultsRows(survey: Survey)
    ensures |OverallResults(survey)| == |survey.choices|
    ensures NonIncreasing(OverallResults(survey))
    ensures multiset(OverallResults(survey)) == multiset(UnsortedRows(survey.choices, survey.responses))
    ensures forall i :: 0 <= i < |OverallResults(survey)| ==>
      exists j :: 0 <= j < |survey.choices| && OverallResults(survey)[i] == RowFor(survey.choices[j], survey.responses)
    ensures forall j :: 0 <= j < |survey.choices| ==>
      RowFor(survey.choices[j], survey.responses) in OverallResults(survey)
    ensures forall row :: row in OverallResults(survey) ==>
      row.count == CountFor(survey.responses, row.choiceId)
    ensures forall k: nat :: Filter(OverallResults(survey), WithCount(k))
                          == Filter(UnsortedRows(survey.choices, survey.responses), WithCount(k))
  {
    var unsorted := UnsortedRows(survey.choices, survey.responses);
    var r := OverallResults(survey);
    forall i | 0 <= i < |r|
      ensures exists j :: 0 <= j < |survey.choices| && r[i] == RowFor(survey.choices[j], survey.responses)
    {
      assert r[i] in multiset(unsorted);
      var j :| 0 <= j < |unsorted| && unsorted[j] == r[i];
    }
    forall j | 0 <= j < |survey.choices|
      ensures RowFor(survey.choices[j], survey.responses) in r
    {
      assert unsorted[j] in multiset(r);
    }
    forall k: nat ensures Filter(r, WithCount(k)) == Filter(unsorted, WithCount(k)) {
      SortKeepsTies(unsorted, k);
    }
  }

  /** With no responses every percentage is 0 (the denominator is max(0, 1) = 1). */
  lemma NoResponsesZeroPercent(survey: Survey)
    requires survey.responses == []
    ensures forall row :: row in OverallResults(survey) ==> row.count == 0 && row.percentTenths == 0
  {
    OverallResultsRows(survey);
  }

  /** Every percentage lies between 0 and 100.0. */
  lemma PercentBounded(survey: Survey)
    ensures forall row :: row in OverallResults(survey) ==> row.percentTenths <= 1000
  {
    OverallResultsRows(survey);
  }

  function SumCounts(rows: seq<OverallRow>): nat
  {
    if rows == [] then 0 else rows[0].count + SumCounts(rows[1..])
  }

  lemma {:induction false} SumInsert(x: OverallRow, rows: seq<OverallRow>)
    ensures SumCounts(InsertByCount(x, rows)) == x.count + SumCounts(rows)
  {
    if rows != [] && rows[0].count > x.count {
      SumInsert(x, rows[1..]);
      assert ([rows[0]] + InsertByCount(x, rows[1..]))[1..] == InsertByCount(x, rows[1..]);
    }
  }

  lemma {:induction false} SumSort(rows: seq<OverallRow>)
    ensures SumCounts(SortByCount(rows)) == SumCounts(rows)
  {
    if rows != [] {
      SumSort(rows[1..]);
      SumInsert(rows[0], SortByCount(rows[1..]));
    }
  }

  /** Sum over the choices of the number of responses that chose each. */
  function Tally(choices: seq<Choice>, responses: seq<Response>): nat
  {
    if choices == [] then 0 else CountFor(responses, choices[0].id) + Tally(choices[1..], responses)
  }

  lemma {:induction false} SumUnsortedIsTally(choices: seq<Choice>, responses: seq<Response>)
    ensures SumCounts(UnsortedRows(choices, responses)) == Tally(choices, responses)
  {
    if choices != [] {
      assert UnsortedRows(choices, responses)[1..] == UnsortedRows(choices[1..], responses);
      SumUnsortedIsTally(choices[1..], responses);
    }
  }

  ghost predicate DistinctIds(choices: seq<Choice>)
  {
    forall i, j :: 0 <= i < j < |choices| ==> choices[i].id != choices[j].id
  }

  ghost predicate NamesChoice(choices: seq<Choice>, choiceId: string)
  {
    exists j :: 0 <= j < |choices| && choices[j].id == choiceId
  }

  /** How many of the choices carry the id `choiceId`. */
  function Hits(choices: seq<Choice>, choiceId: string): nat
  {
    if choices == [] then 0 else (if choices[0].id == choiceId then 1 else 0) + Hits(choices[1..], choiceId)
  }

  lemma {:induction false} HitsDistinct(choices: seq<Choice>, choiceId: string)
    requires DistinctIds(choices)
    ensures Hits(choices, choiceId) == if NamesChoice(choices, choiceId) then 1 else 0
  {
    if choices != [] {
      HitsDistinct(choices[1..], choiceId);
      if choices[0].id == choiceId {
        forall j | 0 <= j < |choices[1..]| ensures choices[1..][j].id != choiceId {
          assert choices[1..][j] == choices[j + 1];
        }
      } else {
        if NamesChoice(choices, choiceId) {
          var j :| 0 <= j < |choices| && choices[j].id == choiceId;
          assert choices[1..][j - 1].id == choiceId;
        }
        if NamesChoice(choices[1..], choiceId) {
          var j :| 0 <= j < |choices[1..]| && choices[1..][j].id == choiceId;
          assert choices[j + 1].id == choiceId;
        }
      }
    }
  }

  lemma {:induction false} TallyFirstResponse(choices: seq<Choice>, responses: seq<Response>)
    requires responses != []
    ensures Tally(choices, responses) == Hits(choices, responses[0].choiceId) + Tally(choices, responses[1..])
  {
    if choices != [] {
      TallyFirstResponse(choices[1..], responses);
    }
  }

  /** When every response names one of the (distinct) choices, the choice
      counts add up to the number of responses. */
  lemma {:induction false} TallyCoversResponses(choices: seq<Choice>, responses: seq<Response>)
    requires DistinctIds(choices)
    requires forall r :: r in responses ==> NamesChoice(choices, r.choiceId)
    ensures Tally(choices, responses) == |responses|
  {
    if responses == [] {
      TallyEmpty(choices, responses);
    } else {
      TallyFirstResponse(choices, responses);
      HitsDistinct(choices, responses[0].choiceId);
      TallyCoversResponses(choices, responses[1..]);
    }
  }

  lemma {:induction false} TallyEmpty(choices: seq<Choice>, responses: seq<Response>)
    requires responses == []
    ensures Tally(choices, responses) == 0
  {
    if choices != [] {
      TallyEmpty(choices[1..], responses);
    }
  }

  /** The overall counts sum to the number of responses. */
  lemma OverallCountsSum(survey: Survey)
    requires DistinctIds(survey.choices)
    requires forall r :: r in survey.responses ==> NamesChoice(survey.choices, r.choiceId)
    ensures SumCounts(OverallResults(survey)) == |survey.responses|
  {
    SumSort(UnsortedRows(survey.choices, survey.responses));
    SumUnsortedIsTally(survey.choices, survey.responses);
    TallyCoversResponses(survey.choices, survey.responses);
  }

  // ---------------------------------------------------------------------
  // Segmentation by a respondent attribute
  // ---------------------------------------------------------------------

  /** `r.attributes.some(a => a.attributeSettingId === settingId && a.attributeChoiceId === attributeChoiceId)` */
  function Tagged(settingId: string, attributeChoiceId: string): Response -> bool
  {
    (r: Response) => exists a :: a in r.attributes && a.attributeSettingId == settingId && a.attributeChoiceId == attributeChoiceId
  }

  /** The responses of one segment, in their order. */
  function Segment(responses: seq<Response>, settingId: string, attributeChoiceId: string): seq<Response>
  {
    Filter(responses, Tagged(settingId, attributeChoiceId))
  }

  /** A segment holds exactly the tagged responses, each as often as it occurs, in order. */
  lemma SegmentExact(responses: seq<Response>, settingId: string, attributeChoiceId: string, r: Response)
    ensures multiset(Segment(responses, settingId, attributeChoiceId))[r]
         == if Tagged(settingId, attributeChoiceId)(r) then multiset(responses)[r] else 0
    ensures Subsequence(Segment(responses, settingId, attributeChoiceId), responses)
  {
    FilterMultiplicity(responses, Tagged(settingId, attributeChoiceId), r);
  }

  /** `survey.attributes.find(a => a.id === attributeId)` */
  function FindAttribute(attributes: seq<AttributeSetting>, attributeId: string): (r: Option<AttributeSetting>)
    ensures r.None? <==> forall k :: 0 <= k < |attributes| ==> attributes[k].id != attributeId
    ensures r.Some? ==> exists k :: 0 <= k < |attributes| && attributes[k] == r.value
                          && r.value.id == attributeId
                          && forall j :: 0 <= j < k ==> attributes[j].id != attributeId
  {
    if attributes == [] then None
    else if attributes[0].id == attributeId then Some(attributes[0])
    else
      var r := FindAttribute(attributes[1..], attributeId);
      if r.Some? then
        var k :| 0 <= k < |attributes[1..]| && attributes[1..][k] == r.value
                 && r.value.id == attributeId
                 && forall j :: 0 <= j < k ==> attributes[1..][j].id != attributeId;
        assert attributes[k + 1] == r.value;
        r
      else
        r
  }

  /** One pie-chart slice: `{ name, value, total, image_url }`. */
  datatype SegmentEntry = SegmentEntry(name: string, value: nat, total: nat, imageUrl: Option<string>)

  /** One pie chart: `{ attributeChoice, data }`. */
  datatype SegmentGroup = SegmentGroup(attributeChoice: string, data: seq<SegmentEntry>)

  function EntryFor(c: Choice, segment: seq<Response>): SegmentEntry
  {
    SegmentEntry(ChoiceName(c), CountFor(segment, c.id), |segment|, c.imageUrl)
  }

  function Positive(): SegmentEntry -> bool
  {
    (e: SegmentEntry) => e.value > 0
  }

  function NonEmptyGroup(): SegmentGroup -> bool
  {
    (g: SegmentGroup) => |g.data| > 0
  }

  /** A slice per survey choice, in choice order, before zero slices are dropped. */
  function Entries(choices: seq<Choice>, segment: seq<Response>): seq<SegmentEntry>
  {
    seq(|choices|, i requires 0 <= i < |choices| => EntryFor(choices[i], segment))
  }

  /** The chart of one attribute choice: a slice per choice, zero slices dropped. */
  function GroupFor(survey: Survey, settingId: string, ac: AttributeChoice): SegmentGroup
  {
    var segment := Segment(survey.responses, settingId, ac.id);
    SegmentGroup(ac.text, Filter(Entries(survey.choices, segment), Positive()))
  }

  function AllGroups(survey: Survey, setting: AttributeSetting): seq<SegmentGroup>
  {
    seq(|setting.choices|, k requires 0 <= k < |setting.choices| => GroupFor(survey, setting.id, setting.choices[k]))
  }

  /** `getAttributeResults(survey, attributeId)` */
  function AttributeResults(survey: Survey, attributeId: string): seq<SegmentGroup>
  {
    match FindAttribute(survey.attributes, attributeId)
    case None => []
    case Some(setting) => Filter(AllGroups(survey, setting), NonEmptyGroup())
  }

  /** An attribute id the survey does not define yields no groups. */
  lemma UnknownAttributeNoGroups(survey: Survey, attributeId: string)
    requires forall k :: 0 <= k < |survey.attributes| ==> survey.attributes[k].id != attributeId
    ensures AttributeResults(survey, attributeId) == []
  {
  }

  /** Every slice of a chart is non-zero, counts its choice inside the segment,
      and carries the segment size as its total; every choice with a response
      in the segment keeps its slice; and the slices come in choice order. */
  lemma GroupEntries(survey: Survey, settingId: string, ac: AttributeChoice)
    ensures forall e :: e in GroupFor(survey, settingId, ac).data ==>
      && e.value > 0
      && e.total == |Segment(survey.responses, settingId, ac.id)|
      && e.value <= e.total
      && exists j :: 0 <= j < |survey.choices| && e == EntryFor(survey.choices[j], Segment(survey.responses, settingId, ac.id))
    ensures forall j :: 0 <= j < |survey.choices| && CountFor(Segment(survey.responses, settingId, ac.id), survey.choices[j].id) > 0 ==>
      EntryFor(survey.choices[j], Segment(survey.responses, settingId, ac.id)) in GroupFor(survey, settingId, ac).data
    ensures Subsequence(GroupFor(survey, settingId, ac).data, Entries(survey.choices, Segment(survey.responses, settingId, ac.id)))
  {
    var segment := Segment(survey.responses, settingId, ac.id);
    var entries := Entries(survey.choices, segment);
    forall j | 0 <= j < |survey.choices| && CountFor(segment, survey.choices[j].id) > 0
      ensures EntryFor(survey.choices[j], segment) in GroupFor(survey, settingId, ac).data
    {
      assert entries[j] == EntryFor(survey.choices[j], segment);
      assert Positive()(entries[j]);
    }
    forall e | e in GroupFor(survey, settingId, ac).data
      ensures e.value > 0 && e.total == |segment| && e.value <= e.total
      ensures exists j :: 0 <= j < |survey.choices| && e == EntryFor(survey.choices[j], segment)
    {
      var i :| 0 <= i < |Filter(entries, Positive())| && Filter(entries, Positive())[i] == e;
      assert e in entries;
    }
  }

  /** A chart survives only if its segment holds a response for one of the survey's choices ... */
  lemma GroupKeptOnlyIfVoted(survey: Survey, settingId: string, ac: AttributeChoice)
    requires |GroupFor(survey, settingId, ac).data| > 0
    ensures exists r, j :: r in Segment(survey.responses, settingId, ac.id) && 0 <= j < |survey.choices|
                           && r.choiceId == survey.choices[j].id
  {
    var segment := Segment(survey.responses, settingId, ac.id);
    var entries := Entries(survey.choices, segment);
    var e := Filter(entries, Positive())[0];
    assert e in entries;
    var j :| 0 <= j < |entries| && entries[j] == e;
    var hits := Filter(segment, HasChoice(survey.choices[j].id));
    CountForIsFilterLength(segment, survey.choices[j].id);
    assert |hits| > 0;
    assert hits[0] in segment && hits[0].choiceId == survey.choices[j].id;
  }

  /** ... and it does survive when there is one. */
  lemma GroupKeptIfVoted(survey: Survey, settingId: string, ac: AttributeChoice, r: Response, j: nat)
    requires r in Segment(survey.responses, settingId, ac.id) && j < |survey.choices|
    requires r.choiceId == survey.choices[j].id
    ensures |GroupFor(survey, settingId, ac).data| > 0
  {
    var segment := Segment(survey.responses, settingId, ac.id);
    var entries := Entries(survey.choices, segment);
    var k :| 0 <= k < |segment| && segment[k] == r;
    assert r in Filter(segment, HasChoice(survey.choices[j].id));
    CountForIsFilterLength(segment, survey.choices[j].id);
    assert entries[j].value > 0;
    assert entries[j] in Filter(entries, Positive());
  }

  /** The groups of `getAttributeResults` are the non-empty charts of the
      selected attribute, in attribute-choice order. */
  lemma AttributeResultsGroups(survey: Survey, attributeId: string, setting: AttributeSetting)
    requires FindAttribute(survey.attributes, attributeId) == Some(setting)
    ensures Subsequence(AttributeResults(survey, attributeId), AllGroups(survey, setting))
    ensures forall g :: g in AttributeResults(survey, attributeId) ==>
      |g.data| > 0 && exists k :: 0 <= k < |setting.choices| && g == GroupFor(survey, attributeId, setting.choices[k])
    ensures forall k :: 0 <= k < |setting.choices| && |GroupFor(survey, attributeId, setting.choices[k]).data| > 0 ==>
      GroupFor(survey, attributeId, setting.choices[k]) in AttributeResults(survey, attributeId)
  {
    var all := AllGroups(survey, setting);
    var res := AttributeResults(survey, attributeId);
    assert res == Filter(all, NonEmptyGroup());
    forall g | g in res
      ensures |g.data| > 0 && exists k :: 0 <= k < |setting.choices| && g == GroupFor(survey, attributeId, setting.choices[k])
    {
      var i :| 0 <= i < |res| && res[i] == g;
      assert g in all;
      var k :| 0 <= k < |all| && all[k] == g;
    }
    forall k | 0 <= k < |setting.choices| && |GroupFor(survey, attributeId, setting.choices[k]).data| > 0
      ensures GroupFor(survey, attributeId, setting.choices[k]) in res
    {
      assert NonEmptyGroup()(all[k]);
    }
  }

  // ---------------------------------------------------------------------
  // Cross-tabulated table
  // ---------------------------------------------------------------------

  /** One (count, percentage) pair of the table. */
  datatype Cell = Cell(count: nat, percentage: real)

  /** The cell of one choice in the segment of one attribute choice: the
      percentage is taken against the segment size, and is 0 for an empty segment. */
  function TableCell(segment: seq<Response>, choiceId: string): (cell: Cell)
    ensures cell.count == CountFor(segment, choiceId) && cell.count <= |segment|
    ensures |segment| == 0 ==> cell.count == 0 && cell.percentage == 0.0
    ensures |segment| > 0 ==> cell.percentage * (|segment| as real) == (cell.count as real) * 100.0
    ensures 0.0 <= cell.percentage <= 100.0
  {
    var count := CountFor(segment, choiceId);
    Cell(count, Share(count, |segment|))
  }

  /** `n > 0 ? count / n * 100 : 0` */
  function Share(count: nat, n: nat): (p: real)
    requires count <= n
    ensures n == 0 ==> p == 0.0
    ensures n > 0 ==> p * (n as real) == (count as real) * 100.0
    ensures 0.0 <= p <= 100.0
  {
    if n > 0 then
      var q := count as real / n as real;
      assert q * (n as real) == count as real;
      assert q <= 1.0;
      q * 100.0
    else 0.0
  }

  /** One table row: the label with its image, and a cell per attribute choice. */
  datatype TableRow = TableRow(name: string, imageUrl: Option<string>, cells: seq<Cell>)

  function CellsFor(survey: Survey, setting: AttributeSetting, choiceId: string): seq<Cell>
  {
    seq(|setting.choices|, k requires 0 <= k < |setting.choices| =>
      TableCell(Segment(survey.responses, setting.id, setting.choices[k].id), choiceId))
  }

  /** The segmented table as written: row `i` takes its label from the sorted
      `overallResults[i]` but counts `survey.choices[i]`. None when the selected
      attribute is not one of the survey's (the overall table is shown instead). */
  function SegmentedTable(survey: Survey, attributeId: string): Option<seq<TableRow>>
  {
    match FindAttribute(survey.attributes, attributeId)
    case None => None
    case Some(setting) =>
      var overall := OverallResults(survey);
      assert |overall| == |survey.choices| by { OverallResultsRows(survey); }
      Some(seq(|overall|, i requires 0 <= i < |overall| =>
        TableRow(overall[i].name, overall[i].imageUrl, CellsFor(survey, setting, survey.choices[i].id))))
  }

  /** The segmented table with each row counting the choice it is labelled
      with. */
  function CorrectedSegmentedTable(survey: Survey, attributeId: string): Option<seq<TableRow>>
  {
    match FindAttribute(survey.attributes, attributeId)
    case None => None
    case Some(setting) =>
      var overall := OverallResults(survey);
      Some(seq(|overall|, i requires 0 <= i < |overall| =>
        TableRow(overall[i].name, overall[i].imageUrl, CellsFor(survey, setting, overall[i].choiceId))))
  }

  /** In the table as written, row `i` shows the label of the `i`-th sorted row
      and the counts of the `i`-th unsorted choice. */
  lemma SegmentedTableMislabelsCounts(survey: Survey, attributeId: string, setting: AttributeSetting, i: nat, k: nat)
    requires FindAttribute(survey.attributes, attributeId) == Some(setting)
    requires i < |survey.choices| && k < |setting.choices|
    ensures SegmentedTable(survey, attributeId).Some?
    ensures |SegmentedTable(survey, attributeId).value| == |survey.choices|
    ensures SegmentedTable(survey, attributeId).value[i].name == OverallResults(survey)[i].name
    ensures SegmentedTable(survey, attributeId).value[i].cells[k].count
         == CountFor(Segment(survey.responses, attributeId, setting.choices[k].id), survey.choices[i].id)
  {
    OverallResultsRows(survey);
  }

  /** Red and Blue with two votes for Red and one for Blue: the tally reads
      Red 2 (66.7%) then Blue 1 (33.3%). */
  lemma FavoriteColourTally()
    ensures var red := Choice("c1", Some("Red"), None, 0, "s");
            var blue := Choice("c2", Some("Blue"), None, 1, "s");
            var votes := [Response("r1", "s", "u1", "c1", []), Response("r2", "s", "u2", "c2", []),
                          Response("r3", "s", "u3", "c1", [])];
            var survey := Survey("s", "Favorite color", "TEXT_ONLY", "owner", [red, blue], [], votes);
            OverallResults(survey) == [OverallRow("c1", "Red", 2, 667, None), OverallRow("c2", "Blue", 1, 333, None)]
  {
    var red := Choice("c1", Some("Red"), None, 0, "s");
    var blue := Choice("c2", Some("Blue"), None, 1, "s");
    var votes := [Response("r1", "s", "u1", "c1", []), Response("r2", "s", "u2", "c2", []),
                  Response("r3", "s", "u3", "c1", [])];
    var survey := Survey("s", "Favorite color", "TEXT_ONLY", "owner", [red, blue], [], votes);
    assert votes[1..][1..][1..] == [];
    assert CountFor(votes, "c1") == 2;
    assert CountFor(votes, "c2") == 1;
    var rowRed := RowFor(red, votes);
    var rowBlue := RowFor(blue, votes);
    assert rowRed == OverallRow("c1", "Red", 2, 667, None);
    assert rowBlue == OverallRow("c2", "Blue", 1, 333, None);
    var unsorted := UnsortedRows(survey.choices, survey.responses);
    assert unsorted == [rowRed, rowBlue];
    assert unsorted[1..] == [rowBlue];
    assert [rowBlue][1..] == [];
    assert SortByCount([rowBlue]) == [rowBlue];
    assert InsertByCount(rowRed, [rowBlue]) == [rowRed, rowBlue];
  }

  /** Two choices "Red" and "Blue" and one response for Blue tagged "Teen":
      the sort puts Blue first, and the first row of the table as written
      reads "Blue" with count 0 in the "Teen" column, while Blue's own count
      there is 1. */
  lemma SegmentedTableCounterexample()
    ensures var red := Choice("c1", Some("Red"), None, 0, "s");
            var blue := Choice("c2", Some("Blue"), None, 1, "s");
            var teen := AttributeChoice("t", "Teen", 0, "age");
            var age := AttributeSetting("age", "AGE", Some("Age"), "s", [teen]);
            var vote := Response("r1", "s", "u1", "c2", [RespondentAttribute("a1", "r1", "age", "t")]);
            var survey := Survey("s", "Colours", "TEXT_ONLY", "owner", [red, blue], [age], [vote]);
            && SegmentedTable(survey, "age").Some?
            && SegmentedTable(survey, "age").value[0].name == "Blue"
            && SegmentedTable(survey, "age").value[0].cells[0].count == 0
            && CountFor(Segment(survey.responses, "age", "t"), "c2") == 1
  {
    var red := Choice("c1", Some("Red"), None, 0, "s");
    var blue := Choice("c2", Some("Blue"), None, 1, "s");
    var teen := AttributeChoice("t", "Teen", 0, "age");
    var age := AttributeSetting("age", "AGE", Some("Age"), "s", [teen]);
    var vote := Response("r1", "s", "u1", "c2", [RespondentAttribute("a1", "r1", "age", "t")]);
    var survey := Survey("s", "Colours", "TEXT_ONLY", "owner", [red, blue], [age], [vote]);
    assert Tagged("age", "t")(vote) by {
      assert vote.attributes[0] in vote.attributes;
    }
    assert Segment(survey.responses, "age", "t") == [vote] by {
      assert [vote][1..] == [];
    }
    assert CountFor([vote], "c1") == 0 by {
      assert [vote][1..] == [];
    }
    assert CountFor([vote], "c2") == 1 by {
      assert [vote][1..] == [];
    }
    var rowRed := RowFor(red, [vote]);
    var rowBlue := RowFor(blue, [vote]);
    assert rowRed.count == 0 && rowBlue.count == 1;
    var unsorted := UnsortedRows(survey.choices, survey.responses);
    assert unsorted == [rowRed, rowBlue];
    assert unsorted[1..] == [rowBlue];
    assert [rowBlue][1..] == [];
    assert SortByCount([rowBlue]) == [rowBlue];
    assert InsertByCount(rowRed, [rowBlue]) == [rowBlue, rowRed];
    assert OverallResults(survey) == [rowBlue, rowRed];
    assert FindAttribute(survey.attributes, "age") == Some(age);
  }

  /** In the corrected table every row counts the choice whose label it shows. */
  lemma CorrectedTableCountsOwnChoice(survey: Survey, attributeId: string, setting: AttributeSetting, i: nat, k: nat)
    requires FindAttribute(survey.attributes, attributeId) == Some(setting)
    requires i < |survey.choices| && k < |setting.choices|
    ensures CorrectedSegmentedTable(survey, attributeId).Some?
    ensures |CorrectedSegmentedTable(survey, attributeId).value| == |survey.choices|
    ensures exists j :: (0 <= j < |survey.choices|
      && CorrectedSegmentedTable(survey, attributeId).value[i].name == ChoiceName(survey.choices[j])
      && CorrectedSegmentedTable(survey, attributeId).value[i].cells[k].count
         == CountFor(Segment(survey.responses, attributeId, setting.choices[k].id), survey.choices[j].id))
  {
    OverallResultsRows(survey);
    var overall := OverallResults(survey);
    var j :| 0 <= j < |survey.choices| && overall[i] == RowFor(survey.choices[j], survey.responses);
  }

  /** Within a segment in which every response names one of the (distinct)
      choices, the counts of a column add up to the segment size; with each
      cell's percentage equal to count * 100 / size, they add up to 100. */
  lemma ColumnCountsSum(survey: Survey, settingId: string, ac: AttributeChoice)
    requires DistinctIds(survey.choices)
    requires forall r :: r in survey.responses ==> NamesChoice(survey.choices, r.choiceId)
    ensures Tally(survey.choices, Segment(survey.responses, settingId, ac.id))
         == |Segment(survey.responses, settingId, ac.id)|
  {
    TallyCoversResponses(survey.choices, Segment(survey.responses, settingId, ac.id));
  }
}

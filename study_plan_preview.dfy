/** The plan preview: every collected parameter is decoded with defaults,
    and the screen shows the daily time, the ranked priorities, two topics
    per group with a "+N more" line, and summary counts. */
module StudyPlanPreview {
  import opened Wizard
  import TimeCommitment
  import FocusArea
  import TopicPicker

  datatype Plan = Plan(
    subjects: seq<Subject>,
    priorities: seq<string>,
    timeCommitment: string,
    strugglingTopics: TopicMap,
    interests: TopicMap)

  /** The value a parameter decodes to under `JSON.parse(text || default)`;
      only meaningful when the parameter is not Malformed. */
  function ValueOr<T>(p: Param<T>, default: T): (v: T)
    ensures p.Given? ==> v == p.value
    ensures !p.Given? ==> v == default
  {
    if p.Given? then p.value else default
  }

  /** The mount effect's decoding: any parameter that does not parse leaves
      the plan unset; otherwise absent ones take `[]`, `{}` or `"15"`. */
  function ParsePlan(p: TimeCommitment.PlanParams): (r: Option<Plan>)
    ensures r.None? <==>
      (|| p.selectedSubjects.Malformed? || p.selectedPriorities.Malformed?
       || p.strugglingTopics.Malformed? || p.selectedTopics.Malformed?)
    ensures r.Some? ==>
      (&& r.value.subjects == ValueOr(p.selectedSubjects, [])
       && r.value.priorities == ValueOr(p.selectedPriorities, [])
       && r.value.strugglingTopics == ValueOr(p.strugglingTopics, map[])
       && r.value.interests == ValueOr(p.selectedTopics, map[])
       && r.value.timeCommitment == StringOr(p.timeCommitment, "15"))
  {
    match (OrDefault(p.selectedSubjects, []), OrDefault(p.selectedPriorities, []),
           OrDefault(p.strugglingTopics, map[]), OrDefault(p.selectedTopics, map[]))
    case (Given(subjects), Given(priorities), Given(struggling), Given(interests)) =>
      Some(Plan(subjects, priorities, StringOr(p.timeCommitment, "15"), struggling, interests))
    case _ => None
  }

  /** The defaults the time-commitment screen fills in are the ones this
      screen would apply itself, so forwarding through it changes nothing
      but the time, which becomes the chosen id. */
  lemma ForwardedParamsParseAlike(tp: TimeCommitment.TimeParams, timeId: string)
    requires timeId != ""
    ensures var direct := TimeCommitment.PlanParams(tp.selectedSubjects, tp.selectedPriorities,
                                                    tp.selectedTopics, tp.strugglingTopics, Some(timeId));
      ParsePlan(TimeCommitment.Forward(tp, timeId)) == ParsePlan(direct)
    ensures ParsePlan(TimeCommitment.Forward(tp, timeId)).Some? ==>
      ParsePlan(TimeCommitment.Forward(tp, timeId)).value.timeCommitment == timeId
  {
  }

  /** `getPriorityTitle`. */
  function PriorityTitle(priority: string): (title: string)
  {
    if priority == "exam" then "Prepare for Exam"
    else if priority == "mastery" then "Master the Topic"
    else if priority == "assignments" then "Help with Assignments"
    else "Focus Area"
  }

  /** The preview names each focus area by the title its card carries, and
      anything else by the generic label. */
  lemma PriorityTitleMatchesCatalog(priority: string)
    ensures FocusArea.FindArea(priority).Some? ==> PriorityTitle(priority) == FocusArea.FindArea(priority).value.title
    ensures FocusArea.FindArea(priority).None? ==> PriorityTitle(priority) == "Focus Area"
  {
  }

  /** `getTimeDescription`. */
  function TimeDescription(time: string): (description: string)
  {
    if time == "5" then "Quick daily reviews"
    else if time == "15" then "Short focused sessions"
    else if time == "30" then "Deep learning sessions"
    else if time == "60" then "Intensive study periods"
    else "Personalized sessions"
  }

  /** A time that is not one of the options gets the generic description. */
  lemma UnknownTimeIsGeneric(time: string)
    requires time !in TimeCommitment.TimeIds
    ensures TimeDescription(time) == "Personalized sessions"
  {
    TimeCommitment.TimeIdsAreTheOptions();
  }

  /** Each offered time has a description of its own, none of them the
      generic one. */
  lemma TimeDescriptionsDistinguishOptions(i: nat, j: nat)
    requires i < j < |TimeCommitment.TimeIds|
    ensures TimeDescription(TimeCommitment.TimeIds[i]) != TimeDescription(TimeCommitment.TimeIds[j])
    ensures TimeDescription(TimeCommitment.TimeIds[i]) != "Personalized sessions"
    ensures TimeDescription(TimeCommitment.TimeIds[j]) != "Personalized sessions"
  {
    TimeCommitment.TimeIdsAreTheOptions();
    var ids := TimeCommitment.TimeIds;
    assert ids[0] == "5" && ids[1] == "15" && ids[2] == "30" && ids[3] == "60";
    var initials := "QSDI";
    forall k | 0 <= k < 4 ensures TimeDescription(ids[k])[0] == initials[k] {
    }
    assert "Personalized sessions"[0] == 'P';
  }

  /** A group of topic lines under a subject: hidden, or up to two topics
      and, when more were picked, a "+N more" count. */
  datatype TopicGroup = Hidden | Shown(topics: seq<string>, more: Option<nat>)

  function GroupFor(list: seq<string>): (g: TopicGroup)
    ensures g.Hidden? <==> |list| == 0
    ensures g.Shown? ==> g.topics == list[..if |list| < 2 then |list| else 2]
    ensures g.Shown? ==> (g.more.Some? <==> |list| > 2)
  {
    if |list| == 0 then Hidden
    else if |list| <= 2 then Shown(list, None)
    else Shown(list[..2], Some(|list| - 2))
  }

  /** Every picked topic is either listed or counted in "+N more". */
  lemma GroupAccountsForEveryTopic(list: seq<string>)
    ensures var g := GroupFor(list);
      g.Shown? ==> |g.topics| + (if g.more.Some? then g.more.value else 0) == |list|
    ensures var g := GroupFor(list);
      g.Shown? ==> forall i :: 0 <= i < |g.topics| ==> g.topics[i] == list[i]
  {
  }

  /** A subject's interests or struggles group (`map[id] || []`): a subject
      with no entry, or an empty one, has no group. */
  function SubjectGroup(m: TopicMap, subjectId: string): (g: TopicGroup)
    ensures subjectId !in m ==> g.Hidden?
    ensures g.Hidden? <==> |TopicPicker.Chosen(m, subjectId)| == 0
  {
    GroupFor(TopicPicker.Chosen(m, subjectId))
  }

  /** A row of the priority list. */
  datatype PriorityRow = PriorityRow(number: nat, title: string)

  /** The priority rows from position `start` of the list on. */
  function RowsFrom(priorities: seq<string>, start: nat): (rows: seq<PriorityRow>)
    ensures |rows| == |priorities|
    ensures forall i :: 0 <= i < |rows| ==>
      rows[i] == PriorityRow(start + i + 1, PriorityTitle(priorities[i]))
  {
    if priorities == [] then []
    else [PriorityRow(start + 1, PriorityTitle(priorities[0]))] + RowsFrom(priorities[1..], start + 1)
  }

  /** The priority list, in the given order, numbered from 1. */
  function PriorityRows(priorities: seq<string>): (rows: seq<PriorityRow>)
    ensures |rows| == |priorities|
    ensures forall i :: 0 <= i < |rows| ==> rows[i].number == i + 1 && rows[i].title == PriorityTitle(priorities[i])
  {
    RowsFrom(priorities, 0)
  }

  /** For a ranking, the preview numbers each priority with the badge the
      focus-area screen showed on its card. */
  lemma RowNumbersMatchBadges(priorities: seq<string>, k: nat)
    requires NoDuplicates(priorities) && k < |priorities|
    ensures Some(PriorityRows(priorities)[k].number) == FocusArea.PriorityNumber(priorities, priorities[k])
    ensures PriorityRows(priorities)[k].title == PriorityTitle(priorities[k])
  {
    FocusArea.PriorityNumberOfRank(priorities, k);
  }

  const ReportScreen := "/onboarding/report"

  class Screen {
    var plan: Option<Plan>
    var isSaving: bool
    var savePending: bool

    ghost predicate Valid()
      reads this
    {
      (isSaving <==> savePending) && (savePending ==> plan.Some?)
    }

    constructor ()
      ensures Valid() && plan.None? && !isSaving && !savePending
    {
      plan, isSaving, savePending := None, false, false;
    }

    /** While no plan is set, the loading view is shown. */
    predicate ShowsLoading()
      reads this
    {
      plan.None?
    }

    /** The mount effect: a decoding failure goes back and leaves the plan
        unset, so the loading view stays up. */
    method Mount(p: TimeCommitment.PlanParams) returns (nav: Nav<()>)
      requires Valid() && plan.None? && !isSaving
      modifies this`plan
      ensures Valid() && plan == ParsePlan(p)
      ensures ShowsLoading() ==> nav == Back
      ensures plan.Some? ==> nav == Stay
    {
      plan := ParsePlan(p);
      nav := if plan.None? then Back else Stay;
    }

    /** The summary card: the number of subjects and the number of interest
        and struggle topics over every key of the two maps, whether or not
        the key is one of the listed subjects. */
    method Summary() returns (subjectCount: nat, interestCount: nat, focusCount: nat)
      requires Valid() && plan.Some?
      ensures subjectCount == |plan.value.subjects|
      ensures interestCount == TotalTopics(plan.value.interests)
      ensures focusCount == TotalTopics(plan.value.strugglingTopics)
    {
      subjectCount := |plan.value.subjects|;
      interestCount := CountTopics(plan.value.interests);
      focusCount := CountTopics(plan.value.strugglingTopics);
    }

    /** `handleSavePlan`, reachable while the button is enabled. */
    method SavePlan()
      requires Valid() && plan.Some? && !isSaving
      modifies this`isSaving, this`savePending
      ensures Valid() && isSaving && savePending
    {
      isSaving := true;
      savePending := true;
    }

    /** The save timer fires: saving ends and the report opens. */
    method FireSave() returns (nav: Nav<()>)
      requires Valid() && savePending
      modifies this`isSaving, this`savePending
      ensures Valid() && !isSaving && !savePending
      ensures nav == Push(ReportScreen, ())
    {
      isSaving := false;
      savePending := false;
      nav := Push(ReportScreen, ());
    }
  }
}

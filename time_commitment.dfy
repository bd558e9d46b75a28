/** The time-commitment screen: one of four daily study times is picked, and
    after a short delay every parameter collected so far is handed on to the
    plan preview, with defaults for the ones that are absent. */
module TimeCommitment {
  import opened Wizard

  datatype TimeOption = TimeOption(id: string, title: string, subtitle: string)

  /** `timeOptions`, in display order. */
  const TimeOptions: seq<TimeOption> := [
    TimeOption("5", "5 mins", "Quick review"),
    TimeOption("15", "15 mins", "Short lessons"),
    TimeOption("30", "30 mins", "Deep learning"),
    TimeOption("60", "60 mins", "Intensive study")
  ]

  /** The ids of the cards, in display order. */
  const TimeIds: seq<string> := seq(|TimeOptions|, i requires 0 <= i < |TimeOptions| => TimeOptions[i].id)

  /** The ids offered are "5", "15", "30" and "60", in that order. */
  lemma TimeIdsAreTheOptions()
    ensures TimeIds == ["5", "15", "30", "60"]
  {
    assert |TimeIds| == 4;
    assert TimeIds[0] == "5" && TimeIds[1] == "15" && TimeIds[2] == "30" && TimeIds[3] == "60";
  }

  /** What this screen receives from the struggles screen. */
  datatype TimeParams = TimeParams(
    selectedSubjects: Param<seq<Subject>>,
    selectedPriorities: Param<seq<string>>,
    selectedTopics: Param<TopicMap>,
    strugglingTopics: Param<TopicMap>)

  /** What the plan preview receives. */
  datatype PlanParams = PlanParams(
    selectedSubjects: Param<seq<Subject>>,
    selectedPriorities: Param<seq<string>>,
    selectedTopics: Param<TopicMap>,
    strugglingTopics: Param<TopicMap>,
    timeCommitment: Option<string>)

  /** The parameter record built when the timer fires: each incoming
      parameter with `|| '[]'` or `|| '{}'`, and the chosen time. */
  function Forward(p: TimeParams, timeId: string): (r: PlanParams)
    ensures r.timeCommitment == Some(timeId)
    ensures !r.selectedSubjects.Missing? && !r.selectedPriorities.Missing?
    ensures !r.selectedTopics.Missing? && !r.strugglingTopics.Missing?
    ensures p.selectedSubjects.Missing? ==> r.selectedSubjects == Given([])
    ensures p.selectedPriorities.Missing? ==> r.selectedPriorities == Given([])
    ensures p.selectedTopics.Missing? ==> r.selectedTopics == Given(map[])
    ensures p.strugglingTopics.Missing? ==> r.strugglingTopics == Given(map[])
    ensures !p.selectedSubjects.Missing? ==> r.selectedSubjects == p.selectedSubjects
    ensures !p.selectedPriorities.Missing? ==> r.selectedPriorities == p.selectedPriorities
    ensures !p.selectedTopics.Missing? ==> r.selectedTopics == p.selectedTopics
    ensures !p.strugglingTopics.Missing? ==> r.strugglingTopics == p.strugglingTopics
  {
    PlanParams(
      OrDefault(p.selectedSubjects, []),
      OrDefault(p.selectedPriorities, []),
      OrDefault(p.selectedTopics, map[]),
      OrDefault(p.strugglingTopics, map[]),
      Some(timeId))
  }

  /** Forwarding a record that already carries every parameter passes all of
      them through unchanged. */
  lemma ForwardKeepsPresentParams(p: TimeParams, timeId: string)
    requires !p.selectedSubjects.Missing? && !p.selectedPriorities.Missing?
    requires !p.selectedTopics.Missing? && !p.strugglingTopics.Missing?
    ensures Forward(p, timeId) ==
      PlanParams(p.selectedSubjects, p.selectedPriorities, p.selectedTopics, p.strugglingTopics, Some(timeId))
  {
  }

  const PreviewScreen := "/onboarding/study-plan-preview"

  class Screen {
    const params: TimeParams
    var selectedTime: string
    /** The time ids of the scheduled forwards, oldest first. */
    var pending: seq<string>

    ghost predicate Valid()
      reads this
    {
      (selectedTime == "" || selectedTime in TimeIds) && forall t :: t in pending ==> t in TimeIds
    }

    constructor (params: TimeParams)
      ensures Valid() && this.params == params && selectedTime == "" && pending == []
    {
      this.params := params;
      selectedTime := "";
      pending := [];
    }

    /** `handleTimeSelect`: the card is marked and a forward is scheduled. */
    method Select(timeId: string)
      requires Valid() && timeId in TimeIds
      modifies this`selectedTime, this`pending
      ensures Valid()
      ensures selectedTime == timeId && pending == old(pending) + [timeId]
    {
      selectedTime := timeId;
      pending := pending + [timeId];
    }

    /** The oldest scheduled forward fires. */
    method Fire() returns (nav: Nav<PlanParams>)
      requires Valid() && pending != []
      modifies this`pending
      ensures Valid() && pending == old(pending)[1..]
      ensures nav == Push(PreviewScreen, Forward(params, old(pending)[0]))
      ensures nav.params.timeCommitment.value in TimeIds
    {
      assert pending[0] in pending;
      nav := Push(PreviewScreen, Forward(params, pending[0]));
      pending := pending[1..];
    }
  }
}

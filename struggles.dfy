/** The struggles screen: the same per-subject paging and capped topic
    toggle as the interests screen, over a fresh map of topics the learner
    finds hard, and the forward to the time-commitment screen. */
module Struggles {
  import opened Wizard
  import TopicPicker
  import SubjectPager
  import Interests
  import TimeCommitment

  const TimeScreen := "/onboarding/time-commitment"

  /** The forward made by Next on the last subject: the incoming subject and
      topic parameters as received, the priorities parameter or `'[]'`, and
      the struggles map. */
  function ForwardToTime(params: Interests.StrugglesParams, struggles: TopicMap): (nav: Nav<TimeCommitment.TimeParams>)
    ensures nav.Push? && nav.screen == TimeScreen
    ensures nav.params.selectedSubjects == params.selectedSubjects
    ensures nav.params.selectedTopics == params.selectedTopics
    ensures nav.params.strugglingTopics == Given(struggles)
    ensures params.selectedPriorities.Missing? ==> nav.params.selectedPriorities == Given([])
    ensures !params.selectedPriorities.Missing? ==> nav.params.selectedPriorities == params.selectedPriorities
  {
    Push(TimeScreen, TimeCommitment.TimeParams(
      params.selectedSubjects,
      OrDefault(params.selectedPriorities, []),
      params.selectedTopics,
      Given(struggles)))
  }

  /** Arriving from the interests screen, which does not pass priorities on,
      the time-commitment screen always receives the empty priority list:
      the ranking made on the focus-area screen does not reach the plan. */
  lemma PrioritiesArriveEmpty(subjects: seq<Subject>, topics: TopicMap, struggles: TopicMap)
    ensures var fromInterests := Interests.ForwardToStruggles(subjects, topics).params;
      ForwardToTime(fromInterests, struggles).params.selectedPriorities == Given([])
  {
  }

  class Screen {
    const params: Interests.StrugglesParams
    var subjects: seq<Subject>
    /** The parsed interests map; it is checked but not otherwise used. */
    var topicsData: TopicMap
    var index: nat
    var struggles: TopicMap

    ghost predicate Valid()
      reads this
    {
      && (subjects == [] ==> index == 0 && struggles == map[])
      && (subjects != [] ==> index < |subjects|)
      && TopicPicker.WellFormed(struggles)
      && TopicPicker.FromVocabulary(struggles)
      && forall k :: k in struggles ==> k in Ids(subjects)
    }

    constructor (params: Interests.StrugglesParams)
      ensures Valid() && this.params == params
      ensures subjects == [] && topicsData == map[] && index == 0 && struggles == map[]
    {
      this.params := params;
      subjects, topicsData, index, struggles := [], map[], 0, map[];
    }

    /** The mount effect: both parameters must be present and parse; the
        struggles start empty whatever the interests were. */
    method Mount() returns (nav: Nav<TimeCommitment.TimeParams>)
      requires Valid() && subjects == []
      modifies this`subjects, this`topicsData
      ensures Valid() && index == 0 && struggles == map[]
      ensures params.selectedSubjects.Given? && params.selectedTopics.Given? ==>
        (subjects == params.selectedSubjects.value && topicsData == params.selectedTopics.value && nav == Stay)
      ensures !(params.selectedSubjects.Given? && params.selectedTopics.Given?) ==>
        (subjects == [] && topicsData == old(topicsData) && nav == Back)
    {
      if params.selectedSubjects.Missing? || params.selectedTopics.Missing? {
        nav := Back;
      } else if params.selectedSubjects.Malformed? || params.selectedTopics.Malformed? {
        nav := Back;
      } else {
        subjects := params.selectedSubjects.value;
        topicsData := params.selectedTopics.value;
        nav := Stay;
      }
    }

    /** `canProceed`: the current subject has at least one struggle. */
    predicate CanProceed()
      requires Valid() && subjects != []
      reads this
    {
      |TopicPicker.Chosen(struggles, subjects[index].id)| > 0
    }

    /** `handleTopicToggle` on a card of the current subject. */
    method Toggle(topic: string)
      requires Valid() && subjects != [] && topic in TopicPicker.TopicsFor(subjects[index].id)
      modifies this`struggles
      ensures Valid()
      ensures struggles == TopicPicker.ToggleTopic(old(struggles), subjects[index].id, topic)
      ensures forall k :: k != subjects[index].id ==> (k in struggles <==> k in old(struggles))
      ensures forall k :: k != subjects[index].id && k in old(struggles) ==> struggles[k] == old(struggles)[k]
    {
      TopicPicker.ToggleKeepsWellFormed(struggles, subjects[index].id, topic);
      TopicPicker.ToggleKeepsVocabulary(struggles, subjects[index].id, topic);
      assert subjects[index].id in Ids(subjects) by {
        assert Ids(subjects)[index] == subjects[index].id;
      }
      struggles := TopicPicker.ToggleTopic(struggles, subjects[index].id, topic);
    }

    /** `handleNext`, reachable only while the button is enabled. */
    method HandleNext() returns (nav: Nav<TimeCommitment.TimeParams>)
      requires Valid() && subjects != [] && CanProceed()
      modifies this`index
      ensures Valid() && struggles == old(struggles)
      ensures old(index) < |subjects| - 1 ==> index == old(index) + 1 && nav == Stay
      ensures old(index) == |subjects| - 1 ==> index == old(index) && nav == ForwardToTime(params, struggles)
    {
      match SubjectPager.NextMove(index, |subjects|) {
        case MoveTo(i) =>
          index := i;
          nav := Stay;
        case Leave =>
          nav := ForwardToTime(params, struggles);
      }
    }

    /** `handleBack`: the picked struggles are kept. */
    method HandleBack() returns (nav: Nav<TimeCommitment.TimeParams>)
      requires Valid() && subjects != []
      modifies this`index
      ensures Valid() && struggles == old(struggles)
      ensures old(index) > 0 ==> index == old(index) - 1 && nav == Stay
      ensures old(index) == 0 ==> index == 0 && nav == Back
    {
      match SubjectPager.BackMove(index) {
        case MoveTo(i) =>
          index := i;
          nav := Stay;
        case Leave =>
          nav := Back;
      }
    }

    /** `totalStruggles`: the number of struggles over every subject, at most
        three per subject with an entry. */
    method TotalStruggles() returns (n: nat)
      requires Valid()
      ensures n == TotalTopics(struggles)
      ensures n <= TopicPicker.MaxTopics * |struggles|
    {
      n := CountTopics(struggles);
      TotalTopicsBound(struggles, TopicPicker.MaxTopics);
    }
  }
}

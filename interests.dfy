/** The interests screen: the subjects are visited one at a time and up to
    three favourite topics are picked for each. */
module Interests {
  import opened Wizard
  import TopicPicker
  import SubjectPager

  /** What the struggles screen receives. The interests screen never sets
      `selectedPriorities`, so it always arrives Missing. */
  datatype StrugglesParams = StrugglesParams(
    selectedSubjects: Param<seq<Subject>>,
    selectedTopics: Param<TopicMap>,
    selectedPriorities: Param<seq<string>>)

  const StrugglesScreen := "/onboarding/struggles"

  /** The forward made by Next on the last subject: only the subject list and
      the topic map are passed on. */
  function ForwardToStruggles(subjects: seq<Subject>, topics: TopicMap): (nav: Nav<StrugglesParams>)
    ensures nav.Push? && nav.screen == StrugglesScreen
    ensures nav.params.selectedSubjects == Given(subjects) && nav.params.selectedTopics == Given(topics)
    ensures nav.params.selectedPriorities == Missing
  {
    Push(StrugglesScreen, StrugglesParams(Given(subjects), Given(topics), Missing))
  }

  class Screen {
    var subjects: seq<Subject>
    var index: nat
    var topics: TopicMap

    /** Every list is capped and drawn from its subject's cards, and only
        subjects of the list have entries. */
    ghost predicate Valid()
      reads this
    {
      && (subjects == [] ==> index == 0 && topics == map[])
      && (subjects != [] ==> index < |subjects|)
      && TopicPicker.WellFormed(topics)
      && TopicPicker.FromVocabulary(topics)
      && forall k :: k in topics ==> k in Ids(subjects)
    }

    constructor ()
      ensures Valid() && subjects == [] && index == 0 && topics == map[]
    {
      subjects, index, topics := [], 0, map[];
    }

    /** The mount effect: without a parsable subject list the screen goes back. */
    method Mount(p: Param<seq<Subject>>) returns (nav: Nav<StrugglesParams>)
      requires Valid() && subjects == []
      modifies this`subjects
      ensures Valid() && index == 0 && topics == map[]
      ensures p.Given? ==> subjects == p.value && nav == Stay
      ensures !p.Given? ==> subjects == [] && nav == Back
    {
      match p {
        case Given(s) =>
          subjects := s;
          nav := Stay;
        case _ =>
          nav := Back;
      }
    }

    /** The topic cards of the current subject (none for an unknown id). */
    function CurrentTopics(): (r: seq<string>)
      requires Valid() && subjects != []
      reads this
      ensures r == TopicPicker.TopicsFor(subjects[index].id)
    {
      TopicPicker.TopicsFor(subjects[index].id)
    }

    /** `canProceed`: the current subject has at least one topic. */
    predicate CanProceed()
      requires Valid() && subjects != []
      reads this
    {
      |TopicPicker.Chosen(topics, subjects[index].id)| > 0
    }

    /** `handleTopicToggle` on a card of the current subject. */
    method Toggle(topic: string)
      requires Valid() && subjects != [] && topic in CurrentTopics()
      modifies this`topics
      ensures Valid()
      ensures topics == TopicPicker.ToggleTopic(old(topics), subjects[index].id, topic)
      ensures forall k :: k != subjects[index].id ==> (k in topics <==> k in old(topics))
      ensures forall k :: k != subjects[index].id && k in old(topics) ==> topics[k] == old(topics)[k]
    {
      TopicPicker.ToggleKeepsWellFormed(topics, subjects[index].id, topic);
      TopicPicker.ToggleKeepsVocabulary(topics, subjects[index].id, topic);
      assert subjects[index].id in Ids(subjects) by {
        assert Ids(subjects)[index] == subjects[index].id;
      }
      topics := TopicPicker.ToggleTopic(topics, subjects[index].id, topic);
    }

    /** `handleNext`, reachable only while the button is enabled. */
    method HandleNext() returns (nav: Nav<StrugglesParams>)
      requires Valid() && subjects != [] && CanProceed()
      modifies this`index
      ensures Valid() && topics == old(topics)
      ensures old(index) < |subjects| - 1 ==> index == old(index) + 1 && nav == Stay
      ensures old(index) == |subjects| - 1 ==> index == old(index) && nav == ForwardToStruggles(subjects, topics)
    {
      match SubjectPager.NextMove(index, |subjects|) {
        case MoveTo(i) =>
          index := i;
          nav := Stay;
        case Leave =>
          nav := ForwardToStruggles(subjects, topics);
      }
    }

    /** `handleBack`: the picked topics are kept. */
    method HandleBack() returns (nav: Nav<StrugglesParams>)
      requires Valid() && subjects != []
      modifies this`index
      ensures Valid() && topics == old(topics)
      ensures old(index) > 0 ==> index == old(index) - 1 && nav == Stay
      ensures old(index) == 0 ==> index == 0 && nav == Back
    {
      match SubjectPager.BackMove(index) {
        case MoveTo(i) =>
          index := i;
          nav := Stay;
        case Leave =>
          nav := Back;
      }
    }
  }
}

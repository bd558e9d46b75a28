/** The per-subject topic vocabulary and the capped toggle that the interests
    and the struggles screens both apply to the current subject's list. */
module TopicPicker {
  import opened Wizard

  /** At most this many topics are chosen per subject. */
  const MaxTopics: nat := 3

  /** `subjectTopics`: ten topics for each subject id. */
  const SubjectTopics: map<string, seq<string>> := map[
    "english" := ["Reading", "Writing", "Grammar", "Vocabulary", "Poetry",
                  "Essays", "Speaking", "Literature", "Spelling", "Thinking"],
    "kiswahili" := ["Kusoma", "Uandishi", "Sarufi", "Lugha", "Mashairi",
                    "Insha", "Maongezi", "Fasihi", "Imla", "Ufikiri"],
    "mathematics" := ["Fractions", "Algebra", "Geometry", "Data", "Measurement",
                      "Numbers", "Ratios", "Probability", "Problems", "Mental Math"],
    "science" := ["Classification", "Body Systems", "Plants", "Materials", "Forces",
                  "Energy", "Environment", "Weather", "Investigation", "Technology"],
    "social" := ["Government", "Geography", "Economics", "Culture", "Resources",
                 "Transport", "Relations", "Conservation", "Rights", "History"],
    "agriculture" := ["Crops", "Livestock", "Soil", "Tools", "Diseases",
                      "Health", "Processing", "Economics", "Farming", "Technology"],
    "cre" := ["Testament", "Teachings", "Values", "Prayer", "Characters",
              "Parables", "Living", "History", "Morals", "Faith"],
    "life" := ["Development", "Health", "Safety", "Communication", "Decisions",
               "Conflict", "Leadership", "Time", "Goals", "Emotions"],
    "sports" := ["Athletics", "Ball Games", "Swimming", "Gymnastics", "Traditional",
                 "Team Sports", "Individual", "Rules", "Fitness", "Safety"],
    "pretech" := ["Electronics", "Machines", "Materials", "Design", "Tools",
                  "Safety", "Problems", "Innovation", "Technology", "Digital"]
  ]

  /** The topic cards shown for a subject: its table entry, or none at all
      for an id the table does not know. */
  function TopicsFor(subjectId: string): (r: seq<string>)
    ensures subjectId !in SubjectTopics ==> r == []
    ensures subjectId in SubjectTopics ==> r == SubjectTopics[subjectId]
  {
    if subjectId in SubjectTopics then SubjectTopics[subjectId] else []
  }

  /** The topics chosen so far for a subject (`map[id] || []`). */
  function Chosen(m: TopicMap, subjectId: string): (r: seq<string>)
    ensures subjectId in m ==> r == m[subjectId]
    ensures subjectId !in m ==> r == []
  {
    if subjectId in m then m[subjectId] else []
  }

  /** `handleTopicToggle` on the current subject: a chosen topic is removed,
      an unchosen one is appended while fewer than three are chosen, and at
      three nothing changes. Only the current subject's entry is touched. */
  function ToggleTopic(m: TopicMap, subjectId: string, topic: string): (r: TopicMap)
    ensures forall k :: k != subjectId ==> (k in r <==> k in m)
    ensures forall k :: k != subjectId && k in m ==> r[k] == m[k]
    ensures topic in Chosen(m, subjectId) ==>
      subjectId in r && r[subjectId] == Without(m[subjectId], topic)
    ensures topic !in Chosen(m, subjectId) && |Chosen(m, subjectId)| < MaxTopics ==>
      subjectId in r && r[subjectId] == Chosen(m, subjectId) + [topic]
    ensures topic !in Chosen(m, subjectId) && |Chosen(m, subjectId)| >= MaxTopics ==> r == m
  {
    var current := Chosen(m, subjectId);
    if topic in current then m[subjectId := Without(current, topic)]
    else if |current| < MaxTopics then m[subjectId := current + [topic]]
    else m
  }

  /** Every subject's list is capped at three and has no repeats. */
  ghost predicate WellFormed(m: TopicMap) {
    forall k :: k in m ==> |m[k]| <= MaxTopics && NoDuplicates(m[k])
  }

  /** Every chosen topic is one of its subject's topic cards. */
  ghost predicate FromVocabulary(m: TopicMap) {
    forall k, t :: k in m && t in m[k] ==> t in TopicsFor(k)
  }

  /** A toggle keeps every list capped and duplicate-free. */
  lemma ToggleKeepsWellFormed(m: TopicMap, subjectId: string, topic: string)
    requires WellFormed(m)
    ensures WellFormed(ToggleTopic(m, subjectId, topic))
  {
    var current := Chosen(m, subjectId);
    if topic in current {
      WithoutNoDuplicates(current, topic);
    } else if |current| < MaxTopics {
      AppendNoDuplicates(current, topic);
    }
  }

  /** Toggling a card of the current subject keeps every choice inside its
      subject's vocabulary. */
  lemma ToggleKeepsVocabulary(m: TopicMap, subjectId: string, topic: string)
    requires FromVocabulary(m) && topic in TopicsFor(subjectId)
    ensures FromVocabulary(ToggleTopic(m, subjectId, topic))
  {
  }

  /** Toggling the same topic twice, when it was absent and there was room,
      restores the subject's list. */
  lemma ToggleTwiceRestores(m: TopicMap, subjectId: string, topic: string)
    requires topic !in Chosen(m, subjectId) && |Chosen(m, subjectId)| < MaxTopics
    ensures Chosen(ToggleTopic(ToggleTopic(m, subjectId, topic), subjectId, topic), subjectId)
            == Chosen(m, subjectId)
  {
    var current := Chosen(m, subjectId);
    WithoutAbsent(current, topic);
    WithoutAppended(current, topic);
  }

  /** The number of topics over all subjects moves by at most one per toggle:
      down by one on a removal, up by one on an append, unchanged at the cap. */
  lemma ToggleChangesTotalByOne(m: TopicMap, subjectId: string, topic: string)
    requires WellFormed(m)
    ensures var current := Chosen(m, subjectId);
      TotalTopics(ToggleTopic(m, subjectId, topic)) ==
        if topic in current then TotalTopics(m) - 1
        else if |current| < MaxTopics then TotalTopics(m) + 1
        else TotalTopics(m)
  {
    var current := Chosen(m, subjectId);
    if topic in current {
      WithoutOnce(current, topic);
      TotalTopicsUpdate(m, subjectId, Without(current, topic));
    } else if |current| < MaxTopics {
      TotalTopicsUpdate(m, subjectId, current + [topic]);
    }
  }

  /** In a duplicate-free list, filtering an element that occurs removes exactly one entry. */
  lemma WithoutOnce(s: seq<string>, x: string)
    requires NoDuplicates(s) && x in s
    ensures |Without(s, x)| == |s| - 1
  {
    var k :| 0 <= k < |s| && s[k] == x;
    WithoutAt(s, k);
  }
}

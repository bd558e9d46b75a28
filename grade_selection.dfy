/** The grade screen: six grade cards, a fixed subject catalog per grade, and
    the handler that looks the catalog up and forwards it. */
module GradeSelection {
  import opened Wizard
  import TopicPicker

  datatype Grade = Grade(id: string, name: string, description: string)

  /** `grades`: the cards offered, in display order. */
  const Grades: seq<Grade> := [
    Grade("grade4", "Grade 4", "Age 9-10"),
    Grade("grade5", "Grade 5", "Age 10-11"),
    Grade("grade6", "Grade 6", "Age 11-12"),
    Grade("grade7", "Grade 7", "Age 12-13"),
    Grade("grade8", "Grade 8", "Age 13-14"),
    Grade("grade9", "Grade 9", "Age 14-15")
  ]

  const English := Subject("english", "English", "BookOpen", "#8B5CF6")
  const Kiswahili := Subject("kiswahili", "Kiswahili", "Globe", "#F59E0B")
  const Mathematics := Subject("mathematics", "Mathematics", "Calculator", "#3B82F6")
  const Science := Subject("science", "Science", "Microscope", "#10B981")
  const Social := Subject("social", "Social Studies", "Users", "#6366F1")
  const Agriculture := Subject("agriculture", "Agriculture", "Sprout", "#22C55E")
  const Cre := Subject("cre", "CRE", "Heart", "#EF4444")
  const Life := Subject("life", "Life Skills", "Lightbulb", "#F97316")
  const Sports := Subject("sports", "Sports & PE", "Zap", "#EC4899")
  const PreTech := Subject("pretech", "Pre\U{2011}Tech", "Wrench", "#64748B")

  /** The grade 4 and grade 5 list. */
  const PrimaryCatalog := [English, Kiswahili, Mathematics, Science, Social, Cre, Life, Sports]
  /** The grade 6 list: agriculture is added after social studies. */
  const Grade6Catalog := [English, Kiswahili, Mathematics, Science, Social, Agriculture, Cre, Life, Sports]
  /** The grade 7 to grade 9 list: pre-technical studies is added at the end. */
  const JuniorCatalog := Grade6Catalog + [PreTech]

  /** `gradeSubjects`. */
  const GradeSubjects: map<string, seq<Subject>> := map[
    "grade4" := PrimaryCatalog,
    "grade5" := PrimaryCatalog,
    "grade6" := Grade6Catalog,
    "grade7" := JuniorCatalog,
    "grade8" := JuniorCatalog,
    "grade9" := JuniorCatalog
  ]

  /** The lookup `gradeSubjects[gradeId] || []`. */
  function AvailableSubjects(gradeId: string): (r: seq<Subject>)
    ensures gradeId in GradeSubjects ==> r == GradeSubjects[gradeId]
    ensures gradeId !in GradeSubjects ==> r == []
  {
    if gradeId in GradeSubjects then GradeSubjects[gradeId] else []
  }

  /** What the subject screen receives. */
  datatype SubjectSelectionParams = SubjectSelectionParams(selectedGrade: string, availableSubjects: Param<seq<Subject>>)

  /** A tap on a grade card: the card is marked, and a push is scheduled (on a
      200 ms timer) carrying the grade id and its catalog. */
  datatype GradeTap = GradeTap(selectedGrade: string, scheduled: Nav<SubjectSelectionParams>)

  function HandleGradeSelect(gradeId: string): (r: GradeTap)
    ensures r.selectedGrade == gradeId
    ensures r.scheduled.Push? && r.scheduled.screen == "/onboarding/subject-selection"
    ensures r.scheduled.params.selectedGrade == gradeId
    ensures r.scheduled.params.availableSubjects == Given(AvailableSubjects(gradeId))
  {
    GradeTap(gradeId, Push("/onboarding/subject-selection",
      SubjectSelectionParams(gradeId, Given(AvailableSubjects(gradeId)))))
  }

  /** Every offered grade has a catalog entry, so the `|| []` fallback never
      applies to a card the screen shows, and the catalog keys are exactly the
      offered grades. */
  lemma OfferedGradesHaveCatalogs()
    ensures forall g :: g in Grades ==> g.id in GradeSubjects
    ensures forall id :: id in GradeSubjects ==> exists g :: g in Grades && g.id == id
  {
    assert Grades[0].id == "grade4" && Grades[1].id == "grade5" && Grades[2].id == "grade6";
    assert Grades[3].id == "grade7" && Grades[4].id == "grade8" && Grades[5].id == "grade9";
  }

  /** A tap on an offered card forwards a non-empty catalog. */
  lemma OfferedGradeForwardsItsCatalog(g: Grade)
    requires g in Grades
    ensures HandleGradeSelect(g.id).scheduled.params.availableSubjects == Given(GradeSubjects[g.id])
    ensures |GradeSubjects[g.id]| >= 8
  {
    OfferedGradesHaveCatalogs();
  }

  /** An id no card offers falls back to the empty catalog. */
  lemma UnknownGradeHasNoSubjects(gradeId: string)
    requires forall g :: g in Grades ==> g.id != gradeId
    ensures AvailableSubjects(gradeId) == []
  {
    assert Grades[0].id == "grade4" && Grades[1].id == "grade5" && Grades[2].id == "grade6";
    assert Grades[3].id == "grade7" && Grades[4].id == "grade8" && Grades[5].id == "grade9";
  }

  ghost predicate Offers(gradeId: string, subjectId: string)
    requires gradeId in GradeSubjects
  {
    subjectId in Ids(GradeSubjects[gradeId])
  }

  const PrimaryIds: seq<string> := ["english", "kiswahili", "mathematics", "science", "social", "cre", "life", "sports"]
  const Grade6Ids: seq<string> := ["english", "kiswahili", "mathematics", "science", "social", "agriculture", "cre", "life", "sports"]

  lemma PrimaryIdsAre()
    ensures Ids(PrimaryCatalog) == PrimaryIds
  {
    var r := Ids(PrimaryCatalog);
    assert |r| == 8;
    forall i | 0 <= i < 8 ensures r[i] == PrimaryIds[i] {
      assert r[i] == PrimaryCatalog[i].id;
    }
  }

  lemma Grade6IdsAre()
    ensures Ids(Grade6Catalog) == Grade6Ids
    ensures Ids(JuniorCatalog) == Grade6Ids + ["pretech"]
  {
    var r := Ids(Grade6Catalog);
    assert |r| == 9;
    forall i | 0 <= i < 9 ensures r[i] == Grade6Ids[i] {
      assert r[i] == Grade6Catalog[i].id;
    }
    var t := Ids(JuniorCatalog);
    assert |t| == 10;
    forall i | 0 <= i < 10 ensures t[i] == (Grade6Ids + ["pretech"])[i] {
      assert t[i] == JuniorCatalog[i].id;
    }
  }

  /** Agriculture first appears in grade 6 and pre-technical studies in grade 7. */
  lemma CatalogsDifferByGrade()
    ensures !Offers("grade4", "agriculture") && !Offers("grade4", "pretech")
    ensures !Offers("grade5", "agriculture") && !Offers("grade5", "pretech")
    ensures Offers("grade6", "agriculture") && !Offers("grade6", "pretech")
    ensures Offers("grade7", "agriculture") && Offers("grade7", "pretech")
    ensures Offers("grade8", "agriculture") && Offers("grade8", "pretech")
    ensures Offers("grade9", "agriculture") && Offers("grade9", "pretech")
  {
    assert GradeSubjects["grade4"] == PrimaryCatalog && GradeSubjects["grade5"] == PrimaryCatalog;
    assert GradeSubjects["grade6"] == Grade6Catalog;
    assert GradeSubjects["grade7"] == JuniorCatalog && GradeSubjects["grade8"] == JuniorCatalog;
    assert GradeSubjects["grade9"] == JuniorCatalog;
    NewSubjectsByCatalog();
  }

  /** Where agriculture and pre-technical studies occur among the three lists. */
  lemma NewSubjectsByCatalog()
    ensures "agriculture" !in Ids(PrimaryCatalog) && "pretech" !in Ids(PrimaryCatalog)
    ensures "agriculture" in Ids(Grade6Catalog) && "pretech" !in Ids(Grade6Catalog)
    ensures "agriculture" in Ids(JuniorCatalog) && "pretech" in Ids(JuniorCatalog)
  {
    PrimaryIdsAre();
    Grade6IdsAre();
    assert Grade6Ids[5] == "agriculture";
    assert (Grade6Ids + ["pretech"])[9] == "pretech";
  }

  /** Subject ids are unique within every grade's catalog. */
  lemma CatalogIdsAreUnique()
    ensures forall g :: g in GradeSubjects ==> NoDuplicates(Ids(GradeSubjects[g]))
  {
    forall g | g in GradeSubjects ensures NoDuplicates(Ids(GradeSubjects[g])) {
      CatalogIsOneOfThree(g);
      var c := GradeSubjects[g];
      if c == PrimaryCatalog {
        PrimaryIdsAre();
        DistinctByFirstTwoLetters(PrimaryIds);
      } else {
        Grade6IdsAre();
        DistinctByFirstTwoLetters(Grade6Ids + ["pretech"]);
        if c == Grade6Catalog {
          NoDuplicatesPrefix(Grade6Ids, "pretech");
        }
      }
    }
  }

  lemma NoDuplicatesPrefix(s: seq<string>, x: string)
    requires NoDuplicates(s + [x])
    ensures NoDuplicates(s)
  {
    forall i, j | 0 <= i < j < |s| ensures s[i] != s[j] {
      assert (s + [x])[i] == s[i] && (s + [x])[j] == s[j];
    }
  }

  /** Each grade's catalog is one of the three lists. */
  lemma CatalogIsOneOfThree(g: string)
    requires g in GradeSubjects
    ensures GradeSubjects[g] in {PrimaryCatalog, Grade6Catalog, JuniorCatalog}
  {
  }

  /** The catalog ids all differ in their first two letters. */
  lemma DistinctByFirstTwoLetters(ids: seq<string>)
    requires ids == PrimaryIds || ids == Grade6Ids + ["pretech"]
    ensures NoDuplicates(ids)
  {
    forall i, j | 0 <= i < j < |ids| ensures ids[i] != ids[j] {
      assert ids[i][0] != ids[j][0] || ids[i][1] != ids[j][1];
    }
  }

  /** Every subject any catalog offers has a list of topic cards, so the
      interests and struggles screens never show an empty topic grid for it. */
  lemma EveryCatalogSubjectHasTopics()
    ensures forall g, s :: g in GradeSubjects && s in GradeSubjects[g] ==>
      s.id in TopicPicker.SubjectTopics && |TopicPicker.TopicsFor(s.id)| == 10
  {
    forall g, s | g in GradeSubjects && s in GradeSubjects[g]
      ensures s.id in TopicPicker.SubjectTopics && |TopicPicker.TopicsFor(s.id)| == 10
    {
      CatalogIsOneOfThree(g);
      assert s in JuniorCatalog;
      JuniorSubjectHasTopics(s);
    }
  }

  lemma JuniorSubjectHasTopics(s: Subject)
    requires s in JuniorCatalog
    ensures s.id in TopicPicker.SubjectTopics && |TopicPicker.TopicsFor(s.id)| == 10
  {
  }
}

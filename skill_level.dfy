/** The skill-level screen: one grade band per subject, picked one subject at
    a time. A pick records the band at once; moving on happens when a 300 ms
    timer fires, modelled as an explicit queue of pending timers. */
module SkillLevel {
  import opened Wizard
  import SubjectPager

  /** `gradeOptions`: the five bands, in display order. */
  const GradeOptions: seq<string> := ["E", "M", "A", "B", "NYM"]

  /** The card title of a band: the band's code, a dash, and its meaning. */
  function GradeTitle(band: string): (title: string)
    requires band in GradeOptions
    ensures band + " - " < title
  {
    var meaning :=
      if band == "E" then "Exceeding Expectations"
      else if band == "M" then "Meeting Expectations"
      else if band == "A" then "Approaching Expectations"
      else if band == "B" then "Below Expectations"
      else "Not Yet Meeting";
    band + " - " + meaning
  }

  /** What the focus-area screen receives. */
  datatype FocusAreaParams = FocusAreaParams(selectedSubjects: Param<seq<Subject>>, subjectGrades: Param<map<string, string>>)

  /** A scheduled callback: move to a subject index, or push the focus-area
      screen with the map as it was when the last pick was made. */
  datatype PendingStep = AdvanceTo(index: nat) | ForwardGrades(grades: map<string, string>)

  /** Every key is a subject id and every value one of the five bands. */
  ghost predicate GradesWellFormed(grades: map<string, string>, subjects: seq<Subject>) {
    (forall k :: k in grades ==> k in Ids(subjects) && grades[k] in GradeOptions)
  }

  const FocusAreaScreen := "/onboarding/focus-area"

  /** Continue is shown exactly when as many subject ids are graded as there
      are subjects; with distinct ids, that is when every subject is graded. */
  lemma {:induction false} ContinueShownIffAllGraded(ids: seq<string>, graded: set<string>)
    requires NoDuplicates(ids)
    requires forall k :: k in graded ==> k in ids
    ensures |graded| == |ids| <==> forall i :: 0 <= i < |ids| ==> ids[i] in graded
  {
    var all := set i | 0 <= i < |ids| :: ids[i];
    assert graded <= all;
    DistinctIdsCardinality(ids);
    if |graded| == |ids| {
      SubsetOfEqualSizeIsEqual(graded, all);
    }
    if forall i :: 0 <= i < |ids| ==> ids[i] in graded {
      assert all <= graded;
      assert graded == all;
    }
  }

  lemma {:induction false} DistinctIdsCardinality(ids: seq<string>)
    requires NoDuplicates(ids)
    ensures |set i | 0 <= i < |ids| :: ids[i]| == |ids|
  {
    if ids != [] {
      var rest := ids[..|ids| - 1];
      var last := ids[|ids| - 1];
      assert NoDuplicates(rest) by {
        forall i, j | 0 <= i < j < |rest| ensures rest[i] != rest[j] {
          assert rest[i] == ids[i] && rest[j] == ids[j];
        }
      }
      DistinctIdsCardinality(rest);
      var restSet := set i | 0 <= i < |rest| :: rest[i];
      var all := set i | 0 <= i < |ids| :: ids[i];
      assert all == restSet + {last} by {
        forall x | x in all ensures x in restSet + {last} {
          var i :| 0 <= i < |ids| && ids[i] == x;
          if i < |ids| - 1 { assert rest[i] == x; }
        }
        forall x | x in restSet ensures x in all {
          var i :| 0 <= i < |rest| && rest[i] == x;
          assert ids[i] == x;
        }
      }
      forall i | 0 <= i < |rest| ensures rest[i] != last {
        assert rest[i] == ids[i];
      }
    }
  }

  lemma SubsetOfEqualSizeIsEqual(a: set<string>, b: set<string>)
    requires a <= b && |a| == |b|
    ensures a == b
  {
    if a != b {
      var x :| x in b && x !in a;
      SubsetCardinality(a, b - {x});
    }
  }

  lemma SubsetCardinality(a: set<string>, b: set<string>)
    requires a <= b
    ensures |a| <= |b|
  {
    assert b == a + (b - a);
  }

  class Screen {
    var subjects: seq<Subject>
    var index: nat
    var grades: map<string, string>
    var pending: seq<PendingStep>

    ghost predicate Valid()
      reads this
    {
      && (subjects == [] ==> index == 0 && grades == map[] && pending == [])
      && (subjects != [] ==> index < |subjects|)
      && GradesWellFormed(grades, subjects)
      && (forall p :: p in pending && p.AdvanceTo? ==> p.index < |subjects|)
      && (forall p :: p in pending && p.ForwardGrades? ==> GradesWellFormed(p.grades, subjects))
    }

    constructor ()
      ensures Valid() && subjects == [] && index == 0 && grades == map[] && pending == []
    {
      subjects, index, grades, pending := [], 0, map[], [];
    }

    /** The mount effect on `selectedSubjects`: a malformed list goes back, a
        missing one does nothing, a parsed one is shown. While the list is
        empty the screen shows its loading view and no handler is reachable. */
    method Mount(p: Param<seq<Subject>>) returns (nav: Nav<FocusAreaParams>)
      requires Valid() && subjects == []
      modifies this
      ensures Valid() && index == 0 && grades == map[] && pending == []
      ensures p.Given? ==> subjects == p.value && nav == Stay
      ensures p.Malformed? ==> subjects == [] && nav == Back
      ensures p.Missing? ==> subjects == [] && nav == Stay
    {
      nav := Stay;
      match p {
        case Given(s) => subjects := s;
        case Malformed => nav := Back;
        case Missing =>
      }
    }

    /** `handleGradeSelect`: the band is recorded for the current subject
        (replacing an earlier answer, leaving every other subject alone) and a
        timer is scheduled that moves on, or, on the last subject, forwards
        the map including this pick. */
    method SelectGrade(band: string)
      requires Valid() && subjects != [] && band in GradeOptions
      modifies this`grades, this`pending
      ensures Valid()
      ensures grades == old(grades)[subjects[index].id := band]
      ensures subjects[index].id in grades && grades[subjects[index].id] == band
      ensures forall k :: k != subjects[index].id ==> (k in grades <==> k in old(grades))
      ensures forall k :: k != subjects[index].id && k in old(grades) ==> grades[k] == old(grades)[k]
      ensures index < |subjects| - 1 ==> pending == old(pending) + [AdvanceTo(index + 1)]
      ensures index == |subjects| - 1 ==> pending == old(pending) + [ForwardGrades(grades)]
    {
      grades := grades[subjects[index].id := band];
      match SubjectPager.NextMove(index, |subjects|) {
        case MoveTo(i) => pending := pending + [AdvanceTo(i)];
        case Leave => pending := pending + [ForwardGrades(grades)];
      }
    }

    /** The oldest pending timer fires. */
    method Fire() returns (nav: Nav<FocusAreaParams>)
      requires Valid() && pending != []
      modifies this`index, this`pending
      ensures Valid() && pending == old(pending)[1..]
      ensures old(pending)[0].AdvanceTo? ==> index == old(pending)[0].index && nav == Stay
      ensures old(pending)[0].ForwardGrades? ==>
        (index == old(index) && nav == Push(FocusAreaScreen, FocusAreaParams(Given(subjects), Given(old(pending)[0].grades))))
    {
      var step := pending[0];
      assert step in pending;
      pending := pending[1..];
      match step {
        case AdvanceTo(i) =>
          index := i;
          nav := Stay;
        case ForwardGrades(g) =>
          nav := Push(FocusAreaScreen, FocusAreaParams(Given(subjects), Given(g)));
      }
    }

    /** `handleBack`: one subject back, or out of the screen at the first;
        recorded bands are kept either way. */
    method HandleBack() returns (nav: Nav<FocusAreaParams>)
      requires Valid() && subjects != []
      modifies this`index
      ensures Valid()
      ensures old(index) > 0 ==> index == old(index) - 1 && nav == Stay
      ensures old(index) == 0 ==> index == 0 && nav == Back
    {
      match SubjectPager.BackMove(index) {
        case MoveTo(i) =>
          index := i;
          nav := Stay;
        case Leave =>
          nav := Back;
      }
    }

    /** Whether the Continue button is rendered. */
    predicate ContinueShown()
      reads this
    {
      |grades.Keys| == |subjects|
    }

    /** `handleContinue`: forwards the subjects and the bands as they stand. */
    method Continue() returns (nav: Nav<FocusAreaParams>)
      requires Valid() && subjects != [] && ContinueShown()
      ensures nav == Push(FocusAreaScreen, FocusAreaParams(Given(subjects), Given(grades)))
      ensures NoDuplicates(Ids(subjects)) ==> forall s :: s in subjects ==> s.id in grades
    {
      nav := Push(FocusAreaScreen, FocusAreaParams(Given(subjects), Given(grades)));
      if NoDuplicates(Ids(subjects)) {
        ContinueShownIffAllGraded(Ids(subjects), grades.Keys);
        forall s | s in subjects ensures s.id in grades {
          var i :| 0 <= i < |subjects| && subjects[i] == s;
          assert Ids(subjects)[i] == s.id;
        }
      }
    }
  }
}

/** The subject screen: a toggle set of at most five subject ids kept in the
    order they were picked, and the Continue handler that turns the ids back
    into catalog records. */
module SubjectSelection {
  import opened Wizard

  const MaxSubjects: nat := 5

  /** `handleSubjectToggle`: a picked id is removed, an unpicked one is
      appended while fewer than five are picked, and at five nothing changes. */
  function Toggle(prev: seq<string>, id: string): (next: seq<string>)
    ensures id in prev ==> next == Without(prev, id)
    ensures id !in prev && |prev| < MaxSubjects ==> next == prev + [id]
    ensures id !in prev && |prev| >= MaxSubjects ==> next == prev
  {
    if id in prev then Without(prev, id)
    else if |prev| < MaxSubjects then prev + [id]
    else prev
  }

  /** A card is disabled when it is not picked and five already are. */
  predicate IsDisabled(selected: seq<string>, id: string) {
    id !in selected && |selected| >= MaxSubjects
  }

  /** What a selection may look like: at most five ids, none twice. */
  predicate ValidSelection(selected: seq<string>) {
    |selected| <= MaxSubjects && NoDuplicates(selected)
  }

  /** Removing a picked id closes the gap: the others keep their order. */
  lemma ToggleRemovesInPlace(prev: seq<string>, k: nat)
    requires ValidSelection(prev) && k < |prev|
    ensures Toggle(prev, prev[k]) == prev[..k] + prev[k+1..]
  {
    WithoutAt(prev, k);
  }

  /** A card is disabled exactly when a tap on it would change nothing. */
  lemma DisabledToggleIsNoOp(prev: seq<string>, id: string)
    ensures IsDisabled(prev, id) <==> Toggle(prev, id) == prev
  {
    if id in prev {
      assert |Toggle(prev, id)| < |prev|;
    }
  }

  /** A toggle keeps the selection at most five long and duplicate-free, so
      from the empty start every reachable selection is valid. */
  lemma ToggleKeepsValid(prev: seq<string>, id: string)
    requires ValidSelection(prev)
    ensures ValidSelection(Toggle(prev, id))
  {
    if id in prev {
      WithoutNoDuplicates(prev, id);
    } else if |prev| < MaxSubjects {
      AppendNoDuplicates(prev, id);
    }
  }

  /** The selection reached from the empty one by a sequence of taps. */
  function Replay(taps: seq<string>): (selected: seq<string>)
    ensures ValidSelection(selected)
  {
    if taps == [] then []
    else
      var before := Replay(taps[..|taps| - 1]);
      ToggleKeepsValid(before, taps[|taps| - 1]);
      Toggle(before, taps[|taps| - 1])
  }

  /** Picking an absent id with room to spare and then unpicking it restores
      the original selection. */
  lemma ToggleTwiceRestores(prev: seq<string>, id: string)
    requires id !in prev && |prev| < MaxSubjects
    ensures Toggle(Toggle(prev, id), id) == prev
  {
    assert (prev + [id])[|prev|] == id;
    WithoutAppended(prev, id);
  }

  /** `subjects.find(s => s.id === id)`. */
  function Find(subjects: seq<Subject>, id: string): (r: Option<Subject>)
    ensures r.Some? ==> r.value in subjects && r.value.id == id
    ensures r.None? <==> id !in Ids(subjects)
  {
    if subjects == [] then None
    else if subjects[0].id == id then Some(subjects[0])
    else
      assert Ids(subjects) == [subjects[0].id] + Ids(subjects[1..]);
      Find(subjects[1..], id)
  }

  /** Find returns the first record that carries the id. */
  lemma {:induction false} FindIsFirst(subjects: seq<Subject>, id: string, k: nat)
    requires k < |subjects| && subjects[k].id == id
    requires forall j :: 0 <= j < k ==> subjects[j].id != id
    ensures Find(subjects, id) == Some(subjects[k])
  {
    if k > 0 {
      assert subjects[0].id != id;
      assert subjects[1..][k - 1] == subjects[k];
      FindIsFirst(subjects[1..], id, k - 1);
    }
  }

  /** The record forwarded for one picked id: the catalog entry, or None for
      the field-less `{}` that JSON makes of a record whose find failed. */
  function Records(selected: seq<string>, subjects: seq<Subject>): (r: seq<Option<Subject>>)
    ensures |r| == |selected|
    ensures forall i :: 0 <= i < |selected| ==> r[i] == Find(subjects, selected[i])
  {
    if selected == [] then [] else [Find(subjects, selected[0])] + Records(selected[1..], subjects)
  }

  datatype SkillLevelParams = SkillLevelParams(selectedGrade: string, selectedSubjects: Param<seq<Option<Subject>>>)

  /** `handleContinue`: nothing with an empty selection; otherwise a push of
      one record per picked id, in pick order. */
  function HandleContinue(selected: seq<string>, subjects: seq<Subject>, grade: string): (nav: Nav<SkillLevelParams>)
    ensures ContinueDisabled(selected) <==> nav == Stay
    ensures selected != [] ==>
      && nav.Push? && nav.screen == "/onboarding/skill-level"
      && nav.params.selectedGrade == grade
      && nav.params.selectedSubjects.Given?
      && |nav.params.selectedSubjects.value| == |selected|
      && (forall i :: 0 <= i < |selected| ==> nav.params.selectedSubjects.value[i] == Find(subjects, selected[i]))
  {
    if |selected| > 0 then
      Push("/onboarding/skill-level", SkillLevelParams(grade, Given(Records(selected, subjects))))
    else Stay
  }

  /** The Continue button is disabled exactly when nothing is picked. */
  predicate ContinueDisabled(selected: seq<string>) {
    |selected| == 0
  }

  /** What the skill-level screen's `JSON.parse` makes of the forwarded
      records: the subjects themselves when every record carries its fields,
      and no subject list when one of them is the field-less `{}`. */
  function Delivered(records: seq<Option<Subject>>): (r: Option<seq<Subject>>)
    ensures r.Some? <==> forall i :: 0 <= i < |records| ==> records[i].Some?
    ensures r.Some? ==> |r.value| == |records| && forall i :: 0 <= i < |records| ==> records[i] == Some(r.value[i])
  {
    if records == [] then Some([])
    else
      var rest := Delivered(records[1..]);
      assert forall i :: 1 <= i < |records| ==> records[i] == records[1..][i - 1];
      if records[0].Some? && rest.Some? then Some([records[0].value] + rest.value) else None
  }

  /** The two screens compose: a selection of catalog ids reaches the
      skill-level screen as those subjects, in pick order. */
  lemma ContinueDeliversSubjects(selected: seq<string>, subjects: seq<Subject>, grade: string)
    requires selected != []
    requires forall id :: id in selected ==> id in Ids(subjects)
    ensures var d := Delivered(HandleContinue(selected, subjects, grade).params.selectedSubjects.value);
      && d.Some? && Ids(d.value) == selected
      && forall x :: x in d.value ==> x in subjects
  {
    var recs := HandleContinue(selected, subjects, grade).params.selectedSubjects.value;
    ContinueForwardsCatalogRecords(selected, subjects, grade);
    var d := Delivered(recs);
    assert d.Some?;
    forall x | x in d.value ensures x in subjects {
      var i :| 0 <= i < |d.value| && d.value[i] == x;
      assert recs[i] == Some(x);
    }
    assert Ids(d.value) == selected by {
      forall i | 0 <= i < |selected| ensures Ids(d.value)[i] == selected[i] {
        assert recs[i] == Some(d.value[i]);
      }
    }
  }

  /** When every picked id comes from the catalog, every forwarded record is
      that id's catalog entry. */
  lemma ContinueForwardsCatalogRecords(selected: seq<string>, subjects: seq<Subject>, grade: string)
    requires selected != []
    requires forall id :: id in selected ==> id in Ids(subjects)
    ensures var nav := HandleContinue(selected, subjects, grade);
      forall i :: 0 <= i < |selected| ==>
        nav.params.selectedSubjects.value[i].Some? &&
        nav.params.selectedSubjects.value[i].value.id == selected[i] &&
        nav.params.selectedSubjects.value[i].value in subjects
  {
    var nav := HandleContinue(selected, subjects, grade);
    forall i | 0 <= i < |selected|
      ensures nav.params.selectedSubjects.value[i].Some?
    {
      assert selected[i] in selected;
    }
  }

  /** The screen's state: the parsed catalog and the picked ids. */
  class Screen {
    var grade: string
    var subjects: seq<Subject>
    var selected: seq<string>

    ghost predicate Valid()
      reads this
    {
      ValidSelection(selected) && forall id :: id in selected ==> id in Ids(subjects)
    }

    constructor (grade: string)
      ensures Valid() && this.grade == grade && subjects == [] && selected == []
    {
      this.grade := grade;
      subjects := [];
      selected := [];
    }

    /** The mount effect: a missing catalog leaves the grid empty, a malformed
        one goes back, a parsed one fills the grid. */
    method Mount(available: Param<seq<Subject>>) returns (nav: Nav<SkillLevelParams>)
      requires Valid() && subjects == [] && selected == []
      modifies this
      ensures Valid() && grade == old(grade) && selected == []
      ensures available.Given? ==> subjects == available.value && nav == Stay
      ensures available.Malformed? ==> subjects == [] && nav == Back
      ensures available.Missing? ==> subjects == [] && nav == Stay
    {
      nav := Stay;
      match available {
        case Given(s) => subjects := s;
        case Malformed => nav := Back;
        case Missing =>
      }
    }

    /** A tap on a subject card. */
    method Tap(id: string)
      requires Valid() && id in Ids(subjects)
      modifies this`selected
      ensures Valid()
      ensures selected == Toggle(old(selected), id)
    {
      ToggleKeepsValid(selected, id);
      selected := Toggle(selected, id);
    }

    /** The Continue handler: every forwarded record is a catalog entry. */
    method Continue() returns (nav: Nav<SkillLevelParams>)
      requires Valid()
      ensures nav == HandleContinue(selected, subjects, grade)
      ensures nav.Push? ==> forall r :: r in nav.params.selectedSubjects.value ==> r.Some? && r.value in subjects
    {
      nav := HandleContinue(selected, subjects, grade);
      if selected != [] {
        ContinueForwardsCatalogRecords(selected, subjects, grade);
        forall r | r in nav.params.selectedSubjects.value ensures r.Some? && r.value in subjects {
          var i :| 0 <= i < |nav.params.selectedSubjects.value| && nav.params.selectedSubjects.value[i] == r;
        }
      }
    }
  }
}

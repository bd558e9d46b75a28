/** The focus-area screen: the three study priorities are ranked by tapping
    them in order; once two are ranked, the third is appended on its own
    after a short delay, guarded by a flag that a second timer clears. */
module FocusArea {
  import opened Wizard
  import SkillLevel

  datatype Area = Area(id: string, title: string, subtitle: string)

  const Exam := Area("exam", "Prepare for Exam", "Get ready for upcoming tests")
  const Mastery := Area("mastery", "Master the Topic", "Deep understanding of concepts")
  const Assignments := Area("assignments", "Help with Assignments", "Complete homework and projects")

  /** `focusAreas`, in catalog order. */
  const FocusAreas: seq<Area> := [Exam, Mastery, Assignments]
  const AreaIds: seq<string> := ["exam", "mastery", "assignments"]

  /** A ranking: at most three catalog ids, none twice. */
  ghost predicate ValidRanking(p: seq<string>) {
    |p| <= 3 && NoDuplicates(p) && forall a :: a in p ==> a in AreaIds
  }

  /** The ranking part of `handleAreaSelect`: a ranked area is left alone,
      any other is ranked last. */
  function Select(p: seq<string>, area: string): (r: seq<string>)
    ensures area in p ==> r == p
    ensures area !in p ==> |r| == |p| + 1 && r[..|p|] == p && r[|p|] == area
  {
    if area in p then p else p + [area]
  }

  /** Appending keeps a ranking valid while there is room for a catalog id. */
  lemma SelectKeepsValid(p: seq<string>, area: string)
    requires ValidRanking(p) && area in AreaIds && (area in p || |p| < 3)
    ensures ValidRanking(Select(p, area))
  {
    if area !in p {
      AppendNoDuplicates(p, area);
    }
  }

  /** The catalog entry for an id. */
  function FindArea(id: string): (r: Option<Area>)
    ensures r.Some? ==> r.value in FocusAreas && r.value.id == id
    ensures r.None? <==> id !in AreaIds
  {
    if id == "exam" then Some(Exam)
    else if id == "mastery" then Some(Mastery)
    else if id == "assignments" then Some(Assignments)
    else None
  }

  /** `areas.find(area => !p.includes(area.id))`. */
  function FirstUnranked(areas: seq<Area>, p: seq<string>): (r: Option<Area>)
    ensures r.Some? ==> r.value in areas && r.value.id !in p
    ensures r.None? <==> forall a :: a in areas ==> a.id in p
  {
    if areas == [] then None
    else if areas[0].id !in p then Some(areas[0])
    else FirstUnranked(areas[1..], p)
  }

  /** `find` returns the first match: every card before it is ranked. */
  lemma {:induction false} FirstUnrankedIsFirst(areas: seq<Area>, p: seq<string>)
    ensures var r := FirstUnranked(areas, p);
      r.Some? ==> exists k :: (&& 0 <= k < |areas| && areas[k] == r.value
                               && forall i :: 0 <= i < k ==> areas[i].id in p)
  {
    if areas != [] {
      if areas[0].id !in p {
        assert areas[0] == FirstUnranked(areas, p).value;
      } else {
        var t := areas[1..];
        FirstUnrankedIsFirst(t, p);
        var r := FirstUnranked(t, p);
        if r.Some? {
          var k :| 0 <= k < |t| && t[k] == r.value && forall i :: 0 <= i < k ==> t[i].id in p;
          assert areas[k + 1] == r.value;
          assert forall i :: 1 <= i < k + 1 ==> areas[i] == t[i - 1];
        }
      }
    }
  }

  /** `find` picks the first card `filter` keeps. */
  lemma {:induction false} FirstUnrankedHeadsUnranked(areas: seq<Area>, p: seq<string>)
    ensures FirstUnranked(areas, p) == if Unranked(areas, p) == [] then None else Some(Unranked(areas, p)[0])
  {
    if areas != [] && areas[0].id in p {
      FirstUnrankedHeadsUnranked(areas[1..], p);
    }
  }

  /** The catalog ids differ in their first letter. */
  lemma AreaIdsByInitial()
    ensures forall a :: a in AreaIds ==> |a| > 0
    ensures forall a, b :: a in AreaIds && b in AreaIds && a[0] == b[0] ==> a == b
    ensures forall a :: a in AreaIds ==> a[0] == 'e' || a[0] == 'm' || a[0] == 'a'
    ensures "exam" in AreaIds && "mastery" in AreaIds && "assignments" in AreaIds
  {
    assert AreaIds[0] == "exam" && AreaIds[1] == "mastery" && AreaIds[2] == "assignments";
  }

  /** With two areas ranked, exactly one catalog id is left. */
  lemma OnlyOneLeft(p: seq<string>, x: string, y: string)
    requires ValidRanking(p) && |p| == 2
    requires x in AreaIds && x !in p && y in AreaIds && y !in p
    ensures x == y
  {
    AreaIdsByInitial();
    assert p[0] in p && p[1] in p;
    assert p[0][0] != p[1][0];
    assert x[0] != p[0][0] && x[0] != p[1][0];
    assert y[0] != p[0][0] && y[0] != p[1][0];
  }

  /** With two areas ranked, some catalog id is left. */
  lemma MissingId(p: seq<string>) returns (m: string)
    requires ValidRanking(p) && |p| == 2
    ensures m in AreaIds && m !in p
  {
    AreaIdsByInitial();
    assert p[0] in p && p[1] in p;
    assert p[0][0] != p[1][0];
    assert p == [p[0], p[1]];
    if p[0][0] != 'e' && p[1][0] != 'e' {
      m := "exam";
      assert m[0] == 'e';
    } else if p[0][0] != 'm' && p[1][0] != 'm' {
      m := "mastery";
      assert m[0] == 'm';
    } else {
      m := "assignments";
      assert m[0] == 'a';
    }
  }

  /** No catalog id occurs twice. */
  lemma AreaIdsDistinct()
    ensures NoDuplicates(AreaIds)
  {
    AreaIdsByInitial();
    forall i, j | 0 <= i < j < 3 ensures AreaIds[i] != AreaIds[j] {
      assert AreaIds[i][0] != AreaIds[j][0];
    }
  }

  /** Two ranked ids and the one left make up the whole catalog. */
  lemma TwoRankedCompleteToAll(p: seq<string>)
    requires ValidRanking(p) && |p| == 2
    ensures FirstUnranked(FocusAreas, p).Some?
    ensures var c := p + [FirstUnranked(FocusAreas, p).value.id];
      ValidRanking(c) && forall a :: a in AreaIds ==> a in c
  {
    var m := MissingId(p);
    var area := FindArea(m).value;
    assert area in FocusAreas && area.id !in p;
    var r := FirstUnranked(FocusAreas, p);
    var left := r.value.id;
    CatalogPosition(r.value);
    AppendNoDuplicates(p, left);
    forall a | a in AreaIds ensures a in p + [left] {
      if a !in p {
        OnlyOneLeft(p, a, left);
      }
    }
  }

  /** Three ranked ids are the whole catalog, each once: a permutation. */
  lemma FullRankingIsPermutation(p: seq<string>)
    requires ValidRanking(p) && |p| == 3
    ensures forall a :: a in AreaIds ==> a in p
    ensures multiset(p) == multiset(AreaIds)
  {
    AreaIdsByInitial();
    assert p[0] in p && p[1] in p && p[2] in p;
    assert p[0][0] != p[1][0] && p[0][0] != p[2][0] && p[1][0] != p[2][0];
    forall a | a in AreaIds ensures a in p {
      if a[0] == p[0][0] {
        assert a == p[0];
      } else if a[0] == p[1][0] {
        assert a == p[1];
      } else {
        assert a == p[2];
      }
    }
    AreaIdsDistinct();
    SameDistinctMembersSameMultiset(p, AreaIds);
  }

  /** The number of times an element occurs in a duplicate-free list. */
  lemma {:induction false} DistinctMultiplicity<T>(s: seq<T>, x: T)
    requires NoDuplicates(s)
    ensures multiset(s)[x] == if x in s then 1 else 0
  {
    if s != [] {
      var t := s[1..];
      assert s == [s[0]] + t;
      assert NoDuplicates(t) by {
        forall i, j | 0 <= i < j < |t| ensures t[i] != t[j] {
          assert t[i] == s[i + 1] && t[j] == s[j + 1];
        }
      }
      DistinctMultiplicity(t, x);
      if x == s[0] {
        forall j | 0 <= j < |t| ensures t[j] != x {
          assert t[j] == s[j + 1];
        }
      }
    }
  }

  /** Two duplicate-free lists with the same members are permutations of each other. */
  lemma SameDistinctMembersSameMultiset<T>(a: seq<T>, b: seq<T>)
    requires NoDuplicates(a) && NoDuplicates(b)
    requires forall x :: x in a <==> x in b
    ensures multiset(a) == multiset(b)
  {
    forall x ensures multiset(a)[x] == multiset(b)[x] {
      DistinctMultiplicity(a, x);
      DistinctMultiplicity(b, x);
    }
  }

  /** The ranked cards, in rank order. */
  function Ranked(p: seq<string>): (r: seq<Area>)
    requires forall a :: a in p ==> a in AreaIds
    ensures |r| == |p|
    ensures forall i :: 0 <= i < |p| ==> r[i] in FocusAreas && r[i].id == p[i]
  {
    if p == [] then [] else [FindArea(p[0]).value] + Ranked(p[1..])
  }

  /** `areas.filter(area => !p.includes(area.id))`. */
  function Unranked(areas: seq<Area>, p: seq<string>): (r: seq<Area>)
    ensures forall a :: a in r <==> a in areas && a.id !in p
  {
    if areas == [] then []
    else if areas[0].id !in p then [areas[0]] + Unranked(areas[1..], p)
    else Unranked(areas[1..], p)
  }

  lemma {:induction false} UnrankedNoDuplicates(areas: seq<Area>, p: seq<string>)
    requires NoDuplicates(areas)
    ensures NoDuplicates(Unranked(areas, p))
  {
    if areas != [] {
      var t := areas[1..];
      assert NoDuplicates(t) by {
        forall i, j | 0 <= i < j < |t| ensures t[i] != t[j] {
          assert t[i] == areas[i + 1] && t[j] == areas[j + 1];
        }
      }
      UnrankedNoDuplicates(t, p);
      if areas[0].id !in p {
        assert areas[0] !in t by {
          forall j | 0 <= j < |t| ensures t[j] != areas[0] {
            assert t[j] == areas[j + 1];
          }
        }
        var u := Unranked(t, p);
        var r := [areas[0]] + u;
        forall i, j | 0 <= i < j < |r| ensures r[i] != r[j] {
          if i == 0 {
            assert r[j] == u[j - 1] && u[j - 1] in u;
          } else {
            assert r[i] == u[i - 1] && r[j] == u[j - 1];
          }
        }
      }
    }
  }

  /** The cards of `r` appear in `r` in the order they have in `areas`. */
  ghost predicate InOrderOf(areas: seq<Area>, r: seq<Area>) {
    forall i, j :: 0 <= i < j < |r| ==>
      r[i] in areas && r[j] in areas && IndexOf(areas, r[i]).value < IndexOf(areas, r[j]).value
  }

  /** An order along the tail of a list holds along the whole list. */
  lemma OrderAlongTail(areas: seq<Area>, u: seq<Area>)
    requires areas != [] && NoDuplicates(areas) && InOrderOf(areas[1..], u)
    requires forall x :: x in u ==> x in areas[1..]
    ensures InOrderOf(areas, u)
    ensures areas[0] !in u ==> InOrderOf(areas, [areas[0]] + u)
  {
    var t := areas[1..];
    forall x | x in t ensures x != areas[0] && IndexOf(areas, x) == Some(IndexOf(t, x).value + 1) {
      var j :| 0 <= j < |t| && t[j] == x;
      assert areas[j + 1] == x;
    }
    if areas[0] !in u {
      var r := [areas[0]] + u;
      forall i, j | 0 <= i < j < |r|
        ensures r[i] in areas && r[j] in areas && IndexOf(areas, r[i]).value < IndexOf(areas, r[j]).value
      {
        assert r[j] == u[j - 1] && u[j - 1] in u;
        if i > 0 {
          assert r[i] == u[i - 1];
        }
      }
    }
  }

  /** `filter` keeps the catalog order of the cards it keeps. */
  lemma {:induction false} UnrankedInOrder(areas: seq<Area>, p: seq<string>)
    requires NoDuplicates(areas)
    ensures InOrderOf(areas, Unranked(areas, p))
  {
    if areas != [] {
      var t := areas[1..];
      assert NoDuplicates(t) by {
        forall i, j | 0 <= i < j < |t| ensures t[i] != t[j] {
          assert t[i] == areas[i + 1] && t[j] == areas[j + 1];
        }
      }
      UnrankedInOrder(t, p);
      OrderAlongTail(areas, Unranked(t, p));
    }
  }

  /** `getDisplayOrder`: the ranked cards in rank order, then the others in
      catalog order. */
  function DisplayOrder(p: seq<string>): (r: seq<Area>)
    requires forall a :: a in p ==> a in AreaIds
    ensures |p| <= |r| && forall i :: 0 <= i < |p| ==> r[i].id == p[i]
    ensures forall a :: a in r[|p|..] <==> a in FocusAreas && a.id !in p
  {
    assert (Ranked(p) + Unranked(FocusAreas, p))[|p|..] == Unranked(FocusAreas, p);
    Ranked(p) + Unranked(FocusAreas, p)
  }

  /** The catalog holds each area once. */
  lemma FocusAreasDistinct()
    ensures NoDuplicates(FocusAreas)
    ensures forall a, b :: a in FocusAreas && b in FocusAreas && a.id == b.id ==> a == b
  {
    AreaIdsByInitial();
    assert forall i :: 0 <= i < 3 ==> FocusAreas[i].id == AreaIds[i];
  }

  /** A catalog card's place among the cards is its id's place among the ids. */
  lemma CatalogPosition(x: Area)
    requires x in FocusAreas
    ensures x.id in AreaIds && IndexOf(AreaIds, x.id) == IndexOf(FocusAreas, x)
  {
    var k :| 0 <= k < 3 && FocusAreas[k] == x;
    FocusAreasDistinct();
    AreaIdsDistinct();
    assert FocusAreas[k].id == AreaIds[k];
    IndexOfDistinct(FocusAreas, k);
    IndexOfDistinct(AreaIds, k);
  }

  /** The ranked part comes first, in rank order, and the rest is unranked
      and in catalog order. */
  lemma DisplayOrderLayout(p: seq<string>)
    requires ValidRanking(p)
    ensures forall i :: 0 <= i < |p| ==> DisplayOrder(p)[i].id == p[i]
    ensures forall i :: 0 <= i < |DisplayOrder(p)| ==> DisplayOrder(p)[i].id in AreaIds
    ensures forall i :: |p| <= i < |DisplayOrder(p)| ==> DisplayOrder(p)[i].id !in p
    ensures forall i, j :: |p| <= i < j < |DisplayOrder(p)| ==>
      IndexOf(AreaIds, DisplayOrder(p)[i].id).value < IndexOf(AreaIds, DisplayOrder(p)[j].id).value
  {
    var rk := Ranked(p);
    var un := Unranked(FocusAreas, p);
    var d := DisplayOrder(p);
    FocusAreasDistinct();
    UnrankedInOrder(FocusAreas, p);
    forall i | 0 <= i < |d| ensures d[i].id in AreaIds && (i >= |p| ==> d[i] == un[i - |p|] && d[i] in un) {
      if i < |p| {
        assert d[i] == rk[i];
      } else {
        assert d[i] == un[i - |p|] && un[i - |p|] in un;
      }
      CatalogPosition(d[i]);
    }
    forall i, j | |p| <= i < j < |d|
      ensures IndexOf(AreaIds, d[i].id).value < IndexOf(AreaIds, d[j].id).value
    {
      CatalogPosition(d[i]);
      CatalogPosition(d[j]);
      assert d[i] == un[i - |p|] && d[j] == un[j - |p|];
    }
  }

  /** No card is shown twice. */
  lemma DisplayOrderDistinct(p: seq<string>)
    requires ValidRanking(p)
    ensures NoDuplicates(DisplayOrder(p))
  {
    var un := Unranked(FocusAreas, p);
    var d := DisplayOrder(p);
    FocusAreasDistinct();
    UnrankedNoDuplicates(FocusAreas, p);
    DisplayOrderLayout(p);
    forall i, j | 0 <= i < j < |d| ensures d[i] != d[j] {
      if j < |p| {
        assert d[i].id == p[i] && d[j].id == p[j];
      } else if i < |p| {
        assert d[i].id == p[i];
        assert d[i].id in p;
      } else {
        assert d[i] == un[i - |p|] && d[j] == un[j - |p|];
      }
    }
  }

  /** Every catalog card is shown. */
  lemma DisplayOrderCoversCatalog(p: seq<string>)
    requires ValidRanking(p)
    ensures forall x :: x in FocusAreas ==> x in DisplayOrder(p)
  {
    var rk := Ranked(p);
    var d := DisplayOrder(p);
    FocusAreasDistinct();
    forall x | x in FocusAreas ensures x in d {
      if x.id in p {
        var i :| 0 <= i < |p| && p[i] == x.id;
        assert rk[i] in FocusAreas && rk[i].id == x.id;
        assert d[i] == x;
      } else {
        assert x in Unranked(FocusAreas, p);
      }
    }
  }

  /** Only catalog cards are shown. */
  lemma DisplayOrderWithinCatalog(p: seq<string>)
    requires ValidRanking(p)
    ensures forall x :: x in DisplayOrder(p) ==> x in FocusAreas
  {
    var rk := Ranked(p);
    var un := Unranked(FocusAreas, p);
    var d := DisplayOrder(p);
    forall x | x in d ensures x in FocusAreas {
      var i :| 0 <= i < |d| && d[i] == x;
      if i < |p| {
        assert d[i] == rk[i];
      } else {
        assert d[i] == un[i - |p|] && un[i - |p|] in un;
      }
    }
  }

  /** The display order starts with the ranked cards in rank order, follows
      with the unranked ones, and is a permutation of the catalog. */
  lemma DisplayOrderIsPermutation(p: seq<string>)
    requires ValidRanking(p)
    ensures |DisplayOrder(p)| == 3
    ensures forall i :: 0 <= i < |p| ==> DisplayOrder(p)[i].id == p[i]
    ensures forall i :: |p| <= i < |DisplayOrder(p)| ==> DisplayOrder(p)[i].id !in p
    ensures multiset(DisplayOrder(p)) == multiset(FocusAreas)
  {
    var d := DisplayOrder(p);
    DisplayOrderLayout(p);
    DisplayOrderDistinct(p);
    DisplayOrderCoversCatalog(p);
    DisplayOrderWithinCatalog(p);
    FocusAreasDistinct();
    SameDistinctMembersSameMultiset(d, FocusAreas);
    assert |multiset(d)| == |multiset(FocusAreas)|;
  }

  /** `getPriorityNumber`: the rank counted from 1, or null when unranked. */
  function PriorityNumber(p: seq<string>, id: string): (r: Option<nat>)
    ensures r.None? <==> id !in p
    ensures r.Some? ==> 1 <= r.value <= |p| && p[r.value - 1] == id
  {
    match IndexOf(p, id)
    case None => None
    case Some(k) => Some(k + 1)
  }

  /** In a ranking, the badge of the area at position k reads k + 1. */
  lemma PriorityNumberOfRank(p: seq<string>, k: nat)
    requires NoDuplicates(p) && k < |p|
    ensures PriorityNumber(p, p[k]) == Some(k + 1)
  {
  }

  /** An unranked card is greyed out while two are ranked without an
      auto-select running, and once all three are ranked. */
  predicate IsDisabled(p: seq<string>, autoSelecting: bool, id: string) {
    (|p| == 2 && !autoSelecting && id !in p) || (|p| == 3 && id !in p)
  }

  /** A card accepts a tap when it is neither disabled nor ranked. */
  predicate Pressable(p: seq<string>, autoSelecting: bool, id: string): (r: bool)
    ensures r ==> Select(p, id) == p + [id] && |p| != 3
    ensures r && |p| == 2 ==> autoSelecting
  {
    !IsDisabled(p, autoSelecting, id) && id !in p
  }

  /** With all three ranked, no card accepts a tap. */
  lemma NothingPressableWhenComplete(p: seq<string>, autoSelecting: bool, id: string)
    requires ValidRanking(p) && |p| == 3
    ensures !Pressable(p, autoSelecting, id)
  {
  }

  /** The Continue button is enabled exactly at three. */
  predicate ContinueEnabled(p: seq<string>) {
    |p| == 3
  }

  /** What the interests screen receives. */
  datatype InterestsParams = InterestsParams(
    selectedSubjects: Param<seq<Subject>>,
    subjectGrades: Param<map<string, string>>,
    selectedPriorities: Param<seq<string>>)

  /** The scheduled auto-select: the closure remembers the ranking of the
      render that scheduled it. */
  datatype AutoStep = AutoStep(base: seq<string>, area: string)

  class Screen {
    const params: SkillLevel.FocusAreaParams
    var priorities: seq<string>
    var autoSelecting: bool
    var pendingAuto: Option<AutoStep>
    var pendingResets: nat

    ghost predicate Valid()
      reads this
    {
      && ValidRanking(priorities)
      && (|priorities| < 2 ==> !autoSelecting && pendingAuto.None? && pendingResets == 0)
      && (|priorities| == 2 ==> autoSelecting && pendingAuto.Some? && pendingResets == 0)
      && (pendingAuto.Some? ==>
            && |pendingAuto.value.base| == 2
            && ValidRanking(pendingAuto.value.base + [pendingAuto.value.area])
            && (priorities == pendingAuto.value.base || priorities == pendingAuto.value.base + [pendingAuto.value.area]))
    }

    constructor (params: SkillLevel.FocusAreaParams)
      ensures Valid() && this.params == params
      ensures priorities == [] && !autoSelecting && pendingAuto.None? && pendingResets == 0
    {
      this.params := params;
      priorities := [];
      autoSelecting := false;
      pendingAuto := None;
      pendingResets := 0;
    }

    /** A tap on a card, followed by the auto-select effect: reaching two
        ranked areas raises the flag and schedules the remaining one;
        reaching three schedules the flag reset. */
    method Tap(area: string)
      requires Valid() && area in AreaIds && Pressable(priorities, autoSelecting, area)
      modifies this`priorities, this`autoSelecting, this`pendingAuto, this`pendingResets
      ensures Valid()
      ensures priorities == old(priorities) + [area]
      ensures |priorities| == 2 ==>
        (&& autoSelecting
         && pendingAuto == Some(AutoStep(priorities, FirstUnranked(FocusAreas, priorities).value.id))
         && pendingResets == 0)
      ensures |priorities| == 3 ==>
        (&& pendingResets == old(pendingResets) + 1
         && autoSelecting == old(autoSelecting) && pendingAuto == old(pendingAuto))
      ensures |priorities| < 2 ==> !autoSelecting && pendingAuto.None? && pendingResets == 0
    {
      SelectKeepsValid(priorities, area);
      var was := priorities;
      priorities := Select(priorities, area);
      if |priorities| == 3 {
        pendingResets := pendingResets + 1;
        if pendingAuto.Some? {
          var step := pendingAuto.value;
          assert step.area !in was && step.area in AreaIds by {
            assert step.area in step.base + [step.area];
            assert (step.base + [step.area])[2] == step.area;
            assert (step.base + [step.area])[..2] == step.base;
            assert NoDuplicates(step.base + [step.area]);
          }
          OnlyOneLeft(was, area, step.area);
        }
      }
      if |priorities| == 2 && !autoSelecting {
        autoSelecting := true;
        TwoRankedCompleteToAll(priorities);
        var left := FirstUnranked(FocusAreas, priorities);
        if left.Some? {
          pendingAuto := Some(AutoStep(priorities, left.value.id));
        }
      }
    }

    /** The auto-select timer fires: the stale closure appends the remaining
        area to the ranking it remembered. */
    method FireAuto()
      requires Valid() && pendingAuto.Some?
      modifies this`priorities, this`pendingAuto, this`pendingResets
      ensures Valid()
      ensures priorities == old(pendingAuto).value.base + [old(pendingAuto).value.area]
      ensures pendingAuto.None? && pendingResets == old(pendingResets) + 1
      ensures forall a :: a in AreaIds ==> a in priorities
    {
      var step := pendingAuto.value;
      assert step.area !in step.base by {
        assert (step.base + [step.area])[2] == step.area;
        assert (step.base + [step.area])[..2] == step.base;
        assert NoDuplicates(step.base + [step.area]);
      }
      priorities := Select(step.base, step.area);
      pendingAuto := None;
      if |priorities| == 3 {
        pendingResets := pendingResets + 1;
      }
      FullRankingIsPermutation(priorities);
    }

    /** A reset timer fires and clears the flag; with three ranked, the
        effect does not schedule anything again. */
    method FireReset()
      requires Valid() && pendingResets > 0
      modifies this`autoSelecting, this`pendingResets
      ensures Valid()
      ensures !autoSelecting && pendingResets == old(pendingResets) - 1
    {
      autoSelecting := false;
      pendingResets := pendingResets - 1;
    }

    /** `handleContinue`: the ranking, a permutation of the three ids, is
        forwarded in rank order with the two incoming parameters as given. */
    method Continue() returns (nav: Nav<InterestsParams>)
      requires Valid() && ContinueEnabled(priorities)
      ensures nav == Push("/onboarding/interests",
        InterestsParams(params.selectedSubjects, params.subjectGrades, Given(priorities)))
      ensures multiset(nav.params.selectedPriorities.value) == multiset(AreaIds)
    {
      FullRankingIsPermutation(priorities);
      nav := Push("/onboarding/interests",
        InterestsParams(params.selectedSubjects, params.subjectGrades, Given(priorities)));
    }
  }

  /** Ranking exam and then mastery by hand leaves assignments to the
      auto-select, which completes the ranking in that order. */
  method ExamThenMastery(params: SkillLevel.FocusAreaParams) returns (ranking: seq<string>)
    ensures ranking == ["exam", "mastery", "assignments"]
  {
    var screen := new Screen(params);
    screen.Tap("exam");
    screen.Tap("mastery");
    assert screen.priorities == ["exam", "mastery"];
    screen.FireAuto();
    ranking := screen.priorities;
  }
}

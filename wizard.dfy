/** Values shared by every screen of the onboarding wizard: optional values,
    decoded route parameters, subject records, navigation actions and the small
    sequence and map operations the screens build their state from. */
module Wizard {

  datatype Option<T> = None | Some(value: T)

  /** A route parameter that carries JSON text, after decoding.
      Missing: the parameter is absent or the empty string (every screen tests
      the raw string for truthiness, so the two behave alike).
      Malformed: the text is present but JSON.parse throws.
      Given(v): the text parses to v. Forwarding the raw string unchanged to
      the next screen is forwarding the Param unchanged. */
  datatype Param<T> = Missing | Malformed | Given(value: T)

  /** JavaScript's `text || 'default'` applied to a JSON parameter: an absent
      or empty parameter is replaced by the default text, anything else is kept. */
  function OrDefault<T>(p: Param<T>, default: T): (r: Param<T>)
    ensures r != Missing
    ensures p == Missing ==> r == Given(default)
    ensures p != Missing ==> r == p
  {
    if p.Missing? then Given(default) else p
  }

  /** JavaScript's `s || fallback` on a plain string parameter. */
  function StringOr(s: Option<string>, fallback: string): (r: string)
    ensures s.Some? && s.value != "" ==> r == s.value
    ensures s.None? || s.value == "" ==> r == fallback
  {
    if s.Some? && s.value != "" then s.value else fallback
  }

  /** A subject of a grade's catalog, as the screens pass it along. */
  datatype Subject = Subject(id: string, name: string, icon: string, color: string)

  /** Topics chosen per subject id (interests or struggles). */
  type TopicMap = map<string, seq<string>>

  /** What a handler asks the router to do. Stay: no navigation. Back: pop
      the current screen. Push: open a screen with parameters. Replace:
      replace the whole route. */
  datatype Nav<P> = Stay | Back | Push(screen: string, params: P) | Replace(route: string)

  /** The ids of a list of subjects, in order. */
  function Ids(subjects: seq<Subject>): (r: seq<string>)
    ensures |r| == |subjects|
    ensures forall i :: 0 <= i < |subjects| ==> r[i] == subjects[i].id
  {
    if subjects == [] then [] else [subjects[0].id] + Ids(subjects[1..])
  }

  /** `s.indexOf(x)`: the first position holding x, if any. */
  function IndexOf<T(==)>(s: seq<T>, x: T): (r: Option<nat>)
    ensures r.Some? ==> r.value < |s| && s[r.value] == x
    ensures r.Some? ==> forall j :: 0 <= j < r.value ==> s[j] != x
    ensures r.None? <==> x !in s
  {
    if s == [] then None
    else if s[0] == x then Some(0)
    else match IndexOf(s[1..], x)
      case None => None
      case Some(k) => Some(k + 1)
  }

  predicate NoDuplicates<T(==)>(s: seq<T>) {
    forall i, j :: 0 <= i < j < |s| ==> s[i] != s[j]
  }

  /** In a list without repeats, an element is found at its own position. */
  lemma IndexOfDistinct<T>(s: seq<T>, k: nat)
    requires k < |s| && NoDuplicates(s)
    ensures IndexOf(s, s[k]) == Some(k)
  {
  }

  /** `s.filter(y => y !== x)`. */
  function Without<T(==,!new)>(s: seq<T>, x: T): (r: seq<T>)
    ensures x !in r
    ensures forall y :: y != x ==> (y in r <==> y in s)
    ensures |r| <= |s|
    ensures x in s ==> |r| < |s|
  {
    if s == [] then []
    else if s[0] == x then Without(s[1..], x)
    else [s[0]] + Without(s[1..], x)
  }

  /** Filtering out an element that was just appended to a list not holding
      it gives the list back. */
  lemma {:induction false} WithoutAppended<T(!new)>(s: seq<T>, x: T)
    requires x !in s
    ensures Without(s + [x], x) == s
  {
    if s == [] {
      assert [] + [x] == [x];
    } else {
      assert (s + [x])[1..] == s[1..] + [x];
      WithoutAppended(s[1..], x);
      assert [s[0]] + s[1..] == s;
    }
  }

  /** Removing an element that does not occur changes nothing. */
  lemma {:induction false} WithoutAbsent<T(!new)>(s: seq<T>, x: T)
    requires x !in s
    ensures Without(s, x) == s
  {
    if s != [] {
      WithoutAbsent(s[1..], x);
    }
  }

  /** Removing an element that occurs exactly once, at position k, closes the
      gap and keeps the order of the others. */
  lemma {:induction false} WithoutAt<T(!new)>(s: seq<T>, k: nat)
    requires k < |s| && NoDuplicates(s)
    ensures Without(s, s[k]) == s[..k] + s[k+1..]
  {
    if k == 0 {
      assert s[0] !in s[1..] by {
        forall j | 0 <= j < |s[1..]| ensures s[1..][j] != s[0] {
          assert s[1..][j] == s[j + 1];
        }
      }
      WithoutAbsent(s[1..], s[0]);
    } else {
      assert s[k] != s[0];
      assert s[1..][k - 1] == s[k];
      WithoutAt(s[1..], k - 1);
      assert s[1..][..k - 1] == s[1..k];
      assert s[1..][k..] == s[k + 1..];
      assert [s[0]] + s[1..k] == s[..k];
    }
  }

  /** Filtering keeps a list duplicate-free. */
  lemma {:induction false} WithoutNoDuplicates<T(!new)>(s: seq<T>, x: T)
    requires NoDuplicates(s)
    ensures NoDuplicates(Without(s, x))
  {
    if s != [] {
      assert NoDuplicates(s[1..]) by {
        forall i, j | 0 <= i < j < |s[1..]| ensures s[1..][i] != s[1..][j] {
          assert s[1..][i] == s[i + 1] && s[1..][j] == s[j + 1];
        }
      }
      WithoutNoDuplicates(s[1..], x);
      if s[0] != x {
        assert s[0] !in s[1..] by {
          forall j | 0 <= j < |s[1..]| ensures s[1..][j] != s[0] {
            assert s[1..][j] == s[j + 1];
          }
        }
        var t := Without(s[1..], x);
        assert s[0] !in t;
        var r := [s[0]] + t;
        forall i, j | 0 <= i < j < |r| ensures r[i] != r[j] {
          if i == 0 {
            assert r[j] == t[j - 1];
            assert t[j - 1] in t;
          } else {
            assert r[i] == t[i - 1] && r[j] == t[j - 1];
          }
        }
      }
    }
  }

  /** Appending an element that is absent keeps a list duplicate-free. */
  lemma AppendNoDuplicates<T>(s: seq<T>, x: T)
    requires NoDuplicates(s) && x !in s
    ensures NoDuplicates(s + [x])
  {
    var r := s + [x];
    forall i, j | 0 <= i < j < |r| ensures r[i] != r[j] {
      if j == |s| {
        assert r[i] == s[i];
      } else {
        assert r[i] == s[i] && r[j] == s[j];
      }
    }
  }

  /** `Object.values(m).flat().length`: the number of topics over every key. */
  ghost function TotalTopics(m: TopicMap): nat
    decreases |m|
  {
    if m == map[] then 0
    else
      var k :| k in m;
      |m[k]| + TotalTopics(m - {k})
  }

  /** The total does not depend on which key is taken first: it is the length
      of any one entry plus the total of the others. */
  lemma {:induction false} TotalTopicsSplit(m: TopicMap, k: string)
    requires k in m
    ensures TotalTopics(m) == |m[k]| + TotalTopics(m - {k})
    decreases |m|
  {
    var j :| j in m && TotalTopics(m) == |m[j]| + TotalTopics(m - {j});
    if j != k {
      var mj := m - {j};
      var mk := m - {k};
      assert k in mj && j in mk;
      assert |mj| < |m| by { assert mj.Keys < m.Keys; }
      assert |mk| < |m| by { assert mk.Keys < m.Keys; }
      TotalTopicsSplit(mj, k);
      TotalTopicsSplit(mk, j);
      assert mj - {k} == mk - {j};
    }
  }

  /** Replacing the entry of one key changes the total by the difference of
      the two lengths; every other key is counted as before. */
  lemma TotalTopicsUpdate(m: TopicMap, k: string, v: seq<string>)
    ensures k in m ==> TotalTopics(m[k := v]) + |m[k]| == TotalTopics(m) + |v|
    ensures k !in m ==> TotalTopics(m[k := v]) == TotalTopics(m) + |v|
  {
    var u := m[k := v];
    TotalTopicsSplit(u, k);
    assert u - {k} == m - {k};
    if k in m {
      TotalTopicsSplit(m, k);
    } else {
      assert m - {k} == m;
    }
  }

  /** Every entry is counted: the total is at least the length of any one entry. */
  lemma TotalTopicsCountsEveryKey(m: TopicMap, k: string)
    requires k in m
    ensures TotalTopics(m) >= |m[k]|
  {
    TotalTopicsSplit(m, k);
  }

  /** With at most `cap` topics per key, the total is at most cap times the number of keys. */
  lemma {:induction false} TotalTopicsBound(m: TopicMap, cap: nat)
    requires forall k :: k in m ==> |m[k]| <= cap
    ensures TotalTopics(m) <= cap * |m|
    decreases |m|
  {
    if m != map[] {
      var k :| k in m;
      TotalTopicsSplit(m, k);
      var rest := m - {k};
      assert |rest| == |m| - 1 by { assert rest.Keys == m.Keys - {k}; }
      TotalTopicsBound(rest, cap);
      MulSucc(cap, |rest|);
    }
  }

  lemma MulSucc(a: nat, b: nat)
    ensures a * (b + 1) == a * b + a
  {
  }

  /** `Object.values(m).flat().length`, computed one entry at a time. */
  method CountTopics(m: TopicMap) returns (n: nat)
    ensures n == TotalTopics(m)
  {
    var rest := m;
    n := 0;
    while rest != map[]
      invariant n + TotalTopics(rest) == TotalTopics(m)
      decreases |rest|
    {
      var k :| k in rest;
      TotalTopicsSplit(rest, k);
      n := n + |rest[k]|;
      assert |rest - {k}| < |rest| by { assert (rest - {k}).Keys < rest.Keys; }
      rest := rest - {k};
    }
  }
}

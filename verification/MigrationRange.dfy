/**
 Which migration guides apply between two versions, and in which order. Versions that cannot be
 parsed compare below all others, as in golang.org/x/mod/semver.
 */
module MigrationRange {
  import opened SemVer

  /** A version string: empty, not a version, or a version. */
  datatype Tag = Blank | Malformed(text: string) | Release(v: Version)

  datatype Entry = Entry(version: Tag, title: string)

  const V0_0_0 := Release(Version(0, 0, 0, [], ""))

  function CompareTag(a: Tag, b: Tag): Sign {
    if !a.Release? && !b.Release? then 0
    else if !a.Release? then -1
    else if !b.Release? then 1
    else Compare(a.v, b.v)
  }

  lemma {:induction false} TagFlips(a: Tag, b: Tag)
    ensures CompareTag(b, a) == -CompareTag(a, b)
  {
    if a.Release? && b.Release? { CompareFlips(a.v, b.v); }
  }

  lemma {:induction false} TagChains(a: Tag, b: Tag, c: Tag)
    ensures Chains(CompareTag(a, b), CompareTag(b, c), CompareTag(a, c))
  {
    if a.Release? && b.Release? && c.Release? { CompareChains(a.v, b.v, c.v); }
  }

  /** Tags of equal precedence compare alike with everything. */
  lemma {:induction false} TagCongruence(a: Tag, b: Tag, c: Tag)
    requires CompareTag(a, b) == 0
    ensures CompareTag(a, c) == CompareTag(b, c)
  {
    TagFlips(a, b);
    TagFlips(a, c);
    TagFlips(b, c);
    TagChains(a, b, c);
    TagChains(b, a, c);
    TagChains(c, b, a);
    TagChains(c, a, b);
  }

  // ---------------------------------------------------------------- specification

  predicate InRange(e: Entry, lower: Tag, upper: Tag) {
    e.version.Release? && CompareTag(e.version, lower) > 0 && CompareTag(e.version, upper) <= 0
  }

  function KeptOf(e: Entry, lower: Tag, upper: Tag): seq<Entry> {
    if InRange(e, lower, upper) then [e] else []
  }

  /** The entries in the half-open range, in their original order. */
  function Selected(all: seq<Entry>, lower: Tag, upper: Tag): seq<Entry> {
    if all == [] then []
    else Selected(all[..|all| - 1], lower, upper) + KeptOf(all[|all| - 1], lower, upper)
  }

  /** The entries whose precedence equals that of `v`, in order. */
  function Class(s: seq<Entry>, v: Tag): seq<Entry> {
    if s == [] then []
    else Class(s[..|s| - 1], v) + if CompareTag(s[|s| - 1].version, v) == 0 then [s[|s| - 1]] else []
  }

  ghost predicate Ascending(s: seq<Entry>) {
    forall i, j :: 0 <= i < j < |s| ==> CompareTag(s[i].version, s[j].version) <= 0
  }

  ghost predicate SameClasses(s: seq<Entry>, t: seq<Entry>) {
    forall v :: Class(s, v) == Class(t, v)
  }

  /** Ascending, and entries of equal precedence keep their order: nothing is lost or added. */
  ghost predicate StableOrder(s: seq<Entry>, original: seq<Entry>) {
    Ascending(s) && SameClasses(s, original)
  }

  // ---------------------------------------------------------------- classes

  lemma {:induction false} ClassConcat(s: seq<Entry>, t: seq<Entry>, v: Tag)
    ensures Class(s + t, v) == Class(s, v) + Class(t, v)
    decreases |t|
  {
    if t == [] {
      assert s + t == s;
    } else {
      assert (s + t)[..|s + t| - 1] == s + t[..|t| - 1];
      ClassConcat(s, t[..|t| - 1], v);
    }
  }

  lemma {:induction false} ClassOfOne(e: Entry, v: Tag)
    ensures Class([e], v) == if CompareTag(e.version, v) == 0 then [e] else []
  {
    assert [e][..0] == [];
  }

  lemma {:induction false} PairInEitherOrder(x: Entry, y: Entry, v: Tag)
    requires CompareTag(x.version, y.version) != 0
    ensures Class([x] + [y], v) == Class([y] + [x], v)
  {
    ClassConcat([x], [y], v);
    ClassConcat([y], [x], v);
    ClassOfOne(x, v);
    ClassOfOne(y, v);
    if CompareTag(x.version, v) == 0 && CompareTag(y.version, v) == 0 {
      TagCongruence(x.version, v, y.version);
      TagFlips(y.version, v);
    }
  }

  lemma {:induction false} ClassOfMiddle(a: seq<Entry>, m: seq<Entry>, n: seq<Entry>, b: seq<Entry>, v: Tag)
    requires Class(m, v) == Class(n, v)
    ensures Class(a + m + b, v) == Class(a + n + b, v)
  {
    ClassConcat(a + m, b, v);
    ClassConcat(a, m, v);
    ClassConcat(a + n, b, v);
    ClassConcat(a, n, v);
  }

  /** Two entries of different precedence may change places without any class noticing. */
  lemma {:induction false} SwapKeepsClass(s: seq<Entry>, j: nat, v: Tag)
    requires 0 < j < |s| && CompareTag(s[j - 1].version, s[j].version) > 0
    ensures Class(s[j - 1 := s[j]][j := s[j - 1]], v) == Class(s, v)
  {
    var a, x, y, b := s[..j - 1], s[j - 1], s[j], s[j + 1..];
    assert s == a + ([x] + [y]) + b;
    assert s[j - 1 := y][j := x] == a + ([y] + [x]) + b;
    PairInEitherOrder(x, y, v);
    ClassOfMiddle(a, [x] + [y], [y] + [x], b, v);
  }

  // ---------------------------------------------------------------- the code

  /** The loop that finds the upper bound when none was given. */
  method NewestVersion(all: seq<Entry>) returns (newest: Tag)
    ensures newest.Blank? ==> forall i :: 0 <= i < |all| ==> all[i].version.Blank?
    ensures !newest.Blank? ==> exists i :: 0 <= i < |all| && all[i].version == newest
    ensures forall i :: 0 <= i < |all| ==> CompareTag(all[i].version, newest) <= 0
  {
    newest := Blank;
    var k := 0;
    while k < |all|
      invariant 0 <= k <= |all|
      invariant newest.Blank? ==> forall i :: 0 <= i < k ==> all[i].version.Blank?
      invariant !newest.Blank? ==> exists i :: 0 <= i < k && all[i].version == newest
      invariant forall i :: 0 <= i < k ==> CompareTag(all[i].version, newest) <= 0
    {
      var v := all[k].version;
      if newest.Blank? || CompareTag(v, newest) > 0 {
        TagFlips(v, newest);
        forall i | 0 <= i < k
          ensures CompareTag(all[i].version, v) <= 0
        {
          TagChains(all[i].version, newest, v);
        }
        if v.Release? { CompareFlips(v.v, v.v); }
        newest := v;
      }
      k := k + 1;
    }
  }

  /** The insertion sort, swapping neighbours in place while the left one is greater. */
  method InsertionSort(picked: seq<Entry>) returns (s: seq<Entry>)
    ensures |s| == |picked| && StableOrder(s, picked)
  {
    s := picked;
    var i := 1;
    while i < |s|
      invariant 1 <= i && (i <= |s| || |s| == 0)
      invariant |s| == |picked| && SameClasses(s, picked)
      invariant |s| > 0 ==> Ascending(s[..i])
    {
      var j := i;
      while j > 0 && CompareTag(s[j - 1].version, s[j].version) > 0
        invariant 0 <= j <= i < |s| && |s| == |picked|
        invariant SameClasses(s, picked)
        invariant AscendingBut(s, i, j)
        decreases j
      {
        forall v
          ensures Class(s[j - 1 := s[j]][j := s[j - 1]], v) == Class(picked, v)
        {
          SwapKeepsClass(s, j, v);
          assert Class(s, v) == Class(picked, v);
        }
        SwapKeepsAscendingBut(s, i, j);
        s := s[j - 1 := s[j]][j := s[j - 1]];
        j := j - 1;
      }
      AscendingAgain(s, i, j);
      i := i + 1;
    }
    if |s| > 0 { assert s[..i] == s; }
  }

  /** The prefix up to i is ascending except for the entry still on its way down at j. */
  ghost predicate AscendingBut(s: seq<Entry>, i: nat, j: nat) {
    && j <= i < |s|
    && forall p, q :: 0 <= p < q <= i && q != j ==> CompareTag(s[p].version, s[q].version) <= 0
  }

  lemma {:induction false} SwapKeepsAscendingBut(s: seq<Entry>, i: nat, j: nat)
    requires AscendingBut(s, i, j) && j > 0 && CompareTag(s[j - 1].version, s[j].version) > 0
    ensures AscendingBut(s[j - 1 := s[j]][j := s[j - 1]], i, j - 1)
  {
    TagFlips(s[j - 1].version, s[j].version);
    var t := s[j - 1 := s[j]][j := s[j - 1]];
    forall p, q | 0 <= p < q <= i && q != j - 1
      ensures CompareTag(t[p].version, t[q].version) <= 0
    {
    }
  }

  lemma {:induction false} AscendingAgain(s: seq<Entry>, i: nat, j: nat)
    requires AscendingBut(s, i, j) && (j > 0 ==> CompareTag(s[j - 1].version, s[j].version) <= 0)
    ensures Ascending(s[..i + 1])
  {
    forall p, q | 0 <= p < q < i + 1
      ensures CompareTag(s[p].version, s[q].version) <= 0
    {
      if q == j && p < j - 1 { TagChains(s[p].version, s[j - 1].version, s[j].version); }
    }
  }

  function Lower(from: Tag): Tag {
    if from.Blank? then V0_0_0 else from
  }

  /** The entries above a version, in their original order. */
  function Above(all: seq<Entry>, lower: Tag): seq<Entry> {
    if all == [] then []
    else
      var e := all[|all| - 1];
      Above(all[..|all| - 1], lower) + if e.version.Release? && CompareTag(e.version, lower) > 0 then [e] else []
  }

  /** What a caller asks for: up to the bound given, or without one everything above. */
  function Wanted(all: seq<Entry>, lower: Tag, to: Tag): seq<Entry> {
    if to.Blank? then Above(all, lower) else Selected(all, lower, to)
  }

  /** A bound that no entry exceeds bounds nothing. */
  lemma {:induction false} HighBoundSelectsAll(all: seq<Entry>, lower: Tag, upper: Tag)
    requires forall i :: 0 <= i < |all| ==> CompareTag(all[i].version, upper) <= 0
    ensures Selected(all, lower, upper) == Above(all, lower)
    ensures !upper.Release? ==> Above(all, lower) == []
    decreases |all|
  {
    if all != [] { HighBoundSelectsAll(all[..|all| - 1], lower, upper); }
  }

  method FilterAndOrderBetween(all: seq<Entry>, from: Tag, to: Tag) returns (picked: seq<Entry>)
    ensures Lower(from).Release? && !to.Malformed? ==> StableOrder(picked, Wanted(all, Lower(from), to))
    ensures !Lower(from).Release? || to.Malformed? ==> picked == []
  {
    var lower, bound := Lower(from), to;
    if to.Blank? {
      bound := NewestVersion(all);
      HighBoundSelectsAll(all, lower, bound);
    }
    if !lower.Release? || !bound.Release? {
      return [];
    }
    picked := [];
    var k := 0;
    while k < |all|
      invariant 0 <= k <= |all| && picked == Selected(all[..k], lower, bound)
    {
      var e := all[k];
      assert all[..k + 1][..k] == all[..k];
      if e.version.Release? && CompareTag(e.version, lower) > 0 && CompareTag(e.version, bound) <= 0 {
        picked := picked + [e];
      }
      k := k + 1;
    }
    assert all[..k] == all;
    picked := InsertionSort(picked);
  }

  // ---------------------------------------------------------------- what the order is

  function Count(s: seq<Entry>, e: Entry): nat {
    if s == [] then 0 else Count(s[..|s| - 1], e) + if s[|s| - 1] == e then 1 else 0
  }

  lemma {:induction false} CountNext(s: seq<Entry>, x: Entry, e: Entry)
    ensures Count(s + [x], e) == Count(s, e) + if x == e then 1 else 0
  {
    assert (s + [x])[..|s|] == s;
  }

  lemma {:induction false} CountInClass(s: seq<Entry>, e: Entry)
    ensures Count(Class(s, e.version), e) == Count(s, e)
    decreases |s|
  {
    if s != [] {
      var init, last := s[..|s| - 1], s[|s| - 1];
      CountInClass(init, e);
      SelfCompare(e.version);
      CountNext(Class(init, e.version), last, e);
      assert Class(init, e.version) + [] == Class(init, e.version);
    }
  }

  lemma {:induction false} SelfCompare(v: Tag)
    ensures CompareTag(v, v) == 0
  {
    TagFlips(v, v);
  }

  /** The result is a permutation: every entry occurs as often as among the selected ones. */
  lemma {:induction false} StableOrderIsPermutation(s: seq<Entry>, original: seq<Entry>, e: Entry)
    requires StableOrder(s, original)
    ensures Count(s, e) == Count(original, e)
  {
    CountInClass(s, e);
    CountInClass(original, e);
    assert Class(s, e.version) == Class(original, e.version);
  }

  lemma {:induction false} ClassMembers(s: seq<Entry>, v: Tag)
    ensures forall k :: 0 <= k < |Class(s, v)| ==> CompareTag(Class(s, v)[k].version, v) == 0 && Class(s, v)[k] in s
    decreases |s|
  {
    if s != [] {
      ClassMembers(s[..|s| - 1], v);
      assert s == s[..|s| - 1] + [s[|s| - 1]];
    }
  }

  /** The last entry of an ascending list ends its own class and is not below any entry. */
  lemma {:induction false} LastIsGreatest(s: seq<Entry>, t: seq<Entry>)
    requires s != [] && Ascending(s) && SameClasses(s, t)
    ensures t != [] && forall i :: 0 <= i < |t| ==> CompareTag(t[i].version, s[|s| - 1].version) <= 0
    ensures Class(s, s[|s| - 1].version) != [] && Class(s, s[|s| - 1].version)[|Class(s, s[|s| - 1].version)| - 1] == s[|s| - 1]
  {
    var last := s[|s| - 1];
    SelfCompare(last.version);
    assert Class(s, last.version) == Class(t, last.version);
    forall i | 0 <= i < |t|
      ensures CompareTag(t[i].version, last.version) <= 0
    {
      var v := t[i].version;
      InItsClass(t, i);
      assert Class(s, v) == Class(t, v);
      ClassMembers(s, v);
      var x := Class(s, v)[0];
      var k :| 0 <= k < |s| && s[k] == x;
      TagFlips(x.version, v);
      TagCongruence(x.version, v, last.version);
      if k == |s| - 1 { SelfCompare(last.version); }
    }
  }

  lemma {:induction false} InItsClass(t: seq<Entry>, i: nat)
    requires i < |t|
    ensures Class(t, t[i].version) != []
    decreases |t|
  {
    SelfCompare(t[i].version);
    if i < |t| - 1 {
      assert t[..|t| - 1][i] == t[i];
      InItsClass(t[..|t| - 1], i);
    }
  }

  lemma {:induction false} DropLastKeepsClasses(s: seq<Entry>, t: seq<Entry>)
    requires s != [] && t != [] && s[|s| - 1] == t[|t| - 1] && SameClasses(s, t)
    ensures SameClasses(s[..|s| - 1], t[..|t| - 1])
  {
    var s0, t0, e := s[..|s| - 1], t[..|t| - 1], s[|s| - 1];
    forall v
      ensures Class(s0, v) == Class(t0, v)
    {
      assert Class(s, v) == Class(t, v);
      var a, b := Class(s0, v), Class(t0, v);
      if CompareTag(e.version, v) == 0 {
        assert a == (a + [e])[..|a|] && b == (b + [e])[..|b|];
      } else {
        assert a + [] == a && b + [] == b;
      }
    }
  }

  /** A stable ascending order is unique, so the contract determines the result completely. */
  lemma {:induction false} StableOrderIsUnique(s: seq<Entry>, t: seq<Entry>)
    requires Ascending(s) && Ascending(t) && SameClasses(s, t)
    ensures s == t
    decreases |s|
  {
    if s == [] {
      if t != [] {
        assert SameClasses(t, s);
        LastIsGreatest(t, s);
      }
    } else {
      LastIsGreatest(s, t);
      assert SameClasses(t, s);
      LastIsGreatest(t, s);
      var a, b := s[|s| - 1], t[|t| - 1];
      TagFlips(a.version, b.version);
      assert CompareTag(a.version, b.version) == 0;
      SameVersionSameClass(s, a.version, b.version);
      assert Class(s, b.version) == Class(t, b.version);
      assert a == b;
      DropLastKeepsClasses(s, t);
      StableOrderIsUnique(s[..|s| - 1], t[..|t| - 1]);
      assert s == s[..|s| - 1] + [a] && t == t[..|t| - 1] + [b];
    }
  }

  lemma {:induction false} SameVersionSameClass(s: seq<Entry>, v: Tag, w: Tag)
    requires CompareTag(v, w) == 0
    ensures Class(s, v) == Class(s, w)
    decreases |s|
  {
    if s != [] {
      SameVersionSameClass(s[..|s| - 1], v, w);
      TagCongruence(v, w, s[|s| - 1].version);
      TagFlips(v, s[|s| - 1].version);
      TagFlips(w, s[|s| - 1].version);
    }
  }

  // ---------------------------------------------------------------- what is picked

  /** Asked for between two version strings: above the first, or above 0.0.0, and up to the second if there is one. */
  ghost predicate AskedFor(e: Entry, from: Tag, to: Tag) {
    && e.version.Release?
    && (if from.Blank? then Precedes(Version(0, 0, 0, [], ""), e.version.v) else from.Release? && Precedes(from.v, e.version.v))
    && (to.Release? ==> !Precedes(to.v, e.version.v))
  }

  lemma {:induction false} AskedForIs(e: Entry, from: Tag, to: Tag)
    requires Lower(from).Release? && !to.Malformed?
    ensures AskedFor(e, from, to) <==>
              e.version.Release? && CompareTag(e.version, Lower(from)) > 0 && (to.Blank? || CompareTag(e.version, to) <= 0)
  {
    if e.version.Release? {
      CompareExactly(e.version.v, Lower(from).v);
      if to.Release? { CompareExactly(e.version.v, to.v); }
    }
  }

  lemma {:induction false} WantedNext(init: seq<Entry>, x: Entry, lower: Tag, to: Tag)
    ensures Wanted(init + [x], lower, to)
         == Wanted(init, lower, to)
            + if x.version.Release? && CompareTag(x.version, lower) > 0 && (to.Blank? || CompareTag(x.version, to) <= 0) then [x] else []
  {
    assert (init + [x])[..|init|] == init;
  }

  lemma {:induction false} OneMoreCounts(w: seq<Entry>, init: seq<Entry>, x: Entry, e: Entry, taken: bool, wanted: bool, w': seq<Entry>)
    requires w' == w + (if taken then [x] else []) && Count(w, e) == (if wanted then Count(init, e) else 0)
    requires x == e ==> taken == wanted
    ensures Count(w', e) == if wanted then Count(init + [x], e) else 0
  {
    CountNext(w, x, e);
    CountNext(init, x, e);
    assert w + [] == w;
  }

  lemma {:induction false} WantedCounts(all: seq<Entry>, from: Tag, to: Tag, e: Entry)
    requires Lower(from).Release? && !to.Malformed?
    ensures Count(Wanted(all, Lower(from), to), e) == if AskedFor(e, from, to) then Count(all, e) else 0
    decreases |all|
  {
    if |all| > 0 {
      var init, x := all[..|all| - 1], all[|all| - 1];
      assert all == init + [x];
      WantedCounts(init, from, to, e);
      AskedForIs(x, from, to);
      WantedNext(init, x, Lower(from), to);
      OneMoreCounts(Wanted(init, Lower(from), to), init, x, e, AskedFor(x, from, to), AskedFor(e, from, to), Wanted(all, Lower(from), to));
    }
  }

  /** What is picked is every entry asked for, as often as it is listed, and nothing else. */
  lemma {:induction false} PickedExactly(all: seq<Entry>, from: Tag, to: Tag, picked: seq<Entry>, e: Entry)
    requires Lower(from).Release? && !to.Malformed? && StableOrder(picked, Wanted(all, Lower(from), to))
    ensures Count(picked, e) == if AskedFor(e, from, to) then Count(all, e) else 0
  {
    StableOrderIsPermutation(picked, Wanted(all, Lower(from), to), e);
    WantedCounts(all, from, to, e);
  }

  /** And it is in ascending precedence. */
  lemma {:induction false} PickedAscends(picked: seq<Entry>, original: seq<Entry>, i: nat, j: nat)
    requires StableOrder(picked, original) && i < j < |picked| && picked[i].version.Release? && picked[j].version.Release?
    ensures !Precedes(picked[j].version.v, picked[i].version.v)
  {
    CompareExactly(picked[i].version.v, picked[j].version.v);
  }

  // ---------------------------------------------------------------- the split law

  /** What one more entry adds to the class of `v` within a range. */
  function Added(e: Entry, lower: Tag, upper: Tag, v: Tag): seq<Entry> {
    if InRange(e, lower, upper) && CompareTag(e.version, v) == 0 then [e] else []
  }

  lemma {:induction false} AddedSplits(e: Entry, lower: Tag, mid: Tag, upper: Tag, v: Tag, a: seq<Entry>, b: seq<Entry>)
    requires CompareTag(lower, mid) <= 0 && CompareTag(mid, upper) <= 0
    requires CompareTag(v, mid) <= 0 ==> b == []
    requires CompareTag(v, mid) > 0 ==> a == []
    ensures a + b + Added(e, lower, upper, v) == (a + Added(e, lower, mid, v)) + (b + Added(e, mid, upper, v))
    ensures CompareTag(v, mid) <= 0 ==> Added(e, mid, upper, v) == []
    ensures CompareTag(v, mid) > 0 ==> Added(e, lower, mid, v) == []
  {
    RangeSplits(e, lower, mid, upper);
    if CompareTag(e.version, v) == 0 { TagCongruence(e.version, v, mid); }
  }

  lemma {:induction false} SelectedNext(all: seq<Entry>, lower: Tag, upper: Tag, v: Tag)
    requires all != []
    ensures Class(Selected(all, lower, upper), v)
         == Class(Selected(all[..|all| - 1], lower, upper), v) + Added(all[|all| - 1], lower, upper, v)
  {
    ClassConcat(Selected(all[..|all| - 1], lower, upper), KeptOf(all[|all| - 1], lower, upper), v);
    ClassOfOne(all[|all| - 1], v);
  }

  lemma {:induction false} ClassOfSelected(all: seq<Entry>, lower: Tag, mid: Tag, upper: Tag, v: Tag)
    requires CompareTag(lower, mid) <= 0 && CompareTag(mid, upper) <= 0
    ensures Class(Selected(all, lower, upper), v) == Class(Selected(all, lower, mid), v) + Class(Selected(all, mid, upper), v)
    ensures CompareTag(v, mid) <= 0 ==> Class(Selected(all, mid, upper), v) == []
    ensures CompareTag(v, mid) > 0 ==> Class(Selected(all, lower, mid), v) == []
    decreases |all|
  {
    if all != [] {
      var init := all[..|all| - 1];
      ClassOfSelected(init, lower, mid, upper, v);
      SelectedNext(all, lower, upper, v);
      SelectedNext(all, lower, mid, v);
      SelectedNext(all, mid, upper, v);
      AddedSplits(all[|all| - 1], lower, mid, upper, v, Class(Selected(init, lower, mid), v), Class(Selected(init, mid, upper), v));
    }
  }

  lemma {:induction false} RangeSplits(e: Entry, lower: Tag, mid: Tag, upper: Tag)
    requires CompareTag(lower, mid) <= 0 && CompareTag(mid, upper) <= 0
    ensures InRange(e, lower, upper) <==> InRange(e, lower, mid) || InRange(e, mid, upper)
    ensures !(InRange(e, lower, mid) && InRange(e, mid, upper))
  {
    TagChains(e.version, mid, upper);
    TagFlips(e.version, mid);
    TagFlips(e.version, lower);
    TagChains(lower, mid, e.version);
    TagChains(mid, e.version, lower);
    TagFlips(mid, lower);
    TagChains(e.version, lower, mid);
  }

  lemma {:induction false} SelectedInRange(all: seq<Entry>, lower: Tag, upper: Tag)
    ensures forall e :: e in Selected(all, lower, upper) ==> InRange(e, lower, upper)
    decreases |all|
  {
    if all != [] { SelectedInRange(all[..|all| - 1], lower, upper); }
  }

  lemma {:induction false} OrderedInRange(s: seq<Entry>, all: seq<Entry>, lower: Tag, upper: Tag)
    requires StableOrder(s, Selected(all, lower, upper))
    ensures forall i :: 0 <= i < |s| ==> InRange(s[i], lower, upper)
  {
    forall i | 0 <= i < |s|
      ensures InRange(s[i], lower, upper)
    {
      InItsClass(s, i);
      ItsClassHoldsIt(s, i);
      var v := s[i].version;
      assert Class(s, v) == Class(Selected(all, lower, upper), v);
      ClassMembers(Selected(all, lower, upper), v);
      SelectedInRange(all, lower, upper);
    }
  }

  lemma {:induction false} ItsClassHoldsIt(s: seq<Entry>, i: nat)
    requires i < |s|
    ensures s[i] in Class(s, s[i].version)
    decreases |s|
  {
    SelfCompare(s[i].version);
    if i < |s| - 1 {
      assert s[..|s| - 1][i] == s[i];
      ItsClassHoldsIt(s[..|s| - 1], i);
    }
  }

  /** Splitting a range at a version between its ends splits the guides: first part, then second. */
  lemma {:induction false} SplitLaw(all: seq<Entry>, lower: Tag, mid: Tag, upper: Tag, a: seq<Entry>, b: seq<Entry>, c: seq<Entry>)
    requires CompareTag(lower, mid) <= 0 && CompareTag(mid, upper) <= 0
    requires StableOrder(a, Selected(all, lower, mid)) && StableOrder(b, Selected(all, mid, upper))
    requires StableOrder(c, Selected(all, lower, upper))
    ensures c == a + b
  {
    OrderedInRange(a, all, lower, mid);
    OrderedInRange(b, all, mid, upper);
    forall i, j | 0 <= i < j < |a + b|
      ensures CompareTag((a + b)[i].version, (a + b)[j].version) <= 0
    {
      if i < |a| <= j {
        TagFlips(b[j - |a|].version, mid);
        TagChains(a[i].version, mid, b[j - |a|].version);
      }
    }
    forall v
      ensures Class(c, v) == Class(a + b, v)
    {
      ClassConcat(a, b, v);
      ClassOfSelected(all, lower, mid, upper, v);
      assert Class(a, v) == Class(Selected(all, lower, mid), v);
      assert Class(b, v) == Class(Selected(all, mid, upper), v);
      assert Class(c, v) == Class(Selected(all, lower, upper), v);
    }
    StableOrderIsUnique(c, a + b);
  }

  function Highest(all: seq<Entry>, v: Tag): Tag {
    if all == [] then v
    else
      var h := Highest(all[..|all| - 1], v);
      if CompareTag(all[|all| - 1].version, h) > 0 then all[|all| - 1].version else h
  }

  lemma {:induction false} HighestBounds(all: seq<Entry>, v: Tag)
    ensures CompareTag(v, Highest(all, v)) <= 0
    ensures forall i :: 0 <= i < |all| ==> CompareTag(all[i].version, Highest(all, v)) <= 0
    decreases |all|
  {
    var h := Highest(all, v);
    if all == [] {
      SelfCompare(v);
    } else {
      var init, last := all[..|all| - 1], all[|all| - 1].version;
      var earlier := Highest(init, v);
      HighestBounds(init, v);
      TagFlips(last, earlier);
      SelfCompare(last);
      SelfCompare(earlier);
      TagChains(v, earlier, h);
      forall i | 0 <= i < |all| ensures CompareTag(all[i].version, h) <= 0 {
        if i < |init| {
          assert all[i] == init[i];
          TagChains(all[i].version, earlier, h);
        }
      }
    }
  }

  /** The same without an upper bound: up to a version, then everything above it. */
  lemma {:induction false} OpenSplitLaw(all: seq<Entry>, lower: Tag, mid: Tag, a: seq<Entry>, b: seq<Entry>, c: seq<Entry>)
    requires CompareTag(lower, mid) <= 0
    requires StableOrder(a, Selected(all, lower, mid)) && StableOrder(b, Above(all, mid)) && StableOrder(c, Above(all, lower))
    ensures c == a + b
  {
    var upper := Highest(all, mid);
    HighestBounds(all, mid);
    HighBoundSelectsAll(all, lower, upper);
    HighBoundSelectsAll(all, mid, upper);
    SplitLaw(all, lower, mid, upper, a, b, c);
  }
}

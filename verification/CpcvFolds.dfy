/** What each fold of a split is, from its number alone, and when a split raises. */
module CpcvFolds {
  import opened Common
  import opened Cpcv

  // ----- The order of the choices --------------------------------------------------------------

  /** The first choice is smaller at the first place where the two differ. */
  predicate Before(a: seq<nat>, b: seq<nat>) {
    a != [] && b != [] && (a[0] < b[0] || (a[0] == b[0] && Before(a[1..], b[1..])))
  }

  ghost predicate InOrder(cs: seq<seq<nat>>) {
    forall i, j :: 0 <= i < j < |cs| ==> Before(cs[i], cs[j])
  }

  /** The choices are enumerated in lexicographic order. */
  lemma {:induction false} CombinationsInOrder(lo: nat, hi: nat, k: nat)
    requires lo <= hi
    ensures InOrder(Combinations(lo, hi, k))
    decreases hi - lo
  {
    if k > 0 && lo < hi {
      CombinationsInOrder(lo + 1, hi, k - 1);
      CombinationsInOrder(lo + 1, hi, k);
      var first, rest := Prepend(lo, Combinations(lo + 1, hi, k - 1)), Combinations(lo + 1, hi, k);
      forall i, j | 0 <= i < |first| && 0 <= j < |rest| ensures Before(first[i], rest[j]) {
        assert rest[j] in rest;
        CombinationsAreChoices(lo + 1, hi, k, rest[j]);
      }
    }
  }

  // ----- Test and training indices -------------------------------------------------------------

  /** Where group `g` of near-equal ones begins: the first n % groups have one index more than the others. */
  function Begins(n: nat, groups: nat, g: nat): nat
    requires groups > 0
  {
    g * (n / groups) + Least(g, n % groups)
  }

  predicate InGroup(n: nat, groups: nat, g: nat, x: nat)
    requires groups > 0
  {
    Begins(n, groups, g) <= x < Begins(n, groups, g + 1)
  }

  ghost predicate InSome(n: nat, groups: nat, ids: seq<nat>, x: nat)
    requires groups > 0
  {
    exists g :: g in ids && InGroup(n, groups, g, x)
  }

  lemma {:induction false} GroupMembers(n: nat, groups: nat, g: nat, x: nat)
    requires g < groups
    ensures x in Group(n, groups, g) <==> InGroup(n, groups, g, x)
  {
    CutClosedForm(n, groups, g);
    CutClosedForm(n, groups, g + 1);
    CutsRise(n, groups, g, g + 1);
    InRange(Cut(n, groups, g), Cut(n, groups, g + 1), x);
  }

  lemma {:induction false} ConcatMembers(n: nat, groups: nat, ids: seq<nat>, x: nat)
    requires groups > 0 && forall i :: 0 <= i < |ids| ==> ids[i] < groups
    ensures x in Concat(n, groups, ids) <==> InSome(n, groups, ids, x)
  {
    if ids != [] {
      assert ids == [ids[0]] + ids[1..];
      ConcatMembers(n, groups, ids[1..], x);
      GroupMembers(n, groups, ids[0], x);
    }
  }

  ghost predicate Rises(xs: seq<nat>) {
    forall i, j :: 0 <= i < j < |xs| ==> xs[i] < xs[j]
  }

  lemma RisesAppend(a: seq<nat>, b: seq<nat>)
    requires Rises(a) && Rises(b) && forall x, y :: x in a && y in b ==> x < y
    ensures Rises(a + b)
  {
    forall i, j | 0 <= i < j < |a + b| ensures (a + b)[i] < (a + b)[j] {
      if i < |a| <= j {
        assert a[i] in a && b[j - |a|] in b;
      }
    }
  }

  lemma {:induction false} ConcatRises(n: nat, groups: nat, ids: seq<nat>)
    requires groups > 0 && (forall i :: 0 <= i < |ids| ==> ids[i] < groups) && Rises(ids)
    ensures Rises(Concat(n, groups, ids))
  {
    if ids != [] {
      var g, rest := ids[0], ids[1..];
      ConcatRises(n, groups, rest);
      CutsRise(n, groups, g, g + 1);
      forall x, y | x in Group(n, groups, g) && y in Concat(n, groups, rest) ensures x < y {
        EarlierGroup(n, groups, g, rest, x, y);
      }
      RisesAppend(Group(n, groups, g), Concat(n, groups, rest));
    }
  }

  lemma {:induction false} EarlierGroup(n: nat, groups: nat, g: nat, rest: seq<nat>, x: nat, y: nat)
    requires g < groups && forall i :: 0 <= i < |rest| ==> g < rest[i] < groups
    requires x in Group(n, groups, g) && y in Concat(n, groups, rest)
    ensures x < y
  {
    GroupMembers(n, groups, g, x);
    ConcatMembers(n, groups, rest, y);
    var h :| h in rest && InGroup(n, groups, h, y);
    CutsRise(n, groups, g + 1, h);
    CutClosedForm(n, groups, g + 1);
    CutClosedForm(n, groups, h);
  }

  lemma {:induction false} OthersRise(lo: nat, hi: nat, ids: seq<nat>)
    requires lo <= hi
    ensures Rises(Others(lo, hi, ids))
    decreases hi - lo
  {
    if lo < hi {
      OthersRise(lo + 1, hi, ids);
    }
  }

  lemma {:induction false} KeepRises(xs: seq<nat>, p: nat -> bool)
    requires Rises(xs)
    ensures Rises(Keep(xs, p))
  {
    if xs != [] {
      KeepRises(xs[1..], p);
      forall y | y in Keep(xs[1..], p) ensures xs[0] < y {
        var i :| 0 <= i < |xs| - 1 && xs[1..][i] == y;
        assert xs[i + 1] == y;
      }
      RisesAppend(if p(xs[0]) then [xs[0]] else [], Keep(xs[1..], p));
    }
  }

  lemma {:induction false} TrainRises(n: nat, p: Plan, spans: Spans, ids: seq<nat>)
    requires p.nSplits > 0 && forall i :: 0 <= i < |ids| ==> ids[i] < p.nSplits
    requires !Raises(n, p, spans, ids)
    ensures Rises(Train(n, p, spans, ids))
  {
    var test, rest := Concat(n, p.nSplits, ids), Rest(n, p.nSplits, ids);
    OthersRise(0, p.nSplits, ids);
    ConcatRises(n, p.nSplits, Others(0, p.nSplits, ids));
    if p.embargoBars > 0 {
      KeepRises(rest, OutsideEmbargo(p, test));
    }
    if p.purge && spans.Some? {
      KeepRises(AfterEmbargo(p, rest, test), WithoutOverlap(spans.value, test));
    }
  }

  // ----- The folds -----------------------------------------------------------------------------

  /** The fold is that of the choice with its number. */
  ghost predicate IsFoldOf(n: nat, p: Plan, spans: Spans, cs: seq<seq<nat>>, f: Fold)
    requires p.nSplits > 0 && AllChoices(cs, p.nSplits)
  {
    && f.id < |cs| && f.testGroups == cs[f.id] && Yields(n, p, spans, cs[f.id])
    && f.test == Concat(n, p.nSplits, cs[f.id]) && f.train == Train(n, p, spans, cs[f.id])
  }

  ghost predicate HasFold(folds: seq<Fold>, id: nat) {
    exists f :: f in folds && f.id == id
  }

  ghost predicate IdsRise(folds: seq<Fold>) {
    forall i, j :: 0 <= i < j < |folds| ==> folds[i].id < folds[j].id
  }

  lemma {:induction false} FoldsOfChoices(n: nat, p: Plan, spans: Spans, cs: seq<seq<nat>>)
    requires p.nSplits > 0 && AllChoices(cs, p.nSplits)
    ensures var s := AddFolds(n, p, spans, cs);
            && (forall f :: f in s.folds ==> IsFoldOf(n, p, spans, cs, f))
            && IdsRise(s.folds)
    ensures !AddFolds(n, p, spans, cs).raised ==> AllHaveFolds(n, p, spans, cs, AddFolds(n, p, spans, cs).folds)
  {
    if cs != [] {
      var init := cs[..|cs| - 1];
      FoldsOfChoices(n, p, spans, init);
      var before := AddFolds(n, p, spans, init);
      OneMoreFold(n, p, spans, cs, before);
      if !AddFolds(n, p, spans, cs).raised {
        AllStillHave(n, p, spans, cs, before);
      }
    }
  }

  /** Every choice that yields has its fold. */
  ghost predicate AllHaveFolds(n: nat, p: Plan, spans: Spans, cs: seq<seq<nat>>, folds: seq<Fold>)
    requires p.nSplits > 0 && AllChoices(cs, p.nSplits)
  {
    forall i :: 0 <= i < |cs| && Yields(n, p, spans, cs[i]) ==> HasFold(folds, i)
  }

  lemma OneMoreFold(n: nat, p: Plan, spans: Spans, cs: seq<seq<nat>>, so: Progress)
    requires p.nSplits > 0 && AllChoices(cs, p.nSplits) && cs != []
    requires forall f :: f in so.folds ==> IsFoldOf(n, p, spans, cs[..|cs| - 1], f)
    requires IdsRise(so.folds)
    ensures var folds := AddFold(n, p, spans, so, |cs| - 1, cs[|cs| - 1]).folds;
            (forall f :: f in folds ==> IsFoldOf(n, p, spans, cs, f)) && IdsRise(folds)
  {
    var k := |cs| - 1;
    forall f | f in so.folds ensures f.id < k && IsFoldOf(n, p, spans, cs, f) {
      assert IsFoldOf(n, p, spans, cs[..k], f);
    }
    forall j | 0 <= j < |so.folds| ensures so.folds[j].id < k {
      assert so.folds[j] in so.folds;
    }
  }

  lemma AllStillHave(n: nat, p: Plan, spans: Spans, cs: seq<seq<nat>>, so: Progress)
    requires p.nSplits > 0 && AllChoices(cs, p.nSplits) && cs != [] && !so.raised
    requires AllHaveFolds(n, p, spans, cs[..|cs| - 1], so.folds)
    ensures AllHaveFolds(n, p, spans, cs, AddFold(n, p, spans, so, |cs| - 1, cs[|cs| - 1]).folds)
  {
    var k := |cs| - 1;
    var folds := AddFold(n, p, spans, so, k, cs[k]).folds;
    assert so.folds <= folds;
    forall i | 0 <= i < |cs| && Yields(n, p, spans, cs[i]) ensures HasFold(folds, i) {
      if i < k {
        assert Yields(n, p, spans, cs[..k][i]);
        StillHas(so.folds, folds, i);
      } else {
        assert folds[|so.folds|] in folds && folds[|so.folds|].id == k;
      }
    }
  }

  lemma StillHas(folds: seq<Fold>, more: seq<Fold>, id: nat)
    requires folds <= more && HasFold(folds, id)
    ensures HasFold(more, id)
  {
    var f :| f in folds && f.id == id;
    assert f in more;
  }

  /** What a fold is, from its test groups alone. */
  ghost predicate TestsItsGroups(n: nat, p: Plan, f: Fold)
    requires p.nSplits > 0
  {
    && (forall x :: x in f.test <==> InSome(n, p.nSplits, f.testGroups, x))
    && Rises(f.test) && Rises(f.train)
  }

  /** Some index may be trained on when these groups are tested. */
  ghost predicate LeavesSome(n: nat, p: Plan, spans: Spans, ids: seq<nat>)
    requires p.nSplits > 0 && forall i :: 0 <= i < |ids| ==> ids[i] < p.nSplits
  {
    !Raises(n, p, spans, ids) && exists x: nat :: Trainable(n, p, spans, ids, x)
  }

  /**
   The folds of a split, against the choices of test groups in lexicographic order: each carries the number of its
   choice, in rising order, and tests exactly the indices of its groups, ascending. Unless the split raises, every
   choice that leaves an index to train on has its fold.
   */
  lemma {:induction false} SplitIsExact(n: nat, p: Plan, spans: Spans) returns (cs: seq<seq<nat>>)
    requires 1 <= p.nTestSplits < p.nSplits
    ensures AreTheChoices(cs, p.nSplits, p.nTestSplits) && InOrder(cs) && AllChoices(cs, p.nSplits)
    ensures var s := Splits(n, p, spans);
            && (forall f :: f in s.folds ==>
                f.id < |cs| && f.testGroups == cs[f.id] && TestsItsGroups(n, p, f))
            && IdsRise(s.folds)
            && (!s.raised ==>
                forall i :: 0 <= i < |cs| ==> (HasFold(s.folds, i) <==> LeavesSome(n, p, spans, cs[i])))
  {
    cs := Combinations(0, p.nSplits, p.nTestSplits);
    CombinationsInRange(p.nSplits, p.nTestSplits);
    CombinationsInOrder(0, p.nSplits, p.nTestSplits);
    FoldsOfChoices(n, p, spans, cs);
    var s := Splits(n, p, spans);
    forall f | f in s.folds ensures TestsItsGroups(n, p, f) {
      FoldTests(n, p, spans, cs, f);
    }
    forall i | 0 <= i < |cs| ensures Yields(n, p, spans, cs[i]) <==> LeavesSome(n, p, spans, cs[i]) {
      if !Raises(n, p, spans, cs[i]) {
        YieldsIff(n, p, spans, cs[i]);
      }
    }
  }

  lemma {:induction false} FoldTests(n: nat, p: Plan, spans: Spans, cs: seq<seq<nat>>, f: Fold)
    requires 1 <= p.nTestSplits < p.nSplits
    requires AllChoices(cs, p.nSplits) && AreTheChoices(cs, p.nSplits, p.nTestSplits)
    requires IsFoldOf(n, p, spans, cs, f)
    ensures TestsItsGroups(n, p, f)
  {
    var ids := cs[f.id];
    assert ids in cs;
    forall x ensures x in f.test <==> InSome(n, p.nSplits, ids, x) {
      ConcatMembers(n, p.nSplits, ids, x);
    }
    ConcatRises(n, p.nSplits, ids);
    TrainRises(n, p, spans, ids);
  }

  // ----- When a split raises -------------------------------------------------------------------

  lemma {:induction false} RaisesSomewhere(n: nat, p: Plan, spans: Spans, cs: seq<seq<nat>>)
    requires p.nSplits > 0 && AllChoices(cs, p.nSplits)
    ensures AddFolds(n, p, spans, cs).raised <==> SomeRaises(n, p, spans, cs)
  {
    if cs != [] {
      var k := |cs| - 1;
      RaisesSomewhere(n, p, spans, cs[..k]);
      assert AddFolds(n, p, spans, cs).raised <==> AddFolds(n, p, spans, cs[..k]).raised || Raises(n, p, spans, cs[k]);
      RaisesSnoc(n, p, spans, cs);
    }
  }

  ghost predicate SomeRaises(n: nat, p: Plan, spans: Spans, cs: seq<seq<nat>>)
    requires p.nSplits > 0 && AllChoices(cs, p.nSplits)
  {
    exists i :: 0 <= i < |cs| && Raises(n, p, spans, cs[i])
  }

  lemma RaisesSnoc(n: nat, p: Plan, spans: Spans, cs: seq<seq<nat>>)
    requires p.nSplits > 0 && AllChoices(cs, p.nSplits) && cs != []
    ensures SomeRaises(n, p, spans, cs) <==>
            SomeRaises(n, p, spans, cs[..|cs| - 1]) || Raises(n, p, spans, cs[|cs| - 1])
  {
    var init := cs[..|cs| - 1];
    assert forall i :: 0 <= i < |init| ==> init[i] == cs[i];
    if SomeRaises(n, p, spans, init) {
      var i :| 0 <= i < |init| && Raises(n, p, spans, init[i]);
      assert Raises(n, p, spans, cs[i]);
    }
  }

  /** Groups have nothing to test exactly when there are no indices left for them. */
  lemma {:induction false} NothingInGroups(n: nat, groups: nat, ids: seq<nat>)
    requires groups > 0 && forall i :: 0 <= i < |ids| ==> ids[i] < groups
    ensures Concat(n, groups, ids) == [] <==> forall g :: g in ids ==> g >= n
  {
    if ids == [] {
      assert forall g :: g in ids ==> g >= n;
    } else {
      var g := ids[0];
      assert ids == [g] + ids[1..];
      NothingInGroups(n, groups, ids[1..]);
      assert Concat(n, groups, ids) == Group(n, groups, g) + Concat(n, groups, ids[1..]);
      assert forall h :: h in ids <==> h == g || h in ids[1..];
      if g < n {
        EarlyGroup(n, groups, g);
        assert g in ids;
      } else {
        FewerThan(n, groups);
        assert Cut(n, groups, g + 1) == Cut(n, groups, g) + PartSize(n, groups, g);
        assert Group(n, groups, g) == [];
        assert Concat(n, groups, ids) == Concat(n, groups, ids[1..]);
      }
    }
  }

  /** The last groups of all. */
  lemma {:induction false} LastChoice(hi: nat, k: nat) returns (c: seq<nat>)
    requires k <= hi
    ensures IsChoice(c, 0, hi, k) && forall g :: g in c ==> g >= hi - k
  {
    c := Range(hi - k, hi);
    forall g | g in c ensures g >= hi - k {
      InRange(hi - k, hi, g);
    }
  }

  lemma {:induction false} LateChoiceIff(n: nat, hi: nat, k: nat)
    requires 1 <= k < hi
    ensures (exists c :: IsChoice(c, 0, hi, k) && forall g :: g in c ==> g >= n) <==> n + k <= hi
  {
    if n + k <= hi {
      var c := LastChoice(hi, k);
    }
    forall c | IsChoice(c, 0, hi, k) && forall g :: g in c ==> g >= n ensures n + k <= hi {
      assert c[0] in c;
      Spread(c, hi, k, k - 1);
    }
  }

  lemma {:induction false} Spread(c: seq<nat>, hi: nat, k: nat, i: nat)
    requires IsChoice(c, 0, hi, k) && i < k
    ensures c[0] + i <= c[i]
  {
    if i > 0 {
      Spread(c, hi, k, i - 1);
    }
  }

  /**
   A split raises exactly without groups, for less than one test group, or when the extremes of a test set are
   needed and so few indices are given that some choice of test groups has none.
   */
  lemma {:induction false} SplitRaisesIff(n: nat, p: Plan, spans: Spans)
    requires p.nTestSplits < p.nSplits
    ensures Splits(n, p, spans).raised <==>
            p.nTestSplits <= 0 || (NeedsTest(p, spans) && n + p.nTestSplits <= p.nSplits)
  {
    if p.nSplits > 0 && p.nTestSplits >= 0 {
      var cs := Combinations(0, p.nSplits, p.nTestSplits);
      CombinationsInRange(p.nSplits, p.nTestSplits);
      RaisesSomewhere(n, p, spans, cs);
      if p.nTestSplits == 0 {
        assert cs[0] == [];
      } else {
        LateChoiceIff(n, p.nSplits, p.nTestSplits);
        SomeRaisesIff(n, p, spans, cs);
      }
    }
  }

  lemma {:induction false} SomeRaisesIff(n: nat, p: Plan, spans: Spans, cs: seq<seq<nat>>)
    requires 1 <= p.nTestSplits < p.nSplits
    requires AllChoices(cs, p.nSplits) && AreTheChoices(cs, p.nSplits, p.nTestSplits)
    ensures SomeRaises(n, p, spans, cs) <==>
            NeedsTest(p, spans) &&
            exists c :: IsChoice(c, 0, p.nSplits, p.nTestSplits) && forall g :: g in c ==> g >= n
  {
    forall i | 0 <= i < |cs|
      ensures Raises(n, p, spans, cs[i]) <==> NeedsTest(p, spans) && forall g :: g in cs[i] ==> g >= n
    {
      assert cs[i] in cs;
      NothingInGroups(n, p.nSplits, cs[i]);
    }
    forall c | IsChoice(c, 0, p.nSplits, p.nTestSplits) ensures exists i :: 0 <= i < |cs| && cs[i] == c {
      assert c in cs;
    }
    forall i | 0 <= i < |cs| ensures IsChoice(cs[i], 0, p.nSplits, p.nTestSplits) {
      assert cs[i] in cs;
    }
  }
}

/** Combinatorial purged cross-validation: contiguous groups, every choice of test groups, purge and embargo. */
module Cpcv {
  import opened Common

  // ----- Groups --------------------------------------------------------------------------------

  /** How many of `n` indices the i-th of `groups` near-equal parts takes; the first n % groups parts take one more. */
  function PartSize(n: nat, groups: nat, i: nat): nat
    requires groups > 0
  {
    n / groups + if i < n % groups then 1 else 0
  }

  /** Where the i-th part begins. */
  function Cut(n: nat, groups: nat, i: nat): nat
    requires groups > 0
  {
    if i == 0 then 0 else Cut(n, groups, i - 1) + PartSize(n, groups, i - 1)
  }

  lemma {:induction false} CutClosedForm(n: nat, groups: nat, i: nat)
    requires groups > 0
    ensures Cut(n, groups, i) == i * (n / groups) + Least(i, n % groups)
  {
    if i > 0 {
      CutClosedForm(n, groups, i - 1);
      assert i * (n / groups) == (i - 1) * (n / groups) + n / groups;
    }
  }

  /** The parts together take everything. */
  lemma {:induction false} CutsCover(n: nat, groups: nat)
    requires groups > 0
    ensures Cut(n, groups, groups) == n
  {
    CutClosedForm(n, groups, groups);
  }

  lemma {:induction false} CutsRise(n: nat, groups: nat, i: nat, j: nat)
    requires groups > 0 && i <= j <= groups
    ensures Cut(n, groups, i) <= Cut(n, groups, j) <= n
    decreases groups - i
  {
    if i < j {
      CutsRise(n, groups, i + 1, j);
    } else if i < groups {
      CutsRise(n, groups, i + 1, groups);
    } else {
      CutsCover(n, groups);
    }
  }

  function Range(lo: nat, hi: nat): seq<nat>
    requires lo <= hi
  {
    seq(hi - lo, i requires 0 <= i < hi - lo => lo + i)
  }

  /** The indices of one group. */
  function Group(n: nat, groups: nat, i: nat): seq<nat>
    requires groups > 0 && i < groups
  {
    CutsRise(n, groups, i, i + 1);
    Range(Cut(n, groups, i), Cut(n, groups, i + 1))
  }

  /** The one group that holds index `x`. */
  function GroupOf(n: nat, groups: nat, x: nat, from: nat): (g: nat)
    requires groups > 0 && x < n && from < groups && Cut(n, groups, from) <= x
    ensures from <= g < groups && Cut(n, groups, g) <= x < Cut(n, groups, g + 1)
    decreases groups - from
  {
    CutsCover(n, groups);
    if x < Cut(n, groups, from + 1) then from else GroupOf(n, groups, x, from + 1)
  }

  /** Groups partition the indices: each index is in exactly one. */
  lemma {:induction false} GroupsPartition(n: nat, groups: nat, x: nat) returns (g: nat)
    requires groups > 0 && x < n
    ensures g < groups
    ensures forall i :: 0 <= i < groups ==> (x in Group(n, groups, i) <==> i == g)
  {
    g := GroupOf(n, groups, x, 0);
    forall i | 0 <= i < groups ensures x in Group(n, groups, i) <==> i == g {
      CutsRise(n, groups, i, i + 1);
      InRange(Cut(n, groups, i), Cut(n, groups, i + 1), x);
      if i < g {
        CutsRise(n, groups, i + 1, g);
      } else if i > g {
        CutsRise(n, groups, g + 1, i);
      }
    }
  }

  lemma InRange(lo: nat, hi: nat, x: nat)
    requires lo <= hi
    ensures x in Range(lo, hi) <==> lo <= x < hi
  {
    if lo <= x < hi {
      assert Range(lo, hi)[x - lo] == x;
    }
  }

  // ----- Combinations --------------------------------------------------------------------------

  function Prepend(x: nat, cs: seq<seq<nat>>): (r: seq<seq<nat>>)
    ensures |r| == |cs| && forall i :: 0 <= i < |cs| ==> r[i] == [x] + cs[i]
  {
    seq(|cs|, i requires 0 <= i < |cs| => [x] + cs[i])
  }

  /** All choices of `k` numbers from lo up to hi, each ascending, in lexicographic order. */
  function Combinations(lo: nat, hi: nat, k: nat): seq<seq<nat>>
    requires lo <= hi
    decreases hi - lo
  {
    if k == 0 then [[]]
    else if lo == hi then []
    else Prepend(lo, Combinations(lo + 1, hi, k - 1)) + Combinations(lo + 1, hi, k)
  }

  /** Binomial coefficients; zero for a negative choice. */
  function Choose(n: nat, k: int): nat {
    if k < 0 then 0
    else if k == 0 then 1
    else if n == 0 then 0
    else Choose(n - 1, k - 1) + Choose(n - 1, k)
  }

  lemma {:induction false} CombinationCount(lo: nat, hi: nat, k: nat)
    requires lo <= hi
    ensures |Combinations(lo, hi, k)| == Choose(hi - lo, k)
    decreases hi - lo
  {
    if k > 0 && lo < hi {
      CombinationCount(lo + 1, hi, k - 1);
      CombinationCount(lo + 1, hi, k);
    }
  }

  /** A choice of `k` numbers from lo up to hi, ascending. */
  ghost predicate IsChoice(c: seq<nat>, lo: nat, hi: nat, k: nat) {
    && |c| == k
    && (forall i :: 0 <= i < k ==> lo <= c[i] < hi)
    && (forall i, j :: 0 <= i < j < k ==> c[i] < c[j])
  }

  lemma InPrepend(x: nat, cs: seq<seq<nat>>, c: seq<nat>)
    ensures c in Prepend(x, cs) <==> c != [] && c[0] == x && c[1..] in cs
  {
    var r := Prepend(x, cs);
    if c in r {
      var i :| 0 <= i < |r| && r[i] == c;
      assert c[1..] == cs[i];
    }
    if c != [] && c[0] == x && c[1..] in cs {
      var i :| 0 <= i < |cs| && cs[i] == c[1..];
      assert r[i] == c;
    }
  }

  /** The same, number by number. */
  predicate Ascends(c: seq<nat>, lo: nat, hi: nat, k: nat)
    decreases k
  {
    if k == 0 then c == [] else c != [] && lo <= c[0] < hi && Ascends(c[1..], c[0] + 1, hi, k - 1)
  }

  lemma {:induction false} AscendsIsChoice(c: seq<nat>, lo: nat, hi: nat, k: nat)
    ensures Ascends(c, lo, hi, k) <==> IsChoice(c, lo, hi, k)
    decreases k
  {
    if k > 0 && c != [] && lo <= c[0] < hi {
      AscendsIsChoice(c[1..], c[0] + 1, hi, k - 1);
      assert forall i :: 0 <= i < |c| - 1 ==> c[1..][i] == c[i + 1];
      assert forall i :: 0 < i < |c| ==> c[i] == c[1..][i - 1];
    }
  }

  lemma CombinationsSplit(lo: nat, hi: nat, k: nat, c: seq<nat>)
    requires lo < hi && k > 0
    ensures c in Combinations(lo, hi, k) <==>
            (c != [] && c[0] == lo && c[1..] in Combinations(lo + 1, hi, k - 1)) || c in Combinations(lo + 1, hi, k)
  {
    InPrepend(lo, Combinations(lo + 1, hi, k - 1), c);
  }

  lemma {:induction false} CombinationsAscend(lo: nat, hi: nat, k: nat, c: seq<nat>)
    requires lo <= hi
    ensures c in Combinations(lo, hi, k) <==> Ascends(c, lo, hi, k)
    decreases hi - lo
  {
    if k > 0 && lo < hi {
      CombinationsSplit(lo, hi, k, c);
      CombinationsAscend(lo + 1, hi, k, c);
      if c != [] {
        CombinationsAscend(lo + 1, hi, k - 1, c[1..]);
      }
    }
  }

  /** The enumeration holds every choice, and nothing else. */
  lemma {:induction false} CombinationsAreChoices(lo: nat, hi: nat, k: nat, c: seq<nat>)
    requires lo <= hi
    ensures c in Combinations(lo, hi, k) <==> IsChoice(c, lo, hi, k)
  {
    CombinationsAscend(lo, hi, k, c);
    AscendsIsChoice(c, lo, hi, k);
  }

  /** How many of these choices contain `g`. */
  function Containing(cs: seq<seq<nat>>, g: nat): nat {
    if cs == [] then 0 else (if g in cs[0] then 1 else 0) + Containing(cs[1..], g)
  }

  lemma {:induction false} ContainingAppend(a: seq<seq<nat>>, b: seq<seq<nat>>, g: nat)
    ensures Containing(a + b, g) == Containing(a, g) + Containing(b, g)
  {
    if a == [] {
      assert a + b == b;
    } else {
      assert (a + b)[1..] == a[1..] + b;
      ContainingAppend(a[1..], b, g);
    }
  }

  lemma {:induction false} ContainingPrepend(x: nat, cs: seq<seq<nat>>, g: nat)
    ensures Containing(Prepend(x, cs), g) == if g == x then |cs| else Containing(cs, g)
  {
    if cs != [] {
      assert Prepend(x, cs)[1..] == Prepend(x, cs[1..]);
      assert Prepend(x, cs)[0] == [x] + cs[0];
      ContainingPrepend(x, cs[1..], g);
    }
  }

  lemma ContainingJoined(x: nat, first: seq<seq<nat>>, rest: seq<seq<nat>>, g: nat)
    ensures g == x ==> Containing(Prepend(x, first) + rest, g) == |first| + Containing(rest, g)
    ensures g != x ==> Containing(Prepend(x, first) + rest, g) == Containing(first, g) + Containing(rest, g)
  {
    ContainingAppend(Prepend(x, first), rest, g);
    ContainingPrepend(x, first, g);
  }

  lemma ContainingSplits(lo: nat, hi: nat, k: nat, g: nat)
    requires lo < hi && k > 0
    ensures g == lo ==> Containing(Combinations(lo, hi, k), g) ==
                        |Combinations(lo + 1, hi, k - 1)| + Containing(Combinations(lo + 1, hi, k), g)
    ensures g != lo ==> Containing(Combinations(lo, hi, k), g) ==
                        Containing(Combinations(lo + 1, hi, k - 1), g) + Containing(Combinations(lo + 1, hi, k), g)
  {
    ContainingJoined(lo, Combinations(lo + 1, hi, k - 1), Combinations(lo + 1, hi, k), g);
  }

  /** A count of choices by their range and size. */
  type Count = (nat, nat, nat) -> nat

  /** Marks where the counting rule is applied. */
  predicate Here(lo: nat, hi: nat, k: nat) {
    lo <= hi
  }

  /** `all` counts every choice. */
  ghost predicate CountsAll(all: Count) {
    forall lo: nat, hi: nat, k: nat {:trigger Here(lo, hi, k)} :: Here(lo, hi, k) ==>
      all(lo, hi, k) == Choose(hi - lo, k)
  }

  /** Of the choices that begin with lo, `with` counts all if `g` is lo, and otherwise those whose rest has `g`. */
  ghost predicate CountsStep(with: Count, all: Count, g: nat, lo: nat, hi: nat, k: nat)
    requires lo <= hi
  {
    with(lo, hi, k) == if k == 0 || lo == hi then 0
                       else (if g == lo then all(lo + 1, hi, k - 1) else with(lo + 1, hi, k - 1)) + with(lo + 1, hi, k)
  }

  /** `with` counts the choices with `g`. */
  ghost predicate CountsWith(with: Count, all: Count, g: nat) {
    forall lo: nat, hi: nat, k: nat {:trigger Here(lo, hi, k)} :: Here(lo, hi, k) ==>
      CountsStep(with, all, g, lo, hi, k)
  }

  lemma {:induction false} NoneBelow(with: Count, all: Count, lo: nat, hi: nat, k: nat, g: nat)
    requires CountsWith(with, all, g) && g < lo <= hi
    ensures with(lo, hi, k) == 0
    decreases hi - lo
  {
    assert Here(lo, hi, k);
    if k > 0 && lo < hi {
      NoneBelow(with, all, lo + 1, hi, k - 1, g);
      NoneBelow(with, all, lo + 1, hi, k, g);
    }
  }

  /** Such a count is binomial, by Pascal's rule. */
  lemma {:induction false} CountIsChoose(with: Count, all: Count, lo: nat, hi: nat, k: nat, g: nat)
    requires CountsWith(with, all, g) && CountsAll(all) && lo <= g < hi
    ensures with(lo, hi, k) == Choose(hi - lo - 1, k - 1)
    decreases hi - lo
  {
    assert Here(lo, hi, k) && Here(lo + 1, hi, k);
    if k > 0 {
      assert Here(lo + 1, hi, k - 1);
      if g == lo {
        NoneBelow(with, all, lo + 1, hi, k, g);
      } else {
        CountIsChoose(with, all, lo + 1, hi, k - 1, g);
        CountIsChoose(with, all, lo + 1, hi, k, g);
      }
    }
  }

  function HowManyWith(lo: nat, hi: nat, k: nat, g: nat): nat {
    if lo <= hi then Containing(Combinations(lo, hi, k), g) else 0
  }

  function HowMany(lo: nat, hi: nat, k: nat): nat {
    if lo <= hi then |Combinations(lo, hi, k)| else 0
  }

  lemma NoneWith(lo: nat, hi: nat, k: nat, g: nat)
    requires lo <= hi && (k == 0 || lo == hi)
    ensures HowManyWith(lo, hi, k, g) == 0
  {
    assert Containing([[]], g) == 0;
  }

  lemma FirstWith(lo: nat, hi: nat, k: nat)
    requires lo < hi && k > 0
    ensures HowManyWith(lo, hi, k, lo) == HowMany(lo + 1, hi, k - 1) + HowManyWith(lo + 1, hi, k, lo)
  {
    ContainingSplits(lo, hi, k, lo);
  }

  lemma OtherWith(lo: nat, hi: nat, k: nat, g: nat)
    requires lo < hi && k > 0 && g != lo
    ensures HowManyWith(lo, hi, k, g) == HowManyWith(lo + 1, hi, k - 1, g) + HowManyWith(lo + 1, hi, k, g)
  {
    ContainingSplits(lo, hi, k, g);
  }

  /** Marks where a count is looked up in the enumeration. */
  predicate At(lo: nat, hi: nat, k: nat) {
    true
  }

  /** The counts are those of the enumeration. */
  ghost predicate Enumerated(with: Count, all: Count, g: nat) {
    && (forall lo: nat, hi: nat, k: nat {:trigger At(lo, hi, k)} :: At(lo, hi, k) ==>
        with(lo, hi, k) == HowManyWith(lo, hi, k, g))
    && (forall lo: nat, hi: nat, k: nat {:trigger At(lo, hi, k)} :: At(lo, hi, k) ==>
        all(lo, hi, k) == HowMany(lo, hi, k))
  }

  lemma CountAtEnd(with: Count, all: Count, lo: nat, hi: nat, k: nat, g: nat)
    requires Enumerated(with, all, g) && lo <= hi && (k == 0 || lo == hi)
    ensures with(lo, hi, k) == 0
  {
    assert At(lo, hi, k);
    NoneWith(lo, hi, k, g);
  }

  lemma CountAtFirst(with: Count, all: Count, lo: nat, hi: nat, k: nat)
    requires Enumerated(with, all, lo) && lo < hi && k > 0
    ensures with(lo, hi, k) == all(lo + 1, hi, k - 1) + with(lo + 1, hi, k)
  {
    assert At(lo, hi, k) && At(lo + 1, hi, k - 1) && At(lo + 1, hi, k);
    FirstWith(lo, hi, k);
  }

  lemma CountAtOther(with: Count, all: Count, lo: nat, hi: nat, k: nat, g: nat)
    requires Enumerated(with, all, g) && lo < hi && k > 0 && g != lo
    ensures with(lo, hi, k) == with(lo + 1, hi, k - 1) + with(lo + 1, hi, k)
  {
    assert At(lo, hi, k) && At(lo + 1, hi, k - 1) && At(lo + 1, hi, k);
    OtherWith(lo, hi, k, g);
  }

  lemma CountAtAll(with: Count, all: Count, lo: nat, hi: nat, k: nat, g: nat)
    requires Enumerated(with, all, g) && lo <= hi
    ensures all(lo, hi, k) == Choose(hi - lo, k)
  {
    assert At(lo, hi, k);
    CombinationCount(lo, hi, k);
  }

  lemma {:induction false} EnumerationCounts(with: Count, all: Count, g: nat)
    requires Enumerated(with, all, g)
    ensures CountsWith(with, all, g) && CountsAll(all)
  {
    forall lo: nat, hi: nat, k: nat | Here(lo, hi, k) ensures CountsStep(with, all, g, lo, hi, k) {
      if k == 0 || lo == hi {
        CountAtEnd(with, all, lo, hi, k, g);
      } else if g == lo {
        CountAtFirst(with, all, lo, hi, k);
      } else {
        CountAtOther(with, all, lo, hi, k, g);
      }
    }
    forall lo: nat, hi: nat, k: nat | Here(lo, hi, k) ensures all(lo, hi, k) == Choose(hi - lo, k) {
      CountAtAll(with, all, lo, hi, k, g);
    }
  }

  /** Every group is in equally many of the choices. */
  ghost predicate Evenly(cs: seq<seq<nat>>, groups: nat, times: nat) {
    forall g :: 0 <= g < groups ==> Containing(cs, g) == times
  }

  /** Every group is in as many choices as there are choices of one fewer from the others. */
  lemma ChoicesAreEven(groups: nat, k: nat)
    requires groups > 0
    ensures Evenly(Combinations(0, groups, k), groups, Choose(groups - 1, k - 1))
  {
    forall g | 0 <= g < groups ensures Containing(Combinations(0, groups, k), g) == Choose(groups - 1, k - 1) {
      HowManyIsChoose(groups, k, g);
    }
  }

  lemma HowManyIsChoose(groups: nat, k: nat, g: nat)
    requires g < groups
    ensures HowManyWith(0, groups, k, g) == Choose(groups - 1, k - 1)
  {
    var with := (lo: nat, hi: nat, j: nat) => HowManyWith(lo, hi, j, g);
    var all := (lo: nat, hi: nat, j: nat) => HowMany(lo, hi, j);
    EnumerationCounts(with, all, g);
    CountIsChoose(with, all, 0, groups, k, g);
  }

  // ----- Folds ---------------------------------------------------------------------------------

  datatype Fold = Fold(id: nat, train: seq<nat>, test: seq<nat>, testGroups: seq<nat>)

  /** The indices of the given groups, in the order given. */
  function Concat(n: nat, groups: nat, ids: seq<nat>): seq<nat>
    requires groups > 0 && forall i :: 0 <= i < |ids| ==> ids[i] < groups
  {
    if ids == [] then [] else Group(n, groups, ids[0]) + Concat(n, groups, ids[1..])
  }

  /** The groups from lo up to hi that are not among `ids`. */
  function Others(lo: nat, hi: nat, ids: seq<nat>): (r: seq<nat>)
    requires lo <= hi
    ensures forall i :: 0 <= i < |r| ==> lo <= r[i] < hi
    ensures forall g :: g in r <==> lo <= g < hi && g !in ids
    decreases hi - lo
  {
    if lo == hi then [] else (if lo in ids then [] else [lo]) + Others(lo + 1, hi, ids)
  }

  /** What a fold trains on before any embargo or purge. */
  function Rest(n: nat, groups: nat, ids: seq<nat>): seq<nat>
    requires groups > 0 && forall i :: 0 <= i < |ids| ==> ids[i] < groups
  {
    Concat(n, groups, Others(0, groups, ids))
  }

  function Lowest(xs: seq<nat>): (m: nat)
    requires xs != []
    ensures m in xs && forall x :: x in xs ==> m <= x
  {
    assert xs == [xs[0]] + xs[1..];
    if |xs| == 1 then xs[0] else Least(xs[0], Lowest(xs[1..]))
  }

  function Highest(xs: seq<nat>): (m: nat)
    requires xs != []
    ensures m in xs && forall x :: x in xs ==> x <= m
  {
    assert xs == [xs[0]] + xs[1..];
    if |xs| == 1 then xs[0]
    else if xs[0] >= Highest(xs[1..]) then xs[0] else Highest(xs[1..])
  }

  function Keep(xs: seq<nat>, p: nat -> bool): (r: seq<nat>)
    ensures forall x :: x in r <==> x in xs && p(x)
  {
    if xs == [] then [] else (if p(xs[0]) then [xs[0]] else []) + Keep(xs[1..], p)
  }

  datatype Plan = Plan(nSplits: int, nTestSplits: int, embargoBars: int, purge: bool)

  /** The first and last index that each sample's label depends on, if labels span several indices. */
  type Spans = Option<seq<(int, int)>>

  /** The fold needs the extremes of its test set. */
  predicate NeedsTest(p: Plan, spans: Spans) {
    p.embargoBars > 0 || (p.purge && spans.Some?)
  }

  predicate InEmbargo(p: Plan, test: seq<nat>, x: nat)
    requires test != []
  {
    Lowest(test) - p.embargoBars <= x <= Highest(test) + p.embargoBars
  }

  function OutsideEmbargo(p: Plan, test: seq<nat>): nat -> bool
    requires test != []
  {
    (x: nat) => !InEmbargo(p, test, x)
  }

  predicate Overlaps(rows: seq<(int, int)>, test: seq<nat>, x: nat)
    requires test != []
  {
    x < |rows| && rows[x].1 >= Lowest(test) && rows[x].0 <= Highest(test)
  }

  function WithoutOverlap(rows: seq<(int, int)>, test: seq<nat>): nat -> bool
    requires test != []
  {
    (x: nat) => !Overlaps(rows, test, x)
  }

  function AfterEmbargo(p: Plan, train: seq<nat>, test: seq<nat>): seq<nat>
    requires p.embargoBars > 0 ==> test != []
  {
    if p.embargoBars > 0 then Keep(train, OutsideEmbargo(p, test)) else train
  }

  function AfterPurge(p: Plan, spans: Spans, train: seq<nat>, test: seq<nat>): seq<nat>
    requires p.purge && spans.Some? ==> test != []
  {
    if p.purge && spans.Some? then Keep(train, WithoutOverlap(spans.value, test)) else train
  }

  /** What the split has yielded so far, and whether it has raised. */
  datatype Progress = Progress(folds: seq<Fold>, raised: bool)

  /** There is nothing to join into a test set, or the extremes of an empty one are asked for. */
  predicate Raises(n: nat, p: Plan, spans: Spans, ids: seq<nat>)
    requires p.nSplits > 0 && forall i :: 0 <= i < |ids| ==> ids[i] < p.nSplits
  {
    ids == [] || (NeedsTest(p, spans) && Concat(n, p.nSplits, ids) == [])
  }

  function Train(n: nat, p: Plan, spans: Spans, ids: seq<nat>): seq<nat>
    requires p.nSplits > 0 && forall i :: 0 <= i < |ids| ==> ids[i] < p.nSplits
    requires !Raises(n, p, spans, ids)
  {
    var test := Concat(n, p.nSplits, ids);
    AfterPurge(p, spans, AfterEmbargo(p, Rest(n, p.nSplits, ids), test), test)
  }

  /** The fold of the `id`-th choice of test groups; it is skipped when nothing is left to train on. */
  function AddFold(n: nat, p: Plan, spans: Spans, so: Progress, id: nat, ids: seq<nat>): Progress
    requires p.nSplits > 0 && forall i :: 0 <= i < |ids| ==> ids[i] < p.nSplits
  {
    if so.raised then so
    else if Raises(n, p, spans, ids) then so.(raised := true)
    else if Train(n, p, spans, ids) == [] then so
    else so.(folds := so.folds + [Fold(id, Train(n, p, spans, ids), Concat(n, p.nSplits, ids), ids)])
  }

  ghost predicate AllChoices(cs: seq<seq<nat>>, groups: int) {
    forall i, j :: 0 <= i < |cs| && 0 <= j < |cs[i]| ==> cs[i][j] < groups
  }

  function AddFolds(n: nat, p: Plan, spans: Spans, cs: seq<seq<nat>>): Progress
    requires p.nSplits > 0 && AllChoices(cs, p.nSplits)
  {
    if cs == [] then Progress([], false)
    else AddFold(n, p, spans, AddFolds(n, p, spans, cs[..|cs| - 1]), |cs| - 1, cs[|cs| - 1])
  }

  /** The choices are exactly those of `k` groups. */
  ghost predicate AreTheChoices(cs: seq<seq<nat>>, hi: nat, k: nat) {
    forall c :: c in cs <==> IsChoice(c, 0, hi, k)
  }

  lemma {:induction false} CombinationsInRange(hi: nat, k: nat)
    ensures AreTheChoices(Combinations(0, hi, k), hi, k)
    ensures AllChoices(Combinations(0, hi, k), hi)
  {
    var cs := Combinations(0, hi, k);
    forall c ensures c in cs <==> IsChoice(c, 0, hi, k) {
      CombinationsAreChoices(0, hi, k, c);
    }
    forall i, j | 0 <= i < |cs| && 0 <= j < |cs[i]| ensures cs[i][j] < hi {
      assert cs[i] in cs;
    }
  }

  /** The whole split; no groups or a negative choice raise before any fold. */
  ghost function Splits(n: nat, p: Plan, spans: Spans): Progress {
    if p.nSplits <= 0 || p.nTestSplits < 0 then Progress([], true)
    else
      CombinationsInRange(p.nSplits, p.nTestSplits);
      AddFolds(n, p, spans, Combinations(0, p.nSplits, p.nTestSplits))
  }

  /** The generator: the folds it yields, and whether it ends by raising. */
  method Split(n: nat, p: Plan, spans: Spans) returns (folds: seq<Fold>, raised: bool)
    requires p.nTestSplits < p.nSplits
    requires spans.Some? ==> |spans.value| >= n
    ensures Progress(folds, raised) == Splits(n, p, spans)
  {
    folds, raised := [], false;
    if p.nSplits <= 0 || p.nTestSplits < 0 {
      raised := true;
      return;
    }
    CombinationsInRange(p.nSplits, p.nTestSplits);
    folds, raised := SplitOver(n, p, spans, Combinations(0, p.nSplits, p.nTestSplits));
  }

  /** The loop over the choices of test groups. */
  method SplitOver(n: nat, p: Plan, spans: Spans, cs: seq<seq<nat>>) returns (folds: seq<Fold>, raised: bool)
    requires p.nSplits > 0 && AllChoices(cs, p.nSplits)
    ensures Progress(folds, raised) == AddFolds(n, p, spans, cs)
  {
    folds, raised := [], false;
    var foldId := 0;
    while foldId < |cs|
      invariant foldId <= |cs|
      invariant AllChoices(cs[..foldId], p.nSplits)
      invariant !raised && Progress(folds, raised) == AddFolds(n, p, spans, cs[..foldId])
    {
      AddFoldsSnoc(n, p, spans, cs, foldId);
      folds, raised := NextFold(n, p, spans, folds, foldId, cs[foldId]);
      foldId := foldId + 1;
      if raised {
        StaysRaised(n, p, spans, cs, foldId);
        return;
      }
    }
    assert cs[..|cs|] == cs;
  }

  /** The body of the loop over the choices. */
  method NextFold(n: nat, p: Plan, spans: Spans, folds: seq<Fold>, foldId: nat, testGroups: seq<nat>)
    returns (folds': seq<Fold>, raised: bool)
    requires p.nSplits > 0 && forall i :: 0 <= i < |testGroups| ==> testGroups[i] < p.nSplits
    ensures Progress(folds', raised) == AddFold(n, p, spans, Progress(folds, false), foldId, testGroups)
  {
    folds', raised := folds, false;
    var testIdx := Concat(n, p.nSplits, testGroups);
    if testGroups == [] || (NeedsTest(p, spans) && testIdx == []) {
      raised := true;
      return;
    }
    var trainIdx := Rest(n, p.nSplits, testGroups);
    if p.embargoBars > 0 {
      trainIdx := Keep(trainIdx, OutsideEmbargo(p, testIdx));
    }
    if p.purge && spans.Some? {
      trainIdx := Keep(trainIdx, WithoutOverlap(spans.value, testIdx));
    }
    if trainIdx != [] {
      folds' := folds + [Fold(foldId, trainIdx, testIdx, testGroups)];
    }
  }

  lemma AddFoldsSnoc(n: nat, p: Plan, spans: Spans, cs: seq<seq<nat>>, i: nat)
    requires p.nSplits > 0 && AllChoices(cs, p.nSplits) && i < |cs|
    ensures AddFolds(n, p, spans, cs[..i + 1]) == AddFold(n, p, spans, AddFolds(n, p, spans, cs[..i]), i, cs[i])
  {
    assert cs[..i + 1][..i] == cs[..i];
  }

  lemma {:induction false} StaysRaised(n: nat, p: Plan, spans: Spans, cs: seq<seq<nat>>, k: nat)
    requires p.nSplits > 0 && AllChoices(cs, p.nSplits) && k <= |cs|
    requires AddFolds(n, p, spans, cs[..k]).raised
    ensures AddFolds(n, p, spans, cs) == AddFolds(n, p, spans, cs[..k])
    decreases |cs|
  {
    if k == |cs| {
      assert cs[..k] == cs;
    } else {
      assert cs[..|cs| - 1][..k] == cs[..k];
      StaysRaised(n, p, spans, cs[..|cs| - 1], k);
    }
  }

  // ----- No leakage ----------------------------------------------------------------------------

  /** Membership in concatenated groups is membership of the index's group. */
  lemma {:induction false} InConcat(n: nat, groups: nat, ids: seq<nat>, x: nat, g: nat)
    requires groups > 0 && forall i :: 0 <= i < |ids| ==> ids[i] < groups
    requires forall i :: 0 <= i < groups ==> (x in Group(n, groups, i) <==> i == g)
    requires g < groups
    ensures x in Concat(n, groups, ids) <==> g in ids
  {
    if ids != [] {
      assert ids == [ids[0]] + ids[1..];
      InConcat(n, groups, ids[1..], x, g);
    }
  }

  lemma {:induction false} ConcatInBounds(n: nat, groups: nat, ids: seq<nat>, x: nat)
    requires groups > 0 && forall i :: 0 <= i < |ids| ==> ids[i] < groups
    requires x in Concat(n, groups, ids)
    ensures x < n
  {
    if x in Group(n, groups, ids[0]) {
      CutsRise(n, groups, ids[0], ids[0] + 1);
      CutsRise(n, groups, ids[0] + 1, groups);
      InRange(Cut(n, groups, ids[0]), Cut(n, groups, ids[0] + 1), x);
    } else {
      ConcatInBounds(n, groups, ids[1..], x);
    }
  }

  /**
   The fold trains on exactly the indices that are neither tested, nor within the embargo around the test set,
   nor labelled by a span that reaches into it.
   */
  ghost predicate NoLeakage(n: nat, p: Plan, spans: Spans, f: Fold) {
    && f.train != []
    && (NeedsTest(p, spans) ==> f.test != [])
    && (forall x: nat :: x in f.train <==>
          && x < n && x !in f.test
          && (p.embargoBars > 0 ==> !InEmbargo(p, f.test, x))
          && (p.purge && spans.Some? ==> !Overlaps(spans.value, f.test, x)))
    && (forall x: nat :: x in f.test ==> x < n)
  }

  lemma {:induction false} OthersAreTheRest(n: nat, groups: nat, ids: seq<nat>, x: nat)
    requires groups > 0 && forall i :: 0 <= i < |ids| ==> ids[i] < groups
    ensures x in Rest(n, groups, ids) <==> x < n && x !in Concat(n, groups, ids)
  {
    var others := Others(0, groups, ids);
    if x < n {
      var g := GroupsPartition(n, groups, x);
      InConcat(n, groups, others, x, g);
      InConcat(n, groups, ids, x, g);
    } else if x in Concat(n, groups, others) {
      ConcatInBounds(n, groups, others, x);
    }
  }

  /** What a fold on these test groups may train on. */
  predicate Trainable(n: nat, p: Plan, spans: Spans, ids: seq<nat>, x: nat)
    requires p.nSplits > 0 && forall i :: 0 <= i < |ids| ==> ids[i] < p.nSplits
    requires !Raises(n, p, spans, ids)
  {
    var test := Concat(n, p.nSplits, ids);
    && x < n && x !in test
    && (p.embargoBars > 0 ==> !InEmbargo(p, test, x))
    && (p.purge && spans.Some? ==> !Overlaps(spans.value, test, x))
  }

  lemma {:induction false} TrainMembers(n: nat, p: Plan, spans: Spans, ids: seq<nat>, x: nat)
    requires p.nSplits > 0 && forall i :: 0 <= i < |ids| ==> ids[i] < p.nSplits
    requires !Raises(n, p, spans, ids)
    ensures x in Train(n, p, spans, ids) <==> Trainable(n, p, spans, ids, x)
  {
    OthersAreTheRest(n, p.nSplits, ids, x);
  }

  lemma {:induction false} AddFoldNoLeakage(n: nat, p: Plan, spans: Spans, so: Progress, id: nat, ids: seq<nat>)
    requires p.nSplits > 0 && forall i :: 0 <= i < |ids| ==> ids[i] < p.nSplits
    requires forall f :: f in so.folds ==> NoLeakage(n, p, spans, f)
    ensures forall f :: f in AddFold(n, p, spans, so, id, ids).folds ==> NoLeakage(n, p, spans, f)
  {
    var added := AddFold(n, p, spans, so, id, ids).folds;
    if added != so.folds {
      var f := added[|so.folds|];
      forall x: nat {
        TrainMembers(n, p, spans, ids, x);
      }
      forall x | x in f.test ensures x < n {
        ConcatInBounds(n, p.nSplits, ids, x);
      }
      assert NoLeakage(n, p, spans, f);
    }
  }

  lemma {:induction false} FoldsDoNotLeak(n: nat, p: Plan, spans: Spans, cs: seq<seq<nat>>)
    requires p.nSplits > 0 && AllChoices(cs, p.nSplits)
    ensures forall f :: f in AddFolds(n, p, spans, cs).folds ==> NoLeakage(n, p, spans, f)
  {
    if cs != [] {
      FoldsDoNotLeak(n, p, spans, cs[..|cs| - 1]);
      AddFoldNoLeakage(n, p, spans, AddFolds(n, p, spans, cs[..|cs| - 1]), |cs| - 1, cs[|cs| - 1]);
    }
  }

  /** No fold that the split yields leaks, whatever the sizes, spans and settings. */
  lemma {:induction false} SplitsDoNotLeak(n: nat, p: Plan, spans: Spans)
    ensures forall f :: f in Splits(n, p, spans).folds ==> NoLeakage(n, p, spans, f)
  {
    if p.nSplits > 0 && p.nTestSplits >= 0 {
      CombinationsInRange(p.nSplits, p.nTestSplits);
      FoldsDoNotLeak(n, p, spans, Combinations(0, p.nSplits, p.nTestSplits));
    }
  }

  // ----- Coverage ------------------------------------------------------------------------------

  lemma {:induction false} AscendingIsAbove(c: seq<nat>, hi: nat, k: nat, i: nat)
    requires IsChoice(c, 0, hi, k) && i < k
    ensures c[i] >= i
  {
    if i > 0 {
      AscendingIsAbove(c, hi, k, i - 1);
    }
  }

  /** A choice of `k` groups misses one of the first k + 1. */
  lemma {:induction false} Missed(c: seq<nat>, hi: nat, k: nat, from: nat) returns (g: nat)
    requires IsChoice(c, 0, hi, k) && from <= k
    requires forall i :: 0 <= i < from ==> c[i] == i
    ensures g <= k && g !in c
    decreases k - from
  {
    if from == k {
      g := k;
    } else if c[from] == from {
      g := Missed(c, hi, k, from + 1);
    } else {
      g := from;
      AscendingIsAbove(c, hi, k, from);
    }
  }

  /** The first `n` groups are the ones that are not empty. */
  lemma {:induction false} EarlyGroup(n: nat, groups: nat, g: nat)
    requires g < n && g < groups
    ensures Cut(n, groups, g) < n && Cut(n, groups, g) in Group(n, groups, g)
  {
    CutsRise(n, groups, g + 1, groups);
    InRange(Cut(n, groups, g), Cut(n, groups, g + 1), Cut(n, groups, g));
  }

  /** With more indices than test groups, every fold has something to train on. */
  lemma {:induction false} RestIsNotEmpty(n: nat, groups: nat, k: nat, c: seq<nat>)
    requires k < n && k < groups && IsChoice(c, 0, groups, k)
    ensures Rest(n, groups, c) != []
  {
    var g := Missed(c, groups, k, 0);
    EarlyGroup(n, groups, g);
    var x := Cut(n, groups, g);
    var h := GroupsPartition(n, groups, x);
    InConcat(n, groups, Others(0, groups, c), x, h);
  }

  lemma SingleCut(n: nat, groups: nat, i: nat)
    requires i <= n < groups
    ensures Cut(n, groups, i) == i
  {
    CutClosedForm(n, groups, i);
    FewerThan(n, groups);
  }

  lemma FewerThan(n: nat, groups: nat)
    requires n < groups
    ensures n / groups == 0 && n % groups == n
  {
  }

  /** With fewer indices than groups, each is a group of its own. */
  lemma {:induction false} SingleGroups(n: nat, groups: nat, x: nat)
    requires x < n < groups
    ensures x in Group(n, groups, x)
  {
    SingleCut(n, groups, x);
    SingleCut(n, groups, x + 1);
    CutsRise(n, groups, x, x + 1);
    InRange(x, x + 1, x);
  }

  /** With no more indices than test groups, the first choice leaves nothing to train on. */
  lemma {:induction false} FirstRestIsEmpty(n: nat, groups: nat, k: nat, c: seq<nat>)
    requires n <= k < groups && IsChoice(c, 0, groups, k)
    requires forall g :: 0 <= g < k ==> g in c
    ensures Rest(n, groups, c) == []
  {
    if Rest(n, groups, c) != [] {
      var x := Rest(n, groups, c)[0];
      OthersAreTheRest(n, groups, c, x);
      SingleGroups(n, groups, x);
      var h := GroupsPartition(n, groups, x);
      InConcat(n, groups, c, x, h);
    }
  }

  function TimesTested(folds: seq<Fold>, x: nat): nat {
    if folds == [] then 0
    else TimesTested(folds[..|folds| - 1], x) + if x in folds[|folds| - 1].test then 1 else 0
  }

  /** Without embargo or purge a choice yields a fold, with the rest to train on. */
  lemma PlainFold(n: nat, p: Plan, spans: Spans, so: Progress, id: nat, ids: seq<nat>)
    requires !NeedsTest(p, spans) && 1 <= p.nTestSplits < p.nSplits && p.nTestSplits < n
    requires IsChoice(ids, 0, p.nSplits, p.nTestSplits) && !so.raised
    ensures AddFold(n, p, spans, so, id, ids) == so.(folds := so.folds + [WholeFold(n, p.nSplits, id, ids)])
  {
    RestIsNotEmpty(n, p.nSplits, p.nTestSplits, ids);
  }

  function WholeFold(n: nat, groups: nat, id: nat, ids: seq<nat>): Fold
    requires groups > 0 && forall i :: 0 <= i < |ids| ==> ids[i] < groups
  {
    Fold(id, Rest(n, groups, ids), Concat(n, groups, ids), ids)
  }

  /** The fold of every choice, in order. */
  function WholeFolds(n: nat, groups: nat, cs: seq<seq<nat>>): (folds: seq<Fold>)
    requires groups > 0 && AllChoices(cs, groups)
    ensures |folds| == |cs|
    ensures forall i :: 0 <= i < |cs| ==> folds[i].id == i && folds[i].testGroups == cs[i]
  {
    if cs == [] then []
    else WholeFolds(n, groups, cs[..|cs| - 1]) + [WholeFold(n, groups, |cs| - 1, cs[|cs| - 1])]
  }

  /** Without embargo or purge no fold is skipped. */
  lemma {:induction false} PlainFolds(n: nat, p: Plan, spans: Spans, cs: seq<seq<nat>>)
    requires !NeedsTest(p, spans) && 1 <= p.nTestSplits < p.nSplits && p.nTestSplits < n
    requires AllChoices(cs, p.nSplits) && forall i :: 0 <= i < |cs| ==> IsChoice(cs[i], 0, p.nSplits, p.nTestSplits)
    ensures AddFolds(n, p, spans, cs) == Progress(WholeFolds(n, p.nSplits, cs), false)
  {
    if cs != [] {
      var early, last := cs[..|cs| - 1], cs[|cs| - 1];
      PlainFolds(n, p, spans, early);
      PlainFold(n, p, spans, AddFolds(n, p, spans, early), |cs| - 1, last);
    }
  }

  /** An index is tested as often as its group is chosen. */
  lemma {:induction false} TestedAsChosen(n: nat, groups: nat, cs: seq<seq<nat>>, x: nat, g: nat)
    requires groups > 0 && AllChoices(cs, groups)
    requires g < groups && forall i :: 0 <= i < groups ==> (x in Group(n, groups, i) <==> i == g)
    ensures TimesTested(WholeFolds(n, groups, cs), x) == Containing(cs, g)
  {
    if cs != [] {
      var early, last := cs[..|cs| - 1], cs[|cs| - 1];
      TestedAsChosen(n, groups, early, x, g);
      InConcat(n, groups, last, x, g);
      ContainingSnoc(cs, g);
    }
  }

  lemma ContainingSnoc(cs: seq<seq<nat>>, g: nat)
    requires cs != []
    ensures g in cs[|cs| - 1] ==> Containing(cs, g) == Containing(cs[..|cs| - 1], g) + 1
    ensures g !in cs[|cs| - 1] ==> Containing(cs, g) == Containing(cs[..|cs| - 1], g)
  {
    assert cs == cs[..|cs| - 1] + [cs[|cs| - 1]];
    ContainingAppend(cs[..|cs| - 1], [cs[|cs| - 1]], g);
  }

  lemma {:induction false} PlainSplit(n: nat, p: Plan, spans: Spans, cs: seq<seq<nat>>)
    requires !NeedsTest(p, spans) && 1 <= p.nTestSplits < p.nSplits && p.nTestSplits < n
    requires AllChoices(cs, p.nSplits) && AreTheChoices(cs, p.nSplits, p.nTestSplits)
    ensures AddFolds(n, p, spans, cs) == Progress(WholeFolds(n, p.nSplits, cs), false)
  {
    forall i | 0 <= i < |cs| ensures IsChoice(cs[i], 0, p.nSplits, p.nTestSplits) {
      assert cs[i] in cs;
    }
    PlainFolds(n, p, spans, cs);
  }

  lemma EvenSplit(n: nat, p: Plan, spans: Spans, cs: seq<seq<nat>>, x: nat, times: nat)
    requires !NeedsTest(p, spans) && 1 <= p.nTestSplits < p.nSplits && p.nTestSplits < n && x < n
    requires AllChoices(cs, p.nSplits) && AreTheChoices(cs, p.nSplits, p.nTestSplits)
    requires Evenly(cs, p.nSplits, times)
    ensures TimesTested(AddFolds(n, p, spans, cs).folds, x) == times
  {
    PlainSplit(n, p, spans, cs);
    var g := GroupsPartition(n, p.nSplits, x);
    TestedAsChosen(n, p.nSplits, cs, x, g);
  }

  /** Each index is tested in the same number of folds. */
  lemma {:induction false} CoverageIsEven(n: nat, p: Plan, spans: Spans, x: nat)
    requires !NeedsTest(p, spans) && 1 <= p.nTestSplits < p.nSplits && p.nTestSplits < n
    requires x < n
    ensures TimesTested(Splits(n, p, spans).folds, x) == Choose(p.nSplits - 1, p.nTestSplits - 1)
  {
    var cs := Combinations(0, p.nSplits, p.nTestSplits);
    CombinationsInRange(p.nSplits, p.nTestSplits);
    ChoicesAreEven(p.nSplits, p.nTestSplits);
    EvenSplit(n, p, spans, cs, x, Choose(p.nSplits - 1, p.nTestSplits - 1));
  }

  // ----- How many folds are yielded ------------------------------------------------------------

  predicate Yields(n: nat, p: Plan, spans: Spans, ids: seq<nat>)
    requires p.nSplits > 0 && forall i :: 0 <= i < |ids| ==> ids[i] < p.nSplits
  {
    !Raises(n, p, spans, ids) && Train(n, p, spans, ids) != []
  }

  ghost predicate AllYield(n: nat, p: Plan, spans: Spans, cs: seq<seq<nat>>)
    requires p.nSplits > 0 && AllChoices(cs, p.nSplits)
  {
    forall i :: 0 <= i < |cs| ==> Yields(n, p, spans, cs[i])
  }

  lemma AllYieldSnoc(n: nat, p: Plan, spans: Spans, cs: seq<seq<nat>>)
    requires p.nSplits > 0 && AllChoices(cs, p.nSplits) && cs != []
    ensures AllChoices(cs[..|cs| - 1], p.nSplits)
    ensures AllYield(n, p, spans, cs) <==>
            AllYield(n, p, spans, cs[..|cs| - 1]) && Yields(n, p, spans, cs[|cs| - 1])
  {
    assert forall i :: 0 <= i < |cs| - 1 ==> cs[..|cs| - 1][i] == cs[i];
  }

  /** All choices have folds exactly when each yields one. */
  lemma {:induction false} AllYieldedIff(n: nat, p: Plan, spans: Spans, cs: seq<seq<nat>>)
    requires p.nSplits > 0 && AllChoices(cs, p.nSplits)
    ensures |AddFolds(n, p, spans, cs).folds| <= |cs|
    ensures |AddFolds(n, p, spans, cs).folds| == |cs| <==> AllYield(n, p, spans, cs)
    ensures AllYield(n, p, spans, cs) ==> !AddFolds(n, p, spans, cs).raised
  {
    if cs != [] {
      var k := |cs| - 1;
      AllYieldSnoc(n, p, spans, cs);
      AllYieldedIff(n, p, spans, cs[..k]);
    }
  }

  /** All the folds that `n_folds` announces are yielded. */
  ghost predicate Complete(n: nat, p: Plan, spans: Spans)
    requires 0 <= p.nTestSplits <= p.nSplits
  {
    |Splits(n, p, spans).folds| == Choose(p.nSplits, p.nTestSplits)
  }

  ghost predicate EveryChoiceYields(n: nat, p: Plan, spans: Spans)
    requires p.nSplits > 0 && p.nTestSplits >= 0
  {
    forall c :: IsChoice(c, 0, p.nSplits, p.nTestSplits) ==> Yields(n, p, spans, c)
  }

  lemma {:induction false} ChoicesOf(n: nat, p: Plan, spans: Spans) returns (cs: seq<seq<nat>>)
    requires 0 <= p.nTestSplits < p.nSplits
    ensures AllChoices(cs, p.nSplits) && AreTheChoices(cs, p.nSplits, p.nTestSplits)
    ensures Splits(n, p, spans) == AddFolds(n, p, spans, cs)
    ensures |cs| == Choose(p.nSplits, p.nTestSplits)
  {
    cs := Combinations(0, p.nSplits, p.nTestSplits);
    CombinationsInRange(p.nSplits, p.nTestSplits);
    CombinationCount(0, p.nSplits, p.nTestSplits);
  }

  lemma {:induction false} CompleteIff(n: nat, p: Plan, spans: Spans)
    requires 0 <= p.nTestSplits < p.nSplits
    ensures Complete(n, p, spans) <==> EveryChoiceYields(n, p, spans)
    ensures Complete(n, p, spans) ==> !Splits(n, p, spans).raised
  {
    var cs := ChoicesOf(n, p, spans);
    AllYieldedIff(n, p, spans, cs);
  }

  lemma YieldsIff(n: nat, p: Plan, spans: Spans, ids: seq<nat>)
    requires p.nSplits > 0 && forall i :: 0 <= i < |ids| ==> ids[i] < p.nSplits
    requires !Raises(n, p, spans, ids)
    ensures Yields(n, p, spans, ids) <==> exists x: nat :: Trainable(n, p, spans, ids, x)
  {
    forall x: nat {
      TrainMembers(n, p, spans, ids, x);
    }
    HeadIsMember(Train(n, p, spans, ids));
  }

  /** Without embargo or purge the split is complete exactly when there are more indices than test groups. */
  lemma {:induction false} PlainCompleteIff(n: nat, p: Plan, spans: Spans)
    requires !NeedsTest(p, spans) && 1 <= p.nTestSplits < p.nSplits
    ensures Complete(n, p, spans) <==> n > p.nTestSplits
  {
    CompleteIff(n, p, spans);
    if n > p.nTestSplits {
      forall c | IsChoice(c, 0, p.nSplits, p.nTestSplits) ensures Yields(n, p, spans, c) {
        RestIsNotEmpty(n, p.nSplits, p.nTestSplits, c);
      }
    } else {
      var first := FirstChoice(p.nSplits, p.nTestSplits);
      FirstRestIsEmpty(n, p.nSplits, p.nTestSplits, first);
      assert !Yields(n, p, spans, first);
    }
  }

  lemma FirstChoice(hi: nat, k: nat) returns (c: seq<nat>)
    requires k <= hi
    ensures IsChoice(c, 0, hi, k) && forall g :: 0 <= g < k ==> g in c
  {
    c := Range(0, k);
    forall g | 0 <= g < k ensures g in c {
      InRange(0, k, g);
    }
  }

  /** A choice that holds the first group and a given one. */
  lemma {:induction false} ChoiceThrough(hi: nat, k: nat, last: nat) returns (c: seq<nat>)
    requires 2 <= k < hi && last < hi
    ensures IsChoice(c, 0, hi, k) && 0 in c && last in c
  {
    if last < k {
      c := FirstChoice(hi, k);
    } else {
      var first := FirstChoice(k - 1, k - 1);
      c := first + [last];
      assert 0 in first;
    }
  }

  lemma {:induction false} SpansAll(n: nat, groups: nat, k: nat) returns (c: seq<nat>)
    requires 2 <= k < groups && n > 0
    ensures IsChoice(c, 0, groups, k) && 0 in Concat(n, groups, c) && n - 1 in Concat(n, groups, c)
  {
    var first := GroupsPartition(n, groups, 0);
    var last := GroupsPartition(n, groups, n - 1);
    EarlyGroup(n, groups, 0);
    c := ChoiceThrough(groups, k, last);
    InConcat(n, groups, c, 0, first);
    InConcat(n, groups, c, n - 1, last);
  }

  /** Every sample's label depends on some index of the data. */
  ghost predicate SpansMeetData(n: nat, spans: Spans) {
    spans.Some? ==> |spans.value| >= n && forall x :: 0 <= x < n ==> spans.value[x].1 >= 0 && spans.value[x].0 < n
  }

  /** Between the first and the last index the embargo, or the purge, leaves nothing to train on. */
  lemma {:induction false} SpanningChoiceIsSkipped(n: nat, p: Plan, spans: Spans, ids: seq<nat>)
    requires p.nSplits > 0 && forall i :: 0 <= i < |ids| ==> ids[i] < p.nSplits
    requires n > 0 && 0 in Concat(n, p.nSplits, ids) && n - 1 in Concat(n, p.nSplits, ids)
    requires p.embargoBars > 0 || (p.purge && spans.Some? && SpansMeetData(n, spans))
    ensures !Yields(n, p, spans, ids)
  {
    if !Raises(n, p, spans, ids) {
      YieldsIff(n, p, spans, ids);
    }
  }

  lemma NothingToTest(n: nat, groups: nat, ids: seq<nat>)
    requires n == 0 && groups > 0 && forall i :: 0 <= i < |ids| ==> ids[i] < groups
    ensures Concat(n, groups, ids) == []
  {
    var test := Concat(n, groups, ids);
    HeadIsMember(test);
    forall x | x in test ensures false {
      ConcatInBounds(n, groups, ids, x);
    }
  }

  /** With an embargo and two or more test groups the split is never complete, whatever the data. */
  lemma {:induction false} EmbargoedSplitFallsShort(n: nat, p: Plan, spans: Spans)
    requires p.embargoBars > 0 && 2 <= p.nTestSplits < p.nSplits
    ensures !Complete(n, p, spans)
  {
    SpannedSplitFallsShort(n, p, spans);
  }

  lemma {:induction false} SpannedSplitFallsShort(n: nat, p: Plan, spans: Spans)
    requires 2 <= p.nTestSplits < p.nSplits
    requires p.embargoBars > 0 || (p.purge && spans.Some? && SpansMeetData(n, spans))
    ensures !Complete(n, p, spans)
  {
    CompleteIff(n, p, spans);
    if n == 0 {
      var c := FirstChoice(p.nSplits, p.nTestSplits);
      NothingToTest(n, p.nSplits, c);
      assert !Yields(n, p, spans, c);
    } else {
      var c := SpansAll(n, p.nSplits, p.nTestSplits);
      SpanningChoiceIsSkipped(n, p, spans, c);
    }
  }

  /**
   With two or more test groups, and labels that depend on the data, the split is complete exactly
   without embargo and purge and with more indices than test groups.
   */
  lemma {:induction false} EveryFoldYieldedIff(n: nat, p: Plan, spans: Spans)
    requires 2 <= p.nTestSplits < p.nSplits && SpansMeetData(n, spans)
    ensures Complete(n, p, spans) <==> !NeedsTest(p, spans) && n > p.nTestSplits
  {
    if NeedsTest(p, spans) {
      SpannedSplitFallsShort(n, p, spans);
    } else {
      PlainCompleteIff(n, p, spans);
    }
  }

  // ----- One test group ------------------------------------------------------------------------

  /**
   Some index lies outside the group, beyond the embargo on either side, and has a label that ends before it
   or begins after it.
   */
  ghost predicate Escapes(n: nat, p: Plan, spans: Spans, lo: int, hi: int) {
    && (NeedsTest(p, spans) ==> lo < hi)
    && exists x: nat :: x < n && Clear(p, spans, lo, hi, x)
  }

  predicate Clear(p: Plan, spans: Spans, lo: int, hi: int, x: nat) {
    && (x < lo || hi <= x)
    && (p.embargoBars > 0 ==> x < lo - p.embargoBars || hi + p.embargoBars <= x)
    && (p.purge && spans.Some? && x < |spans.value| ==> spans.value[x].1 < lo || hi <= spans.value[x].0)
  }

  lemma InOneGroup(n: nat, groups: nat, g: nat, x: nat)
    requires g < groups
    ensures Cut(n, groups, g) <= Cut(n, groups, g + 1) <= n
    ensures x in Concat(n, groups, [g]) <==> Cut(n, groups, g) <= x < Cut(n, groups, g + 1)
  {
    CutsRise(n, groups, g, g + 1);
    CutsRise(n, groups, g + 1, groups);
    assert Concat(n, groups, [g]) == Group(n, groups, g) + Concat(n, groups, []);
    InRange(Cut(n, groups, g), Cut(n, groups, g + 1), x);
  }

  lemma OneGroupExtremes(n: nat, groups: nat, g: nat)
    requires g < groups && Cut(n, groups, g) < Cut(n, groups, g + 1)
    ensures var test := Concat(n, groups, [g]);
            test != [] && Lowest(test) == Cut(n, groups, g) && Highest(test) == Cut(n, groups, g + 1) - 1
  {
    var test := Concat(n, groups, [g]);
    InOneGroup(n, groups, g, Cut(n, groups, g));
    InOneGroup(n, groups, g, Cut(n, groups, g + 1) - 1);
    InOneGroup(n, groups, g, Lowest(test));
    InOneGroup(n, groups, g, Highest(test));
  }

  lemma {:induction false} OneGroupYieldsIff(n: nat, p: Plan, spans: Spans, g: nat)
    requires p.nSplits > g
    ensures Yields(n, p, spans, [g]) <==> Escapes(n, p, spans, Cut(n, p.nSplits, g), Cut(n, p.nSplits, g + 1))
  {
    var lo, hi := Cut(n, p.nSplits, g), Cut(n, p.nSplits, g + 1);
    InOneGroup(n, p.nSplits, g, lo);
    if NeedsTest(p, spans) {
      if lo < hi {
        OneGroupExtremes(n, p.nSplits, g);
      } else {
        EmptyGroup(n, p.nSplits, g);
      }
    }
    if !Raises(n, p, spans, [g]) {
      YieldsIff(n, p, spans, [g]);
      forall x: nat ensures Trainable(n, p, spans, [g], x) <==> x < n && Clear(p, spans, lo, hi, x) {
        InOneGroup(n, p.nSplits, g, x);
      }
    }
  }

  lemma EmptyGroup(n: nat, groups: nat, g: nat)
    requires g < groups && Cut(n, groups, g) == Cut(n, groups, g + 1)
    ensures Concat(n, groups, [g]) == []
  {
    assert Concat(n, groups, [g]) == Group(n, groups, g) + Concat(n, groups, []);
  }

  ghost predicate GroupEscapes(n: nat, p: Plan, spans: Spans, g: nat)
    requires g < p.nSplits
  {
    Escapes(n, p, spans, Cut(n, p.nSplits, g), Cut(n, p.nSplits, g + 1))
  }

  lemma {:induction false} EverySingleYieldsIff(n: nat, p: Plan, spans: Spans)
    requires p.nTestSplits == 1 < p.nSplits
    ensures EveryChoiceYields(n, p, spans) <==> forall g :: 0 <= g < p.nSplits ==> GroupEscapes(n, p, spans, g)
  {
    forall g | 0 <= g < p.nSplits ensures GroupEscapes(n, p, spans, g) <==> Yields(n, p, spans, [g]) {
      OneGroupYieldsIff(n, p, spans, g);
    }
    if forall g :: 0 <= g < p.nSplits ==> GroupEscapes(n, p, spans, g) {
      forall c | IsChoice(c, 0, p.nSplits, 1) ensures Yields(n, p, spans, c) {
        assert c == [c[0]] && GroupEscapes(n, p, spans, c[0]);
      }
    }
  }

  /** With one test group the split is complete exactly when every group leaves some index to train on. */
  lemma {:induction false} OneTestGroupIff(n: nat, p: Plan, spans: Spans)
    requires p.nTestSplits == 1 < p.nSplits
    ensures Complete(n, p, spans) <==> forall g :: 0 <= g < p.nSplits ==> GroupEscapes(n, p, spans, g)
  {
    CompleteIff(n, p, spans);
    EverySingleYieldsIff(n, p, spans);
  }

  /** The group has members, and more indices before it or after it than the embargo takes. */
  predicate ClearsEmbargo(n: nat, p: Plan, g: nat)
    requires g < p.nSplits
  {
    && Cut(n, p.nSplits, g) < Cut(n, p.nSplits, g + 1)
    && (Cut(n, p.nSplits, g) > p.embargoBars || n - Cut(n, p.nSplits, g + 1) > p.embargoBars)
  }

  /** With an embargo and no purge it is a matter of the group bounds alone. */
  lemma {:induction false} OneEmbargoedGroupIff(n: nat, p: Plan, spans: Spans)
    requires p.nTestSplits == 1 < p.nSplits && p.embargoBars > 0 && !(p.purge && spans.Some?)
    ensures Complete(n, p, spans) <==> forall g :: 0 <= g < p.nSplits ==> ClearsEmbargo(n, p, g)
  {
    OneTestGroupIff(n, p, spans);
    forall g | 0 <= g < p.nSplits ensures GroupEscapes(n, p, spans, g) <==> ClearsEmbargo(n, p, g) {
      InOneGroup(n, p.nSplits, g, 0);
      EndsEscape(n, p, spans, Cut(n, p.nSplits, g), Cut(n, p.nSplits, g + 1));
    }
  }

  lemma EndsEscape(n: nat, p: Plan, spans: Spans, lo: nat, hi: nat)
    requires lo <= hi <= n && p.embargoBars > 0 && !(p.purge && spans.Some?)
    ensures Escapes(n, p, spans, lo, hi) <==> lo < hi && (lo > p.embargoBars || n - hi > p.embargoBars)
  {
    if lo > p.embargoBars {
      assert Clear(p, spans, lo, hi, 0);
    }
    if n - hi > p.embargoBars {
      assert Clear(p, spans, lo, hi, n - 1);
    }
  }
}

/** The weighted choice of a primary, and how fair it is. */
module Proposers {
  import opened Collections
  import opened Quality
  import opened Ledger

  const SEEDS: nat := 0x1_0000_0000_0000_0000

  function WeightOf(node: NodeInfo, stakes: map<Address, real>, reputations: map<Address, real>): real {
    var stake := if node.nodeId in stakes then stakes[node.nodeId] else 0.0;
    var reputation := if node.nodeId in reputations then reputations[node.nodeId] else 0.0;
    stake * (1.0 + Max0(reputation))
  }

  function Weights(nodes: seq<NodeInfo>, stakes: map<Address, real>, reputations: map<Address, real>): (r: seq<real>)
    ensures |r| == |nodes|
  {
    seq(|nodes|, i requires 0 <= i < |nodes| => WeightOf(nodes[i], stakes, reputations))
  }

  /** A 64-bit seed scaled to the total weight. */
  function Roll(seed: nat, total: real): real {
    seed as real / SEEDS as real * total
  }

  /** The running total before the i-th node. */
  function Before(weights: seq<real>, i: nat): real
    requires i <= |weights|
  {
    Sum(weights[..i])
  }

  lemma BeforeStep(weights: seq<real>, i: nat)
    requires i < |weights|
    ensures Before(weights, i + 1) == Before(weights, i) + weights[i]
    ensures Before(weights, 0) == 0.0 && Before(weights, |weights|) == Sum(weights)
  {
    assert weights[..i + 1][..i] == weights[..i];
    assert weights[..|weights|] == weights;
  }

  /** The first position at or after i whose running total exceeds the roll; the last position when
      there is none. */
  function Chosen(weights: seq<real>, roll: real, i: nat): (r: nat)
    requires i < |weights|
    ensures i <= r < |weights|
    ensures forall j :: i < j <= r ==> Before(weights, j) <= roll
    ensures r < |weights| - 1 ==> roll < Before(weights, r + 1)
    decreases |weights| - i
  {
    if roll < Before(weights, i + 1) || i == |weights| - 1 then i else Chosen(weights, roll, i + 1)
  }

  /** The primary: by weight, or in turn by view number when all weight is zero. */
  function Proposer(nodes: seq<NodeInfo>, stakes: map<Address, real>, reputations: map<Address, real>,
                    seed: nat, view: int): Option<Address>
  {
    if nodes == [] then None else
    var weights := Weights(nodes, stakes, reputations);
    var total := Sum(weights);
    Some(nodes[if total == 0.0 then view % |nodes| else Chosen(weights, Roll(seed, total), 0)].nodeId)
  }

  /** `seedOf` gives the first eight bytes of the digest of the previous block's hash and the view. */
  method SelectProposer(nodes: seq<NodeInfo>, stakes: map<Address, real>, reputations: map<Address, real>,
                        seedOf: (string, int) -> nat, prevBlockHash: string, view: int)
    returns (r: Option<Address>)
    ensures r == Proposer(nodes, stakes, reputations, seedOf(prevBlockHash, view), view)
  {
    hide WeightOf, Chosen, Before, Sum;
    if nodes == [] { return None; }
    var weights: seq<real> := [];
    var ids: seq<Address> := [];
    for i := 0 to |nodes|
      invariant weights == Weights(nodes[..i], stakes, reputations)
      invariant |ids| == i && forall j :: 0 <= j < i ==> ids[j] == nodes[j].nodeId
    {
      weights := weights + [WeightOf(nodes[i], stakes, reputations)];
      ids := ids + [nodes[i].nodeId];
    }
    assert nodes[..|nodes|] == nodes;
    var total := Sum(weights);
    if total == 0.0 { return Some(ids[view % |ids|]); }
    var roll := Roll(seedOf(prevBlockHash, view), total);
    var cumulative := 0.0;
    BeforeStep(weights, 0);
    for i := 0 to |ids|
      invariant cumulative == Before(weights, i)
      invariant i < |ids| ==> Chosen(weights, roll, i) == Chosen(weights, roll, 0)
      invariant i == |ids| ==> Chosen(weights, roll, 0) == |ids| - 1
    {
      BeforeStep(weights, i);
      ChosenStep(weights, roll, i);
      cumulative := cumulative + weights[i];
      if roll < cumulative { return Some(ids[i]); }
    }
    r := Some(ids[|ids| - 1]);
  }

  lemma ChosenStep(weights: seq<real>, roll: real, i: nat)
    requires i < |weights|
    ensures roll < Before(weights, i + 1) ==> Chosen(weights, roll, i) == i
    ensures roll >= Before(weights, i + 1) && i < |weights| - 1 ==> Chosen(weights, roll, i) == Chosen(weights, roll, i + 1)
    ensures i == |weights| - 1 ==> Chosen(weights, roll, i) == i
  {}

  // Proportionality

  lemma {:induction false} TotalsGrow(weights: seq<real>, i: nat, j: nat)
    requires NonNegativeVector(weights) && i <= j <= |weights|
    ensures Before(weights, i) <= Before(weights, j)
    decreases j
  {
    hide Before;
    if i < j {
      TotalsGrow(weights, i, j - 1);
      BeforeStep(weights, j - 1);
    }
  }

  lemma RollBelowTotal(seed: nat, total: real)
    requires seed < SEEDS && total > 0.0
    ensures 0.0 <= Roll(seed, total) < total
  {
    var x := seed as real / SEEDS as real;
    assert 0.0 <= x < 1.0;
    assert 0.0 <= x * total < total;
  }

  /** With non-negative weights that are not all zero, the chosen position is the only one whose
      interval of running totals holds the roll: its weight is positive and the last line of the
      loop is never the reason for the choice. */
  lemma ChosenByInterval(weights: seq<real>, seed: nat, i: nat)
    requires weights != [] && NonNegativeVector(weights) && Sum(weights) > 0.0 && seed < SEEDS && i < |weights|
    ensures var roll := Roll(seed, Sum(weights));
            && (Chosen(weights, roll, 0) == i <==> Before(weights, i) <= roll < Before(weights, i + 1))
            && (Chosen(weights, roll, 0) == i ==> weights[i] > 0.0)
  {
    hide Chosen, Roll, Before;
    var roll := Roll(seed, Sum(weights));
    RollBelowTotal(seed, Sum(weights));
    BeforeStep(weights, i);
    var r := Chosen(weights, roll, 0);
    if r > 0 {
      assert Before(weights, r) <= roll;
    }
    if i < r {
      TotalsGrow(weights, i + 1, r);
    } else if r < i {
      TotalsGrow(weights, r + 1, i);
    }
  }

  function Ceil(x: real): int {
    -((-x).Floor)
  }

  lemma CeilBounds(x: real, s: int)
    ensures x <= Ceil(x) as real < x + 1.0
    ensures x <= s as real <==> Ceil(x) <= s
  {}

  ghost function Range(lo: nat, hi: nat): (r: set<nat>)
    requires lo <= hi
    ensures forall s: nat :: s in r <==> lo <= s < hi
    ensures |r| == hi - lo
    decreases hi
  {
    if lo == hi then {} else Range(lo, hi - 1) + {hi - 1}
  }

  /** Comparing the roll with a running total is comparing the seed with a bound. */
  lemma RollBound(seed: nat, total: real, x: real)
    requires total > 0.0
    ensures x <= Roll(seed, total) <==> x * SEEDS as real / total <= seed as real
  {
    var m := SEEDS as real;
    var s := seed as real;
    var roll := Roll(seed, total);
    var bound := x * m / total;
    assert roll * m == s * total by {
      var q := s / m;
      assert q * m == s;
    }
    assert bound * total == x * m;
    ScaleBoth(x, roll, m);
    ScaleBoth(bound, s, total);
  }

  lemma ScaleBoth(x: real, y: real, k: real)
    requires k > 0.0
    ensures x <= y <==> x * k <= y * k
  {}

  /** The 64-bit seeds that choose a position. */
  ghost function SeedsOf(weights: seq<real>, i: nat): set<nat>
    requires weights != []
  {
    set s: nat | s < SEEDS && Chosen(weights, Roll(s, Sum(weights)), 0) == i
  }

  /** A running total, measured in seeds. */
  function Bound(weights: seq<real>, i: nat): real
    requires i <= |weights| && Sum(weights) > 0.0
  {
    Before(weights, i) * SEEDS as real / Sum(weights)
  }

  lemma SeedChooses(weights: seq<real>, i: nat, s: nat)
    requires weights != [] && NonNegativeVector(weights) && Sum(weights) > 0.0 && i < |weights| && s < SEEDS
    ensures s in SeedsOf(weights, i) <==> Ceil(Bound(weights, i)) <= s < Ceil(Bound(weights, i + 1))
  {
    hide Chosen, Roll, Ceil, NonNegativeVector, Before, Sum;
    ChosenByInterval(weights, s, i);
    RollBound(s, Sum(weights), Before(weights, i));
    RollBound(s, Sum(weights), Before(weights, i + 1));
    CeilBounds(Bound(weights, i), s);
    CeilBounds(Bound(weights, i + 1), s);
  }

  lemma BoundsSpan(weights: seq<real>, i: nat)
    requires NonNegativeVector(weights) && Sum(weights) > 0.0 && i < |weights|
    ensures 0.0 <= Bound(weights, i) <= Bound(weights, i + 1) <= SEEDS as real
    ensures Bound(weights, i + 1) - Bound(weights, i) == SEEDS as real * weights[i] / Sum(weights)
  {
    hide Sum, NonNegativeVector, Before;
    BeforeStep(weights, i);
    TotalsGrow(weights, 0, i);
    TotalsGrow(weights, i, i + 1);
    TotalsGrow(weights, i + 1, |weights|);
    BoundsInRange(Before(weights, i), Before(weights, i + 1), weights[i], Sum(weights));
  }

  lemma CeilSpan(x: real, y: real, m: nat)
    requires 0.0 <= x <= y <= m as real
    ensures 0 <= Ceil(x) <= Ceil(y) <= m
    ensures -1.0 < (Ceil(y) - Ceil(x)) as real - (y - x) < 1.0
  {}

  /** Among all seeds, a node is chosen in proportion to its weight, to within less than one seed. */
  lemma ChoiceProportional(weights: seq<real>, i: nat)
    requires weights != [] && NonNegativeVector(weights) && Sum(weights) > 0.0 && i < |weights|
    ensures -1.0 < |SeedsOf(weights, i)| as real - SEEDS as real * weights[i] / Sum(weights) < 1.0
  {
    hide Chosen, Sum, Ceil, NonNegativeVector, Bound, Roll;
    var x, y := Bound(weights, i), Bound(weights, i + 1);
    BoundsSpan(weights, i);
    CeilSpan(x, y, SEEDS);
    forall s: nat | s < SEEDS ensures s in SeedsOf(weights, i) <==> Ceil(x) <= s < Ceil(y) {
      SeedChooses(weights, i, s);
    }
    assert SeedsOf(weights, i) == Range(Ceil(x), Ceil(y));
  }

  lemma BoundsInRange(a: real, b: real, w: real, total: real)
    requires 0.0 <= a <= b <= total && total > 0.0 && b == a + w
    ensures var m := SEEDS as real;
            && 0.0 <= a * m / total <= b * m / total <= m
            && b * m / total - a * m / total == m * w / total
  {
    var m := SEEDS as real;
    QuotientsOrdered(0.0, a * m, total);
    QuotientsOrdered(a * m, b * m, total);
    QuotientsOrdered(b * m, m * total, total);
    QuotientsDiffer(a * m, b * m, m * w, total);
    WholeQuotient(m, total);
    assert 0.0 / total == 0.0;
  }

  lemma QuotientsOrdered(p: real, q: real, d: real)
    requires p <= q && d > 0.0
    ensures p / d <= q / d
  {
    var x, y := p / d, q / d;
    assert x * d == p && y * d == q;
    ScaleBoth(x, y, d);
  }

  lemma QuotientsDiffer(p: real, q: real, r: real, d: real)
    requires q - p == r && d > 0.0
    ensures q / d - p / d == r / d
  {
    var x, y, z := p / d, q / d, r / d;
    assert x * d == p && y * d == q && z * d == r;
    ScaleBoth(y - x, z, d);
    ScaleBoth(z, y - x, d);
  }

  lemma WholeQuotient(m: real, d: real)
    requires d > 0.0
    ensures m * d / d == m
  {
    var x := m * d / d;
    assert x * d == m * d;
    ScaleBoth(x, m, d);
    ScaleBoth(m, x, d);
  }

  /** Stakes that are not negative give weights that are not negative, positive just for the staked. */
  lemma WeightsOfStakes(nodes: seq<NodeInfo>, stakes: map<Address, real>, reputations: map<Address, real>)
    requires forall a :: a in stakes ==> stakes[a] >= 0.0
    ensures var w := Weights(nodes, stakes, reputations);
            NonNegativeVector(w) && forall i :: 0 <= i < |nodes| ==> (w[i] > 0.0 <==> Amount(stakes, nodes[i].nodeId) > 0.0)
  {
    forall i | 0 <= i < |nodes|
      ensures var w := WeightOf(nodes[i], stakes, reputations);
              w >= 0.0 && (w > 0.0 <==> Amount(stakes, nodes[i].nodeId) > 0.0)
    {
      var node := nodes[i].nodeId;
      var factor := 1.0 + Max0(if node in reputations then reputations[node] else 0.0);
      assert factor >= 1.0;
    }
  }

  /** As soon as anyone has a stake, the primary is a node with a stake. */
  lemma PrimaryIsStaked(nodes: seq<NodeInfo>, stakes: map<Address, real>, reputations: map<Address, real>, seed: nat, view: int)
    requires nodes != [] && seed < SEEDS && forall a :: a in stakes ==> stakes[a] >= 0.0
    requires Sum(Weights(nodes, stakes, reputations)) > 0.0
    ensures exists i :: 0 <= i < |nodes| && Proposer(nodes, stakes, reputations, seed, view) == Some(nodes[i].nodeId)
              && Amount(stakes, nodes[i].nodeId) > 0.0
  {
    hide Weights, Sum, Chosen, Roll, Amount, NonNegativeVector;
    var w := Weights(nodes, stakes, reputations);
    var i := Chosen(w, Roll(seed, Sum(w)), 0);
    WeightsOfStakes(nodes, stakes, reputations);
    ChosenByInterval(w, seed, i);
  }

  /** The primary after a view change; the view it started from plays no part. */
  method ProposerForView(nodes: seq<NodeInfo>, stakes: map<Address, real>, reputations: map<Address, real>,
                         seedOf: (string, int) -> nat, prevBlockHash: string, baseView: int, view: int)
    returns (r: Option<Address>)
    ensures r == Proposer(nodes, stakes, reputations, seedOf(prevBlockHash, view), view)
  {
    r := SelectProposer(nodes, stakes, reputations, seedOf, prevBlockHash, view);
  }

  /** A node leads a view exactly when its interval holds that view's roll, whoever failed before. */
  lemma LeadsViewExactly(nodes: seq<NodeInfo>, stakes: map<Address, real>, reputations: map<Address, real>,
                         seed: nat, view: int, i: nat)
    requires i < |nodes| && seed < SEEDS && forall j, k :: 0 <= j < k < |nodes| ==> nodes[j].nodeId != nodes[k].nodeId
    requires NonNegativeVector(Weights(nodes, stakes, reputations)) && Sum(Weights(nodes, stakes, reputations)) > 0.0
    ensures var w := Weights(nodes, stakes, reputations);
            Proposer(nodes, stakes, reputations, seed, view) == Some(nodes[i].nodeId)
            <==> Before(w, i) <= Roll(seed, Sum(w)) < Before(w, i + 1)
  {
    hide Weights, Sum, Chosen, Roll, NonNegativeVector, Before;
    var w := Weights(nodes, stakes, reputations);
    ChosenByInterval(w, seed, i);
    var r := Chosen(w, Roll(seed, Sum(w)), 0);
    assert r < i || i < r || r == i;
  }

  /** A failed primary is not passed over: with the right digests one of two staked nodes leads every view. */
  lemma FailedPrimaryReturns(a: NodeInfo, b: NodeInfo, prevBlockHash: string, view: int)
    returns (stakes: map<Address, real>, seedOf: (string, int) -> nat)
    requires a.nodeId != b.nodeId
    ensures Amount(stakes, a.nodeId) > 0.0 && Amount(stakes, b.nodeId) > 0.0
    ensures Proposer([a, b], stakes, map[], seedOf(prevBlockHash, view), view) == Some(a.nodeId)
    ensures Proposer([a, b], stakes, map[], seedOf(prevBlockHash, view + 1), view + 1) == Some(a.nodeId)
  {
    hide Chosen, Sum, Proposer, Before;
    stakes := map[a.nodeId := 1.0, b.nodeId := 1.0];
    seedOf := (_, _) => 0;
    var w := Weights([a, b], stakes, map[]);
    assert w == [1.0, 1.0];
    BeforeStep(w, 0);
    BeforeStep(w, 1);
    assert Roll(0, Sum(w)) == 0.0;
    LeadsViewExactly([a, b], stakes, map[], 0, view, 0);
    LeadsViewExactly([a, b], stakes, map[], 0, view + 1, 0);
  }

  // What a weight is

  /** A weight is the stake, raised by its own multiple for a reputation above zero: of equal stakes the better
      reputation weighs more, in the proportion of one plus the reputations; below zero it counts as zero. */
  lemma WeightExactly(node: NodeInfo, stakes: map<Address, real>, reputations: map<Address, real>)
    ensures var stake, reputation := Amount(stakes, node.nodeId), Amount(reputations, node.nodeId);
            WeightOf(node, stakes, reputations) == if reputation > 0.0 then stake + stake * reputation else stake
  {}

  /** Without any weight the nodes take turns: in any n views in a row each of n nodes leads once. */
  lemma TakingTurns(nodes: seq<NodeInfo>, stakes: map<Address, real>, reputations: map<Address, real>, from: int, i: nat)
    returns (view: int)
    requires i < |nodes| && Sum(Weights(nodes, stakes, reputations)) == 0.0
    ensures from <= view < from + |nodes|
    ensures forall seed: nat :: Proposer(nodes, stakes, reputations, seed, view) == Some(nodes[i].nodeId)
  {
    hide Weights, Sum;
    var n := |nodes|;
    view := from + (i - from) % n;
    RemainderBack(from, i, n);
  }

  lemma RemainderBack(from: int, i: int, n: int)
    requires 0 <= i < n
    ensures (from + (i - from) % n) % n == i
  {
    var q, r := (i - from) / n, (i - from) % n;
    assert i - from == q * n + r;
    var x := from + r;
    assert x == i - q * n;
    MultipleOff(i, q, n);
  }

  lemma MultipleOff(i: int, q: int, n: int)
    requires 0 <= i < n
    ensures (i - q * n) % n == i
  {
    var y := i - q * n;
    var d, m := y / n, y % n;
    assert y == d * n + m && 0 <= m < n;
    assert (d + q) * n == i - m;
    Multiples(d + q, n);
  }

  lemma Multiples(k: int, n: int)
    requires n > 0
    ensures k >= 1 ==> k * n >= n
    ensures k <= -1 ==> k * n <= -n
  {}
}

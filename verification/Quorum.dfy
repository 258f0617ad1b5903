/** Electing the committee for one inference request, and when its size is safe. */
module Quorums {
  import opened Collections
  import opened Constants
  import opened Ledger
  import opened Sorting
  import opened QoIDisagreement

  /** `//` of the source: the divisor is positive, so both round down. */
  function QuorumF(size: int): int { (size - 1) / 3 }

  function QuorumThreshold(size: int): int { 2 * QuorumF(size) + 1 }

  function Least(x: int, y: int): int { if x < y then x else y }

  function Most(x: int, y: int): int { if x > y then x else y }

  function QuorumSize(pool: nat, target: int, floor: nat, ceiling: nat): nat {
    Least(Most(floor, Least(pool, target)), ceiling)
  }

  /** No filter is the empty string. */
  predicate Matches(n: NodeInfo, modelName: string, datasetId: string) {
    (modelName == "" || n.modelName == modelName) && (datasetId == "" || n.datasetId == datasetId)
  }

  function Matching(modelName: string, datasetId: string): NodeInfo -> bool {
    (n: NodeInfo) => Matches(n, modelName, datasetId)
  }

  function Eligible(nodes: seq<NodeInfo>, modelName: string, datasetId: string): seq<NodeInfo> {
    Filter(Matching(modelName, datasetId), nodes)
  }

  method FilterEligible(nodes: seq<NodeInfo>, modelName: string, datasetId: string) returns (result: seq<NodeInfo>)
    ensures result == Eligible(nodes, modelName, datasetId)
  {
    result := [];
    for i := 0 to |nodes|
      invariant result == Eligible(nodes[..i], modelName, datasetId)
    {
      var n := nodes[i];
      assert nodes[..i + 1][..i] == nodes[..i];
      if modelName != "" && n.modelName != modelName { continue; }
      if datasetId != "" && n.datasetId != datasetId { continue; }
      result := result + [n];
    }
    assert nodes[..|nodes|] == nodes;
  }

  /** Who is eligible: exactly the listed nodes that serve the model and the dataset, if one is named. */
  lemma EligibleExactly(nodes: seq<NodeInfo>, modelName: string, datasetId: string, n: NodeInfo)
    ensures n in Eligible(nodes, modelName, datasetId) <==>
              n in nodes && (modelName == "" || n.modelName == modelName) && (datasetId == "" || n.datasetId == datasetId)
  {
    hide Filter;
    FilterMember(Matching(modelName, datasetId), nodes, n);
  }

  // The election

  /** Scores in ascending order; None is an infinite score, of a node without a profile. */
  type Ranking = Dict<Address, Option<real>>

  /** The ids with a finite score (or without one), in order. */
  function ScoredIds(ranking: Ranking, known: bool): seq<Address> {
    if ranking == [] then [] else
    var rest, last := ScoredIds(ranking[..|ranking| - 1], known), ranking[|ranking| - 1];
    if last.1.Some? == known then rest + [last.0] else rest
  }

  function FirstOf(ids: seq<Address>, n: nat): seq<Address> {
    if |ids| <= n then ids else ids[..n]
  }

  function ById(pool: seq<NodeInfo>): Dict<Address, NodeInfo> {
    seq(|pool|, i requires 0 <= i < |pool| => (pool[i].nodeId, pool[i]))
  }

  /** The pool's nodes for a list of ids. */
  function Resolve(pool: seq<NodeInfo>, ids: seq<Address>): seq<NodeInfo> {
    if ids == [] then [] else
    var rest, id := Resolve(pool, ids[..|ids| - 1]), ids[|ids| - 1];
    if Has(ById(pool), id) then rest + [Get(ById(pool), id)] else rest
  }

  function Shortlist(pool: seq<NodeInfo>, ranking: Ranking, k: nat, floor: nat): (seq<NodeInfo>, bool) {
    var s := Resolve(pool, FirstOf(ScoredIds(ranking, true), 2 * k) + ScoredIds(ranking, false));
    if |s| >= floor then (s, true) else (pool, false)
  }

  /** The positions drawn for a seed, a population size and a sample size. */
  type Draw = (string, nat, nat) -> seq<nat>

  /** Sampling without replacement: as many different positions as asked for. */
  ghost predicate IsSample(draw: Draw) {
    forall seed, n, k {:trigger draw(seed, n, k)} :: k <= n ==>
      var picks := draw(seed, n, k);
      && |picks| == k && (forall i :: 0 <= i < k ==> picks[i] < n)
      && (forall i, j :: 0 <= i < j < k ==> picks[i] != picks[j])
  }

  function Sampled(pool: seq<NodeInfo>, picks: seq<nat>): seq<NodeInfo>
    requires forall i :: 0 <= i < |picks| ==> picks[i] < |pool|
  {
    seq(|picks|, i requires 0 <= i < |picks| => pool[picks[i]])
  }

  predicate IdLess(a: NodeInfo, b: NodeInfo) { StringLess(a.nodeId, b.nodeId) }

  datatype Quorum = Quorum(nodes: seq<NodeInfo>, size: nat, f: int, threshold: int, seed: string, oodBiased: bool)

  ghost predicate DistinctIds(nodes: seq<NodeInfo>) {
    forall i, j :: 0 <= i < j < |nodes| ==> nodes[i].nodeId != nodes[j].nodeId
  }

  /** A ranking scores just the pool's nodes, each once. */
  ghost predicate Ranks(ranking: Ranking, pool: seq<NodeInfo>) {
    Distinct(ranking) && Keys(ranking) == Keys(ById(pool))
  }

  // Proofs about the shortlist

  lemma FilteredDistinct(keep: NodeInfo -> bool, nodes: seq<NodeInfo>)
    requires DistinctIds(nodes)
    ensures DistinctIds(Filter(keep, nodes))
  {
    var r := (a: NodeInfo, b: NodeInfo) => a.nodeId != b.nodeId;
    FilterPairs(keep, nodes, r);
    var kept := Filter(keep, nodes);
    assert forall i, j :: 0 <= i < j < |kept| ==> r(kept[i], kept[j]);
  }

  ghost predicate NoRepeats(ids: seq<Address>) {
    forall i, j :: 0 <= i < j < |ids| ==> ids[i] != ids[j]
  }

  lemma {:induction false} ScoredMember(ranking: Ranking, known: bool, id: Address)
    ensures id in ScoredIds(ranking, known)
            <==> exists i :: 0 <= i < |ranking| && ranking[i].0 == id && ranking[i].1.Some? == known
  {
    if ranking != [] {
      var rest, last := ranking[..|ranking| - 1], ranking[|ranking| - 1];
      ScoredMember(rest, known, id);
      if id in ScoredIds(rest, known) {
        var i :| 0 <= i < |rest| && rest[i].0 == id && rest[i].1.Some? == known;
        assert ranking[i] == rest[i];
      } else if id in ScoredIds(ranking, known) {
        assert ranking[|rest|] == last;
      }
      if i :| 0 <= i < |ranking| && ranking[i].0 == id && ranking[i].1.Some? == known {
        if i < |rest| { assert rest[i] == ranking[i]; }
      }
    }
  }

  lemma {:induction false} ScoredNoRepeats(ranking: Ranking, known: bool)
    requires Distinct(ranking)
    ensures NoRepeats(ScoredIds(ranking, known))
  {
    if ranking != [] {
      var rest, last := ranking[..|ranking| - 1], ranking[|ranking| - 1];
      ScoredNoRepeats(rest, known);
      ScoredMember(rest, known, last.0);
    }
  }

  lemma {:induction false} ScoredCount(ranking: Ranking)
    ensures |ScoredIds(ranking, true)| + |ScoredIds(ranking, false)| == |ranking|
  {
    if ranking != [] {
      ScoredCount(ranking[..|ranking| - 1]);
    }
  }

  /** Known and unknown ids never meet. */
  lemma ScoredApart(ranking: Ranking, id: Address)
    requires Distinct(ranking)
    ensures !(id in ScoredIds(ranking, true) && id in ScoredIds(ranking, false))
  {
    ScoredMember(ranking, true, id);
    ScoredMember(ranking, false, id);
  }

  /** Distinct ids of the pool are resolved one by one. */
  lemma {:induction false} ResolveAll(pool: seq<NodeInfo>, ids: seq<Address>)
    requires forall i :: 0 <= i < |ids| ==> Has(ById(pool), ids[i])
    ensures var r := Resolve(pool, ids);
            |r| == |ids| && forall i :: 0 <= i < |r| ==> r[i].nodeId == ids[i] && r[i] in pool
  {
    hide Has, Get, ById;
    if ids != [] {
      ResolveAll(pool, ids[..|ids| - 1]);
      NodeFound(pool, ids[|ids| - 1]);
    }
  }

  lemma NodeFound(pool: seq<NodeInfo>, id: Address)
    requires Has(ById(pool), id)
    ensures Get(ById(pool), id) in pool && Get(ById(pool), id).nodeId == id
  {
    assert ById(pool)[IndexOf(ById(pool), id)].1 in pool;
  }

  /** The shortlist still has room for a whole quorum, of different nodes of the pool. */
  lemma ShortlistLargeEnough(pool: seq<NodeInfo>, ranking: Ranking, k: nat, floor: nat)
    requires DistinctIds(pool) && Ranks(ranking, pool) && k <= |pool|
    ensures var s := Shortlist(pool, ranking, k, floor).0;
            |s| >= k && DistinctIds(s) && forall i :: 0 <= i < |s| ==> s[i] in pool
  {
    hide ScoredIds, Resolve;
    var known, unknown := ScoredIds(ranking, true), ScoredIds(ranking, false);
    var ids := FirstOf(known, 2 * k) + unknown;
    ShortlistedIds(pool, ranking, k);
    ResolveAll(pool, ids);
  }

  lemma ShortlistedIds(pool: seq<NodeInfo>, ranking: Ranking, k: nat)
    requires DistinctIds(pool) && Ranks(ranking, pool) && k <= |pool|
    ensures var ids := FirstOf(ScoredIds(ranking, true), 2 * k) + ScoredIds(ranking, false);
            |ids| >= k && NoRepeats(ids) && forall i :: 0 <= i < |ids| ==> Has(ById(pool), ids[i])
  {
    hide ScoredIds, IndexOf, Distinct, Keys;
    var known, unknown := ScoredIds(ranking, true), ScoredIds(ranking, false);
    PoolDict(pool);
    ScoredCount(ranking);
    KeyCount(ranking);
    KeyCount(ById(pool));
    ScoredNoRepeats(ranking, true);
    ScoredNoRepeats(ranking, false);
    var first := FirstOf(known, 2 * k);
    var ids := first + unknown;
    forall i, j | 0 <= i < |first| && 0 <= j < |unknown| ensures first[i] != unknown[j] {
      ScoredApart(ranking, first[i]);
      assert first[i] in known;
    }
    forall i | 0 <= i < |ids| ensures Has(ById(pool), ids[i]) {
      ScoredInPool(pool, ranking, ids[i]);
      assert ids[i] in known || ids[i] in unknown;
    }
  }

  lemma PoolDict(pool: seq<NodeInfo>)
    requires DistinctIds(pool)
    ensures Distinct(ById(pool))
  {}

  lemma ScoredInPool(pool: seq<NodeInfo>, ranking: Ranking, id: Address)
    requires Ranks(ranking, pool)
    ensures id in ScoredIds(ranking, true) || id in ScoredIds(ranking, false) ==> Has(ById(pool), id)
  {
    ScoredMember(ranking, true, id);
    ScoredMember(ranking, false, id);
    if id in ScoredIds(ranking, true) || id in ScoredIds(ranking, false) {
      var i :| 0 <= i < |ranking| && ranking[i].0 == id;
      assert id in Keys(ranking);
      var j :| 0 <= j < |ById(pool)| && ById(pool)[j].0 == id;
    }
  }

  /** Best scores first, infinite ones last. */
  ghost predicate Ascending(ranking: Ranking) {
    forall p, q :: 0 <= p < q < |ranking| && ranking[q].1.Some? ==>
      ranking[p].1.Some? && ranking[p].1.value <= ranking[q].1.value
  }

  lemma {:induction false} ScoredInOrder(ranking: Ranking, known: bool, i: nat, j: nat) returns (p: nat, q: nat)
    requires i < j < |ScoredIds(ranking, known)|
    ensures p < q < |ranking| && ranking[p].0 == ScoredIds(ranking, known)[i] && ranking[q].0 == ScoredIds(ranking, known)[j]
    ensures ranking[p].1.Some? == ranking[q].1.Some? == known
  {
    var rest := ranking[..|ranking| - 1];
    if j < |ScoredIds(rest, known)| {
      p, q := ScoredInOrder(rest, known, i, j);
    } else {
      q := |rest|;
      ScoredMember(rest, known, ScoredIds(rest, known)[i]);
      p :| 0 <= p < |rest| && rest[p].0 == ScoredIds(rest, known)[i] && rest[p].1.Some? == known;
    }
  }

  /** The shortlist drops a node with a finite score only for 2k others that score no worse. */
  lemma ShortlistKeepsBest(ranking: Ranking, k: nat, dropped: Address, kept: Address)
    requires Distinct(ranking) && Ascending(ranking)
    requires dropped in ScoredIds(ranking, true) && dropped !in FirstOf(ScoredIds(ranking, true), 2 * k)
    requires kept in FirstOf(ScoredIds(ranking, true), 2 * k)
    ensures |FirstOf(ScoredIds(ranking, true), 2 * k)| == 2 * k
    ensures exists p, q :: 0 <= p < q < |ranking| && ranking[p].0 == kept && ranking[q].0 == dropped
              && ranking[p].1.Some? && ranking[q].1.Some? && ranking[p].1.value <= ranking[q].1.value
  {
    hide ScoredIds;
    var ids := ScoredIds(ranking, true);
    var i :| 0 <= i < |FirstOf(ids, 2 * k)| && FirstOf(ids, 2 * k)[i] == kept;
    var j :| 0 <= j < |ids| && ids[j] == dropped;
    assert forall n :: 0 <= n < |FirstOf(ids, 2 * k)| ==> FirstOf(ids, 2 * k)[n] == ids[n];
    var p, q := ScoredInOrder(ranking, true, i, j);
  }

  // The quorum

  function QuorumFor(sha: string -> string, draw: Draw, requestId: string, blockHash: string, eligible: seq<NodeInfo>,
                     modelName: string, datasetId: string, target: int, floor: nat, ceiling: nat,
                     ranking: Option<Ranking>): Option<Quorum>
    requires IsSample(draw)
  {
    var pool := Eligible(eligible, modelName, datasetId);
    if |pool| < floor then None else
    var k := QuorumSize(|pool|, target, floor, ceiling);
    var (list, biased) := if ranking.Some? then Shortlist(pool, ranking.value, k, floor) else (pool, false);
    var seed := sha(blockHash + requestId);
    var picks := draw(seed, |list|, Least(k, |list|));
    Some(Quorum(SortBy(IdLess, Sampled(list, picks)), k, QuorumF(k), QuorumThreshold(k), seed, biased))
  }

  lemma IdsAreOrdered()
    ensures IsOrder(IdLess)
  {
    forall x: NodeInfo, y: NodeInfo | IdLess(x, y) ensures !IdLess(y, x) {
      StringLessAsymmetric(x.nodeId, y.nodeId);
    }
    forall x: NodeInfo, y: NodeInfo, z: NodeInfo | !IdLess(y, x) && !IdLess(z, y) ensures !IdLess(z, x) {
      if IdLess(z, x) {
        if y.nodeId != z.nodeId {
          StringLessTotal(y.nodeId, z.nodeId);
          StringLessTransitive(y.nodeId, z.nodeId, x.nodeId);
        }
      }
    }
  }

  /** The members are different nodes of the list they were drawn from, in order of their ids. */
  lemma SampleGood(list: seq<NodeInfo>, picks: seq<nat>)
    requires DistinctIds(list) && forall i :: 0 <= i < |picks| ==> picks[i] < |list|
    requires forall i, j :: 0 <= i < j < |picks| ==> picks[i] != picks[j]
    ensures var r := SortBy(IdLess, Sampled(list, picks));
            && |r| == |picks| && (forall i :: 0 <= i < |r| ==> r[i] in list)
            && forall i, j :: 0 <= i < j < |r| ==> StringLess(r[i].nodeId, r[j].nodeId)
  {
    hide SortBy, StringLess;
    var s := Sampled(list, picks);
    var r := SortBy(IdLess, s);
    SortKeeps(IdLess, s);
    IdsAreOrdered();
    SortOrders(IdLess, s);
    forall i, j | 0 <= i < j < |s| ensures s[i].nodeId != s[j].nodeId {
      assert picks[i] < picks[j] || picks[j] < picks[i];
    }
    SortDifferent(IdLess, s);
    forall i | 0 <= i < |r| ensures r[i] in s && r[i] in list {
      SortMember(IdLess, s, r[i]);
    }
    forall i, j | 0 <= i < j < |r| ensures StringLess(r[i].nodeId, r[j].nodeId) {
      assert r[i] in s && r[j] in s && r[i] != r[j];
      SameNode(s, r[i], r[j]);
      StringLessTotal(r[i].nodeId, r[j].nodeId);
      assert !IdLess(r[j], r[i]);
    }
  }

  lemma SameNode(s: seq<NodeInfo>, x: NodeInfo, y: NodeInfo)
    requires DistinctIds(s) && x in s && y in s && x != y
    ensures x.nodeId != y.nodeId
  {}

  /** A committee of the given size: different matching nodes in canonical order, with room for f faults
      and the votes of a commit. */
  ghost predicate Committee(q: Quorum, eligible: seq<NodeInfo>, modelName: string, datasetId: string, size: nat) {
    && |q.nodes| == q.size == size
    && (forall i :: 0 <= i < size ==> q.nodes[i] in eligible && Matches(q.nodes[i], modelName, datasetId))
    && (forall i, j :: 0 <= i < j < size ==> StringLess(q.nodes[i].nodeId, q.nodes[j].nodeId))
    && 3 * q.f + 1 <= size && (size > 0 ==> 0 < q.threshold <= size)
  }

  /** A quorum is elected exactly when enough nodes match, and then it has exactly the announced
      number of different matching nodes, in canonical order, with room for f faults and the votes
      of a commit. */
  lemma QuorumGood(sha: string -> string, draw: Draw, requestId: string, blockHash: string, eligible: seq<NodeInfo>,
                   modelName: string, datasetId: string, target: int, floor: nat, ceiling: nat, ranking: Option<Ranking>)
    requires IsSample(draw) && DistinctIds(eligible)
    requires ranking.Some? ==> Ranks(ranking.value, Eligible(eligible, modelName, datasetId))
    ensures var q := QuorumFor(sha, draw, requestId, blockHash, eligible, modelName, datasetId, target, floor, ceiling, ranking);
            var pool := Eligible(eligible, modelName, datasetId);
            && (q.Some? <==> |pool| >= floor)
            && (q.Some? ==> Committee(q.value, eligible, modelName, datasetId, QuorumSize(|pool|, target, floor, ceiling)))
  {
    hide Shortlist, Filter, SortBy, Sampled, Matches, StringLess, DistinctIds, Ranks;
    var pool := Eligible(eligible, modelName, datasetId);
    if |pool| >= floor {
      var k := QuorumSize(|pool|, target, floor, ceiling);
      FilteredDistinct(Matching(modelName, datasetId), eligible);
      if ranking.Some? {
        ShortlistLargeEnough(pool, ranking.value, k, floor);
      }
      var list := if ranking.Some? then Shortlist(pool, ranking.value, k, floor).0 else pool;
      var picks := draw(sha(blockHash + requestId), |list|, k);
      SampleGood(list, picks);
      var nodes := SortBy(IdLess, Sampled(list, picks));
      forall i | 0 <= i < k ensures nodes[i] in eligible && Matches(nodes[i], modelName, datasetId) {
        assert nodes[i] in list;
        FilterMember(Matching(modelName, datasetId), eligible, nodes[i]);
      }
    }
  }

  /** The same inputs give the same quorum to every node, and it is a committee of the announced size. */
  method SelectQuorum(sha: string -> string, draw: Draw, requestId: string, blockHash: string, eligible: seq<NodeInfo>,
                      modelName: string, datasetId: string, target: int, floor: nat, ceiling: nat,
                      ranking: Option<Ranking>)
    returns (q: Option<Quorum>)
    requires IsSample(draw)
    ensures q == QuorumFor(sha, draw, requestId, blockHash, eligible, modelName, datasetId, target, floor, ceiling, ranking)
    ensures var pool := Eligible(eligible, modelName, datasetId);
            && (q.Some? <==> |pool| >= floor)
            && (q.Some? && DistinctIds(eligible) && (ranking.Some? ==> Ranks(ranking.value, pool)) ==>
                  Committee(q.value, eligible, modelName, datasetId, QuorumSize(|pool|, target, floor, ceiling)))
  {
    hide Resolve, ScoredIds, SortBy, Eligible, Committee, Ranks, DistinctIds;
    var pool := FilterEligible(eligible, modelName, datasetId);
    if |pool| < floor { return None; }
    var seed := sha(blockHash + requestId);
    var k: nat := Least(Most(floor, Least(|pool|, target)), ceiling);
    var biased := false;
    if ranking.Some? {
      var shortlist := Resolve(pool, FirstOf(ScoredIds(ranking.value, true), 2 * k) + ScoredIds(ranking.value, false));
      if |shortlist| >= floor {
        pool, biased := shortlist, true;
      }
    }
    var selected := Sampled(pool, draw(seed, |pool|, Least(k, |pool|)));
    selected := SortBy(IdLess, selected);
    var f := (k - 1) / 3;
    q := Some(Quorum(selected, k, f, 2 * f + 1, seed, biased));
    if DistinctIds(eligible) && (ranking.Some? ==> Ranks(ranking.value, Eligible(eligible, modelName, datasetId))) {
      QuorumGood(sha, draw, requestId, blockHash, eligible, modelName, datasetId, target, floor, ceiling, ranking);
    }
  }

  // Who can be elected

  /** The entries with a finite score. */
  function Finite(ranking: Ranking): nat {
    if ranking == [] then 0 else Finite(ranking[..|ranking| - 1]) + if ranking[|ranking| - 1].1.Some? then 1 else 0
  }

  /** A node of the pool that the shortlist keeps: it has no profile, or fewer than 2k nodes score better. */
  ghost predicate Shortlisted(ranking: Ranking, k: nat, id: Address) {
    exists p :: 0 <= p < |ranking| && ranking[p].0 == id && (ranking[p].1.None? || Finite(ranking[..p]) < 2 * k)
  }

  lemma {:induction false} ScoredPosition(ranking: Ranking, i: nat) returns (p: nat)
    requires i < |ScoredIds(ranking, true)|
    ensures p < |ranking| && ranking[p].0 == ScoredIds(ranking, true)[i] && ranking[p].1.Some? && Finite(ranking[..p]) == i
  {
    var rest := ranking[..|ranking| - 1];
    if i < |ScoredIds(rest, true)| {
      p := ScoredPosition(rest, i);
      assert rest[..p] == ranking[..p];
    } else {
      p := |rest|;
      FiniteCounts(rest);
    }
  }

  lemma {:induction false} FiniteCounts(ranking: Ranking)
    ensures Finite(ranking) == |ScoredIds(ranking, true)|
  {
    if ranking != [] {
      FiniteCounts(ranking[..|ranking| - 1]);
    }
  }

  lemma ShortlistIs(pool: seq<NodeInfo>, ranking: Ranking, k: nat, floor: nat)
    requires DistinctIds(pool) && Ranks(ranking, pool) && floor <= k <= |pool|
    ensures var (s, biased) := Shortlist(pool, ranking, k, floor);
            && biased && |s| >= k && DistinctIds(s)
            && forall i :: 0 <= i < |s| ==> s[i] in pool && Shortlisted(ranking, k, s[i].nodeId)
  {
    hide Resolve, ScoredIds, Ranks, DistinctIds;
    ShortlistLargeEnough(pool, ranking, k, 0);
    ShortlistedIds(pool, ranking, k);
    var known, unknown := ScoredIds(ranking, true), ScoredIds(ranking, false);
    var first := FirstOf(known, 2 * k);
    var ids := first + unknown;
    ResolveAll(pool, ids);
    var s := Resolve(pool, ids);
    forall i | 0 <= i < |s| ensures Shortlisted(ranking, k, s[i].nodeId) {
      if i < |first| {
        var p := ScoredPosition(ranking, i);
      } else {
        assert unknown[i - |first|] in unknown;
        ScoredMember(ranking, false, ids[i]);
      }
    }
  }

  /** How a committee comes about: its members are those at the positions that the seed, the hash of the tip and
      the request, draws from a list of candidates: all matching nodes, or, with a ranking, those whom fewer
      than 2k others outscore or who have no profile. */
  lemma ElectedByDraw(sha: string -> string, draw: Draw, requestId: string, blockHash: string, eligible: seq<NodeInfo>,
                      modelName: string, datasetId: string, target: int, floor: nat, ceiling: nat, ranking: Option<Ranking>)
    returns (list: seq<NodeInfo>)
    requires IsSample(draw) && DistinctIds(eligible) && floor <= ceiling
    requires ranking.Some? ==> Ranks(ranking.value, Eligible(eligible, modelName, datasetId))
    requires |Eligible(eligible, modelName, datasetId)| >= floor
    ensures var q := QuorumFor(sha, draw, requestId, blockHash, eligible, modelName, datasetId, target, floor, ceiling, ranking);
            var pool := Eligible(eligible, modelName, datasetId); var k := QuorumSize(|pool|, target, floor, ceiling);
            && q.Some? && q.value.seed == sha(blockHash + requestId) && |list| >= k
            && q.value.f == (k - 1) / 3 && q.value.threshold == 2 * q.value.f + 1
            && (q.value.oodBiased <==> ranking.Some?)
            && (ranking.None? ==> list == pool)
            && (forall i :: 0 <= i < |list| ==> list[i] in pool)
            && (ranking.Some? ==> forall i :: 0 <= i < |list| ==> Shortlisted(ranking.value, k, list[i].nodeId))
            && forall n :: n in q.value.nodes <==> DrawnAt(list, draw(q.value.seed, |list|, k), n)
  {
    hide Shortlist, Filter, SortBy, Matches, DistinctIds, Ranks, Shortlisted, Sampled, DrawnAt;
    var pool := Eligible(eligible, modelName, datasetId);
    var k := QuorumSize(|pool|, target, floor, ceiling);
    FilteredDistinct(Matching(modelName, datasetId), eligible);
    if ranking.Some? {
      ShortlistIs(pool, ranking.value, k, floor);
      list := Shortlist(pool, ranking.value, k, floor).0;
    } else {
      list := pool;
    }
    DrawnExactly(list, draw(sha(blockHash + requestId), |list|, k));
  }

  ghost predicate DrawnAt(list: seq<NodeInfo>, picks: seq<nat>, n: NodeInfo) {
    exists i :: 0 <= i < |picks| && picks[i] < |list| && list[picks[i]] == n
  }

  lemma DrawnExactly(list: seq<NodeInfo>, picks: seq<nat>)
    requires forall i :: 0 <= i < |picks| ==> picks[i] < |list|
    ensures forall n :: n in SortBy(IdLess, Sampled(list, picks)) <==> DrawnAt(list, picks, n)
  {
    hide SortBy;
    var s := Sampled(list, picks);
    forall n ensures n in SortBy(IdLess, s) <==> DrawnAt(list, picks, n) {
      SortMember(IdLess, s, n);
      if n in s {
        var i :| 0 <= i < |s| && s[i] == n;
      }
      if i :| 0 <= i < |picks| && list[picks[i]] == n {
        assert s[i] == n;
      }
    }
  }

  // Which sizes are safe

  /** Any two sets of `votes` members share more than f of them. */
  ghost predicate VotesOverlap(members: set<Address>, votes: int, f: int) {
    forall a: set<Address>, b: set<Address> :: a <= members && b <= members && |a| >= votes && |b| >= votes ==> |a * b| > f
  }

  /** Two commits of one quorum share a correct node for certain exactly in the sizes 3f+1. */
  lemma OverlapExact(members: set<Address>)
    requires members != {}
    ensures VotesOverlap(members, QuorumThreshold(|members|), QuorumF(|members|)) <==> |members| % 3 == 1
  {
    var k := |members|;
    var f, votes := QuorumF(k), QuorumThreshold(k);
    if k % 3 == 1 {
      forall a: set<Address>, b: set<Address> | a <= members && b <= members && |a| >= votes && |b| >= votes
        ensures |a * b| > f
      {
        SubsetSize(a + b, members);
      }
    } else {
      var a := TakeSome(members, votes);
      var shared := TakeSome(a, Most(0, 2 * votes - k));
      assert |members - a| == k - votes;
      var b := shared + (members - a);
      assert |b| == |shared| + |members - a|;
      assert a * b == shared;
      assert !VotesOverlap(members, votes, f);
    }
  }

  /** A quorum with the fault bound the selector announces agrees in every run exactly when its size
      is 4, 7, 10, 13, ...; in the other sizes some run ends in two different outcomes. */
  lemma QuorumAgreesExactly(members: set<Address>)
    requires |members| >= 4
    ensures AlwaysAgrees(members, QuorumF(|members|)) <==> |members| % 3 == 1
  {
    AgreementExact(members, QuorumF(|members|));
  }

  /** With the default bounds the size is the pool's, up to the target; so it is safe exactly for
      pools of 4, of 7, and of 10 or more nodes. */
  lemma DefaultSizes(pool: nat)
    requires pool >= QUORUM_FLOOR
    ensures var k := QuorumSize(pool, QUORUM_TARGET, QUORUM_FLOOR, QUORUM_CEILING);
            && k == Least(pool, QUORUM_TARGET)
            && (k % 3 == 1 <==> pool == 4 || pool == 7 || pool >= 10)
  {}
}

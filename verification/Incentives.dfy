/** What a round's results mean for each node, told from the results alone. */
module Incentives {
  import opened Collections
  import opened Constants
  import opened Quality
  import opened Rewards

  // The reference vector

  /** The j-th component of every vector. */
  function Column(vectors: seq<seq<real>>, j: nat): seq<real>
    requires forall i :: 0 <= i < |vectors| ==> j < |vectors[i]|
  {
    seq(|vectors|, i requires 0 <= i < |vectors| => vectors[i][j])
  }

  lemma {:induction false} ColumnSums(vectors: seq<seq<real>>, n: nat, j: nat)
    requires AllOfLength(vectors, n) && j < n
    ensures Columns(vectors, n)[j] == Sum(Column(vectors, j))
  {
    if vectors != [] {
      var before := vectors[..|vectors| - 1];
      ColumnSums(before, n, j);
      assert Column(vectors, j)[..|before|] == Column(before, j);
    }
  }

  lemma Divided(x: real, n: nat)
    requires n > 0
    ensures x / n as real * n as real == x
  {}

  /** The mean exists exactly for vectors of one length, and its j-th component is the mean of the j-th
      components. */
  lemma MeanExactly(vectors: seq<seq<real>>)
    ensures Mean(vectors).Some? <==> vectors != [] && AllOfLength(vectors, |vectors[0]|)
    ensures Mean(vectors).Some? ==>
              && |Mean(vectors).value| == |vectors[0]|
              && forall j :: 0 <= j < |vectors[0]| ==> Mean(vectors).value[j] * |vectors| as real == Sum(Column(vectors, j))
  {
    hide Columns, Sum;
    if Mean(vectors).Some? {
      forall j | 0 <= j < |vectors[0]| ensures Mean(vectors).value[j] * |vectors| as real == Sum(Column(vectors, j)) {
        ColumnSums(vectors, |vectors[0]|, j);
        Divided(Columns(vectors, |vectors[0]|)[j], |vectors|);
      }
    }
  }

  // Scores

  /** A score is the quotient of the dot product by both lengths; so a vector like the reference scores 1. */
  lemma ScoreExactly(sqrt: real -> real, a: seq<real>, b: seq<real>)
    requires IsSqrt(sqrt) && |a| == |b| && NonNegativeVector(a) && NonNegativeVector(b)
    ensures Dot(a, a) == 0.0 || Dot(b, b) == 0.0 ==> Score(sqrt, a, b) == 0.0
    ensures Dot(a, a) != 0.0 && Dot(b, b) != 0.0 ==>
              Score(sqrt, a, b) * (sqrt(Dot(a, a)) * sqrt(Dot(b, b))) == Dot(a, b)
    ensures a == b && Dot(a, a) != 0.0 ==> Score(sqrt, a, b) == 1.0
  {
    hide Dot, NonNegativeVector, Normalised;
    CauchySchwarz(a, b);
    var x, y := sqrt(Dot(a, a)), sqrt(Dot(b, b));
    RootIsZero(x, Dot(a, a));
    RootIsZero(y, Dot(b, b));
    if x != 0.0 && y != 0.0 {
      ClampIdle(sqrt, a, b);
      QuotientTimes(Dot(a, b), x, y);
      if a == b { OneOnly(Score(sqrt, a, b), x * y, Dot(a, b)); }
    }
  }

  lemma RootIsZero(x: real, d: real)
    requires x >= 0.0 && x * x == d
    ensures x == 0.0 <==> d == 0.0
  {
    if x > 0.0 { PositiveProduct(x, x, d); }
  }

  lemma PositiveProduct(x: real, y: real, d: real)
    requires x > 0.0 && y > 0.0 && d == x * y
    ensures d > 0.0
  {}

  lemma QuotientTimes(d: real, x: real, y: real)
    requires x != 0.0 && y != 0.0
    ensures Normalised(d, x, y) * (x * y) == d
  {
    var z := x * y;
    assert z != 0.0;
  }

  lemma OneOnly(s: real, z: real, d: real)
    requires s * z == d && z == d && d > 0.0
    ensures s == 1.0
  {
    if s > 1.0 {
      Spread(s - 1.0, s, z, d);
      PositiveProduct(s - 1.0, z, 0.0);
    } else if s < 1.0 {
      Spread(1.0 - s, s, z, d);
      PositiveProduct(1.0 - s, z, 0.0);
    }
  }

  lemma Spread(t: real, s: real, z: real, d: real)
    requires s * z == d && z == d && (t == s - 1.0 || t == 1.0 - s)
    ensures 0.0 == t * z
  {}

  // Results

  /** The sum of the scores of the honest, and their number. */
  function TotalScore(results: seq<NodeResult>): real {
    if results == [] then 0.0 else
    TotalScore(results[..|results| - 1]) + if results[|results| - 1].honest then results[|results| - 1].score else 0.0
  }

  function HonestCount(results: seq<NodeResult>): nat {
    if results == [] then 0 else
    HonestCount(results[..|results| - 1]) + if results[|results| - 1].honest then 1 else 0
  }

  lemma {:induction false} TotalsMatch(sqrt: real -> real, responses: Dict<NodeId, Response>, cls: int, primary: NodeId,
                                       reference: seq<real>, pool: real, total: real, n: nat)
    ensures var results := ResultsOf(sqrt, responses, cls, primary, reference, pool, total, n);
            var honest := Voting(responses, cls, true);
            TotalScore(results) == Sum(Scores(sqrt, honest, reference)) && HonestCount(results) == |honest|
  {
    hide Score, Share, Min;
    if responses != [] {
      var k := |responses| - 1;
      TotalsMatch(sqrt, responses[..k], cls, primary, reference, pool, total, n);
      var results := ResultsOf(sqrt, responses, cls, primary, reference, pool, total, n);
      assert results[..k] == ResultsOf(sqrt, responses[..k], cls, primary, reference, pool, total, n);
      var h := Voting(responses[..k], cls, true);
      if responses[k].1.cls == cls {
        assert Scores(sqrt, h + [responses[k]], reference)[..|h|] == Scores(sqrt, h, reference);
      }
    }
  }

  /** What one result says: an honest node's share of the pool is in proportion to its score, or an equal part
      when no score is positive; a leader has its bonus on top; a dissenter gets nothing and loses reputation;
      an honest node gains its score, up to the cap. */
  ghost predicate Fair(sqrt: real -> real, entry: (NodeId, Response), r: RoundResult, result: NodeResult) {
    && result.nodeId == entry.0 && result.cls == entry.1.cls && result.probs == entry.1.probs
    && (result.honest <==> result.cls == r.cls)
    && if !result.honest then result.score == 0.0 && result.reward == 0.0 && result.repDelta == -REP_PENALTY else
       var leads := result.nodeId == r.primary;
       var share := result.reward - if leads then LEADER_BONUS else 0.0;
       var gain := result.repDelta - if leads then REP_LEADER_BONUS else 0.0;
       && 0.0 <= result.score <= 1.0 && Cosine(sqrt, result.probs, r.aggregated) == Some(result.score)
       && (TotalScore(r.results) > 0.0 ==> share * TotalScore(r.results) == r.pool * result.score)
       && (TotalScore(r.results) <= 0.0 ==> share * HonestCount(r.results) as real == r.pool)
       && gain <= result.score && gain <= REP_CAP_PER_ROUND && (gain == result.score || gain == REP_CAP_PER_ROUND)
  }

  lemma ShareExactly(pool: real, score: real, total: real, n: nat)
    requires n > 0
    ensures total > 0.0 ==> Share(pool, score, total, n) * total == pool * score
    ensures total <= 0.0 ==> Share(pool, score, total, n) * n as real == pool
  {
    if total > 0.0 {
      var part := score / total;
      assert part * total == score;
      assert pool * part * total == pool * (part * total);
    } else {
      Divided(pool, n);
    }
  }

  lemma ResultFair(sqrt: real -> real, entry: (NodeId, Response), r: RoundResult, result: NodeResult, n: nat)
    requires n == HonestCount(r.results) && (entry.1.cls == r.cls ==> n > 0 && |entry.1.probs| == |r.aggregated|)
    requires result == Result(sqrt, entry, r.cls, r.primary, r.aggregated, r.pool, TotalScore(r.results), n)
    ensures Fair(sqrt, entry, r, result)
  {
    hide Share, Cosine;
    if entry.1.cls == r.cls {
      CosineExists(sqrt, entry.1.probs, r.aggregated);
      ShareExactly(r.pool, Score(sqrt, entry.1.probs, r.aggregated), TotalScore(r.results), n);
    }
  }

  lemma CosineExists(sqrt: real -> real, a: seq<real>, b: seq<real>)
    requires |a| == |b|
    ensures Cosine(sqrt, a, b).Some?
  {}

  /** Every result of a round is fair, in the order of the responses; the pool is the fees and the inference
      reward; the reference vector is the mean of the agreeing ones. */
  lemma RoundFair(sqrt: real -> real, requestId: string, primary: NodeId, cls: int, responses: Dict<NodeId, Response>, fees: real)
    requires Scorable(responses, cls)
    ensures var r := RoundRewards(sqrt, requestId, primary, cls, responses, fees);
            && r.Some? && r.value.requestId == requestId && r.value.cls == cls && r.value.primary == primary
            && r.value.pool == fees + INFERENCE_REWARD && |r.value.results| == |responses|
            && (forall i :: 0 <= i < |responses| ==> Fair(sqrt, responses[i], r.value, r.value.results[i]))
            && (Voting(responses, cls, true) != [] ==> Mean(Vectors(Voting(responses, cls, true))) == Some(r.value.aggregated))
            && (Voting(responses, cls, true) == [] ==>
                  && |r.value.aggregated| == |responses[0].1.probs|
                  && forall j :: 0 <= j < |r.value.aggregated| ==> r.value.aggregated[j] * |responses| as real == 1.0)
  {
    hide Voting, Sum, Scores, Result, Mean, Scorable;
    RewardsExist(sqrt, requestId, primary, cls, responses, fees);
    var r := RoundRewards(sqrt, requestId, primary, cls, responses, fees).value;
    var honest := Voting(responses, cls, true);
    var total := Sum(Scores(sqrt, honest, r.aggregated));
    Divided(1.0, |responses|);
    TotalsMatch(sqrt, responses, cls, primary, r.aggregated, r.pool, total, |honest|);
    forall i | 0 <= i < |responses| ensures Fair(sqrt, responses[i], r, r.results[i]) {
      if responses[i].1.cls == cls {
        VotingMember(responses, cls, true, responses[i]);
        var k :| 0 <= k < |honest| && honest[k] == responses[i];
        SameAsMean(Vectors(honest), k);
      }
      ResultFair(sqrt, responses[i], r, r.results[i], |honest|);
    }
  }

  lemma SameAsMean(vectors: seq<seq<real>>, k: nat)
    requires k < |vectors| && Mean(vectors).Some?
    ensures |vectors[k]| == |Mean(vectors).value|
  {}
}

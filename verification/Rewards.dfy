/** The reference vector, and what a round pays to each node. */
module Rewards {
  import opened Collections
  import opened Constants
  import opened Quality

  // The reference vector

  function Add(a: seq<real>, b: seq<real>): seq<real>
    requires |a| == |b|
  {
    seq(|a|, i requires 0 <= i < |a| => a[i] + b[i])
  }

  function Over(v: seq<real>, n: nat): seq<real>
    requires n > 0
  {
    seq(|v|, i requires 0 <= i < |v| => v[i] / n as real)
  }

  predicate AllOfLength(vectors: seq<seq<real>>, n: nat) {
    forall i :: 0 <= i < |vectors| ==> |vectors[i]| == n
  }

  /** The sums of the columns. */
  function Columns(vectors: seq<seq<real>>, n: nat): (r: seq<real>)
    requires AllOfLength(vectors, n)
    ensures |r| == n
  {
    if vectors == [] then seq(n, _ => 0.0)
    else Add(Columns(vectors[..|vectors| - 1], n), vectors[|vectors| - 1])
  }

  /** The mean vector; None where the source raises. */
  function Mean(vectors: seq<seq<real>>): Option<seq<real>> {
    if vectors == [] || !AllOfLength(vectors, |vectors[0]|) then None
    else Some(Over(Columns(vectors, |vectors[0]|), |vectors|))
  }

  method AggregateProbabilities(vectors: seq<seq<real>>) returns (r: Option<seq<real>>)
    ensures r == Mean(vectors)
  {
    if vectors == [] { return None; }
    var n := |vectors|;
    var classes := |vectors[0]|;
    var agg := new real[classes](_ => 0.0);
    for k := 0 to n
      invariant AllOfLength(vectors[..k], classes)
      invariant agg[..] == Columns(vectors[..k], classes)
    {
      var probs := vectors[k];
      if |probs| != classes { return None; }
      ghost var before := agg[..];
      for i := 0 to classes
        invariant forall j :: 0 <= j < i ==> agg[j] == before[j] + probs[j]
        invariant forall j :: i <= j < classes ==> agg[j] == before[j]
      {
        agg[i] := agg[i] + probs[i];
      }
      assert vectors[..k + 1][..k] == vectors[..k];
      assert agg[..] == Add(before, probs);
    }
    assert vectors[..n] == vectors;
    var sums := agg[..];
    r := Some(seq(classes, i requires 0 <= i < classes => sums[i] / n as real));
    assert r.value == Over(sums, n);
  }

  lemma {:induction false} SumOfZeros(n: nat)
    ensures Sum(seq(n, _ => 0.0)) == 0.0
  {
    if n > 0 {
      SumOfZeros(n - 1);
      assert seq(n, _ => 0.0)[..n - 1] == seq(n - 1, _ => 0.0);
    }
  }

  lemma {:induction false} SumAdd(a: seq<real>, b: seq<real>)
    requires |a| == |b|
    ensures Sum(Add(a, b)) == Sum(a) + Sum(b)
  {
    if a != [] {
      var n := |a| - 1;
      SumAdd(a[..n], b[..n]);
      assert Add(a, b)[..n] == Add(a[..n], b[..n]);
    }
  }

  lemma {:induction false} SumOver(v: seq<real>, n: nat)
    requires n > 0
    ensures Sum(Over(v, n)) == Sum(v) / n as real
  {
    if v != [] {
      var k := |v| - 1;
      SumOver(v[..k], n);
      assert Over(v, n)[..k] == Over(v[..k], n);
    }
  }

  lemma {:induction false} ColumnsOfDistributions(vectors: seq<seq<real>>, n: nat)
    requires AllOfLength(vectors, n) && forall i :: 0 <= i < |vectors| ==> Distribution(vectors[i])
    ensures NonNegativeVector(Columns(vectors, n)) && Sum(Columns(vectors, n)) == |vectors| as real
  {
    if vectors == [] {
      SumOfZeros(n);
    } else {
      var k := |vectors| - 1;
      ColumnsOfDistributions(vectors[..k], n);
      SumAdd(Columns(vectors[..k], n), vectors[k]);
      assert Distribution(vectors[k]);
    }
  }

  /** The mean of probability distributions is a probability distribution. */
  lemma MeanOfDistributions(vectors: seq<seq<real>>)
    requires vectors != [] && AllOfLength(vectors, |vectors[0]|)
    requires forall i :: 0 <= i < |vectors| ==> Distribution(vectors[i])
    ensures Mean(vectors).Some? && Distribution(Mean(vectors).value)
  {
    hide Columns, Sum, Over;
    var n, k := |vectors[0]|, |vectors|;
    ColumnsOfDistributions(vectors, n);
    SumOver(Columns(vectors, n), k);
    OverNonNegative(Columns(vectors, n), k);
    WholeOverItself(k);
  }

  lemma OverNonNegative(v: seq<real>, n: nat)
    requires n > 0 && NonNegativeVector(v)
    ensures NonNegativeVector(Over(v, n))
  {
    var k := n as real;
    forall i | 0 <= i < |v| ensures Over(v, n)[i] >= 0.0 {
      var x := v[i] / k;
      assert x * k == v[i];
    }
  }

  lemma WholeOverItself(n: nat)
    requires n > 0
    ensures n as real / n as real == 1.0
  {}

  // The round result

  datatype NodeResult = NodeResult(
    nodeId: NodeId, honest: bool, cls: int, probs: seq<real>, score: real, reward: real, repDelta: real)

  datatype RoundResult = RoundResult(
    requestId: string, cls: int, aggregated: seq<real>, primary: NodeId, results: seq<NodeResult>, pool: real)

  function OnSide(cls: int, agreeing: bool): ((NodeId, Response)) -> bool {
    (e: (NodeId, Response)) => (e.1.cls == cls) == agreeing
  }

  /** The entries that voted for the class (or the others), in order. */
  function Voting(responses: Dict<NodeId, Response>, cls: int, agreeing: bool): Dict<NodeId, Response> {
    Filter(OnSide(cls, agreeing), responses)
  }

  function Vectors(responses: Dict<NodeId, Response>): seq<seq<real>> {
    seq(|responses|, i requires 0 <= i < |responses| => responses[i].1.probs)
  }

  function Uniform(responses: Dict<NodeId, Response>): seq<real>
    requires responses != []
  {
    seq(|responses[0].1.probs|, _ => 1.0 / |responses| as real)
  }

  /** The mean of the agreeing vectors, or the uniform vector when nobody agrees. */
  function Reference(responses: Dict<NodeId, Response>, cls: int): Option<seq<real>>
    requires responses != []
  {
    var honest := Voting(responses, cls, true);
    if honest == [] then Some(Uniform(responses)) else Mean(Vectors(honest))
  }

  /** A vector's score; vectors of another length than the reference are never scored. */
  function Score(sqrt: real -> real, probs: seq<real>, reference: seq<real>): (r: real)
    ensures 0.0 <= r <= 1.0
  {
    var c := Cosine(sqrt, probs, reference);
    if c.Some? then c.value else 0.0
  }

  function Scores(sqrt: real -> real, honest: Dict<NodeId, Response>, reference: seq<real>): (r: seq<real>)
    ensures |r| == |honest| && NonNegativeVector(r)
  {
    seq(|honest|, i requires 0 <= i < |honest| => Score(sqrt, honest[i].1.probs, reference))
  }

  /** A node's part of the pool: by score, or equal parts when no score is positive. */
  function Share(pool: real, score: real, total: real, honest: nat): real {
    if total > 0.0 then pool * (score / total) else if honest > 0 then pool / honest as real else 0.0
  }

  function Min(x: real, y: real): real { if x < y then x else y }

  function Bonus(leads: bool, bonus: real): real { if leads then bonus else 0.0 }

  /** What one entry of the responses is paid and how its reputation moves. */
  function Result(sqrt: real -> real, entry: (NodeId, Response), cls: int, primary: NodeId,
                  reference: seq<real>, pool: real, total: real, honest: nat): NodeResult
  {
    var (id, r) := entry;
    if r.cls != cls then NodeResult(id, false, r.cls, r.probs, 0.0, 0.0, -REP_PENALTY) else
    var score := Score(sqrt, r.probs, reference);
    NodeResult(id, true, r.cls, r.probs, score,
               Share(pool, score, total, honest) + Bonus(id == primary, LEADER_BONUS),
               Min(score, REP_CAP_PER_ROUND) + Bonus(id == primary, REP_LEADER_BONUS))
  }

  function ResultsOf(sqrt: real -> real, responses: Dict<NodeId, Response>, cls: int, primary: NodeId,
                     reference: seq<real>, pool: real, total: real, n: nat): (r: seq<NodeResult>)
    ensures |r| == |responses|
  {
    seq(|responses|, i requires 0 <= i < |responses| =>
      Result(sqrt, responses[i], cls, primary, reference, pool, total, n))
  }

  /** The round's result; None where scoring raises. */
  function RoundRewards(sqrt: real -> real, requestId: string, primary: NodeId, cls: int,
                        responses: Dict<NodeId, Response>, fees: real): Option<RoundResult>
  {
    if responses == [] then None else
    match Reference(responses, cls)
    case None => None
    case Some(reference) =>
      var honest := Voting(responses, cls, true);
      var pool, total := fees + INFERENCE_REWARD, Sum(Scores(sqrt, honest, reference));
      Some(RoundResult(requestId, cls, reference, primary,
                       ResultsOf(sqrt, responses, cls, primary, reference, pool, total, |honest|), pool))
  }

  // Dicts filled in the order of the responses

  function Ids(responses: Dict<NodeId, Response>): seq<NodeId> {
    seq(|responses|, i requires 0 <= i < |responses| => responses[i].0)
  }

  function Tabulated(entries: Dict<NodeId, Response>, f: (NodeId, Response) -> real): Dict<NodeId, real> {
    seq(|entries|, i requires 0 <= i < |entries| => (entries[i].0, f(entries[i].0, entries[i].1)))
  }

  function Values(d: Dict<NodeId, real>): seq<real> {
    seq(|d|, i requires 0 <= i < |d| => d[i].1)
  }

  lemma VotingMember(responses: Dict<NodeId, Response>, cls: int, agreeing: bool, e: (NodeId, Response))
    ensures e in Voting(responses, cls, agreeing) <==> e in responses && (e.1.cls == cls) == agreeing
  {
    FilterMember(OnSide(cls, agreeing), responses, e);
  }

  lemma VotingDistinct(responses: Dict<NodeId, Response>, cls: int, agreeing: bool)
    requires Distinct(responses)
    ensures Distinct(Voting(responses, cls, agreeing))
  {
    var r := (a: (NodeId, Response), b: (NodeId, Response)) => a.0 != b.0;
    FilterPairs(OnSide(cls, agreeing), responses, r);
    var v := Voting(responses, cls, agreeing);
    assert forall i, j :: 0 <= i < j < |v| ==> r(v[i], v[j]);
  }

  /** A table over the agreeing (or the other) entries is found exactly under their keys. */
  lemma TableLookup(responses: Dict<NodeId, Response>, cls: int, agreeing: bool, f: (NodeId, Response) -> real, i: nat)
    requires Distinct(responses) && i < |responses|
    ensures var d, e := Tabulated(Voting(responses, cls, agreeing), f), responses[i];
            && (Has(d, e.0) <==> (e.1.cls == cls) == agreeing)
            && (Has(d, e.0) ==> Get(d, e.0) == f(e.0, e.1))
  {
    hide Voting;
    var v, e := Voting(responses, cls, agreeing), responses[i];
    var d := Tabulated(v, f);
    VotingMember(responses, cls, agreeing, e);
    VotingDistinct(responses, cls, agreeing);
    if e in v {
      var k :| 0 <= k < |v| && v[k] == e;
      assert d[k] == (e.0, f(e.0, e.1));
      GetEntry(d, d[k]);
    } else if Has(d, e.0) {
      var k := IndexOf(d, e.0);
      VotingMember(responses, cls, agreeing, v[k]);
      assert false;
    }
  }

  lemma ConcatLookup(a: Dict<NodeId, real>, b: Dict<NodeId, real>, k: NodeId)
    ensures Has(a + b, k) <==> Has(a, k) || Has(b, k)
    ensures Has(a, k) ==> Get(a + b, k) == Get(a, k)
    ensures !Has(a, k) && Has(b, k) ==> Get(a + b, k) == Get(b, k)
  {
    var d, i, j := a + b, IndexOf(a, k), IndexOf(b, k);
    var at := IndexOf(d, k);
    if Has(a, k) {
      assert d[i] == a[i];
    } else if Has(b, k) {
      assert d[|a| + j] == b[j];
    }
  }

  method ClassifyVotes(responses: Dict<NodeId, Response>, cls: int)
    returns (honestProbs: seq<seq<real>>, honestIds: seq<NodeId>, byzantineIds: seq<NodeId>)
    ensures honestProbs == Vectors(Voting(responses, cls, true))
    ensures honestIds == Ids(Voting(responses, cls, true))
    ensures byzantineIds == Ids(Voting(responses, cls, false))
  {
    honestProbs, honestIds, byzantineIds := [], [], [];
    for i := 0 to |responses|
      invariant honestProbs == Vectors(Voting(responses[..i], cls, true))
      invariant honestIds == Ids(Voting(responses[..i], cls, true))
      invariant byzantineIds == Ids(Voting(responses[..i], cls, false))
    {
      var (id, r) := responses[i];
      assert responses[..i + 1][..i] == responses[..i];
      if r.cls == cls {
        honestProbs, honestIds := honestProbs + [r.probs], honestIds + [id];
      } else {
        byzantineIds := byzantineIds + [id];
      }
    }
    assert responses[..|responses|] == responses;
  }

  lemma TableStep(entries: Dict<NodeId, Response>, f: (NodeId, Response) -> real, k: nat)
    requires Distinct(entries) && k < |entries|
    ensures Put(Tabulated(entries[..k], f), entries[k].0, f(entries[k].0, entries[k].1)) == Tabulated(entries[..k + 1], f)
  {
    var d := Tabulated(entries[..k], f);
    assert forall i :: 0 <= i < k ==> d[i].0 == entries[i].0;
  }

  function Scoring(sqrt: real -> real, reference: seq<real>): (NodeId, Response) -> real {
    (id: NodeId, r: Response) => Score(sqrt, r.probs, reference)
  }

  method ScoreVotes(sqrt: real -> real, responses: Dict<NodeId, Response>, ids: seq<NodeId>, reference: seq<real>,
                    ghost honest: Dict<NodeId, Response>)
    returns (scores: Dict<NodeId, real>)
    requires Distinct(responses) && Distinct(honest) && ids == Ids(honest)
    requires forall i :: 0 <= i < |honest| ==> honest[i] in responses && |honest[i].1.probs| == |reference|
    ensures scores == Tabulated(honest, Scoring(sqrt, reference))
  {
    hide Put, Has, Get, IndexOf;
    ghost var f := Scoring(sqrt, reference);
    scores := [];
    for k := 0 to |ids|
      invariant scores == Tabulated(honest[..k], f)
    {
      GetEntry(responses, honest[k]);
      var own := Get(responses, ids[k]);
      var score := Cosine(sqrt, own.probs, reference).value;
      TableStep(honest, f, k);
      scores := Put(scores, ids[k], score);
    }
    assert honest[..|ids|] == honest;
  }

  function Sharing(sqrt: real -> real, reference: seq<real>, pool: real, total: real, honest: nat)
    : (NodeId, Response) -> real
  {
    (id: NodeId, r: Response) => Share(pool, Score(sqrt, r.probs, reference), total, honest)
  }

  function Paying(sqrt: real -> real, reference: seq<real>, pool: real, total: real, honest: nat, primary: NodeId)
    : (NodeId, Response) -> real
  {
    (id: NodeId, r: Response) =>
      Share(pool, Score(sqrt, r.probs, reference), total, honest) + Bonus(id == primary, LEADER_BONUS)
  }

  function Rating(sqrt: real -> real, reference: seq<real>, primary: NodeId): (NodeId, Response) -> real {
    (id: NodeId, r: Response) =>
      Min(Score(sqrt, r.probs, reference), REP_CAP_PER_ROUND) + Bonus(id == primary, REP_LEADER_BONUS)
  }

  function Penalising(): (NodeId, Response) -> real {
    (id: NodeId, r: Response) => -REP_PENALTY
  }

  lemma BonusStep(honest: Dict<NodeId, Response>, sqrt: real -> real, reference: seq<real>, pool: real, total: real,
                  n: nat, primary: NodeId)
    requires Distinct(honest)
    ensures var d := Tabulated(honest, Sharing(sqrt, reference, pool, total, n));
            Tabulated(honest, Paying(sqrt, reference, pool, total, n, primary))
              == if Has(d, primary) then Put(d, primary, Get(d, primary) + LEADER_BONUS) else d
  {
    hide Share, Score;
    var d := Tabulated(honest, Sharing(sqrt, reference, pool, total, n));
    assert forall i :: 0 <= i < |honest| ==> d[i].0 == honest[i].0;
  }

  method PayShares(sqrt: real -> real, scores: Dict<NodeId, real>, ids: seq<NodeId>, primary: NodeId, pool: real,
                   ghost honest: Dict<NodeId, Response>, ghost reference: seq<real>)
    returns (rewards: Dict<NodeId, real>)
    requires Distinct(honest) && ids == Ids(honest) && scores == Tabulated(honest, Scoring(sqrt, reference))
    ensures rewards == Tabulated(honest, Paying(sqrt, reference, pool, Sum(Values(scores)), |honest|, primary))
  {
    hide Score, Put, Has, Get, IndexOf, Sum;
    var total := Sum(Values(scores));
    ghost var f := Sharing(sqrt, reference, pool, total, |honest|);
    rewards := [];
    if total > 0.0 {
      for k := 0 to |scores|
        invariant rewards == Tabulated(honest[..k], f)
      {
        var (id, score) := scores[k];
        assert score == Score(sqrt, honest[k].1.probs, reference);
        assert f(honest[k].0, honest[k].1) == pool * (score / total);
        TableStep(honest, f, k);
        rewards := Put(rewards, id, pool * (score / total));
      }
    } else {
      var share := if ids != [] then pool / |ids| as real else 0.0;
      assert |ids| == |honest|;
      for k := 0 to |ids|
        invariant rewards == Tabulated(honest[..k], f)
      {
        assert f(honest[k].0, honest[k].1) == share;
        TableStep(honest, f, k);
        rewards := Put(rewards, ids[k], share);
      }
    }
    assert honest[..|honest|] == honest;
    BonusStep(honest, sqrt, reference, pool, total, |honest|, primary);
    if Has(rewards, primary) {
      rewards := Put(rewards, primary, Get(rewards, primary) + LEADER_BONUS);
    }
  }

  method RateNodes(sqrt: real -> real, scores: Dict<NodeId, real>, honestIds: seq<NodeId>, byzantineIds: seq<NodeId>,
                   primary: NodeId, ghost honest: Dict<NodeId, Response>, ghost byzantine: Dict<NodeId, Response>,
                   ghost reference: seq<real>)
    returns (deltas: Dict<NodeId, real>)
    requires Distinct(honest) && honestIds == Ids(honest) && scores == Tabulated(honest, Scoring(sqrt, reference))
    requires Distinct(byzantine) && byzantineIds == Ids(byzantine)
    requires forall i, j :: 0 <= i < |honest| && 0 <= j < |byzantine| ==> honest[i].0 != byzantine[j].0
    ensures deltas == Tabulated(honest, Rating(sqrt, reference, primary)) + Tabulated(byzantine, Penalising())
  {
    hide Score, Has, Get, IndexOf, Put;
    ghost var f := Rating(sqrt, reference, primary);
    deltas := [];
    for k := 0 to |honestIds|
      invariant deltas == Tabulated(honest[..k], f)
    {
      GetEntry(scores, scores[k]);
      var delta := Min(Get(scores, honestIds[k]), REP_CAP_PER_ROUND);
      if honestIds[k] == primary {
        delta := delta + REP_LEADER_BONUS;
      }
      assert delta == f(honest[k].0, honest[k].1);
      TableStep(honest, f, k);
      deltas := Put(deltas, honestIds[k], delta);
    }
    assert honest[..|honest|] == honest;
    ghost var rated := Tabulated(honest, f);
    for k := 0 to |byzantineIds|
      invariant deltas == rated + Tabulated(byzantine[..k], Penalising())
    {
      PenaltyStep(rated, honest, byzantine, k);
      deltas := Put(deltas, byzantineIds[k], -REP_PENALTY);
    }
    assert byzantine[..|byzantine|] == byzantine;
  }

  lemma PenaltyStep(rated: Dict<NodeId, real>, honest: Dict<NodeId, Response>, byzantine: Dict<NodeId, Response>, k: nat)
    requires k < |byzantine| && Distinct(byzantine) && |rated| == |honest|
    requires forall i :: 0 <= i < |honest| ==> rated[i].0 == honest[i].0
    requires forall i, j :: 0 <= i < |honest| && 0 <= j < |byzantine| ==> honest[i].0 != byzantine[j].0
    ensures Put(rated + Tabulated(byzantine[..k], Penalising()), byzantine[k].0, -REP_PENALTY)
              == rated + Tabulated(byzantine[..k + 1], Penalising())
  {
    var d := rated + Tabulated(byzantine[..k], Penalising());
    assert forall i :: 0 <= i < |d| ==> d[i].0 != byzantine[k].0;
  }

  /** Honest and dissenting entries share no key. */
  lemma SidesDisjoint(responses: Dict<NodeId, Response>, cls: int)
    requires Distinct(responses)
    ensures var honest, byzantine := Voting(responses, cls, true), Voting(responses, cls, false);
            forall i, j :: 0 <= i < |honest| && 0 <= j < |byzantine| ==> honest[i].0 != byzantine[j].0
  {
    var honest, byzantine := Voting(responses, cls, true), Voting(responses, cls, false);
    forall i, j | 0 <= i < |honest| && 0 <= j < |byzantine| ensures honest[i].0 != byzantine[j].0 {
      VotingMember(responses, cls, true, honest[i]);
      VotingMember(responses, cls, false, byzantine[j]);
    }
  }

  /** Scoring succeeds exactly when there is a response and the agreeing vectors have one length. */
  lemma RewardsExist(sqrt: real -> real, requestId: string, primary: NodeId, cls: int,
                     responses: Dict<NodeId, Response>, fees: real)
    ensures RoundRewards(sqrt, requestId, primary, cls, responses, fees).Some? <==> Scorable(responses, cls)
  {
    if responses != [] {
      var honest := Voting(responses, cls, true);
      forall e: (NodeId, Response) ensures e in honest <==> e in responses && e.1.cls == cls {
        VotingMember(responses, cls, true, e);
      }
      SameLengths(responses, honest, cls);
    }
  }

  lemma SameLengths(responses: Dict<NodeId, Response>, honest: Dict<NodeId, Response>, cls: int)
    requires forall e :: e in honest <==> e in responses && e.1.cls == cls
    requires responses != []
    ensures Scorable(responses, cls) <==> honest == [] || AllOfLength(Vectors(honest), |honest[0].1.probs|)
  {
    if Scorable(responses, cls) && honest != [] {
      assert honest[0] in honest;
      forall i | 0 <= i < |honest| ensures |honest[i].1.probs| == |honest[0].1.probs| {
        assert honest[i] in honest;
      }
    } else if honest == [] {
      forall i | 0 <= i < |responses| ensures responses[i].1.cls != cls {
        assert responses[i] in responses;
      }
    } else if AllOfLength(Vectors(honest), |honest[0].1.probs|) {
      forall i | 0 <= i < |responses| && responses[i].1.cls == cls
        ensures |responses[i].1.probs| == |honest[0].1.probs|
      {
        assert responses[i] in honest;
        var k :| 0 <= k < |honest| && honest[k] == responses[i];
        assert Vectors(honest)[k] == responses[i].1.probs;
      }
    }
  }

  /** Looking an entry up in the filled dicts gives that entry's result. */
  lemma ResultFound(sqrt: real -> real, responses: Dict<NodeId, Response>, cls: int, primary: NodeId,
                    reference: seq<real>, pool: real, total: real, i: nat)
    requires Distinct(responses) && i < |responses|
    ensures var honest, byzantine := Voting(responses, cls, true), Voting(responses, cls, false);
            var n, (id, r) := |honest|, responses[i];
            var rates := Tabulated(honest, Rating(sqrt, reference, primary)) + Tabulated(byzantine, Penalising());
            Result(sqrt, responses[i], cls, primary, reference, pool, total, n)
              == NodeResult(id, id in Ids(honest), r.cls, r.probs,
                            GetOr(Tabulated(honest, Scoring(sqrt, reference)), id, 0.0),
                            GetOr(Tabulated(honest, Paying(sqrt, reference, pool, total, n, primary)), id, 0.0),
                            GetOr(rates, id, 0.0))
  {
    hide Voting, Score, Share, Tabulated, Has, Get, Min, Bonus;
    var honest, byzantine := Voting(responses, cls, true), Voting(responses, cls, false);
    var n, id := |honest|, responses[i].0;
    var scoring, paying := Scoring(sqrt, reference), Paying(sqrt, reference, pool, total, n, primary);
    var rating := Rating(sqrt, reference, primary);
    TableLookup(responses, cls, true, scoring, i);
    TableLookup(responses, cls, true, paying, i);
    TableLookup(responses, cls, true, rating, i);
    TableLookup(responses, cls, false, Penalising(), i);
    ConcatLookup(Tabulated(honest, rating), Tabulated(byzantine, Penalising()), id);
    ListedKey(honest, scoring, id);
  }

  lemma ListedKey(entries: Dict<NodeId, Response>, f: (NodeId, Response) -> real, id: NodeId)
    ensures id in Ids(entries) <==> Has(Tabulated(entries, f), id)
  {
    var d := Tabulated(entries, f);
    assert forall i :: 0 <= i < |entries| ==> d[i].0 == entries[i].0 == Ids(entries)[i];
    if id in Ids(entries) {
      var k :| 0 <= k < |entries| && Ids(entries)[k] == id;
      assert d[k].0 == id;
    }
  }

  method ComputeRoundRewards(sqrt: real -> real, requestId: string, primary: NodeId, cls: int,
                             responses: Dict<NodeId, Response>, fees: real)
    returns (r: Option<RoundResult>)
    requires Distinct(responses)
    ensures r == RoundRewards(sqrt, requestId, primary, cls, responses, fees)
  {
    hide Voting, Score, Sum, Distinct, Columns, Result, Has, Get, Put, IndexOf;
    ghost var honest, byzantine := Voting(responses, cls, true), Voting(responses, cls, false);
    var pool := fees + INFERENCE_REWARD;
    var honestProbs, honestIds, byzantineIds := ClassifyVotes(responses, cls);
    var reference;
    if honestProbs == [] {
      if responses == [] { return None; }
      reference := Uniform(responses);
    } else {
      var mean := AggregateProbabilities(honestProbs);
      if mean.None? {
        VotingOfNothing(responses, cls);
        return None;
      }
      reference := mean.value;
    }
    VotingOfNothing(responses, cls);
    VotingDistinct(responses, cls, true);
    VotingDistinct(responses, cls, false);
    SidesDisjoint(responses, cls);
    forall i | 0 <= i < |honest| ensures honest[i] in responses && |honest[i].1.probs| == |reference| {
      VotingMember(responses, cls, true, honest[i]);
      assert |Vectors(honest)[i]| == |reference|;
    }
    var scores := ScoreVotes(sqrt, responses, honestIds, reference, honest);
    assert Values(scores) == Scores(sqrt, honest, reference);
    var rewards := PayShares(sqrt, scores, honestIds, primary, pool, honest, reference);
    var deltas := RateNodes(sqrt, scores, honestIds, byzantineIds, primary, honest, byzantine, reference);
    ghost var total := Sum(Values(scores));
    var results: seq<NodeResult> := [];
    for i := 0 to |responses|
      invariant |results| == i
      invariant forall j :: 0 <= j < i ==>
        results[j] == Result(sqrt, responses[j], cls, primary, reference, pool, total, |honest|)
    {
      var (id, own) := responses[i];
      ResultFound(sqrt, responses, cls, primary, reference, pool, total, i);
      results := results + [NodeResult(id, id in honestIds, own.cls, own.probs, GetOr(scores, id, 0.0),
                                       GetOr(rewards, id, 0.0), GetOr(deltas, id, 0.0))];
    }
    assert results == ResultsOf(sqrt, responses, cls, primary, reference, pool, total, |honest|);
    assert Reference(responses, cls) == Some(reference);
    r := Some(RoundResult(requestId, cls, reference, primary, results, pool));
  }

  lemma VotingOfNothing(responses: Dict<NodeId, Response>, cls: int)
    ensures responses == [] ==> Voting(responses, cls, true) == []
  {}

  // Conservation

  function Shares(pool: real, scores: seq<real>, total: real, honest: nat): (r: seq<real>)
    ensures |r| == |scores|
  {
    seq(|scores|, i requires 0 <= i < |scores| => Share(pool, scores[i], total, honest))
  }

  lemma ScoreShareStep(pool: real, a: real, b: real, total: real)
    requires total > 0.0
    ensures pool * (a / total) + pool * (b / total) == pool * ((a + b) / total)
  {
    var x, y := a / total, b / total;
    assert (a + b) / total == x + y;
  }

  lemma EqualShareStep(pool: real, k: nat, n: nat)
    requires n > 0
    ensures k as real * (pool / n as real) + pool / n as real == (k + 1) as real * (pool / n as real)
    ensures n as real * (pool / n as real) == pool
  {}

  lemma {:induction false} SharesOfPrefix(pool: real, scores: seq<real>, total: real, n: nat)
    requires n > 0
    ensures Sum(Shares(pool, scores, total, n))
              == if total > 0.0 then pool * (Sum(scores) / total) else |scores| as real * (pool / n as real)
  {
    if scores == [] {
    } else {
      hide Share;
      var k := |scores| - 1;
      SharesOfPrefix(pool, scores[..k], total, n);
      assert Shares(pool, scores, total, n)[..k] == Shares(pool, scores[..k], total, n);
      ShareStep(pool, Sum(scores[..k]), scores[k], total, k, n);
    }
  }

  lemma ShareStep(pool: real, sum: real, score: real, total: real, k: nat, n: nat)
    requires n > 0
    ensures total > 0.0 ==> pool * (sum / total) + Share(pool, score, total, n) == pool * ((sum + score) / total)
    ensures total <= 0.0 ==>
              k as real * (pool / n as real) + Share(pool, score, total, n) == (k + 1) as real * (pool / n as real)
  {
    if total > 0.0 {
      ScoreShareStep(pool, sum, score, total);
    } else {
      EqualShareStep(pool, k, n);
    }
  }

  /** In both branches the shares add up to exactly the pool, and none is negative. */
  lemma SharesExact(pool: real, scores: seq<real>)
    requires scores != [] && NonNegativeVector(scores)
    ensures Sum(Shares(pool, scores, Sum(scores), |scores|)) == pool
    ensures pool >= 0.0 ==> NonNegativeVector(Shares(pool, scores, Sum(scores), |scores|))
  {
    hide Sum, Share;
    var total, n := Sum(scores), |scores|;
    SharesOfPrefix(pool, scores, total, n);
    WholePool(pool, total, n);
    if pool >= 0.0 {
      forall i | 0 <= i < n ensures Share(pool, scores[i], total, n) >= 0.0 {
        ShareNonNegative(pool, scores[i], total, n);
      }
    }
  }

  lemma WholePool(pool: real, total: real, n: nat)
    requires n > 0
    ensures total > 0.0 ==> pool * (total / total) == pool
    ensures n as real * (pool / n as real) == pool
  {
    if total > 0.0 { assert total / total == 1.0; }
    EqualShareStep(pool, 0, n);
  }

  lemma ShareNonNegative(pool: real, score: real, total: real, n: nat)
    requires pool >= 0.0 && score >= 0.0
    ensures Share(pool, score, total, n) >= 0.0
  {
    if total > 0.0 {
      var part := score / total;
      assert part >= 0.0;
    } else if n > 0 {
      var count := n as real;
      assert pool / count >= 0.0;
    }
  }

  /** What the honest nodes receive. */
  function Paid(results: seq<NodeResult>): real {
    if results == [] then 0.0 else
    var last := results[|results| - 1];
    Paid(results[..|results| - 1]) + if last.honest then last.reward else 0.0
  }

  predicate Agrees(responses: Dict<NodeId, Response>, id: NodeId, cls: int) {
    Has(responses, id) && Get(responses, id).cls == cls
  }

  lemma AgreesStep(rest: Dict<NodeId, Response>, last: (NodeId, Response), id: NodeId, cls: int)
    requires Distinct(rest + [last])
    ensures Agrees(rest + [last], id, cls) <==> Agrees(rest, id, cls) || (last.0 == id && last.1.cls == cls)
    ensures last.0 == id ==> !Agrees(rest, id, cls)
  {
    var d := rest + [last];
    assert d[|rest|] == last;
    assert forall i :: 0 <= i < |rest| ==> d[i] == rest[i];
  }

  lemma {:induction false} PaidOfPrefix(sqrt: real -> real, responses: Dict<NodeId, Response>, cls: int, primary: NodeId,
                                        reference: seq<real>, pool: real, total: real, n: nat)
    requires Distinct(responses)
    ensures Paid(ResultsOf(sqrt, responses, cls, primary, reference, pool, total, n))
              == Sum(Shares(pool, Scores(sqrt, Voting(responses, cls, true), reference), total, n))
                 + Bonus(Agrees(responses, primary, cls), LEADER_BONUS)
  {
    hide Score, Share, Get, Has;
    if responses == [] {
      AgreesNobody(primary, cls);
    } else {
      var k := |responses| - 1;
      var rest, last := responses[..k], responses[k];
      PaidOfPrefix(sqrt, rest, cls, primary, reference, pool, total, n);
      var r := ResultsOf(sqrt, responses, cls, primary, reference, pool, total, n);
      assert r[..k] == ResultsOf(sqrt, rest, cls, primary, reference, pool, total, n);
      assert responses == rest + [last];
      AgreesStep(rest, last, primary, cls);
      if last.1.cls == cls {
        var h := Voting(rest, cls, true);
        var before := Shares(pool, Scores(sqrt, h, reference), total, n);
        var after := Shares(pool, Scores(sqrt, h + [last], reference), total, n);
        assert after[..|h|] == before;
      }
    }
  }

  lemma AgreesNobody(id: NodeId, cls: int)
    ensures !Agrees([], id, cls)
  {}

  /** With an honest response, the honest nodes receive exactly the pool, plus the leader's bonus
      when the primary is one of them; unless the pool is negative nobody's reward is. */
  lemma RewardsConserved(sqrt: real -> real, requestId: string, primary: NodeId, cls: int,
                         responses: Dict<NodeId, Response>, fees: real)
    requires Distinct(responses) && Scorable(responses, cls)
    requires exists i :: 0 <= i < |responses| && responses[i].1.cls == cls
    ensures var r := RoundRewards(sqrt, requestId, primary, cls, responses, fees);
            && r.Some? && r.value.pool == fees + INFERENCE_REWARD
            && Paid(r.value.results) == r.value.pool + Bonus(Agrees(responses, primary, cls), LEADER_BONUS)
            && (r.value.pool >= 0.0 ==> forall i :: 0 <= i < |r.value.results| ==> r.value.results[i].reward >= 0.0)
  {
    hide Sum, Voting, Agrees, Paid, Scorable, Distinct, Shares;
    RewardsExist(sqrt, requestId, primary, cls, responses, fees);
    var r := RoundRewards(sqrt, requestId, primary, cls, responses, fees).value;
    var honest := Voting(responses, cls, true);
    var i :| 0 <= i < |responses| && responses[i].1.cls == cls;
    VotingMember(responses, cls, true, responses[i]);
    var scores := Scores(sqrt, honest, r.aggregated);
    SharesExact(r.pool, scores);
    PaidOfPrefix(sqrt, responses, cls, primary, r.aggregated, r.pool, Sum(scores), |honest|);
    if r.pool >= 0.0 {
      forall j | 0 <= j < |r.results| ensures r.results[j].reward >= 0.0 {
        ShareNonNegative(r.pool, Score(sqrt, responses[j].1.probs, r.aggregated), Sum(scores), |honest|);
      }
    }
  }
}

/** What a sealed round does to reputations: its slashes and its results together. */
module Standing {
  import opened Collections
  import opened Constants
  import opened Quality
  import opened Rewards
  import opened Incentives
  import opened Ledger
  import opened Reputation
  import opened QoIProtocol
  import opened BlockBuilder
  import opened Settlement
  import opened Sealing
  import opened Engine

  function Lowered(reputation: real, penalties: nat): real {
    if reputation > penalties as real * REP_PENALTY then reputation - penalties as real * REP_PENALTY else 0.0
  }

  function Fined(entries: seq<Entry>, a: Address): nat {
    if entries == [] then 0 else
    var last := entries[|entries| - 1];
    Fined(entries[..|entries| - 1], a) + if last.payload.Slash? && last.sender == a then 1 else 0
  }

  /** Protocol transactions register nobody, so only their slashes count. */
  lemma {:induction false} IssueFalls(id: IdOf, clock: Clock, entries: seq<Entry>, a: Address)
    ensures !Reset(Issue(id, clock, entries), a) && Falls(Issue(id, clock, entries), a) == Fined(entries, a)
  {
    if entries != [] {
      var before, txs := entries[..|entries| - 1], Issue(id, clock, entries);
      IssueFalls(id, clock, before, a);
      assert txs[..|before|] == Issue(id, clock, before);
    }
  }

  lemma {:induction false} NoFines(front: seq<Entry>, more: seq<Entry>, a: Address)
    requires forall i :: 0 <= i < |more| ==> !more[i].payload.Slash?
    ensures Fined(front + more, a) == Fined(front, a)
  {
    if more == [] {
      assert front + more == front;
    } else {
      NoFines(front, more[..|more| - 1], a);
      assert (front + more)[..|front + more| - 1] == front + more[..|more| - 1];
    }
  }

  lemma {:induction false} PenaltiesFine(front: seq<Entry>, requestId: string, results: seq<NodeResult>, a: Address)
    ensures Fined(front + Penalties(requestId, results), a) == Fined(front, a) + Slashes(results, a)
  {
    var fines := Penalties(requestId, results);
    if results == [] {
      assert front + fines == front;
    } else {
      var before := Penalties(requestId, results[..|results| - 1]);
      PenaltiesFine(front, requestId, results[..|results| - 1], a);
      if !results[|results| - 1].honest {
        assert (front + fines)[..|front + fines| - 1] == front + before;
      }
    }
  }

  lemma EntriesFine(requestId: string, cls: int, results: seq<NodeResult>, a: Address)
    ensures Fined(Entries(requestId, cls, results), a) == Slashes(results, a)
  {
    hide Payments, Penalties, Confidence, Slashes;
    var front := Answers(requestId, results) + [Summary(requestId, cls, results)];
    PenaltiesFine(front + Payments(requestId, results), requestId, results, a);
    PaymentsKinds(requestId, results);
    NoFines(front, Payments(requestId, results), a);
    assert [] + front == front;
    NoFines([], front, a);
  }

  /** The block's transactions cost a node one penalty for each of its dissenting results. */
  lemma SlashesLower(id: IdOf, clock: Clock, requestId: string, cls: int, results: seq<NodeResult>, r: Reputations, a: Address)
    requires ReputationOf(r, a) >= 0.0
    ensures ReputationOf(RateTxs(r, Issue(id, clock, Entries(requestId, cls, results))), a)
              == Lowered(ReputationOf(r, a), Slashes(results, a))
  {
    hide Issue, Entries, RateTxs, Falls, Reset, Fined, Slashes;
    var entries := Entries(requestId, cls, results);
    IssueFalls(id, clock, entries, a);
    EntriesFine(requestId, cls, results, a);
    ReputationExactly(r, Issue(id, clock, entries), a);
  }

  /** How a round leaves a node's reputation, from where user transactions left it: whoever has not answered keeps
      it; a dissenter pays the penalty twice, with its slash and with its result, down to zero; an agreeing
      node gains its capped score, and the leader a bonus. */
  lemma RoundRated(sqrt: real -> real, id: IdOf, clock: Clock, o: Outcome, txs: seq<Tx>, r: Reputations,
                   result: RoundResult, a: Address)
    requires Scorable(o.responses, o.cls) && Distinct(o.responses) && ReputationOf(r, a) >= 0.0
    requires RoundRewards(sqrt, o.requestId, o.primary, o.cls, o.responses, 0.0) == Some(result)
    ensures var sealed := Issue(id, clock, Entries(o.requestId, o.cls, SealedResults(sqrt, o, txs)));
            var now, was := ReputationOf(RateDeltas(RateTxs(r, sealed), Deltas(result.results)), a), ReputationOf(r, a);
            && (a !in Ids(o.responses) ==> now == was)
            && forall i :: 0 <= i < |o.responses| && o.responses[i].0 == a ==>
                 if o.responses[i].1.cls != o.cls then now == Lowered(was, 2) else
                   && Fair(sqrt, o.responses[i], result, result.results[i])
                   && now == was + result.results[i].repDelta >= was
  {
    hide RoundRewards, Scorable, Issue, Entries, Slashes, RateTxs, RateDeltas, Lowered, Fair, ReputationOf;
    var results := SealedResults(sqrt, o, txs);
    var sealed := Issue(id, clock, Entries(o.requestId, o.cls, results));
    var now, was := ReputationOf(RateDeltas(RateTxs(r, sealed), Deltas(result.results)), a), ReputationOf(r, a);
    LoweredByNone(was);
    Answered(sqrt, o, FeeTotal(txs));
    Answered(sqrt, o, 0.0);
    SlashesLower(id, clock, o.requestId, o.cls, results, r, a);
    DeltasExactly(RateTxs(r, sealed), Deltas(result.results), a);
    if a !in Ids(o.responses) {
      assert forall i :: 0 <= i < |results| ==> results[i].nodeId == Ids(o.responses)[i];
      assert forall i :: 0 <= i < |result.results| ==> result.results[i].nodeId == Ids(o.responses)[i];
      NotListed(results, a);
    }
    forall i | 0 <= i < |o.responses| && o.responses[i].0 == a
      ensures if o.responses[i].1.cls != o.cls then now == Lowered(was, 2) else
                && Fair(sqrt, o.responses[i], result, result.results[i])
                && now == was + result.results[i].repDelta >= was
    {
      SettledOnce(results, i);
      assert Deltas(result.results)[i] == (a, result.results[i].repDelta);
      Moved(sqrt, o.responses[i], result, result.results[i], was);
    }
  }

  lemma Answered(sqrt: real -> real, o: Outcome, fees: real)
    requires Scorable(o.responses, o.cls) && Distinct(o.responses)
    ensures var r := RoundRewards(sqrt, o.requestId, o.primary, o.cls, o.responses, fees);
            && r.Some? && |r.value.results| == |o.responses| && r.value.cls == o.cls
            && (forall i :: 0 <= i < |o.responses| ==>
                  && Fair(sqrt, o.responses[i], r.value, r.value.results[i])
                  && r.value.results[i].nodeId == o.responses[i].0
                  && (r.value.results[i].honest <==> o.responses[i].1.cls == o.cls))
            && (forall i, j :: 0 <= i < j < |o.responses| ==> r.value.results[i].nodeId != r.value.results[j].nodeId)
  {
    hide RoundRewards, Scorable;
    RoundFair(sqrt, o.requestId, o.primary, o.cls, o.responses, fees);
  }

  lemma LoweredByNone(was: real)
    requires was >= 0.0
    ensures Lowered(was, 0) == was
  {}

  /** A slash, if the node dissents, and then its result. */
  lemma Moved(sqrt: real -> real, entry: (NodeId, Response), r: RoundResult, result: NodeResult, was: real)
    requires Fair(sqrt, entry, r, result) && was >= 0.0
    ensures result.honest ==> result.repDelta >= 0.0
    ensures !result.honest ==>
              (if Lowered(was, 1) + result.repDelta > 0.0 then Lowered(was, 1) + result.repDelta else 0.0) == Lowered(was, 2)
  {
    hide Cosine, TotalScore, HonestCount;
  }
}

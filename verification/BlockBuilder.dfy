/** Turning a finished round into a block, and what that block does to the supply. */
module BlockBuilder {
  import opened Collections
  import opened Constants
  import opened Quality
  import opened Rewards
  import opened Ledger
  import opened Merkle
  import opened QoIProtocol

  /** The clock's reading when the n-th transaction is made. */
  type Clock = nat -> real

  // System transactions

  datatype Entry = Entry(payload: ProtocolPayload, sender: Address, recipient: Address)

  function Answer(requestId: string, r: NodeResult): Entry {
    Entry(InferenceResponse(requestId, r.nodeId, Response(r.cls, r.probs)), r.nodeId, "")
  }

  function Payment(requestId: string, r: NodeResult): Entry {
    Entry(Reward(r.reward, "honest_inference", requestId), GENESIS_ADDRESS, r.nodeId)
  }

  function Penalty(requestId: string, r: NodeResult): Entry {
    Entry(Slash(SLASH_PENALTY, "byzantine_inference", requestId), r.nodeId, "")
  }

  function Answers(requestId: string, results: seq<NodeResult>): seq<Entry> {
    seq(|results|, i requires 0 <= i < |results| => Answer(requestId, results[i]))
  }

  function Participants(results: seq<NodeResult>): seq<Address> {
    seq(|results|, i requires 0 <= i < |results| => results[i].nodeId)
  }

  /** The best score among the honest, 0 when there are none. */
  function Confidence(results: seq<NodeResult>): (r: real)
    ensures forall i :: 0 <= i < |results| && results[i].honest ==> results[i].score <= r
    ensures (exists i :: 0 <= i < |results| && results[i].honest && results[i].score == r)
            || (r == 0.0 && forall i :: 0 <= i < |results| ==> !results[i].honest)
  {
    if results == [] then 0.0 else
    var rest, last := results[..|results| - 1], results[|results| - 1];
    if !last.honest || exists i :: 0 <= i < |rest| && rest[i].honest && rest[i].score >= last.score
    then Confidence(rest) else last.score
  }

  function Summary(requestId: string, cls: int, results: seq<NodeResult>): Entry {
    Entry(ConsensusResult(requestId, cls, Confidence(results), Participants(results)), GENESIS_ADDRESS, "")
  }

  /** One REWARD for each honest node that earned something. */
  function Payments(requestId: string, results: seq<NodeResult>): seq<Entry> {
    if results == [] then [] else
    var rest, last := Payments(requestId, results[..|results| - 1]), results[|results| - 1];
    if last.honest && last.reward > 0.0
    then rest + [Payment(requestId, last)] else rest
  }

  /** One SLASH for each node that voted otherwise. */
  function Penalties(requestId: string, results: seq<NodeResult>): seq<Entry> {
    if results == [] then [] else
    var rest, last := Penalties(requestId, results[..|results| - 1]), results[|results| - 1];
    if !last.honest
    then rest + [Penalty(requestId, last)] else rest
  }

  function Entries(requestId: string, cls: int, results: seq<NodeResult>): seq<Entry> {
    Answers(requestId, results) + [Summary(requestId, cls, results)]
    + Payments(requestId, results) + Penalties(requestId, results)
  }

  function SystemTx(id: IdOf, clock: Clock, e: Entry, nonce: nat): Tx {
    Tx(id(System(e.payload), e.sender, e.recipient, nonce, clock(nonce)), System(e.payload), e.sender, e.recipient,
       nonce, 0.0, clock(nonce), "", "")
  }

  /** The entries as transactions, numbered from 1 on. */
  function Issue(id: IdOf, clock: Clock, entries: seq<Entry>): seq<Tx> {
    seq(|entries|, i requires 0 <= i < |entries| => SystemTx(id, clock, entries[i], i + 1))
  }

  lemma IssueStep(id: IdOf, clock: Clock, entries: seq<Entry>, e: Entry)
    ensures Issue(id, clock, entries + [e]) == Issue(id, clock, entries) + [SystemTx(id, clock, e, |entries| + 1)]
    ensures |Issue(id, clock, entries)| == |entries|
  {
    hide SystemTx;
  }

  method BuildSystemTxs(id: IdOf, clock: Clock, requestId: string, cls: int, results: seq<NodeResult>) returns (txs: seq<Tx>)
    ensures txs == Issue(id, clock, Entries(requestId, cls, results))
  {
    hide SystemTx, Issue, Summary, Answer, Payment, Penalty, Answers, Payments, Penalties;
    txs := [];
    var nonce := 1;
    ghost var made: seq<Entry> := [];
    IssueNothing(id, clock);
    NothingListed(requestId, results);
    for i := 0 to |results|
      invariant made == Answers(requestId, results[..i])
      invariant nonce == |made| + 1 && txs == Issue(id, clock, made)
    {
      var entry := Answer(requestId, results[i]);
      ListedStep(requestId, results, i);
      IssueStep(id, clock, made, entry);
      txs, made := txs + [SystemTx(id, clock, entry, nonce)], made + [entry];
      nonce := nonce + 1;
    }
    assert results[..|results|] == results;
    var summary := Summary(requestId, cls, results);
    IssueStep(id, clock, made, summary);
    txs, made := txs + [SystemTx(id, clock, summary, nonce)], made + [summary];
    nonce := nonce + 1;
    ghost var front := made;
    for i := 0 to |results|
      invariant made == front + Payments(requestId, results[..i])
      invariant nonce == |made| + 1 && txs == Issue(id, clock, made)
    {
      var r := results[i];
      ListedStep(requestId, results, i);
      if r.honest && r.reward > 0.0 {
        var entry := Payment(requestId, r);
        IssueStep(id, clock, made, entry);
        txs, made := txs + [SystemTx(id, clock, entry, nonce)], made + [entry];
        nonce := nonce + 1;
      }
    }
    assert results[..|results|] == results;
    front := made;
    for i := 0 to |results|
      invariant made == front + Penalties(requestId, results[..i])
      invariant nonce == |made| + 1 && txs == Issue(id, clock, made)
    {
      var r := results[i];
      ListedStep(requestId, results, i);
      if !r.honest {
        var entry := Penalty(requestId, r);
        IssueStep(id, clock, made, entry);
        txs, made := txs + [SystemTx(id, clock, entry, nonce)], made + [entry];
        nonce := nonce + 1;
      }
    }
  }

  lemma NothingListed(requestId: string, results: seq<NodeResult>)
    ensures Answers(requestId, results[..0]) == Payments(requestId, results[..0]) == Penalties(requestId, results[..0]) == []
  {}

  /** What one more result adds to each list. */
  lemma ListedStep(requestId: string, results: seq<NodeResult>, i: nat)
    requires i < |results|
    ensures Answers(requestId, results[..i + 1]) == Answers(requestId, results[..i]) + [Answer(requestId, results[i])]
    ensures Payments(requestId, results[..i + 1])
              == Payments(requestId, results[..i])
                 + if results[i].honest && results[i].reward > 0.0 then [Payment(requestId, results[i])] else []
    ensures Penalties(requestId, results[..i + 1])
              == Penalties(requestId, results[..i]) + if results[i].honest then [] else [Penalty(requestId, results[i])]
  {
    hide Answer, Payment, Penalty;
    assert results[..i + 1][..i] == results[..i];
  }

  lemma IssueNothing(id: IdOf, clock: Clock)
    ensures Issue(id, clock, []) == []
  {}

  // The block

  /** The signatures with later ones of a node that has already signed dropped. */
  function Deduped(signatures: seq<(NodeId, string)>): seq<(NodeId, string)> {
    if signatures == [] then [] else
    var rest, last := Deduped(signatures[..|signatures| - 1]), signatures[|signatures| - 1];
    if Has(rest, last.0) then rest else rest + [last]
  }

  /** The block a finished round leads to; None where scoring or the block constructor raises. */
  function QoIBlock(sqrt: real -> real, sha: string -> string, id: IdOf, clock: Clock, time: real, prevHash: string,
                    height: int, proposer: Address, inferenceTx: Tx, simpleTxs: seq<Tx>, o: Outcome, fees: real): Option<Block>
  {
    match RoundRewards(sqrt, o.requestId, o.primary, o.cls, o.responses, fees)
    case None => None
    case Some(r) =>
      if inferenceTx.Family() != INFERENCE then None else
      var system := Issue(id, clock, Entries(o.requestId, o.cls, r.results));
      var root := MerkleRoot(sha, TxIds([inferenceTx] + simpleTxs + system));
      Some(Block(Header(prevHash, height, time, proposer, root, QOI, o.view),
                 simpleTxs, Deduped(o.commitSignatures), Some(inferenceTx), system))
  }

  /** The votes as they can be read back from a round's results. */
  function Recovered(results: seq<NodeResult>): Dict<NodeId, Response> {
    seq(|results|, i requires 0 <= i < |results| => (results[i].nodeId, Response(results[i].cls, results[i].probs)))
  }

  lemma VoteKept(sqrt: real -> real, entry: (NodeId, Response), cls: int, primary: NodeId,
                 reference: seq<real>, pool: real, total: real, n: nat)
    ensures var r := Result(sqrt, entry, cls, primary, reference, pool, total, n);
            (r.nodeId, Response(r.cls, r.probs)) == entry
  {}

  /** The results of a round hold all its votes. */
  lemma RecoversVotes(sqrt: real -> real, requestId: string, primary: NodeId, cls: int,
                      responses: Dict<NodeId, Response>, fees: real)
    ensures var r := RoundRewards(sqrt, requestId, primary, cls, responses, fees);
            r.Some? ==> Recovered(r.value.results) == responses
  {
    hide Voting, Sum, Scores, Result;
    var r := RoundRewards(sqrt, requestId, primary, cls, responses, fees);
    if r.Some? {
      var total, n := Sum(Scores(sqrt, Voting(responses, cls, true), r.value.aggregated)), |Voting(responses, cls, true)|;
      forall i | 0 <= i < |responses| ensures Recovered(r.value.results)[i] == responses[i] {
        VoteKept(sqrt, responses[i], cls, primary, r.value.aggregated, r.value.pool, total, n);
      }
    }
  }

  /** Rebuilds the votes from the results the round machine computed, without fees, and pays them
      again with the block's fees. */
  method BuildQoIBlock(sqrt: real -> real, sha: string -> string, id: IdOf, clock: Clock, time: real, prevHash: string,
                       height: int, proposer: Address, inferenceTx: Tx, simpleTxs: seq<Tx>, o: Outcome,
                       result: RoundResult, fees: real)
    returns (b: Option<Block>)
    requires Distinct(o.responses)
    requires RoundRewards(sqrt, o.requestId, o.primary, o.cls, o.responses, 0.0) == Some(result)
    ensures b == QoIBlock(sqrt, sha, id, clock, time, prevHash, height, proposer, inferenceTx, simpleTxs, o, fees)
  {
    hide RoundRewards, Entries, MerkleRoot, Issue;
    RecoversVotes(sqrt, o.requestId, o.primary, o.cls, o.responses, 0.0);
    var responses: Dict<NodeId, Response> := [];
    for i := 0 to |result.results|
      invariant responses == o.responses[..i]
    {
      var r := result.results[i];
      FreshKey(o.responses, i);
      assert o.responses[i] == Recovered(result.results)[i];
      responses := Put(responses, r.nodeId, Response(r.cls, r.probs));
    }
    assert responses == o.responses;
    var paid := ComputeRoundRewards(sqrt, o.requestId, o.primary, o.cls, responses, fees);
    if paid.None? { return None; }
    var system := BuildSystemTxs(id, clock, o.requestId, o.cls, paid.value.results);
    var root := MerkleRoot(sha, TxIds([inferenceTx] + simpleTxs + system));
    var signatures: seq<(NodeId, string)> := [];
    for i := 0 to |o.commitSignatures|
      invariant signatures == Deduped(o.commitSignatures[..i])
    {
      var (node, signature) := o.commitSignatures[i];
      assert o.commitSignatures[..i + 1][..i] == o.commitSignatures[..i];
      if !Has(signatures, node) {
        signatures := signatures + [(node, signature)];
      }
    }
    assert o.commitSignatures[..|o.commitSignatures|] == o.commitSignatures;
    if inferenceTx.Family() != INFERENCE { return None; }
    b := Some(Block(Header(prevHash, height, time, proposer, root, QOI, o.view),
                    simpleTxs, signatures, Some(inferenceTx), system));
  }

  lemma FreshKey<K, V>(d: Dict<K, V>, i: nat)
    requires Distinct(d) && i < |d|
    ensures !Has(d[..i], d[i].0)
  {
    assert forall j :: 0 <= j < i ==> d[..i][j].0 != d[i].0;
  }
}

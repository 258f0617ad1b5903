/** What a sealed block does to every account, and what it leaves in the log. */
module Sealing {
  import opened Collections
  import opened Constants
  import opened Quality
  import opened Rewards
  import opened Ledger
  import opened Merkle
  import opened QoIProtocol
  import opened BlockBuilder
  import opened Solvency
  import opened Settlement
  import opened Supply
  import LifeCycle

  // Fees and receipts

  /** What user transactions bring to an account, besides fees: transfers to it, and stake it takes back. */
  function Received(txs: seq<Tx>, a: Address): real {
    if txs == [] then 0.0 else
    var last := txs[|txs| - 1];
    Received(txs[..|txs| - 1], a)
    + (if last.payload.Simple? && last.payload.user.TokenTransfer? && last.recipient == a then last.payload.user.amount else 0.0)
    + (if last.payload.Simple? && last.payload.user.Unstake? && last.sender == a then last.payload.user.amount else 0.0)
  }

  /** All fees above zero. */
  function PositiveFees(txs: seq<Tx>): real {
    if txs == [] then 0.0 else
    PositiveFees(txs[..|txs| - 1]) + if txs[|txs| - 1].fee > 0.0 then txs[|txs| - 1].fee else 0.0
  }

  /** User transactions bring their fees to the proposer, and nobody else. */
  lemma {:induction false} IncomeSplits(txs: seq<Tx>, proposer: Address, a: Address)
    requires forall i :: 0 <= i < |txs| ==> txs[i].Family() == SIMPLE
    ensures Income(txs, proposer, a) == Received(txs, a) + if a == proposer then PositiveFees(txs) else 0.0
  {
    if txs != [] {
      IncomeSplits(txs[..|txs| - 1], proposer, a);
    }
  }

  // The block's effect

  /** The results that a block built for an outcome pays: those for the fees of its user transactions. */
  function SealedResults(sqrt: real -> real, o: Outcome, txs: seq<Tx>): seq<NodeResult> {
    var r := RoundRewards(sqrt, o.requestId, o.primary, o.cls, o.responses, FeeTotal(txs));
    if r.Some? then r.value.results else []
  }

  /** Every account's balance is what it was, with what users send it, less what it spends, with its rewards,
      and with all positive fees if it is the proposer. */
  ghost predicate Balanced(before: Books, after: Books, txs: seq<Tx>, results: seq<NodeResult>, proposer: Address, a: Address) {
    Amount(after.balances, a)
      == Amount(before.balances, a) + Received(txs, a) - Spent(txs, a) + PaidTo(results, a)
         + if a == proposer then PositiveFees(txs) else 0.0
  }

  /** Its stake is what it was, with what it stakes, less what it withdraws, cut by one penalty for each
      dissenting result. */
  ghost predicate Restaked(before: Books, after: Books, txs: seq<Tx>, results: seq<NodeResult>, a: Address) {
    Amount(after.stakes, a)
      == AfterSlashes(Amount(before.stakes, a) + Staked(txs, a) - Withdrawn(txs, a), Slashes(results, a))
  }

  /** A block of a request, user transactions and the protocol's transactions for some results. */
  lemma SettledBlock(e: Crypto, s: Books, b: Block, inferenceTx: Tx, id: IdOf, clock: Clock, requestId: string, cls: int,
                     results: seq<NodeResult>, a: Address)
    requires b.inferenceTx == Some(inferenceTx) && inferenceTx.Family() == INFERENCE
    requires forall i :: 0 <= i < |b.simpleTxs| ==> b.simpleTxs[i].Family() == SIMPLE
    requires b.systemTxs == Issue(id, clock, Entries(requestId, cls, results))
    ensures Balanced(s, ApplyBlock(e, s, b), b.simpleTxs, results, b.header.proposerId, a)
    ensures Restaked(s, ApplyBlock(e, s, b), b.simpleTxs, results, a)
  {
    hide ApplyTxs, Issue, Entries, Income, Received, PositiveFees, Spent, PaidTo, Slashes, AfterSlashes, Staked, Withdrawn, Amount;
    var h, p, txs := b.header.height, b.header.proposerId, b.simpleTxs;
    assert b.AllTransactions() == [inferenceTx] + txs + b.systemTxs;
    ApplyJoined(e, s, [inferenceTx] + txs, b.systemTxs, h, p);
    ApplyJoined(e, s, [inferenceTx], txs, h, p);
    FrontUnchanged(e, s, [inferenceTx], h, p);
    var users := ApplyTxs(e, s, txs, h, p);
    TxsMoveBalance(e, s, txs, h, p, a);
    IncomeSplits(txs, p, a);
    NoSlashAmongUsers(txs, a);
    TxsMoveStake(e, s, txs, h, p, a);
    Settles(e, users, id, clock, requestId, cls, results, h, p, a);
  }

  // The log

  ghost predicate LastResult(txs: seq<Tx>, k: nat, requestId: string) {
    && k < |txs| && IsResult(txs[k], requestId)
    && forall j :: k < j < |txs| ==> !IsResult(txs[j], requestId)
  }

  predicate IsResult(tx: Tx, requestId: string) {
    tx.payload.System? && tx.payload.protocol.ConsensusResult? && tx.payload.protocol.requestId == requestId
  }

  lemma {:induction false} LoggedLast(e: Crypto, s: Books, txs: seq<Tx>, height: int, proposer: Address, requestId: string, k: nat)
    requires LastResult(txs, k, requestId)
    ensures var log := ApplyTxs(e, s, txs, height, proposer).inferenceLog;
            requestId in log && log[requestId] == txs[k].payload.protocol
  {
    hide ApplyTx;
    var before, last := txs[..|txs| - 1], txs[|txs| - 1];
    LogStep(e, ApplyTxs(e, s, before, height, proposer), last, height, proposer, requestId);
    if k < |before| {
      LoggedLast(e, s, before, height, proposer, requestId, k);
    }
  }

  lemma LogStep(e: Crypto, s: Books, tx: Tx, height: int, proposer: Address, requestId: string)
    ensures var log := ApplyTx(e, s, tx, height, proposer).inferenceLog;
            if IsResult(tx, requestId) then requestId in log && log[requestId] == tx.payload.protocol
            else requestId in s.inferenceLog ==> requestId in log && log[requestId] == s.inferenceLog[requestId]
  {
    hide ApplySimple, ApplySystem, PayFee;
    var ev := LifeCycle.Event(tx, height, proposer);
    match tx.payload
    case Simple(p) => LifeCycle.UserRecords(e, s, ev, p, requestId);
    case Inference(_) =>
    case System(p) => LifeCycle.ProtocolRecords(e, s, ev, p, requestId);
  }

  /** What the log says about a request: the agreed class, who took part, and the best score of an honest node. */
  ghost predicate Logged(log: map<string, ProtocolPayload>, requestId: string, cls: int, results: seq<NodeResult>) {
    && requestId in log && log[requestId].ConsensusResult?
    && var r := log[requestId];
       && r.requestId == requestId && r.finalClass == cls
       && |r.participating| == |results| && (forall i :: 0 <= i < |results| ==> r.participating[i] == results[i].nodeId)
       && (forall i :: 0 <= i < |results| && results[i].honest ==> results[i].score <= r.confidence)
       && ((exists i :: 0 <= i < |results| && results[i].honest && results[i].score == r.confidence)
           || (r.confidence == 0.0 && forall i :: 0 <= i < |results| ==> !results[i].honest))
  }

  /** Only one entry is a result. */
  lemma OneSummary(requestId: string, cls: int, results: seq<NodeResult>)
    ensures var es := Entries(requestId, cls, results);
            && |results| < |es| && es[|results|] == Summary(requestId, cls, results)
            && forall i :: |results| < i < |es| ==> !es[i].payload.ConsensusResult?
  {
    hide Summary, Payments, Penalties, Answers;
    PaymentsKinds(requestId, results);
    PenaltiesKinds(requestId, results);
    assert |Answers(requestId, results)| == |results| by { AnswersCount(requestId, results); }
  }

  lemma AnswersCount(requestId: string, results: seq<NodeResult>)
    ensures |Answers(requestId, results)| == |results|
  {}

  lemma {:induction false} PaymentsKinds(requestId: string, results: seq<NodeResult>)
    ensures forall i :: 0 <= i < |Payments(requestId, results)| ==> Payments(requestId, results)[i].payload.Reward?
  {
    if results != [] {
      PaymentsKinds(requestId, results[..|results| - 1]);
    }
  }

  lemma {:induction false} PenaltiesKinds(requestId: string, results: seq<NodeResult>)
    ensures forall i :: 0 <= i < |Penalties(requestId, results)| ==> Penalties(requestId, results)[i].payload.Slash?
  {
    if results != [] {
      PenaltiesKinds(requestId, results[..|results| - 1]);
    }
  }

  lemma SummaryLogged(requestId: string, cls: int, results: seq<NodeResult>, log: map<string, ProtocolPayload>)
    requires requestId in log && log[requestId] == Summary(requestId, cls, results).payload
    ensures Logged(log, requestId, cls, results)
  {}

  lemma IssuedAt(id: IdOf, clock: Clock, entries: seq<Entry>)
    ensures |Issue(id, clock, entries)| == |entries|
    ensures forall i :: 0 <= i < |entries| ==> Issue(id, clock, entries)[i].payload == System(entries[i].payload)
  {}

  /** The block's request is found in the log under its id. */
  lemma ResultLogged(e: Crypto, s: Books, b: Block, inferenceTx: Tx, id: IdOf, clock: Clock, requestId: string, cls: int,
                     results: seq<NodeResult>)
    requires b.inferenceTx == Some(inferenceTx) && inferenceTx.Family() == INFERENCE
    requires forall i :: 0 <= i < |b.simpleTxs| ==> b.simpleTxs[i].Family() == SIMPLE
    requires b.systemTxs == Issue(id, clock, Entries(requestId, cls, results))
    ensures Logged(ApplyBlock(e, s, b).inferenceLog, requestId, cls, results)
  {
    hide ApplyTxs, Issue, Entries, Confidence, Summary, Logged;
    var txs, k := b.AllTransactions(), 1 + |b.simpleTxs| + |results|;
    var entries := Entries(requestId, cls, results);
    OneSummary(requestId, cls, results);
    IssuedAt(id, clock, entries);
    assert txs == [inferenceTx] + b.simpleTxs + b.systemTxs;
    assert txs[k] == b.systemTxs[|results|];
    SummaryIs(requestId, cls, results);
    forall j | k < j < |txs| ensures !IsResult(txs[j], requestId) {
      assert txs[j] == b.systemTxs[j - 1 - |b.simpleTxs|];
    }
    LoggedLast(e, s, txs, b.header.height, b.header.proposerId, requestId, k);
    SummaryLogged(requestId, cls, results, ApplyBlock(e, s, b).inferenceLog);
  }

  lemma SummaryIs(requestId: string, cls: int, results: seq<NodeResult>)
    ensures var entry := Summary(requestId, cls, results);
            entry.payload.ConsensusResult? && entry.payload.requestId == requestId && entry.sender == GENESIS_ADDRESS
  {}

  /** What a block built for an outcome does on the tip it is built on: its header names the outcome's primary and
      view, every account is settled, and the log has the agreed class. */
  lemma SealedBlock(e: Crypto, s: Books, sqrt: real -> real, id: IdOf, clock: Clock, time: real, prevHash: string,
                    height: int, inferenceTx: Tx, simpleTxs: seq<Tx>, o: Outcome, b: Block)
    requires Buildable(inferenceTx, simpleTxs, o)
    requires QoIBlock(sqrt, e.sha, id, clock, time, prevHash, height, o.primary, inferenceTx, simpleTxs, o,
                      FeeTotal(simpleTxs)) == Some(b)
    ensures b.header.prevHash == prevHash && b.header.height == height && b.header.timestamp == time
    ensures b.header.proposerId == o.primary && b.header.view == o.view && b.header.blockType == QOI
    ensures var results := SealedResults(sqrt, o, simpleTxs);
            && (forall a :: Balanced(s, ApplyBlock(e, s, b), simpleTxs, results, o.primary, a))
            && (forall a :: Restaked(s, ApplyBlock(e, s, b), simpleTxs, results, a))
            && b.systemTxs == Issue(id, clock, Entries(o.requestId, o.cls, results))
            && Logged(ApplyBlock(e, s, b).inferenceLog, o.requestId, o.cls, results)
  {
    hide RoundRewards, Issue, Entries, Balanced, Restaked, Logged, ApplyBlock, MerkleRoot, Deduped, FeeTotal, Scorable, Distinct;
    var results := SealedResults(sqrt, o, simpleTxs);
    forall a ensures Balanced(s, ApplyBlock(e, s, b), simpleTxs, results, o.primary, a) {
      SettledBlock(e, s, b, inferenceTx, id, clock, o.requestId, o.cls, results, a);
    }
    forall a ensures Restaked(s, ApplyBlock(e, s, b), simpleTxs, results, a) {
      SettledBlock(e, s, b, inferenceTx, id, clock, o.requestId, o.cls, results, a);
    }
    ResultLogged(e, s, b, inferenceTx, id, clock, o.requestId, o.cls, results);
  }

  // The transcript

  /** How a protocol transaction is made: numbered from 1 on, free, unsigned, with the id of its contents. */
  ghost predicate Made(id: IdOf, clock: Clock, tx: Tx, n: nat) {
    && tx.nonce == n && tx.fee == 0.0 && tx.signature == "" && tx.publicKey == "" && tx.timestamp == clock(n)
    && tx.txId == id(tx.payload, tx.sender, tx.recipient, n, clock(n))
  }

  ghost predicate Reports(tx: Tx, requestId: string, r: NodeResult) {
    tx.payload == System(InferenceResponse(requestId, r.nodeId, Response(r.cls, r.probs))) && tx.sender == r.nodeId
  }

  ghost predicate Pays(tx: Tx, requestId: string, r: NodeResult) {
    && tx.payload == System(Reward(r.reward, "honest_inference", requestId))
    && tx.sender == GENESIS_ADDRESS && tx.recipient == r.nodeId && r.honest && r.reward > 0.0
  }

  ghost predicate Punishes(tx: Tx, requestId: string, r: NodeResult) {
    && tx.payload == System(Slash(SLASH_PENALTY, "byzantine_inference", requestId)) && tx.sender == r.nodeId && !r.honest
  }

  /** A reward or a penalty of some result. */
  ghost predicate Due(tx: Tx, requestId: string, results: seq<NodeResult>) {
    exists r :: r in results && (Pays(tx, requestId, r) || Punishes(tx, requestId, r))
  }

  ghost predicate EarnedBy(entry: Entry, requestId: string, results: seq<NodeResult>) {
    exists i :: 0 <= i < |results| && results[i].honest && results[i].reward > 0.0 && entry == Payment(requestId, results[i])
  }

  ghost predicate OwedBy(entry: Entry, requestId: string, results: seq<NodeResult>) {
    exists i :: 0 <= i < |results| && !results[i].honest && entry == Penalty(requestId, results[i])
  }

  lemma ResultsGrow(entry: Entry, requestId: string, results: seq<NodeResult>)
    requires results != []
    ensures EarnedBy(entry, requestId, results[..|results| - 1]) ==> EarnedBy(entry, requestId, results)
    ensures OwedBy(entry, requestId, results[..|results| - 1]) ==> OwedBy(entry, requestId, results)
  {
    hide Payment, Penalty;
    var before := results[..|results| - 1];
    assert forall i :: 0 <= i < |before| ==> before[i] == results[i];
  }

  lemma {:induction false} PaymentsAre(requestId: string, results: seq<NodeResult>)
    ensures forall entry :: entry in Payments(requestId, results) <==> EarnedBy(entry, requestId, results)
  {
    hide Payment;
    if results != [] {
      var before, last := results[..|results| - 1], results[|results| - 1];
      PaymentsAre(requestId, before);
      forall entry ensures entry in Payments(requestId, results) <==> EarnedBy(entry, requestId, results) {
        ResultsGrow(entry, requestId, results);
        if i :| 0 <= i < |results| && results[i].honest && results[i].reward > 0.0 && entry == Payment(requestId, results[i]) {
          if i < |before| { assert before[i] == results[i]; }
        }
      }
    }
  }

  lemma {:induction false} PenaltiesAre(requestId: string, results: seq<NodeResult>)
    ensures forall entry :: entry in Penalties(requestId, results) <==> OwedBy(entry, requestId, results)
  {
    hide Penalty;
    if results != [] {
      var before, last := results[..|results| - 1], results[|results| - 1];
      PenaltiesAre(requestId, before);
      forall entry ensures entry in Penalties(requestId, results) <==> OwedBy(entry, requestId, results) {
        ResultsGrow(entry, requestId, results);
        if i :| 0 <= i < |results| && !results[i].honest && entry == Penalty(requestId, results[i]) {
          if i < |before| { assert before[i] == results[i]; }
        }
      }
    }
  }

  lemma AllMade(id: IdOf, clock: Clock, entries: seq<Entry>)
    ensures var txs := Issue(id, clock, entries);
            |txs| == |entries| && forall k :: 0 <= k < |txs| ==>
              && Made(id, clock, txs[k], k + 1) && txs[k].payload == System(entries[k].payload)
              && txs[k].sender == entries[k].sender && txs[k].recipient == entries[k].recipient
  {}

  /** The entries behind the result: exactly the earned rewards and the dissents. */
  lemma EntriesBehind(requestId: string, cls: int, results: seq<NodeResult>)
    ensures var es, n := Entries(requestId, cls, results), |results|;
            && n < |es|
            && (forall k :: n < k < |es| ==> EarnedBy(es[k], requestId, results) || OwedBy(es[k], requestId, results))
            && (forall entry :: EarnedBy(entry, requestId, results) || OwedBy(entry, requestId, results) ==>
                  exists k :: n < k < |es| && es[k] == entry)
  {
    hide Payments, Penalties, Summary, BlockBuilder.Answers, EarnedBy, OwedBy;
    AnswersCount(requestId, results);
    PaymentsAre(requestId, results);
    PenaltiesAre(requestId, results);
    var es, n := Entries(requestId, cls, results), |results|;
    var paid, fined := Payments(requestId, results), Penalties(requestId, results);
    forall k | n < k < |es| ensures EarnedBy(es[k], requestId, results) || OwedBy(es[k], requestId, results) {
      assert es[k] in paid || es[k] in fined;
    }
    forall entry | EarnedBy(entry, requestId, results) || OwedBy(entry, requestId, results)
      ensures exists k :: n < k < |es| && es[k] == entry
    {
      if entry in paid {
        var j :| 0 <= j < |paid| && paid[j] == entry;
        assert es[n + 1 + j] == entry;
      } else {
        var j :| 0 <= j < |fined| && fined[j] == entry;
        assert es[n + 1 + |paid| + j] == entry;
      }
    }
  }

  lemma EntriesFront(requestId: string, cls: int, results: seq<NodeResult>)
    ensures var es, n := Entries(requestId, cls, results), |results|;
            && n < |es| && es[n] == Summary(requestId, cls, results)
            && forall k :: 0 <= k < n ==> es[k] == Answer(requestId, results[k])
  {
    hide Payments, Penalties, Summary, Answer;
  }

  /** What the protocol's transactions for a round's results say, transaction by transaction: first every
      node's answer in order, then the result, then rewards and penalties; every earned reward and every
      dissent is there, and nothing else. */
  lemma Transcript(id: IdOf, clock: Clock, requestId: string, cls: int, results: seq<NodeResult>, txs: seq<Tx>)
    requires txs == Issue(id, clock, Entries(requestId, cls, results))
    ensures |txs| > |results| && forall k :: 0 <= k < |txs| ==> Made(id, clock, txs[k], k + 1)
    ensures forall k :: 0 <= k < |results| ==> Reports(txs[k], requestId, results[k])
    ensures IsResult(txs[|results|], requestId) && txs[|results|].sender == GENESIS_ADDRESS
    ensures forall k :: |results| < k < |txs| ==> Due(txs[k], requestId, results)
    ensures forall i :: 0 <= i < |results| && results[i].honest && results[i].reward > 0.0 ==>
              exists k :: |results| < k < |txs| && Pays(txs[k], requestId, results[i])
    ensures forall i :: 0 <= i < |results| && !results[i].honest ==>
              exists k :: |results| < k < |txs| && Punishes(txs[k], requestId, results[i])
  {
    hide Entries, Issue, Summary, Made, EarnedBy, OwedBy;
    var es, n := Entries(requestId, cls, results), |results|;
    AllMade(id, clock, es);
    EntriesFront(requestId, cls, results);
    EntriesBehind(requestId, cls, results);
    SummaryIs(requestId, cls, results);
    forall k | 0 <= k < n ensures Reports(txs[k], requestId, results[k]) {
      assert es[k] == Answer(requestId, results[k]);
    }
    assert IsResult(txs[n], requestId) && txs[n].sender == GENESIS_ADDRESS;
    forall i | 0 <= i < n && results[i].honest && results[i].reward > 0.0
      ensures exists k :: n < k < |txs| && Pays(txs[k], requestId, results[i])
    {
      EarnedIs(requestId, results, i);
      var k :| n < k < |es| && es[k] == Payment(requestId, results[i]);
      assert Pays(txs[k], requestId, results[i]);
    }
    forall i | 0 <= i < n && !results[i].honest ensures exists k :: n < k < |txs| && Punishes(txs[k], requestId, results[i]) {
      OwedIs(requestId, results, i);
      var k :| n < k < |es| && es[k] == Penalty(requestId, results[i]);
      assert Punishes(txs[k], requestId, results[i]);
    }
    forall k | n < k < |txs| ensures Due(txs[k], requestId, results) {
      BehindIs(requestId, results, es[k], txs[k]);
    }
  }

  lemma EarnedIs(requestId: string, results: seq<NodeResult>, i: nat)
    requires i < |results| && results[i].honest && results[i].reward > 0.0
    ensures EarnedBy(Payment(requestId, results[i]), requestId, results)
  {}

  lemma OwedIs(requestId: string, results: seq<NodeResult>, i: nat)
    requires i < |results| && !results[i].honest
    ensures OwedBy(Penalty(requestId, results[i]), requestId, results)
  {}

  lemma BehindIs(requestId: string, results: seq<NodeResult>, entry: Entry, tx: Tx)
    requires EarnedBy(entry, requestId, results) || OwedBy(entry, requestId, results)
    requires tx.payload == System(entry.payload) && tx.sender == entry.sender && tx.recipient == entry.recipient
    ensures Due(tx, requestId, results)
  {
    if EarnedBy(entry, requestId, results) {
      var i :| 0 <= i < |results| && results[i].honest && results[i].reward > 0.0 && entry == Payment(requestId, results[i]);
      assert Pays(tx, requestId, results[i]);
    } else {
      var i :| 0 <= i < |results| && !results[i].honest && entry == Penalty(requestId, results[i]);
      assert Punishes(tx, requestId, results[i]);
    }
  }
}

/** What a block built from a finished round does to the ledger. */
module Settlement {
  import opened Collections
  import opened Constants
  import opened Quality
  import opened Rewards
  import opened Ledger
  import opened Merkle
  import opened Supply
  import opened Solvency
  import opened QoIProtocol
  import opened BlockBuilder

  // The supply

  lemma IssueJoin(id: IdOf, clock: Clock, xs: seq<Entry>, e: Entry)
    ensures MintedBy(Issue(id, clock, xs + [e])) == MintedBy(Issue(id, clock, xs)) + Minted(SystemTx(id, clock, e, |xs| + 1))
  {
    hide SystemTx, Minted;
    var txs := Issue(id, clock, xs + [e]);
    assert txs[..|xs|] == Issue(id, clock, xs);
  }

  lemma MintedEntry(id: IdOf, clock: Clock, e: Entry, n: nat)
    ensures Minted(SystemTx(id, clock, e, n)) == if e.payload.Reward? then e.payload.amount else 0.0
  {}

  /** Entries that pay nobody mint nothing. */
  lemma {:induction false} MintsNothing(id: IdOf, clock: Clock, front: seq<Entry>, xs: seq<Entry>)
    requires forall i :: 0 <= i < |xs| ==> !xs[i].payload.Reward?
    ensures MintedBy(Issue(id, clock, front + xs)) == MintedBy(Issue(id, clock, front))
  {
    hide Issue, MintedBy, Minted, SystemTx;
    if xs == [] {
      assert front + xs == front;
    } else {
      var before, last := xs[..|xs| - 1], xs[|xs| - 1];
      MintsNothing(id, clock, front, before);
      assert front + xs == front + before + [last];
      IssueJoin(id, clock, front + before, last);
      MintedEntry(id, clock, last, |front + before| + 1);
    }
  }

  /** What the REWARD transactions pay out: a negative share is not collected. */
  function PaidOut(results: seq<NodeResult>): real {
    if results == [] then 0.0 else
    var last := results[|results| - 1];
    PaidOut(results[..|results| - 1]) + if last.honest then Max0(last.reward) else 0.0
  }

  lemma {:induction false} PaidInFull(results: seq<NodeResult>)
    requires forall i :: 0 <= i < |results| ==> results[i].reward >= 0.0
    ensures PaidOut(results) == Paid(results)
  {
    if results != [] {
      PaidInFull(results[..|results| - 1]);
    }
  }

  lemma {:induction false} PaymentsMint(id: IdOf, clock: Clock, front: seq<Entry>, requestId: string, results: seq<NodeResult>)
    ensures MintedBy(Issue(id, clock, front + Payments(requestId, results)))
              == MintedBy(Issue(id, clock, front)) + PaidOut(results)
  {
    hide Issue, MintedBy, Minted, SystemTx;
    if results == [] {
      assert front + Payments(requestId, results) == front;
    } else {
      var before, last := results[..|results| - 1], results[|results| - 1];
      PaymentsMint(id, clock, front, requestId, before);
      if last.honest && last.reward > 0.0 {
        var entry := Payment(requestId, last);
        assert front + Payments(requestId, results) == front + Payments(requestId, before) + [entry];
        IssueJoin(id, clock, front + Payments(requestId, before), entry);
        MintedEntry(id, clock, entry, |front + Payments(requestId, before)| + 1);
      }
    }
  }

  lemma {:induction false} PenaltiesPayNobody(requestId: string, results: seq<NodeResult>)
    ensures forall i :: 0 <= i < |Penalties(requestId, results)| ==> !Penalties(requestId, results)[i].payload.Reward?
  {
    if results != [] {
      PenaltiesPayNobody(requestId, results[..|results| - 1]);
    }
  }

  /** The system transactions mint exactly what the honest nodes are paid out. */
  lemma SystemTxsMint(id: IdOf, clock: Clock, requestId: string, cls: int, results: seq<NodeResult>)
    ensures MintedBy(Issue(id, clock, Entries(requestId, cls, results))) == PaidOut(results)
  {
    hide Issue, MintedBy, PaidOut, Payments, Penalties, Confidence;
    var front := Answers(requestId, results) + [Summary(requestId, cls, results)];
    var paid := front + Payments(requestId, results);
    PenaltiesPayNobody(requestId, results);
    MintsNothing(id, clock, paid, Penalties(requestId, results));
    PaymentsMint(id, clock, front, requestId, results);
    MintsNothing(id, clock, [], front);
    assert [] + front == front;
    NothingMinted(id, clock);
  }

  lemma NothingMinted(id: IdOf, clock: Clock)
    ensures MintedBy(Issue(id, clock, [])) == 0.0
  {}

  /** What negative fees give to their senders. */
  function Discounts(txs: seq<Tx>): real {
    if txs == [] then 0.0 else Discounts(txs[..|txs| - 1]) + Max0(-txs[|txs| - 1].fee)
  }

  lemma {:induction false} NoDiscounts(txs: seq<Tx>)
    requires forall i :: 0 <= i < |txs| ==> txs[i].fee >= 0.0
    ensures Discounts(txs) == 0.0 && FeeTotal(txs) >= 0.0
  {
    if txs != [] {
      NoDiscounts(txs[..|txs| - 1]);
    }
  }

  /** What the engine hands to the builder: user transactions, an inference request, and votes of which
      at least one is for the agreed class. */
  ghost predicate Buildable(inferenceTx: Tx, simpleTxs: seq<Tx>, o: Outcome) {
    && inferenceTx.Family() == INFERENCE
    && (forall i :: 0 <= i < |simpleTxs| ==> simpleTxs[i].Family() == SIMPLE)
    && Distinct(o.responses) && Scorable(o.responses, o.cls)
    && exists i :: 0 <= i < |o.responses| && o.responses[i].1.cls == o.cls
  }

  lemma SystemFamily(id: IdOf, clock: Clock, entries: seq<Entry>)
    ensures forall i :: 0 <= i < |Issue(id, clock, entries)| ==> Issue(id, clock, entries)[i].Family() == SYSTEM
  {}

  lemma {:induction false} UsersMint(inferenceTx: Tx, txs: seq<Tx>)
    requires inferenceTx.Family() == INFERENCE && forall i :: 0 <= i < |txs| ==> txs[i].Family() == SIMPLE
    ensures MintedBy([inferenceTx] + txs) == Discounts(txs)
  {
    var all := [inferenceTx] + txs;
    if txs == [] {
      assert all[..0] == [];
      assert MintedBy(all[..0]) == 0.0;
    } else {
      UsersMint(inferenceTx, txs[..|txs| - 1]);
      assert all[..|all| - 1] == [inferenceTx] + txs[..|txs| - 1];
    }
  }

  /** What a block built for its own fees mints: its payments, which are exactly these fees, the
      inference reward and the bonus of an agreeing primary unless the pool is negative, and whatever
      negative fees give away. */
  ghost function Issued(simpleTxs: seq<Tx>, o: Outcome): real {
    FeeTotal(simpleTxs) + INFERENCE_REWARD + Bonus(Agrees(o.responses, o.primary, o.cls), LEADER_BONUS)
    + Discounts(simpleTxs)
  }

  lemma BuiltBlockMints(sqrt: real -> real, sha: string -> string, id: IdOf, clock: Clock, time: real,
                        prevHash: string, height: int, proposer: Address, inferenceTx: Tx, simpleTxs: seq<Tx>, o: Outcome)
    requires Buildable(inferenceTx, simpleTxs, o)
    ensures var fees := FeeTotal(simpleTxs);
            var r := RoundRewards(sqrt, o.requestId, o.primary, o.cls, o.responses, fees);
            var b := QoIBlock(sqrt, sha, id, clock, time, prevHash, height, proposer, inferenceTx, simpleTxs, o, fees);
            && r.Some? && b.Some? && b.value.Sorted() && b.value.simpleTxs == simpleTxs
            && MintedBy(b.value.AllTransactions()) == PaidOut(r.value.results) + Discounts(simpleTxs)
            && (fees + INFERENCE_REWARD >= 0.0 ==> MintedBy(b.value.AllTransactions()) == Issued(simpleTxs, o))
  {
    hide FeeTotal, RoundRewards, MintedBy, Paid, PaidOut, Agrees, Scorable, Distinct, MerkleRoot, Issue, Entries, Deduped,
         Discounts;
    var fees := FeeTotal(simpleTxs);
    RewardsConserved(sqrt, o.requestId, o.primary, o.cls, o.responses, fees);
    var r := RoundRewards(sqrt, o.requestId, o.primary, o.cls, o.responses, fees).value;
    var system := Issue(id, clock, Entries(o.requestId, o.cls, r.results));
    SystemFamily(id, clock, Entries(o.requestId, o.cls, r.results));
    SystemTxsMint(id, clock, o.requestId, o.cls, r.results);
    UsersMint(inferenceTx, simpleTxs);
    MintedJoin([inferenceTx] + simpleTxs, system);
    if fees + INFERENCE_REWARD >= 0.0 { PaidInFull(r.results); }
  }

  /** The exact effect of such a block on the supply. */
  lemma BuiltBlockSupply(e: Crypto, s: Books, sqrt: real -> real, id: IdOf, clock: Clock, time: real, prevHash: string,
                         height: int, proposer: Address, inferenceTx: Tx, simpleTxs: seq<Tx>, o: Outcome, b: Block)
    requires Buildable(inferenceTx, simpleTxs, o)
    requires QoIBlock(sqrt, e.sha, id, clock, time, prevHash, height, proposer, inferenceTx, simpleTxs, o,
                      FeeTotal(simpleTxs)) == Some(b)
    ensures var burned := BurnedBy(e, s, b.AllTransactions(), b.header.height, b.header.proposerId);
            && SupplyOf(ApplyBlock(e, s, b)) == SupplyOf(s) + MintedBy(b.AllTransactions()) - burned
            && (FeeTotal(simpleTxs) + INFERENCE_REWARD >= 0.0 ==>
                  SupplyOf(ApplyBlock(e, s, b)) == SupplyOf(s) + Issued(simpleTxs, o) - burned)
  {
    hide FeeTotal, QoIBlock, MintedBy, Issued, SupplyOf, BurnedBy, ApplyTxs, RoundRewards, PaidOut, Discounts;
    BuiltBlockMints(sqrt, e.sha, id, clock, time, prevHash, height, proposer, inferenceTx, simpleTxs, o);
    TxsSupply(e, s, b.AllTransactions(), b.header.height, b.header.proposerId);
  }

  /** With fees that are not negative, that is the fees, the inference reward and the bonus of an agreeing
      primary, less what the block burns. */
  lemma FeesPaidSupply(e: Crypto, s: Books, sqrt: real -> real, id: IdOf, clock: Clock, time: real, prevHash: string,
                       height: int, proposer: Address, inferenceTx: Tx, simpleTxs: seq<Tx>, o: Outcome, b: Block)
    requires Buildable(inferenceTx, simpleTxs, o) && forall i :: 0 <= i < |simpleTxs| ==> simpleTxs[i].fee >= 0.0
    requires QoIBlock(sqrt, e.sha, id, clock, time, prevHash, height, proposer, inferenceTx, simpleTxs, o,
                      FeeTotal(simpleTxs)) == Some(b)
    ensures SupplyOf(ApplyBlock(e, s, b))
              == SupplyOf(s) + FeeTotal(simpleTxs) + INFERENCE_REWARD + Bonus(Agrees(o.responses, o.primary, o.cls), LEADER_BONUS)
                 - BurnedBy(e, s, b.AllTransactions(), b.header.height, b.header.proposerId)
  {
    hide FeeTotal, QoIBlock, MintedBy, SupplyOf, BurnedBy, ApplyTxs, Discounts, Agrees, Scorable;
    BuiltBlockSupply(e, s, sqrt, id, clock, time, prevHash, height, proposer, inferenceTx, simpleTxs, o, b);
    NoDiscounts(simpleTxs);
  }

  // The verdict

  lemma {:induction false} DedupedKeys(signatures: seq<(NodeId, string)>)
    ensures Distinct(Deduped(signatures)) && Keys(Deduped(signatures)) == Keys(signatures)
  {
    hide Keys;
    if signatures == [] {
    } else {
      var before, last := signatures[..|signatures| - 1], signatures[|signatures| - 1];
      DedupedKeys(before);
      KeysStep(before, last);
      assert signatures == before + [last];
      var rest := Deduped(before);
      if Has(rest, last.0) {
        KeyListed(rest, last.0);
      } else {
        KeysStep(rest, last);
      }
    }
  }

  lemma KeyListed<K, V>(d: Dict<K, V>, k: K)
    requires Has(d, k)
    ensures k in Keys(d)
  {}

  /** The proof holds one signature for each node that committed. */
  lemma SignersCounted(signatures: seq<(NodeId, string)>)
    ensures |Deduped(signatures)| == |Keys(signatures)|
  {
    hide Keys, Deduped, Distinct;
    DedupedKeys(signatures);
    KeyCount(Deduped(signatures));
  }

  /** On the tip it was built for, a block is rejected only for too few committers or for a user
      transaction: its links and its Merkle root always hold. */
  lemma BuiltBlockVerdict(e: Crypto, f: nat, s: Books, tip: Block, sqrt: real -> real, id: IdOf, clock: Clock, time: real,
                          proposer: Address, inferenceTx: Tx, simpleTxs: seq<Tx>, o: Outcome, fees: real, b: Block)
    requires QoIBlock(sqrt, e.sha, id, clock, time, e.headerHash(tip.header), tip.header.height + 1, proposer,
                      inferenceTx, simpleTxs, o, fees) == Some(b)
    ensures b.Structured()
    ensures BlockCheck(e, f, s, tip, b)
              == if |Keys(o.commitSignatures)| < 2 * f + 1 then Some(TooFewSignatures) else TxsError(e, s, simpleTxs)
  {
    hide RoundRewards, MerkleRoot, TxsError, Deduped, Keys, Issue, Entries;
    SignersCounted(o.commitSignatures);
  }

  // What each account gets

  /** What the listed results pay out to one account. */
  function PaidTo(results: seq<NodeResult>, a: Address): real {
    if results == [] then 0.0 else
    var last := results[|results| - 1];
    PaidTo(results[..|results| - 1], a) + if last.honest && last.nodeId == a then Max0(last.reward) else 0.0
  }

  /** How often the listed results slash one account. */
  function Slashes(results: seq<NodeResult>, a: Address): nat {
    if results == [] then 0 else
    var last := results[|results| - 1];
    Slashes(results[..|results| - 1], a) + if !last.honest && last.nodeId == a then 1 else 0
  }

  lemma IssueApply(e: Crypto, s: Books, id: IdOf, clock: Clock, xs: seq<Entry>, entry: Entry, height: int, proposer: Address)
    ensures ApplyTxs(e, s, Issue(id, clock, xs + [entry]), height, proposer)
              == ApplySystem(ApplyTxs(e, s, Issue(id, clock, xs), height, proposer),
                             SystemTx(id, clock, entry, |xs| + 1), entry.payload, height)
  {
    hide ApplySystem;
    var txs := Issue(id, clock, xs + [entry]);
    assert txs[..|xs|] == Issue(id, clock, xs);
  }

  lemma EntryMoney(s: Books, id: IdOf, clock: Clock, entry: Entry, n: nat, height: int, a: Address)
    ensures var t := ApplySystem(s, SystemTx(id, clock, entry, n), entry.payload, height);
            && Amount(t.balances, a) == Amount(s.balances, a)
                 + (if entry.payload.Reward? && entry.recipient == a then entry.payload.amount else 0.0)
            && Amount(t.stakes, a)
                 == (if entry.payload.Slash? && entry.sender == a then Max0(Amount(s.stakes, a) - entry.payload.amount)
                     else Amount(s.stakes, a))
  {
    hide Amount, Max0, Credit, ApplySystem;
    var tx := SystemTx(id, clock, entry, n);
    SystemMoney(s, tx, entry.payload, height);
    if entry.payload.Reward? {
      AmountCredit(s.balances, tx.recipient, entry.payload.amount, a);
    } else if entry.payload.Slash? {
      AmountSet(s.stakes, tx.sender, Max0(Amount(s.stakes, tx.sender) - entry.payload.amount), a);
    }
  }

  function Money(s: Books, a: Address): (real, real) {
    (Amount(s.balances, a), Amount(s.stakes, a))
  }

  lemma {:induction false} AnswersMoveNothing(e: Crypto, s: Books, id: IdOf, clock: Clock, xs: seq<Entry>,
                                              height: int, proposer: Address, a: Address)
    requires forall i :: 0 <= i < |xs| ==> !xs[i].payload.Reward? && !xs[i].payload.Slash?
    ensures Money(ApplyTxs(e, s, Issue(id, clock, xs), height, proposer), a) == Money(s, a)
  {
    hide ApplyTxs, Issue, ApplySystem, SystemTx, Amount, Max0;
    if xs == [] {
      NothingApplied(e, s, id, clock, height, proposer);
    } else {
      var before, last := xs[..|xs| - 1], xs[|xs| - 1];
      assert xs == before + [last];
      AnswersMoveNothing(e, s, id, clock, before, height, proposer, a);
      IssueApply(e, s, id, clock, before, last, height, proposer);
      EntryMoney(ApplyTxs(e, s, Issue(id, clock, before), height, proposer), id, clock, last, |before| + 1, height, a);
    }
  }

  lemma NothingApplied(e: Crypto, s: Books, id: IdOf, clock: Clock, height: int, proposer: Address)
    ensures ApplyTxs(e, s, Issue(id, clock, []), height, proposer) == s
  {}

  lemma {:induction false} PaymentsReach(e: Crypto, s: Books, id: IdOf, clock: Clock, front: seq<Entry>, requestId: string,
                                         results: seq<NodeResult>, height: int, proposer: Address, a: Address)
    ensures var t := ApplyTxs(e, s, Issue(id, clock, front), height, proposer);
            Money(ApplyTxs(e, s, Issue(id, clock, front + Payments(requestId, results)), height, proposer), a)
              == (Amount(t.balances, a) + PaidTo(results, a), Amount(t.stakes, a))
  {
    hide ApplyTxs, Issue, ApplySystem, SystemTx, Amount;
    if results == [] {
      assert front + Payments(requestId, results) == front;
    } else {
      var before, last := results[..|results| - 1], results[|results| - 1];
      PaymentsReach(e, s, id, clock, front, requestId, before, height, proposer, a);
      if last.honest && last.reward > 0.0 {
        var xs, entry := front + Payments(requestId, before), Payment(requestId, last);
        assert front + Payments(requestId, results) == xs + [entry];
        IssueApply(e, s, id, clock, xs, entry, height, proposer);
        EntryMoney(ApplyTxs(e, s, Issue(id, clock, xs), height, proposer), id, clock, entry, |xs| + 1, height, a);
      }
    }
  }

  /** A stake after being slashed n times. */
  function AfterSlashes(stake: real, n: nat): real {
    if n == 0 then stake else Max0(AfterSlashes(stake, n - 1) - SLASH_PENALTY)
  }

  lemma {:induction false} PenaltiesReach(e: Crypto, s: Books, id: IdOf, clock: Clock, front: seq<Entry>, requestId: string,
                                          results: seq<NodeResult>, height: int, proposer: Address, a: Address)
    ensures var t := ApplyTxs(e, s, Issue(id, clock, front), height, proposer);
            Money(ApplyTxs(e, s, Issue(id, clock, front + Penalties(requestId, results)), height, proposer), a)
              == (Amount(t.balances, a), AfterSlashes(Amount(t.stakes, a), Slashes(results, a)))
  {
    hide ApplyTxs, Issue, ApplySystem, SystemTx, Amount, Max0;
    if results == [] {
      assert front + Penalties(requestId, results) == front;
    } else {
      var before, last := results[..|results| - 1], results[|results| - 1];
      PenaltiesReach(e, s, id, clock, front, requestId, before, height, proposer, a);
      if !last.honest {
        var xs, entry := front + Penalties(requestId, before), Penalty(requestId, last);
        assert front + Penalties(requestId, results) == xs + [entry];
        IssueApply(e, s, id, clock, xs, entry, height, proposer);
        EntryMoney(ApplyTxs(e, s, Issue(id, clock, xs), height, proposer), id, clock, entry, |xs| + 1, height, a);
      }
    }
  }

  /** The system transactions pay each account its rewards and slash each dissenter's stake, never
      below zero; no other account's money moves. */
  lemma Settles(e: Crypto, s: Books, id: IdOf, clock: Clock, requestId: string, cls: int, results: seq<NodeResult>,
                height: int, proposer: Address, a: Address)
    ensures var t := ApplyTxs(e, s, Issue(id, clock, Entries(requestId, cls, results)), height, proposer);
            && Amount(t.balances, a) == Amount(s.balances, a) + PaidTo(results, a)
            && Amount(t.stakes, a) == AfterSlashes(Amount(s.stakes, a), Slashes(results, a))
  {
    hide ApplyTxs, Issue, Payments, Penalties, Amount, AfterSlashes, PaidTo, Confidence, Slashes;
    var front := Answers(requestId, results) + [Summary(requestId, cls, results)];
    AnswersMoveNothing(e, s, id, clock, front, height, proposer, a);
    PaymentsReach(e, s, id, clock, front, requestId, results, height, proposer, a);
    PenaltiesReach(e, s, id, clock, front + Payments(requestId, results), requestId, results, height, proposer, a);
  }

  lemma {:induction false} NotListed(results: seq<NodeResult>, a: Address)
    requires forall i :: 0 <= i < |results| ==> results[i].nodeId != a
    ensures PaidTo(results, a) == 0.0 && Slashes(results, a) == 0
  {
    if results != [] {
      NotListed(results[..|results| - 1], a);
    }
  }

  /** A node with one result is paid just that result's reward, or slashed just once. */
  lemma {:induction false} SettledOnce(results: seq<NodeResult>, i: nat)
    requires i < |results|
    requires forall j, k :: 0 <= j < k < |results| ==> results[j].nodeId != results[k].nodeId
    ensures PaidTo(results, results[i].nodeId) == if results[i].honest then Max0(results[i].reward) else 0.0
    ensures Slashes(results, results[i].nodeId) == if results[i].honest then 0 else 1
  {
    if i == |results| - 1 {
      NotListed(results[..i], results[i].nodeId);
    } else {
      SettledOnce(results[..|results| - 1], i);
    }
  }
}

/** The round driver: electing a committee, starting its machine, and sealing the agreed outcome. */
module Engine {
  import opened Collections
  import opened Constants
  import opened Quality
  import opened Rewards
  import opened Ledger
  import opened Chains
  import opened Mempools
  import opened MempoolIndex
  import opened Quorums
  import opened Proposers
  import opened QoIProtocol
  import opened QoIMachine
  import opened QoIDisagreement
  import opened BlockBuilder
  import opened Settlement
  import opened Supply
  import opened Solvency
  import opened Sealing
  import opened Merkle
  import opened Registry
  import HashChain
  import Sorting

  // Starting a round

  datatype Plan = Plan(members: seq<NodeInfo>, f: nat, primary: Address)

  function IsDnnValidator(stakes: map<Address, real>): NodeInfo -> bool {
    (n: NodeInfo) => n.isActive && n.nodeType == DNN_NODE && Amount(stakes, n.address) >= MIN_STAKE_DNN
  }

  function IdSet(nodes: seq<NodeInfo>): set<Address> {
    set i | 0 <= i < |nodes| :: nodes[i].nodeId
  }

  /** Everything the election reads from outside the chain. */
  datatype Oracles = Oracles(
    sha: string -> string, draw: Draw, seedOf: (string, int) -> nat, ranking: seq<NodeInfo> -> Option<Ranking>)

  /** Who takes part in a round, with which fault bound, and who leads; a function of the tip, the
      ledger and the view, so the same for every node. Without a quorum all validators take part
      under the global bound. */
  function PlanRound(o: Oracles, nodes: seq<NodeInfo>, stakes: map<Address, real>, reputations: map<Address, real>,
                     tipHash: string, request: InferenceRequest, globalF: nat, view: int): Option<Plan>
    requires IsSample(o.draw)
  {
    var dnn := Filter(IsDnnValidator(stakes), nodes);
    if dnn == [] then None else
    var hint := if request.modelHint == "any" then "" else request.modelHint;
    var q := QuorumFor(o.sha, o.draw, request.requestId, tipHash, dnn, hint, "",
                       QUORUM_TARGET, QUORUM_FLOOR, QUORUM_CEILING, o.ranking(Eligible(dnn, hint, "")));
    var (members, f) := if q.None? then (dnn, globalF) else (q.value.nodes, q.value.f);
    var primary := Proposer(members, stakes, reputations, o.seedOf(tipHash, view), view);
    if primary.None? then None else Some(Plan(members, f, primary.value))
  }

  /** The ledger's registered nodes, each once, in the order of the host language's dict. */
  ghost predicate Lists(nodes: seq<NodeInfo>, registered: map<Address, NodeInfo>) {
    && DistinctIds(nodes)
    && (forall i :: 0 <= i < |nodes| ==> nodes[i].nodeId in registered && registered[nodes[i].nodeId] == nodes[i])
    && forall a :: a in registered ==> registered[a] in nodes
  }

  /** The nodes are the ledger's, and samples and rankings are what they are called. */
  ghost predicate GoodRound(o: Oracles, nodes: seq<NodeInfo>, registered: map<Address, NodeInfo>) {
    && IsSample(o.draw) && Lists(nodes, registered)
    && forall pool: seq<NodeInfo> {:trigger o.ranking(pool)} :: o.ranking(pool).Some? ==> Ranks(o.ranking(pool).value, pool)
  }

  /** Only the signatures of quorum members count; an unknown quorum lets all of them pass. */
  function InQuorum(quorum: set<NodeId>): ((NodeId, string)) -> bool {
    (signature: (NodeId, string)) => signature.0 in quorum
  }

  function Insiders(o: Outcome): Outcome {
    if o.electedQuorum == {} then o
    else o.(commitSignatures := Filter(InQuorum(o.electedQuorum), o.commitSignatures))
  }

  function Deltas(results: seq<NodeResult>): seq<(Address, real)> {
    seq(|results|, i requires 0 <= i < |results| => (results[i].nodeId, results[i].repDelta))
  }

  class ConsensusEngine {
    const nodeId: NodeId
    const f: nat
    const chain: Chain
    const mempool: Mempool
    var currentView: int
    var roundSeq: int
    var pendingTx: Option<Tx>
    var machine: QoIStateMachine?

    constructor (nodeId: NodeId, f: nat, chain: Chain, mempool: Mempool)
      ensures this.nodeId == nodeId && this.f == f && this.chain == chain && this.mempool == mempool
      ensures currentView == 0 && roundSeq == 0 && pendingTx == None && machine == null
    {
      this.nodeId, this.f, this.chain, this.mempool := nodeId, f, chain, mempool;
      currentView, roundSeq, pendingTx, machine := 0, 0, None, null;
    }

    /** A member of the committee starts a fresh machine exactly once, under the committee's own
        fault bound; every other node changes nothing. */
    method BeginRound(o: Oracles, nodes: seq<NodeInfo>, inferenceTx: Tx, ownProbs: seq<real>) returns (r: Reply)
      requires IsSample(o.draw) && chain.blocks != [] && inferenceTx.payload.Inference?
      requires Lists(nodes, chain.state.nodes)
      modifies this, mempool
      ensures var request, tip := inferenceTx.payload.request, chain.blocks[|chain.blocks| - 1];
              var plan := PlanRound(o, nodes, chain.state.stakes, chain.state.reputations,
                                    chain.e.headerHash(tip.header), request, f, currentView);
              if plan.Some? && nodeId in IdSet(plan.value.members) then
                && roundSeq == old(roundSeq) + 1 && pendingTx == Some(inferenceTx)
                && mempool.Contents() == NextTaken(old(mempool.Contents())).0
                && machine != null && fresh(machine)
                && Effect(machine.State(), r)
                     == StartRound(NewNode(nodeId, plan.value.primary, plan.value.f, IdSet(plan.value.members)),
                                   request.requestId, request.imageHash, roundSeq, ownProbs)
              else
                && r == Silent && roundSeq == old(roundSeq) && pendingTx == old(pendingTx) && machine == old(machine)
                && mempool.Contents() == old(mempool.Contents())
      ensures currentView == old(currentView)
    {
      hide QuorumFor, Proposer, Filter, NextTaken, StartRound, Eligible, IdSet, IsDnnValidator, Committee,
           Ranks, DistinctIds, QuorumSize, IsSample, Lists;
      var request, tip := inferenceTx.payload.request, chain.blocks[|chain.blocks| - 1];
      var tipHash := chain.e.headerHash(tip.header);
      var dnn := Filter(IsDnnValidator(chain.state.stakes), nodes);
      if dnn == [] { return Silent; }
      var hint := if request.modelHint == "any" then "" else request.modelHint;
      var q := SelectQuorum(o.sha, o.draw, request.requestId, tipHash, dnn, hint, "",
                            QUORUM_TARGET, QUORUM_FLOOR, QUORUM_CEILING, o.ranking(Eligible(dnn, hint, "")));
      var members, quorumF := dnn, f;
      if q.Some? {
        ElectedBound(o, request, tipHash, dnn, hint);
        members, quorumF := q.value.nodes, q.value.f;
      }
      if nodeId !in IdSet(members) { return Silent; }
      var primary := SelectProposer(members, chain.state.stakes, chain.state.reputations, o.seedOf, tipHash, currentView);
      if primary.None? { return Silent; }
      var _ := mempool.NextInference();
      pendingTx := Some(inferenceTx);
      roundSeq := roundSeq + 1;
      machine := new QoIStateMachine(nodeId, primary.value, quorumF);
      machine.SetElectedQuorum(IdSet(members));
      r := machine.StartRound(request.requestId, request.imageHash, roundSeq, ownProbs);
    }

    /** Builds the block for an outcome on the tip, with the best paying transactions that are ready,
        and seals it. A rejected block changes nothing; an accepted one, unless
        its pool is negative, changes the supply by exactly its fees, the inference reward and the bonus of
        an agreeing primary, less what it burns. */
    method CommitOutcome(sqrt: real -> real, id: IdOf, clock: Clock, time: real, o: Outcome, result: RoundResult)
      returns (b: Block, error: Option<BlockError>)
      requires chain.Valid() && chain.blocks != [] && chain.blocks[0].header.height == 0
      requires pendingTx.Some? && Buildable(pendingTx.value, [], o) && Consistent(mempool.Contents())
      requires RoundRewards(sqrt, o.requestId, o.primary, o.cls, o.responses, 0.0) == Some(result)
      modifies this, chain, chain.state, mempool
      ensures chain.Valid()
      ensures var s, txs := old(chain.state.Books()), Selected(old(mempool.Contents()), old(chain.state.nonces), MAX_SIMPLE_TXS);
              && b.simpleTxs == txs && b.inferenceTx == old(pendingTx) && b.signatures == Deduped(Insiders(o).commitSignatures)
              && b.header.proposerId == o.primary && b.header.view == o.view && b.header.timestamp == time
              && b.header.blockType == QOI && b.header.height == |old(chain.blocks)|
              && b.systemTxs == Issue(id, clock, Entries(o.requestId, o.cls, SealedResults(sqrt, o, txs)))
              && error == (if |Keys(Insiders(o).commitSignatures)| < 2 * chain.f + 1 then Some(TooFewSignatures)
                           else TxsError(chain.e, s, txs))
              && (error.None? ==>
                    && chain.blocks == old(chain.blocks) + [b] && chain.state.Books() == ApplyBlock(chain.e, s, b)
                    && (FeeTotal(txs) + INFERENCE_REWARD >= 0.0 ==>
                          SupplyOf(chain.state.Books())
                            == SupplyOf(s) + Issued(txs, o)
                               - BurnedBy(chain.e, s, b.AllTransactions(), b.header.height, b.header.proposerId))
                    && (forall a :: Balanced(s, chain.state.Books(), txs, SealedResults(sqrt, o, txs), o.primary, a))
                    && (forall a :: Restaked(s, chain.state.Books(), txs, SealedResults(sqrt, o, txs), a))
                    && Logged(chain.state.inferenceLog, o.requestId, o.cls, SealedResults(sqrt, o, txs))
                    && mempool.Contents() == Removed(old(mempool.Contents()), TxIds(b.AllTransactions()))
                    && chain.state.reputations
                         == RateDeltas(RateTxs(old(chain.state.reputations), b.AllTransactions()), Deltas(result.results)))
              && (error.Some? ==>
                    && chain.blocks == old(chain.blocks) && chain.state.Books() == s
                    && chain.state.reputations == old(chain.state.reputations) && mempool.Contents() == old(mempool.Contents()))
      ensures pendingTx == None && machine == null
    {
      hide Selected, QoIBlock, RoundRewards, Removed, BlockCheck, TxsError, SupplyOf, BurnedBy, Ledger.ApplyBlock,
           RateTxs, RateDeltas, FeeTotal, Issued, Consistent, ValidChain, Replay, Scorable, Distinct, Deduped, Filter,
           MerkleRoot, Balanced, Restaked, Logged, SealedResults;
      var inferenceTx, outcome := pendingTx.value, Insiders(o);
      ghost var s, pool := chain.state.Books(), mempool.Contents();
      var tip := chain.blocks[|chain.blocks| - 1];
      var txs := mempool.SelectSimple(chain.state.nonces, MAX_SIMPLE_TXS);
      var fees := SumFees(txs);
      SelectedBuildable(pool, chain.state.nonces, inferenceTx, o);
      TipHeight(chain.e, chain.f, chain.blocks);
      var built := BuildQoIBlock(sqrt, chain.e.sha, id, clock, time, chain.e.headerHash(tip.header), |chain.blocks|,
                                 o.primary, inferenceTx, txs, outcome, result, fees);
      OutcomeBlock(chain.e, chain.f, s, tip, sqrt, id, clock, time, inferenceTx, txs, o);
      b := built.value;
      error := chain.Append(b);
      if error.None? {
        mempool.Remove(TxIds(b.AllTransactions()));
        chain.ApplyReputationDeltas(Deltas(result.results));
      }
      pendingTx, machine := None, null;
    }
  }

  lemma ElectedBound(o: Oracles, request: InferenceRequest, tipHash: string, dnn: seq<NodeInfo>, hint: string)
    requires IsSample(o.draw)
    ensures var q := QuorumFor(o.sha, o.draw, request.requestId, tipHash, dnn, hint, "",
                               QUORUM_TARGET, QUORUM_FLOOR, QUORUM_CEILING, o.ranking(Eligible(dnn, hint, "")));
            q.Some? ==> q.value.size >= 4 && q.value.f == QuorumF(q.value.size) >= 1
  {}

  method SumFees(txs: seq<Tx>) returns (fees: real)
    ensures fees == FeeTotal(txs)
  {
    fees := 0.0;
    for i := 0 to |txs|
      invariant fees == FeeTotal(txs[..i])
    {
      assert txs[..i + 1][..i] == txs[..i];
      fees := fees + txs[i].fee;
    }
    assert txs[..|txs|] == txs;
  }

  /** Whose signatures count: of a known committee its members' only, and all of them; otherwise everybody's. */
  lemma InsidersExactly(o: Outcome, signature: (NodeId, string))
    ensures signature in Insiders(o).commitSignatures <==>
              signature in o.commitSignatures && (o.electedQuorum == {} || signature.0 in o.electedQuorum)
    ensures Insiders(o) == o.(commitSignatures := Insiders(o).commitSignatures)
  {
    hide Filter;
    FilterMember(InQuorum(o.electedQuorum), o.commitSignatures, signature);
  }

  /** Whose signatures count does not matter for what is paid. */
  /** The block for an outcome exists; what it contains, whether the tip accepts it, and what it does there. */
  lemma OutcomeBlock(e: Crypto, f: nat, s: Books, tip: Block, sqrt: real -> real, id: IdOf, clock: Clock, time: real,
                     inferenceTx: Tx, txs: seq<Tx>, o: Outcome)
    requires Buildable(inferenceTx, txs, Insiders(o))
    ensures var height, results := tip.header.height + 1, SealedResults(sqrt, o, txs);
            var built := QoIBlock(sqrt, e.sha, id, clock, time, e.headerHash(tip.header), height, o.primary, inferenceTx, txs,
                                  Insiders(o), FeeTotal(txs));
            && built.Some? && var b := built.value;
            && b.Structured() && b.simpleTxs == txs && b.inferenceTx == Some(inferenceTx)
            && b.signatures == Deduped(Insiders(o).commitSignatures)
            && b.header.proposerId == o.primary && b.header.view == o.view && b.header.timestamp == time
            && b.header.blockType == QOI && b.header.height == height
            && b.systemTxs == Issue(id, clock, Entries(o.requestId, o.cls, results))
            && BlockCheck(e, f, s, tip, b) == (if |Keys(Insiders(o).commitSignatures)| < 2 * f + 1 then Some(TooFewSignatures)
                                               else TxsError(e, s, txs))
            && (FeeTotal(txs) + INFERENCE_REWARD >= 0.0 ==>
                  SupplyOf(ApplyBlock(e, s, b))
                    == SupplyOf(s) + Issued(txs, o)
                       - BurnedBy(e, s, b.AllTransactions(), b.header.height, b.header.proposerId))
            && (forall a :: Balanced(s, ApplyBlock(e, s, b), txs, results, o.primary, a))
            && (forall a :: Restaked(s, ApplyBlock(e, s, b), txs, results, a))
            && Logged(ApplyBlock(e, s, b).inferenceLog, o.requestId, o.cls, results)
  {
    hide QoIBlock, RoundRewards, BlockCheck, TxsError, SupplyOf, BurnedBy, Ledger.ApplyBlock, FeeTotal, Issued, Scorable,
         Distinct, Deduped, Filter, MerkleRoot, Balanced, Restaked, Logged, SealedResults, Issue, Entries, Keys;
    var outcome, prevHash, height := Insiders(o), e.headerHash(tip.header), tip.header.height + 1;
    BuiltBlockMints(sqrt, e.sha, id, clock, time, prevHash, height, o.primary, inferenceTx, txs, outcome);
    var b := QoIBlock(sqrt, e.sha, id, clock, time, prevHash, height, o.primary, inferenceTx, txs, outcome,
                      FeeTotal(txs)).value;
    BuiltBlockVerdict(e, f, s, tip, sqrt, id, clock, time, o.primary, inferenceTx, txs, outcome, FeeTotal(txs), b);
    BuiltBlockSupply(e, s, sqrt, id, clock, time, prevHash, height, o.primary, inferenceTx, txs, outcome, b);
    BlockParts(sqrt, e.sha, id, clock, time, prevHash, height, o.primary, inferenceTx, txs, outcome, FeeTotal(txs), b);
    SealedBlock(e, s, sqrt, id, clock, time, prevHash, height, inferenceTx, txs, outcome, b);
    SameIssue(txs, o);
    SameResults(sqrt, txs, o);
  }

  lemma SameIssue(txs: seq<Tx>, o: Outcome)
    ensures Issued(txs, Insiders(o)) == Issued(txs, o)
  {
    hide FeeTotal, Discounts, Agrees, Filter;
  }

  lemma SameResults(sqrt: real -> real, txs: seq<Tx>, o: Outcome)
    ensures SealedResults(sqrt, Insiders(o), txs) == SealedResults(sqrt, o, txs)
  {
    hide RoundRewards, Filter, FeeTotal;
  }

  lemma TipHeight(e: Crypto, f: nat, blocks: seq<Block>)
    requires ValidChain(e, f, blocks) && blocks[0].header.height == 0
    ensures blocks[|blocks| - 1].header.height + 1 == |blocks|
  {
    hide BlockCheck, Replay;
    HashChain.HeightsCount(e, f, blocks, |blocks| - 1);
  }

  /** What the mempool selects can be built into a block. */
  lemma SelectedBuildable(p: Pool, nonces: map<Address, int>, inferenceTx: Tx, o: Outcome)
    requires Consistent(p) && Buildable(inferenceTx, [], o)
    ensures Buildable(inferenceTx, Selected(p, nonces, MAX_SIMPLE_TXS), Insiders(o))
  {
    hide Selected, Consistent, Scorable, Distinct, Filter;
    SelectionGood(p, nonces, MAX_SIMPLE_TXS);
  }

  lemma BlockParts(sqrt: real -> real, sha: string -> string, id: IdOf, clock: Clock, time: real, prevHash: string,
                   height: int, proposer: Address, inferenceTx: Tx, txs: seq<Tx>, o: Outcome, fees: real, b: Block)
    requires QoIBlock(sqrt, sha, id, clock, time, prevHash, height, proposer, inferenceTx, txs, o, fees) == Some(b)
    ensures b.simpleTxs == txs && b.inferenceTx == Some(inferenceTx) && b.signatures == Deduped(o.commitSignatures)
  {
    hide RoundRewards, Deduped, MerkleRoot, Issue, Entries;
  }

  /** Validation at the start of the block is enough for blocks filled from the mempool: with harmless
      transactions, an accepted one leaves no account in debt that was not in debt before and that it
      brings nothing negative in all. */
  lemma SelectedBlockSolvent(e: Crypto, f: nat, s: Books, tip: Block, b: Block, p: Pool, maxTxs: nat, a: Address)
    requires Consistent(p) && b.simpleTxs == Selected(p, s.nonces, maxTxs) && b.Structured()
    requires forall i :: 0 <= i < |b.systemTxs| ==> b.systemTxs[i].Family() == SYSTEM
    requires BlockCheck(e, f, s, tip, b).None?
    requires forall i :: 0 <= i < |b.simpleTxs| ==> Harmless(b.simpleTxs[i])
    requires Income(b.AllTransactions(), b.header.proposerId, a) >= 0.0 && Staked(b.simpleTxs, a) >= 0.0
    requires Solvent(s, a)
    ensures Solvent(Ledger.ApplyBlock(e, s, b), a)
  {
    hide BlockCheck, Selected, Consistent, Harmless, Income, Staked, Solvent, Ledger.ApplyBlock;
    SelectionGood(p, s.nonces, maxTxs);
    AcceptedBlockSolvent(e, f, s, tip, b, a);
  }

  /** With amounts that are not negative that is every account. */
  lemma SelectedBlockSolventForAll(e: Crypto, f: nat, s: Books, tip: Block, b: Block, p: Pool, maxTxs: nat, a: Address)
    requires Consistent(p) && b.simpleTxs == Selected(p, s.nonces, maxTxs) && b.Structured()
    requires forall i :: 0 <= i < |b.systemTxs| ==> b.systemTxs[i].Family() == SYSTEM
    requires BlockCheck(e, f, s, tip, b).None?
    requires forall i :: 0 <= i < |b.simpleTxs| ==> Harmless(b.simpleTxs[i]) && NonNegative(b.simpleTxs[i])
    requires forall i :: 0 <= i < |b.systemTxs| ==> NonNegative(b.systemTxs[i])
    ensures Solvent(s, a) ==> Solvent(Ledger.ApplyBlock(e, s, b), a)
  {
    hide BlockCheck, Selected, Consistent, Harmless, Income, Staked, Solvent, Ledger.ApplyBlock;
    NonNegativeIncome(b.AllTransactions(), b.header.proposerId, a);
    NonNegativeIncome(b.simpleTxs, b.header.proposerId, a);
    if Solvent(s, a) {
      SelectedBlockSolvent(e, f, s, tip, b, p, maxTxs, a);
    }
  }

  // What a plan guarantees

  /** The registry of every chain can be listed. */
  lemma RegistryListed(e: Crypto, blocks: seq<Block>) returns (nodes: seq<NodeInfo>)
    ensures Lists(nodes, Replay(e, blocks).nodes)
  {
    RegistryKeyed(e, blocks);
    nodes := Listing(Replay(e, blocks).nodes, Replay(e, blocks).nodes.Keys);
  }

  lemma {:induction false} Listing(registered: map<Address, NodeInfo>, keys: set<Address>) returns (nodes: seq<NodeInfo>)
    requires Keyed(registered) && keys <= registered.Keys
    ensures DistinctIds(nodes)
    ensures forall i :: 0 <= i < |nodes| ==> nodes[i].nodeId in keys && registered[nodes[i].nodeId] == nodes[i]
    ensures forall a :: a in keys ==> registered[a] in nodes
  {
    nodes := [];
    if keys != {} {
      var a :| a in keys;
      nodes := Listing(registered, keys - {a});
      nodes := nodes + [registered[a]];
    }
  }

  lemma IdCount(nodes: seq<NodeInfo>)
    requires DistinctIds(nodes)
    ensures |IdSet(nodes)| == |nodes|
  {
    assert IdSet(nodes) == Keys(ById(nodes)) by {
      forall id ensures id in IdSet(nodes) <==> id in Keys(ById(nodes)) {
        if id in IdSet(nodes) {
          var i :| 0 <= i < |nodes| && nodes[i].nodeId == id;
          assert ById(nodes)[i].0 == id;
        }
        if id in Keys(ById(nodes)) {
          var i :| 0 <= i < |nodes| && ById(nodes)[i].0 == id;
          assert nodes[i].nodeId == id;
        }
      }
    }
    KeyCount(ById(nodes));
  }

  /** Every planned round is led by a member, counts each member once, and agrees in all its runs
      exactly when the committee has at most 3f+1 members (3 when f is 0). With an elected quorum that means its size
      leaves the remainder 1 when divided by 3. */
  lemma PlanGood(o: Oracles, nodes: seq<NodeInfo>, stakes: map<Address, real>, reputations: map<Address, real>,
                 tipHash: string, request: InferenceRequest, globalF: nat, view: int, registered: map<Address, NodeInfo>)
    requires GoodRound(o, nodes, registered)
    requires PlanRound(o, nodes, stakes, reputations, tipHash, request, globalF, view).Some?
    ensures var p := PlanRound(o, nodes, stakes, reputations, tipHash, request, globalF, view).value;
            && p.primary in IdSet(p.members) && |IdSet(p.members)| == |p.members|
            && (forall i :: 0 <= i < |p.members| ==>
                  && p.members[i].nodeId in registered && registered[p.members[i].nodeId] == p.members[i]
                  && IsDnnValidator(stakes)(p.members[i])
                  && p.members[i].isActive && p.members[i].nodeType == DNN_NODE
                  && Amount(stakes, p.members[i].address) >= MIN_STAKE_DNN)
            && (AlwaysAgrees(IdSet(p.members), p.f) <==> |p.members| <= SafeSize(p.f))
  {
    hide QuorumFor, Proposer, Filter, AlwaysAgrees, Matches, Eligible, Sorting.StringLess;
    var p := PlanRound(o, nodes, stakes, reputations, tipHash, request, globalF, view).value;
    var dnn := Filter(IsDnnValidator(stakes), nodes);
    var hint := if request.modelHint == "any" then "" else request.modelHint;
    FilteredDistinct(IsDnnValidator(stakes), nodes);
    var pool := Eligible(dnn, hint, "");
    QuorumGood(o.sha, o.draw, request.requestId, tipHash, dnn, hint, "",
               QUORUM_TARGET, QUORUM_FLOOR, QUORUM_CEILING, o.ranking(pool));
    forall i | 0 <= i < |p.members|
      ensures p.members[i].nodeId in registered && registered[p.members[i].nodeId] == p.members[i]
      ensures IsDnnValidator(stakes)(p.members[i])
    {
      FilterMember(IsDnnValidator(stakes), nodes, p.members[i]);
    }
    MembersDistinct(p.members, dnn);
    IdCount(p.members);
    ProposerIsMember(p.members, stakes, reputations, o.seedOf(tipHash, view), view);
    AgreementExact(IdSet(p.members), p.f);
  }

  /** A validator that serves the model a request asks for. */
  predicate Suits(n: NodeInfo, stakes: map<Address, real>, request: InferenceRequest) {
    && n.isActive && n.nodeType == DNN_NODE && Amount(stakes, n.address) >= MIN_STAKE_DNN
    && (request.modelHint == "any" || request.modelHint == "" || n.modelName == request.modelHint)
  }

  lemma PoolIs(nodes: seq<NodeInfo>, stakes: map<Address, real>, request: InferenceRequest, n: NodeInfo)
    ensures var hint := if request.modelHint == "any" then "" else request.modelHint;
            n in Eligible(Filter(IsDnnValidator(stakes), nodes), hint, "") <==> n in nodes && Suits(n, stakes, request)
  {
    hide Filter;
    var hint := if request.modelHint == "any" then "" else request.modelHint;
    FilterMember(IsDnnValidator(stakes), nodes, n);
    FilterMember(Matching(hint, ""), Filter(IsDnnValidator(stakes), nodes), n);
  }

  /** Who takes part: with fewer than four suitable validators all validators under the global bound; otherwise
      a committee under its own bound (k-1)/3, drawn from the suitable ones by the tip and the request, among
      those the ranking shortlists if there is one. */
  lemma PlanExactly(o: Oracles, nodes: seq<NodeInfo>, stakes: map<Address, real>, reputations: map<Address, real>,
                    tipHash: string, request: InferenceRequest, globalF: nat, view: int, registered: map<Address, NodeInfo>)
    returns (list: seq<NodeInfo>)
    requires GoodRound(o, nodes, registered)
    requires PlanRound(o, nodes, stakes, reputations, tipHash, request, globalF, view).Some?
    ensures var p := PlanRound(o, nodes, stakes, reputations, tipHash, request, globalF, view).value;
            var hint := if request.modelHint == "any" then "" else request.modelHint;
            var pool := Eligible(Filter(IsDnnValidator(stakes), nodes), hint, "");
            && (forall n :: n in pool <==> n in nodes && Suits(n, stakes, request))
            && (|pool| < QUORUM_FLOOR ==> p.members == Filter(IsDnnValidator(stakes), nodes) && p.f == globalF)
            && (|pool| >= QUORUM_FLOOR ==>
                  var k := QuorumSize(|pool|, QUORUM_TARGET, QUORUM_FLOOR, QUORUM_CEILING);
                  && |p.members| == k && p.f == (k - 1) / 3
                  && (o.ranking(pool).None? ==> list == pool)
                  && (forall i :: 0 <= i < |list| ==> list[i] in pool)
                  && (o.ranking(pool).Some? ==>
                        forall i :: 0 <= i < |list| ==> Shortlisted(o.ranking(pool).value, k, list[i].nodeId))
                  && forall n :: n in p.members <==> DrawnAt(list, o.draw(o.sha(tipHash + request.requestId), |list|, k), n))
  {
    hide QuorumFor, Proposer, Filter, Matches, Eligible, Sorting.StringLess, Suits, Shortlisted, DrawnAt, Ranks;
    var p := PlanRound(o, nodes, stakes, reputations, tipHash, request, globalF, view).value;
    var dnn := Filter(IsDnnValidator(stakes), nodes);
    var hint := if request.modelHint == "any" then "" else request.modelHint;
    FilteredDistinct(IsDnnValidator(stakes), nodes);
    var pool := Eligible(dnn, hint, "");
    forall n ensures n in pool <==> n in nodes && Suits(n, stakes, request) {
      PoolIs(nodes, stakes, request, n);
    }
    QuorumGood(o.sha, o.draw, request.requestId, tipHash, dnn, hint, "",
               QUORUM_TARGET, QUORUM_FLOOR, QUORUM_CEILING, o.ranking(pool));
    list := [];
    if |pool| >= QUORUM_FLOOR {
      list := ElectedByDraw(o.sha, o.draw, request.requestId, tipHash, dnn, hint, "",
                            QUORUM_TARGET, QUORUM_FLOOR, QUORUM_CEILING, o.ranking(pool));
    }
  }

  /** Who leads: with positive total weight, the member whose interval holds the roll of the tip and the view. */
  lemma PlanLeads(o: Oracles, nodes: seq<NodeInfo>, stakes: map<Address, real>, reputations: map<Address, real>,
                  tipHash: string, request: InferenceRequest, globalF: nat, view: int, registered: map<Address, NodeInfo>, i: nat)
    requires GoodRound(o, nodes, registered) && o.seedOf(tipHash, view) < SEEDS
    requires PlanRound(o, nodes, stakes, reputations, tipHash, request, globalF, view).Some?
    requires var p := PlanRound(o, nodes, stakes, reputations, tipHash, request, globalF, view).value;
             && i < |p.members| && NonNegativeVector(Weights(p.members, stakes, reputations))
             && Sum(Weights(p.members, stakes, reputations)) > 0.0
    ensures var p := PlanRound(o, nodes, stakes, reputations, tipHash, request, globalF, view).value;
            var w := Weights(p.members, stakes, reputations);
            p.primary == p.members[i].nodeId <==> Before(w, i) <= Roll(o.seedOf(tipHash, view), Sum(w)) < Before(w, i + 1)
  {
    hide QuorumFor, Proposer, Filter, AlwaysAgrees, Matches, Eligible, Sorting.StringLess, Weights, Sum, Before, Roll,
         NonNegativeVector, IsDnnValidator;
    var p := PlanRound(o, nodes, stakes, reputations, tipHash, request, globalF, view).value;
    PlanMembersDistinct(o, nodes, stakes, reputations, tipHash, request, globalF, view, registered);
    LeadsViewExactly(p.members, stakes, reputations, o.seedOf(tipHash, view), view, i);
  }

  lemma PlanMembersDistinct(o: Oracles, nodes: seq<NodeInfo>, stakes: map<Address, real>, reputations: map<Address, real>,
                            tipHash: string, request: InferenceRequest, globalF: nat, view: int,
                            registered: map<Address, NodeInfo>)
    requires GoodRound(o, nodes, registered)
    requires PlanRound(o, nodes, stakes, reputations, tipHash, request, globalF, view).Some?
    ensures var p := PlanRound(o, nodes, stakes, reputations, tipHash, request, globalF, view).value;
            DistinctIds(p.members) && p.members != []
            && Proposer(p.members, stakes, reputations, o.seedOf(tipHash, view), view) == Some(p.primary)
  {
    hide QuorumFor, Proposer, Filter, Matches, Eligible, Sorting.StringLess, Weights;
    var p := PlanRound(o, nodes, stakes, reputations, tipHash, request, globalF, view).value;
    var dnn := Filter(IsDnnValidator(stakes), nodes);
    var hint := if request.modelHint == "any" then "" else request.modelHint;
    FilteredDistinct(IsDnnValidator(stakes), nodes);
    QuorumGood(o.sha, o.draw, request.requestId, tipHash, dnn, hint, "",
               QUORUM_TARGET, QUORUM_FLOOR, QUORUM_CEILING, o.ranking(Eligible(dnn, hint, "")));
    MembersDistinct(p.members, dnn);
  }

  /** Members in the order of their ids are different, and so is the list of all validators. */
  lemma MembersDistinct(members: seq<NodeInfo>, dnn: seq<NodeInfo>)
    requires (members == dnn && DistinctIds(dnn))
             || forall i, j :: 0 <= i < j < |members| ==> Sorting.StringLess(members[i].nodeId, members[j].nodeId)
    ensures DistinctIds(members)
  {
    forall i, j | 0 <= i < j < |members| ensures members[i].nodeId != members[j].nodeId {
      if Sorting.StringLess(members[i].nodeId, members[j].nodeId) {
        Sorting.StringLessAsymmetric(members[i].nodeId, members[j].nodeId);
      }
    }
  }

  lemma ProposerIsMember(nodes: seq<NodeInfo>, stakes: map<Address, real>, reputations: map<Address, real>, seed: nat, view: int)
    requires nodes != []
    ensures var p := Proposer(nodes, stakes, reputations, seed, view); p.Some? && p.value in IdSet(nodes)
  {}
}

/** What the first block leads to: its DNN nodes are validators. */
module FirstValidators {
  import opened Constants
  import opened Collections
  import opened Ledger
  import opened Genesis
  import opened LifeCycle
  import opened Solvency
  import Engine
  import Sealing

  /** What CreateGenesisBlock returns for these nodes. */
  ghost predicate Founding(b: Block, allocations: seq<(Address, real)>, nodes: seq<PosNode>, dnnNodes: seq<DnnNode>) {
    && b.Sorted() && b.header.blockType == POS
    && Genesis.Filled(b.simpleTxs, allocations, nodes, dnnNodes, |allocations| + |nodes| + 2 * |dnnNodes|)
    && |b.systemTxs| == |dnnNodes|
    && forall i :: 0 <= i < |dnnNodes| ==> b.systemTxs[i].payload == System(NodeAdmitted(dnnNodes[i].address, DNN_NODE, 1.0))
  }

  ghost predicate DifferentAddresses(dnnNodes: seq<DnnNode>) {
    forall i, j :: 0 <= i < j < |dnnNodes| ==> dnnNodes[i].address != dnnNodes[j].address
  }

  /** The i-th DNN node's registration, stake and admission. */
  lemma NodeTxs(b: Block, allocations: seq<(Address, real)>, nodes: seq<PosNode>, dnnNodes: seq<DnnNode>, i: nat)
    requires Founding(b, allocations, nodes, dnnNodes) && i < |dnnNodes|
    ensures var txs := b.AllTransactions(); var d := dnnNodes[i]; var at := |allocations| + |nodes| + 2 * i;
            && |txs| == |b.simpleTxs| + |dnnNodes| && at + 1 < |b.simpleTxs| == |allocations| + |nodes| + 2 * |dnnNodes|
            && txs[at].payload == Simple(NodeRegisterDNN(d.modelName, d.architecture, d.weightsHash, d.endpoint, d.datasetId, d.publicKey))
            && txs[at].sender == d.address
            && txs[at + 1].payload == Simple(Stake(d.stake)) && txs[at + 1].sender == d.address
            && txs[|b.simpleTxs| + i].payload == System(NodeAdmitted(d.address, DNN_NODE, 1.0))
  {
    hide Purpose;
    var at := |allocations| + |nodes| + 2 * i;
    PurposeAt(allocations, nodes, dnnNodes, at);
    PurposeAt(allocations, nodes, dnnNodes, at + 1);
    assert b.AllTransactions() == b.simpleTxs + b.systemTxs;
  }

  /** Everything else in the block: nothing else registers, stakes for or closes that node. */
  lemma OtherTxs(b: Block, allocations: seq<(Address, real)>, nodes: seq<PosNode>, dnnNodes: seq<DnnNode>, i: nat, j: nat)
    requires Founding(b, allocations, nodes, dnnNodes) && DifferentAddresses(dnnNodes) && i < |dnnNodes|
    requires j < |b.AllTransactions()|
    ensures var tx := b.AllTransactions()[j]; var d := dnnNodes[i]; var at := |allocations| + |nodes| + 2 * i;
            && (j > at && tx.payload.Simple? && tx.sender == d.address && j < |b.simpleTxs| ==> tx.payload.user.Stake?)
            && (tx.payload.Simple? && tx.sender == d.address && tx.payload.user.Stake? ==> j == at + 1)
            && !(tx.payload.Simple? && tx.payload.user.Unstake?)
            && (tx.payload.System? ==> tx.payload.protocol.NodeAdmitted?)
            && (tx.payload.Simple? <==> j < |b.simpleTxs|) && (tx.payload.System? <==> j >= |b.simpleTxs|)
  {
    assert b.AllTransactions() == b.simpleTxs + b.systemTxs;
    if j < |b.simpleTxs| {
      PurposeKinds(allocations, nodes, dnnNodes, j);
    }
  }

  lemma PurposeKinds(allocations: seq<(Address, real)>, nodes: seq<PosNode>, dnnNodes: seq<DnnNode>, j: nat)
    requires j < |allocations| + |nodes| + 2 * |dnnNodes|
    ensures var (p, sender, recipient) := Purpose(allocations, nodes, dnnNodes, j); var base := |allocations| + |nodes|;
            && !p.Unstake?
            && (j < base ==> !p.Stake?)
            && (j >= base ==> sender == dnnNodes[(j - base) / 2].address && (p.Stake? <==> (j - base) % 2 == 1))
  {}

  // Its stake

  lemma {:induction false} StakedOnce(txs: seq<Tx>, a: Address, at: nat, amount: real)
    requires at < |txs| && txs[at].payload == Simple(Stake(amount)) && txs[at].sender == a
    requires forall j :: 0 <= j < |txs| && j != at ==> StakeEarned(txs[j], a) == 0.0
    ensures Staked(txs, a) == amount
  {
    var before := txs[..|txs| - 1];
    if at < |before| {
      StakedOnce(before, a, at, amount);
    } else {
      StakedNever(before, a);
    }
  }

  lemma {:induction false} StakedNever(txs: seq<Tx>, a: Address)
    requires forall j :: 0 <= j < |txs| ==> StakeEarned(txs[j], a) == 0.0
    ensures Staked(txs, a) == 0.0
  {
    if txs != [] {
      StakedNever(txs[..|txs| - 1], a);
    }
  }

  lemma {:induction false} NothingWithdrawn(txs: seq<Tx>, a: Address)
    requires forall j :: 0 <= j < |txs| ==> StakeDebitOf(txs[j], a) == 0.0
    ensures Withdrawn(txs, a) == 0.0
  {
    if txs != [] {
      NothingWithdrawn(txs[..|txs| - 1], a);
    }
  }

  lemma StakeIs(e: Crypto, b: Block, allocations: seq<(Address, real)>, nodes: seq<PosNode>, dnnNodes: seq<DnnNode>, i: nat)
    requires Founding(b, allocations, nodes, dnnNodes) && DifferentAddresses(dnnNodes) && i < |dnnNodes|
    ensures Amount(Replay(e, [b]).stakes, dnnNodes[i].address) == dnnNodes[i].stake
  {
    hide Founding, DifferentAddresses, ApplyTxs, Purpose, Block.AllTransactions, Block.Sorted;
    var a, txs, at := dnnNodes[i].address, b.AllTransactions(), |allocations| + |nodes| + 2 * i;
    NodeTxs(b, allocations, nodes, dnnNodes, i);
    forall j | 0 <= j < |txs|
      ensures !SlashesAccount(txs[j], a) && StakeDebitOf(txs[j], a) == 0.0 && (j != at + 1 ==> StakeEarned(txs[j], a) == 0.0)
    {
      OtherTxs(b, allocations, nodes, dnnNodes, i, j);
    }
    StakedOnce(txs, a, at + 1, dnnNodes[i].stake);
    NothingWithdrawn(txs, a);
    TxsMoveStake(e, Blank, txs, b.header.height, b.header.proposerId, a);
    assert [b][..0] == [] && Replay(e, []) == Blank;
    assert Replay(e, [b]) == Ledger.ApplyBlock(e, Blank, b);
  }

  // Its record

  lemma OneBlock(b: Block)
    ensures History([b]) == BlockEvents(b)
  {
    assert [b][..0] == [] && History([]) == [];
    assert [] + BlockEvents(b) == BlockEvents(b);
  }

  /** The history of the node: registered once, admitted later, never closed. */
  ghost predicate NodeHistory(e: Crypto, h: seq<Event>, k: nat, j: nat, d: DnnNode, height: int) {
    && LastRegistration(h, k, d.address)
    && h[k].tx.payload == Simple(NodeRegisterDNN(d.modelName, d.architecture, d.weightsHash, d.endpoint, d.datasetId, d.publicKey))
    && k < j < |h| && Admits(h[j], d.address)
    && (forall i: nat :: j < i < |h| ==> !Closes(e, h, i, d.address))
    && forall i: nat :: i < |h| ==> h[i].height == height
  }

  lemma NodeHistoryIs(e: Crypto, b: Block, allocations: seq<(Address, real)>, nodes: seq<PosNode>, dnnNodes: seq<DnnNode>, i: nat)
    requires Founding(b, allocations, nodes, dnnNodes) && DifferentAddresses(dnnNodes) && i < |dnnNodes|
    ensures NodeHistory(e, BlockEvents(b), |allocations| + |nodes| + 2 * i, |b.simpleTxs| + i, dnnNodes[i], b.header.height)
  {
    hide Founding, DifferentAddresses, Purpose, LifeCycle.After, Block.AllTransactions, Block.Sorted;
    var d, h := dnnNodes[i], BlockEvents(b);
    var at := |allocations| + |nodes| + 2 * i;
    NodeTxs(b, allocations, nodes, dnnNodes, i);
    forall j: nat | j < |h|
      ensures h[j].height == b.header.height
      ensures j >= |b.simpleTxs| ==> !Closes(e, h, j, d.address)
      ensures j > at ==> !LifeCycle.Registers(h[j], d.address)
    {
      OtherTxs(b, allocations, nodes, dnnNodes, i, j);
    }
  }

  /** The record that such a history leaves. */
  lemma HistoryRecord(e: Crypto, h: seq<Event>, k: nat, j: nat, d: DnnNode, height: int)
    requires NodeHistory(e, h, k, j, d, height)
    ensures d.address in LifeCycle.After(e, h).nodes
    ensures var n := LifeCycle.After(e, h).nodes[d.address];
            && n.isActive && n.pomVerified && n.pomBlock == height && n.nodeType == DNN_NODE
            && n.nodeId == n.address == d.address && n.modelName == d.modelName && n.datasetId == d.datasetId
            && n.publicKey == d.publicKey && n.endpoint == d.endpoint && n.weightsHash == d.weightsHash
  {
    hide LifeCycle.After, Closes;
    var base := RecordExactly(e, h, k, d.address);
    AdmittedThen(e, h, k, j, d.address, height);
    assert Opens(h, j, d.address);
    ActiveExactly(e, h, d.address);
  }

  /** After the first block every listed DNN node is registered with its model, admitted, active, and has
      its stake; so with enough of it, it is a DNN validator. */
  lemma FoundersValidate(e: Crypto, b: Block, allocations: seq<(Address, real)>, nodes: seq<PosNode>, dnnNodes: seq<DnnNode>,
                         i: nat)
    requires Founding(b, allocations, nodes, dnnNodes) && DifferentAddresses(dnnNodes) && i < |dnnNodes|
    ensures var d := dnnNodes[i]; var s := Replay(e, [b]);
            && d.address in s.nodes && Amount(s.stakes, d.address) == d.stake
            && var n := s.nodes[d.address];
               && n.isActive && n.pomVerified && n.pomBlock == b.header.height && n.nodeType == DNN_NODE
               && n.nodeId == n.address == d.address && n.modelName == d.modelName && n.datasetId == d.datasetId
               && n.publicKey == d.publicKey && n.endpoint == d.endpoint && n.weightsHash == d.weightsHash
               && (Engine.IsDnnValidator(s.stakes)(n) <==> d.stake >= MIN_STAKE_DNN)
  {
    hide Founding, NodeHistory, DifferentAddresses, Replay, LifeCycle.After;
    NodeHistoryIs(e, b, allocations, nodes, dnnNodes, i);
    HistoryRecord(e, BlockEvents(b), |allocations| + |nodes| + 2 * i, |b.simpleTxs| + i, dnnNodes[i], b.header.height);
    OneBlock(b);
    ReplayIsAfter(e, [b]);
    StakeIs(e, b, allocations, nodes, dnnNodes, i);
  }

  /** When all events have one height, so has the admission. */
  lemma AdmittedThen(e: Crypto, h: seq<Event>, k: nat, j: nat, a: Address, height: int)
    requires LastRegistration(h, k, a) && k < j < |h| && Admits(h[j], a)
    requires forall i: nat | i < |h| :: h[i].height == height
    ensures a in LifeCycle.After(e, h).nodes && LifeCycle.After(e, h).nodes[a].pomBlock == height
    ensures LifeCycle.After(e, h).nodes[a].pomVerified
  {
    hide LifeCycle.After, NewRecord;
    var base := RecordExactly(e, h, k, a);
    var last := LatestAdmission(h, k, j, a);
    assert LastAdmission(h, k, last, a);
  }

  lemma {:induction false} LatestAdmission(h: seq<Event>, k: nat, j: nat, a: Address) returns (last: nat)
    requires k < j < |h| && Admits(h[j], a)
    ensures LastAdmission(h, k, last, a)
    decreases |h| - j
  {
    if i: nat :| j < i < |h| && Admits(h[i], a) {
      last := LatestAdmission(h, k, i, a);
    } else {
      last := j;
    }
  }

  // Its allocations

  function Allocated(allocations: seq<(Address, real)>, a: Address): real {
    if allocations == [] then 0.0 else
    Allocated(allocations[..|allocations| - 1], a)
    + if allocations[|allocations| - 1].0 == a then allocations[|allocations| - 1].1 else 0.0
  }

  /** What the n-th user transaction brings to an account. */
  lemma ReceivedStep(txs: seq<Tx>, allocations: seq<(Address, real)>, nodes: seq<PosNode>, dnnNodes: seq<DnnNode>, n: nat, a: Address)
    requires Genesis.Filled(txs, allocations, nodes, dnnNodes, |txs|) && n < |txs|
    ensures Sealing.Received(txs[..n + 1], a)
              == Sealing.Received(txs[..n], a)
                 + if n < |allocations| && allocations[n].0 == a then allocations[n].1 else 0.0
  {
    hide Purpose;
    assert txs[..n + 1][..n] == txs[..n];
    PurposeKinds(allocations, nodes, dnnNodes, n);
    if n < |allocations| {
      PurposeAt(allocations, nodes, dnnNodes, n);
    } else {
      NoTransfer(allocations, nodes, dnnNodes, n);
    }
  }

  /** What the first n user transactions bring to an account: its allocations among them. */
  lemma {:induction false} ReceivedAllocations(txs: seq<Tx>, allocations: seq<(Address, real)>, nodes: seq<PosNode>,
                                               dnnNodes: seq<DnnNode>, n: nat, a: Address)
    requires Genesis.Filled(txs, allocations, nodes, dnnNodes, |txs|) && n <= |txs|
    ensures Sealing.Received(txs[..n], a) == Allocated(allocations[..if n < |allocations| then n else |allocations|], a)
  {
    hide Genesis.Filled, Sealing.Received;
    if n == 0 {
      NothingReceived(a);
    } else {
      ReceivedAllocations(txs, allocations, nodes, dnnNodes, n - 1, a);
      ReceivedStep(txs, allocations, nodes, dnnNodes, n - 1, a);
      if n <= |allocations| {
        assert allocations[..n][..n - 1] == allocations[..n - 1];
      }
    }
  }

  lemma NothingReceived(a: Address)
    ensures Sealing.Received([], a) == Allocated([], a) == 0.0
  {}

  lemma NoTransfer(allocations: seq<(Address, real)>, nodes: seq<PosNode>, dnnNodes: seq<DnnNode>, j: nat)
    requires |allocations| <= j < |allocations| + |nodes| + 2 * |dnnNodes|
    ensures !Purpose(allocations, nodes, dnnNodes, j).0.TokenTransfer?
  {}

  /** An account that pays for nothing spends nothing. */
  lemma {:induction false} SpendsNothing(txs: seq<Tx>, a: Address)
    requires forall j :: 0 <= j < |txs| ==> DebitOf(txs[j], a) == 0.0
    ensures Spent(txs, a) == 0.0
  {
    if txs != [] {
      SpendsNothing(txs[..|txs| - 1], a);
    }
  }

  lemma {:induction false} SpendsOnce(txs: seq<Tx>, a: Address, at: nat)
    requires at < |txs| && forall j :: 0 <= j < |txs| && j != at ==> DebitOf(txs[j], a) == 0.0
    ensures Spent(txs, a) == DebitOf(txs[at], a)
  {
    var before := txs[..|txs| - 1];
    if at < |before| {
      SpendsOnce(before, a, at);
    } else {
      SpendsNothing(before, a);
    }
  }

  lemma {:induction false} EarnsNothing(txs: seq<Tx>, proposer: Address, a: Address)
    requires forall j :: 0 <= j < |txs| ==> Earned(txs[j], proposer, a) == 0.0
    ensures Income(txs, proposer, a) == 0.0
  {
    if txs != [] {
      EarnsNothing(txs[..|txs| - 1], proposer, a);
    }
  }

  lemma {:induction false} FreeOfFees(txs: seq<Tx>)
    requires forall j :: 0 <= j < |txs| ==> txs[j].fee == 0.0
    ensures Sealing.PositiveFees(txs) == 0.0
  {
    if txs != [] {
      FreeOfFees(txs[..|txs| - 1]);
    }
  }

  /** A balance after the first block, before anything is spent. */
  lemma FirstBalance(e: Crypto, b: Block, allocations: seq<(Address, real)>, nodes: seq<PosNode>, dnnNodes: seq<DnnNode>, a: Address)
    requires Founding(b, allocations, nodes, dnnNodes) && forall j :: 0 <= j < |b.simpleTxs| ==> b.simpleTxs[j].fee == 0.0
    ensures Amount(Replay(e, [b]).balances, a) == Allocated(allocations, a) - Spent(b.simpleTxs, a)
  {
    hide Purpose, Income, Spent, Allocated, Sealing.Received, ApplyTxs, Amount;
    var h, p := b.header.height, b.header.proposerId;
    assert [b][..0] == [] && Replay(e, []) == Blank;
    assert b.AllTransactions() == b.simpleTxs + b.systemTxs;
    ApplyJoined(e, Blank, b.simpleTxs, b.systemTxs, h, p);
    var users := ApplyTxs(e, Blank, b.simpleTxs, h, p);
    TxsMoveBalance(e, Blank, b.simpleTxs, h, p, a);
    TxsMoveBalance(e, users, b.systemTxs, h, p, a);
    EarnsNothing(b.systemTxs, p, a);
    SpendsNothing(b.systemTxs, a);
    Sealing.IncomeSplits(b.simpleTxs, p, a);
    FreeOfFees(b.simpleTxs);
    ReceivedAllocations(b.simpleTxs, allocations, nodes, dnnNodes, |b.simpleTxs|, a);
    assert b.simpleTxs[..|b.simpleTxs|] == b.simpleTxs && allocations[..|allocations|] == allocations;
    BlankAmount(a);
  }

  lemma BlankAmount(a: Address)
    ensures Amount(Blank.balances, a) == 0.0
  {}

  /** After the first block every account but the genesis account has exactly what was allocated to it, and a
      DNN node that less its stake. */
  lemma AllocationsArrive(e: Crypto, b: Block, allocations: seq<(Address, real)>, nodes: seq<PosNode>, dnnNodes: seq<DnnNode>,
                          a: Address)
    requires Founding(b, allocations, nodes, dnnNodes) && forall j :: 0 <= j < |b.simpleTxs| ==> b.simpleTxs[j].fee == 0.0
    requires a != GENESIS_ADDRESS && DifferentAddresses(dnnNodes)
    ensures (forall i :: 0 <= i < |dnnNodes| ==> dnnNodes[i].address != a) ==>
              Amount(Replay(e, [b]).balances, a) == Allocated(allocations, a)
    ensures forall i :: 0 <= i < |dnnNodes| && dnnNodes[i].address == a ==>
              Amount(Replay(e, [b]).balances, a) == Allocated(allocations, a) - dnnNodes[i].stake
  {
    hide Purpose, Replay, Spent, Allocated, Amount;
    FirstBalance(e, b, allocations, nodes, dnnNodes, a);
    if i :| 0 <= i < |dnnNodes| && dnnNodes[i].address == a {
      var at := |allocations| + |nodes| + 2 * i + 1;
      forall j | 0 <= j < |b.simpleTxs| && j != at ensures DebitOf(b.simpleTxs[j], a) == 0.0 {
        DebitsAt(b, allocations, nodes, dnnNodes, j, a);
      }
      PurposeAt(allocations, nodes, dnnNodes, at);
      SpendsOnce(b.simpleTxs, a, at);
    } else {
      forall j | 0 <= j < |b.simpleTxs| ensures DebitOf(b.simpleTxs[j], a) == 0.0 {
        DebitsAt(b, allocations, nodes, dnnNodes, j, a);
      }
      SpendsNothing(b.simpleTxs, a);
    }
  }

  /** Only a DNN node's stake costs anything, besides the allocations. */
  lemma DebitsAt(b: Block, allocations: seq<(Address, real)>, nodes: seq<PosNode>, dnnNodes: seq<DnnNode>, j: nat, a: Address)
    requires Founding(b, allocations, nodes, dnnNodes) && a != GENESIS_ADDRESS && j < |b.simpleTxs| && b.simpleTxs[j].fee == 0.0
    ensures DebitOf(b.simpleTxs[j], a) != 0.0 ==>
              && j >= |allocations| + |nodes| && (j - |allocations| - |nodes|) % 2 == 1
              && dnnNodes[(j - |allocations| - |nodes|) / 2].address == a
  {
    PurposeKinds(allocations, nodes, dnnNodes, j);
    PurposeAt(allocations, nodes, dnnNodes, j);
    if j >= |allocations| { NoTransfer(allocations, nodes, dnnNodes, j); }
    CheapPurposes(allocations, nodes, dnnNodes, j);
  }

  lemma CheapPurposes(allocations: seq<(Address, real)>, nodes: seq<PosNode>, dnnNodes: seq<DnnNode>, j: nat)
    requires j < |allocations| + |nodes| + 2 * |dnnNodes|
    ensures !Purpose(allocations, nodes, dnnNodes, j).0.ContractCall?
  {}

  ghost predicate OlderHistory(e: Crypto, h: seq<Event>, k: nat, n: PosNode) {
    && LastRegistration(h, k, n.address)
    && h[k].tx.payload == Simple(NodeRegister(n.modelName, n.publicKey, n.endpoint))
    && forall j: nat :: k < j < |h| ==> !Closes(e, h, j, n.address)
  }

  lemma OlderHistoryIs(e: Crypto, b: Block, allocations: seq<(Address, real)>, nodes: seq<PosNode>, dnnNodes: seq<DnnNode>, i: nat)
    requires Founding(b, allocations, nodes, dnnNodes) && i < |nodes|
    requires forall j :: i < j < |nodes| ==> nodes[j].address != nodes[i].address
    requires forall j :: 0 <= j < |dnnNodes| ==> dnnNodes[j].address != nodes[i].address
    ensures OlderHistory(e, BlockEvents(b), |allocations| + i, nodes[i])
  {
    hide Purpose, LifeCycle.After;
    var h, a, at := BlockEvents(b), nodes[i].address, |allocations| + i;
    PurposeAt(allocations, nodes, dnnNodes, at);
    assert b.AllTransactions() == b.simpleTxs + b.systemTxs;
    forall j: nat | at < j < |h| ensures !LifeCycle.Registers(h[j], a) && !Closes(e, h, j, a) {
      if j < |b.simpleTxs| {
        OthersApart(allocations, nodes, dnnNodes, i, j);
      }
    }
  }

  lemma OlderRecord(e: Crypto, h: seq<Event>, k: nat, n: PosNode)
    requires OlderHistory(e, h, k, n)
    ensures n.address in LifeCycle.After(e, h).nodes
    ensures var r := LifeCycle.After(e, h).nodes[n.address];
            r.isActive && r.nodeType == POS_NODE && r.modelName == n.modelName && r.publicKey == n.publicKey && r.endpoint == n.endpoint
  {
    hide LifeCycle.After, Closes;
    var base := RecordExactly(e, h, k, n.address);
    assert Opens(h, k, n.address);
    ActiveExactly(e, h, n.address);
  }

  /** A listed node of the older kind is registered as given and active at once, if nobody else registers its
      address. */
  lemma OlderFounderActive(e: Crypto, b: Block, allocations: seq<(Address, real)>, nodes: seq<PosNode>,
                           dnnNodes: seq<DnnNode>, i: nat)
    requires Founding(b, allocations, nodes, dnnNodes) && i < |nodes|
    requires forall j :: i < j < |nodes| ==> nodes[j].address != nodes[i].address
    requires forall j :: 0 <= j < |dnnNodes| ==> dnnNodes[j].address != nodes[i].address
    ensures var s := Replay(e, [b]); var n := nodes[i];
            && n.address in s.nodes && s.nodes[n.address].isActive && s.nodes[n.address].nodeType == POS_NODE
            && s.nodes[n.address].modelName == n.modelName && s.nodes[n.address].publicKey == n.publicKey
            && s.nodes[n.address].endpoint == n.endpoint
  {
    hide Founding, OlderHistory, Replay, LifeCycle.After;
    OlderHistoryIs(e, b, allocations, nodes, dnnNodes, i);
    OlderRecord(e, BlockEvents(b), |allocations| + i, nodes[i]);
    OneBlock(b);
    ReplayIsAfter(e, [b]);
  }

  lemma OthersApart(allocations: seq<(Address, real)>, nodes: seq<PosNode>, dnnNodes: seq<DnnNode>, i: nat, j: nat)
    requires i < |nodes| && |allocations| + i < j < |allocations| + |nodes| + 2 * |dnnNodes|
    requires forall k :: i < k < |nodes| ==> nodes[k].address != nodes[i].address
    requires forall k :: 0 <= k < |dnnNodes| ==> dnnNodes[k].address != nodes[i].address
    ensures Purpose(allocations, nodes, dnnNodes, j).1 != nodes[i].address
  {}
}

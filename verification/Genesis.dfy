/** The first block: token allocations, node registrations and pre-admissions. */
module Genesis {
  import opened Collections
  import opened Constants
  import opened Ledger
  import opened Merkle
  import opened Nonces

  datatype PosNode = PosNode(address: Address, modelName: string, publicKey: string, endpoint: string)

  datatype DnnNode = DnnNode(
    address: Address, modelName: string, architecture: string, weightsHash: string, endpoint: string,
    datasetId: string, publicKey: string, stake: real)

  function NewTx(id: IdOf, payload: Payload, sender: Address, recipient: Address, nonce: int, ts: real): Tx {
    Tx(id(payload, sender, recipient, nonce, ts), payload, sender, recipient, nonce, 0.0, ts, "genesis", "")
  }

  /** What the i-th simple transaction is for. */
  function Purpose(allocations: seq<(Address, real)>, nodes: seq<PosNode>, dnnNodes: seq<DnnNode>, i: nat)
    : (UserPayload, Address, Address)
    requires i < |allocations| + |nodes| + 2 * |dnnNodes|
  {
    if i < |allocations| then (TokenTransfer(allocations[i].1), GENESIS_ADDRESS, allocations[i].0)
    else if i < |allocations| + |nodes| then
      var n := nodes[i - |allocations|];
      (NodeRegister(n.modelName, n.publicKey, n.endpoint), n.address, "")
    else
      var d := dnnNodes[(i - |allocations| - |nodes|) / 2];
      if (i - |allocations| - |nodes|) % 2 == 0
      then (NodeRegisterDNN(d.modelName, d.architecture, d.weightsHash, d.endpoint, d.datasetId, d.publicKey), d.address, "")
      else (Stake(d.stake), d.address, "")
  }

  /** The nonces handed out so far, one counter per sender. */
  ghost predicate Counted(txs: seq<Tx>, counter: map<Address, int>) {
    && InOrder(txs, map[])
    && (forall i :: 0 <= i < |txs| ==> txs[i].Family() == SIMPLE && txs[i].fee == 0.0)
    && forall a :: NonceOf(counter, a) == Count(txs, a)
  }

  ghost predicate Filled(
    txs: seq<Tx>, allocations: seq<(Address, real)>, nodes: seq<PosNode>, dnnNodes: seq<DnnNode>, n: nat)
  {
    n == |txs| <= |allocations| + |nodes| + 2 * |dnnNodes| &&
    forall i :: 0 <= i < |txs| ==>
      var (p, sender, recipient) := Purpose(allocations, nodes, dnnNodes, i);
      txs[i].payload == Simple(p) && txs[i].sender == sender && txs[i].recipient == recipient
  }

  lemma CountedStep(txs: seq<Tx>, counter: map<Address, int>, tx: Tx)
    requires Counted(txs, counter) && tx.Family() == SIMPLE && tx.fee == 0.0
    requires tx.nonce == NonceOf(counter, tx.sender) + 1
    ensures Counted(txs + [tx], counter[tx.sender := tx.nonce])
  {
    var all := txs + [tx];
    assert all[..|all| - 1] == txs;
    assert Count(txs, tx.sender) == NonceOf(counter, tx.sender);
    InOrderStep(all, map[]);
    forall a ensures NonceOf(counter[tx.sender := tx.nonce], a) == Count(all, a) {
      assert NonceOf(counter, a) == Count(txs, a);
    }
  }

  /** One more transaction, issued for the next purpose with the sender's next nonce. */
  lemma Issued(
    txs: seq<Tx>, counter: map<Address, int>, tx: Tx,
    allocations: seq<(Address, real)>, nodes: seq<PosNode>, dnnNodes: seq<DnnNode>)
    requires Counted(txs, counter) && Filled(txs, allocations, nodes, dnnNodes, |txs|)
    requires |txs| < |allocations| + |nodes| + 2 * |dnnNodes|
    requires tx.payload.Simple? && (tx.payload.user, tx.sender, tx.recipient) == Purpose(allocations, nodes, dnnNodes, |txs|)
    requires tx.fee == 0.0 && tx.nonce == NonceOf(counter, tx.sender) + 1
    ensures Counted(txs + [tx], counter[tx.sender := tx.nonce])
    ensures Filled(txs + [tx], allocations, nodes, dnnNodes, |txs| + 1)
  {
    CountedStep(txs, counter, tx);
  }

  lemma Complete(txs: seq<Tx>, counter: map<Address, int>)
    requires Counted(txs, counter)
    ensures InOrder(txs, map[])
    ensures forall i :: 0 <= i < |txs| ==> txs[i].Family() == SIMPLE && txs[i].fee == 0.0
  {}

  /** Builds the genesis block: every requested allocation, registration and stake in order, with
      gapless nonces from 1 for every sender, then one admission per DNN node. */
  method CreateGenesisBlock(
    sha: string -> string, id: IdOf, ts: real,
    allocations: seq<(Address, real)>, nodes: seq<PosNode>, dnnNodes: seq<DnnNode>, proposerId: Address)
    returns (b: Block)
    ensures b.header == Header(GENESIS_PREV_HASH, 0, ts, proposerId, MerkleRoot(sha, TxIds(b.simpleTxs)), POS, 0)
    ensures b.Sorted() && b.signatures == [(GENESIS_ADDRESS, "genesis")]
    ensures Filled(b.simpleTxs, allocations, nodes, dnnNodes, |allocations| + |nodes| + 2 * |dnnNodes|)
    ensures forall i :: 0 <= i < |b.simpleTxs| ==> b.simpleTxs[i].fee == 0.0
    ensures |b.systemTxs| == |dnnNodes|
    ensures forall i :: 0 <= i < |dnnNodes| ==>
              b.systemTxs[i].payload == System(NodeAdmitted(dnnNodes[i].address, DNN_NODE, 1.0))
    ensures InOrder(b.AllTransactions(), map[])
  {
    hide Purpose, InOrder, Count, MerkleRoot, Counted, NonceOf;
    var simple: seq<Tx> := [];
    var system: seq<Tx> := [];
    var counter: map<Address, int> := map[];
    NothingYet();
    for k := 0 to |allocations|
      invariant Counted(simple, counter) && Filled(simple, allocations, nodes, dnnNodes, k)
    {
      PurposeAt(allocations, nodes, dnnNodes, k);
      var n := NonceOf(counter, GENESIS_ADDRESS) + 1;
      var tx := NewTx(id, Simple(TokenTransfer(allocations[k].1)), GENESIS_ADDRESS, allocations[k].0, n, ts);
      Issued(simple, counter, tx, allocations, nodes, dnnNodes);
      counter := counter[GENESIS_ADDRESS := n];
      simple := simple + [tx];
    }
    for k := 0 to |nodes|
      invariant Counted(simple, counter) && Filled(simple, allocations, nodes, dnnNodes, |allocations| + k)
    {
      PurposeAt(allocations, nodes, dnnNodes, |simple|);
      var node := nodes[k];
      var n := NonceOf(counter, node.address) + 1;
      var tx := NewTx(id, Simple(NodeRegister(node.modelName, node.publicKey, node.endpoint)), node.address, "", n, ts);
      Issued(simple, counter, tx, allocations, nodes, dnnNodes);
      counter := counter[node.address := n];
      simple := simple + [tx];
    }
    var sysNonce := NonceOf(counter, GENESIS_ADDRESS);
    for k := 0 to |dnnNodes|
      invariant Counted(simple, counter) && Filled(simple, allocations, nodes, dnnNodes, |allocations| + |nodes| + 2 * k)
      invariant |system| == k
      invariant forall i :: 0 <= i < k ==>
                  system[i].payload == System(NodeAdmitted(dnnNodes[i].address, DNN_NODE, 1.0))
    {
      PurposeAt(allocations, nodes, dnnNodes, |simple|);
      var d := dnnNodes[k];
      var n := NonceOf(counter, d.address) + 1;
      var tx := NewTx(id, Simple(NodeRegisterDNN(d.modelName, d.architecture, d.weightsHash, d.endpoint, d.datasetId,
                                                 d.publicKey)),
                      d.address, "", n, ts);
      Issued(simple, counter, tx, allocations, nodes, dnnNodes);
      counter := counter[d.address := n];
      simple := simple + [tx];
      PurposeAt(allocations, nodes, dnnNodes, |simple|);
      n := NonceOf(counter, d.address) + 1;
      tx := NewTx(id, Simple(Stake(d.stake)), d.address, "", n, ts);
      Issued(simple, counter, tx, allocations, nodes, dnnNodes);
      counter := counter[d.address := n];
      simple := simple + [tx];
      sysNonce := sysNonce + 1;
      system := system + [NewTx(id, System(NodeAdmitted(d.address, DNN_NODE, 1.0)), GENESIS_ADDRESS, "", sysNonce, ts)];
    }
    var header := Header(GENESIS_PREV_HASH, 0, ts, proposerId, MerkleRoot(sha, TxIds(simple)), POS, 0);
    b := Block(header, simple, [(GENESIS_ADDRESS, "genesis")], None, system);
    Complete(simple, counter);
    SurroundedInOrder([], simple, system, map[]);
    assert [] + simple + system == b.AllTransactions();
  }

  lemma NothingYet()
    ensures Counted([], map[])
  {}

  lemma PurposeAt(allocations: seq<(Address, real)>, nodes: seq<PosNode>, dnnNodes: seq<DnnNode>, i: nat)
    requires i < |allocations| + |nodes| + 2 * |dnnNodes|
    ensures i < |allocations| ==>
              Purpose(allocations, nodes, dnnNodes, i) == (TokenTransfer(allocations[i].1), GENESIS_ADDRESS, allocations[i].0)
    ensures forall k {:trigger nodes[k]} :: 0 <= k < |nodes| && i == |allocations| + k ==>
              Purpose(allocations, nodes, dnnNodes, i)
                == (NodeRegister(nodes[k].modelName, nodes[k].publicKey, nodes[k].endpoint), nodes[k].address, "")
    ensures forall k {:trigger dnnNodes[k]} :: 0 <= k < |dnnNodes| && i == |allocations| + |nodes| + 2 * k ==>
              var d := dnnNodes[k];
              Purpose(allocations, nodes, dnnNodes, i)
                == (NodeRegisterDNN(d.modelName, d.architecture, d.weightsHash, d.endpoint, d.datasetId, d.publicKey),
                    d.address, "")
    ensures forall k {:trigger dnnNodes[k]} :: 0 <= k < |dnnNodes| && i == |allocations| + |nodes| + 2 * k + 1 ==>
              Purpose(allocations, nodes, dnnNodes, i) == (Stake(dnnNodes[k].stake), dnnNodes[k].address, "")
  {}

  /** The first block's root is taken over its user transactions only: so it passes the check of its own
      root exactly when there is no DNN node to admit, if the hash does not collide on the trees at hand
      and no admission has the id of a user transaction. */
  lemma OwnRootExactly(sha: string -> string, b: Block, dnnNodes: nat)
    requires b.Sorted() && b.inferenceTx.None? && b.header.merkleRoot == MerkleRoot(sha, TxIds(b.simpleTxs))
    requires |b.systemTxs| == dnnNodes && |b.simpleTxs| >= 2 * dnnNodes
    requires b.simpleTxs != [] ==> NoCollision(sha, TxIds(b.simpleTxs), TxIds(b.AllTransactions()))
    requires forall i, j :: 0 <= i < |b.simpleTxs| && 0 <= j < |b.systemTxs| ==> b.simpleTxs[i].txId != b.systemTxs[j].txId
    ensures b.header.merkleRoot == MerkleRoot(sha, TxIds(b.AllTransactions())) <==> dnnNodes == 0
  {
    hide Root, NoCollision;
    var xs, all := TxIds(b.simpleTxs), TxIds(b.AllTransactions());
    if dnnNodes == 0 {
      assert b.AllTransactions() == b.simpleTxs;
    } else {
      var admission := b.systemTxs[0].txId;
      assert all[|b.simpleTxs|] == admission;
      assert admission !in xs;
      if b.header.merkleRoot == MerkleRoot(sha, all) {
        RootsShareLeaves(sha, xs, all, admission);
      }
    }
  }
}

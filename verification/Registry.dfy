/** The ledger's registered nodes. */
module Registry {
  import opened Ledger

  /** Every node stands under its own id. */
  ghost predicate Keyed(nodes: map<Address, NodeInfo>) {
    forall a :: a in nodes ==> nodes[a].nodeId == a
  }

  lemma NewNodeKeyed(sender: Address, p: UserPayload, height: int)
    requires Registers(p)
    ensures NewNodeInfo(sender, p, height).nodeId == sender
  {}

  /** A user transaction registers its sender or nobody. */
  lemma SimpleRegisters(e: Crypto, s: Books, tx: Tx, p: UserPayload, height: int)
    ensures ApplySimple(e, s, tx, p, height).nodes
              == if Registers(p) then s.nodes[tx.sender := NewNodeInfo(tx.sender, p, height)] else s.nodes
  {
    hide Credit, Amount, NewNodeInfo;
  }

  lemma SystemKeepsKeyed(s: Books, tx: Tx, p: ProtocolPayload, height: int)
    requires Keyed(s.nodes)
    ensures Keyed(ApplySystem(s, tx, p, height).nodes)
  {
    hide Credit, Amount, Voted, Max0;
  }

  lemma FeeKeepsNodes(s: Books, tx: Tx, proposer: Address)
    ensures PayFee(s, tx, proposer).nodes == s.nodes
  {}

  lemma UserKeepsKeyed(e: Crypto, s: Books, tx: Tx, p: UserPayload, height: int)
    requires Keyed(s.nodes)
    ensures Keyed(ApplySimple(e, s, tx, p, height).nodes)
  {
    hide ApplySimple, NewNodeInfo;
    SimpleRegisters(e, s, tx, p, height);
    if Registers(p) { NewNodeKeyed(tx.sender, p, height); }
  }

  lemma TxKeepsKeyed(e: Crypto, s: Books, tx: Tx, height: int, proposer: Address)
    requires Keyed(s.nodes)
    ensures Keyed(ApplyTx(e, s, tx, height, proposer).nodes)
  {
    hide ApplySimple, ApplySystem, Keyed, PayFee;
    match tx.payload
    case Simple(p) =>
      FeeKeepsNodes(s, tx, proposer);
      UserKeepsKeyed(e, PayFee(s, tx, proposer), tx, p, height);
    case Inference(_) =>
    case System(p) => SystemKeepsKeyed(s, tx, p, height);
  }

  lemma {:induction false} TxsKeepKeyed(e: Crypto, s: Books, txs: seq<Tx>, height: int, proposer: Address)
    requires Keyed(s.nodes)
    ensures Keyed(ApplyTxs(e, s, txs, height, proposer).nodes)
  {
    if txs != [] {
      hide Keyed, ApplyTx;
      TxsKeepKeyed(e, s, txs[..|txs| - 1], height, proposer);
      TxKeepsKeyed(e, ApplyTxs(e, s, txs[..|txs| - 1], height, proposer), txs[|txs| - 1], height, proposer);
    }
  }

  /** On every chain, whatever its blocks hold. */
  lemma {:induction false} RegistryKeyed(e: Crypto, blocks: seq<Block>)
    ensures Keyed(Replay(e, blocks).nodes)
  {
    if blocks != [] {
      hide Keyed, ApplyTxs;
      var before, b := blocks[..|blocks| - 1], blocks[|blocks| - 1];
      RegistryKeyed(e, before);
      TxsKeepKeyed(e, Replay(e, before), b.AllTransactions(), b.header.height, b.header.proposerId);
    }
  }
}

/** The ledger object: blocks are appended after validation, the state is updated in place. */
module Chains {
  import opened Collections
  import opened Constants
  import opened Ledger
  import opened Merkle

  class ChainState {
    var balances: map<Address, real>
    var stakes: map<Address, real>
    var nonces: map<Address, int>
    var nodes: map<Address, NodeInfo>
    var contracts: map<string, ContractInfo>
    var inferenceLog: map<string, ProtocolPayload>
    var reputations: map<Address, real>
    var pomStates: map<Address, PomRecord>
    var pubkeys: map<Address, string>

    /** Every field but the reputations, as one value. */
    ghost function Books(): Books
      reads this
    {
      Ledger.Books(balances, stakes, nonces, nodes, contracts, inferenceLog, pomStates, pubkeys)
    }

    constructor ()
      ensures Books() == Blank && reputations == map[]
    {
      balances, stakes, nonces, nodes, contracts := map[], map[], map[], map[], map[];
      inferenceLog, reputations, pomStates, pubkeys := map[], map[], map[], map[];
    }

    method LearnKey(tx: Tx)
      modifies `pubkeys
      ensures Books() == Ledger.LearnKey(old(Books()), tx)
    {
      if tx.publicKey != "" && tx.sender !in pubkeys {
        pubkeys := pubkeys[tx.sender := tx.publicKey];
      }
    }

    method Register(tx: Tx, info: NodeInfo)
      modifies `nodes, `reputations, `balances, `nonces
      ensures Books() == Registered(old(Books()), tx, info)
      ensures reputations == old(reputations)[tx.sender := INITIAL_REPUTATION]
    {
      nodes := nodes[tx.sender := info];
      reputations := reputations[tx.sender := INITIAL_REPUTATION];
      balances := Credit(balances, tx.sender, -tx.fee);
      nonces := nonces[tx.sender := tx.nonce];
    }

    method Verify(nodeId: Address, verifier: Address, verified: bool, accuracy: real)
      requires nodeId in pomStates
      modifies `pomStates
      ensures pomStates == old(pomStates)[nodeId := Voted(old(pomStates)[nodeId], verifier, verified, accuracy)]
    {
      var pom := pomStates[nodeId];
      if verifier !in pom.positive && verifier !in pom.negative {
        if verified {
          pom := pom.(positive := pom.positive + [verifier]);
        } else {
          pom := pom.(negative := pom.negative + [verifier]);
        }
        pomStates := pomStates[nodeId := pom.(accuracies := pom.accuracies + [accuracy])];
      }
    }

    method Punish(sender: Address, amount: real)
      modifies `stakes, `reputations, `nodes
      ensures reputations == old(reputations)[sender := Max0(ReputationOf(old(reputations), sender) - REP_PENALTY)]
      ensures var s := old(Books()); var left := Max0(Amount(s.stakes, sender) - amount);
              && stakes == s.stakes[sender := left]
              && nodes == if sender in s.nodes && left < MIN_STAKE
                          then s.nodes[sender := s.nodes[sender].(isActive := false)] else s.nodes
    {
      stakes := stakes[sender := Max0(Amount(stakes, sender) - amount)];
      var reputation := if sender in reputations then reputations[sender] else INITIAL_REPUTATION;
      reputations := reputations[sender := Max0(reputation - REP_PENALTY)];
      if sender in nodes && Amount(stakes, sender) < MIN_STAKE {
        nodes := nodes[sender := nodes[sender].(isActive := false)];
      }
    }

    method ApplyTx(e: Crypto, tx: Tx, height: int, proposer: Address)
      modifies this
      ensures Books() == Ledger.ApplyTx(e, old(Books()), tx, height, proposer)
      ensures reputations == RateTx(old(reputations), tx)
    {
      hide Ledger.ApplySimple, Ledger.ApplySystem;
      match tx.payload {
        case Simple(p) =>
          if tx.fee > 0.0 {
            balances := Credit(balances, proposer, tx.fee);
          }
          ApplySimple(e, tx, p, height);
        case Inference(_) =>
        case System(p) =>
          ApplySystem(tx, p, height);
      }
    }

    method ApplySimple(e: Crypto, tx: Tx, p: UserPayload, height: int)
      modifies this
      requires tx.payload == Simple(p)
      ensures Books() == Ledger.ApplySimple(e, old(Books()), tx, p, height)
      ensures reputations == RateTx(old(reputations), tx)
    {
      hide Credit, Ledger.LearnKey, Registered, NewNodeInfo;
      match p {
        case TokenTransfer(amount) =>
          balances := Credit(balances, tx.sender, -amount - tx.fee);
          balances := Credit(balances, tx.recipient, amount);
          nonces := nonces[tx.sender := tx.nonce];
          LearnKey(tx);
        case Stake(amount) =>
          balances := Credit(balances, tx.sender, -amount - tx.fee);
          stakes := Credit(stakes, tx.sender, amount);
          nonces := nonces[tx.sender := tx.nonce];
          LearnKey(tx);
        case Unstake(amount) =>
          stakes := Credit(stakes, tx.sender, -amount);
          balances := Credit(balances, tx.sender, amount - tx.fee);
          nonces := nonces[tx.sender := tx.nonce];
          LearnKey(tx);
        case NodeRegister(_, _, _) => ApplyRegistration(e, tx, p, height);
        case NodeRegisterPOS(_, _) => ApplyRegistration(e, tx, p, height);
        case NodeRegisterDNN(_, _, _, _, _, _) => ApplyRegistration(e, tx, p, height);
        case ModelResponse(_, _) => ApplyContract(e, tx, p, height);
        case ContractDeploy(_, _, _) => ApplyContract(e, tx, p, height);
        case ContractCall(_, _, _, _) => ApplyContract(e, tx, p, height);
      }
    }

    /** Transactions that only cost their sender something, and may record a contract. */
    method ApplyContract(e: Crypto, tx: Tx, p: UserPayload, height: int)
      modifies this
      requires tx.payload == Simple(p) && (p.ModelResponse? || p.ContractDeploy? || p.ContractCall?)
      ensures Books() == Ledger.ApplySimple(e, old(Books()), tx, p, height)
      ensures reputations == RateTx(old(reputations), tx)
    {
      hide Credit;
      match p {
        case ModelResponse(_, _) =>
          nonces := nonces[tx.sender := tx.nonce];
          balances := Credit(balances, tx.sender, -tx.fee);
        case ContractDeploy(bytecode, abi, _) =>
          var address := e.contractAddress(tx.sender, tx.nonce);
          contracts := contracts[address := ContractInfo(address, tx.sender, bytecode, abi, height)];
          balances := Credit(balances, tx.sender, -tx.fee);
          nonces := nonces[tx.sender := tx.nonce];
        case ContractCall(_, _, _, value) =>
          balances := Credit(balances, tx.sender, -tx.fee - value);
          nonces := nonces[tx.sender := tx.nonce];
      }
    }

    method ApplyRegistration(e: Crypto, tx: Tx, p: UserPayload, height: int)
      modifies this
      requires tx.payload == Simple(p) && Registers(p)
      ensures Books() == Ledger.ApplySimple(e, old(Books()), tx, p, height)
      ensures reputations == RateTx(old(reputations), tx)
    {
      hide Registered, NewNodeInfo;
      Register(tx, NewNodeInfo(tx.sender, p, height));
      if p.NodeRegisterDNN? {
        pomStates := pomStates[tx.sender := PomRecord([], [], [], DNN_NODE, p.weightsHash)];
      }
    }

    method ApplySystem(tx: Tx, p: ProtocolPayload, height: int)
      modifies this
      requires tx.payload == System(p)
      ensures Books() == Ledger.ApplySystem(old(Books()), tx, p, height)
      ensures reputations == RateTx(old(reputations), tx)
    {
      hide Credit, Max0, Voted, ReputationOf;
      match p {
        case ModelVerify(nodeId, verified, accuracy, _) =>
          if nodeId in pomStates {
            Verify(nodeId, tx.sender, verified, accuracy);
          }
        case NodeAdmitted(nodeId, _, _) =>
          if nodeId in nodes {
            nodes := nodes[nodeId := nodes[nodeId].(isActive := true, pomVerified := true, pomBlock := height)];
          }
        case NodeRejected(nodeId, _) =>
          if nodeId in nodes {
            nodes := nodes[nodeId := nodes[nodeId].(isActive := false)];
          }
          pomStates := pomStates - {nodeId};
        case Reward(amount, _, _) =>
          balances := Credit(balances, tx.recipient, amount);
        case Slash(amount, _, _) =>
          Punish(tx.sender, amount);
        case ConsensusResult(requestId, _, _, _) =>
          inferenceLog := inferenceLog[requestId := p];
        case _ =>
      }
    }
  }

  class Chain {
    const e: Crypto
    const f: nat
    const state: ChainState
    var blocks: seq<Block>

    /** The blocks are a valid chain and the books are theirs. */
    ghost predicate Valid()
      reads this, state
    {
      ValidChain(e, f, blocks) && state.Books() == Replay(e, blocks)
    }

    constructor (e: Crypto, genesis: Block, f: nat)
      ensures Valid() && fresh(state)
      ensures this.e == e && this.f == f && blocks == [genesis]
    {
      this.e := e;
      this.f := f;
      state := new ChainState();
      blocks := [];
      new;
      ApplyBlock(genesis);
      blocks := blocks + [genesis];
      assert [genesis][..0] == [];
    }

    /** Validates, then applies: a rejected block changes nothing, and neither the verdict nor the
        new books depend on the reputations. */
    method Append(block: Block) returns (error: Option<BlockError>)
      requires Valid()
      modifies this, state
      ensures Valid()
      ensures error == BlockCheck(e, f, old(state.Books()), old(blocks[|blocks| - 1]), block)
      ensures error.Some? ==> state.Books() == old(state.Books()) && state.reputations == old(state.reputations)
                              && blocks == old(blocks)
      ensures error.None? ==> state.Books() == Ledger.ApplyBlock(e, old(state.Books()), block)
                              && state.reputations == RateTxs(old(state.reputations), block.AllTransactions())
                              && blocks == old(blocks) + [block]
    {
      hide BlockCheck, Ledger.ApplyBlock;
      error := ValidateBlock(block);
      if error.None? {
        ApplyBlock(block);
        var before := blocks;
        blocks := blocks + [block];
        assert blocks[..|blocks| - 1] == before;
      }
    }

    method ValidateBlock(block: Block) returns (error: Option<BlockError>)
      requires blocks != []
      ensures error == BlockCheck(e, f, state.Books(), blocks[|blocks| - 1], block)
    {
      hide TxsError, MerkleRoot;
      var tip := blocks[|blocks| - 1];
      if block.header.prevHash != e.headerHash(tip.header) { return Some(BadPrevHash); }
      if block.header.height != tip.header.height + 1 { return Some(BadHeight); }
      if |block.signatures| < 2 * f + 1 { return Some(TooFewSignatures); }
      if block.header.merkleRoot != MerkleRoot(e.sha, TxIds(block.AllTransactions())) { return Some(MerkleMismatch); }
      error := ValidateSimple(block.simpleTxs);
    }

    /** Checks the transactions in order, tracking the nonces used so far in the block. */
    method ValidateSimple(txs: seq<Tx>) returns (error: Option<BlockError>)
      ensures error == TxsError(e, state.Books(), txs)
    {
      hide TxError;
      var intra: map<Address, int> := map[];
      for i := 0 to |txs|
        invariant TxsError(e, state.Books(), txs[..i]).None? && intra == IntraNonces(txs[..i])
      {
        assert txs[..i + 1][..i] == txs[..i];
        error := ValidateTx(txs[i], intra);
        if error.Some? {
          FirstErrorStands(e, state.Books(), txs, i + 1);
          return;
        }
        intra := intra[txs[i].sender := txs[i].nonce];
      }
      assert txs[..|txs|] == txs;
      error := None;
    }

    method ValidateTx(tx: Tx, intra: map<Address, int>) returns (error: Option<BlockError>)
      ensures error == TxError(e, state.Books(), tx, intra)
    {
      hide SignatureOk, BalanceError;
      var signed := CheckSignature(tx);
      if !signed { return Some(BadSignature(tx.txId)); }
      var current := if tx.sender in intra then intra[tx.sender] else NonceOf(state.nonces, tx.sender);
      if tx.nonce != current + 1 { return Some(BadNonce(current + 1, tx.nonce)); }
      error := CheckBalance(tx);
    }

    method CheckSignature(tx: Tx) returns (ok: bool)
      ensures ok == SignatureOk(e, state.Books(), tx)
    {
      if tx.Family() == SIMPLE && tx.signature != "" && tx.signature != "genesis" && tx.signature != "dev" {
        if tx.sender in state.nodes {
          return e.verify(state.nodes[tx.sender].publicKey, tx.txId, tx.signature);
        }
        var key := tx.publicKey;
        if key == "" && tx.sender in state.pubkeys { key := state.pubkeys[tx.sender]; }
        if key != "" { return e.verify(key, tx.txId, tx.signature); }
      }
      ok := true;
    }

    method CheckBalance(tx: Tx) returns (error: Option<BlockError>)
      ensures error == BalanceError(state.Books(), tx)
    {
      if !tx.payload.Simple? { return None; }
      var balance := Amount(state.balances, tx.sender);
      match tx.payload.user {
        case TokenTransfer(amount) =>
          if balance < amount + tx.fee { return Some(InsufficientBalance(balance, amount + tx.fee)); }
        case Stake(amount) =>
          if balance < amount + tx.fee { return Some(InsufficientBalance(balance, amount + tx.fee)); }
        case Unstake(amount) =>
          var staked := Amount(state.stakes, tx.sender);
          if staked < amount { return Some(InsufficientStake(staked, amount)); }
          if balance < tx.fee { return Some(InsufficientBalance(balance, tx.fee)); }
        case ContractDeploy(_, _, _) =>
          if balance < tx.fee { return Some(InsufficientBalance(balance, tx.fee)); }
        case ContractCall(_, _, _, _) =>
          if balance < tx.fee { return Some(InsufficientBalance(balance, tx.fee)); }
        case NodeRegister(_, _, _) =>
          if balance < tx.fee { return Some(InsufficientBalance(balance, tx.fee)); }
        case _ =>
      }
      error := None;
    }

    method ApplyBlock(block: Block)
      modifies state
      ensures state.Books() == Ledger.ApplyBlock(e, old(state.Books()), block)
      ensures state.reputations == RateTxs(old(state.reputations), block.AllTransactions())
    {
      hide Ledger.ApplyTx, RateTx;
      var txs := block.AllTransactions();
      ghost var start, rated := state.Books(), state.reputations;
      for i := 0 to |txs|
        invariant state.Books() == ApplyTxs(e, start, txs[..i], block.header.height, block.header.proposerId)
        invariant state.reputations == RateTxs(rated, txs[..i])
      {
        assert txs[..i + 1][..i] == txs[..i];
        state.ApplyTx(e, txs[i], block.header.height, block.header.proposerId);
      }
      assert txs[..|txs|] == txs;
    }

    method ApplyReputationDeltas(deltas: seq<(Address, real)>)
      requires Valid()
      modifies state`reputations
      ensures Valid() && state.reputations == RateDeltas(old(state.reputations), deltas)
    {
      ghost var start := state.reputations;
      for i := 0 to |deltas|
        invariant state.reputations == RateDeltas(start, deltas[..i])
        invariant Valid()
      {
        assert deltas[..i + 1][..i] == deltas[..i];
        var (node, delta) := deltas[i];
        state.reputations := state.reputations[node := Max0(ReputationOf(state.reputations, node) + delta)];
      }
      assert deltas[..|deltas|] == deltas;
    }
  }

  /** The error found first is the block's error. */
  lemma {:induction false} FirstErrorStands(e: Crypto, s: Books, txs: seq<Tx>, n: nat)
    requires n <= |txs| && TxsError(e, s, txs[..n]).Some?
    ensures TxsError(e, s, txs) == TxsError(e, s, txs[..n])
  {
    if n < |txs| {
      assert txs[..|txs| - 1][..n] == txs[..n];
      FirstErrorStands(e, s, txs[..|txs| - 1], n);
    } else {
      assert txs[..n] == txs;
    }
  }
}

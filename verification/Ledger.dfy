/** Transactions, blocks, the ledger state, and what validation and application do to it. */
module Ledger {
  import opened Collections
  import opened Constants
  import opened Quality
  import opened Merkle

  /** Addresses, hashes and keys. Python's None is the empty string. */
  type Address = string

  datatype TxFamily = SIMPLE | INFERENCE | SYSTEM

  /** Payloads of user-initiated transactions. */
  datatype UserPayload =
    | TokenTransfer(amount: real)
    | Stake(amount: real)
    | Unstake(amount: real)
    | NodeRegister(modelName: string, publicKey: string, endpoint: string)
    | NodeRegisterDNN(modelName: string, architecture: string, weightsHash: string, endpoint: string,
                      datasetId: string, publicKey: string)
    | NodeRegisterPOS(endpoint: string, publicKey: string)
    | ModelResponse(nodeId: Address, predictions: seq<int>)
    | ContractDeploy(bytecode: string, abi: string, constructorArgs: seq<string>)
    | ContractCall(contractAddress: string, functionName: string, args: seq<string>, value: real)

  datatype InferenceRequest = InferenceRequest(requestId: string, imageHash: string, modelHint: string)

  /** Payloads of transactions made by the protocol itself. */
  datatype ProtocolPayload =
    | InferenceResponse(requestId: string, nodeId: Address, response: Response)
    | ConsensusResult(requestId: string, finalClass: int, confidence: real, participating: seq<Address>)
    | Reward(amount: real, reason: string, requestId: string)
    | Slash(amount: real, reason: string, requestId: string)
    | ModelChallenge(nodeId: Address, indices: seq<int>, groundTruth: seq<int>, datasetId: string)
    | ModelVerify(nodeId: Address, verified: bool, accuracy: real, weightsMatch: bool)
    | NodeAdmitted(nodeId: Address, nodeType: NodeType, finalAccuracy: real)
    | NodeRejected(nodeId: Address, reason: string)

  /** A payload and, with it, its family. */
  datatype Payload = Simple(user: UserPayload) | Inference(request: InferenceRequest) | System(protocol: ProtocolPayload)

  datatype Tx = Tx(
    txId: string, payload: Payload, sender: Address, recipient: Address, nonce: int, fee: real,
    timestamp: real, signature: string, publicKey: string)
  {
    function Family(): TxFamily {
      match payload
      case Simple(_) => SIMPLE
      case Inference(_) => INFERENCE
      case System(_) => SYSTEM
    }
  }

  /** A transaction's id, as a given function of the fields that are hashed. */
  type IdOf = (Payload, Address, Address, int, real) -> string

  datatype BlockType = QOI | POS

  datatype Header = Header(
    prevHash: string, height: int, timestamp: real, proposerId: Address, merkleRoot: string,
    blockType: BlockType, view: int)

  datatype Block = Block(
    header: Header, simpleTxs: seq<Tx>, signatures: seq<(Address, string)>,
    inferenceTx: Option<Tx>, systemTxs: seq<Tx>)
  {
    /** The constructor's structural check. */
    predicate Structured() {
      if header.blockType == QOI then inferenceTx.Some? && inferenceTx.value.Family() == INFERENCE
      else inferenceTx.None?
    }

    /** Canonical order: inference, simple, system. */
    function AllTransactions(): seq<Tx> {
      (if inferenceTx.Some? then [inferenceTx.value] else []) + simpleTxs + systemTxs
    }

    /** The transactions sit in the lists meant for their families. */
    predicate Sorted() {
      && Structured()
      && (forall i :: 0 <= i < |simpleTxs| ==> simpleTxs[i].Family() == SIMPLE)
      && (forall i :: 0 <= i < |systemTxs| ==> systemTxs[i].Family() == SYSTEM)
    }
  }

  function TxIds(txs: seq<Tx>): seq<string> {
    seq(|txs|, i requires 0 <= i < |txs| => txs[i].txId)
  }

  function FeeTotal(txs: seq<Tx>): real {
    if txs == [] then 0.0 else FeeTotal(txs[..|txs| - 1]) + txs[|txs| - 1].fee
  }

  /** The cryptography, taken as given functions: SHA-256 of a string, the hash of a header's
      canonical JSON, the contract address of a deployer and nonce, and signature checking. */
  datatype Crypto = Crypto(
    sha: string -> string, headerHash: Header -> string,
    contractAddress: (Address, int) -> string, verify: (string, string, string) -> bool)

  datatype NodeType = DNN_NODE | POS_NODE

  datatype NodeInfo = NodeInfo(
    nodeId: Address, address: Address, nodeType: NodeType, publicKey: string, endpoint: string,
    registeredAt: int, isActive: bool, pomVerified: bool, pomBlock: int, modelName: string,
    weightsHash: string, datasetId: string, architecture: string)

  datatype ContractInfo = ContractInfo(
    address: string, deployer: Address, bytecode: string, abi: string, createdAt: int)

  datatype PomRecord = PomRecord(
    positive: seq<Address>, negative: seq<Address>, accuracies: seq<real>, nodeType: NodeType, weightsHash: string)

  /** The ledger without the reputations. */
  datatype Books = Books(
    balances: map<Address, real>, stakes: map<Address, real>, nonces: map<Address, int>,
    nodes: map<Address, NodeInfo>, contracts: map<string, ContractInfo>,
    inferenceLog: map<string, ProtocolPayload>, pomStates: map<Address, PomRecord>, pubkeys: map<Address, string>)

  type Reputations = map<Address, real>

  const Blank := Books(map[], map[], map[], map[], map[], map[], map[], map[])

  function Amount(m: map<Address, real>, a: Address): real {
    if a in m then m[a] else 0.0
  }

  function NonceOf(nonces: map<Address, int>, a: Address): int {
    if a in nonces then nonces[a] else 0
  }

  function ReputationOf(r: Reputations, a: Address): real {
    if a in r then r[a] else INITIAL_REPUTATION
  }

  function Max0(x: real): real { if x > 0.0 then x else 0.0 }

  // Validation

  datatype BlockError =
    | BadPrevHash | BadHeight | TooFewSignatures | MerkleMismatch
    | BadSignature(txId: string) | BadNonce(expected: int, got: int)
    | InsufficientBalance(has: real, needs: real) | InsufficientStake(has: real, wants: real)

  predicate SignatureOk(e: Crypto, s: Books, tx: Tx) {
    tx.Family() == SIMPLE && tx.signature !in {"", "genesis", "dev"} ==>
      if tx.sender in s.nodes then e.verify(s.nodes[tx.sender].publicKey, tx.txId, tx.signature)
      else
        var key := if tx.publicKey != "" then tx.publicKey
                   else if tx.sender in s.pubkeys then s.pubkeys[tx.sender] else "";
        key != "" ==> e.verify(key, tx.txId, tx.signature)
  }

  function BalanceError(s: Books, tx: Tx): Option<BlockError> {
    if !tx.payload.Simple? then None else
    var balance := Amount(s.balances, tx.sender);
    match tx.payload.user
    case TokenTransfer(amount) =>
      if balance < amount + tx.fee then Some(InsufficientBalance(balance, amount + tx.fee)) else None
    case Stake(amount) =>
      if balance < amount + tx.fee then Some(InsufficientBalance(balance, amount + tx.fee)) else None
    case Unstake(amount) =>
      var staked := Amount(s.stakes, tx.sender);
      if staked < amount then Some(InsufficientStake(staked, amount))
      else if balance < tx.fee then Some(InsufficientBalance(balance, tx.fee)) else None
    case ContractDeploy(_, _, _) =>
      if balance < tx.fee then Some(InsufficientBalance(balance, tx.fee)) else None
    case ContractCall(_, _, _, _) =>
      if balance < tx.fee then Some(InsufficientBalance(balance, tx.fee)) else None
    case NodeRegister(_, _, _) =>
      if balance < tx.fee then Some(InsufficientBalance(balance, tx.fee)) else None
    case _ => None
  }

  /** `intra` holds the last nonce of each sender seen earlier in the block. */
  function TxError(e: Crypto, s: Books, tx: Tx, intra: map<Address, int>): Option<BlockError> {
    if !SignatureOk(e, s, tx) then Some(BadSignature(tx.txId)) else
    var expected := (if tx.sender in intra then intra[tx.sender] else NonceOf(s.nonces, tx.sender)) + 1;
    if tx.nonce != expected then Some(BadNonce(expected, tx.nonce)) else
    BalanceError(s, tx)
  }

  /** The nonces seen after the listed transactions. */
  function IntraNonces(txs: seq<Tx>): map<Address, int> {
    if txs == [] then map[] else
    IntraNonces(txs[..|txs| - 1])[txs[|txs| - 1].sender := txs[|txs| - 1].nonce]
  }

  /** The first error among the listed transactions. */
  function TxsError(e: Crypto, s: Books, txs: seq<Tx>): (r: Option<BlockError>)
  {
    if txs == [] then None else
    var before := txs[..|txs| - 1];
    var r := TxsError(e, s, before);
    if r.Some? then r else TxError(e, s, txs[|txs| - 1], IntraNonces(before))
  }

  function BlockCheck(e: Crypto, f: nat, s: Books, tip: Block, b: Block): Option<BlockError> {
    if b.header.prevHash != e.headerHash(tip.header) then Some(BadPrevHash)
    else if b.header.height != tip.header.height + 1 then Some(BadHeight)
    else if |b.signatures| < 2 * f + 1 then Some(TooFewSignatures)
    else if b.header.merkleRoot != MerkleRoot(e.sha, TxIds(b.AllTransactions())) then Some(MerkleMismatch)
    else TxsError(e, s, b.simpleTxs)
  }

  // Application

  function Credit(m: map<Address, real>, a: Address, x: real): map<Address, real> {
    m[a := Amount(m, a) + x]
  }

  function PayFee(s: Books, tx: Tx, proposer: Address): Books {
    if tx.fee > 0.0 then s.(balances := Credit(s.balances, proposer, tx.fee)) else s
  }

  function Registered(s: Books, tx: Tx, info: NodeInfo): Books {
    s.(nodes := s.nodes[tx.sender := info],
       balances := Credit(s.balances, tx.sender, -tx.fee),
       nonces := s.nonces[tx.sender := tx.nonce])
  }

  predicate Registers(p: UserPayload) {
    p.NodeRegister? || p.NodeRegisterDNN? || p.NodeRegisterPOS?
  }

  /** The record of a new node: only the legacy registration is active at once. */
  function NewNodeInfo(sender: Address, p: UserPayload, height: int): NodeInfo
    requires Registers(p)
  {
    match p
    case NodeRegister(modelName, publicKey, endpoint) =>
      NodeInfo(sender, sender, POS_NODE, publicKey, endpoint, height, true, false, -1, modelName, "", "", "")
    case NodeRegisterDNN(modelName, architecture, weightsHash, endpoint, datasetId, publicKey) =>
      NodeInfo(sender, sender, DNN_NODE, publicKey, endpoint, height, false, false, -1,
               modelName, weightsHash, datasetId, architecture)
    case NodeRegisterPOS(endpoint, publicKey) =>
      NodeInfo(sender, sender, POS_NODE, publicKey, endpoint, height, false, false, -1, "", "", "", "")
  }

  function LearnKey(s: Books, tx: Tx): Books {
    if tx.publicKey != "" && tx.sender !in s.pubkeys
    then s.(pubkeys := s.pubkeys[tx.sender := tx.publicKey]) else s
  }

  function Voted(pom: PomRecord, verifier: Address, verified: bool, accuracy: real): PomRecord {
    if verifier in pom.positive || verifier in pom.negative then pom
    else if verified then pom.(positive := pom.positive + [verifier], accuracies := pom.accuracies + [accuracy])
    else pom.(negative := pom.negative + [verifier], accuracies := pom.accuracies + [accuracy])
  }

  function ApplyTx(e: Crypto, s: Books, tx: Tx, height: int, proposer: Address): Books {
    match tx.payload
    case Simple(p) => ApplySimple(e, PayFee(s, tx, proposer), tx, p, height)
    case Inference(_) => s
    case System(p) => ApplySystem(s, tx, p, height)
  }

  /** A user transaction, its fee already credited to the proposer. */
  function ApplySimple(e: Crypto, s: Books, tx: Tx, p: UserPayload, height: int): Books {
    match p
    case TokenTransfer(amount) =>
      LearnKey(s.(balances := Credit(Credit(s.balances, tx.sender, -amount - tx.fee), tx.recipient, amount),
                  nonces := s.nonces[tx.sender := tx.nonce]), tx)
    case Stake(amount) =>
      LearnKey(s.(balances := Credit(s.balances, tx.sender, -amount - tx.fee),
                  stakes := Credit(s.stakes, tx.sender, amount),
                  nonces := s.nonces[tx.sender := tx.nonce]), tx)
    case Unstake(amount) =>
      LearnKey(s.(stakes := Credit(s.stakes, tx.sender, -amount),
                  balances := Credit(s.balances, tx.sender, amount - tx.fee),
                  nonces := s.nonces[tx.sender := tx.nonce]), tx)
    case NodeRegister(_, _, _) => Registered(s, tx, NewNodeInfo(tx.sender, p, height))
    case NodeRegisterPOS(_, _) => Registered(s, tx, NewNodeInfo(tx.sender, p, height))
    case NodeRegisterDNN(_, _, weightsHash, _, _, _) =>
      Registered(s, tx, NewNodeInfo(tx.sender, p, height))
        .(pomStates := s.pomStates[tx.sender := PomRecord([], [], [], DNN_NODE, weightsHash)])
    case ModelResponse(_, _) =>
      s.(nonces := s.nonces[tx.sender := tx.nonce], balances := Credit(s.balances, tx.sender, -tx.fee))
    case ContractDeploy(bytecode, abi, _) =>
      var address := e.contractAddress(tx.sender, tx.nonce);
      s.(contracts := s.contracts[address := ContractInfo(address, tx.sender, bytecode, abi, height)],
         balances := Credit(s.balances, tx.sender, -tx.fee),
         nonces := s.nonces[tx.sender := tx.nonce])
    case ContractCall(_, _, _, value) =>
      s.(balances := Credit(s.balances, tx.sender, -tx.fee - value), nonces := s.nonces[tx.sender := tx.nonce])
  }

  /** A protocol transaction; responses and challenges change nothing. */
  function ApplySystem(s: Books, tx: Tx, p: ProtocolPayload, height: int): Books {
    match p
    case ModelVerify(nodeId, verified, accuracy, _) =>
      if nodeId !in s.pomStates then s
      else s.(pomStates := s.pomStates[nodeId := Voted(s.pomStates[nodeId], tx.sender, verified, accuracy)])
    case NodeAdmitted(nodeId, _, _) =>
      if nodeId !in s.nodes then s
      else s.(nodes := s.nodes[nodeId := s.nodes[nodeId].(isActive := true, pomVerified := true, pomBlock := height)])
    case NodeRejected(nodeId, _) =>
      var s := if nodeId in s.nodes then s.(nodes := s.nodes[nodeId := s.nodes[nodeId].(isActive := false)]) else s;
      s.(pomStates := s.pomStates - {nodeId})
    case Reward(amount, _, _) =>
      s.(balances := Credit(s.balances, tx.recipient, amount))
    case Slash(amount, _, _) =>
      var left := Max0(Amount(s.stakes, tx.sender) - amount);
      var s := s.(stakes := s.stakes[tx.sender := left]);
      if tx.sender in s.nodes && left < MIN_STAKE
      then s.(nodes := s.nodes[tx.sender := s.nodes[tx.sender].(isActive := false)]) else s
    case ConsensusResult(requestId, _, _, _) =>
      s.(inferenceLog := s.inferenceLog[requestId := p])
    case _ => s
  }

  function ApplyTxs(e: Crypto, s: Books, txs: seq<Tx>, height: int, proposer: Address): Books {
    if txs == [] then s else
    ApplyTx(e, ApplyTxs(e, s, txs[..|txs| - 1], height, proposer), txs[|txs| - 1], height, proposer)
  }

  function ApplyBlock(e: Crypto, s: Books, b: Block): Books {
    ApplyTxs(e, s, b.AllTransactions(), b.header.height, b.header.proposerId)
  }

  // Reputations

  /** A registration resets the sender's reputation, a slash lowers it; nothing reads it. */
  function RateTx(r: Reputations, tx: Tx): Reputations {
    match tx.payload
    case Simple(p) =>
      if Registers(p) then r[tx.sender := INITIAL_REPUTATION] else r
    case Inference(_) => r
    case System(p) =>
      if p.Slash? then r[tx.sender := Max0(ReputationOf(r, tx.sender) - REP_PENALTY)] else r
  }

  function RateTxs(r: Reputations, txs: seq<Tx>): Reputations {
    if txs == [] then r else RateTx(RateTxs(r, txs[..|txs| - 1]), txs[|txs| - 1])
  }

  function RateDeltas(r: Reputations, deltas: seq<(Address, real)>): Reputations {
    if deltas == [] then r else
    var before := RateDeltas(r, deltas[..|deltas| - 1]);
    var (node, delta) := deltas[|deltas| - 1];
    before[node := Max0(ReputationOf(before, node) + delta)]
  }

  // Whole chains

  /** The ledger that a list of blocks leads to, starting from nothing. */
  function Replay(e: Crypto, blocks: seq<Block>): Books {
    if blocks == [] then Blank else
    ApplyBlock(e, Replay(e, blocks[..|blocks| - 1]), blocks[|blocks| - 1])
  }

  /** A chain grown by accepted appends from its first block. */
  predicate ValidChain(e: Crypto, f: nat, blocks: seq<Block>) {
    |blocks| > 0 &&
    (|blocks| == 1 ||
     (var before := blocks[..|blocks| - 1];
      ValidChain(e, f, before)
      && BlockCheck(e, f, Replay(e, before), before[|before| - 1], blocks[|blocks| - 1]).None?))
  }
}

/** What the validation of one user transaction demands. */
module Validation {
  import opened Collections
  import opened Ledger

  // Signatures

  /** Signatures that nobody checks: none, the first block's, and the development one. */
  predicate Unchecked(tx: Tx) {
    tx.signature == "" || tx.signature == "genesis" || tx.signature == "dev"
  }

  /** The key that a transaction has to be signed with: a registered node's; for other senders the
      transaction's own, or else the one learned before. */
  predicate KeyOf(s: Books, tx: Tx, key: string) {
    || (tx.sender in s.nodes && key == s.nodes[tx.sender].publicKey)
    || (tx.sender !in s.nodes && tx.publicKey != "" && key == tx.publicKey)
    || (tx.sender !in s.nodes && tx.publicKey == "" && tx.sender in s.pubkeys && s.pubkeys[tx.sender] != ""
        && key == s.pubkeys[tx.sender])
  }

  /** Its signature verifies under whatever key it has to be signed with. */
  ghost predicate Authentic(e: Crypto, s: Books, tx: Tx) {
    Unchecked(tx) || forall key | KeyOf(s, tx, key) :: e.verify(key, tx.txId, tx.signature)
  }

  lemma SignatureExactly(e: Crypto, s: Books, tx: Tx)
    requires tx.Family() == SIMPLE
    ensures SignatureOk(e, s, tx) <==> Authentic(e, s, tx)
  {
    if tx.sender in s.nodes {
      assert KeyOf(s, tx, s.nodes[tx.sender].publicKey);
    } else if tx.publicKey != "" {
      assert KeyOf(s, tx, tx.publicKey);
    } else if tx.sender in s.pubkeys && s.pubkeys[tx.sender] != "" {
      assert KeyOf(s, tx, s.pubkeys[tx.sender]);
    }
  }

  // Balances

  /** What the sender's balance has to cover; nothing is asked for the other kinds. */
  function Needed(tx: Tx): (r: (bool, real)) {
    if !tx.payload.Simple? then (false, 0.0) else
    match tx.payload.user
    case TokenTransfer(amount) => (true, amount + tx.fee)
    case Stake(amount) => (true, amount + tx.fee)
    case Unstake(_) => (true, tx.fee)
    case ContractDeploy(_, _, _) => (true, tx.fee)
    case ContractCall(_, _, _, _) => (true, tx.fee)
    case NodeRegister(_, _, _) => (true, tx.fee)
    case _ => (false, 0.0)
  }

  predicate EnoughStake(s: Books, tx: Tx) {
    tx.payload.Simple? && tx.payload.user.Unstake? ==> Amount(s.stakes, tx.sender) >= tx.payload.user.amount
  }

  predicate EnoughBalance(s: Books, tx: Tx) {
    Needed(tx).0 ==> Amount(s.balances, tx.sender) >= Needed(tx).1
  }

  /** The balance check fails exactly when stake or balance is short, says which, and looks at the stake
      first. */
  lemma BalanceExactly(s: Books, tx: Tx)
    ensures BalanceError(s, tx).None? <==> EnoughStake(s, tx) && EnoughBalance(s, tx)
    ensures !EnoughStake(s, tx) ==>
              BalanceError(s, tx) == Some(InsufficientStake(Amount(s.stakes, tx.sender), tx.payload.user.amount))
    ensures EnoughStake(s, tx) && !EnoughBalance(s, tx) ==>
              BalanceError(s, tx) == Some(InsufficientBalance(Amount(s.balances, tx.sender), Needed(tx).1))
  {
    hide Amount;
  }
}

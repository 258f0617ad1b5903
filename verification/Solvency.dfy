/** When block-start validation is enough: accepted blocks that overdraw nobody. */
module Solvency {
  import opened Collections
  import opened Ledger

  /** What a user transaction takes from its sender's balance, the amount it moves included. */
  function Debit(tx: Tx): real {
    if !tx.payload.Simple? then 0.0 else
    match tx.payload.user
    case TokenTransfer(amount) => amount + tx.fee
    case Stake(amount) => amount + tx.fee
    case ContractCall(_, _, _, value) => tx.fee + value
    case _ => tx.fee
  }

  function StakeDebit(tx: Tx): real {
    if tx.payload.Simple? && tx.payload.user.Unstake? then tx.payload.user.amount else 0.0
  }

  /** What a transaction brings to an account's balance. A fee goes to the proposer only when positive. */
  function Earned(tx: Tx, proposer: Address, a: Address): real {
    match tx.payload
    case Simple(p) =>
      (if a == proposer && tx.fee > 0.0 then tx.fee else 0.0)
      + (if p.TokenTransfer? && tx.recipient == a then p.amount else 0.0)
      + (if p.Unstake? && tx.sender == a then p.amount else 0.0)
    case Inference(_) => 0.0
    case System(p) => if p.Reward? && tx.recipient == a then p.amount else 0.0
  }

  function StakeEarned(tx: Tx, a: Address): real {
    if tx.payload.Simple? && tx.payload.user.Stake? && tx.sender == a then tx.payload.user.amount else 0.0
  }

  /** Transactions whose debit the balance check covers: it looks at all of it, or the part it does not
      look at takes nothing. */
  predicate Harmless(tx: Tx) {
    tx.payload.Simple? &&
    match tx.payload.user
    case NodeRegisterDNN(_, _, _, _, _, _) => tx.fee <= 0.0
    case NodeRegisterPOS(_, _) => tx.fee <= 0.0
    case ModelResponse(_, _) => tx.fee <= 0.0
    case ContractCall(_, _, _, value) => value <= 0.0 || tx.fee + value <= 0.0
    case _ => true
  }

  ghost predicate Solvent(s: Books, a: Address) {
    Amount(s.balances, a) >= 0.0 && Amount(s.stakes, a) >= 0.0
  }

  predicate Covered(s: Books, tx: Tx) {
    Debit(tx) <= Amount(s.balances, tx.sender) && StakeDebit(tx) <= Amount(s.stakes, tx.sender)
  }

  /** Exactly the harmless transactions are covered whenever a sender that is not in debt passes
      the balance check. */
  lemma CheckCoversExactly(tx: Tx)
    requires tx.payload.Simple?
    ensures (forall s: Books | BalanceError(s, tx).None? && Solvent(s, tx.sender) :: Covered(s, tx)) <==> Harmless(tx)
  {
    if Harmless(tx) {
      forall s: Books | BalanceError(s, tx).None? && Solvent(s, tx.sender) ensures Covered(s, tx) {
        CheckCovers(s, tx);
      }
    } else {
      var funds := if tx.payload.user.ContractCall? then Max0(tx.fee) else 0.0;
      var s := Blank.(balances := map[tx.sender := funds]);
      assert BalanceError(s, tx).None? && Solvent(s, tx.sender) && !Covered(s, tx);
    }
  }

  lemma CheckCovers(s: Books, tx: Tx)
    requires Harmless(tx) && BalanceError(s, tx).None? && Solvent(s, tx.sender)
    ensures Covered(s, tx)
  {}

  // One transaction

  lemma AmountCredit(m: map<Address, real>, a: Address, x: real, b: Address)
    ensures Amount(Credit(m, a, x), b) == Amount(m, b) + if a == b then x else 0.0
  {}

  function DebitOf(tx: Tx, a: Address): real { if tx.sender == a then Debit(tx) else 0.0 }

  function StakeDebitOf(tx: Tx, a: Address): real { if tx.sender == a then StakeDebit(tx) else 0.0 }

  /** What a user transaction does to every account's money, whatever the signs of its amounts. */
  lemma SimpleMoves(e: Crypto, s: Books, tx: Tx, p: UserPayload, height: int, a: Address)
    requires tx.payload == Simple(p)
    ensures var t := ApplySimple(e, s, tx, p, height);
            && Amount(t.balances, a) == Amount(s.balances, a) - DebitOf(tx, a)
                 + (if p.TokenTransfer? && tx.recipient == a then p.amount else 0.0)
                 + (if p.Unstake? && tx.sender == a then p.amount else 0.0)
            && Amount(t.stakes, a) == Amount(s.stakes, a) + StakeEarned(tx, a) - StakeDebitOf(tx, a)
  {
    hide NewNodeInfo, Credit, Amount;
    if p.TokenTransfer? {
      AmountCredit(s.balances, tx.sender, -p.amount - tx.fee, a);
      AmountCredit(Credit(s.balances, tx.sender, -p.amount - tx.fee), tx.recipient, p.amount, a);
    } else if p.Stake? {
      AmountCredit(s.balances, tx.sender, -p.amount - tx.fee, a);
      AmountCredit(s.stakes, tx.sender, p.amount, a);
    } else if p.Unstake? {
      AmountCredit(s.balances, tx.sender, p.amount - tx.fee, a);
      AmountCredit(s.stakes, tx.sender, -p.amount, a);
    } else if p.ContractCall? {
      AmountCredit(s.balances, tx.sender, -tx.fee - p.value, a);
    } else {
      AmountCredit(s.balances, tx.sender, -tx.fee, a);
    }
  }

  predicate SlashesAccount(tx: Tx, a: Address) {
    tx.payload.System? && tx.payload.protocol.Slash? && tx.sender == a
  }

  /** Every transaction moves exactly what it earns and debits, for every account; only a slash cuts a
      stake otherwise, and never below zero. */
  lemma TxMoves(e: Crypto, s: Books, tx: Tx, height: int, proposer: Address, a: Address)
    ensures var t := ApplyTx(e, s, tx, height, proposer);
            && Amount(t.balances, a) == Amount(s.balances, a) + Earned(tx, proposer, a) - DebitOf(tx, a)
            && (if SlashesAccount(tx, a) then Amount(t.stakes, a) >= 0.0
                else Amount(t.stakes, a) == Amount(s.stakes, a) + StakeEarned(tx, a) - StakeDebitOf(tx, a))
  {
    hide ApplySimple, ApplySystem, Amount, PayFee, DebitOf, StakeDebitOf, StakeEarned;
    match tx.payload
    case Simple(p) =>
      FeeMoves(s, tx, proposer, a);
      SimpleMoves(e, PayFee(s, tx, proposer), tx, p, height, a);
    case Inference(_) => NothingDebited(tx, a);
    case System(p) =>
      NothingDebited(tx, a);
      SystemMoves(s, tx, p, height, a);
  }

  lemma FeeMoves(s: Books, tx: Tx, proposer: Address, a: Address)
    ensures var t := PayFee(s, tx, proposer);
            && Amount(t.balances, a) == Amount(s.balances, a) + (if a == proposer && tx.fee > 0.0 then tx.fee else 0.0)
            && t.stakes == s.stakes
  {
    hide Credit, Amount;
    AmountCredit(s.balances, proposer, tx.fee, a);
  }

  lemma NothingDebited(tx: Tx, a: Address)
    requires !tx.payload.Simple?
    ensures DebitOf(tx, a) == StakeDebitOf(tx, a) == StakeEarned(tx, a) == 0.0
  {}

  lemma SystemMoves(s: Books, tx: Tx, p: ProtocolPayload, height: int, a: Address)
    ensures var t := ApplySystem(s, tx, p, height);
            && Amount(t.balances, a) == Amount(s.balances, a) + (if p.Reward? && tx.recipient == a then p.amount else 0.0)
            && (if p.Slash? && tx.sender == a then Amount(t.stakes, a) >= 0.0
                else Amount(t.stakes, a) == Amount(s.stakes, a))
  {
    hide ApplySystem, Credit, Amount;
    SystemMoney(s, tx, p, height);
    if p.Reward? {
      AmountCredit(s.balances, tx.recipient, p.amount, a);
    } else if p.Slash? {
      AmountSet(s.stakes, tx.sender, Max0(Amount(s.stakes, tx.sender) - p.amount), a);
    }
  }

  /** A transfer lowers no balance but its sender's, in any ledger and for any proposer, exactly when its
      amount is not negative or it is to the sender; nothing checks that. */
  lemma TransferSparesOthersExactly(e: Crypto, tx: Tx, height: int)
    requires tx.payload.Simple? && tx.payload.user.TokenTransfer?
    ensures (forall s: Books, proposer: Address, a: Address | a != tx.sender ::
               Amount(ApplyTx(e, s, tx, height, proposer).balances, a) >= Amount(s.balances, a))
            <==> tx.payload.user.amount >= 0.0 || tx.recipient == tx.sender
  {
    hide ApplyTx, Amount;
    if tx.payload.user.amount >= 0.0 || tx.recipient == tx.sender {
      forall s: Books, proposer: Address, a: Address | a != tx.sender
        ensures Amount(ApplyTx(e, s, tx, height, proposer).balances, a) >= Amount(s.balances, a)
      {
        TxMoves(e, s, tx, height, proposer, a);
      }
    } else {
      TxMoves(e, Blank, tx, height, tx.sender, tx.recipient);
      assert Amount(ApplyTx(e, Blank, tx, height, tx.sender).balances, tx.recipient) < Amount(Blank.balances, tx.recipient);
    }
  }

  lemma AmountSet(m: map<Address, real>, a: Address, x: real, b: Address)
    ensures Amount(m[a := x], b) == if a == b then x else Amount(m, b)
  {}

  /** What protocol transactions do to the money. */
  lemma SystemMoney(s: Books, tx: Tx, p: ProtocolPayload, height: int)
    ensures ApplySystem(s, tx, p, height).balances
              == if p.Reward? then Credit(s.balances, tx.recipient, p.amount) else s.balances
    ensures ApplySystem(s, tx, p, height).stakes
              == if p.Slash? then s.stakes[tx.sender := Max0(Amount(s.stakes, tx.sender) - p.amount)] else s.stakes
  {
    hide Voted, Credit, Amount, Max0;
  }

  // A block's transactions

  /** What the listed transactions take from one account in all, and what they bring to it. */
  function Spent(txs: seq<Tx>, a: Address): real {
    if txs == [] then 0.0 else Spent(txs[..|txs| - 1], a) + DebitOf(txs[|txs| - 1], a)
  }

  function Withdrawn(txs: seq<Tx>, a: Address): real {
    if txs == [] then 0.0 else Withdrawn(txs[..|txs| - 1], a) + StakeDebitOf(txs[|txs| - 1], a)
  }

  function Income(txs: seq<Tx>, proposer: Address, a: Address): real {
    if txs == [] then 0.0 else Income(txs[..|txs| - 1], proposer, a) + Earned(txs[|txs| - 1], proposer, a)
  }

  function Staked(txs: seq<Tx>, a: Address): real {
    if txs == [] then 0.0 else Staked(txs[..|txs| - 1], a) + StakeEarned(txs[|txs| - 1], a)
  }

  ghost predicate Slashed(txs: seq<Tx>, a: Address) {
    exists i :: 0 <= i < |txs| && SlashesAccount(txs[i], a)
  }

  lemma {:induction false} TxsMoveBalance(e: Crypto, s: Books, txs: seq<Tx>, height: int, proposer: Address, a: Address)
    ensures Amount(ApplyTxs(e, s, txs, height, proposer).balances, a)
              == Amount(s.balances, a) + Income(txs, proposer, a) - Spent(txs, a)
  {
    hide ApplyTx, Amount, Earned, DebitOf, StakeEarned, StakeDebitOf, SlashesAccount;
    if txs != [] {
      var before := txs[..|txs| - 1];
      TxsMoveBalance(e, s, before, height, proposer, a);
      TxMoves(e, ApplyTxs(e, s, before, height, proposer), txs[|txs| - 1], height, proposer, a);
    }
  }

  lemma {:induction false} TxsMoveStake(e: Crypto, s: Books, txs: seq<Tx>, height: int, proposer: Address, a: Address)
    requires !Slashed(txs, a)
    ensures Amount(ApplyTxs(e, s, txs, height, proposer).stakes, a)
              == Amount(s.stakes, a) + Staked(txs, a) - Withdrawn(txs, a)
  {
    hide ApplyTx, Amount, Earned, DebitOf, StakeEarned, StakeDebitOf, SlashesAccount;
    if txs != [] {
      var before := txs[..|txs| - 1];
      TxsMoveStake(e, s, before, height, proposer, a);
      TxMoves(e, ApplyTxs(e, s, before, height, proposer), txs[|txs| - 1], height, proposer, a);
    }
  }

  /** Protocol transactions leave a stake as it is, or cut it, but not below zero. */
  lemma {:induction false} SystemTxsStake(e: Crypto, s: Books, txs: seq<Tx>, height: int, proposer: Address, a: Address)
    requires forall i :: 0 <= i < |txs| ==> txs[i].Family() == SYSTEM
    ensures var after := Amount(ApplyTxs(e, s, txs, height, proposer).stakes, a);
            if Slashed(txs, a) then after >= 0.0 else after == Amount(s.stakes, a)
  {
    hide ApplyTx, Amount, Earned, DebitOf, SlashesAccount;
    if txs != [] {
      var before, last := txs[..|txs| - 1], txs[|txs| - 1];
      SystemTxsStake(e, s, before, height, proposer, a);
      TxMoves(e, ApplyTxs(e, s, before, height, proposer), last, height, proposer, a);
      SlashedStep(txs, a);
    }
  }

  lemma SlashedStep(txs: seq<Tx>, a: Address)
    requires txs != []
    ensures Slashed(txs, a) <==> Slashed(txs[..|txs| - 1], a) || SlashesAccount(txs[|txs| - 1], a)
  {
    hide SlashesAccount;
    var before := txs[..|txs| - 1];
    assert txs == before + [txs[|txs| - 1]];
    if Slashed(before, a) {
      var i :| 0 <= i < |before| && SlashesAccount(before[i], a);
      assert txs[i] == before[i];
    }
    if i :| 0 <= i < |txs| && SlashesAccount(txs[i], a) {
      if i < |before| { assert before[i] == txs[i]; }
    }
  }

  /** Exactly when a block leaves an account out of debt: it had or earned at least what it spends, and
      likewise for its stake, unless that is slashed, which ends at zero or above. */
  lemma BlockSolventExactly(e: Crypto, s: Books, b: Block, a: Address)
    requires b.Sorted()
    ensures Solvent(ApplyBlock(e, s, b), a) <==>
              && Amount(s.balances, a) + Income(b.AllTransactions(), b.header.proposerId, a) >= Spent(b.AllTransactions(), a)
              && (Slashed(b.systemTxs, a) || Amount(s.stakes, a) + Staked(b.simpleTxs, a) >= Withdrawn(b.simpleTxs, a))
  {
    hide ApplyTxs, Amount, Income, Spent, Staked, Withdrawn, Slashed;
    var all, h, p := b.AllTransactions(), b.header.height, b.header.proposerId;
    var front := if b.inferenceTx.Some? then [b.inferenceTx.value] else [];
    TxsMoveBalance(e, s, all, h, p, a);
    assert all == front + b.simpleTxs + b.systemTxs;
    ApplyJoined(e, s, front + b.simpleTxs, b.systemTxs, h, p);
    ApplyJoined(e, s, front, b.simpleTxs, h, p);
    FrontUnchanged(e, s, front, h, p);
    NoSlashAmongUsers(b.simpleTxs, a);
    TxsMoveStake(e, s, b.simpleTxs, h, p, a);
    SystemTxsStake(e, ApplyTxs(e, s, b.simpleTxs, h, p), b.systemTxs, h, p, a);
  }

  lemma NoSlashAmongUsers(txs: seq<Tx>, a: Address)
    requires forall i :: 0 <= i < |txs| ==> txs[i].Family() == SIMPLE
    ensures !Slashed(txs, a)
  {
    forall i | 0 <= i < |txs| ensures !SlashesAccount(txs[i], a) {
      assert txs[i].Family() == SIMPLE;
    }
  }

  ghost predicate OnePerSender(txs: seq<Tx>) {
    forall i, j :: 0 <= i < j < |txs| ==> txs[i].sender != txs[j].sender
  }

  /** A sender with one transaction spends what that one debits. */
  lemma {:induction false} SpentOnce(txs: seq<Tx>, a: Address)
    requires OnePerSender(txs)
    ensures (Spent(txs, a) == Withdrawn(txs, a) == 0.0)
            || exists i :: 0 <= i < |txs| && txs[i].sender == a
                 && Spent(txs, a) == Debit(txs[i]) && Withdrawn(txs, a) == StakeDebit(txs[i])
    ensures (forall i :: 0 <= i < |txs| ==> txs[i].sender != a) ==> Spent(txs, a) == Withdrawn(txs, a) == 0.0
  {
    hide Debit, StakeDebit;
    if txs != [] {
      var before, last := txs[..|txs| - 1], txs[|txs| - 1];
      SpentOnce(before, a);
      if last.sender == a {
        assert txs[|txs| - 1] == last;
      } else if !(Spent(before, a) == Withdrawn(before, a) == 0.0) {
        var i :| 0 <= i < |before| && before[i].sender == a
                 && Spent(before, a) == Debit(before[i]) && Withdrawn(before, a) == StakeDebit(before[i]);
        assert txs[i] == before[i];
      }
    }
  }

  lemma {:induction false} AllChecked(e: Crypto, s: Books, txs: seq<Tx>, i: nat)
    requires TxsError(e, s, txs).None? && i < |txs|
    ensures BalanceError(s, txs[i]).None?
  {
    hide SignatureOk, BalanceError;
    if i < |txs| - 1 {
      AllChecked(e, s, txs[..|txs| - 1], i);
    }
  }

  lemma {:induction false} ApplyJoined(e: Crypto, s: Books, xs: seq<Tx>, ys: seq<Tx>, height: int, proposer: Address)
    ensures ApplyTxs(e, s, xs + ys, height, proposer) == ApplyTxs(e, ApplyTxs(e, s, xs, height, proposer), ys, height, proposer)
  {
    hide ApplyTx;
    if ys == [] {
      assert xs + ys == xs;
    } else {
      assert (xs + ys)[..|xs + ys| - 1] == xs + ys[..|ys| - 1];
      ApplyJoined(e, s, xs, ys[..|ys| - 1], height, proposer);
    }
  }

  /** An accepted block with one harmless transaction per sender overdraws nobody: an account that was
      not in debt before it, and that its transactions bring nothing negative in all, is not in debt
      after it. */
  lemma AcceptedBlockSolvent(e: Crypto, f: nat, s: Books, tip: Block, b: Block, a: Address)
    requires BlockCheck(e, f, s, tip, b).None? && b.Sorted()
    requires OnePerSender(b.simpleTxs)
    requires forall i :: 0 <= i < |b.simpleTxs| ==> Harmless(b.simpleTxs[i])
    requires Income(b.AllTransactions(), b.header.proposerId, a) >= 0.0 && Staked(b.simpleTxs, a) >= 0.0
    requires Solvent(s, a)
    ensures Solvent(ApplyBlock(e, s, b), a)
  {
    hide ApplyBlock, Income, Staked, Spent, Withdrawn, Slashed, Amount, TxsError, BalanceError, Debit, StakeDebit, Harmless;
    var txs := b.simpleTxs;
    BlockSolventExactly(e, s, b, a);
    OnlyUsersSpend(b, a);
    SpentOnce(txs, a);
    if !(Spent(txs, a) == Withdrawn(txs, a) == 0.0) {
      var i :| 0 <= i < |txs| && txs[i].sender == a
               && Spent(txs, a) == Debit(txs[i]) && Withdrawn(txs, a) == StakeDebit(txs[i]);
      AllChecked(e, s, txs, i);
      CheckCovers(s, txs[i]);
    }
  }

  lemma {:induction false} SpentJoin(xs: seq<Tx>, ys: seq<Tx>, a: Address)
    ensures Spent(xs + ys, a) == Spent(xs, a) + Spent(ys, a)
  {
    hide DebitOf;
    if ys == [] {
      assert xs + ys == xs;
    } else {
      assert (xs + ys)[..|xs + ys| - 1] == xs + ys[..|ys| - 1];
      SpentJoin(xs, ys[..|ys| - 1], a);
    }
  }

  lemma {:induction false} OthersSpendNothing(txs: seq<Tx>, a: Address)
    requires forall i :: 0 <= i < |txs| ==> txs[i].Family() != SIMPLE
    ensures Spent(txs, a) == 0.0
  {
    if txs != [] {
      OthersSpendNothing(txs[..|txs| - 1], a);
    }
  }

  lemma OnlyUsersSpend(b: Block, a: Address)
    requires b.Sorted()
    ensures Spent(b.AllTransactions(), a) == Spent(b.simpleTxs, a)
  {
    hide Spent;
    var front := if b.inferenceTx.Some? then [b.inferenceTx.value] else [];
    OthersSpendNothing(front, a);
    OthersSpendNothing(b.systemTxs, a);
    SpentJoin(front, b.simpleTxs, a);
    SpentJoin(front + b.simpleTxs, b.systemTxs, a);
    assert b.AllTransactions() == front + b.simpleTxs + b.systemTxs;
  }

  /** The amounts the documentation has in mind; validation does not look at their signs. */
  predicate NonNegative(tx: Tx) {
    match tx.payload
    case Simple(p) => !(p.TokenTransfer? && p.amount < 0.0) && !(p.Stake? && p.amount < 0.0) && !(p.Unstake? && p.amount < 0.0)
    case Inference(_) => true
    case System(p) => !(p.Reward? && p.amount < 0.0)
  }

  /** With such amounts nobody's income is negative. */
  lemma {:induction false} NonNegativeIncome(txs: seq<Tx>, proposer: Address, a: Address)
    requires forall i :: 0 <= i < |txs| ==> NonNegative(txs[i])
    ensures Income(txs, proposer, a) >= 0.0 && Staked(txs, a) >= 0.0
  {
    if txs != [] {
      NonNegativeIncome(txs[..|txs| - 1], proposer, a);
      assert NonNegative(txs[|txs| - 1]);
    }
  }

  lemma FrontUnchanged(e: Crypto, s: Books, front: seq<Tx>, height: int, proposer: Address)
    requires |front| <= 1 && forall i :: 0 <= i < |front| ==> front[i].Family() == INFERENCE
    ensures ApplyTxs(e, s, front, height, proposer) == s
  {
    if front != [] {
      assert ApplyTxs(e, s, front[..0], height, proposer) == s;
    }
  }

  /** For one sender's two accepted transfers to others, that condition is that they do not add up to
      more than the sender has. */
  lemma TwoTransfersExactly(e: Crypto, s: Books, x: Tx, y: Tx, height: int, proposer: Address)
    requires x.payload.Simple? && x.payload.user.TokenTransfer? && y.payload.Simple? && y.payload.user.TokenTransfer?
    requires x.sender == y.sender != proposer && x.recipient != x.sender && y.recipient != y.sender
    requires Amount(s.stakes, x.sender) >= 0.0
    ensures Solvent(ApplyTxs(e, s, [x, y], height, proposer), x.sender)
            <==> x.payload.user.amount + x.fee + y.payload.user.amount + y.fee <= Amount(s.balances, x.sender)
  {
    hide ApplyTx, Amount;
    var t := ApplyTx(e, s, x, height, proposer);
    assert [x, y][..1] == [x] && [x][..0] == [];
    assert ApplyTxs(e, s, [], height, proposer) == s;
    assert ApplyTxs(e, s, [x], height, proposer) == t;
    assert ApplyTxs(e, s, [x, y], height, proposer) == ApplyTx(e, t, y, height, proposer);
    TxMoves(e, s, x, height, proposer, x.sender);
    TxMoves(e, t, y, height, proposer, x.sender);
  }

  /** With two transactions of one sender the check at the block's start does not suffice. */
  lemma TwicePerSenderOverdraws(e: Crypto)
    ensures exists s: Books, x: Tx, y: Tx ::
              && Harmless(x) && Harmless(y) && NonNegative(x) && NonNegative(y) && Solvent(s, x.sender)
              && TxsError(e, s, [x, y]).None? && !Solvent(ApplyTxs(e, s, [x, y], 1, "p"), x.sender)
  {
    var s := Blank.(balances := map["a" := 10.0]);
    var x := Tx("1", Simple(TokenTransfer(6.0)), "a", "b", 1, 0.0, 0.0, "", "");
    var y := x.(txId := "2", nonce := 2);
    assert [x, y][..1] == [x] && [x][..0] == [];
    assert TxsError(e, s, [x]).None?;
    assert TxsError(e, s, [x, y]).None?;
    assert ApplyTxs(e, s, [], 1, "p") == s;
    var t := ApplyTxs(e, s, [x], 1, "p");
    assert t == ApplyTx(e, s, x, 1, "p");
    assert Amount(t.balances, "a") == 4.0;
    assert Amount(ApplyTx(e, t, y, 1, "p").balances, "a") == -2.0;
  }
}

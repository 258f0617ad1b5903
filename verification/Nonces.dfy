/** Every sender's committed transactions carry the nonces 1, 2, 3, ... without gap or repetition. */
module Nonces {
  import opened Collections
  import opened Ledger
  import opened Validation
  import Merkle

  /** How many user transactions of a sender are listed. */
  function Count(txs: seq<Tx>, a: Address): nat {
    if txs == [] then 0 else
    var last := txs[|txs| - 1];
    Count(txs[..|txs| - 1], a) + if last.Family() == SIMPLE && last.sender == a then 1 else 0
  }

  /** Each user transaction carries its position among its sender's, counted from `base`. */
  ghost predicate InOrder(txs: seq<Tx>, base: map<Address, int>) {
    forall i :: 0 <= i < |txs| && txs[i].Family() == SIMPLE ==>
      txs[i].nonce == NonceOf(base, txs[i].sender) + Count(txs[..i], txs[i].sender) + 1
  }

  function ChainTxs(blocks: seq<Block>): seq<Tx> {
    if blocks == [] then [] else ChainTxs(blocks[..|blocks| - 1]) + blocks[|blocks| - 1].AllTransactions()
  }

  /** Applying a transaction records its nonce when it is a user's, and touches no other nonce. */
  lemma TxNonce(e: Crypto, s: Books, tx: Tx, height: int, proposer: Address)
    ensures ApplyTx(e, s, tx, height, proposer).nonces
              == if tx.Family() == SIMPLE then s.nonces[tx.sender := tx.nonce] else s.nonces
  {
    hide ApplySimple, ApplySystem;
    match tx.payload
    case Simple(p) => SimpleNonce(e, PayFee(s, tx, proposer), tx, p, height);
    case Inference(_) =>
    case System(p) => SystemNonce(s, tx, p, height);
  }

  lemma SimpleNonce(e: Crypto, s: Books, tx: Tx, p: UserPayload, height: int)
    ensures ApplySimple(e, s, tx, p, height).nonces == s.nonces[tx.sender := tx.nonce]
  {
    hide Credit, Amount, NewNodeInfo;
  }

  lemma SystemNonce(s: Books, tx: Tx, p: ProtocolPayload, height: int)
    ensures ApplySystem(s, tx, p, height).nonces == s.nonces
  {
    hide Credit, Amount, Voted, Max0;
  }

  lemma {:induction false} TxsNonces(e: Crypto, s: Books, txs: seq<Tx>, height: int, proposer: Address, a: Address)
    requires InOrder(txs, s.nonces)
    ensures NonceOf(ApplyTxs(e, s, txs, height, proposer).nonces, a) == NonceOf(s.nonces, a) + Count(txs, a)
  {
    hide ApplyTx;
    if txs != [] {
      var before, last := txs[..|txs| - 1], txs[|txs| - 1];
      assert forall i :: 0 <= i < |before| ==> before[..i] == txs[..i];
      TxsNonces(e, s, before, height, proposer, a);
      TxNonce(e, ApplyTxs(e, s, before, height, proposer), last, height, proposer);
    }
  }

  lemma AcceptedNonce(e: Crypto, s: Books, tx: Tx, intra: map<Address, int>)
    requires TxError(e, s, tx, intra).None?
    ensures tx.nonce == (if tx.sender in intra then intra[tx.sender] else NonceOf(s.nonces, tx.sender)) + 1
  {
    hide SignatureOk, BalanceError;
  }

  /** The nonces seen within the block stand in for those that applying its earlier transactions
      would record. */
  ghost predicate Tracked(s: Books, txs: seq<Tx>) {
    forall a :: (if a in IntraNonces(txs) then IntraNonces(txs)[a] else NonceOf(s.nonces, a))
                  == NonceOf(s.nonces, a) + Count(txs, a)
  }

  lemma TrackedStep(s: Books, txs: seq<Tx>)
    requires txs != [] && Tracked(s, txs[..|txs| - 1]) && txs[|txs| - 1].Family() == SIMPLE
    requires var last := txs[|txs| - 1];
             last.nonce == NonceOf(s.nonces, last.sender) + Count(txs[..|txs| - 1], last.sender) + 1
    ensures Tracked(s, txs)
  {
    hide NonceOf;
  }

  lemma InOrderStep(txs: seq<Tx>, base: map<Address, int>)
    requires txs != [] && InOrder(txs[..|txs| - 1], base)
    requires var last := txs[|txs| - 1];
             last.nonce == NonceOf(base, last.sender) + Count(txs[..|txs| - 1], last.sender) + 1
    ensures InOrder(txs, base)
  {
    hide NonceOf, Count;
    var before := txs[..|txs| - 1];
    assert forall i :: 0 <= i < |before| ==> before[..i] == txs[..i];
  }

  /** Accepted transactions are in order. */
  lemma {:induction false} AcceptedInOrder(e: Crypto, s: Books, txs: seq<Tx>)
    requires TxsError(e, s, txs).None?
    requires forall i :: 0 <= i < |txs| ==> txs[i].Family() == SIMPLE
    ensures InOrder(txs, s.nonces) && Tracked(s, txs)
  {
    hide TxError, InOrder, Count;
    if txs == [] {
      NothingTracked(s);
    } else {
      hide Tracked;
      var before, last := txs[..|txs| - 1], txs[|txs| - 1];
      AcceptedInOrder(e, s, before);
      AcceptedNonce(e, s, last, IntraNonces(before));
      TrackedAt(s, before, last.sender);
      TrackedStep(s, txs);
      InOrderStep(txs, s.nonces);
    }
  }

  /** Signed by its key, and with enough stake and balance. */
  ghost predicate Passes(e: Crypto, s: Books, tx: Tx) {
    Authentic(e, s, tx) && EnoughStake(s, tx) && EnoughBalance(s, tx)
  }

  /** What is demanded of a block's user transactions besides their nonces, each on its own. */
  ghost predicate EachOk(e: Crypto, s: Books, txs: seq<Tx>) {
    forall i :: 0 <= i < |txs| ==> Passes(e, s, txs[i])
  }

  lemma TxAccepted(e: Crypto, s: Books, tx: Tx, intra: map<Address, int>)
    requires tx.Family() == SIMPLE
    ensures TxError(e, s, tx, intra).None? <==>
              && Passes(e, s, tx)
              && tx.nonce == (if tx.sender in intra then intra[tx.sender] else NonceOf(s.nonces, tx.sender)) + 1
  {
    hide SignatureOk, BalanceError, Authentic, EnoughStake, EnoughBalance;
    SignatureExactly(e, s, tx);
    BalanceExactly(s, tx);
  }

  lemma InOrderPrefix(txs: seq<Tx>, base: map<Address, int>)
    requires txs != [] && InOrder(txs, base)
    ensures InOrder(txs[..|txs| - 1], base)
  {
    hide NonceOf, Count;
    var before := txs[..|txs| - 1];
    assert forall i :: 0 <= i < |before| ==> before[..i] == txs[..i];
  }

  /** A block's user transactions are accepted exactly when every one is signed and covered on its own
      and each carries its sender's next nonce, those earlier in the block counted. */
  lemma {:induction false} TxsAcceptedExactly(e: Crypto, s: Books, txs: seq<Tx>)
    requires forall i :: 0 <= i < |txs| ==> txs[i].Family() == SIMPLE
    ensures TxsError(e, s, txs).None? <==> InOrder(txs, s.nonces) && EachOk(e, s, txs)
  {
    hide TxError, InOrder, Count, Passes;
    if txs == [] {
      NothingTracked(s);
    } else {
      hide Tracked;
      var before, last := txs[..|txs| - 1], txs[|txs| - 1];
      TxsAcceptedExactly(e, s, before);
      TxAccepted(e, s, last, IntraNonces(before));
      if InOrder(txs, s.nonces) {
        InOrderPrefix(txs, s.nonces);
        LastInOrder(txs, s.nonces);
      }
      if TxsError(e, s, before).None? {
        AcceptedInOrder(e, s, before);
        TrackedAt(s, before, last.sender);
        if TxError(e, s, last, IntraNonces(before)).None? { InOrderStep(txs, s.nonces); }
      }
    }
  }

  lemma LastInOrder(txs: seq<Tx>, base: map<Address, int>)
    requires txs != [] && InOrder(txs, base) && txs[|txs| - 1].Family() == SIMPLE
    ensures var last := txs[|txs| - 1];
            last.nonce == NonceOf(base, last.sender) + Count(txs[..|txs| - 1], last.sender) + 1
  {
    hide NonceOf, Count;
  }

  /** Why a transaction fails after accepted ones: what its signature, its nonce, its sender's stake and
      balance say, in this order. */
  function Reason(e: Crypto, s: Books, tx: Tx, expected: int): Option<BlockError> {
    if tx.nonce != expected then Some(BadNonce(expected, tx.nonce))
    else if !EnoughStake(s, tx) then Some(InsufficientStake(Amount(s.stakes, tx.sender), tx.payload.user.amount))
    else if !EnoughBalance(s, tx) then Some(InsufficientBalance(Amount(s.balances, tx.sender), Needed(tx).1))
    else None
  }

  /** The reported error is that of the first transaction that fails: BadSignature exactly when its key
      rejects its signature, and otherwise whatever else is wrong with it first. */
  lemma {:induction false} FirstFailure(e: Crypto, s: Books, txs: seq<Tx>, i: nat)
    requires i < |txs| && forall j :: 0 <= j < |txs| ==> txs[j].Family() == SIMPLE
    requires InOrder(txs[..i], s.nonces) && EachOk(e, s, txs[..i])
    requires !(InOrder(txs[..i + 1], s.nonces) && EachOk(e, s, txs[..i + 1]))
    ensures var expected := NonceOf(s.nonces, txs[i].sender) + Count(txs[..i], txs[i].sender) + 1;
            && (!Authentic(e, s, txs[i]) ==> TxsError(e, s, txs) == Some(BadSignature(txs[i].txId)))
            && (Authentic(e, s, txs[i]) ==> TxsError(e, s, txs) == Reason(e, s, txs[i], expected) != None)
    decreases |txs|
  {
    hide TxError, InOrder, Count, EachOk, Tracked, Authentic, Reason;
    var before := txs[..|txs| - 1];
    if i < |before| {
      assert before[..i] == txs[..i] && before[..i + 1] == txs[..i + 1];
      FirstFailure(e, s, before, i);
      TxsAcceptedExactly(e, s, txs[..i + 1]);
      ErrorsStay(e, s, txs, i + 1);
    } else {
      assert txs[..i + 1] == txs && before == txs[..i];
      TxsAcceptedExactly(e, s, txs);
      TxsAcceptedExactly(e, s, before);
      AcceptedInOrder(e, s, before);
      TrackedAt(s, before, txs[i].sender);
      FailsFor(e, s, txs[i], IntraNonces(before));
    }
  }

  lemma FailsFor(e: Crypto, s: Books, tx: Tx, intra: map<Address, int>)
    requires tx.Family() == SIMPLE && TxError(e, s, tx, intra).Some?
    ensures var expected := (if tx.sender in intra then intra[tx.sender] else NonceOf(s.nonces, tx.sender)) + 1;
            && (!Authentic(e, s, tx) ==> TxError(e, s, tx, intra) == Some(BadSignature(tx.txId)))
            && (Authentic(e, s, tx) ==> TxError(e, s, tx, intra) == Reason(e, s, tx, expected))
  {
    hide SignatureOk, BalanceError, Authentic, EnoughStake, EnoughBalance;
    SignatureExactly(e, s, tx);
    BalanceExactly(s, tx);
  }

  /** An error among the first transactions is the error of all. */
  lemma {:induction false} ErrorsStay(e: Crypto, s: Books, txs: seq<Tx>, n: nat)
    requires n <= |txs| && TxsError(e, s, txs[..n]).Some?
    ensures TxsError(e, s, txs) == TxsError(e, s, txs[..n])
  {
    if n == |txs| {
      assert txs[..n] == txs;
    } else {
      assert txs[..|txs| - 1][..n] == txs[..n];
      ErrorsStay(e, s, txs[..|txs| - 1], n);
    }
  }

  /** A block is accepted exactly when it stands on the tip, is signed by a quorum, carries the root of
      its own transactions, and its user transactions are accepted. */
  lemma BlockAcceptedExactly(e: Crypto, f: nat, s: Books, tip: Block, b: Block)
    requires b.Sorted()
    ensures BlockCheck(e, f, s, tip, b).None? <==>
              && b.header.prevHash == e.headerHash(tip.header) && b.header.height == tip.header.height + 1
              && |b.signatures| >= 2 * f + 1
              && b.header.merkleRoot == Merkle.MerkleRoot(e.sha, TxIds(b.AllTransactions()))
              && InOrder(b.simpleTxs, s.nonces) && EachOk(e, s, b.simpleTxs)
  {
    hide TxsError, InOrder, EachOk, Merkle.MerkleRoot;
    TxsAcceptedExactly(e, s, b.simpleTxs);
  }

  lemma NothingTracked(s: Books)
    ensures Tracked(s, []) && InOrder([], s.nonces)
  {}

  lemma TrackedAt(s: Books, txs: seq<Tx>, a: Address)
    requires Tracked(s, txs)
    ensures (if a in IntraNonces(txs) then IntraNonces(txs)[a] else NonceOf(s.nonces, a))
              == NonceOf(s.nonces, a) + Count(txs, a)
  {}

  lemma {:induction false} CountJoin(xs: seq<Tx>, ys: seq<Tx>, a: Address)
    ensures Count(xs + ys, a) == Count(xs, a) + Count(ys, a)
  {
    if ys == [] {
      assert xs + ys == xs;
    } else {
      assert (xs + ys)[..|xs + ys| - 1] == xs + ys[..|ys| - 1];
      CountJoin(xs, ys[..|ys| - 1], a);
    }
  }

  lemma {:induction false} NoneCounted(txs: seq<Tx>, a: Address)
    requires forall i :: 0 <= i < |txs| ==> txs[i].Family() != SIMPLE
    ensures Count(txs, a) == 0
  {
    if txs != [] {
      NoneCounted(txs[..|txs| - 1], a);
    }
  }

  /** Transactions before and after that are not users' change nothing. */
  lemma SurroundedInOrder(front: seq<Tx>, txs: seq<Tx>, back: seq<Tx>, base: map<Address, int>)
    requires InOrder(txs, base)
    requires forall i :: 0 <= i < |front| ==> front[i].Family() != SIMPLE
    requires forall i :: 0 <= i < |back| ==> back[i].Family() != SIMPLE
    ensures InOrder(front + txs + back, base)
  {
    var all := front + txs + back;
    forall i | 0 <= i < |all| && all[i].Family() == SIMPLE
      ensures all[i].nonce == NonceOf(base, all[i].sender) + Count(all[..i], all[i].sender) + 1
    {
      assert |front| <= i < |front| + |txs| && all[i] == txs[i - |front|];
      assert all[..i] == front + txs[..i - |front|];
      CountJoin(front, txs[..i - |front|], all[i].sender);
      NoneCounted(front, all[i].sender);
    }
  }

  lemma BlockInOrder(e: Crypto, f: nat, s: Books, tip: Block, b: Block)
    requires BlockCheck(e, f, s, tip, b).None? && b.Sorted()
    ensures InOrder(b.AllTransactions(), s.nonces)
  {
    hide TxsError, InOrder;
    AcceptedInOrder(e, s, b.simpleTxs);
    var front := if b.inferenceTx.Some? then [b.inferenceTx.value] else [];
    SurroundedInOrder(front, b.simpleTxs, b.systemTxs, s.nonces);
  }

  lemma JoinedInOrder(xs: seq<Tx>, ys: seq<Tx>, base: map<Address, int>)
    requires InOrder(xs, map[]) && InOrder(ys, base)
    requires forall a :: NonceOf(base, a) == Count(xs, a)
    ensures InOrder(xs + ys, map[])
  {
    var all := xs + ys;
    forall i | 0 <= i < |all| && all[i].Family() == SIMPLE
      ensures all[i].nonce == Count(all[..i], all[i].sender) + 1
    {
      if i < |xs| {
        assert all[..i] == xs[..i];
      } else {
        assert all[..i] == xs + ys[..i - |xs|];
        CountJoin(xs, ys[..i - |xs|], all[i].sender);
      }
    }
  }

  /** In every chain grown by accepted appends from an ordered first block, each sender's k-th
      committed transaction carries nonce k, and the ledger's nonce is the number committed. */
  lemma {:induction false} GaplessNonces(e: Crypto, f: nat, blocks: seq<Block>)
    requires ValidChain(e, f, blocks)
    requires InOrder(blocks[0].AllTransactions(), map[])
    requires forall i :: 0 < i < |blocks| ==> blocks[i].Sorted()
    ensures InOrder(ChainTxs(blocks), map[])
    ensures forall a :: NonceOf(Replay(e, blocks).nonces, a) == Count(ChainTxs(blocks), a)
  {
    hide ApplyTxs, BlockCheck, InOrder, Count;
    var before, b := blocks[..|blocks| - 1], blocks[|blocks| - 1];
    var s := Replay(e, before);
    if |blocks| == 1 {
      assert ChainTxs(before) == [] && s == Blank;
      assert ChainTxs(blocks) == b.AllTransactions();
      NothingCounted();
    } else {
      GaplessNonces(e, f, before);
      BlockInOrder(e, f, s, before[|before| - 1], b);
      JoinedInOrder(ChainTxs(before), b.AllTransactions(), s.nonces);
    }
    forall a ensures NonceOf(Replay(e, blocks).nonces, a) == Count(ChainTxs(blocks), a) {
      TxsNonces(e, s, b.AllTransactions(), b.header.height, b.header.proposerId, a);
      CountJoin(ChainTxs(before), b.AllTransactions(), a);
    }
  }

  lemma NothingCounted()
    ensures forall a :: Count([], a) == 0
  {}

  /** So no sender ever uses a nonce twice, not even within one block. */
  lemma NoncesUnique(txs: seq<Tx>, i: nat, j: nat)
    requires InOrder(txs, map[]) && i < j < |txs|
    requires txs[i].Family() == txs[j].Family() == SIMPLE && txs[i].sender == txs[j].sender
    ensures txs[i].nonce < txs[j].nonce
  {
    var a := txs[i].sender;
    assert txs[..j] == txs[..i + 1] + txs[i + 1..j] && txs[..i + 1][..i] == txs[..i];
    CountJoin(txs[..i + 1], txs[i + 1..j], a);
  }
}

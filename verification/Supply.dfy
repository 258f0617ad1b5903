/** The exact supply equation: what blocks create, burn and move. */
module Supply {
  import opened Collections
  import opened Ledger

  // Sums over maps

  ghost function Total(m: map<Address, real>): real
  {
    if m == map[] then 0.0 else
    var k :| k in m;
    m[k] + Total(m - {k})
  }

  /** Any key may be summed first. */
  lemma {:induction false} TotalSplit(m: map<Address, real>, k: Address)
    requires k in m
    ensures Total(m) == m[k] + Total(m - {k})
    decreases |m|
  {
    var first :| first in m && Total(m) == m[first] + Total(m - {first});
    if first != k {
      TotalSplit(m - {first}, k);
      TotalSplit(m - {k}, first);
      assert m - {first} - {k} == m - {k} - {first};
    }
  }

  lemma TotalCredit(m: map<Address, real>, a: Address, x: real)
    ensures Total(Credit(m, a, x)) == Total(m) + x
  {
    var r := Credit(m, a, x);
    TotalSplit(r, a);
    assert r - {a} == m - {a};
    if a in m {
      TotalSplit(m, a);
    } else {
      assert m - {a} == m;
    }
  }

  lemma TotalSet(m: map<Address, real>, a: Address, v: real)
    ensures Total(m[a := v]) == Total(m) - Amount(m, a) + v
  {
    TotalCredit(m, a, v - Amount(m, a));
  }

  // The equation

  ghost function SupplyOf(s: Books): real {
    Total(s.balances) + Total(s.stakes)
  }

  /** What a REWARD creates, or a negative fee, which its sender gains and nobody pays. */
  function Minted(tx: Tx): real {
    match tx.payload
    case Simple(_) => Max0(-tx.fee)
    case Inference(_) => 0.0
    case System(p) => if p.Reward? then p.amount else 0.0
  }

  /** What a CONTRACT_CALL takes out of circulation, or a SLASH really removes from the stake. */
  function Burned(s: Books, tx: Tx): real {
    match tx.payload
    case Simple(p) => if p.ContractCall? then p.value else 0.0
    case Inference(_) => 0.0
    case System(p) =>
      if !p.Slash? then 0.0 else
      var staked := Amount(s.stakes, tx.sender);
      staked - Max0(staked - p.amount)
  }

  lemma TxSupply(e: Crypto, s: Books, tx: Tx, height: int, proposer: Address)
    ensures SupplyOf(ApplyTx(e, s, tx, height, proposer)) == SupplyOf(s) + Minted(tx) - Burned(s, tx)
  {
    hide SupplyOf, ApplySimple, ApplySystem, Minted, Burned;
    match tx.payload
    case Simple(p) => UserSupply(e, s, tx, p, height, proposer);
    case Inference(_) => RequestSupply(s, tx);
    case System(p) => SystemSupply(s, tx, p, height);
  }

  lemma RequestSupply(s: Books, tx: Tx)
    requires tx.payload.Inference?
    ensures Minted(tx) == Burned(s, tx) == 0.0
  {}

  lemma UserSupply(e: Crypto, s: Books, tx: Tx, p: UserPayload, height: int, proposer: Address)
    requires tx.payload == Simple(p)
    ensures SupplyOf(ApplySimple(e, PayFee(s, tx, proposer), tx, p, height)) == SupplyOf(s) + Minted(tx) - Burned(s, tx)
  {
    hide Total, Credit, ApplySimple, Amount;
    TotalCredit(s.balances, proposer, tx.fee);
    SimpleSupply(e, PayFee(s, tx, proposer), tx, p, height);
  }

  /** A user transaction debits its fee, and a call its value; all else only moves. */
  lemma SimpleSupply(e: Crypto, s: Books, tx: Tx, p: UserPayload, height: int)
    ensures SupplyOf(ApplySimple(e, s, tx, p, height)) == SupplyOf(s) - tx.fee - if p.ContractCall? then p.value else 0.0
  {
    hide Credit, Total;
    if p.TokenTransfer? {
      TotalCredit(s.balances, tx.sender, -p.amount - tx.fee);
      TotalCredit(Credit(s.balances, tx.sender, -p.amount - tx.fee), tx.recipient, p.amount);
    } else if p.Stake? {
      TotalCredit(s.balances, tx.sender, -p.amount - tx.fee);
      TotalCredit(s.stakes, tx.sender, p.amount);
    } else if p.Unstake? {
      TotalCredit(s.stakes, tx.sender, -p.amount);
      TotalCredit(s.balances, tx.sender, p.amount - tx.fee);
    } else if p.ContractCall? {
      TotalCredit(s.balances, tx.sender, -tx.fee - p.value);
    } else {
      TotalCredit(s.balances, tx.sender, -tx.fee);
    }
  }

  lemma SystemSupply(s: Books, tx: Tx, p: ProtocolPayload, height: int)
    requires tx.payload == System(p)
    ensures SupplyOf(ApplySystem(s, tx, p, height)) == SupplyOf(s) + Minted(tx) - Burned(s, tx)
  {
    hide Credit, Total, Amount, Max0, Voted;
    if p.Reward? {
      TotalCredit(s.balances, tx.recipient, p.amount);
    } else if p.Slash? {
      TotalSet(s.stakes, tx.sender, Max0(Amount(s.stakes, tx.sender) - p.amount));
    }
  }

  function MintedBy(txs: seq<Tx>): real {
    if txs == [] then 0.0 else MintedBy(txs[..|txs| - 1]) + Minted(txs[|txs| - 1])
  }

  lemma {:induction false} MintedJoin(xs: seq<Tx>, ys: seq<Tx>)
    ensures MintedBy(xs + ys) == MintedBy(xs) + MintedBy(ys)
  {
    hide Minted;
    if ys == [] {
      assert xs + ys == xs;
    } else {
      MintedJoin(xs, ys[..|ys| - 1]);
      assert (xs + ys)[..|xs + ys| - 1] == xs + ys[..|ys| - 1];
    }
  }

  function BurnedBy(e: Crypto, s: Books, txs: seq<Tx>, height: int, proposer: Address): real {
    if txs == [] then 0.0 else
    var before := txs[..|txs| - 1];
    BurnedBy(e, s, before, height, proposer) + Burned(ApplyTxs(e, s, before, height, proposer), txs[|txs| - 1])
  }

  lemma {:induction false} TxsSupply(e: Crypto, s: Books, txs: seq<Tx>, height: int, proposer: Address)
    ensures SupplyOf(ApplyTxs(e, s, txs, height, proposer))
              == SupplyOf(s) + MintedBy(txs) - BurnedBy(e, s, txs, height, proposer)
  {
    hide ApplyTx, SupplyOf, Burned, Minted;
    if txs != [] {
      var before := txs[..|txs| - 1];
      TxsSupply(e, s, before, height, proposer);
      TxSupply(e, ApplyTxs(e, s, before, height, proposer), txs[|txs| - 1], height, proposer);
    }
    assert txs == [] ==> ApplyTxs(e, s, txs, height, proposer) == s;
  }

  function ChainMinted(blocks: seq<Block>): real {
    if blocks == [] then 0.0 else
    ChainMinted(blocks[..|blocks| - 1]) + MintedBy(blocks[|blocks| - 1].AllTransactions())
  }

  function ChainBurned(e: Crypto, blocks: seq<Block>): real {
    if blocks == [] then 0.0 else
    var before, b := blocks[..|blocks| - 1], blocks[|blocks| - 1];
    ChainBurned(e, before)
      + BurnedBy(e, Replay(e, before), b.AllTransactions(), b.header.height, b.header.proposerId)
  }

  /** After any sequence of blocks, whatever the signs of their amounts, balances and stakes add up to
      what was minted minus what was burned. */
  lemma {:induction false} SupplyEquation(e: Crypto, blocks: seq<Block>)
    ensures SupplyOf(Replay(e, blocks)) == ChainMinted(blocks) - ChainBurned(e, blocks)
  {
    if blocks == [] {
    } else {
      hide SupplyOf, ApplyTxs, MintedBy, BurnedBy;
      var before, b := blocks[..|blocks| - 1], blocks[|blocks| - 1];
      SupplyEquation(e, before);
      TxsSupply(e, Replay(e, before), b.AllTransactions(), b.header.height, b.header.proposerId);
    }
  }
}

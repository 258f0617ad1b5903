/** The hash chain: what the tip's hash says about everything below it. */
module HashChain {
  import opened Ledger
  import opened Merkle
  import opened MerkleLists
  import opened Supply
  import Solvency

  ghost function Headers(blocks: seq<Block>): iset<Header> {
    iset i: nat | i < |blocks| :: blocks[i].header
  }

  /** What validation left behind at every block after the first. */
  lemma {:induction false} Linked(e: Crypto, f: nat, blocks: seq<Block>, i: nat)
    requires ValidChain(e, f, blocks) && 0 < i < |blocks|
    ensures blocks[i].header.prevHash == e.headerHash(blocks[i - 1].header)
    ensures blocks[i].header.height == blocks[i - 1].header.height + 1
    ensures blocks[i].header.merkleRoot == MerkleRoot(e.sha, TxIds(blocks[i].AllTransactions()))
  {
    hide MerkleRoot, Replay, TxsError;
    var before := blocks[..|blocks| - 1];
    if i < |before| {
      Linked(e, f, before, i);
    }
  }

  lemma HeightsCount(e: Crypto, f: nat, blocks: seq<Block>, i: nat)
    requires ValidChain(e, f, blocks) && blocks[0].header.height == 0 && i < |blocks|
    ensures blocks[i].header.height == i
  {
    hide ValidChain;
    HeightsRise(e, f, blocks, 0, i);
  }

  lemma {:induction false} HeightsRise(e: Crypto, f: nat, blocks: seq<Block>, i: nat, j: nat)
    requires ValidChain(e, f, blocks) && i <= j < |blocks|
    ensures blocks[j].header.height == blocks[i].header.height + j - i
  {
    hide ValidChain;
    if i < j {
      Linked(e, f, blocks, j);
      HeightsRise(e, f, blocks, i, j - 1);
    }
  }

  /** Two chains with the same tip hash have the same headers throughout. */
  lemma TipDeterminesHeaders(e: Crypto, f: nat, g: nat, xs: seq<Block>, ys: seq<Block>)
    requires ValidChain(e, f, xs) && ValidChain(e, g, ys)
    requires xs[0].header.height == ys[0].header.height == 0
    requires Injective(e.headerHash, Headers(xs) + Headers(ys))
    requires e.headerHash(xs[|xs| - 1].header) == e.headerHash(ys[|ys| - 1].header)
    ensures |xs| == |ys| && forall i :: 0 <= i < |xs| ==> xs[i].header == ys[i].header
  {
    hide BlockCheck, Replay;
    var n, m := |xs| - 1, |ys| - 1;
    assert xs[n].header in Headers(xs) && ys[m].header in Headers(ys);
    HeightsCount(e, f, xs, n);
    HeightsCount(e, g, ys, m);
    forall i | 0 <= i < |xs| ensures xs[i].header == ys[i].header {
      HeadersBelow(e, f, g, xs, ys, i);
    }
  }

  lemma {:induction false} HeadersBelow(e: Crypto, f: nat, g: nat, xs: seq<Block>, ys: seq<Block>, i: nat)
    requires ValidChain(e, f, xs) && ValidChain(e, g, ys) && |xs| == |ys| && i < |xs|
    requires Injective(e.headerHash, Headers(xs) + Headers(ys))
    requires xs[|xs| - 1].header == ys[|ys| - 1].header
    ensures xs[i].header == ys[i].header
    decreases |xs| - i
  {
    hide ValidChain;
    if i < |xs| - 1 {
      HeadersBelow(e, f, g, xs, ys, i + 1);
      Linked(e, f, xs, i + 1);
      Linked(e, g, ys, i + 1);
      assert xs[i].header in Headers(xs) && ys[i].header in Headers(ys);
    }
  }

  /** The ids under one Merkle root, for bodies with equally many transactions. */
  lemma RootDeterminesIds(h: string -> string, xs: seq<string>, ys: seq<string>)
    requires |xs| == |ys| && Ids(xs) && Ids(ys) && Digests(h)
    requires Injective(h, Hashed(h, xs) + Hashed(h, ys)) && MerkleRoot(h, xs) == MerkleRoot(h, ys)
    ensures xs == ys
  {
    hide Root, Hashed, Ids;
    if xs != [] {
      RootInjective(h, xs, ys);
    }
  }

  /** What equal tips say about two bodies at one height: their ids fill up to the same list, and are the
      same where they are equally many, or where the longer body repeats none. */
  ghost predicate SameIds(e: Crypto, x: Block, y: Block) {
    var a, b := TxIds(x.AllTransactions()), TxIds(y.AllTransactions());
    && (|a| == |b| && Ids(a) && Ids(b) && Injective(e.sha, Hashed(e.sha, a) + Hashed(e.sha, b)) ==> a == b)
    && (NoCollision(e.sha, a, b) ==>
          && Filled(a) == Filled(b)
          && (Countable(a, b) ==> a == b))
  }

  /** Equally many ids, or none repeated in the longer list. */
  ghost predicate Countable(a: seq<string>, b: seq<string>) {
    |a| == |b| || (|a| < |b| && Duplicateless(b)) || (|b| < |a| && Duplicateless(a))
  }

  lemma RootGivesIds(e: Crypto, x: Block, y: Block)
    requires MerkleRoot(e.sha, TxIds(x.AllTransactions())) == MerkleRoot(e.sha, TxIds(y.AllTransactions())) && Digests(e.sha)
    ensures SameIds(e, x, y)
  {
    hide Hashed, Ids, Injective, Digests, MerkleRoot, TxIds, NoCollision, Filled, Duplicateless;
    var a, b := TxIds(x.AllTransactions()), TxIds(y.AllTransactions());
    if |a| == |b| && Ids(a) && Ids(b) && Injective(e.sha, Hashed(e.sha, a) + Hashed(e.sha, b)) {
      RootDeterminesIds(e.sha, a, b);
    }
    if NoCollision(e.sha, a, b) {
      RootsEqualExactly(e.sha, a, b);
      if Countable(a, b) {
        EqualUnderRoot(e.sha, a, b);
      }
    }
  }

  /** The tip hash determines the sequence of ids: equal tips mean equal lengths and headers, and, in
      every block after the first, the same ids up to repetitions at the end. */
  lemma TipDeterminesLedger(e: Crypto, f: nat, g: nat, xs: seq<Block>, ys: seq<Block>)
    requires ValidChain(e, f, xs) && ValidChain(e, g, ys)
    requires xs[0].header.height == ys[0].header.height == 0
    requires Injective(e.headerHash, Headers(xs) + Headers(ys)) && Digests(e.sha)
    requires e.headerHash(xs[|xs| - 1].header) == e.headerHash(ys[|ys| - 1].header)
    ensures |xs| == |ys| && forall i :: 0 <= i < |xs| ==> xs[i].header == ys[i].header
    ensures forall i :: 0 < i < |xs| ==> SameIds(e, xs[i], ys[i])
  {
    hide ValidChain, Injective, Digests, MerkleRoot, TxIds, SameIds;
    TipDeterminesHeaders(e, f, g, xs, ys);
    forall i | 0 < i < |xs| ensures SameIds(e, xs[i], ys[i]) {
      Linked(e, f, xs, i);
      Linked(e, g, ys, i);
      RootGivesIds(e, xs[i], ys[i]);
    }
  }

  // The books

  /** Transactions of two bodies with one id are the same transaction. */
  ghost predicate IdsBind(x: Block, y: Block) {
    forall t, u :: t in x.AllTransactions() && u in y.AllTransactions() && t.txId == u.txId ==> t == u
  }

  /** Nothing in the bodies can be hidden by the hash, by a repetition or by another's id. */
  ghost predicate Plain(e: Crypto, x: Block, y: Block) {
    var a, b := TxIds(x.AllTransactions()), TxIds(y.AllTransactions());
    NoCollision(e.sha, a, b) && Countable(a, b) && IdsBind(x, y)
  }

  lemma SameBody(e: Crypto, x: Block, y: Block)
    requires Plain(e, x, y) && SameIds(e, x, y)
    ensures x.AllTransactions() == y.AllTransactions()
  {
    hide NoCollision, Filled, Countable, Injective, Hashed, Ids;
    var a, b := TxIds(x.AllTransactions()), TxIds(y.AllTransactions());
    assert a == b;
    forall i | 0 <= i < |a| ensures x.AllTransactions()[i] == y.AllTransactions()[i] {
      assert a[i] == b[i];
      assert x.AllTransactions()[i] in x.AllTransactions() && y.AllTransactions()[i] in y.AllTransactions();
    }
  }

  lemma {:induction false} SameReplay(e: Crypto, xs: seq<Block>, ys: seq<Block>)
    requires |xs| == |ys|
    requires forall i :: 0 <= i < |xs| ==>
               xs[i].header == ys[i].header && xs[i].AllTransactions() == ys[i].AllTransactions()
    ensures Replay(e, xs) == Replay(e, ys)
  {
    if xs != [] {
      SameReplay(e, xs[..|xs| - 1], ys[..|ys| - 1]);
    }
  }

  /** The tip hash determines the books where the first blocks hold the same transactions, later bodies
      are equally long or repeat no id, and ids bind the contents. */
  lemma TipDeterminesBooks(e: Crypto, f: nat, g: nat, xs: seq<Block>, ys: seq<Block>)
    requires ValidChain(e, f, xs) && ValidChain(e, g, ys)
    requires xs[0].header.height == ys[0].header.height == 0 && xs[0].AllTransactions() == ys[0].AllTransactions()
    requires Injective(e.headerHash, Headers(xs) + Headers(ys)) && Digests(e.sha)
    requires e.headerHash(xs[|xs| - 1].header) == e.headerHash(ys[|ys| - 1].header)
    requires forall i :: 0 < i < |xs| && i < |ys| ==> Plain(e, xs[i], ys[i])
    ensures Replay(e, xs) == Replay(e, ys)
  {
    hide ValidChain, Injective, Digests, SameIds, Plain, Replay;
    TipDeterminesLedger(e, f, g, xs, ys);
    forall i | 0 <= i < |xs| ensures xs[i].AllTransactions() == ys[i].AllTransactions() {
      if i > 0 { SameBody(e, xs[i], ys[i]); }
    }
    SameReplay(e, xs, ys);
  }

  /** A body's end, if it consists of protocol transactions and can be repeated under the body's root. */
  ghost predicate Repeatable(b: Block) {
    var n := |b.AllTransactions()|;
    n > 0 && !PowerOfTwo(n) && Low(n) <= |b.systemTxs|
  }

  function End(b: Block): seq<Tx>
    requires b.AllTransactions() != [] && Low(|b.AllTransactions()|) <= |b.systemTxs|
  {
    b.systemTxs[|b.systemTxs| - Low(|b.AllTransactions()|)..]
  }

  function Twice(b: Block): Block
    requires b.AllTransactions() != [] && Low(|b.AllTransactions()|) <= |b.systemTxs|
  {
    b.(systemTxs := b.systemTxs + End(b))
  }

  lemma TwiceJoined(b: Block)
    requires b.AllTransactions() != [] && Low(|b.AllTransactions()|) <= |b.systemTxs|
    ensures Twice(b).AllTransactions() == b.AllTransactions() + End(b) && End(b) != []
    ensures TxIds(Twice(b).AllTransactions()) == Repeated(TxIds(b.AllTransactions()))
  {
    hide Low;
    assert b.AllTransactions()[|b.AllTransactions()| - Low(|b.AllTransactions()|)..] == End(b);
  }

  /** Validation does not tell a body from the one that repeats its end. */
  lemma TwiceChecked(e: Crypto, f: nat, s: Books, tip: Block, b: Block)
    requires Repeatable(b)
    ensures BlockCheck(e, f, s, tip, Twice(b)) == BlockCheck(e, f, s, tip, b)
  {
    hide PowerOfTwo, Low, Root, TxsError, TxIds, Block.AllTransactions;
    TwiceJoined(b);
    IdCount(b);
    var ids := TxIds(b.AllTransactions());
    RepeatedCollides(e.sha, ids);
    assert MerkleRoot(e.sha, Repeated(ids)) == MerkleRoot(e.sha, ids);
  }

  /** The tip hash does not determine the books without that: under every hash, the last block of a chain
      can be replaced by one that repeats its end, with the same header and signatures. The new chain is
      valid too, and its books are those of the old one with the repeated transactions applied again. */
  lemma RepeatedEnd(e: Crypto, f: nat, blocks: seq<Block>)
    requires ValidChain(e, f, blocks) && Repeatable(blocks[|blocks| - 1])
    ensures var b := blocks[|blocks| - 1]; var again := blocks[..|blocks| - 1] + [Twice(b)];
            && ValidChain(e, f, again) && Twice(b).header == b.header && again != blocks
            && Replay(e, again) == ApplyTxs(e, Replay(e, blocks), End(b), b.header.height, b.header.proposerId)
  {
    hide PowerOfTwo, Low, ApplyTxs, BlockCheck, TxIds, Repeated, Block.AllTransactions;
    var before, b := blocks[..|blocks| - 1], blocks[|blocks| - 1];
    var again := before + [Twice(b)];
    assert again[..|again| - 1] == before;
    TwiceJoined(b);
    if before != [] {
      TwiceChecked(e, f, Replay(e, before), before[|before| - 1], b);
    }
    Solvency.ApplyJoined(e, Replay(e, before), b.AllTransactions(), End(b), b.header.height, b.header.proposerId);
    assert again[|blocks| - 1].systemTxs != blocks[|blocks| - 1].systemTxs;
  }

  lemma IdCount(b: Block)
    ensures |TxIds(b.AllTransactions())| == |b.AllTransactions()|
  {}

  /** For instance, a chain whose last block has an odd number of transactions above one and ends in a
      REWARD has the same tip as one that pays the reward twice. */
  lemma RewardTwice(e: Crypto, f: nat, blocks: seq<Block>, amount: real)
    requires blocks != [] && ValidChain(e, f, blocks)
    requires var b := blocks[|blocks| - 1];
             && |b.AllTransactions()| % 2 == 1 && |b.AllTransactions()| > 1 && b.systemTxs != []
             && var last := b.systemTxs[|b.systemTxs| - 1];
                last.payload.System? && last.payload.protocol.Reward? && last.payload.protocol.amount == amount
    ensures var b := blocks[|blocks| - 1]; var again := blocks[..|blocks| - 1] + [Twice(b)];
            && ValidChain(e, f, again) && e.headerHash(again[|again| - 1].header) == e.headerHash(b.header)
            && SupplyOf(Replay(e, again)) == SupplyOf(Replay(e, blocks)) + amount
  {
    hide Root, ApplyTxs, ApplyTx, Replay, ValidChain, SupplyOf, Block.AllTransactions;
    var b := blocks[|blocks| - 1];
    PowerExactly(|b.AllTransactions()|);
    RepeatedEnd(e, f, blocks);
    var last := b.systemTxs[|b.systemTxs| - 1];
    assert End(b) == [last] && [last][..0] == [];
    TxsSupply(e, Replay(e, blocks), [last], b.header.height, b.header.proposerId);
    assert MintedBy([last]) == amount;
  }

  /** Whatever the numbers of transactions, equal tips mean that later blocks hold the same ids. */
  lemma TipDeterminesIds(e: Crypto, f: nat, g: nat, xs: seq<Block>, ys: seq<Block>, i: nat, id: string)
    requires ValidChain(e, f, xs) && ValidChain(e, g, ys)
    requires xs[0].header.height == ys[0].header.height == 0
    requires Injective(e.headerHash, Headers(xs) + Headers(ys))
    requires e.headerHash(xs[|xs| - 1].header) == e.headerHash(ys[|ys| - 1].header)
    requires 0 < i < |xs| && i < |ys|
    requires NoCollision(e.sha, TxIds(xs[i].AllTransactions()), TxIds(ys[i].AllTransactions()))
    ensures id in TxIds(xs[i].AllTransactions()) <==> id in TxIds(ys[i].AllTransactions())
  {
    hide ValidChain, NoCollision, Injective, MerkleRoot, Filled, TxIds;
    TipDeterminesHeaders(e, f, g, xs, ys);
    Linked(e, f, xs, i);
    Linked(e, g, ys, i);
    var a, b := TxIds(xs[i].AllTransactions()), TxIds(ys[i].AllTransactions());
    RootsEqualExactly(e.sha, a, b);
    FilledStarts(a);
    FilledStarts(b);
  }
}

/** Pending transactions: one index by id, one by sender, and the queue of inference requests. */
module Mempools {
  import opened Collections
  import opened Constants
  import opened Ledger
  import opened Sorting

  datatype Pool = Pool(pending: map<string, Tx>, bySender: Dict<Address, seq<Tx>>, queue: seq<Tx>, maxSize: nat)
  {
    function Of(sender: Address): seq<Tx> {
      GetOr(bySender, sender, [])
    }
  }

  predicate NonceLess(a: Tx, b: Tx) { a.nonce < b.nonce }

  predicate FeeMore(a: Tx, b: Tx) { a.fee > b.fee }

  function Added(p: Pool, tx: Tx): (Pool, bool) {
    if tx.txId in p.pending then (p, false)
    else if tx.Family() == INFERENCE then (p.(queue := p.queue + [tx], pending := p.pending[tx.txId := tx]), true)
    else if |p.pending| >= p.maxSize then (p, false)
    else (p.(pending := p.pending[tx.txId := tx],
             bySender := Put(p.bySender, tx.sender, SortBy(NonceLess, p.Of(tx.sender) + [tx]))), true)
  }

  function NextTaken(p: Pool): (Pool, Option<Tx>) {
    if p.queue == [] then (p, None)
    else (p.(queue := p.queue[1..], pending := p.pending - {p.queue[0].txId}), Some(p.queue[0]))
  }

  function OtherThan(id: string): Tx -> bool { (tx: Tx) => tx.txId != id }

  function NonceAbove(nonce: int): Tx -> bool { (tx: Tx) => tx.nonce > nonce }

  function NonceUpTo(nonce: int): Tx -> bool { (tx: Tx) => tx.nonce <= nonce }

  function RemovedOne(p: Pool, id: string): Pool {
    if id !in p.pending then p else
    var tx, p := p.pending[id], p.(pending := p.pending - {id});
    if tx.Family() != SIMPLE then p
    else p.(bySender := Put(p.bySender, tx.sender, Filter(OtherThan(id), p.Of(tx.sender))))
  }

  function Removed(p: Pool, ids: seq<string>): Pool {
    if ids == [] then p else RemovedOne(Removed(p, ids[..|ids| - 1]), ids[|ids| - 1])
  }

  function IdsOf(txs: seq<Tx>): set<string> {
    set i | 0 <= i < |txs| :: txs[i].txId
  }

  function Cleared(p: Pool, sender: Address, upTo: int): Pool {
    p.(bySender := Put(p.bySender, sender, Filter(NonceAbove(upTo), p.Of(sender))),
       pending := p.pending - IdsOf(Filter(NonceUpTo(upTo), p.Of(sender))))
  }

  /** The first listed transaction with a given nonce. */
  function Ready(txs: seq<Tx>, nonce: int): (r: Option<Tx>)
    ensures r.Some? ==> r.value in txs && r.value.nonce == nonce
    ensures r.None? ==> forall i :: 0 <= i < |txs| ==> txs[i].nonce != nonce
  {
    if txs == [] then None else
    var r := Ready(txs[..|txs| - 1], nonce);
    if r.None? && txs[|txs| - 1].nonce == nonce then Some(txs[|txs| - 1]) else r
  }

  /** Each sender's next transaction, if it is there. */
  function Candidates(bySender: Dict<Address, seq<Tx>>, nonces: map<Address, int>): seq<Tx> {
    if bySender == [] then [] else
    var rest, (sender, txs) := Candidates(bySender[..|bySender| - 1], nonces), bySender[|bySender| - 1];
    var ready := Ready(txs, NonceOf(nonces, sender) + 1);
    if ready.Some? then rest + [ready.value] else rest
  }

  function Selected(p: Pool, nonces: map<Address, int>, maxTxs: nat): seq<Tx> {
    var sorted := SortBy(FeeMore, Candidates(p.bySender, nonces));
    if |sorted| <= maxTxs then sorted else sorted[..maxTxs]
  }

  class Mempool {
    const maxSize: nat
    var pending: map<string, Tx>
    var bySender: Dict<Address, seq<Tx>>
    var inferenceQueue: seq<Tx>

    ghost function Contents(): Pool
      reads this
    {
      Pool(pending, bySender, inferenceQueue, maxSize)
    }

    constructor (maxSize: nat := MEMPOOL_MAX_SIZE)
      ensures Contents() == Pool(map[], [], [], maxSize)
    {
      this.maxSize := maxSize;
      pending, bySender, inferenceQueue := map[], [], [];
    }

    method Add(tx: Tx) returns (accepted: bool)
      modifies this
      ensures (Contents(), accepted) == Added(old(Contents()), tx)
    {
      hide SortBy, Put, Has;
      if tx.txId in pending { return false; }
      if tx.Family() == INFERENCE {
        inferenceQueue := inferenceQueue + [tx];
        pending := pending[tx.txId := tx];
        return true;
      }
      if |pending| >= maxSize { return false; }
      pending := pending[tx.txId := tx];
      var senderTxs := GetOr(bySender, tx.sender, []) + [tx];
      bySender := Put(bySender, tx.sender, SortBy(NonceLess, senderTxs));
      accepted := true;
    }

    method SelectSimple(nonces: map<Address, int>, maxTxs: nat) returns (txs: seq<Tx>)
      ensures txs == Selected(Contents(), nonces, maxTxs)
    {
      hide SortBy;
      var candidates: seq<Tx> := [];
      for i := 0 to |bySender|
        invariant candidates == Candidates(bySender[..i], nonces)
      {
        var (sender, own) := bySender[i];
        var expected := NonceOf(nonces, sender) + 1;
        assert bySender[..i + 1][..i] == bySender[..i];
        ghost var before := candidates;
        for j := 0 to |own|
          invariant candidates == before && Ready(own[..j], expected).None?
        {
          assert own[..j + 1][..j] == own[..j];
          if own[j].nonce == expected {
            ReadyStands(own, expected, j + 1);
            candidates := candidates + [own[j]];
            break;
          }
        }
        assert own[..|own|] == own;
      }
      assert bySender[..|bySender|] == bySender;
      var sorted := SortBy(FeeMore, candidates);
      txs := if |sorted| <= maxTxs then sorted else sorted[..maxTxs];
    }

    method NextInference() returns (r: Option<Tx>)
      modifies this
      ensures (Contents(), r) == NextTaken(old(Contents()))
    {
      if inferenceQueue == [] { return None; }
      var tx := inferenceQueue[0];
      inferenceQueue := inferenceQueue[1..];
      pending := pending - {tx.txId};
      r := Some(tx);
    }

    method Remove(ids: seq<string>)
      modifies this
      ensures Contents() == Removed(old(Contents()), ids)
    {
      hide Put, Has, Get, Filter;
      ghost var start := Contents();
      for i := 0 to |ids|
        invariant Contents() == Removed(start, ids[..i])
      {
        assert ids[..i + 1][..i] == ids[..i];
        if ids[i] in pending {
          var tx := pending[ids[i]];
          pending := pending - {ids[i]};
          if tx.Family() == SIMPLE {
            var kept := Filter(OtherThan(ids[i]), GetOr(bySender, tx.sender, []));
            bySender := Put(bySender, tx.sender, kept);
          }
        }
      }
      assert ids[..|ids|] == ids;
    }

    method ClearSender(sender: Address, upToNonce: int)
      modifies this
      ensures Contents() == Cleared(old(Contents()), sender, upToNonce)
    {
      hide Put, Filter;
      var own := GetOr(bySender, sender, []);
      var remaining := Filter(NonceAbove(upToNonce), own);
      var removed := Filter(NonceUpTo(upToNonce), own);
      bySender := Put(bySender, sender, remaining);
      ghost var start := pending;
      for i := 0 to |removed|
        invariant pending == start - IdsOf(removed[..i])
        invariant bySender == Put(old(bySender), sender, remaining) && inferenceQueue == old(inferenceQueue)
      {
        IdsStep(removed, i);
        pending := pending - {removed[i].txId};
      }
      assert removed[..|removed|] == removed;
    }
  }

  lemma IdsStep(txs: seq<Tx>, i: nat)
    requires i < |txs|
    ensures IdsOf(txs[..i + 1]) == IdsOf(txs[..i]) + {txs[i].txId}
  {
    assert txs[..i + 1][i] == txs[i];
    forall id | id in IdsOf(txs[..i]) ensures id in IdsOf(txs[..i + 1]) {
      var k :| 0 <= k < i && txs[..i][k].txId == id;
      assert txs[..i + 1][k] == txs[..i][k];
    }
  }

  lemma {:induction false} ReadyStands(txs: seq<Tx>, nonce: int, n: nat)
    requires 0 < n <= |txs| && Ready(txs[..n], nonce).Some?
    ensures Ready(txs, nonce) == Ready(txs[..n], nonce)
  {
    if n < |txs| {
      assert txs[..|txs| - 1][..n] == txs[..n];
      ReadyStands(txs[..|txs| - 1], nonce, n);
    } else {
      assert txs[..n] == txs;
    }
  }
}

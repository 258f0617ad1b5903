/** The mempool against its plain meaning: a set of pending transactions and a line of requests. */
module MempoolRuns {
  import opened Collections
  import opened Ledger
  import opened Mempools
  import opened MempoolIndex
  import opened Sorting

  /** The pending transactions by id, and the requests in the order they came. */
  datatype Basket = Basket(pending: map<string, Tx>, requests: seq<Tx>)

  /** What each operation means, without any index. */
  function Next(b: Basket, maxSize: nat, op: Op): Basket {
    match op
    case Insert(tx) =>
      if tx.txId in b.pending then b
      else if tx.payload.Inference? then Basket(b.pending[tx.txId := tx], b.requests + [tx])
      else if |b.pending| < maxSize then Basket(b.pending[tx.txId := tx], b.requests)
      else b
    case Take =>
      if b.requests == [] then b
      else Basket(map id | id in b.pending && id != b.requests[0].txId :: b.pending[id], b.requests[1..])
    case Drop(ids) => Basket(map id | id in b.pending && id !in ids :: b.pending[id], b.requests)
    case Clear(sender, upTo) =>
      Basket(map id | id in b.pending && !Outdated(b.pending[id], sender, upTo) :: b.pending[id], b.requests)
  }

  /** A user transaction of the sender's with a nonce that has been used. */
  predicate Outdated(tx: Tx, sender: Address, upTo: int) {
    tx.payload.Simple? && tx.sender == sender && tx.nonce <= upTo
  }

  function Steps(maxSize: nat, ops: seq<Op>): Basket {
    if ops == [] then Basket(map[], []) else Next(Steps(maxSize, ops[..|ops| - 1]), maxSize, ops[|ops| - 1])
  }

  function Meaning(p: Pool): Basket { Basket(p.pending, p.queue) }

  // Each operation

  lemma {:induction false} DroppedPending(p: Pool, ids: seq<string>)
    ensures Removed(p, ids).pending == (map id | id in p.pending && id !in ids :: p.pending[id])
    ensures Removed(p, ids).queue == p.queue && Removed(p, ids).maxSize == p.maxSize
  {
    if ids == [] {
      assert p.pending == map id | id in p.pending && id !in ids :: p.pending[id];
    } else {
      hide Put, Filter;
      var before, last := ids[..|ids| - 1], ids[|ids| - 1];
      DroppedPending(p, before);
      assert ids == before + [last];
    }
  }

  lemma ClearedPending(p: Pool, sender: Address, upTo: int)
    requires Consistent(p)
    ensures Cleared(p, sender, upTo).pending
              == (map id | id in p.pending && !Outdated(p.pending[id], sender, upTo) :: p.pending[id])
  {
    hide Put, Filter, Distinct, InOrder, NonceLess, AllDifferent, Queued, Pool.Of;
    var own := p.Of(sender);
    var gone := Filter(NonceUpTo(upTo), own);
    forall id | id in p.pending ensures id in IdsOf(gone) <==> Outdated(p.pending[id], sender, upTo) {
      var tx := p.pending[id];
      assert Placed(p, id) && Filed(p, sender, own);
      FilterMember(NonceUpTo(upTo), own, tx);
      if tx in gone {
        var i :| 0 <= i < |gone| && gone[i] == tx;
      }
      if id in IdsOf(gone) {
        GoneIsPending(p, sender, upTo, id);
      }
    }
  }

  lemma GoneIsPending(p: Pool, sender: Address, upTo: int, id: string)
    requires Consistent(p) && id in p.pending && id in IdsOf(Filter(NonceUpTo(upTo), p.Of(sender)))
    ensures p.pending[id] in p.Of(sender) && p.pending[id].nonce <= upTo
    ensures p.pending[id].payload.Simple? && p.pending[id].sender == sender
  {
    hide Distinct, InOrder, NonceLess, AllDifferent, Queued, Filter, Pool.Of;
    var own := p.Of(sender);
    var gone := Filter(NonceUpTo(upTo), own);
    var i :| 0 <= i < |gone| && gone[i].txId == id;
    FilterMember(NonceUpTo(upTo), own, gone[i]);
    assert gone[i] in gone && Filed(p, sender, own);
    var k :| 0 <= k < |own| && own[k] == gone[i];
  }

  lemma OneStep(p: Pool, op: Op)
    requires Consistent(p)
    ensures Meaning(Done(p, op)) == Next(Meaning(p), p.maxSize, op) && Done(p, op).maxSize == p.maxSize
  {
    hide Consistent, Put, Filter, Removed;
    match op
    case Insert(tx) => hide SortBy;
    case Take =>
      if p.queue != [] {
        assert p.pending - {p.queue[0].txId} == map id | id in p.pending && id != p.queue[0].txId :: p.pending[id];
      }
    case Drop(ids) => DroppedPending(p, ids);
    case Clear(sender, upTo) => ClearedPending(p, sender, upTo);
  }

  /** The mempool does what its operations mean: after every admissible run from empty it holds exactly the
      transactions and the line of requests that they leave. */
  lemma {:induction false} RunsAsMeant(maxSize: nat, ops: seq<Op>)
    requires AdmissibleRun(Pool(map[], [], [], maxSize), ops)
    ensures Meaning(AfterOps(Pool(map[], [], [], maxSize), ops)) == Steps(maxSize, ops)
    ensures AfterOps(Pool(map[], [], [], maxSize), ops).maxSize == maxSize
  {
    if ops != [] {
      hide Done, Next, Admissible;
      var before := ops[..|ops| - 1];
      assert forall i :: 0 <= i < |before| ==> before[..i] == ops[..i] && before[i] == ops[i];
      RunsAsMeant(maxSize, before);
      AlwaysConsistent(maxSize, before);
      OneStep(AfterOps(Pool(map[], [], [], maxSize), before), ops[|ops| - 1]);
    }
  }

  // The answers

  /** Adding says whether the pool has changed, taking gives the oldest request. */
  lemma AnswersAsMeant(p: Pool, tx: Tx)
    ensures Added(p, tx).1 <==> Meaning(Added(p, tx).0) != Meaning(p)
    ensures NextTaken(p).1 == if p.queue == [] then None else Some(p.queue[0])
  {
    hide Put, SortBy;
    if Added(p, tx).1 {
      assert tx.txId in Added(p, tx).0.pending && tx.txId !in p.pending;
    }
  }

  // First in, first out

  /** The requests that were accepted, and those that were taken, along a run. */
  function Accepted(maxSize: nat, ops: seq<Op>): seq<Tx> {
    if ops == [] then [] else
    var before, last := ops[..|ops| - 1], ops[|ops| - 1];
    Accepted(maxSize, before)
    + if last.Insert? && last.tx.payload.Inference? && last.tx.txId !in Steps(maxSize, before).pending then [last.tx] else []
  }

  function Served(maxSize: nat, ops: seq<Op>): seq<Tx> {
    if ops == [] then [] else
    var before, last := ops[..|ops| - 1], ops[|ops| - 1];
    Served(maxSize, before)
    + if last.Take? && Steps(maxSize, before).requests != [] then [Steps(maxSize, before).requests[0]] else []
  }

  /** What an operation does to the line. */
  lemma LineMoves(b: Basket, maxSize: nat, op: Op)
    ensures Next(b, maxSize, op).requests
              == if op.Insert? && op.tx.payload.Inference? && op.tx.txId !in b.pending then b.requests + [op.tx]
                 else if op.Take? && b.requests != [] then b.requests[1..] else b.requests
  {}

  /** Requests are served in the order they were accepted, none lost and none twice. */
  lemma {:induction false} FirstInFirstOut(maxSize: nat, ops: seq<Op>)
    ensures Accepted(maxSize, ops) == Served(maxSize, ops) + Steps(maxSize, ops).requests
  {
    if ops != [] {
      hide Next;
      var before, last := ops[..|ops| - 1], ops[|ops| - 1];
      FirstInFirstOut(maxSize, before);
      LineMoves(Steps(maxSize, before), maxSize, last);
      var line := Steps(maxSize, before).requests;
      if last.Take? && line != [] {
        assert Served(maxSize, before) + line == Served(maxSize, before) + [line[0]] + line[1..];
      }
    }
  }
}

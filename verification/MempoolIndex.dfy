/** The mempool's indexes always agree, and its selection pays the most. */
module MempoolIndex {
  import opened Collections
  import opened Ledger
  import opened Sorting
  import opened Solvency
  import opened Mempools

  predicate Holds(p: Pool, tx: Tx) {
    tx.txId in p.pending && p.pending[tx.txId] == tx
  }

  /** A sender's list: its own user transactions, each once, by ascending nonce. */
  ghost predicate Filed(p: Pool, sender: Address, txs: seq<Tx>) {
    && AllDifferent(txs) && InOrder(NonceLess, txs)
    && forall i :: 0 <= i < |txs| ==> txs[i].sender == sender && txs[i].Family() == SIMPLE && Holds(p, txs[i])
  }

  ghost predicate Queued(p: Pool) {
    && AllDifferent(p.queue)
    && forall i :: 0 <= i < |p.queue| ==> p.queue[i].Family() == INFERENCE && Holds(p, p.queue[i])
  }

  /** A pending transaction stands in its sender's list or in the queue. */
  predicate Placed(p: Pool, id: string)
    requires id in p.pending
  {
    var tx := p.pending[id];
    && tx.txId == id
    && (tx.Family() == SIMPLE ==> tx in p.Of(tx.sender))
    && (tx.Family() == INFERENCE ==> tx in p.queue)
    && tx.Family() != SYSTEM
  }

  /** The pending transactions are exactly the disjoint union of the lists and the queue. */
  ghost predicate Consistent(p: Pool) {
    && Distinct(p.bySender) && Queued(p)
    && (forall a: Address :: Filed(p, a, p.Of(a)))
    && (forall id :: id in p.pending ==> Placed(p, id))
  }

  lemma PutOf(p: Pool, sender: Address, txs: seq<Tx>)
    ensures var q := p.(bySender := Put(p.bySender, sender, txs));
            && q.Of(sender) == txs && (forall a | a != sender :: q.Of(a) == p.Of(a))
            && (Distinct(p.bySender) ==> Distinct(q.bySender))
  {
    PutGet(p.bySender, sender, txs);
  }

  /** Whether a transaction is the business of some other list than the sender's. */
  predicate Elsewhere(tx: Tx, sender: Address) {
    tx.Family() == INFERENCE || (tx.Family() == SIMPLE && tx.sender != sender)
  }

  /** Replacing one sender's list, and its entries by id, keeps the rest of the indexes. */
  lemma Refiled(p: Pool, sender: Address, txs: seq<Tx>, pending: map<string, Tx>)
    requires Consistent(p)
    requires Filed(p.(pending := pending), sender, txs)
    requires forall id :: id in p.pending && Elsewhere(p.pending[id], sender) ==> id in pending && pending[id] == p.pending[id]
    requires forall id :: id in pending ==>
               && pending[id].txId == id
               && (pending[id] in txs || (id in p.pending && pending[id] == p.pending[id] && Elsewhere(pending[id], sender)))
    ensures Consistent(p.(bySender := Put(p.bySender, sender, txs), pending := pending))
  {
    hide Put, Distinct, InOrder, NonceLess, AllDifferent, Filed;
    var r := p.(bySender := Put(p.bySender, sender, txs));
    var q := r.(pending := pending);
    PutOf(p, sender, txs);
    assert forall a :: q.Of(a) == r.Of(a);
    forall a: Address ensures Filed(q, a, q.Of(a)) {
      if a == sender {
        FiledSame(p.(pending := pending), q, a, txs);
      } else {
        FiledElsewhere(p, q, sender, a);
      }
    }
    forall id | id in pending ensures Placed(q, id) {
      if pending[id] in txs {
        FiledOwner(p.(pending := pending), sender, txs, pending[id]);
      } else {
        assert Placed(p, id);
      }
    }
  }

  /** A list's standing depends on the pending transactions only. */
  lemma FiledSame(p: Pool, q: Pool, a: Address, txs: seq<Tx>)
    requires Filed(p, a, txs) && q.pending == p.pending
    ensures Filed(q, a, txs)
  {}

  lemma FiledElsewhere(p: Pool, q: Pool, sender: Address, a: Address)
    requires Filed(p, a, p.Of(a)) && a != sender
    requires forall id :: id in p.pending && Elsewhere(p.pending[id], sender) ==> id in q.pending && q.pending[id] == p.pending[id]
    ensures Filed(q, a, p.Of(a))
  {
    hide Pool.Of;
  }

  lemma FiledOwner(p: Pool, sender: Address, txs: seq<Tx>, tx: Tx)
    requires Filed(p, sender, txs) && tx in txs
    ensures tx.sender == sender && tx.Family() == SIMPLE
  {}

  lemma NoncesAreOrdered()
    ensures IsOrder(NonceLess)
  {}

  /** Inserting a transaction into its sender's list by nonce. */
  lemma SortedIn(p: Pool, tx: Tx)
    requires Filed(p, tx.sender, p.Of(tx.sender)) && tx.txId !in p.pending
    ensures var r := SortBy(NonceLess, p.Of(tx.sender) + [tx]);
            && AllDifferent(r) && InOrder(NonceLess, r)
            && forall x :: x in r <==> x in p.Of(tx.sender) || x == tx
  {
    hide SortBy;
    var own := p.Of(tx.sender);
    NoncesAreOrdered();
    SortOrders(NonceLess, own + [tx]);
    SortDifferent(NonceLess, own + [tx]);
    forall x: Tx ensures x in SortBy(NonceLess, own + [tx]) <==> x in own || x == tx {
      SortMember(NonceLess, own + [tx], x);
    }
  }

  lemma AddKeepsLists(p: Pool, tx: Tx)
    requires Consistent(p) && tx.txId !in p.pending && tx.Family() == SIMPLE
    ensures Consistent(p.(pending := p.pending[tx.txId := tx],
                          bySender := Put(p.bySender, tx.sender, SortBy(NonceLess, p.Of(tx.sender) + [tx]))))
  {
    hide SortBy, Put, Distinct, InOrder, NonceLess, AllDifferent;
    var sorted, pending := SortBy(NonceLess, p.Of(tx.sender) + [tx]), p.pending[tx.txId := tx];
    assert Filed(p, tx.sender, p.Of(tx.sender));
    SortedIn(p, tx);
    forall i | 0 <= i < |sorted|
      ensures sorted[i].sender == tx.sender && sorted[i].Family() == SIMPLE && Holds(p.(pending := pending), sorted[i])
    {
      assert sorted[i] in sorted;
    }
    forall id | id in pending
      ensures pending[id].txId == id
      ensures pending[id] in sorted || (id in p.pending && pending[id] == p.pending[id] && Elsewhere(pending[id], tx.sender))
    {
      if id != tx.txId { assert Placed(p, id); }
    }
    Refiled(p, tx.sender, sorted, pending);
  }

  /** Adding a user transaction or an inference request keeps the indexes in agreement. */
  lemma AddConsistent(p: Pool, tx: Tx)
    requires Consistent(p) && tx.Family() != SYSTEM
    ensures Consistent(Added(p, tx).0)
  {
    hide SortBy, Put, Distinct, InOrder, NonceLess;
    var q := Added(p, tx).0;
    if tx.txId !in p.pending && tx.Family() == INFERENCE {
      forall a: Address ensures Filed(q, a, q.Of(a)) {
        assert Filed(p, a, p.Of(a));
      }
      forall id | id in q.pending ensures Placed(q, id) {
        if id != tx.txId { assert Placed(p, id); }
      }
    } else if q != p {
      AddKeepsLists(p, tx);
    }
  }

  /** So does taking the next inference request. */
  lemma NextConsistent(p: Pool)
    requires Consistent(p)
    ensures Consistent(NextTaken(p).0)
  {
    hide Distinct, InOrder;
    if p.queue != [] {
      var tx, q := p.queue[0], NextTaken(p).0;
      forall a: Address ensures Filed(q, a, q.Of(a)) {
        assert Filed(p, a, p.Of(a));
      }
      forall id | id in q.pending ensures Placed(q, id) {
        assert Placed(p, id);
        if q.pending[id].Family() == INFERENCE { assert q.pending[id] in [tx] + q.queue; }
      }
    }
  }

  function Differ(): (Tx, Tx) -> bool { (x: Tx, y: Tx) => x != y }

  function NotAfter(): (Tx, Tx) -> bool { (x: Tx, y: Tx) => !NonceLess(y, x) }

  /** Leaving out some of a sender's transactions. */
  lemma FilteredStaysFiled(p: Pool, sender: Address, keep: Tx -> bool, pending: map<string, Tx>)
    requires Filed(p, sender, p.Of(sender))
    requires forall tx :: tx in p.Of(sender) && keep(tx) ==> tx.txId in pending && pending[tx.txId] == tx
    ensures Filed(p.(pending := pending), sender, Filter(keep, p.Of(sender)))
  {
    hide Filter;
    var own, r := p.Of(sender), Filter(keep, p.Of(sender));
    FilterPairs(keep, own, Differ());
    FilterPairs(keep, own, NotAfter());
    assert forall i, j :: 0 <= i < j < |r| ==> Differ()(r[i], r[j]) && NotAfter()(r[i], r[j]);
    forall i | 0 <= i < |r| ensures r[i].sender == sender && r[i].Family() == SIMPLE && Holds(p.(pending := pending), r[i]) {
      FilterMember(keep, own, r[i]);
      assert r[i] in own;
    }
  }

  /** Leaving out some of a sender's transactions, and just their ids, keeps the indexes in agreement. */
  lemma FilteredConsistent(p: Pool, sender: Address, keep: Tx -> bool, gone: set<string>)
    requires Consistent(p)
    requires forall id :: id in p.pending ==>
               (id in gone <==> p.pending[id] in p.Of(sender) && !keep(p.pending[id]))
    ensures Consistent(p.(bySender := Put(p.bySender, sender, Filter(keep, p.Of(sender))), pending := p.pending - gone))
  {
    hide Put, Distinct, InOrder, NonceLess, AllDifferent, Filter;
    var own, pending := p.Of(sender), p.pending - gone;
    assert Filed(p, sender, own);
    forall tx | tx in own && keep(tx) ensures tx.txId in pending && pending[tx.txId] == tx {
      assert Holds(p, tx);
    }
    FilteredStaysFiled(p, sender, keep, pending);
    forall id | id in p.pending && Elsewhere(p.pending[id], sender) ensures id in pending {
      assert p.pending[id] !in own;
    }
    forall id | id in pending
      ensures pending[id].txId == id
      ensures pending[id] in Filter(keep, own)
              || (id in p.pending && pending[id] == p.pending[id] && Elsewhere(pending[id], sender))
    {
      assert Placed(p, id);
      FilterMember(keep, own, pending[id]);
    }
    Refiled(p, sender, Filter(keep, own), pending);
  }

  /** So does clearing a sender up to a nonce. */
  lemma ClearConsistent(p: Pool, sender: Address, upTo: int)
    requires Consistent(p)
    ensures Consistent(Cleared(p, sender, upTo))
  {
    hide Put, Distinct, InOrder, AllDifferent, Filter;
    var own := p.Of(sender);
    var removed := Filter(NonceUpTo(upTo), own);
    forall id | id in p.pending
      ensures id in IdsOf(removed) <==> p.pending[id] in own && !NonceAbove(upTo)(p.pending[id])
    {
      assert Filed(p, sender, own) && Placed(p, id);
      FilterMember(NonceUpTo(upTo), own, p.pending[id]);
      if id in IdsOf(removed) {
        var k :| 0 <= k < |removed| && removed[k].txId == id;
        FilterMember(NonceUpTo(upTo), own, removed[k]);
        assert Holds(p, removed[k]);
      }
    }
    FilteredConsistent(p, sender, NonceAbove(upTo), IdsOf(removed));
  }

  lemma RemoveOneConsistent(p: Pool, id: string)
    requires Consistent(p) && (id in p.pending ==> p.pending[id].Family() == SIMPLE)
    ensures Consistent(RemovedOne(p, id))
  {
    hide Put, Distinct, InOrder, AllDifferent, Filter;
    if id in p.pending {
      var tx := p.pending[id];
      assert Placed(p, id) && Filed(p, tx.sender, p.Of(tx.sender));
      forall i | i in p.pending
        ensures i in {id} <==> p.pending[i] in p.Of(tx.sender) && !OtherThan(id)(p.pending[i])
      {
        assert Placed(p, i);
      }
      FilteredConsistent(p, tx.sender, OtherThan(id), {id});
    }
  }

  lemma {:induction false} RemovedHolds(p: Pool, ids: seq<string>, tx: Tx)
    ensures Removed(p, ids).queue == p.queue
    ensures Holds(Removed(p, ids), tx) <==> Holds(p, tx) && tx.txId !in ids
  {
    hide Put, Filter;
    if ids != [] {
      RemovedHolds(p, ids[..|ids| - 1], tx);
      assert ids == ids[..|ids| - 1] + [ids[|ids| - 1]];
    }
  }

  /** `remove` keeps the indexes in agreement exactly when no removed id is a pending inference request. */
  lemma {:induction false} RemoveConsistentExactly(p: Pool, ids: seq<string>)
    requires Consistent(p)
    ensures Consistent(Removed(p, ids)) <==> forall id :: id in ids && id in p.pending ==> p.pending[id].Family() != INFERENCE
  {
    hide RemovedOne, Distinct, Filed, Placed;
    if id :| id in ids && id in p.pending && p.pending[id].Family() == INFERENCE {
      var tx := p.pending[id];
      RequestQueued(p, id);
      RemovedHolds(p, ids, tx);
      var k :| 0 <= k < |p.queue| && p.queue[k] == tx;
    } else if ids != [] {
      var before, last := ids[..|ids| - 1], ids[|ids| - 1];
      RemoveConsistentExactly(p, before);
      if last in Removed(p, before).pending {
        var tx := Removed(p, before).pending[last];
        PendingIsPlaced(Removed(p, before), last);
        RemovedHolds(p, before, tx);
      }
      RemoveOneConsistent(Removed(p, before), last);
    }
  }

  lemma RequestQueued(p: Pool, id: string)
    requires Consistent(p) && id in p.pending && p.pending[id].Family() == INFERENCE
    ensures p.pending[id] in p.queue && p.pending[id].txId == id
  {
    assert Placed(p, id);
  }

  lemma PendingIsPlaced(p: Pool, id: string)
    requires Consistent(p) && id in p.pending
    ensures p.pending[id].txId == id && p.pending[id].Family() != SYSTEM
  {
    assert Placed(p, id);
  }

  // Whole runs

  datatype Op = Insert(tx: Tx) | Take | Drop(ids: seq<string>) | Clear(sender: Address, upTo: int)

  function Done(p: Pool, op: Op): Pool {
    match op
    case Insert(tx) => Added(p, tx).0
    case Take => NextTaken(p).0
    case Drop(ids) => Removed(p, ids)
    case Clear(sender, upTo) => Cleared(p, sender, upTo)
  }

  /** No system transaction is added, and no pending inference request is removed by its id. */
  predicate Admissible(p: Pool, op: Op) {
    match op
    case Insert(tx) => tx.Family() != SYSTEM
    case Drop(ids) => forall id :: id in ids && id in p.pending ==> p.pending[id].Family() != INFERENCE
    case _ => true
  }

  function AfterOps(p: Pool, ops: seq<Op>): Pool {
    if ops == [] then p else Done(AfterOps(p, ops[..|ops| - 1]), ops[|ops| - 1])
  }

  predicate AdmissibleRun(p: Pool, ops: seq<Op>) {
    forall i :: 0 <= i < |ops| ==> Admissible(AfterOps(p, ops[..i]), ops[i])
  }

  lemma EmptyConsistent(maxSize: nat)
    ensures Consistent(Pool(map[], [], [], maxSize))
  {}

  /** Starting empty, the indexes agree after every run. */
  lemma {:induction false} AlwaysConsistent(maxSize: nat, ops: seq<Op>)
    requires AdmissibleRun(Pool(map[], [], [], maxSize), ops)
    ensures Consistent(AfterOps(Pool(map[], [], [], maxSize), ops))
  {
    hide Consistent, Added, NextTaken, Removed, Cleared;
    var empty := Pool(map[], [], [], maxSize);
    if ops == [] {
      EmptyConsistent(maxSize);
    } else {
      var before, last := ops[..|ops| - 1], ops[|ops| - 1];
      assert forall i :: 0 <= i < |before| ==> before[..i] == ops[..i] && before[i] == ops[i];
      AlwaysConsistent(maxSize, before);
      var p := AfterOps(empty, before);
      match last
      case Insert(tx) => AddConsistent(p, tx);
      case Take => NextConsistent(p);
      case Drop(ids) => RemoveConsistentExactly(p, ids);
      case Clear(sender, upTo) => ClearConsistent(p, sender, upTo);
    }
  }

  // The selection

  predicate IsReady(p: Pool, nonces: map<Address, int>, tx: Tx) {
    Ready(p.Of(tx.sender), NonceOf(nonces, tx.sender) + 1) == Some(tx)
  }

  lemma EntryOf(p: Pool, i: nat)
    requires Distinct(p.bySender) && i < |p.bySender|
    ensures p.Of(p.bySender[i].0) == p.bySender[i].1
  {
    GetEntry(p.bySender, p.bySender[i]);
  }

  function ReadyAt(p: Pool, nonces: map<Address, int>, i: nat): Option<Tx>
    requires i < |p.bySender|
  {
    Ready(p.bySender[i].1, NonceOf(nonces, p.bySender[i].0) + 1)
  }

  lemma CandidatesStep(p: Pool, nonces: map<Address, int>, n: nat)
    requires 0 < n <= |p.bySender|
    ensures var before := Candidates(p.bySender[..n - 1], nonces);
            Candidates(p.bySender[..n], nonces)
              == if ReadyAt(p, nonces, n - 1).Some? then before + [ReadyAt(p, nonces, n - 1).value] else before
  {
    hide Ready, NonceOf;
    assert p.bySender[..n][..n - 1] == p.bySender[..n - 1];
  }

  /** The candidates are what is ready in the senders' lists. */
  lemma {:induction false} CandidateMember(p: Pool, nonces: map<Address, int>, n: nat, tx: Tx)
    requires n <= |p.bySender|
    ensures tx in Candidates(p.bySender[..n], nonces) <==> exists i :: 0 <= i < n && ReadyAt(p, nonces, i) == Some(tx)
  {
    hide Candidates, ReadyAt;
    if n == 0 {
      NoCandidates(p, nonces);
    } else {
      CandidatesStep(p, nonces, n);
      CandidateMember(p, nonces, n - 1, tx);
      if tx in Candidates(p.bySender[..n], nonces) && tx !in Candidates(p.bySender[..n - 1], nonces) {
        assert ReadyAt(p, nonces, n - 1) == Some(tx);
      }
    }
  }

  lemma NoCandidates(p: Pool, nonces: map<Address, int>)
    ensures Candidates(p.bySender[..0], nonces) == []
  {
  }

  lemma ReadyFrom(p: Pool, nonces: map<Address, int>, i: nat)
    requires Consistent(p) && i < |p.bySender| && ReadyAt(p, nonces, i).Some?
    ensures var tx := ReadyAt(p, nonces, i).value;
            tx.sender == p.bySender[i].0 && IsReady(p, nonces, tx) && tx.Family() == SIMPLE && Holds(p, tx)
  {
    hide Queued, Placed, Holds, Filed, Distinct, Ready;
    var sender := p.bySender[i].0;
    EntryOf(p, i);
    assert Filed(p, sender, p.Of(sender));
    ReadyListed(p, sender, NonceOf(nonces, sender) + 1);
  }

  lemma {:induction false} CandidatesApart(p: Pool, nonces: map<Address, int>, n: nat)
    requires Consistent(p) && n <= |p.bySender|
    ensures OnePerSender(Candidates(p.bySender[..n], nonces))
  {
    hide Queued, Placed, Filed, Candidates, ReadyAt, IsReady, Holds;
    if n == 0 {
      NoCandidates(p, nonces);
    } else {
      CandidatesApart(p, nonces, n - 1);
      var before := Candidates(p.bySender[..n - 1], nonces);
      CandidatesStep(p, nonces, n);
      if ReadyAt(p, nonces, n - 1).Some? {
        ReadyFrom(p, nonces, n - 1);
        forall k | 0 <= k < |before| ensures before[k].sender != p.bySender[n - 1].0 {
          CandidateMember(p, nonces, n - 1, before[k]);
          var i :| 0 <= i < n - 1 && ReadyAt(p, nonces, i) == Some(before[k]);
          ReadyFrom(p, nonces, i);
        }
      }
    }
  }

  lemma ReadyListed(p: Pool, sender: Address, nonce: int)
    requires Filed(p, sender, p.Of(sender)) && Ready(p.Of(sender), nonce).Some?
    ensures var tx := Ready(p.Of(sender), nonce).value;
            tx.sender == sender && tx.nonce == nonce && tx.Family() == SIMPLE && Holds(p, tx)
  {}

  lemma FeesAreOrdered()
    ensures IsOrder(FeeMore)
  {}

  /** The selection holds pending user transactions, each its sender's next and one per sender, the
      best paying first. */
  lemma SelectionGood(p: Pool, nonces: map<Address, int>, maxTxs: nat)
    requires Consistent(p)
    ensures var s := Selected(p, nonces, maxTxs);
            && OnePerSender(s) && InOrder(FeeMore, s)
            && |s| <= maxTxs
            && forall i :: 0 <= i < |s| ==> s[i].Family() == SIMPLE && Holds(p, s[i]) && IsReady(p, nonces, s[i])
  {
    hide Candidates, SortBy, Consistent, IsReady, Holds, FeeMore;
    var c := Candidates(p.bySender, nonces);
    var sorted := SortBy(FeeMore, c);
    assert p.bySender[..|p.bySender|] == p.bySender;
    CandidatesApart(p, nonces, |p.bySender|);
    FeesAreOrdered();
    SortOrders(FeeMore, c);
    SortDifferent(FeeMore, c);
    forall i | 0 <= i < |sorted|
      ensures sorted[i] in c && sorted[i].Family() == SIMPLE && Holds(p, sorted[i]) && IsReady(p, nonces, sorted[i])
    {
      SortMember(FeeMore, c, sorted[i]);
      CandidateMember(p, nonces, |p.bySender|, sorted[i]);
      var k :| 0 <= k < |p.bySender| && ReadyAt(p, nonces, k) == Some(sorted[i]);
      ReadyFrom(p, nonces, k);
    }
    forall i, j | 0 <= i < j < |sorted| ensures sorted[i].sender != sorted[j].sender {
      assert sorted[i] in c && sorted[j] in c && sorted[i] != sorted[j];
    }
  }

  // The best total

  ghost function FeeSum(txs: set<Tx>): real {
    if txs == {} then 0.0 else
    var tx :| tx in txs;
    tx.fee + FeeSum(txs - {tx})
  }

  /** Any transaction may be counted first. */
  lemma {:induction false} FeeSumSplit(txs: set<Tx>, tx: Tx)
    requires tx in txs
    ensures FeeSum(txs) == tx.fee + FeeSum(txs - {tx})
    decreases |txs|
  {
    var first :| first in txs && FeeSum(txs) == first.fee + FeeSum(txs - {first});
    if first != tx {
      FeeSumSplit(txs - {first}, tx);
      FeeSumSplit(txs - {tx}, first);
      assert txs - {first} - {tx} == txs - {tx} - {first};
    }
  }

  ghost predicate PayWell(txs: seq<Tx>) {
    forall i :: 0 <= i < |txs| ==> txs[i].fee >= 0.0
  }

  ghost function Members(txs: seq<Tx>): set<Tx> {
    set tx | tx in txs
  }

  lemma MembersSplit(txs: seq<Tx>)
    requires txs != [] && AllDifferent(txs)
    ensures var before, last := txs[..|txs| - 1], txs[|txs| - 1];
            Members(txs) == Members(before) + {last} && last !in Members(before)
  {
    assert txs == txs[..|txs| - 1] + [txs[|txs| - 1]];
  }

  lemma {:induction false} MemberCount(txs: seq<Tx>)
    requires AllDifferent(txs)
    ensures |Members(txs)| == |txs|
  {
    if txs != [] {
      MembersSplit(txs);
      MemberCount(txs[..|txs| - 1]);
    }
  }

  function Top(txs: seq<Tx>, n: nat): seq<Tx> {
    if |txs| <= n then txs else txs[..n]
  }

  /** No choice of at most n of the listed transactions pays more than the first n, when the best
      paying come first. */
  lemma {:induction false} TopPaysMost(txs: seq<Tx>, n: nat, choice: set<Tx>)
    requires AllDifferent(txs) && InOrder(FeeMore, txs) && PayWell(txs)
    requires choice <= Members(txs) && |choice| <= n
    ensures FeeSum(choice) <= FeeTotal(Top(txs, n))
  {
    hide FeeSum, Members;
    if txs == [] {
      NoMembers();
      NoFees();
    } else {
      var before, last := txs[..|txs| - 1], txs[|txs| - 1];
      MembersSplit(txs);
      MemberCount(before);
      if last !in choice {
        TopPaysMost(before, n, choice);
        TopGrows(txs, n);
      } else if |txs| <= n {
        FeeSumSplit(choice, last);
        TopPaysMost(before, n, choice - {last});
      } else {
        var other := Unchosen(before, choice - {last});
        FeeSumSplit(choice, last);
        FeeSumSplit(choice - {last} + {other}, other);
        assert choice - {last} + {other} - {other} == choice - {last};
        TopPaysMost(before, n, choice - {last} + {other});
        TopGrows(txs, n);
      }
    }
  }

  lemma NoMembers()
    ensures Members([]) == {}
  {}

  lemma NoFees()
    ensures FeeSum({}) == 0.0 && FeeTotal([]) == 0.0
  {}

  lemma TopGrows(txs: seq<Tx>, n: nat)
    requires txs != [] && PayWell(txs)
    ensures FeeTotal(Top(txs[..|txs| - 1], n)) <= FeeTotal(Top(txs, n))
  {
    var before := txs[..|txs| - 1];
    if |txs| > n {
      assert Top(before, n) == Top(txs, n);
    }
  }

  /** A listed transaction that a smaller choice leaves out; it pays at least as much as the last. */
  lemma Unchosen(txs: seq<Tx>, choice: set<Tx>) returns (other: Tx)
    requires choice <= Members(txs) && |choice| < |Members(txs)|
    ensures other in Members(txs) && other in txs && other !in choice
  {
    if Members(txs) <= choice {
      SubsetSize(Members(txs), choice);
    }
    other :| other in Members(txs) && other !in choice;
  }

  /** Of all choices of at most maxTxs candidates, the selection pays the highest total fee. */
  lemma SelectionPaysMost(p: Pool, nonces: map<Address, int>, maxTxs: nat, choice: set<Tx>)
    requires Consistent(p) && PayWell(Candidates(p.bySender, nonces))
    requires (forall tx :: tx in choice ==> tx in Candidates(p.bySender, nonces)) && |choice| <= maxTxs
    ensures FeeSum(choice) <= FeeTotal(Selected(p, nonces, maxTxs))
  {
    hide Candidates, SortBy, Consistent, FeeMore, FeeSum, FeeTotal;
    var c := Candidates(p.bySender, nonces);
    var sorted := SortBy(FeeMore, c);
    assert p.bySender[..|p.bySender|] == p.bySender;
    CandidatesApart(p, nonces, |p.bySender|);
    FeesAreOrdered();
    SortOrders(FeeMore, c);
    SortDifferent(FeeMore, c);
    forall i | 0 <= i < |sorted| ensures sorted[i].fee >= 0.0 {
      SortMember(FeeMore, c, sorted[i]);
    }
    forall tx | tx in choice ensures tx in Members(sorted) {
      SortMember(FeeMore, c, tx);
    }
    TopPaysMost(sorted, maxTxs, choice);
  }
}

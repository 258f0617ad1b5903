/** Catching up with a peer: gossip deduplication and the block-sync exchange. */
module Sync {
  import opened Collections
  import opened Sorting
  import opened Ledger
  import opened Chains
  import HashChain

  const SEEN_SET_MAX := 10000
  const MAX_BLOCKS_PER_REQUEST := 50

  /** A block as it travels, with the hash that its header names. */
  type BlockMsg = (string, Block)

  datatype Request = Request(fromHeight: int, toHeight: int)

  // Deduplication

  /** A new key is remembered, the oldest one forgotten when there are too many. */
  function Marked(seen: seq<string>, key: string): seq<string> {
    if key in seen then seen
    else (if |seen| >= SEEN_SET_MAX then seen[1..] else seen) + [key]
  }

  function MarkedAll(seen: seq<string>, keys: seq<string>): seq<string> {
    if keys == [] then seen else Marked(MarkedAll(seen, keys[..|keys| - 1]), keys[|keys| - 1])
  }

  lemma {:induction false} AgesSlowly(seen: seq<string>, key: string, keys: seq<string>) returns (p: nat)
    requires key !in seen && |seen| <= SEEN_SET_MAX && |keys| < SEEN_SET_MAX
    ensures var r := MarkedAll(Marked(seen, key), keys);
            |r| <= SEEN_SET_MAX && p < |r| && r[p] == key && |r| - 1 - p <= |keys|
  {
    if keys == [] {
      p := |Marked(seen, key)| - 1;
    } else {
      p := AgesSlowly(seen, key, keys[..|keys| - 1]);
      var before := MarkedAll(Marked(seen, key), keys[..|keys| - 1]);
      if keys[|keys| - 1] !in before && |before| >= SEEN_SET_MAX { p := p - 1; }
    }
  }

  /** A new key is remembered while fewer than 10 000 others are marked after it. */
  lemma Remembered(seen: seq<string>, key: string, keys: seq<string>)
    requires key !in seen && |seen| <= SEEN_SET_MAX && |keys| < SEEN_SET_MAX
    ensures key in MarkedAll(Marked(seen, key), keys)
  {
    hide Marked, MarkedAll;
    var p := AgesSlowly(seen, key, keys);
  }

  class SeenKeys {
    var order: seq<string>
    var members: set<string>

    /** The deque and the set hold the same keys. */
    ghost predicate Valid()
      reads this
    {
      AllDifferent(order) && |order| <= SEEN_SET_MAX && (forall k :: k in members <==> k in order)
    }

    constructor ()
      ensures Valid() && order == []
    {
      order, members := [], {};
    }

    method Mark(key: string)
      requires Valid()
      modifies this
      ensures Valid() && order == Marked(old(order), key)
    {
      if key in members { return; }
      if |order| >= SEEN_SET_MAX {
        var evicted := order[0];
        order := order[1..];
        members := members - {evicted};
      }
      order := order + [key];
      members := members + {key};
    }
  }

  // What the handlers do

  function Behind(ours: int, theirs: int): Option<Request> {
    if theirs > ours
    then Some(Request(ours + 1, if theirs < ours + MAX_BLOCKS_PER_REQUEST then theirs else ours + MAX_BLOCKS_PER_REQUEST))
    else None
  }

  function Wire(e: Crypto, b: Block): BlockMsg {
    (e.headerHash(b.header), b)
  }

  function OnWire(e: Crypto, blocks: seq<Block>): seq<BlockMsg> {
    seq(|blocks|, i requires 0 <= i < |blocks| => Wire(e, blocks[i]))
  }

  /** The last height that is served, or one less than the first when none is. */
  function LastServed(blocks: seq<Block>, r: Request): int {
    var asked := if r.toHeight < r.fromHeight + MAX_BLOCKS_PER_REQUEST - 1 then r.toHeight
                 else r.fromHeight + MAX_BLOCKS_PER_REQUEST - 1;
    if r.fromHeight < 0 || asked < r.fromHeight then r.fromHeight - 1
    else if asked < |blocks| then asked
    else if r.fromHeight < |blocks| then |blocks| - 1 else r.fromHeight - 1
  }

  function Served(e: Crypto, blocks: seq<Block>, r: Request): seq<BlockMsg> {
    var last := LastServed(blocks, r);
    if last < r.fromHeight then [] else OnWire(e, blocks[r.fromHeight..last + 1])
  }

  datatype Local = Local(blocks: seq<Block>, seen: seq<string>)

  predicate Accepts(e: Crypto, f: nat, blocks: seq<Block>, b: Block)
    requires blocks != []
  {
    b.Structured() && BlockCheck(e, f, Replay(e, blocks), blocks[|blocks| - 1], b).None?
  }

  /** One received block: skipped when it was seen, cannot be built or is rejected. */
  function Ingested(e: Crypto, f: nat, l: Local, m: BlockMsg): (r: Local)
    requires l.blocks != []
    ensures r.blocks != []
  {
    if m.0 in l.seen || !Accepts(e, f, l.blocks, m.1) then l
    else Local(l.blocks + [m.1], Marked(l.seen, m.0))
  }

  function Received(e: Crypto, f: nat, l: Local, batch: seq<BlockMsg>): (r: Local)
    requires l.blocks != []
    ensures r.blocks != [] && |l.blocks| <= |r.blocks|
  {
    if batch == [] then l else Ingested(e, f, Received(e, f, l, batch[..|batch| - 1]), batch[|batch| - 1])
  }

  lemma OneMoreServed(e: Crypto, blocks: seq<Block>, from: nat, h: nat)
    requires from <= h < |blocks|
    ensures (if from == h then [] else OnWire(e, blocks[from..h])) + [Wire(e, blocks[h])] == OnWire(e, blocks[from..h + 1])
    ensures OnWire(e, blocks[from..h + 1]) != []
  {}

  class Peer {
    const chain: Chain
    const seen: SeenKeys

    ghost predicate Valid()
      reads this, chain, chain.state, seen
    {
      chain.Valid() && seen.Valid() && chain.blocks != []
    }

    ghost function State(): Local
      reads this, chain, seen
    {
      Local(chain.blocks, seen.order)
    }

    constructor (chain: Chain)
      requires chain.Valid()
      ensures Valid() && this.chain == chain && fresh(seen) && State() == Local(chain.blocks, [])
    {
      this.chain := chain;
      seen := new SeenKeys();
    }

    method OnHandshake(peerHeight: int) returns (r: Option<Request>)
      requires Valid()
      ensures r == Behind(|chain.blocks| - 1, peerHeight)
    {
      var ours := |chain.blocks| - 1;
      r := None;
      if peerHeight > ours {
        var last := ours + MAX_BLOCKS_PER_REQUEST;
        if peerHeight < last { last := peerHeight; }
        r := Some(Request(ours + 1, last));
      }
    }

    /** Serves blocks in order and stops at the first height it does not have. */
    method OnGetBlocks(r: Request) returns (batch: seq<BlockMsg>)
      requires Valid()
      ensures batch == Served(chain.e, chain.blocks, r)
    {
      hide OnWire, Wire;
      var last := r.fromHeight + MAX_BLOCKS_PER_REQUEST - 1;
      if r.toHeight < last { last := r.toHeight; }
      batch := [];
      var h := r.fromHeight;
      while h <= last
        invariant batch == [] || (0 <= r.fromHeight < h <= |chain.blocks| && h <= last + 1)
        invariant batch == [] ==> h == r.fromHeight
        invariant batch != [] ==> batch == OnWire(chain.e, chain.blocks[r.fromHeight..h])
      {
        if h < 0 || h >= |chain.blocks| { break; }
        OneMoreServed(chain.e, chain.blocks, r.fromHeight, h);
        batch := batch + [Wire(chain.e, chain.blocks[h])];
        h := h + 1;
      }
    }

    /** One block of a batch: skipped when it was seen, cannot be built or is rejected. */
    method TakeBlock(m: BlockMsg) returns (taken: bool)
      requires Valid()
      modifies chain, chain.state, seen
      ensures Valid() && State() == Ingested(chain.e, chain.f, old(State()), m)
      ensures |chain.blocks| == |old(chain.blocks)| + if taken then 1 else 0
    {
      hide BlockCheck, Replay, ValidChain, Marked;
      var (hash, block) := m;
      if hash in seen.members || !block.Structured() { return false; }
      var error := chain.Append(block);
      taken := error.None?;
      if taken {
        seen.Mark(hash);
      }
    }

    /** Takes in a batch; asks for more when it made progress and is still behind. */
    method OnBlocks(peerHeight: int, batch: seq<BlockMsg>) returns (r: Option<Request>)
      requires Valid()
      modifies chain, chain.state, seen
      ensures Valid()
      ensures State() == Received(chain.e, chain.f, old(State()), batch)
      ensures r == if |chain.blocks| == |old(chain.blocks)| then None
                   else Behind(|chain.blocks| - 1, peerHeight)
    {
      hide BlockCheck, Replay, ValidChain, Ingested;
      ghost var start := State();
      var accepted := 0;
      for i := 0 to |batch|
        invariant Valid() && State() == Received(chain.e, chain.f, start, batch[..i])
        invariant |chain.blocks| == |start.blocks| + accepted
      {
        assert batch[..i + 1][..i] == batch[..i];
        var taken := TakeBlock(batch[i]);
        if taken {
          accepted := accepted + 1;
        }
      }
      assert batch[..|batch|] == batch;
      r := None;
      if accepted > 0 {
        r := OnHandshake(peerHeight);
      }
    }
  }

  // Convergence

  /** Where catching up with a peer's chain stops: at the first missing block whose hash counts as seen
      when its turn comes, or at the chain's end. */
  function Stop(e: Crypto, seen: seq<string>, blocks: seq<Block>, n: nat): (r: nat)
    requires n <= |blocks|
    ensures n <= r <= |blocks|
    decreases |blocks| - n
  {
    if n == |blocks| || e.headerHash(blocks[n].header) in seen then n
    else Stop(e, Marked(seen, e.headerHash(blocks[n].header)), blocks, n + 1)
  }

  ghost predicate WellFormed(blocks: seq<Block>) {
    forall i :: 0 <= i < |blocks| ==> blocks[i].Structured()
  }

  lemma {:induction false} PrefixValid(e: Crypto, f: nat, blocks: seq<Block>, n: nat)
    requires ValidChain(e, f, blocks) && 0 < n <= |blocks|
    ensures ValidChain(e, f, blocks[..n])
    ensures n < |blocks| ==> BlockCheck(e, f, Replay(e, blocks[..n]), blocks[n - 1], blocks[n]).None?
  {
    hide BlockCheck, Replay;
    if n < |blocks| {
      var before := blocks[..|blocks| - 1];
      PrefixValid(e, f, before, n);
      assert before[..n] == blocks[..n];
      if n == |before| { assert before[..n] == before; }
    } else {
      assert blocks[..n] == blocks;
    }
  }

  /** The next block of the peer's chain is taken in, unless its hash was seen. */
  lemma NextAccepted(e: Crypto, f: nat, l: Local, blocks: seq<Block>, n: nat)
    requires ValidChain(e, f, blocks) && WellFormed(blocks) && 0 < n < |blocks| && l.blocks == blocks[..n]
    ensures var hash := e.headerHash(blocks[n].header);
            Ingested(e, f, l, Wire(e, blocks[n]))
              == if hash in l.seen then l else Local(blocks[..n + 1], Marked(l.seen, hash))
  {
    hide BlockCheck, Replay, ValidChain, Marked;
    PrefixValid(e, f, blocks, n);
    assert blocks[..n][n - 1] == blocks[n - 1];
    assert blocks[..n] + [blocks[n]] == blocks[..n + 1];
  }

  /** A later block is rejected while an earlier one is missing. */
  lemma GapRejected(e: Crypto, f: nat, l: Local, blocks: seq<Block>, n: nat, i: nat)
    requires ValidChain(e, f, blocks) && 0 < n < i < |blocks| && l.blocks == blocks[..n]
    ensures Ingested(e, f, l, Wire(e, blocks[i])) == l
  {
    hide Replay, ValidChain, Marked, TxsError;
    HashChain.HeightsRise(e, f, blocks, n - 1, i);
    assert blocks[..n][n - 1] == blocks[n - 1];
  }

  /** One more block of the peer's chain, right after the ones before it. */
  lemma OneTaken(e: Crypto, f: nat, l: Local, blocks: seq<Block>, k: nat, stop: nat)
    requires ValidChain(e, f, blocks) && WellFormed(blocks) && k < |blocks| && stop <= |blocks|
    requires 0 < |l.blocks| && l.blocks == blocks[..if k < stop then k else stop]
    requires Stop(e, l.seen, blocks, |l.blocks|) == stop
    ensures var r := Ingested(e, f, l, Wire(e, blocks[k]));
            && r.blocks == blocks[..if k + 1 < stop then k + 1 else stop] && 0 < |r.blocks|
            && Stop(e, r.seen, blocks, |r.blocks|) == stop
  {
    hide ValidChain, Ingested, Wire, WellFormed, Marked;
    if k <= stop {
      NextAccepted(e, f, l, blocks, k);
    } else {
      GapRejected(e, f, l, blocks, stop, k);
    }
  }

  /** A batch of the peer's next blocks is taken in, in order, up to where catching up stops. */
  lemma {:induction false} BatchTaken(e: Crypto, f: nat, l: Local, blocks: seq<Block>, n: nat, m: nat)
    requires ValidChain(e, f, blocks) && WellFormed(blocks) && 0 < n <= m <= |blocks| && l.blocks == blocks[..n]
    ensures var r, stop := Received(e, f, l, OnWire(e, blocks[n..m])), Stop(e, l.seen, blocks, n);
            && r.blocks == blocks[..if m < stop then m else stop]
            && Stop(e, r.seen, blocks, |r.blocks|) == stop
    decreases m - n
  {
    hide ValidChain, Ingested, Wire, WellFormed, Stop;
    var batch := OnWire(e, blocks[n..m]);
    if n < m {
      BatchTaken(e, f, l, blocks, n, m - 1);
      assert batch[..|batch| - 1] == OnWire(e, blocks[n..m - 1]);
      OneTaken(e, f, Received(e, f, l, OnWire(e, blocks[n..m - 1])), blocks, m - 1, Stop(e, l.seen, blocks, n));
    }
  }

  /** The request after a handshake, and the answer to it, are exactly the next blocks, 50 at most. */
  lemma ServedIsNext(e: Crypto, blocks: seq<Block>, n: nat)
    requires 0 < n
    ensures Behind(n - 1, |blocks| - 1).Some? <==> n < |blocks|
    ensures n < |blocks| ==>
              var m := if |blocks| < n + MAX_BLOCKS_PER_REQUEST then |blocks| else n + MAX_BLOCKS_PER_REQUEST;
              Served(e, blocks, Behind(n - 1, |blocks| - 1).value) == OnWire(e, blocks[n..m])
  {}

  /** One exchange with a peer whose chain extends ours: our chain stays a prefix of theirs and grows by
      50 blocks, or to the end of theirs, or to the first missing block that was seen. */
  lemma ExchangeShrinksGap(e: Crypto, f: nat, l: Local, blocks: seq<Block>)
    requires ValidChain(e, f, blocks) && WellFormed(blocks) && l.blocks != [] && l.blocks < blocks
    ensures Behind(|l.blocks| - 1, |blocks| - 1).Some?
    ensures var r := Received(e, f, l, Served(e, blocks, Behind(|l.blocks| - 1, |blocks| - 1).value));
            var stop := Stop(e, l.seen, blocks, |l.blocks|);
            && r.blocks == blocks[..if |l.blocks| + MAX_BLOCKS_PER_REQUEST < stop then |l.blocks| + MAX_BLOCKS_PER_REQUEST
                                    else stop]
            && Stop(e, r.seen, blocks, |r.blocks|) == stop
  {
    hide Received, Served, ValidChain, OnWire, WellFormed, Behind, Stop;
    var n := |l.blocks|;
    var m := if |blocks| < n + MAX_BLOCKS_PER_REQUEST then |blocks| else n + MAX_BLOCKS_PER_REQUEST;
    ServedIsNext(e, blocks, n);
    BatchTaken(e, f, l, blocks, n, m);
  }

  lemma MarkedKeys(seen: seq<string>, key: string)
    ensures forall k :: k in Marked(seen, key) ==> k in seen || k == key
  {}

  /** Nothing stops it when the missing blocks' hashes are unseen and distinct. */
  lemma {:induction false} UnseenReachTheEnd(e: Crypto, seen: seq<string>, blocks: seq<Block>, n: nat)
    requires n <= |blocks| && forall i :: n <= i < |blocks| ==> e.headerHash(blocks[i].header) !in seen
    requires forall i, j :: n <= i < j < |blocks| ==> e.headerHash(blocks[i].header) != e.headerHash(blocks[j].header)
    ensures Stop(e, seen, blocks, n) == |blocks|
    decreases |blocks| - n
  {
    hide Marked;
    if n < |blocks| {
      MarkedKeys(seen, e.headerHash(blocks[n].header));
      UnseenReachTheEnd(e, Marked(seen, e.headerHash(blocks[n].header)), blocks, n + 1);
    }
  }

  /** The handshake and the exchanges that follow it, with a peer that stays as it is: they end, with our
      chain extended along the peer's to exactly where catching up stops, and with the peer's books when
      that is the end. */
  method CatchUp(us: Peer, them: Peer)
    requires us.Valid() && them.Valid() && WellFormed(them.chain.blocks)
    requires us != them && us.chain != them.chain && us.chain.state != them.chain.state && us.seen != them.seen
    requires us.chain.e == them.chain.e && us.chain.f == them.chain.f
    requires us.chain.blocks <= them.chain.blocks
    modifies us.chain, us.chain.state, us.seen
    ensures us.Valid()
    ensures var stop := Stop(us.chain.e, old(us.seen.order), them.chain.blocks, |old(us.chain.blocks)|);
            && us.chain.blocks == them.chain.blocks[..stop]
            && (stop == |them.chain.blocks| ==> us.chain.state.Books() == them.chain.state.Books())
  {
    hide ValidChain, Replay, Received, Served, BlockCheck, Stop, WellFormed;
    ghost var target := them.chain.blocks;
    ghost var stop := Stop(us.chain.e, us.seen.order, target, |us.chain.blocks|);
    var request := us.OnHandshake(|them.chain.blocks| - 1);
    while request.Some?
      invariant us.Valid() && them.Valid() && them.chain.blocks == target
      invariant us.chain.blocks <= target && Stop(us.chain.e, us.seen.order, target, |us.chain.blocks|) == stop
      invariant if request.Some? then request == Behind(|us.chain.blocks| - 1, |target| - 1) else |us.chain.blocks| == stop
      decreases |target| - |us.chain.blocks|, if request.Some? then 1 else 0
    {
      ExchangeShrinksGap(us.chain.e, us.chain.f, us.State(), target);
      var batch := them.OnGetBlocks(request.value);
      request := us.OnBlocks(|them.chain.blocks| - 1, batch);
    }
    assert target[..|target|] == target;
  }
}

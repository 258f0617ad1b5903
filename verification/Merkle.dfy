/** The Merkle tree over transaction ids. SHA-256 is a given function `h`. */
module Merkle {

  /** An odd level is padded with a copy of its last hash. */
  function Padded(level: seq<string>): (r: seq<string>)
    ensures |r| % 2 == 0 && |level| <= |r| <= |level| + 1
  {
    if |level| % 2 == 1 then level + [level[|level| - 1]] else level
  }

  /** The j-th adjacent pair, joined. */
  function Joint(level: seq<string>, j: nat): string
    requires 2 * j + 1 < |level|
  {
    level[2 * j] + level[2 * j + 1]
  }

  /** The next level up: the hashes of the adjacent pairs. */
  function Next(h: string -> string, level: seq<string>): (r: seq<string>)
    ensures |r| == (|level| + 1) / 2
  {
    var p := Padded(level);
    seq(|p| / 2, j requires 0 <= j < |p| / 2 => h(Joint(p, j)))
  }

  function Root(h: string -> string, level: seq<string>): string
    requires level != []
    decreases |level|
  {
    if |level| == 1 then level[0] else Root(h, Next(h, level))
  }

  function MerkleRoot(h: string -> string, ids: seq<string>): string {
    if ids == [] then h("") else Root(h, ids)
  }

  lemma JointIs(level: seq<string>, j: nat)
    requires 2 * j + 1 < |level|
    ensures Joint(level, j) == level[2 * j] + level[2 * j + 1]
  {}

  /** Pads a level and hashes its pairs. */
  method HashPairs(h: string -> string, level: seq<string>) returns (next: seq<string>)
    requires level != []
    ensures next == Next(h, level)
  {
    hide Joint;
    var above := level;
    if |above| % 2 == 1 {
      above := above + [above[|above| - 1]];
    }
    next := [];
    for i := 0 to |above| / 2
      invariant |next| == i && forall j :: 0 <= j < i ==> next[j] == h(Joint(above, j))
    {
      JointIs(above, i);
      next := next + [h(above[2 * i] + above[2 * i + 1])];
    }
  }

  /** Each round pads the level and halves it, until one hash is left. */
  method MerkleFromHashes(h: string -> string, hashes: seq<string>) returns (root: string)
    requires hashes != []
    ensures root == Root(h, hashes)
  {
    hide Next;
    var level := hashes;
    while |level| > 1
      invariant level != [] && Root(h, level) == Root(h, hashes)
      decreases |level|
    {
      level := HashPairs(h, level);
    }
    root := level[0];
  }

  // Inclusion proofs

  /** A sibling and its position; any position but "left" puts it on the right. */
  type Proof = seq<(string, string)>

  function Combined(current: string, step: (string, string)): string {
    if step.1 == "left" then step.0 + current else current + step.0
  }

  /** The hash that a proof leads to from a leaf. */
  function Climb(h: string -> string, leaf: string, proof: Proof): string
    decreases |proof|
  {
    if proof == [] then leaf else Climb(h, h(Combined(leaf, proof[0])), proof[1..])
  }

  method VerifyMerkleProof(h: string -> string, txId: string, proof: Proof, root: string) returns (ok: bool)
    ensures ok == (Climb(h, txId, proof) == root)
  {
    var current := txId;
    for i := 0 to |proof|
      invariant Climb(h, current, proof[i..]) == Climb(h, txId, proof)
    {
      var (sibling, position) := proof[i];
      var combined := if position == "left" then sibling + current else current + sibling;
      assert proof[i..][1..] == proof[i + 1..];
      current := h(combined);
    }
    ok := current == root;
  }

  /** The siblings on the way from the i-th leaf to the root. */
  function Path(h: string -> string, level: seq<string>, i: nat): Proof
    requires i < |level|
    decreases |level|
  {
    if |level| == 1 then [] else
    [Sibling(level, i)] + Path(h, Next(h, level), i / 2)
  }

  function Sibling(level: seq<string>, i: nat): (string, string)
    requires i < |level|
  {
    var p := Padded(level);
    if i % 2 == 0 then (p[i + 1], "right") else (p[i - 1], "left")
  }

  /** A leaf and its sibling make the pair that is hashed for the next level. */
  lemma SiblingJoins(level: seq<string>, i: nat)
    requires i < |level|
    ensures Combined(level[i], Sibling(level, i)) == Joint(Padded(level), i / 2)
  {}

  /** The number of levels above the leaves. */
  function Depth(leaves: nat): nat {
    if leaves <= 1 then 0 else 1 + Depth((leaves + 1) / 2)
  }

  function Pow2(n: nat): (r: nat)
    ensures r >= 1
  {
    if n == 0 then 1 else 2 * Pow2(n - 1)
  }

  /** Every leaf's sibling path is accepted, and its length is the number of leaves' binary
      logarithm, rounded up. */
  lemma {:induction false} InclusionComplete(h: string -> string, level: seq<string>, i: nat)
    requires i < |level|
    ensures Climb(h, level[i], Path(h, level, i)) == Root(h, level)
    ensures var d := |Path(h, level, i)|; d == Depth(|level|) && |level| <= Pow2(d) && (d > 0 ==> |level| > Pow2(d - 1))
    decreases |level|
  {
    if |level| > 1 {
      hide Joint, Combined, Padded, Sibling;
      var next, path := Next(h, level), Path(h, level, i);
      InclusionComplete(h, next, i / 2);
      SiblingJoins(level, i);
      assert next[i / 2] == h(Combined(level[i], path[0]));
      assert path[1..] == Path(h, next, i / 2);
    }
  }

  // Collision resistance, on the strings at hand

  /** No two of the given strings have one hash. */
  ghost predicate Injective<T(!new)>(h: T -> string, inputs: iset<T>) {
    forall a, b | a in inputs && b in inputs && h(a) == h(b) :: a == b
  }

  /** Digests, and the ids that are digests, have 64 characters. */
  ghost predicate Digests(h: string -> string) {
    forall s :: |h(s)| == 64
  }

  predicate Ids(level: seq<string>) {
    forall i :: 0 <= i < |level| ==> |level[i]| == 64
  }

  /** The strings hashed while the root is computed. */
  ghost function Hashed(h: string -> string, level: seq<string>): iset<string>
    decreases |level|
  {
    if level == [] then iset{""}
    else if |level| == 1 then iset{} else
    var p := Padded(level);
    (iset j: nat | j < |p| / 2 :: Joint(p, j)) + Hashed(h, Next(h, level))
  }

  /** The strings hashed while a proof is checked. */
  ghost function Climbed(h: string -> string, leaf: string, proof: Proof): iset<string>
    decreases |proof|
  {
    if proof == [] then iset{} else
    iset{Combined(leaf, proof[0])} + Climbed(h, h(Combined(leaf, proof[0])), proof[1..])
  }

  lemma SplitPair(a: string, b: string, c: string, d: string)
    requires |a| == |c| && a + b == c + d
    ensures a == c && b == d
  {
    assert (a + b)[..|a|] == a && (c + d)[..|c|] == c;
    assert (a + b)[|a|..] == b && (c + d)[|c|..] == d;
  }

  lemma PairHashed(h: string -> string, level: seq<string>, j: nat)
    requires |level| > 1 && j < |Next(h, level)|
    ensures Joint(Padded(level), j) in Hashed(h, level)
  {
    hide Joint;
  }

  lemma NextIds(h: string -> string, level: seq<string>)
    requires Digests(h)
    ensures Ids(Next(h, level))
  {
    hide Joint;
    assert forall j :: 0 <= j < |Next(h, level)| ==> Next(h, level)[j] == h(Joint(Padded(level), j));
  }

  /** Two lists of one length with the same root are the same list. */
  lemma {:induction false} RootInjective(h: string -> string, xs: seq<string>, ys: seq<string>)
    requires |xs| == |ys| && xs != [] && Ids(xs) && Ids(ys) && Digests(h)
    requires Injective(h, Hashed(h, xs) + Hashed(h, ys)) && Root(h, xs) == Root(h, ys)
    ensures xs == ys
    decreases |xs|
  {
    if |xs| > 1 {
      hide Joint, Ids, Padded;
      var x', y' := Next(h, xs), Next(h, ys);
      NextIds(h, xs);
      NextIds(h, ys);
      assert Hashed(h, x') + Hashed(h, y') <= Hashed(h, xs) + Hashed(h, ys);
      RootInjective(h, x', y');
      LevelInjective(h, xs, ys);
    }
  }

  lemma PairInjective(h: string -> string, xs: seq<string>, ys: seq<string>, j: nat)
    requires |xs| == |ys| > 1 && Ids(xs) && Ids(ys) && j < |Next(h, xs)|
    requires Injective(h, Hashed(h, xs) + Hashed(h, ys)) && Next(h, xs)[j] == Next(h, ys)[j]
    ensures Padded(xs)[2 * j] == Padded(ys)[2 * j] && Padded(xs)[2 * j + 1] == Padded(ys)[2 * j + 1]
  {
    hide Hashed, Joint;
    var p, q := Padded(xs), Padded(ys);
    PairHashed(h, xs, j);
    PairHashed(h, ys, j);
    assert Joint(p, j) == Joint(q, j);
    JointIs(p, j);
    JointIs(q, j);
    SplitPair(p[2 * j], p[2 * j + 1], q[2 * j], q[2 * j + 1]);
  }

  lemma LevelInjective(h: string -> string, xs: seq<string>, ys: seq<string>)
    requires |xs| == |ys| > 1 && Ids(xs) && Ids(ys)
    requires Injective(h, Hashed(h, xs) + Hashed(h, ys)) && Next(h, xs) == Next(h, ys)
    ensures xs == ys
  {
    hide Hashed, Next, Injective, Ids;
    forall k | 0 <= k < |xs| ensures xs[k] == ys[k] {
      PairInjective(h, xs, ys, k / 2);
    }
  }

  /** An accepted proof of the tree's depth, with digests for siblings, is of a leaf that is there. */
  lemma {:induction false} InclusionSound(h: string -> string, level: seq<string>, leaf: string, proof: Proof)
    requires level != [] && Ids(level) && |leaf| == 64 && Digests(h)
    requires forall i :: 0 <= i < |proof| ==> |proof[i].0| == 64
    requires |proof| == Depth(|level|) && Climb(h, leaf, proof) == Root(h, level)
    requires Injective(h, Hashed(h, level) + Climbed(h, leaf, proof))
    ensures leaf in level
    decreases |level|
  {
    if |level| > 1 {
      hide Joint, Padded, Ids, Combined;
      var joined, next := Combined(leaf, proof[0]), Next(h, level);
      NextIds(h, level);
      assert Hashed(h, next) + Climbed(h, h(joined), proof[1..]) <= Hashed(h, level) + Climbed(h, leaf, proof);
      InclusionSound(h, next, h(joined), proof[1..]);
      var j :| 0 <= j < |next| && next[j] == h(joined);
      PairHashed(h, level, j);
      assert Joint(Padded(level), j) == joined;
      LeafOfPair(level, leaf, proof[0], j);
    }
  }

  lemma LeafOfPair(level: seq<string>, leaf: string, step: (string, string), j: nat)
    requires Ids(level) && |leaf| == |step.0| == 64 && 2 * j + 1 < |Padded(level)|
    requires Joint(Padded(level), j) == Combined(leaf, step)
    ensures leaf in level
  {
    var p := Padded(level);
    if step.1 == "left" {
      SplitPair(p[2 * j], p[2 * j + 1], step.0, leaf);
    } else {
      SplitPair(p[2 * j], p[2 * j + 1], leaf, step.0);
    }
  }

  // What the root says about lists of any length

  /** No leaf is the digest of a string hashed in the trees: leaves are hashes of something else. */
  ghost predicate LeavesApart(h: string -> string, leaves: seq<string>, inputs: iset<string>) {
    forall l, t | l in leaves && t in inputs :: h(t) != l
  }

  /** The hash never collides on what the two trees are made of. */
  ghost predicate NoCollision(h: string -> string, xs: seq<string>, ys: seq<string>) {
    var inputs := Hashed(h, xs) + Hashed(h, ys);
    Digests(h) && Ids(xs) && Ids(ys) && Injective(h, inputs) && LeavesApart(h, xs, inputs) && LeavesApart(h, ys, inputs)
  }

  /** The first hash j levels above the leaves. */
  ghost function FirstAt(h: string -> string, level: seq<string>, j: nat): string
    requires level != [] && j <= Depth(|level|)
    decreases j
  {
    if j == 0 then level[0] else FirstAt(h, Next(h, level), j - 1)
  }

  lemma {:induction false} FirstTop(h: string -> string, level: seq<string>)
    requires level != []
    ensures FirstAt(h, level, Depth(|level|)) == Root(h, level)
    decreases |level|
  {
    if |level| > 1 {
      hide Next;
      FirstTop(h, Next(h, level));
    }
  }

  lemma {:induction false} FirstStep(h: string -> string, level: seq<string>, j: nat) returns (other: string)
    requires level != [] && j < Depth(|level|) && Ids(level) && Digests(h)
    ensures FirstAt(h, level, j + 1) == h(FirstAt(h, level, j) + other)
    ensures FirstAt(h, level, j) + other in Hashed(h, level) && |FirstAt(h, level, j)| == 64
    decreases j
  {
    hide Joint, Ids, Padded;
    if j == 0 {
      other := FirstPair(h, level);
      assert FirstAt(h, level, 1) == FirstAt(h, Next(h, level), 0);
    } else {
      NextIds(h, level);
      other := FirstStep(h, Next(h, level), j - 1);
    }
  }

  lemma FirstPair(h: string -> string, level: seq<string>) returns (other: string)
    requires |level| > 1 && Ids(level)
    ensures Next(h, level)[0] == h(level[0] + other) && level[0] + other in Hashed(h, level) && |level[0]| == 64
  {
    hide Hashed;
    var p := Padded(level);
    other := p[1];
    PairHashed(h, level, 0);
    JointIs(p, 0);
  }

  /** Below equal roots the first hashes agree level by level, counted from the top. */
  lemma {:induction false} FirstsAgree(h: string -> string, xs: seq<string>, ys: seq<string>, k: nat)
    requires xs != [] && ys != [] && Ids(xs) && Ids(ys) && Digests(h)
    requires Injective(h, Hashed(h, xs) + Hashed(h, ys)) && Root(h, xs) == Root(h, ys)
    requires k <= Depth(|xs|) && k <= Depth(|ys|)
    ensures FirstAt(h, xs, Depth(|xs|) - k) == FirstAt(h, ys, Depth(|ys|) - k)
  {
    hide Hashed, FirstAt, Ids, Digests, Depth;
    if k == 0 {
      FirstTop(h, xs);
      FirstTop(h, ys);
    } else {
      var i, j := Depth(|xs|) - k, Depth(|ys|) - k;
      FirstsAgree(h, xs, ys, k - 1);
      var a := FirstStep(h, xs, i);
      var b := FirstStep(h, ys, j);
      SplitPair(FirstAt(h, xs, i), a, FirstAt(h, ys, j), b);
    }
  }

  lemma NotDeeper(h: string -> string, xs: seq<string>, ys: seq<string>)
    requires xs != [] && ys != [] && NoCollision(h, xs, ys) && Root(h, xs) == Root(h, ys)
    ensures Depth(|ys|) <= Depth(|xs|)
  {
    hide Hashed, Ids, Digests, Depth, Root;
    var d, e := Depth(|xs|), Depth(|ys|);
    if d < e {
      assert FirstAt(h, xs, 0) == xs[0] && xs[0] in xs;
      FirstsAgree(h, xs, ys, d);
      var other := FirstStep(h, ys, e - d - 1);
    }
  }

  /** Under equal roots trees of one depth have the same leaves. */
  lemma {:induction false} LeavesBelow(h: string -> string, xs: seq<string>, ys: seq<string>, leaf: string)
    requires xs != [] && ys != [] && Ids(xs) && Ids(ys) && Digests(h) && Depth(|xs|) == Depth(|ys|)
    requires Injective(h, Hashed(h, xs) + Hashed(h, ys)) && Root(h, xs) == Root(h, ys) && leaf in xs
    ensures leaf in ys
    decreases |xs|
  {
    if |xs| > 1 {
      hide Joint, Ids, Padded;
      var i :| 0 <= i < |xs| && xs[i] == leaf;
      var x', y' := Next(h, xs), Next(h, ys);
      NextIds(h, xs);
      NextIds(h, ys);
      assert Hashed(h, x') + Hashed(h, y') <= Hashed(h, xs) + Hashed(h, ys);
      LeavesBelow(h, x', y', x'[i / 2]);
      var j :| 0 <= j < |y'| && y'[j] == x'[i / 2];
      PairHashed(h, xs, i / 2);
      PairHashed(h, ys, j);
      LeafShared(xs, ys, i, j);
    }
  }

  lemma LeafShared(xs: seq<string>, ys: seq<string>, i: nat, j: nat)
    requires i < |xs| && 2 * j + 1 < |Padded(ys)| && Ids(xs) && Ids(ys) && |xs| > 1
    requires Joint(Padded(xs), i / 2) == Joint(Padded(ys), j)
    ensures xs[i] in ys
  {
    var p, q, k := Padded(xs), Padded(ys), i / 2;
    SplitPair(p[2 * k], p[2 * k + 1], q[2 * j], q[2 * j + 1]);
    assert q[2 * j] in ys && q[2 * j + 1] in ys;
  }

  /** Two lists under one root have the same members, whatever their lengths. */
  lemma RootsShareLeaves(h: string -> string, xs: seq<string>, ys: seq<string>, leaf: string)
    requires xs != [] && ys != [] && NoCollision(h, xs, ys) && Root(h, xs) == Root(h, ys)
    ensures leaf in xs <==> leaf in ys
  {
    hide Hashed, Ids, Digests, Depth, Root, Injective, LeavesApart;
    assert Hashed(h, xs) + Hashed(h, ys) == Hashed(h, ys) + Hashed(h, xs);
    NotDeeper(h, xs, ys);
    NotDeeper(h, ys, xs);
    if leaf in xs { LeavesBelow(h, xs, ys, leaf); }
    if leaf in ys { LeavesBelow(h, ys, xs, leaf); }
  }
}

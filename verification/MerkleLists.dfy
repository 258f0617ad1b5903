/** Which lists of ids have one Merkle root: those that repeating their ends fills up to the same list. */
module MerkleLists {
  import opened Merkle

  // Repeating the end of a list

  /** The largest power of two that divides a positive number. */
  function Low(n: nat): (r: nat)
    requires n > 0
    ensures 1 <= r <= n
  {
    if n % 2 == 1 then 1 else 2 * Low(n / 2)
  }

  ghost predicate PowerOfTwo(n: nat) {
    exists k: nat :: n == Pow2(k)
  }

  /** A list with its last Low(n) elements once more. */
  function Repeated(level: seq<string>): seq<string>
    requires level != []
  {
    level + level[|level| - Low(|level|)..]
  }

  lemma Halves(m: nat)
    requires m > 0
    ensures Depth(2 * m) == 1 + Depth(m) && Pow2(1 + Depth(m)) == 2 * Pow2(Depth(m)) && Low(2 * m) == 2 * Low(m)
    ensures Low(2 * m - 1) == 1 && (m > 1 ==> Depth(2 * m - 1) == 1 + Depth(m))
  {
    assert (2 * m + 1) / 2 == m && 2 * m / 2 == m && (2 * m - 1) % 2 == 1;
  }

  /** Repeating adds no depth, and is possible below a power of two only. */
  lemma {:induction false} LowOfPower(n: nat)
    requires n > 0
    ensures Low(n) == n <==> n == Pow2(Depth(n))
    ensures n <= Pow2(Depth(n))
    ensures Low(n) < n ==> n + Low(n) <= Pow2(Depth(n)) && Depth(n + Low(n)) == Depth(n)
    decreases n
  {
    if n > 1 {
      hide Low, Depth, Pow2;
      var m := (n + 1) / 2;
      LowOfPower(m);
      Halves(m);
      if n == 2 * m {
        Halves(m + Low(m));
      }
    }
  }

  lemma {:induction false} DepthOfPower(k: nat)
    ensures Depth(Pow2(k)) == k
  {
    if k > 0 {
      DepthOfPower(k - 1);
    }
  }

  lemma {:induction false} LowIsPower(n: nat)
    requires n > 0
    ensures PowerOfTwo(Low(n))
  {
    if n % 2 == 1 {
      assert Pow2(0) == 1;
    } else {
      LowIsPower(n / 2);
      var k: nat :| Low(n / 2) == Pow2(k);
      assert Pow2(k + 1) == Low(n);
    }
  }

  /** The powers of two are the numbers that are their own Low. */
  lemma PowerExactly(n: nat)
    requires n > 0
    ensures PowerOfTwo(n) <==> Low(n) == n
  {
    LowOfPower(n);
    if PowerOfTwo(n) {
      var k: nat :| n == Pow2(k);
      DepthOfPower(k);
    }
  }

  lemma RepeatedPair(level: seq<string>, j: nat)
    requires level != [] && |level| % 2 == 0 && j < |Repeated(level)| / 2
    ensures var n := |level| / 2; var k := if j < n then j else j - Low(n);
            2 * k + 1 < |level| && 2 * j + 1 < |Repeated(level)| && Joint(Repeated(level), j) == Joint(level, k)
  {}

  lemma PairsNext(h: string -> string, level: seq<string>)
    requires |level| % 2 == 0
    ensures Padded(level) == level
    ensures forall j :: 0 <= j < |level| / 2 ==> Next(h, level)[j] == h(Joint(level, j))
  {
    hide Joint;
  }

  /** What repeating the end of a list does to the next level: nothing, or the same there. */
  lemma RepeatedNext(h: string -> string, level: seq<string>)
    requires level != [] && |level| % 2 == 0
    ensures |Repeated(level)| % 2 == 0 && Next(h, Repeated(level)) == Repeated(Next(h, level))
  {
    hide Joint, Next, Padded;
    var r, n := Repeated(level), |level| / 2;
    PairsNext(h, level);
    PairsNext(h, r);
    forall j | 0 <= j < |r| / 2 ensures Next(h, r)[j] == Repeated(Next(h, level))[j] {
      RepeatedPair(level, j);
    }
  }

  lemma RepeatedPads(h: string -> string, level: seq<string>)
    requires level != [] && |level| % 2 == 1
    ensures Repeated(level) == Padded(level) && Padded(Repeated(level)) == Repeated(level)
    ensures Next(h, Repeated(level)) == Next(h, level)
  {
    hide Joint;
  }

  /** The strings hashed for the level above an even one. */
  ghost function Joints(level: seq<string>): iset<string> {
    iset j: nat | 2 * j + 1 < |level| :: Joint(level, j)
  }

  lemma HashedHere(h: string -> string, level: seq<string>)
    requires |level| > 1
    ensures Hashed(h, level) == Joints(Padded(level)) + Hashed(h, Next(h, level))
  {
    hide Joint, Next;
    assert (iset j: nat | j < |Padded(level)| / 2 :: Joint(Padded(level), j)) == Joints(Padded(level));
  }

  lemma RepeatedJoints(level: seq<string>)
    requires level != [] && |level| % 2 == 0
    ensures Joints(Repeated(level)) == Joints(level)
  {
    hide Joint;
    var r, n := Repeated(level), |level| / 2;
    forall t | t in Joints(r) ensures t in Joints(level) {
      var j: nat :| 2 * j + 1 < |r| && Joint(r, j) == t;
      RepeatedPair(level, j);
    }
    forall t | t in Joints(level) ensures t in Joints(r) {
      var j: nat :| 2 * j + 1 < |level| && Joint(level, j) == t;
      RepeatedPair(level, j);
    }
  }

  lemma SameHashed(h: string -> string, xs: seq<string>, ys: seq<string>)
    requires |xs| > 1 && |xs| % 2 == 0 && |ys| > 1 && |ys| % 2 == 0 && Joints(xs) == Joints(ys)
    requires Hashed(h, Next(h, xs)) == Hashed(h, Next(h, ys))
    ensures Hashed(h, xs) == Hashed(h, ys)
  {
    hide Hashed, Next, Joints;
    HashedHere(h, xs);
    HashedHere(h, ys);
    assert Padded(xs) == xs && Padded(ys) == ys;
  }

  /** Whatever the hash, a list and the one with its end repeated share their root, and hash the same
      strings on the way: block bodies of different lengths can share a header. */
  lemma {:induction false} RepeatedCollides(h: string -> string, level: seq<string>)
    requires level != [] && !PowerOfTwo(|level|)
    ensures Repeated(level) != level && Root(h, Repeated(level)) == Root(h, level)
    ensures Hashed(h, Repeated(level)) == Hashed(h, level)
    decreases |level|
  {
    hide Joint, Joints, Next, Padded, Hashed;
    PowerExactly(|level|);
    assert |Repeated(level)| > |level|;
    if |level| % 2 == 1 {
      RepeatedPads(h, level);
      HashedPads(h, level);
    } else {
      var next := Next(h, level);
      PowerExactly(|next|);
      RepeatedNext(h, level);
      RepeatedCollides(h, next);
      RepeatedJoints(level);
      SameHashed(h, Repeated(level), level);
    }
  }

  lemma HashedPads(h: string -> string, level: seq<string>)
    requires |level| % 2 == 1 && |level| > 1
    ensures Hashed(h, Repeated(level)) == Hashed(h, level)
  {
    hide Joint;
    RepeatedPads(h, level);
  }

  // Filling up

  /** A list with its end repeated until its length is a power of two. */
  function Filled(level: seq<string>): seq<string>
    decreases Pow2(Depth(|level|)) - |level|
  {
    if level == [] || Low(|level|) == |level| then level else
    LowOfPower(|level|);
    Filled(Repeated(level))
  }

  /** Filling up changes neither the root, nor the strings hashed, nor the members. */
  lemma {:induction false} FilledSame(h: string -> string, level: seq<string>)
    requires level != []
    ensures |Filled(level)| == Pow2(Depth(|level|)) && level <= Filled(level)
    ensures Root(h, Filled(level)) == Root(h, level) && Hashed(h, Filled(level)) == Hashed(h, level)
    ensures forall leaf :: leaf in Filled(level) ==> leaf in level
    ensures Ids(level) ==> Ids(Filled(level))
    decreases Pow2(Depth(|level|)) - |level|
  {
    hide Root, Hashed, Pow2, Depth;
    LowOfPower(|level|);
    if Low(|level|) < |level| {
      PowerExactly(|level|);
      RepeatedCollides(h, level);
      FilledSame(h, Repeated(level));
      assert forall leaf :: leaf in Repeated(level) ==> leaf in level;
    }
  }

  /** The root of several ids is the hash of a joint. */
  lemma RootIsHash(h: string -> string, level: seq<string>) returns (t: string)
    requires |level| > 1 && Ids(level) && Digests(h)
    ensures t in Hashed(h, level) && t != "" && Root(h, level) == h(t)
  {
    hide Hashed, Ids, Digests;
    var top := Depth(|level|) - 1;
    FirstTop(h, level);
    var other := FirstStep(h, level, top);
    t := FirstAt(h, level, top) + other;
    assert |t| >= 64;
  }

  lemma EmptyApart(h: string -> string, ys: seq<string>)
    requires NoCollision(h, [], ys) && MerkleRoot(h, ys) == MerkleRoot(h, [])
    ensures ys == []
  {
    assert "" in Hashed(h, []) && (ys != [] ==> ys[0] in ys);
    if |ys| > 1 {
      var t := RootIsHash(h, ys);
    }
  }

  lemma Symmetric(h: string -> string, xs: seq<string>, ys: seq<string>)
    requires NoCollision(h, xs, ys)
    ensures NoCollision(h, ys, xs)
  {
    hide Hashed, Ids, Digests, Injective, LeavesApart;
    assert Hashed(h, xs) + Hashed(h, ys) == Hashed(h, ys) + Hashed(h, xs);
  }

  /** Which lists have one root: exactly those that fill up to the same list. */
  lemma RootsEqualExactly(h: string -> string, xs: seq<string>, ys: seq<string>)
    requires NoCollision(h, xs, ys)
    ensures MerkleRoot(h, xs) == MerkleRoot(h, ys) <==> Filled(xs) == Filled(ys)
  {
    hide Hashed, Ids, Digests, Injective, LeavesApart, NoCollision, Filled, Root, Depth;
    Symmetric(h, xs, ys);
    if xs != [] && ys != [] {
      FilledRoots(h, xs, ys);
    } else {
      OneEmpty(h, xs, ys);
    }
  }

  lemma FilledRoots(h: string -> string, xs: seq<string>, ys: seq<string>)
    requires xs != [] && ys != [] && NoCollision(h, xs, ys) && NoCollision(h, ys, xs)
    ensures Root(h, xs) == Root(h, ys) <==> Filled(xs) == Filled(ys)
  {
    hide Hashed, Ids, Digests, Injective, LeavesApart, Filled, Root, Depth;
    FilledSame(h, xs);
    FilledSame(h, ys);
    if Root(h, xs) == Root(h, ys) {
      NotDeeper(h, xs, ys);
      NotDeeper(h, ys, xs);
      RootInjective(h, Filled(xs), Filled(ys));
    }
  }

  lemma OneEmpty(h: string -> string, xs: seq<string>, ys: seq<string>)
    requires (xs == [] || ys == []) && NoCollision(h, xs, ys) && NoCollision(h, ys, xs)
    ensures MerkleRoot(h, xs) == MerkleRoot(h, ys) <==> Filled(xs) == Filled(ys)
  {
    hide NoCollision, Root, Depth;
    if MerkleRoot(h, xs) == MerkleRoot(h, ys) {
      if xs == [] { EmptyApart(h, ys); } else { EmptyApart(h, xs); }
    } else if Filled(xs) == Filled(ys) {
      if xs != [] { FilledSame(h, xs); }
      if ys != [] { FilledSame(h, ys); }
    }
  }

  // Lists that are equal under one root

  ghost predicate Duplicateless(level: seq<string>) {
    forall i, j :: 0 <= i < j < |level| ==> level[i] != level[j]
  }

  lemma FilledStarts(level: seq<string>)
    ensures level <= Filled(level) && forall leaf :: leaf in Filled(level) ==> leaf in level
  {
    if level != [] {
      FilledSame(s => s, level);
    }
  }

  /** Under one root, lists of one length are equal, and so is a list to a longer one that lists no id twice. */
  lemma EqualUnderRoot(h: string -> string, xs: seq<string>, ys: seq<string>)
    requires NoCollision(h, xs, ys) && MerkleRoot(h, xs) == MerkleRoot(h, ys)
    requires |xs| == |ys| || (|xs| < |ys| && Duplicateless(ys)) || (|ys| < |xs| && Duplicateless(xs))
    ensures xs == ys
  {
    hide NoCollision, MerkleRoot, Filled;
    RootsEqualExactly(h, xs, ys);
    FilledStarts(xs);
    FilledStarts(ys);
    if |xs| < |ys| {
      NoLonger(xs, ys);
    } else if |ys| < |xs| {
      NoLonger(ys, xs);
    }
  }

  lemma NoLonger(xs: seq<string>, ys: seq<string>)
    requires |xs| < |ys| && xs <= ys && (forall leaf :: leaf in ys ==> leaf in xs)
    ensures !Duplicateless(ys)
  {
    assert ys[|xs|] in xs;
  }

  /** No part of the list that ends it, and has a power of two for its length, stands twice there. */
  ghost predicate EndsOnce(level: seq<string>) {
    forall m: nat | PowerOfTwo(m) && 2 * m < |level| ::
      level[|level| - m..] != level[|level| - 2 * m..|level| - m]
  }

  /** Filling up ends in a repetition. */
  lemma {:induction false} FilledEndsTwice(level: seq<string>)
    requires level != [] && Filled(level) != level
    ensures !EndsOnce(Filled(level))
    decreases Pow2(Depth(|level|)) - |level|
  {
    hide Pow2, Depth;
    LowOfPower(|level|);
    var r := Repeated(level);
    if Filled(r) == r {
      var m := Low(|level|);
      LowIsPower(|level|);
      assert r[|r| - m..] == r[|r| - 2 * m..|r| - m];
    } else {
      FilledEndsTwice(r);
    }
  }

  lemma {:induction false} LowBelow(k: nat, j: nat)
    requires j + 1 < k
    ensures Pow2(j) < Pow2(k) - Pow2(j) && Low(Pow2(k) - Pow2(j)) == Pow2(j)
  {
    if j > 0 {
      LowBelow(k - 1, j - 1);
    } else {
      assert Pow2(k) == 2 * Pow2(k - 1) && Pow2(k - 1) == 2 * Pow2(k - 2);
    }
  }

  lemma {:induction false} PowerRises(k: nat, j: nat)
    ensures 2 * Pow2(j) < Pow2(k) ==> j + 1 < k
    decreases k + j
  {
    if k > 0 && j > 0 {
      PowerRises(k - 1, j - 1);
    }
  }

  /** A list whose end stands twice is a shorter one with its end repeated. */
  lemma Shorter(level: seq<string>, m: nat)
    requires PowerOfTwo(|level|) && PowerOfTwo(m) && 2 * m < |level|
    requires level[|level| - m..] == level[|level| - 2 * m..|level| - m]
    ensures var s := level[..|level| - m];
            s != [] && !PowerOfTwo(|s|) && Repeated(s) == level
  {
    var k: nat :| |level| == Pow2(k);
    var j: nat :| m == Pow2(j);
    PowerRises(k, j);
    LowBelow(k, j);
    PowerExactly(|level| - m);
  }

  /** When the root determines the whole list: exactly when its length is a power of two and its end
      is not repeated. */
  lemma DeterminedExactly(h: string -> string, xs: seq<string>)
    requires xs != [] && NoCollision(h, xs, xs)
    ensures (forall ys | NoCollision(h, xs, ys) && MerkleRoot(h, ys) == MerkleRoot(h, xs) :: ys == xs)
            <==> PowerOfTwo(|xs|) && EndsOnce(xs)
  {
    hide Filled, MerkleRoot, NoCollision;
    if PowerOfTwo(|xs|) && EndsOnce(xs) {
      forall ys | NoCollision(h, xs, ys) && MerkleRoot(h, ys) == MerkleRoot(h, xs) ensures ys == xs {
        RootsEqualExactly(h, xs, ys);
        OnlyItself(xs, ys);
      }
    } else {
      var ys := Other(h, xs);
    }
  }

  lemma OnlyItself(xs: seq<string>, ys: seq<string>)
    requires xs != [] && PowerOfTwo(|xs|) && EndsOnce(xs) && Filled(xs) == Filled(ys)
    ensures ys == xs
  {
    PowerExactly(|xs|);
    if ys != [] && Filled(ys) != ys {
      FilledEndsTwice(ys);
    }
  }

  lemma StillApart(h: string -> string, xs: seq<string>, ys: seq<string>)
    requires NoCollision(h, xs, xs) && Hashed(h, ys) == Hashed(h, xs) && forall leaf :: leaf in ys ==> leaf in xs
    ensures NoCollision(h, xs, ys)
  {
    hide Hashed, Digests, Injective;
    assert Hashed(h, xs) + Hashed(h, ys) == Hashed(h, xs) + Hashed(h, xs);
    assert forall i :: 0 <= i < |ys| ==> ys[i] in xs;
  }

  lemma Other(h: string -> string, xs: seq<string>) returns (ys: seq<string>)
    requires xs != [] && NoCollision(h, xs, xs) && !(PowerOfTwo(|xs|) && EndsOnce(xs))
    ensures ys != xs && NoCollision(h, xs, ys) && MerkleRoot(h, ys) == MerkleRoot(h, xs)
  {
    hide PowerOfTwo, Hashed, NoCollision, Root;
    if !PowerOfTwo(|xs|) {
      RepeatedCollides(h, xs);
      ys := Repeated(xs);
    } else {
      var m: nat :| PowerOfTwo(m) && 2 * m < |xs| && xs[|xs| - m..] == xs[|xs| - 2 * m..|xs| - m];
      ys := xs[..|xs| - m];
      Shorter(xs, m);
      RepeatedCollides(h, ys);
    }
    StillApart(h, xs, ys);
  }

  /** For a list that names no id twice, exactly when its length is a power of two. */
  lemma DuplicatelessDeterminedExactly(h: string -> string, xs: seq<string>)
    requires xs != [] && NoCollision(h, xs, xs) && Duplicateless(xs)
    ensures (forall ys | NoCollision(h, xs, ys) && MerkleRoot(h, ys) == MerkleRoot(h, xs) :: ys == xs)
            <==> PowerOfTwo(|xs|)
  {
    DeterminedExactly(h, xs);
    forall m: nat | PowerOfTwo(m) && 2 * m < |xs| ensures xs[|xs| - m..] != xs[|xs| - 2 * m..|xs| - m] {
      var k: nat :| m == Pow2(k);
      assert xs[|xs| - m..][0] == xs[|xs| - m] && xs[|xs| - 2 * m..|xs| - m][0] == xs[|xs| - 2 * m];
    }
  }

  // Ids of any length

  /** When two equally long lists of any strings have one root: exactly when they join up to the same
      strings, pair by pair. Ids of one length are then equal; others can be cut differently. */
  lemma JointsExactly(h: string -> string, xs: seq<string>, ys: seq<string>)
    requires |xs| == |ys| > 1 && Digests(h) && Injective(h, Hashed(h, xs) + Hashed(h, ys))
    ensures Root(h, xs) == Root(h, ys) <==>
              forall j :: 0 <= 2 * j < |xs| ==> Joint(Padded(xs), j) == Joint(Padded(ys), j)
  {
    hide Joint, Padded, Digests, Injective, Hashed;
    var x', y' := Next(h, xs), Next(h, ys);
    if Root(h, xs) == Root(h, ys) {
      NextIds(h, xs);
      NextIds(h, ys);
      JointsInjective(h, xs, ys);
      assert forall j :: 0 <= 2 * j < |xs| ==> x'[j] == h(Joint(Padded(xs), j));
    } else {
      assert x' != y';
      var j :| 0 <= j < |x'| && x'[j] != y'[j];
      assert x'[j] == h(Joint(Padded(xs), j)) && y'[j] == h(Joint(Padded(ys), j));
    }
  }

  lemma JointsInjective(h: string -> string, xs: seq<string>, ys: seq<string>)
    requires |xs| == |ys| > 1 && Digests(h) && Injective(h, Hashed(h, xs) + Hashed(h, ys))
    requires Root(h, xs) == Root(h, ys)
    ensures forall j :: 0 <= 2 * j < |xs| ==> Joint(Padded(xs), j) == Joint(Padded(ys), j)
  {
    hide Joint, Padded, Ids, Hashed;
    var x', y' := Next(h, xs), Next(h, ys);
    NextIds(h, xs);
    NextIds(h, ys);
    HashedHere(h, xs);
    HashedHere(h, ys);
    RootInjective(h, x', y');
    forall j | 0 <= 2 * j < |xs| ensures Joint(Padded(xs), j) == Joint(Padded(ys), j) {
      PairHashed(h, xs, j);
      PairHashed(h, ys, j);
      assert x'[j] == h(Joint(Padded(xs), j)) && y'[j] == h(Joint(Padded(ys), j));
    }
  }

  /** Whatever the hash, two ids that are not of one length can be cut differently under one root. */
  lemma UnevenIdsCollide(h: string -> string, a: string, b: string, c: string)
    requires b != ""
    ensures [a + b, c] != [a, b + c] && Root(h, [a + b, c]) == Root(h, [a, b + c])
  {
    var xs, ys := [a + b, c], [a, b + c];
    assert |xs[0]| > |ys[0]|;
    assert (a + b) + c == a + (b + c);
    assert Padded(xs) == xs && Padded(ys) == ys;
    assert Next(h, xs)[0] == h(Joint(xs, 0)) && Next(h, ys)[0] == h(Joint(ys, 0));
    assert Next(h, xs) == Next(h, ys);
  }
}

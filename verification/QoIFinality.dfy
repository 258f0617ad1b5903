/** Why n must not exceed 4f+1 for outcomes to last: with more nodes, a node that decided can be
    made to decide again, for another class, after a NEW_VIEW. */
module QoIFinality {
  import opened Collections
  import opened Quality
  import opened QoIProtocol
  import opened QoIRounds
  import opened QoINetwork
  import opened QoIFaultless
  import opened QoIDisagreement

  // Counting two classes at one node

  /** The stored PREPAREs are `ones` votes for class 1, the first stored among them, and `zeros`
      votes for class 0. */
  ghost predicate Tally(prepares: Dict<NodeId, PrepareMsg>, voters: set<NodeId>, ones: nat, zeros: nat) {
    && Distinct(prepares) && Keys(prepares) == voters
    && multiset(Classes(prepares))[1] == ones && multiset(Classes(prepares))[0] == zeros
    && |prepares| == ones + zeros && prepares != [] && prepares[0].1.response.cls == 1
  }

  /** A node that collects PREPAREs, no class having its quorum yet. */
  ghost predicate Divided(n: Node, i: NodeId, f: nat, voters: set<NodeId>, ones: nat, zeros: nat) {
    && n.id == i && n.f == f >= 1 && n.view == 0 && n.seqNo == 0 && n.requestId == ""
    && n.phase in {PRE_PREPARE, QoIProtocol.PREPARE}
    && Tally(n.prepares, voters, ones, zeros) && ones < n.Threshold() && zeros < n.Threshold()
    && n.commits == [] && n.consensusClass == None && n.outcome == None && Uniform(n, 2)
  }

  lemma OneVoter(n: Node, f: nat, i: NodeId)
    requires Gathering(n, 1, {i}) && Uniform(n, 2)
    requires n.id == i && n.f == f && n.view == 0 && n.seqNo == 0 && n.requestId == ""
    ensures Divided(n, i, f, {i}, 1, 0)
  {
    KeyCount(n.prepares);
    assert Classes(n.prepares) == [1];
  }

  lemma TallyPut(prepares: Dict<NodeId, PrepareMsg>, voters: set<NodeId>, ones: nat, zeros: nat, m: PrepareMsg)
    requires Tally(prepares, voters, ones, zeros) && m.sender !in voters && m.response.cls in {0, 1}
    ensures var x := m.response.cls;
            Tally(Put(prepares, m.sender, m), voters + {m.sender}, ones + x, zeros + 1 - x)
    ensures !Has(prepares, m.sender)
  {
    PutAll(prepares, m.sender, m);
    assert Classes(prepares + [(m.sender, m)]) == Classes(prepares) + [m.response.cls];
  }

  /** Only the class whose votes reach the threshold can win. */
  lemma OneWins(prepares: Dict<NodeId, PrepareMsg>, voters: set<NodeId>, ones: nat, zeros: nat, threshold: nat)
    requires Tally(prepares, voters, ones, zeros) && threshold >= 1
    ensures ConsensusClass(prepares, threshold)
              == if ones >= threshold then Some(1) else if zeros >= threshold then Some(0) else None
  {
    var classes := Classes(prepares);
    assert classes[0] == 1;
    OnlyTwo(classes);
    if ones >= threshold {
      FirstListedWins(classes, multiset(classes), threshold);
    } else if zeros >= threshold {
      assert 0 in multiset(classes);
    }
  }

  lemma {:induction false} OnlyTwo(classes: seq<int>)
    requires multiset(classes)[1] + multiset(classes)[0] == |classes|
    ensures forall x | x in classes :: x in {0, 1}
  {
    forall x | x in classes ensures x in {0, 1} {
      if x !in {0, 1} {
        ThreeCounts(classes, x);
      }
    }
  }

  lemma {:induction false} ThreeCounts(s: seq<int>, x: int)
    requires x !in {0, 1}
    ensures multiset(s)[1] + multiset(s)[0] + multiset(s)[x] <= |s|
  {
    if s != [] {
      assert s == s[..|s| - 1] + [s[|s| - 1]];
      ThreeCounts(s[..|s| - 1], x);
    }
  }

  /** The class that is listed first wins as soon as it has the votes. */
  lemma {:induction false} FirstListedWins(classes: seq<int>, votes: multiset<int>, threshold: nat)
    requires classes != [] && votes[classes[0]] >= threshold
    ensures FirstWinner(classes, votes, threshold) == Some(classes[0])
  {
    if |classes| > 1 {
      FirstListedWins(classes[..|classes| - 1], votes, threshold);
    }
  }

  /** One more PREPARE: the node either stays divided or settles. */
  lemma OneMoreVote(n: Node, i: NodeId, f: nat, voters: set<NodeId>, ones: nat, zeros: nat, x: int, j: NodeId)
    requires Divided(n, i, f, voters, ones, zeros) && x in {0, 1} && j !in voters
    ensures var e := Handle(n, PrepareBy(x, j));
            if ones + x < n.Threshold() && zeros + 1 - x < n.Threshold()
            then Divided(e.node, i, f, voters + {j}, ones + x, zeros + 1 - x)
            else Settled(e.node, i, f, voters + {j}, ones + x, zeros + 1 - x, x)
  {
    hide ConsensusClass, Put, Has, Tally;
    var m := PrepareBy(x, j).p;
    TallyPut(n.prepares, voters, ones, zeros, m);
    var prepares := Put(n.prepares, j, m);
    OneWins(prepares, voters + {j}, ones + x, zeros + 1 - x, n.Threshold());
    TallySize(prepares, voters + {j}, ones + x, zeros + 1 - x);
    VectorClass(x);
    UniformPut(n.responses, j, m.response);
    PutAll<CommitMsg>([], i, CommitMsg(0, 0, i, "", x, ""));
  }

  lemma TallySize(prepares: Dict<NodeId, PrepareMsg>, voters: set<NodeId>, ones: nat, zeros: nat)
    requires Tally(prepares, voters, ones, zeros)
    ensures |prepares| == ones + zeros
  {}

  lemma UniformPut(responses: Dict<NodeId, Response>, j: NodeId, r: Response)
    requires responses != [] && |r.probs| == 2 && forall k :: 0 <= k < |responses| ==> |responses[k].1.probs| == 2
    ensures var d := Put(responses, j, r); d != [] && forall k :: 0 <= k < |d| ==> |d[k].1.probs| == 2
  {}

  /** A node that settled on a class with these votes stored, and has only its own COMMIT. */
  ghost predicate Settled(n: Node, i: NodeId, f: nat, voters: set<NodeId>, ones: nat, zeros: nat, x: int) {
    && n.id == i && n.f == f >= 1 && n.view == 0 && n.seqNo == 0 && n.requestId == ""
    && Tally(n.prepares, voters, ones, zeros) && Committing(n, x, {i}) && Uniform(n, 2)
  }

  // Handing a node the votes of a set of nodes

  ghost predicate DividedIn(s: System, i: NodeId, f: nat, voters: set<NodeId>, ones: nat, zeros: nat) {
    i in s.machines && Divided(s.machines[i], i, f, voters, ones, zeros)
  }

  lemma DeliverOne(c: Config, run: seq<Action>, i: NodeId, msg: Msg) returns (run': seq<Action>)
    requires i in After(c, run).machines && msg in After(c, run).sent
    ensures run' == run + [Deliver(i, msg)]
    ensures Extends(After(c, run), After(c, run'), {i})
    ensures i in After(c, run').machines && After(c, run').machines[i] == Handle(After(c, run).machines[i], msg).node
  {
    hide Handle;
    run' := run + [Deliver(i, msg)];
    assert run'[..|run'| - 1] == run && i in {i};
  }

  lemma HandVote(c: Config, run: seq<Action>, i: NodeId, f: nat, voters: set<NodeId>, ones: nat, zeros: nat,
                 x: int, j: NodeId) returns (run': seq<Action>)
    requires DividedIn(After(c, run), i, f, voters, ones, zeros) && x in {0, 1} && j !in voters
    requires ones + x < 2 * f + 1 && zeros + 1 - x < 2 * f + 1 && PrepareBy(x, j) in After(c, run).sent
    ensures Extends(After(c, run), After(c, run'), {i})
    ensures DividedIn(After(c, run'), i, f, voters + {j}, ones + x, zeros + 1 - x)
  {
    hide After, Tally, Handle, Uniform, PrepareBy;
    OneMoreVote(After(c, run).machines[i], i, f, voters, ones, zeros, x, j);
    run' := DeliverOne(c, run, i, PrepareBy(x, j));
  }

  lemma {:induction false} HandVotes(c: Config, run: seq<Action>, i: NodeId, f: nat, voters: set<NodeId>, ones: nat, zeros: nat,
                                     x: int, group: set<NodeId>) returns (run': seq<Action>)
    requires DividedIn(After(c, run), i, f, voters, ones, zeros) && x in {0, 1} && group !! voters
    requires (if x == 1 then ones else zeros) + |group| < 2 * f + 1
    requires forall j | j in group :: PrepareBy(x, j) in After(c, run).sent
    ensures Extends(After(c, run), After(c, run'), {i})
    ensures DividedIn(After(c, run'), i, f, voters + group, if x == 1 then ones + |group| else ones,
                      if x == 1 then zeros else zeros + |group|)
    decreases |group|
  {
    hide After, DividedIn, PrepareBy, Extends;
    run' := run;
    if group == {} {
      assert voters + group == voters;
      ExtendsSelf(After(c, run), {i});
    } else {
      var j :| j in group;
      DividedBelow(After(c, run), i, f, voters, ones, zeros);
      run' := HandVote(c, run, i, f, voters, ones, zeros, x, j);
      var one := After(c, run');
      ExtendsSent(After(c, run), one, {i});
      run' := HandVotes(c, run', i, f, voters + {j}, ones + x, zeros + 1 - x, x, group - {j});
      ExtendsAgain(After(c, run), one, After(c, run'), {i});
      OneFirst(voters, group, j);
    }
  }

  lemma ExtendsAgain(s: System, t: System, u: System, moved: set<NodeId>)
    requires Extends(s, t, moved) && Extends(t, u, moved)
    ensures Extends(s, u, moved)
  {}

  lemma OneFirst(a: set<NodeId>, b: set<NodeId>, x: NodeId)
    requires x in b
    ensures a + {x} + (b - {x}) == a + b
  {}

  lemma DividedBelow(s: System, i: NodeId, f: nat, voters: set<NodeId>, ones: nat, zeros: nat)
    requires DividedIn(s, i, f, voters, ones, zeros)
    ensures ones < 2 * f + 1 && zeros < 2 * f + 1
  {}

  lemma ExtendsSelf(s: System, moved: set<NodeId>)
    ensures Extends(s, s, moved)
  {}

  lemma ExtendsSent(s: System, t: System, moved: set<NodeId>)
    requires Extends(s, t, moved)
    ensures s.sent <= t.sent
  {}

  // The first decision

  /** COMMITs leave the votes alone and only add their own senders. */
  ghost predicate SameVotes(n: Node, m: Node) {
    && m.id == n.id && m.f == n.f && m.view == n.view && m.seqNo == n.seqNo && m.requestId == n.requestId
    && m.prepares == n.prepares && m.responses == n.responses
  }

  lemma {:induction false} CommitsTrace(n: Node, msgs: seq<Msg>)
    requires n.phase in {COMMIT, COMMITTED} && Distinct(n.commits) && forall k :: 0 <= k < |msgs| ==> msgs[k].Commit?
    requires n.phase == COMMITTED ==> |n.commits| >= n.Threshold()
    ensures var end := Feed(n, msgs);
            && SameVotes(n, end) && Distinct(end.commits) && Keys(end.commits) <= Keys(n.commits) + Senders(msgs)
            && (end.phase == COMMITTED ==> |end.commits| >= end.Threshold())
    decreases |msgs|
  {
    hide Senders, Keys, Put, Has, Distinct, Scorable;
    SendersStep(msgs);
    if msgs != [] {
      PutAll(n.commits, msgs[0].Sender(), msgs[0].c);
      CommitsTrace(Handle(n, msgs[0]).node, msgs[1..]);
    }
  }

  /** A node that decided on class 0, with the votes it had stored by then. */
  ghost predicate Decided(n: Node, i: NodeId, f: nat, voters: set<NodeId>, ones: nat, zeros: nat, committers: set<NodeId>) {
    && n.id == i && n.f == f >= 1 && n.view == 0 && n.seqNo == 0 && n.requestId == ""
    && Done(n, 0) && Tally(n.prepares, voters, ones, zeros) && Uniform(n, 2)
    && Distinct(n.commits) && Keys(n.commits) <= committers && |n.commits| >= n.Threshold()
  }

  ghost predicate DecidedIn(s: System, i: NodeId, f: nat, voters: set<NodeId>, ones: nat, zeros: nat, committers: set<NodeId>) {
    i in s.machines && Decided(s.machines[i], i, f, voters, ones, zeros, committers)
  }

  lemma DecideOnZero(c: Config, run: seq<Action>, i: NodeId, f: nat, voters: set<NodeId>, ones: nat, zeros: nat,
                     members: set<NodeId>) returns (run': seq<Action>)
    requires i in After(c, run).machines && Settled(After(c, run).machines[i], i, f, voters, ones, zeros, 0)
    requires i !in members && |members| >= 2 * f + 1 && forall j | j in members :: CommitBy(0, j) in After(c, run).sent
    ensures DecidedIn(After(c, run'), i, f, voters, ones, zeros, members + {i})
  {
    hide Tally, Handle, Feed, Emitted, After, Senders, Done;
    var n := After(c, run).machines[i];
    var msgs := AllBy(j => CommitBy(0, j), members);
    SendersOfAll(msgs, members, j => CommitBy(0, j));
    SubsetSize(members, {i} + Senders(msgs));
    CommitAll(n, msgs, 0, {i}, 2);
    CommitsTrace(n, msgs);
    run' := DeliverAll(c, run, i, msgs);
    DonePhase(Feed(n, msgs));
  }

  lemma DonePhase(n: Node)
    ensures Done(n, 0) ==> n.phase == COMMITTED
  {}

  // The second decision

  function Reopening(z: NodeId): Msg { NewView(NewViewMsg(0, 0, z, 1, [])) }

  function LatePrepare(z: NodeId): Msg { Prepare(PrepareMsg(1, 0, z, "", Response(1, Vector(1)))) }

  function LateCommit(z: NodeId): Msg { Commit(CommitMsg(1, 0, z, "", 1, "")) }

  /** A quorum of COMMITs, most of them for another class, waits for one that fits. */
  ghost predicate Primed(n: Node, committers: set<NodeId>) {
    && n.view == 1 && n.seqNo == 0 && n.phase == COMMIT && n.consensusClass == Some(1) && Uniform(n, 2)
    && Distinct(n.commits) && Keys(n.commits) <= committers && |n.commits| >= n.Threshold()
  }

  lemma OwnCommitKept(commits: Dict<NodeId, CommitMsg>, i: NodeId, m: CommitMsg)
    requires Distinct(commits)
    ensures Distinct(Put(commits, i, m)) && Keys(Put(commits, i, m)) == Keys(commits) + {i}
    ensures |Put(commits, i, m)| >= |commits|
    ensures Has(commits, i) <==> i in Keys(commits)
  {
    PutAll(commits, i, m);
    SubsetSize(Keys(commits), Keys(commits) + {i});
    KeyCount(commits);
  }

  lemma Opens(n: Node, z: NodeId)
    requires n.view == 0
    ensures Handle(n, Reopening(z)).node == n.(view := 1, primary := z, phase := PRE_PREPARE, viewChanges := [])
  {}

  /** In a new view one more PREPARE gives the class that was stored first its quorum. */
  lemma SettlesAgain(n: Node, i: NodeId, f: nat, voters: set<NodeId>, zeros: nat, committers: set<NodeId>, z: NodeId)
    requires n.id == i && n.f == f >= 1 && n.view == 1 && n.seqNo == 0 && n.phase == PRE_PREPARE
    requires Tally(n.prepares, voters, 2 * f, zeros) && Uniform(n, 2) && z !in voters
    requires Distinct(n.commits) && Keys(n.commits) <= committers && |n.commits| >= n.Threshold()
    ensures Primed(Handle(n, LatePrepare(z)).node, committers + {i})
  {
    hide ConsensusClass, Put, Has, Tally, Keys, Distinct;
    var m := LatePrepare(z).p;
    TallyPut(n.prepares, voters, 2 * f, zeros, m);
    var prepares := Put(n.prepares, z, m);
    OneWins(prepares, voters + {z}, 2 * f + 1, zeros, n.Threshold());
    TallySize(prepares, voters + {z}, 2 * f + 1, zeros);
    UniformPut(n.responses, z, m.response);
    OwnCommitKept(n.commits, i, CommitMsg(1, 0, i, n.requestId, 1, ""));
  }

  /** The old COMMITs still count, so one COMMIT decides. */
  lemma LateDecision(n: Node, committers: set<NodeId>, z: NodeId)
    requires Primed(n, committers) && z !in committers
    ensures Done(Handle(n, LateCommit(z)).node, 1)
  {
    hide Put, Has, Keys, Distinct;
    OwnCommitKept(n.commits, z, LateCommit(z).c);
  }

  lemma DecidesAgain(n: Node, i: NodeId, f: nat, voters: set<NodeId>, zeros: nat, committers: set<NodeId>, z: NodeId)
    requires Decided(n, i, f, voters, 2 * f, zeros, committers) && z !in voters && z !in committers && z != i
    ensures var open := Handle(n, Reopening(z)).node;
            var settled := Handle(open, LatePrepare(z)).node;
            Done(Handle(settled, LateCommit(z)).node, 1)
  {
    hide Handle, Tally, Done, Keys, Distinct, Primed;
    Opens(n, z);
    var open := Handle(n, Reopening(z)).node;
    SettlesAgain(open, i, f, voters, zeros, committers, z);
    LateDecision(Handle(open, LatePrepare(z)).node, committers + {i}, z);
  }

  lemma ForgeOne(c: Config, run: seq<Action>, msg: Msg) returns (run': seq<Action>)
    requires msg.Sender() in c.byzantine
    ensures run' == run + [Forge(msg)] && After(c, run').machines == After(c, run).machines
    ensures After(c, run').sent == After(c, run).sent + {msg}
  {
    run' := run + [Forge(msg)];
    assert run'[..|run'| - 1] == run;
  }

  lemma Redecide(c: Config, run: seq<Action>, i: NodeId, f: nat, voters: set<NodeId>, zeros: nat, committers: set<NodeId>,
                 z: NodeId) returns (run': seq<Action>)
    requires DecidedIn(After(c, run), i, f, voters, 2 * f, zeros, committers) && z in c.byzantine
    requires z !in voters && z !in committers && z != i
    ensures |run| <= |run'| && run'[..|run|] == run
    ensures i in After(c, run').machines && Done(After(c, run').machines[i], 1)
  {
    hide After, Handle, Done, Decided;
    DecidesAgain(After(c, run).machines[i], i, f, voters, zeros, committers, z);
    run' := ForgeOne(c, run, Reopening(z));
    run' := DeliverOne(c, run', i, Reopening(z));
    run' := ForgeOne(c, run', LatePrepare(z));
    run' := DeliverOne(c, run', i, LatePrepare(z));
    run' := ForgeOne(c, run', LateCommit(z));
    run' := DeliverOne(c, run', i, LateCommit(z));
  }

  // The whole run

  /** Byzantine z + others, f+2 correct nodes of class 0, and 2f of class 1 with i among them. */
  ghost predicate Cast(c: Config, z: NodeId, others: set<NodeId>, a: set<NodeId>, b: set<NodeId>, i: NodeId) {
    && c.Valid() && c.f >= 1 && c.byzantine == others + {z} && z !in others && |others| == c.f - 1
    && Group(c, a, 0) && Group(c, b, 1) && a !! b && |a| == c.f + 2 && |b| == 2 * c.f && i in b
  }

  lemma CastRoles(nodes: set<NodeId>, f: nat)
    returns (c: Config, z: NodeId, others: set<NodeId>, a: set<NodeId>, b: set<NodeId>, i: NodeId)
    requires f >= 1 && |nodes| >= 4 * f + 2
    ensures Cast(c, z, others, a, b, i) && c.nodes == nodes && c.f == f
  {
    var byzantine := TakeSome(nodes, f);
    a := TakeSome(nodes - byzantine, f + 2);
    b := TakeSome(nodes - byzantine - a, 2 * f);
    c := Config(nodes, byzantine, f, map k | k in nodes :: Vector(if k in b then 1 else 0));
    z :| z in byzantine;
    others := byzantine - {z};
    i :| i in b;
  }

  /** All votes are on the network, all COMMITs for class 0 of a and the Byzantine nodes too, and i
      has stored its own vote only. */
  ghost predicate Ready(c: Config, s: System, others: set<NodeId>, a: set<NodeId>, b: set<NodeId>, i: NodeId) {
    && DividedIn(s, i, c.f, {i}, 1, 0)
    && (forall j | j in a + others :: PrepareBy(0, j) in s.sent && CommitBy(0, j) in s.sent)
    && (forall j | j in b :: PrepareBy(1, j) in s.sent)
  }

  lemma MakeReady(c: Config, z: NodeId, others: set<NodeId>, a: set<NodeId>, b: set<NodeId>, i: NodeId)
    returns (run: seq<Action>)
    requires Cast(c, z, others, a, b, i)
    ensures Ready(c, After(c, run), others, a, b, i)
  {
    hide After, Voted, Promised, PrepareBy, CommitBy, DividedIn;
    NothingYet(c);
    run := ForgeRound(c, [], z, 0);
    var s0 := After(c, run);
    run := JoinGroup(c, run, z, a, 0);
    var s1 := After(c, run);
    run := JoinGroup(c, run, z, b, 1);
    var s2 := After(c, run);
    forall j | j in a + b ensures PrepareBy(if j in a then 0 else 1, j) in s2.sent {
      VotedSent(c, s1, 0, j);
      VotedSent(c, s2, 1, j);
    }
    forall j | j in a ensures Voted(c, s2, 0, j) {
      VotedStays(c, s1, s2, b, 0, j);
    }
    run := PromiseGroup(c, run, a + others, a, 0);
    var s3 := After(c, run);
    forall j | j in a ensures CommitBy(0, j) in s3.sent {
      VotedSent(c, s3, 0, j);
    }
    VotedStays(c, s2, s3, a, 1, i);
    StillDivided(c, s3, i);
  }

  lemma StillDivided(c: Config, s: System, i: NodeId)
    requires Voted(c, s, 1, i)
    ensures DividedIn(s, i, c.f, {i}, 1, 0)
  {
    OneVoter(s.machines[i], c.f, i);
  }

  /** The roles in numbers: 2f other votes of class 1, and 2f+1 of class 0, one of them w's. */
  lemma CastSizes(c: Config, z: NodeId, others: set<NodeId>, a: set<NodeId>, b: set<NodeId>, i: NodeId, w: NodeId)
    requires Cast(c, z, others, a, b, i) && w in a
    ensures {i} + (b - {i}) == b && |b - {i}| == 2 * c.f - 1
    ensures var zeros := a - {w} + others;
            && |zeros| == 2 * c.f && zeros !! b && zeros <= a + others
            && w !in b + zeros && b + zeros + {w} == a + b + others
    ensures |a + others| == 2 * c.f + 1 && i !in a + others
  {
    assert |a - {w}| == c.f + 1;
    assert (a - {w}) !! others && a !! others && b !! others;
    assert |a - {w} + others| == 2 * c.f;
    assert i in b;
  }

  /** Node i hears all votes but one of class 0; no class has its quorum yet. */
  lemma HearAlmostAll(c: Config, run: seq<Action>, z: NodeId, others: set<NodeId>, a: set<NodeId>, b: set<NodeId>, i: NodeId,
                      w: NodeId) returns (run': seq<Action>)
    requires Cast(c, z, others, a, b, i) && Ready(c, After(c, run), others, a, b, i) && w in a
    ensures Extends(After(c, run), After(c, run'), {i})
    ensures DividedIn(After(c, run'), i, c.f, b + (a - {w} + others), 2 * c.f, 2 * c.f)
  {
    hide After, DividedIn, PrepareBy, CommitBy, Extends, Cast;
    CastSizes(c, z, others, a, b, i, w);
    var s0 := After(c, run);
    run' := HandVotes(c, run, i, c.f, {i}, 1, 0, 1, b - {i});
    var s1 := After(c, run');
    ExtendsSent(s0, s1, {i});
    run' := HandVotes(c, run', i, c.f, b, 2 * c.f, 0, 0, a - {w} + others);
    ExtendsAgain(s0, s1, After(c, run'), {i});
  }

  /** It hears the last one, settles on class 0 and decides. */
  lemma FirstDecision(c: Config, run: seq<Action>, z: NodeId, others: set<NodeId>, a: set<NodeId>, b: set<NodeId>, i: NodeId)
    returns (run': seq<Action>)
    requires Cast(c, z, others, a, b, i) && Ready(c, After(c, run), others, a, b, i)
    ensures DecidedIn(After(c, run'), i, c.f, a + b + others, 2 * c.f, 2 * c.f + 1, a + others + {i})
  {
    hide After, Settled, Divided, PrepareBy, CommitBy, Decided, Handle, Cast;
    var w := OneOfClassZero(c, z, others, a, b, i);
    CastSizes(c, z, others, a, b, i, w);
    run' := HearAlmostAll(c, run, z, others, a, b, i, w);
    var s1 := After(c, run');
    var heard := b + (a - {w} + others);
    DividedFault(s1.machines[i], i, c.f, heard, 2 * c.f, 2 * c.f);
    OneMoreVote(s1.machines[i], i, c.f, heard, 2 * c.f, 2 * c.f, 0, w);
    run' := DeliverOne(c, run', i, PrepareBy(0, w));
    run' := DecideOnZero(c, run', i, c.f, a + b + others, 2 * c.f, 2 * c.f + 1, a + others);
  }

  lemma OneOfClassZero(c: Config, z: NodeId, others: set<NodeId>, a: set<NodeId>, b: set<NodeId>, i: NodeId) returns (w: NodeId)
    requires Cast(c, z, others, a, b, i)
    ensures w in a
  {
    w :| w in a;
  }

  lemma DividedFault(n: Node, i: NodeId, f: nat, voters: set<NodeId>, ones: nat, zeros: nat)
    requires Divided(n, i, f, voters, ones, zeros)
    ensures n.Threshold() == 2 * f + 1
  {}

  /** With 4f+2 or more nodes a correct node can decide on class 0 and, later in the same run, on
      class 1. */
  lemma DecidesTwice(nodes: set<NodeId>, f: nat) returns (c: Config, run: seq<Action>, n: nat, i: NodeId)
    requires f >= 1 && |nodes| >= 4 * f + 2
    ensures c.Valid() && c.nodes == nodes && c.f == f && n <= |run|
    ensures i in After(c, run[..n]).machines && Done(After(c, run[..n]).machines[i], 0)
    ensures i in After(c, run).machines && Done(After(c, run).machines[i], 1)
  {
    hide After, Group, Ready, Done;
    var z, others, a, b;
    c, z, others, a, b, i := CastRoles(nodes, f);
    var ready := MakeReady(c, z, others, a, b, i);
    var decided := FirstDecision(c, ready, z, others, a, b, i);
    assert z !in a + b by { RolesApart(c, z, others, a, b, i); }
    run := Redecide(c, decided, i, f, a + b + others, 2 * f + 1, a + others + {i}, z);
    n := |decided|;
  }

  lemma RolesApart(c: Config, z: NodeId, others: set<NodeId>, a: set<NodeId>, b: set<NodeId>, i: NodeId)
    requires Cast(c, z, others, a, b, i)
    ensures z !in a + b
  {
    assert z in c.byzantine;
  }

  // The exact condition

  /** In every run of every system of these nodes, whatever class a node has settled on and
      whatever outcome it has reached lasts to the end of the run. */
  ghost predicate AlwaysFinal(nodes: set<NodeId>, f: nat) {
    forall c: Config, run: seq<Action>, n: nat, i |
      c.Valid() && c.nodes == nodes && c.f == f && n <= |run| && i in After(c, run[..n]).machines
      :: i in After(c, run).machines && Lasts(After(c, run[..n]).machines[i], After(c, run).machines[i])
  }

  ghost predicate Lasts(n: Node, later: Node) {
    && Keeps(n, later)
    && (n.outcome.Some? ==> later.outcome.Some? && later.outcome.value.cls == n.outcome.value.cls)
  }

  /** Finality in every run is exactly the bound n <= 4f+1, or any n for f = 0. */
  lemma FinalExactly(nodes: set<NodeId>, f: nat)
    ensures AlwaysFinal(nodes, f) <==> f == 0 || |nodes| <= 4 * f + 1
  {
    if f == 0 || |nodes| <= 4 * f + 1 {
      forall c: Config, run: seq<Action>, n: nat, i |
        c.Valid() && c.nodes == nodes && c.f == f && n <= |run| && i in After(c, run[..n]).machines
        ensures i in After(c, run).machines && Lasts(After(c, run[..n]).machines[i], After(c, run).machines[i])
      {
        hide After;
        if f == 0 {
          FaultlessFinal(c, run, n, i);
        } else {
          Final(c, run, n, i);
        }
      }
    } else {
      var c, run, n, i := DecidesTwice(nodes, f);
    }
  }
}

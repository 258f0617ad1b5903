/** Why n must not exceed 3f+1: with more nodes, f Byzantine ones can drive two correct nodes to
    different outcomes within one round. */
module QoIDisagreement {
  import opened Collections
  import opened Quality
  import opened QoIProtocol
  import opened QoIRounds
  import opened QoINetwork
  import opened QoIFaultless

  // Extending a run

  /** Delivering a list of sent messages to one node. */
  lemma {:induction false} DeliverAll(c: Config, run: seq<Action>, i: NodeId, msgs: seq<Msg>) returns (run': seq<Action>)
    requires i in After(c, run).machines
    requires forall m | m in msgs :: m in After(c, run).sent
    ensures After(c, run').machines == After(c, run).machines[i := Feed(After(c, run).machines[i], msgs)]
    ensures After(c, run').sent == After(c, run).sent + Emitted(After(c, run).machines[i], msgs)
    decreases |msgs|
  {
    hide Handle;
    run' := run;
    if msgs != [] {
      var next := run + [Deliver(i, msgs[0])];
      assert next[..|next| - 1] == run && msgs[0] in msgs;
      run' := DeliverAll(c, next, i, msgs[1..]);
    }
  }

  lemma {:induction false} ForgeAll(c: Config, run: seq<Action>, msgs: seq<Msg>) returns (run': seq<Action>)
    requires forall m | m in msgs :: m.Sender() in c.byzantine
    ensures After(c, run').machines == After(c, run).machines
    ensures After(c, run').sent == After(c, run).sent + set m | m in msgs
    decreases |msgs|
  {
    run' := run;
    if msgs != [] {
      var next := run + [Forge(msgs[0])];
      assert next[..|next| - 1] == run && msgs[0] in msgs;
      run' := ForgeAll(c, next, msgs[1..]);
    }
  }

  // One group of correct nodes, helped by the Byzantine ones, decides on class x

  function Vector(x: int): seq<real> {
    if x == 0 then [1.0, 0.0] else [0.0, 1.0]
  }

  lemma VectorClass(x: int)
    requires x in {0, 1}
    ensures ArgMax(Vector(x)) == x && |Vector(x)| == 2
  {}

  function Proposal(z: NodeId): PrePrepareMsg {
    PrePrepareMsg(0, 0, z, "", "", Response(0, Vector(0)))
  }

  function PrepareBy(x: int, i: NodeId): Msg {
    Prepare(PrepareMsg(0, 0, i, "", Response(x, Vector(x))))
  }

  function CommitBy(x: int, i: NodeId): Msg {
    Commit(CommitMsg(0, 0, i, "", x, ""))
  }

  ghost function AllBy(make: NodeId -> Msg, members: set<NodeId>): (r: seq<Msg>)
    ensures forall m :: m in r <==> exists i | i in members :: make(i) == m
  {
    var ids := Listed(members);
    var r := seq(|ids|, k requires 0 <= k < |ids| => make(ids[k]));
    assert forall i | i in members :: exists k | 0 <= k < |ids| :: r[k] == make(i) by {
      forall i | i in members ensures exists k | 0 <= k < |ids| :: r[k] == make(i) {
        var k :| 0 <= k < |ids| && ids[k] == i;
        assert r[k] == make(i);
      }
    }
    r
  }

  /** A correct member has heard the proposal and voted x. */
  ghost predicate Voted(c: Config, s: System, x: int, i: NodeId) {
    && i in s.machines && PrepareBy(x, i) in s.sent
    && var n := s.machines[i];
       && Gathering(n, x, {i}) && Uniform(n, 2)
       && n.id == i && n.f == c.f && n.view == 0 && n.seqNo == 0 && n.requestId == ""
  }

  /** It has collected its PREPAREs and sent its COMMIT. */
  ghost predicate Promised(c: Config, s: System, x: int, i: NodeId) {
    && i in s.machines && CommitBy(x, i) in s.sent
    && var n := s.machines[i];
       Committing(n, x, {i}) && Uniform(n, 2) && n.f == c.f && n.view == 0 && n.seqNo == 0
  }

  /** A later system in which only the machines of `moved` may have changed. */
  ghost predicate Extends(s: System, s': System, moved: set<NodeId>) {
    && s.sent <= s'.sent && s.machines.Keys <= s'.machines.Keys
    && forall i | i in s'.machines && i !in moved :: i in s.machines && s'.machines[i] == s.machines[i]
  }

  ghost predicate Group(c: Config, group: set<NodeId>, x: int) {
    && c.f >= 1 && x in {0, 1} && group !! c.byzantine && group <= c.nodes && c.nodes == c.probs.Keys
    && forall i | i in group :: c.probs[i] == Vector(x)
  }

  lemma JoinOne(c: Config, run: seq<Action>, z: NodeId, i: NodeId, x: int) returns (run': seq<Action>)
    requires Group(c, {i}, x) && z in c.byzantine
    requires PrePrepare(Proposal(z)) in After(c, run).sent && i !in After(c, run).machines
    ensures Extends(After(c, run), After(c, run'), {i}) && Voted(c, After(c, run'), x, i)
  {
    hide Handle, StartRound, ArgMax, Gathering, Uniform;
    VectorClass(x);
    var started := run + [Start(i, z, 0, "", "", {})];
    assert started[..|started| - 1] == run && i in {i};
    run' := started + [Deliver(i, PrePrepare(Proposal(z)))];
    assert run'[..|run'| - 1] == started;
    assert PrePrepare(Proposal(z)) in After(c, started).sent;
    var n := NewNode(i, z, c.f, {});
    Begun(n, "", "", 0, c.probs[i]);
    Joined(n, "", "", 0, c.probs[i], Proposal(z));
    assert Handle(StartRound(n, "", "", 0, c.probs[i]).node, PrePrepare(Proposal(z))).reply == Broadcast(PrepareBy(x, i));
    NodeFields(n, z, x, c.probs[i]);
  }

  lemma NodeFields(n: Node, z: NodeId, x: int, probs: seq<real>)
    requires probs != []
    ensures var s := StartRound(n, "", "", 0, probs).node;
            s.id == n.id && s.f == n.f && s.view == n.view && s.seqNo == 0 && s.requestId == ""
  {}

  /** Moving one set of machines, then another. */
  lemma ExtendsTwice(s: System, t: System, u: System, a: set<NodeId>, b: set<NodeId>)
    requires Extends(s, t, a) && Extends(t, u, b)
    ensures Extends(s, u, a + b)
  {}

  lemma VotedStays(c: Config, s: System, t: System, moved: set<NodeId>, x: int, i: NodeId)
    requires Extends(s, t, moved) && i !in moved
    ensures Voted(c, s, x, i) ==> Voted(c, t, x, i)
    ensures Promised(c, s, x, i) ==> Promised(c, t, x, i)
  {
    hide Gathering, Committing, Uniform;
  }

  lemma {:induction false} JoinGroup(c: Config, run: seq<Action>, z: NodeId, group: set<NodeId>, x: int)
    returns (run': seq<Action>)
    requires Group(c, group, x) && z in c.byzantine
    requires PrePrepare(Proposal(z)) in After(c, run).sent && group !! After(c, run).machines.Keys
    ensures Extends(After(c, run), After(c, run'), group)
    ensures forall i | i in group :: Voted(c, After(c, run'), x, i)
    decreases group
  {
    hide Voted, After, Promised;
    run' := run;
    if group != {} {
      var i :| i in group;
      run' := JoinOne(c, run, z, i, x);
      var one := After(c, run');
      run' := JoinGroup(c, run', z, group - {i}, x);
      ExtendsTwice(After(c, run), one, After(c, run'), {i}, group - {i});
      assert {i} + (group - {i}) == group;
      VotedStays(c, one, After(c, run'), group - {i}, x, i);
    }
  }

  /** With every member's vote on the network, a member that voted commits to the class. */
  lemma PromiseOne(c: Config, run: seq<Action>, members: set<NodeId>, i: NodeId, x: int) returns (run': seq<Action>)
    requires Voted(c, After(c, run), x, i) && i in members && x in {0, 1} && |members| >= 2 * c.f + 1
    requires forall j | j in members :: PrepareBy(x, j) in After(c, run).sent
    ensures Extends(After(c, run), After(c, run'), {i}) && Promised(c, After(c, run'), x, i)
  {
    hide Gathering, Committing, Uniform, Handle, Feed, Emitted, After, Senders;
    VectorClass(x);
    var n := After(c, run).machines[i];
    var msgs := AllBy(j => PrepareBy(x, j), members);
    SendersOfAll(msgs, members, j => PrepareBy(x, j));
    assert {i} + Senders(msgs) == members;
    GatherAll(n, msgs, x, {i}, 2);
    run' := DeliverAll(c, run, i, msgs);
    assert OwnCommit(n, x) == CommitBy(x, i);
  }

  lemma SendersOfAll(msgs: seq<Msg>, members: set<NodeId>, make: NodeId -> Msg)
    requires forall m :: m in msgs <==> exists i | i in members :: make(i) == m
    requires forall i | i in members :: make(i).Sender() == i
    ensures Senders(msgs) == members
  {
    forall k | k in Senders(msgs) ensures k in members {
      var p :| 0 <= p < |msgs| && msgs[p].Sender() == k;
      assert msgs[p] in msgs;
    }
    forall i | i in members ensures i in Senders(msgs) {
      assert make(i) in msgs;
      var p :| 0 <= p < |msgs| && msgs[p] == make(i);
    }
  }

  lemma {:induction false} PromiseGroup(c: Config, run: seq<Action>, members: set<NodeId>, group: set<NodeId>, x: int)
    returns (run': seq<Action>)
    requires group <= members && x in {0, 1} && |members| >= 2 * c.f + 1
    requires forall i | i in group :: Voted(c, After(c, run), x, i)
    requires forall j | j in members :: PrepareBy(x, j) in After(c, run).sent
    ensures Extends(After(c, run), After(c, run'), group)
    ensures forall i | i in group :: Promised(c, After(c, run'), x, i)
    decreases group
  {
    hide Gathering, Committing, Uniform, After;
    run' := run;
    if group != {} {
      var i :| i in group;
      run' := PromiseOne(c, run, members, i, x);
      var one := After(c, run');
      forall j | j in group - {i} ensures Voted(c, one, x, j) {
        VotedStays(c, After(c, run), one, {i}, x, j);
      }
      run' := PromiseGroup(c, run', members, group - {i}, x);
      ExtendsTwice(After(c, run), one, After(c, run'), {i}, group - {i});
      assert {i} + (group - {i}) == group;
      VotedStays(c, one, After(c, run'), group - {i}, x, i);
    }
  }

  lemma DecideOne(c: Config, run: seq<Action>, members: set<NodeId>, i: NodeId, x: int) returns (run': seq<Action>)
    requires Promised(c, After(c, run), x, i) && i in members && |members| >= 2 * c.f + 1
    requires forall j | j in members :: CommitBy(x, j) in After(c, run).sent
    ensures Extends(After(c, run), After(c, run'), {i})
    ensures i in After(c, run').machines && Done(After(c, run').machines[i], x)
  {
    hide Committing, Uniform, Handle, Feed, Emitted, After, Senders, Done;
    var n := After(c, run).machines[i];
    var msgs := AllBy(j => CommitBy(x, j), members);
    SendersOfAll(msgs, members, j => CommitBy(x, j));
    assert {i} + Senders(msgs) == members;
    CommitAll(n, msgs, x, {i}, 2);
    run' := DeliverAll(c, run, i, msgs);
  }

  /** The Byzantine nodes' share of a round: a proposal, and votes for x from all of them. */
  lemma ForgeRound(c: Config, run: seq<Action>, z: NodeId, x: int) returns (run': seq<Action>)
    requires z in c.byzantine
    ensures After(c, run').machines == After(c, run).machines && After(c, run).sent <= After(c, run').sent
    ensures PrePrepare(Proposal(z)) in After(c, run').sent
    ensures forall j | j in c.byzantine :: PrepareBy(x, j) in After(c, run').sent && CommitBy(x, j) in After(c, run').sent
  {
    hide After;
    var prepares := AllBy(j => PrepareBy(x, j), c.byzantine);
    var commits := AllBy(j => CommitBy(x, j), c.byzantine);
    run' := ForgeAll(c, run, [PrePrepare(Proposal(z))] + prepares + commits);
    forall j | j in c.byzantine ensures PrepareBy(x, j) in After(c, run').sent && CommitBy(x, j) in After(c, run').sent {
      assert PrepareBy(x, j) in prepares && CommitBy(x, j) in commits;
    }
  }

  /** A group of f+1 correct nodes with the votes of f Byzantine nodes decides on its own. */
  lemma GroupDecides(c: Config, run: seq<Action>, z: NodeId, group: set<NodeId>, x: int, i: NodeId)
    returns (run': seq<Action>)
    requires Group(c, group, x) && z in c.byzantine && i in group && |group| + |c.byzantine| >= 2 * c.f + 1
    requires group !! After(c, run).machines.Keys
    ensures Extends(After(c, run), After(c, run'), group)
    ensures i in After(c, run').machines && Done(After(c, run').machines[i], x)
  {
    hide Voted, Promised, After, Done, AllBy, PrepareBy, CommitBy;
    var members := group + c.byzantine;
    run' := ForgeRound(c, run, z, x);
    var s0 := After(c, run');
    run' := JoinGroup(c, run', z, group, x);
    var s1 := After(c, run');
    forall j | j in members ensures PrepareBy(x, j) in s1.sent {
      if j in group { VotedSent(c, s1, x, j); }
    }
    run' := PromiseGroup(c, run', members, group, x);
    var s2 := After(c, run');
    forall j | j in members ensures CommitBy(x, j) in s2.sent {
      if j in group { VotedSent(c, s2, x, j); }
    }
    run' := DecideOne(c, run', members, i, x);
    ExtendsTwice(s0, s1, s2, group, group);
    ExtendsTwice(s0, s2, After(c, run'), group + group, {i});
    assert group + group + {i} == group;
  }

  lemma VotedSent(c: Config, s: System, x: int, i: NodeId)
    ensures Voted(c, s, x, i) ==> PrepareBy(x, i) in s.sent
    ensures Promised(c, s, x, i) ==> CommitBy(x, i) in s.sent
  {}

  // A fault bound of 0: any two nodes of one class decide by themselves

  /** A started node that has settled on nothing yet, with the given PREPAREs stored. */
  ghost predicate Quiet(n: Node, i: NodeId, prepares: Dict<NodeId, PrepareMsg>) {
    && n.id == i && n.f == 0 && n.view == 0 && n.seqNo == 0 && n.requestId == ""
    && n.phase in {PRE_PREPARE, QoIProtocol.PREPARE} && n.prepares == prepares && n.commits == []
    && n.consensusClass == None && n.outcome == None && Uniform(n, 2)
  }

  /** A node that holds a class and its own COMMIT for it. */
  ghost predicate Holding(n: Node, i: NodeId, x: int) {
    && n.id == i && n.f == 0 && n.view == 0 && n.seqNo == 0 && n.phase == COMMIT
    && n.consensusClass == Some(x) && n.outcome == None && Uniform(n, 2)
    && |n.commits| == 1 && n.commits[0].0 == i
  }

  ghost predicate QuietIn(s: System, i: NodeId, prepares: Dict<NodeId, PrepareMsg>) {
    i in s.machines && Quiet(s.machines[i], i, prepares)
  }

  lemma StartsQuiet(z: NodeId, i: NodeId, x: int)
    requires x in {0, 1}
    ensures var e := StartRound(NewNode(i, z, 0, {}), "", "", 0, Vector(x));
            && Quiet(e.node, i, [])
            && (i == z && x == 0 ==> e.reply == Broadcast(PrePrepare(Proposal(z))))
  {
    hide ArgMax;
    VectorClass(x);
  }

  lemma StartQuietly(c: Config, run: seq<Action>, z: NodeId, i: NodeId, x: int) returns (run': seq<Action>)
    requires c.f == 0 && c.Correct(i) && i in c.probs && c.probs[i] == Vector(x) && x in {0, 1}
    requires i !in After(c, run).machines
    ensures Extends(After(c, run), After(c, run'), {i}) && QuietIn(After(c, run'), i, [])
    ensures i == z && x == 0 ==> PrePrepare(Proposal(z)) in After(c, run').sent
    ensures After(c, run').machines[i] == StartRound(NewNode(i, z, c.f, {}), "", "", 0, Vector(x)).node
  {
    hide StartRound, Quiet, Vector;
    StartsQuiet(z, i, x);
    run' := run + [Start(i, z, 0, "", "", {})];
    assert run'[..|run'| - 1] == run && i in {i};
  }

  /** A replica that hears the proposal votes for its own class. */
  lemma VoteQuietly(c: Config, run: seq<Action>, z: NodeId, i: NodeId, x: int) returns (run': seq<Action>)
    requires c.f == 0 && c.Correct(i) && i in c.probs && c.probs[i] == Vector(x) && x in {0, 1} && i != z
    requires i !in After(c, run).machines && PrePrepare(Proposal(z)) in After(c, run).sent
    ensures Extends(After(c, run), After(c, run'), {i}) && PrepareBy(x, i) in After(c, run').sent
    ensures QuietIn(After(c, run'), i, [(i, PrepareBy(x, i).p)])
  {
    hide Handle, ArgMax, StartRound;
    VectorClass(x);
    var started := StartQuietly(c, run, z, i, x);
    run' := started + [Deliver(i, PrePrepare(Proposal(z)))];
    assert run'[..|run'| - 1] == started && i in {i};
    Heard(NewNode(i, z, c.f, {}), "", "", 0, Vector(x), Proposal(z));
    StartFields(NewNode(i, z, c.f, {}), Vector(x));
  }

  lemma StartFields(n: Node, probs: seq<real>)
    requires probs != []
    ensures var s := StartRound(n, "", "", 0, probs).node;
            && s.id == n.id && s.f == n.f && s.view == n.view && s.seqNo == 0 && s.requestId == ""
            && s.commits == [] && s.consensusClass == None && s.outcome == None
  {}

  /** The first other PREPARE to arrive settles the class of the first one stored. */
  lemma HoldQuietly(c: Config, run: seq<Action>, i: NodeId, j: NodeId, prepares: Dict<NodeId, PrepareMsg>, y: int)
    returns (run': seq<Action>)
    requires QuietIn(After(c, run), i, prepares) && !Has(prepares, j) && y in {0, 1}
    requires PrepareBy(y, j) in After(c, run).sent
    ensures Extends(After(c, run), After(c, run'), {i}) && i in After(c, run').machines
    ensures var x := if prepares == [] then y else prepares[0].1.response.cls;
            Holding(After(c, run').machines[i], i, x) && CommitBy(x, i) in After(c, run').sent
  {
    hide ConsensusClass, ArgMax;
    run' := run + [Deliver(i, PrepareBy(y, j))];
    assert run'[..|run'| - 1] == run && i in {i};
    FirstClass(Put(prepares, j, PrepareBy(y, j).p));
  }

  /** One COMMIT of another node then decides. */
  lemma DecideQuietly(c: Config, run: seq<Action>, i: NodeId, j: NodeId, x: int) returns (run': seq<Action>)
    requires i in After(c, run).machines && Holding(After(c, run).machines[i], i, x) && i != j
    requires CommitBy(x, j) in After(c, run).sent
    ensures Extends(After(c, run), After(c, run'), {i})
    ensures i in After(c, run').machines && Done(After(c, run').machines[i], x)
  {
    run' := run + [Deliver(i, CommitBy(x, j))];
    assert run'[..|run'| - 1] == run && i in {i};
  }

  /** A node that has stored no vote follows a committed voter to its class. */
  lemma FollowQuietly(c: Config, run: seq<Action>, i: NodeId, j: NodeId, x: int) returns (run': seq<Action>)
    requires QuietIn(After(c, run), i, []) && i != j && x in {0, 1}
    requires PrepareBy(x, j) in After(c, run).sent && CommitBy(x, j) in After(c, run).sent
    ensures Extends(After(c, run), After(c, run'), {i})
    ensures i in After(c, run').machines && Done(After(c, run').machines[i], x)
  {
    hide After, Done, Quiet, Holding, PrepareBy, CommitBy;
    run' := HoldQuietly(c, run, i, j, [], x);
    var s := After(c, run');
    run' := DecideQuietly(c, run', i, j, x);
    ExtendsTwice(After(c, run), s, After(c, run'), {i}, {i});
    assert {i} + {i} == {i};
  }

  lemma TwoOf(s: set<NodeId>) returns (x: NodeId, y: NodeId)
    requires |s| == 2
    ensures x in s && y in s && x != y
  {
    x :| x in s;
    assert |s - {x}| == 1;
    y :| y in s - {x};
  }

  /** What a step of other nodes leaves alone. */
  lemma QuietStays(s: System, t: System, moved: set<NodeId>, i: NodeId, prepares: Dict<NodeId, PrepareMsg>)
    requires Extends(s, t, moved) && i !in moved
    ensures QuietIn(s, i, prepares) ==> QuietIn(t, i, prepares)
    ensures i !in s.machines ==> i !in t.machines
  {
    hide Quiet;
  }

  /** Two nodes of either class: i and j have started, b and x have voted. */
  ghost predicate Camps(s: System, i: NodeId, b: NodeId, j: NodeId, x: NodeId) {
    && QuietIn(s, i, []) && QuietIn(s, b, [(b, PrepareBy(0, b).p)])
    && QuietIn(s, j, []) && QuietIn(s, x, [(x, PrepareBy(1, x).p)])
    && PrepareBy(0, b) in s.sent && PrepareBy(1, x) in s.sent
  }

  lemma SetUpCamps(c: Config, i: NodeId, b: NodeId, j: NodeId, x: NodeId) returns (run: seq<Action>)
    requires c.f == 0 && |{i, b, j, x}| == 4 && forall k | k in {i, b, j, x} :: c.Correct(k) && k in c.probs
    requires c.probs[i] == c.probs[b] == Vector(0) && c.probs[j] == c.probs[x] == Vector(1)
    ensures Camps(After(c, run), i, b, j, x)
  {
    hide After, Quiet, QuietIn;
    NothingYet(c);
    run := StartQuietly(c, [], i, i, 0);
    var s1 := After(c, run);
    run := VoteQuietly(c, run, i, b, 0);
    var s2 := After(c, run);
    QuietStays(s1, s2, {b}, i, []);
    run := VoteQuietly(c, run, i, x, 1);
    var s3 := After(c, run);
    QuietStays(s2, s3, {x}, i, []);
    QuietStays(s2, s3, {x}, b, [(b, PrepareBy(0, b).p)]);
    run := StartQuietly(c, run, i, j, 1);
    var s4 := After(c, run);
    QuietStays(s3, s4, {j}, i, []);
    QuietStays(s3, s4, {j}, b, [(b, PrepareBy(0, b).p)]);
    QuietStays(s3, s4, {j}, x, [(x, PrepareBy(1, x).p)]);
  }

  /** Both camps decide: b and x commit to their own classes, i follows b, and j follows x. */
  lemma BothDecide(c: Config, run: seq<Action>, i: NodeId, b: NodeId, j: NodeId, x: NodeId) returns (run': seq<Action>)
    requires Camps(After(c, run), i, b, j, x) && |{i, b, j, x}| == 4
    ensures i in After(c, run').machines && Done(After(c, run').machines[i], 0)
    ensures j in After(c, run').machines && Done(After(c, run').machines[j], 1)
  {
    hide After, Quiet, QuietIn, Holding, Done, CommitBy;
    var s0 := After(c, run);
    run' := HoldQuietly(c, run, b, x, [(b, PrepareBy(0, b).p)], 1);
    var s1 := After(c, run');
    QuietStays(s0, s1, {b}, x, [(x, PrepareBy(1, x).p)]);
    run' := HoldQuietly(c, run', x, b, [(x, PrepareBy(1, x).p)], 0);
    var s2 := After(c, run');
    forall k | k in {i, j} ensures QuietIn(s2, k, []) {
      QuietStays(s0, s1, {b}, k, []);
      QuietStays(s1, s2, {x}, k, []);
    }
    run' := FollowQuietly(c, run', i, b, 0);
    QuietStays(s2, After(c, run'), {i}, j, []);
    run' := FollowQuietly(c, run', j, x, 1);
  }

  lemma FaultlessDisagreement(nodes: set<NodeId>) returns (c: Config, run: seq<Action>, i: NodeId, j: NodeId)
    requires |nodes| >= 4
    ensures c.Valid() && c.nodes == nodes && c.f == 0
    ensures i in After(c, run).machines && Done(After(c, run).machines[i], 0)
    ensures j in After(c, run).machines && Done(After(c, run).machines[j], 1)
  {
    hide After, Done, Camps;
    var zeros := TakeSome(nodes, 2);
    var ones := TakeSome(nodes - zeros, 2);
    var b, x;
    i, b := TwoOf(zeros);
    j, x := TwoOf(ones);
    c := Config(nodes, {}, 0, map k | k in nodes :: Vector(if k in ones then 1 else 0));
    run := SetUpCamps(c, i, b, j, x);
    run := BothDecide(c, run, i, b, j, x);
  }

  // The exact condition

  /** The largest number of nodes among which outcomes cannot differ. */
  function SafeSize(f: nat): nat {
    if f == 0 then 3 else 3 * f + 1
  }

  /** Every run of every system of these nodes with this fault bound keeps outcomes equal. */
  ghost predicate AlwaysAgrees(nodes: set<NodeId>, f: nat) {
    forall c: Config, run: seq<Action>, i, j |
      && c.Valid() && c.nodes == nodes && c.f == f
      && i in After(c, run).machines && After(c, run).machines[i].outcome.Some?
      && j in After(c, run).machines && After(c, run).machines[j].outcome.Some?
      :: After(c, run).machines[i].outcome.value.cls == After(c, run).machines[j].outcome.value.cls
  }

  /** Splitting more than 3f+1 nodes into f Byzantine ones and two correct groups of f+1. */
  lemma Split(nodes: set<NodeId>, f: nat) returns (z: set<NodeId>, a: set<NodeId>, b: set<NodeId>)
    requires |nodes| >= 3 * f + 2
    ensures z + a + b <= nodes && z !! a !! b && |z| == f && |a| == |b| == f + 1
  {
    z := TakeSome(nodes, f);
    a := TakeSome(nodes - z, f + 1);
    b := TakeSome(nodes - z - a, f + 1);
  }

  /** With 3f+2 or more nodes some run ends with two correct nodes holding different outcomes. */
  lemma Disagreement(nodes: set<NodeId>, f: nat) returns (c: Config, run: seq<Action>, i: NodeId, j: NodeId)
    requires f >= 1 && |nodes| >= 3 * f + 2
    ensures c.Valid() && c.nodes == nodes && c.f == f
    ensures i in After(c, run).machines && Done(After(c, run).machines[i], 0)
    ensures j in After(c, run).machines && Done(After(c, run).machines[j], 1)
  {
    hide After;
    var byzantine, a, b := Split(nodes, f);
    c := Config(nodes, byzantine, f, map k | k in nodes :: Vector(if k in b then 1 else 0));
    var z :| z in byzantine;
    i :| i in a;
    j :| j in b;
    NothingYet(c);
    run := GroupDecides(c, [], z, a, 0, i);
    var s := After(c, run);
    run := GroupDecides(c, run, z, b, 1, j);
  }

  lemma NothingYet(c: Config)
    ensures After(c, []) == Nothing
  {}

  /** Agreement in every run is exactly the bound n <= 3f+1, or n <= 3 for f = 0. */
  lemma AgreementExact(nodes: set<NodeId>, f: nat)
    ensures AlwaysAgrees(nodes, f) <==> |nodes| <= SafeSize(f)
  {
    if |nodes| <= SafeSize(f) {
      forall c: Config, run: seq<Action>, i, j |
        && c.Valid() && c.nodes == nodes && c.f == f
        && i in After(c, run).machines && After(c, run).machines[i].outcome.Some?
        && j in After(c, run).machines && After(c, run).machines[j].outcome.Some?
        ensures After(c, run).machines[i].outcome.value.cls == After(c, run).machines[j].outcome.value.cls
      {
        if f == 0 {
          FaultlessAgreement(c, run, i, j);
        } else {
          Agreement(c, run, i, j);
        }
      }
    } else if f == 0 {
      var c, run, i, j := FaultlessDisagreement(nodes);
    } else {
      var c, run, i, j := Disagreement(nodes, f);
    }
  }
}

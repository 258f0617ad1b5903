/** Choosing the next primary from the collected view changes. */
module Election {
  import opened Collections
  import opened Quality
  import opened Sorting
  import opened QoIProtocol

  lemma ElectionIsOrder()
    ensures IsOrder(Ahead)
  {
    forall x: ViewChangeMsg, y: ViewChangeMsg | Ahead(x, y) ensures !Ahead(y, x) {
      if x.lastSeq == y.lastSeq { StringLessAsymmetric(x.sender, y.sender); }
    }
    forall x: ViewChangeMsg, y: ViewChangeMsg, z: ViewChangeMsg | !Ahead(y, x) && !Ahead(z, y) ensures !Ahead(z, x) {
      if Ahead(z, x) && x.lastSeq == y.lastSeq == z.lastSeq && y.sender != z.sender {
        StringLessTotal(y.sender, z.sender);
        StringLessTransitive(y.sender, z.sender, x.sender);
      }
    }
  }

  predicate Collected(d: Dict<NodeId, ViewChangeMsg>, m: ViewChangeMsg) {
    m in Evidence(d)
  }

  /** The elected primary sent one of the collected messages, and nobody collected is ahead of it: no
      one has a higher last sequence number, or the same one and a smaller id. */
  lemma ElectedIsAhead(d: Dict<NodeId, ViewChangeMsg>) returns (best: ViewChangeMsg)
    requires d != []
    ensures ElectPrimary(d) == best.sender && Collected(d, best)
    ensures forall m :: Collected(d, m) ==> !Ahead(m, best)
    ensures forall m :: Collected(d, m) ==>
              m.lastSeq <= best.lastSeq && (m.lastSeq == best.lastSeq ==> !StringLess(m.sender, best.sender))
  {
    hide SortBy, StringLess;
    var all := Evidence(d);
    var sorted := SortBy(Ahead, all);
    SortKeeps(Ahead, all);
    ElectionIsOrder();
    SortOrders(Ahead, all);
    best := sorted[0];
    SortMember(Ahead, all, best);
    forall m | Collected(d, m) ensures !Ahead(m, best) {
      SortMember(Ahead, all, m);
      var k :| 0 <= k < |sorted| && sorted[k] == m;
      if k == 0 { assert IsOrder(Ahead) && m == best; }
    }
  }

  /** Nodes that have collected the same view changes, in whatever order, elect the same primary. */
  lemma SameCollectionSamePrimary(d: Dict<NodeId, ViewChangeMsg>, e: Dict<NodeId, ViewChangeMsg>)
    requires d != [] && e != [] && forall m :: Collected(d, m) <==> Collected(e, m)
    ensures ElectPrimary(d) == ElectPrimary(e)
  {
    hide ElectPrimary, StringLess;
    var x := ElectedIsAhead(d);
    var y := ElectedIsAhead(e);
    assert !Ahead(x, y) && !Ahead(y, x);
    if x.sender != y.sender { StringLessTotal(x.sender, y.sender); }
  }

  /** When a node opens a view: exactly when a VIEW_CHANGE for a later view brings its collection to 2f+1
      nodes and it comes first among them. The view is then the highest asked for, with itself for the
      primary, and everybody is told; otherwise it waits with the message collected. */
  lemma OpensExactly(n: Node, m: ViewChangeMsg)
    requires m.newView > n.view && Distinct(n.viewChanges) && forall k :: 0 <= k < |n.viewChanges| ==>
               n.viewChanges[k].1.sender == n.viewChanges[k].0
    ensures var e := HandleViewChange(n, m); var d := e.node.viewChanges;
            && Keys(d) == Keys(n.viewChanges) + {m.sender} && Get(d, m.sender) == m && Has(d, m.sender)
            && (e.reply.Broadcast? <==> |Keys(d)| >= 2 * n.f + 1 && d != [] && ElectPrimary(d) == n.id)
            && (e.reply.Broadcast? ==>
                  && e.node.phase == PRE_PREPARE && e.node.primary == n.id
                  && e.reply.msg.NewView? && e.reply.msg.nv.sender == n.id && e.reply.msg.nv.newView == e.node.view
                  && (forall vc :: Collected(d, vc) ==> vc.newView <= e.node.view)
                  && exists vc :: Collected(d, vc) && vc.newView == e.node.view)
            && (!e.reply.Broadcast? ==>
                  e.reply == Silent && e.node.phase == VIEW_CHANGE && e.node.view == n.view && e.node.primary == n.primary)
  {
    hide Put, Has, Get, ElectPrimary, MaxNewView;
    var d := Put(n.viewChanges, m.sender, m);
    PutGet(n.viewChanges, m.sender, m);
    PutKeys(n.viewChanges, m.sender, m);
    KeyCount(d);
    if d != [] {
      var k :| 0 <= k < |d| && d[k].1.newView == MaxNewView(d);
      assert Evidence(d)[k] == d[k].1;
      forall vc | Collected(d, vc) ensures vc.newView <= MaxNewView(d) {
        var j :| 0 <= j < |Evidence(d)| && Evidence(d)[j] == vc;
        assert d[j].1 == vc;
      }
    }
  }

  lemma PutKeys(d: Dict<NodeId, ViewChangeMsg>, k: NodeId, v: ViewChangeMsg)
    ensures Keys(Put(d, k, v)) == Keys(d) + {k} && Put(d, k, v) != []
  {
    var r, at := Put(d, k, v), IndexOf(d, k);
    assert r[at] == (k, v);
    forall x | x in Keys(d) ensures x in Keys(r) {
      var i :| 0 <= i < |d| && d[i].0 == x;
      assert r[i].0 == x;
    }
  }
}

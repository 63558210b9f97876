/** The loop of PUBREL runs over a list that routing may lengthen, or cut off where the tail
    pointer is wrong. Whatever the state, it has no more handshakes to end than it met at
    first, so the loop ends. */
module Release {
  import opened Options
  import opened Hierarchy
  import opened SubTree
  import opened Queues
  import opened Broker
  import opened BrokerOps
  import opened Pubrel

  // ----- lists that lose their end and gain outbound entries ---------------------------------

  ghost predicate CommonTo(a: seq<Entry>, b: seq<Entry>, k: nat) {
    && k <= |a| && k <= |b| && a[..k] == b[..k]
    && forall j :: k <= j < |b| ==> b[j].dir == Out
  }

  ghost predicate Regrown(a: seq<Entry>, b: seq<Entry>) {
    exists k: nat :: CommonTo(a, b, k)
  }

  ghost predicate AllRegrown(b: Db, r: Db) {
    && |r.clients| == |b.clients|
    && forall c :: 0 <= c < |b.clients| ==> Regrown(b.clients[c].msgs, r.clients[c].msgs)
  }

  lemma RegrownSelf(a: seq<Entry>)
    ensures Regrown(a, a)
  {
    assert CommonTo(a, a, |a|);
  }

  lemma RegrownOn(a: seq<Entry>, b: seq<Entry>, c: seq<Entry>)
    requires Regrown(a, b) && Regrown(b, c)
    ensures Regrown(a, c)
  {
    var k: nat :| CommonTo(a, b, k);
    var m: nat :| CommonTo(b, c, m);
    var n := if k < m then k else m;
    assert a[..n] == a[..k][..n] && c[..n] == c[..m][..n];
    assert CommonTo(a, c, n);
  }

  lemma AllRegrownSelf(b: Db)
    ensures AllRegrown(b, b)
  {
    forall c | 0 <= c < |b.clients| ensures Regrown(b.clients[c].msgs, b.clients[c].msgs) {
      RegrownSelf(b.clients[c].msgs);
    }
  }

  lemma AllRegrownOn(a: Db, b: Db, r: Db)
    requires AllRegrown(a, b) && AllRegrown(b, r)
    ensures AllRegrown(a, r)
  {
    hide Regrown;
    forall c | 0 <= c < |a.clients| ensures Regrown(a.clients[c].msgs, r.clients[c].msgs) {
      RegrownOn(a.clients[c].msgs, b.clients[c].msgs, r.clients[c].msgs);
    }
  }

  // ----- routing ----------------------------------------------------------------------------

  lemma AppendRegrows(cl: Client, e: Entry)
    requires e.dir == Out
    ensures Regrown(cl.msgs, AppendMsg(cl, e).msgs)
  {
    var r := AppendMsg(cl, e).msgs;
    var k: nat :=
      if cl.lastMsg.None? then 0
      else if PlaceOf(cl.msgs, cl.lastMsg.value) < |cl.msgs| then PlaceOf(cl.msgs, cl.lastMsg.value) + 1
      else |cl.msgs|;
    assert CommonTo(cl.msgs, r, k);
  }

  lemma SendRegrows(b: Db, c: nat, qos: Qos, retain: bool, sid: nat)
    requires c < |b.clients| && sid in b.store
    ensures AllRegrown(b, Send(b, c, qos, retain, sid))
  {
    var cl := b.clients[c];
    var cl1 := if qos > 0 then cl.(lastMid := NextMid(cl.lastMid)) else cl;
    var mid, placed := if qos > 0 then NextMid(cl.lastMid) else 0, Placed(b.cfg, cl1, Out, qos);
    AllRegrownSelf(b);
    if placed.Place? {
      AppendRegrows(cl1, NewEntry(b, sid, mid, Out, qos, retain, placed.state));
    }
    hide AppendMsg, Regrown, Placed;
  }

  lemma {:induction false} LeavesRegrow(b: Db, ls: seq<Leaf>, topic: string, qos: Qos, sid: nat, acl: Acl)
    requires sid in b.store
    ensures AllRegrown(b, SendToLeaves(b, ls, topic, qos, sid, acl))
    decreases |ls|
  {
    hide AllRegrown, Send;
    AllRegrownSelf(b);
    if ls != [] {
      var c, q := FindClient(b.clients, ls[0].client), if b.cfg.upgradeQos then ls[0].qos else Min(qos, ls[0].qos);
      match acl(ls[0].client, topic)
      case Failed =>
      case Refused => LeavesRegrow(b, ls[1..], topic, qos, sid, acl);
      case Granted =>
        if c < |b.clients| {
          SendRegrows(b, c, q, false, sid);
          SendKeepsStored(b, c, q, false, sid);
          LeavesRegrow(Send(b, c, q, false, sid), ls[1..], topic, qos, sid, acl);
          AllRegrownOn(b, Send(b, c, q, false, sid), SendToLeaves(b, ls, topic, qos, sid, acl));
        } else {
          LeavesRegrow(b, ls[1..], topic, qos, sid, acl);
        }
    }
  }

  lemma SendKeepsStored(b: Db, c: nat, qos: Qos, retain: bool, sid: nat)
    requires c < |b.clients| && sid in b.store
    ensures sid in Send(b, c, qos, retain, sid).store
  {
  }

  lemma {:induction false} StopsRegrow(b: Db, vs: seq<At<Stop>>, topic: string, qos: Qos, sid: nat, acl: Acl)
    requires sid in b.store
    ensures AllRegrown(b, SendToStops(b, vs, topic, qos, sid, acl))
    decreases |vs|
  {
    hide AllRegrown, SendToLeaves;
    AllRegrownSelf(b);
    if vs != [] {
      var b1 := SendToLeaves(b, vs[0].item.leaves, topic, qos, sid, acl);
      LeavesRegrow(b, vs[0].item.leaves, topic, qos, sid, acl);
      StopsRegrow(b1, vs[1..], topic, qos, sid, acl);
      AllRegrownOn(b, b1, SendToStops(b, vs, topic, qos, sid, acl));
    }
  }

  lemma HandoverRegrows(b: Db, sid: nat, retain: bool, acl: Acl)
    requires sid in b.store
    ensures AllRegrown(b, Handover(b, sid, retain, acl))
  {
    hide SendToStops, Keep, Regrown, MakePath, Route;
    AllRegrownSelf(b);
    var s := b.store[sid];
    if s.topic.Some? {
      var t := s.topic.value;
      if retain {
        StopsRegrow(Keep(b, t, if s.empty then None else Some(sid)), Route(MakePath(b.subs, t), t), t, s.qos, sid, acl);
      } else {
        StopsRegrow(b, Route(b.subs, t), t, s.qos, sid, acl);
      }
    }
  }

  // ----- the loop ---------------------------------------------------------------------------

  /** At most `left` handshakes with the packet id stand at place `i` or behind it. */
  ghost predicate AtMost(ms: seq<Entry>, i: nat, mid: nat, left: nat) {
    i <= |ms| ==> Tally(ms[i..], WithMid(mid)) <= left
  }

  /** The entry at place `i` ended its handshake: what is left is what was behind it. */
  lemma RegrownLeft(a: seq<Entry>, b: seq<Entry>, i: nat, mid: nat)
    requires Regrown(a, b) && i < |a| && i < |b| && a[i].mid == mid && a[i].dir == In
    ensures Tally(a[i..], WithMid(mid)) > 0
    ensures AtMost(b[..i] + b[i + 1..], i, mid, Tally(a[i..], WithMid(mid)) - 1)
  {
    var w := WithMid(mid);
    var k: nat :| CommonTo(a, b, k);
    TallySplit(a, i, w);
    assert (b[..i] + b[i + 1..])[i..] == b[i + 1..];
    if k <= i {
      TallyNone(b[i + 1..], w);
    } else {
      assert a[i + 1..] == a[i + 1..k] + a[k..] && b[i + 1..] == b[i + 1..k] + b[k..];
      assert a[i + 1..k] == a[..k][i + 1..] == b[..k][i + 1..] == b[i + 1..k];
      TallyAppend(a[i + 1..k], a[k..], w);
      TallyAppend(b[i + 1..k], b[k..], w);
      TallyNone(b[k..], w);
    }
  }

  lemma ReleasedLeft(b: Db, c: nat, i: nat, acl: Acl, mid: nat, left: nat)
    requires c < |b.clients| && i < |b.clients[c].msgs| && AtMost(b.clients[c].msgs, i, mid, left)
    requires b.clients[c].msgs[i].mid == mid && b.clients[c].msgs[i].dir == In
    ensures left > 0 && AtMost(Released(b, c, i, acl).clients[c].msgs, i, mid, left - 1)
  {
    hide Handover, Regrown, Tally;
    var e, ms := b.clients[c].msgs[i], b.clients[c].msgs;
    var b1 := if e.store in b.store then Handover(b, e.store, e.retain, acl) else b;
    AllRegrownSelf(b);
    if e.store in b.store {
      HandoverRegrows(b, e.store, e.retain, acl);
    }
    RegrownSelf(ms);
    RegrownLeft(ms, ms, i, mid);
    var ms1 := b1.clients[c].msgs;
    if i < |ms1| {
      RegrownLeft(ms, ms1, i, mid);
      assert Finish(b1, c, i).clients[c].msgs == ms1[..i] + ms1[i + 1..];
    } else if i == |ms1| {
      assert ms1[i..] == [];
      TallyNone([], WithMid(mid));
    }
  }

  lemma PromoteLeft(b: Db, c: nat, i: nat, msgIndex: nat, mid: nat, left: nat)
    requires c < |b.clients| && i < |b.clients[c].msgs| && AtMost(b.clients[c].msgs, i, mid, left)
    ensures AtMost(Promote(b, c, i, msgIndex).clients[c].msgs, i, mid, left)
  {
    PromoteAhead(b, c, i, msgIndex, mid, Tally(b.clients[c].msgs[..i], WithMid(mid)),
                 Tally(b.clients[c].msgs[i..], WithMid(mid)));
  }

  lemma LeftAtStart(ms: seq<Entry>, mid: nat)
    ensures AtMost(ms, 0, mid, Tally(ms, WithMid(mid)))
  {
    assert ms[0..] == ms;
  }

  /** One turn of the loop: what it comes to, and how many handshakes are left. */
  lemma ReleaseTurn(b: Db, c: nat, mid: nat, i: nat, msgIndex: nat, deleted: bool, left: nat, acl: Acl)
    requires c < |b.clients| && i < |b.clients[c].msgs| && AtMost(b.clients[c].msgs, i, mid, left)
    ensures var b1 := Promote(b, c, i, msgIndex + 1);
      var e := b1.clients[c].msgs[i];
      var hit := e.mid == mid && e.dir == In;
      var next := if hit then Released(b1, c, i, acl) else b1;
      var j, del, m := if hit then i else i + 1, deleted || hit, if hit then left - 1 else left;
      && (hit ==> left > 0) && AtMost(next.clients[c].msgs, j, mid, m)
      && ReleaseFrom(b, c, mid, i, msgIndex, deleted, left, acl) ==
           if msgIndex + 1 > b.cfg.maxInflight && del then next
           else ReleaseFrom(next, c, mid, j, msgIndex + 1, del, m, acl)
  {
    hide Released, Promote, ReleaseFrom;
    PromoteLeft(b, c, i, msgIndex + 1, mid, left);
    var b1 := Promote(b, c, i, msgIndex + 1);
    TallySplit(b1.clients[c].msgs, i, WithMid(mid));
    ReleaseUnfolds(b, c, mid, i, msgIndex, deleted, left, acl);
    var e := b1.clients[c].msgs[i];
    if e.mid == mid && e.dir == In {
      ReleasedLeft(b1, c, i, acl, mid, left);
    }
  }
}

/** What PUBREL brings to whom: the message of its handshake goes to the subscribers like any
    other message, and the queue it came from closes up. */
module Handovers {
  import opened Options
  import opened SubTree
  import opened Queues
  import opened Broker
  import opened BrokerLaws
  import opened BrokerOps
  import opened Acks
  import opened Delivery
  import opened Publishes
  import opened Rules

  // ----- up to the handshake ----------------------------------------------------------------

  /** The queue with the entries from place `i` to `k` let into the window, those of old places
      from `at` on. */
  ghost predicate Filled(ms: seq<Entry>, ns: seq<Entry>, i: nat, k: nat, at: nat, n: nat) {
    && |ns| == |ms| && i <= k <= |ms|
    && forall j :: 0 <= j < |ms| ==> ns[j] == if i <= j < k then Slid(ms[j], at + (j - i), n) else ms[j]
  }

  /** No entry from place `i` to `k` is a handshake under the packet id. */
  predicate NoneShakes(ms: seq<Entry>, mid: nat, i: nat, k: nat) {
    forall j :: i <= j < k && j < |ms| ==> !(ms[j].dir == In && ms[j].mid == mid)
  }

  /** Only the queue of client `c` has changed. */
  ghost predicate SameBut(b: Db, r: Db, c: nat)
    requires c < |b.clients|
  {
    c < |r.clients| && r == PutClient(b, c, b.clients[c].(msgs := r.clients[c].msgs))
  }

  lemma SameButOn(a: Db, b: Db, r: Db, c: nat)
    requires c < |a.clients| && SameBut(a, b, c) && SameBut(b, r, c)
    ensures SameBut(a, r, c)
  {
  }

  lemma PromoteSlides(b: Db, c: nat, i: nat, at: nat)
    requires c < |b.clients| && i < |b.clients[c].msgs|
    ensures var r, ms := Promote(b, c, i, at + 1), b.clients[c].msgs;
      SameBut(b, r, c) && r.clients[c].msgs == ms[i := Slid(ms[i], at, b.cfg.maxInflight)]
  {
    PromotedIs(b.clients[c].msgs[i]);
    assert b.clients[c := b.clients[c]] == b.clients;
  }

  lemma SlidSame(e: Entry, at: nat, n: nat)
    ensures var f := Slid(e, at, n); SameEntry(e, f)
    ensures at >= n ==> Slid(e, at, n) == e
  {
  }

  /** The loop comes to place `k`. */
  lemma {:induction false} RunsUp(b: Db, c: nat, mid: nat, i: nat, k: nat, left: nat, acl: Acl) returns (r: Db)
    requires Inv(b) && c < |b.clients| && i <= k <= |b.clients[c].msgs| && NoneShakes(b.clients[c].msgs, mid, i, k)
    ensures Inv(r) && SameBut(b, r, c) && Filled(b.clients[c].msgs, r.clients[c].msgs, i, k, i, b.cfg.maxInflight)
    ensures ReleaseFrom(b, c, mid, i, i, false, left, acl) == ReleaseFrom(r, c, mid, k, k, false, left, acl)
    decreases k - i
  {
    hide Inv, ReleaseFrom, Promote, Released, Slid;
    var ms := b.clients[c].msgs;
    if i == k {
      r := b;
      assert b.clients[c := b.clients[c]] == b.clients;
    } else {
      var b1 := Promote(b, c, i, i + 1);
      PromoteKeepsInv(b, c, i, i + 1);
      PromoteSlides(b, c, i, i);
      SlidSame(ms[i], i, b.cfg.maxInflight);
      ReleaseUnfolds(b, c, mid, i, i, false, left, acl);
      r := RunsUp(b1, c, mid, i + 1, k, left, acl);
      SameButOn(b, b1, r, c);
    }
  }

  /** Behind the last handshake the loop only lets entries into the window. */
  lemma {:induction false} RunsOut(b: Db, c: nat, mid: nat, i: nat, at: nat, deleted: bool, left: nat, acl: Acl)
    requires c < |b.clients| && i <= |b.clients[c].msgs| && NoneShakes(b.clients[c].msgs, mid, i, |b.clients[c].msgs|)
    ensures var r, ms := ReleaseFrom(b, c, mid, i, at, deleted, left, acl), b.clients[c].msgs;
      SameBut(b, r, c) && Filled(ms, r.clients[c].msgs, i, |ms|, at, b.cfg.maxInflight)
    decreases |b.clients[c].msgs| - i
  {
    hide ReleaseFrom, Promote, Released, Slid;
    var ms, n := b.clients[c].msgs, b.cfg.maxInflight;
    assert b.clients[c := b.clients[c]] == b.clients;
    if i == |ms| {
      ReleaseStops(b, c, mid, i, at, deleted, left, acl);
    } else {
      var b1 := Promote(b, c, i, at + 1);
      PromoteSlides(b, c, i, at);
      SlidSame(ms[i], at, n);
      ReleaseUnfolds(b, c, mid, i, at, deleted, left, acl);
      if at + 1 > n && deleted {
        forall j | i <= j < |ms| ensures Slid(ms[j], at + (j - i), n) == ms[j] {
          SlidSame(ms[j], at + (j - i), n);
        }
      } else {
        RunsOut(b1, c, mid, i + 1, at + 1, deleted, left, acl);
        SameButOn(b, b1, ReleaseFrom(b1, c, mid, i + 1, at + 1, deleted, left, acl), c);
      }
    }
  }

  lemma NoHandshakeIs(cl: Client, mid: nat)
    requires NoHandshake(cl, mid)
    ensures NoneShakes(cl.msgs, mid, 0, |cl.msgs|)
  {
    forall j | 0 <= j < |cl.msgs| ensures !(cl.msgs[j].dir == In && cl.msgs[j].mid == mid) {
      assert !Shaking(cl, mid, j);
    }
  }

  /** PUBREL with a packet id under which no handshake is open: queued entries that stand within
      the window come into it, and nothing else changes. */
  ghost predicate Slides(b: Db, r: Db, c: nat)
    requires c < |b.clients|
  {
    var ms := b.clients[c].msgs;
    && SameBut(b, r, c) && |r.clients[c].msgs| == |ms|
    && forall j :: 0 <= j < |ms| ==> r.clients[c].msgs[j] == Slid(ms[j], j, b.cfg.maxInflight)
  }

  lemma PubrelUnknown(b: Db, c: nat, mid: nat, acl: Acl)
    requires c < |b.clients| && NoHandshake(b.clients[c], mid)
    ensures Slides(b, HandlePubrel(b, c, mid, acl), c)
  {
    hide ReleaseFrom, Slid;
    NoHandshakeIs(b.clients[c], mid);
    RunsOut(b, c, mid, 0, 0, false, Tally(b.clients[c].msgs, WithMid(mid)), acl);
  }

  // ----- the handshake ----------------------------------------------------------------------

  /** Its entry gone, and those behind moved up; what stands within the window comes into it. */
  ghost predicate ClosedUp(ns: seq<Entry>, rs: seq<Entry>, k: nat, n: nat) {
    && k < |ns| && |rs| == |ns| - 1
    && forall j :: 0 <= j < |rs| ==> var o := if j < k then j else j + 1; rs[j] == Slid(ns[o], o, n)
  }

  /** What the release itself makes of a state in which it has been handed over. */
  lemma FinishIs(b: Db, c: nat, k: nat)
    requires c < |b.clients| && k < |b.clients[c].msgs|
    ensures var r, ms := Finish(b, c, k), b.clients[c].msgs;
      && r.subs == b.subs && |r.clients| == |b.clients| && r.clients[c].msgs == ms[..k] + ms[k + 1..]
      && SameClient(b.clients[c], r.clients[c]) && TextsKept(b.store, r.store)
      && forall d :: 0 <= d < |b.clients| && d != c ==> r.clients[d] == b.clients[d]
  {
  }

  /** Sharing out depends on a client's place in the window, not on its entries. */
  lemma SameShare(cfg: Config, s: Subs, a: Client, b: Client, had: bool, topic: string, qos: Hierarchy.Qos,
                  retain: bool, sid: nat, acl: Acl)
    requires SameRoom(a, b)
    ensures Share(cfg, s, a, had, topic, qos, retain, sid, acl) == Share(cfg, s, b, had, topic, qos, retain, sid, acl)
  {
    BringsSame(cfg, a, b, Looked(s, topic, retain, acl), qos, sid);
  }

  /** The state in which the handshake at place `k` is handed over: up to there the window is
      filled, and nothing else has changed. */
  ghost predicate Ready(b: Db, r: Db, c: nat, k: nat)
    requires c < |b.clients|
  {
    && Inv(r) && SameBut(b, r, c)
    && k < |b.clients[c].msgs|
    && Filled(b.clients[c].msgs, r.clients[c].msgs, 0, k + 1, 0, b.cfg.maxInflight)
  }

  lemma OthersDoNotShake(b: Db, c: nat, mid: nat, k: nat)
    requires Inv(b) && c < |b.clients| && Shaking(b.clients[c], mid, k)
    ensures var ms := b.clients[c].msgs; NoneShakes(ms, mid, 0, k) && NoneShakes(ms, mid, k + 1, |ms|)
    ensures Tally(b.clients[c].msgs, WithMid(mid)) > 0
  {
    var ms := b.clients[c].msgs;
    InvAt(b, c, 0);
    forall j | 0 <= j < |ms| && ms[j].dir == In && ms[j].mid == mid ensures j == k {
      OnlyOne(ms, mid, j, k);
    }
    TallyEdit(ms, k, ms[k].(dir := Out), WithMid(mid));
  }

  /** The loop gets to the handshake and releases it. */
  lemma GetsReady(b: Db, c: nat, mid: nat, k: nat, acl: Acl) returns (r: Db)
    requires Inv(b) && c < |b.clients| && Shaking(b.clients[c], mid, k)
    ensures Ready(b, r, c, k)
    ensures var left := Tally(b.clients[c].msgs, WithMid(mid));
      left > 0 && HandlePubrel(b, c, mid, acl) ==
        if k + 1 > b.cfg.maxInflight then Released(r, c, k, acl)
        else ReleaseFrom(Released(r, c, k, acl), c, mid, k, k + 1, true, left - 1, acl)
  {
    hide Inv, ReleaseFrom, Promote, Released, Slid, Tally, NoneShakes, SameBut, Filled;
    var ms, left := b.clients[c].msgs, Tally(b.clients[c].msgs, WithMid(mid));
    OthersDoNotShake(b, c, mid, k);
    var b1 := RunsUp(b, c, mid, 0, k, left, acl);
    SameButIs(b, b1, c);
    ClosesOne(b, b1, c, k);
    r := Promote(b1, c, k, k + 1);
    PromoteKeepsInv(b1, c, k, k + 1);
    SameButOn(b, b1, r, c);
    ReleaseUnfolds(b1, c, mid, k, k, false, left, acl);
  }

  lemma SameButIs(b: Db, r: Db, c: nat)
    requires c < |b.clients| && SameBut(b, r, c)
    ensures r.cfg == b.cfg && r.subs == b.subs && r.store == b.store && |r.clients| == |b.clients|
    ensures SameRoom(b.clients[c], r.clients[c])
    ensures forall d :: 0 <= d < |b.clients| && d != c ==> r.clients[d] == b.clients[d]
  {
  }

  lemma ClosesOne(b: Db, b1: Db, c: nat, k: nat)
    requires c < |b.clients| && SameBut(b, b1, c) && k < |b.clients[c].msgs|
    requires Filled(b.clients[c].msgs, b1.clients[c].msgs, 0, k, 0, b.cfg.maxInflight)
    ensures k < |b1.clients[c].msgs|
    ensures var r := Promote(b1, c, k, k + 1);
      && SameBut(b1, r, c) && Filled(b.clients[c].msgs, r.clients[c].msgs, 0, k + 1, 0, b.cfg.maxInflight)
      && SameEntry(b.clients[c].msgs[k], r.clients[c].msgs[k])
  {
    hide Promote, Slid;
    PromoteSlides(b1, c, k, k);
    SlidSame(b.clients[c].msgs[k], k, b.cfg.maxInflight);
  }

  /** The released message in the state it is handed over in, and how its queue is left. */
  lemma ReleasedHands(b: Db, c: nat, k: nat, acl: Acl) returns (q: Db)
    requires Inv(b) && DistinctClientIds(b.clients) && c < |b.clients| && k < |b.clients[c].msgs|
    requires b.clients[c].msgs[k].dir == In
    requires b.clients[c].msgs[k].store in b.store && b.store[b.clients[c].msgs[k].store].topic.Some?
    ensures var e := b.clients[c].msgs[k];
      var s := b.store[e.store];
      && Handed(b, q, e.store, s.topic.value, s.qos, e.retain, s.empty, s.destIds, acl)
      && q.cfg == b.cfg && TextsKept(b.store, q.store)
      && k < |q.clients[c].msgs| && Released(b, c, k, acl) == Finish(q, c, k)
  {
    var e := b.clients[c].msgs[k];
    var s := b.store[e.store];
    var t := s.topic.value;
    assert StoredOk(b.cfg, s);
    q := QueueMessage(b, t, s.qos, e.retain, e.store, acl);
    hide Inv, QueueMessage, Handed, Finish, Share;
    MessageHanded(b, t, s.qos, e.retain, e.store, acl);
    QueueStores(b, t, s.qos, e.retain, e.store, acl);
    assert Shared(b.cfg, b.subs, b.clients[c], q.clients[c], e.store, t, s.qos, e.retain, s.destIds, acl) by {
      HandedAt(b, q, e.store, t, s.qos, e.retain, s.empty, s.destIds, acl, c);
    }
  }

  lemma HandedAt(b: Db, r: Db, sid: nat, topic: string, qos: Hierarchy.Qos, retain: bool, empty: bool,
                 seen: seq<string>, acl: Acl, d: nat)
    requires Handed(b, r, sid, topic, qos, retain, empty, seen, acl) && d < |b.clients|
    ensures |r.clients| == |b.clients|
    ensures Shared(b.cfg, b.subs, b.clients[d], r.clients[d], sid, topic, qos, retain, seen, acl)
    ensures KeptInTree(b.subs, r.subs, topic, if empty then None else Some(sid), retain)
  {
  }

  // ----- PUBREL as a whole --------------------------------------------------------------------

  /** The queue of the client itself: it gets its share like the others, then the handshake leaves
      and the window closes up. */
  ghost predicate OwnQueue(b: Db, r: Db, c: nat, k: nat, es: seq<Entrance>)
    requires c < |b.clients| && c < |r.clients|
  {
    exists n: Client :: (Brought(b.clients[c], n, es) && ClosedUp(n.msgs, r.clients[c].msgs, k, b.cfg.maxInflight))
  }

  /** From the queue at the hand-over to the queue in the end. */
  lemma ClosesUp(ms: seq<Entry>, ready: seq<Entry>, handed: seq<Entry>, rs: seq<Entry>, k: nat, n: nat)
    requires k < |ms| && Filled(ms, ready, 0, k + 1, 0, n) && ready <= handed
    requires Filled(handed[..k] + handed[k + 1..], rs, k, |handed| - 1, k + 1, n)
    ensures ClosedUp(ms + handed[|ms|..], rs, k, n)
  {
    hide Slid;
    var ns := ms + handed[|ms|..];
    forall j | 0 <= j < |rs| ensures var o := if j < k then j else j + 1; rs[j] == Slid(ns[o], o, n) {
      if j < k {
        assert (handed[..k] + handed[k + 1..])[j] == handed[j] == ready[j];
      } else {
        assert (handed[..k] + handed[k + 1..])[j] == handed[j + 1];
        assert ns[j + 1] == handed[j + 1];
      }
    }
  }

  /** No handshake under the packet id is left behind the one that was released. */
  lemma NoneLeft(ms: seq<Entry>, ready: seq<Entry>, handed: seq<Entry>, mid: nat, k: nat, n: nat)
    requires k < |ms| && NoneShakes(ms, mid, k + 1, |ms|) && Filled(ms, ready, 0, k + 1, 0, n) && ready <= handed
    requires forall j :: |ms| <= j < |handed| ==> handed[j].dir == Out
    ensures var left := handed[..k] + handed[k + 1..]; NoneShakes(left, mid, k, |left|)
  {
    hide Slid;
    var left := handed[..k] + handed[k + 1..];
    forall j | k <= j < |left| ensures !(left[j].dir == In && left[j].mid == mid) {
      assert left[j] == handed[j + 1];
      if j + 1 < |ms| {
        assert handed[j + 1] == ready[j + 1] == ms[j + 1];
      }
    }
  }

  lemma BroughtIs(cl: Client, n: Client, es: seq<Entrance>)
    requires Brought(cl, n, es)
    ensures cl.msgs <= n.msgs && forall j :: |cl.msgs| <= j < |n.msgs| ==> n.msgs[j].dir == Out
  {
    forall j | |cl.msgs| <= j < |n.msgs| ensures n.msgs[j].dir == Out {
      assert IsEntrance(n.msgs[|cl.msgs| + (j - |cl.msgs|)], es[j - |cl.msgs|]);
    }
  }

  /** The same entries behind another queue. */
  lemma BroughtBehind(cl: Client, n: Client, es: seq<Entrance>, x: Client, m: Client)
    requires Brought(cl, n, es) && |cl.msgs| <= |n.msgs| && m.msgs == x.msgs + n.msgs[|cl.msgs|..]
    ensures Brought(x, m, es)
  {
    forall i | 0 <= i < |es| ensures IsEntrance(m.msgs[|x.msgs| + i], es[i]) {
      assert m.msgs[|x.msgs| + i] == n.msgs[|cl.msgs| + i];
    }
  }

  /** The client's own queue, step by step: `y` is the state at the hand-over, `q` the one behind
      it, and `f` the one in which the handshake is gone. */
  lemma OwnQueueIs(b: Db, y: Db, q: Db, r: Db, c: nat, mid: nat, k: nat, es: seq<Entrance>)
    requires c < |b.clients| == |y.clients| == |q.clients| == |r.clients| && k < |b.clients[c].msgs|
    requires Filled(b.clients[c].msgs, y.clients[c].msgs, 0, k + 1, 0, b.cfg.maxInflight)
    requires Brought(y.clients[c], q.clients[c], es) && k < |q.clients[c].msgs|
    requires var hs := q.clients[c].msgs;
      Filled(hs[..k] + hs[k + 1..], r.clients[c].msgs, k, |hs| - 1, k + 1, b.cfg.maxInflight)
    ensures OwnQueue(b, r, c, k, es)
  {
    hide Filled, Brought, ClosedUp;
    var ms, hs := b.clients[c].msgs, q.clients[c].msgs;
    BroughtIs(y.clients[c], q.clients[c], es);
    ClosedLength(ms, y.clients[c].msgs, 0, k + 1, 0, b.cfg.maxInflight);
    var n := b.clients[c].(msgs := ms + hs[|ms|..]);
    BroughtBehind(y.clients[c], q.clients[c], es, b.clients[c], n);
    ClosesUp(ms, y.clients[c].msgs, hs, r.clients[c].msgs, k, b.cfg.maxInflight);
  }

  lemma ClosedLength(ms: seq<Entry>, ns: seq<Entry>, i: nat, k: nat, at: nat, n: nat)
    requires Filled(ms, ns, i, k, at, n)
    ensures |ns| == |ms|
  {
  }

  /** The rest of the loop, whether it is made or not. */
  lemma RestOfLoop(f: Db, c: nat, mid: nat, k: nat, left: nat, acl: Acl)
    requires c < |f.clients| && k <= |f.clients[c].msgs| && NoneShakes(f.clients[c].msgs, mid, k, |f.clients[c].msgs|)
    ensures var r, ms, n := if k + 1 > f.cfg.maxInflight then f else ReleaseFrom(f, c, mid, k, k + 1, true, left, acl),
                            f.clients[c].msgs, f.cfg.maxInflight;
      SameBut(f, r, c) && Filled(ms, r.clients[c].msgs, k, |ms|, k + 1, n)
  {
    hide ReleaseFrom, Slid;
    if k + 1 > f.cfg.maxInflight {
      assert f.clients[c := f.clients[c]] == f.clients;
      forall j | k <= j < |f.clients[c].msgs| {
        SlidSame(f.clients[c].msgs[j], k + 1 + (j - k), f.cfg.maxInflight);
      }
    } else {
      RunsOut(f, c, mid, k, k + 1, true, left, acl);
    }
  }

  lemma ReadyEntry(b: Db, y: Db, c: nat, k: nat)
    requires c < |b.clients| && Ready(b, y, c, k)
    ensures SameBut(b, y, c) && Inv(y) && |y.clients[c].msgs| == |b.clients[c].msgs|
    ensures SameEntry(b.clients[c].msgs[k], y.clients[c].msgs[k])
    ensures Filled(b.clients[c].msgs, y.clients[c].msgs, 0, k + 1, 0, b.cfg.maxInflight)
    ensures DistinctClientIds(b.clients) ==> DistinctClientIds(y.clients)
  {
    hide Inv, Slid;
    SlidSame(b.clients[c].msgs[k], k, b.cfg.maxInflight);
  }

  lemma OwnShare(b: Db, y: Db, q: Db, c: nat, topic: string, qos: Hierarchy.Qos, retain: bool, sid: nat,
                 seen: seq<string>, acl: Acl)
    requires c < |b.clients| == |y.clients| == |q.clients| && SameRoom(b.clients[c], y.clients[c])
    requires Shared(b.cfg, b.subs, y.clients[c], q.clients[c], sid, topic, qos, retain, seen, acl)
    ensures Brought(y.clients[c], q.clients[c],
                    Share(b.cfg, b.subs, b.clients[c], b.clients[c].id in seen, topic, qos, retain, sid, acl))
    ensures SameClient(b.clients[c], q.clients[c])
  {
    hide Share, Brought;
    SameShare(b.cfg, b.subs, b.clients[c], y.clients[c], b.clients[c].id in seen, topic, qos, retain, sid, acl);
  }

  lemma ReadyNoneLeft(b: Db, y: Db, c: nat, mid: nat, k: nat, handed: seq<Entry>)
    requires c < |b.clients| == |y.clients| && k < |b.clients[c].msgs|
    requires Filled(b.clients[c].msgs, y.clients[c].msgs, 0, k + 1, 0, b.cfg.maxInflight)
    requires NoneShakes(b.clients[c].msgs, mid, k + 1, |b.clients[c].msgs|) && y.clients[c].msgs <= handed
    requires forall j :: |y.clients[c].msgs| <= j < |handed| ==> handed[j].dir == Out
    ensures var left := handed[..k] + handed[k + 1..]; NoneShakes(left, mid, k, |left|)
  {
    hide Slid;
    NoneLeft(b.clients[c].msgs, y.clients[c].msgs, handed, mid, k, b.cfg.maxInflight);
  }

  /** PUBREL for an open handshake: every other client gets its share of the message, the tree
      keeps it if it is flagged so, and in the queue of the client itself the handshake is gone. */
  ghost predicate PassesOn(b: Db, r: Db, c: nat, k: nat, s: Stored, topic: string, acl: Acl)
    requires c < |b.clients| && k < |b.clients[c].msgs|
  {
    var e, own := b.clients[c].msgs[k], b.clients[c].id in s.destIds;
    && |r.clients| == |b.clients|
    && (forall d :: 0 <= d < |b.clients| && d != c ==>
          Shared(b.cfg, b.subs, b.clients[d], r.clients[d], e.store, topic, s.qos, e.retain, s.destIds, acl))
    && SameClient(b.clients[c], r.clients[c]) && TextsKept(b.store, r.store)
    && OwnQueue(b, r, c, k, Share(b.cfg, b.subs, b.clients[c], own, topic, s.qos, e.retain, e.store, acl))
    && KeptInTree(b.subs, r.subs, topic, if s.empty then None else Some(e.store), e.retain)
  }

  lemma PubrelBrings(b: Db, c: nat, mid: nat, k: nat, acl: Acl)
    requires Inv(b) && DistinctClientIds(b.clients) && c < |b.clients| && Shaking(b.clients[c], mid, k)
    requires var x := b.clients[c].msgs[k].store; x in b.store && b.store[x].topic.Some?
    ensures var s := b.store[b.clients[c].msgs[k].store];
      PassesOn(b, HandlePubrel(b, c, mid, acl), c, k, s, s.topic.value, acl)
  {
    hide Inv, ReleaseFrom, Released, Tally, Shared, KeptInTree, OwnQueue, Share, Brought, Filled, NoneShakes, Finish;
    var ms, n := b.clients[c].msgs, b.cfg.maxInflight;
    var e := ms[k];
    var s, left := b.store[e.store], Tally(ms, WithMid(mid));
    var t := s.topic.value;
    OthersDoNotShake(b, c, mid, k);
    var y := GetsReady(b, c, mid, k, acl);
    SameButIs(b, y, c);
    ReadyEntry(b, y, c, k);
    var q := ReleasedHands(y, c, k, acl);
    var f := Finish(q, c, k);
    FinishIs(q, c, k);
    forall d | 0 <= d < |b.clients|
      ensures Shared(b.cfg, b.subs, y.clients[d], q.clients[d], e.store, t, s.qos, e.retain, s.destIds, acl)
    {
      HandedAt(y, q, e.store, t, s.qos, e.retain, s.empty, s.destIds, acl, d);
    }
    OwnShare(b, y, q, c, t, s.qos, e.retain, e.store, s.destIds, acl);
    var es := Share(b.cfg, b.subs, b.clients[c], b.clients[c].id in s.destIds, t, s.qos, e.retain, e.store, acl);
    BroughtIs(y.clients[c], q.clients[c], es);
    ReadyNoneLeft(b, y, c, mid, k, q.clients[c].msgs);
    RestOfLoop(f, c, mid, k, left - 1, acl);
    var r := HandlePubrel(b, c, mid, acl);
    SameButIs(f, r, c);
    OwnQueueIs(b, y, q, r, c, mid, k, es);
  }

  /** PUBREL for a message that was refused: the handshake is gone, and nobody hears of it. */
  ghost predicate Drops(b: Db, r: Db, c: nat, k: nat)
    requires c < |b.clients|
  {
    && |r.clients| == |b.clients| && r.subs == b.subs
    && (forall d :: 0 <= d < |b.clients| && d != c ==> r.clients[d] == b.clients[d])
    && SameClient(b.clients[c], r.clients[c]) && TextsKept(b.store, r.store) && OwnQueue(b, r, c, k, [])
  }

  lemma PubrelDrops(b: Db, c: nat, mid: nat, k: nat, acl: Acl)
    requires Inv(b) && c < |b.clients| && Shaking(b.clients[c], mid, k)
    requires var x := b.clients[c].msgs[k].store; x in b.store && b.store[x].topic.None?
    ensures Drops(b, HandlePubrel(b, c, mid, acl), c, k)
  {
    hide Inv, ReleaseFrom, Tally, OwnQueue, Brought, Filled, NoneShakes, Finish;
    OthersDoNotShake(b, c, mid, k);
    var y := GetsReady(b, c, mid, k, acl);
    SameButIs(b, y, c);
    ReadyEntry(b, y, c, k);
    var f := Finish(y, c, k);
    assert Released(y, c, k, acl) == f;
    FinishIs(y, c, k);
    NothingBrought(y.clients[c], y.clients[c]);
    ReadyNoneLeft(b, y, c, mid, k, y.clients[c].msgs);
    RestOfLoop(f, c, mid, k, Tally(b.clients[c].msgs, WithMid(mid)) - 1, acl);
    var r := HandlePubrel(b, c, mid, acl);
    SameButIs(f, r, c);
    OwnQueueIs(b, y, y, r, c, mid, k, []);
  }

  /** All that PUBREL can do. */
  ghost predicate Releases(b: Db, r: Db, c: nat, mid: nat, acl: Acl)
    requires c < |b.clients|
  {
    && (NoHandshake(b.clients[c], mid) ==> Slides(b, r, c))
    && forall k: nat :: Shaking(b.clients[c], mid, k) ==>
         var x := b.clients[c].msgs[k].store;
         && x in b.store
         && match b.store[x].topic
            case Some(t) => PassesOn(b, r, c, k, b.store[x], t, acl)
            case None => Drops(b, r, c, k)
  }

  lemma PubrelReleases(b: Db, c: nat, mid: nat, acl: Acl)
    requires Inv(b) && DistinctClientIds(b.clients) && c < |b.clients|
    ensures Releases(b, HandlePubrel(b, c, mid, acl), c, mid, acl)
  {
    hide Inv, DistinctClientIds, HandlePubrel, Slides, PassesOn, Drops;
    if NoHandshake(b.clients[c], mid) {
      PubrelUnknown(b, c, mid, acl);
    }
    forall k: nat | Shaking(b.clients[c], mid, k)
      ensures var x := b.clients[c].msgs[k].store;
        && x in b.store
        && match b.store[x].topic
           case Some(t) => PassesOn(b, HandlePubrel(b, c, mid, acl), c, k, b.store[x], t, acl)
           case None => Drops(b, HandlePubrel(b, c, mid, acl), c, k)
    {
      EntryIsStored(b, c, k);
      if b.store[b.clients[c].msgs[k].store].topic.Some? {
        PubrelBrings(b, c, mid, k, acl);
      } else {
        PubrelDrops(b, c, mid, k, acl);
      }
    }
  }
}

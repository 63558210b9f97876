/** Every entry point keeps the invariant of the broker. */
module BrokerOps {
  import opened Options
  import opened Topics
  import opened Hierarchy
  import opened SubTree
  import opened Queues
  import opened Broker
  import opened BrokerLaws

  // ----- insert and route -------------------------------------------------------

  /** No inbound handshake under this packet id, and a message nobody has accepted yet. */
  ghost predicate Unclaimed(b: Db, c: nat, mid: nat, sid: nat)
    requires c < |b.clients| && sid in b.store
  {
    var s := b.store[sid];
    mid == s.sourceMid && Tally(b.clients[c].msgs, WithMid(mid)) == 0
    && s.accepted == s.routed == s.swept == s.denied == 0
  }

  /** Only an entry that finds room is put in flight. */
  lemma PlacedEntryOk(b: Db, c: nat, mid: nat, dir: Dir, qos: Qos, retain: bool, sid: nat)
    requires c < |b.clients| && Placed(b.cfg, b.clients[c], dir, qos).Place?
    ensures var e := NewEntry(b, sid, mid, dir, qos, retain, Placed(b.cfg, b.clients[c], dir, qos).state);
      EntryOk(e) && (b.cfg.maxInflight > 0 && Active(e) ==> b.clients[c].msgCount12 < b.cfg.maxInflight)
  {
  }

  lemma InsertKeepsInv(b: Db, c: nat, mid: nat, dir: Dir, qos: Qos, retain: bool, sid: nat)
    requires Inv(b) && c < |b.clients| && sid in b.store
    requires dir == In ==> qos == 2 && Unclaimed(b, c, mid, sid)
    ensures Inv(Insert(b, c, mid, dir, qos, retain, sid).0)
  {
    var placed := Placed(b.cfg, b.clients[c], dir, qos);
    if !SeenBefore(b, c, dir, retain, sid) && placed.Place? {
      PlacedEntryOk(b, c, mid, dir, qos, retain, sid);
      LinkKeepsInv(b, c, sid, NewEntry(b, sid, mid, dir, qos, retain, placed.state));
    }
  }

  lemma InsertExtends(b: Db, c: nat, mid: nat, qos: Qos, retain: bool, sid: nat)
    requires c < |b.clients| && sid in b.store && CountsOk(b.clients[c])
    ensures Extends(b, Insert(b, c, mid, Out, qos, retain, sid).0)
  {
    var placed := Placed(b.cfg, b.clients[c], Out, qos);
    if placed.Place? {
      LinkExtends(b, c, sid, NewEntry(b, sid, mid, Out, qos, retain, placed.state));
    }
  }

  /** A change of a client's other fields. */
  lemma TouchKeepsInv(b: Db, c: nat, cl: Client)
    requires Inv(b) && c < |b.clients| && cl.msgs == b.clients[c].msgs && CountsOk(cl)
    ensures Inv(PutClient(b, c, cl))
  {
    var r := PutClient(b, c, cl);
    forall x ensures Refs(r, x) == Refs(b, x) {
      TallyAllPut(b.clients, c, cl, RefersTo(x));
    }
    forall x ensures TallyAll(r.clients, InboundOf(x)) == TallyAll(b.clients, InboundOf(x)) {
      TallyAllPut(b.clients, c, cl, InboundOf(x));
    }
    assert ClientOk(b.clients[c], b.cfg.maxInflight);
  }

  lemma DrawKeepsCounts(cl: Client, mid: nat)
    ensures CountsOk(cl) ==> CountsOk(cl.(lastMid := mid))
  {
  }

  lemma TouchExtends(b: Db, c: nat, mid: nat)
    requires c < |b.clients|
    ensures Extends(b, PutClient(b, c, b.clients[c].(lastMid := mid)))
  {
  }

  lemma SendKeepsInv(b: Db, c: nat, qos: Qos, retain: bool, sid: nat)
    requires Inv(b) && c < |b.clients| && sid in b.store
    ensures Inv(Send(b, c, qos, retain, sid)) && Extends(b, Send(b, c, qos, retain, sid))
  {
    hide Inv, Insert, RefersTo, CountsOk;
    InvAt(b, c, sid);
    if qos > 0 {
      var mid := NextMid(b.clients[c].lastMid);
      var cl := b.clients[c].(lastMid := mid);
      DrawKeepsCounts(b.clients[c], mid);
      TouchKeepsInv(b, c, cl);
      TouchExtends(b, c, mid);
      InsertKeepsInv(PutClient(b, c, cl), c, mid, Out, qos, retain, sid);
      InsertExtends(PutClient(b, c, cl), c, mid, qos, retain, sid);
      ExtendsTransitive(b, PutClient(b, c, cl), Send(b, c, qos, retain, sid));
    } else {
      InsertKeepsInv(b, c, 0, Out, qos, retain, sid);
      InsertExtends(b, c, 0, qos, retain, sid);
    }
  }

  lemma {:induction false} SendToLeavesKeepsInv(b: Db, ls: seq<Leaf>, topic: string, qos: Qos, sid: nat, acl: Acl)
    requires Inv(b) && sid in b.store
    ensures Inv(SendToLeaves(b, ls, topic, qos, sid, acl)) && Extends(b, SendToLeaves(b, ls, topic, qos, sid, acl))
    decreases |ls|
  {
    hide Inv;
    if ls != [] {
      var l := ls[0];
      match acl(l.client, topic)
      case Failed =>
      case Refused => SendToLeavesKeepsInv(b, ls[1..], topic, qos, sid, acl);
      case Granted =>
        var c := FindClient(b.clients, l.client);
        var q := if b.cfg.upgradeQos then l.qos else Min(qos, l.qos);
        var b1 := if c < |b.clients| then Send(b, c, q, false, sid) else b;
        if c < |b.clients| {
          SendKeepsInv(b, c, q, false, sid);
        }
        SendToLeavesKeepsInv(b1, ls[1..], topic, qos, sid, acl);
        ExtendsTransitive(b, b1, SendToLeaves(b1, ls[1..], topic, qos, sid, acl));
    }
  }

  lemma {:induction false} SendToStopsKeepsInv(b: Db, vs: seq<At<Stop>>, topic: string, qos: Qos, sid: nat, acl: Acl)
    requires Inv(b) && sid in b.store
    ensures Inv(SendToStops(b, vs, topic, qos, sid, acl)) && Extends(b, SendToStops(b, vs, topic, qos, sid, acl))
    decreases |vs|
  {
    if vs != [] {
      var b1 := SendToLeaves(b, vs[0].item.leaves, topic, qos, sid, acl);
      SendToLeavesKeepsInv(b, vs[0].item.leaves, topic, qos, sid, acl);
      SendToStopsKeepsInv(b1, vs[1..], topic, qos, sid, acl);
      ExtendsTransitive(b, b1, SendToStops(b1, vs[1..], topic, qos, sid, acl));
    }
  }

  lemma SameButCount(cfg: Config, s: Stored, t: Stored, queued: nat)
    requires t == s.(refCount := t.refCount) && OnceOk(s, queued) && StoredOk(cfg, s)
    ensures OnceOk(t, queued) && StoredOk(cfg, t)
  {
  }

  /** A change of the tree and of reference counts that keeps the two in step. */
  lemma RefsMovedKeepsInv(b: Db, r: Db)
    requires Inv(b) && r.cfg == b.cfg && r.clients == b.clients && r.lastDbId == b.lastDbId
    requires r.store.Keys == b.store.Keys
    requires Valid(r.subs)
    requires forall x :: x in b.store ==> r.store[x] == b.store[x].(refCount := r.store[x].refCount)
    requires forall x ::
      Counted(r.store, x) - Counted(b.store, x) == RetCount(r.subs.root, Some(x)) - RetCount(b.subs.root, Some(x))
    ensures Inv(r) && Extends(b, r)
  {
    hide RetCount, TallyAll, Tally, ClientOk, StoredOk, OnceOk, Valid;
    forall x ensures Counted(r.store, x) == Refs(r, x) {
      assert Counted(b.store, x) == Refs(b, x);
    }
    forall x | x in r.store
      ensures OnceOk(r.store[x], TallyAll(r.clients, InboundOf(x))) && StoredOk(r.cfg, r.store[x])
    {
      SameButCount(b.cfg, b.store[x], r.store[x], TallyAll(b.clients, InboundOf(x)));
    }
    forall c | 0 <= c < |r.clients| ensures Filed(r.store, r.clients[c].msgs) {
      FiledStays(b.store, r.store, b.clients[c].msgs);
    }
  }

  lemma RetainedIsStored(b: Db, p: Levels)
    requires Inv(b) && RetOf(b.subs, p).Some?
    ensures RetOf(b.subs, p).value in b.store
  {
    var x := RetOf(b.subs, p).value;
    RetainedIsCounted(b.subs.root, Climb(p), x);
    assert Counted(b.store, x) == Refs(b, x);
  }

  lemma KeepKeepsInv(b: Db, topic: string, m: Option<nat>)
    requires Inv(b) && PlainLevels(Split(topic)) && (m.Some? ==> m.value in b.store)
    ensures Inv(Keep(b, topic, m)) && Extends(b, Keep(b, topic, m))
  {
    RetainPublishEffect(b.subs, topic, m, [], "");
    var r := Keep(b, topic, m);
    forall x
      ensures Counted(r.store, x) - Counted(b.store, x) ==
        RetCount(r.subs.root, Some(x)) - RetCount(b.subs.root, Some(x))
    {
      KeepCounts(b, topic, m, x);
    }
    KeepMovesCountsOnly(b, topic, m);
    RefsMovedKeepsInv(b, r);
  }

  lemma KeepMovesCountsOnly(b: Db, topic: string, m: Option<nat>)
    ensures var r := Keep(b, topic, m);
      && r.cfg == b.cfg && r.lastDbId == b.lastDbId
      && (r.subs == b.subs || r.subs == RetainPublish(b.subs, topic, m))
      && forall x :: x in b.store ==> r.store[x] == b.store[x].(refCount := r.store[x].refCount)
  {
    forall x | x in b.store
      ensures Keep(b, topic, m).store[x] == b.store[x].(refCount := Keep(b, topic, m).store[x].refCount)
    {
      if HasTop(b.subs, Tokens(topic)[0]) {
        var was := RetOf(b.subs, Tokens(topic));
        var store1 := if was.Some? then Ref(b.store, was.value, -1) else b.store;
        assert store1[x] == b.store[x].(refCount := store1[x].refCount);
      }
    }
  }

  lemma KeepCounts(b: Db, topic: string, m: Option<nat>, x: nat)
    requires Inv(b) && PlainLevels(Split(topic)) && (m.Some? ==> m.value in b.store)
    ensures Counted(Keep(b, topic, m).store, x) - Counted(b.store, x)
      == RetCount(Keep(b, topic, m).subs.root, Some(x)) - RetCount(b.subs.root, Some(x))
  {
    hide Counted, Keep, RetCount, RefsOk, AllOnceOk, InboundOk, ClientOk;
    if RetOf(b.subs, Tokens(topic)).Some? {
      RetainedIsStored(b, Tokens(topic));
    }
    StoredKeepCounts(b, topic, m, x);
  }

  lemma StoredKeepCounts(b: Db, topic: string, m: Option<nat>, x: nat)
    requires Valid(b.subs) && PlainLevels(Split(topic)) && (m.Some? ==> m.value in b.store)
    requires RetOf(b.subs, Tokens(topic)).Some? ==> RetOf(b.subs, Tokens(topic)).value in b.store
    ensures Counted(Keep(b, topic, m).store, x) - Counted(b.store, x)
      == RetCount(Keep(b, topic, m).subs.root, Some(x)) - RetCount(b.subs.root, Some(x))
  {
    hide Valid, RetCount, RetainPublish, RetOf;
    RetainPublishCounts(b.subs, topic, m, Some(x));
  }

  lemma DistributeKeepsInv(b: Db, topic: string, qos: Qos, retain: bool, sid: nat, acl: Acl)
    requires Inv(b) && sid in b.store && PlainLevels(Split(topic))
    ensures Inv(Distribute(b, topic, qos, retain, sid, acl)) && Extends(b, Distribute(b, topic, qos, retain, sid, acl))
  {
    if retain {
      var m := if b.store[sid].empty then None else Some(sid);
      KeepKeepsInv(b, topic, m);
      var vs := Route(MakePath(b.subs, topic), topic);
      SendToStopsKeepsInv(Keep(b, topic, m), vs, topic, qos, sid, acl);
      ExtendsTransitive(b, Keep(b, topic, m), SendToStops(Keep(b, topic, m), vs, topic, qos, sid, acl));
    } else {
      SendToStopsKeepsInv(b, Route(b.subs, topic), topic, qos, sid, acl);
    }
  }

  // ----- publish --------------------------------------------------------------

  /** The id a new message gets is not in use: nothing is overwritten, and no queue entry
      or tree node refers to it. */
  lemma StoreMessageKeepsInv(b: Db, mid: nat, topic: Option<string>, qos: Qos, retain: bool, empty: bool)
    requires Inv(b) && (topic.Some? ==> PlainLevels(Split(topic.value)))
    ensures var r := StoreMessage(b, mid, topic, qos, retain, empty);
      && r.lastDbId !in b.store && Refs(r, r.lastDbId) == 0 && Inv(r)
  {
    hide RetCount, TallyAll, Tally, ClientOk;
    var r := StoreMessage(b, mid, topic, qos, retain, empty);
    var sid := b.lastDbId + 1;
    assert sid !in b.store;
    assert Counted(b.store, sid) == Refs(b, sid);
    TallyAllLess(b.clients, InboundOf(sid), RefersTo(sid));
    forall x ensures Counted(r.store, x) == Refs(r, x) {
      assert Counted(b.store, x) == Refs(b, x);
    }
    forall c | 0 <= c < |r.clients| ensures Filed(r.store, r.clients[c].msgs) {
      assert Filed(b.store, b.clients[c].msgs);
    }
  }

  lemma {:induction false} NotFound(store: map<nat, Stored>, ms: seq<Entry>, mid: nat)
    requires Filed(store, ms) && StoreFind(store, ms, mid).None?
    ensures Tally(ms, WithMid(mid)) == 0
  {
    if ms != [] {
      assert forall i :: 0 <= i < |ms[1..]| ==> ms[1..][i] == ms[i + 1];
      NotFound(store, ms[1..], mid);
    }
  }

  lemma RoutedOk(cfg: Config, s: Stored)
    requires StoredOk(cfg, s)
    ensures StoredOk(cfg, s.(routed := s.routed + 1))
  {
  }

  lemma CountRoutedKeepsInv(b: Db, sid: nat)
    requires Inv(b) && sid in b.store && b.store[sid].accepted == 0 && b.store[sid].topic.Some?
    ensures Inv(CountRouted(b, sid))
  {
    hide RetCount, TallyAll, Tally, ClientOk, StoredOk, Filed;
    var r := CountRouted(b, sid);
    assert StoredOk(b.cfg, b.store[sid]);
    RoutedOk(b.cfg, b.store[sid]);
    forall x ensures Counted(r.store, x) == Refs(r, x) {
      assert Counted(b.store, x) == Refs(b, x);
    }
    assert OnceOk(b.store[sid], TallyAll(b.clients, InboundOf(sid)));
    forall c | 0 <= c < |r.clients| ensures Filed(r.store, r.clients[c].msgs) {
      FiledStays(b.store, r.store, b.clients[c].msgs);
    }
  }

  /** A client keeps the protocol's rule when it does not send a QoS 1 PUBLISH under a
      packet id that still has a QoS 2 handshake open. */
  ghost predicate FreshId(b: Db, c: nat, mid: nat, qos: Qos)
    requires c < |b.clients|
  {
    qos == 1 ==> StoreFind(b.store, b.clients[c].msgs, mid).None?
  }

  lemma HandlePublishKeepsInv(
    b: Db, c: nat, mid: nat, topic: string, qos: Qos, retain: bool, empty: bool, bad: bool, acl: Acl)
    requires Inv(b) && c < |b.clients| && PlainLevels(Split(topic))
    requires bad || FreshId(b, c, mid, qos)
    ensures Inv(HandlePublish(b, c, mid, topic, qos, retain, empty, bad, acl))
  {
    var found := if qos > 0 then StoreFind(b.store, b.clients[c].msgs, mid) else None;
    if found.None? {
      if bad {
        if qos == 2 {
          AcceptKeepsInv(b, c, mid, None, false, true);
        }
      } else if qos == 2 {
        AcceptKeepsInv(b, c, mid, Some(topic), retain, empty);
      } else {
        RouteNewKeepsInv(b, mid, topic, qos, retain, empty, acl);
      }
    }
  }

  lemma RouteNewKeepsInv(b: Db, mid: nat, topic: string, qos: Qos, retain: bool, empty: bool, acl: Acl)
    requires Inv(b) && PlainLevels(Split(topic))
    ensures var b1 := StoreMessage(b, mid, Some(topic), qos, retain, empty);
      Inv(QueueMessage(b1, topic, qos, retain, b1.lastDbId, acl))
  {
    var b1 := StoreMessage(b, mid, Some(topic), qos, retain, empty);
    StoreMessageKeepsInv(b, mid, Some(topic), qos, retain, empty);
    DistributeKeepsInv(b1, topic, qos, retain, b1.lastDbId, acl);
    CountRoutedKeepsInv(Distribute(b1, topic, qos, retain, b1.lastDbId, acl), b1.lastDbId);
  }

  lemma AcceptKeepsInv(b: Db, c: nat, mid: nat, topic: Option<string>, retain: bool, empty: bool)
    requires Inv(b) && c < |b.clients| && (topic.Some? ==> PlainLevels(Split(topic.value)))
    requires StoreFind(b.store, b.clients[c].msgs, mid).None?
    ensures var b1 := StoreMessage(b, mid, topic, 2, retain, empty);
      Inv(Insert(b1, c, mid, In, 2, retain, b1.lastDbId).0)
  {
    var b1 := StoreMessage(b, mid, topic, 2, retain, empty);
    StoreMessageKeepsInv(b, mid, topic, 2, retain, empty);
    NotFound(b.store, b.clients[c].msgs, mid);
    InsertKeepsInv(b1, c, mid, In, 2, retain, b1.lastDbId);
  }

  // ----- acknowledgements -------------------------------------------------------

  lemma PromoteKeepsInv(b: Db, c: nat, i: nat, msgIndex: nat)
    requires Inv(b) && c < |b.clients| && i < |b.clients[c].msgs| && i < msgIndex
    ensures Inv(Promote(b, c, i, msgIndex))
  {
    var e := b.clients[c].msgs[i];
    assert EntryOk(e) by { assert e in b.clients[c].msgs; }
    if e.state == Queued && msgIndex <= b.cfg.maxInflight {
      EditKeepsInv(b, c, i, Promoted(e));
    }
  }

  /** One turn of the delete loop. */
  lemma DeleteTurn(b: Db, c: nat, mid: nat, i: nat, msgIndex: nat, deleted: bool)
    requires c < |b.clients|
    ensures DeleteFrom(b, c, mid, i, msgIndex, deleted) ==
      if i >= |b.clients[c].msgs| then b
      else
        var b1 := Promote(b, c, i, msgIndex + 1);
        var e := b1.clients[c].msgs[i];
        if e.mid == mid && e.dir == Out then
          if msgIndex > b.cfg.maxInflight then Drop(b1, c, i) else DeleteFrom(Drop(b1, c, i), c, mid, i, msgIndex, true)
        else if msgIndex + 1 > b.cfg.maxInflight && deleted then b1
        else DeleteFrom(b1, c, mid, i + 1, msgIndex + 1, deleted)
  {
  }

  lemma {:induction false} DeleteKeepsInv(b: Db, c: nat, mid: nat, i: nat, msgIndex: nat, deleted: bool)
    requires Inv(b) && c < |b.clients| && i <= msgIndex
    ensures Inv(DeleteFrom(b, c, mid, i, msgIndex, deleted))
    decreases |b.clients[c].msgs| - i
  {
    hide Inv, Promoted, DeleteFrom;
    DeleteTurn(b, c, mid, i, msgIndex, deleted);
    if i < |b.clients[c].msgs| {
      var b1 := Promote(b, c, i, msgIndex + 1);
      PromoteKeepsInv(b, c, i, msgIndex + 1);
      var e := b1.clients[c].msgs[i];
      if e.mid == mid && e.dir == Out {
        DropOutKeepsInv(b1, c, i);
        DeleteKeepsInv(Drop(b1, c, i), c, mid, i, msgIndex, true);
      } else {
        DeleteKeepsInv(b1, c, mid, i + 1, msgIndex + 1, deleted);
      }
    }
  }

  /** A client acknowledges with PUBREC only what was published to it. */
  ghost predicate WasPublished(b: Db, c: nat, mid: nat)
    requires c < |b.clients|
  {
    var ms := b.clients[c].msgs;
    var i := FindOutFrom(ms, mid, 0);
    i < |ms| ==> EverPublished(ms[i].history)
  }

  lemma HandlePubrecKeepsInv(b: Db, c: nat, mid: nat)
    requires Inv(b) && c < |b.clients| && WasPublished(b, c, mid)
    ensures Inv(HandlePubrec(b, c, mid))
  {
    var i := FindOutFrom(b.clients[c].msgs, mid, 0);
    if i < |b.clients[c].msgs| {
      var e := b.clients[c].msgs[i];
      assert EntryOk(e) by { assert e in b.clients[c].msgs; }
      var h := e.history;
      assert (h + [Pubrec])[..|h|] == h && (h + [Pubrec, Pubrel])[..|h| + 1] == h + [Pubrec];
      assert Lawful(h + [Pubrec]) && EverPublished(h + [Pubrec]);
      EditKeepsInv(b, c, i, e.(state := WaitForPubcomp, history := h + [Pubrec, Pubrel]));
    }
  }

  /** What a released message does to the tree and the subscribers. */
  function Passed(b: Db, sid: nat, retain: bool, acl: Acl): (r: Db)
    requires sid in b.store
    ensures r.cfg == b.cfg && |r.clients| == |b.clients|
  {
    var s := b.store[sid];
    if s.topic.Some? then Distribute(b, s.topic.value, s.qos, retain, sid, acl) else b
  }

  lemma PassedKeepsInv(b: Db, sid: nat, retain: bool, acl: Acl)
    requires Inv(b) && sid in b.store
    ensures Inv(Passed(b, sid, retain, acl)) && Extends(b, Passed(b, sid, retain, acl))
  {
    var s := b.store[sid];
    assert StoredOk(b.cfg, s);
    if s.topic.Some? {
      DistributeKeepsInv(b, s.topic.value, s.qos, retain, sid, acl);
    }
  }

  /** Counting the hand-over and then unlinking the entry is one step of the account. */
  lemma ReleasedConcludes(b: Db, c: nat, i: nat, acl: Acl)
    requires Inv(b) && c < |b.clients| && i < |b.clients[c].msgs| && b.clients[c].msgs[i].dir == In
    ensures var e := b.clients[c].msgs[i];
      && e.store in b.store
      && var b1 := Passed(b, e.store, e.retain, acl);
         && Inv(b1) && Extends(b, b1) && i < |b1.clients[c].msgs| && b1.clients[c].msgs[i] == e
         && Released(b, c, i, acl) == Conclude(b1, c, i)
  {
    hide Inv, Distribute;
    var e := b.clients[c].msgs[i];
    EntryIsStored(b, c, i);
    PassedKeepsInv(b, e.store, e.retain, acl);
    var b1 := Passed(b, e.store, e.retain, acl);
    assert Extended(b.clients[c], b1.clients[c]);
    assert SameMessage(b.store[e.store], b1.store[e.store]);
    var r, q := Released(b, c, i, acl), Conclude(b1, c, i);
    if b.store[e.store].topic.Some? {
      assert r.store == q.store;
    }
  }

  lemma ReleasedKeepsInv(b: Db, c: nat, i: nat, acl: Acl)
    requires Inv(b) && c < |b.clients| && i < |b.clients[c].msgs| && b.clients[c].msgs[i].dir == In
    ensures Inv(Released(b, c, i, acl))
  {
    hide Inv, Conclude;
    var e := b.clients[c].msgs[i];
    ReleasedConcludes(b, c, i, acl);
    ConcludeKeepsInv(Passed(b, e.store, e.retain, acl), c, i);
  }

  lemma {:induction false} ReleaseKeepsInv(
    b: Db, c: nat, mid: nat, i: nat, msgIndex: nat, deleted: bool, left: nat, acl: Acl)
    returns (r: Db)
    requires Inv(b) && c < |b.clients| && i <= msgIndex
    ensures Inv(r) && r == ReleaseFrom(b, c, mid, i, msgIndex, deleted, left, acl)
    decreases left, |b.clients[c].msgs| - i
  {
    hide Inv, ReleaseFrom, Promote, Released;
    if i >= |b.clients[c].msgs| {
      ReleaseStops(b, c, mid, i, msgIndex, deleted, left, acl);
      r := b;
    } else {
      ReleaseStepKeepsInv(b, c, mid, i, msgIndex, acl);
      ReleaseUnfolds(b, c, mid, i, msgIndex, deleted, left, acl);
      var b1 := Promote(b, c, i, msgIndex + 1);
      var e := b1.clients[c].msgs[i];
      if e.mid == mid && e.dir == In && left > 0 {
        r := Released(b1, c, i, acl);
        if msgIndex + 1 <= b.cfg.maxInflight {
          r := ReleaseKeepsInv(r, c, mid, i, msgIndex + 1, true, left - 1, acl);
        }
      } else {
        r := b1;
        if !(msgIndex + 1 > b.cfg.maxInflight && deleted) {
          r := ReleaseKeepsInv(b1, c, mid, i + 1, msgIndex + 1, deleted, left, acl);
        }
      }
    }
  }

  lemma ReleaseStops(b: Db, c: nat, mid: nat, i: nat, msgIndex: nat, deleted: bool, left: nat, acl: Acl)
    requires c < |b.clients| && i >= |b.clients[c].msgs|
    ensures ReleaseFrom(b, c, mid, i, msgIndex, deleted, left, acl) == b
  {
  }

  /** One turn of the loop. */
  lemma ReleaseUnfolds(b: Db, c: nat, mid: nat, i: nat, msgIndex: nat, deleted: bool, left: nat, acl: Acl)
    requires c < |b.clients| && i < |b.clients[c].msgs|
    ensures var b1 := Promote(b, c, i, msgIndex + 1);
      var e, b2 := b1.clients[c].msgs[i], Released(b1, c, i, acl);
      ReleaseFrom(b, c, mid, i, msgIndex, deleted, left, acl) ==
        if e.mid == mid && e.dir == In && left > 0 then
          if msgIndex + 1 > b.cfg.maxInflight then b2 else ReleaseFrom(b2, c, mid, i, msgIndex + 1, true, left - 1, acl)
        else if msgIndex + 1 > b.cfg.maxInflight && deleted then b1
        else ReleaseFrom(b1, c, mid, i + 1, msgIndex + 1, deleted, left, acl)
  {
  }

  lemma ReleaseStepKeepsInv(b: Db, c: nat, mid: nat, i: nat, msgIndex: nat, acl: Acl)
    requires Inv(b) && c < |b.clients| && i < |b.clients[c].msgs| && i <= msgIndex
    ensures var b1 := Promote(b, c, i, msgIndex + 1);
      Inv(b1) && (b1.clients[c].msgs[i].dir == In ==> Inv(Released(b1, c, i, acl)))
  {
    PromoteKeepsInv(b, c, i, msgIndex + 1);
    var b1 := Promote(b, c, i, msgIndex + 1);
    if b1.clients[c].msgs[i].dir == In {
      ReleasedKeepsInv(b1, c, i, acl);
    }
  }

  // ----- sessions -------------------------------------------------------------

  /** The first pass of the reset, as edits that leave the counters alone. */
  function ResetsFrom(b: Db, c: nat, i: nat): (r: Db)
    requires c < |b.clients|
    ensures r.cfg == b.cfg && |r.clients| == |b.clients|
    decreases |b.clients[c].msgs| - i
  {
    if i >= |b.clients[c].msgs| then b
    else ResetsFrom(Edit(b, c, i, ResetEntry(b.clients[c].msgs[i])), c, i + 1)
  }

  lemma ResetEntryOk(e: Entry)
    requires EntryOk(e)
    ensures EntryOk(ResetEntry(e)) && SameEntry(e, ResetEntry(e)) && (Active(ResetEntry(e)) ==> Active(e))
  {
    var h := e.history;
    assert (h + [Reset])[..|h|] == h;
  }

  lemma {:induction false} ResetsKeepInv(b: Db, c: nat, i: nat)
    requires Inv(b) && c < |b.clients|
    ensures Inv(ResetsFrom(b, c, i))
    decreases |b.clients[c].msgs| - i
  {
    if i < |b.clients[c].msgs| {
      var e := b.clients[c].msgs[i];
      assert EntryOk(e) by { assert e in b.clients[c].msgs; }
      ResetEntryOk(e);
      EditKeepsInv(b, c, i, ResetEntry(e));
      ResetsKeepInv(Edit(b, c, i, ResetEntry(e)), c, i + 1);
    }
  }

  /** The counters as the first pass has them when it reaches place `i`. */
  function Recounting(cl: Client, i: nat, before: Option<nat>): Client
    requires i <= |cl.msgs|
  {
    cl.(msgCount := i, msgCount12 := Tally(cl.msgs[..i], Qos12()),
        lastMsg := if i == 0 then before else Some(cl.msgs[i - 1].uid))
  }

  /** With inbound entries of QoS 2 only, the pass visits every entry and ends with the
      counters it started from. */
  lemma {:induction false} ResetRecounts(b: Db, c: nat, i: nat)
    requires c < |b.clients| && i <= |b.clients[c].msgs|
    requires CountsOk(b.clients[c]) && InboundQos2(b.clients[c])
    ensures ResetFrom(PutClient(b, c, Recounting(b.clients[c], i, b.clients[c].lastMsg)), c, i) == ResetsFrom(b, c, i)
    decreases |b.clients[c].msgs| - i
  {
    var cl := b.clients[c];
    if i == |cl.msgs| {
      assert cl.msgs[..i] == cl.msgs;
      assert Recounting(cl, i, cl.lastMsg) == cl;
      assert PutClient(b, c, cl).clients == b.clients;
    } else {
      ResetRecountsOne(b, c, i);
      ResetEntryKeepsCounts(cl, i);
      ResetRecounts(Edit(b, c, i, ResetEntry(cl.msgs[i])), c, i + 1);
    }
  }

  lemma ResetEntryKeepsCounts(cl: Client, i: nat)
    requires CountsOk(cl) && InboundQos2(cl) && i < |cl.msgs|
    ensures var r := EditMsg(cl, i, ResetEntry(cl.msgs[i]));
      CountsOk(r) && InboundQos2(r) && r.lastMsg == cl.lastMsg
  {
    TallyEdit(cl.msgs, i, ResetEntry(cl.msgs[i]), Qos12());
    assert cl.msgs[i] in cl.msgs;
  }

  /** One turn of the pass is one edit, and the counters move on. */
  lemma ResetRecountsOne(b: Db, c: nat, i: nat)
    requires c < |b.clients| && i < |b.clients[c].msgs| && InboundQos2(b.clients[c])
    ensures var cl := b.clients[c];
      var next := Edit(b, c, i, ResetEntry(cl.msgs[i]));
      ResetOne(PutClient(b, c, Recounting(cl, i, cl.lastMsg)), c, i) ==
        PutClient(next, c, Recounting(next.clients[c], i + 1, cl.lastMsg))
  {
    hide Tally;
    var cl := b.clients[c];
    var e := cl.msgs[i];
    var r := ResetEntry(e);
    assert e in cl.msgs;
    RecountOne(cl, i, r);
    assert cl.msgs[i := e] == cl.msgs;
    var after := Recounting(EditMsg(cl, i, r), i + 1, cl.lastMsg);
    var left := ResetOne(PutClient(b, c, Recounting(cl, i, cl.lastMsg)), c, i);
    assert left.clients == b.clients[c := after];
    assert b.clients[c := EditMsg(cl, i, r)][c := after] == b.clients[c := after];
  }

  lemma RecountOne(cl: Client, i: nat, r: Entry)
    requires i < |cl.msgs| && SameEntry(cl.msgs[i], r)
    ensures Recounting(EditMsg(cl, i, r), i + 1, cl.lastMsg) ==
      cl.(msgs := cl.msgs[i := r], lastMsg := Some(cl.msgs[i].uid), msgCount := i + 1,
          msgCount12 := Tally(cl.msgs[..i], Qos12()) + (if cl.msgs[i].qos > 0 then 1 else 0))
  {
    TallyAppend(cl.msgs[..i], [r], Qos12());
    TallyOne(r, Qos12());
    assert cl.msgs[i := r][..i + 1] == cl.msgs[..i] + [r];
  }

  lemma {:induction false} ReviveKeepsInv(b: Db, c: nat, i: nat)
    requires Inv(b) && c < |b.clients|
    ensures Inv(ReviveFrom(b, c, i))
    decreases |b.clients[c].msgs| - i
  {
    if i < |b.clients[c].msgs| && !(b.cfg.maxInflight > 0 && i >= b.cfg.maxInflight) {
      var e := b.clients[c].msgs[i];
      assert EntryOk(e) && (e.dir == In ==> e.qos == 2) by { assert e in b.clients[c].msgs; }
      if e.state == Queued {
        EditKeepsInv(b, c, i, e.(state := ToSend(e.qos)));
        ReviveKeepsInv(Edit(b, c, i, e.(state := ToSend(e.qos))), c, i + 1);
      } else {
        ReviveKeepsInv(b, c, i + 1);
      }
    }
  }

  lemma ReconnectResetKeepsInv(b: Db, c: nat)
    requires Inv(b) && c < |b.clients|
    ensures Inv(ReconnectReset(b, c))
  {
    var cl := b.clients[c];
    assert ClientOk(cl, b.cfg.maxInflight);
    assert cl.msgs[..0] == [];
    assert Recounting(cl, 0, cl.lastMsg) == cl.(msgCount := 0, msgCount12 := 0);
    ResetRecounts(b, c, 0);
    ResetsKeepInv(b, c, 0);
    ReviveKeepsInv(ResetsFrom(b, c, 0), c, 0);
  }

  lemma {:induction false} SweepEffect(store: map<nat, Stored>, ms: seq<Entry>, x: nat)
    requires forall i :: 0 <= i < |ms| ==> ms[i].store in store
    ensures x in store ==>
      var s := store[x];
      Sweep(store, ms)[x] ==
        s.(refCount := s.refCount - Tally(ms, RefersTo(x)), swept := s.swept + Tally(ms, InboundOf(x)))
  {
    if ms != [] {
      assert forall i :: 0 <= i < |ms[1..]| ==> ms[1..][i] == ms[i + 1];
      SweepEffect(SweepOne(store, ms[0]), ms[1..], x);
    }
  }

  /** The queues after a session was discarded. */
  lemma DiscardKeepsQueues(b: Db, c: nat, r: Db)
    requires Inv(b) && c < |b.clients| && r == DiscardSession(b, c) && r.store.Keys == b.store.Keys
    requires forall x :: x in r.store ==> r.store[x].sourceMid == b.store[x].sourceMid
    ensures InboundOk(r) && forall d :: 0 <= d < |r.clients| ==> ClientOk(r.clients[d], r.cfg.maxInflight)
  {
    hide Sweep, CleanSession, Valid, RefsOk, AllOnceOk, EntryOk;
    assert r.clients[c].msgs == [];
    assert SplitAt([], 0, r.cfg.maxInflight);
    forall d | 0 <= d < |r.clients|
      ensures ClientOk(r.clients[d], r.cfg.maxInflight) && Filed(r.store, r.clients[d].msgs)
      ensures forall mid :: Tally(r.clients[d].msgs, WithMid(mid)) <= 1
    {
      if d != c {
        assert r.clients[d] == b.clients[d];
        FiledStays(b.store, r.store, b.clients[d].msgs);
      }
    }
  }

  lemma DiscardKeepsInv(b: Db, c: nat)
    requires Inv(b) && c < |b.clients|
    ensures Inv(DiscardSession(b, c))
  {
    hide RetCount, TallyAll, Sweep, CleanSession, OnceOk, StoredOk, ClientOk, Refs, Counted, Valid, InboundOk;
    var r, ms := DiscardSession(b, c), b.clients[c].msgs;
    forall i | 0 <= i < |ms| ensures ms[i].store in b.store {
      EntryIsStored(b, c, i);
    }
    CleanSessionEffect(b.subs, b.clients[c].id, [], "");
    forall x
      ensures Counted(r.store, x) == Refs(r, x)
      ensures x in r.store ==> OnceOk(r.store[x], TallyAll(r.clients, InboundOf(x))) && StoredOk(r.cfg, r.store[x])
      ensures x in r.store ==> r.store[x].sourceMid == b.store[x].sourceMid
    {
      DiscardOne(b, c, x);
    }
    DiscardKeepsQueues(b, c, r);
  }

  lemma DiscardOne(b: Db, c: nat, x: nat)
    requires Inv(b) && c < |b.clients|
    requires forall i :: 0 <= i < |b.clients[c].msgs| ==> b.clients[c].msgs[i].store in b.store
    ensures var r := DiscardSession(b, c);
      && Counted(r.store, x) == Refs(r, x)
      && (x in r.store ==> OnceOk(r.store[x], TallyAll(r.clients, InboundOf(x))) && StoredOk(r.cfg, r.store[x]))
      && (x in r.store ==> r.store[x].sourceMid == b.store[x].sourceMid)
  {
    hide RetCount, TallyAll, Sweep, CleanSession, EntryOk, ClientOk, Filed;
    var r, ms := DiscardSession(b, c), b.clients[c].msgs;
    SweepEffect(b.store, ms, x);
    SubsKeepRetained(b.subs, "", Leaf(b.clients[c].id, 0), Some(x));
    TallyAllPut(b.clients, c, r.clients[c], RefersTo(x));
    TallyAllPut(b.clients, c, r.clients[c], InboundOf(x));
    assert Counted(b.store, x) == Refs(b, x);
    if x in b.store {
      assert OnceOk(b.store[x], TallyAll(b.clients, InboundOf(x))) && StoredOk(b.cfg, b.store[x]);
    } else {
      TallyNone(ms, RefersTo(x));
    }
  }

  lemma TakeOverKeepsInv(b: Db, c: nat, clean: bool)
    requires Inv(b) && c < |b.clients|
    ensures Inv(TakeOver(b, c, clean))
  {
    var b1 := if clean then DiscardSession(b, c) else b;
    if clean {
      DiscardKeepsInv(b, c);
    }
    assert CountsOk(b1.clients[c]);
    TouchKeepsInv(b1, c, b1.clients[c].(connected := true));
    var b2 := PutClient(b1, c, b1.clients[c].(connected := true));
    ReconnectResetKeepsInv(b2, c);
  }

  // ----- retry and write --------------------------------------------------------

  lemma TimedOutOk(e: Entry)
    requires EntryOk(e)
    ensures EntryOk(TimedOut(e)) && SameEntry(e, TimedOut(e)) && (Active(TimedOut(e)) ==> Active(e))
  {
  }

  lemma {:induction false} TimeoutMsgsKeepsInv(b: Db, c: nat, i: nat, late: set<nat>)
    requires Inv(b) && c < |b.clients|
    ensures Inv(TimeoutMsgs(b, c, i, late))
    decreases |b.clients[c].msgs| - i
  {
    hide Inv, TimedOut, EntryOk, CountsOk, InboundQos2, Windowed;
    if i < |b.clients[c].msgs| {
      var e := b.clients[c].msgs[i];
      InvAt(b, c, 0);
      assert EntryOk(e) by { assert e in b.clients[c].msgs; }
      if e.uid in late {
        TimedOutOk(e);
        EditKeepsInv(b, c, i, TimedOut(e));
        TimeoutMsgsKeepsInv(Edit(b, c, i, TimedOut(e)), c, i + 1, late);
      } else {
        TimeoutMsgsKeepsInv(b, c, i + 1, late);
      }
    }
  }

  lemma {:induction false} TimeoutKeepsInv(b: Db, c: nat, late: set<nat>)
    requires Inv(b)
    ensures Inv(TimeoutCheck(b, c, late))
    decreases |b.clients| - c
  {
    if c < |b.clients| {
      TimeoutMsgsKeepsInv(b, c, 0, late);
      TimeoutKeepsInv(TimeoutMsgs(b, c, 0, late), c + 1, late);
    }
  }

  lemma WrittenOk(e: Entry)
    requires EntryOk(e) && HasPacket(e.state)
    ensures EntryOk(Written(e)) && SameEntry(e, Written(e)) && (Active(Written(e)) ==> Active(e))
  {
    var h := e.history;
    assert (h + [Publish(e.dup)])[..|h|] == h && (h + [Pubrel])[..|h|] == h;
  }

  /** One entry written, or one queued inbound entry let in, or a QoS 0 entry gone. */
  lemma WriteOneKeepsInv(b: Db, c: nat, i: nat)
    requires Inv(b) && c < |b.clients| && i < |b.clients[c].msgs|
    ensures var e := b.clients[c].msgs[i];
      && (e.state == PublishQos0 ==> Inv(Drop(b, c, i)) && InboundQos2(Drop(b, c, i).clients[c]))
      && (HasPacket(e.state) ==> Inv(Edit(b, c, i, Written(e))) && InboundQos2(Edit(b, c, i, Written(e)).clients[c]))
      && (e.state == Queued && e.dir == In ==>
            var r := Edit(b, c, i, e.(state := SendPubrec)); Inv(r) && InboundQos2(r.clients[c]))
  {
    hide Tally, RefsOk, AllOnceOk, InboundOk, Valid, Windowed, CountsOk;
    var e := b.clients[c].msgs[i];
    assert EntryOk(e) by { assert e in b.clients[c].msgs; }
    if e.state == PublishQos0 {
      DropOutKeepsInv(b, c, i);
    } else if HasPacket(e.state) {
      WrittenOk(e);
      EditKeepsInv(b, c, i, Written(e));
    } else if e.state == Queued && e.dir == In {
      EditKeepsInv(b, c, i, e.(state := SendPubrec));
    }
  }

  /** What the write loop does to one entry leaves inbound entries at QoS 2. */
  lemma TurnKeepsQos2(b: Db, c: nat, i: nat)
    requires c < |b.clients| && InboundQos2(b.clients[c]) && i < |b.clients[c].msgs|
    ensures var e := b.clients[c].msgs[i];
      && InboundQos2(Drop(b, c, i).clients[c]) && InboundQos2(Edit(b, c, i, Written(e)).clients[c])
      && InboundQos2(Edit(b, c, i, e.(state := SendPubrec)).clients[c]) && (e.dir == In ==> e.qos == 2)
  {
    var e := b.clients[c].msgs[i];
    assert e in b.clients[c].msgs;
    var d := Drop(b, c, i).clients[c].msgs;
    assert forall j :: 0 <= j < |d| ==> d[j] == b.clients[c].msgs[if j < i then j else j + 1];
    assert forall x :: x in d ==> x in b.clients[c].msgs;
    assert forall x :: x in b.clients[c].msgs[i := Written(e)] ==> x == Written(e) || x in b.clients[c].msgs;
  }

  /** One turn of the write loop. */
  lemma WriteTurn(b: Db, c: nat, i: nat, msgCount: nat, sends: nat)
    requires c < |b.clients| && InboundQos2(b.clients[c]) && i < |b.clients[c].msgs|
    ensures var e := b.clients[c].msgs[i];
      var n := if e.dir == In then msgCount + 1 else msgCount;
      && InboundQos2(Drop(b, c, i).clients[c]) && InboundQos2(Edit(b, c, i, Written(e)).clients[c])
      && (e.state == PublishQos0 ==>
            WriteFrom(b, c, i, msgCount, sends) ==
              if sends == 0 then b else WriteFrom(Drop(b, c, i), c, i, n, sends - 1))
      && (HasPacket(e.state) ==>
            WriteFrom(b, c, i, msgCount, sends) ==
              if sends == 0 then b else WriteFrom(Edit(b, c, i, Written(e)), c, i + 1, n, sends - 1))
      && (e.state != PublishQos0 && !HasPacket(e.state) ==>
            if e.state == Queued && e.dir == In && (b.cfg.maxInflight == 0 || n < b.cfg.maxInflight) then
              var r := Edit(b, c, i, e.(state := SendPubrec));
              InboundQos2(r.clients[c]) && WriteFrom(b, c, i, msgCount, sends) == WriteFrom(r, c, i, n, sends)
            else WriteFrom(b, c, i, msgCount, sends) == WriteFrom(b, c, i + 1, n, sends))
      && (e.dir == In ==> e.qos == 2)
  {
    TurnKeepsQos2(b, c, i);
    hide Drop, Edit, Written, InboundQos2;
  }

  lemma WriteEnds(b: Db, c: nat, i: nat, msgCount: nat, sends: nat)
    requires c < |b.clients| && InboundQos2(b.clients[c]) && i >= |b.clients[c].msgs|
    ensures WriteFrom(b, c, i, msgCount, sends) == b
  {
  }

  lemma {:induction false} WriteKeepsInv(b: Db, c: nat, i: nat, msgCount: nat, sends: nat)
    requires Inv(b) && c < |b.clients| && InboundQos2(b.clients[c])
    ensures Inv(WriteFrom(b, c, i, msgCount, sends))
    decreases |b.clients[c].msgs| - i, if i < |b.clients[c].msgs| && b.clients[c].msgs[i].state == Queued then 1 else 0
  {
    hide Inv, Written, InboundQos2, Ref, WriteFrom, AppendMsg;
    if i >= |b.clients[c].msgs| {
      WriteEnds(b, c, i, msgCount, sends);
    } else {
      WriteTurn(b, c, i, msgCount, sends);
      WriteOneKeepsInv(b, c, i);
      var e := b.clients[c].msgs[i];
      var n := if e.dir == In then msgCount + 1 else msgCount;
      if e.state == PublishQos0 {
        if sends > 0 {
          WriteKeepsInv(Drop(b, c, i), c, i, n, sends - 1);
        }
      } else if HasPacket(e.state) {
        if sends > 0 {
          WriteKeepsInv(Edit(b, c, i, Written(e)), c, i + 1, n, sends - 1);
        }
      } else if e.state == Queued && e.dir == In && (b.cfg.maxInflight == 0 || n < b.cfg.maxInflight) {
        WriteKeepsInv(Edit(b, c, i, e.(state := SendPubrec)), c, i, n, sends);
      } else {
        WriteKeepsInv(b, c, i + 1, n, sends);
      }
    }
  }

  // ----- store and subscriptions ------------------------------------------------

  /** A sweep of the store frees exactly the messages without a reference. */
  lemma StoreCleanKeepsInv(b: Db)
    requires Inv(b)
    ensures Inv(b.(store := StoreClean(b.store)))
    ensures forall sid :: sid in StoreClean(b.store) <==> sid in b.store && Refs(b, sid) > 0
  {
    var r := b.(store := StoreClean(b.store));
    forall x ensures Counted(r.store, x) == Refs(r, x) {
      assert Counted(b.store, x) == Refs(b, x);
    }
    forall c, i | 0 <= c < |b.clients| && 0 <= i < |b.clients[c].msgs|
      ensures b.clients[c].msgs[i].store in r.store
    {
      var sid := b.clients[c].msgs[i].store;
      EntryIsStored(b, c, i);
      TallyAllMember(b.clients, c, i, RefersTo(sid));
      assert Counted(b.store, sid) == Refs(b, sid);
    }
    forall c | 0 <= c < |b.clients| ensures Filed(r.store, r.clients[c].msgs) {
      assert Filed(b.store, b.clients[c].msgs);
      assert forall i :: 0 <= i < |b.clients[c].msgs| ==> b.clients[c].msgs[i].store in r.store;
    }
  }

  lemma {:induction false} SendRetainedKeepsInv(b: Db, c: nat, found: seq<At<nat>>, subQos: Qos, acl: Acl)
    requires Inv(b) && c < |b.clients|
    ensures Inv(SendRetained(b, c, found, subQos, acl))
    decreases |found|
  {
    if found != [] {
      var sid := found[0].item;
      if sid in b.store && b.store[sid].topic.Some? && acl(b.clients[c].id, b.store[sid].topic.value) == Granted {
        SendKeepsInv(b, c, Min(b.store[sid].qos, subQos), true, sid);
        SendRetainedKeepsInv(Send(b, c, Min(b.store[sid].qos, subQos), true, sid), c, found[1..], subQos, acl);
      } else {
        SendRetainedKeepsInv(b, c, found[1..], subQos, acl);
      }
    }
  }

  lemma SubsKeepInv(b: Db, subs: Subs)
    requires Inv(b) && Valid(subs) && forall x :: RetCount(subs.root, x) == RetCount(b.subs.root, x)
    ensures Inv(b.(subs := subs))
  {
    RefsMovedKeepsInv(b, b.(subs := subs));
  }

  lemma HandleSubscribeKeepsInv(b: Db, c: nat, filter: string, qos: Qos, acl: Acl)
    requires Inv(b) && c < |b.clients| && FilterLevels(Split(filter))
    ensures Inv(HandleSubscribe(b, c, filter, qos, acl))
  {
    var l := Leaf(b.clients[c].id, qos);
    SubAddEffect(b.subs, filter, l, [], "");
    forall x ensures RetCount(SubAdd(b.subs, filter, l).root, x) == RetCount(b.subs.root, x) {
      SubsKeepRetained(b.subs, filter, l, x);
    }
    SubsKeepInv(b, SubAdd(b.subs, filter, l));
    var b1 := b.(subs := SubAdd(b.subs, filter, l));
    SendRetainedKeepsInv(b1, c, RetainQueue(b1.subs, filter), qos, acl);
  }

  lemma HandleUnsubscribeKeepsInv(b: Db, c: nat, filter: string)
    requires Inv(b) && c < |b.clients|
    ensures Inv(HandleUnsubscribe(b, c, filter))
  {
    var id := b.clients[c].id;
    SubRemoveEffect(b.subs, filter, id, [], "");
    forall x ensures RetCount(SubRemove(b.subs, filter, id).root, x) == RetCount(b.subs.root, x) {
      SubsKeepRetained(b.subs, filter, Leaf(id, 0), x);
    }
    SubsKeepInv(b, SubRemove(b.subs, filter, id));
  }
}

/** What the data of every run look like: where retained messages stand, which filters the
    tree holds, and what inbound entries say of their messages. */
module RunData {
  import opened Options
  import opened Topics
  import opened Hierarchy
  import opened SubTree
  import opened Queues
  import opened Broker
  import opened BrokerLaws
  import opened BrokerOps
  import opened BrokerRuns

  // ----- the invariant ------------------------------------------------------------------

  /** A message that may be retained at path `p`. */
  ghost predicate Stands(s: Stored, p: Levels) {
    s.topic.Some? && p == Tokens(s.topic.value) && PlainLevels(Split(s.topic.value)) && s.retain && !s.empty
  }

  /** A retained message stands where its topic says. */
  ghost predicate RetainedOk(store: map<nat, Stored>, subs: Subs) {
    forall p :: RetOf(subs, p).Some? ==> RetOf(subs, p).value in store && Stands(store[RetOf(subs, p).value], p)
  }

  /** The tree holds checked filters only. */
  ghost predicate FiltersOk(subs: Subs) {
    forall p, c :: SubOf(subs, p, c).Some? ==> exists f :: Checked(f, p)
  }

  ghost predicate Checked(f: string, p: Levels) {
    p == Tokens(f) && FilterLevels(Split(f))
  }

  /** An inbound entry has the retain flag of its message. */
  ghost predicate FlagsOk(store: map<nat, Stored>, ms: seq<Entry>) {
    forall e :: e in ms && e.dir == In ==> e.store in store && e.retain == store[e.store].retain
  }

  ghost predicate DataOk(b: Db) {
    && RetainedOk(b.store, b.subs) && FiltersOk(b.subs)
    && forall c :: 0 <= c < |b.clients| ==> FlagsOk(b.store, b.clients[c].msgs)
  }

  // ----- steps that leave it alone ------------------------------------------------------

  /** The stored messages are still there, with the same topic and flags. */
  ghost predicate SameTexts(a: map<nat, Stored>, b: map<nat, Stored>) {
    forall sid :: sid in a ==>
      sid in b && b[sid].topic == a[sid].topic && b[sid].retain == a[sid].retain && b[sid].empty == a[sid].empty
  }

  /** Every inbound entry of `ns` is one of `ms`. */
  ghost predicate Inherits(ms: seq<Entry>, ns: seq<Entry>) {
    forall e :: e in ns && e.dir == In ==> exists d :: d in ms && SameEntry(d, e)
  }

  ghost predicate Calm(b: Db, r: Db) {
    && SameTexts(b.store, r.store) && r.subs == b.subs && |r.clients| == |b.clients|
    && forall c :: 0 <= c < |b.clients| ==> Inherits(b.clients[c].msgs, r.clients[c].msgs)
  }

  lemma CalmSelf(b: Db)
    ensures Calm(b, b)
  {
  }

  lemma InheritsOn(a: seq<Entry>, b: seq<Entry>, c: seq<Entry>)
    requires Inherits(a, b) && Inherits(b, c)
    ensures Inherits(a, c)
  {
    forall e | e in c && e.dir == In ensures exists d :: d in a && SameEntry(d, e) {
      var m :| m in b && SameEntry(m, e);
      var d :| d in a && SameEntry(d, m);
    }
  }

  lemma CalmOn(a: Db, b: Db, c: Db)
    requires Calm(a, b) && Calm(b, c)
    ensures Calm(a, c)
  {
    hide Inherits;
    forall i | 0 <= i < |a.clients| ensures Inherits(a.clients[i].msgs, c.clients[i].msgs) {
      InheritsOn(a.clients[i].msgs, b.clients[i].msgs, c.clients[i].msgs);
    }
  }

  lemma FlagsStay(st: map<nat, Stored>, ms: seq<Entry>, st': map<nat, Stored>, ns: seq<Entry>)
    requires FlagsOk(st, ms) && SameTexts(st, st') && Inherits(ms, ns)
    ensures FlagsOk(st', ns)
  {
  }

  lemma RetainedStay(st: map<nat, Stored>, st': map<nat, Stored>, subs: Subs)
    requires RetainedOk(st, subs) && SameTexts(st, st')
    ensures RetainedOk(st', subs)
  {
  }

  lemma CalmKeepsData(b: Db, r: Db)
    requires DataOk(b) && Calm(b, r)
    ensures DataOk(r)
  {
    hide RetainedOk, FiltersOk, FlagsOk, SameTexts, Inherits;
    RetainedStay(b.store, r.store, b.subs);
    forall c | 0 <= c < |r.clients| ensures FlagsOk(r.store, r.clients[c].msgs) {
      FlagsStay(b.store, b.clients[c].msgs, r.store, r.clients[c].msgs);
    }
  }

  lemma PartInherits(ms: seq<Entry>, ns: seq<Entry>, e: Entry)
    requires (exists d :: d in ms && SameEntry(d, e)) && forall x :: x in ns ==> x == e || x in ms
    ensures Inherits(ms, ns)
  {
    forall x | x in ns && x.dir == In ensures exists d :: d in ms && SameEntry(d, x) {
      assert SameEntry(x, x);
    }
  }

  /** A client's list replaced by one that inherits, and counts that may change. */
  lemma PutIsCalm(b: Db, c: nat, cl: Client, r: Db)
    requires c < |b.clients| && r.clients == b.clients[c := cl] && r.subs == b.subs
    requires Inherits(b.clients[c].msgs, cl.msgs) && SameTexts(b.store, r.store)
    ensures Calm(b, r)
  {
  }

  lemma EditIsCalm(b: Db, c: nat, i: nat, e: Entry)
    requires c < |b.clients| && i < |b.clients[c].msgs| && SameEntry(b.clients[c].msgs[i], e)
    ensures Calm(b, Edit(b, c, i, e))
  {
    var ms := b.clients[c].msgs;
    assert forall x :: x in ms[i := e] ==> x == e || x in ms;
    assert ms[i] in ms;
    PartInherits(ms, ms[i := e], e);
    PutIsCalm(b, c, EditMsg(b.clients[c], i, e), Edit(b, c, i, e));
  }

  lemma DropIsCalm(b: Db, c: nat, i: nat)
    requires c < |b.clients| && i < |b.clients[c].msgs|
    ensures Calm(b, Drop(b, c, i))
  {
    var ms := b.clients[c].msgs;
    assert forall x :: x in ms[..i] + ms[i + 1..] ==> x in ms;
    assert ms[i] in ms && SameEntry(ms[i], ms[i]);
    PartInherits(ms, ms[..i] + ms[i + 1..], ms[i]);
    PutIsCalm(b, c, DropMsg(b.clients[c], i), Drop(b, c, i));
  }

  lemma FieldsAreCalm(b: Db, c: nat, cl: Client)
    requires c < |b.clients| && cl.msgs == b.clients[c].msgs
    ensures Calm(b, PutClient(b, c, cl))
  {
  }

  lemma PromoteIsCalm(b: Db, c: nat, i: nat, msgIndex: nat)
    requires c < |b.clients| && i < |b.clients[c].msgs|
    ensures Calm(b, Promote(b, c, i, msgIndex))
  {
    hide Calm, Edit;
    CalmSelf(b);
    EditIsCalm(b, c, i, Promoted(b.clients[c].msgs[i]));
  }

  // ----- sending ------------------------------------------------------------------------

  lemma {:induction false} AppendInherits(cl: Client, e: Entry)
    requires e.dir == Out
    ensures Inherits(cl.msgs, AppendMsg(cl, e).msgs)
  {
    var r := AppendMsg(cl, e).msgs;
    assert forall x :: x in r ==> x == e || x in cl.msgs;
  }

  lemma InsertIsCalm(b: Db, c: nat, mid: nat, qos: Qos, retain: bool, sid: nat)
    requires c < |b.clients| && sid in b.store
    ensures Calm(b, Insert(b, c, mid, Out, qos, retain, sid).0)
    ensures sid in Insert(b, c, mid, Out, qos, retain, sid).0.store
  {
    hide Placed, AppendMsg;
    var placed := Placed(b.cfg, b.clients[c], Out, qos);
    if placed.Place? {
      AppendInherits(b.clients[c], NewEntry(b, sid, mid, Out, qos, retain, placed.state));
    }
  }

  lemma SendIsCalm(b: Db, c: nat, qos: Qos, retain: bool, sid: nat)
    requires c < |b.clients| && sid in b.store
    ensures Calm(b, Send(b, c, qos, retain, sid)) && sid in Send(b, c, qos, retain, sid).store
  {
    hide Calm, Insert;
    if qos > 0 {
      var mid := NextMid(b.clients[c].lastMid);
      var b1 := PutClient(b, c, b.clients[c].(lastMid := mid));
      FieldsAreCalm(b, c, b.clients[c].(lastMid := mid));
      InsertIsCalm(b1, c, mid, qos, retain, sid);
      CalmOn(b, b1, Send(b, c, qos, retain, sid));
    } else {
      InsertIsCalm(b, c, 0, qos, retain, sid);
    }
  }

  lemma {:induction false} LeavesAreCalm(b: Db, ls: seq<Leaf>, topic: string, qos: Qos, sid: nat, acl: Acl)
    requires sid in b.store
    ensures Calm(b, SendToLeaves(b, ls, topic, qos, sid, acl))
    decreases |ls|
  {
    hide Calm, Send;
    CalmSelf(b);
    if ls != [] && acl(ls[0].client, topic) != Failed {
      var l := ls[0];
      var c := FindClient(b.clients, l.client);
      var q := if b.cfg.upgradeQos then l.qos else Min(qos, l.qos);
      var next := if acl(l.client, topic) == Granted && c < |b.clients| then Send(b, c, q, false, sid) else b;
      if c < |b.clients| {
        SendIsCalm(b, c, q, false, sid);
      }
      LeavesAreCalm(next, ls[1..], topic, qos, sid, acl);
      CalmOn(b, next, SendToLeaves(next, ls[1..], topic, qos, sid, acl));
    }
  }

  lemma {:induction false} StopsAreCalm(b: Db, vs: seq<At<Stop>>, topic: string, qos: Qos, sid: nat, acl: Acl)
    requires sid in b.store
    ensures Calm(b, SendToStops(b, vs, topic, qos, sid, acl))
    decreases |vs|
  {
    hide Calm, SendToLeaves;
    CalmSelf(b);
    if vs != [] {
      var next := SendToLeaves(b, vs[0].item.leaves, topic, qos, sid, acl);
      LeavesAreCalm(b, vs[0].item.leaves, topic, qos, sid, acl);
      StopsAreCalm(next, vs[1..], topic, qos, sid, acl);
      CalmOn(b, next, SendToStops(next, vs[1..], topic, qos, sid, acl));
    }
  }

  lemma {:induction false} SendRetainedIsCalm(b: Db, c: nat, found: seq<At<nat>>, subQos: Qos, acl: Acl)
    requires c < |b.clients|
    ensures Calm(b, SendRetained(b, c, found, subQos, acl))
    decreases |found|
  {
    hide Calm, Send;
    CalmSelf(b);
    if found != [] {
      var sid := found[0].item;
      if sid in b.store && b.store[sid].topic.Some? && acl(b.clients[c].id, b.store[sid].topic.value) == Granted {
        var next := Send(b, c, Min(b.store[sid].qos, subQos), true, sid);
        SendIsCalm(b, c, Min(b.store[sid].qos, subQos), true, sid);
        SendRetainedIsCalm(next, c, found[1..], subQos, acl);
        CalmOn(b, next, SendRetained(next, c, found[1..], subQos, acl));
      } else {
        SendRetainedIsCalm(b, c, found[1..], subQos, acl);
      }
    }
  }

  // ----- routing ------------------------------------------------------------------------

  /** A message that is retained when it is routed under this topic belongs there. */
  ghost predicate Routable(b: Db, topic: string, retain: bool, sid: nat) {
    && sid in b.store && PlainLevels(Split(topic))
    && b.store[sid].topic == Some(topic) && b.store[sid].retain == retain
  }

  lemma KeepKeepsData(b: Db, topic: string, sid: nat)
    requires Inv(b) && DataOk(b) && Routable(b, topic, true, sid)
    ensures DataOk(Keep(b, topic, if b.store[sid].empty then None else Some(sid)))
  {
    hide Inv, RetainPublish, RetOf, SubOf, HasTop, FlagsOk;
    var m := if b.store[sid].empty then None else Some(sid);
    var r := Keep(b, topic, m);
    KeepMovesCountsOnly(b, topic, m);
    assert Valid(b.subs) by { TreeIsValid(b); }
    forall p, c
      ensures SubOf(RetainPublish(b.subs, topic, m), p, c) == SubOf(b.subs, p, c)
      ensures RetOf(RetainPublish(b.subs, topic, m), p) ==
        if p == Tokens(topic) && HasTop(b.subs, Tokens(topic)[0]) then m else RetOf(b.subs, p)
    {
      RetainPublishEffect(b.subs, topic, m, p, c);
    }
    forall p ensures RetOf(RetainPublish(b.subs, topic, m), p) ==
      if p == Tokens(topic) && HasTop(b.subs, Tokens(topic)[0]) then m else RetOf(b.subs, p)
    {
      RetainPublishEffect(b.subs, topic, m, p, "");
    }
    forall c | 0 <= c < |r.clients| ensures FlagsOk(r.store, r.clients[c].msgs) {
      SameIsInherited(b.clients[c].msgs);
      FlagsStay(b.store, b.clients[c].msgs, r.store, r.clients[c].msgs);
    }
  }

  lemma TreeIsValid(b: Db)
    requires Inv(b)
    ensures Valid(b.subs)
  {
  }

  lemma SameIsInherited(ms: seq<Entry>)
    ensures Inherits(ms, ms)
  {
  }

  lemma QueueKeepsData(b: Db, topic: string, qos: Qos, retain: bool, sid: nat, acl: Acl)
    requires Inv(b) && DataOk(b) && Routable(b, topic, retain, sid)
    ensures DataOk(QueueMessage(b, topic, qos, retain, sid, acl))
  {
    hide Inv, DataOk, Calm, Keep, Route, MakePath, SendToStops;
    var b1 := if retain then Keep(b, topic, if b.store[sid].empty then None else Some(sid)) else b;
    var vs := Route(if retain then MakePath(b.subs, topic) else b.subs, topic);
    if retain {
      KeepKeepsData(b, topic, sid);
    }
    var b2 := SendToStops(b1, vs, topic, qos, sid, acl);
    StopsAreCalm(b1, vs, topic, qos, sid, acl);
    CountIsCalm(b2, sid);
    CalmKeepsData(b1, b2);
    CalmKeepsData(b2, CountRouted(b2, sid));
  }

  lemma CountIsCalm(b: Db, sid: nat)
    requires sid in b.store
    ensures Calm(b, CountRouted(b, sid))
  {
  }

  // ----- publish and release -------------------------------------------------------------

  /** A new message changes nothing that is there. */
  lemma StoreIsCalm(b: Db, mid: nat, topic: Option<string>, qos: Qos, retain: bool, empty: bool)
    requires Inv(b) && (topic.Some? ==> PlainLevels(Split(topic.value)))
    ensures Calm(b, StoreMessage(b, mid, topic, qos, retain, empty))
  {
    hide Inv, Calm, Refs;
    StoreMessageKeepsInv(b, mid, topic, qos, retain, empty);
    FreshIsCalm(b, mid, topic, qos, retain, empty);
  }

  lemma FreshIsCalm(b: Db, mid: nat, topic: Option<string>, qos: Qos, retain: bool, empty: bool)
    requires b.lastDbId + 1 !in b.store
    ensures Calm(b, StoreMessage(b, mid, topic, qos, retain, empty))
  {
    hide Inherits;
    forall c | 0 <= c < |b.clients| ensures Inherits(b.clients[c].msgs, b.clients[c].msgs) {
      SameIsInherited(b.clients[c].msgs);
    }
  }

  /** The inbound entry of a QoS 2 message gets its retain flag. */
  lemma AcceptKeepsData(b: Db, c: nat, mid: nat, topic: Option<string>, retain: bool, empty: bool)
    requires Inv(b) && DataOk(b) && c < |b.clients| && (topic.Some? ==> PlainLevels(Split(topic.value)))
    ensures var b1 := StoreMessage(b, mid, topic, 2, retain, empty);
      DataOk(Insert(b1, c, mid, In, 2, retain, b1.lastDbId).0)
  {
    StoreIsCalm(b, mid, topic, 2, retain, empty);
    CalmKeepsData(b, StoreMessage(b, mid, topic, 2, retain, empty));
    InvAt(b, c, 0);
    hide Inv, Calm, DataOk, ClientOk, Filed;
    InsertInKeepsData(StoreMessage(b, mid, topic, 2, retain, empty), c, mid, retain, b.lastDbId + 1);
  }

  lemma InsertInKeepsData(b: Db, c: nat, mid: nat, retain: bool, sid: nat)
    requires DataOk(b) && c < |b.clients| && sid in b.store && b.store[sid].retain == retain
    ensures DataOk(Insert(b, c, mid, In, 2, retain, sid).0)
  {
    hide Placed, AppendMsg, RetainedOk, FiltersOk;
    var placed := Placed(b.cfg, b.clients[c], In, 2);
    if placed.Place? {
      var e := NewEntry(b, sid, mid, In, 2, retain, placed.state);
      var r := Link(b, c, sid, e);
      RetainedStay(b.store, r.store, b.subs);
      AppendHas(b.clients[c], e);
      forall d | 0 <= d < |r.clients| ensures FlagsOk(r.store, r.clients[d].msgs) {
        assert FlagsOk(b.store, b.clients[d].msgs);
      }
    }
  }

  lemma AppendHas(cl: Client, e: Entry)
    ensures forall x :: x in AppendMsg(cl, e).msgs ==> x == e || x in cl.msgs
  {
  }

  lemma PublishKeepsData(
    b: Db, c: nat, mid: nat, topic: string, qos: Qos, retain: bool, empty: bool, bad: bool, acl: Acl)
    requires Inv(b) && DataOk(b) && c < |b.clients| && PlainLevels(Split(topic)) && (bad || FreshId(b, c, mid, qos))
    ensures DataOk(HandlePublish(b, c, mid, topic, qos, retain, empty, bad, acl))
  {
    hide Inv, DataOk, QueueMessage, Insert, StoreMessage, StoreFind;
    var found := if qos > 0 then StoreFind(b.store, b.clients[c].msgs, mid) else None;
    if found.None? {
      if bad {
        if qos == 2 {
          AcceptKeepsData(b, c, mid, None, false, true);
        }
      } else if qos == 2 {
        AcceptKeepsData(b, c, mid, Some(topic), retain, empty);
      } else {
        RouteNewKeepsData(b, mid, topic, qos, retain, empty, acl);
      }
    }
  }

  lemma RouteNewKeepsData(b: Db, mid: nat, topic: string, qos: Qos, retain: bool, empty: bool, acl: Acl)
    requires Inv(b) && DataOk(b) && PlainLevels(Split(topic))
    ensures var b1 := StoreMessage(b, mid, Some(topic), qos, retain, empty);
      DataOk(QueueMessage(b1, topic, qos, retain, b1.lastDbId, acl))
  {
    hide Inv, DataOk, QueueMessage, Calm;
    var b1 := StoreMessage(b, mid, Some(topic), qos, retain, empty);
    StoreMessageKeepsInv(b, mid, Some(topic), qos, retain, empty);
    StoreIsCalm(b, mid, Some(topic), qos, retain, empty);
    CalmKeepsData(b, b1);
    QueueKeepsData(b1, topic, qos, retain, b1.lastDbId, acl);
  }

  lemma FinishIsCalm(b: Db, c: nat, i: nat)
    requires c < |b.clients| && i < |b.clients[c].msgs|
    ensures Calm(b, Finish(b, c, i))
  {
    DropIsCalm(b, c, i);
    var b1 := Drop(b, c, i);
    var r := Finish(b, c, i);
    assert Calm(b1, r) by { assert SameTexts(b1.store, r.store) && r.clients == b1.clients && r.subs == b1.subs; }
    CalmOn(b, b1, r);
  }

  lemma ReleasedKeepsData(b: Db, c: nat, i: nat, acl: Acl)
    requires Inv(b) && DataOk(b) && c < |b.clients| && i < |b.clients[c].msgs| && b.clients[c].msgs[i].dir == In
    ensures DataOk(Released(b, c, i, acl))
  {
    var e := b.clients[c].msgs[i];
    EntryIsStored(b, c, i);
    EntryIsRoutable(b, c, i);
    hide Inv, DataOk, Calm, QueueMessage, Finish;
    if b.store[e.store].topic.Some? {
      QueueKeepsData(b, b.store[e.store].topic.value, b.store[e.store].qos, e.retain, e.store, acl);
    }
    var b1 := Handover(b, e.store, e.retain, acl);
    if i < |b1.clients[c].msgs| {
      FinishIsCalm(b1, c, i);
      CalmKeepsData(b1, Finish(b1, c, i));
    }
  }

  lemma EntryIsRoutable(b: Db, c: nat, i: nat)
    requires Inv(b) && DataOk(b) && c < |b.clients| && i < |b.clients[c].msgs| && b.clients[c].msgs[i].dir == In
    ensures var e := b.clients[c].msgs[i];
      && e.store in b.store
      && (b.store[e.store].topic.Some? ==> Routable(b, b.store[e.store].topic.value, e.retain, e.store))
  {
    var e := b.clients[c].msgs[i];
    assert e in b.clients[c].msgs && FlagsOk(b.store, b.clients[c].msgs);
    assert StoredOk(b.cfg, b.store[e.store]);
  }

  lemma {:induction false} ReleaseKeepsData(
    b: Db, c: nat, mid: nat, i: nat, msgIndex: nat, deleted: bool, left: nat, acl: Acl)
    requires Inv(b) && DataOk(b) && c < |b.clients| && i <= msgIndex
    ensures DataOk(ReleaseFrom(b, c, mid, i, msgIndex, deleted, left, acl))
    decreases left, |b.clients[c].msgs| - i
  {
    hide Inv, DataOk, Calm, ReleaseFrom, Promote, Released;
    if i >= |b.clients[c].msgs| {
      ReleaseStops(b, c, mid, i, msgIndex, deleted, left, acl);
    } else {
      ReleaseUnfolds(b, c, mid, i, msgIndex, deleted, left, acl);
      ReleaseStepKeepsInv(b, c, mid, i, msgIndex, acl);
      PromoteIsCalm(b, c, i, msgIndex + 1);
      var b1 := Promote(b, c, i, msgIndex + 1);
      CalmKeepsData(b, b1);
      var e := b1.clients[c].msgs[i];
      if e.mid == mid && e.dir == In && left > 0 {
        ReleasedKeepsData(b1, c, i, acl);
        if msgIndex + 1 <= b.cfg.maxInflight {
          ReleaseKeepsData(Released(b1, c, i, acl), c, mid, i, msgIndex + 1, true, left - 1, acl);
        }
      } else if !(msgIndex + 1 > b.cfg.maxInflight && deleted) {
        ReleaseKeepsData(b1, c, mid, i + 1, msgIndex + 1, deleted, left, acl);
      }
    }
  }

  // ----- the other steps -----------------------------------------------------------------

  lemma {:induction false} DeleteIsCalm(b: Db, c: nat, mid: nat, i: nat, msgIndex: nat, deleted: bool)
    requires c < |b.clients|
    ensures Calm(b, DeleteFrom(b, c, mid, i, msgIndex, deleted))
    decreases |b.clients[c].msgs| - i
  {
    hide Calm, DeleteFrom, Promoted;
    CalmSelf(b);
    DeleteTurn(b, c, mid, i, msgIndex, deleted);
    if i < |b.clients[c].msgs| {
      var r, b1 := DeleteFrom(b, c, mid, i, msgIndex, deleted), Promote(b, c, i, msgIndex + 1);
      PromoteIsCalm(b, c, i, msgIndex + 1);
      if b1.clients[c].msgs[i].mid == mid && b1.clients[c].msgs[i].dir == Out {
        var d := Drop(b1, c, i);
        DropIsCalm(b1, c, i);
        CalmOn(b, b1, d);
        if msgIndex <= b.cfg.maxInflight {
          DeleteIsCalm(d, c, mid, i, msgIndex, true);
          CalmOn(b, d, r);
        }
      } else if !(msgIndex + 1 > b.cfg.maxInflight && deleted) {
        DeleteIsCalm(b1, c, mid, i + 1, msgIndex + 1, deleted);
        CalmOn(b, b1, r);
      }
    }
  }

  lemma ResetOneIsCalm(b: Db, c: nat, i: nat)
    requires c < |b.clients| && i < |b.clients[c].msgs|
    ensures Calm(b, ResetOne(b, c, i))
  {
    hide Calm;
    var cl := b.clients[c];
    var e := cl.msgs[i];
    var b1 := PutClient(b, c, cl.(lastMsg := Some(e.uid), msgCount := cl.msgCount + 1,
                                  msgCount12 := cl.msgCount12 + (if e.qos > 0 then 1 else 0)));
    FieldsAreCalm(b, c, b1.clients[c]);
    EditIsCalm(b1, c, i, ResetEntry(e));
    DropIsCalm(b1, c, i);
    CalmOn(b, b1, ResetOne(b, c, i)) by {
      CalmSelf(b1);
    }
  }

  lemma {:induction false} ResetIsCalm(b: Db, c: nat, i: nat)
    requires c < |b.clients|
    ensures Calm(b, ResetFrom(b, c, i))
    decreases |b.clients[c].msgs| - i
  {
    hide Calm, ResetOne;
    CalmSelf(b);
    if i < |b.clients[c].msgs| {
      ResetOneIsCalm(b, c, i);
      ResetIsCalm(ResetOne(b, c, i), c, i + 1);
      CalmOn(b, ResetOne(b, c, i), ResetFrom(b, c, i));
    }
  }

  lemma {:induction false} ReviveIsCalm(b: Db, c: nat, i: nat)
    requires c < |b.clients|
    ensures Calm(b, ReviveFrom(b, c, i))
    decreases |b.clients[c].msgs| - i
  {
    hide Calm;
    CalmSelf(b);
    if i < |b.clients[c].msgs| && !(b.cfg.maxInflight > 0 && i >= b.cfg.maxInflight) {
      var e := b.clients[c].msgs[i];
      var next := if e.state == Queued then Edit(b, c, i, e.(state := ToSend(e.qos))) else b;
      EditIsCalm(b, c, i, e.(state := ToSend(e.qos)));
      ReviveIsCalm(next, c, i + 1);
      CalmOn(b, next, ReviveFrom(b, c, i));
    }
  }

  lemma ReconnectIsCalm(b: Db, c: nat)
    requires c < |b.clients|
    ensures Calm(b, ReconnectReset(b, c))
  {
    hide Calm, ResetFrom, ReviveFrom;
    var b1 := PutClient(b, c, b.clients[c].(msgCount := 0, msgCount12 := 0));
    FieldsAreCalm(b, c, b1.clients[c]);
    ResetIsCalm(b1, c, 0);
    ReviveIsCalm(ResetFrom(b1, c, 0), c, 0);
    CalmOn(b, b1, ResetFrom(b1, c, 0));
    CalmOn(b, ResetFrom(b1, c, 0), ReconnectReset(b, c));
  }

  lemma {:induction false} TimeoutMsgsIsCalm(b: Db, c: nat, i: nat, late: set<nat>)
    requires c < |b.clients|
    ensures Calm(b, TimeoutMsgs(b, c, i, late))
    decreases |b.clients[c].msgs| - i
  {
    hide Calm;
    CalmSelf(b);
    if i < |b.clients[c].msgs| {
      var e := b.clients[c].msgs[i];
      var next := if e.uid in late then Edit(b, c, i, TimedOut(e)) else b;
      EditIsCalm(b, c, i, TimedOut(e));
      TimeoutMsgsIsCalm(next, c, i + 1, late);
      CalmOn(b, next, TimeoutMsgs(b, c, i, late));
    }
  }

  lemma {:induction false} TimeoutIsCalm(b: Db, c: nat, late: set<nat>)
    ensures Calm(b, TimeoutCheck(b, c, late))
    decreases |b.clients| - c
  {
    hide Calm, TimeoutMsgs;
    CalmSelf(b);
    if c < |b.clients| {
      TimeoutMsgsIsCalm(b, c, 0, late);
      TimeoutIsCalm(TimeoutMsgs(b, c, 0, late), c + 1, late);
      CalmOn(b, TimeoutMsgs(b, c, 0, late), TimeoutCheck(b, c, late));
    }
  }

  lemma WrittenIsSame(e: Entry)
    ensures SameEntry(e, Written(e))
  {
  }

  lemma {:induction false} WriteIsCalm(b: Db, c: nat, i: nat, msgCount: nat, sends: nat)
    requires c < |b.clients| && InboundQos2(b.clients[c])
    ensures Calm(b, WriteFrom(b, c, i, msgCount, sends))
    decreases |b.clients[c].msgs| - i, if i < |b.clients[c].msgs| && b.clients[c].msgs[i].state == Queued then 1 else 0
  {
    hide Calm, WriteFrom, Written, InboundQos2;
    CalmSelf(b);
    var r := WriteFrom(b, c, i, msgCount, sends);
    if i >= |b.clients[c].msgs| {
      WriteEnds(b, c, i, msgCount, sends);
    } else {
      WriteTurn(b, c, i, msgCount, sends);
      var e := b.clients[c].msgs[i];
      var n := if e.dir == In then msgCount + 1 else msgCount;
      WrittenIsSame(e);
      EditIsCalm(b, c, i, Written(e));
      EditIsCalm(b, c, i, e.(state := SendPubrec));
      DropIsCalm(b, c, i);
      if e.state == PublishQos0 {
        if sends > 0 {
          WriteIsCalm(Drop(b, c, i), c, i, n, sends - 1);
          CalmOn(b, Drop(b, c, i), r);
        }
      } else if HasPacket(e.state) {
        if sends > 0 {
          WriteIsCalm(Edit(b, c, i, Written(e)), c, i + 1, n, sends - 1);
          CalmOn(b, Edit(b, c, i, Written(e)), r);
        }
      } else if e.state == Queued && e.dir == In && (b.cfg.maxInflight == 0 || n < b.cfg.maxInflight) {
        WriteIsCalm(Edit(b, c, i, e.(state := SendPubrec)), c, i, n, sends);
        CalmOn(b, Edit(b, c, i, e.(state := SendPubrec)), r);
      } else {
        WriteIsCalm(b, c, i + 1, n, sends);
      }
    }
  }

  /** A change of the tree that keeps the retained messages and holds checked filters. */
  lemma TreeKeepsData(b: Db, subs: Subs)
    requires DataOk(b) && FiltersOk(subs) && forall p :: RetOf(subs, p) == RetOf(b.subs, p)
    ensures DataOk(b.(subs := subs))
  {
  }

  lemma SubscribeKeepsData(b: Db, c: nat, filter: string, qos: Qos, acl: Acl)
    requires Valid(b.subs) && DataOk(b) && c < |b.clients| && FilterLevels(Split(filter))
    ensures DataOk(HandleSubscribe(b, c, filter, qos, acl))
  {
    hide Valid, SubOf, RetOf, SubAdd, FlagsOk, FilterLevels, SendRetained, RetainQueue;
    var l := Leaf(b.clients[c].id, qos);
    var subs := SubAdd(b.subs, filter, l);
    forall p, d | SubOf(subs, p, d).Some? ensures exists f :: Checked(f, p) {
      SubAddEffect(b.subs, filter, l, p, d);
      if p == Tokens(filter) && d == l.client {
        assert Checked(filter, p);
      }
    }
    forall p ensures RetOf(subs, p) == RetOf(b.subs, p) {
      SubAddEffect(b.subs, filter, l, p, "");
    }
    var b1 := b.(subs := subs);
    TreeKeepsData(b, subs);
    SendRetainedIsCalm(b1, c, RetainQueue(subs, filter), qos, acl);
    CalmKeepsData(b1, SendRetained(b1, c, RetainQueue(subs, filter), qos, acl));
  }

  lemma UnsubscribeKeepsData(b: Db, c: nat, filter: string)
    requires Valid(b.subs) && DataOk(b) && c < |b.clients|
    ensures DataOk(HandleUnsubscribe(b, c, filter))
  {
    hide Valid, SubOf, RetOf, SubRemove, FlagsOk, Checked;
    var id := b.clients[c].id;
    var subs := SubRemove(b.subs, filter, id);
    forall p, d | SubOf(subs, p, d).Some? ensures exists f :: Checked(f, p) {
      SubRemoveEffect(b.subs, filter, id, p, d);
    }
    forall p ensures RetOf(subs, p) == RetOf(b.subs, p) {
      SubRemoveEffect(b.subs, filter, id, p, "");
    }
    TreeKeepsData(b, subs);
  }

  lemma {:induction false} SweepKeepsTexts(store: map<nat, Stored>, ms: seq<Entry>)
    ensures SameTexts(store, Sweep(store, ms))
  {
    if ms != [] {
      SweepKeepsTexts(SweepOne(store, ms[0]), ms[1..]);
    }
  }

  lemma DiscardKeepsData(b: Db, c: nat)
    requires Valid(b.subs) && DataOk(b) && c < |b.clients|
    ensures DataOk(DiscardSession(b, c))
  {
    hide Valid, SubOf, RetOf, CleanSession, FlagsOk, Checked, Sweep, SameTexts;
    var id := b.clients[c].id;
    var subs := CleanSession(b.subs, id);
    forall p, d | SubOf(subs, p, d).Some? ensures exists f :: Checked(f, p) {
      CleanSessionEffect(b.subs, id, p, d);
    }
    forall p ensures RetOf(subs, p) == RetOf(b.subs, p) {
      CleanSessionEffect(b.subs, id, p, "");
    }
    TreeKeepsData(b, subs);
    var b1, r := b.(subs := subs), DiscardSession(b, c);
    SweepKeepsTexts(b.store, b.clients[c].msgs);
    NothingInherits(b.clients[c].msgs);
    PutIsCalm(b1, c, r.clients[c], r);
    CalmKeepsData(b1, r);
  }

  lemma NothingInherits(ms: seq<Entry>)
    ensures Inherits(ms, [])
  {
  }

  lemma TakeOverKeepsData(b: Db, c: nat, clean: bool)
    requires Valid(b.subs) && DataOk(b) && c < |b.clients|
    ensures DataOk(Broker.TakeOver(b, c, clean))
  {
    hide Valid, DataOk, Calm, DiscardSession, ReconnectReset;
    if clean {
      DiscardKeepsData(b, c);
    }
    var b1 := if clean then DiscardSession(b, c) else b;
    var b2 := PutClient(b1, c, b1.clients[c].(connected := true));
    FieldsAreCalm(b1, c, b2.clients[c]);
    CalmKeepsData(b1, b2);
    ReconnectIsCalm(b2, c);
    CalmKeepsData(b2, ReconnectReset(b2, c));
  }

  /** A sweep of the store frees nothing that is referred to. */
  lemma CleanStoreKeepsData(b: Db)
    requires Inv(b) && DataOk(b)
    ensures DataOk(b.(store := StoreClean(b.store)))
  {
    var r := b.(store := StoreClean(b.store));
    StoreCleanKeepsInv(b);
    forall p | RetOf(r.subs, p).Some? ensures RetOf(r.subs, p).value in r.store {
      RetainedIsStored(r, p);
    }
    forall c | 0 <= c < |r.clients| ensures FlagsOk(r.store, r.clients[c].msgs) {
      forall e | e in r.clients[c].msgs && e.dir == In
        ensures e.store in r.store && e.retain == r.store[e.store].retain
      {
        var i :| 0 <= i < |r.clients[c].msgs| && r.clients[c].msgs[i] == e;
        EntryIsStored(r, c, i);
        assert FlagsOk(b.store, b.clients[c].msgs);
      }
    }
  }

  lemma ConnectKeepsData(b: Db, cl: Client)
    requires DataOk(b) && cl.msgs == []
    ensures DataOk(b.(clients := b.clients + [cl]))
  {
    hide RetainedOk, FiltersOk;
    var r := b.(clients := b.clients + [cl]);
    forall c | 0 <= c < |r.clients| ensures FlagsOk(r.store, r.clients[c].msgs) {
      assert c < |b.clients| ==> r.clients[c] == b.clients[c];
    }
  }

  lemma RemovedKeepsData(b: Db, c: nat)
    requires DataOk(b) && c < |b.clients|
    ensures DataOk(Removed(b, c))
  {
    hide RetainedOk, FiltersOk;
    var r := Removed(b, c);
    forall d | 0 <= d < |r.clients| ensures FlagsOk(r.store, r.clients[d].msgs) {
      assert r.clients[d] == b.clients[if d < c then d else d + 1];
    }
  }

  lemma PubrecIsCalm(b: Db, c: nat, mid: nat)
    requires c < |b.clients|
    ensures Calm(b, HandlePubrec(b, c, mid))
  {
    hide Calm;
    CalmSelf(b);
    var i := FindOutFrom(b.clients[c].msgs, mid, 0);
    if i < |b.clients[c].msgs| {
      var e := b.clients[c].msgs[i];
      EditIsCalm(b, c, i, e.(state := WaitForPubcomp, history := e.history + [Sent.Pubrec, Sent.Pubrel]));
    }
  }

  // ----- runs ---------------------------------------------------------------------------

  /** Events after which messages, tree and inbound entries are as they were. */
  predicate Quiet(ev: Event) {
    ev.PubackComp? || ev.Pubrec? || ev.Write? || ev.Timeout? || ev.Disconnect?
  }

  lemma QuietIsCalm(b: Db, ev: Event)
    requires Inv(b) && Allowed(b, ev) && Quiet(ev)
    ensures Calm(b, Next(b, ev))
  {
    hide Inv, Calm, DeleteFrom, WriteFrom, TimeoutCheck, HandlePubrec;
    CalmSelf(b);
    match ev
    case Disconnect(c) => FieldsAreCalm(b, c, b.clients[c].(connected := false));
    case PubackComp(c, mid) => DeleteIsCalm(b, c, mid, 0, 0, false);
    case Pubrec(c, mid) => PubrecIsCalm(b, c, mid);
    case Write(c, sends) =>
      InvAt(b, c, 0);
      WriteIsCalm(b, c, 0, 0, sends);
    case Timeout(late) => TimeoutIsCalm(b, 0, late);
  }

  lemma LoudKeepsData(b: Db, ev: Event)
    requires Inv(b) && Allowed(b, ev) && DataOk(b) && !Quiet(ev)
    ensures DataOk(Next(b, ev))
  {
    TreeIsValid(b);
    hide Inv, DataOk, Calm, Valid, HandlePublish, Broker.TakeOver, HandleSubscribe, HandleUnsubscribe, QueueMessage;
    hide ReleaseFrom, DiscardSession, StoreClean, StoreMessage;
    match ev
    case Connect(id) => ConnectKeepsData(b, Client(id, true, [], None, 0, 0, 0));
    case TakeOver(c, clean) => TakeOverKeepsData(b, c, clean);
    case Expire(c) =>
      DiscardKeepsData(b, c);
      RemovedKeepsData(DiscardSession(b, c), c);
    case Subscribe(c, f, q, acl) => SubscribeKeepsData(b, c, f, q, acl);
    case Unsubscribe(c, f) => UnsubscribeKeepsData(b, c, f);
    case PublishIn(c, mid, t, q, retain, empty, bad, acl) =>
      PublishKeepsData(b, c, mid, t, q, retain, empty, bad, acl);
      ClosedKeepsData(HandlePublish(b, c, mid, t, q, retain, empty, bad, acl), c);
    case Announce(t, q, retain, empty, acl) => RouteNewKeepsData(b, 0, t, q, retain, empty, acl);
    case Pubrel(c, mid, acl) => ReleaseKeepsData(b, c, mid, 0, 0, false, Tally(b.clients[c].msgs, WithMid(mid)), acl);
    case CleanStore => CleanStoreKeepsData(b);
  }

  lemma NextKeepsData(b: Db, ev: Event)
    requires Inv(b) && Allowed(b, ev) && DataOk(b)
    ensures DataOk(Next(b, ev))
  {
    hide Inv, DataOk, Calm, Allowed, Next;
    if Quiet(ev) {
      QuietIsCalm(b, ev);
      CalmKeepsData(b, Next(b, ev));
    } else {
      LoudKeepsData(b, ev);
    }
  }

  lemma ClosedKeepsData(b: Db, c: nat)
    requires DataOk(b) && c < |b.clients|
    ensures DataOk(Closed(b, c))
  {
    hide DataOk, Calm;
    FieldsAreCalm(b, c, b.clients[c].(connected := false));
    CalmKeepsData(b, Closed(b, c));
  }

  /** After every run: a retained message is stored, stands where its topic says, and was
      published with the retain flag and a payload; the tree holds checked filters only; and
      an inbound entry has the retain flag of its message. */
  lemma {:induction false} RunDataOk(cfg: Config, evs: seq<Event>, b: Db)
    requires After(cfg, evs, b)
    ensures DataOk(b)
    decreases |evs|
  {
    hide Inv, Allowed, Next, DataOk;
    if evs == [] {
      StartDataOk(cfg);
    } else {
      var before := Play(cfg, evs[..|evs| - 1]).value;
      RunDataOk(cfg, evs[..|evs| - 1], before);
      NextKeepsData(before, evs[|evs| - 1]);
    }
  }

  lemma StartDataOk(cfg: Config)
    ensures DataOk(Start(cfg))
  {
    BootAgrees();
  }
}

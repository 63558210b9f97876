/** Delivery after whole runs: client ids stay distinct, so that every new message reaches
    exactly the clients it is for. */
module DeliveryRuns {
  import opened Options
  import opened Topics
  import opened Hierarchy
  import opened SubTree
  import opened Queues
  import opened Broker
  import opened BrokerLaws
  import opened BrokerOps
  import opened BrokerRuns
  import opened Delivery
  import opened Rules

  // ----- no step but CONNECT and expiry changes the table of ids ------------------------

  lemma {:induction false} LeavesIds(b: Db, ls: seq<Leaf>, topic: string, qos: Qos, sid: nat, acl: Acl)
    requires sid in b.store
    ensures SameIds(b.clients, SendToLeaves(b, ls, topic, qos, sid, acl).clients)
    decreases |ls|
  {
    hide Send;
    if ls != [] && acl(ls[0].client, topic) != Failed {
      var next := ServeOne(b, ls[0], topic, qos, sid, acl);
      ChosenIs(b.cfg, qos, ls[0].qos);
      ServeIds(b, ls[0], topic, qos, sid, acl);
      LeavesIds(next, ls[1..], topic, qos, sid, acl);
    }
  }

  lemma ServeIds(b: Db, l: Leaf, topic: string, qos: Qos, sid: nat, acl: Acl)
    requires sid in b.store
    ensures SameIds(b.clients, ServeOne(b, l, topic, qos, sid, acl).clients)
  {
    var c := FindClient(b.clients, l.client);
    if c < |b.clients| {
      SendIds(b, c, Chosen(b.cfg, qos, l.qos), false, sid);
    }
  }

  lemma SendIds(b: Db, c: nat, qos: Qos, retain: bool, sid: nat)
    requires c < |b.clients| && sid in b.store
    ensures SameIds(b.clients, Send(b, c, qos, retain, sid).clients)
  {
  }

  lemma {:induction false} StopsIds(b: Db, vs: seq<At<Stop>>, topic: string, qos: Qos, sid: nat, acl: Acl)
    requires sid in b.store
    ensures SameIds(b.clients, SendToStops(b, vs, topic, qos, sid, acl).clients)
    decreases |vs|
  {
    hide SendToLeaves;
    if vs != [] {
      LeavesIds(b, vs[0].item.leaves, topic, qos, sid, acl);
      StopsIds(SendToLeaves(b, vs[0].item.leaves, topic, qos, sid, acl), vs[1..], topic, qos, sid, acl);
    }
  }

  lemma QueueIds(b: Db, topic: string, qos: Qos, retain: bool, sid: nat, acl: Acl)
    requires sid in b.store
    ensures SameIds(b.clients, QueueMessage(b, topic, qos, retain, sid, acl).clients)
  {
    hide SendToStops, Route, MakePath, Keep;
    if retain {
      var m := if b.store[sid].empty then None else Some(sid);
      StopsIds(Keep(b, topic, m), Route(MakePath(b.subs, topic), topic), topic, qos, sid, acl);
    } else {
      StopsIds(b, Route(b.subs, topic), topic, qos, sid, acl);
    }
  }

  lemma PublishIds(b: Db, c: nat, mid: nat, topic: string, qos: Qos, retain: bool, empty: bool, bad: bool, acl: Acl)
    requires c < |b.clients|
    ensures SameIds(b.clients, HandlePublish(b, c, mid, topic, qos, retain, empty, bad, acl).clients)
  {
    hide QueueMessage, StoreFind;
    if !bad && qos < 2 {
      var found := if qos > 0 then StoreFind(b.store, b.clients[c].msgs, mid) else None;
      var b1 := if found.Some? then b else StoreMessage(b, mid, Some(topic), qos, retain, empty);
      QueueIds(b1, topic, qos, retain, if found.Some? then found.value else b1.lastDbId, acl);
    }
  }

  lemma {:induction false} DeleteIds(b: Db, c: nat, mid: nat, i: nat, msgIndex: nat, deleted: bool)
    requires c < |b.clients|
    ensures SameIds(b.clients, DeleteFrom(b, c, mid, i, msgIndex, deleted).clients)
    decreases |b.clients[c].msgs| - i
  {
    if i < |b.clients[c].msgs| {
      var b1 := Promote(b, c, i, msgIndex + 1);
      var e := b1.clients[c].msgs[i];
      if e.mid == mid && e.dir == Out {
        if msgIndex <= b.cfg.maxInflight {
          DeleteIds(Drop(b1, c, i), c, mid, i, msgIndex, true);
        }
      } else {
        DeleteIds(b1, c, mid, i + 1, msgIndex + 1, deleted);
      }
    }
  }

  lemma ReleasedIds(b: Db, c: nat, i: nat, acl: Acl)
    requires c < |b.clients| && i < |b.clients[c].msgs|
    ensures SameIds(b.clients, Released(b, c, i, acl).clients)
  {
    hide QueueMessage;
    var e := b.clients[c].msgs[i];
    if e.store in b.store && b.store[e.store].topic.Some? {
      QueueIds(b, b.store[e.store].topic.value, b.store[e.store].qos, e.retain, e.store, acl);
    }
  }

  lemma {:induction false} ReleaseIds(
    b: Db, c: nat, mid: nat, i: nat, msgIndex: nat, deleted: bool, left: nat, acl: Acl)
    requires c < |b.clients|
    ensures SameIds(b.clients, ReleaseFrom(b, c, mid, i, msgIndex, deleted, left, acl).clients)
    decreases left, |b.clients[c].msgs| - i
  {
    hide ReleaseFrom, Released;
    if i >= |b.clients[c].msgs| {
      ReleaseStops(b, c, mid, i, msgIndex, deleted, left, acl);
    } else {
      ReleaseUnfolds(b, c, mid, i, msgIndex, deleted, left, acl);
      var b1 := Promote(b, c, i, msgIndex + 1);
      var e := b1.clients[c].msgs[i];
      ReleasedIds(b1, c, i, acl);
      if e.mid == mid && e.dir == In && left > 0 {
        if msgIndex + 1 <= b.cfg.maxInflight {
          ReleaseIds(Released(b1, c, i, acl), c, mid, i, msgIndex + 1, true, left - 1, acl);
        }
      } else if !(msgIndex + 1 > b.cfg.maxInflight && deleted) {
        ReleaseIds(b1, c, mid, i + 1, msgIndex + 1, deleted, left, acl);
      }
    }
  }

  lemma {:induction false} ResetIds(b: Db, c: nat, i: nat)
    requires c < |b.clients|
    ensures SameIds(b.clients, ResetFrom(b, c, i).clients)
    decreases |b.clients[c].msgs| - i
  {
    if i < |b.clients[c].msgs| {
      ResetIds(ResetOne(b, c, i), c, i + 1);
    }
  }

  lemma {:induction false} ReviveIds(b: Db, c: nat, i: nat)
    requires c < |b.clients|
    ensures SameIds(b.clients, ReviveFrom(b, c, i).clients)
    decreases |b.clients[c].msgs| - i
  {
    if i < |b.clients[c].msgs| && !(b.cfg.maxInflight > 0 && i >= b.cfg.maxInflight) {
      var e := b.clients[c].msgs[i];
      ReviveIds(if e.state == Queued then Edit(b, c, i, e.(state := ToSend(e.qos))) else b, c, i + 1);
    }
  }

  lemma TakeOverIds(b: Db, c: nat, clean: bool)
    requires c < |b.clients|
    ensures SameIds(b.clients, Broker.TakeOver(b, c, clean).clients)
  {
    hide ResetFrom, ReviveFrom, Sweep, CleanSession;
    var b1 := if clean then DiscardSession(b, c) else b;
    var b2 := PutClient(b1, c, b1.clients[c].(connected := true));
    var b3 := PutClient(b2, c, b2.clients[c].(msgCount := 0, msgCount12 := 0));
    ResetIds(b3, c, 0);
    ReviveIds(ResetFrom(b3, c, 0), c, 0);
  }

  lemma {:induction false} TimeoutMsgsIds(b: Db, c: nat, i: nat, late: set<nat>)
    requires c < |b.clients|
    ensures SameIds(b.clients, TimeoutMsgs(b, c, i, late).clients)
    decreases |b.clients[c].msgs| - i
  {
    if i < |b.clients[c].msgs| {
      var e := b.clients[c].msgs[i];
      TimeoutMsgsIds(if e.uid in late then Edit(b, c, i, TimedOut(e)) else b, c, i + 1, late);
    }
  }

  lemma {:induction false} TimeoutIds(b: Db, c: nat, late: set<nat>)
    ensures SameIds(b.clients, TimeoutCheck(b, c, late).clients)
    decreases |b.clients| - c
  {
    if c < |b.clients| {
      TimeoutMsgsIds(b, c, 0, late);
      TimeoutIds(TimeoutMsgs(b, c, 0, late), c + 1, late);
    }
  }

  lemma EditIds(b: Db, c: nat, i: nat, e: Entry)
    requires c < |b.clients| && i < |b.clients[c].msgs|
    ensures var r := Edit(b, c, i, e).clients;
      SameIds(b.clients, r) && |r[c].msgs| == |b.clients[c].msgs| && r[c].msgs[i] == e
    ensures var r := Drop(b, c, i).clients; SameIds(b.clients, r) && |r[c].msgs| == |b.clients[c].msgs| - 1
  {
  }

  lemma SameIdsSelf(cs: seq<Client>)
    ensures SameIds(cs, cs)
  {
  }

  lemma {:induction false} WriteIds(b: Db, c: nat, i: nat, msgCount: nat, sends: nat)
    requires c < |b.clients| && InboundQos2(b.clients[c])
    ensures SameIds(b.clients, WriteFrom(b, c, i, msgCount, sends).clients)
    decreases |b.clients[c].msgs| - i, if i < |b.clients[c].msgs| && b.clients[c].msgs[i].state == Queued then 1 else 0
  {
    SameIdsSelf(b.clients);
    hide WriteFrom, Drop, Edit, Written, InboundQos2, SameIds;
    var r := WriteFrom(b, c, i, msgCount, sends);
    if i >= |b.clients[c].msgs| {
      WriteEnds(b, c, i, msgCount, sends);
    } else {
      WriteTurn(b, c, i, msgCount, sends);
      var e := b.clients[c].msgs[i];
      var n := if e.dir == In then msgCount + 1 else msgCount;
      EditIds(b, c, i, Written(e));
      EditIds(b, c, i, e.(state := SendPubrec));
      if e.state == PublishQos0 {
        if sends > 0 {
          WriteIds(Drop(b, c, i), c, i, n, sends - 1);
          SameIdsOn(b.clients, Drop(b, c, i).clients, r.clients);
        }
      } else if HasPacket(e.state) {
        if sends > 0 {
          WriteIds(Edit(b, c, i, Written(e)), c, i + 1, n, sends - 1);
          SameIdsOn(b.clients, Edit(b, c, i, Written(e)).clients, r.clients);
        }
      } else if e.state == Queued && e.dir == In && (b.cfg.maxInflight == 0 || n < b.cfg.maxInflight) {
        WriteIds(Edit(b, c, i, e.(state := SendPubrec)), c, i, n, sends);
        SameIdsOn(b.clients, Edit(b, c, i, e.(state := SendPubrec)).clients, r.clients);
      } else {
        WriteIds(b, c, i + 1, n, sends);
      }
    }
  }

  lemma {:induction false} RetainedIds(b: Db, c: nat, found: seq<At<nat>>, subQos: Qos, acl: Acl)
    requires c < |b.clients|
    ensures SameIds(b.clients, SendRetained(b, c, found, subQos, acl).clients)
    decreases |found|
  {
    hide Send;
    if found != [] {
      var sid := found[0].item;
      if sid in b.store && b.store[sid].topic.Some? && acl(b.clients[c].id, b.store[sid].topic.value) == Granted {
        SendIds(b, c, Min(b.store[sid].qos, subQos), true, sid);
        RetainedIds(Send(b, c, Min(b.store[sid].qos, subQos), true, sid), c, found[1..], subQos, acl);
      } else {
        RetainedIds(b, c, found[1..], subQos, acl);
      }
    }
  }

  // ----- runs ---------------------------------------------------------------------------

  lemma ClosedIds(b: Db, c: nat)
    requires c < |b.clients|
    ensures SameIds(b.clients, b.clients) && SameIds(b.clients, Closed(b, c).clients)
  {
  }

  lemma NextSameIds(b: Db, ev: Event)
    requires Inv(b) && Allowed(b, ev) && !ev.Connect? && !ev.Expire?
    ensures SameIds(b.clients, Next(b, ev).clients)
  {
    SameIdsSelf(b.clients);
    hide Inv, HandlePublish, Broker.TakeOver, QueueMessage, DeleteFrom, ReleaseFrom, WriteFrom, TimeoutCheck,
      SendRetained;
    match ev
    case TakeOver(c, clean) => TakeOverIds(b, c, clean);
    case Subscribe(c, f, q, acl) =>
      var b1 := b.(subs := SubAdd(b.subs, f, Leaf(b.clients[c].id, q)));
      RetainedIds(b1, c, RetainQueue(b1.subs, f), q, acl);
    case PublishIn(c, mid, t, q, retain, empty, bad, acl) =>
      PublishIds(b, c, mid, t, q, retain, empty, bad, acl);
      ClosedIds(HandlePublish(b, c, mid, t, q, retain, empty, bad, acl), c);
      SameIdsOn(b.clients, HandlePublish(b, c, mid, t, q, retain, empty, bad, acl).clients, Next(b, ev).clients);
    case Announce(t, q, retain, empty, acl) =>
      var b1 := StoreMessage(b, 0, Some(t), q, retain, empty);
      QueueIds(b1, t, q, retain, b1.lastDbId, acl);
    case PubackComp(c, mid) => DeleteIds(b, c, mid, 0, 0, false);
    case Pubrel(c, mid, acl) => ReleaseIds(b, c, mid, 0, 0, false, Tally(b.clients[c].msgs, WithMid(mid)), acl);
    case Write(c, sends) =>
      InvAt(b, c, 0);
      WriteIds(b, c, 0, 0, sends);
    case Timeout(late) => TimeoutIds(b, 0, late);
    case _ =>
  }

  lemma NextKeepsIds(b: Db, ev: Event)
    requires Inv(b) && Allowed(b, ev) && DistinctClientIds(b.clients)
    ensures DistinctClientIds(Next(b, ev).clients)
  {
    if !ev.Connect? && !ev.Expire? {
      hide Inv, Allowed, Next;
      NextSameIds(b, ev);
    } else {
      hide Inv, Sweep, CleanSession;
    }
  }

  /** No two clients ever have the same id. */
  lemma {:induction false} IdsDistinct(cfg: Config, evs: seq<Event>, b: Db)
    requires After(cfg, evs, b)
    ensures DistinctClientIds(b.clients)
    decreases |evs|
  {
    hide Inv, Allowed, Next;
    if evs != [] {
      var before := Play(cfg, evs[..|evs| - 1]).value;
      IdsDistinct(cfg, evs[..|evs| - 1], before);
      NextKeepsIds(before, evs[|evs| - 1]);
    }
  }

  /** After every run a new message of the broker, or a will, brings every client its share. */
  lemma NewMessageShares(
    cfg: Config, evs: seq<Event>, b: Db, topic: string, qos: Qos, retain: bool, empty: bool, acl: Acl, c: nat)
    requires After(cfg, evs, b) && PlainLevels(Split(topic)) && c < |b.clients|
    ensures var cl, n := b.clients[c], EasyQueue(b, topic, qos, retain, empty, acl).clients[c];
      Brought(cl, n, Share(cfg, b.subs, cl, false, topic, qos, retain, b.lastDbId + 1, acl))
  {
    hide Inv, Play, QueueMessage, Share, Brought;
    IdsDistinct(cfg, evs, b);
    StoreMessageKeepsInv(b, 0, Some(topic), qos, retain, empty);
    MessageShares(StoreMessage(b, 0, Some(topic), qos, retain, empty), topic, qos, retain, b.lastDbId + 1, acl, c);
  }
}

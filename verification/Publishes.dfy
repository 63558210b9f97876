/** What PUBLISH does to the broker: which queues it lengthens and by what, and what it leaves
    in the tree. */
module Publishes {
  import opened Options
  import opened Topics
  import opened Hierarchy
  import opened SubTree
  import opened Queues
  import opened Broker
  import opened BrokerLaws
  import opened BrokerOps
  import opened Delivery
  import opened RunData
  import opened Rules

  // ----- a message handed to the tree ---------------------------------------------------

  /** What the tree keeps of a message under its topic: with the retain flag the message, or
      nothing if it has no payload. A topic of which no tree has the top is not kept. */
  ghost predicate KeptInTree(s: Subs, t: Subs, topic: string, m: Option<nat>, retain: bool) {
    && (forall p, id :: SubOf(t, p, id) == SubOf(s, p, id))
    && forall p :: RetOf(t, p) ==
         if retain && p == Tokens(topic) && HasTop(s, Tokens(topic)[0]) then m else RetOf(s, p)
  }

  /** Every client has got its share of the message, the tree has kept it, and nothing else
      has changed in a queue or in the tree. `seen` are the clients that have got it before. */
  ghost predicate Handed(
    b: Db, r: Db, sid: nat, topic: string, qos: Qos, retain: bool, empty: bool, seen: seq<string>, acl: Acl)
  {
    && |r.clients| == |b.clients|
    && (forall d :: 0 <= d < |b.clients| ==>
          Shared(b.cfg, b.subs, b.clients[d], r.clients[d], sid, topic, qos, retain, seen, acl))
    && KeptInTree(b.subs, r.subs, topic, if empty then None else Some(sid), retain)
  }

  ghost predicate Shared(cfg: Config, s: Subs, cl: Client, n: Client, sid: nat, topic: string, qos: Qos, retain: bool,
                         seen: seq<string>, acl: Acl) {
    SameClient(cl, n) && Brought(cl, n, Share(cfg, s, cl, cl.id in seen, topic, qos, retain, sid, acl))
  }

  lemma TreeKeeps(b: Db, topic: string, qos: Qos, retain: bool, sid: nat, acl: Acl)
    requires Valid(b.subs) && sid in b.store && PlainLevels(Split(topic))
    ensures var m := if b.store[sid].empty then None else Some(sid);
      KeptInTree(b.subs, QueueMessage(b, topic, qos, retain, sid, acl).subs, topic, m, retain)
  {
    hide Valid, Calm, Route, MakePath, SendToStops, RetainPublish, SubOf, RetOf, HasTop;
    var m := if b.store[sid].empty then None else Some(sid);
    var b1 := if retain then Keep(b, topic, m) else b;
    var vs := Route(if retain then MakePath(b.subs, topic) else b.subs, topic);
    StopsAreCalm(b1, vs, topic, qos, sid, acl);
    CalmKeepsTree(b1, SendToStops(b1, vs, topic, qos, sid, acl));
    forall p, id
      ensures SubOf(RetainPublish(b.subs, topic, m), p, id) == SubOf(b.subs, p, id)
    {
      RetainPublishEffect(b.subs, topic, m, p, id);
    }
    forall p
      ensures RetOf(RetainPublish(b.subs, topic, m), p) ==
        if p == Tokens(topic) && HasTop(b.subs, Tokens(topic)[0]) then m else RetOf(b.subs, p)
    {
      RetainPublishEffect(b.subs, topic, m, p, "");
    }
  }

  lemma CalmKeepsTree(b: Db, r: Db)
    requires Calm(b, r)
    ensures r.subs == b.subs
  {
  }

  lemma QueueMessageIds(b: Db, topic: string, qos: Qos, retain: bool, sid: nat, acl: Acl, d: nat)
    requires Inv(b) && sid in b.store && PlainLevels(Split(topic)) && d < |b.clients|
    ensures SameClient(b.clients[d], QueueMessage(b, topic, qos, retain, sid, acl).clients[d])
  {
    hide Inv, Distribute;
    DistributeKeepsInv(b, topic, qos, retain, sid, acl);
    var r := Distribute(b, topic, qos, retain, sid, acl);
    assert Extended(b.clients[d], r.clients[d]);
  }

  lemma MessageHanded(b: Db, topic: string, qos: Qos, retain: bool, sid: nat, acl: Acl)
    requires Inv(b) && sid in b.store && PlainLevels(Split(topic)) && DistinctClientIds(b.clients)
    ensures Handed(b, QueueMessage(b, topic, qos, retain, sid, acl), sid, topic, qos, retain, b.store[sid].empty,
                   b.store[sid].destIds, acl)
  {
    hide Inv, QueueMessage, KeptInTree, Share, Brought, DistinctClientIds;
    InvTree(b);
    TreeKeeps(b, topic, qos, retain, sid, acl);
    forall d | 0 <= d < |b.clients|
      ensures Shared(b.cfg, b.subs, b.clients[d], QueueMessage(b, topic, qos, retain, sid, acl).clients[d], sid, topic,
                     qos, retain, b.store[sid].destIds, acl)
    {
      MessageShares(b, topic, qos, retain, sid, acl, d);
      QueueMessageIds(b, topic, qos, retain, sid, acl, d);
    }
  }

  // ----- handshakes ---------------------------------------------------------------------

  /** Entry `k` is an open handshake under the packet id. */
  predicate Shaking(cl: Client, mid: nat, k: nat) {
    k < |cl.msgs| && cl.msgs[k].dir == In && cl.msgs[k].mid == mid
  }

  predicate NoHandshake(cl: Client, mid: nat) {
    forall k :: 0 <= k < |cl.msgs| ==> !Shaking(cl, mid, k)
  }

  lemma {:induction false} FoundAt(store: map<nat, Stored>, ms: seq<Entry>, mid: nat) returns (k: nat)
    requires Filed(store, ms) && StoreFind(store, ms, mid).Some?
    ensures k < |ms| && ms[k].dir == In && ms[k].mid == mid && StoreFind(store, ms, mid) == Some(ms[k].store)
  {
    if ms[0].dir == In && ms[0].mid == mid {
      k := 0;
    } else {
      assert forall i :: 0 <= i < |ms[1..]| ==> ms[1..][i] == ms[i + 1];
      k := FoundAt(store, ms[1..], mid);
      k := k + 1;
    }
  }

  lemma {:induction false} NotFound(store: map<nat, Stored>, ms: seq<Entry>, mid: nat, k: nat)
    requires Filed(store, ms) && StoreFind(store, ms, mid).None? && k < |ms|
    ensures !(ms[k].dir == In && ms[k].mid == mid)
  {
    if k > 0 {
      assert forall i :: 0 <= i < |ms[1..]| ==> ms[1..][i] == ms[i + 1];
      NotFound(store, ms[1..], mid, k - 1);
    }
  }

  /** The search for a stored message finds the handshake under the packet id, if there is one. */
  lemma FindsHandshake(b: Db, c: nat, mid: nat)
    requires Inv(b) && c < |b.clients|
    ensures var f := StoreFind(b.store, b.clients[c].msgs, mid);
      && (f.None? <==> NoHandshake(b.clients[c], mid))
      && forall k: nat :: Shaking(b.clients[c], mid, k) ==> f == Some(b.clients[c].msgs[k].store)
  {
    var cl := b.clients[c];
    var f := StoreFind(b.store, cl.msgs, mid);
    InvAt(b, c, 0);
    hide Inv, StoreFind, ClientOk;
    if f.Some? {
      var k := FoundAt(b.store, cl.msgs, mid);
      assert Shaking(cl, mid, k);
      forall j: nat | Shaking(cl, mid, j) ensures j == k {
        OnlyOne(cl.msgs, mid, j, k);
      }
    } else {
      forall k | 0 <= k < |cl.msgs| ensures !Shaking(cl, mid, k) {
        NotFound(b.store, cl.msgs, mid, k);
      }
    }
  }

  lemma OnlyOne(ms: seq<Entry>, mid: nat, j: nat, k: nat)
    requires Tally(ms, WithMid(mid)) <= 1 && j < |ms| && k < |ms|
    requires ms[j].dir == In && ms[j].mid == mid && ms[k].dir == In && ms[k].mid == mid
    ensures j == k
  {
    if j != k {
      var out := ms[k].(dir := Out);
      TallyEdit(ms, k, out, WithMid(mid));
      assert ms[k := out][j] == ms[j];
      TallyEdit(ms[k := out], j, out, WithMid(mid));
    }
  }

  // ----- PUBLISH ------------------------------------------------------------------------

  /** A new message is stored, under an id that was not in use, and handed to the tree. */
  ghost predicate Routed(
    b: Db, r: Db, mid: nat, topic: string, qos: Qos, retain: bool, empty: bool, acl: Acl)
  {
    && b.lastDbId + 1 !in b.store
    && Handed(b, r, b.lastDbId + 1, topic, qos, retain, empty, [], acl)
    && IsStored(b, r, b.lastDbId + 1, mid, Some(topic), qos, retain, empty)
  }

  lemma NewMessageRouted(b: Db, mid: nat, topic: string, qos: Qos, retain: bool, empty: bool, acl: Acl)
    requires Inv(b) && DistinctClientIds(b.clients) && PlainLevels(Split(topic))
    ensures var b1 := StoreMessage(b, mid, Some(topic), qos, retain, empty);
      Routed(b, QueueMessage(b1, topic, qos, retain, b.lastDbId + 1, acl), mid, topic, qos, retain, empty, acl)
  {
    hide Inv, QueueMessage, Handed;
    var b1, sid := StoreMessage(b, mid, Some(topic), qos, retain, empty), b.lastDbId + 1;
    StoreMessageKeepsInv(b, mid, Some(topic), qos, retain, empty);
    MessageHanded(b1, topic, qos, retain, sid, acl);
    SameHanded(b, b1, QueueMessage(b1, topic, qos, retain, sid, acl), sid, topic, qos, retain, empty, [], acl);
    QueueStores(b1, topic, qos, retain, sid, acl);
  }

  /** A message of QoS 0 or 1, under a packet id with no open handshake, is stored and handed to
      the tree at once. */
  lemma PublishHands(b: Db, c: nat, mid: nat, topic: string, qos: Qos, retain: bool, empty: bool, acl: Acl)
    requires Inv(b) && DistinctClientIds(b.clients) && c < |b.clients| && PlainLevels(Split(topic))
    requires qos == 0 || (qos == 1 && NoHandshake(b.clients[c], mid))
    ensures var r := HandlePublish(b, c, mid, topic, qos, retain, empty, false, acl);
      Routed(b, r, mid, topic, qos, retain, empty, acl)
  {
    hide Inv, QueueMessage, Routed;
    FindsHandshake(b, c, mid);
    NewMessageRouted(b, mid, topic, qos, retain, empty, acl);
  }

  lemma SameHanded(b: Db, b1: Db, r: Db, sid: nat, topic: string, qos: Qos, retain: bool, empty: bool,
                   seen: seq<string>, acl: Acl)
    requires Handed(b1, r, sid, topic, qos, retain, empty, seen, acl)
    requires b1.cfg == b.cfg && b1.clients == b.clients && b1.subs == b.subs
    ensures Handed(b, r, sid, topic, qos, retain, empty, seen, acl)
  {
    hide Shared, KeptInTree;
  }

  /** The new message stands in the store as it came, and the others are what they were. */
  ghost predicate IsStored(
    b: Db, r: Db, sid: nat, mid: nat, topic: Option<string>, qos: Qos, retain: bool, empty: bool)
  {
    && r.lastDbId == sid && r.store.Keys == b.store.Keys + {sid}
    && (forall x :: x in b.store ==> SameText(b.store[x], r.store[x]))
    && var s := r.store[sid];
       s.sourceMid == mid && s.topic == topic && s.qos == qos && s.retain == retain && s.empty == empty
  }

  lemma QueueStores(b: Db, topic: string, qos: Qos, retain: bool, sid: nat, acl: Acl)
    requires Inv(b) && sid in b.store && PlainLevels(Split(topic))
    ensures var r := QueueMessage(b, topic, qos, retain, sid, acl);
      r.lastDbId == b.lastDbId && TextsKept(b.store, r.store)
  {
    hide Inv, Distribute;
    DistributeKeepsInv(b, topic, qos, retain, sid, acl);
    var r := Distribute(b, topic, qos, retain, sid, acl);
    assert forall x :: x in b.store ==> SameMessage(b.store[x], r.store[x]);
  }

  /** A message of QoS 1 under the packet id of an open handshake brings every client its share
      of the message of that handshake, under the new topic. */
  lemma PublishHandsOld(b: Db, c: nat, mid: nat, k: nat, topic: string, retain: bool, empty: bool, acl: Acl)
    requires Inv(b) && DistinctClientIds(b.clients) && c < |b.clients| && PlainLevels(Split(topic))
    requires Shaking(b.clients[c], mid, k)
    ensures var r, sid := HandlePublish(b, c, mid, topic, 1, retain, empty, false, acl), b.clients[c].msgs[k].store;
      && sid in b.store
      && Handed(b, r, sid, topic, 1, retain, b.store[sid].empty, b.store[sid].destIds, acl)
  {
    hide Inv, QueueMessage, Handed;
    FindsHandshake(b, c, mid);
    EntryIsStored(b, c, k);
    MessageHanded(b, topic, 1, retain, b.clients[c].msgs[k].store, acl);
  }

  /** A message of QoS 2 waits for its PUBREL: no client but the sender and no tree node has to
      do with it yet. Under the packet id of an open handshake it is the same message again,
      and nothing changes. A message that is refused, `bad`, is kept without topic, payload
      and retain flag. */
  ghost predicate Waits(b: Db, r: Db, c: nat, mid: nat, topic: string, retain: bool, empty: bool, bad: bool)
    requires c < |b.clients|
  {
    var cl, sid := b.clients[c], b.lastDbId + 1;
    if !NoHandshake(cl, mid) then r == b
    else
      && r.subs == b.subs
      && IsStored(b, r, sid, mid, if bad then None else Some(topic), 2, retain && !bad, empty || bad)
      && if Takes(b.cfg, cl, 2)
         then |r.clients| == |b.clients| && r.clients == b.clients[c := r.clients[c]]
              && Arrived(b, cl, r.clients[c], sid, mid, retain && !bad)
         else r.clients == b.clients
  }

  /** The message as it is kept. */
  function Stowed(b: Db, mid: nat, topic: string, retain: bool, empty: bool, bad: bool): Db {
    StoreMessage(b, mid, if bad then None else Some(topic), 2, retain && !bad, empty || bad)
  }

  lemma HandleQos2(b: Db, c: nat, mid: nat, topic: string, retain: bool, empty: bool, bad: bool, acl: Acl)
    requires c < |b.clients|
    ensures HandlePublish(b, c, mid, topic, 2, retain, empty, bad, acl) ==
      if StoreFind(b.store, b.clients[c].msgs, mid).Some? then b
      else Insert(Stowed(b, mid, topic, retain, empty, bad), c, mid, In, 2, retain && !bad, b.lastDbId + 1).0
  {
    hide StoreFind, Insert;
  }

  lemma PublishWaits(b: Db, c: nat, mid: nat, topic: string, retain: bool, empty: bool, bad: bool, acl: Acl)
    requires Inv(b) && c < |b.clients| && PlainLevels(Split(topic))
    ensures Waits(b, HandlePublish(b, c, mid, topic, 2, retain, empty, bad, acl), c, mid, topic, retain, empty, bad)
  {
    hide Inv, ClientOk, StoreFind, HandlePublish, Insert, Arrived, NoHandshake, Takes, IsStored, SameText, PlainLevels;
    InvAt(b, c, 0);
    FindsHandshake(b, c, mid);
    HandleQos2(b, c, mid, topic, retain, empty, bad, acl);
    if NoHandshake(b.clients[c], mid) {
      var b1, sid := Stowed(b, mid, topic, retain, empty, bad), b.lastDbId + 1;
      CountsAre(b, c);
      InsertArrives(b1, c, mid, retain && !bad, sid);
      SameArrived(b, b1, c, mid, retain && !bad);
      StowedIsStored(b, Insert(b1, c, mid, In, 2, retain && !bad, sid).0, mid, topic, retain, empty, bad);
    }
  }

  lemma CountsAre(b: Db, c: nat)
    requires Inv(b) && c < |b.clients|
    ensures CountsOk(b.clients[c])
  {
    InvAt(b, c, 0);
  }

  lemma StowedIsStored(b: Db, r: Db, mid: nat, topic: string, retain: bool, empty: bool, bad: bool)
    requires Inv(b)
    requires var b1 := Stowed(b, mid, topic, retain, empty, bad);
      && r.lastDbId == b1.lastDbId && r.store.Keys == b1.store.Keys
      && forall x :: x in b1.store ==> SameText(b1.store[x], r.store[x])
    ensures IsStored(b, r, b.lastDbId + 1, mid, if bad then None else Some(topic), 2, retain && !bad, empty || bad)
  {
    var b1 := Stowed(b, mid, topic, retain, empty, bad);
    assert b.lastDbId + 1 !in b.store;
    forall x | x in b.store ensures SameText(b.store[x], r.store[x]) {
      assert b1.store[x] == b.store[x];
    }
  }

  lemma SameArrived(b: Db, b1: Db, c: nat, mid: nat, retain: bool)
    requires c < |b.clients| && b1.cfg == b.cfg && b1.nextUid == b.nextUid
    ensures forall n, sid ::
      Arrived(b1, b.clients[c], n, sid, mid, retain) ==> Arrived(b, b.clients[c], n, sid, mid, retain)
  {
  }

  /** One inbound entry more, at the end of the queue. */
  ghost predicate Arrived(b: Db, cl: Client, n: Client, sid: nat, mid: nat, retain: bool) {
    && n.msgs == cl.msgs + [Entry(b.nextUid, sid, mid, 2, retain, In, ArrivesAs(b.cfg, cl), false, [])]
    && n == cl.(msgs := n.msgs, lastMsg := Some(b.nextUid),
                msgCount := cl.msgCount + 1, msgCount12 := cl.msgCount12 + 1)
  }

  lemma InsertArrives(b: Db, c: nat, mid: nat, retain: bool, sid: nat)
    requires c < |b.clients| && sid in b.store && CountsOk(b.clients[c])
    ensures var r, cl := Insert(b, c, mid, In, 2, retain, sid).0, b.clients[c];
      && r.subs == b.subs && r.lastDbId == b.lastDbId && r.store.Keys == b.store.Keys
      && (forall x :: x in b.store ==> SameText(b.store[x], r.store[x]))
      && if Takes(b.cfg, cl, 2)
         then r.clients == b.clients[c := r.clients[c]] && Arrived(b, cl, r.clients[c], sid, mid, retain)
         else r.clients == b.clients
  {
    var cl := b.clients[c];
    PlacedIn(b.cfg, cl);
    AppendIsAtEnd(cl, NewEntry(b, sid, mid, In, 2, retain, ArrivesAs(b.cfg, cl)));
    hide PlaceOf, Tally;
  }

  /** A message of QoS 0 or 1 that is refused leaves no trace. */
  lemma RefusedVanishes(b: Db, c: nat, mid: nat, topic: string, qos: Qos, retain: bool, empty: bool, acl: Acl)
    requires c < |b.clients| && qos < 2
    ensures HandlePublish(b, c, mid, topic, qos, retain, empty, true, acl) == b
  {
  }
}

/** Where the broker's guarantees end: what each step needs, and what happens without it. */
module BrokerEdges {
  import opened Topics
  import opened Hierarchy
  import opened Queues
  import opened Broker
  import opened BrokerLaws
  import opened BrokerOps
  import opened Pubrel
  import opened Rules

  // ----- PUBREC for a message that was not sent ---------------------------------------

  /** PUBREC puts a message in flight exactly if its entry was still queued. */
  lemma PubrecInFlight(b: Db, c: nat, mid: nat)
    requires c < |b.clients|
    ensures var ms := b.clients[c].msgs;
      var i := FindOutFrom(ms, mid, 0);
      Tally(HandlePubrec(b, c, mid).clients[c].msgs, InFlight()) ==
        Tally(ms, InFlight()) + (if i < |ms| && ms[i].qos > 0 && ms[i].state == Queued then 1 else 0)
  {
    var ms := b.clients[c].msgs;
    var i := FindOutFrom(ms, mid, 0);
    if i < |ms| {
      TallyEdit(ms, i, ms[i].(state := WaitForPubcomp, history := ms[i].history + [Pubrec, Pubrel]), InFlight());
    }
  }

  /** The limit survives a PUBREC unless the window is full and the entry is queued. */
  lemma PubrecKeepsBound(b: Db, c: nat, mid: nat)
    requires c < |b.clients| && Tally(b.clients[c].msgs, InFlight()) <= b.cfg.maxInflight
    ensures var ms := b.clients[c].msgs;
      var i := FindOutFrom(ms, mid, 0);
      Tally(HandlePubrec(b, c, mid).clients[c].msgs, InFlight()) <= b.cfg.maxInflight <==>
        !(Tally(ms, InFlight()) == b.cfg.maxInflight && i < |ms| && ms[i].qos > 0 && ms[i].state == Queued)
  {
    PubrecInFlight(b, c, mid);
  }

  // ----- a packet id in use ---------------------------------------------------------

  lemma {:induction false} FoundIsQueued(store: map<nat, Stored>, ms: seq<Entry>, mid: nat)
    requires StoreFind(store, ms, mid).Some?
    ensures Tally(ms, InboundOf(StoreFind(store, ms, mid).value)) >= 1
  {
    if !(ms[0].dir == In && ms[0].store in store && store[ms[0].store].sourceMid == mid) {
      FoundIsQueued(store, ms[1..], mid);
    }
  }

  /** A QoS 1 PUBLISH under the packet id of an open handshake hands over the message of
      that handshake, which PUBREL will hand over again. */
  lemma ReusedIdRoutesAgain(b: Db, c: nat, mid: nat, topic: string, retain: bool, empty: bool, acl: Acl)
    requires Inv(b) && c < |b.clients| && PlainLevels(Split(topic)) && !FreshId(b, c, mid, 1)
    ensures !AllOnceOk(HandlePublish(b, c, mid, topic, 1, retain, empty, false, acl))
  {
    var sid := StoreFind(b.store, b.clients[c].msgs, mid).value;
    FoundIsQueued(b.store, b.clients[c].msgs, mid);
    OthersCount(b, c, sid);
    DistributeKeepsInv(b, topic, 1, retain, sid, acl);
    var q := Distribute(b, topic, 1, retain, sid, acl);
    var r := HandlePublish(b, c, mid, topic, 1, retain, empty, false, acl);
    assert r == CountRouted(q, sid);
    assert OnceOk(b.store[sid], TallyAll(b.clients, InboundOf(sid)));
    SameQueued(b, q, c, sid);
    OthersCount(r, c, sid);
    assert SameMessage(b.store[sid], q.store[sid]);
    assert !OnceOk(r.store[sid], TallyAll(r.clients, InboundOf(sid)));
  }

  lemma SameQueued(b: Db, q: Db, c: nat, sid: nat)
    requires Extends(b, q) && c < |b.clients|
    ensures Tally(q.clients[c].msgs, InboundOf(sid)) == Tally(b.clients[c].msgs, InboundOf(sid))
  {
    assert Extended(b.clients[c], q.clients[c]);
    ExtendedKeepsInbound(b.clients[c], q.clients[c], sid);
  }

  /** Handing over exactly once needs the rule about packet ids, and nothing more. */
  lemma PublishOnceNeedsFreshId(
    b: Db, c: nat, mid: nat, topic: string, qos: Qos, retain: bool, empty: bool, bad: bool, acl: Acl)
    requires Inv(b) && c < |b.clients| && PlainLevels(Split(topic))
    ensures AllOnceOk(HandlePublish(b, c, mid, topic, qos, retain, empty, bad, acl)) <==> bad || FreshId(b, c, mid, qos)
  {
    if bad || FreshId(b, c, mid, qos) {
      HandlePublishKeepsInv(b, c, mid, topic, qos, retain, empty, bad, acl);
    } else {
      ReusedIdRoutesAgain(b, c, mid, topic, retain, empty, acl);
    }
  }

  // ----- reconnect ------------------------------------------------------------------

  lemma {:induction false} ResetsAt(b: Db, c: nat, i: nat, k: nat)
    requires c < |b.clients| && k < |b.clients[c].msgs|
    ensures var r := ResetsFrom(b, c, i).clients[c].msgs;
      |r| == |b.clients[c].msgs| && r[k] == if k < i then b.clients[c].msgs[k] else ResetEntry(b.clients[c].msgs[k])
    decreases |b.clients[c].msgs| - i
  {
    if i < |b.clients[c].msgs| {
      ResetsAt(Edit(b, c, i, ResetEntry(b.clients[c].msgs[i])), c, i + 1, k);
    }
  }

  lemma {:induction false} ReviveAt(b: Db, c: nat, i: nat, k: nat)
    requires c < |b.clients| && k < |b.clients[c].msgs|
    ensures var ms, r := b.clients[c].msgs, ReviveFrom(b, c, i).clients[c].msgs;
      |r| == |ms| && r[k] ==
        if k >= i && ms[k].state == Queued && (b.cfg.maxInflight == 0 || k < b.cfg.maxInflight)
        then ms[k].(state := ToSend(ms[k].qos)) else ms[k]
    decreases |b.clients[c].msgs| - i
  {
    if i < |b.clients[c].msgs| && !(b.cfg.maxInflight > 0 && i >= b.cfg.maxInflight) {
      var e := b.clients[c].msgs[i];
      ReviveAt(if e.state == Queued then Edit(b, c, i, e.(state := ToSend(e.qos))) else b, c, i + 1, k);
    }
  }

  /** A reconnect changes every entry by itself, skips none, and removes none. */
  lemma ReconnectAt(b: Db, c: nat, k: nat)
    requires c < |b.clients| && k < |b.clients[c].msgs| && CountsOk(b.clients[c]) && InboundQos2(b.clients[c])
    ensures var r := ReconnectReset(b, c).clients[c].msgs;
      |r| == |b.clients[c].msgs| && r[k] == ReconnectEntry(b.clients[c].msgs[k], k, b.cfg.maxInflight)
  {
    var cl := b.clients[c];
    assert cl.msgs[..0] == [];
    assert Recounting(cl, 0, cl.lastMsg) == cl.(msgCount := 0, msgCount12 := 0);
    ResetRecounts(b, c, 0);
    ResetIs(cl.msgs[k]);
    ResetsAt(b, c, 0, k);
    ReviveAt(ResetsFrom(b, c, 0), c, 0, k);
  }

  /** Of the two surprises: an inbound entry is made a PUBLISH to send exactly if it was
      queued and stands within the window; and a handshake that was about to repeat PUBREL
      starts over with PUBLISH, while one that waited for PUBCOMP does not. */
  lemma ReconnectSurprises(b: Db, c: nat, k: nat)
    requires c < |b.clients| && k < |b.clients[c].msgs| && CountsOk(b.clients[c]) && InboundQos2(b.clients[c])
    ensures |ReconnectReset(b, c).clients[c].msgs| == |b.clients[c].msgs|
    ensures var e, r := b.clients[c].msgs[k], ReconnectReset(b, c).clients[c].msgs[k];
      && (e.dir == In ==> (r.state == PublishQos2 <==>
            e.state == PublishQos2 || (e.state == Queued && (b.cfg.maxInflight == 0 || k < b.cfg.maxInflight))))
      && (e.dir == Out && e.qos == 2 && e.state != Queued ==>
            r.state == if e.state == WaitForPubcomp then ResendPubrel else PublishQos2)
  {
    ReconnectAt(b, c, k);
    assert b.clients[c].msgs[k] in b.clients[c].msgs;
  }

  // ----- a message without a topic ----------------------------------------------------

  /** An entry the write loop cannot send. */
  predicate Unsendable(store: map<nat, Stored>, e: Entry) {
    IsPublish(e.state) && NoTopic(store, e)
  }

  ghost predicate SameTopics(a: map<nat, Stored>, b: map<nat, Stored>) {
    a.Keys == b.Keys && forall sid :: sid in a ==> a[sid].topic == b[sid].topic
  }

  /** The entries from `i` on, moved to `j`, in the list of the next turn. */
  ghost predicate Moved(ms: seq<Entry>, i: nat, ns: seq<Entry>, j: nat) {
    i <= |ms| && j <= |ns| && ms[i..] == ns[j..]
  }

  ghost predicate SomeUnsendable(st: map<nat, Stored>, ms: seq<Entry>, i: nat) {
    exists k :: i <= k < |ms| && Unsendable(st, ms[k])
  }

  lemma UnsendableMoved(st: map<nat, Stored>, ms: seq<Entry>, i: nat, st': map<nat, Stored>, ns: seq<Entry>, j: nat)
    requires SameTopics(st, st') && Moved(ms, i, ns, j)
    ensures SomeUnsendable(st, ms, i) <==> SomeUnsendable(st', ns, j)
  {
    forall k | i <= k < |ms| ensures ns[j + (k - i)] == ms[k] && (Unsendable(st, ms[k]) <==> Unsendable(st', ms[k])) {
      assert ms[i..][k - i] == ns[j..][k - i];
    }
    forall k | j <= k < |ns| ensures ms[i + (k - j)] == ns[k] {
      assert ms[i..][k - j] == ns[j..][k - j];
    }
    if k :| i <= k < |ms| && Unsendable(st, ms[k]) {
      assert Unsendable(st', ns[j + (k - i)]);
    }
    if k :| j <= k < |ns| && Unsendable(st', ns[k]) {
      assert Unsendable(st, ms[i + (k - j)]);
    }
  }

  lemma UnsendableFirst(st: map<nat, Stored>, ms: seq<Entry>, i: nat)
    requires i < |ms|
    ensures SomeUnsendable(st, ms, i) <==> Unsendable(st, ms[i]) || SomeUnsendable(st, ms, i + 1)
  {
  }

  /** One turn of the write loop. */
  lemma MeetsTurn(b: Db, c: nat, i: nat, msgCount: nat, sends: nat)
    requires c < |b.clients| && InboundQos2(b.clients[c]) && i < |b.clients[c].msgs|
    requires !Unsendable(b.store, b.clients[c].msgs[i]) && sends > 0
    ensures var e := b.clients[c].msgs[i];
      var n := if e.dir == In then msgCount + 1 else msgCount;
      var d1, d2, d3 := Drop(b, c, i), Edit(b, c, i, Written(e)), Edit(b, c, i, e.(state := SendPubrec));
      && InboundQos2(d1.clients[c]) && InboundQos2(d2.clients[c]) && InboundQos2(d3.clients[c])
      && MeetsNoTopic(b, c, i, msgCount, sends) ==
           if e.state == PublishQos0 then MeetsNoTopic(d1, c, i, n, sends - 1)
           else if HasPacket(e.state) then MeetsNoTopic(d2, c, i + 1, n, sends - 1)
           else if e.state == Queued && e.dir == In && (b.cfg.maxInflight == 0 || n < b.cfg.maxInflight)
             then MeetsNoTopic(d3, c, i, n, sends)
           else MeetsNoTopic(b, c, i + 1, n, sends)
  {
    hide Moved, SameTopics, Drop, Edit;
    WriteTurnTopics(b, c, i);
  }

  lemma MeetsHere(b: Db, c: nat, i: nat, msgCount: nat, sends: nat)
    requires c < |b.clients| && InboundQos2(b.clients[c])
    ensures i >= |b.clients[c].msgs| ==> !MeetsNoTopic(b, c, i, msgCount, sends)
    ensures i < |b.clients[c].msgs| && Unsendable(b.store, b.clients[c].msgs[i]) ==>
      MeetsNoTopic(b, c, i, msgCount, sends)
  {
  }

  /** On a connection that takes every packet the write loop stops at a message without a
      topic exactly if an entry in a PUBLISH state refers to one. */
  lemma {:induction false} WriteMeetsNoTopic(b: Db, c: nat, i: nat, msgCount: nat, sends: nat)
    requires c < |b.clients| && InboundQos2(b.clients[c]) && sends + i >= |b.clients[c].msgs|
    ensures MeetsNoTopic(b, c, i, msgCount, sends) <==> SomeUnsendable(b.store, b.clients[c].msgs, i)
    decreases |b.clients[c].msgs| - i, if i < |b.clients[c].msgs| && b.clients[c].msgs[i].state == Queued then 1 else 0
  {
    MeetsHere(b, c, i, msgCount, sends);
    hide InboundQos2, Moved, SameTopics, MeetsNoTopic, SomeUnsendable, Drop, Edit, Written;
    var ms := b.clients[c].msgs;
    if i < |ms| {
      UnsendableFirst(b.store, ms, i);
      if !Unsendable(b.store, ms[i]) {
        WriteMeetsBehind(b, c, i, msgCount, sends);
      }
    } else {
      assert !SomeUnsendable(b.store, ms, i) by { NothingBehind(b.store, ms, i); }
    }
  }

  lemma NothingBehind(st: map<nat, Stored>, ms: seq<Entry>, i: nat)
    requires i >= |ms|
    ensures !SomeUnsendable(st, ms, i)
  {
  }

  lemma {:induction false} WriteMeetsBehind(b: Db, c: nat, i: nat, msgCount: nat, sends: nat)
    requires c < |b.clients| && InboundQos2(b.clients[c]) && sends + i >= |b.clients[c].msgs|
    requires i < |b.clients[c].msgs| && !Unsendable(b.store, b.clients[c].msgs[i])
    ensures MeetsNoTopic(b, c, i, msgCount, sends) <==> SomeUnsendable(b.store, b.clients[c].msgs, i + 1)
    decreases |b.clients[c].msgs| - i, (if b.clients[c].msgs[i].state == Queued then 1 else 0), 0
  {
    hide InboundQos2, Moved, SameTopics, MeetsNoTopic, SomeUnsendable, Drop, Edit, Written;
    var ms := b.clients[c].msgs;
    var e := ms[i];
    var n := if e.dir == In then msgCount + 1 else msgCount;
    WriteTurnTopics(b, c, i);
    MeetsTurn(b, c, i, msgCount, sends);
    if e.state == PublishQos0 {
      var d := Drop(b, c, i);
      UnsendableMoved(b.store, ms, i + 1, d.store, d.clients[c].msgs, i);
      WriteMeetsNoTopic(d, c, i, n, sends - 1);
    } else if HasPacket(e.state) {
      var d := Edit(b, c, i, Written(e));
      UnsendableMoved(b.store, ms, i + 1, d.store, d.clients[c].msgs, i + 1);
      WriteMeetsNoTopic(d, c, i + 1, n, sends - 1);
    } else if e.state == Queued && e.dir == In && (b.cfg.maxInflight == 0 || n < b.cfg.maxInflight) {
      var d := Edit(b, c, i, e.(state := SendPubrec));
      UnsendableMoved(b.store, ms, i + 1, d.store, d.clients[c].msgs, i + 1);
      WriteMeetsBehind(d, c, i, n, sends);
    } else {
      WriteMeetsNoTopic(b, c, i + 1, n, sends);
    }
  }

  /** The next turn finds the entries behind `i` as they were. */
  lemma WriteTurnTopics(b: Db, c: nat, i: nat)
    requires c < |b.clients| && InboundQos2(b.clients[c]) && i < |b.clients[c].msgs|
    ensures var ms, d := b.clients[c].msgs, Drop(b, c, i);
      && InboundQos2(d.clients[c]) && SameTopics(b.store, d.store) && Moved(ms, i + 1, d.clients[c].msgs, i)
      && |d.clients[c].msgs| == |ms| - 1
    ensures var ms, e := b.clients[c].msgs, Written(b.clients[c].msgs[i]);
      var d := Edit(b, c, i, e);
      && InboundQos2(d.clients[c]) && SameTopics(b.store, d.store) && Moved(ms, i + 1, d.clients[c].msgs, i + 1)
      && |d.clients[c].msgs| == |ms|
    ensures var ms, e := b.clients[c].msgs, b.clients[c].msgs[i].(state := SendPubrec);
      var d := Edit(b, c, i, e);
      && InboundQos2(d.clients[c]) && SameTopics(b.store, d.store) && Moved(ms, i + 1, d.clients[c].msgs, i + 1)
      && |d.clients[c].msgs| == |ms| && d.clients[c].msgs[i] == e
  {
    hide Written;
    var ms := b.clients[c].msgs;
    var e := ms[i];
    assert e in ms;
    WrittenSame(e);
    EditTurnTopics(b, c, i, Written(e));
    EditTurnTopics(b, c, i, e.(state := SendPubrec));
    var d := Drop(b, c, i).clients[c].msgs;
    assert forall j :: 0 <= j < |d| ==> d[j] == ms[if j < i then j else j + 1];
    assert forall x :: x in d ==> x in ms;
  }

  lemma WrittenSame(e: Entry)
    ensures SameEntry(e, Written(e))
  {
  }

  lemma EditTurnTopics(b: Db, c: nat, i: nat, e: Entry)
    requires c < |b.clients| && InboundQos2(b.clients[c]) && i < |b.clients[c].msgs|
    requires SameEntry(b.clients[c].msgs[i], e)
    ensures var ms, d := b.clients[c].msgs, Edit(b, c, i, e);
      && InboundQos2(d.clients[c]) && SameTopics(b.store, d.store) && Moved(ms, i + 1, d.clients[c].msgs, i + 1)
      && |d.clients[c].msgs| == |ms| && d.clients[c].msgs[i] == e
  {
    var ms := b.clients[c].msgs;
    assert ms[i] in ms;
    assert forall x :: x in ms[i := e] ==> x == e || x in ms;
  }

  lemma {:induction false} ResetsKeepRest(b: Db, c: nat, i: nat)
    requires c < |b.clients|
    ensures var r := ResetsFrom(b, c, i);
      r == PutClient(b, c, b.clients[c].(msgs := r.clients[c].msgs))
    decreases |b.clients[c].msgs| - i
  {
    if i < |b.clients[c].msgs| {
      ResetsKeepRest(Edit(b, c, i, ResetEntry(b.clients[c].msgs[i])), c, i + 1);
    }
  }

  lemma {:induction false} ReviveKeepsRest(b: Db, c: nat, i: nat)
    requires c < |b.clients|
    ensures var r := ReviveFrom(b, c, i);
      r == PutClient(b, c, b.clients[c].(msgs := r.clients[c].msgs))
    decreases |b.clients[c].msgs| - i
  {
    if i < |b.clients[c].msgs| && !(b.cfg.maxInflight > 0 && i >= b.cfg.maxInflight) {
      var e := b.clients[c].msgs[i];
      ReviveKeepsRest(if e.state == Queued then Edit(b, c, i, e.(state := ToSend(e.qos))) else b, c, i + 1);
    }
  }

  /** The list after a reconnect, as a whole. */
  lemma ReconnectList(b: Db, c: nat)
    requires c < |b.clients| && CountsOk(b.clients[c]) && InboundQos2(b.clients[c])
    ensures var r, ms := ReconnectReset(b, c).clients[c], b.clients[c].msgs;
      && InboundQos2(r) && |r.msgs| == |ms| && ReconnectReset(b, c) == PutClient(b, c, b.clients[c].(msgs := r.msgs))
      && forall k :: 0 <= k < |ms| ==> r.msgs[k] == ReconnectEntry(ms[k], k, b.cfg.maxInflight)
  {
    hide ReconnectReset, ReconnectEntry, CountsOk;
    var r, ms := ReconnectReset(b, c), b.clients[c].msgs;
    ReconnectKeepsRest(b, c);
    forall k | 0 <= k < |ms| ensures r.clients[c].msgs[k] == ReconnectEntry(ms[k], k, b.cfg.maxInflight) {
      ReconnectAt(b, c, k);
    }
    forall e | e in r.clients[c].msgs && e.dir == In ensures e.qos == 2 {
      var k :| 0 <= k < |ms| && r.clients[c].msgs[k] == e;
      assert ms[k] in ms;
      ReconnectSame(ms[k], k, b.cfg.maxInflight);
    }
  }

  lemma ReconnectSame(e: Entry, i: nat, maxInflight: nat)
    ensures SameEntry(e, ReconnectEntry(e, i, maxInflight))
  {
  }

  /** After a reconnect the write loop stops at a message without a topic exactly if the
      reconnect has left such a message in a PUBLISH state; of inbound entries these are the
      ones that were queued within the window. */
  lemma ReconnectMeetsNoTopic(b: Db, c: nat, sends: nat)
    requires c < |b.clients| && CountsOk(b.clients[c]) && InboundQos2(b.clients[c]) && sends >= |b.clients[c].msgs|
    ensures var r, ms, n := ReconnectReset(b, c), b.clients[c].msgs, b.cfg.maxInflight;
      && InboundQos2(r.clients[c])
      && (MeetsNoTopic(r, c, 0, 0, sends) <==>
         exists k :: 0 <= k < |ms| && Unsendable(b.store, ReconnectEntry(ms[k], k, n)))
      && forall k :: 0 <= k < |ms| && ms[k].dir == In && !IsPublish(ms[k].state) ==>
           (Unsendable(b.store, ReconnectEntry(ms[k], k, n)) <==>
              ms[k].state == Queued && (n == 0 || k < n) && NoTopic(b.store, ms[k]))
  {
    hide ReconnectReset, MeetsNoTopic, CountsOk;
    var r, ms, n := ReconnectReset(b, c), b.clients[c].msgs, b.cfg.maxInflight;
    ReconnectKeepsRest(b, c);
    ReconnectList(b, c);
    WriteMeetsNoTopic(r, c, 0, 0, sends);
    if k :| 0 <= k < |ms| && Unsendable(b.store, ReconnectEntry(ms[k], k, n)) {
      assert Unsendable(b.store, r.clients[c].msgs[k]);
    }
    forall k | 0 <= k < |ms| && ms[k].dir == In && !IsPublish(ms[k].state)
      ensures Unsendable(b.store, ReconnectEntry(ms[k], k, n)) <==>
        ms[k].state == Queued && (n == 0 || k < n) && NoTopic(b.store, ms[k])
    {
      assert ms[k] in ms;
    }
  }

  lemma ReconnectKeepsRest(b: Db, c: nat)
    requires c < |b.clients| && CountsOk(b.clients[c]) && InboundQos2(b.clients[c])
    ensures var r := ReconnectReset(b, c);
      && |r.clients[c].msgs| == |b.clients[c].msgs|
      && r == PutClient(b, c, b.clients[c].(msgs := r.clients[c].msgs))
  {
    var cl := b.clients[c];
    assert cl.msgs[..0] == [];
    assert Recounting(cl, 0, cl.lastMsg) == cl.(msgCount := 0, msgCount12 := 0);
    ResetRecounts(b, c, 0);
    ResetsKeepRest(b, c, 0);
    ReviveKeepsRest(ResetsFrom(b, c, 0), c, 0);
    if cl.msgs != [] {
      ReconnectAt(b, c, 0);
    }
  }

  // ----- the purge at CONNECT ---------------------------------------------------------

  predicate Purged(store: map<nat, Stored>, e: Entry, id: string, acl: Acl) {
    e.dir == Out && e.store in store && store[e.store].topic.Some? && acl(id, store[e.store].topic.value) == Refused
  }

  /** Entry `i` unlinked and its reference given up, with no counter touched. */
  function Unlinked(b: Db, c: nat, i: nat): Db
    requires c < |b.clients| && i < |b.clients[c].msgs|
  {
    var ms := b.clients[c].msgs;
    PutClient(b, c, b.clients[c].(msgs := ms[..i] + ms[i + 1..])).(store := Ref(b.store, ms[i].store, -1))
  }

  /** The loop of `mqtt3_handle_connect` that unlinks messages the client may no longer
      read: the references are given up, the client's counters and tail pointer stay. */
  function PurgeFrom(b: Db, c: nat, i: nat, acl: Acl): (r: Db)
    requires c < |b.clients|
    ensures r.cfg == b.cfg && |r.clients| == |b.clients|
    decreases |b.clients[c].msgs| - i
  {
    var cl := b.clients[c];
    if i >= |cl.msgs| then b
    else if Purged(b.store, cl.msgs[i], cl.id, acl) then
      PurgeFrom(Unlinked(b, c, i), c, i, acl)
    else PurgeFrom(b, c, i + 1, acl)
  }

  lemma PurgeTurn(b: Db, c: nat, i: nat, acl: Acl)
    requires c < |b.clients| && i < |b.clients[c].msgs|
    ensures var cl := b.clients[c];
      PurgeFrom(b, c, i, acl) ==
        if Purged(b.store, cl.msgs[i], cl.id, acl) then
          PurgeFrom(Unlinked(b, c, i), c, i, acl)
        else PurgeFrom(b, c, i + 1, acl)
  {
  }

  /** The reference counts stay exact. */
  lemma {:induction false} PurgeKeepsRefs(b: Db, c: nat, i: nat, acl: Acl)
    requires c < |b.clients| && RefsOk(b)
    ensures RefsOk(PurgeFrom(b, c, i, acl))
    decreases |b.clients[c].msgs| - i
  {
    var cl := b.clients[c];
    if i < |cl.msgs| {
      if Purged(b.store, cl.msgs[i], cl.id, acl) {
        PurgeOneKeepsRefs(b, c, i);
        PurgeKeepsRefs(Unlinked(b, c, i), c, i, acl);
      } else {
        PurgeKeepsRefs(b, c, i + 1, acl);
      }
    }
  }

  lemma PurgeOneKeepsRefs(b: Db, c: nat, i: nat)
    requires c < |b.clients| && i < |b.clients[c].msgs| && RefsOk(b) && b.clients[c].msgs[i].store in b.store
    ensures RefsOk(Unlinked(b, c, i))
  {
    var cl := b.clients[c];
    var next := cl.(msgs := cl.msgs[..i] + cl.msgs[i + 1..]);
    var r := PutClient(b, c, next).(store := Ref(b.store, cl.msgs[i].store, -1));
    forall x ensures Counted(r.store, x) == Refs(r, x) {
      TallyEdit(cl.msgs, i, cl.msgs[i], RefersTo(x));
      TallyAllPut(b.clients, c, next, RefersTo(x));
      assert Counted(b.store, x) == Refs(b, x);
    }
  }

  lemma {:induction false} PurgeShortens(b: Db, c: nat, i: nat, acl: Acl)
    requires c < |b.clients|
    ensures var cl, r := b.clients[c], PurgeFrom(b, c, i, acl).clients[c];
      && r.msgCount == cl.msgCount && r.msgCount12 == cl.msgCount12 && r.lastMsg == cl.lastMsg
      && |r.msgs| <= |cl.msgs| && (|r.msgs| == |cl.msgs| ==> PurgeFrom(b, c, i, acl) == b)
    decreases |b.clients[c].msgs| - i
  {
    var cl := b.clients[c];
    if i < |cl.msgs| {
      if Purged(b.store, cl.msgs[i], cl.id, acl) {
        PurgeShortens(Unlinked(b, c, i), c, i, acl);
      } else {
        PurgeShortens(b, c, i + 1, acl);
      }
    }
  }

  /** The purge is harmless for the counters exactly when it unlinks nothing. */
  lemma PurgeCountsIff(b: Db, c: nat, acl: Acl)
    requires c < |b.clients| && CountsOk(b.clients[c])
    ensures CountsOk(PurgeFrom(b, c, 0, acl).clients[c]) <==> PurgeFrom(b, c, 0, acl) == b
  {
    PurgeShortens(b, c, 0, acl);
  }

  lemma {:induction false} PurgesNothing(b: Db, c: nat, i: nat, acl: Acl)
    requires c < |b.clients|
    ensures PurgeFrom(b, c, i, acl) == b <==>
      forall k :: i <= k < |b.clients[c].msgs| ==> !Purged(b.store, b.clients[c].msgs[k], b.clients[c].id, acl)
    decreases |b.clients[c].msgs| - i
  {
    var cl := b.clients[c];
    if i < |cl.msgs| {
      if Purged(b.store, cl.msgs[i], cl.id, acl) {
        PurgeShortens(Unlinked(b, c, i), c, i, acl);
      } else {
        PurgesNothing(b, c, i + 1, acl);
      }
    }
  }
}

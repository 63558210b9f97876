/** Whole runs of the broker, and what holds after every one of them. */
module BrokerRuns {
  import opened Options
  import opened Topics
  import opened Hierarchy
  import opened SubTree
  import opened Queues
  import opened Broker
  import opened BrokerLaws
  import opened BrokerOps

  datatype Event =
    | Connect(id: string)
    | TakeOver(c: nat, clean: bool)
    | Disconnect(c: nat)
    | Expire(c: nat)
    | Subscribe(c: nat, filter: string, subQos: Qos, acl: Acl)
    | Unsubscribe(c: nat, filter: string)
    | PublishIn(c: nat, mid: nat, topic: string, qos: Qos, retain: bool, empty: bool, bad: bool, acl: Acl)
    | Announce(topic: string, qos: Qos, retain: bool, empty: bool, acl: Acl)
    | PubackComp(c: nat, mid: nat)
    | Pubrec(c: nat, mid: nat)
    | Pubrel(c: nat, mid: nat, acl: Acl)
    | Write(c: nat, sends: nat)
    | Timeout(late: set<nat>)
    | CleanStore

  function Start(cfg: Config): Db {
    Db(cfg, [], map[], 0, 0, Boot())
  }

  /** A packet of a client comes over its connection. */
  predicate Speaks(b: Db, c: nat) {
    c < |b.clients| && b.clients[c].connected
  }

  /** What the handlers check, and the two rules of the protocol a client keeps: no QoS 1
      PUBLISH under a packet id with an open handshake, no PUBREC for what was not sent. A
      CONNECT with a known client id is a takeover; a run ends where the code would stop at
      an assertion. */
  ghost predicate Allowed(b: Db, ev: Event) {
    match ev
    case Connect(id) => forall c :: 0 <= c < |b.clients| ==> b.clients[c].id != id
    case TakeOver(c, _) => c < |b.clients|
    case Disconnect(c) => c < |b.clients|
    case Expire(c) => c < |b.clients|
    case Subscribe(c, f, _, _) => Speaks(b, c) && FilterLevels(Split(f))
    case Unsubscribe(c, _) => Speaks(b, c)
    case PublishIn(c, mid, t, q, _, _, bad, _) =>
      Speaks(b, c) && PlainLevels(Split(t)) && (bad || FreshId(b, c, mid, q))
    case Announce(t, _, _, _, _) => PlainLevels(Split(t))
    case PubackComp(c, _) => Speaks(b, c)
    case Pubrec(c, mid) => Speaks(b, c) && WasPublished(b, c, mid)
    case Pubrel(c, _, _) => Speaks(b, c)
    case Write(c, sends) =>
      Speaks(b, c) && (InboundQos2(b.clients[c]) ==> !MeetsNoTopic(b, c, 0, 0, sends))
    case Timeout(_) => true
    case CleanStore => true
  }

  ghost function Next(b: Db, ev: Event): Db
    requires Inv(b) && Allowed(b, ev)
  {
    match ev
    case Connect(id) => b.(clients := b.clients + [Client(id, true, [], None, 0, 0, 0)])
    case TakeOver(c, clean) => Broker.TakeOver(b, c, clean)
    case Disconnect(c) => Closed(b, c)
    case Expire(c) => Removed(DiscardSession(b, c), c)
    case Subscribe(c, f, q, acl) => HandleSubscribe(b, c, f, q, acl)
    case Unsubscribe(c, f) => HandleUnsubscribe(b, c, f)
    case PublishIn(c, mid, t, q, retain, empty, bad, acl) =>
      var r := HandlePublish(b, c, mid, t, q, retain, empty, bad, acl);
      if bad && RefusalFails(b, c, mid, q) then Closed(r, c) else r
    case Announce(t, q, retain, empty, acl) => EasyQueue(b, t, q, retain, empty, acl)
    case PubackComp(c, mid) => HandlePubackComp(b, c, mid)
    case Pubrec(c, mid) => HandlePubrec(b, c, mid)
    case Pubrel(c, mid, acl) => HandlePubrel(b, c, mid, acl)
    case Write(c, sends) => assert ClientOk(b.clients[c], b.cfg.maxInflight); WriteFrom(b, c, 0, 0, sends)
    case Timeout(late) => TimeoutCheck(b, 0, late)
    case CleanStore => b.(store := StoreClean(b.store))
  }

  /** `mqtt3_context_disconnect`, for a clean end as for an error. */
  function Closed(b: Db, c: nat): Db
    requires c < |b.clients|
  {
    PutClient(b, c, b.clients[c].(connected := false))
  }

  /** A refused QoS 2 message for which there is no room in the window: the handler hands on
      the code of the insert, and the main loop closes the connection. (For a message that is
      not refused that code is excused.) */
  predicate RefusalFails(b: Db, c: nat, mid: nat, qos: Qos)
    requires c < |b.clients|
  {
    qos == 2 && StoreFind(b.store, b.clients[c].msgs, mid).None? && Placed(b.cfg, b.clients[c], In, 2).rc != 0
  }

  /** `mqtt3_db_messages_easy_queue`: a will, or a message of the broker itself. */
  function EasyQueue(b: Db, topic: string, qos: Qos, retain: bool, empty: bool, acl: Acl): Db {
    var b1 := StoreMessage(b, 0, Some(topic), qos, retain, empty);
    QueueMessage(b1, topic, qos, retain, b1.lastDbId, acl)
  }

  /** A context that is freed; those behind it move up. */
  function Removed(b: Db, c: nat): (r: Db)
    requires c < |b.clients|
    ensures r.cfg == b.cfg
  {
    b.(clients := b.clients[..c] + b.clients[c + 1..])
  }

  lemma {:induction false} TallyAllRemoved(cs: seq<Client>, c: nat, w: Entry -> nat)
    requires c < |cs| && cs[c].msgs == []
    ensures TallyAll(cs[..c] + cs[c + 1..], w) == TallyAll(cs, w)
  {
    if c == 0 {
      assert cs[..0] + cs[1..] == cs[1..];
    } else {
      TallyAllRemoved(cs[1..], c - 1, w);
      assert (cs[..c] + cs[c + 1..])[1..] == cs[1..][..c - 1] + cs[1..][c..];
    }
  }

  lemma RemovedKeepsInv(b: Db, c: nat)
    requires Inv(b) && c < |b.clients| && b.clients[c].msgs == []
    ensures Inv(Removed(b, c))
  {
    var r := Removed(b, c);
    forall x
      ensures Counted(r.store, x) == Refs(r, x)
      ensures TallyAll(r.clients, InboundOf(x)) == TallyAll(b.clients, InboundOf(x))
    {
      TallyAllRemoved(b.clients, c, RefersTo(x));
      TallyAllRemoved(b.clients, c, InboundOf(x));
      assert Counted(b.store, x) == Refs(b, x);
    }
    forall d | 0 <= d < |r.clients|
      ensures ClientOk(r.clients[d], r.cfg.maxInflight) && Filed(r.store, r.clients[d].msgs)
      ensures forall mid :: Tally(r.clients[d].msgs, WithMid(mid)) <= 1
    {
      assert r.clients[d] == b.clients[if d < c then d else d + 1];
    }
  }

  lemma StartIsOk(cfg: Config)
    ensures Inv(Start(cfg))
  {
    BootAgrees();
    BootRetainsNothing();
  }

  lemma ConnectKeepsInv(b: Db, id: string)
    requires Inv(b)
    ensures Inv(b.(clients := b.clients + [Client(id, true, [], None, 0, 0, 0)]))
  {
    var cl := Client(id, true, [], None, 0, 0, 0);
    var r := b.(clients := b.clients + [cl]);
    assert ClientOk(cl, b.cfg.maxInflight) by {
      assert SplitAt([], 0, b.cfg.maxInflight);
    }
    forall x
      ensures Counted(r.store, x) == Refs(r, x)
      ensures TallyAll(r.clients, InboundOf(x)) == TallyAll(b.clients, InboundOf(x))
    {
      TallyAllAppend(b.clients, cl, RefersTo(x));
      TallyAllAppend(b.clients, cl, InboundOf(x));
      assert Counted(b.store, x) == Refs(b, x);
    }
    forall c | 0 <= c < |r.clients|
      ensures ClientOk(r.clients[c], r.cfg.maxInflight) && Filed(r.store, r.clients[c].msgs)
      ensures forall mid :: Tally(r.clients[c].msgs, WithMid(mid)) <= 1
    {
      assert c < |b.clients| ==> r.clients[c] == b.clients[c];
    }
  }

  lemma {:induction false} TallyAllAppend(cs: seq<Client>, cl: Client, w: Entry -> nat)
    ensures TallyAll(cs + [cl], w) == TallyAll(cs, w) + Tally(cl.msgs, w)
  {
    if cs == [] {
      assert ([] + [cl])[1..] == [];
    } else {
      TallyAllAppend(cs[1..], cl, w);
      assert (cs + [cl])[1..] == cs[1..] + [cl];
    }
  }

  lemma ClosedKeepsInv(b: Db, c: nat)
    requires Inv(b) && c < |b.clients|
    ensures Inv(Closed(b, c))
  {
    assert ClientOk(b.clients[c], b.cfg.maxInflight);
    TouchKeepsInv(b, c, b.clients[c].(connected := false));
  }

  /** Every event keeps the invariant. */
  lemma NextKeepsInv(b: Db, ev: Event)
    requires Inv(b) && Allowed(b, ev)
    ensures Inv(Next(b, ev))
  {
    hide Inv, FilterLevels, PlainLevels, FreshId, WasPublished, MeetsNoTopic, InboundQos2, RefusalFails;
    hide HandlePublish, Broker.TakeOver, DiscardSession, Removed, Closed, StoreClean, HandleSubscribe,
      HandleUnsubscribe, HandlePubrec, EasyQueue, WriteFrom, TimeoutCheck, DeleteFrom, ReleaseFrom;
    match ev
    case Connect(id) => ConnectKeepsInv(b, id);
    case TakeOver(c, clean) => TakeOverKeepsInv(b, c, clean);
    case Disconnect(c) => ClosedKeepsInv(b, c);
    case Expire(c) => ExpireKeepsInv(b, c);
    case Subscribe(c, f, q, acl) => HandleSubscribeKeepsInv(b, c, f, q, acl);
    case Unsubscribe(c, f) => HandleUnsubscribeKeepsInv(b, c, f);
    case PublishIn(c, mid, t, q, retain, empty, bad, acl) =>
      HandlePublishKeepsInv(b, c, mid, t, q, retain, empty, bad, acl);
      ClosedKeepsInv(HandlePublish(b, c, mid, t, q, retain, empty, bad, acl), c);
    case Announce(t, q, retain, empty, acl) => AnnounceKeepsInv(b, t, q, retain, empty, acl);
    case PubackComp(c, mid) => DeleteKeepsInv(b, c, mid, 0, 0, false);
    case Pubrec(c, mid) => HandlePubrecKeepsInv(b, c, mid);
    case Pubrel(c, mid, acl) =>
      var _ := ReleaseKeepsInv(b, c, mid, 0, 0, false, Tally(b.clients[c].msgs, WithMid(mid)), acl);
    case Write(c, sends) => AllWriteKeepsInv(b, c, sends);
    case Timeout(late) => TimeoutKeepsInv(b, 0, late);
    case CleanStore => StoreCleanKeepsInv(b);
  }

  lemma ExpireKeepsInv(b: Db, c: nat)
    requires Inv(b) && c < |b.clients|
    ensures Inv(Removed(DiscardSession(b, c), c))
  {
    DiscardKeepsInv(b, c);
    RemovedKeepsInv(DiscardSession(b, c), c);
  }

  lemma AllWriteKeepsInv(b: Db, c: nat, sends: nat)
    requires Inv(b) && c < |b.clients|
    ensures Inv(WriteFrom(b, c, 0, 0, sends))
  {
    assert ClientOk(b.clients[c], b.cfg.maxInflight);
    WriteKeepsInv(b, c, 0, 0, sends);
  }

  lemma AnnounceKeepsInv(b: Db, t: string, q: Qos, retain: bool, empty: bool, acl: Acl)
    requires Inv(b) && PlainLevels(Split(t))
    ensures Inv(EasyQueue(b, t, q, retain, empty, acl))
  {
    RouteNewKeepsInv(b, 0, t, q, retain, empty, acl);
  }

  /** The state after a run, if each of its events was allowed when it came. */
  ghost function Play(cfg: Config, evs: seq<Event>): (r: Option<Db>)
    ensures r.Some? ==> Inv(r.value) && r.value.cfg == cfg
    decreases |evs|
  {
    if evs == [] then StartIsOk(cfg); Some(Start(cfg))
    else
      match Play(cfg, evs[..|evs| - 1])
      case None => None
      case Some(b) =>
        if Allowed(b, evs[|evs| - 1]) then
          NextKeepsInv(b, evs[|evs| - 1]);
          NextKeepsCfg(b, evs[|evs| - 1]);
          Some(Next(b, evs[|evs| - 1]))
        else None
  }

  lemma NextKeepsCfg(b: Db, ev: Event)
    requires Inv(b) && Allowed(b, ev)
    ensures Next(b, ev).cfg == b.cfg
  {
  }

  // ----- what every run guarantees ------------------------------------------------

  ghost predicate After(cfg: Config, evs: seq<Event>, b: Db) {
    Play(cfg, evs) == Some(b)
  }

  /** No client ever has more outbound messages above QoS 0 in flight than the limit. */
  lemma InFlightBound(cfg: Config, evs: seq<Event>, b: Db, c: nat)
    requires After(cfg, evs, b) && cfg.maxInflight > 0 && c < |b.clients|
    ensures Tally(b.clients[c].msgs, InFlight()) <= cfg.maxInflight
  {
    assert ClientOk(b.clients[c], b.cfg.maxInflight);
    WindowBounds(b.clients[c].msgs, cfg.maxInflight);
  }

  /** Reference counts are exact, and no queue entry or tree node refers to a message that
      has been freed. */
  lemma ReferencesExact(cfg: Config, evs: seq<Event>, b: Db)
    requires After(cfg, evs, b)
    ensures forall sid :: sid in b.store ==> b.store[sid].refCount == Refs(b, sid)
    ensures forall c, i :: 0 <= c < |b.clients| && 0 <= i < |b.clients[c].msgs| ==>
      b.clients[c].msgs[i].store in b.store
    ensures forall p :: RetOf(b.subs, p).Some? ==> RetOf(b.subs, p).value in b.store
  {
    forall sid | sid in b.store ensures b.store[sid].refCount == Refs(b, sid) {
      assert Counted(b.store, sid) == Refs(b, sid);
    }
    forall c, i | 0 <= c < |b.clients| && 0 <= i < |b.clients[c].msgs| ensures b.clients[c].msgs[i].store in b.store {
      EntryIsStored(b, c, i);
    }
    forall p | RetOf(b.subs, p).Some? ensures RetOf(b.subs, p).value in b.store {
      RetainedIsStored(b, p);
    }
  }

  /** A QoS 2 message accepted from a client is queued once, or has been handed to the
      tree exactly once, or its session was discarded, or it was refused; and a client
      has at most one handshake open under a packet id. */
  lemma AcceptedOnce(cfg: Config, evs: seq<Event>, b: Db, sid: nat)
    requires After(cfg, evs, b) && sid in b.store && b.store[sid].accepted > 0
    ensures var s, queued := b.store[sid], TallyAll(b.clients, InboundOf(sid));
      && s.accepted == 1
      && ((queued == 1 && s.routed == s.swept == s.denied == 0)
          || (queued == 0 && s.routed + s.swept + s.denied == 1))
    ensures forall c, mid :: 0 <= c < |b.clients| ==> Tally(b.clients[c].msgs, WithMid(mid)) <= 1
  {
    assert OnceOk(b.store[sid], TallyAll(b.clients, InboundOf(sid)));
  }

  /** Each message is inserted at most once for each client id as a fresh outbound entry,
      however many of its filters match. */
  lemma InsertedOnce(cfg: Config, evs: seq<Event>, b: Db, sid: nat, i: nat, j: nat)
    requires After(cfg, evs, b) && !cfg.allowDuplicates && sid in b.store
    requires i < j < |b.store[sid].inserted|
    ensures b.store[sid].inserted[i] != b.store[sid].inserted[j]
  {
    assert StoredOk(b.cfg, b.store[sid]);
  }

  /** The wire history of every outbound entry: after PUBREC no PUBLISH unless the client
      reconnected, and DUP clear on the first PUBLISH and set on all later ones. */
  lemma OutboundHistory(cfg: Config, evs: seq<Event>, b: Db, c: nat, k: nat, i: nat, j: nat)
    requires After(cfg, evs, b) && c < |b.clients| && k < |b.clients[c].msgs| && b.clients[c].msgs[k].dir == Out
    requires i < j < |b.clients[c].msgs[k].history| && b.clients[c].msgs[k].history[j].Publish?
    ensures var h := b.clients[c].msgs[k].history;
      && (h[i] == Queues.Pubrec ==> exists m :: i < m < j && h[m] == Reset)
      && (h[i].Publish? ==> h[j].dup)
      && ((forall m :: 0 <= m < j ==> !h[m].Publish?) ==> !h[j].dup)
  {
    var e := b.clients[c].msgs[k];
    assert e in b.clients[c].msgs;
    assert ClientOk(b.clients[c], b.cfg.maxInflight);
    LawfulMeans(e.history, i, j);
  }

  /** The counters and the tail pointer agree with the list, and inbound entries have
      QoS 2, which is what the write loop and the reset pass rely on. */
  lemma CountersAgree(cfg: Config, evs: seq<Event>, b: Db, c: nat)
    requires After(cfg, evs, b) && c < |b.clients|
    ensures var cl := b.clients[c];
      && cl.msgCount == |cl.msgs| && cl.msgCount12 == Tally(cl.msgs, Qos12()) && cl.lastMsg == LastUid(cl.msgs)
      && (forall e :: e in cl.msgs && e.dir == In ==> e.qos == 2)
      && ReconnectReset(b, c) == ReviveFrom(ResetsFrom(b, c, 0), c, 0)
  {
    var cl := b.clients[c];
    assert ClientOk(cl, b.cfg.maxInflight);
    assert cl.msgs[..0] == [];
    assert Recounting(cl, 0, cl.lastMsg) == cl.(msgCount := 0, msgCount12 := 0);
    ResetRecounts(b, c, 0);
  }
}

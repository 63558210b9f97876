/** What each event of a run does to the broker, in one place: the state behind an event is told
    from the state before it by the rules, not by the steps of `Broker`. */
module Steps {
  import opened Options
  import opened Topics
  import opened Hierarchy
  import opened Queues
  import opened Broker
  import opened BrokerLaws
  import opened BrokerOps
  import opened BrokerRuns
  import opened Acks
  import opened Delivery
  import opened DeliveryRuns
  import Publishes
  import Subscribes
  import SessionLaws
  import Handovers
  import Writes
  import opened Rules

  /** A refused QoS 2 message that is not the repetition of one, and does not fit the window. */
  predicate Overruns(b: Db, c: nat, mid: nat, qos: Qos)
    requires c < |b.clients|
  {
    qos == 2 && Publishes.NoHandshake(b.clients[c], mid) && !Room(b.cfg, b.clients[c], 2)
  }

  /** The broker with the connection of client `c` closed, or not. */
  function Cut(b: Db, c: nat, cut: bool): Db
    requires c < |b.clients|
  {
    if cut then b.(clients := b.clients[c := b.clients[c].(connected := false)]) else b
  }

  /** What PUBLISH does; `bad` is a message that is refused. */
  ghost predicate Publishing(b: Db, r: Db, c: nat, mid: nat, topic: string, qos: Qos, retain: bool, empty: bool,
                             bad: bool, acl: Acl)
    requires c < |b.clients|
  {
    if qos < 2 then (if bad then r == b else Publishes.Routed(b, r, mid, topic, qos, retain, empty, acl))
    else
      exists q: Db ::
        && c < |q.clients| && Publishes.Waits(b, q, c, mid, topic, retain, empty, bad)
        && r == Cut(q, c, bad && Overruns(b, c, mid, qos))
  }

  ghost predicate Does(b: Db, ev: Event, r: Db)
    requires Inv(b) && Allowed(b, ev)
  {
    match ev
    case Connect(id) => r == b.(clients := b.clients + [Client(id, true, [], None, 0, 0, 0)])
    case TakeOver(c, clean) => if clean then SessionLaws.StartsClean(b, r, c) else SessionLaws.PicksUp(b, r, c)
    case Disconnect(c) => r == Cut(b, c, true)
    case Expire(c) => SessionLaws.Ends(b, r, c)
    case Subscribe(c, f, q, acl) => Subscribes.Joins(b, r, c, f, q, acl)
    case Unsubscribe(c, f) => Subscribes.Quits(b, r, c, f)
    case PublishIn(c, mid, t, q, retain, empty, bad, acl) => Publishing(b, r, c, mid, t, q, retain, empty, bad, acl)
    case Announce(t, q, retain, empty, acl) => Publishes.Routed(b, r, 0, t, q, retain, empty, acl)
    case PubackComp(c, mid) => Acknowledges(b, r, c, mid)
    case Pubrec(c, mid) => SessionLaws.Confirms(b, r, c, mid)
    case Pubrel(c, mid, acl) => Handovers.Releases(b, r, c, mid, acl)
    case Write(c, sends) => Writes.Writes(b, r, c, sends)
    case Timeout(late) => SessionLaws.Retries(b, r, late)
    case CleanStore => SessionLaws.Sweeps(b, r)
  }

  // ----- each event ------------------------------------------------------------------------

  lemma RefusalOverruns(b: Db, c: nat, mid: nat, qos: Qos)
    requires Inv(b) && Speaks(b, c)
    ensures RefusalFails(b, c, mid, qos) <==> Overruns(b, c, mid, qos)
  {
    Publishes.FindsHandshake(b, c, mid);
  }

  lemma PublishDoes(b: Db, c: nat, mid: nat, t: string, q: Qos, retain: bool, empty: bool, bad: bool, acl: Acl)
    requires Inv(b) && DistinctClientIds(b.clients) && Speaks(b, c) && PlainLevels(Split(t))
    requires bad || FreshId(b, c, mid, q)
    ensures var r := HandlePublish(b, c, mid, t, q, retain, empty, bad, acl);
      var n := if bad && RefusalFails(b, c, mid, q) then Closed(r, c) else r;
      Publishing(b, n, c, mid, t, q, retain, empty, bad, acl)
  {
    RefusalOverruns(b, c, mid, q);
    hide Inv, DistinctClientIds, Publishes.Routed, Publishes.Waits, RefusalFails, Overruns, StoreFind, PlainLevels;
    var r := HandlePublish(b, c, mid, t, q, retain, empty, bad, acl);
    if q == 2 {
      hide HandlePublish;
      Publishes.PublishWaits(b, c, mid, t, retain, empty, bad, acl);
    } else if bad {
      Publishes.RefusedVanishes(b, c, mid, t, q, retain, empty, acl);
      NoOverrun(b, c, mid, q);
    } else {
      Publishes.FindsHandshake(b, c, mid);
      hide HandlePublish;
      Publishes.PublishHands(b, c, mid, t, q, retain, empty, acl);
    }
  }

  lemma NoOverrun(b: Db, c: nat, mid: nat, q: Qos)
    requires c < |b.clients| && q < 2
    ensures !Overruns(b, c, mid, q)
  {
  }

  /** Every event that is allowed does what the rules tell. */
  lemma NextDoes(b: Db, ev: Event)
    requires Inv(b) && Allowed(b, ev) && DistinctClientIds(b.clients)
    ensures Does(b, ev, Next(b, ev))
  {
    hide Inv, DistinctClientIds, PlainLevels, FilterLevels, FreshId, WasPublished, MeetsNoTopic, InboundQos2;
    hide RefusalFails, HandlePublish, HandlePubackComp, HandlePubrec, HandlePubrel, HandleSubscribe;
    hide HandleUnsubscribe, Publishing;
    hide Broker.TakeOver, DiscardSession, Removed, WriteFrom, TimeoutCheck, StoreClean, Acknowledges;
    hide Publishes.Routed, Subscribes.Joins, Subscribes.Quits, SessionLaws.StartsClean, SessionLaws.PicksUp;
    hide SessionLaws.Ends, SessionLaws.Confirms, SessionLaws.Retries, SessionLaws.Sweeps;
    hide Handovers.Releases, Writes.Writes;
    match ev
    case Connect(_) =>
    case TakeOver(c, clean) => TakeOverDoes(b, c, clean);
    case Disconnect(_) =>
    case Expire(c) => SessionLaws.ExpireRemoves(b, c);
    case Subscribe(c, f, q, acl) => Subscribes.SubscribeRecalls(b, c, f, q, acl);
    case Unsubscribe(c, f) =>
      InvTree(b);
      Subscribes.UnsubscribeRemoves(b, c, f);
    case PublishIn(c, mid, t, q, retain, empty, bad, acl) => PublishDoes(b, c, mid, t, q, retain, empty, bad, acl);
    case Announce(t, q, retain, empty, acl) => Publishes.NewMessageRouted(b, 0, t, q, retain, empty, acl);
    case PubackComp(c, mid) => AckAcknowledges(b, c, mid);
    case Pubrec(c, mid) => SessionLaws.PubrecConfirms(b, c, mid);
    case Pubrel(c, mid, acl) => Handovers.PubrelReleases(b, c, mid, acl);
    case Write(c, sends) => WriteDoes(b, c, sends);
    case Timeout(late) => SessionLaws.TimeoutRetries(b, late);
    case CleanStore => SessionLaws.SweepKeepsUsed(b);
  }

  lemma TakeOverDoes(b: Db, c: nat, clean: bool)
    requires Inv(b) && c < |b.clients|
    ensures var r := Broker.TakeOver(b, c, clean);
      if clean then SessionLaws.StartsClean(b, r, c) else SessionLaws.PicksUp(b, r, c)
  {
    InvAt(b, c, 0);
    hide Inv, SessionLaws.StartsClean, SessionLaws.PicksUp, Broker.TakeOver;
    if clean {
      SessionLaws.CleanTakeOver(b, c);
    } else {
      SessionLaws.PersistentTakeOver(b, c);
    }
  }

  lemma WriteDoes(b: Db, c: nat, sends: nat)
    requires Inv(b) && c < |b.clients|
    ensures InboundQos2(b.clients[c]) && Writes.Writes(b, WriteFrom(b, c, 0, 0, sends), c, sends)
  {
    InvAt(b, c, 0);
    hide Inv, Writes.Writes, WriteFrom;
    Writes.WritePass(b, c, sends);
  }

  /** Each step of each run. */
  lemma StepDoes(cfg: Config, evs: seq<Event>, ev: Event, b: Db, r: Db)
    requires After(cfg, evs, b) && After(cfg, evs + [ev], r)
    ensures Allowed(b, ev) && Does(b, ev, r)
  {
    hide Inv, Allowed, Next, Does;
    assert (evs + [ev])[..|evs|] == evs;
    IdsDistinct(cfg, evs, b);
    NextDoes(b, ev);
  }

  // ----- a message from one client to the others ---------------------------------------------

  /** Without duplicates and as long as no access check ends in an error: in every run a PUBLISH of
      QoS 0 or 1 that is not refused brings a client one entry, in the state and with the QoS that
      the rules tell, exactly if the client may read the topic and has a matching subscription for
      which it has room; and nothing otherwise. */
  lemma PublishReaches(cfg: Config, evs: seq<Event>, b: Db, c: nat, mid: nat, topic: string, qos: Qos, retain: bool,
                       empty: bool, acl: Acl, r: Db, d: nat)
    requires After(cfg, evs, b) && !cfg.allowDuplicates && (forall x :: acl(x, topic) != Failed) && qos < 2
    requires After(cfg, evs + [Event.PublishIn(c, mid, topic, qos, retain, empty, false, acl)], r) && d < |b.clients|
    ensures |r.clients| == |b.clients|
    ensures var cl, n := b.clients[d], r.clients[d];
      if acl(cl.id, topic) == Granted && exists q :: Wants(cfg, b.subs, cl, topic, qos, q)
      then exists q :: (Wants(cfg, b.subs, cl, topic, qos, q)
                        && Brought(cl, n, [Enters(cfg, cl, b.lastDbId + 1, Chosen(cfg, qos, q))]))
      else n.msgs == cl.msgs
  {
    hide Inv, Play, Wants, Share, Chosen, Enters, Publishes.KeptInTree, FreshId;
    var ev := Event.PublishIn(c, mid, topic, qos, retain, empty, false, acl);
    StepDoes(cfg, evs, ev, b, r);
    InvTree(b);
    assert Publishes.Shared(b.cfg, b.subs, b.clients[d], r.clients[d], b.lastDbId + 1, topic, qos, retain, [], acl);
    ShareOnce(cfg, b.subs, b.clients[d], topic, qos, retain, b.lastDbId + 1, acl);
  }
}

/** database.c as it runs: the broker's data in fields that each call edits in place, list
    by list. Every method is proved to do what the function of the same name in Broker
    says. */
module Database {
  import opened Options
  import opened Topics
  import opened Hierarchy
  import opened SubTree
  import opened Queues
  import opened Broker
  import opened BrokerLaws
  import opened BrokerOps
  import opened Release
  import opened BrokerEdges

  // ----- one turn of each loop ----------------------------------------------------

  lemma ResetTurn(b: Db, c: nat, i: nat)
    requires c < |b.clients|
    ensures ResetFrom(b, c, i) == if i >= |b.clients[c].msgs| then b else ResetFrom(ResetOne(b, c, i), c, i + 1)
  {
  }

  lemma ReviveTurn(b: Db, c: nat, i: nat)
    requires c < |b.clients|
    ensures ReviveFrom(b, c, i) ==
      if i >= |b.clients[c].msgs| || (b.cfg.maxInflight > 0 && i >= b.cfg.maxInflight) then b
      else
        var e := b.clients[c].msgs[i];
        ReviveFrom(if e.state == Queued then Edit(b, c, i, e.(state := ToSend(e.qos))) else b, c, i + 1)
  {
  }

  lemma TimeoutTurn(b: Db, c: nat, i: nat, late: set<nat>)
    requires c < |b.clients|
    ensures TimeoutMsgs(b, c, i, late) ==
      if i >= |b.clients[c].msgs| then b
      else
        var e := b.clients[c].msgs[i];
        TimeoutMsgs(if e.uid in late then Edit(b, c, i, TimedOut(e)) else b, c, i + 1, late)
  {
  }

  lemma TimeoutNext(b: Db, c: nat, late: set<nat>)
    ensures TimeoutCheck(b, c, late) ==
      if c >= |b.clients| then b else TimeoutCheck(TimeoutMsgs(b, c, 0, late), c + 1, late)
  {
  }

  lemma SweepTurn(store: map<nat, Stored>, ms: seq<Entry>, i: nat)
    requires i < |ms|
    ensures Sweep(store, ms[i..]) == Sweep(SweepOne(store, ms[i]), ms[i + 1..])
  {
    assert ms[i..][0] == ms[i] && ms[i..][1..] == ms[i + 1..];
  }

  lemma PurgeEnds(b: Db, c: nat, i: nat, acl: Acl)
    requires c < |b.clients| && i >= |b.clients[c].msgs|
    ensures PurgeFrom(b, c, i, acl) == b
  {
  }

  lemma SweepEnds(store: map<nat, Stored>, ms: seq<Entry>, i: nat)
    requires i == |ms|
    ensures Sweep(store, ms[i..]) == store
  {
  }

  lemma LeavesTurn(b: Db, ls: seq<Leaf>, i: nat, topic: string, qos: Qos, sid: nat, acl: Acl)
    requires i < |ls| && sid in b.store
    ensures var l := ls[i];
      var c := FindClient(b.clients, l.client);
      var q := if b.cfg.upgradeQos then l.qos else Min(qos, l.qos);
      Broker.SendToLeaves(b, ls[i..], topic, qos, sid, acl) ==
        if acl(l.client, topic) == Failed then b
        else if acl(l.client, topic) == Refused || c >= |b.clients| then
          Broker.SendToLeaves(b, ls[i + 1..], topic, qos, sid, acl)
        else Broker.SendToLeaves(Broker.Send(b, c, q, false, sid), ls[i + 1..], topic, qos, sid, acl)
  {
    assert ls[i..][1..] == ls[i + 1..];
  }

  lemma LeavesEnd(b: Db, ls: seq<Leaf>, i: nat, topic: string, qos: Qos, sid: nat, acl: Acl)
    requires i == |ls| && sid in b.store
    ensures Broker.SendToLeaves(b, ls[i..], topic, qos, sid, acl) == b
  {
  }

  lemma StopsTurn(b: Db, vs: seq<At<Stop>>, i: nat, topic: string, qos: Qos, sid: nat, acl: Acl)
    requires i < |vs| && sid in b.store
    ensures Broker.SendToStops(b, vs[i..], topic, qos, sid, acl) ==
      Broker.SendToStops(
        Broker.SendToLeaves(b, vs[i].item.leaves, topic, qos, sid, acl), vs[i + 1..], topic, qos, sid, acl)
  {
    assert vs[i..][1..] == vs[i + 1..];
  }

  lemma StopsEnd(b: Db, vs: seq<At<Stop>>, i: nat, topic: string, qos: Qos, sid: nat, acl: Acl)
    requires i == |vs| && sid in b.store
    ensures Broker.SendToStops(b, vs[i..], topic, qos, sid, acl) == b
  {
  }

  lemma RetainedTurn(b: Db, c: nat, found: seq<At<nat>>, i: nat, subQos: Qos, acl: Acl)
    requires c < |b.clients| && i < |found|
    ensures var sid := found[i].item;
      Broker.SendRetained(b, c, found[i..], subQos, acl) ==
        if sid in b.store && b.store[sid].topic.Some? && acl(b.clients[c].id, b.store[sid].topic.value) == Granted
        then Broker.SendRetained(
          Broker.Send(b, c, Min(b.store[sid].qos, subQos), true, sid), c, found[i + 1..], subQos, acl)
        else Broker.SendRetained(b, c, found[i + 1..], subQos, acl)
  {
    assert found[i..][1..] == found[i + 1..];
  }

  lemma RetainedEnd(b: Db, c: nat, found: seq<At<nat>>, i: nat, subQos: Qos, acl: Acl)
    requires c < |b.clients| && i == |found|
    ensures Broker.SendRetained(b, c, found[i..], subQos, acl) == b
  {
  }

  lemma ReleaseEnds(b: Db, c: nat, mid: nat, i: nat, msgIndex: nat, deleted: bool, left: nat, acl: Acl)
    requires c < |b.clients| && i >= |b.clients[c].msgs|
    ensures ReleaseFrom(b, c, mid, i, msgIndex, deleted, left, acl) == b
  {
  }

  class Database {
    const cfg: Config
    var clients: seq<Client>
    var store: map<nat, Stored>
    var lastDbId: nat
    var nextUid: nat
    var subs: Subs

    ghost function State(): Db
      reads this
    {
      Db(cfg, clients, store, lastDbId, nextUid, subs)
    }

    constructor (cfg: Config)
      ensures this.cfg == cfg && State() == Db(cfg, [], map[], 0, 0, Boot())
    {
      this.cfg := cfg;
      clients, store, lastDbId, nextUid, subs := [], map[], 0, 0, Boot();
    }

    // ----- single entries -----------------------------------------------------------

    /** `_message_remove` */
    method Remove(c: nat, i: nat)
      requires c < |clients| && i < |clients[c].msgs|
      modifies this`clients, this`store
      ensures State() == Drop(old(State()), c, i)
      ensures |clients| == |old(clients)| && |clients[c].msgs| == |old(clients)[c].msgs| - 1
    {
      var cl := clients[c];
      var msg := cl.msgs[i];
      if msg.store in store {
        store := store[msg.store := store[msg.store].(refCount := store[msg.store].refCount - 1)];
      }
      var last := cl.lastMsg;
      if i > 0 {
        if i + 1 == |cl.msgs| {
          last := Some(cl.msgs[i - 1].uid);
        }
      } else if |cl.msgs| == 1 {
        last := None;
      }
      cl := cl.(msgs := cl.msgs[..i] + cl.msgs[i + 1..], lastMsg := last, msgCount := cl.msgCount - 1);
      if msg.qos > 0 {
        cl := cl.(msgCount12 := cl.msgCount12 - 1);
      }
      clients := clients[c := cl];
    }

    method SetEntry(c: nat, i: nat, e: Entry)
      requires c < |clients| && i < |clients[c].msgs|
      modifies this`clients
      ensures State() == Edit(old(State()), c, i, e)
      ensures |clients| == |old(clients)| && |clients[c].msgs| == |old(clients)[c].msgs|
    {
      clients := clients[c := clients[c].(msgs := clients[c].msgs[i := e])];
    }

    method PromoteEntry(c: nat, i: nat, msgIndex: nat)
      requires c < |clients| && i < |clients[c].msgs|
      modifies this`clients
      ensures State() == Promote(old(State()), c, i, msgIndex)
      ensures |clients| == |old(clients)| && |clients[c].msgs| == |old(clients)[c].msgs|
    {
      var e := clients[c].msgs[i];
      if e.state == Queued && msgIndex <= cfg.maxInflight {
        if e.dir == Out {
          SetEntry(c, i,
            e.(state := if e.qos == 0 then PublishQos0 else if e.qos == 1 then PublishQos1 else PublishQos2));
        } else if e.qos == 2 {
          SetEntry(c, i, e.(state := WaitForPubrel));
        } else {
          SetEntry(c, i, e);
        }
      }
    }

    // ----- acknowledgements -----------------------------------------------------------

    /** `mqtt3_db_message_delete` of an outbound message. */
    method Delete(c: nat, mid: nat)
      requires c < |clients|
      modifies this`clients, this`store
      ensures State() == DeleteFrom(old(State()), c, mid, 0, 0, false)
    {
      hide DeleteFrom, Promote, Drop;
      var i, msgIndex, deleted := 0, 0, false;
      while i < |clients[c].msgs|
        invariant c < |clients| && cfg == State().cfg
        invariant DeleteFrom(State(), c, mid, i, msgIndex, deleted) == DeleteFrom(old(State()), c, mid, 0, 0, false)
        decreases |clients[c].msgs| - i
      {
        DeleteTurn(State(), c, mid, i, msgIndex, deleted);
        msgIndex := msgIndex + 1;
        PromoteEntry(c, i, msgIndex);
        var e := clients[c].msgs[i];
        if e.mid == mid && e.dir == Out {
          msgIndex := msgIndex - 1;
          Remove(c, i);
          deleted := true;
        } else {
          i := i + 1;
        }
        if msgIndex > cfg.maxInflight && deleted {
          return;
        }
      }
      DeleteTurn(State(), c, mid, i, msgIndex, deleted);
    }

    /** `_mosquitto_handle_pubackcomp` */
    method HandlePubackComp(c: nat, mid: nat)
      requires c < |clients|
      modifies this`clients, this`store
      ensures State() == Broker.HandlePubackComp(old(State()), c, mid)
    {
      if mid != 0 {
        Delete(c, mid);
      }
    }

    /** `mqtt3_db_message_update` for PUBREC, and the PUBREL that answers it. */
    method HandlePubrec(c: nat, mid: nat)
      requires c < |clients|
      modifies this`clients
      ensures State() == Broker.HandlePubrec(old(State()), c, mid)
    {
      var i := 0;
      while i < |clients[c].msgs|
        invariant State() == old(State()) && i <= FindOutFrom(clients[c].msgs, mid, 0)
      {
        var e := clients[c].msgs[i];
        if e.mid == mid && e.dir == Out {
          SetEntry(c, i, e.(state := WaitForPubcomp, history := e.history + [Pubrec, Pubrel]));
          return;
        }
        i := i + 1;
      }
    }

    // ----- sessions -----------------------------------------------------------------

    /** `mqtt3_db_message_reconnect_reset` */
    method ReconnectReset(c: nat)
      requires c < |clients|
      modifies this`clients, this`store
      ensures State() == Broker.ReconnectReset(old(State()), c)
    {
      hide ResetFrom, ReviveFrom, ResetOne;
      clients := clients[c := clients[c].(msgCount := 0, msgCount12 := 0)];
      ghost var start := State();
      var i := 0;
      while i < |clients[c].msgs|
        invariant c < |clients| && ResetFrom(State(), c, i) == ResetFrom(start, c, 0)
        decreases |clients[c].msgs| - i
      {
        ResetTurn(State(), c, i);
        ResetEntryAt(c, i);
        i := i + 1;
      }
      ResetTurn(State(), c, i);
      ghost var mid := State();
      i := 0;
      while i < |clients[c].msgs| && (cfg.maxInflight == 0 || i < cfg.maxInflight)
        invariant c < |clients| && ReviveFrom(State(), c, i) == ReviveFrom(mid, c, 0)
        decreases |clients[c].msgs| - i
      {
        ReviveTurn(State(), c, i);
        var e := clients[c].msgs[i];
        if e.state == Queued {
          SetEntry(c, i,
            e.(state := if e.qos == 0 then PublishQos0 else if e.qos == 1 then PublishQos1 else PublishQos2));
        }
        i := i + 1;
      }
      ReviveTurn(State(), c, i);
    }

    /** One turn of its first loop. */
    method ResetEntryAt(c: nat, i: nat)
      requires c < |clients| && i < |clients[c].msgs|
      modifies this`clients, this`store
      ensures State() == ResetOne(old(State()), c, i)
      ensures |clients| == |old(clients)| && |clients[c].msgs| <= |old(clients)[c].msgs|
    {
      var cl := clients[c];
      var msg := cl.msgs[i];
      cl := cl.(lastMsg := Some(msg.uid), msgCount := cl.msgCount + 1);
      if msg.qos > 0 {
        cl := cl.(msgCount12 := cl.msgCount12 + 1);
      }
      clients := clients[c := cl];
      if msg.dir == Out {
        var e := msg.(history := msg.history + [Reset]);
        if msg.state != Queued {
          if msg.qos == 0 {
            e := e.(state := PublishQos0);
          } else if msg.qos == 1 {
            e := e.(state := PublishQos1);
          } else if msg.state == WaitForPubcomp {
            e := e.(state := ResendPubrel);
          } else {
            e := e.(state := PublishQos2);
          }
        }
        SetEntry(c, i, e);
      } else if msg.qos != 2 {
        Remove(c, i);
      }
    }

    /** `mqtt3_db_messages_delete` */
    method MessagesDelete(c: nat)
      requires c < |clients|
      modifies this`clients, this`store
      ensures clients ==
        old(clients)[c := old(clients)[c].(msgs := [], lastMsg := None, msgCount := 0, msgCount12 := 0)]
      ensures store == Sweep(old(store), old(clients)[c].msgs)
    {
      hide Sweep, SweepOne;
      var msgs := clients[c].msgs;
      var i := 0;
      assert msgs[0..] == msgs;
      while i < |msgs|
        invariant i <= |msgs| && clients == old(clients) && Sweep(store, msgs[i..]) == Sweep(old(store), msgs)
      {
        SweepTurn(store, msgs, i);
        GiveUp(msgs[i]);
        i := i + 1;
      }
      SweepEnds(store, msgs, i);
      clients := clients[c := clients[c].(msgs := [], lastMsg := None, msgCount := 0, msgCount12 := 0)];
    }

    /** One entry of a session that goes. */
    method GiveUp(e: Entry)
      modifies this`store
      ensures store == SweepOne(old(store), e)
    {
      if e.store in store {
        var s := store[e.store];
        s := s.(refCount := s.refCount - 1);
        if e.dir == In {
          s := s.(swept := s.swept + 1);
        }
        store := store[e.store := s];
      }
    }

    /** A session is discarded: `mqtt3_subs_clean_session`, then the messages. */
    method DiscardSession(c: nat)
      requires c < |clients|
      modifies this
      ensures State() == Broker.DiscardSession(old(State()), c)
    {
      subs := CleanSession(subs, clients[c].id);
      MessagesDelete(c);
    }

    /** The takeover in `mqtt3_handle_connect`. */
    method TakeOver(c: nat, clean: bool)
      requires c < |clients|
      modifies this
      ensures State() == Broker.TakeOver(old(State()), c, clean)
    {
      hide Broker.ReconnectReset, Broker.DiscardSession;
      if clean {
        DiscardSession(c);
      }
      clients := clients[c := clients[c].(connected := true)];
      if clients[c].msgs != [] {
        ReconnectReset(c);
      }
    }

    /** The purge in `mqtt3_handle_connect` of messages the client may no longer read. */
    method Purge(c: nat, acl: Acl)
      requires c < |clients|
      modifies this`clients, this`store
      ensures State() == PurgeFrom(old(State()), c, 0, acl)
    {
      hide PurgeFrom;
      var i := 0;
      while i < |clients[c].msgs|
        invariant c < |clients| && PurgeFrom(State(), c, i, acl) == PurgeFrom(old(State()), c, 0, acl)
        decreases |clients[c].msgs| - i
      {
        PurgeTurn(State(), c, i, acl);
        var cl := clients[c];
        var e := cl.msgs[i];
        var denied := false;
        if e.dir == Out && e.store in store && store[e.store].topic.Some? {
          denied := acl(cl.id, store[e.store].topic.value) == Refused;
        }
        if denied {
          store := store[e.store := store[e.store].(refCount := store[e.store].refCount - 1)];
          clients := clients[c := cl.(msgs := cl.msgs[..i] + cl.msgs[i + 1..])];
        } else {
          i := i + 1;
        }
      }
      PurgeEnds(State(), c, i, acl);
    }

    // ----- retry --------------------------------------------------------------------

    /** `mqtt3_db_message_timeout_check`; `late` are the entries with an old time stamp. */
    method TimeoutCheck(late: set<nat>)
      modifies this`clients
      ensures State() == Broker.TimeoutCheck(old(State()), 0, late)
    {
      hide Broker.TimeoutCheck, TimeoutMsgs;
      var c := 0;
      while c < |clients|
        invariant Broker.TimeoutCheck(State(), c, late) == Broker.TimeoutCheck(old(State()), 0, late)
        decreases |clients| - c
      {
        TimeoutNext(State(), c, late);
        TimeoutClient(c, late);
        c := c + 1;
      }
      TimeoutNext(State(), c, late);
    }

    method TimeoutClient(c: nat, late: set<nat>)
      requires c < |clients|
      modifies this`clients
      ensures State() == TimeoutMsgs(old(State()), c, 0, late) && |clients| == |old(clients)|
    {
      hide TimeoutMsgs;
      var i := 0;
      while i < |clients[c].msgs|
        invariant |clients| == |old(clients)|
        invariant TimeoutMsgs(State(), c, i, late) == TimeoutMsgs(old(State()), c, 0, late)
        decreases |clients[c].msgs| - i
      {
        TimeoutTurn(State(), c, i, late);
        var e := clients[c].msgs[i];
        if e.uid in late {
          if e.state == WaitForPuback {
            e := e.(state := PublishQos1, dup := true);
          } else if e.state == WaitForPubrec {
            e := e.(state := PublishQos2, dup := true);
          } else if e.state == WaitForPubrel {
            e := e.(state := SendPubrec, dup := true);
          } else if e.state == WaitForPubcomp {
            e := e.(state := ResendPubrel, dup := true);
          }
          SetEntry(c, i, e);
        }
        i := i + 1;
      }
      TimeoutTurn(State(), c, i, late);
    }

    // ----- write --------------------------------------------------------------------

    /** `mqtt3_db_message_write`; the connection takes `sends` packets. */
    method Write(c: nat, sends: nat)
      requires c < |clients| && InboundQos2(clients[c])
      modifies this`clients, this`store
      ensures State() == WriteFrom(old(State()), c, 0, 0, sends)
    {
      hide WriteFrom, Drop, Edit, Written, InboundQos2, HasPacket;
      var i: nat, msgCount: nat, left: nat := 0, 0, sends;
      while i < |clients[c].msgs|
        invariant c < |clients| && InboundQos2(clients[c])
        invariant WriteFrom(State(), c, i, msgCount, left) == WriteFrom(old(State()), c, 0, 0, sends)
        decreases |clients[c].msgs| - i, if i < |clients[c].msgs| && clients[c].msgs[i].state == Queued then 1 else 0
      {
        WriteTurn(State(), c, i, msgCount, left);
        var e := clients[c].msgs[i];
        if e.dir == In {
          msgCount := msgCount + 1;
        }
        if e.state == PublishQos0 || HasPacket(e.state) {
          if left == 0 {
            return;
          }
          left := left - 1;
        }
        i := WriteEntry(c, i, msgCount);
      }
      WriteEnds(State(), c, i, msgCount, left);
    }

    /** The body of the loop for an entry whose packet, if it has one, was sent; `next` is
        where the loop goes on. */
    method WriteEntry(c: nat, i: nat, msgCount: nat) returns (next: nat)
      requires c < |clients| && i < |clients[c].msgs|
      requires clients[c].msgs[i].dir == In ==> clients[c].msgs[i].qos == 2
      modifies this`clients, this`store
      ensures |clients| == |old(clients)|
      ensures |clients[c].msgs| ==
        |old(clients)[c].msgs| - (if old(clients)[c].msgs[i].state == PublishQos0 then 1 else 0)
      ensures next == i && old(clients)[c].msgs[i].state != PublishQos0 ==>
        old(clients)[c].msgs[i].state == Queued && clients[c].msgs[i].state != Queued
      ensures var e := old(clients)[c].msgs[i];
        if e.state == PublishQos0 then State() == Drop(old(State()), c, i) && next == i
        else if HasPacket(e.state) then State() == Edit(old(State()), c, i, Written(e)) && next == i + 1
        else if e.state == Queued && e.dir == In && (cfg.maxInflight == 0 || msgCount < cfg.maxInflight) then
          State() == Edit(old(State()), c, i, e.(state := SendPubrec)) && next == i
        else State() == old(State()) && next == i + 1
    {
      var e := clients[c].msgs[i];
      next := i + 1;
      if e.state == PublishQos0 {
        Remove(c, i);
        next := i;
      } else if e.state == PublishQos1 {
        SetEntry(c, i, e.(dup := true, state := WaitForPuback, history := e.history + [Publish(e.dup)]));
      } else if e.state == PublishQos2 {
        SetEntry(c, i, e.(dup := true, state := WaitForPubrec, history := e.history + [Publish(e.dup)]));
      } else if e.state == SendPubrec || e.state == ResendPubcomp {
        SetEntry(c, i, e.(state := WaitForPubrel));
      } else if e.state == ResendPubrel {
        SetEntry(c, i, e.(state := WaitForPubcomp, history := e.history + [Pubrel]));
      } else if e.state == Queued && e.dir == In && (cfg.maxInflight == 0 || msgCount < cfg.maxInflight) {
        if e.qos == 2 {
          SetEntry(c, i, e.(state := SendPubrec));
        }
        next := i;
      }
    }

    // ----- insert -------------------------------------------------------------------

    /** `mqtt3_db_message_insert` */
    method Insert(c: nat, mid: nat, dir: Dir, qos: Qos, retain: bool, sid: nat) returns (rc: nat)
      requires c < |clients| && sid in store
      modifies this`clients, this`store, this`nextUid
      ensures (State(), rc) == Broker.Insert(old(State()), c, mid, dir, qos, retain, sid)
      ensures store.Keys == old(store).Keys
    {
      hide Link, Placed;
      if !cfg.allowDuplicates && dir == Out && !retain {
        var seen := SentBefore(store[sid].destIds, clients[c].id);
        if seen {
          return 0;
        }
      }
      if !clients[c].connected && qos == 0 && !cfg.queueQos0 {
        return 2;
      }
      var placed := PlaceEntry(clients[c], dir, qos);
      match placed
      case Reject(code) => rc := code;
      case Place(state, code) =>
        LinkEntry(c, sid, Entry(nextUid, sid, mid, qos, retain, dir, state, false, []));
        rc := code;
    }

    /** The state the new entry starts in, if there is room for it. */
    method PlaceEntry(cl: Client, dir: Dir, qos: Qos) returns (p: Placement)
      ensures p == Placed(cfg, cl, dir, qos)
    {
      if cl.connected {
        if qos == 0 || cfg.maxInflight == 0 || cl.msgCount12 < cfg.maxInflight {
          if dir == Out {
            return Place(if qos == 0 then PublishQos0 else if qos == 1 then PublishQos1 else PublishQos2, 0);
          } else if qos == 2 {
            return Place(WaitForPubrel, 0);
          } else {
            return Reject(1);
          }
        } else if cfg.maxQueued == 0 || cl.msgCount12 - cfg.maxInflight < cfg.maxQueued {
          return Place(Queued, 2);
        } else {
          return Reject(2);
        }
      } else if cfg.maxQueued > 0 && cl.msgCount12 >= cfg.maxQueued {
        return Reject(2);
      } else {
        return Place(Queued, 0);
      }
    }

    /** The search through `dest_ids`. */
    method SentBefore(ids: seq<string>, id: string) returns (seen: bool)
      ensures seen <==> id in ids
    {
      for i := 0 to |ids|
        invariant id !in ids[..i]
      {
        if ids[i] == id {
          return true;
        }
      }
      return false;
    }

    /** The new entry is linked behind `last_msg`, and counted. */
    method LinkEntry(c: nat, sid: nat, e: Entry)
      requires c < |clients| && sid in store
      modifies this`clients, this`store, this`nextUid
      ensures State() == Link(old(State()), c, sid, e) && store.Keys == old(store).Keys
    {
      hide AppendMsg;
      var cl := clients[c];
      nextUid := nextUid + 1;
      var s := store[sid].(refCount := store[sid].refCount + 1);
      if e.dir == In {
        s := s.(accepted := s.accepted + 1);
      } else if !e.retain {
        s := s.(inserted := s.inserted + [cl.id]);
        if !cfg.allowDuplicates {
          s := s.(destIds := s.destIds + [cl.id]);
        }
      }
      store := store[sid := s];
      cl := AppendEntry(cl, e);
      clients := clients[c := cl];
    }

    method AppendEntry(cl: Client, e: Entry) returns (r: Client)
      ensures r == AppendMsg(cl, e)
    {
      var msgs := [e];
      if cl.lastMsg.Some? {
        var k := PlaceOf(cl.msgs, cl.lastMsg.value);
        msgs := if k < |cl.msgs| then cl.msgs[..k + 1] + [e] else cl.msgs;
      }
      r := cl.(msgs := msgs, lastMsg := Some(e.uid), msgCount := cl.msgCount + 1);
      if e.qos > 0 {
        r := r.(msgCount12 := r.msgCount12 + 1);
      }
    }

    // ----- routing ------------------------------------------------------------------

    method Send(c: nat, qos: Qos, retain: bool, sid: nat)
      requires c < |clients| && sid in store
      modifies this`clients, this`store, this`nextUid
      ensures State() == Broker.Send(old(State()), c, qos, retain, sid) && store.Keys == old(store).Keys
    {
      hide Broker.Insert;
      var mid := 0;
      if qos > 0 {
        mid := NextMid(clients[c].lastMid);
        clients := clients[c := clients[c].(lastMid := mid)];
      }
      var _ := Insert(c, mid, Out, qos, retain, sid);
    }

    /** The loop of `_subs_process` over the leaves of a node. */
    method SendToLeaves(ls: seq<Leaf>, topic: string, qos: Qos, sid: nat, acl: Acl)
      requires sid in store
      modifies this`clients, this`store, this`nextUid
      ensures sid in store && State() == Broker.SendToLeaves(old(State()), ls, topic, qos, sid, acl)
    {
      hide Broker.SendToLeaves, Broker.Send;
      var i := 0;
      assert ls[0..] == ls;
      while i < |ls|
        invariant i <= |ls| && sid in store
        invariant Broker.SendToLeaves(State(), ls[i..], topic, qos, sid, acl) ==
          Broker.SendToLeaves(old(State()), ls, topic, qos, sid, acl)
      {
        LeavesTurn(State(), ls, i, topic, qos, sid, acl);
        var leaf := ls[i];
        var access := acl(leaf.client, topic);
        if access == Failed {
          return;
        }
        if access == Granted {
          var c := FindClient(clients, leaf.client);
          var msgQos := leaf.qos;
          if !cfg.upgradeQos && qos <= leaf.qos {
            msgQos := qos;
          }
          if c < |clients| {
            Send(c, msgQos, false, sid);
          }
        }
        i := i + 1;
      }
      LeavesEnd(State(), ls, i, topic, qos, sid, acl);
    }

    method SendToStops(vs: seq<At<Stop>>, topic: string, qos: Qos, sid: nat, acl: Acl)
      requires sid in store
      modifies this`clients, this`store, this`nextUid
      ensures sid in store && State() == Broker.SendToStops(old(State()), vs, topic, qos, sid, acl)
    {
      hide Broker.SendToStops, Broker.SendToLeaves;
      var i := 0;
      assert vs[0..] == vs;
      while i < |vs|
        invariant i <= |vs| && sid in store
        invariant Broker.SendToStops(State(), vs[i..], topic, qos, sid, acl) ==
          Broker.SendToStops(old(State()), vs, topic, qos, sid, acl)
      {
        StopsTurn(State(), vs, i, topic, qos, sid, acl);
        SendToLeaves(vs[i].item.leaves, topic, qos, sid, acl);
        i := i + 1;
      }
      StopsEnd(State(), vs, i, topic, qos, sid, acl);
    }

    /** The retained message of a topic changes hands. */
    method Keep(topic: string, m: Option<nat>)
      modifies this`subs, this`store
      ensures State() == Broker.Keep(old(State()), topic, m) && store.Keys == old(store).Keys
    {
      hide HasTop, RetOf, RetainPublish, Ref;
      if HasTop(subs, Tokens(topic)[0]) {
        var was := RetOf(subs, Tokens(topic));
        subs := RetainPublish(subs, topic, m);
        if was.Some? {
          Refer(was.value, -1);
        }
        if m.Some? {
          Refer(m.value, 1);
        }
      }
    }

    /** A reference to a message comes or goes. */
    method Refer(sid: nat, d: int)
      modifies this`store
      ensures store == Ref(old(store), sid, d) && store.Keys == old(store).Keys
    {
      if sid in store {
        store := store[sid := store[sid].(refCount := store[sid].refCount + d)];
      }
    }

    /** `mqtt3_db_messages_queue` */
    method QueueMessage(topic: string, qos: Qos, retain: bool, sid: nat, acl: Acl)
      requires sid in store
      modifies this
      ensures sid in store && State() == Broker.QueueMessage(old(State()), topic, qos, retain, sid, acl)
    {
      hide Broker.SendToStops, Broker.Keep, Route, MakePath;
      if retain {
        var vs := Route(MakePath(subs, topic), topic);
        Keep(topic, if store[sid].empty then None else Some(sid));
        SendToStops(vs, topic, qos, sid, acl);
      } else {
        SendToStops(Route(subs, topic), topic, qos, sid, acl);
      }
      store := store[sid := store[sid].(routed := store[sid].routed + 1)];
    }

    // ----- publish ------------------------------------------------------------------

    /** `mqtt3_db_message_store_find` */
    method StoreFind(c: nat, mid: nat) returns (found: Option<nat>)
      requires c < |clients|
      ensures found == Broker.StoreFind(store, clients[c].msgs, mid)
    {
      var msgs := clients[c].msgs;
      var i := 0;
      assert msgs[0..] == msgs;
      while i < |msgs|
        invariant i <= |msgs| && Broker.StoreFind(store, msgs[i..], mid) == Broker.StoreFind(store, msgs, mid)
      {
        assert msgs[i..][1..] == msgs[i + 1..];
        var e := msgs[i];
        if e.dir == In && e.store in store && store[e.store].sourceMid == mid {
          return Some(e.store);
        }
        i := i + 1;
      }
      return None;
    }

    /** `mqtt3_db_message_store`: the id is not in use, and nothing refers to it yet. */
    method StoreMessage(mid: nat, topic: Option<string>, qos: Qos, retain: bool, empty: bool)
      modifies this`store, this`lastDbId
      ensures State() == Broker.StoreMessage(old(State()), mid, topic, qos, retain, empty) && lastDbId in store
      ensures Inv(old(State())) && (topic.Some? ==> PlainLevels(Split(topic.value))) ==>
        lastDbId !in old(store) && Refs(State(), lastDbId) == 0 && Inv(State())
    {
      ghost var before := State();
      if Inv(before) && (topic.Some? ==> PlainLevels(Split(topic.value))) {
        StoreMessageKeepsInv(before, mid, topic, qos, retain, empty);
      }
      lastDbId := lastDbId + 1;
      store := store[lastDbId := Stored(0, mid, topic, qos, retain, empty, [], 0, 0, 0, 0, [])];
    }

    /** `mqtt3_handle_publish`, once the packet is read. */
    method HandlePublish(c: nat, mid: nat, topic: string, qos: Qos, retain: bool, empty: bool, bad: bool, acl: Acl)
      requires c < |clients|
      modifies this
      ensures State() == Broker.HandlePublish(old(State()), c, mid, topic, qos, retain, empty, bad, acl)
    {
      hide Broker.QueueMessage, Broker.Insert, Broker.StoreMessage, Broker.StoreFind;
      var found := None;
      if qos > 0 {
        found := StoreFind(c, mid);
      }
      if bad {
        if qos == 2 && found.None? {
          StoreMessage(mid, None, 2, false, true);
          var _ := Insert(c, mid, In, 2, false, lastDbId);
        }
        return;
      }
      if found.None? {
        StoreMessage(mid, Some(topic), qos, retain, empty);
      }
      var sid := if found.Some? then found.value else lastDbId;
      if qos < 2 {
        QueueMessage(topic, qos, retain, sid, acl);
      } else if found.None? {
        var _ := Insert(c, mid, In, 2, retain, sid);
      }
    }

    // ----- release ------------------------------------------------------------------

    /** An inbound handshake ends. */
    method Finish(c: nat, i: nat)
      requires c < |clients| && i < |clients[c].msgs|
      modifies this`clients, this`store
      ensures State() == Broker.Finish(old(State()), c, i)
    {
      var sid := clients[c].msgs[i].store;
      Remove(c, i);
      if sid in store && store[sid].topic.None? {
        store := store[sid := store[sid].(denied := store[sid].denied + 1)];
      }
    }

    /** A message released: routed if it has a topic, then unlinked. */
    method ReleaseEntry(c: nat, i: nat, acl: Acl)
      requires c < |clients| && i < |clients[c].msgs|
      modifies this
      ensures State() == Released(old(State()), c, i, acl)
    {
      hide Broker.QueueMessage, Broker.Finish;
      var e := clients[c].msgs[i];
      if e.store in store && store[e.store].topic.Some? {
        QueueMessage(store[e.store].topic.value, store[e.store].qos, e.retain, e.store, acl);
      }
      if i < |clients[c].msgs| {
        Finish(c, i);
      }
    }

    /** `_mosquitto_handle_pubrel`: the loop of `mqtt3_db_message_release`, which may
        lengthen the list it runs over. `left` is how many handshakes it can still end. */
    method HandlePubrel(c: nat, mid: nat, acl: Acl)
      requires c < |clients|
      modifies this
      ensures State() == Broker.HandlePubrel(old(State()), c, mid, acl)
    {
      hide ReleaseFrom, Promote, Released, AtMost;
      var i: nat, msgIndex: nat, deleted := 0, 0, false;
      ghost var left := Tally(clients[c].msgs, WithMid(mid));
      ghost var total := left;
      LeftAtStart(clients[c].msgs, mid);
      while i < |clients[c].msgs|
        invariant c < |clients| && AtMost(clients[c].msgs, i, mid, left)
        invariant ReleaseFrom(State(), c, mid, i, msgIndex, deleted, left, acl) ==
          ReleaseFrom(old(State()), c, mid, 0, 0, false, total, acl)
        decreases left, |clients[c].msgs| - i
      {
        ReleaseTurn(State(), c, mid, i, msgIndex, deleted, left, acl);
        msgIndex := msgIndex + 1;
        PromoteEntry(c, i, msgIndex);
        var e := clients[c].msgs[i];
        if e.mid == mid && e.dir == In {
          ReleaseEntry(c, i, acl);
          deleted := true;
          left := left - 1;
        } else {
          i := i + 1;
        }
        if msgIndex > cfg.maxInflight && deleted {
          return;
        }
      }
      ReleaseEnds(State(), c, mid, i, msgIndex, deleted, left, acl);
    }

    // ----- store --------------------------------------------------------------------

    /** `mqtt3_db_store_clean` */
    method CleanStore()
      modifies this`store
      ensures State() == old(State()).(store := StoreClean(old(store)))
    {
      var todo := store.Keys;
      while todo != {}
        invariant todo <= old(store).Keys && store.Keys <= old(store).Keys
        invariant forall sid :: sid in store ==> store[sid] == old(store)[sid]
        invariant forall sid :: sid in old(store) && sid !in store ==> old(store)[sid].refCount == 0
        invariant forall sid :: sid in store && sid !in todo ==> store[sid].refCount != 0
        invariant todo <= store.Keys
        decreases |todo|
      {
        var sid :| sid in todo;
        todo := todo - {sid};
        if store[sid].refCount == 0 {
          store := store - {sid};
        }
      }
      assert store == StoreClean(old(store));
    }

    // ----- subscribe ----------------------------------------------------------------

    /** `_retain_process` for each message `mqtt3_retain_queue` found. */
    method SendRetained(c: nat, found: seq<At<nat>>, subQos: Qos, acl: Acl)
      requires c < |clients|
      modifies this`clients, this`store, this`nextUid
      ensures State() == Broker.SendRetained(old(State()), c, found, subQos, acl)
    {
      hide Broker.SendRetained, Broker.Send;
      var i := 0;
      assert found[0..] == found;
      while i < |found|
        invariant i <= |found| && c < |clients|
        invariant Broker.SendRetained(State(), c, found[i..], subQos, acl) ==
          Broker.SendRetained(old(State()), c, found, subQos, acl)
      {
        RetainedTurn(State(), c, found, i, subQos, acl);
        var sid := found[i].item;
        if sid in store && store[sid].topic.Some? {
          if acl(clients[c].id, store[sid].topic.value) == Granted {
            Send(c, if store[sid].qos > subQos then subQos else store[sid].qos, true, sid);
          }
        }
        i := i + 1;
      }
      RetainedEnd(State(), c, found, i, subQos, acl);
    }

    /** One filter of `mqtt3_handle_subscribe`. */
    method HandleSubscribe(c: nat, filter: string, qos: Qos, acl: Acl)
      requires c < |clients|
      modifies this
      ensures State() == Broker.HandleSubscribe(old(State()), c, filter, qos, acl)
    {
      hide Broker.SendRetained, SubAdd, RetainQueue;
      subs := SubAdd(subs, filter, Leaf(clients[c].id, qos));
      SendRetained(c, RetainQueue(subs, filter), qos, acl);
    }

    /** One filter of `mqtt3_handle_unsubscribe`. */
    method HandleUnsubscribe(c: nat, filter: string)
      requires c < |clients|
      modifies this`subs
      ensures State() == Broker.HandleUnsubscribe(old(State()), c, filter)
      ensures Valid(old(subs)) ==>
        && Valid(subs)
        && (forall p, d ::
              SubOf(subs, p, d) == if p == Tokens(filter) && d == clients[c].id then None else SubOf(old(subs), p, d))
        && forall p :: RetOf(subs, p) == RetOf(old(subs), p)
    {
      hide Valid, SubOf, RetOf, SubRemove;
      subs := SubRemove(subs, filter, clients[c].id);
      if Valid(old(subs)) {
        SubRemoveEffect(old(subs), filter, clients[c].id, [], "");
        forall p, d
          ensures SubOf(subs, p, d) ==
            if p == Tokens(filter) && d == clients[c].id then None else SubOf(old(subs), p, d)
        {
          SubRemoveEffect(old(subs), filter, clients[c].id, p, d);
        }
        forall p ensures RetOf(subs, p) == RetOf(old(subs), p) {
          SubRemoveEffect(old(subs), filter, clients[c].id, p, "");
        }
      }
    }
  }
}

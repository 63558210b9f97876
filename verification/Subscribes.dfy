/** What SUBSCRIBE and UNSUBSCRIBE do to the broker: the table of subscriptions, and the
    retained messages that a new subscription is sent. */
module Subscribes {
  import opened Options
  import opened Topics
  import opened Hierarchy
  import opened HierarchySearch
  import opened SubTree
  import opened Queues
  import opened Broker
  import opened BrokerLaws
  import opened Delivery
  import opened Rules

  // ----- the retained messages of a subscription ------------------------------------------

  /** The list has every retained message whose topic matches the filter, but for those the
      search skips, and each once. */
  ghost predicate Recalled(s: Subs, filter: string, ps: seq<At<nat>>) {
    && (forall p, m: nat :: At(p, m) in ps <==>
          Matches(Tokens(filter), p) && RetOf(s, p) == Some(m) && !SkippedBy(s, filter, p))
    && forall i, j :: 0 <= i < j < |ps| ==> ps[i].path != ps[j].path
  }

  lemma {:induction false} TotalPositive(ps: seq<At<nat>>, p: Levels, m: nat)
    ensures Total(ps, p, Is(m)) > 0 <==> At(p, m) in ps
  {
    if ps != [] {
      TotalPositive(ps[1..], p, m);
      assert At(p, m) in ps <==> ps[0] == At(p, m) || At(p, m) in ps[1..];
    }
  }

  lemma {:induction false} TotalTwice(ps: seq<At<nat>>, i: nat, j: nat)
    requires i < j < |ps| && ps[i] == ps[j]
    ensures Total(ps, ps[i].path, Is(ps[i].item)) >= 2
    decreases |ps|
  {
    if i > 0 {
      TotalTwice(ps[1..], i - 1, j - 1);
    } else {
      TotalPositive(ps[1..], ps[0].path, ps[0].item);
      assert ps[1..][j - 1] == ps[0];
    }
  }

  lemma RetainQueueRecalls(s: Subs, filter: string)
    requires Valid(s) && FilterLevels(Split(filter))
    ensures Recalled(s, filter, RetainQueue(s, filter))
  {
    hide RetainQueue, Matches, RetOf, SkippedBy, Total, Valid, FilterLevels;
    var ps := RetainQueue(s, filter);
    forall p, m: nat
      ensures Total(ps, p, Is(m)) ==
        if Matches(Tokens(filter), p) && RetOf(s, p) == Some(m) && !SkippedBy(s, filter, p) then 1 else 0
      ensures Total(ps, p, Is(m)) > 0 <==> At(p, m) in ps
    {
      RetainQueueExact(s, filter, p, m);
      TotalPositive(ps, p, m);
    }
    forall i, j | 0 <= i < j < |ps| ensures ps[i].path != ps[j].path {
      var a, b := ps[i], ps[j];
      assert At(a.path, a.item) in ps && At(b.path, b.item) in ps;
      if a.path == b.path {
        TotalTwice(ps, i, j);
      }
    }
  }

  /** The client may read the message. */
  predicate MayRead(store: map<nat, Stored>, id: string, m: nat, acl: Acl) {
    m in store && store[m].topic.Some? && acl(id, store[m].topic.value) == Granted
  }

  /** What retained messages bring to a client that subscribes with QoS `subQos`: an entry for
      each that it may read and has room for when its turn comes, flagged as retained, with the
      smaller QoS of the two. */
  function Recalls(cfg: Config, store: map<nat, Stored>, cl: Client, ps: seq<At<nat>>, subQos: Qos, acl: Acl)
    : seq<Entrance>
    decreases |ps|
  {
    if ps == [] then []
    else
      var m := ps[0].item;
      if !MayRead(store, cl.id, m, acl) then Recalls(cfg, store, cl, ps[1..], subQos, acl)
      else
        var q := Lesser(store[m].qos, subQos);
        if Takes(cfg, cl, q) then
          [Entrance(m, q, true, EntersAs(cfg, cl, q))]
          + Recalls(cfg, store, Counting(cl, q), ps[1..], subQos, acl)
        else Recalls(cfg, store, cl, ps[1..], subQos, acl)
  }

  lemma RecallsTurn(cfg: Config, store: map<nat, Stored>, cl: Client, ps: seq<At<nat>>, subQos: Qos, acl: Acl)
    requires ps != []
    ensures var m := ps[0].item;
      Recalls(cfg, store, cl, ps, subQos, acl) ==
        if !MayRead(store, cl.id, m, acl) || !Takes(cfg, cl, Lesser(store[m].qos, subQos)) then
          Recalls(cfg, store, cl, ps[1..], subQos, acl)
        else
          var q := Lesser(store[m].qos, subQos);
          [Entrance(m, q, true, EntersAs(cfg, cl, q))]
          + Recalls(cfg, store, Counting(cl, q), ps[1..], subQos, acl)
  {
  }

  lemma {:induction false} RecallsSame(cfg: Config, st: map<nat, Stored>, su: map<nat, Stored>, a: Client, b: Client,
                                       ps: seq<At<nat>>, subQos: Qos, acl: Acl)
    requires TextsKept(st, su) && SameRoom(a, b)
    ensures Recalls(cfg, st, a, ps, subQos, acl) == Recalls(cfg, su, b, ps, subQos, acl)
    decreases |ps|
  {
    if ps != [] {
      var m := ps[0].item;
      RecallsSame(cfg, st, su, a, b, ps[1..], subQos, acl);
      if MayRead(st, a.id, m, acl) {
        var q := Lesser(st[m].qos, subQos);
        RecallsSame(cfg, st, su, Counting(a, q), Counting(b, q), ps[1..], subQos, acl);
      }
    }
  }

  // ----- sending them ---------------------------------------------------------------------

  lemma MinIsLesser(a: Qos, b: Qos)
    ensures Min(a, b) == Lesser(a, b)
  {
  }

  /** One message sent to client `c`: its queue, and what stays as it was. */
  lemma SendOneRetained(b: Db, c: nat, q: Qos, sid: nat)
    requires c < |b.clients| && sid in b.store && CountsOk(b.clients[c])
    ensures var r, cl := Send(b, c, q, true, sid), b.clients[c];
      && r.subs == b.subs && r.cfg == b.cfg && TextsKept(b.store, r.store) && CountsOk(r.clients[c])
      && r.clients == b.clients[c := r.clients[c]] && SameClient(cl, r.clients[c])
      && if Takes(b.cfg, cl, q)
         then Brought(cl, r.clients[c], [Entrance(sid, q, true, EntersAs(b.cfg, cl, q))])
              && SameRoom(Counting(cl, q), r.clients[c])
         else r.clients[c].msgs == cl.msgs && SameRoom(cl, r.clients[c])
  {
    hide Takes, EntersAs, CountsOk, Brought;
    SendHere(b, c, q, true, sid);
    hide AppendMsg, Placed;
  }

  lemma {:induction false} SendRetainedBrings(b: Db, c: nat, ps: seq<At<nat>>, subQos: Qos, acl: Acl)
    requires c < |b.clients| && CountsOk(b.clients[c])
    ensures var r, cl := SendRetained(b, c, ps, subQos, acl), b.clients[c];
      && r.subs == b.subs && r.clients == b.clients[c := r.clients[c]] && TextsKept(b.store, r.store)
      && SameClient(cl, r.clients[c])
      && Brought(cl, r.clients[c], Recalls(b.cfg, b.store, cl, ps, subQos, acl))
    decreases |ps|
  {
    hide Takes, EntersAs, CountsOk, Brought, Send, Recalls, Counting, Lesser, Min;
    var cl := b.clients[c];
    if ps == [] {
      NothingBrought(cl, cl);
      NoRecalls(b.cfg, b.store, cl, subQos, acl);
    } else {
      var m := ps[0].item;
      RecallsTurn(b.cfg, b.store, cl, ps, subQos, acl);
      if MayRead(b.store, cl.id, m, acl) {
        var q := Lesser(b.store[m].qos, subQos);
        MinIsLesser(b.store[m].qos, subQos);
        var next := Send(b, c, q, true, m);
        SendOneRetained(b, c, q, m);
        SendRetainedBrings(next, c, ps[1..], subQos, acl);
        var n := SendRetained(next, c, ps[1..], subQos, acl).clients[c];
        if Takes(b.cfg, cl, q) {
          RecallsSame(b.cfg, b.store, next.store, Counting(cl, q), next.clients[c], ps[1..], subQos, acl);
          BroughtOn(cl, next.clients[c], n, [Entrance(m, q, true, EntersAs(b.cfg, cl, q))],
                    Recalls(b.cfg, next.store, next.clients[c], ps[1..], subQos, acl));
        } else {
          RecallsSame(b.cfg, b.store, next.store, cl, next.clients[c], ps[1..], subQos, acl);
          BroughtNone(cl, next.clients[c], n, Recalls(b.cfg, next.store, next.clients[c], ps[1..], subQos, acl));
        }
      } else {
        SendRetainedBrings(b, c, ps[1..], subQos, acl);
      }
    }
  }

  lemma NoRecalls(cfg: Config, store: map<nat, Stored>, cl: Client, subQos: Qos, acl: Acl)
    ensures Recalls(cfg, store, cl, [], subQos, acl) == []
  {
  }

  // ----- SUBSCRIBE and UNSUBSCRIBE ------------------------------------------------------

  /** SUBSCRIBE sets one entry of the table, keeps the retained messages, and puts those that
      match the filter behind the queue of the client, each once, as far as it may read them
      and has room. No other client has to do with it. */
  ghost predicate Joins(b: Db, r: Db, c: nat, filter: string, qos: Qos, acl: Acl)
    requires c < |b.clients|
  {
    var cl := b.clients[c];
    && |r.clients| == |b.clients| && r.clients == b.clients[c := r.clients[c]] && SameClient(cl, r.clients[c])
    && TextsKept(b.store, r.store)
    && (forall p, id :: SubOf(r.subs, p, id) ==
          if p == Tokens(filter) && id == cl.id then Some(qos) else SubOf(b.subs, p, id))
    && (forall p :: RetOf(r.subs, p) == RetOf(b.subs, p))
    && exists ps :: (Recalled(r.subs, filter, ps)
                     && Brought(cl, r.clients[c], Recalls(b.cfg, b.store, cl, ps, qos, acl)))
  }

  lemma SubscribeRecalls(b: Db, c: nat, filter: string, qos: Qos, acl: Acl)
    requires Inv(b) && c < |b.clients| && FilterLevels(Split(filter))
    ensures Joins(b, HandleSubscribe(b, c, filter, qos, acl), c, filter, qos, acl)
  {
    var cl := b.clients[c];
    assert ClientOk(cl, b.cfg.maxInflight) && Valid(b.subs);
    hide Inv, ClientOk, Valid, SubOf, RetOf, SubAdd, Recalled, Brought, Recalls, SendRetained, CountsOk;
    var l := Leaf(cl.id, qos);
    var b1 := b.(subs := SubAdd(b.subs, filter, l));
    SubAddEffect(b.subs, filter, l, [], "");
    forall p, id ensures SubOf(b1.subs, p, id) ==
      if p == Tokens(filter) && id == cl.id then Some(qos) else SubOf(b.subs, p, id)
    {
      SubAddEffect(b.subs, filter, l, p, id);
    }
    forall p ensures RetOf(b1.subs, p) == RetOf(b.subs, p) {
      SubAddEffect(b.subs, filter, l, p, "");
    }
    var ps := RetainQueue(b1.subs, filter);
    RetainQueueRecalls(b1.subs, filter);
    SendRetainedBrings(b1, c, ps, qos, acl);
  }

  ghost predicate Names(ps: seq<At<nat>>, m: nat) {
    exists i :: 0 <= i < |ps| && ps[i].item == m
  }

  /** The message stands at place `i` and at no other. */
  ghost predicate OnlyAt(es: seq<Entrance>, m: nat, i: nat) {
    i < |es| && es[i].store == m && forall j :: 0 <= j < |es| && es[j].store == m ==> j == i
  }

  ghost predicate Stands(es: seq<Entrance>, m: nat) {
    exists i: nat :: OnlyAt(es, m, i)
  }

  ghost predicate Lacks(es: seq<Entrance>, m: nat) {
    forall i :: 0 <= i < |es| ==> es[i].store != m
  }

  lemma NamesFirst(ps: seq<At<nat>>, m: nat)
    requires ps != []
    ensures Names(ps, m) <==> ps[0].item == m || Names(ps[1..], m)
  {
    assert forall i :: 0 <= i < |ps[1..]| ==> ps[1..][i] == ps[i + 1];
  }

  lemma StandsFirst(es: seq<Entrance>, fs: seq<Entrance>, m: nat)
    requires |es| == |fs| + 1 && es[1..] == fs
    ensures es[0].store != m && Stands(fs, m) ==> Stands(es, m)
    ensures es[0].store != m && Lacks(fs, m) ==> Lacks(es, m)
    ensures es[0].store == m && Lacks(fs, m) ==> Stands(es, m)
  {
    assert forall i :: 0 <= i < |fs| ==> es[i + 1] == fs[i];
    if i: nat :| es[0].store != m && OnlyAt(fs, m, i) {
      assert OnlyAt(es, m, i + 1);
    }
    if es[0].store == m && Lacks(fs, m) {
      assert OnlyAt(es, m, 0);
    }
  }

  /** Where there is no limit to the queue, every matching message that is not skipped and that
      the client may read stands behind it once, and no other does. */
  lemma {:induction false} RecallsAll(
    cfg: Config, store: map<nat, Stored>, cl: Client, ps: seq<At<nat>>, subQos: Qos, acl: Acl, m: nat)
    requires cfg.maxQueued == 0 && (cl.connected || cfg.queueQos0)
    requires forall i, j :: 0 <= i < j < |ps| ==> ps[i].item != ps[j].item
    ensures var es := Recalls(cfg, store, cl, ps, subQos, acl);
      if Names(ps, m) && MayRead(store, cl.id, m, acl) then Stands(es, m) else Lacks(es, m)
    decreases |ps|
  {
    if ps != [] {
      var x, rest := ps[0].item, ps[1..];
      assert forall i :: 0 <= i < |rest| ==> rest[i] == ps[i + 1];
      NamesFirst(ps, m);
      RecallsTurn(cfg, store, cl, ps, subQos, acl);
      assert x == m ==> !Names(rest, m);
      hide Recalls, EntersAs, Lesser, Names, Stands, Lacks;
      if MayRead(store, cl.id, x, acl) {
        var next := Counting(cl, Lesser(store[x].qos, subQos));
        RecallsAll(cfg, store, next, rest, subQos, acl, m);
        StandsFirst(Recalls(cfg, store, cl, ps, subQos, acl), Recalls(cfg, store, next, rest, subQos, acl), m);
      } else {
        RecallsAll(cfg, store, cl, rest, subQos, acl, m);
      }
    }
  }

  /** UNSUBSCRIBE deletes one entry of the table and changes nothing else. */
  ghost predicate Quits(b: Db, r: Db, c: nat, filter: string)
    requires c < |b.clients|
  {
    && r == b.(subs := r.subs)
    && (forall p, id :: SubOf(r.subs, p, id) ==
          if p == Tokens(filter) && id == b.clients[c].id then None else SubOf(b.subs, p, id))
    && forall p :: RetOf(r.subs, p) == RetOf(b.subs, p)
  }

  lemma UnsubscribeRemoves(b: Db, c: nat, filter: string)
    requires Valid(b.subs) && c < |b.clients|
    ensures Quits(b, HandleUnsubscribe(b, c, filter), c, filter)
  {
    hide Valid, SubOf, RetOf, SubRemove;
    forall p, id ensures SubOf(HandleUnsubscribe(b, c, filter).subs, p, id) ==
      if p == Tokens(filter) && id == b.clients[c].id then None else SubOf(b.subs, p, id)
    {
      SubRemoveEffect(b.subs, filter, b.clients[c].id, p, id);
    }
    forall p ensures RetOf(HandleUnsubscribe(b, c, filter).subs, p) == RetOf(b.subs, p) {
      SubRemoveEffect(b.subs, filter, b.clients[c].id, p, "");
    }
  }
}

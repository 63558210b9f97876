/** What a publish brings to each client: routing through the tree and inserting into the
    queues, taken together. */
module Delivery {
  import opened Options
  import opened Topics
  import opened Hierarchy
  import opened HierarchyLaws
  import opened HierarchySearch
  import opened SubTree
  import opened Queues
  import opened Broker
  import opened BrokerLaws
  import opened BrokerOps
  import opened Rules

  // ----- the leaves a publish meets ---------------------------------------------------

  function AllLeaves(vs: seq<At<Stop>>): seq<Leaf> {
    if vs == [] then [] else vs[0].item.leaves + AllLeaves(vs[1..])
  }

  lemma {:induction false} LeafHasStop(vs: seq<At<Stop>>, l: Leaf) returns (i: nat)
    requires l in AllLeaves(vs)
    ensures i < |vs| && l in vs[i].item.leaves
  {
    if l in vs[0].item.leaves {
      i := 0;
    } else {
      i := LeafHasStop(vs[1..], l);
      i := i + 1;
    }
  }

  lemma {:induction false} StopHasLeaf(vs: seq<At<Stop>>, i: nat, l: Leaf)
    requires i < |vs| && l in vs[i].item.leaves
    ensures l in AllLeaves(vs)
  {
    if i > 0 {
      StopHasLeaf(vs[1..], i - 1, l);
    }
  }

  lemma {:induction false} TotalHas(vs: seq<At<Stop>>, i: nat, l: Leaf)
    requires i < |vs| && l in vs[i].item.leaves
    ensures Total(vs, vs[i].path, Serves(l)) > 0
  {
    if i > 0 {
      TotalHas(vs[1..], i - 1, l);
    }
  }

  lemma {:induction false} TotalFrom(vs: seq<At<Stop>>, p: Levels, l: Leaf)
    requires Total(vs, p, Serves(l)) > 0
    ensures l in AllLeaves(vs)
  {
    if !(vs[0].path == p && l in vs[0].item.leaves) {
      TotalFrom(vs[1..], p, l);
    }
  }

  /** The leaves met are the subscriptions whose filter matches. */
  lemma LeavesMet(s: Subs, topic: string, l: Leaf)
    requires Valid(s) && PlainLevels(Split(topic))
    ensures l in AllLeaves(Route(s, topic)) <==>
      exists p :: Matches(p, Tokens(topic)) && SubOf(s, p, l.client) == Some(l.qos)
  {
    var vs := Route(s, topic);
    if l in AllLeaves(vs) {
      var i := LeafHasStop(vs, l);
      TotalHas(vs, i, l);
      RouteExact(s, topic, vs[i].path, l);
    }
    if p :| Matches(p, Tokens(topic)) && SubOf(s, p, l.client) == Some(l.qos) {
      RouteExact(s, topic, p, l);
      TotalFrom(vs, p, l);
    }
  }

  /** Making the path of a topic subscribes nobody. */
  lemma MakePathEffect(s: Subs, topic: string, p: Levels, c: string)
    requires Valid(s) && PlainLevels(Split(topic))
    ensures Valid(MakePath(s, topic)) && SubOf(MakePath(s, topic), p, c) == SubOf(s, p, c)
  {
    var toks, tops := Tokens(topic), s.root.children;
    TokensLevels(topic);
    var i := Find(tops, toks[0]);
    if i < |tops| {
      PlainIsFilter(toks);
      var k := Add(tops[i], toks, None);
      AddKeepsWF(tops[i], toks, None);
      AddCounts(tops[i], toks, None, None);
      OnlyOwnTopic(tops[i], toks, None);
      SwapTopKeepsValid(s, i, k);
      SwapTop(s, i, k, p);
      if p != [] && p[0] == toks[0] {
        TopHolds(s, p);
        AddLookup(tops[i], toks, None, p, c);
        NodeBelow(k, p);
      }
    }
  }

  // ----- one leaf after the other -----------------------------------------------------

  ghost predicate DistinctClientIds(cs: seq<Client>) {
    forall i, j :: 0 <= i < j < |cs| ==> cs[i].id != cs[j].id
  }

  ghost predicate SameIds(cs: seq<Client>, ds: seq<Client>) {
    |cs| == |ds| && forall i :: 0 <= i < |cs| ==> cs[i].id == ds[i].id
  }

  ghost predicate NoFailure(ls: seq<Leaf>, topic: string, acl: Acl) {
    forall i :: 0 <= i < |ls| ==> acl(ls[i].client, topic) != Failed
  }

  /** One turn of the loop over the leaves. */
  function ServeOne(b: Db, l: Leaf, topic: string, qos: Qos, sid: nat, acl: Acl): (r: Db)
    requires sid in b.store
    ensures r.cfg == b.cfg && |r.clients| == |b.clients| && sid in r.store
  {
    var c := FindClient(b.clients, l.client);
    if acl(l.client, topic) == Granted && c < |b.clients| then Send(b, c, Chosen(b.cfg, qos, l.qos), false, sid) else b
  }

  lemma OneByOne(b: Db, ls: seq<Leaf>, topic: string, qos: Qos, sid: nat, acl: Acl)
    requires sid in b.store && NoFailure(ls, topic, acl)
    ensures SendToLeaves(b, ls, topic, qos, sid, acl) ==
      if ls == [] then b else SendToLeaves(ServeOne(b, ls[0], topic, qos, sid, acl), ls[1..], topic, qos, sid, acl)
  {
    hide Send, Chosen, Min;
    if ls != [] {
      ChosenIs(b.cfg, qos, ls[0].qos);
    }
  }

  lemma {:induction false} LeavesAppend(
    b: Db, xs: seq<Leaf>, ys: seq<Leaf>, topic: string, qos: Qos, sid: nat, acl: Acl)
    requires sid in b.store && NoFailure(xs, topic, acl)
    ensures SendToLeaves(b, xs + ys, topic, qos, sid, acl) ==
      SendToLeaves(SendToLeaves(b, xs, topic, qos, sid, acl), ys, topic, qos, sid, acl)
    decreases |xs|
  {
    hide Send;
    if xs == [] {
      assert xs + ys == ys;
    } else {
      assert (xs + ys)[0] == xs[0] && (xs + ys)[1..] == xs[1..] + ys;
      LeavesAppend(ServeOne(b, xs[0], topic, qos, sid, acl), xs[1..], ys, topic, qos, sid, acl);
    }
  }

  /** The leaves of a node up to the first whose access check ends in an error. */
  function HeardAt(ls: seq<Leaf>, topic: string, acl: Acl): seq<Leaf> {
    if ls == [] || acl(ls[0].client, topic) == Failed then [] else [ls[0]] + HeardAt(ls[1..], topic, acl)
  }

  /** The leaves that are looked at. */
  function Heard(vs: seq<At<Stop>>, topic: string, acl: Acl): seq<Leaf> {
    if vs == [] then [] else HeardAt(vs[0].item.leaves, topic, acl) + Heard(vs[1..], topic, acl)
  }

  lemma {:induction false} HeardAtIsEnough(b: Db, ls: seq<Leaf>, topic: string, qos: Qos, sid: nat, acl: Acl)
    requires sid in b.store
    ensures SendToLeaves(b, ls, topic, qos, sid, acl) == SendToLeaves(b, HeardAt(ls, topic, acl), topic, qos, sid, acl)
    ensures NoFailure(HeardAt(ls, topic, acl), topic, acl)
    decreases |ls|
  {
    hide Send;
    if ls != [] && acl(ls[0].client, topic) != Failed {
      var next := ServeOne(b, ls[0], topic, qos, sid, acl);
      HeardAtIsEnough(next, ls[1..], topic, qos, sid, acl);
      var hs := HeardAt(ls[1..], topic, acl);
      assert ([ls[0]] + hs)[0] == ls[0] && ([ls[0]] + hs)[1..] == hs;
    }
  }

  /** The stops do not matter, only the leaves that are looked at. */
  lemma {:induction false} StopsAreLeaves(b: Db, vs: seq<At<Stop>>, topic: string, qos: Qos, sid: nat, acl: Acl)
    requires sid in b.store
    ensures SendToStops(b, vs, topic, qos, sid, acl) == SendToLeaves(b, Heard(vs, topic, acl), topic, qos, sid, acl)
    ensures NoFailure(Heard(vs, topic, acl), topic, acl)
    decreases |vs|
  {
    hide SendToLeaves, HeardAt;
    NoLeaves(b, topic, qos, sid, acl);
    if vs != [] {
      var xs, ys := HeardAt(vs[0].item.leaves, topic, acl), Heard(vs[1..], topic, acl);
      var next := SendToLeaves(b, vs[0].item.leaves, topic, qos, sid, acl);
      HeardAtIsEnough(b, vs[0].item.leaves, topic, qos, sid, acl);
      StopsAreLeaves(next, vs[1..], topic, qos, sid, acl);
      LeavesAppend(b, xs, ys, topic, qos, sid, acl);
      assert forall i :: 0 <= i < |xs + ys| ==> (xs + ys)[i] == if i < |xs| then xs[i] else ys[i - |xs|];
    }
  }

  lemma NoLeaves(b: Db, topic: string, qos: Qos, sid: nat, acl: Acl)
    requires sid in b.store
    ensures SendToLeaves(b, [], topic, qos, sid, acl) == b
  {
  }

  /** Only leaves that are met are looked at; and all of them if no check fails. */
  lemma {:induction false} HeardAreMet(vs: seq<At<Stop>>, topic: string, acl: Acl, l: Leaf)
    ensures l in Heard(vs, topic, acl) ==> l in AllLeaves(vs)
    ensures (forall x :: acl(x, topic) != Failed) ==> Heard(vs, topic, acl) == AllLeaves(vs)
  {
    if vs != [] {
      HeardAtAreMet(vs[0].item.leaves, topic, acl, l);
      HeardAreMet(vs[1..], topic, acl, l);
    }
  }

  lemma {:induction false} HeardAtAreMet(ls: seq<Leaf>, topic: string, acl: Acl, l: Leaf)
    ensures l in HeardAt(ls, topic, acl) ==> l in ls
    ensures (forall x :: acl(x, topic) != Failed) ==> HeardAt(ls, topic, acl) == ls
  {
    if ls != [] {
      HeardAtAreMet(ls[1..], topic, acl, l);
    }
  }

  /** Serving another client leaves client `c`, and whether it was served, alone. */
  lemma SendElsewhere(b: Db, d: nat, c: nat, q: Qos, sid: nat)
    requires c < |b.clients| && d < |b.clients| && sid in b.store && b.clients[d].id != b.clients[c].id
    ensures var r := Send(b, d, q, false, sid);
      && r.clients[c] == b.clients[c] && SameIds(b.clients, r.clients) && sid in r.store
      && (b.clients[c].id in r.store[sid].destIds <==> b.clients[c].id in b.store[sid].destIds)
  {
  }

  // ----- what a client gets -----------------------------------------------------------

  /** One entry that a message brings. */
  datatype Entrance = Entrance(store: nat, qos: Qos, retain: bool, state: State)

  predicate IsEntrance(e: Entry, x: Entrance) {
    && e.store == x.store && e.qos == x.qos && e.retain == x.retain && e.state == x.state && e.dir == Out
    && !e.dup && e.history == [] && (if x.qos > 0 then 0 < e.mid < 0x1_0000 else e.mid == 0)
  }

  /** The queue of client `n` is that of `cl` and these entries, in this order. */
  ghost predicate Brought(cl: Client, n: Client, es: seq<Entrance>) {
    && |n.msgs| == |cl.msgs| + |es| && n.msgs[..|cl.msgs|] == cl.msgs
    && forall i :: 0 <= i < |es| ==> IsEntrance(n.msgs[|cl.msgs| + i], es[i])
  }

  /** The client with one entry more. */
  function Counting(cl: Client, q: Qos): Client {
    cl.(msgCount12 := cl.msgCount12 + (if q > 0 then 1 else 0))
  }

  /** What message `sid` brings to a client that has not got it: an entry for the first of its
      leaves that it has room for, or with duplicates for each that it has room for when its
      turn comes. */
  function Brings(cfg: Config, cl: Client, ls: seq<Leaf>, qos: Qos, sid: nat): seq<Entrance>
    decreases |ls|
  {
    if ls == [] then []
    else
      var q := Chosen(cfg, qos, ls[0].qos);
      if ls[0].client == cl.id && Takes(cfg, cl, q) then
        [Entrance(sid, q, false, EntersAs(cfg, cl, q))]
        + (if cfg.allowDuplicates then Brings(cfg, Counting(cl, q), ls[1..], qos, sid) else [])
      else Brings(cfg, cl, ls[1..], qos, sid)
  }

  /** The fields of a client that tell what it takes. */
  ghost predicate SameRoom(a: Client, b: Client) {
    a.id == b.id && a.connected == b.connected && a.msgCount12 == b.msgCount12
  }

  lemma {:induction false} BringsSame(cfg: Config, a: Client, b: Client, ls: seq<Leaf>, qos: Qos, sid: nat)
    requires SameRoom(a, b)
    ensures Brings(cfg, a, ls, qos, sid) == Brings(cfg, b, ls, qos, sid)
    decreases |ls|
  {
    if ls != [] {
      BringsSame(cfg, Counting(a, Chosen(cfg, qos, ls[0].qos)), Counting(b, Chosen(cfg, qos, ls[0].qos)),
                 ls[1..], qos, sid);
      BringsSame(cfg, a, b, ls[1..], qos, sid);
    }
  }

  // ----- one insert -------------------------------------------------------------------

  /** The client before the insert: a packet id may have been drawn. */
  function Drawn(cl: Client, q: Qos): Client {
    if q > 0 then cl.(lastMid := NextMid(cl.lastMid)) else cl
  }

  /** One outbound message for a client, written out. */
  lemma SendIs(b: Db, c: nat, q: Qos, retain: bool, sid: nat)
    requires c < |b.clients| && sid in b.store && !SeenBefore(b, c, Out, retain, sid)
    ensures var cl, mid := b.clients[c], if q > 0 then NextMid(b.clients[c].lastMid) else 0;
      var b1 := PutClient(b, c, Drawn(cl, q));
      Send(b, c, q, retain, sid) ==
        if Takes(b.cfg, cl, q) then
          Link(b1, c, sid, NewEntry(b1, sid, mid, Out, q, retain, EntersAs(b.cfg, cl, q)))
        else b1
  {
    hide Link;
    var cl := b.clients[c];
    PlacedOut(b.cfg, cl, q);
    assert Placed(b.cfg, Drawn(cl, q), Out, q) == Placed(b.cfg, cl, Out, q);
    assert b.clients[c := cl] == b.clients;
  }

  lemma SameIdsOn(a: seq<Client>, b: seq<Client>, c: seq<Client>)
    requires SameIds(a, b) && SameIds(b, c)
    ensures SameIds(a, c)
  {
  }

  lemma AppendCounts(cl: Client, e: Entry)
    ensures var r := AppendMsg(cl, e);
      r.id == cl.id && r.connected == cl.connected && r.msgCount12 == cl.msgCount12 + (if e.qos > 0 then 1 else 0)
    ensures CountsOk(cl) ==> CountsOk(AppendMsg(cl, e))
  {
    if CountsOk(cl) {
      AppendIsAtEnd(cl, e);
      TallyAppend(cl.msgs, [e], Qos12());
      TallyOne(e, Qos12());
    }
  }

  /** The entry is linked at the end of the client's queue. */
  lemma LinkBrings(b: Db, c: nat, sid: nat, cl: Client, e: Entry, x: Entrance)
    requires c < |b.clients| && sid in b.store && CountsOk(b.clients[c]) && IsEntrance(e, x)
    requires b.clients[c].msgs == cl.msgs && SameRoom(b.clients[c], cl)
    ensures var r := Link(b, c, sid, e);
      && SameIds(b.clients, r.clients) && Brought(cl, r.clients[c], [x]) && CountsOk(r.clients[c])
      && SameRoom(Counting(cl, e.qos), r.clients[c])
      && r.store.Keys == b.store.Keys && (!b.cfg.allowDuplicates && !e.retain ==> cl.id in r.store[sid].destIds)
  {
    AppendIsAtEnd(b.clients[c], e);
    AppendCounts(b.clients[c], e);
    hide AppendMsg, CountsOk, IsEntrance;
  }

  /** Sending to client `c` itself. */
  lemma SendHere(b: Db, c: nat, q: Qos, retain: bool, sid: nat)
    requires c < |b.clients| && sid in b.store && CountsOk(b.clients[c]) && !SeenBefore(b, c, Out, retain, sid)
    ensures var r, cl := Send(b, c, q, retain, sid), b.clients[c];
      && SameIds(b.clients, r.clients) && CountsOk(r.clients[c]) && r.store.Keys == b.store.Keys
      && if Takes(b.cfg, cl, q)
         then Brought(cl, r.clients[c], [Entrance(sid, q, retain, EntersAs(b.cfg, cl, q))])
              && SameRoom(Counting(cl, q), r.clients[c])
              && (!b.cfg.allowDuplicates && !retain ==> cl.id in r.store[sid].destIds)
         else r.clients[c].msgs == cl.msgs && SameRoom(cl, r.clients[c]) && r.store == b.store
  {
    var cl, cl1 := b.clients[c], Drawn(b.clients[c], q);
    var b1 := PutClient(b, c, cl1);
    DrawKeepsCounts(cl, NextMid(cl.lastMid));
    SendIs(b, c, q, retain, sid);
    if Takes(b.cfg, cl, q) {
      var st := EntersAs(b.cfg, cl, q);
      var e := NewEntry(b1, sid, if q > 0 then NextMid(cl.lastMid) else 0, Out, q, retain, st);
      hide Send, Takes, EntersAs, CountsOk, Link, Brought;
      LinkBrings(b1, c, sid, cl, e, Entrance(sid, q, retain, st));
      SameIdsOn(b.clients, b1.clients, Link(b1, c, sid, e).clients);
    }
  }

  /** A packet id is drawn for every message above QoS 0, also for one that is not taken. */
  lemma SendDraws(b: Db, c: nat, q: Qos, retain: bool, sid: nat)
    requires c < |b.clients| && sid in b.store && CountsOk(b.clients[c]) && b.clients[c].lastMid < 0x1_0000
    ensures var n, cl := Send(b, c, q, retain, sid).clients[c], b.clients[c];
      var mid := if q > 0 then NextId(cl.lastMid) else 0;
      && n.lastMid == (if q > 0 then mid else cl.lastMid)
      && (!SeenBefore(b, c, Out, retain, sid) && Takes(b.cfg, cl, q) ==>
            |n.msgs| == |cl.msgs| + 1 && n.msgs[|cl.msgs|].mid == mid)
  {
    var cl := b.clients[c];
    NextMidIs(cl.lastMid);
    if !SeenBefore(b, c, Out, retain, sid) {
      SendIs(b, c, q, retain, sid);
      if Takes(b.cfg, cl, q) {
        AppendIsAtEnd(Drawn(cl, q), NewEntry(b, sid, if q > 0 then NextMid(cl.lastMid) else 0, Out, q, retain,
                                             EntersAs(b.cfg, cl, q)));
      }
    }
  }

  /** Sending again what the client has, with no duplicates wanted. */
  lemma SendSeen(b: Db, c: nat, q: Qos, sid: nat)
    requires c < |b.clients| && sid in b.store && SeenBefore(b, c, Out, false, sid)
    ensures var r := Send(b, c, q, false, sid);
      && r.store == b.store && SameIds(b.clients, r.clients)
      && r.clients[c] == b.clients[c].(lastMid := r.clients[c].lastMid)
  {
  }

  // ----- all leaves -----------------------------------------------------------------

  /** A client none of whose leaves is met, or which may not read, gets nothing. */
  lemma {:induction false} NotServed(b: Db, ls: seq<Leaf>, topic: string, qos: Qos, sid: nat, acl: Acl, c: nat)
    requires sid in b.store && c < |b.clients| && DistinctClientIds(b.clients)
    requires forall i :: 0 <= i < |ls| && ls[i].client == b.clients[c].id ==> acl(ls[i].client, topic) != Granted
    ensures var r := SendToLeaves(b, ls, topic, qos, sid, acl);
      && r.clients[c] == b.clients[c] && SameIds(b.clients, r.clients)
      && (b.clients[c].id in r.store[sid].destIds <==> b.clients[c].id in b.store[sid].destIds)
    decreases |ls|
  {
    hide Send, Chosen, Min;
    if ls != [] && acl(ls[0].client, topic) != Failed {
      ChosenIs(b.cfg, qos, ls[0].qos);
      var d := FindClient(b.clients, ls[0].client);
      if acl(ls[0].client, topic) == Granted && d < |b.clients| {
        SendElsewhere(b, d, c, Chosen(b.cfg, qos, ls[0].qos), sid);
      }
      NotServed(ServeOne(b, ls[0], topic, qos, sid, acl), ls[1..], topic, qos, sid, acl, c);
    }
  }

  /** A client that has the message gets it no more. */
  lemma {:induction false} ServedBefore(b: Db, ls: seq<Leaf>, topic: string, qos: Qos, sid: nat, acl: Acl, c: nat)
    requires sid in b.store && c < |b.clients| && DistinctClientIds(b.clients) && !b.cfg.allowDuplicates
    requires b.clients[c].id in b.store[sid].destIds && NoFailure(ls, topic, acl)
    ensures SendToLeaves(b, ls, topic, qos, sid, acl).clients[c].msgs == b.clients[c].msgs
    decreases |ls|
  {
    OneByOne(b, ls, topic, qos, sid, acl);
    hide Send, Chosen, SendToLeaves;
    if ls != [] {
      var d := FindClient(b.clients, ls[0].client);
      if acl(ls[0].client, topic) == Granted && d < |b.clients| {
        if d == c {
          SendSeen(b, c, Chosen(b.cfg, qos, ls[0].qos), sid);
        } else {
          SendElsewhere(b, d, c, Chosen(b.cfg, qos, ls[0].qos), sid);
        }
      }
      ServedBefore(ServeOne(b, ls[0], topic, qos, sid, acl), ls[1..], topic, qos, sid, acl, c);
    }
  }

  /** The client has not got the message, or may get it again. */
  predicate MayGet(b: Db, c: nat, sid: nat)
    requires c < |b.clients| && sid in b.store
  {
    b.cfg.allowDuplicates || b.clients[c].id !in b.store[sid].destIds
  }

  /** One leaf, seen from client `c`. */
  lemma ServeStep(b: Db, l: Leaf, topic: string, qos: Qos, sid: nat, acl: Acl, c: nat)
    requires sid in b.store && c < |b.clients| && DistinctClientIds(b.clients) && MayGet(b, c, sid)
    requires CountsOk(b.clients[c]) && acl(b.clients[c].id, topic) == Granted
    ensures var r, cl, q := ServeOne(b, l, topic, qos, sid, acl), b.clients[c], Chosen(b.cfg, qos, l.qos);
      && DistinctClientIds(r.clients) && CountsOk(r.clients[c])
      && if l.client == cl.id && Takes(b.cfg, cl, q)
         then Brought(cl, r.clients[c], [Entrance(sid, q, false, EntersAs(b.cfg, cl, q))])
              && SameRoom(Counting(cl, q), r.clients[c])
              && (b.cfg.allowDuplicates || cl.id in r.store[sid].destIds)
         else r.clients[c].msgs == cl.msgs && SameRoom(cl, r.clients[c]) && MayGet(r, c, sid)
  {
    hide Takes, Chosen, Send, CountsOk, Brought, EntersAs;
    var cl, q := b.clients[c], Chosen(b.cfg, qos, l.qos);
    var d := FindClient(b.clients, l.client);
    if l.client == cl.id {
      assert d == c;
      SendHere(b, c, q, false, sid);
    } else if acl(l.client, topic) == Granted && d < |b.clients| {
      SendElsewhere(b, d, c, q, sid);
    }
  }

  lemma BroughtOn(a: Client, b: Client, c: Client, es: seq<Entrance>, fs: seq<Entrance>)
    requires Brought(a, b, es) && Brought(b, c, fs)
    ensures Brought(a, c, es + fs)
  {
    hide IsEntrance;
    assert c.msgs[..|a.msgs|] == c.msgs[..|b.msgs|][..|a.msgs|];
    forall i | 0 <= i < |es + fs| ensures IsEntrance(c.msgs[|a.msgs| + i], (es + fs)[i]) {
      if i < |es| {
        assert c.msgs[|a.msgs| + i] == c.msgs[..|b.msgs|][|a.msgs| + i];
      } else {
        assert c.msgs[|a.msgs| + i] == c.msgs[|b.msgs| + (i - |es|)];
      }
    }
  }

  lemma BroughtNone(a: Client, b: Client, c: Client, es: seq<Entrance>)
    requires a.msgs == b.msgs && Brought(b, c, es)
    ensures Brought(a, c, es)
  {
  }

  lemma NothingBrought(a: Client, b: Client)
    requires a.msgs == b.msgs
    ensures Brought(a, b, [])
  {
  }

  /** What the first leaf brings and what the others bring make what all bring. */
  lemma JoinTaken(cfg: Config, cl: Client, next: Client, n: Client, ls: seq<Leaf>, qos: Qos, sid: nat, x: Entrance)
    requires ls != [] && ls[0].client == cl.id && Takes(cfg, cl, Chosen(cfg, qos, ls[0].qos))
    requires var q := Chosen(cfg, qos, ls[0].qos);
      && x == Entrance(sid, q, false, EntersAs(cfg, cl, q)) && Brought(cl, next, [x])
      && SameRoom(Counting(cl, q), next)
    requires Brought(next, n, if cfg.allowDuplicates then Brings(cfg, next, ls[1..], qos, sid) else [])
    ensures Brought(cl, n, Brings(cfg, cl, ls, qos, sid))
  {
    hide Takes, Chosen, Brought, EntersAs, Brings, SameRoom, Counting;
    var q := Chosen(cfg, qos, ls[0].qos);
    BringsTurn(cfg, cl, ls, qos, sid);
    BringsSame(cfg, Counting(cl, q), next, ls[1..], qos, sid);
    BroughtOn(cl, next, n, [x], if cfg.allowDuplicates then Brings(cfg, next, ls[1..], qos, sid) else []);
  }

  lemma JoinPassed(cfg: Config, cl: Client, next: Client, n: Client, ls: seq<Leaf>, qos: Qos, sid: nat)
    requires ls != [] && !(ls[0].client == cl.id && Takes(cfg, cl, Chosen(cfg, qos, ls[0].qos)))
    requires cl.msgs == next.msgs && SameRoom(cl, next)
    requires Brought(next, n, Brings(cfg, next, ls[1..], qos, sid))
    ensures Brought(cl, n, Brings(cfg, cl, ls, qos, sid))
  {
    hide Takes, Chosen, Brought, EntersAs, Brings, SameRoom;
    BringsTurn(cfg, cl, ls, qos, sid);
    BringsSame(cfg, cl, next, ls[1..], qos, sid);
    BroughtNone(cl, next, n, Brings(cfg, next, ls[1..], qos, sid));
  }

  lemma BringsTurn(cfg: Config, cl: Client, ls: seq<Leaf>, qos: Qos, sid: nat)
    ensures Brings(cfg, cl, ls, qos, sid) ==
      if ls == [] then []
      else
        var q := Chosen(cfg, qos, ls[0].qos);
        if ls[0].client == cl.id && Takes(cfg, cl, q) then
          [Entrance(sid, q, false, EntersAs(cfg, cl, q))]
          + (if cfg.allowDuplicates then Brings(cfg, Counting(cl, q), ls[1..], qos, sid) else [])
        else Brings(cfg, cl, ls[1..], qos, sid)
  {
  }

  lemma SameRoomId(a: Client, b: Client)
    ensures SameRoom(a, b) ==> a.id == b.id
    ensures forall q :: SameRoom(Counting(a, q), b) ==> a.id == b.id
  {
  }

  /** A client that may read gets what the leaves bring it, leaf by leaf. */
  lemma {:induction false} Served(b: Db, ls: seq<Leaf>, topic: string, qos: Qos, sid: nat, acl: Acl, c: nat)
    requires sid in b.store && c < |b.clients| && DistinctClientIds(b.clients) && MayGet(b, c, sid)
    requires CountsOk(b.clients[c]) && NoFailure(ls, topic, acl) && acl(b.clients[c].id, topic) == Granted
    ensures var cl := b.clients[c];
      Brought(cl, SendToLeaves(b, ls, topic, qos, sid, acl).clients[c], Brings(b.cfg, cl, ls, qos, sid))
    decreases |ls|
  {
    OneByOne(b, ls, topic, qos, sid, acl);
    hide SendToLeaves, ServeOne, Takes, Chosen, CountsOk, DistinctClientIds, Brought, EntersAs, Brings;
    hide SameRoom, MayGet;
    var cl := b.clients[c];
    if ls == [] {
      BringsTurn(b.cfg, cl, ls, qos, sid);
      NothingBrought(cl, cl);
    } else {
      var next := ServeOne(b, ls[0], topic, qos, sid, acl);
      ServeStep(b, ls[0], topic, qos, sid, acl, c);
      SameRoomId(cl, next.clients[c]);
      if ls[0].client == cl.id && Takes(b.cfg, cl, Chosen(b.cfg, qos, ls[0].qos)) {
        ServedTaken(b, ls, topic, qos, sid, acl, c);
      } else {
        var n := SendToLeaves(b, ls, topic, qos, sid, acl).clients[c];
        Served(next, ls[1..], topic, qos, sid, acl, c);
        JoinPassed(b.cfg, cl, next.clients[c], n, ls, qos, sid);
      }
    }
  }

  lemma {:induction false} ServedTaken(b: Db, ls: seq<Leaf>, topic: string, qos: Qos, sid: nat, acl: Acl, c: nat)
    requires sid in b.store && c < |b.clients| && DistinctClientIds(b.clients) && MayGet(b, c, sid)
    requires CountsOk(b.clients[c]) && NoFailure(ls, topic, acl) && acl(b.clients[c].id, topic) == Granted
    requires ls != [] && ls[0].client == b.clients[c].id && Takes(b.cfg, b.clients[c], Chosen(b.cfg, qos, ls[0].qos))
    ensures var cl := b.clients[c];
      Brought(cl, SendToLeaves(b, ls, topic, qos, sid, acl).clients[c], Brings(b.cfg, cl, ls, qos, sid))
    decreases |ls|, 0
  {
    OneByOne(b, ls, topic, qos, sid, acl);
    hide SendToLeaves, ServeOne, Takes, Chosen, CountsOk, DistinctClientIds, Brought, EntersAs, Brings, SameRoom;
    var cl, q := b.clients[c], Chosen(b.cfg, qos, ls[0].qos);
    var next := ServeOne(b, ls[0], topic, qos, sid, acl);
    var n := SendToLeaves(b, ls, topic, qos, sid, acl).clients[c];
    ServeStep(b, ls[0], topic, qos, sid, acl, c);
    SameRoomId(cl, next.clients[c]);
    if b.cfg.allowDuplicates {
      Served(next, ls[1..], topic, qos, sid, acl, c);
    } else {
      ServedBefore(next, ls[1..], topic, qos, sid, acl, c);
      NothingBrought(next.clients[c], n);
    }
    JoinTaken(b.cfg, cl, next.clients[c], n, ls, qos, sid, Entrance(sid, q, false, EntersAs(b.cfg, cl, q)));
  }

  // ----- a message as a whole ---------------------------------------------------------

  /** Client `client` has a subscription with QoS `q` whose filter matches the topic. */
  ghost predicate Subscribed(s: Subs, topic: string, client: string, q: Qos) {
    exists p :: Matches(p, Tokens(topic)) && SubOf(s, p, client) == Some(q)
  }

  lemma SubscribedMeets(s: Subs, topic: string, client: string, q: Qos, retain: bool)
    requires Valid(s) && PlainLevels(Split(topic))
    ensures Subscribed(s, topic, client, q) <==>
      Leaf(client, q) in AllLeaves(Route(if retain then MakePath(s, topic) else s, topic))
  {
    var t := if retain then MakePath(s, topic) else s;
    MakePathEffect(s, topic, [], "");
    forall p ensures SubOf(t, p, client) == SubOf(s, p, client) {
      MakePathEffect(s, topic, p, client);
    }
    LeavesMet(t, topic, Leaf(client, q));
  }

  /** The leaves a publish looks at. */
  function Looked(s: Subs, topic: string, retain: bool, acl: Acl): seq<Leaf> {
    Heard(Route(if retain then MakePath(s, topic) else s, topic), topic, acl)
  }

  /** Leaves that are looked at are subscriptions that match; and they are all of them, as
      long as no access check ends in an error. */
  lemma LookedMeans(s: Subs, topic: string, retain: bool, acl: Acl, client: string, q: Qos)
    requires Valid(s) && PlainLevels(Split(topic))
    ensures Leaf(client, q) in Looked(s, topic, retain, acl) ==> Subscribed(s, topic, client, q)
    ensures (forall x :: acl(x, topic) != Failed) && Subscribed(s, topic, client, q) ==>
      Leaf(client, q) in Looked(s, topic, retain, acl)
  {
    SubscribedMeets(s, topic, client, q, retain);
    HeardAreMet(Route(if retain then MakePath(s, topic) else s, topic), topic, acl, Leaf(client, q));
  }

  /** What message `sid` brings to client `cl`: nothing if it may not read the topic, or has
      the message and no duplicates are wanted. */
  function Share(
    cfg: Config, s: Subs, cl: Client, had: bool, topic: string, qos: Qos, retain: bool, sid: nat, acl: Acl)
    : seq<Entrance>
  {
    if acl(cl.id, topic) != Granted || (had && !cfg.allowDuplicates) then []
    else Brings(cfg, cl, Looked(s, topic, retain, acl), qos, sid)
  }

  /** A message that is handed to the tree brings every client its share, and nothing else
      changes a queue. */
  lemma MessageShares(b: Db, topic: string, qos: Qos, retain: bool, sid: nat, acl: Acl, c: nat)
    requires Inv(b) && sid in b.store && PlainLevels(Split(topic)) && c < |b.clients|
    requires DistinctClientIds(b.clients)
    ensures var cl, had := b.clients[c], b.clients[c].id in b.store[sid].destIds;
      Brought(cl, QueueMessage(b, topic, qos, retain, sid, acl).clients[c],
              Share(b.cfg, b.subs, cl, had, topic, qos, retain, sid, acl))
  {
    hide Inv, Keep, Route, MakePath, SendToLeaves, SendToStops, CountsOk, Heard, Brings, Brought;
    var cl := b.clients[c];
    var ls := Looked(b.subs, topic, retain, acl);
    var b1 := if retain then Keep(b, topic, if b.store[sid].empty then None else Some(sid)) else b;
    PublishStart(b, topic, retain, sid, c);
    StopsAreLeaves(b1, Route(if retain then MakePath(b.subs, topic) else b.subs, topic), topic, qos, sid, acl);
    if acl(cl.id, topic) == Granted && MayGet(b, c, sid) {
      Served(b1, ls, topic, qos, sid, acl, c);
    } else if acl(cl.id, topic) == Granted {
      ServedBefore(b1, ls, topic, qos, sid, acl, c);
      NothingBrought(cl, SendToLeaves(b1, ls, topic, qos, sid, acl).clients[c]);
    } else {
      NotServed(b1, ls, topic, qos, sid, acl, c);
      NothingBrought(cl, cl);
    }
  }

  /** Storing a retained message leaves the clients and the deliveries made so far alone. */
  lemma PublishStart(b: Db, topic: string, retain: bool, sid: nat, c: nat)
    requires Inv(b) && sid in b.store && c < |b.clients| && PlainLevels(Split(topic))
    ensures CountsOk(b.clients[c]) && Valid(b.subs)
    ensures var m := if b.store[sid].empty then None else Some(sid);
      var r := Keep(b, topic, m);
      r.cfg == b.cfg && r.clients == b.clients && sid in r.store && r.store[sid].destIds == b.store[sid].destIds
  {
    assert ClientOk(b.clients[c], b.cfg.maxInflight);
    KeepMovesCountsOnly(b, topic, if b.store[sid].empty then None else Some(sid));
  }

  // ----- shares and subscriptions -------------------------------------------------------

  /** The client has a leaf among these whose QoS it has room for. */
  ghost predicate Reached(cfg: Config, cl: Client, ls: seq<Leaf>, qos: Qos, l: Leaf) {
    l in ls && l.client == cl.id && Takes(cfg, cl, Chosen(cfg, qos, l.qos))
  }

  function Enters(cfg: Config, cl: Client, sid: nat, q: Qos): Entrance {
    Entrance(sid, q, false, EntersAs(cfg, cl, q))
  }

  /** Without duplicates the leaves bring one entry, through one of them, exactly if one of them
      brings a QoS the client has room for. */
  lemma {:induction false} BringsOnce(cfg: Config, cl: Client, ls: seq<Leaf>, qos: Qos, sid: nat)
    requires !cfg.allowDuplicates
    ensures var es := Brings(cfg, cl, ls, qos, sid);
      if exists l :: Reached(cfg, cl, ls, qos, l)
      then exists l :: (Reached(cfg, cl, ls, qos, l)
                        && es == [Enters(cfg, cl, sid, Chosen(cfg, qos, l.qos))])
      else es == []
    decreases |ls|
  {
    hide Takes, Chosen, EntersAs;
    if ls != [] {
      BringsOnce(cfg, cl, ls[1..], qos, sid);
      assert forall l :: l in ls <==> l == ls[0] || l in ls[1..];
      assert forall l :: Reached(cfg, cl, ls[1..], qos, l) ==> Reached(cfg, cl, ls, qos, l);
      if ls[0].client == cl.id && Takes(cfg, cl, Chosen(cfg, qos, ls[0].qos)) {
        assert Reached(cfg, cl, ls, qos, ls[0]);
      } else {
        assert forall l :: Reached(cfg, cl, ls, qos, l) ==> Reached(cfg, cl, ls[1..], qos, l);
      }
    }
  }

  /** The client has a subscription of QoS `subQos` to the topic, of which it takes the
      message. */
  ghost predicate Wants(cfg: Config, s: Subs, cl: Client, topic: string, qos: Qos, subQos: Qos) {
    Subscribed(s, topic, cl.id, subQos) && Takes(cfg, cl, Chosen(cfg, qos, subQos))
  }

  /** Without duplicates, as long as no access check ends in an error: a client that has not got
      the message gets it exactly if it may read the topic and has a matching subscription
      whose QoS it has room for; and then once, at the QoS of one such subscription. */
  lemma ShareOnce(cfg: Config, s: Subs, cl: Client, topic: string, qos: Qos, retain: bool, sid: nat, acl: Acl)
    requires Valid(s) && PlainLevels(Split(topic)) && !cfg.allowDuplicates && forall x :: acl(x, topic) != Failed
    ensures var es := Share(cfg, s, cl, false, topic, qos, retain, sid, acl);
      if acl(cl.id, topic) == Granted && exists subQos :: Wants(cfg, s, cl, topic, qos, subQos)
      then exists subQos :: (Wants(cfg, s, cl, topic, qos, subQos)
                             && es == [Enters(cfg, cl, sid, Chosen(cfg, qos, subQos))])
      else es == []
  {
    hide Takes, Chosen, EntersAs, Subscribed, Looked, Brings;
    var ls := Looked(s, topic, retain, acl);
    forall q: Qos ensures Leaf(cl.id, q) in ls <==> Subscribed(s, topic, cl.id, q) {
      LookedMeans(s, topic, retain, acl, cl.id, q);
    }
    forall l ensures Reached(cfg, cl, ls, qos, l) <==> l.client == cl.id && Wants(cfg, s, cl, topic, qos, l.qos) {
      assert l.client == cl.id ==> l == Leaf(cl.id, l.qos);
    }
    BringsOnce(cfg, cl, ls, qos, sid);
    if q: Qos :| Wants(cfg, s, cl, topic, qos, q) {
      assert Reached(cfg, cl, ls, qos, Leaf(cl.id, q));
    }
  }

  // ----- every subscription has one leaf --------------------------------------------------

  function Spot(p: Levels, ls: seq<Leaf>): seq<(Levels, Leaf)> {
    if ls == [] then [] else [(p, ls[0])] + Spot(p, ls[1..])
  }

  /** The leaves a publish meets, each with its path. */
  function Spots(vs: seq<At<Stop>>): (r: seq<(Levels, Leaf)>) {
    if vs == [] then [] else Spot(vs[0].path, vs[0].item.leaves) + Spots(vs[1..])
  }

  lemma {:induction false} SpotCount(p: Levels, ls: seq<Leaf>, x: Levels, l: Leaf)
    ensures multiset(Spot(p, ls))[(x, l)] == if x == p then multiset(ls)[l] else 0
    ensures |Spot(p, ls)| == |ls| && forall i :: 0 <= i < |ls| ==> Spot(p, ls)[i] == (p, ls[i])
  {
    if ls != [] {
      SpotCount(p, ls[1..], x, l);
      assert ls == [ls[0]] + ls[1..];
    }
  }

  lemma {:induction false} SpotsCount(vs: seq<At<Stop>>, x: Levels, l: Leaf)
    ensures multiset(Spots(vs))[(x, l)] == Total(vs, x, Serves(l))
    ensures |Spots(vs)| == |AllLeaves(vs)|
    ensures forall i :: 0 <= i < |AllLeaves(vs)| ==> Spots(vs)[i].1 == AllLeaves(vs)[i]
  {
    if vs != [] {
      SpotCount(vs[0].path, vs[0].item.leaves, x, l);
      SpotsCount(vs[1..], x, l);
    }
  }

  /** The leaves stand for the subscriptions that match the topic, one leaf for each. */
  ghost predicate EachOnce(s: Subs, topic: string, ls: seq<Leaf>, ps: seq<Levels>) {
    && |ps| == |ls|
    && (forall i :: 0 <= i < |ls| ==>
          Matches(ps[i], Tokens(topic)) && SubOf(s, ps[i], ls[i].client) == Some(ls[i].qos))
    && (forall i, j :: 0 <= i < j < |ls| ==> ps[i] != ps[j] || ls[i].client != ls[j].client)
    && forall p, c :: Matches(p, Tokens(topic)) && SubOf(s, p, c).Some? ==>
         exists i :: 0 <= i < |ls| && ps[i] == p && ls[i].client == c
  }

  lemma TwiceInMultiset<T>(xs: seq<T>, i: nat, j: nat)
    requires i < j < |xs| && xs[i] == xs[j]
    ensures multiset(xs)[xs[i]] >= 2
  {
    assert xs == xs[..j] + [xs[j]] + xs[j + 1..];
    assert xs[i] in xs[..j];
  }

  function PathsOf(xs: seq<(Levels, Leaf)>): (ps: seq<Levels>)
    ensures |ps| == |xs| && forall i :: 0 <= i < |xs| ==> ps[i] == xs[i].0
  {
    seq(|xs|, i requires 0 <= i < |xs| => xs[i].0)
  }

  ghost predicate IsMatch(s: Subs, topic: string, x: (Levels, Leaf)) {
    Matches(x.0, Tokens(topic)) && SubOf(s, x.0, x.1.client) == Some(x.1.qos)
  }

  /** A list with every match once, and nothing else. */
  lemma MatchesOnce(s: Subs, topic: string, ls: seq<Leaf>, xs: seq<(Levels, Leaf)>)
    requires |xs| == |ls| && forall i :: 0 <= i < |ls| ==> xs[i].1 == ls[i]
    requires forall x :: x in xs <==> IsMatch(s, topic, x)
    requires forall i, j :: 0 <= i < j < |xs| ==> xs[i] != xs[j]
    ensures EachOnce(s, topic, ls, PathsOf(xs))
  {
    var ps := PathsOf(xs);
    assert forall i :: 0 <= i < |ls| ==> xs[i] in xs && IsMatch(s, topic, xs[i]);
    forall i, j | 0 <= i < j < |ls| ensures ps[i] != ps[j] || ls[i].client != ls[j].client {
      assert xs[i] != xs[j] && IsMatch(s, topic, xs[i]) && IsMatch(s, topic, xs[j]);
    }
    forall p, c | Matches(p, Tokens(topic)) && SubOf(s, p, c).Some?
      ensures exists i :: 0 <= i < |ls| && ps[i] == p && ls[i].client == c
    {
      var x := (p, Leaf(c, SubOf(s, p, c).value));
      assert IsMatch(s, topic, x);
      var i :| 0 <= i < |xs| && xs[i] == x;
      assert ps[i] == p && ls[i].client == c;
    }
  }

  lemma RouteOnce(s: Subs, topic: string) returns (ps: seq<Levels>)
    requires Valid(s) && PlainLevels(Split(topic))
    ensures EachOnce(s, topic, AllLeaves(Route(s, topic)), ps)
  {
    hide Matches, SubOf, Route, Valid, PlainLevels, Total, Spots, AllLeaves, EachOnce;
    var vs := Route(s, topic);
    var xs := Spots(vs);
    forall x: (Levels, Leaf) ensures multiset(xs)[x] == if IsMatch(s, topic, x) then 1 else 0 {
      SpotsCount(vs, x.0, x.1);
      RouteExact(s, topic, x.0, x.1);
    }
    SpotsCount(vs, [], Leaf("", 0));
    forall x ensures x in xs <==> IsMatch(s, topic, x) {
      assert x in xs <==> multiset(xs)[x] > 0;
    }
    forall i, j | 0 <= i < j < |xs| ensures xs[i] != xs[j] {
      if xs[i] == xs[j] {
        TwiceInMultiset(xs, i, j);
      }
    }
    MatchesOnce(s, topic, AllLeaves(vs), xs);
    ps := PathsOf(xs);
  }

  /** As long as no access check ends in an error, a publish looks at one leaf for each
      subscription whose filter matches the topic, and at no other. */
  lemma LookedOnce(s: Subs, topic: string, retain: bool, acl: Acl) returns (ps: seq<Levels>)
    requires Valid(s) && PlainLevels(Split(topic)) && forall x :: acl(x, topic) != Failed
    ensures EachOnce(s, topic, Looked(s, topic, retain, acl), ps)
  {
    hide Matches, SubOf, Route, MakePath, Valid, PlainLevels, AllLeaves, Heard;
    var t := if retain then MakePath(s, topic) else s;
    MakePathEffect(s, topic, [], "");
    forall p, c ensures SubOf(t, p, c) == SubOf(s, p, c) {
      MakePathEffect(s, topic, p, c);
    }
    ps := RouteOnce(t, topic);
    HeardAreMet(Route(t, topic), topic, acl, Leaf("", 0));
  }

  // ----- after UNSUBSCRIBE --------------------------------------------------------------

  /** A publish none of whose stops has a leaf of client `c` leaves that client as it was,
      whatever the access checks say. */
  lemma {:induction false} NotStopped(b: Db, vs: seq<At<Stop>>, topic: string, qos: Qos, sid: nat, acl: Acl, c: nat)
    requires sid in b.store && c < |b.clients| && DistinctClientIds(b.clients)
    requires forall l :: l in AllLeaves(vs) ==> l.client != b.clients[c].id
    ensures SendToStops(b, vs, topic, qos, sid, acl).clients[c] == b.clients[c]
    decreases |vs|
  {
    hide SendToLeaves;
    if vs != [] {
      var ls, rest := vs[0].item.leaves, AllLeaves(vs[1..]);
      assert forall i :: 0 <= i < |ls| ==> ls[i] == (ls + rest)[i] && ls[i] in AllLeaves(vs);
      assert forall l :: l in rest ==> l in ls + rest;
      NotServed(b, ls, topic, qos, sid, acl, c);
      NotStopped(SendToLeaves(b, ls, topic, qos, sid, acl), vs[1..], topic, qos, sid, acl, c);
    }
  }

  /** After UNSUBSCRIBE a client is subscribed to a topic only through its other filters, and
      every other client as before; if no other filter matches, a publish to the topic
      leaves the client as it was. */
  lemma UnsubscribeStops(b: Db, c: nat, filter: string, topic: string, qos: Qos, retain: bool, sid: nat, acl: Acl)
    requires Inv(b) && c < |b.clients| && DistinctClientIds(b.clients) && sid in b.store && PlainLevels(Split(topic))
    ensures var r, id := HandleUnsubscribe(b, c, filter), b.clients[c].id;
      && (forall q: Qos :: Subscribed(r.subs, topic, id, q) <==>
            exists p :: p != Tokens(filter) && Matches(p, Tokens(topic)) && SubOf(b.subs, p, id) == Some(q))
      && (forall d, q: Qos :: d != id ==> (Subscribed(r.subs, topic, d, q) <==> Subscribed(b.subs, topic, d, q)))
      && ((forall q: Qos :: !Subscribed(r.subs, topic, id, q)) ==>
            QueueMessage(r, topic, qos, retain, sid, acl).clients[c] == b.clients[c])
  {
    hide Inv, SubRemove, SubOf, Matches, Route, MakePath, SendToStops, Keep;
    var r, id := HandleUnsubscribe(b, c, filter), b.clients[c].id;
    HandleUnsubscribeKeepsInv(b, c, filter);
    InvTree(b);
    InvTree(r);
    forall p, d ensures SubOf(r.subs, p, d) == if p == Tokens(filter) && d == id then None else SubOf(b.subs, p, d) {
      SubRemoveEffect(b.subs, filter, id, p, d);
    }
    if forall q: Qos :: !Subscribed(r.subs, topic, id, q) {
      Untouched(r, topic, qos, retain, sid, acl, c);
    }
  }

  lemma InvTree(b: Db)
    requires Inv(b)
    ensures Valid(b.subs)
  {
  }

  /** A publish leaves a client without a matching subscription as it was. */
  lemma Untouched(b: Db, topic: string, qos: Qos, retain: bool, sid: nat, acl: Acl, c: nat)
    requires Valid(b.subs) && c < |b.clients| && DistinctClientIds(b.clients) && sid in b.store
    requires PlainLevels(Split(topic))
    requires forall q: Qos :: !Subscribed(b.subs, topic, b.clients[c].id, q)
    ensures QueueMessage(b, topic, qos, retain, sid, acl).clients[c] == b.clients[c]
  {
    hide Valid, Subscribed, Route, MakePath, SendToStops, AllLeaves, Keep;
    var id := b.clients[c].id;
    var vs := Route(if retain then MakePath(b.subs, topic) else b.subs, topic);
    forall l | l in AllLeaves(vs) ensures l.client != id {
      SubscribedMeets(b.subs, topic, id, l.qos, retain);
      assert l.client == id ==> l == Leaf(id, l.qos);
    }
    var b1 := if retain then Keep(b, topic, if b.store[sid].empty then None else Some(sid)) else b;
    NotStopped(b1, vs, topic, qos, sid, acl, c);
  }
}

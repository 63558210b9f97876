/** The invariant of the broker and the small edits that keep it. */
module BrokerLaws {
  import opened Options
  import opened Topics
  import opened Hierarchy
  import opened SubTree
  import opened Queues
  import opened Broker

  // ----- sums over all clients --------------------------------------------------

  function TallyAll(cs: seq<Client>, w: Entry -> nat): nat {
    if cs == [] then 0 else Tally(cs[0].msgs, w) + TallyAll(cs[1..], w)
  }

  lemma {:induction false} TallyAllPut(cs: seq<Client>, c: nat, cl: Client, w: Entry -> nat)
    requires c < |cs|
    ensures TallyAll(cs[c := cl], w) == TallyAll(cs, w) - Tally(cs[c].msgs, w) + Tally(cl.msgs, w)
  {
    if c == 0 {
      assert cs[0 := cl][1..] == cs[1..];
    } else {
      TallyAllPut(cs[1..], c - 1, cl, w);
      assert cs[c := cl][1..] == cs[1..][c - 1 := cl];
    }
  }

  lemma {:induction false} TallyAllLess(cs: seq<Client>, v: Entry -> nat, w: Entry -> nat)
    requires forall e :: v(e) <= w(e)
    ensures TallyAll(cs, v) <= TallyAll(cs, w)
  {
    if cs != [] {
      TallyLess(cs[0].msgs, v, w);
      TallyAllLess(cs[1..], v, w);
    }
  }

  lemma {:induction false} TallyAllMember(cs: seq<Client>, c: nat, i: nat, w: Entry -> nat)
    requires c < |cs| && i < |cs[c].msgs|
    ensures TallyAll(cs, w) >= w(cs[c].msgs[i])
  {
    if c == 0 {
      var ms := cs[0].msgs;
      TallyEdit(ms, i, ms[i], w);
    } else {
      TallyAllMember(cs[1..], c - 1, i, w);
    }
  }

  // ----- the invariant ----------------------------------------------------------

  /** All references to a stored message: queue entries and tree nodes. */
  function Refs(b: Db, sid: nat): nat {
    TallyAll(b.clients, RefersTo(sid)) + RetCount(b.subs.root, Some(sid))
  }

  function Counted(store: map<nat, Stored>, sid: nat): int {
    if sid in store then store[sid].refCount else 0
  }

  ghost predicate RefsOk(b: Db) {
    forall sid :: Counted(b.store, sid) == Refs(b, sid)
  }

  /** An inbound entry carries the packet id its message was stored under. */
  ghost predicate Filed(store: map<nat, Stored>, ms: seq<Entry>) {
    forall i :: 0 <= i < |ms| && ms[i].dir == In ==> ms[i].store in store && store[ms[i].store].sourceMid == ms[i].mid
  }

  ghost predicate InboundOk(b: Db) {
    forall c :: 0 <= c < |b.clients| ==>
      && Filed(b.store, b.clients[c].msgs)
      && forall mid :: Tally(b.clients[c].msgs, WithMid(mid)) <= 1
  }

  /** A message accepted into an inbound queue is still there, or has been handed to the
      tree once, or was lost with its session, or was refused from the start. */
  ghost predicate OnceOk(s: Stored, queued: nat) {
    && s.accepted <= 1
    && (s.accepted == 0 ==> queued == 0)
    && (s.accepted == 1 ==> queued + s.routed + s.swept + s.denied == 1)
    && (s.topic.None? ==> s.routed == 0) && (s.topic.Some? ==> s.denied == 0)
  }

  ghost predicate AllOnceOk(b: Db) {
    forall sid :: sid in b.store ==> OnceOk(b.store[sid], TallyAll(b.clients, InboundOf(sid)))
  }

  ghost predicate NoDuplicates(ids: seq<string>) {
    forall i, j :: 0 <= i < j < |ids| ==> ids[i] != ids[j]
  }

  ghost predicate StoredOk(cfg: Config, s: Stored) {
    && (!cfg.allowDuplicates ==> s.inserted == s.destIds && NoDuplicates(s.destIds))
    && (s.topic.Some? ==> PlainLevels(Split(s.topic.value)))
  }

  ghost predicate Inv(b: Db) {
    && Valid(b.subs)
    && (forall c :: 0 <= c < |b.clients| ==> ClientOk(b.clients[c], b.cfg.maxInflight))
    && RefsOk(b) && InboundOk(b) && AllOnceOk(b)
    && (forall sid :: sid in b.store ==> sid <= b.lastDbId && StoredOk(b.cfg, b.store[sid]))
  }

  /** The part of a stored message that only its own handshake may change. */
  ghost predicate SameMessage(s: Stored, t: Stored) {
    && s.sourceMid == t.sourceMid && s.topic == t.topic && s.qos == t.qos && s.retain == t.retain && s.empty == t.empty
    && s.accepted == t.accepted && s.routed == t.routed && s.swept == t.swept && s.denied == t.denied
  }

  ghost predicate Extended(a: Client, b: Client) {
    && a.id == b.id && a.connected == b.connected && a.msgs <= b.msgs
    && forall k :: |a.msgs| <= k < |b.msgs| ==> b.msgs[k].dir == Out
  }

  /** Routing only appends outbound entries. */
  ghost predicate Extends(b: Db, r: Db) {
    && r.cfg == b.cfg && r.lastDbId == b.lastDbId && |r.clients| == |b.clients|
    && (forall c :: 0 <= c < |b.clients| ==> Extended(b.clients[c], r.clients[c]))
    && r.store.Keys == b.store.Keys
    && forall sid :: sid in b.store ==> SameMessage(b.store[sid], r.store[sid])
  }

  lemma ExtendsTransitive(a: Db, b: Db, c: Db)
    requires Extends(a, b) && Extends(b, c)
    ensures Extends(a, c)
  {
    forall i | 0 <= i < |a.clients|
      ensures Extended(a.clients[i], c.clients[i])
    {
      var x, y, z := a.clients[i], b.clients[i], c.clients[i];
      assert forall k :: |x.msgs| <= k < |y.msgs| ==> z.msgs[k] == y.msgs[k];
    }
  }

  /** What the invariant says of one client and one stored message. */
  lemma InvAt(b: Db, c: nat, sid: nat)
    requires Inv(b) && c < |b.clients|
    ensures ClientOk(b.clients[c], b.cfg.maxInflight) && Filed(b.store, b.clients[c].msgs)
    ensures forall mid :: Tally(b.clients[c].msgs, WithMid(mid)) <= 1
    ensures sid in b.store ==>
      OnceOk(b.store[sid], TallyAll(b.clients, InboundOf(sid))) && StoredOk(b.cfg, b.store[sid])
  {
  }

  // ----- replacing one client and one stored message ------------------------------

  /** The conditions under which exchanging the list of client `c` and the record of
      message `sid` keeps the invariant. */
  lemma ExchangeKeepsInv(b: Db, r: Db, c: nat, sid: nat)
    requires Inv(b) && c < |b.clients| && sid in b.store
    requires r.cfg == b.cfg && r.subs == b.subs && r.lastDbId == b.lastDbId
    requires |r.clients| == |b.clients| && r.clients == b.clients[c := r.clients[c]]
    requires r.store.Keys == b.store.Keys && r.store == b.store[sid := r.store[sid]]
    requires ClientOk(r.clients[c], b.cfg.maxInflight)
    requires forall x :: (Tally(r.clients[c].msgs, RefersTo(x)) ==
      Tally(b.clients[c].msgs, RefersTo(x)) + (if x == sid then r.store[sid].refCount - b.store[sid].refCount else 0))
    requires forall x :: x != sid ==> Tally(r.clients[c].msgs, InboundOf(x)) == Tally(b.clients[c].msgs, InboundOf(x))
    requires OnceOk(r.store[sid], TallyAll(r.clients, InboundOf(sid)))
    requires r.store[sid].sourceMid == b.store[sid].sourceMid && StoredOk(b.cfg, r.store[sid])
    requires Filed(r.store, r.clients[c].msgs) && forall mid :: Tally(r.clients[c].msgs, WithMid(mid)) <= 1
    ensures Inv(r)
  {
    hide StoredOk, EntryOk, CountsOk, Windowed, Valid, Tally, TallyAll, RetCount, ClientOk;
    forall x ensures Counted(r.store, x) == Refs(r, x) {
      TallyAllPut(b.clients, c, r.clients[c], RefersTo(x));
      assert Counted(b.store, x) == Refs(b, x);
    }
    forall x | x in r.store
      ensures OnceOk(r.store[x], TallyAll(r.clients, InboundOf(x)))
    {
      if x != sid {
        TallyAllPut(b.clients, c, r.clients[c], InboundOf(x));
        assert r.store[x] == b.store[x];
      }
    }
    forall d | 0 <= d < |r.clients|
      ensures Filed(r.store, r.clients[d].msgs) && ClientOk(r.clients[d], r.cfg.maxInflight)
      ensures forall mid :: Tally(r.clients[d].msgs, WithMid(mid)) <= 1
    {
      if d != c {
        assert r.clients[d] == b.clients[d];
        assert forall x :: x in b.store ==> r.store[x].sourceMid == b.store[x].sourceMid;
      }
    }
  }

  // ----- the small edits --------------------------------------------------------

  lemma LinkKeepsInv(b: Db, c: nat, sid: nat, e: Entry)
    requires Inv(b) && c < |b.clients| && sid in b.store && e.store == sid && EntryOk(e)
    requires b.cfg.maxInflight > 0 && Active(e) ==> b.clients[c].msgCount12 < b.cfg.maxInflight
    requires e.dir == In ==>
      && e.qos == 2 && e.mid == b.store[sid].sourceMid && Tally(b.clients[c].msgs, WithMid(e.mid)) == 0
      && b.store[sid].accepted == b.store[sid].routed == b.store[sid].swept == b.store[sid].denied == 0
    requires e.dir == Out && !e.retain && !b.cfg.allowDuplicates ==> b.clients[c].id !in b.store[sid].destIds
    ensures Inv(Link(b, c, sid, e))
  {
    hide StoredOk, OnceOk, Windowed, EntryOk;
    var cl := b.clients[c];
    var r := Link(b, c, sid, e);
    AppendIsAtEnd(cl, e);
    AppendKeepsOk(cl, e, b.cfg.maxInflight);
    AppendReferences(cl.msgs, e);
    assert r.clients[c].msgs == cl.msgs + [e];
    NotedIsOk(b, c, sid, e);
    LinkIsOnce(b, c, sid, e);
    LinkIsFiled(b, c, sid, e);
    forall mid ensures Tally(r.clients[c].msgs, WithMid(mid)) <= 1 {
      assert Tally(cl.msgs, WithMid(mid)) <= 1;
    }
    ExchangeKeepsInv(b, r, c, sid);
  }

  lemma LinkExtends(b: Db, c: nat, sid: nat, e: Entry)
    requires c < |b.clients| && sid in b.store && e.dir == Out && CountsOk(b.clients[c])
    ensures Extends(b, Link(b, c, sid, e))
  {
    AppendIsAtEnd(b.clients[c], e);
  }

  lemma LinkIsOnce(b: Db, c: nat, sid: nat, e: Entry)
    requires c < |b.clients| && sid in b.store && e.store == sid && AllOnceOk(b) && CountsOk(b.clients[c])
    requires e.dir == In ==>
      b.store[sid].accepted == b.store[sid].routed == b.store[sid].swept == b.store[sid].denied == 0
    ensures OnceOk(Link(b, c, sid, e).store[sid], TallyAll(Link(b, c, sid, e).clients, InboundOf(sid)))
  {
    var cl := b.clients[c];
    AppendIsAtEnd(cl, e);
    AppendReferences(cl.msgs, e);
    TallyAllPut(b.clients, c, Link(b, c, sid, e).clients[c], InboundOf(sid));
    assert OnceOk(b.store[sid], TallyAll(b.clients, InboundOf(sid)));
  }

  /** An inbound entry unlinked and its message accounted for in one step: as handed over,
      or as refused. */
  function Conclude(b: Db, c: nat, i: nat): (r: Db)
    requires c < |b.clients| && i < |b.clients[c].msgs|
    ensures r.cfg == b.cfg && |r.clients| == |b.clients|
  {
    var sid := b.clients[c].msgs[i].store;
    var b1 := Drop(b, c, i);
    if sid !in b1.store then b1
    else
      var s := b1.store[sid];
      b1.(store := b1.store[sid := if s.topic.Some? then s.(routed := s.routed + 1) else s.(denied := s.denied + 1)])
  }

  lemma ConcludeIsOnce(b: Db, c: nat, i: nat)
    requires c < |b.clients| && i < |b.clients[c].msgs| && AllOnceOk(b)
    requires b.clients[c].msgs[i].dir == In && b.clients[c].msgs[i].store in b.store
    ensures var sid := b.clients[c].msgs[i].store;
      OnceOk(Conclude(b, c, i).store[sid], TallyAll(Conclude(b, c, i).clients, InboundOf(sid)))
  {
    var sid := b.clients[c].msgs[i].store;
    DropTallies(b.clients[c], i, InboundOf(sid));
    TallyAllPut(b.clients, c, DropMsg(b.clients[c], i), InboundOf(sid));
    TallyAllMember(b.clients, c, i, InboundOf(sid));
    assert OnceOk(b.store[sid], TallyAll(b.clients, InboundOf(sid)));
  }

  lemma LinkIsFiled(b: Db, c: nat, sid: nat, e: Entry)
    requires Inv(b) && c < |b.clients| && sid in b.store && e.store == sid
    requires e.dir == In ==> e.mid == b.store[sid].sourceMid
    ensures Filed(Link(b, c, sid, e).store, b.clients[c].msgs + [e])
  {
    FiledStays(b.store, Link(b, c, sid, e).store, b.clients[c].msgs);
  }

  lemma NotedIsOk(b: Db, c: nat, sid: nat, e: Entry)
    requires Inv(b) && c < |b.clients| && sid in b.store
    requires e.dir == Out && !e.retain && !b.cfg.allowDuplicates ==> b.clients[c].id !in b.store[sid].destIds
    ensures StoredOk(b.cfg, Noted(b.store[sid], b.cfg, e.dir, e.retain, b.clients[c].id))
  {
    var ids := b.store[sid].destIds;
    if e.dir == Out && !e.retain && !b.cfg.allowDuplicates {
      var more := ids + [b.clients[c].id];
      assert forall i :: 0 <= i < |ids| ==> more[i] == ids[i] && ids[i] in ids;
    }
  }

  /** An entry of client `c` changes only its state, DUP flag and history. */
  lemma EditKeepsInv(b: Db, c: nat, i: nat, e: Entry)
    requires Inv(b) && c < |b.clients| && i < |b.clients[c].msgs|
    requires SameEntry(b.clients[c].msgs[i], e) && EntryOk(e)
    requires b.cfg.maxInflight > 0 && Active(e) ==> Active(b.clients[c].msgs[i]) || i < b.cfg.maxInflight
    ensures Inv(Edit(b, c, i, e))
  {
    hide Inv, ClientOk, StoredOk, OnceOk, EntryOk;
    var cl := b.clients[c];
    var r, ms, sid := Edit(b, c, i, e), cl.msgs[i := e], cl.msgs[i].store;
    EntryIsStored(b, c, i);
    InvAt(b, c, sid);
    EditKeepsOk(cl, i, e, b.cfg.maxInflight);
    EditTallies(cl.msgs, i, e);
    TallyAllPut(b.clients, c, r.clients[c], InboundOf(sid));
    assert r.store == b.store[sid := r.store[sid]];
    ExchangeKeepsInv(b, r, c, sid);
  }

  lemma EditTallies(ms: seq<Entry>, i: nat, e: Entry)
    requires i < |ms| && SameEntry(ms[i], e)
    ensures forall x :: Tally(ms[i := e], RefersTo(x)) == Tally(ms, RefersTo(x))
    ensures forall x :: Tally(ms[i := e], InboundOf(x)) == Tally(ms, InboundOf(x))
    ensures forall x :: Tally(ms[i := e], WithMid(x)) == Tally(ms, WithMid(x))
  {
    forall x ensures Tally(ms[i := e], RefersTo(x)) == Tally(ms, RefersTo(x))
      ensures Tally(ms[i := e], InboundOf(x)) == Tally(ms, InboundOf(x))
      ensures Tally(ms[i := e], WithMid(x)) == Tally(ms, WithMid(x))
    {
      TallyEdit(ms, i, e, RefersTo(x));
      TallyEdit(ms, i, e, InboundOf(x));
      TallyEdit(ms, i, e, WithMid(x));
    }
  }

  /** Every entry refers to a message that is still stored. */
  lemma EntryIsStored(b: Db, c: nat, i: nat)
    requires Inv(b) && c < |b.clients| && i < |b.clients[c].msgs|
    ensures b.clients[c].msgs[i].store in b.store
  {
    var sid := b.clients[c].msgs[i].store;
    TallyAllMember(b.clients, c, i, RefersTo(sid));
    assert Counted(b.store, sid) == Refs(b, sid);
  }

  lemma DropTallies(cl: Client, i: nat, w: Entry -> nat)
    requires i < |cl.msgs|
    ensures Tally(DropMsg(cl, i).msgs, w) == Tally(cl.msgs, w) - w(cl.msgs[i])
  {
    TallyEdit(cl.msgs, i, cl.msgs[i], w);
  }

  lemma DropReferences(cl: Client, i: nat)
    requires i < |cl.msgs|
    ensures forall x :: Tally(DropMsg(cl, i).msgs, RefersTo(x)) == Tally(cl.msgs, RefersTo(x)) - RefersTo(x)(cl.msgs[i])
    ensures forall x ::
      Tally(DropMsg(cl, i).msgs, InboundOf(x)) == Tally(cl.msgs, InboundOf(x)) - InboundOf(x)(cl.msgs[i])
  {
    forall x ensures Tally(DropMsg(cl, i).msgs, RefersTo(x)) == Tally(cl.msgs, RefersTo(x)) - RefersTo(x)(cl.msgs[i]) {
      DropTallies(cl, i, RefersTo(x));
    }
    forall x
      ensures Tally(DropMsg(cl, i).msgs, InboundOf(x)) == Tally(cl.msgs, InboundOf(x)) - InboundOf(x)(cl.msgs[i])
    {
      DropTallies(cl, i, InboundOf(x));
    }
  }

  lemma AppendReferences(ms: seq<Entry>, e: Entry)
    ensures forall x :: Tally(ms + [e], RefersTo(x)) == Tally(ms, RefersTo(x)) + RefersTo(x)(e)
    ensures forall x :: Tally(ms + [e], InboundOf(x)) == Tally(ms, InboundOf(x)) + InboundOf(x)(e)
    ensures forall x :: Tally(ms + [e], WithMid(x)) == Tally(ms, WithMid(x)) + WithMid(x)(e)
  {
    forall x ensures Tally(ms + [e], RefersTo(x)) == Tally(ms, RefersTo(x)) + RefersTo(x)(e) {
      TallyAppend(ms, [e], RefersTo(x));
      TallyOne(e, RefersTo(x));
    }
    forall x ensures Tally(ms + [e], InboundOf(x)) == Tally(ms, InboundOf(x)) + InboundOf(x)(e) {
      TallyAppend(ms, [e], InboundOf(x));
      TallyOne(e, InboundOf(x));
    }
    forall x ensures Tally(ms + [e], WithMid(x)) == Tally(ms, WithMid(x)) + WithMid(x)(e) {
      TallyAppend(ms, [e], WithMid(x));
      TallyOne(e, WithMid(x));
    }
  }

  /** The list after an unlinking, apart from the message it referred to. */
  lemma DropLeavesOrder(b: Db, c: nat, i: nat)
    requires Inv(b) && c < |b.clients| && i < |b.clients[c].msgs|
    ensures ClientOk(DropMsg(b.clients[c], i), b.cfg.maxInflight)
    ensures Filed(b.store, DropMsg(b.clients[c], i).msgs)
    ensures forall mid :: Tally(DropMsg(b.clients[c], i).msgs, WithMid(mid)) <= 1
  {
    var cl := b.clients[c];
    DropKeepsOk(cl, i, b.cfg.maxInflight);
    var ms := DropMsg(cl, i).msgs;
    assert forall j :: 0 <= j < |ms| ==> ms[j] == cl.msgs[if j < i then j else j + 1];
    forall mid ensures Tally(ms, WithMid(mid)) <= 1 {
      DropTallies(cl, i, WithMid(mid));
    }
  }

  /** Unlinking an entry, when the record `s` of its message gives up one reference and
      accounts for the entry. */
  lemma DropKeepsInv(b: Db, c: nat, i: nat, s: Stored, r: Db)
    requires Inv(b) && c < |b.clients| && i < |b.clients[c].msgs|
    requires b.clients[c].msgs[i].store in b.store
    requires r == PutClient(b, c, DropMsg(b.clients[c], i)).(store := b.store[b.clients[c].msgs[i].store := s])
    requires s.refCount == b.store[b.clients[c].msgs[i].store].refCount - 1
    requires s.sourceMid == b.store[b.clients[c].msgs[i].store].sourceMid && StoredOk(b.cfg, s)
    requires OnceOk(s, TallyAll(r.clients, InboundOf(b.clients[c].msgs[i].store)))
    ensures Inv(r)
  {
    DropLeavesOrder(b, c, i);
    DropReferences(b.clients[c], i);
    FiledStays(b.store, r.store, r.clients[c].msgs);
    ExchangeKeepsInv(b, r, c, b.clients[c].msgs[i].store);
  }

  lemma DropOutKeepsInv(b: Db, c: nat, i: nat)
    requires Inv(b) && c < |b.clients| && i < |b.clients[c].msgs| && b.clients[c].msgs[i].dir == Out
    ensures Inv(Drop(b, c, i))
  {
    EntryIsStored(b, c, i);
    var sid := b.clients[c].msgs[i].store;
    DropTallies(b.clients[c], i, InboundOf(sid));
    TallyAllPut(b.clients, c, DropMsg(b.clients[c], i), InboundOf(sid));
    assert OnceOk(b.store[sid], TallyAll(b.clients, InboundOf(sid)));
    DropKeepsInv(b, c, i, b.store[sid].(refCount := b.store[sid].refCount - 1), Drop(b, c, i));
  }

  lemma FiledStays(st: map<nat, Stored>, st': map<nat, Stored>, ms: seq<Entry>)
    requires Filed(st, ms) && st.Keys == st'.Keys
    requires forall x :: x in st ==> st'[x].sourceMid == st[x].sourceMid
    ensures Filed(st', ms)
  {
  }

  lemma ConcludeKeepsInv(b: Db, c: nat, i: nat)
    requires Inv(b) && c < |b.clients| && i < |b.clients[c].msgs| && b.clients[c].msgs[i].dir == In
    ensures Inv(Conclude(b, c, i))
  {
    EntryIsStored(b, c, i);
    var sid := b.clients[c].msgs[i].store;
    var r := Conclude(b, c, i);
    ConcludeIsOnce(b, c, i);
    assert StoredOk(b.cfg, b.store[sid]);
    assert r.store == b.store[sid := r.store[sid]];
    DropKeepsInv(b, c, i, r.store[sid], r);
  }
}

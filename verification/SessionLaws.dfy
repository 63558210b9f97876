/** What a session goes through: takeover, expiry, the purge at CONNECT, retries, PUBREC, and
    the sweep of the store. */
module SessionLaws {
  import opened Options
  import opened Hierarchy
  import opened SubTree
  import opened Queues
  import opened Broker
  import opened BrokerLaws
  import opened BrokerOps
  import opened BrokerRuns
  import opened BrokerEdges
  import Delivery
  import opened Rules

  // ----- a session ends -------------------------------------------------------------------

  /** The tree without the subscriptions of one client. */
  ghost predicate Cleaned(s: Subs, t: Subs, id: string) {
    && (forall p, d :: SubOf(t, p, d) == if d == id then None else SubOf(s, p, d))
    && forall p :: RetOf(t, p) == RetOf(s, p)
  }

  /** The store once the references of these entries are given up. */
  ghost predicate GivenUp(st: map<nat, Stored>, su: map<nat, Stored>, ms: seq<Entry>) {
    su.Keys == st.Keys
    && forall x :: x in st ==>
         su[x] == st[x].(refCount := st[x].refCount - Tally(ms, RefersTo(x)), swept := su[x].swept)
  }

  lemma TreeCleaned(s: Subs, id: string)
    requires Valid(s)
    ensures Cleaned(s, CleanSession(s, id), id)
  {
    hide CleanSession, SubOf, RetOf, Valid;
    forall p, d ensures SubOf(CleanSession(s, id), p, d) == if d == id then None else SubOf(s, p, d) {
      CleanSessionEffect(s, id, p, d);
    }
    forall p ensures RetOf(CleanSession(s, id), p) == RetOf(s, p) {
      CleanSessionEffect(s, id, p, "");
    }
  }

  lemma StoreGivenUp(store: map<nat, Stored>, ms: seq<Entry>)
    requires forall i :: 0 <= i < |ms| ==> ms[i].store in store
    ensures GivenUp(store, Sweep(store, ms), ms)
  {
    hide Sweep, Tally;
    var r := Sweep(store, ms);
    forall x | x in store
      ensures r[x] == store[x].(refCount := store[x].refCount - Tally(ms, RefersTo(x)), swept := r[x].swept)
    {
      SweepEffect(store, ms, x);
    }
  }

  lemma DiscardEffect(b: Db, c: nat)
    requires Inv(b) && c < |b.clients|
    ensures var r, cl := DiscardSession(b, c), b.clients[c];
      && r == b.(clients := r.clients, subs := r.subs, store := r.store)
      && r.clients == b.clients[c := Client(cl.id, cl.connected, [], None, 0, 0, cl.lastMid)]
      && Cleaned(b.subs, r.subs, cl.id) && GivenUp(b.store, r.store, cl.msgs)
  {
    hide Inv, CleanSession, Valid, Sweep, Cleaned, GivenUp;
    var cl := b.clients[c];
    Delivery.InvTree(b);
    TreeCleaned(b.subs, cl.id);
    forall i | 0 <= i < |cl.msgs| ensures cl.msgs[i].store in b.store {
      EntryIsStored(b, c, i);
    }
    StoreGivenUp(b.store, cl.msgs);
  }

  /** CONNECT with a clean session under a known client id: the client is connected, with an
      empty queue and without subscriptions; nothing else goes but its references. */
  ghost predicate StartsClean(b: Db, r: Db, c: nat)
    requires c < |b.clients|
  {
    var cl := b.clients[c];
    && r == b.(clients := r.clients, subs := r.subs, store := r.store)
    && r.clients == b.clients[c := Client(cl.id, true, [], None, 0, 0, cl.lastMid)]
    && Cleaned(b.subs, r.subs, cl.id) && GivenUp(b.store, r.store, cl.msgs)
  }

  lemma CleanTakeOver(b: Db, c: nat)
    requires Inv(b) && c < |b.clients|
    ensures StartsClean(b, Broker.TakeOver(b, c, true), c)
  {
    hide Inv, Cleaned, GivenUp, DiscardSession;
    DiscardEffect(b, c);
  }

  /** CONNECT under a known client id with its session kept: the client is connected, each entry
      of its queue is restarted where it stands, and nothing else changes. */
  ghost predicate PicksUp(b: Db, r: Db, c: nat)
    requires c < |b.clients|
  {
    var cl := b.clients[c];
    && |r.clients| == |b.clients|
    && r == b.(clients := b.clients[c := cl.(connected := true, msgs := r.clients[c].msgs)])
    && |r.clients[c].msgs| == |cl.msgs|
    && forall k :: 0 <= k < |cl.msgs| ==> r.clients[c].msgs[k] == ReconnectEntry(cl.msgs[k], k, b.cfg.maxInflight)
  }

  lemma PersistentTakeOver(b: Db, c: nat)
    requires c < |b.clients| && CountsOk(b.clients[c]) && InboundQos2(b.clients[c])
    ensures PicksUp(b, Broker.TakeOver(b, c, false), c)
  {
    hide ReconnectReset, ReconnectEntry;
    var cl := b.clients[c];
    var b1 := PutClient(b, c, cl.(connected := true));
    if cl.msgs != [] {
      ReconnectList(b1, c);
    }
  }

  /** An expired session, or the connection of a clean one, ends: its place in the table goes,
      with its subscriptions and its references. */
  ghost predicate Ends(b: Db, r: Db, c: nat)
    requires c < |b.clients|
  {
    && r == b.(clients := r.clients, subs := r.subs, store := r.store)
    && r.clients == b.clients[..c] + b.clients[c + 1..]
    && Cleaned(b.subs, r.subs, b.clients[c].id) && GivenUp(b.store, r.store, b.clients[c].msgs)
  }

  lemma ExpireRemoves(b: Db, c: nat)
    requires Inv(b) && c < |b.clients|
    ensures Ends(b, Removed(DiscardSession(b, c), c), c)
  {
    hide Inv, Cleaned, GivenUp, DiscardSession;
    DiscardEffect(b, c);
    var d := DiscardSession(b, c);
    assert d.clients[..c] == b.clients[..c] && d.clients[c + 1..] == b.clients[c + 1..];
  }

  // ----- PUBREC ---------------------------------------------------------------------------

  /** Entry `k` is the first outbound one with the packet id. */
  predicate FirstOut(ms: seq<Entry>, mid: nat, k: nat) {
    && k < |ms| && ms[k].dir == Out && ms[k].mid == mid
    && forall j :: 0 <= j < k ==> !(ms[j].dir == Out && ms[j].mid == mid)
  }

  /** PUBREC makes the first outbound entry with its packet id wait for PUBCOMP, whatever it did
      before, and changes nothing else; without such an entry it changes nothing. */
  ghost predicate Confirms(b: Db, r: Db, c: nat, mid: nat)
    requires c < |b.clients|
  {
    var cl := b.clients[c];
    && ((forall k: nat :: !FirstOut(cl.msgs, mid, k)) ==> r == b)
    && forall k: nat :: FirstOut(cl.msgs, mid, k) ==>
         var e := cl.msgs[k];
         var f := e.(state := WaitForPubcomp, history := e.history + [Sent.Pubrec, Sent.Pubrel]);
         r == b.(clients := b.clients[c := cl.(msgs := cl.msgs[k := f])])
  }

  lemma PubrecConfirms(b: Db, c: nat, mid: nat)
    requires c < |b.clients|
    ensures Confirms(b, HandlePubrec(b, c, mid), c, mid)
  {
    var i, ms := FindOutFrom(b.clients[c].msgs, mid, 0), b.clients[c].msgs;
    if i < |ms| {
      assert FirstOut(ms, mid, i);
    }
    forall k: nat | FirstOut(ms, mid, k) ensures k == i {
    }
  }

  // ----- retries --------------------------------------------------------------------------

  /** One queue after the retry pass. */
  ghost predicate Retried(ms: seq<Entry>, ns: seq<Entry>, late: set<nat>, i: nat) {
    && |ns| == |ms|
    && forall k :: 0 <= k < |ms| ==> ns[k] == if k >= i && ms[k].uid in late then Overdue(ms[k]) else ms[k]
  }

  lemma {:induction false} TimeoutMsgsRetries(b: Db, c: nat, i: nat, late: set<nat>)
    requires c < |b.clients|
    ensures var r := TimeoutMsgs(b, c, i, late);
      r == PutClient(b, c, b.clients[c].(msgs := r.clients[c].msgs))
      && Retried(b.clients[c].msgs, r.clients[c].msgs, late, i)
    decreases |b.clients[c].msgs| - i
  {
    hide TimedOut, Overdue;
    if i < |b.clients[c].msgs| {
      var e := b.clients[c].msgs[i];
      TimedOutIs(e);
      TimeoutMsgsRetries(if e.uid in late then Edit(b, c, i, TimedOut(e)) else b, c, i + 1, late);
    }
  }

  lemma {:induction false} TimeoutFromRetries(b: Db, c: nat, late: set<nat>)
    requires c <= |b.clients|
    ensures var r := TimeoutCheck(b, c, late);
      && r == b.(clients := r.clients)
      && forall d :: 0 <= d < |b.clients| ==>
           if d < c then r.clients[d] == b.clients[d]
           else r.clients[d] == b.clients[d].(msgs := r.clients[d].msgs)
                && Retried(b.clients[d].msgs, r.clients[d].msgs, late, 0)
    decreases |b.clients| - c
  {
    hide TimeoutMsgs, Retried;
    if c < |b.clients| {
      TimeoutMsgsRetries(b, c, 0, late);
      TimeoutFromRetries(TimeoutMsgs(b, c, 0, late), c + 1, late);
    }
  }

  /** The retry pass makes every late entry that waits for an answer sendable again, marked as a
      duplicate, and changes nothing else of any client. */
  ghost predicate Retries(b: Db, r: Db, late: set<nat>) {
    && r == b.(clients := r.clients) && |r.clients| == |b.clients|
    && forall d :: 0 <= d < |b.clients| ==>
         && r.clients[d] == b.clients[d].(msgs := r.clients[d].msgs)
         && Retried(b.clients[d].msgs, r.clients[d].msgs, late, 0)
  }

  lemma TimeoutRetries(b: Db, late: set<nat>)
    ensures Retries(b, TimeoutCheck(b, 0, late), late)
  {
    hide TimeoutCheck, Retried;
    TimeoutFromRetries(b, 0, late);
  }

  // ----- the purge at CONNECT ---------------------------------------------------------------

  /** The client may no longer read the outbound message. */
  predicate Denied(store: map<nat, Stored>, id: string, acl: Acl, e: Entry) {
    e.dir == Out && e.store in store && store[e.store].topic.Some? && acl(id, store[e.store].topic.value) == Refused
  }

  function Undenied(store: map<nat, Stored>, id: string, acl: Acl, ms: seq<Entry>): seq<Entry> {
    if ms == [] then []
    else (if Denied(store, id, acl, ms[0]) then [] else [ms[0]]) + Undenied(store, id, acl, ms[1..])
  }

  lemma {:induction false} UndeniedSame(
    st: map<nat, Stored>, su: map<nat, Stored>, id: string, acl: Acl, ms: seq<Entry>)
    requires SameTopics(st, su)
    ensures Undenied(st, id, acl, ms) == Undenied(su, id, acl, ms)
  {
    if ms != [] {
      UndeniedSame(st, su, id, acl, ms[1..]);
    }
  }

  /** The purge leaves exactly the entries the client may still have, in their order, with
      counters and tail pointer as they were. */
  ghost predicate OnlyQueue(b: Db, r: Db, c: nat)
    requires c < |b.clients|
  {
    && |r.clients| == |b.clients|
    && r == b.(clients := b.clients[c := b.clients[c].(msgs := r.clients[c].msgs)], store := r.store)
  }

  lemma OnlyQueueOn(a: Db, b: Db, r: Db, c: nat)
    requires c < |a.clients| && OnlyQueue(a, b, c) && OnlyQueue(b, r, c)
    ensures OnlyQueue(a, r, c)
  {
  }

  lemma {:induction false} PurgeLeaves(b: Db, c: nat, i: nat, acl: Acl)
    requires c < |b.clients| && i <= |b.clients[c].msgs|
    ensures var r, cl := PurgeFrom(b, c, i, acl), b.clients[c];
      OnlyQueue(b, r, c) && r.clients[c].msgs == cl.msgs[..i] + Undenied(b.store, cl.id, acl, cl.msgs[i..])
    decreases |b.clients[c].msgs| - i
  {
    var cl := b.clients[c];
    PurgeTurn(b, c, i, acl);
    hide PurgeFrom, Denied, Undenied, OnlyQueue, Unlinked, SameTopics;
    if i < |cl.msgs| {
      UndeniedAt(b.store, cl.id, acl, cl.msgs, i);
      if Denied(b.store, cl.id, acl, cl.msgs[i]) {
        UnlinkedIs(b, c, i);
        PurgeLeaves(Unlinked(b, c, i), c, i, acl);
        OnlyQueueOn(b, Unlinked(b, c, i), PurgeFrom(Unlinked(b, c, i), c, i, acl), c);
        UndeniedSame(b.store, Unlinked(b, c, i).store, cl.id, acl, cl.msgs[i + 1..]);
      } else {
        PurgeLeaves(b, c, i + 1, acl);
      }
    } else {
      UndeniedNone(b.store, cl.id, acl, cl.msgs, i);
      OnlyQueueSelf(b, c);
    }
  }

  lemma UnlinkedIs(b: Db, c: nat, i: nat)
    requires c < |b.clients| && i < |b.clients[c].msgs|
    ensures var d, cl := Unlinked(b, c, i), b.clients[c];
      && OnlyQueue(b, d, c) && d.clients[c].id == cl.id
      && d.clients[c].msgs[..i] == cl.msgs[..i] && d.clients[c].msgs[i..] == cl.msgs[i + 1..]
      && i <= |d.clients[c].msgs| == |cl.msgs| - 1 && SameTopics(b.store, d.store)
  {
  }

  lemma OnlyQueueSelf(b: Db, c: nat)
    requires c < |b.clients|
    ensures OnlyQueue(b, b, c)
  {
    assert b.clients[c := b.clients[c]] == b.clients;
  }

  lemma UndeniedAt(store: map<nat, Stored>, id: string, acl: Acl, ms: seq<Entry>, i: nat)
    requires i < |ms|
    ensures Undenied(store, id, acl, ms[i..]) ==
      (if Denied(store, id, acl, ms[i]) then [] else [ms[i]]) + Undenied(store, id, acl, ms[i + 1..])
    ensures ms[..i + 1] == ms[..i] + [ms[i]]
  {
    assert ms[i..][0] == ms[i] && ms[i..][1..] == ms[i + 1..];
  }

  lemma UndeniedNone(store: map<nat, Stored>, id: string, acl: Acl, ms: seq<Entry>, i: nat)
    requires i == |ms|
    ensures ms == ms[..i] + Undenied(store, id, acl, ms[i..])
  {
  }

  lemma PurgeTurn(b: Db, c: nat, i: nat, acl: Acl)
    requires c < |b.clients|
    ensures var cl := b.clients[c];
      PurgeFrom(b, c, i, acl) ==
        if i >= |cl.msgs| then b
        else if Denied(b.store, cl.id, acl, cl.msgs[i]) then PurgeFrom(Unlinked(b, c, i), c, i, acl)
        else PurgeFrom(b, c, i + 1, acl)
  {
  }

  // ----- the sweep of the store -------------------------------------------------------------

  /** A queue entry or a tree node refers to the message. */
  ghost predicate InUse(b: Db, sid: nat) {
    || (exists c, i :: 0 <= c < |b.clients| && 0 <= i < |b.clients[c].msgs| && b.clients[c].msgs[i].store == sid)
    || RetCount(b.subs.root, Some(sid)) > 0
  }

  lemma {:induction false} TallyFinds(ms: seq<Entry>, sid: nat)
    requires Tally(ms, RefersTo(sid)) > 0
    ensures exists i :: 0 <= i < |ms| && ms[i].store == sid
  {
    if ms[0].store != sid {
      TallyFinds(ms[1..], sid);
      var i :| 0 <= i < |ms[1..]| && ms[1..][i].store == sid;
      assert ms[i + 1].store == sid;
    }
  }

  lemma {:induction false} TallyAllFinds(cs: seq<Client>, sid: nat)
    requires TallyAll(cs, RefersTo(sid)) > 0
    ensures exists c, i :: 0 <= c < |cs| && 0 <= i < |cs[c].msgs| && cs[c].msgs[i].store == sid
  {
    if Tally(cs[0].msgs, RefersTo(sid)) > 0 {
      TallyFinds(cs[0].msgs, sid);
    } else {
      TallyAllFinds(cs[1..], sid);
      var c, i :| 0 <= c < |cs[1..]| && 0 <= i < |cs[1..][c].msgs| && cs[1..][c].msgs[i].store == sid;
      assert cs[c + 1].msgs[i].store == sid;
    }
  }

  /** The sweep keeps exactly the messages that a queue entry or a tree node refers to, as they
      are. */
  ghost predicate Sweeps(b: Db, r: Db) {
    && r == b.(store := r.store)
    && (forall sid: nat :: sid in r.store <==> sid in b.store && InUse(b, sid))
    && forall sid :: sid in r.store ==> r.store[sid] == b.store[sid]
  }

  lemma SweepKeepsUsed(b: Db)
    requires Inv(b)
    ensures Sweeps(b, b.(store := StoreClean(b.store)))
  {
    hide Inv, InUse;
    forall sid: nat ensures sid in StoreClean(b.store) <==> sid in b.store && InUse(b, sid) {
      UsedIsCounted(b, sid);
    }
  }

  lemma UsedIsCounted(b: Db, sid: nat)
    requires Inv(b)
    ensures sid in b.store ==> (b.store[sid].refCount != 0 <==> InUse(b, sid))
  {
    hide Tally, TallyAll, RetCount;
    assert Counted(b.store, sid) == Refs(b, sid);
    if TallyAll(b.clients, RefersTo(sid)) > 0 {
      TallyAllFinds(b.clients, sid);
    }
    if c, i :| 0 <= c < |b.clients| && 0 <= i < |b.clients[c].msgs| && b.clients[c].msgs[i].store == sid {
      TallyAllMember(b.clients, c, i, RefersTo(sid));
    }
  }
}

/** Restoring what was backed up rebuilds the broker's lasting data. */
module PersistLaws {
  import opened Options
  import opened Hierarchy
  import opened PersistFormat
  import opened Persist

  // ----- references ---------------------------------------------------------------

  function MsgRefs(qs: seq<QueuedMsg>, id: nat): nat {
    if qs == [] then 0 else (if qs[0].storeId == id then 1 else 0) + MsgRefs(qs[1..], id)
  }

  function EntryRefs(cs: seq<Option<Context>>, id: nat): nat {
    if cs == [] then 0 else (if cs[0].Some? then MsgRefs(cs[0].value.msgs, id) else 0) + EntryRefs(cs[1..], id)
  }

  /** Every message is counted once for each queue entry and each tree node with it. */
  ghost predicate RefsExact(db: Image) {
    forall i :: 0 <= i < |db.store| ==>
      db.store[i].refCount == EntryRefs(db.contexts, db.store[i].dbId) + RetCount(db.subs.root, Some(db.store[i].dbId))
  }

  ghost predicate DistinctIds(ms: seq<StoredMsg>) {
    forall i, j :: 0 <= i < j < |ms| ==> ms[i].dbId != ms[j].dbId
  }

  lemma RecountedAt(ms: seq<StoredMsg>, id: nat, d: int, i: nat)
    requires DistinctIds(ms) && i < |ms|
    ensures |Recounted(ms, id, d)| == |ms|
    ensures Recounted(ms, id, d)[i] == if ms[i].dbId == id then ms[i].(refCount := ms[i].refCount + d) else ms[i]
  {
  }

  /** A store without its reference counts. */
  function Bare(ms: seq<StoredMsg>): (r: seq<StoredMsg>)
    ensures |r| == |ms| && forall i :: 0 <= i < |ms| ==> r[i] == ms[i].(refCount := 0)
  {
    seq(|ms|, i requires 0 <= i < |ms| => ms[i].(refCount := 0))
  }

  lemma RecountedIsBare(ms: seq<StoredMsg>, id: nat, d: int)
    ensures Bare(Recounted(ms, id, d)) == Bare(ms)
  {
    var i := FindMessage(ms, id);
    if i < |ms| {
      assert Bare(Recounted(ms, id, d))[i] == Bare(ms)[i];
    }
  }

  lemma BareFind(a: seq<StoredMsg>, b: seq<StoredMsg>, id: nat)
    requires Bare(a) == Bare(b)
    ensures FindMessage(a, id) == FindMessage(b, id)
    ensures var i := FindMessage(a, id); i < |a| ==> a[i].(refCount := 0) == b[i].(refCount := 0)
  {
    forall i | 0 <= i < |a| ensures a[i].dbId == b[i].dbId && a[i].(refCount := 0) == b[i].(refCount := 0) {
      assert Bare(a)[i] == Bare(b)[i];
    }
  }

  lemma BareDistinct(a: seq<StoredMsg>, b: seq<StoredMsg>)
    requires Bare(a) == Bare(b) && DistinctIds(a)
    ensures DistinctIds(b)
  {
    forall i, j | 0 <= i < j < |b| ensures b[i].dbId != b[j].dbId {
      assert Bare(a)[i] == Bare(b)[i] && Bare(a)[j] == Bare(b)[j];
    }
  }

  lemma {:induction false} MsgRefsAppend(qs: seq<QueuedMsg>, q: QueuedMsg, id: nat)
    ensures MsgRefs(qs + [q], id) == MsgRefs(qs, id) + (if q.storeId == id then 1 else 0)
  {
    if qs == [] {
      assert ([] + [q])[1..] == [];
    } else {
      MsgRefsAppend(qs[1..], q, id);
      assert (qs + [q])[1..] == qs[1..] + [q];
    }
  }

  function SlotRefs(c: Option<Context>, id: nat): nat {
    if c.Some? then MsgRefs(c.value.msgs, id) else 0
  }

  lemma {:induction false} EntryRefsPut(cs: seq<Option<Context>>, i: nat, c: Option<Context>, id: nat)
    requires i < |cs|
    ensures EntryRefs(cs[i := c], id) == EntryRefs(cs, id) - SlotRefs(cs[i], id) + SlotRefs(c, id)
  {
    if i == 0 {
      assert cs[0 := c][1..] == cs[1..];
    } else {
      EntryRefsPut(cs[1..], i - 1, c, id);
      assert cs[i := c][1..] == cs[1..][i - 1 := c];
    }
  }

  lemma {:induction false} EntryRefsGrow(cs: seq<Option<Context>>, c: Option<Context>, id: nat)
    ensures EntryRefs(cs + [c], id) == EntryRefs(cs, id) + SlotRefs(c, id)
  {
    if cs == [] {
      assert ([] + [c])[1..] == [];
    } else {
      EntryRefsGrow(cs[1..], c, id);
      assert (cs + [c])[1..] == cs[1..] + [c];
    }
  }

  // ----- the store ----------------------------------------------------------------

  /** A message as it comes back: not counted yet, the id it was sent under forgotten, and
      no longer retained if it is one of the broker's own. */
  function Revived(m: StoredMsg): StoredMsg {
    StoredMsg(m.dbId, m.sourceId, m.sourceMid, 0, m.topic, m.qos, m.retain && !IsSys(m.topic), m.payload, 0)
  }

  /** Each message is put in front of those read before it. */
  function RevivedStore(ms: seq<StoredMsg>): (r: seq<StoredMsg>)
    ensures |r| == |ms|
  {
    if ms == [] then [] else RevivedStore(ms[1..]) + [Revived(ms[0])]
  }

  lemma {:induction false} RevivedAt(ms: seq<StoredMsg>, i: nat)
    requires i < |ms|
    ensures RevivedStore(ms)[|ms| - 1 - i] == Revived(ms[i])
  {
    if i > 0 {
      RevivedAt(ms[1..], i - 1);
    }
  }

  ghost predicate MessageFits(m: StoredMsg) {
    && 0 < m.dbId < Power(8) && m.topic != "" && CText(m.topic) && |m.topic| < 0x1_0000
    && CText(m.sourceId) && |m.sourceId| < 0x1_0000 && |m.payload| < 0x1_0000_0000
  }

  lemma StoreChunkApplied(db: Image, m: StoredMsg)
    requires MessageFits(m)
    ensures ApplyChunk(db, StoreChunk(m)) == Some(db.(store := [Revived(m)] + db.store))
  {
    TextRead(m.topic);
    TextRead(m.sourceId);
  }

  lemma {:induction false} StoreStage(db: Image, ms: seq<StoredMsg>)
    requires forall i :: 0 <= i < |ms| ==> MessageFits(ms[i])
    ensures ApplyChunks(db, StoreChunks(ms)) == Some(db.(store := RevivedStore(ms) + db.store))
    decreases |ms|
  {
    hide Persist.ApplyChunk, StoreChunk, Revived;
    if ms == [] {
      assert [] + db.store == db.store;
    } else {
      StoreChunkApplied(db, ms[0]);
      StoreStage(db.(store := [Revived(ms[0])] + db.store), ms[1..]);
      assert RevivedStore(ms[1..]) + ([Revived(ms[0])] + db.store) == RevivedStore(ms) + db.store;
    }
  }

  // ----- the clients --------------------------------------------------------------

  function Kept(cs: seq<Option<Context>>): seq<Context> {
    if cs == [] then [] else (if Lasting(cs[0]) then [cs[0].value] else []) + Kept(cs[1..])
  }

  /** The table a broker has after it met these clients; it starts with one empty slot. */
  function Slots(ks: seq<Context>): (r: seq<Option<Context>>)
    ensures |r| == if ks == [] then 1 else |ks|
    ensures forall i :: 0 <= i < |ks| ==> r[i] == Some(ks[i])
  {
    if ks == [] then [None] else seq(|ks|, i requires 0 <= i < |ks| => Some(ks[i]))
  }

  ghost predicate DistinctNames(ks: seq<Context>) {
    forall i, j :: 0 <= i < j < |ks| ==> ks[i].id != ks[j].id
  }

  ghost predicate ContextFits(c: Context, store: seq<StoredMsg>) {
    && c.id != "" && CText(c.id) && |c.id| < 0x1_0000 && c.disconnectT < Power(8)
    && forall j :: 0 <= j < |c.msgs| ==> FindMessage(store, c.msgs[j].storeId) < |store|
  }

  /** The client-id index finds these clients in their slots, and nothing else. */
  ghost predicate Indexes(index: map<string, nat>, ks: seq<Context>) {
    && (forall k :: 0 <= k < |ks| ==> ks[k].id in index && index[ks[k].id] == k)
    && forall s :: s in index ==> index[s] < |ks| && ks[index[s]].id == s
  }

  lemma SlotsFind(ks: seq<Context>, i: nat)
    requires DistinctNames(ks) && i < |ks|
    ensures FindContext(Slots(ks), ks[i].id) == i
  {
    assert forall j :: 0 <= j < |ks| ==> Slots(ks)[j] == Some(ks[j]);
  }

  lemma {:induction false} NoFree(cs: seq<Option<Context>>)
    requires forall i :: 0 <= i < |cs| ==> cs[i].Some?
    ensures FirstFree(cs) == |cs|
  {
    if cs != [] {
      NoFree(cs[1..]);
    }
  }

  /** A client the table does not know takes the first empty slot. */
  lemma SlotsGrow(ks: seq<Context>, c: Context)
    requires DistinctNames(ks + [c])
    ensures WithContext(Slots(ks), c.id) == Slots(ks + [Context(c.id, false, 0, 0, [])])
  {
    var more := ks + [c];
    var blank := Context(c.id, false, 0, 0, []);
    forall i | 0 <= i < |ks| ensures Slots(ks)[i].value.id != c.id {
      assert more[i] == ks[i] && more[|ks|] == c;
    }
    if ks == [] {
      assert Slots(ks)[0 := Some(blank)] == Slots(ks + [blank]);
    } else {
      NoFree(Slots(ks));
      assert Slots(ks) + [Some(blank)] == Slots(ks + [blank]);
    }
  }

  lemma SlotsPut(ks: seq<Context>, i: nat, c: Context)
    requires i < |ks|
    ensures Slots(ks)[i := Some(c)] == Slots(ks[i := c])
  {
  }

  /** The parts of the data a client chunk leaves alone. */
  ghost predicate SameButContexts(a: Image, b: Image) {
    b.lastDbId == a.lastDbId && b.subs == a.subs && Bare(b.store) == Bare(a.store)
  }

  /** One queued message comes back at the end of its client's queue, and is counted. */
  lemma MsgApplied(db: Image, ks: seq<Context>, k: nat, q: QueuedMsg)
    requires db.contexts == Slots(ks) && DistinctNames(ks) && k < |ks| && ks[k].id != "" && CText(ks[k].id)
    requires DistinctIds(db.store) && RefsExact(db) && FindMessage(db.store, q.storeId) < |db.store|
    ensures var o := ApplyChunk(db, MsgChunk(ks[k].id, q));
      && o.Some? && SameButContexts(db, o.value) && RefsExact(o.value) && o.value.index == db.index
      && o.value.contexts == Slots(ks[k := ks[k].(msgs := ks[k].msgs + [q])])
  {
    TextRead(ks[k].id);
    SlotsFind(ks, k);
    var c := ks[k].(msgs := ks[k].msgs + [q]);
    SlotsPut(ks, k, c);
    RecountedIsBare(db.store, q.storeId, 1);
    var r := PutMsg(db, ks[k].id, q).value;
    forall i | 0 <= i < |r.store|
      ensures r.store[i].refCount ==
        EntryRefs(r.contexts, r.store[i].dbId) + RetCount(r.subs.root, Some(r.store[i].dbId))
    {
      var id := db.store[i].dbId;
      RecountedAt(db.store, q.storeId, 1, i);
      EntryRefsPut(db.contexts, k, Some(c), id);
      MsgRefsAppend(ks[k].msgs, q, id);
    }
  }

  lemma StillFound(a: seq<StoredMsg>, b: seq<StoredMsg>, qs: seq<QueuedMsg>)
    requires Bare(a) == Bare(b) && forall j :: 0 <= j < |qs| ==> FindMessage(a, qs[j].storeId) < |a|
    ensures forall j :: 0 <= j < |qs| ==> FindMessage(b, qs[j].storeId) < |b|
  {
    forall j | 0 <= j < |qs| ensures FindMessage(b, qs[j].storeId) < |b| {
      BareFind(a, b, qs[j].storeId);
    }
  }

  lemma {:induction false} MsgStage(db: Image, ks: seq<Context>, k: nat, qs: seq<QueuedMsg>)
    requires db.contexts == Slots(ks) && DistinctNames(ks) && k < |ks| && ks[k].id != "" && CText(ks[k].id)
    requires DistinctIds(db.store) && RefsExact(db)
    requires forall j :: 0 <= j < |qs| ==> FindMessage(db.store, qs[j].storeId) < |db.store|
    ensures var o := ApplyChunks(db, MsgChunks(ks[k].id, qs));
      && o.Some? && SameButContexts(db, o.value) && RefsExact(o.value) && o.value.index == db.index
      && o.value.contexts == Slots(ks[k := ks[k].(msgs := ks[k].msgs + qs)])
    decreases |qs|
  {
    hide Persist.ApplyChunk, RefsExact, FindMessage;
    if qs == [] {
      assert ks[k].msgs + [] == ks[k].msgs;
      assert ks[k := ks[k]] == ks;
    } else {
      var q, next := qs[0], ks[k].(msgs := ks[k].msgs + [qs[0]]);
      MsgApplied(db, ks, k, q);
      var d := ApplyChunk(db, MsgChunks(ks[k].id, qs)[0]).value;
      BareDistinct(db.store, d.store);
      StillFound(db.store, d.store, qs);
      MsgStage(d, ks[k := next], k, qs[1..]);
      assert ks[k].msgs + [q] + qs[1..] == ks[k].msgs + qs;
      assert ks[k := next][k := next.(msgs := next.msgs + qs[1..])] == ks[k := ks[k].(msgs := ks[k].msgs + qs)];
    }
  }

  /** A lasting client comes back with its queue in order. */
  lemma ContextStage(db: Image, ks: seq<Context>, c: Context)
    requires db.contexts == Slots(ks) && DistinctNames(ks + [c]) && !c.cleanSession
    requires DistinctIds(db.store) && RefsExact(db) && ContextFits(c, db.store) && Indexes(db.index, ks)
    ensures var o := ApplyChunks(db, ContextChunks(c));
      && o.Some? && SameButContexts(db, o.value) && RefsExact(o.value)
      && o.value.contexts == Slots(ks + [c]) && Indexes(o.value.index, ks + [c])
  {
    hide EntryRefs, MsgRefs, RetCount, FindMessage, Slots, MsgChunks, Indexes;
    TextRead(c.id);
    SlotsGrow(ks, c);
    var empty, k := c.(msgs := []), |ks|;
    var found := ks + [Context(c.id, false, 0, 0, [])];
    var more := ks + [empty];
    assert DistinctNames(found) && DistinctNames(more) by {
      assert forall i :: 0 <= i < |found| ==> found[i].id == (ks + [c])[i].id == more[i].id;
    }
    SlotsFind(found, k);
    assert found[k := empty] == more;
    SlotsPut(found, k, empty);
    var d := ApplyChunk(db, Client(Bytes(c.id), c.lastMid, c.disconnectT)).value;
    assert d.contexts == Slots(more) && d.index == db.index[c.id := k];
    IndexGrows(db.index, ks, c);
    forall i | 0 <= i < |d.store|
      ensures EntryRefs(d.contexts, d.store[i].dbId) == EntryRefs(db.contexts, d.store[i].dbId)
    {
      SlotsRefs(ks, empty, d.store[i].dbId);
    }
    MsgStage(d, more, k, c.msgs);
    assert more[k].msgs + c.msgs == c.msgs;
    assert more[k := c] == ks + [c];
    assert ContextChunks(c)[1..] == MsgChunks(c.id, c.msgs);
  }

  lemma IndexGrows(index: map<string, nat>, ks: seq<Context>, c: Context)
    requires Indexes(index, ks) && DistinctNames(ks + [c])
    ensures Indexes(index[c.id := |ks|], ks + [c])
  {
    var more := ks + [c];
    forall i | 0 <= i < |ks| ensures more[i].id != c.id {
      assert more[|ks|] == c;
    }
  }

  lemma SlotsRefs(ks: seq<Context>, empty: Context, id: nat)
    requires empty.msgs == []
    ensures EntryRefs(Slots(ks + [empty]), id) == EntryRefs(Slots(ks), id)
  {
    if ks == [] {
      assert Slots(ks + [empty]) == [Some(empty)];
      assert [Some(empty)][1..] == [] && Slots(ks)[1..] == [];
    } else {
      assert Slots(ks + [empty]) == Slots(ks) + [Some(empty)];
      EntryRefsGrow(Slots(ks), Some(empty), id);
    }
  }

  lemma {:induction false} ClientStage(db: Image, ks: seq<Context>, cs: seq<Option<Context>>)
    requires db.contexts == Slots(ks) && DistinctNames(ks + Kept(cs)) && DistinctIds(db.store) && RefsExact(db)
    requires Indexes(db.index, ks)
    requires forall i :: 0 <= i < |cs| && Lasting(cs[i]) ==> ContextFits(cs[i].value, db.store)
    ensures var o := ApplyChunks(db, ClientChunks(cs));
      && o.Some? && SameButContexts(db, o.value) && RefsExact(o.value)
      && o.value.contexts == Slots(ks + Kept(cs)) && Indexes(o.value.index, ks + Kept(cs))
    decreases |cs|
  {
    hide Indexes, RefsExact, ContextChunks, Slots;
    if cs == [] {
      assert ks + [] == ks;
    } else if !Lasting(cs[0]) {
      assert [] + ClientChunks(cs[1..]) == ClientChunks(cs[1..]);
      assert [] + Kept(cs[1..]) == Kept(cs[1..]);
      ClientStage(db, ks, cs[1..]);
    } else {
      var c := cs[0].value;
      assert ks + Kept(cs) == ks + [c] + Kept(cs[1..]);
      assert DistinctNames(ks + [c]) by {
        assert forall i :: 0 <= i < |ks + [c]| ==> (ks + [c])[i] == (ks + Kept(cs))[i];
      }
      ContextStage(db, ks, c);
      var d := ApplyChunks(db, ContextChunks(c)).value;
      BareDistinct(db.store, d.store);
      forall i | 0 <= i < |cs[1..]| && Lasting(cs[1..][i]) ensures ContextFits(cs[1..][i].value, d.store) {
        StillFound(db.store, d.store, cs[i + 1].value.msgs);
      }
      ClientStage(d, ks + [c], cs[1..]);
      ApplyChunksAppend(db, ContextChunks(c), ClientChunks(cs[1..]));
    }
  }
}

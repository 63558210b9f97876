/** The restore theorem for the broker's runs: the data that a run leaves can be written, and
    come back. */
module PersistRuns {
  import opened Options
  import opened Topics
  import opened SubTree
  import Wire
  import PersistFormat
  import Persist
  import PersistLaws
  import PersistTree
  import PersistTheorem
  import PersistNames
  import opened Queues
  import opened Broker
  import opened BrokerLaws
  import opened BrokerRuns
  import opened BrokerEdges
  import opened Delivery
  import opened DeliveryRuns
  import opened RunData
  import opened Rules

  // ----- the broker's data, as the file sees them -------------------------------------------

  /** What the file is told of a stored message. */
  ghost predicate ShowsMessage(b: Db, m: Persist.StoredMsg) {
    && m.dbId in b.store && b.store[m.dbId].topic == Some(m.topic)
    && m.retain == b.store[m.dbId].retain && (m.payload == [] <==> b.store[m.dbId].empty)
  }

  /** The numbers of `enum mosquitto_msg_state`. */
  function StateNumber(s: State): nat {
    match s
    case PublishQos0 => 1
    case PublishQos1 => 2
    case WaitForPuback => 3
    case PublishQos2 => 4
    case WaitForPubrec => 5
    case ResendPubrel => 6
    case WaitForPubrel => 7
    case ResendPubcomp => 8
    case WaitForPubcomp => 9
    case SendPubrec => 10
    case Queued => 11
  }

  /** What the file is told of a queue entry. */
  ghost predicate ShowsEntry(e: Entry, q: Persist.QueuedMsg) {
    && q.storeId == e.store && q.mid == e.mid && q.qos == e.qos && q.retain == Wire.Bit(e.retain)
    && q.direction == (if e.dir == In then 0 else 1) && q.state == StateNumber(e.state) && q.dup == Wire.Bit(e.dup)
  }

  /** What the file is told of a client. */
  ghost predicate ShowsClient(cl: Client, x: Persist.Context) {
    && x.id == cl.id && x.lastMid == cl.lastMid && |x.msgs| == |cl.msgs|
    && forall j :: 0 <= j < |cl.msgs| ==> ShowsEntry(cl.msgs[j], x.msgs[j])
  }

  /** The image holds the broker's messages, each once. Payloads, sources and times are the
      image's own. Each stored message has a topic: one that was refused cannot be written. */
  ghost predicate ShowsStore(b: Db, ms: seq<Persist.StoredMsg>) {
    && (forall i :: 0 <= i < |ms| ==> ShowsMessage(b, ms[i])) && PersistLaws.DistinctIds(ms)
    && forall sid :: sid in b.store ==> Persist.FindMessage(ms, sid) < |ms|
  }

  /** The image holds clients of the broker, none twice; `at` tells which one each slot of the
      table is for. */
  ghost predicate ShowsClients(b: Db, cs: seq<Option<Persist.Context>>, at: seq<Option<nat>>) {
    && |at| == |cs|
    && (forall k :: 0 <= k < |cs| ==> (cs[k].Some? <==> at[k].Some?))
    && (forall k :: 0 <= k < |cs| && cs[k].Some? ==>
          at[k].value < |b.clients| && ShowsClient(b.clients[at[k].value], cs[k].value))
    && forall j, k :: 0 <= j < k < |cs| && at[j].Some? ==> at[j] != at[k]
  }

  ghost predicate Shows(b: Db, db: Persist.Image, at: seq<Option<nat>>) {
    && db.subs == b.subs && db.lastDbId == b.lastDbId
    && ShowsStore(b, db.store) && ShowsClients(b, db.contexts, at)
  }

  /** Names and sizes that the fields of the file can hold. */
  ghost predicate Fits(db: Persist.Image) {
    && db.lastDbId < PersistFormat.Power(8)
    && (forall i :: 0 <= i < |db.store| ==> PersistLaws.MessageFits(db.store[i]))
    && (forall k :: 0 <= k < |db.contexts| && Persist.Lasting(db.contexts[k]) ==> FitsClient(db.contexts[k].value))
    && forall p, c :: SubOf(db.subs, p, c).Some? && Persist.LastingId(db.contexts, c) ==> FitsFilter(p)
  }

  ghost predicate FitsClient(x: Persist.Context) {
    x.id != "" && Persist.CText(x.id) && |x.id| < 0x1_0000 && x.disconnectT < PersistFormat.Power(8)
  }

  ghost predicate FitsFilter(p: Levels) {
    && p != [] && PersistTheorem.FilterOf(p) != ""
    && Persist.CText(PersistTree.SavedName(p)) && |PersistTree.SavedName(p)| < 0x1_0000
  }

  // ----- what a run gives -------------------------------------------------------------------

  lemma FilterOfTokens(f: string)
    ensures PersistTheorem.FilterOf(Tokens(f)) == f
  {
    JoinOfSplit(f);
    var p := Tokens(f);
    if InDollarTree(f) {
      assert p == Split(f);
      FirstLevelNotEmpty(f);
    } else {
      assert p[1..] == Split(f);
    }
  }

  lemma FirstLevelNotEmpty(f: string)
    requires InDollarTree(f)
    ensures Split(f)[0] != ""
  {
  }

  lemma {:induction false} KeptIn(cs: seq<Option<Persist.Context>>, x: Persist.Context) returns (i: nat)
    requires x in PersistLaws.Kept(cs)
    ensures i < |cs| && cs[i] == Some(x)
  {
    if Persist.Lasting(cs[0]) && cs[0].value == x {
      i := 0;
    } else {
      i := KeptIn(cs[1..], x);
      i := i + 1;
    }
  }

  ghost predicate DistinctSlots(cs: seq<Option<Persist.Context>>) {
    forall j, k :: 0 <= j < k < |cs| && cs[j].Some? && cs[k].Some? ==> cs[j].value.id != cs[k].value.id
  }

  lemma {:induction false} KeptDistinct(cs: seq<Option<Persist.Context>>)
    requires DistinctSlots(cs)
    ensures PersistLaws.DistinctNames(PersistLaws.Kept(cs))
  {
    if cs != [] {
      var ks := PersistLaws.Kept(cs[1..]);
      assert forall k :: 0 <= k < |cs[1..]| ==> cs[1..][k] == cs[k + 1];
      KeptDistinct(cs[1..]);
      if Persist.Lasting(cs[0]) {
        forall k | 0 <= k < |ks| ensures ks[k].id != cs[0].value.id {
          var i := KeptIn(cs[1..], ks[k]);
          assert cs[i + 1] == Some(ks[k]);
        }
      }
    }
  }

  lemma SlotsDistinct(b: Db, cs: seq<Option<Persist.Context>>, at: seq<Option<nat>>)
    requires ShowsClients(b, cs, at) && DistinctClientIds(b.clients)
    ensures DistinctSlots(cs)
  {
    forall j, k | 0 <= j < k < |cs| && cs[j].Some? && cs[k].Some? ensures cs[j].value.id != cs[k].value.id {
      assert at[j] != at[k];
    }
  }

  /** The entries of a client are stored. */
  lemma ClientFits(b: Db, db: Persist.Image, at: seq<Option<nat>>, k: nat)
    requires Inv(b) && Shows(b, db, at) && k < |db.contexts| && db.contexts[k].Some? && FitsClient(db.contexts[k].value)
    ensures PersistLaws.ContextFits(db.contexts[k].value, db.store)
  {
    hide Inv;
    var x, c := db.contexts[k].value, at[k].value;
    assert ShowsClient(b.clients[c], x);
    forall j | 0 <= j < |x.msgs| ensures Persist.FindMessage(db.store, x.msgs[j].storeId) < |db.store| {
      EntryIsStored(b, c, j);
    }
  }

  lemma RetainedHeld(b: Db, db: Persist.Image, at: seq<Option<nat>>, p: Levels)
    requires DataOk(b) && Shows(b, db, at) && RetOf(b.subs, p).Some?
    ensures PersistTheorem.Held(db, p, RetOf(b.subs, p).value)
  {
    hide RetOf;
    var sid := RetOf(b.subs, p).value;
    assert Stands(b.store[sid], p);
    assert ShowsMessage(b, db.store[Persist.FindMessage(db.store, sid)]);
  }

  lemma FilterIsGood(b: Db, p: Levels, c: string)
    requires DataOk(b) && SubOf(b.subs, p, c).Some? && FitsFilter(p)
    ensures PersistTheorem.GoodName(p)
  {
    hide SubOf;
    var f :| Checked(f, p);
    FilterOfTokens(f);
  }

  /** Whatever the run: if names and sizes fit, the data it leaves are as the restore theorem
      wants them. */
  lemma RunIsWritable(cfg: Config, evs: seq<Event>, b: Db, db: Persist.Image, at: seq<Option<nat>>)
    requires After(cfg, evs, b) && Shows(b, db, at) && Fits(db)
    ensures PersistTheorem.Writable(db)
  {
    RunDataOk(cfg, evs, b);
    IdsDistinct(cfg, evs, b);
    TreeIsValid(b);
    hide Play, Inv, Valid, DataOk, SubOf, RetOf, PersistTheorem.Held, PersistTheorem.GoodName, FitsFilter, FitsClient;
    SlotsDistinct(b, db.contexts, at);
    KeptDistinct(db.contexts);
    forall k | 0 <= k < |db.contexts| && Persist.Lasting(db.contexts[k])
      ensures PersistLaws.ContextFits(db.contexts[k].value, db.store)
    {
      ClientFits(b, db, at, k);
    }
    forall p, c | SubOf(db.subs, p, c).Some? && Persist.LastingId(db.contexts, c) ensures PersistTheorem.GoodName(p) {
      FilterIsGood(b, p, c);
    }
    forall p | RetOf(db.subs, p).Some? ensures PersistTheorem.Held(db, p, RetOf(db.subs, p).value) {
      RetainedHeld(b, db, at, p);
    }
  }

  /** A broker that is stopped after any run and started again has its lasting subscriptions
      exactly when none of their filters starts with '/' or '$'; and then all its lasting data
      are back. */
  lemma RestartAfterRun(
    cfg: Config, evs: seq<Event>, b: Db, db: Persist.Image, at: seq<Option<nat>>, shutdown: bool, now: nat)
    requires After(cfg, evs, b) && Shows(b, db, at) && Fits(db)
    ensures var o := Persist.Restore(PersistFormat.FileBytes(Persist.Backup(db, shutdown)), now);
      && o.Some?
      && (PersistNames.Unchanged(db, o.value) <==> PersistTheorem.AllKeepNames(db))
      && (PersistTheorem.AllKeepNames(db) ==> PersistTheorem.Restored(db, o.value))
  {
    hide Play, Inv, Shows, Fits, PersistTheorem.Writable, PersistTheorem.Restored, PersistNames.Unchanged;
    hide PersistTheorem.AllKeepNames, PersistFormat.FileBytes, Persist.Backup;
    RunIsWritable(cfg, evs, b, db, at);
    PersistNames.RestartKeepsFilters(db, shutdown, now);
    if PersistTheorem.AllKeepNames(db) {
      PersistTheorem.BackupRestores(db, shutdown, now);
    }
  }

  // ----- picking the queues up again ----------------------------------------------------------

  /** Client `n` is the restored context: its entries are linked and the tail pointer is set,
      but its counters still stand at 0. */
  ghost predicate Loaded(n: Client, x: Persist.Context) {
    ShowsClient(n, x) && n.msgCount == 0 && n.msgCount12 == 0 && n.lastMsg == LastUid(n.msgs)
  }

  /** The same entry, at another address and with no record of what was sent. */
  ghost predicate SameOnWire(a: Entry, b: Entry) {
    a.(uid := b.uid, history := b.history) == b
  }

  /** The same queue, to be written with the same packets. */
  ghost predicate SameQueue(a: Client, b: Client) {
    && a.id == b.id && a.lastMid == b.lastMid && a.msgCount == b.msgCount && a.msgCount12 == b.msgCount12
    && |a.msgs| == |b.msgs| && forall k :: 0 <= k < |a.msgs| ==> SameOnWire(a.msgs[k], b.msgs[k])
  }

  lemma ShownSame(a: Entry, b: Entry, q: Persist.QueuedMsg)
    requires ShowsEntry(a, q) && ShowsEntry(b, q)
    ensures SameOnWire(a, b)
  {
  }

  lemma ReconnectSameOnWire(a: Entry, b: Entry, k: nat, n: nat)
    requires SameOnWire(a, b)
    ensures SameOnWire(ReconnectEntry(a, k, n), ReconnectEntry(b, k, n))
  {
    hide Restarted;
    RestartedSameOnWire(a, b);
  }

  lemma RestartedSameOnWire(a: Entry, b: Entry)
    requires SameOnWire(a, b)
    ensures SameOnWire(Restarted(a), Restarted(b))
  {
  }

  lemma {:induction false} SameTally(a: seq<Entry>, b: seq<Entry>)
    requires |a| == |b| && forall k :: 0 <= k < |a| ==> a[k].qos == b[k].qos
    ensures Tally(a, Qos12()) == Tally(b, Qos12())
  {
    if a != [] {
      assert forall k :: 0 <= k < |a[1..]| ==> a[1..][k] == a[k + 1] && b[1..][k] == b[k + 1];
      SameTally(a[1..], b[1..]);
    }
  }

  /** The counters as they would be, had they been kept. */
  function Counts(n: Client): Client {
    n.(msgCount := |n.msgs|, msgCount12 := Tally(n.msgs, Qos12()))
  }

  /** The reset starts from counters at 0, so it is the same whether they were kept or not. */
  lemma LoadedReset(b: Db, c: nat, x: Persist.Context)
    requires c < |b.clients| && Loaded(b.clients[c], x)
    ensures CountsOk(Counts(b.clients[c]))
    ensures ReconnectReset(b, c) == ReconnectReset(PutClient(b, c, Counts(b.clients[c])), c)
  {
    var cl := b.clients[c];
    assert b.clients[c := Counts(cl)][c := cl] == b.clients[c := cl];
  }

  /** Two clients with the same queue have the same queue after a reconnect. */
  lemma SameAfterReconnect(b: Db, c: nat, b2: Db, c2: nat)
    requires c < |b.clients| && CountsOk(b.clients[c]) && InboundQos2(b.clients[c]) && b.cfg == b2.cfg
    requires c2 < |b2.clients| && CountsOk(b2.clients[c2]) && SameQueue(b2.clients[c2], b.clients[c])
    ensures SameQueue(ReconnectReset(b2, c2).clients[c2], ReconnectReset(b, c).clients[c])
    ensures InboundQos2(b2.clients[c2])
  {
    hide ReconnectReset, ReconnectEntry, CountsOk;
    var cl, cl2 := b.clients[c], b2.clients[c2];
    forall e | e in cl2.msgs && e.dir == In ensures e.qos == 2 {
      var k :| 0 <= k < |cl2.msgs| && cl2.msgs[k] == e;
      assert cl.msgs[k] in cl.msgs;
    }
    ReconnectList(b, c);
    ReconnectList(b2, c2);
    var r, r2 := ReconnectReset(b, c).clients[c], ReconnectReset(b2, c2).clients[c2];
    forall k | 0 <= k < |r2.msgs| ensures SameOnWire(r2.msgs[k], r.msgs[k]) {
      ReconnectSameOnWire(cl2.msgs[k], cl.msgs[k], k, b.cfg.maxInflight);
    }
  }

  lemma ResetKeepsCounts(b: Db, c: nat)
    requires c < |b.clients| && CountsOk(b.clients[c]) && InboundQos2(b.clients[c])
    ensures CountsOk(ReconnectReset(b, c).clients[c])
  {
    hide ReconnectReset, ReconnectEntry;
    var cl, r := b.clients[c], ReconnectReset(b, c).clients[c];
    ReconnectList(b, c);
    forall k | 0 <= k < |cl.msgs| ensures SameEntry(cl.msgs[k], r.msgs[k]) {
      ReconnectSame(cl.msgs[k], k, b.cfg.maxInflight);
    }
    SameTally(cl.msgs, r.msgs);
  }

  /** Where the restore puts a lasting client: it is found under its id, as it was saved. */
  lemma ContextReturns(db: Persist.Image, shutdown: bool, now: nat, k: nat)
    requires PersistTheorem.Writable(db) && k < |db.contexts| && Persist.Lasting(db.contexts[k])
    ensures var o := Persist.Restore(PersistFormat.FileBytes(Persist.Backup(db, shutdown)), now);
      && o.Some? && FoundAs(o.value, db.contexts[k].value)
  {
    PersistNames.RestartRenames(db, shutdown, now);
    PersistTheorem.KeptHas(db.contexts, k);
  }

  /** The client is found under its id, and is this context. */
  ghost predicate FoundAs(r: Persist.Image, x: Persist.Context) {
    x.id in r.index && r.index[x.id] < |r.contexts| && r.contexts[r.index[x.id]] == Some(x)
  }

  /** A client whose session was restored and that connects again is where it would be, had
      the broker never stopped and had the client just come back: the same entries in the same
      order and the same states, right counters, the same last packet id. */
  lemma ResumesWhereItStood(
    cfg: Config, evs: seq<Event>, b: Db, db: Persist.Image, at: seq<Option<nat>>, shutdown: bool, now: nat, k: nat,
    b2: Db, c2: nat)
    requires After(cfg, evs, b) && Shows(b, db, at) && Fits(db)
    requires k < |db.contexts| && Persist.Lasting(db.contexts[k]) && c2 < |b2.clients| && b2.cfg == cfg
    ensures var o := Persist.Restore(PersistFormat.FileBytes(Persist.Backup(db, shutdown)), now);
      var x := db.contexts[k].value;
      && o.Some? && FoundAs(o.value, x) && at[k].Some? && at[k].value < |b.clients|
      && (Loaded(b2.clients[c2], x) ==>
            && SameQueue(ReconnectReset(b2, c2).clients[c2], ReconnectReset(b, at[k].value).clients[at[k].value])
            && CountsOk(ReconnectReset(b2, c2).clients[c2]))
  {
    RunIsWritable(cfg, evs, b, db, at);
    var x, c := db.contexts[k].value, at[k].value;
    hide PersistTheorem.Writable, FoundAs, PersistFormat.FileBytes, Persist.Backup, Fits;
    ContextReturns(db, shutdown, now, k);
    if Loaded(b2.clients[c2], x) {
      RunCounts(cfg, evs, b, c);
      LoadedResumes(b, c, b2, c2, x);
    }
  }

  lemma RunCounts(cfg: Config, evs: seq<Event>, b: Db, c: nat)
    requires After(cfg, evs, b) && c < |b.clients|
    ensures b.cfg == cfg && CountsOk(b.clients[c]) && InboundQos2(b.clients[c])
  {
    CountersAgree(cfg, evs, b, c);
  }

  lemma LoadedResumes(b: Db, c: nat, b2: Db, c2: nat, x: Persist.Context)
    requires c < |b.clients| && CountsOk(b.clients[c]) && InboundQos2(b.clients[c]) && b.cfg == b2.cfg
    requires c2 < |b2.clients| && Loaded(b2.clients[c2], x) && ShowsClient(b.clients[c], x)
    ensures SameQueue(ReconnectReset(b2, c2).clients[c2], ReconnectReset(b, c).clients[c])
    ensures CountsOk(ReconnectReset(b2, c2).clients[c2])
  {
    var cl, n := b.clients[c], Counts(b2.clients[c2]);
    var b3 := PutClient(b2, c2, n);
    LoadedReset(b2, c2, x);
    forall k | 0 <= k < |n.msgs| ensures SameOnWire(n.msgs[k], cl.msgs[k]) {
      ShownSame(n.msgs[k], cl.msgs[k], x.msgs[k]);
    }
    SameTally(n.msgs, cl.msgs);
    assert SameQueue(n, cl);
    hide ReconnectReset, CountsOk;
    SameAfterReconnect(b, c, b3, c2);
    ResetKeepsCounts(b3, c2);
  }
}

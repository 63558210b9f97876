/** The broker's data (`struct mosquitto_db`) as a value, and what each entry point of
    database.c and of the packet handlers does to it. */
module Broker {
  import opened Options
  import opened Topics
  import opened Hierarchy
  import opened SubTree
  import opened Queues

  datatype Config = Config(maxInflight: nat, maxQueued: nat, allowDuplicates: bool, queueQos0: bool, upgradeQos: bool)

  /** `struct mosquitto_msg_store`. `topic` is `None` for a message that was refused but
      is seen through its handshake. The fields from `accepted` on are kept by the model
      only: how often the message entered an inbound queue, was handed to the tree, was
      lost with its session, or ended its handshake refused; and for which clients a
      non-retained outbound entry was made. */
  datatype Stored = Stored(refCount: int, sourceMid: nat, topic: Option<string>, qos: Qos, retain: bool, empty: bool,
                           destIds: seq<string>,
                           accepted: nat, routed: nat, swept: nat, denied: nat, inserted: seq<string>)

  datatype Db = Db(cfg: Config, clients: seq<Client>, store: map<nat, Stored>, lastDbId: nat, nextUid: nat, subs: Subs)

  datatype Access = Granted | Refused | Failed

  /** `mosquitto_acl_check` for reading: client id and topic. */
  type Acl = (string, string) -> Access

  // ----- small edits ----------------------------------------------------------

  function Ref(store: map<nat, Stored>, sid: nat, d: int): map<nat, Stored> {
    if sid in store then store[sid := store[sid].(refCount := store[sid].refCount + d)] else store
  }

  function PutClient(b: Db, c: nat, cl: Client): Db
    requires c < |b.clients|
  {
    b.(clients := b.clients[c := cl])
  }

  /** `_message_remove` */
  function Drop(b: Db, c: nat, i: nat): (r: Db)
    requires c < |b.clients| && i < |b.clients[c].msgs|
    ensures r.cfg == b.cfg && |r.clients| == |b.clients|
  {
    PutClient(b, c, DropMsg(b.clients[c], i)).(store := Ref(b.store, b.clients[c].msgs[i].store, -1))
  }

  function Edit(b: Db, c: nat, i: nat, e: Entry): (r: Db)
    requires c < |b.clients| && i < |b.clients[c].msgs|
    ensures r.cfg == b.cfg && |r.clients| == |b.clients|
  {
    PutClient(b, c, EditMsg(b.clients[c], i, e))
  }

  // ----- insert ---------------------------------------------------------------

  datatype Placement = Place(state: State, rc: nat) | Reject(rc: nat)

  function Placed(cfg: Config, cl: Client, dir: Dir, qos: Qos): Placement {
    if cl.connected then
      if qos == 0 || cfg.maxInflight == 0 || cl.msgCount12 < cfg.maxInflight then
        if dir == Out then Place(ToSend(qos), 0)
        else if qos == 2 then Place(WaitForPubrel, 0)
        else Reject(1)
      else if cfg.maxQueued == 0 || cl.msgCount12 - cfg.maxInflight < cfg.maxQueued then Place(Queued, 2)
      else Reject(2)
    else if cfg.maxQueued > 0 && cl.msgCount12 >= cfg.maxQueued then Reject(2)
    else Place(Queued, 0)
  }

  /** The message was already inserted for this client and duplicates are not wanted. */
  predicate SeenBefore(b: Db, c: nat, dir: Dir, retain: bool, sid: nat)
    requires c < |b.clients| && sid in b.store
  {
    !b.cfg.allowDuplicates && dir == Out && !retain && b.clients[c].id in b.store[sid].destIds
  }

  function NewEntry(b: Db, sid: nat, mid: nat, dir: Dir, qos: Qos, retain: bool, state: State): Entry {
    Entry(b.nextUid, sid, mid, qos, retain, dir, state, false, [])
  }

  /** The stored message after an entry for client `id` was linked. */
  function Noted(s: Stored, cfg: Config, dir: Dir, retain: bool, id: string): Stored {
    if dir == In then s.(refCount := s.refCount + 1, accepted := s.accepted + 1)
    else if retain then s.(refCount := s.refCount + 1)
    else s.(refCount := s.refCount + 1, inserted := s.inserted + [id],
            destIds := if cfg.allowDuplicates then s.destIds else s.destIds + [id])
  }

  function Link(b: Db, c: nat, sid: nat, e: Entry): (r: Db)
    requires c < |b.clients| && sid in b.store
    ensures r.cfg == b.cfg && |r.clients| == |b.clients|
  {
    PutClient(b, c, AppendMsg(b.clients[c], e)).(
      nextUid := b.nextUid + 1,
      store := b.store[sid := Noted(b.store[sid], b.cfg, e.dir, e.retain, b.clients[c].id)])
  }

  /** `mqtt3_db_message_insert`, with the code it returns. */
  function Insert(b: Db, c: nat, mid: nat, dir: Dir, qos: Qos, retain: bool, sid: nat): (r: (Db, nat))
    requires c < |b.clients| && sid in b.store
    ensures r.0.cfg == b.cfg && |r.0.clients| == |b.clients|
  {
    if SeenBefore(b, c, dir, retain, sid) then (b, 0)
    else if !b.clients[c].connected && qos == 0 && !b.cfg.queueQos0 then (b, 2)
    else match Placed(b.cfg, b.clients[c], dir, qos)
      case Reject(rc) => (b, rc)
      case Place(state, rc) => (Link(b, c, sid, NewEntry(b, sid, mid, dir, qos, retain, state)), rc)
  }

  // ----- routing to subscribers -------------------------------------------------

  /** `_mosquitto_mid_generate`: 16 bits, never zero. */
  function NextMid(last: nat): (mid: nat)
    ensures 0 < mid < 0x1_0000
  {
    var m := (last + 1) % 0x1_0000;
    if m == 0 then 1 else m
  }

  function FindClientFrom(cs: seq<Client>, id: string, from: nat): (c: nat)
    requires from <= |cs|
    ensures from <= c <= |cs| && (c < |cs| ==> cs[c].id == id)
    ensures forall j :: from <= j < c ==> cs[j].id != id
    decreases |cs| - from
  {
    if from == |cs| || cs[from].id == id then from else FindClientFrom(cs, id, from + 1)
  }

  /** The context a leaf points at. */
  function FindClient(cs: seq<Client>, id: string): (c: nat)
    ensures c <= |cs| && (c < |cs| ==> cs[c].id == id)
  {
    FindClientFrom(cs, id, 0)
  }

  function Min(a: Qos, b: Qos): Qos {
    if a > b then b else a
  }

  /** One outbound message for client `c`; a packet id is drawn for QoS above 0. */
  function Send(b: Db, c: nat, qos: Qos, retain: bool, sid: nat): (r: Db)
    requires c < |b.clients| && sid in b.store
    ensures r.cfg == b.cfg && |r.clients| == |b.clients|
  {
    if qos > 0 then
      var mid := NextMid(b.clients[c].lastMid);
      Insert(PutClient(b, c, b.clients[c].(lastMid := mid)), c, mid, Out, qos, retain, sid).0
    else Insert(b, c, 0, Out, qos, retain, sid).0
  }

  /** The loop of `_subs_process` over the leaves of one node. */
  function SendToLeaves(b: Db, ls: seq<Leaf>, topic: string, qos: Qos, sid: nat, acl: Acl): (r: Db)
    requires sid in b.store
    ensures r.cfg == b.cfg && |r.clients| == |b.clients| && sid in r.store
    decreases |ls|
  {
    if ls == [] then b
    else
      var l := ls[0];
      match acl(l.client, topic)
      case Failed => b
      case Refused => SendToLeaves(b, ls[1..], topic, qos, sid, acl)
      case Granted =>
        var c := FindClient(b.clients, l.client);
        var q := if b.cfg.upgradeQos then l.qos else Min(qos, l.qos);
        SendToLeaves(if c < |b.clients| then Send(b, c, q, false, sid) else b, ls[1..], topic, qos, sid, acl)
  }

  function SendToStops(b: Db, vs: seq<At<Stop>>, topic: string, qos: Qos, sid: nat, acl: Acl): (r: Db)
    requires sid in b.store
    ensures r.cfg == b.cfg && |r.clients| == |b.clients| && sid in r.store
    decreases |vs|
  {
    if vs == [] then b
    else SendToStops(SendToLeaves(b, vs[0].item.leaves, topic, qos, sid, acl), vs[1..], topic, qos, sid, acl)
  }

  /** The retain part: the message kept at the topic's node changes hands. */
  function Keep(b: Db, topic: string, m: Option<nat>): (r: Db)
    ensures r.cfg == b.cfg && r.clients == b.clients && r.store.Keys == b.store.Keys
  {
    if !HasTop(b.subs, Tokens(topic)[0]) then b
    else
      var was := RetOf(b.subs, Tokens(topic));
      var store1 := if was.Some? then Ref(b.store, was.value, -1) else b.store;
      b.(subs := RetainPublish(b.subs, topic, m),
         store := if m.Some? then Ref(store1, m.value, 1) else store1)
  }

  /** The tree's and the subscribers' part of `mqtt3_db_messages_queue`. */
  function Distribute(b: Db, topic: string, qos: Qos, retain: bool, sid: nat, acl: Acl): (r: Db)
    requires sid in b.store
    ensures r.cfg == b.cfg && |r.clients| == |b.clients| && sid in r.store
  {
    if retain then
      SendToStops(Keep(b, topic, if b.store[sid].empty then None else Some(sid)),
                  Route(MakePath(b.subs, topic), topic), topic, qos, sid, acl)
    else SendToStops(b, Route(b.subs, topic), topic, qos, sid, acl)
  }

  /** A message is counted as handed over where it is handed over. */
  function CountRouted(b: Db, sid: nat): (r: Db)
    requires sid in b.store
    ensures r.cfg == b.cfg && |r.clients| == |b.clients|
  {
    b.(store := b.store[sid := b.store[sid].(routed := b.store[sid].routed + 1)])
  }

  /** `mqtt3_db_messages_queue` */
  function QueueMessage(b: Db, topic: string, qos: Qos, retain: bool, sid: nat, acl: Acl): (r: Db)
    requires sid in b.store
    ensures r.cfg == b.cfg && |r.clients| == |b.clients| && sid in r.store
  {
    CountRouted(Distribute(b, topic, qos, retain, sid, acl), sid)
  }

  // ----- publish --------------------------------------------------------------

  /** `mqtt3_db_message_store_find` */
  function StoreFind(store: map<nat, Stored>, ms: seq<Entry>, mid: nat): (r: Option<nat>)
    ensures r.Some? ==> r.value in store
  {
    if ms == [] then None
    else if ms[0].dir == In && ms[0].store in store && store[ms[0].store].sourceMid == mid then Some(ms[0].store)
    else StoreFind(store, ms[1..], mid)
  }

  /** `mqtt3_db_message_store`; the new message has the id `b.lastDbId + 1`. */
  function StoreMessage(b: Db, mid: nat, topic: Option<string>, qos: Qos, retain: bool, empty: bool): (r: Db)
    ensures r.cfg == b.cfg && r.clients == b.clients && r.lastDbId in r.store
  {
    b.(lastDbId := b.lastDbId + 1,
       store := b.store[b.lastDbId + 1 := Stored(0, mid, topic, qos, retain, empty, [], 0, 0, 0, 0, [])])
  }

  /** `mqtt3_handle_publish` after the packet was read; `bad` is a message that is too
      large or denied by the access check. */
  function HandlePublish(
    b: Db, c: nat, mid: nat, topic: string, qos: Qos, retain: bool, empty: bool, bad: bool, acl: Acl): (r: Db)
    requires c < |b.clients|
    ensures r.cfg == b.cfg && |r.clients| == |b.clients|
  {
    var found := if qos > 0 then StoreFind(b.store, b.clients[c].msgs, mid) else None;
    if bad then
      if qos < 2 || found.Some? then b
      else
        var b1 := StoreMessage(b, mid, None, 2, false, true);
        Insert(b1, c, mid, In, 2, false, b1.lastDbId).0
    else
      var b1 := if found.Some? then b else StoreMessage(b, mid, Some(topic), qos, retain, empty);
      var sid := if found.Some? then found.value else b1.lastDbId;
      if qos < 2 then QueueMessage(b1, topic, qos, retain, sid, acl)
      else if found.Some? then b1
      else Insert(b1, c, mid, In, 2, retain, sid).0
  }

  // ----- acknowledgements -------------------------------------------------------

  /** The move of a queued entry into the window, in delete and release. */
  function Promote(b: Db, c: nat, i: nat, msgIndex: nat): (r: Db)
    requires c < |b.clients| && i < |b.clients[c].msgs|
    ensures r.cfg == b.cfg && |r.clients| == |b.clients| && |r.clients[c].msgs| == |b.clients[c].msgs|
  {
    var e := b.clients[c].msgs[i];
    if e.state == Queued && msgIndex <= b.cfg.maxInflight then Edit(b, c, i, Promoted(e)) else b
  }

  /** The loop of `mqtt3_db_message_delete`, at place `i`. */
  function DeleteFrom(b: Db, c: nat, mid: nat, i: nat, msgIndex: nat, deleted: bool): (r: Db)
    requires c < |b.clients|
    ensures r.cfg == b.cfg && |r.clients| == |b.clients|
    decreases |b.clients[c].msgs| - i
  {
    if i >= |b.clients[c].msgs| then b
    else
      var b1 := Promote(b, c, i, msgIndex + 1);
      var e := b1.clients[c].msgs[i];
      if e.mid == mid && e.dir == Out then
        if msgIndex > b.cfg.maxInflight then Drop(b1, c, i)
        else DeleteFrom(Drop(b1, c, i), c, mid, i, msgIndex, true)
      else if msgIndex + 1 > b.cfg.maxInflight && deleted then b1
      else DeleteFrom(b1, c, mid, i + 1, msgIndex + 1, deleted)
  }

  /** `_mosquitto_handle_pubackcomp` */
  function HandlePubackComp(b: Db, c: nat, mid: nat): (r: Db)
    requires c < |b.clients|
    ensures r.cfg == b.cfg && |r.clients| == |b.clients|
  {
    if mid != 0 then DeleteFrom(b, c, mid, 0, 0, false) else b
  }

  /** The entry `mqtt3_db_message_update` finds. */
  function FindOutFrom(ms: seq<Entry>, mid: nat, from: nat): (i: nat)
    requires from <= |ms|
    ensures from <= i <= |ms| && (i < |ms| ==> ms[i].mid == mid && ms[i].dir == Out)
    ensures forall j :: from <= j < i ==> !(ms[j].mid == mid && ms[j].dir == Out)
    decreases |ms| - from
  {
    if from == |ms| || (ms[from].mid == mid && ms[from].dir == Out) then from else FindOutFrom(ms, mid, from + 1)
  }

  /** `_mosquitto_handle_pubrec`: the entry now waits for PUBCOMP, and PUBREL goes out. */
  function HandlePubrec(b: Db, c: nat, mid: nat): (r: Db)
    requires c < |b.clients|
    ensures r.cfg == b.cfg && |r.clients| == |b.clients|
  {
    var i := FindOutFrom(b.clients[c].msgs, mid, 0);
    if i == |b.clients[c].msgs| then b
    else
      var e := b.clients[c].msgs[i];
      Edit(b, c, i, e.(state := WaitForPubcomp, history := e.history + [Pubrec, Pubrel]))
  }

  /** An inbound entry ends its handshake and leaves the queue; a message without a topic
      counts as refused. */
  function Finish(b: Db, c: nat, i: nat): (r: Db)
    requires c < |b.clients| && i < |b.clients[c].msgs|
    ensures r.cfg == b.cfg && |r.clients| == |b.clients|
  {
    var sid := b.clients[c].msgs[i].store;
    var b1 := Drop(b, c, i);
    if sid !in b1.store || b1.store[sid].topic.Some? then b1
    else b1.(store := b1.store[sid := b1.store[sid].(denied := b1.store[sid].denied + 1)])
  }

  /** What `mqtt3_db_message_release` does with the message it found. */
  function Handover(b: Db, sid: nat, retain: bool, acl: Acl): (r: Db)
    requires sid in b.store
    ensures r.cfg == b.cfg && |r.clients| == |b.clients|
  {
    var s := b.store[sid];
    if s.topic.Some? then QueueMessage(b, s.topic.value, s.qos, retain, sid, acl) else b
  }

  /** One message released: routed if it has a topic, then unlinked. */
  function Released(b: Db, c: nat, i: nat, acl: Acl): (r: Db)
    requires c < |b.clients| && i < |b.clients[c].msgs|
    ensures r.cfg == b.cfg && |r.clients| == |b.clients|
  {
    var e := b.clients[c].msgs[i];
    var b1 := if e.store in b.store then Handover(b, e.store, e.retain, acl) else b;
    if i < |b1.clients[c].msgs| then Finish(b1, c, i) else b1
  }

  /** The loop of `mqtt3_db_message_release` at place `i`, on behalf of PUBREL. Routing may
      lengthen the list behind `i`; `left` bounds the entries still to be released, of
      which there is never more than one. */
  function ReleaseFrom(b: Db, c: nat, mid: nat, i: nat, msgIndex: nat, deleted: bool, left: nat, acl: Acl): (r: Db)
    requires c < |b.clients|
    ensures r.cfg == b.cfg && |r.clients| == |b.clients|
    decreases left, |b.clients[c].msgs| - i
  {
    if i >= |b.clients[c].msgs| then b
    else
      var b1 := Promote(b, c, i, msgIndex + 1);
      var e := b1.clients[c].msgs[i];
      if e.mid == mid && e.dir == In && left > 0 then
        var b2 := Released(b1, c, i, acl);
        if msgIndex + 1 > b.cfg.maxInflight then b2 else ReleaseFrom(b2, c, mid, i, msgIndex + 1, true, left - 1, acl)
      else if msgIndex + 1 > b.cfg.maxInflight && deleted then b1
      else ReleaseFrom(b1, c, mid, i + 1, msgIndex + 1, deleted, left, acl)
  }

  /** `_mosquitto_handle_pubrel` */
  function HandlePubrel(b: Db, c: nat, mid: nat, acl: Acl): (r: Db)
    requires c < |b.clients|
    ensures r.cfg == b.cfg && |r.clients| == |b.clients|
  {
    ReleaseFrom(b, c, mid, 0, 0, false, Tally(b.clients[c].msgs, WithMid(mid)), acl)
  }

  // ----- sessions -------------------------------------------------------------

  /** The first pass of `mqtt3_db_message_reconnect_reset` over one entry. */
  function ResetEntry(e: Entry): Entry {
    if e.dir == In then e
    else
      var h := e.history + [Reset];
      if e.state == Queued then e.(history := h)
      else if e.qos == 2 && e.state == WaitForPubcomp then e.(state := ResendPubrel, history := h)
      else e.(state := ToSend(e.qos), history := h)
  }

  /** One turn of that pass: count the entry, then reset or unlink it. */
  function ResetOne(b: Db, c: nat, i: nat): (r: Db)
    requires c < |b.clients| && i < |b.clients[c].msgs|
    ensures r.cfg == b.cfg && |r.clients| == |b.clients| && |r.clients[c].msgs| <= |b.clients[c].msgs|
  {
    var cl := b.clients[c];
    var e := cl.msgs[i];
    var b1 := PutClient(b, c, cl.(lastMsg := Some(e.uid), msgCount := cl.msgCount + 1,
                                  msgCount12 := cl.msgCount12 + (if e.qos > 0 then 1 else 0)));
    if e.dir == Out then Edit(b1, c, i, ResetEntry(e))
    else if e.qos != 2 then Drop(b1, c, i)
    else b1
  }

  /** That pass from place `i` on. Unlinking an entry makes it step over the next one. */
  function ResetFrom(b: Db, c: nat, i: nat): (r: Db)
    requires c < |b.clients|
    ensures r.cfg == b.cfg && |r.clients| == |b.clients|
    decreases |b.clients[c].msgs| - i
  {
    if i >= |b.clients[c].msgs| then b else ResetFrom(ResetOne(b, c, i), c, i + 1)
  }

  /** The second pass: queued entries among the first `maxInflight` are made sendable,
      whatever their direction. */
  function ReviveFrom(b: Db, c: nat, i: nat): (r: Db)
    requires c < |b.clients|
    ensures r.cfg == b.cfg && |r.clients| == |b.clients|
    decreases |b.clients[c].msgs| - i
  {
    if i >= |b.clients[c].msgs| || (b.cfg.maxInflight > 0 && i >= b.cfg.maxInflight) then b
    else
      var e := b.clients[c].msgs[i];
      ReviveFrom(if e.state == Queued then Edit(b, c, i, e.(state := ToSend(e.qos))) else b, c, i + 1)
  }

  function ReconnectReset(b: Db, c: nat): (r: Db)
    requires c < |b.clients|
    ensures r.cfg == b.cfg && |r.clients| == |b.clients|
  {
    ReviveFrom(ResetFrom(PutClient(b, c, b.clients[c].(msgCount := 0, msgCount12 := 0)), c, 0), c, 0)
  }

  /** One entry given up with its session. */
  function SweepOne(store: map<nat, Stored>, e: Entry): (r: map<nat, Stored>)
    ensures r.Keys == store.Keys
  {
    if e.store !in store then store
    else
      var s := store[e.store];
      store[e.store := s.(refCount := s.refCount - 1, swept := s.swept + (if e.dir == In then 1 else 0))]
  }

  /** The references given up by `mqtt3_db_messages_delete`, entry by entry. */
  function Sweep(store: map<nat, Stored>, ms: seq<Entry>): (r: map<nat, Stored>)
    ensures r.Keys == store.Keys
  {
    if ms == [] then store else Sweep(SweepOne(store, ms[0]), ms[1..])
  }

  /** A session is discarded: its subscriptions and its messages go. */
  function DiscardSession(b: Db, c: nat): (r: Db)
    requires c < |b.clients|
    ensures r.cfg == b.cfg && |r.clients| == |b.clients|
  {
    var cl := b.clients[c];
    PutClient(b, c, cl.(msgs := [], lastMsg := None, msgCount := 0, msgCount12 := 0)).(
      subs := CleanSession(b.subs, cl.id), store := Sweep(b.store, cl.msgs))
  }

  /** CONNECT with a client id the broker knows: the old connection is taken over. */
  function TakeOver(b: Db, c: nat, clean: bool): (r: Db)
    requires c < |b.clients|
    ensures r.cfg == b.cfg && |r.clients| == |b.clients|
  {
    var b1 := if clean then DiscardSession(b, c) else b;
    var b2 := PutClient(b1, c, b1.clients[c].(connected := true));
    if b2.clients[c].msgs != [] then ReconnectReset(b2, c) else b2
  }

  // ----- retry ----------------------------------------------------------------

  /** `mqtt3_db_message_timeout_check` for an entry whose time stamp is too old. */
  function TimedOut(e: Entry): Entry {
    match e.state
    case WaitForPuback => e.(state := PublishQos1, dup := true)
    case WaitForPubrec => e.(state := PublishQos2, dup := true)
    case WaitForPubrel => e.(state := SendPubrec, dup := true)
    case WaitForPubcomp => e.(state := ResendPubrel, dup := true)
    case _ => e
  }

  /** The inner loop, over the entries of client `c`; `late` names the entries whose time
      stamp lies before the threshold. */
  function TimeoutMsgs(b: Db, c: nat, i: nat, late: set<nat>): (r: Db)
    requires c < |b.clients|
    ensures r.cfg == b.cfg && |r.clients| == |b.clients|
    decreases |b.clients[c].msgs| - i
  {
    if i >= |b.clients[c].msgs| then b
    else
      var e := b.clients[c].msgs[i];
      TimeoutMsgs(if e.uid in late then Edit(b, c, i, TimedOut(e)) else b, c, i + 1, late)
  }

  function TimeoutCheck(b: Db, c: nat, late: set<nat>): (r: Db)
    ensures r.cfg == b.cfg && |r.clients| == |b.clients|
    decreases |b.clients| - c
  {
    if c >= |b.clients| then b else TimeoutCheck(TimeoutMsgs(b, c, 0, late), c + 1, late)
  }

  // ----- write ----------------------------------------------------------------

  /** An entry after its packet was sent; a QoS 0 entry is unlinked instead. */
  function Written(e: Entry): Entry {
    match e.state
    case PublishQos1 => e.(state := WaitForPuback, dup := true, history := e.history + [Publish(e.dup)])
    case PublishQos2 => e.(state := WaitForPubrec, dup := true, history := e.history + [Publish(e.dup)])
    case SendPubrec => e.(state := WaitForPubrel)
    case ResendPubrel => e.(state := WaitForPubcomp, history := e.history + [Pubrel])
    case ResendPubcomp => e.(state := WaitForPubrel)
    case _ => e
  }

  predicate HasPacket(s: State) {
    s == PublishQos1 || s == PublishQos2 || s == SendPubrec || s == ResendPubrel || s == ResendPubcomp
  }

  /** The loop of `mqtt3_db_message_write` at place `i`, of which `sends` more packets will
      be taken. A queued inbound entry is looked at again after its promotion, which ends
      because every inbound entry has QoS 2. */
  function WriteFrom(b: Db, c: nat, i: nat, msgCount: nat, sends: nat): (r: Db)
    requires c < |b.clients| && InboundQos2(b.clients[c])
    ensures r.cfg == b.cfg && |r.clients| == |b.clients|
    decreases |b.clients[c].msgs| - i, if i < |b.clients[c].msgs| && b.clients[c].msgs[i].state == Queued then 1 else 0
  {
    var ms := b.clients[c].msgs;
    if i >= |ms| then b
    else
      var e := ms[i];
      var n := if e.dir == In then msgCount + 1 else msgCount;
      if e.state == PublishQos0 then
        if sends == 0 then b else WriteFrom(Drop(b, c, i), c, i, n, sends - 1)
      else if HasPacket(e.state) then
        if sends == 0 then b else WriteFrom(Edit(b, c, i, Written(e)), c, i + 1, n, sends - 1)
      else if e.state == Queued && e.dir == In && (b.cfg.maxInflight == 0 || n < b.cfg.maxInflight) then
        WriteFrom(Edit(b, c, i, e.(state := SendPubrec)), c, i, n, sends)
      else WriteFrom(b, c, i + 1, n, sends)
  }

  predicate IsPublish(s: State) {
    s == PublishQos0 || s == PublishQos1 || s == PublishQos2
  }

  /** The message was refused and has no topic to be sent under. */
  predicate NoTopic(store: map<nat, Stored>, e: Entry) {
    e.store in store && store[e.store].topic.None?
  }

  /** The loop comes to a PUBLISH whose message has no topic, where the code stops at an
      assertion in `_mosquitto_send_publish`. */
  predicate MeetsNoTopic(b: Db, c: nat, i: nat, msgCount: nat, sends: nat)
    requires c < |b.clients| && InboundQos2(b.clients[c])
    decreases |b.clients[c].msgs| - i, if i < |b.clients[c].msgs| && b.clients[c].msgs[i].state == Queued then 1 else 0
  {
    var ms := b.clients[c].msgs;
    i < |ms| &&
      var e := ms[i];
      var n := if e.dir == In then msgCount + 1 else msgCount;
      if IsPublish(e.state) && NoTopic(b.store, e) then true
      else if e.state == PublishQos0 then sends > 0 && MeetsNoTopic(Drop(b, c, i), c, i, n, sends - 1)
      else if HasPacket(e.state) then sends > 0 && MeetsNoTopic(Edit(b, c, i, Written(e)), c, i + 1, n, sends - 1)
      else if e.state == Queued && e.dir == In && (b.cfg.maxInflight == 0 || n < b.cfg.maxInflight) then
        MeetsNoTopic(Edit(b, c, i, e.(state := SendPubrec)), c, i, n, sends)
      else MeetsNoTopic(b, c, i + 1, n, sends)
  }

  // ----- store ----------------------------------------------------------------

  /** `mqtt3_db_store_clean` */
  function StoreClean(store: map<nat, Stored>): map<nat, Stored> {
    map sid | sid in store && store[sid].refCount != 0 :: store[sid]
  }

  // ----- subscribe ------------------------------------------------------------

  /** `_retain_process` for the messages `mqtt3_retain_queue` found. */
  function SendRetained(b: Db, c: nat, found: seq<At<nat>>, subQos: Qos, acl: Acl): (r: Db)
    requires c < |b.clients|
    ensures r.cfg == b.cfg && |r.clients| == |b.clients|
    decreases |found|
  {
    if found == [] then b
    else
      var sid := found[0].item;
      if sid in b.store && b.store[sid].topic.Some? && acl(b.clients[c].id, b.store[sid].topic.value) == Granted
      then SendRetained(Send(b, c, Min(b.store[sid].qos, subQos), true, sid), c, found[1..], subQos, acl)
      else SendRetained(b, c, found[1..], subQos, acl)
  }

  /** One filter of a SUBSCRIBE. */
  function HandleSubscribe(b: Db, c: nat, filter: string, qos: Qos, acl: Acl): (r: Db)
    requires c < |b.clients|
    ensures r.cfg == b.cfg && |r.clients| == |b.clients|
  {
    var b1 := b.(subs := SubAdd(b.subs, filter, Leaf(b.clients[c].id, qos)));
    SendRetained(b1, c, RetainQueue(b1.subs, filter), qos, acl)
  }

  function HandleUnsubscribe(b: Db, c: nat, filter: string): (r: Db)
    requires c < |b.clients|
    ensures r.cfg == b.cfg && |r.clients| == |b.clients|
  {
    b.(subs := SubRemove(b.subs, filter, b.clients[c].id))
  }
}

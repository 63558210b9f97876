/** Saving the broker's data to chunks and rebuilding it from them (persist.c). */
module Persist {
  import opened Options
  import opened Topics
  import opened Hierarchy
  import opened SubTree
  import opened Wire
  import opened PersistFormat

  // ----- data -------------------------------------------------------------------

  /** A stored message, as far as the file knows it. */
  datatype StoredMsg = StoredMsg(dbId: nat, sourceId: string, sourceMid: Word, mid: Word, topic: string, qos: Byte,
                             retain: bool, payload: seq<Byte>, refCount: int)

  datatype QueuedMsg = QueuedMsg(
    storeId: nat, mid: Word, qos: Byte, retain: Byte, direction: Byte, state: Byte, dup: Byte)

  datatype Context = Context(id: string, cleanSession: bool, lastMid: Word, disconnectT: nat, msgs: seq<QueuedMsg>)

  /** `struct mosquitto_db`: `store` is the linked list from its head on, and an empty slot
      of the context table is `None`. */
  datatype Image = Image(lastDbId: nat, store: seq<StoredMsg>, contexts: seq<Option<Context>>, index: map<string, nat>,
                         subs: Subs)

  /** `mqtt3_db_open` */
  function Opened(): Image {
    Image(0, [], [None], map[], Boot())
  }

  // ----- strings ----------------------------------------------------------------

  function Bytes(s: string): (r: seq<Byte>)
    ensures |r| == |s|
  {
    seq(|s|, i requires 0 <= i < |s| => s[i] as int % 0x100)
  }

  /** A string as C code sees it, up to the first zero byte. */
  function Text(bs: seq<Byte>): string {
    var c := Wire.Cut(bs);
    seq(|c|, i requires 0 <= i < |c| => c[i] as char)
  }

  predicate CText(s: string) {
    forall i :: 0 <= i < |s| ==> 0 < s[i] as int < 0x100
  }

  lemma TextRead(s: string)
    requires CText(s)
    ensures Text(Bytes(s)) == s
  {
    assert 0 !in Bytes(s);
  }

  // ----- backup -----------------------------------------------------------------

  function IsSys(topic: string): bool {
    "$SYS" <= topic
  }

  function StoreChunk(m: StoredMsg): Chunk {
    MsgStore(m.dbId, Bytes(m.sourceId), m.sourceMid, m.mid, Bytes(m.topic), m.qos,
             if IsSys(m.topic) then 0 else Bit(m.retain), m.payload)
  }

  /** `mqtt3_db_message_store_write` */
  function StoreChunks(ms: seq<StoredMsg>): seq<Chunk> {
    if ms == [] then [] else [StoreChunk(ms[0])] + StoreChunks(ms[1..])
  }

  function MsgChunk(id: string, q: QueuedMsg): Chunk {
    ClientMsg(Bytes(id), q.storeId, q.mid, q.qos, q.retain, q.direction, q.state, q.dup)
  }

  /** `mqtt3_db_client_messages_write` */
  function MsgChunks(id: string, qs: seq<QueuedMsg>): seq<Chunk> {
    if qs == [] then [] else [MsgChunk(id, qs[0])] + MsgChunks(id, qs[1..])
  }

  predicate Lasting(c: Option<Context>) {
    c.Some? && !c.value.cleanSession
  }

  function ContextChunks(c: Context): seq<Chunk> {
    [Client(Bytes(c.id), c.lastMid, c.disconnectT)] + MsgChunks(c.id, c.msgs)
  }

  /** `mqtt3_db_client_write` */
  function ClientChunks(cs: seq<Option<Context>>): seq<Chunk> {
    if cs == [] then []
    else (if Lasting(cs[0]) then ContextChunks(cs[0].value) else []) + ClientChunks(cs[1..])
  }

  function FindContextFrom(cs: seq<Option<Context>>, id: string, from: nat): (i: nat)
    requires from <= |cs|
    ensures from <= i <= |cs| && (i < |cs| ==> cs[i].Some? && cs[i].value.id == id)
    ensures forall j :: from <= j < i ==> !(cs[j].Some? && cs[j].value.id == id)
    decreases |cs| - from
  {
    if from == |cs| || (cs[from].Some? && cs[from].value.id == id) then from else FindContextFrom(cs, id, from + 1)
  }

  function FindContext(cs: seq<Option<Context>>, id: string): (i: nat)
    ensures i <= |cs| && (i < |cs| ==> cs[i].Some? && cs[i].value.id == id)
    ensures forall j :: 0 <= j < i ==> !(cs[j].Some? && cs[j].value.id == id)
  {
    FindContextFrom(cs, id, 0)
  }

  /** The session a leaf points at is a lasting one. */
  predicate LastingId(cs: seq<Option<Context>>, id: string) {
    var i := FindContext(cs, id);
    i < |cs| && Lasting(cs[i])
  }

  function FindMessageFrom(ms: seq<StoredMsg>, id: nat, from: nat): (i: nat)
    requires from <= |ms|
    ensures from <= i <= |ms| && (i < |ms| ==> ms[i].dbId == id)
    ensures forall j :: from <= j < i ==> ms[j].dbId != id
    decreases |ms| - from
  {
    if from == |ms| || ms[from].dbId == id then from else FindMessageFrom(ms, id, from + 1)
  }

  function FindMessage(ms: seq<StoredMsg>, id: nat): (i: nat)
    ensures i <= |ms| && (i < |ms| ==> ms[i].dbId == id)
    ensures forall j :: 0 <= j < i ==> ms[j].dbId != id
  {
    FindMessageFrom(ms, id, 0)
  }

  /** The name a node gets from the name of its parent. */
  function Extend(topic: string, name: string): string {
    if topic != "" then topic + "/" + name else name
  }

  function LeafChunks(db: Image, ls: seq<Leaf>, topic: string): seq<Chunk> {
    if ls == [] then []
    else
      var first :=
        if LastingId(db.contexts, ls[0].client) then [Sub(Bytes(ls[0].client), Bytes(topic), ls[0].qos)] else [];
      first + LeafChunks(db, ls[1..], topic)
  }

  /** The message kept at a node is saved unless it is one of the broker's own. */
  predicate Savable(db: Image, id: nat) {
    var i := FindMessage(db.store, id);
    i < |db.store| && !IsSys(db.store[i].topic)
  }

  function RetainChunks(db: Image, retained: Option<nat>): seq<Chunk> {
    if retained.Some? && Savable(db, retained.value) then [Retain(retained.value)] else []
  }

  /** `_db_subs_retain_write`: a node, then its children. */
  function NodeChunks(db: Image, h: Hier, topic: string): seq<Chunk>
    decreases h, 1
  {
    var name := Extend(topic, h.topic);
    LeafChunks(db, h.subs, name) + RetainChunks(db, h.retained) + KidChunks(db, h.children, name)
  }

  function KidChunks(db: Image, ks: seq<Hier>, topic: string): seq<Chunk>
    decreases ks, 0
  {
    if ks == [] then [] else NodeChunks(db, ks[0], topic) + KidChunks(db, ks[1..], topic)
  }

  /** `mqtt3_db_backup` */
  function Backup(db: Image, shutdown: bool): seq<Chunk> {
    [Cfg(Bit(shutdown), 8, db.lastDbId)] + StoreChunks(db.store) + ClientChunks(db.contexts)
      + KidChunks(db, db.subs.root.children, "")
  }

  // ----- restore ----------------------------------------------------------------

  function FirstFree(cs: seq<Option<Context>>): (i: nat)
    ensures i <= |cs| && (i < |cs| ==> cs[i].None?)
  {
    if cs == [] || cs[0].None? then 0 else 1 + FirstFree(cs[1..])
  }

  /** `_db_find_or_add_context` without its `last_mid`. */
  function WithContext(cs: seq<Option<Context>>, id: string): (r: seq<Option<Context>>)
    ensures FindContext(r, id) < |r|
  {
    if FindContext(cs, id) < |cs| then cs
    else
      var i, c := FirstFree(cs), Some(Context(id, false, 0, 0, []));
      var r := if i < |cs| then cs[i := c] else cs + [c];
      assert r[i] == c;
      r
  }

  function PutContext(db: Image, id: string, lastMid: Word, disconnectT: nat): Image {
    var cs := WithContext(db.contexts, id);
    var i := FindContext(cs, id);
    var c := cs[i].value;
    db.(contexts :=
          cs[i := Some(c.(lastMid := if lastMid != 0 then lastMid else c.lastMid, disconnectT := disconnectT))],
        index := db.index[id := i])
  }

  function Recounted(ms: seq<StoredMsg>, id: nat, d: int): seq<StoredMsg> {
    var i := FindMessage(ms, id);
    if i < |ms| then ms[i := ms[i].(refCount := ms[i].refCount + d)] else ms
  }

  /** `_db_client_msg_restore` */
  function PutMsg(db: Image, id: string, q: QueuedMsg): Option<Image> {
    if FindMessage(db.store, q.storeId) == |db.store| then None
    else
      var cs := WithContext(db.contexts, id);
      var i := FindContext(cs, id);
      Some(db.(store := Recounted(db.store, q.storeId, 1),
               contexts := cs[i := Some(cs[i].value.(msgs := cs[i].value.msgs + [q]))]))
  }

  /** The retained part of `mqtt3_db_messages_queue`, which is all of it for a message
      without a source. */
  function PutRetained(db: Image, topic: string, id: nat, empty: bool): Image {
    if !HasTop(db.subs, Tokens(topic)[0]) then db
    else
      var was := RetOf(db.subs, Tokens(topic));
      var store := if was.Some? then Recounted(db.store, was.value, -1) else db.store;
      db.(subs := RetainPublish(db.subs, topic, if empty then None else Some(id)),
          store := if empty then store else Recounted(store, id, 1))
  }

  /** One chunk; `None` for one that makes the restore fail. A QoS above 2, which no backup
      writes, counts as such. */
  function ApplyChunk(db: Image, c: Chunk): Option<Image> {
    match c
    case Cfg(_, size, last) => if size != 8 then None else Some(db.(lastDbId := last))
    case MsgStore(id, source, sourceMid, _, topic, qos, retain, payload) =>
      if topic == [] then None
      else
        var next := if id == 0 then db.lastDbId + 1 else id;
        var m := StoredMsg(next, Text(source), sourceMid, 0, Text(topic), qos, retain != 0, payload, 0);
        Some(db.(store := [m] + db.store, lastDbId := if id == 0 then next else db.lastDbId))
    case ClientMsg(client, id, mid, qos, retain, direction, state, dup) =>
      if client == [] then None else PutMsg(db, Text(client), QueuedMsg(id, mid, qos, retain, direction, state, dup))
    case Retain(id) =>
      var i := FindMessage(db.store, id);
      if i < |db.store| && db.store[i].retain then
        Some(PutRetained(db, db.store[i].topic, id, db.store[i].payload == []))
      else Some(db)
    case Sub(client, filter, qos) =>
      if qos > 2 then None
      else Some(db.(contexts := WithContext(db.contexts, Text(client)),
                    subs := SubAdd(db.subs, Text(filter), Leaf(Text(client), qos))))
    case Client(id, lastMid, t) => if id == [] then None else Some(PutContext(db, Text(id), lastMid, t))
  }

  function ApplyChunks(db: Image, cs: seq<Chunk>): Option<Image>
    decreases |cs|
  {
    if cs == [] then Some(db)
    else
      match ApplyChunk(db, cs[0])
      case None => None
      case Some(d) => ApplyChunks(d, cs[1..])
  }

  /** `mqtt3_db_restore` of a file that exists. */
  function Restore(file: seq<Byte>, now: nat): Option<Image> {
    match ReadFile(file, now)
    case None => None
    case Some(cs) => ApplyChunks(Opened(), cs)
  }

  lemma {:induction false} ApplyChunksAppend(db: Image, a: seq<Chunk>, b: seq<Chunk>)
    ensures ApplyChunks(db, a + b) == (match ApplyChunks(db, a) case None => None case Some(d) => ApplyChunks(d, b))
    decreases |a|
  {
    if a == [] {
      assert a + b == b;
    } else {
      assert (a + b)[0] == a[0] && (a + b)[1..] == a[1..] + b;
      match ApplyChunk(db, a[0])
      case None =>
      case Some(d) => ApplyChunksAppend(d, a[1..], b);
    }
  }
}

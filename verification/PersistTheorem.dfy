/** The round trip: what a restore makes of the file a backup wrote. */
module PersistTheorem {
  import opened Options
  import opened Topics
  import opened Hierarchy
  import opened HierarchySearch
  import opened SubTree
  import opened Wire
  import opened PersistFormat
  import opened Persist
  import opened PersistLaws
  import opened PersistTree

  // ----- what can be saved ----------------------------------------------------------

  /** The filter of a path of the tree. */
  function FilterOf(p: Levels): string
    requires p != []
  {
    if p[0] == "" && |p| > 1 then Join(p[1..]) else Join(p)
  }

  /** The path of a filter that the broker let in, and that is saved under a name the file
      can hold. */
  ghost predicate GoodName(p: Levels) {
    && p != [] && FilterOf(p) != "" && p == Tokens(FilterOf(p)) && FilterLevels(Split(FilterOf(p)))
    && CText(SavedName(p)) && |SavedName(p)| < 0x1_0000
  }

  /** A filter that is saved under its own name. */
  ghost predicate KeepsName(p: Levels) {
    p != [] && FilterOf(p) != "" && FilterOf(p)[0] != '/' && FilterOf(p)[0] != '$'
  }

  /** Message `id` is stored, and stands where its topic says. */
  ghost predicate Held(db: Image, p: Levels, id: nat) {
    var i := FindMessage(db.store, id);
    && i < |db.store|
    && var m := db.store[i];
      p == Tokens(m.topic) && PlainLevels(Split(m.topic)) && m.retain && m.payload != []
  }

  /** Data as the running broker has it, with names the file can hold. */
  ghost predicate Writable(db: Image) {
    && Valid(db.subs) && db.lastDbId < Power(8)
    && (forall i :: 0 <= i < |db.store| ==> MessageFits(db.store[i])) && DistinctIds(db.store)
    && DistinctNames(Kept(db.contexts))
    && (forall i :: 0 <= i < |db.contexts| && Lasting(db.contexts[i]) ==> ContextFits(db.contexts[i].value, db.store))
    && (forall p, c :: SubOf(db.subs, p, c).Some? && LastingId(db.contexts, c) ==> GoodName(p))
    && (forall p :: RetOf(db.subs, p).Some? ==> Held(db, p, RetOf(db.subs, p).value))
  }

  /** And no lasting filter that would change its name. */
  ghost predicate Saveable(db: Image) {
    Writable(db) && AllKeepNames(db)
  }

  ghost predicate AllKeepNames(db: Image) {
    forall p, c :: SubOf(db.subs, p, c).Some? && LastingId(db.contexts, c) ==> KeepsName(p)
  }

  // ----- the tree, while it grows ---------------------------------------------------

  /** Nothing in the new tree that is not in the old one. */
  ghost predicate SubsFrom(db: Image, r: Image) {
    forall p, c :: SubOf(r.subs, p, c).Some? ==>
      LastingId(db.contexts, c) && SubOf(r.subs, p, c) == SubOf(db.subs, p, c)
  }

  ghost predicate RetainedFrom(db: Image, r: Image) {
    forall p :: RetOf(r.subs, p).Some? ==> p != [] && p[0] == "" && RetOf(r.subs, p) == RetOf(db.subs, p)
  }

  ghost predicate TwoTops(r: Image) {
    forall t :: HasTop(r.subs, t) <==> t == "" || t == "$SYS"
  }

  ghost predicate Mirror(db: Image, r: Image) {
    && r.lastDbId == db.lastDbId && Bare(r.store) == RevivedStore(db.store) && DistinctIds(r.store)
    && r.contexts == Slots(Kept(db.contexts)) && Indexes(r.index, Kept(db.contexts))
    && Valid(r.subs) && TwoTops(r) && SubsFrom(db, r) && RetainedFrom(db, r) && RefsExact(r)
  }

  ghost predicate Grows(a: Image, b: Image) {
    && (forall p, c :: SubOf(a.subs, p, c).Some? ==> SubOf(b.subs, p, c).Some?)
    && (forall p :: RetOf(a.subs, p).Some? ==> RetOf(b.subs, p).Some?)
  }

  /** What chunk `c` asks for is in the tree. */
  ghost predicate Covered(db: Image, r: Image, c: Chunk) {
    match c
    case Sub(client, filter, _) => SubOf(r.subs, Tokens(Text(filter)), Text(client)).Some?
    case Retain(id) =>
      var i := FindMessage(db.store, id);
      i < |db.store| ==>
        var p := Tokens(db.store[i].topic);
        p[0] == "" ==> RetOf(r.subs, p).Some?
    case _ => true
  }

  lemma {:induction false} KeptHas(cs: seq<Option<Context>>, i: nat)
    requires i < |cs| && Lasting(cs[i])
    ensures cs[i].value in Kept(cs)
  {
    if i > 0 {
      KeptHas(cs[1..], i - 1);
    }
  }

  /** A lasting client is in the new table. */
  lemma ClientKnown(db: Image, c: string)
    requires LastingId(db.contexts, c)
    ensures WithContext(Slots(Kept(db.contexts)), c) == Slots(Kept(db.contexts))
  {
    var i := FindContext(db.contexts, c);
    KeptHas(db.contexts, i);
    var ks := Kept(db.contexts);
    var k :| 0 <= k < |ks| && ks[k] == db.contexts[i].value;
    assert Slots(ks)[k] == Some(ks[k]);
  }

  lemma ClientText(db: Image, c: string)
    requires Writable(db) && LastingId(db.contexts, c)
    ensures CText(c) && |c| < 0x1_0000
  {
    assert ContextFits(db.contexts[FindContext(db.contexts, c)].value, db.store);
  }

  /** A filter that keeps its name is found again under it. */
  lemma PathText(p: Levels)
    requires GoodName(p) && KeepsName(p)
    ensures Text(Bytes(SavedName(p))) == SavedName(p) == FilterOf(p) && Tokens(FilterOf(p))[0] == ""
  {
    SavedNameIsFilter(FilterOf(p));
    TextRead(SavedName(p));
  }

  lemma SubStep(db: Image, r: Image, p: Levels, l: Leaf)
    requires Saveable(db) && Mirror(db, r)
    requires SubOf(db.subs, p, l.client) == Some(l.qos) && LastingId(db.contexts, l.client)
    ensures var c := Sub(Bytes(l.client), Bytes(SavedName(p)), l.qos);
      var o := ApplyChunk(r, c);
      o.Some? && Mirror(db, o.value) && Grows(r, o.value) && Covered(db, o.value, c)
  {
    hide Mirror, Grows, SubOf, SubAdd, Kept, Slots, SavedName, GoodName, KeepsName, FilterOf, FilterLevels;
    SavedPath(db, p, l.client);
    PathText(p);
    ClientText(db, l.client);
    TextRead(l.client);
    ClientKnown(db, l.client);
    MirrorContexts(db, r);
    NamedPath(p);
    SubGrows(db, r, FilterOf(p), l);
  }

  lemma SavedPath(db: Image, p: Levels, c: string)
    requires Writable(db) && SubOf(db.subs, p, c).Some? && LastingId(db.contexts, c)
    ensures GoodName(p) && (Saveable(db) ==> KeepsName(p))
  {
  }

  lemma NamedPath(p: Levels)
    requires GoodName(p)
    ensures p != [] && FilterOf(p) != "" && p == Tokens(FilterOf(p)) && FilterLevels(Split(FilterOf(p)))
    ensures |SavedName(p)| < 0x1_0000
  {
  }

  lemma MirrorContexts(db: Image, r: Image)
    requires Mirror(db, r)
    ensures r.contexts == Slots(Kept(db.contexts))
  {
  }

  lemma SubGrows(db: Image, r: Image, f: string, l: Leaf)
    requires Mirror(db, r) && FilterLevels(Split(f)) && Tokens(f)[0] == ""
    requires SubOf(db.subs, Tokens(f), l.client) == Some(l.qos) && LastingId(db.contexts, l.client)
    ensures var r' := r.(subs := SubAdd(r.subs, f, l));
      Mirror(db, r') && Grows(r, r') && SubOf(r'.subs, Tokens(f), l.client).Some?
  {
    hide Bare, RevivedStore, DistinctIds, Kept, Slots, SubOf, RetOf, SubAdd, HasTop, Valid;
    var r' := r.(subs := SubAdd(r.subs, f, l));
    SubAddEffect(r.subs, f, l, Tokens(f), l.client);
    forall p, c
      ensures SubOf(r'.subs, p, c) == (if p == Tokens(f) && c == l.client then Some(l.qos) else SubOf(r.subs, p, c))
      ensures RetOf(r'.subs, p) == RetOf(r.subs, p)
    {
      SubAddEffect(r.subs, f, l, p, c);
    }
    forall p ensures RetOf(r'.subs, p) == RetOf(r.subs, p) {
      SubAddEffect(r.subs, f, l, p, "");
    }
    forall t ensures HasTop(r'.subs, t) <==> t == "" || t == "$SYS" {
      SameTops(r.subs, Subscribe(f, l.client, l.qos), t);
    }
    forall x ensures RetCount(r'.subs.root, x) == RetCount(r.subs.root, x) {
      SubsKeepRetained(r.subs, f, l, x);
    }
  }

  // ----- retained messages ----------------------------------------------------------

  lemma {:induction false} RevivedFind(ms: seq<StoredMsg>, id: nat)
    requires DistinctIds(ms) && FindMessage(ms, id) < |ms|
    ensures var i, rs := FindMessage(ms, id), RevivedStore(ms);
      FindMessage(rs, id) < |rs| && rs[FindMessage(rs, id)] == Revived(ms[i])
  {
    var i, rs := FindMessage(ms, id), RevivedStore(ms);
    RevivedAt(ms, i);
    var k := FindMessage(rs, id);
    RevivedAt(ms, |ms| - 1 - k);
  }

  /** The restored copy of a message that is kept in the tree. */
  lemma RestoredMessage(db: Image, r: Image, p: Levels, id: nat)
    requires Writable(db) && Bare(r.store) == RevivedStore(db.store) && RetOf(db.subs, p) == Some(id) && Savable(db, id)
    ensures var k := FindMessage(r.store, id);
      && k < |r.store| && p == Tokens(r.store[k].topic) && PlainLevels(Split(r.store[k].topic))
      && r.store[k].retain && r.store[k].payload != [] && !IsSys(r.store[k].topic)
      && r.store[k].topic == db.store[FindMessage(db.store, id)].topic && FindMessage(db.store, id) < |db.store|
  {
    assert Held(db, p, id);
    RevivedFind(db.store, id);
    var rs := RevivedStore(db.store);
    forall i | 0 <= i < |rs| ensures rs[i] == Bare(rs)[i] {
      assert rs[i] == Bare(r.store)[i];
    }
    assert Bare(rs) == rs;
    BareFind(r.store, rs, id);
  }

  /** A topic outside "$SYS" either belongs to the ordinary tree or has no top. */
  lemma TopOf(r: Image, topic: string)
    requires TwoTops(r) && !IsSys(topic)
    ensures HasTop(r.subs, Tokens(topic)[0]) <==> Tokens(topic)[0] == ""
  {
    var t := Tokens(topic)[0];
    if t == "$SYS" {
      assert InDollarTree(topic);
      FirstLevelIsPrefix(topic);
    }
  }

  lemma FirstLevelIsPrefix(s: string)
    ensures Split(s)[0] <= s
  {
    JoinOfSplit(s);
  }

  lemma RetainStep(db: Image, r: Image, p: Levels, id: nat)
    requires Saveable(db) && Mirror(db, r) && RetOf(db.subs, p) == Some(id) && Savable(db, id)
    ensures var o := ApplyChunk(r, Retain(id));
      o.Some? && Mirror(db, o.value) && Grows(r, o.value) && Covered(db, o.value, Retain(id))
  {
    RestoredMessage(db, r, p, id);
    var topic := r.store[FindMessage(r.store, id)].topic;
    TopOf(r, topic);
    if p[0] == "" {
      RetainGrows(db, r, topic, id);
    }
  }

  lemma RetainGrows(db: Image, r: Image, topic: string, id: nat)
    requires Mirror(db, r) && PlainLevels(Split(topic)) && Tokens(topic)[0] == ""
    requires RetOf(db.subs, Tokens(topic)) == Some(id) && FindMessage(r.store, id) < |r.store|
    ensures var r' := PutRetained(r, topic, id, false);
      Mirror(db, r') && Grows(r, r') && RetOf(r'.subs, Tokens(topic)).Some?
  {
    hide Bare, RevivedStore, Kept, Slots, SubOf, RetOf, RetainPublish, HasTop, Valid, RefsExact;
    var r' := PutRetained(r, topic, id, false);
    assert HasTop(r.subs, "");
    RetainPublishEffect(r.subs, topic, Some(id), [], "");
    forall p, c ensures SubOf(r'.subs, p, c) == SubOf(r.subs, p, c) {
      RetainPublishEffect(r.subs, topic, Some(id), p, c);
    }
    forall p ensures RetOf(r'.subs, p) == if p == Tokens(topic) then Some(id) else RetOf(r.subs, p) {
      RetainPublishEffect(r.subs, topic, Some(id), p, "");
    }
    forall t ensures HasTop(r'.subs, t) <==> HasTop(r.subs, t) {
      SameTops(r.subs, Retaining(topic, Some(id)), t);
    }
    RetainCounts(r, topic, id);
  }

  /** The reference of the tree moves; the store keeps everything else. */
  lemma RetainCounts(r: Image, topic: string, id: nat)
    requires Valid(r.subs) && PlainLevels(Split(topic)) && HasTop(r.subs, Tokens(topic)[0])
    requires DistinctIds(r.store) && RefsExact(r) && FindMessage(r.store, id) < |r.store|
    requires RetOf(r.subs, Tokens(topic)).Some? ==> RetOf(r.subs, Tokens(topic)).value == id
    ensures var r' := PutRetained(r, topic, id, false);
      Bare(r'.store) == Bare(r.store) && DistinctIds(r'.store) && RefsExact(r')
  {
    var r' := PutRetained(r, topic, id, false);
    var was := RetOf(r.subs, Tokens(topic));
    var mid := if was.Some? then Recounted(r.store, was.value, -1) else r.store;
    RecountedIsBare(r.store, id, -1);
    RecountedIsBare(mid, id, 1);
    BareDistinct(r.store, mid);
    BareDistinct(r.store, r'.store);
    forall i | 0 <= i < |r'.store|
      ensures r'.store[i].refCount ==
        EntryRefs(r'.contexts, r'.store[i].dbId) + RetCount(r'.subs.root, Some(r'.store[i].dbId))
    {
      var x := r.store[i].dbId;
      RecountedAt(r.store, id, -1, i);
      RecountedAt(mid, id, 1, i);
      RetainPublishCounts(r.subs, topic, Some(id), Some(x));
    }
  }

  // ----- all chunks of the tree -----------------------------------------------------

  /** A path below the tops that holds something is a path of the tree climbed from its
      top. */
  lemma TopPath(s: Subs, q: Levels)
    requires Valid(s)
    requires var n := KidAt(s.root.children, q); n.Some? && (n.value.subs != [] || n.value.retained.Some?)
    ensures |q| >= 2 && q == Climb(q[1..]) && KidAt(s.root.children, q) == NodeOf(s, q[1..])
  {
    var tops := s.root.children;
    var i := Find(tops, q[0]);
    assert IsTop(tops[i]);
    if |q| > 1 {
      var j := Find(tops[i].children, q[1]);
      assert q[1..][0] == q[1];
      assert tops[i].children[j] in tops[i].children;
      assert q == [q[0]] + q[1..];
    }
  }

  lemma ChunkStep(db: Image, r: Image, c: Chunk)
    requires Saveable(db) && Mirror(db, r) && FromTree(db, db.subs.root.children, "", c)
    ensures ApplyChunk(r, c).Some?
    ensures var r' := ApplyChunk(r, c).value; Mirror(db, r') && Grows(r, r') && Covered(db, r', c)
  {
    hide Mirror, Persist.ApplyChunk, Covered, Grows;
    var tops := db.subs.root.children;
    if q, l :| SubChunkOf(db, tops, "", c, q, l) {
      TopPath(db.subs, q);
      SubStep(db, r, q[1..], l);
    } else {
      var q, id :| RetainChunkOf(db, tops, c, q, id);
      TopPath(db.subs, q);
      RetainStep(db, r, q[1..], id);
    }
  }

  lemma CoveredGrows(db: Image, a: Image, b: Image, c: Chunk)
    requires Covered(db, a, c) && Grows(a, b)
    ensures Covered(db, b, c)
  {
  }

  lemma {:induction false} TreeStage(db: Image, r: Image, cs: seq<Chunk>)
    requires Saveable(db) && Mirror(db, r) && forall c :: c in cs ==> FromTree(db, db.subs.root.children, "", c)
    ensures ApplyChunks(r, cs).Some?
    ensures var r' := ApplyChunks(r, cs).value;
      Mirror(db, r') && Grows(r, r') && forall c :: c in cs ==> Covered(db, r', c)
    decreases |cs|
  {
    hide Saveable, Mirror, FromTree, Persist.ApplyChunk, Covered;
    if cs != [] {
      ChunkStep(db, r, cs[0]);
      var d := ApplyChunk(r, cs[0]).value;
      TreeStage(db, d, cs[1..]);
      var r' := ApplyChunks(r, cs).value;
      CoveredGrows(db, d, r', cs[0]);
      assert forall c :: c in cs ==> c == cs[0] || c in cs[1..];
    }
  }

  // ----- every chunk fits its fields ------------------------------------------------

  lemma SmallNumbers(b: Byte, w: Word)
    ensures b < Power(1) && w < Power(2)
  {
    Powers();
  }

  lemma StoreChunkFits(m: StoredMsg)
    requires MessageFits(m)
    ensures ChunkFits(StoreChunk(m))
  {
    SmallNumbers(m.qos, m.sourceMid);
    SmallNumbers(if IsSys(m.topic) then 0 else Bit(m.retain), m.mid);
  }

  lemma {:induction false} StoreChunksFit(ms: seq<StoredMsg>, c: Chunk)
    requires (forall i :: 0 <= i < |ms| ==> MessageFits(ms[i])) && c in StoreChunks(ms)
    ensures ChunkFits(c)
  {
    if c == StoreChunk(ms[0]) {
      StoreChunkFits(ms[0]);
    } else {
      StoreChunksFit(ms[1..], c);
    }
  }

  lemma {:induction false} MsgChunksFit(id: string, qs: seq<QueuedMsg>, c: Chunk)
    requires |id| < 0x1_0000 && (forall j :: 0 <= j < |qs| ==> qs[j].storeId < Power(8)) && c in MsgChunks(id, qs)
    ensures ChunkFits(c)
  {
    hide Power;
    var q := qs[0];
    SmallNumbers(q.qos, q.mid);
    SmallNumbers(q.retain, q.mid);
    SmallNumbers(q.direction, q.mid);
    SmallNumbers(q.state, q.mid);
    SmallNumbers(q.dup, q.mid);
    if c !in MsgChunks(id, qs[1..]) {
      assert c == MsgChunk(id, q);
    } else {
      MsgChunksFit(id, qs[1..], c);
    }
  }

  lemma ContextChunksFit(db: Image, x: Context, c: Chunk)
    requires (forall i :: 0 <= i < |db.store| ==> MessageFits(db.store[i])) && ContextFits(x, db.store)
    requires c in ContextChunks(x)
    ensures ChunkFits(c)
  {
    SmallNumbers(0, x.lastMid);
    if c in MsgChunks(x.id, x.msgs) {
      forall j | 0 <= j < |x.msgs| ensures x.msgs[j].storeId < Power(8) {
        assert MessageFits(db.store[FindMessage(db.store, x.msgs[j].storeId)]);
      }
      MsgChunksFit(x.id, x.msgs, c);
    }
  }

  lemma {:induction false} ClientChunksFit(db: Image, cs: seq<Option<Context>>, c: Chunk)
    requires forall i :: 0 <= i < |db.store| ==> MessageFits(db.store[i])
    requires forall i :: 0 <= i < |cs| && Lasting(cs[i]) ==> ContextFits(cs[i].value, db.store)
    requires c in ClientChunks(cs)
    ensures ChunkFits(c)
  {
    if c in ClientChunks(cs[1..]) {
      ClientChunksFit(db, cs[1..], c);
    } else {
      ContextChunksFit(db, cs[0].value, c);
    }
  }

  lemma TreeChunkFits(db: Image, c: Chunk)
    requires Writable(db) && FromTree(db, db.subs.root.children, "", c)
    ensures ChunkFits(c)
  {
    hide Writable, SavedName, GoodName;
    var tops := db.subs.root.children;
    WritableParts(db);
    if q, l :| SubChunkOf(db, tops, "", c, q, l) {
      TopPath(db.subs, q);
      SavedPath(db, q[1..], l.client);
      NamedPath(q[1..]);
      ClientText(db, l.client);
      SavedIs(q[1..]);
      SubFits(l.client, SavedName(q[1..]), l.qos);
    } else {
      var q, id :| RetainChunkOf(db, tops, c, q, id);
      assert MessageFits(db.store[FindMessage(db.store, id)]);
    }
  }

  lemma SavedIs(p: Levels)
    requires p != []
    ensures SavedName(p) == NameFrom("", Climb(p))
  {
  }

  lemma SubFits(client: string, name: string, qos: Qos)
    requires |client| < 0x1_0000 && |name| < 0x1_0000
    ensures ChunkFits(Sub(Bytes(client), Bytes(name), qos))
  {
    SmallNumbers(qos, 0);
  }

  lemma TreeChunksFromTree(db: Image)
    requires Writable(db)
    ensures forall c :: c in KidChunks(db, db.subs.root.children, "") ==> FromTree(db, db.subs.root.children, "", c)
  {
    forall c | c in KidChunks(db, db.subs.root.children, "") ensures FromTree(db, db.subs.root.children, "", c) {
      KidChunksSound(db, db.subs.root.children, "", c);
    }
  }

  /** Every chunk a backup writes fits its fields, and announces the length it has. */
  lemma BackupFits(db: Image, shutdown: bool, c: Chunk)
    requires Writable(db) && c in Backup(db, shutdown)
    ensures ChunkFits(c) && Declared(c) == |FieldsBytes(FieldsOf(c))|
  {
    hide Writable, ChunkFits, FromTree;
    WritableParts(db);
    if c in StoreChunks(db.store) {
      StoreChunksFit(db.store, c);
    } else if c in ClientChunks(db.contexts) {
      ClientChunksFit(db, db.contexts, c);
    } else if c in KidChunks(db, db.subs.root.children, "") {
      TreeChunksFromTree(db);
      TreeChunkFits(db, c);
    } else {
      CfgFits(db, shutdown);
    }
    FitsIsExact(c);
  }

  lemma WritableParts(db: Image)
    requires Writable(db)
    ensures Valid(db.subs) && db.lastDbId < Power(8) && DistinctIds(db.store) && DistinctNames(Kept(db.contexts))
    ensures forall i :: 0 <= i < |db.store| ==> MessageFits(db.store[i])
    ensures forall i :: 0 <= i < |db.contexts| && Lasting(db.contexts[i]) ==>
      ContextFits(db.contexts[i].value, db.store)
  {
  }

  lemma CfgFits(db: Image, shutdown: bool)
    requires db.lastDbId < Power(8)
    ensures ChunkFits(Cfg(Bit(shutdown), 8, db.lastDbId))
  {
    SmallNumbers(Bit(shutdown), 0);
    SmallNumbers(8, 0);
  }

  lemma FitsIsExact(c: Chunk)
    requires ChunkFits(c)
    ensures Declared(c) == |FieldsBytes(FieldsOf(c))|
  {
    DeclaredIsExact(c);
    var fs := FieldsOf(c);
    match c
    case MsgStore(_, source, _, _, topic, _, _, _) => assert fs[1] == Str(source) && fs[4] == Str(topic);
    case ClientMsg(client, _, _, _, _, _, _, _) => assert fs[0] == Str(client);
    case Sub(client, filter, _) => assert fs[0] == Str(client) && fs[1] == Str(filter);
    case Client(id, _, _) => assert fs[0] == Str(id);
    case _ =>
  }

  // ----- the round trip -------------------------------------------------------------

  /** What comes back: the messages in reverse order with their references recounted, the
      lasting clients with their queues, their subscriptions, and the messages retained
      outside the '$' trees. */
  ghost predicate Restored(db: Image, r: Image) {
    && r.lastDbId == db.lastDbId
    && Bare(r.store) == RevivedStore(db.store) && RefsExact(r)
    && r.contexts == Slots(Kept(db.contexts)) && Indexes(r.index, Kept(db.contexts)) && Valid(r.subs)
    && (forall p, c :: SubOf(r.subs, p, c) == if LastingId(db.contexts, c) then SubOf(db.subs, p, c) else None)
    && (forall p :: RetOf(r.subs, p) == if p != [] && p[0] == "" then RetOf(db.subs, p) else None)
  }

  lemma RevivedDistinct(ms: seq<StoredMsg>)
    requires DistinctIds(ms)
    ensures DistinctIds(RevivedStore(ms)) && Bare(RevivedStore(ms)) == RevivedStore(ms)
    ensures forall i :: 0 <= i < |ms| ==> RevivedStore(ms)[i].refCount == 0
  {
    hide RevivedStore;
    var rs := RevivedStore(ms);
    forall i | 0 <= i < |rs|
      ensures rs[i].dbId == ms[|ms| - 1 - i].dbId && rs[i].refCount == 0
    {
      RevivedAt(ms, |ms| - 1 - i);
    }
    assert Bare(rs) == rs;
  }

  /** The new broker before the tree is read. */
  lemma ListsStage(db: Image, shutdown: bool)
    requires Writable(db)
    ensures var o :=
      ApplyChunks(Opened(), [Cfg(Bit(shutdown), 8, db.lastDbId)] + StoreChunks(db.store) + ClientChunks(db.contexts));
      o.Some? && Mirror(db, o.value) && o.value.subs == Boot()
  {
    hide Writable, Bare, RevivedStore, Slots, Kept, StoreChunks, ClientChunks, RefsExact, DistinctIds, DistinctNames;
    WritableParts(db);
    NoneYet(db);
    var cfg := [Cfg(Bit(shutdown), 8, db.lastDbId)];
    var a := Opened().(lastDbId := db.lastDbId);
    assert cfg[1..] == [];
    assert ApplyChunks(Opened(), cfg) == Some(a);
    StoreStage(a, db.store);
    var b := a.(store := RevivedStore(db.store));
    assert RevivedStore(db.store) + [] == RevivedStore(db.store);
    RevivedDistinct(db.store);
    StartRefs(b);
    StillStored(db);
    assert [] + Kept(db.contexts) == Kept(db.contexts);
    ClientStage(b, [], db.contexts);
    ApplyChunksAppend(Opened(), cfg, StoreChunks(db.store));
    ApplyChunksAppend(Opened(), cfg + StoreChunks(db.store), ClientChunks(db.contexts));
    var r := ApplyChunks(b, ClientChunks(db.contexts)).value;
    BareDistinct(b.store, r.store);
    EmptyTree(db, r);
  }

  lemma EmptyTree(db: Image, r: Image)
    requires r.subs == Boot()
    ensures Valid(r.subs) && TwoTops(r) && SubsFrom(db, r) && RetainedFrom(db, r)
  {
    BootAgrees();
  }

  lemma NoneYet(db: Image)
    ensures Slots([]) == [None] && |RevivedStore(db.store)| == |db.store|
  {
  }

  lemma StartRefs(b: Image)
    requires b.contexts == [None] && b.subs == Boot() && forall i :: 0 <= i < |b.store| ==> b.store[i].refCount == 0
    ensures RefsExact(b)
  {
    BootRetainsNothing();
    assert b.contexts[1..] == [];
  }

  lemma StillStored(db: Image)
    requires Writable(db)
    ensures forall i :: 0 <= i < |db.contexts| && Lasting(db.contexts[i]) ==>
      ContextFits(db.contexts[i].value, RevivedStore(db.store))
  {
    forall i | 0 <= i < |db.contexts| && Lasting(db.contexts[i])
      ensures ContextFits(db.contexts[i].value, RevivedStore(db.store))
    {
      var x := db.contexts[i].value;
      forall j | 0 <= j < |x.msgs| ensures FindMessage(RevivedStore(db.store), x.msgs[j].storeId) < |db.store| {
        RevivedFind(db.store, x.msgs[j].storeId);
      }
    }
  }

  /** Everything that is to be saved has come back once all chunks were read. */
  lemma NothingMissing(db: Image, r: Image)
    requires Saveable(db) && Mirror(db, r)
    requires forall c :: c in KidChunks(db, db.subs.root.children, "") ==> Covered(db, r, c)
    ensures Restored(db, r)
  {
    forall p, c ensures SubOf(r.subs, p, c) == if LastingId(db.contexts, c) then SubOf(db.subs, p, c) else None {
      if LastingId(db.contexts, c) && SubOf(db.subs, p, c).Some? {
        SubCameBack(db, r, p, c);
      }
    }
    forall p ensures RetOf(r.subs, p) == if p != [] && p[0] == "" then RetOf(db.subs, p) else None {
      if p != [] && p[0] == "" && RetOf(db.subs, p).Some? {
        RetainedCameBack(db, r, p);
      }
    }
  }

  /** What is written of a lasting subscription. */
  lemma SubIsWritten(db: Image, p: Levels, c: string)
    requires Writable(db) && LastingId(db.contexts, c) && SubOf(db.subs, p, c).Some?
    ensures GoodName(p) && CText(c)
    ensures Sub(Bytes(c), Bytes(SavedName(p)), SubOf(db.subs, p, c).value) in KidChunks(db, db.subs.root.children, "")
  {
    hide KidChunks;
    var tops := db.subs.root.children;
    var l := Leaf(c, SubOf(db.subs, p, c).value);
    KidChunksComplete(db, tops, "", Climb(p), l);
    NodeBelow(db.subs.root, Climb(p));
    ClientText(db, c);
  }

  lemma SubCameBack(db: Image, r: Image, p: Levels, c: string)
    requires Saveable(db) && LastingId(db.contexts, c) && SubOf(db.subs, p, c).Some?
    requires forall x :: x in KidChunks(db, db.subs.root.children, "") ==> Covered(db, r, x)
    ensures SubOf(r.subs, p, c).Some?
  {
    hide KidChunks, SubOf;
    SubIsWritten(db, p, c);
    assert KeepsName(p);
    PathText(p);
    TextRead(c);
    assert Covered(db, r, Sub(Bytes(c), Bytes(SavedName(p)), SubOf(db.subs, p, c).value));
  }

  lemma RetainedCameBack(db: Image, r: Image, p: Levels)
    requires Saveable(db) && p != [] && p[0] == "" && RetOf(db.subs, p).Some?
    requires forall x :: x in KidChunks(db, db.subs.root.children, "") ==> Covered(db, r, x)
    ensures RetOf(r.subs, p).Some?
  {
    var tops, id := db.subs.root.children, RetOf(db.subs, p).value;
    assert Held(db, p, id);
    var topic := db.store[FindMessage(db.store, id)].topic;
    FirstLevelIsPrefix(topic);
    assert !IsSys(topic);
    KidChunksComplete(db, tops, "", Climb(p), Leaf("", 0));
    NodeBelow(db.subs.root, Climb(p));
    assert Retain(id) in KidChunks(db, tops, "");
    assert Covered(db, r, Retain(id));
  }

  /** A backup, read back by a broker that starts, restores the lasting data. */
  lemma BackupRestores(db: Image, shutdown: bool, now: nat)
    requires Saveable(db)
    ensures var o := Restore(FileBytes(Backup(db, shutdown)), now); o.Some? && Restored(db, o.value)
  {
    assert Writable(db);
    hide Saveable, Writable, Mirror, Restored, ChunkFits, FromTree, Covered, Opened, KidChunks, FileBytes;
    var cs, tree := Backup(db, shutdown), KidChunks(db, db.subs.root.children, "");
    forall i | 0 <= i < |cs| ensures ChunkFits(cs[i]) {
      BackupFits(db, shutdown, cs[i]);
    }
    FileRead(cs, now);
    ListsStage(db, shutdown);
    var lists := [Cfg(Bit(shutdown), 8, db.lastDbId)] + StoreChunks(db.store) + ClientChunks(db.contexts);
    var r := ApplyChunks(Opened(), lists).value;
    TreeChunksFromTree(db);
    TreeStage(db, r, tree);
    ApplyChunksAppend(Opened(), lists, tree);
    NothingMissing(db, ApplyChunks(r, tree).value);
  }
}

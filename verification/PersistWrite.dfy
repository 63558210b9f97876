/** The backup writers of persist.c, which put a file together field by field while they
    walk the broker's lists and its tree. */
module PersistWrite {
  import opened Options
  import opened Hierarchy
  import opened Wire
  import opened PersistFormat
  import opened Persist

  lemma {:induction false} FieldsStep(fs: seq<Field>, k: nat)
    requires k < |fs|
    ensures FieldsBytes(fs[..k + 1]) == FieldsBytes(fs[..k]) + FieldBytes(fs[k])
  {
    hide FieldBytes;
    if k == 0 {
      assert fs[..1][1..] == [] && fs[..0] == [];
    } else {
      FieldsStep(fs[1..], k - 1);
      assert fs[..k + 1][1..] == fs[1..][..k] && fs[..k][1..] == fs[1..][..k - 1];
      assert FieldsBytes(fs[..k + 1]) == FieldBytes(fs[0]) + (FieldsBytes(fs[1..][..k - 1]) + FieldBytes(fs[k]));
    }
  }

  lemma {:induction false} ChunksBytesAppend(a: seq<Chunk>, b: seq<Chunk>)
    ensures ChunksBytes(a + b) == ChunksBytes(a) + ChunksBytes(b)
  {
    hide ChunkBytes;
    if a == [] {
      assert a + b == b;
    } else {
      ChunksBytesAppend(a[1..], b);
      assert (a + b)[1..] == a[1..] + b;
      assert ChunkBytes(a[0]) + (ChunksBytes(a[1..]) + ChunksBytes(b)) ==
        ChunkBytes(a[0]) + ChunksBytes(a[1..]) + ChunksBytes(b);
    }
  }

  lemma ChunksBytesOne(c: Chunk)
    ensures ChunksBytes([c]) == ChunkBytes(c)
  {
    assert [c][1..] == [];
  }

  lemma Glue(a: seq<Byte>, b: seq<Byte>, c: seq<Byte>, d: seq<Byte>)
    ensures a + b + c + d == a + (b + (c + d))
  {
  }

  /** `written` is what the current chunk has put down so far, of the fields `fields`. */
  class Writer {
    var file: seq<Byte>
    ghost var start: seq<Byte>
    ghost var fields: seq<Field>
    ghost var written: nat

    ghost predicate InChunk()
      reads this
    {
      written <= |fields| && file == start + FieldsBytes(fields[..written])
    }

    ghost predicate At(c: Chunk, k: nat, before: seq<Byte>)
      reads this
    {
      InChunk() && fields == FieldsOf(c) && written == k && start == before + ChunkHead(c)
    }

    constructor ()
      ensures file == []
    {
      file, start, fields, written := [], [], [], 0;
    }

    /** `write_e` */
    method WriteE(bytes: seq<Byte>)
      modifies this`file
      ensures file == old(file) + bytes
    {
      file := file + bytes;
    }

    method Write16(n: nat)
      modifies this`file
      ensures file == old(file) + NetBytes(n, 2)
    {
      WriteE(NetBytes(n, 2));
    }

    /** The code of a chunk and the length it announces. */
    method Begin(ghost c: Chunk, code: nat, length: nat)
      requires code == CodeOf(c) && length == Declared(c)
      modifies this
      ensures At(c, 0, old(file))
    {
      Write16(code);
      WriteE(NetBytes(length % 0x1_0000_0000, 4));
      start, fields, written := file, FieldsOf(c), 0;
      assert fields[..0] == [];
    }

    /** The next field of the chunk. */
    method WriteField(bytes: seq<Byte>)
      requires InChunk() && written < |fields| && bytes == FieldBytes(fields[written])
      modifies this`file, this`written
      ensures InChunk() && written == old(written) + 1
    {
      hide FieldsBytes, FieldBytes;
      FieldsStep(fields, written);
      ghost var before := FieldsBytes(fields[..written]);
      assert start + before + bytes == start + (before + bytes);
      WriteE(bytes);
      written := written + 1;
    }

    method WriteNumber(n: nat, width: nat)
      requires InChunk() && written < |fields| && fields[written] == NetNumber(width, n)
      modifies this`file, this`written
      ensures InChunk() && written == old(written) + 1
    {
      hide FieldsBytes, NetBytes;
      WriteField(NetBytes(n, width));
    }

    method WriteRaw(n: nat)
      requires InChunk() && written < |fields| && fields[written] == HostNumber(8, n)
      modifies this`file, this`written
      ensures InChunk() && written == old(written) + 1
    {
      hide FieldsBytes, HostBytes;
      WriteField(HostBytes(n, 8));
    }

    /** A length of 16 bits, and as many bytes. */
    method WriteText(s: seq<Byte>)
      requires InChunk() && written < |fields| && fields[written] == Str(s)
      modifies this`file, this`written
      ensures InChunk() && written == old(written) + 1
    {
      hide FieldsBytes;
      FieldsStep(fields, written);
      var slen := |s| % 0x1_0000;
      Glue(start, FieldsBytes(fields[..written]), NetBytes(slen, 2), s[..slen]);
      Write16(slen);
      WriteE(s[..slen]);
      written := written + 1;
    }

    method WritePayload(s: seq<Byte>)
      requires InChunk() && written < |fields| && fields[written] == Blob(s)
      modifies this`file, this`written
      ensures InChunk() && written == old(written) + 1
    {
      hide FieldsBytes;
      FieldsStep(fields, written);
      Glue(start, FieldsBytes(fields[..written]), NetBytes(|s|, 4), s);
      WriteE(NetBytes(|s|, 4));
      if s != [] {
        WriteE(s);
      }
      written := written + 1;
    }

    /** `mqtt3_db_message_store_write` for one message. */
    method WriteMessage(m: StoredMsg)
      modifies this
      ensures file == old(file) + ChunkBytes(StoreChunk(m))
    {
      ghost var c := StoreChunk(m);
      var source, topic := Bytes(m.sourceId), Bytes(m.topic);
      var forceNoRetain := "$SYS" <= m.topic;
      Begin(c, 2, 8 + 2 + |source| + 2 + 2 + 2 + |topic| + 4 + |m.payload| + 1 + 1);
      WriteRaw(m.dbId);
      WriteText(source);
      WriteNumber(m.sourceMid, 2);
      WriteNumber(m.mid, 2);
      WriteText(topic);
      WriteNumber(m.qos, 1);
      WriteNumber(if forceNoRetain then 0 else Bit(m.retain), 1);
      WritePayload(m.payload);
      End(c, old(file));
    }

    /** `mqtt3_db_message_store_write` */
    method WriteStore(ms: seq<StoredMsg>)
      modifies this
      ensures file == old(file) + ChunksBytes(StoreChunks(ms))
    {
      hide ChunkBytes, StoreChunk;
      var i := 0;
      assert ms[0..] == ms;
      while i < |ms|
        invariant i <= |ms|
        invariant file + ChunksBytes(StoreChunks(ms[i..])) == old(file) + ChunksBytes(StoreChunks(ms))
      {
        assert ms[i..][1..] == ms[i + 1..];
        Glue(file, [], ChunkBytes(StoreChunk(ms[i])), ChunksBytes(StoreChunks(ms[i + 1..])));
        assert StoreChunks(ms[i..]) == [StoreChunk(ms[i])] + StoreChunks(ms[i + 1..]);
        WriteMessage(ms[i]);
        i := i + 1;
      }
    }

    method WriteQueued(id: string, q: QueuedMsg)
      modifies this
      ensures file == old(file) + ChunkBytes(MsgChunk(id, q))
    {
      ghost var c := MsgChunk(id, q);
      var name := Bytes(id);
      Begin(c, 3, 8 + 2 + 1 + 1 + 1 + 1 + 1 + 2 + |name|);
      WriteText(name);
      WriteRaw(q.storeId);
      WriteNumber(q.mid, 2);
      WriteNumber(q.qos, 1);
      WriteNumber(q.retain, 1);
      WriteNumber(q.direction, 1);
      WriteNumber(q.state, 1);
      WriteNumber(q.dup, 1);
      End(c, old(file));
    }

    /** `mqtt3_db_client_messages_write` */
    method WriteQueue(id: string, qs: seq<QueuedMsg>)
      modifies this
      ensures file == old(file) + ChunksBytes(MsgChunks(id, qs))
    {
      hide ChunkBytes, MsgChunk;
      var i := 0;
      assert qs[0..] == qs;
      while i < |qs|
        invariant i <= |qs|
        invariant file + ChunksBytes(MsgChunks(id, qs[i..])) == old(file) + ChunksBytes(MsgChunks(id, qs))
      {
        assert qs[i..][1..] == qs[i + 1..];
        Glue(file, [], ChunkBytes(MsgChunk(id, qs[i])), ChunksBytes(MsgChunks(id, qs[i + 1..])));
        assert MsgChunks(id, qs[i..]) == [MsgChunk(id, qs[i])] + MsgChunks(id, qs[i + 1..]);
        WriteQueued(id, qs[i]);
        i := i + 1;
      }
    }

    /** One lasting client and its queue. */
    method WriteContext(x: Context)
      modifies this
      ensures file == old(file) + ChunksBytes(ContextChunks(x))
    {
      hide ChunksBytes, ChunkBytes, MsgChunks, Bytes;
      ghost var c := Client(Bytes(x.id), x.lastMid, x.disconnectT);
      ChunksBytesAppend([c], MsgChunks(x.id, x.msgs));
      ChunksBytesOne(c);
      WriteClient(x);
      WriteQueue(x.id, x.msgs);
    }

    method WriteClient(x: Context)
      modifies this
      ensures file == old(file) + ChunkBytes(Client(Bytes(x.id), x.lastMid, x.disconnectT))
    {
      ghost var c := Client(Bytes(x.id), x.lastMid, x.disconnectT);
      var name := Bytes(x.id);
      Begin(c, 6, 2 + |name| + 2 + 8);
      WriteText(name);
      WriteNumber(x.lastMid, 2);
      WriteRaw(x.disconnectT);
      End(c, old(file));
    }

    /** `mqtt3_db_client_write` */
    method WriteClients(cs: seq<Option<Context>>)
      modifies this
      ensures file == old(file) + ChunksBytes(ClientChunks(cs))
    {
      hide ContextChunks, ChunksBytes;
      ghost var done: seq<Chunk> := [];
      var i := 0;
      assert cs[0..] == cs;
      NoChunks(file);
      while i < |cs|
        invariant i <= |cs|
        invariant file == old(file) + ChunksBytes(done) && done + ClientChunks(cs[i..]) == ClientChunks(cs)
      {
        assert cs[i..][1..] == cs[i + 1..];
        if cs[i].Some? && !cs[i].value.cleanSession {
          ChunksBytesAppend(done, ContextChunks(cs[i].value));
          WriteContext(cs[i].value);
          done := done + ContextChunks(cs[i].value);
        }
        i := i + 1;
      }
      assert done == ClientChunks(cs);
    }

    method WriteSubscription(l: Leaf, topic: string)
      modifies this
      ensures file == old(file) + ChunkBytes(Sub(Bytes(l.client), Bytes(topic), l.qos))
    {
      ghost var c := Sub(Bytes(l.client), Bytes(topic), l.qos);
      var client, name := Bytes(l.client), Bytes(topic);
      Begin(c, 5, 2 + |client| + 2 + |name| + 1);
      WriteText(client);
      WriteText(name);
      WriteNumber(l.qos, 1);
      End(c, old(file));
    }

    method WriteLeaves(db: Image, ls: seq<Leaf>, topic: string)
      modifies this
      ensures file == old(file) + ChunksBytes(LeafChunks(db, ls, topic))
    {
      hide ChunksBytes, ChunkBytes, LastingId, Bytes;
      ghost var done: seq<Chunk> := [];
      var i := 0;
      assert ls[0..] == ls;
      NoChunks(file);
      while i < |ls|
        invariant i <= |ls|
        invariant file == old(file) + ChunksBytes(done)
        invariant done + LeafChunks(db, ls[i..], topic) == LeafChunks(db, ls, topic)
      {
        assert ls[i..][1..] == ls[i + 1..];
        if LastingId(db.contexts, ls[i].client) {
          ghost var c := Sub(Bytes(ls[i].client), Bytes(topic), ls[i].qos);
          ChunksBytesAppend(done, [c]);
          ChunksBytesOne(c);
          WriteSubscription(ls[i], topic);
          done := done + [c];
        }
        i := i + 1;
      }
      assert done == LeafChunks(db, ls, topic);
    }

    method WriteRetained(db: Image, retained: Option<nat>)
      modifies this
      ensures file == old(file) + ChunksBytes(RetainChunks(db, retained))
    {
      NoChunks(file);
      if retained.Some? && Savable(db, retained.value) {
        ghost var c := Retain(retained.value);
        ChunksBytesOne(c);
        Begin(c, 4, 8);
        WriteRaw(retained.value);
        End(c, old(file));
      }
    }

    /** `_db_subs_retain_write` */
    method WriteNode(db: Image, h: Hier, topic: string)
      modifies this
      ensures file == old(file) + ChunksBytes(NodeChunks(db, h, topic))
      decreases h, 1
    {
      hide ChunksBytes, LeafChunks, RetainChunks, KidChunks;
      var name := if topic != "" then topic + "/" + h.topic else h.topic;
      ChunksBytesAppend(LeafChunks(db, h.subs, name), RetainChunks(db, h.retained));
      ChunksBytesAppend(LeafChunks(db, h.subs, name) + RetainChunks(db, h.retained), KidChunks(db, h.children, name));
      WriteLeaves(db, h.subs, name);
      WriteRetained(db, h.retained);
      WriteKids(db, h.children, name);
    }

    method WriteKids(db: Image, ks: seq<Hier>, topic: string)
      modifies this
      ensures file == old(file) + ChunksBytes(KidChunks(db, ks, topic))
      decreases ks, 0
    {
      hide ChunksBytes, NodeChunks;
      ghost var done: seq<Chunk> := [];
      var i := 0;
      assert ks[0..] == ks;
      NoChunks(file);
      while i < |ks|
        invariant i <= |ks|
        invariant file == old(file) + ChunksBytes(done)
        invariant done + KidChunks(db, ks[i..], topic) == KidChunks(db, ks, topic)
      {
        assert ks[i..][1..] == ks[i + 1..];
        ChunksBytesAppend(done, NodeChunks(db, ks[i], topic));
        WriteNode(db, ks[i], topic);
        done := done + NodeChunks(db, ks[i], topic);
        i := i + 1;
      }
      assert done == KidChunks(db, ks, topic);
    }

    /** `mqtt3_db_backup`, into a file that is still empty. */
    method WriteBackup(db: Image, shutdown: bool)
      requires file == []
      modifies this
      ensures file == FileBytes(Backup(db, shutdown))
    {
      hide ChunksBytes, ChunkBytes, StoreChunks, ClientChunks, KidChunks;
      ghost var c := Cfg(Bit(shutdown), 8, db.lastDbId);
      WriteHeader();
      WriteConfig(c, shutdown, db.lastDbId);
      WriteStore(db.store);
      WriteClients(db.contexts);
      WriteKids(db, db.subs.root.children, "");
      BackupInParts(db, shutdown);
    }

    method WriteHeader()
      requires file == []
      modifies this`file
      ensures file == MAGIC + NetBytes(0, 4) + NetBytes(VERSION, 4)
    {
      WriteE(MAGIC);
      WriteE(NetBytes(0, 4));
      WriteE(NetBytes(VERSION, 4));
    }

    method WriteConfig(ghost c: Chunk, shutdown: bool, lastDbId: nat)
      requires c == Cfg(Bit(shutdown), 8, lastDbId)
      modifies this
      ensures file == old(file) + ChunkBytes(c)
    {
      Begin(c, 1, 8 + 1 + 1);
      WriteNumber(Bit(shutdown), 1);
      WriteNumber(8, 1);
      WriteRaw(lastDbId);
      End(c, old(file));
    }

    ghost method End(c: Chunk, before: seq<Byte>)
      requires At(c, |FieldsOf(c)|, before)
      ensures file == before + ChunkBytes(c)
    {
      assert fields[..|fields|] == fields;
    }
  }

  function ChunkHead(c: Chunk): seq<Byte> {
    NetBytes(CodeOf(c), 2) + NetBytes(Declared(c) % 0x1_0000_0000, 4)
  }

  lemma NoChunks(file: seq<Byte>)
    ensures file + ChunksBytes([]) == file
  {
  }

  lemma BackupInParts(db: Image, shutdown: bool)
    ensures var head := MAGIC + NetBytes(0, 4) + NetBytes(VERSION, 4);
      FileBytes(Backup(db, shutdown)) ==
        head + ChunkBytes(Cfg(Bit(shutdown), 8, db.lastDbId)) + ChunksBytes(StoreChunks(db.store))
          + ChunksBytes(ClientChunks(db.contexts)) + ChunksBytes(KidChunks(db, db.subs.root.children, ""))
  {
    hide ChunksBytes, ChunkBytes, StoreChunks, ClientChunks, KidChunks;
    var head := MAGIC + NetBytes(0, 4) + NetBytes(VERSION, 4);
    var c := Cfg(Bit(shutdown), 8, db.lastDbId);
    var a, b, d := StoreChunks(db.store), ClientChunks(db.contexts), KidChunks(db, db.subs.root.children, "");
    ChunksBytesOne(c);
    ChunksBytesAppend([c], a);
    ChunksBytesAppend([c] + a, b);
    ChunksBytesAppend([c] + a + b, d);
    var x, y, z, w := ChunkBytes(c), ChunksBytes(a), ChunksBytes(b), ChunksBytes(d);
    assert head + (x + y + z + w) == head + x + y + z + w;
  }
}

/** What the restore makes of a file that is not a whole backup: cut off, of another kind or
    version, or with chunks of a kind it does not know. */
module PersistDamage {
  import opened Options
  import opened Wire
  import opened PersistFormat

  // ----- a file that was cut off ------------------------------------------------------------

  lemma FieldCut(f: Field, m: nat)
    requires FieldFits(f) && m < |FieldBytes(f)|
    ensures ReadField(KindOf(f), FieldBytes(f)[..m]).None?
  {
    match f
    case NetNumber(_, _) =>
    case HostNumber(_, _) =>
    case Str(s) => StrCut(s, m);
    case Blob(s) => BlobCut(s, m);
  }

  lemma StrCut(s: seq<Byte>, m: nat)
    requires |s| < 0x1_0000 && m < |FieldBytes(Str(s))|
    ensures ReadField(Chars, FieldBytes(Str(s))[..m]).None?
  {
    hide NetBytes, NetValue, Power;
    var bs := FieldBytes(Str(s))[..m];
    Powers();
    assert s[..|s|] == s;
    if m >= 2 {
      assert bs[..2] == NetBytes(|s|, 2);
      LengthCut(s, 2, bs);
    }
  }

  lemma BlobCut(s: seq<Byte>, m: nat)
    requires |s| < 0x1_0000_0000 && m < |FieldBytes(Blob(s))|
    ensures ReadField(Data, FieldBytes(Blob(s))[..m]).None?
  {
    hide NetBytes, NetValue, Power;
    var bs := FieldBytes(Blob(s))[..m];
    Powers();
    if m >= 4 {
      assert bs[..4] == NetBytes(|s|, 4);
      LengthCut(s, 4, bs);
    }
  }

  lemma LengthCut(s: seq<Byte>, w: nat, bs: seq<Byte>)
    requires |s| < Power(w) && w <= |bs| && bs[..w] == NetBytes(|s|, w)
    ensures NetValue(bs[..w]) == |s|
  {
    NumberRead(|s|, w);
  }

  lemma {:induction false} FieldsCut(fs: seq<Field>, m: nat)
    requires AllFit(fs) && m < |FieldsBytes(fs)|
    ensures ReadFields(KindsOf(fs), FieldsBytes(fs)[..m]).None?
    decreases |fs|
  {
    hide FieldBytes, ReadField, KindOf, FieldFits;
    var a, rest := FieldBytes(fs[0]), FieldsBytes(fs[1..]);
    assert FieldsBytes(fs) == a + rest;
    if m < |a| {
      FieldCut(fs[0], m);
      assert (a + rest)[..m] == a[..m];
    } else {
      FieldsCut(fs[1..], m - |a|);
      FieldRead(fs[0], rest[..m - |a|]);
      assert (a + rest)[..m] == a + rest[..m - |a|];
    }
  }

  /** A chunk of which only the first `m` bytes are there. */
  lemma ChunkCut(c: Chunk, m: nat, now: nat)
    requires ChunkFits(c) && m < |ChunkBytes(c)|
    ensures ReadChunk(ChunkBytes(c)[..m], VERSION, now) == if m < 2 then End else Corrupt
  {
    hide FieldsOf, KindsFor, Assemble, FieldsBytes, ReadFields, Declared, NetValue;
    var bs := ChunkBytes(c)[..m];
    if m >= 6 {
      KindsOfChunk(c);
      NumberRead2(CodeOf(c));
      assert bs[..2] == NetBytes(CodeOf(c), 2);
      assert bs[6..] == FieldsBytes(FieldsOf(c))[..m - 6];
      FieldsCut(FieldsOf(c), m - 6);
    }
  }

  lemma {:induction false} ChunksCut(cs: seq<Chunk>, k: nat, m: nat, now: nat)
    requires k < |cs| && m < |ChunkBytes(cs[k])| && forall i :: 0 <= i < |cs| ==> ChunkFits(cs[i])
    ensures |ChunksBytes(cs[..k])| + m <= |ChunksBytes(cs)|
    ensures ReadChunks(ChunksBytes(cs)[..|ChunksBytes(cs[..k])| + m], VERSION, now) ==
      if m < 2 then Some(cs[..k]) else None
    decreases k
  {
    hide ChunkBytes, ChunkFits, ReadChunk;
    var a, rest := ChunkBytes(cs[0]), ChunksBytes(cs[1..]);
    assert ChunksBytes(cs) == a + rest;
    if k == 0 {
      ChunkCut(cs[0], m, now);
      assert (a + rest)[..m] == a[..m] && cs[..0] == [];
    } else {
      assert cs[..k][0] == cs[0] && cs[..k][1..] == cs[1..][..k - 1] && cs[1..][k - 1] == cs[k];
      ChunksCut(cs[1..], k - 1, m, now);
      var n := |ChunksBytes(cs[1..][..k - 1])| + m;
      ChunkRead(cs[0], rest[..n], now);
      assert (a + rest)[..|a| + n] == a + rest[..n];
      assert cs[..k] == [cs[0]] + cs[1..][..k - 1];
    }
  }

  /** A backup that was cut off within its chunk `k`, of which `m` bytes are left: the restore
      fails, unless no more than one byte of the chunk is left, and then it gives what stands
      before that chunk. One that was cut off within its header is refused. */
  lemma FileCut(cs: seq<Chunk>, k: nat, m: nat, now: nat)
    requires k < |cs| && m < |ChunkBytes(cs[k])| && forall i :: 0 <= i < |cs| ==> ChunkFits(cs[i])
    ensures |FileBytes(cs[..k])| + m <= |FileBytes(cs)|
    ensures ReadFile(FileBytes(cs)[..|FileBytes(cs[..k])| + m], now) == if m < 2 then Some(cs[..k]) else None
    ensures forall n :: 0 <= n < 23 ==> n <= |FileBytes(cs)| && ReadFile(FileBytes(cs)[..n], now).None?
  {
    hide ChunkBytes, ChunkFits, ChunksBytes, FileBytes, ReadFile, ReadChunks;
    var n := |ChunksBytes(cs[..k])| + m;
    ChunksCut(cs, k, m, now);
    FileLength(cs);
    FileLength(cs[..k]);
    CutBehindHeader(cs, n, now);
    CutInHeader(cs, now);
  }

  lemma FileLength(cs: seq<Chunk>)
    ensures |FileBytes(cs)| == 23 + |ChunksBytes(cs)|
  {
    hide ChunksBytes;
  }

  lemma CutBehindHeader(cs: seq<Chunk>, n: nat, now: nat)
    requires n <= |ChunksBytes(cs)|
    ensures 23 + n <= |FileBytes(cs)|
    ensures ReadFile(FileBytes(cs)[..23 + n], now) == ReadChunks(ChunksBytes(cs)[..n], VERSION, now)
  {
    hide ChunksBytes, ReadChunks;
    var head := MAGIC + NetBytes(0, 4) + NetBytes(VERSION, 4);
    var bs := FileBytes(cs)[..23 + n];
    assert bs == head + ChunksBytes(cs)[..n] && bs[23..] == ChunksBytes(cs)[..n];
    assert bs[..15] == MAGIC;
    assert bs[19..23] == NetBytes(VERSION, 4);
    Powers();
    NumberRead(VERSION, 4);
    hide NetBytes, NetValue, Power;
  }

  lemma CutInHeader(cs: seq<Chunk>, now: nat)
    ensures forall n :: 0 <= n < 23 ==> n <= |FileBytes(cs)| && ReadFile(FileBytes(cs)[..n], now).None?
  {
    hide ChunksBytes, ReadChunks;
  }

  // ----- other files --------------------------------------------------------------------------

  /** A file that does not start with the mark of the broker, or is of a version above 3, is
      refused. */
  lemma OtherFile(bs: seq<Byte>, now: nat)
    requires |bs| >= 23 && (bs[..15] != MAGIC || exists v :: 3 < v < 0x1_0000_0000 && bs[19..23] == NetBytes(v, 4))
    ensures ReadFile(bs, now).None?
  {
    if v :| 3 < v < 0x1_0000_0000 && bs[19..23] == NetBytes(v, 4) {
      Powers();
      NumberRead(v, 4);
    }
  }

  /** A chunk of unknown kind, wherever it stands, is passed over by its length. */
  lemma UnknownSkipped(code: nat, data: seq<Byte>, rest: seq<Byte>, version: nat, now: nat)
    requires (code == 0 || code > 6) && code < 0x1_0000 && |data| < 0x1_0000_0000
    ensures ReadChunks(NetBytes(code, 2) + NetBytes(|data|, 4) + data + rest, version, now) ==
      ReadChunks(rest, version, now)
  {
    var bs := NetBytes(code, 2) + NetBytes(|data|, 4) + data + rest;
    Powers();
    NumberRead(code, 2);
    NumberRead(|data|, 4);
    assert bs[..2] == NetBytes(code, 2) && bs[2..6] == NetBytes(|data|, 4) && bs[6 + |data|..] == rest;
    hide NetBytes, NetValue;
  }

  lemma KnownRead(code: nat, length: nat, fs: seq<Field>, rest: seq<Byte>, version: nat, now: nat)
    requires code < 0x1_0000 && KindsFor(code, version) == Some(KindsOf(fs)) && AllFit(fs)
    ensures ReadChunk(NetBytes(code, 2) + NetBytes(length, 4) + FieldsBytes(fs) + rest, version, now) ==
      Read(Assemble(code, version, fs, now), rest)
  {
    hide KindsFor, Assemble, FieldsBytes, ReadFields, KindsOf, NetValue, AllFit, NetBytes;
    var bs := NetBytes(code, 2) + NetBytes(length, 4) + FieldsBytes(fs) + rest;
    NumberRead2(code);
    assert bs[..2] == NetBytes(code, 2);
    assert bs[6..] == FieldsBytes(fs) + rest;
    FieldsRead(fs, rest);
  }

  /** A client chunk of version 2, which has no time, counts as disconnected now. */
  lemma OldClient(id: seq<Byte>, lastMid: Word, length: nat, rest: seq<Byte>, now: nat)
    requires |id| < 0x1_0000
    ensures var fs := [Str(id), NetNumber(2, lastMid)];
      ReadChunk(NetBytes(6, 2) + NetBytes(length, 4) + FieldsBytes(fs) + rest, 2, now) ==
        Read(Client(id, lastMid, now), rest)
  {
    hide FieldsBytes, ReadChunk, NetBytes;
    var fs := [Str(id), NetNumber(2, lastMid)];
    Powers();
    KindsAt(fs);
    assert KindsOf(fs) == [Chars, Net(2)];
    KnownRead(6, length, fs, rest, 2, now);
  }
}

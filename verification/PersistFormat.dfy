/** The persistence file (version 3): a header and chunks of fields, as bytes. Each chunk
    kind is a list of fields; writing and reading a list of fields are inverse. */
module PersistFormat {
  import opened Options
  import opened Wire

  // ----- fields -----------------------------------------------------------------

  /** What one `read_e` or a length and the bytes it announces hold. `Net` is a number in
      network order, `Host` one in the order of the machine (here: lowest byte first). */
  datatype Kind = Net(width: nat) | Host(width: nat) | Chars | Data

  datatype Field =
    | NetNumber(width: nat, n: nat)
    | HostNumber(width: nat, n: nat)
    | Str(s: seq<Byte>)
    | Blob(s: seq<Byte>)

  function KindOf(f: Field): Kind {
    match f
    case NetNumber(w, _) => Net(w)
    case HostNumber(w, _) => Host(w)
    case Str(_) => Chars
    case Blob(_) => Data
  }

  function Power(w: nat): (p: nat)
    ensures p > 0
  {
    if w == 0 then 1 else 0x100 * Power(w - 1)
  }

  function HostBytes(n: nat, w: nat): (r: seq<Byte>)
    ensures |r| == w
  {
    if w == 0 then [] else [n % 0x100] + HostBytes(n / 0x100, w - 1)
  }

  function NetBytes(n: nat, w: nat): (r: seq<Byte>)
    ensures |r| == w
  {
    if w == 0 then [] else NetBytes(n / 0x100, w - 1) + [n % 0x100]
  }

  function HostValue(bs: seq<Byte>): nat {
    if bs == [] then 0 else bs[0] + 0x100 * HostValue(bs[1..])
  }

  function NetValue(bs: seq<Byte>): nat {
    if bs == [] then 0 else NetValue(bs[..|bs| - 1]) * 0x100 + bs[|bs| - 1]
  }

  lemma {:induction false} NumberRead(n: nat, w: nat)
    requires n < Power(w)
    ensures HostValue(HostBytes(n, w)) == n && NetValue(NetBytes(n, w)) == n
  {
    if w > 0 {
      NumberRead(n / 0x100, w - 1);
      assert HostBytes(n, w)[1..] == HostBytes(n / 0x100, w - 1);
      assert NetBytes(n, w)[..w - 1] == NetBytes(n / 0x100, w - 1);
    }
  }

  /** A field in the file. The length of a string is 16 bits wide and announces what is
      written; the length of a payload is 32 bits wide. */
  function FieldBytes(f: Field): seq<Byte> {
    match f
    case NetNumber(w, n) => NetBytes(n, w)
    case HostNumber(w, n) => HostBytes(n, w)
    case Str(s) => var k := |s| % 0x1_0000; NetBytes(k, 2) + s[..k]
    case Blob(s) => NetBytes(|s|, 4) + s
  }

  predicate FieldFits(f: Field) {
    match f
    case NetNumber(w, n) => n < Power(w)
    case HostNumber(w, n) => n < Power(w)
    case Str(s) => |s| < 0x1_0000
    case Blob(s) => |s| < 0x1_0000_0000
  }

  /** A field and what follows it; `None` if the file ends first. */
  function ReadField(k: Kind, bs: seq<Byte>): (r: Option<(Field, seq<Byte>)>)
    ensures r.Some? ==> KindOf(r.value.0) == k && |r.value.1| <= |bs|
  {
    match k
    case Net(w) => if |bs| < w then None else Some((NetNumber(w, NetValue(bs[..w])), bs[w..]))
    case Host(w) => if |bs| < w then None else Some((HostNumber(w, HostValue(bs[..w])), bs[w..]))
    case Chars =>
      if |bs| < 2 then None
      else
        var n := NetValue(bs[..2]);
        if |bs| < 2 + n then None else Some((Str(bs[2..2 + n]), bs[2 + n..]))
    case Data =>
      if |bs| < 4 then None
      else
        var n := NetValue(bs[..4]);
        if |bs| < 4 + n then None else Some((Blob(bs[4..4 + n]), bs[4 + n..]))
  }

  lemma FieldRead(f: Field, rest: seq<Byte>)
    requires FieldFits(f)
    ensures ReadField(KindOf(f), FieldBytes(f) + rest) == Some((f, rest))
  {
    var bs := FieldBytes(f) + rest;
    match f
    case NetNumber(w, n) => NumberRead(n, w); assert bs[..w] == NetBytes(n, w) && bs[w..] == rest;
    case HostNumber(w, n) => NumberRead(n, w); assert bs[..w] == HostBytes(n, w) && bs[w..] == rest;
    case Str(s) => Powers(); LengthRead(s, 2, rest); assert s[..|s|] == s;
    case Blob(s) => Powers(); LengthRead(s, 4, rest);
  }

  lemma LengthRead(s: seq<Byte>, w: nat, rest: seq<Byte>)
    requires |s| < Power(w)
    ensures var bs := NetBytes(|s|, w) + s + rest;
      NetValue(bs[..w]) == |s| && bs[w..w + |s|] == s && bs[w + |s|..] == rest
  {
    hide Power, NetValue, NetBytes;
    NumberRead(|s|, w);
    var bs := NetBytes(|s|, w) + s + rest;
    assert bs[..w] == NetBytes(|s|, w);
  }

  lemma Powers()
    ensures Power(1) == 0x100 && Power(2) == 0x1_0000 && Power(4) == 0x1_0000_0000
  {
    assert Power(1) == 0x100 * Power(0);
    assert Power(2) == 0x100 * Power(1);
    assert Power(3) == 0x100 * Power(2);
    assert Power(4) == 0x100 * Power(3);
  }

  function FieldsBytes(fs: seq<Field>): seq<Byte> {
    if fs == [] then [] else FieldBytes(fs[0]) + FieldsBytes(fs[1..])
  }

  function KindsOf(fs: seq<Field>): (r: seq<Kind>)
    ensures |r| == |fs|
  {
    if fs == [] then [] else [KindOf(fs[0])] + KindsOf(fs[1..])
  }

  function ReadFields(ks: seq<Kind>, bs: seq<Byte>): (r: Option<(seq<Field>, seq<Byte>)>)
    ensures r.Some? ==> |r.value.0| == |ks| && |r.value.1| <= |bs|
    ensures r.Some? ==> forall i :: 0 <= i < |ks| ==> KindOf(r.value.0[i]) == ks[i]
    decreases |ks|
  {
    if ks == [] then Some(([], bs))
    else
      match ReadField(ks[0], bs)
      case None => None
      case Some((f, bs1)) =>
        match ReadFields(ks[1..], bs1)
        case None => None
        case Some((fs, bs2)) => Some(([f] + fs, bs2))
  }

  ghost predicate AllFit(fs: seq<Field>) {
    forall i :: 0 <= i < |fs| ==> FieldFits(fs[i])
  }

  /** Fields that fit are read back as they were written, and nothing more is read. */
  lemma {:induction false} FieldsRead(fs: seq<Field>, rest: seq<Byte>)
    requires AllFit(fs)
    ensures ReadFields(KindsOf(fs), FieldsBytes(fs) + rest) == Some((fs, rest))
    decreases |fs|
  {
    hide FieldBytes, ReadField, KindOf, FieldFits;
    if fs == [] {
      assert [] + rest == rest;
    } else {
      FieldRead(fs[0], FieldsBytes(fs[1..]) + rest);
      FieldsRead(fs[1..], rest);
      assert FieldsBytes(fs) + rest == FieldBytes(fs[0]) + (FieldsBytes(fs[1..]) + rest);
      assert fs == [fs[0]] + fs[1..];
    }
  }

  // ----- chunks -----------------------------------------------------------------

  datatype Chunk =
    | Cfg(shutdown: Byte, idSize: Byte, lastDbId: nat)
    | MsgStore(dbId: nat, sourceId: seq<Byte>, sourceMid: Word, mid: Word, topic: seq<Byte>, qos: Byte, retain: Byte,
               payload: seq<Byte>)
    | ClientMsg(
        client: seq<Byte>, storeId: nat, mid: Word, qos: Byte, retain: Byte, direction: Byte, state: Byte, dup: Byte)
    | Retain(storeId: nat)
    | Sub(client: seq<Byte>, filter: seq<Byte>, qos: Byte)
    | Client(id: seq<Byte>, lastMid: Word, disconnectT: nat)

  const VERSION: nat := 3

  /** The second branch is a file of version 2, whose client chunks have no time. */
  function KindsFor(code: nat, version: nat): Option<seq<Kind>> {
    if code == 1 then Some([Net(1), Net(1), Host(8)])
    else if code == 2 then Some([Host(8), Chars, Net(2), Net(2), Chars, Net(1), Net(1), Data])
    else if code == 3 then Some([Chars, Host(8), Net(2), Net(1), Net(1), Net(1), Net(1), Net(1)])
    else if code == 4 then Some([Host(8)])
    else if code == 5 then Some([Chars, Chars, Net(1)])
    else if code == 6 then Some(if version == 2 then [Chars, Net(2)] else [Chars, Net(2), Host(8)])
    else None
  }

  function CodeOf(c: Chunk): nat {
    match c
    case Cfg(_, _, _) => 1
    case MsgStore(_, _, _, _, _, _, _, _) => 2
    case ClientMsg(_, _, _, _, _, _, _, _) => 3
    case Retain(_) => 4
    case Sub(_, _, _) => 5
    case Client(_, _, _) => 6
  }

  function FieldsOf(c: Chunk): seq<Field> {
    match c
    case Cfg(shutdown, size, last) => [NetNumber(1, shutdown), NetNumber(1, size), HostNumber(8, last)]
    case MsgStore(id, source, sourceMid, mid, topic, qos, retain, payload) =>
      [HostNumber(8, id), Str(source), NetNumber(2, sourceMid), NetNumber(2, mid), Str(topic), NetNumber(1, qos),
       NetNumber(1, retain), Blob(payload)]
    case ClientMsg(client, id, mid, qos, retain, direction, state, dup) =>
      [Str(client), HostNumber(8, id), NetNumber(2, mid), NetNumber(1, qos), NetNumber(1, retain),
       NetNumber(1, direction), NetNumber(1, state), NetNumber(1, dup)]
    case Retain(id) => [HostNumber(8, id)]
    case Sub(client, filter, qos) => [Str(client), Str(filter), NetNumber(1, qos)]
    case Client(id, lastMid, t) => [Str(id), NetNumber(2, lastMid), HostNumber(8, t)]
  }

  /** The length the writers declare, a sum of sizes taken before the bytes are written. */
  function Declared(c: Chunk): nat {
    match c
    case Cfg(_, _, _) => 8 + 1 + 1
    case MsgStore(_, source, _, _, topic, _, _, payload) =>
      8 + 2 + |source| + 2 + 2 + 2 + |topic| + 4 + |payload| + 1 + 1
    case ClientMsg(client, _, _, _, _, _, _, _) => 8 + 2 + 1 + 1 + 1 + 1 + 1 + 2 + |client|
    case Retain(_) => 8
    case Sub(client, filter, _) => 2 + |client| + 2 + |filter| + 1
    case Client(id, _, _) => 2 + |id| + 2 + 8
  }

  /** Every string of a chunk is short enough for the 16 bits of its length. */
  predicate StringsFit(c: Chunk) {
    match c
    case MsgStore(_, source, _, _, topic, _, _, _) => |source| < 0x1_0000 && |topic| < 0x1_0000
    case ClientMsg(client, _, _, _, _, _, _, _) => |client| < 0x1_0000
    case Sub(client, filter, _) => |client| < 0x1_0000 && |filter| < 0x1_0000
    case Client(id, _, _) => |id| < 0x1_0000
    case _ => true
  }

  function Size(fs: seq<Field>): nat {
    if fs == [] then 0 else |FieldBytes(fs[0])| + Size(fs[1..])
  }

  lemma {:induction false} SizeIsLength(fs: seq<Field>)
    ensures |FieldsBytes(fs)| == Size(fs)
  {
    if fs != [] {
      SizeIsLength(fs[1..]);
    }
  }

  lemma {:induction false} SizeAppend(a: seq<Field>, b: seq<Field>)
    ensures Size(a + b) == Size(a) + Size(b)
  {
    hide FieldBytes;
    if a == [] {
      assert a + b == b;
    } else {
      SizeAppend(a[1..], b);
      assert (a + b)[1..] == a[1..] + b;
    }
  }

  lemma SizeOne(f: Field)
    ensures Size([f]) == |FieldBytes(f)|
  {
    assert [f][1..] == [];
  }

  function Length(f: Field): (n: nat)
    ensures n == |FieldBytes(f)|
  {
    match f
    case NetNumber(w, _) => w
    case HostNumber(w, _) => w
    case Str(s) => 2 + |s| % 0x1_0000
    case Blob(s) => 4 + |s|
  }

  lemma SizeUpTo4(a: Field, b: Field, c: Field, d: Field)
    ensures Size([a]) == Length(a)
    ensures Size([a, b]) == Length(a) + Length(b)
    ensures Size([a, b, c]) == Length(a) + Length(b) + Length(c)
    ensures Size([a, b, c, d]) == Length(a) + Length(b) + Length(c) + Length(d)
  {
    hide FieldBytes, Length, Size;
    SizeOne(a);
    SizeOne(b);
    SizeOne(c);
    SizeOne(d);
    SizeAppend([a], [b]);
    SizeAppend([a, b], [c]);
    SizeAppend([a, b, c], [d]);
    assert [a] + [b] == [a, b] && [a, b] + [c] == [a, b, c] && [a, b, c] + [d] == [a, b, c, d];
  }

  lemma SizeOf8(a: Field, b: Field, c: Field, d: Field, e: Field, f: Field, g: Field, h: Field)
    ensures Size([a, b, c, d, e, f, g, h]) ==
      Length(a) + Length(b) + Length(c) + Length(d) + Length(e) + Length(f) + Length(g) + Length(h)
  {
    hide FieldBytes, Length, Size;
    SizeUpTo4(a, b, c, d);
    SizeUpTo4(e, f, g, h);
    SizeAppend([a, b, c, d], [e, f, g, h]);
    assert [a, b, c, d] + [e, f, g, h] == [a, b, c, d, e, f, g, h];
  }

  /** The declared length is the number of bytes that follow, exactly when every string
      fits the 16 bits of its own length. */
  lemma DeclaredIsExact(c: Chunk)
    ensures Declared(c) == |FieldsBytes(FieldsOf(c))| <==> StringsFit(c)
  {
    hide FieldBytes, Size, FieldsBytes;
    var fs := FieldsOf(c);
    SizeIsLength(fs);
    if |fs| == 8 {
      SizeOf8(fs[0], fs[1], fs[2], fs[3], fs[4], fs[5], fs[6], fs[7]);
    } else {
      var last := |fs| - 1;
      SizeUpTo4(fs[0], fs[if last < 1 then last else 1], fs[if last < 2 then last else 2], fs[last]);
    }
  }

  // ----- chunks as bytes --------------------------------------------------------

  function ChunkBytes(c: Chunk): seq<Byte> {
    NetBytes(CodeOf(c), 2) + NetBytes(Declared(c) % 0x1_0000_0000, 4) + FieldsBytes(FieldsOf(c))
  }

  function Low(n: nat): Byte {
    n % 0x100
  }

  function Low2(n: nat): Word {
    n % 0x1_0000
  }

  function Number(f: Field): nat {
    match f
    case NetNumber(_, n) => n
    case HostNumber(_, n) => n
    case _ => 0
  }

  function Content(f: Field): seq<Byte> {
    match f
    case Str(s) => s
    case Blob(s) => s
    case _ => []
  }

  /** The chunk a list of fields stands for; a client chunk of version 2 gets the time of
      the restore. */
  function Assemble(code: nat, version: nat, fs: seq<Field>, now: nat): Chunk
    requires KindsFor(code, version).Some? && |fs| == |KindsFor(code, version).value|
  {
    if code == 1 then Cfg(Low(Number(fs[0])), Low(Number(fs[1])), Number(fs[2]))
    else if code == 2 then
      MsgStore(Number(fs[0]), Content(fs[1]), Low2(Number(fs[2])), Low2(Number(fs[3])), Content(fs[4]),
        Low(Number(fs[5])), Low(Number(fs[6])), Content(fs[7]))
    else if code == 3 then
      ClientMsg(Content(fs[0]), Number(fs[1]), Low2(Number(fs[2])), Low(Number(fs[3])), Low(Number(fs[4])),
        Low(Number(fs[5])), Low(Number(fs[6])), Low(Number(fs[7])))
    else if code == 4 then Retain(Number(fs[0]))
    else if code == 5 then Sub(Content(fs[0]), Content(fs[1]), Low(Number(fs[2])))
    else Client(Content(fs[0]), Low2(Number(fs[1])), if version == 2 then now else Number(fs[2]))
  }

  datatype Step = Read(c: Chunk, rest: seq<Byte>) | Skipped(rest: seq<Byte>) | End | Corrupt

  /** One turn of the loop in `mqtt3_db_restore`. A chunk of unknown kind is skipped by its
      declared length; the length of a known one is not looked at. */
  function ReadChunk(bs: seq<Byte>, version: nat, now: nat): (r: Step)
    ensures r.Read? || r.Skipped? ==> |r.rest| < |bs|
  {
    if |bs| < 2 then End
    else if |bs| < 6 then Corrupt
    else
      var code, length := NetValue(bs[..2]), NetValue(bs[2..6]);
      match KindsFor(code, version)
      case None => Skipped(if 6 + length <= |bs| then bs[6 + length..] else [])
      case Some(ks) =>
        match ReadFields(ks, bs[6..])
        case None => Corrupt
        case Some((fs, rest)) => Read(Assemble(code, version, fs, now), rest)
  }

  function ReadChunks(bs: seq<Byte>, version: nat, now: nat): Option<seq<Chunk>>
    decreases |bs|
  {
    match ReadChunk(bs, version, now)
    case End => Some([])
    case Corrupt => None
    case Skipped(rest) => ReadChunks(rest, version, now)
    case Read(c, rest) =>
      match ReadChunks(rest, version, now)
      case None => None
      case Some(cs) => Some([c] + cs)
  }

  ghost predicate ChunkFits(c: Chunk) {
    AllFit(FieldsOf(c))
  }

  lemma KindsOfChunk(c: Chunk)
    ensures KindsFor(CodeOf(c), VERSION) == Some(KindsOf(FieldsOf(c)))
  {
    hide KindOf;
    var fs := FieldsOf(c);
    KindsAt(fs);
    assert |KindsFor(CodeOf(c), VERSION).value| == |fs|;
    KindsMatch(c);
    assert KindsFor(CodeOf(c), VERSION).value == KindsOf(fs);
  }

  lemma KindsMatch(c: Chunk)
    ensures var fs, ks := FieldsOf(c), KindsFor(CodeOf(c), VERSION).value;
      |fs| == |ks| && forall i :: 0 <= i < |fs| ==> KindOf(fs[i]) == ks[i]
  {
  }

  lemma {:induction false} KindsAt(fs: seq<Field>)
    ensures forall i :: 0 <= i < |fs| ==> KindsOf(fs)[i] == KindOf(fs[i])
  {
    if fs != [] {
      KindsAt(fs[1..]);
      assert forall i :: 0 < i < |fs| ==> KindsOf(fs)[i] == KindsOf(fs[1..])[i - 1];
    }
  }

  lemma AssembleRead(c: Chunk, now: nat)
    requires KindsFor(CodeOf(c), VERSION) == Some(KindsOf(FieldsOf(c)))
    ensures Assemble(CodeOf(c), VERSION, FieldsOf(c), now) == c
  {
  }

  /** A chunk is read back as it was written. */
  lemma ChunkRead(c: Chunk, rest: seq<Byte>, now: nat)
    requires ChunkFits(c)
    ensures ReadChunk(ChunkBytes(c) + rest, VERSION, now) == Read(c, rest)
  {
    hide FieldsOf, KindsFor, Assemble, FieldsBytes, ReadFields, Declared, NetValue;
    var bs := ChunkBytes(c) + rest;
    KindsOfChunk(c);
    NumberRead2(CodeOf(c));
    assert bs[..2] == NetBytes(CodeOf(c), 2);
    assert bs[6..] == FieldsBytes(FieldsOf(c)) + rest;
    FieldsRead(FieldsOf(c), rest);
    AssembleRead(c, now);
  }

  lemma NumberRead2(n: nat)
    requires n < 0x1_0000
    ensures NetValue(NetBytes(n, 2)) == n
  {
    Powers();
    NumberRead(n, 2);
  }

  function ChunksBytes(cs: seq<Chunk>): seq<Byte> {
    if cs == [] then [] else ChunkBytes(cs[0]) + ChunksBytes(cs[1..])
  }

  lemma {:induction false} ChunksRead(cs: seq<Chunk>, now: nat)
    requires forall i :: 0 <= i < |cs| ==> ChunkFits(cs[i])
    ensures ReadChunks(ChunksBytes(cs), VERSION, now) == Some(cs)
    decreases |cs|
  {
    if cs != [] {
      ChunkRead(cs[0], ChunksBytes(cs[1..]), now);
      ChunksRead(cs[1..], now);
      assert cs == [cs[0]] + cs[1..];
    }
  }

  // ----- the file -----------------------------------------------------------------

  /** A zero byte, B5, a zero byte, and "mosquitto db". */
  const MAGIC: seq<Byte> := [0x00, 0xB5, 0x00, 0x6D, 0x6F, 0x73, 0x71, 0x75, 0x69, 0x74, 0x74, 0x6F, 0x20, 0x64, 0x62]

  function FileBytes(cs: seq<Chunk>): seq<Byte> {
    MAGIC + NetBytes(0, 4) + NetBytes(VERSION, 4) + ChunksBytes(cs)
  }

  /** The chunks of a file; `None` for a file that is refused or ends too soon. Versions
      above 3 are refused, and so is a damaged header; the checksum is not looked at. */
  function ReadFile(bs: seq<Byte>, now: nat): Option<seq<Chunk>> {
    if |bs| < 23 || bs[..15] != MAGIC then None
    else
      var version := NetValue(bs[19..23]);
      if version > VERSION then None else ReadChunks(bs[23..], version, now)
  }

  /** A file holds exactly the chunks it was written from. */
  lemma FileRead(cs: seq<Chunk>, now: nat)
    requires forall i :: 0 <= i < |cs| ==> ChunkFits(cs[i])
    ensures ReadFile(FileBytes(cs), now) == Some(cs)
  {
    var bs := FileBytes(cs);
    assert bs[..15] == MAGIC;
    assert bs[19..23] == NetBytes(VERSION, 4);
    assert bs[23..] == ChunksBytes(cs);
    Powers();
    NumberRead(VERSION, 4);
    ChunksRead(cs, now);
  }
}

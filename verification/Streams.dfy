/** Packets over a socket that takes and gives a few bytes at a time: the resumable
    reader `_mosquitto_packet_read` as a value, the byte-at-a-time reading it must agree
    with, and what arrives however the stream is cut up. */
module Streams {
  import opened Options
  import opened Wire

  /** What the next call on the socket meets: some bytes, nothing for now, the end of the
      stream (with the error number an earlier call left behind), or a failure. */
  datatype Grant = Take(n: nat) | Again | Eof(staleAgain: bool) | Broken

  datatype NetCode = Success | Protocol | ConnLost | Failed

  /** A packet with the digits its length was written in. */
  datatype Frame = Frame(command: Byte, digits: seq<Byte>, payload: seq<Byte>)

  datatype Handled = Handled(command: Byte, payload: seq<Byte>)

  /** `mosq->in_packet`. Of the payload buffer the part already read; `pos` is its length.
      `isNew` is the state of a connection that has not sent CONNECT, and `handled` the
      packets handed over so far. */
  datatype Reader = Reader(command: Byte, haveRemaining: bool, remainingCount: nat, remainingMult: nat,
                           remainingLength: nat, payload: seq<Byte>, toProcess: nat, isNew: bool, handled: seq<Handled>)

  function Idle(isNew: bool, handled: seq<Handled>): Reader {
    Reader(0, false, 0, 1, 0, [], 0, isNew, handled)
  }

  /** Once a packet is complete it is handed over and the fields start afresh. */
  function HandOver(r: Reader): Reader {
    Idle(false, r.handled + [Handled(r.command, r.payload)])
  }

  // ----- one byte at a time -----------------------------------------------------

  /** Clients must send CONNECT as their first command. */
  predicate Refused(r: Reader, b: Byte) {
    r.isNew && b / 16 != 1
  }

  /** At most four digits. */
  function TakeDigit(r: Reader, b: Byte): Option<Reader> {
    if r.remainingCount + 1 > 4 then None
    else
      var length := r.remainingLength + b % 128 * r.remainingMult;
      Some(r.(remainingCount := r.remainingCount + 1, remainingLength := length, remainingMult := r.remainingMult * 128,
              haveRemaining := b < 128, toProcess := if b < 128 then length else r.toProcess))
  }

  function TakePayload(r: Reader, bs: seq<Byte>): Reader
    requires |bs| <= r.toProcess
  {
    r.(payload := r.payload + bs, toProcess := r.toProcess - |bs|)
  }

  function Finish(r: Reader): Reader {
    if r.haveRemaining && r.toProcess == 0 then HandOver(r) else r
  }

  /** A reader between two calls. */
  ghost predicate Between(r: Reader) {
    r.haveRemaining ==> r.toProcess > 0
  }

  /** `None` is a breach of the protocol. */
  function Feed(r: Reader, b: Byte): (o: Option<Reader>)
    requires Between(r)
    ensures o.Some? ==> Between(o.value)
  {
    if r.command == 0 then (if Refused(r, b) then None else Some(r.(command := b)))
    else if r.haveRemaining then Some(Finish(TakePayload(r, [b])))
    else
      match TakeDigit(r, b)
      case None => None
      case Some(r') => Some(Finish(r'))
  }

  function FeedAll(r: Reader, bs: seq<Byte>): (o: Option<Reader>)
    requires Between(r)
    ensures o.Some? ==> Between(o.value)
    decreases |bs|
  {
    if bs == [] then Some(r)
    else
      match Feed(r, bs[0])
      case None => None
      case Some(r') => FeedAll(r', bs[1..])
  }

  lemma {:induction false} FeedAllAppend(r: Reader, a: seq<Byte>, b: seq<Byte>)
    requires Between(r)
    ensures FeedAll(r, a + b) == (match FeedAll(r, a) case None => None case Some(r') => FeedAll(r', b))
    decreases |a|
  {
    if a == [] {
      assert a + b == b;
    } else {
      assert (a + b)[0] == a[0] && (a + b)[1..] == a[1..] + b;
      match Feed(r, a[0])
      case None =>
      case Some(r') => FeedAllAppend(r', a[1..], b);
    }
  }

  // ----- one call of the reader ---------------------------------------------------

  /** A connection: the reader, the bytes taken from the socket so far and those to come,
      and what the coming calls on the socket will meet. */
  datatype Conn = Conn(reader: Reader, taken: seq<Byte>, rest: seq<Byte>, grants: seq<Grant>)

  /** How many bytes `_mosquitto_net_read`, asked for `count`, brings. */
  function Granted(c: Conn, count: nat): (n: nat)
    ensures n <= count && n <= |c.rest| && (n > 0 ==> c.grants != [])
  {
    if c.grants == [] || !c.grants[0].Take? then 0
    else
      var most := if count < |c.rest| then count else |c.rest|;
      if c.grants[0].n < most then c.grants[0].n else most
  }

  /** The connection after those bytes were taken. */
  function Took(c: Conn, n: nat): Conn
    requires n <= |c.rest|
  {
    Conn(c.reader, c.taken + c.rest[..n], c.rest[n..], if c.grants == [] then [] else c.grants[1..])
  }

  function Met(c: Conn): Grant {
    if c.grants == [] then Again else c.grants[0]
  }

  /** The return code for a read that brought nothing. Only the first two loops tell the
      end of the stream from an error. */
  function Stopped(g: Grant, inPayload: bool): NetCode {
    match g
    case Again => Success
    case Take(_) => Success
    case Eof(staleAgain) => if !inPayload then ConnLost else if staleAgain then Success else Failed
    case Broken => Failed
  }

  /** The payload loop, and the handing over. */
  function ReadPayload(c: Conn): (Conn, NetCode)
    decreases |c.grants|
  {
    if c.reader.toProcess == 0 then (c.(reader := HandOver(c.reader)), Success)
    else
      var n := Granted(c, c.reader.toProcess);
      if n == 0 then (Took(c, 0), Stopped(Met(c), true))
      else ReadPayload(Took(c, n).(reader := TakePayload(c.reader, c.rest[..n])))
  }

  /** The length loop, and what follows. */
  function ReadLength(c: Conn): (Conn, NetCode)
    decreases |c.grants|
  {
    if Granted(c, 1) == 0 then (Took(c, 0), Stopped(Met(c), false))
    else
      match TakeDigit(c.reader, c.rest[0])
      case None => (Took(c, 1).(reader := c.reader.(remainingCount := c.reader.remainingCount + 1)), Protocol)
      case Some(r) =>
        var c' := Took(c, 1).(reader := r);
        if r.haveRemaining then ReadPayload(c') else ReadLength(c')
  }

  function AfterCommand(c: Conn): (Conn, NetCode) {
    if c.reader.haveRemaining then ReadPayload(c) else ReadLength(c)
  }

  /** `_mosquitto_packet_read` on an open socket. */
  function PacketRead(c: Conn): (Conn, NetCode) {
    if c.reader.command != 0 then AfterCommand(c)
    else if Granted(c, 1) == 0 then (Took(c, 0), Stopped(Met(c), false))
    else
      var c' := Took(c, 1).(reader := c.reader.(command := c.rest[0]));
      if Refused(c.reader, c.rest[0]) then (c', Protocol) else AfterCommand(c')
  }

  /** One turn of the length loop. */
  lemma LengthStep(c: Conn)
    ensures ReadLength(c) ==
      if Granted(c, 1) == 0 then (Took(c, 0), Stopped(Met(c), false))
      else
        match TakeDigit(c.reader, c.rest[0])
        case None => (Took(c, 1).(reader := c.reader.(remainingCount := c.reader.remainingCount + 1)), Protocol)
        case Some(r) => AfterCommand(Took(c, 1).(reader := r))
  {
  }

  /** One turn of the payload loop. */
  lemma PayloadStep(c: Conn)
    ensures var n := Granted(c, c.reader.toProcess);
      ReadPayload(c) ==
        if c.reader.toProcess == 0 then (c.(reader := HandOver(c.reader)), Success)
        else if n == 0 then (Took(c, 0), Stopped(Met(c), true))
        else ReadPayload(Took(c, n).(reader := TakePayload(c.reader, c.rest[..n])))
  {
  }

  // ----- a call reads the stream byte by byte ---------------------------------------

  /** What relates a call, started in `c` with reader `r`, to the bytes `bs` it took. */
  ghost predicate Reads(r: Reader, c: Conn, out: (Conn, NetCode), bs: seq<Byte>) {
    && Between(r) && bs <= c.rest
    && out.0.taken == c.taken + bs && out.0.rest == c.rest[|bs|..]
    && (out.1 == Protocol <==> FeedAll(r, bs).None?)
    && (out.1 != Protocol ==> FeedAll(r, bs) == Some(out.0.reader))
  }

  lemma {:induction false} PayloadChunk(r: Reader, bs: seq<Byte>)
    requires r.command != 0 && r.haveRemaining && 0 < |bs| <= r.toProcess
    ensures FeedAll(r, bs) == Some(Finish(TakePayload(r, bs)))
    decreases |bs|
  {
    var next := TakePayload(r, [bs[0]]);
    if |bs| == 1 {
      assert bs == [bs[0]] && bs[1..] == [];
    } else {
      PayloadChunk(next, bs[1..]);
      assert r.payload + [bs[0]] + bs[1..] == r.payload + bs by { assert [bs[0]] + bs[1..] == bs; }
    }
  }

  lemma PrefixOn(s: seq<Byte>, a: seq<Byte>, b: seq<Byte>)
    requires a <= s && b <= s[|a|..]
    ensures a + b <= s && s[|a + b|..] == s[|a|..][|b|..]
  {
    assert s == a + s[|a|..];
  }

  /** A first part `bs` taken, then the rest of the call. */
  lemma ReadsOn(r: Reader, c: Conn, bs: seq<Byte>, c': Conn, r': Reader, out: (Conn, NetCode), more: seq<Byte>)
    requires Between(r) && bs <= c.rest && c'.taken == c.taken + bs && c'.rest == c.rest[|bs|..]
    requires FeedAll(r, bs) == Some(r') && Reads(r', c', out, more)
    ensures Reads(r, c, out, bs + more)
  {
    hide Between, FeedAll;
    FeedAllAppend(r, bs, more);
    PrefixOn(c.rest, bs, more);
    assert c.taken + (bs + more) == c.taken + bs + more;
  }

  lemma {:induction false} ReadPayloadRefines(c: Conn) returns (bs: seq<Byte>)
    requires c.reader.command != 0 && c.reader.haveRemaining
    ensures Reads(Finish(c.reader), c, ReadPayload(c), bs)
    decreases |c.grants|
  {
    bs := [];
    if c.reader.toProcess > 0 {
      var n := Granted(c, c.reader.toProcess);
      if n > 0 {
        var chunk := c.rest[..n];
        var next := Took(c, n).(reader := TakePayload(c.reader, chunk));
        PayloadChunk(c.reader, chunk);
        var more := ReadPayloadRefines(next);
        ReadsOn(c.reader, c, chunk, next, Finish(next.reader), ReadPayload(c), more);
        bs := chunk + more;
      }
    }
  }

  lemma {:induction false} ReadLengthRefines(c: Conn) returns (bs: seq<Byte>)
    requires c.reader.command != 0 && !c.reader.haveRemaining
    ensures Reads(c.reader, c, ReadLength(c), bs)
    decreases |c.grants|
  {
    bs := [];
    if Granted(c, 1) > 0 {
      var b := c.rest[0];
      bs := [b];
      assert c.rest[..1] == bs && bs[1..] == [];
      match TakeDigit(c.reader, b)
      case None =>
      case Some(r) =>
        var next := Took(c, 1).(reader := r);
        var more;
        if r.haveRemaining {
          more := ReadPayloadRefines(next);
        } else {
          more := ReadLengthRefines(next);
        }
        ReadsOn(c.reader, c, bs, next, Finish(r), ReadLength(c), more);
        bs := bs + more;
    }
  }

  /** Whatever the socket grants, a call reads the bytes it takes as if they came one by
      one, provided no packet starts with a zero byte. */
  lemma PacketReadRefines(c: Conn) returns (bs: seq<Byte>)
    requires Between(c.reader) && (c.reader.command == 0 ==> !c.reader.haveRemaining)
    requires c.reader.command == 0 && c.rest != [] ==> c.rest[0] != 0
    ensures Reads(c.reader, c, PacketRead(c), bs)
  {
    bs := [];
    if c.reader.command != 0 {
      bs := AfterCommandRefines(c);
    } else if Granted(c, 1) > 0 {
      var b := c.rest[0];
      bs := [b];
      assert c.rest[..1] == bs && bs[1..] == [];
      if !Refused(c.reader, b) {
        var next := Took(c, 1).(reader := c.reader.(command := b));
        var more := AfterCommandRefines(next);
        ReadsOn(c.reader, c, bs, next, next.reader, PacketRead(c), more);
        bs := bs + more;
      }
    }
  }

  lemma AfterCommandRefines(c: Conn) returns (bs: seq<Byte>)
    requires Between(c.reader) && c.reader.command != 0
    ensures Reads(c.reader, c, AfterCommand(c), bs)
  {
    if c.reader.haveRemaining {
      bs := ReadPayloadRefines(c);
    } else {
      bs := ReadLengthRefines(c);
    }
  }

  // ----- a stream of packets --------------------------------------------------------

  /** A packet as section 2.2 of MQTT 3.1.1 has it; its length need not be written in the
      shortest way. */
  predicate WellFormed(p: Frame) {
    p.command != 0 && Framed(p)
  }

  /** The digits are a length field, and that of the payload. */
  predicate Framed(p: Frame) {
    IsLength(p.digits) && LengthValue(p.digits) == |p.payload|
  }

  function PacketBytes(p: Frame): (r: seq<Byte>)
    ensures |r| == 1 + |p.digits| + |p.payload|
  {
    [p.command] + p.digits + p.payload
  }

  function Stream(ps: seq<Frame>): seq<Byte> {
    if ps == [] then [] else PacketBytes(ps[0]) + Stream(ps[1..])
  }

  function HandledOf(ps: seq<Frame>): (r: seq<Handled>)
    ensures |r| == |ps|
  {
    if ps == [] then [] else [Handled(ps[0].command, ps[0].payload)] + HandledOf(ps[1..])
  }

  /** How many packets end within the first `n` bytes of the stream. */
  function Whole(ps: seq<Frame>, n: nat): (k: nat)
    ensures k <= |ps|
  {
    if ps == [] || n < |PacketBytes(ps[0])| then 0 else 1 + Whole(ps[1..], n - |PacketBytes(ps[0])|)
  }

  /** The reader inside packet `p`, of which it has `n` bytes. */
  function Inside(p: Frame, n: nat, isNew: bool, handled: seq<Handled>): Reader
    requires n < |PacketBytes(p)|
  {
    if n == 0 then Idle(isNew, handled)
    else if n <= |p.digits| then
      Reader(p.command, false, n - 1, Weight(n - 1), LengthValue(p.digits[..n - 1]), [], 0, isNew, handled)
    else
      var m := n - 1 - |p.digits|;
      Reader(p.command, true, |p.digits|, Weight(|p.digits|), |p.payload|,
             p.payload[..m], |p.payload| - m, isNew, handled)
  }

  /** The next byte of a packet, unless it is the last. */
  lemma InsideStep(p: Frame, n: nat, isNew: bool, handled: seq<Handled>)
    requires WellFormed(p) && n < |PacketBytes(p)| && (isNew ==> p.command / 16 == 1)
    ensures Feed(Inside(p, n, isNew, handled), PacketBytes(p)[n]) ==
      Some(if n + 1 < |PacketBytes(p)| then Inside(p, n + 1, isNew, handled)
           else Idle(false, handled + [Handled(p.command, p.payload)]))
  {
    if n == 0 {
    } else if n <= |p.digits| {
      DigitStep(p, n, isNew, handled);
    } else {
      var m := n - 1 - |p.digits|;
      assert PacketBytes(p)[n] == p.payload[m];
      assert p.payload[..m] + [p.payload[m]] == p.payload[..m + 1];
      assert p.payload[..|p.payload|] == p.payload;
    }
  }

  lemma DigitStep(p: Frame, n: nat, isNew: bool, handled: seq<Handled>)
    requires WellFormed(p) && 1 <= n <= |p.digits| && n < |PacketBytes(p)|
    ensures Feed(Inside(p, n, isNew, handled), PacketBytes(p)[n]) ==
      Some(if n + 1 < |PacketBytes(p)| then Inside(p, n + 1, isNew, handled)
           else Idle(false, handled + [Handled(p.command, p.payload)]))
  {
    hide Framed, TakeDigit;
    assert PacketBytes(p)[n] == p.digits[n - 1];
    DigitTaken(p, n, isNew, handled);
  }

  /** The reader that has the command and the length of packet `p`. */
  function Started(p: Frame, isNew: bool, handled: seq<Handled>): Reader {
    Reader(p.command, true, |p.digits|, Weight(|p.digits|), |p.payload|, [], |p.payload|, isNew, handled)
  }

  lemma DigitTaken(p: Frame, n: nat, isNew: bool, handled: seq<Handled>)
    requires Framed(p) && 1 <= n <= |p.digits|
    ensures TakeDigit(Inside(p, n, isNew, handled), p.digits[n - 1]) ==
      Some(if n < |p.digits| then Inside(p, n + 1, isNew, handled) else Started(p, isNew, handled))
  {
    var d := p.digits[n - 1];
    LengthValueAppend(p.digits[..n - 1], d);
    assert p.digits[..n - 1] + [d] == p.digits[..n];
    assert p.digits[..|p.digits|] == p.digits;
    assert d < 128 <==> n == |p.digits|;
  }

  lemma {:induction false} InsideAfter(p: Frame, n: nat, isNew: bool, handled: seq<Handled>)
    requires WellFormed(p) && n < |PacketBytes(p)| && (isNew ==> p.command / 16 == 1)
    ensures FeedAll(Idle(isNew, handled), PacketBytes(p)[..n]) == Some(Inside(p, n, isNew, handled))
    decreases n
  {
    var w := PacketBytes(p);
    if n > 0 {
      InsideAfter(p, n - 1, isNew, handled);
      InsideStep(p, n - 1, isNew, handled);
      FeedAllAppend(Idle(isNew, handled), w[..n - 1], [w[n - 1]]);
      assert w[..n] == w[..n - 1] + [w[n - 1]];
    }
  }

  lemma WholePacket(p: Frame, isNew: bool, handled: seq<Handled>)
    requires WellFormed(p) && (isNew ==> p.command / 16 == 1)
    ensures FeedAll(Idle(isNew, handled), PacketBytes(p)) ==
      Some(Idle(false, handled + [Handled(p.command, p.payload)]))
  {
    var w := PacketBytes(p);
    var n := |w| - 1;
    InsideAfter(p, n, isNew, handled);
    InsideStep(p, n, isNew, handled);
    FeedAllAppend(Idle(isNew, handled), w[..n], [w[n]]);
    assert w == w[..n] + [w[n]];
  }

  /** A stream the broker accepts: well-formed packets, of which the first is CONNECT on a
      new connection. */
  predicate Proper(ps: seq<Frame>, isNew: bool) {
    && (forall i :: 0 <= i < |ps| ==> WellFormed(ps[i]))
    && (isNew && ps != [] ==> ps[0].command / 16 == 1)
  }

  /** The first packet read, the rest of the stream is read by an idle reader. */
  lemma StreamSkip(ps: seq<Frame>, n: nat, isNew: bool, handled: seq<Handled>)
    requires Proper(ps, isNew) && ps != [] && |PacketBytes(ps[0])| <= n <= |Stream(ps)|
    ensures var m := n - |PacketBytes(ps[0])|;
      && FeedAll(Idle(isNew, handled), Stream(ps)[..n]) ==
           FeedAll(Idle(false, handled + [Handled(ps[0].command, ps[0].payload)]), Stream(ps[1..])[..m])
      && (n < |Stream(ps)| ==> Stream(ps)[n] == Stream(ps[1..])[m])
  {
    hide Feed, FeedAll;
    var w := PacketBytes(ps[0]);
    WholePacket(ps[0], isNew, handled);
    FeedAllAppend(Idle(isNew, handled), w, Stream(ps[1..])[..n - |w|]);
    assert Stream(ps)[..n] == w + Stream(ps[1..])[..n - |w|];
  }

  /** Within the first packet nothing has been handed over yet. */
  lemma StreamStart(ps: seq<Frame>, n: nat, isNew: bool, handled: seq<Handled>)
    requires Proper(ps, isNew) && ps != [] && n < |PacketBytes(ps[0])|
    ensures n <= |Stream(ps)|
    ensures var o := FeedAll(Idle(isNew, handled), Stream(ps)[..n]);
      && o.Some? && o.value.handled == handled
      && (o.value.command == 0 ==> o.value == Idle(isNew, handled) && Stream(ps)[n] != 0)
  {
    hide Feed, FeedAll;
    InsideAfter(ps[0], n, isNew, handled);
    assert Stream(ps)[..n] == PacketBytes(ps[0])[..n];
  }

  /** Of a proper stream cut off anywhere, exactly the packets that are whole are handed
      over, in order, and no breach of the protocol is seen. A reader that has no command is
      idle, and the next byte, if there is one, is not zero. */
  lemma {:induction false} StreamCut(ps: seq<Frame>, n: nat, isNew: bool, handled: seq<Handled>)
    requires Proper(ps, isNew) && n <= |Stream(ps)|
    ensures var o := FeedAll(Idle(isNew, handled), Stream(ps)[..n]);
      && o.Some? && o.value.handled == handled + HandledOf(ps[..Whole(ps, n)])
      && (o.value.command == 0 ==> o.value == Idle(o.value.isNew, o.value.handled))
      && (o.value.command == 0 && n < |Stream(ps)| ==> Stream(ps)[n] != 0)
    decreases |ps|
  {
    hide Feed, WellFormed, PacketBytes;
    if ps == [] {
      assert handled + [] == handled;
    } else {
      var w := PacketBytes(ps[0]);
      if n < |w| {
        StreamStart(ps, n, isNew, handled);
        assert ps[..0] == [] && handled + [] == handled;
      } else {
        StreamSkip(ps, n, isNew, handled);
        StreamCut(ps[1..], n - |w|, false, handled + [Handled(ps[0].command, ps[0].payload)]);
        var k := Whole(ps[1..], n - |w|);
        assert ps[..k + 1][0] == ps[0] && ps[..k + 1][1..] == ps[1..][..k];
      }
    }
  }

  // ----- any schedule of calls --------------------------------------------------------

  /** Calls of the reader, each meeting its own grants, until one fails. */
  function Calls(c: Conn, calls: seq<seq<Grant>>): (Conn, NetCode)
    decreases |calls|
  {
    if calls == [] then (c, Success)
    else
      var out := PacketRead(c.(grants := calls[0]));
      if out.1 != Success then out else Calls(out.0, calls[1..])
  }

  /** A connection on which the stream `ps` arrives, perhaps not all of it yet. */
  ghost predicate OnStream(c: Conn, ps: seq<Frame>, isNew: bool) {
    && c.taken + c.rest <= Stream(ps)
    && FeedAll(Idle(isNew, []), c.taken) == Some(c.reader)
  }

  /** For every schedule of partial reads, the packets handed over are exactly those the
      bytes taken so far complete, in order; the stream is never found faulty; and once it
      is all taken, all of its packets have been handed over. */
  lemma {:induction false} EveryScheduleReads(c: Conn, calls: seq<seq<Grant>>, ps: seq<Frame>, isNew: bool)
    requires Proper(ps, isNew) && OnStream(c, ps, isNew)
    ensures var out := Calls(c, calls);
      && out.1 != Protocol && OnStream(out.0, ps, isNew) && out.0.taken + out.0.rest == c.taken + c.rest
      && out.0.reader.handled == HandledOf(ps[..Whole(ps, |out.0.taken|)])
      && (out.0.taken == Stream(ps) ==> out.0.reader.handled == HandledOf(ps))
    decreases |calls|
  {
    assert Stream(ps)[..|c.taken|] == c.taken;
    StreamCut(ps, |c.taken|, isNew, []);
    if calls == [] {
      WholeAll(ps);
    } else {
      var start := c.(grants := calls[0]);
      assert c.rest != [] ==> Stream(ps)[|c.taken|] == c.rest[0];
      var bs := PacketReadRefines(start);
      var out := PacketRead(start);
      FeedAllAppend(Idle(isNew, []), c.taken, bs);
      assert c.taken + bs + c.rest[|bs|..] == c.taken + c.rest;
      assert c.taken + bs <= c.taken + c.rest;
      assert Stream(ps)[..|c.taken + bs|] == c.taken + bs;
      StreamCut(ps, |c.taken + bs|, isNew, []);
      assert OnStream(out.0, ps, isNew);
      EveryScheduleReads(out.0, [], ps, isNew);
      if out.1 == Success {
        EveryScheduleReads(out.0, calls[1..], ps, isNew);
      }
    }
  }

  lemma {:induction false} WholeAll(ps: seq<Frame>)
    ensures Whole(ps, |Stream(ps)|) == |ps| && ps[..|ps|] == ps
  {
    if ps != [] {
      WholeAll(ps[1..]);
    }
  }

  // ----- a handler that may fail --------------------------------------------------------

  /** The calls as above, but the packet handler may fail: `ok` tells its answer to the last of
      the packets handed over so far. A failure closes the connection. */
  function CallsUntil(c: Conn, calls: seq<seq<Grant>>, ok: seq<Handled> -> bool): (Conn, NetCode, bool)
    decreases |calls|
  {
    if calls == [] then (c, Success, true)
    else
      var (n, rc) := PacketRead(c.(grants := calls[0]));
      if n.reader.handled != c.reader.handled && !ok(n.reader.handled) then (n, rc, false)
      else if rc != Success then (n, rc, true)
      else CallsUntil(n, calls[1..], ok)
  }

  /** At most one packet more. */
  ghost predicate OneMore(a: seq<Handled>, b: seq<Handled>) {
    b == a || (b != [] && b[..|b| - 1] == a)
  }

  lemma {:induction false} PayloadHandsOne(c: Conn)
    ensures OneMore(c.reader.handled, ReadPayload(c).0.reader.handled)
    decreases |c.grants|
  {
    var n := Granted(c, c.reader.toProcess);
    if c.reader.toProcess != 0 && n != 0 {
      PayloadHandsOne(Took(c, n).(reader := TakePayload(c.reader, c.rest[..n])));
    }
  }

  lemma {:induction false} LengthHandsOne(c: Conn)
    ensures OneMore(c.reader.handled, ReadLength(c).0.reader.handled)
    decreases |c.grants|
  {
    if Granted(c, 1) != 0 && TakeDigit(c.reader, c.rest[0]).Some? {
      var r := TakeDigit(c.reader, c.rest[0]).value;
      var c' := Took(c, 1).(reader := r);
      if r.haveRemaining {
        PayloadHandsOne(c');
      } else {
        LengthHandsOne(c');
      }
    }
  }

  /** One call hands over at most one packet. */
  lemma CallHandsOne(c: Conn)
    ensures OneMore(c.reader.handled, PacketRead(c).0.reader.handled)
  {
    hide ReadPayload, ReadLength;
    var c' := if c.reader.command != 0 || Granted(c, 1) == 0 then c
              else Took(c, 1).(reader := c.reader.(command := c.rest[0]));
    PayloadHandsOne(c');
    LengthHandsOne(c');
  }

  /** The handler took all of these packets. */
  ghost predicate AllTaken(hs: seq<Handled>, ok: seq<Handled> -> bool) {
    forall j :: 0 < j <= |hs| ==> ok(hs[..j])
  }

  lemma TakenOn(a: seq<Handled>, b: seq<Handled>, ok: seq<Handled> -> bool)
    requires AllTaken(a, ok) && OneMore(a, b) && (b != a ==> ok(b))
    ensures AllTaken(b, ok)
  {
    forall j | 0 < j <= |b| ensures ok(b[..j]) {
      if b != a && j == |b| {
        assert b[..j] == b;
      } else {
        assert b[..j] == a[..j];
      }
    }
  }

  /** With a handler that may fail the schedule still makes no difference to what is handed
      over: always the packets completed so far, up to and with the first that the handler
      fails on; and only there do the calls end early. */
  lemma {:induction false} EveryScheduleStops(
    c: Conn, calls: seq<seq<Grant>>, ps: seq<Frame>, isNew: bool, ok: seq<Handled> -> bool)
    requires Proper(ps, isNew) && OnStream(c, ps, isNew) && AllTaken(c.reader.handled, ok)
    ensures var (n, rc, taken) := CallsUntil(c, calls, ok);
      && rc != Protocol && OnStream(n, ps, isNew) && n.taken + n.rest == c.taken + c.rest
      && n.reader.handled == HandledOf(ps[..Whole(ps, |n.taken|)])
      && (taken ==> AllTaken(n.reader.handled, ok) && (n, rc) == Calls(c, calls))
      && (!taken ==>
            var hs := n.reader.handled;
            hs != [] && !ok(hs) && AllTaken(hs[..|hs| - 1], ok))
    decreases |calls|
  {
    hide PacketRead, OnStream, AllTaken, Whole, HandledOf, Proper, OneMore;
    if calls == [] {
      EveryScheduleReads(c, [], ps, isNew);
    } else {
      var first := c.(grants := calls[0]);
      EveryScheduleReads(c, [calls[0]], ps, isNew);
      CallHandsOne(first);
      var (n, rc) := PacketRead(first);
      assert [calls[0]][1..] == [];
      assert Calls(c, [calls[0]]) == (n, rc);
      OneMoreEnds(c.reader.handled, n.reader.handled);
      if n.reader.handled == c.reader.handled || ok(n.reader.handled) {
        TakenOn(c.reader.handled, n.reader.handled, ok);
        if rc == Success {
          EveryScheduleStops(n, calls[1..], ps, isNew, ok);
        }
      }
    }
  }

  lemma OneMoreEnds(a: seq<Handled>, b: seq<Handled>)
    requires OneMore(a, b)
    ensures b != a ==> b != [] && b[..|b| - 1] == a
  {
  }

  // ----- what is not a stream -----------------------------------------------------------------

  /** A client that has not sent CONNECT is heard no further if its first packet is another one:
      whatever the schedule, nothing is handed over, and once a byte is taken the connection
      ends with a protocol error. */
  lemma {:induction false} FirstMustConnect(c: Conn, calls: seq<seq<Grant>>)
    requires c.reader == Idle(true, []) && (c.rest != [] ==> c.rest[0] / 16 != 1)
    ensures var (n, rc) := Calls(c, calls);
      n.reader.handled == [] && (if n.taken == c.taken then rc != Protocol else rc == Protocol)
    decreases |calls|
  {
    if calls != [] {
      var first := c.(grants := calls[0]);
      var (n, rc) := PacketRead(first);
      if rc == Success {
        assert n.reader == c.reader && n.rest == c.rest && n.taken == c.taken;
        FirstMustConnect(n, calls[1..]);
      }
    }
  }

  /** A length field of more than four digits is a breach of the protocol. */
  lemma FiveDigits(r: Reader, ds: seq<Byte>)
    requires r == Idle(r.isNew, r.handled).(command := r.command) && r.command != 0
    requires |ds| == 5 && ds[0] >= 128 && ds[1] >= 128 && ds[2] >= 128 && ds[3] >= 128
    ensures FeedAll(r, ds).None? && FeedAll(r, ds[..4]).Some?
  {
    var r1 := Feed(r, ds[0]).value;
    var r2 := Feed(r1, ds[1]).value;
    var r3 := Feed(r2, ds[2]).value;
    var r4 := Feed(r3, ds[3]).value;
    assert Feed(r4, ds[4]).None?;
    assert FeedAll(r4, ds[4..]).None? && FeedAll(r3, ds[3..]).None? && FeedAll(r2, ds[2..]).None?;
    assert ds[3..][1..] == ds[4..] && ds[2..][1..] == ds[3..] && ds[1..][1..] == ds[2..];
    var es := ds[..4];
    assert es[3..][1..] == [] && es[2..][1..] == es[3..] && es[1..][1..] == es[2..];
    assert FeedAll(r4, []) == Some(r4) && FeedAll(r3, es[3..]) == Some(r4) && FeedAll(r2, es[2..]) == Some(r4);
  }

  /** A call that finds no byte leaves the reader as it was, and tells what it met. The end of the
      stream in the middle of a payload is told from an error by what an earlier call left in the
      error number. */
  lemma NoByteNoChange(c: Conn)
    requires c.grants != [] && !c.grants[0].Take? && Between(c.reader)
    requires c.reader.command == 0 ==> !c.reader.haveRemaining
    ensures var (n, rc) := PacketRead(c);
      && n == c.(grants := c.grants[1..])
      && rc == (if c.grants[0].Again? then Success
                else if c.grants[0].Broken? then Failed
                else if !c.reader.haveRemaining then ConnLost
                else if c.grants[0].staleAgain then Success
                else Failed)
  {
    assert c.taken + c.rest[..0] == c.taken && c.rest[0..] == c.rest;
  }

  // ----- PUBLISH over a stream --------------------------------------------------------

  /** A message within the limits of the wire format. */
  predicate Fits(m: Publish) {
    Sendable(m) && m.topic != [] && |m.topic| < 0x1_0000 && BodySize(m) <= MAX_REMAINING && (m.qos == 0 ==> m.mid == 0)
  }

  function PublishPacket(m: Publish): Frame
    requires m.qos <= 2
  {
    Frame(Header(m), LengthBytes(BodySize(m)), Body(m))
  }

  function PublishPackets(ms: seq<Publish>): (ps: seq<Frame>)
    requires forall i :: 0 <= i < |ms| ==> Fits(ms[i])
    ensures |ps| == |ms| && forall i :: 0 <= i < |ms| ==> Fits(ms[i]) && ps[i] == PublishPacket(ms[i])
  {
    seq(|ms|, i requires 0 <= i < |ms| && Fits(ms[i]) => PublishPacket(ms[i]))
  }

  lemma PublishWellFormed(m: Publish)
    requires Fits(m)
    ensures WellFormed(PublishPacket(m)) && PacketBytes(PublishPacket(m)) == Encode(m)
    ensures Decode(Header(m), Body(m)) == Message(m)
  {
    LengthBytesMinimal(BodySize(m));
    BodyFills(m);
    PublishRoundTrip(m);
  }

  lemma {:induction false} HandledAt(ps: seq<Frame>, i: nat)
    requires i < |ps|
    ensures HandledOf(ps)[i] == Handled(ps[i].command, ps[i].payload)
  {
    if i > 0 {
      HandledAt(ps[1..], i - 1);
    }
  }

  /** Messages encoded one after the other arrive, however writer and reader cut the
      stream, as the same messages in the same order, and none is lost or split. */
  lemma EveryPublishArrives(ms: seq<Publish>, c: Conn, calls: seq<seq<Grant>>)
    requires forall i :: 0 <= i < |ms| ==> Fits(ms[i])
    requires c.reader == Idle(false, []) && c.taken == [] && c.rest <= Stream(PublishPackets(ms))
    ensures var out := Calls(c, calls).0;
      && Calls(c, calls).1 != Protocol
      && |out.reader.handled| == Whole(PublishPackets(ms), |out.taken|)
      && (out.taken == Stream(PublishPackets(ms)) ==> |out.reader.handled| == |ms|)
      && forall i :: 0 <= i < |out.reader.handled| ==>
           Decode(out.reader.handled[i].command, out.reader.handled[i].payload) == Message(ms[i])
  {
    var ps := PublishPackets(ms);
    forall i | 0 <= i < |ps| ensures WellFormed(ps[i]) {
      PublishWellFormed(ms[i]);
    }
    assert c.taken + c.rest == c.rest;
    EveryScheduleReads(c, calls, ps, false);
    var out := Calls(c, calls).0;
    var k := Whole(ps, |out.taken|);
    forall i | 0 <= i < |out.reader.handled|
      ensures Decode(out.reader.handled[i].command, out.reader.handled[i].payload) == Message(ms[i])
    {
      HandledAt(ps[..k], i);
      PublishWellFormed(ms[i]);
    }
  }

  // ----- which streams depend on the schedule -----------------------------------------

  /** A stream of packets whose length fields are right, whatever their commands. */
  predicate Fair(ps: seq<Frame>, isNew: bool) {
    && (forall i :: 0 <= i < |ps| ==> Framed(ps[i]))
    && (isNew && ps != [] ==> ps[0].command / 16 == 1)
  }

  function Before(ps: seq<Frame>, isNew: bool): Conn {
    Conn(Idle(isNew, []), [], Stream(ps), [])
  }

  /** The reader is done: nothing is left to be read, or it has found a fault. */
  ghost predicate Ended(out: (Conn, NetCode)) {
    out.0.rest == [] || out.1 == Protocol
  }

  /** Two schedules that run to the end hand over the same packets. */
  ghost predicate ScheduleFree(ps: seq<Frame>, isNew: bool) {
    forall a, b :: Ended(Calls(Before(ps, isNew), a)) && Ended(Calls(Before(ps, isNew), b)) ==>
      Calls(Before(ps, isNew), a).0.reader.handled == Calls(Before(ps, isNew), b).0.reader.handled
  }

  function OnesAnd(n: nat, g: Grant): seq<Grant> {
    if n == 0 then [g] else [Take(1)] + OnesAnd(n - 1, g)
  }

  /** One call for each packet: its first bytes one by one, its payload at once. */
  function PacketByPacket(ps: seq<Frame>): seq<seq<Grant>> {
    if ps == [] then [] else [OnesAnd(1 + |ps[0].digits|, Take(|ps[0].payload|))] + PacketByPacket(ps[1..])
  }

  function ByteByByte(n: nat): seq<seq<Grant>> {
    if n == 0 then [] else [[Take(1)]] + ByteByByte(n - 1)
  }

  lemma CallOnce(c: Conn, g: seq<Grant>, more: seq<seq<Grant>>)
    ensures var out := PacketRead(c.(grants := g));
      Calls(c, [g] + more) == if out.1 != Success then out else Calls(out.0, more)
    ensures Calls(c, []) == (c, Success)
  {
    assert ([g] + more)[1..] == more;
  }

  /** The payload, when the socket brings it at once. */
  lemma PayloadAtOnce(c: Conn, p: Frame, rest: seq<Byte>)
    requires c.reader == Started(p, c.reader.isNew, c.reader.handled)
    requires c.rest == p.payload + rest && c.grants == [Take(|p.payload|)]
    ensures var out := ReadPayload(c);
      && out.1 == Success && out.0.rest == rest
      && out.0.reader == Idle(false, c.reader.handled + [Handled(p.command, p.payload)])
  {
    hide ReadPayload;
    PayloadStep(c);
    var n := |p.payload|;
    if n > 0 {
      assert c.rest[..n] == p.payload && [] + p.payload == p.payload && c.rest[n..] == rest;
      PayloadStep(Took(c, n).(reader := TakePayload(c.reader, p.payload)));
    } else {
      assert p.payload == [] && c.rest == rest;
    }
  }

  /** The rest of a call that has `n - 1` digits of packet `p`, whatever its command. */
  lemma {:induction false} LengthAtOnce(c: Conn, p: Frame, n: nat, rest: seq<Byte>)
    requires Framed(p) && 1 <= n <= |p.digits| && c.reader == Inside(p, n, c.reader.isNew, c.reader.handled)
    requires c.rest == p.digits[n - 1..] + p.payload + rest
    requires c.grants == OnesAnd(|p.digits| - n + 1, Take(|p.payload|))
    ensures var out := ReadLength(c);
      && out.1 == Success && out.0.rest == rest
      && out.0.reader == Idle(false, c.reader.handled + [Handled(p.command, p.payload)])
    decreases |p.digits| - n
  {
    hide ReadLength, ReadPayload, TakeDigit, Framed, Inside;
    LengthStep(c);
    DigitTaken(p, n, c.reader.isNew, c.reader.handled);
    assert c.rest[0] == p.digits[n - 1] && c.rest[1..] == p.digits[n..] + p.payload + rest;
    if n < |p.digits| {
      var next := Took(c, 1).(reader := Inside(p, n + 1, c.reader.isNew, c.reader.handled));
      assert !next.reader.haveRemaining by { InsideLength(p, n + 1, c.reader.isNew, c.reader.handled); }
      InsideLength(p, n + 1, c.reader.isNew, c.reader.handled);
      LengthAtOnce(next, p, n + 1, rest);
    } else {
      var next := Took(c, 1).(reader := Started(p, c.reader.isNew, c.reader.handled));
      assert p.digits[n..] == [] && [] + p.payload + rest == p.payload + rest;
      PayloadAtOnce(next, p, rest);
    }
  }

  lemma InsideLength(p: Frame, n: nat, isNew: bool, handled: seq<Handled>)
    requires 1 <= n <= |p.digits|
    ensures var r := Inside(p, n, isNew, handled); !r.haveRemaining && r.isNew == isNew && r.handled == handled
  {
  }

  /** In one call a packet is handed over even if its command is 0. */
  lemma PacketAtOnce(c: Conn, p: Frame, rest: seq<Byte>)
    requires Framed(p) && c.reader == Idle(c.reader.isNew, c.reader.handled) && (c.reader.isNew ==> p.command / 16 == 1)
    requires c.rest == PacketBytes(p) + rest && c.grants == OnesAnd(1 + |p.digits|, Take(|p.payload|))
    ensures var out := PacketRead(c);
      && out.1 == Success && out.0.rest == rest
      && out.0.reader == Idle(false, c.reader.handled + [Handled(p.command, p.payload)])
  {
    hide ReadLength, ReadPayload;
    var next := Took(c, 1).(reader := c.reader.(command := p.command));
    assert c.rest[0] == p.command && c.rest[1..] == p.digits[0..] + p.payload + rest;
    assert p.digits[..0] == [];
    LengthAtOnce(next, p, 1, rest);
  }

  lemma FirstAtOnce(c: Conn, ps: seq<Frame>)
    requires Fair(ps, c.reader.isNew) && ps != [] && c.reader == Idle(c.reader.isNew, c.reader.handled)
    requires c.rest == Stream(ps)
    ensures var out := PacketRead(c.(grants := OnesAnd(1 + |ps[0].digits|, Take(|ps[0].payload|))));
      && out.1 == Success && out.0.rest == Stream(ps[1..]) && Fair(ps[1..], false)
      && out.0.reader == Idle(false, c.reader.handled + [Handled(ps[0].command, ps[0].payload)])
  {
    hide PacketRead, Framed, PacketBytes, OnesAnd;
    PacketAtOnce(c.(grants := OnesAnd(1 + |ps[0].digits|, Take(|ps[0].payload|))), ps[0], Stream(ps[1..]));
  }

  lemma {:induction false} AllAtOnce(c: Conn, ps: seq<Frame>)
    requires Fair(ps, c.reader.isNew) && c.reader == Idle(c.reader.isNew, c.reader.handled) && c.rest == Stream(ps)
    ensures var out := Calls(c, PacketByPacket(ps));
      out.1 == Success && out.0.rest == [] && out.0.reader.handled == c.reader.handled + HandledOf(ps)
    decreases |ps|
  {
    hide Calls, PacketRead, Fair, OnesAnd, Stream, PacketBytes, HandledOf;
    CallOnce(c, [], []);
    NoPackets();
    if ps != [] {
      var g := OnesAnd(1 + |ps[0].digits|, Take(|ps[0].payload|));
      var next := PacketRead(c.(grants := g)).0;
      FirstAtOnce(c, ps);
      AllAtOnce(next, ps[1..]);
      CallOnce(c, g, PacketByPacket(ps[1..]));
      HandledFirst(c.reader.handled, ps);
    }
  }

  lemma HandledFirst(handled: seq<Handled>, ps: seq<Frame>)
    requires ps != []
    ensures handled + [Handled(ps[0].command, ps[0].payload)] + HandledOf(ps[1..]) == handled + HandledOf(ps)
  {
  }

  lemma NoPackets()
    ensures Stream([]) == [] && HandledOf([]) == []
  {
  }

  /** Between two calls, before the first length digit. */
  ghost predicate Steady(r: Reader) {
    Between(r) && (r.command == 0 ==> !r.haveRemaining) && forall h :: h in r.handled ==> h.command != 0
  }

  /** A call that gets one byte does with it what the byte-at-a-time reader does, also if
      the byte is a zero. */
  lemma OneByteCall(c: Conn)
    requires Steady(c.reader) && c.rest != [] && c.grants == [Take(1)]
    ensures var out, o := PacketRead(c), Feed(c.reader, c.rest[0]);
      if o.None? then out.1 == Protocol && out.0.reader.handled == c.reader.handled
      else out.1 == Success && out.0.reader == o.value && out.0.rest == c.rest[1..]
  {
    var b := c.rest[0];
    assert c.rest[..1] == [b];
    if c.reader.command != 0 {
      if c.reader.haveRemaining {
        PayloadStep(c);
        PayloadStep(Took(c, 1).(reader := TakePayload(c.reader, [b])));
      } else {
        OneDigitCall(c);
      }
    }
  }

  lemma OneDigitCall(c: Conn)
    requires c.reader.command != 0 && !c.reader.haveRemaining && c.rest != [] && c.grants == [Take(1)]
    ensures var out, o := ReadLength(c), Feed(c.reader, c.rest[0]);
      if o.None? then out.1 == Protocol && out.0.reader.handled == c.reader.handled
      else out.1 == Success && out.0.reader == o.value && out.0.rest == c.rest[1..]
  {
    hide ReadLength, ReadPayload;
    LengthStep(c);
    match TakeDigit(c.reader, c.rest[0])
    case None =>
    case Some(r) =>
      LengthStep(Took(c, 1).(reader := r));
      PayloadStep(Took(c, 1).(reader := r));
  }

  lemma FeedSteady(r: Reader, b: Byte)
    requires Steady(r)
    ensures Feed(r, b).Some? ==> Steady(Feed(r, b).value)
  {
  }

  /** Byte by byte no packet with the command 0 is handed over. */
  lemma {:induction false} NoZeroByteByByte(c: Conn)
    requires Steady(c.reader)
    ensures var out := Calls(c, ByteByByte(|c.rest|));
      Ended(out) && forall h :: h in out.0.reader.handled ==> h.command != 0
    decreases |c.rest|
  {
    hide Calls, PacketRead, Feed, Between;
    if c.rest == [] {
      CallOnce(c, [], []);
    } else {
      var start := c.(grants := [Take(1)]);
      OneByteCall(start);
      FeedSteady(c.reader, c.rest[0]);
      CallOnce(c, [Take(1)], ByteByByte(|c.rest| - 1));
      if PacketRead(start).1 == Success {
        NoZeroByteByByte(PacketRead(start).0);
      }
    }
  }

  /** What is handed over depends on how the stream is cut up exactly if some packet has
      the command 0: the zero is taken for a command only until the call returns. */
  lemma ScheduleFreeIff(ps: seq<Frame>, isNew: bool)
    requires Fair(ps, isNew)
    ensures ScheduleFree(ps, isNew) <==> forall i :: 0 <= i < |ps| ==> ps[i].command != 0
  {
    hide Framed, PacketBytes;
    var c := Before(ps, isNew);
    if i :| 0 <= i < |ps| && ps[i].command == 0 {
      var a, b := PacketByPacket(ps), ByteByByte(|c.rest|);
      AllAtOnce(c, ps);
      NoZeroByteByByte(c);
      HandledAt(ps, i);
      assert Handled(0, ps[i].payload) in Calls(c, a).0.reader.handled;
      assert Calls(c, a).0.reader.handled != Calls(c, b).0.reader.handled;
    } else {
      assert forall i :: 0 <= i < |ps| ==> WellFormed(ps[i]);
      forall a | Ended(Calls(c, a)) ensures Calls(c, a).0.reader.handled == HandledOf(ps) {
        EveryScheduleReads(c, a, ps, isNew);
      }
    }
  }

  /** The shortest packet with the command 0 and a payload. */
  lemma ZeroCommandDependsOnSchedule()
    ensures var c := Before([Frame(0, [1], [7])], false);
      && c.rest == [0, 1, 7]
      && Calls(c, [[Take(1), Take(1), Take(1)]]).0.reader.handled == [Handled(0, [7])]
      && Ended(Calls(c, [[Take(1)], [Take(1)], [Take(1)]]))
      && Handled(0, [7]) !in Calls(c, [[Take(1)], [Take(1)], [Take(1)]]).0.reader.handled
  {
    hide Calls, PacketRead;
    var p := Frame(0, [1], [7]);
    var c := Before([p], false);
    assert Weight(0) == 1;
    assert Framed(p);
    AllAtOnce(c, [p]);
    NoZeroByteByByte(c);
    assert OnesAnd(1, Take(1)) == [Take(1), Take(1)];
    assert OnesAnd(2, Take(1)) == [Take(1), Take(1), Take(1)];
    assert [p][1..] == [] && PacketByPacket([p]) == [OnesAnd(2, Take(1))];
    assert HandledOf([p]) == [Handled(0, [7])];
    assert ByteByByte(3) == [[Take(1)], [Take(1)], [Take(1)]];
  }
}

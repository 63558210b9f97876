/** `struct _mosquitto_packet`: a buffer with a moving position, filled by the senders and
    consumed by the handlers. Each method is proved against the bytes of Wire. */
module Packets {
  import opened Wire

  datatype Code = Success | Protocol | PayloadSize

  lemma NextDigit(n: nat)
    ensures LengthBytes(n)[0] == if n / 128 > 0 then n % 128 + 128 else n % 128
    ensures LengthBytes(n)[1..] == if n / 128 > 0 then LengthBytes(n / 128) else []
  {
  }

  lemma AddDigit(digits: seq<Byte>, before: seq<Byte>, byte: Byte, rest: seq<Byte>)
    requires |before| < |digits| && digits[..|before|] == before && digits[|before|] == byte
    ensures digits[..|before| + 1] + rest == before + ([byte] + rest)
  {
    assert digits[..|before| + 1] == before + [byte];
  }

  lemma DigitsNeeded(n: nat)
    requires n < 0x1_0000_0000
    ensures |LengthBytes(n)| <= 5 && (|LengthBytes(n)| < 5 <==> n <= MAX_REMAINING)
  {
    LengthBytesSize(n, 3);
    LengthBytesSize(n, 4);
    assert Weight(4) == MAX_REMAINING + 1 && Weight(5) > n;
  }

  class Packet {
    var command: Byte
    var remainingLength: nat
    var remainingCount: nat
    var packetLength: nat
    var pos: nat
    var payload: array<Byte>

    ghost predicate Valid()
      reads this
    {
      pos <= payload.Length
    }

    /** What the position has moved over. */
    ghost function Done(): seq<Byte>
      requires Valid()
      reads this, payload
    {
      payload[..pos]
    }

    constructor (command: Byte, remainingLength: nat)
      ensures this.command == command && this.remainingLength == remainingLength && pos == 0 && Valid()
    {
      this.command := command;
      this.remainingLength := remainingLength;
      remainingCount := 0;
      packetLength := 0;
      pos := 0;
      payload := new Byte[0];
    }

    /** A packet as the reader hands it over. */
    constructor Received(command: Byte, body: array<Byte>)
      ensures this.command == command && remainingLength == body.Length && payload == body && pos == 0 && Valid()
    {
      this.command := command;
      remainingLength := body.Length;
      remainingCount := 0;
      packetLength := 0;
      pos := 0;
      payload := body;
    }

    // ----- sending ------------------------------------------------------------

    /** `_mosquitto_packet_alloc`: the fixed header, in a buffer for the whole packet. */
    method Alloc() returns (rc: Code)
      requires remainingLength < 0x1_0000_0000
      modifies this
      ensures command == old(command) && remainingLength == old(remainingLength)
      ensures rc == (if remainingLength <= MAX_REMAINING then Success else PayloadSize)
      ensures rc == Success ==>
        && fresh(payload) && Valid() && packetLength == payload.Length
        && Done() == [command] + LengthBytes(remainingLength)
        && packetLength == pos + remainingLength
    {
      var digits := Digits();
      if remainingCount == 5 {
        return PayloadSize;
      }
      packetLength := remainingLength + 1 + remainingCount;
      payload := new Byte[packetLength];
      PutHeader(digits);
      pos := 1 + remainingCount;
      return Success;
    }

    /** The digits of the length, in a buffer of five; the fifth is one too many. */
    method Digits() returns (digits: array<Byte>)
      requires remainingLength < 0x1_0000_0000
      modifies this`remainingCount
      ensures fresh(digits) && digits.Length == 5 && remainingCount <= 5
      ensures remainingCount < 5 <==> remainingLength <= MAX_REMAINING
      ensures digits[..remainingCount] == LengthBytes(remainingLength)
    {
      hide Weight, LengthBytes;
      digits := new Byte[5];
      var left := remainingLength;
      remainingCount := 0;
      DigitsNeeded(left);
      ghost var rest := LengthBytes(left);
      var more := true;
      while more
        invariant remainingCount <= 5 && (more ==> remainingCount < 5 && rest == LengthBytes(left))
        invariant !more ==> rest == []
        invariant digits[..remainingCount] + rest == LengthBytes(remainingLength)
        decreases more, 5 - remainingCount
      {
        NextDigit(left);
        ghost var before := digits[..remainingCount];
        var byte := left % 128;
        left := left / 128;
        if left > 0 {
          byte := byte + 128;
        }
        digits[remainingCount] := byte;
        remainingCount := remainingCount + 1;
        rest := rest[1..];
        AddDigit(digits[..], before, byte, rest);
        more := left > 0 && remainingCount < 5;
      }
    }

    /** The command and the digits at the front of the buffer. */
    method PutHeader(digits: array<Byte>)
      requires payload != digits && remainingCount <= digits.Length && remainingCount < payload.Length
      modifies payload
      ensures payload[..1 + remainingCount] == [command] + digits[..remainingCount]
    {
      payload[0] := command;
      for i := 0 to remainingCount
        invariant payload[0] == command
        invariant forall k :: 0 <= k < i ==> payload[k + 1] == digits[k]
      {
        payload[i + 1] := digits[i];
      }
    }

    method WriteByte(byte: Byte)
      requires Valid() && pos + 1 <= payload.Length
      modifies this`pos, payload
      ensures Valid() && pos == old(pos) + 1 && Done() == old(Done()) + [byte]
    {
      payload[pos] := byte;
      pos := pos + 1;
    }

    method WriteBytes(bytes: seq<Byte>)
      requires Valid() && pos + |bytes| <= payload.Length
      modifies this`pos, payload
      ensures Valid() && pos == old(pos) + |bytes| && Done() == old(Done()) + bytes
    {
      for i := 0 to |bytes|
        invariant pos == old(pos) && payload[..pos + i] == old(Done()) + bytes[..i]
      {
        payload[pos + i] := bytes[i];
        assert bytes[..i + 1] == bytes[..i] + [bytes[i]];
      }
      pos := pos + |bytes|;
    }

    method WriteUint16(word: Word)
      requires Valid() && pos + 2 <= payload.Length
      modifies this`pos, payload
      ensures Valid() && pos == old(pos) + 2 && Done() == old(Done()) + WordBytes(word)
    {
      WriteByte(word / 0x100);
      WriteByte(word % 0x100);
    }

    /** `length` is the 16-bit parameter the string's length is passed through. */
    method WriteString(str: seq<Byte>, length: Word)
      requires Valid() && length <= |str| && pos + 2 + length <= payload.Length
      modifies this`pos, payload
      ensures Valid() && pos == old(pos) + 2 + length && Done() == old(Done()) + WordBytes(length) + str[..length]
    {
      WriteUint16(length);
      WriteBytes(str[..length]);
    }

    /** Topic, packet id and payload of a PUBLISH. */
    method WriteBody(m: Publish)
      requires Valid() && pos + |Body(m)| <= payload.Length
      modifies this`pos, payload
      ensures Valid() && pos == old(pos) + |Body(m)| && Done() == old(Done()) + Body(m)
    {
      hide WordBytes;
      WriteString(m.topic, |m.topic| % 0x1_0000);
      if m.qos > 0 {
        WriteUint16(m.mid);
      }
      if m.payload != [] {
        WriteBytes(m.payload);
      }
      BodyInPieces(m, old(Done()));
    }

    // ----- receiving ----------------------------------------------------------

    method ReadByte() returns (rc: Code, byte: Byte)
      requires Valid() && remainingLength == payload.Length
      modifies this`pos
      ensures Valid() && rc == (if old(pos) + 1 > remainingLength then Protocol else Success)
      ensures rc == Success ==> pos == old(pos) + 1 && byte == payload[old(pos)]
    {
      if pos + 1 > remainingLength {
        return Protocol, 0;
      }
      byte := payload[pos];
      pos := pos + 1;
      rc := Success;
    }

    method ReadBytes(count: nat) returns (rc: Code, bytes: seq<Byte>)
      requires Valid() && remainingLength == payload.Length
      modifies this`pos
      ensures Valid() && rc == (if old(pos) + count > remainingLength then Protocol else Success)
      ensures rc == Success ==> pos == old(pos) + count && bytes == payload[old(pos)..pos]
    {
      if pos + count > remainingLength {
        return Protocol, [];
      }
      bytes := payload[pos..pos + count];
      pos := pos + count;
      rc := Success;
    }

    method ReadUint16() returns (rc: Code, word: Word)
      requires Valid() && remainingLength == payload.Length
      modifies this`pos
      ensures Valid() && rc == (if old(pos) + 2 > remainingLength then Protocol else Success)
      ensures rc == Success ==> pos == old(pos) + 2 && word == WordAt(payload[old(pos)], payload[old(pos) + 1])
    {
      if pos + 2 > remainingLength {
        return Protocol, 0;
      }
      var msb: nat := payload[pos];
      pos := pos + 1;
      var lsb: nat := payload[pos];
      pos := pos + 1;
      return Success, msb * 0x100 + lsb;
    }

    method ReadString() returns (rc: Code, str: seq<Byte>)
      requires Valid() && remainingLength == payload.Length
      modifies this`pos
      ensures Valid()
      ensures rc == Success <==>
        && old(pos) + 2 <= remainingLength
        && old(pos) + 2 + WordAt(payload[old(pos)], payload[old(pos) + 1]) <= remainingLength
      ensures rc == Success ==>
        && pos == old(pos) + 2 + WordAt(payload[old(pos)], payload[old(pos) + 1])
        && str == payload[old(pos) + 2..pos]
    {
      var len;
      str := [];
      rc, len := ReadUint16();
      if rc == Success {
        if pos + len > remainingLength {
          rc := Protocol;
        } else {
          str := payload[pos..pos + len];
          pos := pos + len;
        }
      }
    }

    /** The decoding part of `_mosquitto_handle_publish`. */
    method HandlePublish() returns (d: Decoded)
      requires Valid() && remainingLength == payload.Length && pos == 0
      modifies this`pos
      ensures Valid() && d == Decode(command, payload[..])
    {
      hide Cut, WordAt, BitSet;
      ghost var body := payload[..];
      var dup, qos, retain := BitSet(command, 8), command / 2 % 4, BitSet(command, 1);
      var rc, field := ReadString();
      if rc != Success {
        return Malformed;
      }
      assert field == body[2..2 + WordAt(body[0], body[1])];
      var topic := Cut(field);
      if topic == [] {
        return Malformed;
      }
      var mid := 0;
      if qos > 0 {
        rc, mid := ReadUint16();
        if rc != Success {
          return Malformed;
        }
      }
      var content;
      rc, content := ReadBytes(remainingLength - pos);
      ghost var n := WordAt(body[0], body[1]);
      if qos == 0 {
        assert content == body[2 + n..];
      } else {
        assert mid == WordAt(body[2 + n], body[3 + n]) && content == body[4 + n..];
      }
      if qos == 3 {
        return Malformed;
      }
      return Message(Publish(dup, qos, retain, topic, mid, content));
    }
  }

  /** `_mosquitto_send_real_publish` up to the queueing: the packet, filled to `pos`. Sizes
      are 32 bits wide. */
  method RealPublish(m: Publish) returns (rc: Code, packet: Packet)
    requires Sendable(m) && BodySize(m) < 0x1_0000_0000
    ensures rc == (if BodySize(m) <= MAX_REMAINING then Success else PayloadSize)
    ensures fresh(packet)
    ensures rc == Success ==>
      && packet.Valid() && packet.Done() == Encode(m) && packet.packetLength == packet.payload.Length
      && (packet.pos == packet.packetLength <==> |m.topic| < 0x1_0000)
  {
    hide Body, LengthBytes;
    var packetlen := 2 + |m.topic| + |m.payload|;
    if m.qos > 0 {
      packetlen := packetlen + 2;
    }
    packet := new Packet(0x30 + 8 * Bit(m.dup) + 2 * m.qos + Bit(m.retain), packetlen);
    rc := packet.Alloc();
    if rc != Success {
      return;
    }
    BodyFills(m);
    packet.WriteBody(m);
  }

  lemma BodyInPieces(m: Publish, start: seq<Byte>)
    ensures var n: Word := |m.topic| % 0x1_0000;
      var upTo := start + WordBytes(n) + m.topic[..n];
      start + Body(m) == (if m.qos > 0 then upTo + WordBytes(m.mid) else upTo) + m.payload
  {
  }

  /** `_mosquitto_send_command_with_mid`: PUBACK, PUBREC, PUBREL and PUBCOMP. The DUP bit is
      set, whether or not it was set before. */
  method CommandWithMid(command: Byte, mid: Word, dup: bool) returns (packet: Packet)
    ensures fresh(packet) && packet.Valid() && packet.payload.Length == packet.packetLength == 4
    ensures packet.payload[1..] == [2] + WordBytes(mid)
    ensures var first := packet.payload[0];
      && (BitSet(first, 8) <==> dup || BitSet(command, 8))
      && first / 16 == command / 16 && first % 8 == command % 8
  {
    packet := new Packet(if dup && !BitSet(command, 8) then command + 8 else command, 2);
    var _ := packet.Alloc();
    assert LengthBytes(2) == [2];
    ghost var header := packet.Done();
    packet.payload[packet.pos] := mid / 0x100;
    packet.payload[packet.pos + 1] := mid % 0x100;
    assert packet.payload[..packet.pos] == header;
    assert packet.payload[..] == packet.payload[..packet.pos] + WordBytes(mid);
  }
}

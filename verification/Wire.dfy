/** The bytes of an MQTT packet: the variable-size length field (section 2.2.3 of
    MQTT 3.1.1) and the PUBLISH packet (section 3.3), as values. */
module Wire {
  type Byte = b: nat | b < 0x100
  type Word = w: nat | w < 0x1_0000

  // ----- the remaining length -------------------------------------------------

  const MAX_REMAINING: nat := 268435455

  /** 128 to the power `k`, the weight of digit `k`. */
  function Weight(k: nat): (w: nat)
    ensures w > 0
  {
    if k == 0 then 1 else 128 * Weight(k - 1)
  }

  /** The digits `_mosquitto_packet_alloc` cuts off, the lowest first; the top bit marks
      every digit but the last. */
  function LengthBytes(n: nat): (r: seq<Byte>)
    ensures |r| >= 1
  {
    if n < 128 then [n] else [n % 128 + 128] + LengthBytes(n / 128)
  }

  /** A length field: at most four digits, marked as above, not necessarily the shortest. */
  predicate IsLength(ds: seq<Byte>) {
    && 1 <= |ds| <= 4
    && ds[|ds| - 1] < 128
    && forall i :: 0 <= i < |ds| - 1 ==> ds[i] >= 128
  }

  function LengthValue(ds: seq<Byte>): nat {
    if ds == [] then 0 else ds[0] % 128 + 128 * LengthValue(ds[1..])
  }

  lemma {:induction false} LengthBytesRead(n: nat)
    ensures LengthValue(LengthBytes(n)) == n
    ensures var ds := LengthBytes(n); ds[|ds| - 1] < 128 && forall i :: 0 <= i < |ds| - 1 ==> ds[i] >= 128
  {
    var ds := LengthBytes(n);
    if n >= 128 {
      LengthBytesRead(n / 128);
      assert ds[1..] == LengthBytes(n / 128);
    } else {
      assert ds[1..] == [];
    }
  }

  /** Any field with the same value is at least as long. */
  lemma {:induction false} LengthBytesShortest(ds: seq<Byte>)
    requires ds != []
    ensures |LengthBytes(LengthValue(ds))| <= |ds|
  {
    if |ds| > 1 {
      LengthBytesShortest(ds[1..]);
      var n := LengthValue(ds);
      if n >= 128 {
        assert n / 128 == LengthValue(ds[1..]);
      }
    } else {
      assert ds[1..] == [];
    }
  }

  lemma {:induction false} LengthBytesSize(n: nat, k: nat)
    ensures |LengthBytes(n)| <= k + 1 <==> n < Weight(k + 1)
  {
    if n >= 128 && k > 0 {
      LengthBytesSize(n / 128, k - 1);
    }
  }

  /** The encoding is exactly the field of its value that no other field undercuts, and it
      fits the four bytes exactly up to the limit. */
  lemma LengthBytesMinimal(n: nat)
    ensures IsLength(LengthBytes(n)) <==> n <= MAX_REMAINING
    ensures LengthValue(LengthBytes(n)) == n
    ensures forall ds: seq<Byte> :: ds != [] && LengthValue(ds) == n ==> |LengthBytes(n)| <= |ds|
  {
    LengthBytesRead(n);
    LengthBytesSize(n, 3);
    assert Weight(4) == MAX_REMAINING + 1;
    forall ds: seq<Byte> | ds != [] && LengthValue(ds) == n ensures |LengthBytes(n)| <= |ds| {
      LengthBytesShortest(ds);
    }
  }

  lemma LengthBytesInjective(m: nat, n: nat)
    requires LengthBytes(m) == LengthBytes(n)
    ensures m == n
  {
    LengthBytesRead(m);
    LengthBytesRead(n);
  }

  /** Adding one more digit at the far end, as the reader does. */
  lemma {:induction false} LengthValueAppend(ds: seq<Byte>, d: Byte)
    ensures LengthValue(ds + [d]) == LengthValue(ds) + d % 128 * Weight(|ds|)
  {
    if ds == [] {
      assert [d][1..] == [];
    } else {
      LengthValueAppend(ds[1..], d);
      assert (ds + [d])[1..] == ds[1..] + [d];
      assert 128 * (d % 128 * Weight(|ds| - 1)) == d % 128 * Weight(|ds|);
    }
  }

  // ----- words and strings ------------------------------------------------------

  function WordBytes(w: Word): (r: seq<Byte>)
    ensures |r| == 2
  {
    [w / 0x100, w % 0x100]
  }

  function WordAt(msb: Byte, lsb: Byte): Word {
    msb * 0x100 + lsb
  }

  lemma WordRead(w: Word)
    ensures WordAt(WordBytes(w)[0], WordBytes(w)[1]) == w
  {
  }

  /** A C string is cut at its first zero byte. */
  function Cut(s: seq<Byte>): (r: seq<Byte>)
    ensures r <= s
    ensures r == s <==> 0 !in s
    ensures 0 !in r
  {
    if s == [] || s[0] == 0 then [] else [s[0]] + Cut(s[1..])
  }

  // ----- PUBLISH ----------------------------------------------------------------

  datatype Publish = Publish(dup: bool, qos: nat, retain: bool, topic: seq<Byte>, mid: Word, payload: seq<Byte>)

  function Bit(b: bool): nat {
    if b then 1 else 0
  }

  /** A message `_mosquitto_send_real_publish` can be asked to send. */
  predicate Sendable(m: Publish) {
    m.qos <= 2 && 0 !in m.topic
  }

  /** The fixed header byte: PUBLISH, DUP, QoS, RETAIN. */
  function Header(m: Publish): Byte
    requires m.qos <= 2
  {
    0x30 + 8 * Bit(m.dup) + 2 * m.qos + Bit(m.retain)
  }

  /** `packetlen` */
  function BodySize(m: Publish): nat {
    2 + |m.topic| + |m.payload| + (if m.qos > 0 then 2 else 0)
  }

  /** Variable header and payload. The length field of a topic is 16 bits wide: a longer
      topic is cut to what the field says. */
  function Body(m: Publish): seq<Byte> {
    var n: Word := |m.topic| % 0x1_0000;
    WordBytes(n) + m.topic[..n] + (if m.qos > 0 then WordBytes(m.mid) else []) + m.payload
  }

  function Encode(m: Publish): seq<Byte>
    requires m.qos <= 2
  {
    [Header(m)] + LengthBytes(BodySize(m)) + Body(m)
  }

  /** The encoder fills the buffer it asked for exactly when the topic fits its field. */
  lemma BodyFills(m: Publish)
    ensures |Body(m)| <= BodySize(m)
    ensures |Body(m)| == BodySize(m) <==> |m.topic| < 0x1_0000
  {
  }

  datatype Decoded = Message(m: Publish) | Malformed

  function BitSet(h: Byte, weight: nat): bool
    requires weight > 0
  {
    h / weight % 2 == 1
  }

  /** The decoding part of `_mosquitto_handle_publish`: header byte and packet body. A
      QoS 0 message carries no packet id, which the model writes as 0. */
  function Decode(h: Byte, body: seq<Byte>): Decoded {
    var qos := h / 2 % 4;
    if |body| < 2 then Malformed
    else
      var n := WordAt(body[0], body[1]);
      if 2 + n > |body| then Malformed
      else
        var topic := Cut(body[2..2 + n]);
        if topic == [] then Malformed
        else if qos == 0 then Message(Publish(BitSet(h, 8), qos, BitSet(h, 1), topic, 0, body[2 + n..]))
        else if 4 + n > |body| || qos == 3 then Malformed
        else Message(Publish(BitSet(h, 8), qos, BitSet(h, 1), topic, WordAt(body[2 + n], body[3 + n]), body[4 + n..]))
  }

  lemma HeaderRead(m: Publish)
    requires m.qos <= 2
    ensures var h := Header(m);
      h / 16 == 3 && BitSet(h, 8) == m.dup && h / 2 % 4 == m.qos && BitSet(h, 1) == m.retain
  {
  }

  /** Every message within the limits is decoded back to itself. */
  lemma PublishRoundTrip(m: Publish)
    requires Sendable(m) && m.topic != [] && |m.topic| < 0x1_0000 && (m.qos == 0 ==> m.mid == 0)
    ensures Decode(Header(m), Body(m)) == Message(m)
  {
    hide Body, Header, WordBytes, WordAt, BitSet;
    HeaderRead(m);
    WordRead(|m.topic|);
    WordRead(m.mid);
    BodyParts(m);
  }

  /** Where the parts of a body lie. */
  lemma BodyParts(m: Publish)
    requires |m.topic| < 0x1_0000
    ensures var b, n := Body(m), |m.topic|;
      && |b| == BodySize(m) && b[0] == WordBytes(n)[0] && b[1] == WordBytes(n)[1] && b[2..2 + n] == m.topic
      && (m.qos > 0 ==> b[2 + n] == WordBytes(m.mid)[0] && b[3 + n] == WordBytes(m.mid)[1] && b[4 + n..] == m.payload)
      && (m.qos == 0 ==> b[2 + n..] == m.payload)
  {
    hide WordBytes;
    var n := |m.topic|;
    assert m.topic[..n] == m.topic;
    var head, rest := WordBytes(n) + m.topic, if m.qos > 0 then WordBytes(m.mid) else [];
    assert Body(m) == head + rest + m.payload;
    assert head[2..] == m.topic;
  }

  /** The first byte as section 3.3.1 of MQTT 3.1.1 has it: type, DUP, QoS and RETAIN. */
  lemma PublishHeader(m: Publish)
    requires m.qos <= 2
    ensures var h := Encode(m)[0];
      h / 16 == 3 && h / 8 % 2 == Bit(m.dup) && h / 2 % 4 == m.qos && h % 2 == Bit(m.retain)
  {
  }

  /** What follows: the length of the rest, the topic behind its own length with the high byte
      first, for QoS above 0 the packet id likewise, and the payload. */
  lemma PublishLayout(m: Publish)
    requires m.qos <= 2 && |m.topic| < 0x1_0000
    ensures var ds, b := LengthBytes(BodySize(m)), Body(m);
      && Encode(m)[1..1 + |ds|] == ds && Encode(m)[1 + |ds|..] == b && LengthValue(ds) == |b|
    ensures var b, n, k := Body(m), |m.topic|, if m.qos > 0 then 2 else 0;
      && |b| == 2 + n + k + |m.payload|
      && b[0] == n / 0x100 && b[1] == n % 0x100 && b[2..2 + n] == m.topic && b[2 + n + k..] == m.payload
      && (m.qos > 0 ==> b[2 + n] == m.mid / 0x100 && b[3 + n] == m.mid % 0x100)
  {
    LengthBytesRead(BodySize(m));
    hide Body, LengthBytes, LengthValue, WordBytes, Header;
    BodyParts(m);
    WordIs(|m.topic|);
    WordIs(m.mid);
    EncodeParts(m);
  }

  lemma WordIs(w: Word)
    ensures WordBytes(w)[0] == w / 0x100 && WordBytes(w)[1] == w % 0x100
  {
  }

  lemma EncodeParts(m: Publish)
    requires m.qos <= 2
    ensures var ds := LengthBytes(BodySize(m));
      && |Encode(m)| >= 1 + |ds| && Encode(m)[0] == Header(m)
      && Encode(m)[1..1 + |ds|] == ds && Encode(m)[1 + |ds|..] == Body(m)
  {
    hide Body, LengthBytes;
  }

  lemma HeaderWritten(h: Byte, m: Publish)
    requires h / 16 == 3 && m.dup == BitSet(h, 8) && m.qos == h / 2 % 4 <= 2 && m.retain == BitSet(h, 1)
    ensures Header(m) == h
  {
  }

  lemma WordWritten(w: Word, msb: Byte, lsb: Byte)
    ensures WordBytes(w) == [msb, lsb] <==> w == WordAt(msb, lsb)
  {
  }

  lemma WholeTopic(bs: seq<Byte>)
    requires 0 !in bs
    ensures Cut(bs) == bs
  {
  }

  lemma BodyInThree(body: seq<Byte>, n: nat)
    requires 2 + n <= |body|
    ensures body == [body[0], body[1]] + body[2..2 + n] + [] + body[2 + n..]
    ensures 4 + n <= |body| ==> body == [body[0], body[1]] + body[2..2 + n] + [body[2 + n], body[3 + n]] + body[4 + n..]
  {
  }

  /** The parts a decoded message was taken from. */
  lemma DecodedParts(h: Byte, body: seq<Byte>)
    requires Decode(h, body).Message?
    ensures var m, n := Decode(h, body).m, WordAt(body[0], body[1]);
      && 2 + n <= |body| && m.topic == Cut(body[2..2 + n])
      && if m.qos == 0 then m.payload == body[2 + n..]
         else 4 + n <= |body| && m.mid == WordAt(body[2 + n], body[3 + n]) && m.payload == body[4 + n..]
  {
    hide WordAt, BitSet, Cut;
  }

  lemma WholeBody(m: Publish, n: Word)
    requires |m.topic| == n
    ensures Body(m) == WordBytes(n) + m.topic + (if m.qos > 0 then WordBytes(m.mid) else []) + m.payload
  {
    hide WordBytes;
    assert m.topic[..n] == m.topic;
  }

  lemma BodyWritten(h: Byte, body: seq<Byte>)
    requires Decode(h, body).Message? && 0 !in body[2..2 + WordAt(body[0], body[1])]
    ensures Body(Decode(h, body).m) == body
  {
    DecodedParts(h, body);
    hide *;
    var m, n := Decode(h, body).m, WordAt(body[0], body[1]);
    WordWritten(n, body[0], body[1]);
    WholeTopic(body[2..2 + n]);
    WholeBody(m, n);
    BodyInThree(body, n);
    if m.qos > 0 {
      WordWritten(m.mid, body[2 + n], body[3 + n]);
    }
  }

  lemma BodyCut(h: Byte, body: seq<Byte>)
    requires Decode(h, body).Message? && 0 in body[2..2 + WordAt(body[0], body[1])]
    ensures Body(Decode(h, body).m) != body
  {
    hide WordAt, WordBytes;
    var m, n := Decode(h, body).m, WordAt(body[0], body[1]);
    var field := body[2..2 + n];
    assert m.topic <= field && m.topic != field;
    WordWritten(|m.topic|, body[0], body[1]);
    var b := Body(m);
    assert [b[0], b[1]] == WordBytes(|m.topic|);
  }

  /** What is decoded is sendable and, unless its topic field held a zero byte, encodes to
      the bytes it came from. */
  lemma DecodeRoundTrip(h: Byte, body: seq<Byte>)
    requires h / 16 == 3 && Decode(h, body).Message?
    ensures var m := Decode(h, body).m;
      && Sendable(m) && m.topic != [] && |m.topic| < 0x1_0000 && Header(m) == h
      && (Body(m) == body <==> 0 !in body[2..2 + WordAt(body[0], body[1])])
  {
    HeaderWritten(h, Decode(h, body).m);
    if 0 in body[2..2 + WordAt(body[0], body[1])] {
      BodyCut(h, body);
    } else {
      BodyWritten(h, body);
    }
  }

  /** When a PUBLISH is refused: the topic field is missing, cut short or empty, the packet
      id is missing, or the QoS is 3. */
  lemma DecodeRefuses(h: Byte, body: seq<Byte>)
    ensures Decode(h, body).Malformed? <==>
      || |body| < 2
      || |body| < 2 + WordAt(body[0], body[1])
      || WordAt(body[0], body[1]) == 0 || body[2] == 0
      || (h / 2 % 4 > 0 && |body| < 4 + WordAt(body[0], body[1]))
      || h / 2 % 4 == 3
  {
    if |body| >= 2 && |body| >= 2 + WordAt(body[0], body[1]) > 2 {
      assert body[2..2 + WordAt(body[0], body[1])][0] == body[2];
    }
  }
}

/** The two ends of a connection as net_mosq.c keeps them: `in_packet`, filled over as many
    calls as the socket needs, and the queue of packets going out. */
module Connections {
  import opened Options
  import opened Wire
  import opened Streams

  /** `mosq->in_packet` and the socket under it. */
  class Incoming {
    var command: Byte
    var haveRemaining: bool
    var remainingCount: nat
    var remainingMult: nat
    var remainingLength: nat
    var payload: array<Byte>
    var pos: nat
    var toProcess: nat
    var isNew: bool
    var handled: seq<Handled>
    var taken: seq<Byte>
    var rest: seq<Byte>
    var grants: seq<Grant>

    ghost predicate Valid()
      reads this
    {
      && pos + toProcess <= payload.Length
      && (!haveRemaining ==> pos == 0 && toProcess == 0)
    }

    ghost function State(): Conn
      requires Valid()
      reads this, payload
    {
      Conn(Reader(command, haveRemaining, remainingCount, remainingMult, remainingLength, payload[..pos], toProcess,
                  isNew, handled), taken, rest, grants)
    }

    constructor (rest: seq<Byte>, isNew: bool)
      ensures Valid() && State() == Conn(Idle(isNew, []), [], rest, [])
    {
      command, haveRemaining, remainingCount, remainingMult, remainingLength := 0, false, 0, 1, 0;
      payload := new Byte[0];
      pos, toProcess := 0, 0;
      this.isNew, handled := isNew, [];
      taken, this.rest, grants := [], rest, [];
    }

    /** `_mosquitto_net_read`: at most `count` bytes, or what kept it from bringing any. */
    method NetRead(count: nat) returns (bytes: seq<Byte>, met: Grant)
      requires Valid()
      modifies this`taken, this`rest, this`grants
      ensures Valid() && |bytes| == Granted(old(State()), count) && bytes <= old(rest) && met == Met(old(State()))
      ensures State() == Took(old(State()), |bytes|)
    {
      var n := 0;
      met := if grants == [] then Again else grants[0];
      if met.Take? {
        var most := if count < |rest| then count else |rest|;
        n := if met.n < most then met.n else most;
      }
      bytes := rest[..n];
      taken, rest, grants := taken + bytes, rest[n..], if grants == [] then [] else grants[1..];
    }

    /** `_mosquitto_packet_read` on an open socket. */
    method PacketRead() returns (rc: NetCode)
      requires Valid() && (command == 0 ==> !haveRemaining)
      modifies this, payload
      ensures Valid() && (payload == old(payload) || fresh(payload))
      ensures (State(), rc) == Streams.PacketRead(old(State()))
    {
      if command == 0 {
        var bytes, met := NetRead(1);
        if bytes == [] {
          return Stopped(met, false);
        }
        command := bytes[0];
        if isNew && command / 16 != 1 {
          return Protocol;
        }
      }
      if !haveRemaining {
        rc := ReadLength();
        if !haveRemaining {
          return;
        }
      }
      rc := ReadPayload();
    }

    /** The length loop. */
    method ReadLength() returns (rc: NetCode)
      requires Valid() && !haveRemaining
      modifies this
      ensures Valid() && (payload == old(payload) || fresh(payload))
      ensures haveRemaining ==> Streams.ReadPayload(State()) == Streams.ReadLength(old(State()))
      ensures !haveRemaining ==> (State(), rc) == Streams.ReadLength(old(State()))
    {
      hide Streams.ReadLength, Streams.ReadPayload, TakeDigit;
      rc := Success;
      while !haveRemaining
        invariant Valid() && (payload == old(payload) || fresh(payload))
        invariant AfterCommand(State()) == Streams.ReadLength(old(State()))
        decreases |grants|
      {
        LengthStep(State());
        var got;
        rc, got := ReadDigit();
        if !got {
          return;
        }
      }
    }

    /** One turn of it; the buffer is made when the last digit is in. */
    method ReadDigit() returns (rc: NetCode, got: bool)
      requires Valid() && !haveRemaining
      modifies this
      ensures Valid() && (payload == old(payload) || fresh(payload))
      ensures var c := old(State());
        if Granted(c, 1) == 0 then !got && (State(), rc) == (Took(c, 0), Stopped(Met(c), false))
        else match TakeDigit(c.reader, c.rest[0])
          case None =>
            !got && (State(), rc) ==
              (Took(c, 1).(reader := c.reader.(remainingCount := c.reader.remainingCount + 1)), Protocol)
          case Some(r) => got && State() == Took(c, 1).(reader := r) && |grants| < |c.grants|
    {
      var bytes, met := NetRead(1);
      if bytes == [] {
        return Stopped(met, false), false;
      }
      got := AddDigit(bytes[0]);
      rc := if got then Success else Protocol;
    }

    method AddDigit(b: Byte) returns (ok: bool)
      requires Valid() && !haveRemaining
      modifies this
      ensures Valid() && (payload == old(payload) || fresh(payload)) && grants == old(grants)
      ensures var c := old(State());
        match TakeDigit(c.reader, b)
        case None => !ok && State() == c.(reader := c.reader.(remainingCount := c.reader.remainingCount + 1))
        case Some(r) => ok && State() == c.(reader := r)
    {
      remainingCount := remainingCount + 1;
      if remainingCount > 4 {
        return false;
      }
      remainingLength := remainingLength + b % 128 * remainingMult;
      remainingMult := remainingMult * 128;
      if b < 128 {
        if remainingLength > 0 {
          payload := new Byte[remainingLength];
          toProcess := remainingLength;
        }
        haveRemaining := true;
      }
      return true;
    }

    /** The payload loop; a complete packet is handed over and the fields start afresh. */
    method ReadPayload() returns (rc: NetCode)
      requires Valid() && haveRemaining
      modifies this, payload
      ensures Valid() && (payload == old(payload) || fresh(payload))
      ensures (State(), rc) == Streams.ReadPayload(old(State()))
    {
      hide Streams.ReadPayload;
      while toProcess > 0
        invariant Valid() && haveRemaining && payload == old(payload)
        invariant Streams.ReadPayload(State()) == Streams.ReadPayload(old(State()))
        decreases |grants|
      {
        ghost var c := State();
        PayloadStep(c);
        var bytes, met := NetRead(toProcess);
        assert bytes == c.rest[..|bytes|];
        if bytes == [] {
          return Stopped(met, true);
        }
        Store(bytes);
      }
      PayloadStep(State());
      Reset();
      rc := Success;
    }

    method Reset()
      requires Valid() && haveRemaining && toProcess == 0
      modifies this
      ensures Valid() && fresh(payload) && State() == old(State()).(reader := HandOver(old(State()).reader))
    {
      var body := payload[..pos];
      handled := handled + [Handled(command, body)];
      command, haveRemaining, remainingCount, remainingMult, remainingLength := 0, false, 0, 1, 0;
      payload := new Byte[0];
      pos := 0;
      isNew := false;
    }

    /** The bytes a read brought, put behind the ones already there. */
    method Store(bytes: seq<Byte>)
      requires Valid() && haveRemaining && |bytes| <= toProcess
      modifies this`pos, this`toProcess, payload
      ensures Valid() && State() == old(State()).(reader := TakePayload(old(State()).reader, bytes))
    {
      for i := 0 to |bytes|
        invariant pos == old(pos) && toProcess == old(toProcess)
        invariant payload[..pos + i] == old(payload[..pos]) + bytes[..i]
      {
        payload[pos + i] := bytes[i];
        assert bytes[..i + 1] == bytes[..i] + [bytes[i]];
      }
      toProcess := toProcess - |bytes|;
      pos := pos + |bytes|;
    }
  }

  /** A packet waiting to go out, sent up to `pos`. */
  datatype Outbound = Outbound(payload: seq<Byte>, pos: nat)

  function Unsent(o: Option<Outbound>): seq<Byte> {
    if o.Some? && o.value.pos <= |o.value.payload| then o.value.payload[o.value.pos..] else []
  }

  function Joined(ps: seq<seq<Byte>>): seq<Byte> {
    if ps == [] then [] else ps[0] + Joined(ps[1..])
  }

  function Waiting(os: seq<Outbound>): seq<Byte> {
    if os == [] then [] else Unsent(Some(os[0])) + Waiting(os[1..])
  }

  lemma {:induction false} JoinedAppend(ps: seq<seq<Byte>>, p: seq<Byte>)
    ensures Joined(ps + [p]) == Joined(ps) + p
  {
    if ps == [] {
      assert ([] + [p])[1..] == [];
    } else {
      JoinedAppend(ps[1..], p);
      assert (ps + [p])[1..] == ps[1..] + [p];
    }
  }

  lemma {:induction false} WaitingAppend(os: seq<Outbound>, o: Outbound)
    ensures Waiting(os + [o]) == Waiting(os) + Unsent(Some(o))
  {
    hide Unsent;
    if os == [] {
      assert ([] + [o])[1..] == [];
    } else {
      WaitingAppend(os[1..], o);
      assert (os + [o])[1..] == os[1..] + [o];
      var first, last := Unsent(Some(os[0])), Unsent(Some(o));
      assert first + (Waiting(os[1..]) + last) == first + Waiting(os[1..]) + last;
    }
  }

  lemma MoveOver(sent: seq<Byte>, left: seq<Byte>, n: nat, behind: seq<Byte>)
    requires n <= |left|
    ensures sent + left[..n] + (left[n..] + behind) == sent + (left + behind)
  {
    assert left == left[..n] + left[n..];
  }

  /** A socket that takes at least one byte each time. */
  ghost predicate Willing(gs: seq<Grant>) {
    forall i :: 0 <= i < |gs| ==> gs[i].Take? && gs[i].n > 0
  }

  /** `mosq->out_packet` and `current_out_packet`. `queued` keeps, for the proof, every
      packet that was ever queued. */
  class Outgoing {
    var outPacket: seq<Outbound>
    var current: Option<Outbound>
    var sent: seq<Byte>
    var grants: seq<Grant>
    ghost var queued: seq<seq<Byte>>

    ghost function Pending(): seq<Byte>
      reads this
    {
      Unsent(current) + Waiting(outPacket)
    }

    /** Bytes sent, then bytes pending: the packets in the order they were queued. */
    ghost predicate Linked()
      reads this
    {
      && sent + Pending() == Joined(queued)
      && (current.Some? ==> current.value.pos <= |current.value.payload|)
      && forall i :: 0 <= i < |outPacket| ==> outPacket[i].pos == 0
    }

    ghost predicate Valid()
      reads this
    {
      Linked() && (current.None? ==> outPacket == [])
    }

    constructor ()
      ensures Valid() && sent == [] && queued == []
    {
      outPacket, current, sent, grants, queued := [], None, [], [], [];
    }

    /** `_mosquitto_net_write` of what the current packet still holds. */
    method NetWrite() returns (n: nat, met: Grant)
      requires Linked() && current.Some? && Unsent(current) != []
      modifies this`sent, this`grants, this`current
      ensures Linked() && current.Some? && n <= |old(Unsent(current))|
      ensures sent == old(sent) + old(Unsent(current))[..n] && Unsent(current) == old(Unsent(current))[n..]
      ensures met == (if old(grants) == [] then Again else old(grants)[0])
      ensures grants == (if old(grants) == [] then [] else old(grants)[1..])
      ensures n > 0 <==> met.Take? && met.n > 0
    {
      hide Joined, Waiting;
      var packet := current.value;
      var left := packet.payload[packet.pos..];
      met := if grants == [] then Again else grants[0];
      n := if !met.Take? then 0 else if met.n < |left| then met.n else |left|;
      sent, grants := sent + left[..n], if grants == [] then [] else grants[1..];
      current := Some(packet.(pos := packet.pos + n));
      MoveOver(old(sent), left, n, Waiting(outPacket));
    }

    /** The next packet becomes the current one. */
    method Advance()
      requires Linked() && Unsent(current) == []
      modifies this`current, this`outPacket
      ensures Valid() && Pending() == old(Pending())
      ensures |outPacket| + (if current.Some? then 1 else 0) == |old(outPacket)|
    {
      if outPacket == [] {
        current := None;
      } else {
        current := Some(outPacket[0]);
        outPacket := outPacket[1..];
      }
    }

    /** `_mosquitto_packet_write` on an open socket. */
    method PacketWrite() returns (rc: NetCode)
      requires Linked()
      modifies this`current, this`outPacket, this`sent, this`grants
      ensures Valid() && old(sent) <= sent
      ensures Willing(old(grants)) && |old(grants)| >= |old(Pending())| ==> Pending() == [] && rc == Success
    {
      ghost var willing := Willing(grants) && |grants| >= |Pending()|;
      if outPacket != [] && current.None? {
        Advance();
      }
      while current.Some?
        invariant Valid() && old(sent) <= sent
        invariant willing ==> Willing(grants) && |grants| >= |Pending()|
        decreases |outPacket| + (if current.Some? then 1 else 0)
      {
        var met := SendCurrent();
        if Unsent(current) != [] {
          return if met == Again || met.Take? then Success else Failed;
        }
        Advance();
      }
      rc := Success;
    }

    /** The inner loop: the current packet, until it is out or the socket takes nothing. */
    method SendCurrent() returns (met: Grant)
      requires Valid() && current.Some?
      modifies this`current, this`sent, this`grants
      ensures Valid() && current.Some? && old(sent) <= sent
      ensures Willing(old(grants)) && |old(grants)| >= |old(Pending())| ==>
        Unsent(current) == [] && Willing(grants) && |grants| >= |Pending()|
    {
      ghost var willing := Willing(grants) && |grants| >= |Pending()|;
      met := Again;
      while current.value.pos < |current.value.payload|
        invariant Valid() && current.Some? && old(sent) <= sent
        invariant willing ==> Willing(grants) && |grants| >= |Pending()|
        decreases |Unsent(current)|
      {
        var n;
        n, met := NetWrite();
        if n == 0 {
          return;
        }
      }
    }

    /** `_mosquitto_packet_queue` in the broker build: link at the end, then write. */
    method PacketQueue(payload: seq<Byte>) returns (rc: NetCode)
      requires Valid()
      modifies this
      ensures Valid() && queued == old(queued) + [payload] && old(sent) <= sent
      ensures Willing(old(grants)) && |old(grants)| >= |old(Pending())| + |payload| ==> Pending() == [] && rc == Success
    {
      hide Joined, Waiting;
      JoinedAppend(queued, payload);
      WaitingAppend(outPacket, Outbound(payload, 0));
      assert sent + (Unsent(current) + (Waiting(outPacket) + payload)) == sent + Pending() + payload;
      outPacket := outPacket + [Outbound(payload, 0)];
      queued := queued + [payload];
      rc := PacketWrite();
    }
  }

  /** What an outgoing queue has sent is the stream of its packets cut off somewhere, so that
      the reader at the other end gets them in order. */
  lemma {:induction false} QueuedIsStream(ps: seq<Frame>, queued: seq<seq<Byte>>)
    requires |queued| == |ps| && forall i :: 0 <= i < |ps| ==> queued[i] == PacketBytes(ps[i])
    ensures Joined(queued) == Stream(ps)
  {
    if ps != [] {
      QueuedIsStream(ps[1..], queued[1..]);
    }
  }

  /** From end to end: packets queued by one side (`Outgoing.Valid`), whatever the two
      sockets take and give at a time, are handed over on the other side in order, each
      exactly once, as far as their bytes have come. */
  lemma QueuedArrives(
    queued: seq<seq<Byte>>, sent: seq<Byte>, pending: seq<Byte>, ps: seq<Frame>, calls: seq<seq<Grant>>)
    requires sent + pending == Joined(queued) && Proper(ps, false)
    requires |queued| == |ps| && forall i :: 0 <= i < |ps| ==> queued[i] == PacketBytes(ps[i])
    ensures var out := Calls(Conn(Idle(false, []), [], sent, []), calls);
      && out.1 != Protocol && out.0.reader.handled == HandledOf(ps[..Whole(ps, |out.0.taken|)])
      && (pending == [] && out.0.taken == sent ==> out.0.reader.handled == HandledOf(ps))
  {
    hide Calls, PacketBytes, Feed, WellFormed, Joined;
    QueuedIsStream(ps, queued);
    var c := Conn(Idle(false, []), [], sent, []);
    assert c.taken + c.rest == sent;
    EveryScheduleReads(c, calls, ps, false);
  }
}

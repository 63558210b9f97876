/** What one pass of the write loop leaves of each entry of a queue, and whether a second pass
    finds anything to do. */
module Writes {
  import opened Queues
  import opened Broker
  import opened BrokerOps
  import opened Rules

  // ----- the pass, entry by entry -----------------------------------------------------------

  predicate Dispatches(s: State) {
    || s == PublishQos0 || s == PublishQos1 || s == PublishQos2
    || s == SendPubrec || s == ResendPubrel || s == ResendPubcomp
  }

  /** How often the pass, which looked at `seen` inbound entries before this list, has looked at
      one once it comes to place `k`. It looks twice at one that it lets in. */
  function Looks(ms: seq<Entry>, n: nat, seen: nat, k: nat): nat
    requires k <= |ms|
    decreases k, 0
  {
    if k == 0 then seen
    else
      Looks(ms, n, seen, k - 1)
      + (if ms[k - 1].dir == Out then 0 else if LetIn(ms, n, seen, k - 1) then 2 else 1)
  }

  /** A queued inbound entry that the window, of which there are `n` places, has room for. */
  predicate LetIn(ms: seq<Entry>, n: nat, seen: nat, k: nat)
    requires k < |ms|
    decreases k, 1
  {
    ms[k].dir == In && ms[k].state == Queued && (n == 0 || Looks(ms, n, seen, k) + 1 < n)
  }

  /** How many packets the pass has for the entries before place `k`. */
  function Packets(ms: seq<Entry>, n: nat, seen: nat, k: nat): (r: nat)
    requires k <= |ms|
    ensures r <= k
  {
    if k == 0 then 0
    else Packets(ms, n, seen, k - 1) + (if Dispatches(ms[k - 1].state) || LetIn(ms, n, seen, k - 1) then 1 else 0)
  }

  /** Of the first `k` entries those that are sent at QoS 0 and leave the queue. */
  predicate Leaves(ms: seq<Entry>, n: nat, seen: nat, sends: nat, k: nat)
    requires k < |ms|
  {
    ms[k].state == PublishQos0 && Packets(ms, n, seen, k) < sends
  }

  function Gone(ms: seq<Entry>, n: nat, seen: nat, sends: nat, k: nat): (r: nat)
    requires k <= |ms|
    ensures r <= k
  {
    if k == 0 then 0
    else Gone(ms, n, seen, sends, k - 1) + (if Leaves(ms, n, seen, sends, k - 1) then 1 else 0)
  }

  /** The entry at place `k` after the pass, if the connection took `sends` packets: what was sent
      waits for its answer; of an entry for which the connection had no room left at most the
      first is let in, without its PUBREC. */
  function AfterPass(ms: seq<Entry>, n: nat, seen: nat, sends: nat, k: nat): Entry
    requires k < |ms|
  {
    var e, sent := ms[k], Packets(ms, n, seen, k) < sends;
    if LetIn(ms, n, seen, k) then
      if sent then e.(state := WaitForPubrel)
      else if Packets(ms, n, seen, k) == sends then e.(state := SendPubrec)
      else e
    else if !sent then e
    else if e.state == PublishQos1 then
      e.(state := WaitForPuback, dup := true, history := e.history + [Sent.Publish(e.dup)])
    else if e.state == PublishQos2 then
      e.(state := WaitForPubrec, dup := true, history := e.history + [Sent.Publish(e.dup)])
    else if e.state == SendPubrec || e.state == ResendPubcomp then e.(state := WaitForPubrel)
    else if e.state == ResendPubrel then e.(state := WaitForPubcomp, history := e.history + [Sent.Pubrel])
    else e
  }

  /** What one entry becomes, and where it comes to stand. */
  ghost predicate Lands(ms: seq<Entry>, n: nat, seen: nat, sends: nat, r: seq<Entry>, k: nat)
    requires k < |ms|
  {
    var j := k - Gone(ms, n, seen, sends, k);
    0 <= j < |r| && r[j] == AfterPass(ms, n, seen, sends, k)
  }

  /** The queue `r` is what the pass leaves of the queue `ms`. */
  ghost predicate LeftByPass(ms: seq<Entry>, n: nat, seen: nat, sends: nat, r: seq<Entry>) {
    && |r| == |ms| - Gone(ms, n, seen, sends, |ms|)
    && forall k :: 0 <= k < |ms| && !Leaves(ms, n, seen, sends, k) ==> Lands(ms, n, seen, sends, r, k)
  }

  // ----- the entries behind the first -----------------------------------------------------

  lemma {:induction false} LooksTail(ms: seq<Entry>, n: nat, seen: nat, k: nat)
    requires 0 < k <= |ms|
    ensures Looks(ms, n, seen, k) == Looks(ms[1..], n, Looks(ms, n, seen, 1), k - 1)
    ensures k < |ms| ==> (LetIn(ms, n, seen, k) <==> LetIn(ms[1..], n, Looks(ms, n, seen, 1), k - 1))
    decreases k
  {
    if k > 1 {
      LooksTail(ms, n, seen, k - 1);
      assert ms[1..][k - 2] == ms[k - 1];
    }
  }

  lemma {:induction false} PacketsTail(ms: seq<Entry>, n: nat, seen: nat, k: nat)
    requires 0 < k <= |ms|
    ensures Packets(ms, n, seen, k) ==
      Packets(ms, n, seen, 1) + Packets(ms[1..], n, Looks(ms, n, seen, 1), k - 1)
    decreases k
  {
    if k > 1 {
      PacketsTail(ms, n, seen, k - 1);
      LooksTail(ms, n, seen, k - 1);
      assert ms[1..][k - 2] == ms[k - 1];
    }
  }

  /** How many packets are left behind the first entry, if it was not the one to stop at. */
  function SendsLeft(ms: seq<Entry>, n: nat, seen: nat, sends: nat): nat
    requires ms != [] && Packets(ms, n, seen, 1) <= sends
  {
    sends - Packets(ms, n, seen, 1)
  }

  lemma {:induction false} GoneTail(ms: seq<Entry>, n: nat, seen: nat, sends: nat, k: nat)
    requires 0 < k <= |ms| && Packets(ms, n, seen, 1) <= sends
    ensures Gone(ms, n, seen, sends, k) ==
      Gone(ms, n, seen, sends, 1)
      + Gone(ms[1..], n, Looks(ms, n, seen, 1), SendsLeft(ms, n, seen, sends), k - 1)
    decreases k
  {
    if k > 1 {
      GoneTail(ms, n, seen, sends, k - 1);
      PacketsTail(ms, n, seen, k - 1);
      assert ms[1..][k - 2] == ms[k - 1];
    }
  }

  lemma AfterPassTail(ms: seq<Entry>, n: nat, seen: nat, sends: nat, k: nat)
    requires 0 < k < |ms| && Packets(ms, n, seen, 1) <= sends
    ensures var seen', sends' := Looks(ms, n, seen, 1), SendsLeft(ms, n, seen, sends);
      && AfterPass(ms, n, seen, sends, k) == AfterPass(ms[1..], n, seen', sends', k - 1)
      && (Leaves(ms, n, seen, sends, k) <==> Leaves(ms[1..], n, seen', sends', k - 1))
  {
    LooksTail(ms, n, seen, k);
    PacketsTail(ms, n, seen, k);
    hide Looks, Packets, LetIn;
  }

  function FirstAfter(ms: seq<Entry>, n: nat, seen: nat, sends: nat): seq<Entry>
    requires ms != []
  {
    if Leaves(ms, n, seen, sends, 0) then [] else [AfterPass(ms, n, seen, sends, 0)]
  }

  lemma GoneFirst(ms: seq<Entry>, n: nat, seen: nat, sends: nat)
    requires ms != []
    ensures Gone(ms, n, seen, sends, 0) == 0
    ensures Gone(ms, n, seen, sends, 1) == 1 - |FirstAfter(ms, n, seen, sends)|
  {
  }

  lemma LandsBehind(ms: seq<Entry>, n: nat, seen: nat, sends: nat, r: seq<Entry>, k: nat)
    requires 0 < k < |ms| && Packets(ms, n, seen, 1) <= sends
    requires Lands(ms[1..], n, Looks(ms, n, seen, 1), SendsLeft(ms, n, seen, sends), r, k - 1)
    ensures Lands(ms, n, seen, sends, FirstAfter(ms, n, seen, sends) + r, k)
  {
    hide AfterPass, Looks, Packets, Leaves, SendsLeft, Gone, FirstAfter;
    GoneFirst(ms, n, seen, sends);
    GoneTail(ms, n, seen, sends, k);
    AfterPassTail(ms, n, seen, sends, k);
  }

  /** The first entry taken by itself, and then the others. */
  lemma PassedFirst(ms: seq<Entry>, n: nat, seen: nat, sends: nat, r: seq<Entry>)
    requires ms != [] && Packets(ms, n, seen, 1) <= sends
    requires LeftByPass(ms[1..], n, Looks(ms, n, seen, 1), SendsLeft(ms, n, seen, sends), r)
    ensures LeftByPass(ms, n, seen, sends, FirstAfter(ms, n, seen, sends) + r)
  {
    GoneFirst(ms, n, seen, sends);
    GoneTail(ms, n, seen, sends, |ms|);
    hide AfterPass, Looks, Packets, SendsLeft, Gone, Leaves, Lands;
    forall k | 0 <= k < |ms| && !Leaves(ms, n, seen, sends, k)
      ensures Lands(ms, n, seen, sends, FirstAfter(ms, n, seen, sends) + r, k)
    {
      if k > 0 {
        AfterPassTail(ms, n, seen, sends, k);
        LandsBehind(ms, n, seen, sends, r, k);
      } else {
        LandsFirst(ms, n, seen, sends, r);
      }
    }
  }

  lemma LandsFirst(ms: seq<Entry>, n: nat, seen: nat, sends: nat, r: seq<Entry>)
    requires ms != [] && !Leaves(ms, n, seen, sends, 0)
    ensures Lands(ms, n, seen, sends, FirstAfter(ms, n, seen, sends) + r, 0)
  {
  }

  /** The connection takes no more, so nothing behind the first entry changes. */
  lemma PassedStops(ms: seq<Entry>, n: nat, seen: nat, sends: nat)
    requires ms != [] && sends < Packets(ms, n, seen, 1)
    ensures LeftByPass(ms, n, seen, sends, [AfterPass(ms, n, seen, sends, 0)] + ms[1..])
  {
    forall k | 0 < k <= |ms| ensures Packets(ms, n, seen, k) > sends {
      PacketsTail(ms, n, seen, k);
    }
    hide Looks, LetIn, Packets;
    NoneGone(ms, n, seen, sends, |ms|);
    var r := [AfterPass(ms, n, seen, sends, 0)] + ms[1..];
    forall k | 0 <= k < |ms| && !Leaves(ms, n, seen, sends, k)
      ensures Lands(ms, n, seen, sends, r, k)
    {
      NoneGone(ms, n, seen, sends, k);
    }
  }

  lemma {:induction false} NoneGone(ms: seq<Entry>, n: nat, seen: nat, sends: nat, k: nat)
    requires k <= |ms| && forall x :: 0 <= x < k ==> !Leaves(ms, n, seen, sends, x)
    ensures Gone(ms, n, seen, sends, k) == 0
  {
    if k > 0 {
      NoneGone(ms, n, seen, sends, k - 1);
    }
  }

  // ----- the loop makes that pass -----------------------------------------------------------

  /** Only the one queue, its counters, and references in the store have changed. */
  ghost predicate Within(b: Db, r: Db, c: nat)
    requires c < |b.clients|
  {
    && |r.clients| == |b.clients|
    && r == b.(clients := b.clients[c := r.clients[c]], store := r.store)
    && SameClient(b.clients[c], r.clients[c]) && r.clients[c].lastMid == b.clients[c].lastMid
    && TextsKept(b.store, r.store)
  }

  lemma WithinOn(a: Db, b: Db, r: Db, c: nat)
    requires c < |a.clients| && Within(a, b, c) && Within(b, r, c)
    ensures Within(a, r, c)
  {
  }

  lemma StepsWithin(b: Db, c: nat, i: nat, e: Entry)
    requires c < |b.clients| && i < |b.clients[c].msgs|
    ensures Within(b, b, c) && Within(b, Drop(b, c, i), c) && Within(b, Edit(b, c, i, e), c)
    ensures var ms, d, f := b.clients[c].msgs, Drop(b, c, i).clients[c].msgs, Edit(b, c, i, e).clients[c].msgs;
      && |d| == |ms| - 1 && d[..i] == ms[..i] && d[i..] == ms[i + 1..]
      && |f| == |ms| && f[i] == e && f[..i] == ms[..i] && f[i + 1..] == ms[i + 1..]
  {
    assert b.clients[c := b.clients[c]] == b.clients;
  }

  /** The queue in `r` is that of `b` up to place `i`, and what a pass leaves of it from there. */
  ghost predicate PassedFrom(b: Db, r: Db, c: nat, i: nat, seen: nat, sends: nat)
    requires c < |b.clients|
  {
    && Within(b, r, c)
    && var ms, rs := b.clients[c].msgs, r.clients[c].msgs;
       i <= |ms| && i <= |rs| && rs[..i] == ms[..i] && LeftByPass(ms[i..], b.cfg.maxInflight, seen, sends, rs[i..])
  }

  /** The values of the pass for a first entry with a packet. */
  lemma PacketFirst(ms: seq<Entry>, n: nat, seen: nat, sends: nat)
    requires ms != [] && (ms[0].state == PublishQos0 || HasPacket(ms[0].state))
    ensures Packets(ms, n, seen, 1) == 1
    ensures Looks(ms, n, seen, 1) == if ms[0].dir == In then seen + 1 else seen
    ensures sends > 0 ==>
      && SendsLeft(ms, n, seen, sends) == sends - 1
      && FirstAfter(ms, n, seen, sends) == if ms[0].state == PublishQos0 then [] else [Written(ms[0])]
    ensures AfterPass(ms, n, seen, 0, 0) == ms[0]
  {
  }

  /** Those for a first entry that is let in. */
  lemma LetInFirst(ms: seq<Entry>, n: nat, seen: nat, sends: nat)
    requires ms != [] && LetIn(ms, n, seen, 0)
    ensures ms[0].dir == In && ms[0].state == Queued && (n == 0 || seen + 1 < n)
    ensures Packets(ms, n, seen, 1) == 1 && Looks(ms, n, seen, 1) == seen + 2
    ensures sends > 0 ==>
      && SendsLeft(ms, n, seen, sends) == sends - 1
      && FirstAfter(ms, n, seen, sends) == [ms[0].(state := WaitForPubrel)]
    ensures AfterPass(ms, n, seen, 0, 0) == ms[0].(state := SendPubrec)
  {
  }

  /** Those for a first entry that the loop steps over. */
  lemma StepFirst(ms: seq<Entry>, n: nat, seen: nat, sends: nat)
    requires ms != [] && !LetIn(ms, n, seen, 0) && ms[0].state != PublishQos0 && !HasPacket(ms[0].state)
    ensures ms[0].dir == In && ms[0].state == Queued ==> n != 0 && seen + 1 >= n
    ensures Packets(ms, n, seen, 1) == 0 && SendsLeft(ms, n, seen, sends) == sends
    ensures Looks(ms, n, seen, 1) == if ms[0].dir == In then seen + 1 else seen
    ensures FirstAfter(ms, n, seen, sends) == [ms[0]]
  {
  }

  /** The entry at place `i` is done, and the loop goes on behind it. */
  lemma GoesOn(b: Db, d: Db, r: Db, c: nat, i: nat, j: nat, seen: nat, sends: nat, seen': nat, sends': nat)
    requires c < |b.clients| && i < |b.clients[c].msgs| && Within(b, d, c)
    requires var ms, n := b.clients[c].msgs[i..], b.cfg.maxInflight;
      && Packets(ms, n, seen, 1) <= sends && seen' == Looks(ms, n, seen, 1) && sends' == SendsLeft(ms, n, seen, sends)
      && d.clients[c].msgs == b.clients[c].msgs[..i] + FirstAfter(ms, n, seen, sends) + ms[1..]
      && j == i + |FirstAfter(ms, n, seen, sends)|
    requires PassedFrom(d, r, c, j, seen', sends')
    ensures PassedFrom(b, r, c, i, seen, sends)
  {
    hide LeftByPass, Looks, Packets, SendsLeft, FirstAfter;
    var ms, n := b.clients[c].msgs[i..], b.cfg.maxInflight;
    var first, rs := FirstAfter(ms, n, seen, sends), r.clients[c].msgs;
    WithinOn(b, d, r, c);
    assert d.clients[c].msgs[j..] == ms[1..];
    PassedFirst(ms, n, seen, sends, rs[j..]);
    assert rs[..j] == b.clients[c].msgs[..i] + first;
    assert rs[i..] == first + rs[j..] && rs[..i] == b.clients[c].msgs[..i];
  }

  /** The connection takes no more. */
  lemma StopsHere(b: Db, r: Db, c: nat, i: nat, seen: nat)
    requires c < |b.clients| && i < |b.clients[c].msgs| && Within(b, r, c)
    requires var ms, n := b.clients[c].msgs[i..], b.cfg.maxInflight;
      && Packets(ms, n, seen, 1) == 1
      && r.clients[c].msgs == b.clients[c].msgs[..i] + [AfterPass(ms, n, seen, 0, 0)] + ms[1..]
    ensures PassedFrom(b, r, c, i, seen, 0)
  {
    hide LeftByPass, AfterPass;
    var ms, n, rs := b.clients[c].msgs[i..], b.cfg.maxInflight, r.clients[c].msgs;
    PassedStops(ms, n, seen, 0);
    assert rs[i..] == [AfterPass(ms, n, seen, 0, 0)] + ms[1..] && rs[..i] == b.clients[c].msgs[..i];
  }

  lemma Replaced(b: Db, d: Db, c: nat, i: nat, e: Entry)
    requires c < |b.clients| == |d.clients| && i < |b.clients[c].msgs| == |d.clients[c].msgs|
    requires d.clients[c].msgs[i] == e && d.clients[c].msgs[..i] == b.clients[c].msgs[..i]
    requires d.clients[c].msgs[i + 1..] == b.clients[c].msgs[i + 1..]
    ensures d.clients[c].msgs == b.clients[c].msgs[..i] + [e] + b.clients[c].msgs[i..][1..]
  {
    var ns := d.clients[c].msgs;
    assert ns == ns[..i] + [ns[i]] + ns[i + 1..];
    assert b.clients[c].msgs[i..][1..] == b.clients[c].msgs[i + 1..];
  }

  lemma {:induction false} WritePasses(b: Db, c: nat, i: nat, seen: nat, sends: nat)
    requires c < |b.clients| && InboundQos2(b.clients[c]) && i <= |b.clients[c].msgs|
    ensures PassedFrom(b, WriteFrom(b, c, i, seen, sends), c, i, seen, sends)
    decreases |b.clients[c].msgs| - i, 1
  {
    hide WriteFrom, Drop, Edit, Written, InboundQos2, PassedFrom, Within, LetIn, Looks, Packets, SendsLeft, FirstAfter;
    if i == |b.clients[c].msgs| {
      WriteEnds(b, c, i, seen, sends);
      NothingToPass(b, c, seen, sends);
    } else {
      var e, ms, n := b.clients[c].msgs[i], b.clients[c].msgs[i..], b.cfg.maxInflight;
      if e.state == PublishQos0 || HasPacket(e.state) {
        WritePacket(b, c, i, seen, sends);
      } else if LetIn(ms, n, seen, 0) {
        WriteLetIn(b, c, i, seen, sends);
      } else {
        StepFirst(ms, n, seen, sends);
        StepTurn(b, c, i, seen, sends);
        var seen' := if e.dir == In then seen + 1 else seen;
        WritePasses(b, c, i + 1, seen', sends);
        StepsWithin(b, c, i, e);
        Replaced(b, b, c, i, e);
        GoesOn(b, b, WriteFrom(b, c, i + 1, seen', sends), c, i, i + 1, seen, sends, seen', sends);
      }
    }
  }

  lemma StepTurn(b: Db, c: nat, i: nat, seen: nat, sends: nat)
    requires c < |b.clients| && InboundQos2(b.clients[c]) && i < |b.clients[c].msgs|
    requires var e, n := b.clients[c].msgs[i], b.cfg.maxInflight;
      && e.state != PublishQos0 && !HasPacket(e.state)
      && (e.dir == In && e.state == Queued ==> n != 0 && seen + 1 >= n)
    ensures WriteFrom(b, c, i, seen, sends) ==
      WriteFrom(b, c, i + 1, if b.clients[c].msgs[i].dir == In then seen + 1 else seen, sends)
  {
    WriteTurn(b, c, i, seen, sends);
  }

  lemma NothingToPass(b: Db, c: nat, seen: nat, sends: nat)
    requires c < |b.clients|
    ensures PassedFrom(b, b, c, |b.clients[c].msgs|, seen, sends)
  {
    assert b.clients[c := b.clients[c]] == b.clients;
  }

  /** An entry with a packet to send. */
  lemma {:induction false} WritePacket(b: Db, c: nat, i: nat, seen: nat, sends: nat)
    requires c < |b.clients| && InboundQos2(b.clients[c]) && i < |b.clients[c].msgs|
    requires b.clients[c].msgs[i].state == PublishQos0 || HasPacket(b.clients[c].msgs[i].state)
    ensures PassedFrom(b, WriteFrom(b, c, i, seen, sends), c, i, seen, sends)
    decreases |b.clients[c].msgs| - i, 0
  {
    hide WriteFrom, Drop, Edit, Written, InboundQos2, PassedFrom, Within, LetIn, Looks, Packets, SendsLeft, FirstAfter;
    hide AfterPass;
    var e, ms, n := b.clients[c].msgs[i], b.clients[c].msgs[i..], b.cfg.maxInflight;
    var r := WriteFrom(b, c, i, seen, sends);
    var seen' := if e.dir == In then seen + 1 else seen;
    WriteTurn(b, c, i, seen, sends);
    PacketFirst(ms, n, seen, sends);
    StepsWithin(b, c, i, Written(e));
    if sends == 0 {
      Replaced(b, b, c, i, e);
      StopsHere(b, b, c, i, seen);
    } else if e.state == PublishQos0 {
      var d := Drop(b, c, i);
      WritePasses(d, c, i, seen', sends - 1);
      DroppedIs(b, d, c, i);
      GoesOn(b, d, r, c, i, i, seen, sends, seen', sends - 1);
    } else {
      var d := Edit(b, c, i, Written(e));
      WritePasses(d, c, i + 1, seen', sends - 1);
      Replaced(b, d, c, i, Written(e));
      GoesOn(b, d, r, c, i, i + 1, seen, sends, seen', sends - 1);
    }
  }

  lemma DroppedIs(b: Db, d: Db, c: nat, i: nat)
    requires c < |b.clients| == |d.clients| && i < |b.clients[c].msgs| && i <= |d.clients[c].msgs|
    requires d.clients[c].msgs[..i] == b.clients[c].msgs[..i]
    requires d.clients[c].msgs[i..] == b.clients[c].msgs[i + 1..]
    ensures d.clients[c].msgs == b.clients[c].msgs[..i] + [] + b.clients[c].msgs[i..][1..]
  {
    var ns := d.clients[c].msgs;
    assert ns == ns[..i] + ns[i..];
    assert b.clients[c].msgs[i..][1..] == b.clients[c].msgs[i + 1..];
  }

  /** The two turns of the loop for a queued inbound entry that is let in. */
  lemma LetInTurns(b: Db, c: nat, i: nat, seen: nat, sends: nat)
    requires c < |b.clients| && InboundQos2(b.clients[c]) && i < |b.clients[c].msgs|
    requires var e, n := b.clients[c].msgs[i], b.cfg.maxInflight;
      e.dir == In && e.state == Queued && (n == 0 || seen + 1 < n)
    ensures var e := b.clients[c].msgs[i];
      var b1 := Edit(b, c, i, e.(state := SendPubrec));
      && |b1.clients[c].msgs| == |b.clients[c].msgs|
      && var b2 := Edit(b1, c, i, e.(state := WaitForPubrel));
         && InboundQos2(b2.clients[c]) && |b2.clients[c].msgs| == |b.clients[c].msgs|
         && WriteFrom(b, c, i, seen, sends) ==
              if sends == 0 then b1 else WriteFrom(b2, c, i + 1, seen + 2, sends - 1)
  {
    var b1 := Edit(b, c, i, b.clients[c].msgs[i].(state := SendPubrec));
    WriteTurn(b, c, i, seen, sends);
    WriteTurn(b1, c, i, seen + 1, sends);
    hide WriteFrom, InboundQos2;
  }

  /** A queued inbound entry that is let in, and looked at again. */
  lemma {:induction false} WriteLetIn(b: Db, c: nat, i: nat, seen: nat, sends: nat)
    requires c < |b.clients| && InboundQos2(b.clients[c]) && i < |b.clients[c].msgs|
    requires LetIn(b.clients[c].msgs[i..], b.cfg.maxInflight, seen, 0)
    ensures PassedFrom(b, WriteFrom(b, c, i, seen, sends), c, i, seen, sends)
    decreases |b.clients[c].msgs| - i, 0
  {
    hide WriteFrom, Drop, Edit, Written, InboundQos2, PassedFrom, Within, LetIn, Looks, Packets, SendsLeft, FirstAfter;
    hide AfterPass;
    var e, ms, n := b.clients[c].msgs[i], b.clients[c].msgs[i..], b.cfg.maxInflight;
    var r := WriteFrom(b, c, i, seen, sends);
    var e1, e2 := e.(state := SendPubrec), e.(state := WaitForPubrel);
    var b1 := Edit(b, c, i, e1);
    LetInFirst(ms, n, seen, sends);
    LetInTurns(b, c, i, seen, sends);
    StepsWithin(b, c, i, e1);
    StepsWithin(b1, c, i, e2);
    if sends == 0 {
      Replaced(b, b1, c, i, e1);
      StopsHere(b, b1, c, i, seen);
    } else {
      var b2 := Edit(b1, c, i, e2);
      WithinOn(b, b1, b2, c);
      WritePasses(b2, c, i + 1, seen + 2, sends - 1);
      Replaced(b, b2, c, i, e2);
      GoesOn(b, b2, r, c, i, i + 1, seen, sends, seen + 2, sends - 1);
    }
  }

  // ----- the pass as a whole ------------------------------------------------------------------

  /** One pass over the queue of a client, on a connection that takes `sends` packets: which
      entries leave, where the others come to stand, and in which state. Nothing else changes but
      references in the store. */
  ghost predicate Writes(b: Db, r: Db, c: nat, sends: nat)
    requires c < |b.clients|
  {
    Within(b, r, c) && LeftByPass(b.clients[c].msgs, b.cfg.maxInflight, 0, sends, r.clients[c].msgs)
  }

  lemma WritePass(b: Db, c: nat, sends: nat)
    requires c < |b.clients| && InboundQos2(b.clients[c])
    ensures var r, ms := WriteFrom(b, c, 0, 0, sends), b.clients[c].msgs;
      && Writes(b, r, c, sends)
      && (sends >= |ms| ==> forall k :: 0 <= k < |ms| ==> Packets(ms, b.cfg.maxInflight, 0, k) < sends)
  {
    hide WriteFrom, LeftByPass, InboundQos2;
    WritePasses(b, c, 0, 0, sends);
    var r, ms := WriteFrom(b, c, 0, 0, sends), b.clients[c].msgs;
    assert ms[0..] == ms && r.clients[c].msgs[0..] == r.clients[c].msgs;
  }

  // ----- and once more ------------------------------------------------------------------------

  /** Every place of the new queue has its entry in the old one. */
  lemma {:induction false} ComesFrom(ms: seq<Entry>, n: nat, seen: nat, sends: nat, j: nat, k: nat) returns (x: nat)
    requires k <= |ms| && j < k - Gone(ms, n, seen, sends, k)
    ensures x < k && !Leaves(ms, n, seen, sends, x) && x - Gone(ms, n, seen, sends, x) == j
  {
    if j < k - 1 - Gone(ms, n, seen, sends, k - 1) {
      x := ComesFrom(ms, n, seen, sends, j, k - 1);
    } else {
      x := k - 1;
    }
  }

  /** After a pass in which the connection took everything no entry has a packet left. */
  lemma NothingSendable(ms: seq<Entry>, n: nat, sends: nat, r: seq<Entry>, j: nat)
    requires LeftByPass(ms, n, 0, sends, r) && j < |r|
    requires forall k :: 0 <= k < |ms| ==> Packets(ms, n, 0, k) < sends
    ensures !Dispatches(r[j].state)
  {
    hide Gone, Packets, Looks;
    var x := ComesFrom(ms, n, 0, sends, j, |ms|);
    assert Lands(ms, n, 0, sends, r, x);
  }

  function Inbound(ms: seq<Entry>, k: nat): nat
    requires k <= |ms|
  {
    if k == 0 then 0 else Inbound(ms, k - 1) + (if ms[k - 1].dir == In then 1 else 0)
  }

  /** An inbound entry that is still queued, with fewer than the window's entries up to it. */
  predicate Overlooked(ms: seq<Entry>, n: nat, k: nat)
    requires k < |ms|
  {
    ms[k].dir == In && ms[k].state == Queued && (n == 0 || Inbound(ms, k) + 1 < n)
  }

  lemma {:induction false} LooksOnce(ms: seq<Entry>, n: nat, k: nat)
    requires k <= |ms| && forall x :: 0 <= x < k ==> !Overlooked(ms, n, x)
    ensures Looks(ms, n, 0, k) == Inbound(ms, k)
    ensures k < |ms| ==> (LetIn(ms, n, 0, k) <==> Overlooked(ms, n, k))
  {
    if k > 0 {
      LooksOnce(ms, n, k - 1);
    }
  }

  lemma {:induction false} WritesNothing(b: Db, c: nat, i: nat, sends: nat)
    requires c < |b.clients| && InboundQos2(b.clients[c]) && i <= |b.clients[c].msgs|
    requires forall k :: i <= k < |b.clients[c].msgs| ==>
      !Dispatches(b.clients[c].msgs[k].state) && !Overlooked(b.clients[c].msgs, b.cfg.maxInflight, k)
    ensures WriteFrom(b, c, i, Inbound(b.clients[c].msgs, i), sends) == b
    decreases |b.clients[c].msgs| - i
  {
    hide WriteFrom, InboundQos2;
    if i == |b.clients[c].msgs| {
      WriteEnds(b, c, i, Inbound(b.clients[c].msgs, i), sends);
    } else {
      StepTurn(b, c, i, Inbound(b.clients[c].msgs, i), sends);
      WritesNothing(b, c, i + 1, sends);
    }
  }

  /** The first overlooked entry, if there is one. */
  lemma {:induction false} FirstOverlooked(ms: seq<Entry>, n: nat, k: nat) returns (x: nat)
    requires k < |ms| && Overlooked(ms, n, k)
    ensures x < |ms| && Overlooked(ms, n, x) && forall y :: 0 <= y < x ==> !Overlooked(ms, n, y)
  {
    if y: nat :| y < k && Overlooked(ms, n, y) {
      x := FirstOverlooked(ms, n, y);
    } else {
      x := k;
    }
  }

  lemma {:induction false} NoPackets(ms: seq<Entry>, n: nat, k: nat)
    requires k <= |ms| && forall x :: 0 <= x < k ==> !Dispatches(ms[x].state) && !LetIn(ms, n, 0, x)
    ensures Packets(ms, n, 0, k) == 0
  {
    if k > 0 {
      NoPackets(ms, n, k - 1);
    }
  }

  lemma NoneLeaves(ms: seq<Entry>, n: nat, sends: nat, k: nat)
    requires k <= |ms| && forall x :: 0 <= x < |ms| ==> !Dispatches(ms[x].state)
    ensures Gone(ms, n, 0, sends, k) == 0 && (k < |ms| ==> !Leaves(ms, n, 0, sends, k))
  {
    forall x | 0 <= x < |ms| ensures !Leaves(ms, n, 0, sends, x) {
    }
    hide Packets, Leaves, Gone;
    NoneGone(ms, n, 0, sends, k);
  }

  /** A pass over a queue without packets, entry by entry. */
  lemma IdleAt(b: Db, c: nat, sends: nat, k: nat)
    requires c < |b.clients| && InboundQos2(b.clients[c]) && k <= |b.clients[c].msgs|
    requires forall x :: 0 <= x < |b.clients[c].msgs| ==> !Dispatches(b.clients[c].msgs[x].state)
    ensures var r, ms := WriteFrom(b, c, 0, 0, sends).clients[c].msgs, b.clients[c].msgs;
      |r| == |ms| && (k < |ms| ==> r[k] == AfterPass(ms, b.cfg.maxInflight, 0, sends, k))
  {
    hide WriteFrom, InboundQos2, Packets, AfterPass, Leaves, Gone, Dispatches;
    var ms, n := b.clients[c].msgs, b.cfg.maxInflight;
    WritePass(b, c, sends);
    NoneLeaves(ms, n, sends, k);
    NoneLeaves(ms, n, sends, |ms|);
    if k < |ms| {
      assert Lands(ms, n, 0, sends, WriteFrom(b, c, 0, 0, sends).clients[c].msgs, k);
    }
  }

  lemma IdleSame(ms: seq<Entry>, n: nat, sends: nat, k: nat)
    requires k < |ms| && !Dispatches(ms[k].state) && !(ms[k].dir == In && ms[k].state == Queued)
    ensures AfterPass(ms, n, 0, sends, k) == ms[k]
  {
  }

  lemma LetInMoves(ms: seq<Entry>, n: nat, sends: nat, k: nat)
    requires k < |ms| && LetIn(ms, n, 0, k) && Packets(ms, n, 0, k) == 0
    ensures AfterPass(ms, n, 0, sends, k) != ms[k]
  {
  }

  /** A pass over a queue without packets: it changes nothing exactly if no entry is overlooked,
      and at any rate nothing but queued inbound entries. */
  lemma PassOverIdle(b: Db, c: nat, sends: nat)
    requires c < |b.clients| && InboundQos2(b.clients[c])
    requires forall k :: 0 <= k < |b.clients[c].msgs| ==> !Dispatches(b.clients[c].msgs[k].state)
    ensures var r, ms, n := WriteFrom(b, c, 0, 0, sends), b.clients[c].msgs, b.cfg.maxInflight;
      && (r == b <==> forall k :: 0 <= k < |ms| ==> !Overlooked(ms, n, k))
      && |r.clients[c].msgs| == |ms|
      && forall k :: 0 <= k < |ms| && !(ms[k].dir == In && ms[k].state == Queued) ==> r.clients[c].msgs[k] == ms[k]
  {
    hide WriteFrom, InboundQos2, LetIn, Looks, Packets, AfterPass, Overlooked, Dispatches;
    var r, ms, n := WriteFrom(b, c, 0, 0, sends), b.clients[c].msgs, b.cfg.maxInflight;
    IdleAt(b, c, sends, |ms|);
    forall k | 0 <= k < |ms|
      ensures !(ms[k].dir == In && ms[k].state == Queued) ==> r.clients[c].msgs[k] == ms[k]
    {
      IdleAt(b, c, sends, k);
      if !(ms[k].dir == In && ms[k].state == Queued) {
        IdleSame(ms, n, sends, k);
      }
    }
    if k :| 0 <= k < |ms| && Overlooked(ms, n, k) {
      OverlookedMoves(b, c, sends, k);
    } else {
      WritesNothing(b, c, 0, sends);
      assert Inbound(ms, 0) == 0;
    }
  }

  lemma OverlookedMoves(b: Db, c: nat, sends: nat, k: nat)
    requires c < |b.clients| && InboundQos2(b.clients[c]) && k < |b.clients[c].msgs|
    requires forall x :: 0 <= x < |b.clients[c].msgs| ==> !Dispatches(b.clients[c].msgs[x].state)
    requires Overlooked(b.clients[c].msgs, b.cfg.maxInflight, k)
    ensures WriteFrom(b, c, 0, 0, sends) != b
  {
    hide WriteFrom, InboundQos2, LetIn, Looks, Packets, AfterPass, Overlooked, Dispatches;
    var ms, n := b.clients[c].msgs, b.cfg.maxInflight;
    var x := FirstOverlooked(ms, n, k);
    forall y | 0 <= y < x ensures !LetIn(ms, n, 0, y) {
      LooksOnce(ms, n, y);
    }
    LooksOnce(ms, n, x);
    NoPackets(ms, n, x);
    LetInMoves(ms, n, sends, x);
    IdleAt(b, c, sends, x);
  }

  /** A second pass right behind one in which the connection took everything: it sends no PUBLISH
      and no PUBREL again, and it changes nothing at all exactly if no queued inbound entry has
      been overlooked, which the first pass does where it counted entries twice. */
  lemma WriteAgain(b: Db, c: nat, sends: nat, more: nat)
    requires c < |b.clients| && InboundQos2(b.clients[c]) && sends >= |b.clients[c].msgs|
    ensures var r := WriteFrom(b, c, 0, 0, sends);
      && InboundQos2(r.clients[c])
      && var ms, r2 := r.clients[c].msgs, WriteFrom(r, c, 0, 0, more);
         && (r2 == r <==> forall k :: 0 <= k < |ms| ==> !Overlooked(ms, b.cfg.maxInflight, k))
         && |r2.clients[c].msgs| == |ms|
         && forall k :: 0 <= k < |ms| && !(ms[k].dir == In && ms[k].state == Queued) ==> r2.clients[c].msgs[k] == ms[k]
  {
    hide WriteFrom, LeftByPass;
    var r := WriteFrom(b, c, 0, 0, sends);
    WritePass(b, c, sends);
    var ms := r.clients[c].msgs;
    forall k | 0 <= k < |ms| ensures !Dispatches(ms[k].state) && (ms[k].dir == In ==> ms[k].qos == 2) {
      NothingSendable(b.clients[c].msgs, b.cfg.maxInflight, sends, ms, k);
      PassKeepsQos(b.clients[c].msgs, b.cfg.maxInflight, sends, ms, k);
    }
    assert InboundQos2(r.clients[c]);
    PassOverIdle(r, c, more);
  }

  lemma PassKeepsQos(ms: seq<Entry>, n: nat, sends: nat, r: seq<Entry>, j: nat)
    requires LeftByPass(ms, n, 0, sends, r) && j < |r| && forall e :: e in ms && e.dir == In ==> e.qos == 2
    ensures r[j].dir == In ==> r[j].qos == 2
  {
    hide Gone, Packets, LetIn;
    var x := ComesFrom(ms, n, 0, sends, j, |ms|);
    assert Lands(ms, n, 0, sends, r, x) && ms[x] in ms;
  }
}

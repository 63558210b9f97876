/** What PUBREL does: it hands the message to the tree and ends the handshake. */
module Pubrel {
  import opened Queues
  import opened Broker
  import opened BrokerLaws
  import opened BrokerOps

  /** What routing and unlinking leave alone: the inbound entries of another client `d`,
      and every account of a message but `routed` and `denied`. */
  ghost predicate SameInbound(b: Db, r: Db, d: nat, sid: nat) {
    && d < |b.clients| == |r.clients|
    && Tally(r.clients[d].msgs, InboundOf(sid)) == Tally(b.clients[d].msgs, InboundOf(sid))
  }

  ghost predicate SameAccounts(b: Db, r: Db, sid: nat) {
    sid in b.store && sid in r.store
    && var s, t := b.store[sid], r.store[sid];
       t.sourceMid == s.sourceMid && t.swept == s.swept && t.accepted == s.accepted && t.topic == s.topic
  }

  lemma ExtendedKeepsInbound(a: Client, b: Client, sid: nat)
    requires Extended(a, b)
    ensures Tally(b.msgs, InboundOf(sid)) == Tally(a.msgs, InboundOf(sid))
  {
    var more := b.msgs[|a.msgs|..];
    assert b.msgs == a.msgs + more;
    TallyAppend(a.msgs, more, InboundOf(sid));
    TallyNone(more, InboundOf(sid));
  }

  lemma TallySplit(ms: seq<Entry>, i: nat, w: Entry -> nat)
    requires i <= |ms|
    ensures Tally(ms, w) == Tally(ms[..i], w) + Tally(ms[i..], w)
    ensures i < |ms| ==> Tally(ms[..i + 1], w) == Tally(ms[..i], w) + w(ms[i])
    ensures i < |ms| ==> Tally(ms[i..], w) == w(ms[i]) + Tally(ms[i + 1..], w)
  {
    TallyAppend(ms[..i], ms[i..], w);
    assert ms == ms[..i] + ms[i..];
    if i < |ms| {
      TallyAppend(ms[..i], [ms[i]], w);
      TallyOne(ms[i], w);
      assert ms[..i + 1] == ms[..i] + [ms[i]];
      assert ms[i..][1..] == ms[i + 1..];
    }
  }

  /** The client's own list after one release. */
  lemma ReleasedShape(b: Db, c: nat, i: nat, acl: Acl, mid: nat)
    requires Inv(b) && c < |b.clients| && i < |b.clients[c].msgs| && b.clients[c].msgs[i].dir == In
    ensures var ms, rs := b.clients[c].msgs, Released(b, c, i, acl).clients[c].msgs;
      i <= |rs| && rs[..i] == ms[..i] && Tally(rs[i..], WithMid(mid)) == Tally(ms[i + 1..], WithMid(mid))
  {
    var e := b.clients[c].msgs[i];
    EntryIsStored(b, c, i);
    ReleasedConcludes(b, c, i, acl);
    var a, n := b.clients[c], Passed(b, e.store, e.retain, acl).clients[c];
    assert Extended(a, n);
    ShapeOf(a, n, i, mid);
    assert Released(b, c, i, acl).clients[c].msgs == DropMsg(n, i).msgs;
  }

  lemma ShapeOf(a: Client, n: Client, i: nat, mid: nat)
    requires Extended(a, n) && i < |a.msgs|
    ensures var rs := DropMsg(n, i).msgs;
      i <= |rs| && rs[..i] == a.msgs[..i] && Tally(rs[i..], WithMid(mid)) == Tally(a.msgs[i + 1..], WithMid(mid))
  {
    var tail := n.msgs[|a.msgs|..];
    assert DropMsg(n, i).msgs[i..] == a.msgs[i + 1..] + tail;
    TallyAppend(a.msgs[i + 1..], tail, WithMid(mid));
    TallyNone(tail, WithMid(mid));
  }

  lemma ReleasedElsewhere(b: Db, c: nat, i: nat, acl: Acl, d: nat, sid: nat)
    requires Inv(b) && c < |b.clients| && i < |b.clients[c].msgs| && b.clients[c].msgs[i].dir == In
    requires d < |b.clients| && sid in b.store
    ensures (d != c ==> SameInbound(b, Released(b, c, i, acl), d, sid)) && SameAccounts(b, Released(b, c, i, acl), sid)
  {
    hide Inv, Distribute, Released;
    var e := b.clients[c].msgs[i];
    EntryIsStored(b, c, i);
    ReleasedConcludes(b, c, i, acl);
    var b1 := Passed(b, e.store, e.retain, acl);
    assert Extended(b.clients[c], b1.clients[c]);
    ExtendedKeepsInbound(b.clients[d], b1.clients[d], sid);
  }

  lemma PromoteElsewhere(b: Db, c: nat, i: nat, msgIndex: nat, d: nat, sid: nat)
    requires c < |b.clients| && i < |b.clients[c].msgs| && d < |b.clients| && sid in b.store
    ensures (d != c ==> SameInbound(b, Promote(b, c, i, msgIndex), d, sid))
    ensures SameAccounts(b, Promote(b, c, i, msgIndex), sid)
  {
  }

  lemma {:induction false} ReleaseElsewhere(
    b: Db, c: nat, mid: nat, i: nat, msgIndex: nat, deleted: bool, left: nat, acl: Acl, d: nat, sid: nat)
    requires Inv(b) && c < |b.clients| && i <= msgIndex && d < |b.clients| && sid in b.store
    ensures d != c ==> SameInbound(b, ReleaseFrom(b, c, mid, i, msgIndex, deleted, left, acl), d, sid)
    ensures SameAccounts(b, ReleaseFrom(b, c, mid, i, msgIndex, deleted, left, acl), sid)
    decreases left, |b.clients[c].msgs| - i
  {
    hide Inv, Released, Promote, Ahead;
    if i < |b.clients[c].msgs| {
      ReleaseStepKeepsInv(b, c, mid, i, msgIndex, acl);
      PromoteElsewhere(b, c, i, msgIndex + 1, d, sid);
      var b1 := Promote(b, c, i, msgIndex + 1);
      var e := b1.clients[c].msgs[i];
      if e.mid == mid && e.dir == In && left > 0 {
        ReleasedElsewhere(b1, c, i, acl, d, sid);
        ReleaseElsewhere(Released(b1, c, i, acl), c, mid, i, msgIndex + 1, true, left - 1, acl, d, sid);
      } else {
        ReleaseElsewhere(b1, c, mid, i + 1, msgIndex + 1, deleted, left, acl, d, sid);
      }
    }
  }

  /** The entries with the packet id before and behind place `i`. */
  ghost predicate Ahead(ms: seq<Entry>, i: nat, mid: nat, before: nat, behind: nat) {
    i <= |ms| && Tally(ms[..i], WithMid(mid)) == before && Tally(ms[i..], WithMid(mid)) == behind
  }

  lemma AheadIsAll(ms: seq<Entry>, i: nat, mid: nat, before: nat, behind: nat)
    requires Ahead(ms, i, mid, before, behind)
    ensures Tally(ms, WithMid(mid)) == before + behind && i <= |ms| && (i == |ms| ==> behind == 0)
  {
    TallySplit(ms, i, WithMid(mid));
  }

  lemma PromoteAhead(b: Db, c: nat, i: nat, msgIndex: nat, mid: nat, before: nat, behind: nat)
    requires c < |b.clients| && i < |b.clients[c].msgs| && Ahead(b.clients[c].msgs, i, mid, before, behind)
    ensures Ahead(Promote(b, c, i, msgIndex).clients[c].msgs, i, mid, before, behind)
  {
    var ms := b.clients[c].msgs;
    var e := Promoted(ms[i]);
    assert ms[i := e][..i] == ms[..i] && ms[i := e][i..] == ms[i..][0 := e];
    TallyEdit(ms[i..], 0, e, WithMid(mid));
  }

  lemma StepAhead(ms: seq<Entry>, i: nat, mid: nat, before: nat, behind: nat)
    requires i < |ms| && Ahead(ms, i, mid, before, behind)
    ensures WithMid(mid)(ms[i]) <= behind
    ensures Ahead(ms, i + 1, mid, before + WithMid(mid)(ms[i]), behind - WithMid(mid)(ms[i]))
  {
    TallySplit(ms, i, WithMid(mid));
  }

  lemma ReleasedAhead(b: Db, c: nat, i: nat, acl: Acl, mid: nat, before: nat, behind: nat)
    requires Inv(b) && c < |b.clients| && i < |b.clients[c].msgs| && b.clients[c].msgs[i].dir == In
    requires Ahead(b.clients[c].msgs, i, mid, before, behind) && b.clients[c].msgs[i].mid == mid
    ensures behind > 0 && Ahead(Released(b, c, i, acl).clients[c].msgs, i, mid, before, behind - 1)
  {
    ReleasedShape(b, c, i, acl, mid);
    TallySplit(b.clients[c].msgs, i, WithMid(mid));
  }

  /** When the loop ends, no inbound entry with the packet id is left: there was at most
      one, and the loop stops early only behind it. */
  lemma {:induction false} ReleaseEmpties(
    b: Db, c: nat, mid: nat, i: nat, msgIndex: nat, deleted: bool, left: nat, acl: Acl, behind: nat)
    requires Inv(b) && c < |b.clients| && i <= msgIndex
    requires Ahead(b.clients[c].msgs, i, mid, 0, behind) && behind <= 1 && behind <= left && (deleted ==> behind == 0)
    ensures Tally(ReleaseFrom(b, c, mid, i, msgIndex, deleted, left, acl).clients[c].msgs, WithMid(mid)) == 0
    decreases left, |b.clients[c].msgs| - i
  {
    hide Inv, Released, Promote, Ahead, Finish;
    if i >= |b.clients[c].msgs| {
      AheadIsAll(b.clients[c].msgs, i, mid, 0, behind);
    } else {
      ReleaseStepKeepsInv(b, c, mid, i, msgIndex, acl);
      PromoteAhead(b, c, i, msgIndex + 1, mid, 0, behind);
      var b1 := Promote(b, c, i, msgIndex + 1);
      var e := b1.clients[c].msgs[i];
      StepAhead(b1.clients[c].msgs, i, mid, 0, behind);
      if e.mid == mid && e.dir == In && left > 0 {
        ReleasedAhead(b1, c, i, acl, mid, 0, behind);
        var b2 := Released(b1, c, i, acl);
        AheadIsAll(b2.clients[c].msgs, i, mid, 0, behind - 1);
        ReleaseEmpties(b2, c, mid, i, msgIndex + 1, true, left - 1, acl, behind - 1);
      } else {
        AheadIsAll(b1.clients[c].msgs, i, mid, 0, behind);
        ReleaseEmpties(b1, c, mid, i + 1, msgIndex + 1, deleted, left, acl, behind);
      }
    }
  }

  lemma {:induction false} OthersUnchanged(cs: seq<Client>, ds: seq<Client>, c: nat, w: Entry -> nat)
    requires c < |cs| == |ds|
    requires forall d :: 0 <= d < |cs| && d != c ==> Tally(ds[d].msgs, w) == Tally(cs[d].msgs, w)
    ensures TallyAll(ds, w) - Tally(ds[c].msgs, w) == TallyAll(cs, w) - Tally(cs[c].msgs, w)
  {
    if c > 0 {
      assert Tally(ds[0].msgs, w) == Tally(cs[0].msgs, w);
      OthersUnchanged(cs[1..], ds[1..], c - 1, w);
    } else {
      AllUnchanged(cs[1..], ds[1..], w);
    }
  }

  lemma {:induction false} AllUnchanged(cs: seq<Client>, ds: seq<Client>, w: Entry -> nat)
    requires |cs| == |ds| && forall d :: 0 <= d < |cs| ==> Tally(ds[d].msgs, w) == Tally(cs[d].msgs, w)
    ensures TallyAll(ds, w) == TallyAll(cs, w)
  {
    if cs != [] {
      assert Tally(ds[0].msgs, w) == Tally(cs[0].msgs, w);
      AllUnchanged(cs[1..], ds[1..], w);
    }
  }

  lemma {:induction false} NoneQueued(store: map<nat, Stored>, ms: seq<Entry>, sid: nat, mid: nat)
    requires Filed(store, ms) && sid in store && store[sid].sourceMid == mid && Tally(ms, WithMid(mid)) == 0
    ensures Tally(ms, InboundOf(sid)) == 0
  {
    if ms != [] {
      assert forall i :: 0 <= i < |ms[1..]| ==> ms[1..][i] == ms[i + 1];
      NoneQueued(store, ms[1..], sid, mid);
    }
  }

  /** PUBREL hands the message of its handshake to the tree, exactly then, and ends the
      handshake, so that a repeated PUBREL finds nothing to hand over. */
  lemma PubrelHandsOver(b: Db, c: nat, i: nat, acl: Acl)
    requires Inv(b) && c < |b.clients| && i < |b.clients[c].msgs| && b.clients[c].msgs[i].dir == In
    requires b.clients[c].msgs[i].store in b.store && b.store[b.clients[c].msgs[i].store].topic.Some?
    ensures var e := b.clients[c].msgs[i];
      var r := HandlePubrel(b, c, e.mid, acl);
      && b.store[e.store].routed == 0
      && e.store in r.store && r.store[e.store].routed == 1
      && Tally(r.clients[c].msgs, WithMid(e.mid)) == 0
  {
    hide ReleaseFrom, ClientOk, StoredOk;
    var e := b.clients[c].msgs[i];
    var sid, ms := e.store, b.clients[c].msgs;
    var left := Tally(ms, WithMid(e.mid));
    TallyAllMember(b.clients, c, i, InboundOf(sid));
    TallyEdit(ms, i, e, InboundOf(sid));
    OthersCount(b, c, sid);
    assert ms[..0] == [] && ms[0..] == ms;
    var r := HandlePubrel(b, c, e.mid, acl);
    ReleaseEmpties(b, c, e.mid, 0, 0, false, left, acl, left);
    ReleaseElsewhere(b, c, e.mid, 0, 0, false, left, acl, c, sid);
    forall d | 0 <= d < |b.clients| && d != c
      ensures Tally(r.clients[d].msgs, InboundOf(sid)) == Tally(b.clients[d].msgs, InboundOf(sid))
    {
      ReleaseElsewhere(b, c, e.mid, 0, 0, false, left, acl, d, sid);
    }
    var _ := ReleaseKeepsInv(b, c, e.mid, 0, 0, false, left, acl);
    OthersUnchanged(b.clients, r.clients, c, InboundOf(sid));
    NoneQueued(r.store, r.clients[c].msgs, sid, e.mid);
    assert OnceOk(b.store[sid], TallyAll(b.clients, InboundOf(sid)));
    assert OnceOk(r.store[sid], TallyAll(r.clients, InboundOf(sid)));
  }

  lemma {:induction false} OthersCount(b: Db, c: nat, sid: nat)
    requires c < |b.clients|
    ensures TallyAll(b.clients, InboundOf(sid)) >= Tally(b.clients[c].msgs, InboundOf(sid))
  {
    var empty := b.clients[c].(msgs := []);
    TallyAllPut(b.clients, c, empty, InboundOf(sid));
  }
}

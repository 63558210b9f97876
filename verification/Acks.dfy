/** What PUBACK and PUBCOMP do to the queue of the client that sent them. */
module Acks {
  import opened Queues
  import opened Broker
  import opened BrokerOps
  import opened Rules

  /** The entry is outbound and has the packet id. */
  predicate Named(e: Entry, mid: nat) {
    e.mid == mid && e.dir == Out
  }

  /** An entry that comes to stand at place `j`: a queued one enters the window there. */
  function Slid(e: Entry, j: nat, maxInflight: nat): Entry {
    if e.state == Queued && j < maxInflight then Admitted(e) else e
  }

  /** The list after a promotion at place `i`, and after an unlinking there. */
  lemma PromoteAt(b: Db, c: nat, i: nat)
    requires c < |b.clients| && i < |b.clients[c].msgs|
    ensures var ms, r := b.clients[c].msgs, Promote(b, c, i, i + 1).clients[c].msgs;
      && |r| == |ms| && r[i] == Slid(ms[i], i, b.cfg.maxInflight)
      && (forall x :: 0 <= x < |ms| && x != i ==> r[x] == ms[x])
      && forall mid :: Named(r[i], mid) <==> Named(ms[i], mid)
  {
    PromotedIs(b.clients[c].msgs[i]);
  }

  lemma DropAt(b: Db, c: nat, k: nat)
    requires c < |b.clients| && k < |b.clients[c].msgs|
    ensures var ms, r := b.clients[c].msgs, Drop(b, c, k).clients[c].msgs;
      |r| == |ms| - 1 && forall x :: 0 <= x < |r| ==> r[x] == ms[if x < k then x else x + 1]
  {
  }

  // ----- which entries go -------------------------------------------------------------

  /** How many entries are not named. */
  function Others(ms: seq<Entry>, mid: nat): nat {
    if ms == [] then 0 else Others(ms[..|ms| - 1], mid) + (if Named(ms[|ms| - 1], mid) then 0 else 1)
  }

  /** Of the entries an acknowledgement names the first goes, unless one has gone before, and
      of the others those that the loop still gets to: it stops once it has passed the
      window, which `n` entries fill. */
  predicate Goes(ms: seq<Entry>, mid: nat, n: nat, deleted: bool, k: nat)
    requires k < |ms|
  {
    Named(ms[k], mid) && ((!deleted && forall x :: 0 <= x < k ==> !Named(ms[x], mid)) || Others(ms[..k], mid) <= n)
  }

  /** The place of entry `k` among those that stay. */
  function Rank(ms: seq<Entry>, mid: nat, n: nat, deleted: bool, k: nat): (r: nat)
    requires k <= |ms|
    ensures r <= k
  {
    if k == 0 then 0 else Rank(ms, mid, n, deleted, k - 1) + (if Goes(ms, mid, n, deleted, k - 1) then 0 else 1)
  }

  lemma {:induction false} OthersBounds(ms: seq<Entry>, mid: nat, i: nat, k: nat)
    requires i <= k <= |ms|
    ensures Others(ms[..i], mid) <= Others(ms[..k], mid) <= Others(ms[..i], mid) + (k - i)
    ensures (forall x :: i <= x < k ==> !Named(ms[x], mid)) ==> Others(ms[..k], mid) == Others(ms[..i], mid) + (k - i)
    decreases k
  {
    if i < k {
      OthersBounds(ms, mid, i, k - 1);
      assert ms[..k][..k - 1] == ms[..k - 1];
    }
  }

  /** Places depend only on which entries are named. */
  lemma {:induction false} RankSame(ms: seq<Entry>, ns: seq<Entry>, mid: nat, n: nat, deleted: bool, k: nat)
    requires |ms| == |ns| && k <= |ms| && forall x :: 0 <= x < |ms| ==> (Named(ms[x], mid) <==> Named(ns[x], mid))
    ensures Rank(ms, mid, n, deleted, k) == Rank(ns, mid, n, deleted, k)
    ensures k < |ms| ==> (Goes(ms, mid, n, deleted, k) <==> Goes(ns, mid, n, deleted, k))
    decreases k
  {
    OthersSame(ms[..k], ns[..k], mid);
    if k > 0 {
      RankSame(ms, ns, mid, n, deleted, k - 1);
    }
  }

  lemma {:induction false} OthersSame(ms: seq<Entry>, ns: seq<Entry>, mid: nat)
    requires |ms| == |ns| && forall x :: 0 <= x < |ms| ==> (Named(ms[x], mid) <==> Named(ns[x], mid))
    ensures Others(ms, mid) == Others(ns, mid)
    decreases |ms|
  {
    if ms != [] {
      OthersSame(ms[..|ms| - 1], ns[..|ns| - 1], mid);
    }
  }

  /** As long as nothing is named everything stays where it is. */
  lemma {:induction false} RankFront(ms: seq<Entry>, mid: nat, n: nat, deleted: bool, k: nat)
    requires k <= |ms| && forall x :: 0 <= x < k ==> !Named(ms[x], mid)
    ensures Rank(ms, mid, n, deleted, k) == k
  {
    if k > 0 {
      RankFront(ms, mid, n, deleted, k - 1);
    }
  }

  /** Behind the window nothing goes any more. */
  lemma {:induction false} RankBack(ms: seq<Entry>, mid: nat, n: nat, deleted: bool, i: nat, k: nat)
    requires i <= k <= |ms| && forall x :: i <= x < |ms| ==> !Goes(ms, mid, n, deleted, x)
    ensures Rank(ms, mid, n, deleted, k) == Rank(ms, mid, n, deleted, i) + (k - i)
    decreases k
  {
    if i < k {
      RankBack(ms, mid, n, deleted, i, k - 1);
    }
  }

  /** The first named entry unlinked, the others go as before. */
  lemma {:induction false} RankDrop(ms: seq<Entry>, ns: seq<Entry>, mid: nat, n: nat, deleted: bool, i: nat, k: nat)
    requires i < k <= |ms| && Named(ms[i], mid) && (forall x :: 0 <= x < i ==> !Named(ms[x], mid))
    requires deleted ==> i <= n
    requires |ns| == |ms| - 1 && forall x :: 0 <= x < |ns| ==> ns[x] == ms[if x < i then x else x + 1]
    ensures Rank(ms, mid, n, deleted, k) == Rank(ns, mid, n, true, k - 1)
    ensures k < |ms| ==> (Goes(ms, mid, n, deleted, k) <==> Goes(ns, mid, n, true, k - 1))
    decreases k
  {
    OthersDrop(ms, ns, mid, i, k);
    if k == i + 1 {
      OthersBounds(ms, mid, 0, i);
      RankFront(ms, mid, n, deleted, i);
      RankFront(ns, mid, n, true, i);
      assert Goes(ms, mid, n, deleted, i);
    } else {
      RankDrop(ms, ns, mid, n, deleted, i, k - 1);
    }
  }

  lemma {:induction false} OthersDrop(ms: seq<Entry>, ns: seq<Entry>, mid: nat, i: nat, k: nat)
    requires i < k <= |ms| && Named(ms[i], mid)
    requires |ns| == |ms| - 1 && forall x :: 0 <= x < |ns| ==> ns[x] == ms[if x < i then x else x + 1]
    ensures Others(ms[..k], mid) == Others(ns[..k - 1], mid)
    decreases k
  {
    assert ms[..k][..k - 1] == ms[..k - 1];
    if k == i + 1 {
      assert ms[..i] == ns[..i];
    } else {
      OthersDrop(ms, ns, mid, i, k - 1);
      assert ns[..k - 1][..k - 2] == ns[..k - 2];
    }
  }

  // ----- the loop ---------------------------------------------------------------------

  /** What the loop, at place `i` with no named entry before it, has made of entry `k` when
      it ends. */
  ghost predicate Settled(ms: seq<Entry>, r: seq<Entry>, mid: nat, n: nat, deleted: bool, i: nat, k: nat)
    requires k <= |ms|
  {
    && |r| == Rank(ms, mid, n, deleted, |ms|)
    && (k < |ms| && !Goes(ms, mid, n, deleted, k) ==>
          var j := Rank(ms, mid, n, deleted, k);
          j < |r| && r[j] == if k < i then ms[k] else Slid(ms[k], j, n))
  }

  /** The loop has come to its end, or past the window. */
  lemma SettledHere(ms: seq<Entry>, r: seq<Entry>, mid: nat, n: nat, deleted: bool, i: nat, k: nat)
    requires r == ms && k <= |ms| && i <= |ms| && forall x :: 0 <= x < i ==> !Named(ms[x], mid)
    requires i == |ms| || (deleted && i > n)
    ensures Settled(ms, r, mid, n, deleted, i, k)
  {
    OthersBounds(ms, mid, 0, i);
    RankFront(ms, mid, n, deleted, i);
    forall x | i <= x < |ms| ensures !Goes(ms, mid, n, deleted, x) {
      OthersBounds(ms, mid, i, x);
    }
    RankBack(ms, mid, n, deleted, i, |ms|);
    if k < i {
      RankFront(ms, mid, n, deleted, k);
    } else {
      RankBack(ms, mid, n, deleted, i, k);
    }
  }

  /** An entry that is not named is looked at and passed. */
  lemma SettledPast(ms: seq<Entry>, ns: seq<Entry>, r: seq<Entry>, mid: nat, n: nat, deleted: bool, i: nat, k: nat)
    requires i < |ms| == |ns| && k <= |ms| && (forall x :: 0 <= x <= i ==> !Named(ms[x], mid))
    requires ns[i] == Slid(ms[i], i, n) && (forall x :: 0 <= x < |ms| && x != i ==> ns[x] == ms[x])
    requires Named(ns[i], mid) <==> Named(ms[i], mid)
    requires Settled(ns, r, mid, n, deleted, i + 1, k)
    ensures Settled(ms, r, mid, n, deleted, i, k)
  {
    hide Slid, Rank, Goes;
    RankSame(ms, ns, mid, n, deleted, |ms|);
    RankSame(ms, ns, mid, n, deleted, k);
    if k == i {
      RankFront(ms, mid, n, deleted, i);
    }
  }

  /** A named entry is unlinked. */
  lemma SettledGone(ms: seq<Entry>, ns: seq<Entry>, r: seq<Entry>, mid: nat, n: nat, deleted: bool, i: nat, k: nat)
    requires i < |ms| && k <= |ms| && Named(ms[i], mid) && (forall x :: 0 <= x < i ==> !Named(ms[x], mid))
    requires deleted ==> i <= n
    requires |ns| == |ms| - 1 && forall x :: 0 <= x < |ns| ==> ns[x] == ms[if x < i then x else x + 1]
    requires Settled(ns, r, mid, n, true, i, if k <= i then 0 else k - 1)
    requires k < i ==> Settled(ns, r, mid, n, true, i, k)
    ensures Settled(ms, r, mid, n, deleted, i, k)
  {
    RankDrop(ms, ns, mid, n, deleted, i, |ms|);
    if k < i {
      RankFront(ms, mid, n, deleted, k);
      RankFront(ns, mid, n, true, k);
    } else if k == i {
      OthersBounds(ms, mid, 0, i);
      assert Goes(ms, mid, n, deleted, i);
    } else {
      RankDrop(ms, ns, mid, n, deleted, i, k);
    }
  }

  lemma {:induction false} DeleteSettles(b: Db, c: nat, mid: nat, i: nat, deleted: bool, k: nat)
    requires c < |b.clients| && i <= |b.clients[c].msgs| && k <= |b.clients[c].msgs|
    requires (forall x :: 0 <= x < i ==> !Named(b.clients[c].msgs[x], mid)) && (deleted ==> i <= b.cfg.maxInflight)
    ensures var r := DeleteFrom(b, c, mid, i, i, deleted);
      Settled(b.clients[c].msgs, r.clients[c].msgs, mid, b.cfg.maxInflight, deleted, i, k)
    decreases |b.clients[c].msgs| - i
  {
    hide DeleteFrom, Promote, Drop, Slid, Settled, Goes;
    var ms, n := b.clients[c].msgs, b.cfg.maxInflight;
    var r := DeleteFrom(b, c, mid, i, i, deleted).clients[c].msgs;
    DeleteTurn(b, c, mid, i, i, deleted);
    if i == |ms| {
      SettledHere(ms, r, mid, n, deleted, i, k);
    } else {
      PromoteAt(b, c, i);
      var b1 := Promote(b, c, i, i + 1);
      if Named(ms[i], mid) {
        DeleteNamed(b, c, mid, i, deleted, k);
      } else {
        var ns := b1.clients[c].msgs;
        if i + 1 > n && deleted {
          SettledStop(ns, mid, n, i, k);
        } else {
          DeleteSettles(b1, c, mid, i + 1, deleted, k);
        }
        SettledPast(ms, ns, r, mid, n, deleted, i, k);
      }
    }
  }

  /** Past the window the loop stops. */
  lemma SettledStop(ns: seq<Entry>, mid: nat, n: nat, i: nat, k: nat)
    requires i < |ns| && k <= |ns| && i + 1 > n && forall x :: 0 <= x <= i ==> !Named(ns[x], mid)
    ensures Settled(ns, ns, mid, n, true, i + 1, k)
  {
    SettledHere(ns, ns, mid, n, true, i + 1, k);
  }

  /** The turn for a named entry. */
  lemma {:induction false} DeleteNamed(b: Db, c: nat, mid: nat, i: nat, deleted: bool, k: nat)
    requires c < |b.clients| && i < |b.clients[c].msgs| && k <= |b.clients[c].msgs| && Named(b.clients[c].msgs[i], mid)
    requires (forall x :: 0 <= x < i ==> !Named(b.clients[c].msgs[x], mid)) && (deleted ==> i <= b.cfg.maxInflight)
    ensures var r := DeleteFrom(b, c, mid, i, i, deleted);
      Settled(b.clients[c].msgs, r.clients[c].msgs, mid, b.cfg.maxInflight, deleted, i, k)
    decreases |b.clients[c].msgs| - i, 0
  {
    hide DeleteFrom, Promote, Drop, Slid, Settled, Goes;
    var ms, n := b.clients[c].msgs, b.cfg.maxInflight;
    var r := DeleteFrom(b, c, mid, i, i, deleted).clients[c].msgs;
    DeleteTurn(b, c, mid, i, i, deleted);
    PromoteAt(b, c, i);
    var b1 := Promote(b, c, i, i + 1);
    DropAt(b1, c, i);
    var d := Drop(b1, c, i);
    var ns := d.clients[c].msgs;
    if i > n {
      SettledHere(ns, ns, mid, n, true, i, if k <= i then 0 else k - 1);
      if k < i {
        SettledHere(ns, ns, mid, n, true, i, k);
      }
    } else {
      DeleteSettles(d, c, mid, i, true, if k <= i then 0 else k - 1);
      if k < i {
        DeleteSettles(d, c, mid, i, true, k);
      }
    }
    SettledGone(ms, ns, r, mid, n, deleted, i, k);
  }

  // ----- acknowledgements --------------------------------------------------------------

  /** PUBACK and PUBCOMP, however many entries carry the packet id: the entries that `Goes`
      tells go, the others keep their order, and of these exactly the queued ones that now
      stand in the window are made sendable. */
  lemma AckExact(b: Db, c: nat, mid: nat)
    requires c < |b.clients| && mid != 0
    ensures var ms, r, n := b.clients[c].msgs, HandlePubackComp(b, c, mid).clients[c].msgs, b.cfg.maxInflight;
      && |r| == Rank(ms, mid, n, false, |ms|)
      && forall k :: 0 <= k < |ms| && !Goes(ms, mid, n, false, k) ==>
           var j := Rank(ms, mid, n, false, k);
           j < |r| && r[j] == Slid(ms[k], j, n)
  {
    hide DeleteFrom, Slid, Goes, Rank;
    var ms, r, n := b.clients[c].msgs, HandlePubackComp(b, c, mid).clients[c].msgs, b.cfg.maxInflight;
    DeleteSettles(b, c, mid, 0, false, |ms|);
    forall k | 0 <= k < |ms| && !Goes(ms, mid, n, false, k)
      ensures Rank(ms, mid, n, false, k) < |r|
      ensures r[Rank(ms, mid, n, false, k)] == Slid(ms[k], Rank(ms, mid, n, false, k), n)
    {
      DeleteSettles(b, c, mid, 0, false, k);
    }
  }

  /** With one entry named, that entry goes, and those behind it move up. */
  lemma OneRank(ms: seq<Entry>, mid: nat, n: nat, k: nat, x: nat)
    requires k < |ms| && x <= |ms| && forall y :: 0 <= y < |ms| ==> (Named(ms[y], mid) <==> y == k)
    ensures Rank(ms, mid, n, false, x) == if x <= k then x else x - 1
    ensures x < |ms| ==> (Goes(ms, mid, n, false, x) <==> x == k)
  {
    if x <= k {
      RankFront(ms, mid, n, false, x);
    } else {
      RankFront(ms, mid, n, false, k);
      RankBack(ms, mid, n, false, k + 1, x);
    }
  }

  /** An acknowledgement that names one entry removes it and no other. */
  lemma AckOne(b: Db, c: nat, mid: nat, k: nat)
    requires c < |b.clients| && k < |b.clients[c].msgs| && mid != 0
    requires forall x :: 0 <= x < |b.clients[c].msgs| ==> (Named(b.clients[c].msgs[x], mid) <==> x == k)
    ensures var ms, r := b.clients[c].msgs, HandlePubackComp(b, c, mid).clients[c].msgs;
      && |r| == |ms| - 1
      && forall j :: 0 <= j < |r| ==> r[j] == Slid(ms[if j < k then j else j + 1], j, b.cfg.maxInflight)
  {
    hide HandlePubackComp, Slid, Goes, Rank;
    var ms, n := b.clients[c].msgs, b.cfg.maxInflight;
    AckExact(b, c, mid);
    var r := HandlePubackComp(b, c, mid).clients[c].msgs;
    OneRank(ms, mid, n, k, |ms|);
    forall j | 0 <= j < |r| ensures r[j] == Slid(ms[if j < k then j else j + 1], j, n) {
      var x := if j < k then j else j + 1;
      OneRank(ms, mid, n, k, x);
      assert !Goes(ms, mid, n, false, x);
    }
  }

  /** An acknowledgement that names nothing removes nothing, but still lets queued entries
      into the window. */
  lemma AckUnknown(b: Db, c: nat, mid: nat)
    requires c < |b.clients| && mid != 0
    requires forall x :: 0 <= x < |b.clients[c].msgs| ==> !Named(b.clients[c].msgs[x], mid)
    ensures var ms, r := b.clients[c].msgs, HandlePubackComp(b, c, mid).clients[c].msgs;
      |r| == |ms| && forall j :: 0 <= j < |r| ==> r[j] == Slid(ms[j], j, b.cfg.maxInflight)
  {
    hide HandlePubackComp, Slid;
    var ms, n := b.clients[c].msgs, b.cfg.maxInflight;
    AckExact(b, c, mid);
    RankFront(ms, mid, n, false, |ms|);
    forall j | 0 <= j < |ms| ensures Rank(ms, mid, n, false, j) == j && !Goes(ms, mid, n, false, j) {
      RankFront(ms, mid, n, false, j);
    }
  }

  /** No other client, nothing of the tree and no text of a message changes. */
  lemma {:induction false} AckElsewhere(b: Db, c: nat, mid: nat, i: nat, msgIndex: nat, deleted: bool, d: nat)
    requires c < |b.clients| && d < |b.clients|
    ensures var r := DeleteFrom(b, c, mid, i, msgIndex, deleted);
      && r.subs == b.subs && (if d != c then r.clients[d] == b.clients[d] else SameClient(b.clients[d], r.clients[d]))
      && TextsKept(b.store, r.store)
    decreases |b.clients[c].msgs| - i
  {
    hide DeleteFrom;
    DeleteTurn(b, c, mid, i, msgIndex, deleted);
    if i < |b.clients[c].msgs| {
      var b1 := Promote(b, c, i, msgIndex + 1);
      var e := b1.clients[c].msgs[i];
      if Named(e, mid) {
        if msgIndex <= b.cfg.maxInflight {
          AckElsewhere(Drop(b1, c, i), c, mid, i, msgIndex, true, d);
        }
      } else {
        AckElsewhere(b1, c, mid, i + 1, msgIndex + 1, deleted, d);
      }
    }
  }

  /** All that PUBACK and PUBCOMP do. */
  ghost predicate Acknowledges(b: Db, r: Db, c: nat, mid: nat)
    requires c < |b.clients|
  {
    if mid == 0 then r == b
    else
      && |r.clients| == |b.clients| && r.subs == b.subs && TextsKept(b.store, r.store)
      && (forall d :: 0 <= d < |b.clients| && d != c ==> r.clients[d] == b.clients[d])
      && SameClient(b.clients[c], r.clients[c])
      && var ms, ns, n := b.clients[c].msgs, r.clients[c].msgs, b.cfg.maxInflight;
         && |ns| == Rank(ms, mid, n, false, |ms|)
         && forall k :: 0 <= k < |ms| && !Goes(ms, mid, n, false, k) ==>
              var j := Rank(ms, mid, n, false, k);
              j < |ns| && ns[j] == Slid(ms[k], j, n)
  }

  lemma AckAcknowledges(b: Db, c: nat, mid: nat)
    requires c < |b.clients|
    ensures Acknowledges(b, HandlePubackComp(b, c, mid), c, mid)
  {
    hide DeleteFrom, Rank, Goes, Slid;
    if mid != 0 {
      AckExact(b, c, mid);
      forall d | 0 <= d < |b.clients|
        ensures d != c ==> HandlePubackComp(b, c, mid).clients[d] == b.clients[d]
      {
        AckElsewhere(b, c, mid, 0, 0, false, d);
      }
      AckElsewhere(b, c, mid, 0, 0, false, c);
    }
  }
}

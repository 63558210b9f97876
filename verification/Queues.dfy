/** One client's message list (`struct mosquitto_client_msg`), and the edits database.c
    makes to it: append, unlink, change of state. */
module Queues {
  import opened Options
  import opened Hierarchy

  datatype Dir = In | Out

  datatype State =
    | PublishQos0 | PublishQos1 | WaitForPuback | PublishQos2 | WaitForPubrec
    | ResendPubrel | WaitForPubrel | ResendPubcomp | WaitForPubcomp | SendPubrec | Queued

  /** What has happened on the wire for one entry. */
  datatype Sent = Publish(dup: bool) | Pubrec | Pubrel | Reset

  /** `uid` stands for the entry's address; `history` is kept by the model only. */
  datatype Entry = Entry(uid: nat, store: nat, mid: nat, qos: Qos, retain: bool, dir: Dir,
                         state: State, dup: bool, history: seq<Sent>)

  datatype Client = Client(id: string, connected: bool, msgs: seq<Entry>, lastMsg: Option<nat>,
                           msgCount: int, msgCount12: int, lastMid: nat)

  // ----- summing over a list --------------------------------------------------

  function Tally(ms: seq<Entry>, w: Entry -> nat): nat {
    if ms == [] then 0 else w(ms[0]) + Tally(ms[1..], w)
  }

  lemma {:induction false} TallyAppend(a: seq<Entry>, b: seq<Entry>, w: Entry -> nat)
    ensures Tally(a + b, w) == Tally(a, w) + Tally(b, w)
  {
    if a == [] {
      assert a + b == b;
    } else {
      TallyAppend(a[1..], b, w);
      assert (a + b)[1..] == a[1..] + b;
    }
  }

  lemma TallyOne(e: Entry, w: Entry -> nat)
    ensures Tally([e], w) == w(e)
  {
    assert [e][1..] == [];
  }

  lemma TallyEdit(ms: seq<Entry>, i: nat, e: Entry, w: Entry -> nat)
    requires i < |ms|
    ensures Tally(ms[i := e], w) == Tally(ms, w) - w(ms[i]) + w(e)
    ensures Tally(ms[..i] + ms[i + 1..], w) == Tally(ms, w) - w(ms[i])
  {
    TallyAppend(ms[..i], ms[i + 1..], w);
    TallyAppend(ms[..i], [e] + ms[i + 1..], w);
    TallyAppend(ms[..i], [ms[i]] + ms[i + 1..], w);
    TallyAppend([e], ms[i + 1..], w);
    TallyAppend([ms[i]], ms[i + 1..], w);
    TallyOne(e, w);
    TallyOne(ms[i], w);
    assert ms[i := e] == ms[..i] + ([e] + ms[i + 1..]);
    assert ms == ms[..i] + ([ms[i]] + ms[i + 1..]);
  }

  lemma {:induction false} TallyLess(ms: seq<Entry>, v: Entry -> nat, w: Entry -> nat)
    requires forall e :: e in ms ==> v(e) <= w(e)
    ensures Tally(ms, v) <= Tally(ms, w)
  {
    if ms != [] {
      TallyLess(ms[1..], v, w);
    }
  }

  function Qos12(): Entry -> nat {
    (e: Entry) => if e.qos > 0 then 1 else 0
  }

  /** Outbound entries above QoS 0, the ones the in-flight limit is about. */
  function Out12(): Entry -> nat {
    (e: Entry) => if e.dir == Out && e.qos > 0 then 1 else 0
  }

  function Active(e: Entry): bool {
    e.dir == Out && e.qos > 0 && e.state != Queued
  }

  function InFlight(): Entry -> nat {
    (e: Entry) => if Active(e) then 1 else 0
  }

  function RefersTo(sid: nat): Entry -> nat {
    (e: Entry) => if e.store == sid then 1 else 0
  }

  function InboundOf(sid: nat): Entry -> nat {
    (e: Entry) => if e.dir == In && e.store == sid then 1 else 0
  }

  function WithMid(mid: nat): Entry -> nat {
    (e: Entry) => if e.dir == In && e.mid == mid then 1 else 0
  }

  // ----- edits ----------------------------------------------------------------

  /** The place of the entry `last_msg` points at, searched from the end. */
  function PlaceOf(ms: seq<Entry>, uid: nat): (k: nat)
    ensures k <= |ms|
    decreases |ms|
  {
    if ms == [] then 0
    else if ms[|ms| - 1].uid == uid then |ms| - 1
    else
      var k := PlaceOf(ms[..|ms| - 1], uid);
      if k == |ms| - 1 then |ms| else k
  }

  /** Link behind `last_msg`; whatever followed it is cut off. */
  function AppendMsg(cl: Client, e: Entry): Client {
    var linked :=
      if cl.lastMsg.None? then [e]
      else
        var k := PlaceOf(cl.msgs, cl.lastMsg.value);
        if k < |cl.msgs| then cl.msgs[..k + 1] + [e] else cl.msgs;
    cl.(msgs := linked, lastMsg := Some(e.uid), msgCount := cl.msgCount + 1,
        msgCount12 := cl.msgCount12 + (if e.qos > 0 then 1 else 0))
  }

  /** `_message_remove` at place `i`. */
  function DropMsg(cl: Client, i: nat): Client
    requires i < |cl.msgs|
  {
    cl.(msgs := cl.msgs[..i] + cl.msgs[i + 1..],
        lastMsg := if i + 1 < |cl.msgs| then cl.lastMsg else if i > 0 then Some(cl.msgs[i - 1].uid) else None,
        msgCount := cl.msgCount - 1,
        msgCount12 := cl.msgCount12 - (if cl.msgs[i].qos > 0 then 1 else 0))
  }

  /** A change of the mutable fields of one entry. */
  function EditMsg(cl: Client, i: nat, e: Entry): Client
    requires i < |cl.msgs|
  {
    cl.(msgs := cl.msgs[i := e])
  }

  predicate SameEntry(a: Entry, b: Entry) {
    a.uid == b.uid && a.store == b.store && a.mid == b.mid && a.qos == b.qos && a.retain == b.retain && a.dir == b.dir
  }

  function ToSend(qos: Qos): State {
    if qos == 0 then PublishQos0 else if qos == 1 then PublishQos1 else PublishQos2
  }

  /** What delete and release do to a queued entry that moves into the window. */
  function Promoted(e: Entry): Entry {
    if e.dir == Out then e.(state := ToSend(e.qos))
    else if e.qos == 2 then e.(state := WaitForPubrel)
    else e
  }

  // ----- what holds of a client's list ------------------------------------------

  function LastUid(ms: seq<Entry>): Option<nat> {
    if ms == [] then None else Some(ms[|ms| - 1].uid)
  }

  ghost predicate CountsOk(cl: Client) {
    && cl.msgCount == |cl.msgs|
    && cl.msgCount12 == Tally(cl.msgs, Qos12())
    && cl.lastMsg == LastUid(cl.msgs)
  }

  ghost predicate InboundQos2(cl: Client) {
    forall e :: e in cl.msgs && e.dir == In ==> e.qos == 2
  }

  /** There is a place `p` such that at most `n` outbound entries above QoS 0 stand
      before it, and those in flight behind it stand among the first `n` entries. */
  ghost predicate SplitAt(ms: seq<Entry>, p: nat, n: nat) {
    && p <= |ms| && Tally(ms[..p], Out12()) <= n
    && forall i :: p <= i < |ms| && Active(ms[i]) ==> i < n
  }

  ghost predicate Windowed(ms: seq<Entry>, n: nat) {
    exists p: nat :: SplitAt(ms, p, n)
  }

  /** PUBREC has been handled and no reconnect has come since. */
  function Confirmed(h: seq<Sent>): bool {
    h != [] && (h[|h| - 1] == Pubrec || (h[|h| - 1] != Reset && Confirmed(h[..|h| - 1])))
  }

  function EverPublished(h: seq<Sent>): bool {
    h != [] && (h[|h| - 1].Publish? || EverPublished(h[..|h| - 1]))
  }

  /** No PUBLISH after a handled PUBREC; DUP exactly on every PUBLISH but the first. */
  ghost predicate Lawful(h: seq<Sent>) {
    h != [] ==>
      var before := h[..|h| - 1];
      Lawful(before) && (h[|h| - 1].Publish? ==> !Confirmed(before) && (h[|h| - 1].dup <==> EverPublished(before)))
  }

  predicate Waiting(s: State) {
    s == WaitForPuback || s == WaitForPubrec || s == WaitForPubcomp || s == ResendPubrel
  }

  ghost predicate EntryOk(e: Entry) {
    && (e.dir == In ==> e.state != PublishQos0)
    && (e.dir == Out ==>
      && Lawful(e.history)
      && (e.dup <==> EverPublished(e.history))
      && (Confirmed(e.history) ==> e.state == WaitForPubcomp || e.state == ResendPubrel)
      && (Waiting(e.state) ==> e.dup)
      && (e.state == Queued ==> !e.dup)
      && e.state != WaitForPubrel && e.state != SendPubrec && e.state != ResendPubcomp)
  }

  ghost predicate ClientOk(cl: Client, n: nat) {
    && CountsOk(cl) && InboundQos2(cl)
    && (n > 0 ==> Windowed(cl.msgs, n))
    && forall e :: e in cl.msgs ==> EntryOk(e)
  }

  // ----- the bound ------------------------------------------------------------

  /** The limit the window is there for. */
  lemma WindowBounds(ms: seq<Entry>, n: nat)
    requires Windowed(ms, n)
    ensures Tally(ms, InFlight()) <= n
  {
    hide Tally;
    var p: nat :| SplitAt(ms, p, n);
    if p >= n {
      NoneBehind(ms, p);
      TallyLess(ms[..p], InFlight(), Out12());
    } else {
      var k := if n < |ms| then n else |ms|;
      NoneBehind(ms, k);
      TallyAtMostLength(ms[..k], InFlight());
    }
  }

  lemma NoneBehind(ms: seq<Entry>, k: nat)
    requires k <= |ms| && forall i :: k <= i < |ms| ==> !Active(ms[i])
    ensures Tally(ms, InFlight()) == Tally(ms[..k], InFlight())
  {
    hide Tally;
    TallyAppend(ms[..k], ms[k..], InFlight());
    assert ms == ms[..k] + ms[k..];
    assert forall i :: 0 <= i < |ms[k..]| ==> ms[k..][i] == ms[k + i];
    TallyNone(ms[k..], InFlight());
  }

  lemma {:induction false} TallyNone(ms: seq<Entry>, w: Entry -> nat)
    requires forall i :: 0 <= i < |ms| ==> w(ms[i]) == 0
    ensures Tally(ms, w) == 0
  {
    if ms != [] {
      assert forall i :: 0 <= i < |ms[1..]| ==> ms[1..][i] == ms[i + 1];
      TallyNone(ms[1..], w);
    }
  }

  lemma {:induction false} TallyAtMostLength(ms: seq<Entry>, w: Entry -> nat)
    requires forall e :: w(e) <= 1
    ensures Tally(ms, w) <= |ms|
  {
    if ms != [] {
      TallyAtMostLength(ms[1..], w);
    }
  }

  // ----- each edit keeps the list in order ------------------------------------------

  lemma AppendIsAtEnd(cl: Client, e: Entry)
    requires CountsOk(cl)
    ensures AppendMsg(cl, e).msgs == cl.msgs + [e]
  {
  }

  /** Appending is safe when the entry is queued, or when there is room. */
  lemma AppendKeepsOk(cl: Client, e: Entry, n: nat)
    requires ClientOk(cl, n) && EntryOk(e) && (e.dir == In ==> e.qos == 2)
    requires n > 0 && Active(e) ==> cl.msgCount12 < n
    ensures ClientOk(AppendMsg(cl, e), n)
  {
    hide Tally, EntryOk;
    AppendIsAtEnd(cl, e);
    var ms := cl.msgs + [e];
    TallyAppend(cl.msgs, [e], Qos12());
    TallyOne(e, Qos12());
    if n > 0 {
      if Active(e) {
        TallyAppend(cl.msgs, [e], Out12());
        TallyOne(e, Out12());
        TallyLess(cl.msgs, Out12(), Qos12());
        assert ms[..|ms|] == ms;
        assert SplitAt(ms, |ms|, n);
      } else {
        var p: nat :| SplitAt(cl.msgs, p, n);
        assert ms[..p] == cl.msgs[..p];
        assert SplitAt(ms, p, n);
      }
    }
  }

  lemma DropKeepsWindow(ms: seq<Entry>, i: nat, n: nat)
    requires i < |ms| && Windowed(ms, n)
    ensures Windowed(ms[..i] + ms[i + 1..], n)
  {
    var r := ms[..i] + ms[i + 1..];
    var p: nat :| SplitAt(ms, p, n);
    assert forall j :: 0 <= j < |r| ==> r[j] == ms[if j < i then j else j + 1];
    if i < p {
      TallyEdit(ms[..p], i, ms[i], Out12());
      assert r[..p - 1] == ms[..p][..i] + ms[..p][i + 1..];
      assert SplitAt(r, p - 1, n);
    } else {
      assert r[..p] == ms[..p];
      assert SplitAt(r, p, n);
    }
  }

  lemma DropKeepsOk(cl: Client, i: nat, n: nat)
    requires ClientOk(cl, n) && i < |cl.msgs|
    ensures ClientOk(DropMsg(cl, i), n)
  {
    var ms := DropMsg(cl, i).msgs;
    DropKeepsCounts(cl, i);
    assert forall e :: e in ms ==> e in cl.msgs;
    if n > 0 {
      DropKeepsWindow(cl.msgs, i, n);
    }
  }

  lemma DropKeepsCounts(cl: Client, i: nat)
    requires CountsOk(cl) && i < |cl.msgs|
    ensures CountsOk(DropMsg(cl, i))
  {
    TallyEdit(cl.msgs, i, cl.msgs[i], Qos12());
  }

  lemma EditKeepsWindow(ms: seq<Entry>, i: nat, e: Entry, n: nat)
    requires i < |ms| && SameEntry(ms[i], e) && Windowed(ms, n) && (Active(e) ==> Active(ms[i]) || i < n)
    ensures Windowed(ms[i := e], n)
  {
    hide Tally;
    var r := ms[i := e];
    var p: nat :| SplitAt(ms, p, n);
    if i < p {
      TallyEdit(ms[..p], i, e, Out12());
      assert r[..p] == ms[..p][i := e];
    } else {
      assert r[..p] == ms[..p];
    }
    assert SplitAt(r, p, n);
  }

  /** A change of state is safe unless it puts a queued outbound entry in flight; that is
      safe among the first `n` entries. */
  lemma EditKeepsOk(cl: Client, i: nat, e: Entry, n: nat)
    requires ClientOk(cl, n) && i < |cl.msgs| && SameEntry(cl.msgs[i], e) && EntryOk(e)
    requires n > 0 && Active(e) ==> Active(cl.msgs[i]) || i < n
    ensures ClientOk(EditMsg(cl, i, e), n)
  {
    hide Tally, Windowed, EntryOk;
    TallyEdit(cl.msgs, i, e, Qos12());
    if n > 0 {
      EditKeepsWindow(cl.msgs, i, e, n);
    }
    assert cl.msgs[i] in cl.msgs;
    assert forall x :: x in cl.msgs[i := e] ==> x == e || x in cl.msgs;
  }

  // ----- what a lawful history says -----------------------------------------------

  lemma {:induction false} ConfirmedByPosition(h: seq<Sent>)
    ensures Confirmed(h) <==> exists i :: 0 <= i < |h| && h[i] == Pubrec && forall j :: i < j < |h| ==> h[j] != Reset
    decreases |h|
  {
    if h != [] {
      var before, last := h[..|h| - 1], |h| - 1;
      ConfirmedByPosition(before);
      if Confirmed(h) {
        if h[last] == Pubrec {
          assert 0 <= last < |h| && h[last] == Pubrec;
        } else {
          var i :| 0 <= i < |before| && before[i] == Pubrec && forall j :: i < j < |before| ==> before[j] != Reset;
          assert h[i] == Pubrec && forall j :: i < j < |h| ==> h[j] != Reset;
        }
      }
      if i :| 0 <= i < |h| && h[i] == Pubrec && forall j :: i < j < |h| ==> h[j] != Reset {
        if i < last {
          assert before[i] == Pubrec && forall j :: i < j < |before| ==> before[j] != Reset;
        }
      }
    }
  }

  lemma {:induction false} EverPublishedByPosition(h: seq<Sent>)
    ensures EverPublished(h) <==> exists i :: 0 <= i < |h| && h[i].Publish?
    decreases |h|
  {
    if h != [] {
      EverPublishedByPosition(h[..|h| - 1]);
    }
  }

  lemma {:induction false} LawfulPrefix(h: seq<Sent>, k: nat)
    requires Lawful(h) && k < |h| && h[k].Publish?
    ensures !Confirmed(h[..k]) && (h[k].dup <==> EverPublished(h[..k]))
    decreases |h|
  {
    if k < |h| - 1 {
      LawfulPrefix(h[..|h| - 1], k);
      assert h[..|h| - 1][..k] == h[..k];
    }
  }

  /** In the wire history of an entry, a handled PUBREC is followed by no PUBLISH unless a
      reconnect comes between, and DUP is set on every PUBLISH except the first. */
  lemma LawfulMeans(h: seq<Sent>, i: nat, k: nat)
    requires Lawful(h) && i < k < |h| && h[k].Publish?
    ensures h[i] == Pubrec ==> exists j :: i < j < k && h[j] == Reset
    ensures h[i].Publish? ==> h[k].dup
    ensures (forall j :: 0 <= j < k ==> !h[j].Publish?) ==> !h[k].dup
  {
    LawfulPrefix(h, k);
    ConfirmedByPosition(h[..k]);
    EverPublishedByPosition(h[..k]);
    assert h[..k][i] == h[i];
    if h[i] == Pubrec {
      var j :| i < j < |h[..k]| && h[..k][j] == Reset;
      assert h[j] == Reset;
    }
  }
}

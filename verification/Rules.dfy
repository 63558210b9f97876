/** The rules for the entries of a queue, written out: which messages a client takes, in which
    state an entry enters, and what each pass over a queue makes of it. The steps of `Broker`
    do not use them; they are what these steps are measured by. */
module Rules {
  import opened Hierarchy
  import opened Queues
  import opened Broker

  // ----- entering a queue -----------------------------------------------------------------

  /** The message can go out at once. */
  predicate Room(cfg: Config, cl: Client, q: Qos) {
    q == 0 || cfg.maxInflight == 0 || cl.msgCount12 < cfg.maxInflight
  }

  /** The client takes one more message of this QoS: while it is connected up to `maxQueued`
      behind the window, and otherwise up to `maxQueued` in all. */
  predicate Takes(cfg: Config, cl: Client, q: Qos) {
    if cl.connected then
      Room(cfg, cl, q) || cfg.maxQueued == 0 || cl.msgCount12 < cfg.maxInflight + cfg.maxQueued
    else
      (q > 0 || cfg.queueQos0) && (cfg.maxQueued == 0 || cl.msgCount12 < cfg.maxQueued)
  }

  /** The state in which an outbound entry enters the queue. */
  function EntersAs(cfg: Config, cl: Client, q: Qos): State {
    if !cl.connected || !Room(cfg, cl, q) then Queued
    else if q == 0 then PublishQos0
    else if q == 1 then PublishQos1
    else PublishQos2
  }

  /** The state in which an inbound entry, which has QoS 2, enters it. */
  function ArrivesAs(cfg: Config, cl: Client): State {
    if cl.connected && Room(cfg, cl, 2) then WaitForPubrel else Queued
  }

  function Lesser(a: Qos, b: Qos): Qos {
    if a < b then a else b
  }

  /** The QoS a message of QoS `qos` is sent with to a subscription of QoS `subQos`. */
  function Chosen(cfg: Config, qos: Qos, subQos: Qos): Qos {
    if cfg.upgradeQos then subQos else Lesser(qos, subQos)
  }

  /** The packet id drawn after `last`. */
  function NextId(last: nat): nat {
    if last == 0xFFFF then 1 else last + 1
  }

  // ----- what stays -------------------------------------------------------------------------

  predicate SameClient(a: Client, b: Client) {
    a.id == b.id && a.connected == b.connected
  }

  predicate SameText(s: Stored, t: Stored) {
    t.sourceMid == s.sourceMid && t.topic == s.topic && t.qos == s.qos && t.retain == s.retain && t.empty == s.empty
  }

  /** The same messages are stored, and they say the same. */
  ghost predicate TextsKept(st: map<nat, Stored>, su: map<nat, Stored>) {
    st.Keys == su.Keys && forall x :: x in st ==> SameText(st[x], su[x])
  }

  // ----- in the queue ------------------------------------------------------------------------

  /** An entry that moves into the window when another leaves. */
  function Admitted(e: Entry): Entry {
    if e.dir == In then (if e.qos == 2 then e.(state := WaitForPubrel) else e)
    else if e.qos == 0 then e.(state := PublishQos0)
    else if e.qos == 1 then e.(state := PublishQos1)
    else e.(state := PublishQos2)
  }

  /** An outbound entry when its client connects again: a handshake behind PUBREC goes on with
      PUBREL, and every other one starts over. */
  function Restarted(e: Entry): Entry {
    var h := e.history + [Reset];
    if e.dir == In then e
    else if e.state == Queued then e.(history := h)
    else if e.qos == 0 then e.(state := PublishQos0, history := h)
    else if e.qos == 1 then e.(state := PublishQos1, history := h)
    else if e.state == WaitForPubcomp then e.(state := ResendPubrel, history := h)
    else e.(state := PublishQos2, history := h)
  }

  /** What a reconnect makes of the entry at place `i`: restarted, and if it is still queued
      within the window made a PUBLISH, whatever its direction. */
  function ReconnectEntry(e: Entry, i: nat, maxInflight: nat): Entry {
    var r := Restarted(e);
    if r.state != Queued || (maxInflight > 0 && i >= maxInflight) then r
    else if r.qos == 0 then r.(state := PublishQos0)
    else if r.qos == 1 then r.(state := PublishQos1)
    else r.(state := PublishQos2)
  }

  /** An entry whose answer has not come in time. */
  function Overdue(e: Entry): Entry {
    if e.state == WaitForPuback then e.(state := PublishQos1, dup := true)
    else if e.state == WaitForPubrec then e.(state := PublishQos2, dup := true)
    else if e.state == WaitForPubrel then e.(state := SendPubrec, dup := true)
    else if e.state == WaitForPubcomp then e.(state := ResendPubrel, dup := true)
    else e
  }

  // ----- what the steps of the broker come to -------------------------------------------------

  lemma PlacedOut(cfg: Config, cl: Client, q: Qos)
    ensures Takes(cfg, cl, q) <==> (cl.connected || q > 0 || cfg.queueQos0) && Placed(cfg, cl, Out, q).Place?
    ensures Takes(cfg, cl, q) ==> Placed(cfg, cl, Out, q).state == EntersAs(cfg, cl, q)
  {
  }

  lemma PlacedIn(cfg: Config, cl: Client)
    ensures Takes(cfg, cl, 2) <==> Placed(cfg, cl, In, 2).Place?
    ensures Takes(cfg, cl, 2) ==> Placed(cfg, cl, In, 2).state == ArrivesAs(cfg, cl)
  {
  }

  lemma ChosenIs(cfg: Config, qos: Qos, subQos: Qos)
    ensures Chosen(cfg, qos, subQos) == if cfg.upgradeQos then subQos else Min(qos, subQos)
  {
  }

  lemma PromotedIs(e: Entry)
    ensures Promoted(e) == Admitted(e)
  {
  }

  lemma ResetIs(e: Entry)
    ensures ResetEntry(e) == Restarted(e)
  {
  }

  lemma TimedOutIs(e: Entry)
    ensures TimedOut(e) == Overdue(e)
  {
  }

  lemma NextMidIs(last: nat)
    requires last < 0x1_0000
    ensures NextMid(last) == NextId(last)
  {
  }

  // ----- packet ids -----------------------------------------------------------------------

  /** The packet id drawn last, after `k` more draws. */
  function Drawing(last: nat, k: nat): nat {
    if k == 0 then last else NextMid(Drawing(last, k - 1))
  }

  lemma {:induction false} DrawnIs(last: nat, k: nat)
    requires last < 0x1_0000 && k > 0
    ensures Drawing(last, k) == (last + k - 1) % 0xFFFF + 1
  {
    if k > 1 {
      DrawnIs(last, k - 1);
    }
  }

  /** Two ids drawn fewer than 65535 draws apart differ, and all of them are used in turn. */
  lemma IdsDiffer(last: nat, j: nat, k: nat)
    requires last < 0x1_0000 && 0 < j < k
    ensures 0 < Drawing(last, j) < 0x1_0000
    ensures Drawing(last, j) == Drawing(last, k) <==> (k - j) % 0xFFFF == 0
  {
    hide Drawing;
    DrawnIs(last, j);
    DrawnIs(last, k);
    SameRest(last + j - 1, last + k - 1);
  }

  lemma SameRest(a: nat, b: nat)
    requires a <= b
    ensures a % 0xFFFF == b % 0xFFFF <==> (b - a) % 0xFFFF == 0
  {
    var d, r := (b - a) / 0xFFFF, (b - a) % 0xFFFF;
    var q, p := a / 0xFFFF, a % 0xFFFF;
    assert b == 0xFFFF * (q + d) + (p + r);
    if p + r < 0xFFFF {
      assert b % 0xFFFF == p + r;
    } else {
      assert b == 0xFFFF * (q + d + 1) + (p + r - 0xFFFF);
      assert b % 0xFFFF == p + r - 0xFFFF;
    }
  }
}

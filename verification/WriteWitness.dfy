/** A run of the broker behind which one pass of the write loop is not enough, followed event by
    event by what `Steps` says of them. */
module WriteWitness {
  import opened Options
  import opened Topics
  import opened Hierarchy
  import opened SubTree
  import opened Queues
  import opened Broker
  import opened BrokerLaws
  import opened BrokerRuns
  import opened BrokerEdges
  import opened Delivery
  import BrokerWitness
  import Publishes
  import Subscribes
  import Steps
  import Writes
  import opened Rules

  /** A window of three messages, and a queue without limit. */
  function Three(): Config {
    Config(3, 0, false, false, false)
  }

  function Readers(): Acl {
    BrokerWitness.Anyone()
  }

  /** A message that the client itself subscribed to, and one that it publishes. */
  function Told(): Event {
    Event.Announce("a", 2, false, false, Readers())
  }

  function Asked(mid: nat): Event {
    Event.PublishIn(0, mid, "b", 2, false, false, false, Readers())
  }

  // ----- the state --------------------------------------------------------------------------

  predicate IsOut(e: Entry) {
    e.dir == Out && e.state == PublishQos2 && e.qos == 2
  }

  predicate IsIn(e: Entry, mid: nat) {
    e.dir == In && e.state == Queued && e.qos == 2 && e.mid == mid
  }

  /** The queue: `outs` messages to send, and behind them `ins` handshakes that wait. */
  predicate Lined(ms: seq<Entry>, outs: nat, ins: nat) {
    && |ms| == outs + ins
    && (forall k :: 0 <= k < outs ==> IsOut(ms[k]))
    && forall k :: outs <= k < outs + ins ==> IsIn(ms[k], k - outs + 1)
  }

  ghost predicate OnlySub(s: Subs) {
    forall p :: SubOf(s, p, "c") == if p == Tokens("a") then Some(2) else None
  }

  ghost predicate IsEmpty(s: Subs) {
    (forall p, d :: SubOf(s, p, d).None?) && forall p :: RetOf(s, p).None?
  }

  predicate AllTopics(store: map<nat, Stored>) {
    forall sid :: sid in store ==> store[sid].topic.Some?
  }

  ghost predicate Shape(b: Db, outs: nat, ins: nat) {
    && b.cfg == Three() && |b.clients| == 1 && b.clients[0].id == "c" && b.clients[0].connected
    && Lined(b.clients[0].msgs, outs, ins) && OnlySub(b.subs) && AllTopics(b.store)
  }

  lemma {:induction false} TallyAllOnes(ms: seq<Entry>)
    requires forall k :: 0 <= k < |ms| ==> ms[k].qos > 0
    ensures Tally(ms, Qos12()) == |ms|
  {
    if ms != [] {
      assert forall k :: 0 <= k < |ms[1..]| ==> ms[1..][k] == ms[k + 1];
      TallyAllOnes(ms[1..]);
    }
  }

  /** The counter of the window. */
  lemma ShapeCounts(evs: seq<Event>, b: Db, outs: nat, ins: nat)
    requires After(Three(), evs, b) && Shape(b, outs, ins)
    ensures b.clients[0].msgCount12 == outs + ins && InboundQos2(b.clients[0]) && Valid(b.subs) && Inv(b)
  {
    CountersAgree(Three(), evs, b, 0);
    forall k | 0 <= k < outs + ins ensures b.clients[0].msgs[k].qos > 0 {
      assert k < outs ==> IsOut(b.clients[0].msgs[k]);
      assert k >= outs ==> IsIn(b.clients[0].msgs[k], k - outs + 1);
    }
    TallyAllOnes(b.clients[0].msgs);
    InvTree(b);
  }

  lemma GoesOn(evs: seq<Event>, b: Db, ev: Event) returns (r: Db)
    requires After(Three(), evs, b) && Allowed(b, ev)
    ensures After(Three(), evs + [ev], r) && Steps.Does(b, ev, r) && r == Next(b, ev) && r.cfg == b.cfg
  {
    assert (evs + [ev])[..|evs|] == evs;
    hide Allowed, Next, Steps.Does, Inv;
    r := Next(b, ev);
    Steps.StepDoes(Three(), evs, ev, b, r);
  }

  // ----- the events -------------------------------------------------------------------------

  lemma Connects() returns (r: Db)
    ensures After(Three(), [Event.Connect("c")], r)
    ensures r.cfg == Three() && r.clients == [Client("c", true, [], None, 0, 0, 0)] && r.store == map[]
    ensures IsEmpty(r.subs)
  {
    var b := Start(Three());
    assert After(Three(), [], b);
    r := GoesOn([], b, Event.Connect("c"));
    assert [] + [Event.Connect("c")] == [Event.Connect("c")];
    BootIsEmpty();
  }

  lemma BootIsEmpty()
    ensures IsEmpty(Boot())
  {
    BootAgrees();
  }

  lemma Subscribing(evs: seq<Event>, b: Db) returns (r: Db)
    requires After(Three(), evs, b) && b.cfg == Three() && b.clients == [Client("c", true, [], None, 0, 0, 0)]
    requires b.store == map[] && IsEmpty(b.subs)
    ensures After(Three(), evs + [Event.Subscribe(0, "a", 2, Readers())], r) && Shape(r, 0, 0)
  {
    hide Inv, Play, SubOf, RetOf, Subscribes.Recalled, Brought;
    MissTokens();
    PlainIsFilter(Split("a"));
    r := GoesOn(evs, b, Event.Subscribe(0, "a", 2, Readers()));
    var ps :| Subscribes.Recalled(r.subs, "a", ps)
      && Brought(b.clients[0], r.clients[0], Subscribes.Recalls(b.cfg, b.store, b.clients[0], ps, 2, Readers()));
    NothingRecalled(b.cfg, b.clients[0], ps, 2, Readers());
    BroughtNothing(b.clients[0], r.clients[0]);
  }

  /** Nothing is stored, so nothing can be recalled. */
  lemma {:induction false} NothingRecalled(cfg: Config, cl: Client, ps: seq<At<nat>>, subQos: Qos, acl: Acl)
    ensures Subscribes.Recalls(cfg, map[], cl, ps, subQos, acl) == []
    decreases |ps|
  {
    if ps != [] {
      NothingRecalled(cfg, cl, ps[1..], subQos, acl);
    }
  }

  lemma BroughtNothing(cl: Client, n: Client)
    requires Brought(cl, n, [])
    ensures n.msgs == cl.msgs
  {
  }

  /** A message comes for the client, for which there is room. */
  lemma Telling(evs: seq<Event>, b: Db, outs: nat) returns (r: Db)
    requires After(Three(), evs, b) && Shape(b, outs, 0) && outs < 3
    ensures After(Three(), evs + [Told()], r) && Shape(r, outs + 1, 0)
  {
    hide Inv, After, OnlySub, Lined, AllTopics, Publishes.Routed, Valid, Steps.Does, Allowed, Next;
    ShapeCounts(evs, b, outs, 0);
    ToldMay(b);
    r := GoesOn(evs, b, Told());
    ToldDoes(b, r);
    ToldShape(b, r, outs);
  }

  lemma ToldMay(b: Db)
    ensures Allowed(b, Told())
  {
    MissTokens();
  }

  lemma ToldDoes(b: Db, r: Db)
    requires Inv(b) && Allowed(b, Told()) && Steps.Does(b, Told(), r)
    ensures Publishes.Routed(b, r, 0, "a", 2, false, false, Readers())
  {
    hide Inv, Publishes.Routed;
  }

  lemma ToldShape(b: Db, r: Db, outs: nat)
    requires Shape(b, outs, 0) && outs < 3 && b.clients[0].msgCount12 == outs && Valid(b.subs)
    requires Publishes.Routed(b, r, 0, "a", 2, false, false, Readers()) && r.cfg == b.cfg
    ensures Shape(r, outs + 1, 0)
  {
    hide SubOf, RetOf, Brought, Share, Valid, Lined, Publishes.Shared;
    var sid := b.lastDbId + 1;
    SharedIs(b, r, sid);
    OneShare(b.subs, b.clients[0], sid);
    OneMore(b.clients[0], r.clients[0], sid, outs);
    StillTopics(b, r, sid, 0, "a", false);
  }

  lemma StillTopics(b: Db, r: Db, sid: nat, mid: nat, topic: string, empty: bool)
    requires AllTopics(b.store) && Publishes.IsStored(b, r, sid, mid, Some(topic), 2, false, empty)
    ensures AllTopics(r.store)
  {
    forall x | x in r.store ensures r.store[x].topic.Some? {
      assert x in b.store ==> SameText(b.store[x], r.store[x]);
    }
  }

  lemma SharedIs(b: Db, r: Db, sid: nat)
    requires Publishes.Handed(b, r, sid, "a", 2, false, false, [], Readers()) && |b.clients| == 1
    ensures |r.clients| == 1 && SameClient(b.clients[0], r.clients[0])
    ensures Brought(b.clients[0], r.clients[0],
                    Share(b.cfg, b.subs, b.clients[0], false, "a", 2, false, sid, Readers()))
    ensures forall p, d :: SubOf(r.subs, p, d) == SubOf(b.subs, p, d)
  {
    hide Share, Brought;
    assert Publishes.Shared(b.cfg, b.subs, b.clients[0], r.clients[0], sid, "a", 2, false, [], Readers());
  }

  lemma OneShare(s: Subs, cl: Client, sid: nat)
    requires Valid(s) && OnlySub(s) && cl.id == "c" && cl.connected && cl.msgCount12 < 3
    ensures Share(Three(), s, cl, false, "a", 2, false, sid, Readers()) == [Entrance(sid, 2, false, PublishQos2)]
  {
    hide Valid, SubOf, Share, Matches;
    MissTokens();
    assert Matches(Tokens("a"), Tokens("a")) by { SameMatches(); }
    ShareOnce(Three(), s, cl, "a", 2, false, sid, Readers());
    assert Subscribed(s, "a", "c", 2);
    assert Wants(Three(), s, cl, "a", 2, 2);
    forall q | Wants(Three(), s, cl, "a", 2, q) ensures q == 2 {
    }
  }

  lemma SameMatches()
    ensures Matches(Tokens("a"), Tokens("a"))
  {
    MissTokens();
    assert ["", "a"][1..] == ["a"] && ["a"][1..] == [];
    assert Matches(["a"], ["a"]);
  }

  lemma OneMore(cl: Client, n: Client, sid: nat, outs: nat)
    requires Lined(cl.msgs, outs, 0) && Brought(cl, n, [Entrance(sid, 2, false, PublishQos2)])
    ensures Lined(n.msgs, outs + 1, 0)
  {
    var es := [Entrance(sid, 2, false, PublishQos2)];
    forall k | 0 <= k < outs + 1 ensures IsOut(n.msgs[k]) {
      if k < outs {
        assert n.msgs[k] == n.msgs[..|cl.msgs|][k] && IsOut(cl.msgs[k]);
      } else {
        assert IsEntrance(n.msgs[|cl.msgs| + 0], es[0]);
      }
    }
  }

  /** The client publishes, and the message has to wait. */
  lemma Asking(evs: seq<Event>, b: Db, ins: nat) returns (r: Db)
    requires After(Three(), evs, b) && Shape(b, 3, ins)
    ensures After(Three(), evs + [Asked(ins + 1)], r) && Shape(r, 3, ins + 1)
  {
    hide Inv, After, OnlySub, Lined, AllTopics, Publishes.Waits, Valid, Steps.Does, Allowed, Next;
    ShapeCounts(evs, b, 3, ins);
    AskedMay(b, ins + 1);
    r := GoesOn(evs, b, Asked(ins + 1));
    AskedDoes(b, r, ins + 1);
    AskedShape(b, r, ins);
  }

  lemma AskedMay(b: Db, mid: nat)
    requires Speaks(b, 0)
    ensures Allowed(b, Asked(mid))
  {
    MissTokens();
  }

  lemma AskedDoes(b: Db, r: Db, mid: nat)
    requires Inv(b) && Allowed(b, Asked(mid)) && Steps.Does(b, Asked(mid), r)
    ensures Publishes.Waits(b, r, 0, mid, "b", false, false, false)
  {
    hide Inv, Publishes.Waits;
  }

  lemma AskedShape(b: Db, r: Db, ins: nat)
    requires Shape(b, 3, ins) && b.clients[0].msgCount12 == 3 + ins && r.cfg == b.cfg
    requires Publishes.Waits(b, r, 0, ins + 1, "b", false, false, false)
    ensures Shape(r, 3, ins + 1)
  {
    hide SubOf, Lined, AllTopics, Publishes.NoHandshake;
    NotShaking(b.clients[0], ins);
    StillTopics(b, r, b.lastDbId + 1, ins + 1, "b", false);
    OneWaits(b.clients[0].msgs, r.clients[0].msgs, ins);
  }

  lemma OneWaits(ms: seq<Entry>, ns: seq<Entry>, ins: nat)
    requires Lined(ms, 3, ins) && |ns| == |ms| + 1 && ns[..|ms|] == ms && IsIn(ns[|ms|], ins + 1)
    ensures Lined(ns, 3, ins + 1)
  {
    forall k | 0 <= k < |ms| ensures ns[k] == ms[k] {
      assert ns[k] == ns[..|ms|][k];
    }
  }

  lemma NotShaking(cl: Client, ins: nat)
    requires Lined(cl.msgs, 3, ins)
    ensures Publishes.NoHandshake(cl, ins + 1)
  {
    var mid := ins + 1;
    forall k | 0 <= k < |cl.msgs| ensures !Publishes.Shaking(cl, mid, k) {
      assert k < 3 ==> IsOut(cl.msgs[k]);
      assert k >= 3 ==> IsIn(cl.msgs[k], k - 3 + 1);
    }
  }

  // ----- the run ----------------------------------------------------------------------------

  function QueueRun(): seq<Event> {
    [Event.Connect("c"), Event.Subscribe(0, "a", 2, Readers()), Told(), Told(), Told(), Asked(1), Asked(2)]
  }

  lemma QueueRunGoes() returns (b: Db)
    ensures After(Three(), QueueRun(), b) && Shape(b, 3, 2)
  {
    hide After, Shape, Told, Asked, Readers, Three, IsEmpty;
    var evs := QueueRun();
    b := Connects();
    assert [Event.Connect("c")] == evs[..1];
    b := Subscribing(evs[..1], b);
    assert evs[..1] + [Event.Subscribe(0, "a", 2, Readers())] == evs[..2];
    b := Telling(evs[..2], b, 0);
    assert evs[..2] + [Told()] == evs[..3];
    b := Telling(evs[..3], b, 1);
    assert evs[..3] + [Told()] == evs[..4];
    b := Telling(evs[..4], b, 2);
    assert evs[..4] + [Told()] == evs[..5];
    b := Asking(evs[..5], b, 0);
    assert evs[..5] + [Asked(1)] == evs[..6];
    b := Asking(evs[..6], b, 1);
    assert evs[..6] + [Asked(2)] == evs;
  }

  /** With a window of three, three messages to send and two handshakes that wait: the first pass,
      which counts the handshake it lets in twice, lets in one, and the second pass the other,
      although the connection took every packet of the first. */
  lemma SecondPassLetsIn() returns (b: Db, r: Db)
    ensures After(Three(), QueueRun(), b) && After(Three(), QueueRun() + [Event.Write(0, 9)], r)
    ensures |b.clients| == 1 && |b.clients[0].msgs| == 5
    ensures |r.clients| == 1 && InboundQos2(r.clients[0]) && WriteFrom(r, 0, 0, 0, 9) != r
  {
    hide Inv, Play, SubOf, WriteFrom, MeetsNoTopic, Lined;
    b := QueueRunGoes();
    ShapeCounts(QueueRun(), b, 3, 2);
    assert |b.clients[0].msgs| == 5 by { LinedLength(b.clients[0].msgs); }
    assert !SomeUnsendable(b.store, b.clients[0].msgs, 0);
    WriteMeetsNoTopic(b, 0, 0, 0, 9);
    r := GoesOn(QueueRun(), b, Event.Write(0, 9));
    Writes.WriteAgain(b, 0, 9, 9);
    Writes.WritePass(b, 0, 9);
    OneOverlooked(b.clients[0].msgs, r.clients[0].msgs);
  }

  lemma LinedLength(ms: seq<Entry>)
    requires Lined(ms, 3, 2)
    ensures |ms| == 5
  {
  }

  lemma OneOverlooked(ms: seq<Entry>, rs: seq<Entry>)
    requires Lined(ms, 3, 2) && Writes.LeftByPass(ms, 3, 0, 9, rs)
    ensures |rs| == 5 && Writes.Overlooked(rs, 3, 4)
  {
    assert IsOut(ms[0]) && IsOut(ms[1]) && IsOut(ms[2]) && IsIn(ms[3], 1) && IsIn(ms[4], 2);
    forall k | 0 <= k <= 5 ensures Writes.Gone(ms, 3, 0, 9, k) == 0 {
      forall x | 0 <= x < k ensures !Writes.Leaves(ms, 3, 0, 9, x) {
        assert x < 3 || x == 3 || x == 4;
      }
      Writes.NoneGone(ms, 3, 0, 9, k);
    }
    forall k | 0 <= k < 5 ensures rs[k] == Writes.AfterPass(ms, 3, 0, 9, k) {
      assert !Writes.Leaves(ms, 3, 0, 9, k);
      assert Writes.Lands(ms, 3, 0, 9, rs, k);
    }
    LooksAre(ms);
    AfterAre(ms);
    InboundIs(rs);
  }

  lemma InboundIs(rs: seq<Entry>)
    requires |rs| == 5 && rs[0].dir == Out && rs[1].dir == Out && rs[2].dir == Out && rs[3].dir == In
    ensures Writes.Inbound(rs, 4) == 1
  {
    assert Writes.Inbound(rs, 1) == 0;
    assert Writes.Inbound(rs, 2) == 0;
    assert Writes.Inbound(rs, 3) == 0;
  }

  lemma LooksAre(ms: seq<Entry>)
    requires |ms| == 5 && IsOut(ms[0]) && IsOut(ms[1]) && IsOut(ms[2]) && IsIn(ms[3], 1) && IsIn(ms[4], 2)
    ensures Writes.LetIn(ms, 3, 0, 3) && !Writes.LetIn(ms, 3, 0, 4)
  {
    assert Writes.Looks(ms, 3, 0, 1) == 0;
    assert Writes.Looks(ms, 3, 0, 2) == 0;
    assert Writes.Looks(ms, 3, 0, 3) == 0;
    assert Writes.Looks(ms, 3, 0, 4) == 2;
  }

  lemma AfterAre(ms: seq<Entry>)
    requires |ms| == 5 && IsOut(ms[0]) && IsOut(ms[1]) && IsOut(ms[2]) && IsIn(ms[3], 1) && IsIn(ms[4], 2)
    requires !Writes.LetIn(ms, 3, 0, 4)
    ensures forall k :: 0 <= k < 5 ==> Writes.AfterPass(ms, 3, 0, 9, k).dir == ms[k].dir
    ensures Writes.AfterPass(ms, 3, 0, 9, 4) == ms[4]
  {
  }
}

/** Runs of the broker that end where a guarantee ends: what the conditions of BrokerEdges
    exclude does happen. */
module BrokerWitness {
  import opened Options
  import opened Topics
  import opened Hierarchy
  import opened SubTree
  import opened Queues
  import opened Broker
  import opened BrokerLaws
  import opened BrokerOps
  import opened BrokerRuns
  import opened BrokerEdges
  import opened Rules

  function Anyone(): Acl {
    (client: string, topic: string) => Granted
  }

  /** A window of one message, and a queue without limit. */
  function Tight(): Config {
    Config(1, 0, false, false, false)
  }

  function NewClient(): Client {
    Client("c", true, [], None, 0, 0, 0)
  }

  ghost predicate Steps(b: Db, ev: Event, next: Db) {
    Inv(b) ==> Allowed(b, ev) && Next(b, ev) == next
  }

  /** The first `k` events of a run played, the next one. */
  lemma PlayOne(cfg: Config, evs: seq<Event>, k: nat, b: Db, next: Db)
    requires k < |evs| && After(cfg, evs[..k], b) && Steps(b, evs[k], next)
    ensures After(cfg, evs[..k + 1], next)
  {
    hide Allowed, Next, Inv;
    assert evs[..k + 1][..k] == evs[..k] && evs[..k + 1][k] == evs[k];
  }

  lemma PlayFirst(cfg: Config, evs: seq<Event>)
    requires evs != [] && evs[0] == Event.Connect("c")
    ensures After(cfg, evs[..1], Start(cfg).(clients := [NewClient()]))
  {
    hide Inv;
    assert After(cfg, evs[..0], Start(cfg));
    assert [] + [NewClient()] == [NewClient()];
    PlayOne(cfg, evs, 0, Start(cfg), Start(cfg).(clients := [NewClient()]));
  }

  // ----- a refused message in the window ----------------------------------------------

  /** The broker with one client, whose handshakes have ended up in `msgs`. */
  function Holding(msgs: seq<Entry>, store: map<nat, Stored>, last: nat): Db {
    Db(Tight(), [Client("c", true, msgs, LastUid(msgs), |msgs|, |msgs|, 0)], store, last, last, Boot())
  }

  function HeldEntry(k: nat, state: State): Entry {
    Entry(k, k + 1, k + 1, 2, false, In, state, false, [])
  }

  function RefusedMsg(k: nat): Stored {
    Stored(1, k + 1, None, 2, false, true, [], 1, 0, 0, 0, [])
  }

  function Refuse(mid: nat): Event {
    Event.PublishIn(0, mid, "a", 2, false, false, true, Anyone())
  }

  function FirstHeld(): Db {
    Holding([HeldEntry(0, WaitForPubrel)], map[1 := RefusedMsg(0)], 1)
  }

  function BothHeld(): Db {
    Holding([HeldEntry(0, WaitForPubrel), HeldEntry(1, Queued)], map[1 := RefusedMsg(0), 2 := RefusedMsg(1)], 2)
  }

  /** The second refusal has cost the client its connection. */
  function Cut(): Db {
    Closed(BothHeld(), 0)
  }

  /** After PUBREL the second entry stands first, but the loop has counted past the window. */
  function SecondHeld(): Db {
    Holding([HeldEntry(1, Queued)], map[1 := RefusedMsg(0).(refCount := 0, denied := 1), 2 := RefusedMsg(1)], 2)
  }

  lemma RefuseFirst()
    ensures HandlePublish(Holding([], map[], 0), 0, 1, "a", 2, false, false, true, Anyone()) == FirstHeld()
  {
    var b1 := StoreMessage(Holding([], map[], 0), 1, None, 2, false, true);
    assert Placed(b1.cfg, b1.clients[0], In, 2) == Place(WaitForPubrel, 0);
  }

  lemma RefuseSecond()
    ensures HandlePublish(FirstHeld(), 0, 2, "a", 2, false, false, true, Anyone()) == BothHeld()
  {
    var b := FirstHeld();
    var ms := b.clients[0].msgs;
    assert ms[1..] == [] && StoreFind(b.store, ms, 2).None?;
    var b1 := StoreMessage(b, 2, None, 2, false, true);
    assert Placed(b1.cfg, b1.clients[0], In, 2) == Place(Queued, 2);
    assert PlaceOf(ms, 0) == 0;
    assert ms[..1] + [HeldEntry(1, Queued)] == BothHeld().clients[0].msgs;
  }

  lemma ReleaseFirst()
    ensures HandlePubrel(BothHeld(), 0, 1, Anyone()) == SecondHeld()
  {
    hide ReleaseFrom, Released, StoreFind;
    var b := BothHeld();
    var ms := b.clients[0].msgs;
    assert Tally(ms, WithMid(1)) == 1 by {
      TallyAppend([ms[0]], [ms[1]], WithMid(1));
      TallyOne(ms[0], WithMid(1));
      TallyOne(ms[1], WithMid(1));
      assert [ms[0]] + [ms[1]] == ms;
    }
    ReleaseUnfolds(b, 0, 1, 0, 0, false, 1, Anyone());
    FirstReleased();
    ReleaseUnfolds(SecondHeld(), 0, 1, 0, 1, true, 0, Anyone());
  }

  lemma FirstReleased()
    ensures Released(BothHeld(), 0, 0, Anyone()) == SecondHeld()
  {
    var ms := BothHeld().clients[0].msgs;
    assert ms[..0] + ms[1..] == [ms[1]];
  }

  /** The reset at CONNECT finds the window closed: both entries stay as they are. */
  lemma ComesBack()
    ensures Broker.TakeOver(Cut(), 0, false) == BothHeld()
  {
    hide Broker.ReconnectReset;
    var b := BothHeld();
    assert PutClient(Cut(), 0, Cut().clients[0].(connected := true)) == b;
    ResetLeavesBoth();
  }

  lemma ResetLeavesBoth()
    ensures Broker.ReconnectReset(BothHeld(), 0) == BothHeld()
  {
    hide ReviveFrom, ResetFrom, ResetsFrom;
    var b := BothHeld();
    var cl := b.clients[0];
    TallyAppend([cl.msgs[0]], [cl.msgs[1]], Qos12());
    TallyOne(cl.msgs[0], Qos12());
    TallyOne(cl.msgs[1], Qos12());
    assert [cl.msgs[0]] + [cl.msgs[1]] == cl.msgs && cl.msgs[..0] == [];
    assert Recounting(cl, 0, cl.lastMsg) == cl.(msgCount := 0, msgCount12 := 0);
    ResetRecounts(b, 0, 0);
    InboundStays(b, 0, 0);
    FirstNotRevived(b);
  }

  lemma {:induction false} InboundStays(b: Db, c: nat, i: nat)
    requires c < |b.clients| && forall e :: e in b.clients[c].msgs ==> e.dir == In
    ensures ResetsFrom(b, c, i) == b
    decreases |b.clients[c].msgs| - i
  {
    var ms := b.clients[c].msgs;
    if i < |ms| {
      assert ms[i] in ms && ms[i := ms[i]] == ms;
      assert Edit(b, c, i, ResetEntry(ms[i])) == b;
      InboundStays(b, c, i + 1);
    }
  }

  lemma FirstNotRevived(b: Db)
    requires |b.clients| == 1 && b.cfg == Tight() && b.clients[0].msgs != [] && b.clients[0].msgs[0].state != Queued
    ensures ReviveFrom(b, 0, 0) == b
  {
    assert ReviveFrom(b, 0, 1) == b;
  }

  function NoTopicRun(): seq<Event> {
    [Event.Connect("c"), Refuse(1), Refuse(2), Event.TakeOver(0, false), Event.Pubrel(0, 1, Anyone()),
     Event.TakeOver(0, false)]
  }

  /** Two QoS 2 messages are refused, of which the second has to wait and costs the client
      its connection. The client connects again, releases the first, and connects once more:
      the second is now to be sent back to it, under no topic. */
  lemma NoTopicIsMet()
    ensures var o := Play(Tight(), NoTopicRun());
      o.Some? && |o.value.clients| == 1 && InboundQos2(o.value.clients[0]) && MeetsNoTopic(o.value, 0, 0, 0, 1)
  {
    hide Play, Broker.TakeOver, MeetsNoTopic, SecondHeld;
    NoTopicRunGoes();
    SecondIsMet();
  }

  lemma SecondIsMet()
    ensures var r := Broker.TakeOver(SecondHeld(), 0, false);
      |r.clients| == 1 && InboundQos2(r.clients[0]) && MeetsNoTopic(r, 0, 0, 0, 1)
  {
    hide Broker.ReconnectReset, MeetsNoTopic;
    var b := SecondHeld();
    var ms := b.clients[0].msgs;
    assert PutClient(b, 0, b.clients[0].(connected := true)) == b;
    TallyOne(ms[0], Qos12());
    ReconnectMeetsNoTopic(b, 0, 1);
    assert Unsendable(b.store, ReconnectEntry(ms[0], 0, 1));
  }

  /** The first refusal finds room, the second does not. */
  lemma RefusalCodes()
    ensures !RefusalFails(Holding([], map[], 0), 0, 1, 2) && RefusalFails(FirstHeld(), 0, 2, 2)
  {
    var ms := FirstHeld().clients[0].msgs;
    assert ms[1..] == [] && StoreFind(FirstHeld().store, ms, 2).None?;
  }

  lemma NoTopicSteps()
    ensures Steps(Holding([], map[], 0), Refuse(1), FirstHeld()) && Steps(FirstHeld(), Refuse(2), Cut())
    ensures Steps(Cut(), Event.TakeOver(0, false), BothHeld())
    ensures Steps(BothHeld(), Event.Pubrel(0, 1, Anyone()), SecondHeld())
    ensures Steps(SecondHeld(), Event.TakeOver(0, false), Broker.TakeOver(SecondHeld(), 0, false))
  {
    hide HandlePublish, HandlePubrel, Broker.TakeOver, RefusedMsg, HeldEntry, PlainLevels, Inv, StoreFind;
    MissTokens();
    RefuseFirst();
    RefuseSecond();
    RefusalCodes();
    ComesBack();
    ReleaseFirst();
  }

  lemma NoTopicRunGoes()
    ensures After(Tight(), NoTopicRun(), Broker.TakeOver(SecondHeld(), 0, false))
  {
    hide Steps, After, FirstHeld, Broker.TakeOver, Tight, Start;
    var evs := NoTopicRun();
    PlayFirst(Tight(), evs);
    StartHolds();
    NoTopicSteps();
    PlayOne(Tight(), evs, 1, Holding([], map[], 0), FirstHeld());
    PlayOne(Tight(), evs, 2, FirstHeld(), Cut());
    PlayOne(Tight(), evs, 3, Cut(), BothHeld());
    PlayOne(Tight(), evs, 4, BothHeld(), SecondHeld());
    PlayOne(Tight(), evs, 5, SecondHeld(), Broker.TakeOver(SecondHeld(), 0, false));
    assert evs[..6] == evs;
  }

  lemma StartHolds()
    ensures Start(Tight()).(clients := [NewClient()]) == Holding([], map[], 0)
  {
  }

  // ----- PUBREC before PUBLISH --------------------------------------------------------

  function OneSub(): Subs {
    SubAdd(Boot(), "a", Leaf("c", 2))
  }

  lemma OneSubIs()
    ensures OneSub().root.children ==
      [Hier("", [], None, [Hier("", [], None, [Hier("a", [Leaf("c", 2)], None, [])])]), Fresh("$SYS")]
  {
    MissTokens();
    var toks, l := ["", "a"], Leaf("c", 2);
    var a, mid := Hier("a", [l], None, []), Hier("", [], None, [Hier("a", [l], None, [])]);
    assert toks[1..] == ["a"] && ["a"][1..] == [];
    assert Add(Fresh("a"), [], Some(l)) == a;
    assert Add(Fresh(""), ["a"], Some(l)) == mid;
    assert Add(Fresh(""), toks, Some(l)) == Hier("", [], None, [mid]);
    var tops := Boot().root.children;
    assert Find(tops, "") == 0;
    assert tops[0 := Add(tops[0], toks, Some(l))] == [Hier("", [], None, [mid]), Fresh("$SYS")];
  }

  lemma OneStop()
    ensures |Route(OneSub(), "a")| == 1 && Route(OneSub(), "a")[0].item.leaves == [Leaf("c", 2)]
    ensures RetainQueue(OneSub(), "a") == []
  {
    hide Visits, Recall;
    OneSubIs();
    MissTokens();
    OneVisit();
    assert Find(OneSub().root.children, "") == 0;
  }

  lemma OneVisit()
    ensures var stop, kids := Stop([Leaf("c", 2)], true), [Hier("", [], None, [Hier("a", [Leaf("c", 2)], None, [])])];
      Visits(kids, ["", "a"], true) == [At(["", "a"], stop)] && Recall(kids, ["", "a"], 0) == []
  {
    var toks, stop := ["", "a"], Stop([Leaf("c", 2)], true);
    var mid := Hier("", [], None, [Hier("a", [Leaf("c", 2)], None, [])]);
    assert toks[1..] == ["a"] && mid.children[1..] == [] && [mid][1..] == [];
    assert Visit(mid.children[0], ["a"], true) == [At(["a"], stop)];
    assert Visits(mid.children, ["a"], true) == [At(["a"], stop)];
    assert [""] + ["a"] == toks;
    assert Prefix("", [At(["a"], stop)]) == [At(toks, stop)];
    assert Visit(mid, toks, true) == [At(toks, stop)];
    assert Recall(mid.children, ["a"], 1) == [];
  }

  /** The broker with one subscriber to "a", which has been sent `n` messages. */
  function Sending(msgs: seq<Entry>, n: nat): Db {
    Db(Tight(), [Client("c", true, msgs, LastUid(msgs), |msgs|, |msgs|, n)], SentMsgs(n), n, n, OneSub())
  }

  function SentMsg(): Stored {
    Stored(1, 0, Some("a"), 2, false, false, ["c"], 0, 1, 0, 0, ["c"])
  }

  function SentMsgs(n: nat): map<nat, Stored> {
    if n == 0 then map[] else SentMsgs(n - 1)[n := SentMsg()]
  }

  function SentEntry(k: nat, state: State): Entry {
    Entry(k, k + 1, k + 1, 2, false, Out, state, false, [])
  }

  lemma SubscribeOne(b: Db)
    requires b == Start(Tight()).(clients := [NewClient()])
    ensures HandleSubscribe(b, 0, "a", 2, Anyone()) == Sending([], 0)
  {
    OneStop();
  }

  lemma SendOne(b: Db, l: Leaf, sid: nat)
    requires sid in b.store && |b.clients| == 1 && b.clients[0].id == l.client
    ensures SendToLeaves(b, [l], "a", 2, sid, Anyone()) ==
      Send(b, 0, if b.cfg.upgradeQos then l.qos else Min(2, l.qos), false, sid)
  {
    hide Send;
    assert [l][1..] == [] && FindClient(b.clients, l.client) == 0;
  }

  lemma AnnounceIsSend(b: Db)
    requires b.subs == OneSub() && b.cfg == Tight() && |b.clients| == 1 && b.clients[0].id == "c"
    ensures var b1 := StoreMessage(b, 0, Some("a"), 2, false, false);
      EasyQueue(b, "a", 2, false, false, Anyone()) == CountRouted(Send(b1, 0, 2, false, b1.lastDbId), b1.lastDbId)
  {
    hide Send, Route, SendToLeaves, OneSub;
    OneStop();
    var b1 := StoreMessage(b, 0, Some("a"), 2, false, false);
    SendOne(b1, Leaf("c", 2), b1.lastDbId);
    assert Route(OneSub(), "a")[1..] == [];
  }

  /** The queue after a message came, as the first or as the second. */
  lemma SendQueues(b: Db, ms: seq<Entry>)
    requires |ms| <= 1 && (ms != [] ==> ms[0].uid == 0) && b.cfg == Tight() && |ms| + 1 in b.store
    requires b.clients == Sending(ms, |ms|).clients && b.nextUid == |ms| && b.store[|ms| + 1].destIds == []
    ensures var n, e := |ms|, SentEntry(|ms|, if ms == [] then PublishQos2 else Queued);
      var cl := Sending(ms, n).clients[0].(lastMid := n + 1);
      Send(b, 0, 2, false, n + 1) == Link(PutClient(b, 0, cl), 0, n + 1, e)
      && AppendMsg(cl, e) == Sending(ms + [e], n + 1).clients[0]
  {
    hide OneSub, SentMsgs, Link;
    var n := |ms|;
    var e := SentEntry(n, if n == 0 then PublishQos2 else Queued);
    var cl := b.clients[0].(lastMid := n + 1);
    assert NextMid(n) == n + 1;
    assert Placed(b.cfg, cl, Out, 2).state == e.state;
    if n == 1 {
      assert PlaceOf(ms, 0) == 0 && ms[..1] == ms;
    } else {
      assert ms == [] && [] + [e] == [e];
    }
  }

  /** The first message finds room, the second has to wait. */
  lemma AnnounceOne(ms: seq<Entry>)
    requires |ms| <= 1 && (ms != [] ==> ms[0].uid == 0)
    ensures EasyQueue(Sending(ms, |ms|), "a", 2, false, false, Anyone()) ==
      Sending(ms + [SentEntry(|ms|, if ms == [] then PublishQos2 else Queued)], |ms| + 1)
  {
    hide EasyQueue, OneSub, Send, AppendMsg, SentMsgs;
    var n, b := |ms|, Sending(ms, |ms|);
    AnnounceIsSend(b);
    SendQueues(StoreMessage(b, 0, Some("a"), 2, false, false), ms);
    assert [] + ["c"] == ["c"];
    OneMoreSent(n);
    var e := SentEntry(n, if n == 0 then PublishQos2 else Queued);
    var r := CountRouted(Send(StoreMessage(b, 0, Some("a"), 2, false, false), 0, 2, false, n + 1), n + 1);
    assert r.store[n + 1] == SentMsg();
    assert r.store == Sending(ms + [e], n + 1).store;
  }

  lemma OneMoreSent(n: nat)
    ensures SentMsgs(n + 1) == SentMsgs(n)[n + 1 := SentMsg()]
  {
  }

  function PubrecRun(): seq<Event> {
    [Event.Connect("c"), Event.Subscribe(0, "a", 2, Anyone()), Event.Announce("a", 2, false, false, Anyone()),
     Event.Announce("a", 2, false, false, Anyone()), Event.Write(0, 1)]
  }

  function WaitsForPubrec(): Entry {
    SentEntry(0, WaitForPubrec).(dup := true, history := [Publish(false)])
  }

  lemma WriteOne()
    ensures var b := Sending([SentEntry(0, PublishQos2), SentEntry(1, Queued)], 2);
      && InboundQos2(b.clients[0]) && !MeetsNoTopic(b, 0, 0, 0, 1)
      && WriteFrom(b, 0, 0, 0, 1) == Sending([WaitsForPubrec(), SentEntry(1, Queued)], 2)
  {
    hide SentMsgs, OneSub;
    var sent, held := SentEntry(0, PublishQos2), SentEntry(1, Queued);
    var b, d := Sending([sent, held], 2), Sending([WaitsForPubrec(), held], 2);
    SentHasTopic();
    assert [] + [Publish(false)] == [Publish(false)];
    assert Written(sent) == WaitsForPubrec();
    assert [sent, held][0 := Written(sent)] == [WaitsForPubrec(), held];
    assert Edit(b, 0, 0, Written(sent)) == d;
    HeldStays(d, 1);
  }

  lemma SentHasTopic()
    ensures 1 in SentMsgs(2) && SentMsgs(2)[1].topic.Some?
  {
    assert SentMsgs(2) == SentMsgs(1)[2 := SentMsg()] && SentMsgs(1) == SentMsgs(0)[1 := SentMsg()];
  }

  /** A queued outbound entry at the end stays where it is. */
  lemma HeldStays(d: Db, i: nat)
    requires |d.clients| == 1 && i + 1 == |d.clients[0].msgs| && InboundQos2(d.clients[0])
    requires d.clients[0].msgs[i].state == Queued && d.clients[0].msgs[i].dir == Out
    ensures WriteFrom(d, 0, i, 0, 0) == d && !MeetsNoTopic(d, 0, i, 0, 0)
  {
    assert WriteFrom(d, 0, i + 1, 0, 0) == d && !MeetsNoTopic(d, 0, i + 1, 0, 0);
  }

  lemma SubscribeSteps()
    ensures Steps(Start(Tight()).(clients := [NewClient()]), Event.Subscribe(0, "a", 2, Anyone()), Sending([], 0))
  {
    hide HandleSubscribe, FilterLevels, PlainLevels, OneSub, Inv;
    MissTokens();
    PlainIsFilter(Split("a"));
    SubscribeOne(Start(Tight()).(clients := [NewClient()]));
  }

  lemma AnnounceSteps(ms: seq<Entry>)
    requires |ms| <= 1 && (ms != [] ==> ms[0].uid == 0)
    ensures Steps(Sending(ms, |ms|), Event.Announce("a", 2, false, false, Anyone()),
                  Sending(ms + [SentEntry(|ms|, if ms == [] then PublishQos2 else Queued)], |ms| + 1))
  {
    hide EasyQueue, PlainLevels, OneSub, SentEntry, SentMsgs, Sending, Inv;
    MissTokens();
    AnnounceOne(ms);
  }

  lemma WriteSteps()
    ensures Steps(Sending([SentEntry(0, PublishQos2), SentEntry(1, Queued)], 2), Event.Write(0, 1),
                  Sending([WaitsForPubrec(), SentEntry(1, Queued)], 2))
  {
    hide WriteFrom, MeetsNoTopic, OneSub, SentMsgs, Inv, SentEntry, WaitsForPubrec;
    WriteOne();
  }

  lemma PubrecRunGoes()
    ensures After(Tight(), PubrecRun(), Sending([WaitsForPubrec(), SentEntry(1, Queued)], 2))
  {
    FirstUid();
    hide Steps, After, Sending, SentEntry, WaitsForPubrec, Tight, Start, Anyone;
    var evs := PubrecRun();
    var e1, e2 := SentEntry(0, PublishQos2), SentEntry(1, Queued);
    assert [] + [e1] == [e1] && [e1] + [e2] == [e1, e2];
    PlayFirst(Tight(), evs);
    SubscribeSteps();
    AnnounceSteps([]);
    AnnounceSteps([e1]);
    WriteSteps();
    PlayOne(Tight(), evs, 1, Start(Tight()).(clients := [NewClient()]), Sending([], 0));
    PlayOne(Tight(), evs, 2, Sending([], 0), Sending([e1], 1));
    PlayOne(Tight(), evs, 3, Sending([e1], 1), Sending([e1, e2], 2));
    PlayOne(Tight(), evs, 4, Sending([e1, e2], 2), Sending([WaitsForPubrec(), e2], 2));
    assert evs[..5] == evs;
  }

  lemma FirstUid()
    ensures SentEntry(0, PublishQos2).uid == 0
  {
  }

  /** One message waits for PUBREC, the next is queued; if the client now acknowledges the
      second, which it was not sent, two are in flight. */
  lemma PubrecCanBreakBound()
    ensures var o := Play(Tight(), PubrecRun());
      && o.Some? && |o.value.clients| == 1 && !WasPublished(o.value, 0, 2)
      && Tally(o.value.clients[0].msgs, InFlight()) == Tight().maxInflight
      && Tally(HandlePubrec(o.value, 0, 2).clients[0].msgs, InFlight()) == Tight().maxInflight + 1
  {
    hide Play, HandlePubrec, Sending, WaitsForPubrec, SentEntry;
    PubrecRunGoes();
    TwoInFlight();
  }

  lemma TwoInFlight()
    ensures var b := Sending([WaitsForPubrec(), SentEntry(1, Queued)], 2);
      && |b.clients| == 1 && !WasPublished(b, 0, 2) && Tally(b.clients[0].msgs, InFlight()) == 1
      && Tally(HandlePubrec(b, 0, 2).clients[0].msgs, InFlight()) == 2
  {
    hide HandlePubrec, SentMsgs, OneSub;
    var sent, held := WaitsForPubrec(), SentEntry(1, Queued);
    var b := Sending([sent, held], 2);
    var ms := b.clients[0].msgs;
    TallyAppend([sent], [held], InFlight());
    TallyOne(sent, InFlight());
    TallyOne(held, InFlight());
    assert [sent] + [held] == ms;
    assert FindOutFrom(ms, 2, 0) == 1;
    PubrecInFlight(b, 0, 2);
  }

  // ----- a packet id used twice -------------------------------------------------------

  function ReuseRun(): seq<Event> {
    [Event.Connect("c"), Event.PublishIn(0, 1, "a", 2, false, false, false, Anyone())]
  }

  /** A QoS 2 handshake is open, and the client sends a QoS 1 PUBLISH under its packet id:
      the broker hands over the message of the handshake before PUBREL comes. */
  lemma ReusedIdIsMet()
    ensures var o := Play(Tight(), ReuseRun());
      && o.Some? && |o.value.clients| == 1 && !FreshId(o.value, 0, 1, 1)
      && !AllOnceOk(HandlePublish(o.value, 0, 1, "a", 1, false, false, false, Anyone()))
  {
    hide Play, AllOnceOk, HandlePublish, PlainLevels, Inv;
    ReuseRunGoes();
    MissTokens();
    ReusedIdRoutesAgain(OneAccepted(), 0, 1, "a", false, false, Anyone());
  }

  lemma ReuseRunGoes()
    ensures After(Tight(), ReuseRun(), OneAccepted()) && Inv(OneAccepted()) && !FreshId(OneAccepted(), 0, 1, 1)
  {
    hide Play, HandlePublish, PlainLevels, Inv, Start;
    var evs := ReuseRun();
    MissTokens();
    StartHolds();
    PlayFirst(Tight(), evs);
    AcceptOne();
    OpenHandshake();
    PlayOne(Tight(), evs, 1, Holding([], map[], 0), OneAccepted());
    assert evs[..2] == evs;
  }

  lemma OpenHandshake()
    ensures FreshId(Holding([], map[], 0), 0, 1, 2) && !FreshId(OneAccepted(), 0, 1, 1)
  {
    var b := OneAccepted();
    assert StoreFind(b.store, b.clients[0].msgs, 1) == Some(1);
  }

  function OneAccepted(): Db {
    Holding([HeldEntry(0, WaitForPubrel)], map[1 := Stored(1, 1, Some("a"), 2, false, false, [], 1, 0, 0, 0, [])], 1)
  }

  lemma AcceptOne()
    ensures HandlePublish(Holding([], map[], 0), 0, 1, "a", 2, false, false, false, Anyone()) == OneAccepted()
  {
    var b1 := StoreMessage(Holding([], map[], 0), 1, Some("a"), 2, false, false);
    assert Placed(b1.cfg, b1.clients[0], In, 2) == Place(WaitForPubrel, 0);
  }
}

/** The entry points of subs.c on the root of the tree, and their refinement of a flat
    table: a map from (filter, client) to QoS and a map from topic to retained message.
    Below the root stand the tops; a top is chosen by the first token, and that token is
    walked again below it. */
module SubTree {
  import opened Options
  import opened Topics
  import opened Hierarchy
  import opened HierarchyLaws
  import opened HierarchySearch

  /** `db->subs` with the two counters kept beside it. */
  datatype Subs = Subs(root: Hier, subscriptionCount: int, retainedCount: int)

  /** `mqtt3_db_open`: two tops, for ordinary topics and for "$SYS". */
  function Boot(): Subs {
    Subs(Hier("", [], None, [Fresh(""), Fresh("$SYS")]), 0, 0)
  }

  function Climb(toks: Levels): Levels
    requires toks != []
  {
    [toks[0]] + toks
  }

  function NodeOf(s: Subs, p: Levels): Option<Hier> {
    if p == [] then None else NodeAt(s.root, Climb(p))
  }

  function SubOf(s: Subs, p: Levels, c: string): Option<nat> {
    SubsOf(NodeOf(s, p), c)
  }

  function RetOf(s: Subs, p: Levels): Option<nat> {
    RetainedOf(NodeOf(s, p))
  }

  ghost predicate IsTop(k: Hier) {
    && k.subs == [] && k.retained.None? && k.topic != "+" && k.topic != "#"
    && forall x :: x in k.children ==> x.topic == k.topic
  }

  ghost predicate Valid(s: Subs) {
    && WF(s.root) && s.root.topic == "" && s.root.subs == [] && s.root.retained.None?
    && (forall k :: k in s.root.children ==> IsTop(k))
    && s.subscriptionCount == LeafCount(s.root)
    && s.retainedCount == RetCount(s.root, None)
  }

  // ----- operations -----------------------------------------------------------

  /** `mqtt3_sub_add`: a new top is linked in front of the others. */
  function SubAdd(s: Subs, filter: string, l: Leaf): Subs {
    var toks := Tokens(filter);
    var tops := s.root.children;
    var i := Find(tops, toks[0]);
    var isNew := SubOf(s, toks, l.client).None?;
    Subs(s.root.(children :=
                   if i < |tops| then tops[i := Add(tops[i], toks, Some(l))]
                   else [Add(Fresh(toks[0]), toks, Some(l))] + tops),
         s.subscriptionCount + (if isNew then 1 else 0), s.retainedCount)
  }

  /** `mqtt3_sub_remove` */
  function SubRemove(s: Subs, filter: string, c: string): Subs {
    var toks := Tokens(filter);
    var tops := s.root.children;
    var i := Find(tops, toks[0]);
    if i == |tops| then s
    else Subs(s.root.(children := tops[i := Remove(tops[i], toks, c)]),
              s.subscriptionCount - (if SubOf(s, toks, c).Some? then 1 else 0), s.retainedCount)
  }

  function CleanTops(ks: seq<Hier>, c: string): seq<Hier> {
    if ks == [] then [] else [Clean(ks[0], c)] + CleanTops(ks[1..], c)
  }

  /** `mqtt3_subs_clean_session`: the tops themselves are never unlinked. */
  function CleanSession(s: Subs, c: string): Subs {
    var r := s.root.(children := CleanTops(s.root.children, c));
    Subs(r, s.subscriptionCount - (LeafCount(s.root) - LeafCount(r)), s.retainedCount)
  }

  /** The top after a retained publish below it. */
  function RetainTop(top: Hier, toks: Levels, m: Option<nat>): Hier {
    var a := Add(top, toks, None);
    a.(children := Retains(a.children, toks, true, m))
  }

  /** The tree part of `mqtt3_db_messages_queue` for a retained message: make the path,
      then store `m` (`None` for an empty payload). Without a top nothing is kept. */
  function RetainPublish(s: Subs, topic: string, m: Option<nat>): Subs {
    var toks := Tokens(topic);
    var tops := s.root.children;
    var i := Find(tops, toks[0]);
    if i == |tops| then s
    else
      Subs(s.root.(children := tops[i := RetainTop(tops[i], toks, m)]),
           s.subscriptionCount,
           s.retainedCount - Keeps(RetOf(s, toks), None) + Keeps(m, None))
  }

  /** With the retain flag the path of the topic is made first. */
  function MakePath(s: Subs, topic: string): Subs {
    var toks := Tokens(topic);
    var tops := s.root.children;
    var i := Find(tops, toks[0]);
    if i == |tops| then s else s.(root := s.root.(children := tops[i := Add(tops[i], toks, None)]))
  }

  /** The nodes whose subscribers get a message published to `topic`. */
  function Route(s: Subs, topic: string): seq<At<Stop>> {
    var toks := Tokens(topic);
    var tops := s.root.children;
    var i := Find(tops, toks[0]);
    if i == |tops| then [] else Visits(tops[i].children, toks, true)
  }

  /** `mqtt3_retain_queue` */
  function RetainQueue(s: Subs, filter: string): seq<At<nat>> {
    var toks := Tokens(filter);
    var tops := s.root.children;
    var i := Find(tops, toks[0]);
    if i == |tops| then [] else Recall(tops[i].children, toks, 0)
  }

  // ----- the tops -------------------------------------------------------------

  lemma NodeOfTop(s: Subs, p: Levels)
    requires p != []
    ensures var i := Find(s.root.children, p[0]);
      NodeOf(s, p) == if i < |s.root.children| then KidAt(s.root.children[i].children, p) else None
  {
    assert Climb(p)[1..] == p;
    var i := Find(s.root.children, p[0]);
    if i < |s.root.children| {
      NodeBelow(s.root.children[i], p);
    }
  }

  lemma TokensLevels(s: string)
    ensures FilterLevels(Split(s)) ==> FilterLevels(Tokens(s))
    ensures PlainLevels(Split(s)) ==> PlainLevels(Tokens(s))
    ensures InDollarTree(s) ==> Tokens(s)[0] != "" && Tokens(s)[0][0] == '$'
  {
    var toks := Tokens(s);
    if !InDollarTree(s) {
      assert toks[1..] == Split(s);
      assert Plain(toks[0]);
      assert forall i :: 1 <= i < |toks| ==> toks[i] == Split(s)[i - 1];
    }
  }

  /** A top in place `i` replaced by `k`. */
  lemma SwapTop(s: Subs, i: nat, k: Hier, p: Levels)
    requires WF(s.root) && i < |s.root.children| && k.topic == s.root.children[i].topic
    ensures NodeOf(s.(root := s.root.(children := s.root.children[i := k])), p) ==
      if p != [] && p[0] == k.topic then KidAt(k.children, p) else NodeOf(s, p)
  {
    var tops := s.root.children;
    var s' := s.(root := s.root.(children := tops[i := k]));
    if p != [] {
      NodeOfTop(s, p);
      NodeOfTop(s', p);
      FindIs(tops, i);
      assert forall j :: 0 <= j < |tops| ==> tops[i := k][j].topic == tops[j].topic;
      assert Find(tops[i := k], p[0]) == Find(tops, p[0]);
    }
  }

  lemma NewTop(s: Subs, k: Hier, p: Levels)
    requires Find(s.root.children, k.topic) == |s.root.children|
    ensures NodeOf(s.(root := s.root.(children := [k] + s.root.children)), p) ==
      if p != [] && p[0] == k.topic then KidAt(k.children, p) else NodeOf(s, p)
  {
    var tops := s.root.children;
    var s' := s.(root := s.root.(children := [k] + tops));
    hide NodeAt, KidAt, FindFrom;
    if p != [] {
      NodeOfTop(s, p);
      NodeOfTop(s', p);
      FindCons(k, tops, p[0]);
    }
  }

  lemma OnlyOwnTopic(k: Hier, toks: Levels, who: Option<Leaf>)
    requires IsTop(k) && toks != [] && toks[0] == k.topic
    ensures IsTop(Add(k, toks, who))
  {
  }

  /** Replacing a top, with the counters moved by the difference, keeps the tree valid. */
  lemma SwapTopKeepsValid(s: Subs, i: nat, k: Hier)
    requires Valid(s) && i < |s.root.children| && WF(k) && IsTop(k) && k.topic == s.root.children[i].topic
    ensures Valid(Subs(s.root.(children := s.root.children[i := k]),
                       s.subscriptionCount + LeafCount(k) - LeafCount(s.root.children[i]),
                       s.retainedCount + RetCount(k, None) - RetCount(s.root.children[i], None)))
  {
    var tops := s.root.children;
    CountsUpdate(tops, i, k, None);
    SwapIsWF(tops, i, k);
    assert WF(s.root.(children := tops[i := k]));
  }

  lemma SwapIsWF(tops: seq<Hier>, i: nat, k: Hier)
    requires WFs(tops) && i < |tops| && WF(k) && k.topic == tops[i].topic
    ensures WFs(tops[i := k])
    ensures forall x :: x in tops[i := k] ==> x == k || x in tops
  {
    assert forall x :: x in tops[i := k] ==> x == k || x in tops;
    assert forall j :: 0 <= j < |tops| ==> tops[i := k][j].topic == tops[j].topic;
  }

  lemma NewTopKeepsValid(s: Subs, k: Hier)
    requires Valid(s) && WF(k) && IsTop(k) && Find(s.root.children, k.topic) == |s.root.children|
    ensures Valid(Subs(s.root.(children := [k] + s.root.children),
                       s.subscriptionCount + LeafCount(k), s.retainedCount + RetCount(k, None)))
  {
    hide LeafCounts, RetCounts, IsTop, RetainsNothing;
    var tops := s.root.children;
    CountsOne(k, None);
    CountsAppend([k], tops, None);
    assert forall x :: x in tops ==> x.topic != k.topic;
    InFrontIsWF(k, tops);
    var r := s.root.(children := [k] + tops);
    assert WF(r);
    assert LeafCount(r) == LeafCount(s.root) + LeafCount(k);
    assert RetCount(r, None) == RetCount(s.root, None) + RetCount(k, None);
  }

  lemma CountsOne(k: Hier, m: Option<nat>)
    ensures LeafCounts([k]) == LeafCount(k) && RetCounts([k], m) == RetCount(k, m)
  {
    assert [k][1..] == [];
  }

  // ----- each operation keeps the tree valid and edits one entry ------------------

  function TopFor(s: Subs, tok: string): Hier {
    var i := Find(s.root.children, tok);
    if i < |s.root.children| then s.root.children[i] else Fresh(tok)
  }

  /** What the tree holds at `p` is what its top holds there. */
  lemma TopHolds(s: Subs, p: Levels)
    requires p != []
    ensures SubsOf(NodeAt(TopFor(s, p[0]), p), "") == SubOf(s, p, "")
    ensures forall c :: SubAt(TopFor(s, p[0]), p, c) == SubOf(s, p, c)
    ensures RetAt(TopFor(s, p[0]), p) == RetOf(s, p)
  {
    NodeOfTop(s, p);
    NodeBelow(TopFor(s, p[0]), p);
    forall c ensures SubAt(TopFor(s, p[0]), p, c) == SubOf(s, p, c) {
      FreshHoldsNothing(p[0], p, c);
    }
    FreshHoldsNothing(p[0], p, "");
  }

  lemma TopIsTop(s: Subs, tok: string)
    requires Valid(s) && tok != "+" && tok != "#"
    ensures IsTop(TopFor(s, tok)) && WF(TopFor(s, tok)) && TopFor(s, tok).topic == tok
  {
  }

  lemma SubAddKeepsValid(s: Subs, filter: string, l: Leaf)
    requires Valid(s) && FilterLevels(Split(filter))
    ensures Valid(SubAdd(s, filter, l))
  {
    hide Add, FilterLevels, LeafCounts, RetCounts, WF, IsTop, NodeAt, SubOf;
    var toks := Tokens(filter);
    TokensLevels(filter);
    TokensNotWild(filter);
    TopIsTop(s, toks[0]);
    var top := TopFor(s, toks[0]);
    var k := Add(top, toks, Some(l));
    AddKeepsWF(top, toks, Some(l));
    AddCounts(top, toks, Some(l), None);
    OnlyOwnTopic(top, toks, Some(l));
    TopHolds(s, toks);
    assert SubAt(top, toks, l.client) == SubOf(s, toks, l.client);
    FreshCounts(toks[0]);
    if Find(s.root.children, toks[0]) < |s.root.children| {
      SwapTopKeepsValid(s, Find(s.root.children, toks[0]), k);
    } else {
      NewTopKeepsValid(s, k);
    }
  }

  lemma FreshCounts(tok: string)
    ensures LeafCount(Fresh(tok)) == 0 && forall m :: RetCount(Fresh(tok), m) == 0
  {
  }

  lemma SubAddEffect(s: Subs, filter: string, l: Leaf, p: Levels, c: string)
    requires Valid(s) && FilterLevels(Split(filter))
    ensures Valid(SubAdd(s, filter, l))
    ensures SubOf(SubAdd(s, filter, l), p, c) ==
      if p == Tokens(filter) && c == l.client then Some(l.qos) else SubOf(s, p, c)
    ensures RetOf(SubAdd(s, filter, l), p) == RetOf(s, p)
  {
    SubAddKeepsValid(s, filter, l);
    hide Valid, Add, WF, IsTop, FilterLevels, SubAdd;
    var toks := Tokens(filter);
    TokensLevels(filter);
    TokensNotWild(filter);
    TopIsTop(s, toks[0]);
    var top := TopFor(s, toks[0]);
    SubAddIsTop(s, filter, l, p);
    if p != [] && p[0] == toks[0] {
      TopHolds(s, p);
      AddLookup(top, toks, Some(l), p, c);
      NodeBelow(Add(top, toks, Some(l)), p);
    }
  }

  lemma SubAddIsTop(s: Subs, filter: string, l: Leaf, p: Levels)
    requires Valid(s)
    ensures var toks := Tokens(filter);
      NodeOf(SubAdd(s, filter, l), p) ==
      if p != [] && p[0] == toks[0] then KidAt(Add(TopFor(s, toks[0]), toks, Some(l)).children, p) else NodeOf(s, p)
  {
    var toks := Tokens(filter);
    var k := Add(TopFor(s, toks[0]), toks, Some(l));
    var i := Find(s.root.children, toks[0]);
    if i < |s.root.children| {
      SwapTop(s, i, k, p);
    } else {
      NewTop(s, k, p);
    }
  }

  /** After subscribing, the filter's own node is in the tree. */
  lemma SubAddReaches(s: Subs, filter: string, l: Leaf)
    requires Valid(s)
    ensures NodeOf(SubAdd(s, filter, l), Tokens(filter)).Some?
  {
    var toks := Tokens(filter);
    var top := TopFor(s, toks[0]);
    SubAddIsTop(s, filter, l, toks);
    AddReaches(top, toks, Some(l));
    NodeBelow(Add(top, toks, Some(l)), toks);
  }

  lemma TokensNotWild(filter: string)
    ensures Tokens(filter)[0] != "+" && Tokens(filter)[0] != "#"
  {
    TokensLevels(filter);
    if !InDollarTree(filter) {
      assert Tokens(filter)[0] == "";
    }
  }

  lemma {:induction false} AddReaches(h: Hier, toks: Levels, who: Option<Leaf>)
    ensures NodeAt(Add(h, toks, who), toks).Some?
    decreases |toks|
  {
    if toks != [] {
      var i := Find(h.children, toks[0]);
      var k := if i < |h.children| then h.children[i] else Fresh(toks[0]);
      AddReaches(k, toks[1..], who);
      PutChild(h, Add(k, toks[1..], who), toks);
    }
  }

  lemma SubRemoveEffect(s: Subs, filter: string, d: string, p: Levels, c: string)
    requires Valid(s)
    ensures Valid(SubRemove(s, filter, d))
    ensures SubOf(SubRemove(s, filter, d), p, c) == if p == Tokens(filter) && c == d then None else SubOf(s, p, c)
    ensures RetOf(SubRemove(s, filter, d), p) == RetOf(s, p)
  {
    var toks, tops := Tokens(filter), s.root.children;
    var i := Find(tops, toks[0]);
    TopHolds(s, toks);
    assert SubAt(TopFor(s, toks[0]), toks, d) == SubOf(s, toks, d);
    if i < |tops| {
      var k := Remove(tops[i], toks, d);
      RemoveKeepsWF(tops[i], toks, d);
      RemoveCounts(tops[i], toks, d, None);
      RemoveKeepsTop(tops[i], toks, d);
      SwapTopKeepsValid(s, i, k);
      SwapTop(s, i, k, p);
      if p != [] && p[0] == toks[0] {
        TopHolds(s, p);
        RemoveLookup(tops[i], toks, d, p, c);
        NodeBelow(k, p);
      }
    } else {
      FreshHoldsNothing(toks[0], toks, d);
    }
  }

  lemma RemoveKeepsTop(k: Hier, toks: Levels, d: string)
    requires IsTop(k) && toks != [] && DistinctTopics(k.children)
    ensures IsTop(Remove(k, toks, d))
  {
    var i := Find(k.children, toks[0]);
    if i < |k.children| {
      SwapChild(k, i, Remove(k.children[i], toks[1..], d), [], d);
    }
  }

  lemma {:induction false} CleanTopsFacts(ks: seq<Hier>, d: string)
    requires WFs(ks)
    ensures var r := CleanTops(ks, d);
      && |r| == |ks| && (forall i :: 0 <= i < |ks| ==> r[i] == Clean(ks[i], d))
      && WFs(r) && forall x :: RetCounts(r, x) == RetCounts(ks, x)
    decreases |ks|
  {
    if ks != [] {
      CleanTopsFacts(ks[1..], d);
      CleanKeepsWF(ks[0], d);
      forall x ensures RetCount(Clean(ks[0], d), x) == RetCount(ks[0], x) {
        CleanKeepsRetained(ks[0], d, x);
      }
      var r := CleanTops(ks, d);
      assert r[1..] == CleanTops(ks[1..], d);
      assert forall i :: 1 <= i < |ks| ==> r[i] == r[1..][i - 1] && ks[i] == ks[1..][i - 1];
    }
  }

  lemma CleanKidsTopic(ks: seq<Hier>, d: string, t: string)
    requires forall x :: x in ks ==> x.topic == t
    ensures forall x :: x in CleanKids(ks, d) ==> x.topic == t
  {
    if ks != [] {
      CleanKidsTopic(ks[1..], d, t);
    }
  }

  /** Cleaning takes away every subscription of one client and nothing else, and leaves
      no node below the tops from which nothing stored can be reached. */
  lemma CleanSessionEffect(s: Subs, d: string, p: Levels, c: string)
    requires Valid(s)
    ensures Valid(CleanSession(s, d))
    ensures SubOf(CleanSession(s, d), p, c) == if c == d then None else SubOf(s, p, c)
    ensures RetOf(CleanSession(s, d), p) == RetOf(s, p)
    ensures forall k :: k in CleanSession(s, d).root.children ==> Pruned(k)
  {
    var tops := s.root.children;
    var s' := CleanSession(s, d);
    CleanTopsFacts(tops, d);
    forall k | k in s'.root.children
      ensures Pruned(k) && IsTop(k)
    {
      var i :| 0 <= i < |tops| && k == Clean(tops[i], d);
      CleanPrunes(tops[i], d);
      assert IsTop(tops[i]);
      CleanKidsTopic(tops[i].children, d, k.topic);
    }
    if p != [] {
      NodeOfTop(s, p);
      NodeOfTop(s', p);
      var i := Find(tops, p[0]);
      assert Find(s'.root.children, p[0]) == i;
      if i < |tops| {
        CleanLookup(tops[i], d, p, c);
        NodeBelow(tops[i], p);
        NodeBelow(Clean(tops[i], d), p);
      }
    }
  }

  predicate HasTop(s: Subs, tok: string) {
    Find(s.root.children, tok) < |s.root.children|
  }

  lemma RetainTopEffect(top: Hier, toks: Levels, m: Option<nat>, p: Levels, c: string)
    requires WF(top) && PlainLevels(toks) && toks != [] && p != []
    ensures SubAt(RetainTop(top, toks, m), p, c) == SubAt(top, p, c)
    ensures RetAt(RetainTop(top, toks, m), p) == if p == toks then m else RetAt(top, p)
  {
    var a := Add(top, toks, None);
    PlainIsFilter(toks);
    AddKeepsWFPlain(top, toks);
    AddReaches(top, toks, None);
    AddLookup(top, toks, None, p, c);
    RetainsLookup(a.children, toks, m, p, c);
    NodeBelow(a, toks);
    NodeBelow(a, p);
    NodeBelow(RetainTop(top, toks, m), p);
  }

  lemma AddKeepsWFPlain(top: Hier, toks: Levels)
    requires WF(top) && PlainLevels(toks) && toks != []
    ensures WFs(Add(top, toks, None).children)
  {
    PlainIsFilter(toks);
    if top.topic != "#" {
      AddKeepsWF(top, toks, None);
    } else {
      assert Find(top.children, toks[0]) == 0;
      AddKeepsWF(Fresh(toks[0]), toks[1..], None) by {
        PlainIsNotWild(toks[0]);
      }
    }
  }

  lemma RetainTopValid(top: Hier, toks: Levels, m: Option<nat>)
    requires WF(top) && IsTop(top) && PlainLevels(toks) && toks != [] && toks[0] == top.topic
    ensures WF(RetainTop(top, toks, m)) && IsTop(RetainTop(top, toks, m))
  {
    var a := Add(top, toks, None);
    PlainIsFilter(toks);
    AddKeepsWF(top, toks, None);
    OnlyOwnTopic(top, toks, None);
    RetainsKeepWF(a.children, toks, m);
    var r := Retains(a.children, toks, true, m);
    forall x | x in r ensures x.topic == top.topic {
      var j :| 0 <= j < |r| && r[j] == x;
      assert a.children[j] in a.children;
    }
  }

  lemma RetainTopCounts(top: Hier, toks: Levels, m: Option<nat>, x: Option<nat>)
    requires WF(top) && PlainLevels(toks) && toks != []
    ensures RetCount(RetainTop(top, toks, m), x) == RetCount(top, x) + Keeps(m, x) - Keeps(RetAt(top, toks), x)
    ensures LeafCount(RetainTop(top, toks, m)) == LeafCount(top)
  {
    var a := Add(top, toks, None);
    AddKeepsWFPlain(top, toks);
    AddReaches(top, toks, None);
    AddLookup(top, toks, None, toks, "");
    AddCounts(top, toks, None, x);
    RetainsCount(a.children, toks, m, x);
    NodeBelow(a, toks);
  }

  lemma RetainPublishEffect(s: Subs, topic: string, m: Option<nat>, p: Levels, c: string)
    requires Valid(s) && PlainLevels(Split(topic))
    ensures Valid(RetainPublish(s, topic, m))
    ensures SubOf(RetainPublish(s, topic, m), p, c) == SubOf(s, p, c)
    ensures RetOf(RetainPublish(s, topic, m), p) ==
      if p == Tokens(topic) && HasTop(s, Tokens(topic)[0]) then m else RetOf(s, p)
  {
    var toks, tops := Tokens(topic), s.root.children;
    TokensLevels(topic);
    var i := Find(tops, toks[0]);
    if i < |tops| {
      var k := RetainTop(tops[i], toks, m);
      RetainTopValid(tops[i], toks, m);
      RetainTopCounts(tops[i], toks, m, None);
      TopHolds(s, toks);
      SwapTopKeepsValid(s, i, k);
      SwapTop(s, i, k, p);
      if p != [] && p[0] == toks[0] {
        TopHolds(s, p);
        RetainTopEffect(tops[i], toks, m, p, c);
        NodeBelow(k, p);
      }
    }
  }

  /** The references the tree holds to message `x` move with that one node. */
  lemma RetainPublishCounts(s: Subs, topic: string, m: Option<nat>, x: Option<nat>)
    requires Valid(s) && PlainLevels(Split(topic))
    ensures RetCount(RetainPublish(s, topic, m).root, x) == RetCount(s.root, x) +
      (if HasTop(s, Tokens(topic)[0]) then Keeps(m, x) - Keeps(RetOf(s, Tokens(topic)), x) else 0)
  {
    var toks, tops := Tokens(topic), s.root.children;
    TokensLevels(topic);
    var i := Find(tops, toks[0]);
    if i < |tops| {
      RetainTopCounts(tops[i], toks, m, x);
      TopHolds(s, toks);
      CountsUpdate(tops, i, RetainTop(tops[i], toks, m), x);
    }
  }

  lemma PlainIsFilter(ls: Levels)
    requires PlainLevels(ls)
    ensures FilterLevels(ls)
  {
  }

  /** Subscribing, unsubscribing and cleaning leave the retained messages alone. */
  lemma SubsKeepRetained(s: Subs, filter: string, l: Leaf, x: Option<nat>)
    requires Valid(s)
    ensures RetCount(SubAdd(s, filter, l).root, x) == RetCount(s.root, x)
    ensures RetCount(SubRemove(s, filter, l.client).root, x) == RetCount(s.root, x)
    ensures RetCount(CleanSession(s, l.client).root, x) == RetCount(s.root, x)
  {
    hide Add, Remove, LeafCounts, NodeAt, RetCounts, FindFrom, IsTop;
    var toks, tops := Tokens(filter), s.root.children;
    var i := Find(tops, toks[0]);
    CleanTopsFacts(tops, l.client);
    if i < |tops| {
      AddCounts(tops[i], toks, Some(l), x);
      RemoveCounts(tops[i], toks, l.client, x);
      CountsUpdate(tops, i, Add(tops[i], toks, Some(l)), x);
      CountsUpdate(tops, i, Remove(tops[i], toks, l.client), x);
    } else {
      assert WF(Fresh(toks[0]));
      FreshCounts(toks[0]);
      AddCounts(Fresh(toks[0]), toks, Some(l), x);
      CountsOne(Add(Fresh(toks[0]), toks, Some(l)), x);
      CountsAppend([Add(Fresh(toks[0]), toks, Some(l))], tops, x);
    }
  }

  /** A message retained somewhere is counted. */
  lemma {:induction false} RetainedIsCounted(h: Hier, p: Levels, x: nat)
    requires RetAt(h, p) == Some(x)
    ensures RetCount(h, Some(x)) >= 1
    decreases |p|
  {
    if p != [] {
      var i := Find(h.children, p[0]);
      RetainedIsCounted(h.children[i], p[1..], x);
      CountsUpdate(h.children, i, h.children[i], Some(x));
      assert RetCounts(h.children[..i] + h.children[i + 1..], Some(x)) >= 0;
    }
  }

  // ----- routing and recall ---------------------------------------------------

  /** A publish serves the subscription of client `l.client` at filter path `p` exactly
      once if the filter matches the topic by the level rule, and otherwise never. */
  lemma RouteExact(s: Subs, topic: string, p: Levels, l: Leaf)
    requires Valid(s) && PlainLevels(Split(topic))
    ensures Total(Route(s, topic), p, Serves(l)) ==
      if Matches(p, Tokens(topic)) && SubOf(s, p, l.client) == Some(l.qos) then 1 else 0
  {
    var toks, tops := Tokens(topic), s.root.children;
    TokensLevels(topic);
    var i := Find(tops, toks[0]);
    if p != [] {
      NodeOfTop(s, p);
      if Find(tops, p[0]) < |tops| {
        assert IsTop(tops[Find(tops, p[0])]);
      }
    }
    if i < |tops| {
      assert WF(tops[i]) by { assert tops[i] in tops; }
      VisitsExact(tops[i].children, toks, true, p, l);
      assert IsTop(tops[i]);
      if p != [] && p[0] != toks[0] {
        FindNone(tops[i].children, p[0]);
      }
    }
  }

  ghost predicate SkippedBy(s: Subs, filter: string, p: Levels) {
    var i := Find(s.root.children, Tokens(filter)[0]);
    i < |s.root.children| && Skipped(s.root.children[i].children, Tokens(filter), p, 0)
  }

  /** A new subscription is sent the retained message `m` of topic path `p` exactly when
      the filter matches and the walk does not skip the node, and then once. */
  lemma RetainQueueExact(s: Subs, filter: string, p: Levels, m: nat)
    requires Valid(s) && FilterLevels(Split(filter))
    ensures Total(RetainQueue(s, filter), p, Is(m)) ==
      if Matches(Tokens(filter), p) && RetOf(s, p) == Some(m) && !SkippedBy(s, filter, p) then 1 else 0
  {
    var toks, tops := Tokens(filter), s.root.children;
    TokensLevels(filter);
    TokensNotWild(filter);
    var i := Find(tops, toks[0]);
    if p != [] {
      NodeOfTop(s, p);
    }
    if i < |tops| {
      assert WF(tops[i]) by { assert tops[i] in tops; }
      RecallExact(tops[i].children, toks, 0, p, m);
    }
  }

  /** Once the filter is in the tree, nothing is skipped for a filter that does not hold
      both wildcards. */
  lemma NothingSkipped(s: Subs, filter: string, p: Levels)
    requires Valid(s) && FilterLevels(Split(filter))
    requires NodeOf(s, Tokens(filter)).Some?
    requires !("+" in Tokens(filter) && "#" in Tokens(filter))
    ensures Matches(Tokens(filter), p) ==> !SkippedBy(s, filter, p)
  {
    hide Matches, KidAt, NodeAt, FindFrom, LastOfSiblings;
    var toks := Tokens(filter);
    TokensLevels(filter);
    if Matches(toks, p) && SkippedBy(s, filter, p) {
      HashMatchesPrefix(toks, p);
      NodeOfTop(s, toks);
      NodeOfTop(s, p);
      var i := Find(s.root.children, toks[0]);
      HasChild(s.root.children[i].children, p, "#");
    }
  }

  /** A filter that ends in '#' and has no '+' matches, of the paths one level shorter, only
      what stands before the '#'. */
  lemma HashMatchesPrefix(toks: Levels, p: Levels)
    requires FilterLevels(toks) && Matches(toks, p) && toks != [] && toks[|toks| - 1] == "#" && |p| == |toks| - 1
    requires !("+" in toks && "#" in toks)
    ensures toks == p + ["#"]
  {
    hide Matches;
    var n := |toks| - 1;
    forall j | 0 <= j < n ensures toks[j] != "#" {
      if toks[j] == "#" {
        PlainNotHash(toks[j]);
      }
    }
    MatchesIsByPosition(toks, p);
    assert toks[n] in toks;
    assert p == toks[..n];
  }

  lemma {:induction false} HasChild(ks: seq<Hier>, p: Levels, x: string)
    requires p != [] && KidAt(ks, p + [x]).Some?
    ensures KidAt(ks, p).Some? && KidAt(ks, p).value.children != []
    decreases |p|
  {
    var i := Find(ks, p[0]);
    assert (p + [x])[1..] == p[1..] + [x];
    if |p| > 1 {
      NodeBelow(ks[i], p[1..] + [x]);
      NodeBelow(ks[i], p[1..]);
      HasChild(ks[i].children, p[1..], x);
    } else {
      assert p[1..] == [] && p[1..] + [x] == [x];
      assert NodeAt(ks[i], [x]).Some?;
    }
  }

  // ----- refinement of the flat table -------------------------------------------

  /** The broker's subscriptions and retained messages without any tree. `tops` are the
      first tokens that can be routed at all. */
  datatype Flat = Flat(tops: set<string>, subs: map<(Levels, string), nat>, retained: map<Levels, nat>)

  datatype Op =
    | Subscribe(filter: string, client: string, qos: Qos)
    | Unsubscribe(filter: string, client: string)
    | Discard(client: string)
    | Retaining(topic: string, message: Option<nat>)

  /** The handlers let only checked filters and topics through. */
  ghost predicate Accepted(op: Op) {
    match op
    case Subscribe(f, _, _) => FilterLevels(Split(f))
    case Unsubscribe(f, _) => FilterLevels(Split(f))
    case Discard(_) => true
    case Retaining(t, _) => PlainLevels(Split(t))
  }

  function Apply(s: Subs, op: Op): Subs {
    match op
    case Subscribe(f, c, q) => SubAdd(s, f, Leaf(c, q))
    case Unsubscribe(f, c) => SubRemove(s, f, c)
    case Discard(c) => CleanSession(s, c)
    case Retaining(t, m) => RetainPublish(s, t, m)
  }

  function ApplyFlat(f: Flat, op: Op): Flat {
    match op
    case Subscribe(s, c, q) => Flat(f.tops + {Tokens(s)[0]}, f.subs[(Tokens(s), c) := q], f.retained)
    case Unsubscribe(s, c) => f.(subs := f.subs - {(Tokens(s), c)})
    case Discard(c) => f.(subs := map k | k in f.subs && k.1 != c :: f.subs[k])
    case Retaining(t, m) =>
      if Tokens(t)[0] !in f.tops then f
      else f.(retained := if m.Some? then f.retained[Tokens(t) := m.value] else f.retained - {Tokens(t)})
  }

  ghost predicate Agrees(s: Subs, f: Flat) {
    && (forall t :: HasTop(s, t) <==> t in f.tops)
    && (forall p, c :: SubOf(s, p, c) == if (p, c) in f.subs then Some(f.subs[(p, c)]) else None)
    && (forall p :: RetOf(s, p) == if p in f.retained then Some(f.retained[p]) else None)
  }

  lemma SameTops(s: Subs, op: Op, t: string)
    requires Valid(s)
    ensures HasTop(Apply(s, op), t) <==> HasTop(s, t) || (op.Subscribe? && t == Tokens(op.filter)[0])
  {
    var a, b := s.root.children, Apply(s, op).root.children;
    if op.Subscribe? {
      var k := Tokens(op.filter)[0];
      if Find(a, k) == |a| {
        AddFrontTop(a, b[0], t);
      } else {
        TopsKept(a, b, t);
      }
    } else {
      if op.Discard? {
        CleanTopsFacts(a, op.client);
      }
      TopsKept(a, b, t);
    }
  }

  lemma TopsKept(a: seq<Hier>, b: seq<Hier>, t: string)
    requires |a| == |b| && forall j :: 0 <= j < |a| ==> a[j].topic == b[j].topic
    ensures Find(a, t) == Find(b, t)
  {
  }

  lemma AddFrontTop(a: seq<Hier>, k: Hier, t: string)
    ensures Find([k] + a, t) < |a| + 1 <==> t == k.topic || Find(a, t) < |a|
  {
    FindCons(k, a, t);
  }

  /** One operation on the tree is one edit of the table. */
  lemma ApplyRefines(s: Subs, f: Flat, op: Op)
    requires Valid(s) && Accepted(op) && Agrees(s, f)
    ensures Valid(Apply(s, op)) && Agrees(Apply(s, op), ApplyFlat(f, op))
  {
    hide Valid, SubOf, RetOf, HasTop, SubAdd, SubRemove, CleanSession, RetainPublish;
    forall t ensures HasTop(Apply(s, op), t) <==> t in ApplyFlat(f, op).tops {
      SameTops(s, op, t);
    }
    var s', f' := Apply(s, op), ApplyFlat(f, op);
    forall p, c
      ensures Valid(s')
      ensures SubOf(s', p, c) == if (p, c) in f'.subs then Some(f'.subs[(p, c)]) else None
      ensures RetOf(s', p) == if p in f'.retained then Some(f'.retained[p]) else None
    {
      match op
      case Subscribe(g, d, q) => SubAddEffect(s, g, Leaf(d, q), p, c);
      case Unsubscribe(g, d) => SubRemoveEffect(s, g, d, p, c);
      case Discard(d) => CleanSessionEffect(s, d, p, c);
      case Retaining(t, m) => RetainPublishEffect(s, t, m, p, c);
    }
    assert Valid(s') by {
      match op
      case Subscribe(g, d, q) => SubAddEffect(s, g, Leaf(d, q), [], "");
      case Unsubscribe(g, d) => SubRemoveEffect(s, g, d, [], "");
      case Discard(d) => CleanSessionEffect(s, d, [], "");
      case Retaining(t, m) => RetainPublishEffect(s, t, m, [], "");
    }
    assert forall p :: RetOf(s', p) == if p in f'.retained then Some(f'.retained[p]) else None by {
      forall p ensures RetOf(s', p) == if p in f'.retained then Some(f'.retained[p]) else None {
        assert SubOf(s', p, "") == SubOf(s', p, "");
      }
    }
  }

  function Run(ops: seq<Op>): Subs {
    if ops == [] then Boot() else Apply(Run(ops[..|ops| - 1]), ops[|ops| - 1])
  }

  function RunFlat(ops: seq<Op>): Flat {
    if ops == [] then Flat({"", "$SYS"}, map[], map[]) else ApplyFlat(RunFlat(ops[..|ops| - 1]), ops[|ops| - 1])
  }

  lemma {:induction false} BootAgrees()
    ensures Valid(Boot()) && Agrees(Boot(), RunFlat([]))
  {
    var s := Boot();
    var tops := s.root.children;
    assert WF(Fresh("")) && WF(Fresh("$SYS"));
    assert tops[1..] == [Fresh("$SYS")] && [Fresh("$SYS")][1..] == [];
    forall p, c ensures SubOf(s, p, c).None? && RetOf(s, p).None? {
      if p != [] {
        NodeOfTop(s, p);
      }
    }
    forall p ensures RetOf(s, p).None? {
      assert SubOf(s, p, "").None?;
    }
    forall t ensures HasTop(s, t) <==> t in {"", "$SYS"} {
      assert tops[0].topic == "" && tops[1].topic == "$SYS";
    }
  }

  lemma BootRetainsNothing()
    ensures forall x :: RetCount(Boot().root, x) == 0
  {
    forall x ensures RetCount(Boot().root, x) == 0 {
      CountsOne(Fresh(""), x);
      CountsOne(Fresh("$SYS"), x);
      CountsAppend([Fresh("")], [Fresh("$SYS")], x);
      assert Boot().root.children == [Fresh("")] + [Fresh("$SYS")];
      assert RetCount(Fresh(""), x) == 0 && RetCount(Fresh("$SYS"), x) == 0;
    }
  }

  /** After any run of the broker the tree holds exactly what the table holds. */
  lemma {:induction false} RunRefines(ops: seq<Op>)
    requires forall op :: op in ops ==> Accepted(op)
    ensures Valid(Run(ops)) && Agrees(Run(ops), RunFlat(ops))
    decreases |ops|
  {
    if ops == [] {
      BootAgrees();
    } else {
      var before := ops[..|ops| - 1];
      RunRefines(before);
      ApplyRefines(Run(before), RunFlat(before), ops[|ops| - 1]);
    }
  }

  /** Routing after any run, in terms of the table and the level rule alone. */
  lemma RunRoutesExactly(ops: seq<Op>, topic: string, filter: string, client: string, qos: Qos)
    requires forall op :: op in ops ==> Accepted(op)
    requires PlainLevels(Split(topic))
    ensures Total(Route(Run(ops), topic), Tokens(filter), Serves(Leaf(client, qos))) ==
      var subs := RunFlat(ops).subs;
      var k := (Tokens(filter), client);
      if Matches(Tokens(filter), Tokens(topic)) && k in subs && subs[k] == qos then 1 else 0
  {
    RunRefines(ops);
    RouteExact(Run(ops), topic, Tokens(filter), Leaf(client, qos));
    assert SubOf(Run(ops), Tokens(filter), client) == SubOf(Run(ops), Tokens(filter), client);
  }

  // ----- the retained search can miss ---------------------------------------------

  function MissRun(): seq<Op> {
    [Retaining("a", Some(7)), Retaining("b", Some(8)), Subscribe("+/#", "c", 0)]
  }

  /** A filter with both wildcards can miss: with "a" and "b" retained, a subscription to
      "+/#" is not sent the message of "a". */
  lemma RetainQueueCanMiss()
    ensures forall op :: op in MissRun() ==> Accepted(op)
    ensures var s := Run(MissRun());
      && Valid(s) && NodeOf(s, Tokens("+/#")).Some?
      && Matches(Tokens("+/#"), Tokens("a")) && RetOf(s, Tokens("a")) == Some(7)
      && Total(RetainQueue(s, "+/#"), Tokens("a"), Is(7)) == 0
  {
    hide Valid, Run, RetainQueue;
    MissTokens();
    MissRunIs();
    RunRefines(MissRun());
    var s := Run(MissRun());
    MissMatches();
    MissFound(s);
    RetainQueueExact(s, "+/#", ["", "a"], 7);
  }

  lemma MissMatches()
    ensures Matches(["", "+", "#"], ["", "a"])
  {
    assert ["+", "#"][1..] == ["#"];
    assert ["", "+", "#"][1..] == ["+", "#"] && ["", "a"][1..] == ["a"];
    assert Matches(["+", "#"], ["a"]);
  }

  /** What the tree of the run holds, and that the search skips "a". */
  lemma MissFound(s: Subs)
    requires s == MissTree(MissKids(), 1, 2)
    ensures NodeOf(s, ["", "+", "#"]).Some? && RetOf(s, ["", "a"]) == Some(7)
    ensures SkippedBy(s, "+/#", ["", "a"])
  {
    MissTokens();
    MissLookups();
    assert Find(s.root.children, "") == 0;
    NodeOfTop(s, ["", "a"]);
    NodeOfTop(s, ["", "+", "#"]);
    assert ["", "+", "#"][1..] == ["+", "#"] && ["", "a"][1..] == ["a"];
  }

  /** The top for ordinary topics once `kids` stand on the first level. */
  function MissTop(kids: seq<Hier>): Hier {
    Hier("", [], None, if kids == [] then [] else [Hier("", [], None, kids)])
  }

  function MissTree(kids: seq<Hier>, subs: int, retained: int): Subs {
    Subs(Hier("", [], None, [MissTop(kids), Fresh("$SYS")]), subs, retained)
  }

  function MissKids(): seq<Hier> {
    [Hier("a", [], Some(7), []), Hier("b", [], Some(8), []), Hier("+", [], None, [Hier("#", [Leaf("c", 0)], None, [])])]
  }

  lemma MissTokens()
    ensures Tokens("+/#") == ["", "+", "#"] && Tokens("a") == ["", "a"] && Tokens("b") == ["", "b"]
    ensures FilterLevels(Split("+/#")) && PlainLevels(Split("a")) && PlainLevels(Split("b"))
  {
    SplitAtSlash("+/#", 1);
    assert "+/#"[..1] == "+" && "+/#"[2..] == "#";
    SplitNoSlash("#");
    SplitNoSlash("a");
    SplitNoSlash("b");
    assert Split("+/#") == ["+", "#"];
  }

  lemma RunOne(ops: seq<Op>, op: Op)
    ensures Run(ops + [op]) == Apply(Run(ops), op)
  {
    var all := ops + [op];
    assert all[..|all| - 1] == ops && all[|all| - 1] == op;
  }

  lemma NothingRun()
    ensures Run([]) == Boot()
  {
  }

  lemma MissRunIs()
    ensures Run(MissRun()) == MissTree(MissKids(), 1, 2)
    ensures forall op :: op in MissRun() ==> Accepted(op)
  {
    hide RetainPublish, SubAdd, Run, Boot;
    MissTokens();
    MissRunStages();
    var ops := MissRun();
    NothingRun();
    RunOne([], ops[0]);
    RunOne([ops[0]], ops[1]);
    RunOne([ops[0], ops[1]], ops[2]);
    assert [] + [ops[0]] == [ops[0]] && [ops[0]] + [ops[1]] == [ops[0], ops[1]];
    assert ops == [ops[0], ops[1]] + [ops[2]];
  }

  lemma MissRunStages()
    ensures SubAdd(RetainPublish(RetainPublish(Boot(), "a", Some(7)), "b", Some(8)), "+/#", Leaf("c", 0)) ==
      MissTree(MissKids(), 1, 2)
  {
    hide RetainPublish, SubAdd;
    var kids := MissKids();
    MissTokens();
    assert Boot() == MissTree([], 0, 0);
    MissStep([], "a", 7, 0);
    MissStep([kids[0]], "b", 8, 1);
    MissLast();
    assert [] + [kids[0]] == [kids[0]] && [kids[0]] + [kids[1]] == kids[..2];
  }

  /** The first level `kids` with a retained message under a new topic. */
  lemma MissRetain(kids: seq<Hier>, x: string, m: nat)
    requires x != "" && x != "+" && forall k :: k in kids ==> k.topic != x && k.topic != "+"
    ensures RetainTop(MissTop(kids), ["", x], Some(m)) == MissTop(kids + [Hier(x, [], Some(m), [])])
    ensures RetAt(MissTop(kids), ["", x]).None?
  {
    var toks, mid := ["", x], Hier("", [], None, kids);
    var next := mid.(children := kids + [Fresh(x)]);
    var top := MissTop(kids);
    assert toks[1..] == [x] && [x][1..] == [];
    assert Find(kids, x) == |kids| && NodeAt(mid, [x]).None?;
    assert Add(mid, [x], None) == next;
    assert Add(top, toks, None) == Hier("", [], None, [next]) by {
      if kids != [] {
        assert [mid][0 := next] == [next];
      } else {
        assert [] + [next] == [next];
      }
    }
    RetainsLast(kids, x, m);
    assert [next][1..] == [];
    assert Retain(next, toks, true, Some(m)) == next.(children := kids + [Hier(x, [], Some(m), [])]);
  }

  lemma {:induction false} RetainsLast(kids: seq<Hier>, x: string, m: nat)
    requires x != "+" && forall k :: k in kids ==> k.topic != x && k.topic != "+"
    ensures Retains(kids + [Fresh(x)], [x], true, Some(m)) == kids + [Hier(x, [], Some(m), [])]
  {
    var all := kids + [Fresh(x)];
    assert [x][1..] == [];
    if kids == [] {
      assert all[1..] == [];
    } else {
      RetainsLast(kids[1..], x, m);
      assert all[0] == kids[0] && all[1..] == kids[1..] + [Fresh(x)];
    }
  }

  lemma MissStep(kids: seq<Hier>, x: string, m: nat, retained: int)
    requires Tokens(x) == ["", x] && x != "" && x != "+" && forall k :: k in kids ==> k.topic != x && k.topic != "+"
    ensures RetainPublish(MissTree(kids, 0, retained), x, Some(m)) ==
      MissTree(kids + [Hier(x, [], Some(m), [])], 0, retained + 1)
  {
    hide RetainTop, NodeAt, KidAt;
    MissRetain(kids, x, m);
    var s, toks := MissTree(kids, 0, retained), ["", x];
    TopHolds(s, toks);
    var tops := s.root.children;
    assert Find(tops, "") == 0;
    assert tops[0 := RetainTop(tops[0], toks, Some(m))] == [RetainTop(tops[0], toks, Some(m)), Fresh("$SYS")];
  }

  lemma MissAdds()
    ensures Add(MissTop(MissKids()[..2]), ["", "+", "#"], Some(Leaf("c", 0))) == MissTop(MissKids())
  {
    var toks, l, kids := ["", "+", "#"], Leaf("c", 0), MissKids()[..2];
    var mid := Hier("", [], None, kids);
    assert toks[1..] == ["+", "#"] && ["+", "#"][1..] == ["#"] && ["#"][1..] == [];
    assert Find(kids, "+") == 2;
    assert PutLeaf([], l) == [l];
    assert Add(Fresh("#"), [], Some(l)) == Hier("#", [l], None, []);
    assert Add(Fresh("+"), ["#"], Some(l)) == MissKids()[2];
    assert Add(mid, ["+", "#"], Some(l)) == Hier("", [], None, MissKids());
    assert [mid][0 := Hier("", [], None, MissKids())] == [Hier("", [], None, MissKids())];
    assert Find([mid], "") == 0;
  }

  lemma MissLast()
    ensures SubAdd(MissTree(MissKids()[..2], 0, 2), "+/#", Leaf("c", 0)) == MissTree(MissKids(), 1, 2)
  {
    hide Add, NodeAt;
    MissTokens();
    MissAdds();
    var s, toks := MissTree(MissKids()[..2], 0, 2), ["", "+", "#"];
    var tops := s.root.children;
    assert Find(tops, "") == 0;
    MissNoSub(s);
    assert tops[0 := MissTop(MissKids())] == [MissTop(MissKids()), Fresh("$SYS")];
  }

  lemma MissNoSub(s: Subs)
    requires s == MissTree(MissKids()[..2], 0, 2)
    ensures SubOf(s, ["", "+", "#"], "c").None?
  {
    var toks, mid := ["", "+", "#"], Hier("", [], None, MissKids()[..2]);
    assert toks[1..] == ["+", "#"] && Find(mid.children, "+") == 2 && Find([mid], "") == 0;
    NodeOfTop(s, toks);
    assert NodeAt(mid, ["+", "#"]).None?;
  }

  lemma MissLookups()
    ensures var ks := [Hier("", [], None, MissKids())];
      && KidAt(ks, ["", "a"]) == Some(MissKids()[0]) && KidAt(ks, ["", "+", "#"]).Some?
      && !LastOfSiblings(ks, ["", "a"])
  {
    var ks := MissKids();
    var mid := Hier("", [], None, ks);
    FindIs(ks, 0);
    FindIs(ks, 2);
    FindIs([mid], 0);
    FindIs(ks[2].children, 0);
    assert ["", "a"][1..] == ["a"] && ["a"][1..] == [];
    assert ["", "+", "#"][1..] == ["+", "#"] && ["+", "#"][1..] == ["#"] && ["#"][1..] == [];
    assert NodeAt(ks[0], []) == Some(ks[0]);
    assert NodeAt(mid, ["a"]) == Some(ks[0]);
    assert NodeAt(ks[2], ["#"]) == NodeAt(ks[2].children[0], []);
    assert NodeAt(mid, ["+", "#"]) == NodeAt(ks[2], ["#"]);
    assert !LastOfSiblings(ks, ["a"]);
  }
}

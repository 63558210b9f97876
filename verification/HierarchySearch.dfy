/** What the three searching walks of the tree visit. `Total` counts visits, so that one
    equation says at once which paths are visited, and that each is visited once. */
module HierarchySearch {
  import opened Options
  import opened Topics
  import opened Hierarchy
  import opened HierarchyLaws

  /** The summed weight of what a walk found at path `p`. */
  function Total<T(!new)>(vs: seq<At<T>>, p: Levels, w: T -> nat): nat {
    if vs == [] then 0
    else (if vs[0].path == p then w(vs[0].item) else 0) + Total(vs[1..], p, w)
  }

  lemma {:induction false} TotalAppend<T(!new)>(a: seq<At<T>>, b: seq<At<T>>, p: Levels, w: T -> nat)
    ensures Total(a + b, p, w) == Total(a, p, w) + Total(b, p, w)
  {
    if a == [] {
      assert a + b == b;
    } else {
      TotalAppend(a[1..], b, p, w);
      assert (a + b)[0] == a[0] && (a + b)[1..] == a[1..] + b;
    }
  }

  lemma {:induction false} TotalPrefix<T(!new)>(t: string, vs: seq<At<T>>, p: Levels, w: T -> nat)
    ensures Total(Prefix(t, vs), p, w) == if p != [] && p[0] == t then Total(vs, p[1..], w) else 0
  {
    if vs != [] {
      TotalPrefix(t, vs[1..], p, w);
      var v := At([t] + vs[0].path, vs[0].item);
      assert Prefix(t, vs)[0] == v && Prefix(t, vs)[1..] == Prefix(t, vs[1..]);
      assert v.path[1..] == vs[0].path;
      if p != [] && p[0] == t {
        assert p == [t] + p[1..];
      }
    }
  }

  lemma TotalOne<T(!new)>(v: At<T>, p: Levels, w: T -> nat)
    ensures Total([v], p, w) == if v.path == p then w(v.item) else 0
  {
    assert [v][1..] == [];
  }

  /** No other child carries the topic of the first one. */
  lemma RestHasNot(ks: seq<Hier>, p: Levels)
    requires DistinctTopics(ks) && ks != []
    ensures p != [] && p[0] == ks[0].topic ==> KidAt(ks[1..], p).None?
    ensures p != [] ==> KidAt(ks, p) == if p[0] == ks[0].topic then NodeAt(ks[0], p[1..]) else KidAt(ks[1..], p)
  {
    var rest := ks[1..];
    assert forall j :: 0 <= j < |rest| ==> rest[j] == ks[j + 1];
    if p != [] {
      KidAtCons(ks[0], rest, p);
      assert ks == [ks[0]] + rest;
    }
  }

  lemma NodeBelow(h: Hier, p: Levels)
    ensures NodeAt(h, p) == if p == [] then Some(h) else KidAt(h.children, p)
  {
  }

  // ----- publish --------------------------------------------------------------

  /** How often leaf `l` is served at a visit. */
  function Serves(l: Leaf): Stop -> nat {
    (s: Stop) => multiset(s.leaves)[l]
  }

  function Holds(n: Option<Hier>, l: Leaf): nat {
    if n.Some? && QosOf(n.value.subs, l.client) == Some(l.qos) then 1 else 0
  }

  /** The publish search serves exactly the leaves whose path matches, each once. */
  lemma {:induction false} VisitsExact(ks: seq<Hier>, toks: Levels, sr: bool, p: Levels, l: Leaf)
    requires WFs(ks) && PlainLevels(toks)
    ensures Total(Visits(ks, toks, sr), p, Serves(l)) ==
      if Matches(p, toks) then Holds(KidAt(ks, p), l) else 0
    decreases ks, 0
  {
    if ks != [] {
      TotalAppend(Visit(ks[0], toks, sr), Visits(ks[1..], toks, sr), p, Serves(l));
      VisitExact(ks[0], toks, sr, p, l);
      VisitsExact(ks[1..], toks, sr, p, l);
      RestHasNot(ks, p);
    }
  }

  lemma {:induction false} VisitExact(b: Hier, toks: Levels, sr: bool, p: Levels, l: Leaf)
    requires WF(b) && PlainLevels(toks)
    ensures Total(Visit(b, toks, sr), p, Serves(l)) ==
      if p != [] && p[0] == b.topic && Matches(p, toks) then Holds(NodeAt(b, p[1..]), l) else 0
    decreases b, 1
  {
    hide LeafCounts, RetCounts;
    LeafOnce(b.subs, l);
    if p != [] {
      NodeBelow(b, p[1..]);
      assert p == [p[0]] + p[1..];
    }
    if toks != [] && (b.topic == toks[0] || b.topic == "+") {
      PlainIsNotWild(toks[0]);
      var sr' := sr && b.topic != "+";
      var inner := Prefix(b.topic, Visits(b.children, toks[1..], sr'));
      var own := if |toks| == 1 then [At([b.topic], Stop(b.subs, sr'))] else [];
      TotalAppend(inner, own, p, Serves(l));
      TotalPrefix(b.topic, Visits(b.children, toks[1..], sr'), p, Serves(l));
      if |toks| == 1 {
        TotalOne(own[0], p, Serves(l));
      }
      if p != [] && p[0] == b.topic {
        VisitsExact(b.children, toks[1..], sr', p[1..], l);
      }
    } else if b.topic == "#" && b.children == [] {
      TotalOne(At(["#"], Stop(b.subs, false)), p, Serves(l));
    }
  }

  // ----- retained publish -----------------------------------------------------

  lemma {:induction false} RetainsNotAllowed(ks: seq<Hier>, toks: Levels, m: Option<nat>)
    ensures Retains(ks, toks, false, m) == ks
    decreases ks, 0
  {
    if ks != [] {
      RetainNotAllowed(ks[0], toks, m);
      RetainsNotAllowed(ks[1..], toks, m);
    }
  }

  lemma {:induction false} RetainNotAllowed(b: Hier, toks: Levels, m: Option<nat>)
    ensures Retain(b, toks, false, m) == b
    decreases b, 1
  {
    if toks != [] {
      RetainsNotAllowed(b.children, toks[1..], m);
    }
  }

  /** A retained publish changes the message retained at its own path and nothing else. */
  lemma {:induction false} RetainsLookup(ks: seq<Hier>, toks: Levels, m: Option<nat>, p: Levels, c: string)
    requires WFs(ks) && PlainLevels(toks)
    ensures var r := Retains(ks, toks, true, m);
      && RetainedOf(KidAt(r, p)) == (if p == toks && KidAt(ks, p).Some? then m else RetainedOf(KidAt(ks, p)))
      && SubsOf(KidAt(r, p), c) == SubsOf(KidAt(ks, p), c)
      && KidAt(r, p).Some? == KidAt(ks, p).Some?
    decreases ks, 0
  {
    if ks != [] && p != [] {
      var r := Retains(ks, toks, true, m);
      assert r[1..] == Retains(ks[1..], toks, true, m);
      assert DistinctTopics(r);
      RestHasNot(ks, p);
      RestHasNot(r, p);
      if p[0] == ks[0].topic {
        RetainLookup(ks[0], toks, m, p, c);
      } else {
        RetainsLookup(ks[1..], toks, m, p, c);
      }
    }
  }

  lemma {:induction false} RetainLookup(b: Hier, toks: Levels, m: Option<nat>, p: Levels, c: string)
    requires WF(b) && PlainLevels(toks) && p != [] && p[0] == b.topic
    ensures var r := Retain(b, toks, true, m);
      && RetAt(r, p[1..]) == (if p == toks && NodeAt(b, p[1..]).Some? then m else RetAt(b, p[1..]))
      && SubAt(r, p[1..], c) == SubAt(b, p[1..], c)
      && NodeAt(r, p[1..]).Some? == NodeAt(b, p[1..]).Some?
    decreases b, 1
  {
    var r, q := Retain(b, toks, true, m), p[1..];
    NodeBelow(b, q);
    NodeBelow(r, q);
    assert p == [p[0]] + q;
    if b.topic == "+" && toks != [] {
      PlainIsNotWild(toks[0]);
      RetainsNotAllowed(b.children, toks[1..], m);
    } else if toks != [] && b.topic == toks[0] {
      assert toks == [toks[0]] + toks[1..];
      RetainsLookup(b.children, toks[1..], m, q, c);
    }
  }

  lemma {:induction false} RetainsKeepWF(ks: seq<Hier>, toks: Levels, m: Option<nat>)
    requires WFs(ks) && PlainLevels(toks)
    ensures WFs(Retains(ks, toks, true, m))
    decreases ks, 0
  {
    if ks != [] {
      RetainKeepsWF(ks[0], toks, m);
      RetainsKeepWF(ks[1..], toks, m);
    }
  }

  lemma {:induction false} RetainKeepsWF(b: Hier, toks: Levels, m: Option<nat>)
    requires WF(b) && PlainLevels(toks)
    ensures WF(Retain(b, toks, true, m))
    decreases b, 1
  {
    if toks != [] {
      PlainIsNotWild(toks[0]);
      if b.topic == "+" {
        RetainsNotAllowed(b.children, toks[1..], m);
      } else if b.topic == toks[0] {
        RetainsKeepWF(b.children, toks[1..], m);
      }
    }
  }

  /** `retained_count` and the references to one message move by the old and new
      message of that one node. */
  lemma {:induction false} RetainsCount(ks: seq<Hier>, toks: Levels, m: Option<nat>, x: Option<nat>)
    requires WFs(ks) && PlainLevels(toks)
    ensures RetCounts(Retains(ks, toks, true, m), x) == RetCounts(ks, x) +
      if KidAt(ks, toks).Some? then Keeps(m, x) - Keeps(RetainedOf(KidAt(ks, toks)), x) else 0
    ensures LeafCounts(Retains(ks, toks, true, m)) == LeafCounts(ks)
    decreases ks, 0
  {
    if ks != [] {
      var r := Retains(ks, toks, true, m);
      assert r[1..] == Retains(ks[1..], toks, true, m);
      RestHasNot(ks, toks);
      RetainCount(ks[0], toks, m, x);
      RetainsCount(ks[1..], toks, m, x);
    }
  }

  lemma {:induction false} RetainCount(b: Hier, toks: Levels, m: Option<nat>, x: Option<nat>)
    requires WF(b) && PlainLevels(toks)
    ensures RetCount(Retain(b, toks, true, m), x) == RetCount(b, x) +
      if toks != [] && toks[0] == b.topic && NodeAt(b, toks[1..]).Some?
      then Keeps(m, x) - Keeps(RetAt(b, toks[1..]), x) else 0
    ensures LeafCount(Retain(b, toks, true, m)) == LeafCount(b)
    decreases b, 1
  {
    if toks != [] {
      PlainIsNotWild(toks[0]);
      NodeBelow(b, toks[1..]);
      if b.topic == "+" {
        RetainsNotAllowed(b.children, toks[1..], m);
      } else if b.topic == toks[0] {
        RetainsCount(b.children, toks[1..], m, x);
      }
    }
  }

  // ----- retained messages on subscribe ---------------------------------------

  function Is(m: nat): nat -> nat {
    (x: nat) => if x == m then 1 else 0
  }

  /** The node at `p` is the last of its siblings. */
  function LastOfSiblings(ks: seq<Hier>, p: Levels): bool
    decreases |p|
  {
    if p == [] then false
    else
      var i := Find(ks, p[0]);
      if |p| == 1 then i == |ks| - 1
      else i < |ks| && LastOfSiblings(ks[i].children, p[1..])
  }

  /** The guard that fails in `_retain_search`: the final '#' of the filter stands for
      no level at all, the node has no child to be searched, and it is not the last of
      its siblings (or sits right below the top). */
  function Skipped(ks: seq<Hier>, toks: Levels, p: Levels, level: nat): bool {
    && toks != [] && toks[|toks| - 1] == "#" && |p| == |toks| - 1 && p != []
    && KidAt(ks, p).Some? && KidAt(ks, p).value.children == []
    && !(LastOfSiblings(ks, p) && level + |p| - 1 > 0)
  }

  function Owed(n: Option<Hier>, m: nat): nat {
    if n.Some? && n.value.retained == Some(m) then 1 else 0
  }

  lemma OwnTotal(b: Hier, p: Levels, m: nat)
    ensures Total(Own(b), p, Is(m)) == if p == [b.topic] then Owed(Some(b), m) else 0
  {
    if b.retained.Some? {
      TotalOne(At([b.topic], b.retained.value), p, Is(m));
    }
  }

  lemma LastOfSiblingsCons(ks: seq<Hier>, p: Levels)
    requires DistinctTopics(ks) && ks != [] && p != []
    ensures p[0] != ks[0].topic ==> LastOfSiblings(ks, p) == LastOfSiblings(ks[1..], p)
    ensures p[0] == ks[0].topic ==>
      LastOfSiblings(ks, p) == if |p| == 1 then |ks| == 1 else LastOfSiblings(ks[0].children, p[1..])
  {
    var rest := ks[1..];
    assert forall j :: 0 <= j < |rest| ==> rest[j] == ks[j + 1];
    if p[0] == ks[0].topic {
      FindIs(ks, 0);
    } else {
      var i := Find(rest, p[0]);
      if i < |rest| {
        FindIs(ks, i + 1);
      } else {
        FindNone(ks, p[0]);
      }
    }
  }

  lemma {:induction false} NothingBelow(h: Hier, p: Levels)
    requires RetainsNothing(h)
    ensures RetAt(h, p).None?
    decreases |p|
  {
    if p != [] && Find(h.children, p[0]) < |h.children| {
      NothingBelow(h.children[Find(h.children, p[0])], p[1..]);
    }
  }

  /** `_retain_search` queues a retained message exactly when its topic matches the
      filter and the guard above does not skip it, and then once. */
  lemma {:induction false} RecallExact(ks: seq<Hier>, toks: Levels, level: nat, p: Levels, m: nat)
    requires WFs(ks) && FilterLevels(toks) && toks != []
    ensures Total(Recall(ks, toks, level), p, Is(m)) ==
      if Matches(toks, p) && !Skipped(ks, toks, p, level) then Owed(KidAt(ks, p), m) else 0
    decreases ks, 0
  {
    if ks != [] {
      TotalAppend(RecallOne(ks[0], |ks| == 1, toks, level), Recall(ks[1..], toks, level), p, Is(m));
      RecallOneExact(ks[0], |ks| == 1, toks, level, p, m);
      RecallExact(ks[1..], toks, level, p, m);
      if p != [] {
        RestHasNot(ks, p);
        LastOfSiblingsCons(ks, p);
      }
    }
  }

  function SkippedOne(b: Hier, last: bool, toks: Levels, p: Levels, level: nat): bool {
    && toks != [] && toks[|toks| - 1] == "#" && |p| == |toks| - 1 && p != []
    && NodeAt(b, p[1..]).Some? && NodeAt(b, p[1..]).value.children == []
    && !((if |p| == 1 then last else LastOfSiblings(b.children, p[1..])) && level + |p| - 1 > 0)
  }

  lemma {:induction false} RecallOneExact(b: Hier, last: bool, toks: Levels, level: nat, p: Levels, m: nat)
    requires WF(b) && FilterLevels(toks) && toks != []
    ensures Total(RecallOne(b, last, toks, level), p, Is(m)) ==
      if p != [] && p[0] == b.topic && Matches(toks, p) && !SkippedOne(b, last, toks, p, level)
      then Owed(NodeAt(b, p[1..]), m) else 0
    decreases b, 1
  {
    OwnTotal(b, p, m);
    if p != [] {
      NodeBelow(b, p[1..]);
      assert p == [p[0]] + p[1..];
    }
    if toks == ["#"] {
      TotalAppend(Own(b), Prefix(b.topic, Recall(b.children, toks, level + 1)), p, Is(m));
      TotalPrefix(b.topic, Recall(b.children, toks, level + 1), p, Is(m));
      if p != [] && p[0] == b.topic {
        RecallExact(b.children, toks, level + 1, p[1..], m);
      }
    } else if b.topic != "+" && (b.topic == toks[0] || toks[0] == "+") {
      if |toks| > 1 {
        RecallBelow(b, last, toks, level, p, m);
      } else {
        assert toks == [toks[0]];
        MatchesOneLevel(toks[0], p);
        assert p == [b.topic] <==> |p| == 1 && p[0] == b.topic;
        assert RecallOne(b, last, toks, level) == Own(b);
      }
    } else if p != [] && p[0] == b.topic && b.topic == "+" {
      NothingBelow(b, p[1..]);
    }
  }

  lemma MatchesOneLevel(t: string, p: Levels)
    requires t != "#"
    ensures Matches([t], p) <==> |p| == 1 && (t == "+" || t == p[0])
  {
    assert [t][1..] == [];
    if p != [] {
      assert Matches([], p[1..]) <==> p[1..] == [];
    }
  }

  lemma NoneTotal(p: Levels, m: nat)
    ensures Total([], p, Is(m)) == 0
  {
  }

  lemma {:induction false} RecallBelow(b: Hier, last: bool, toks: Levels, level: nat, p: Levels, m: nat)
    requires WF(b) && FilterLevels(toks) && |toks| > 1
    requires toks != ["#"] && b.topic != "+" && (b.topic == toks[0] || toks[0] == "+")
    ensures Total(RecallOne(b, last, toks, level), p, Is(m)) ==
      if p != [] && p[0] == b.topic && Matches(toks, p) && !SkippedOne(b, last, toks, p, level)
      then Owed(NodeAt(b, p[1..]), m) else 0
    decreases b, 0
  {
    NoneTotal(p, m);
    hide Total;
    var flag := toks[1..] == ["#"] && b.children != [];
    var inner := Prefix(b.topic, Recall(b.children, toks[1..], level + 1));
    var own := if flag || (last && toks[1] == "#" && level > 0) then Own(b) else [];
    TotalAppend(inner, own, p, Is(m));
    TotalPrefix(b.topic, Recall(b.children, toks[1..], level + 1), p, Is(m));
    HashIsLast(toks);
    OwnTotal(b, p, m);
    if p != [] && p[0] == b.topic {
      NodeBelow(b, p[1..]);
      assert p == [p[0]] + p[1..];
      RecallExact(b.children, toks[1..], level + 1, p[1..], m);
    }
  }

  lemma HashIsLast(toks: Levels)
    requires FilterLevels(toks) && |toks| > 1
    ensures toks[1] == "#" <==> toks[1..] == ["#"]
    ensures toks[0] != "#"
    ensures toks[|toks| - 1] == toks[1..][|toks| - 2]
  {
    if toks[0] == "#" {
      PlainNotHash(toks[0]);
    }
    if toks[1] == "#" && |toks| > 2 {
      PlainNotHash(toks[1]);
    }
  }
}

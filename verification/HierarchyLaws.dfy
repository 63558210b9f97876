/** What subscribing, unsubscribing and cleaning a session do to the contents of the
    tree, seen as a finite map from (path, client) to QoS and from path to message. */
module HierarchyLaws {
  import opened Options
  import opened Topics
  import opened Hierarchy

  // ----- leaves of one node ---------------------------------------------------

  lemma PutLeafLookup(ls: seq<Leaf>, l: Leaf, c: string)
    requires DistinctClients(ls)
    ensures QosOf(PutLeaf(ls, l), c) == if c == l.client then Some(l.qos) else QosOf(ls, c)
    ensures DistinctClients(PutLeaf(ls, l))
  {
    var r, i, j := PutLeaf(ls, l), FindLeaf(ls, l.client), FindLeaf(ls, c);
    if c == l.client {
      assert r[i] == l;
    } else if j < |ls| {
      assert r[j] == ls[j];
    }
  }

  lemma DropLeafLookup(ls: seq<Leaf>, d: string, c: string)
    requires DistinctClients(ls)
    ensures QosOf(DropLeaf(ls, d), c) == if c == d then None else QosOf(ls, c)
    ensures DistinctClients(DropLeaf(ls, d))
  {
    hide FindLeafFrom;
    var i, j := FindLeaf(ls, d), FindLeaf(ls, c);
    var r := DropLeaf(ls, d);
    if i < |ls| {
      assert forall k :: 0 <= k < |r| ==> r[k] == if k < i then ls[k] else ls[k + 1];
      if c == d {
        assert forall k :: 0 <= k < |r| ==> r[k].client != d;
      } else if j < |ls| {
        var k := if j < i then j else j - 1;
        assert r[k] == ls[j] && r[k].client == c;
        assert forall x :: 0 <= x < k ==> r[x].client != c;
      } else {
        assert forall k :: 0 <= k < |r| ==> r[k].client != c;
      }
    }
  }

  lemma NoOtherLeaf(ls: seq<Leaf>, i: nat)
    requires DistinctClients(ls) && i < |ls|
    ensures QosOf(ls[i + 1..], ls[i].client).None?
  {
    var rest := ls[i + 1..];
    assert forall j :: i < j < |ls| ==> ls[j].client != ls[i].client;
    assert forall j :: 0 <= j < |rest| ==> rest[j].client != ls[i].client;
  }

  lemma {:induction false} DropClientIsDropLeaf(ls: seq<Leaf>, d: string)
    requires DistinctClients(ls)
    ensures DropClient(ls, d) == DropLeaf(ls, d)
  {
    if ls != [] {
      DropClientIsDropLeaf(ls[1..], d);
      if ls[0].client == d {
        NoOtherLeaf(ls, 0);
      } else {
        DropLeafCons(ls, d);
      }
    }
  }

  lemma DropLeafCons(ls: seq<Leaf>, d: string)
    requires ls != [] && ls[0].client != d
    ensures DropLeaf(ls, d) == [ls[0]] + DropLeaf(ls[1..], d)
  {
    var i := FindLeaf(ls, d);
    if i < |ls| {
      assert [ls[0]] + (ls[1..][..i - 1] + ls[1..][i..]) == ls[..i] + ls[i + 1..];
    }
  }

  /** Leaves with distinct clients: a leaf occurs once or not at all. */
  lemma {:induction false} LeafOnce(ls: seq<Leaf>, l: Leaf)
    requires DistinctClients(ls)
    ensures multiset(ls)[l] == if QosOf(ls, l.client) == Some(l.qos) then 1 else 0
  {
    if ls != [] {
      LeafOnce(ls[1..], l);
      assert ls == [ls[0]] + ls[1..];
      if ls[0].client == l.client {
        NoOtherLeaf(ls, 0);
      }
    }
  }

  lemma FindIs(ks: seq<Hier>, i: nat)
    requires DistinctTopics(ks) && i < |ks|
    ensures Find(ks, ks[i].topic) == i
  {
  }

  lemma FindNone(ks: seq<Hier>, tok: string)
    requires forall j :: 0 <= j < |ks| ==> ks[j].topic != tok
    ensures Find(ks, tok) == |ks|
  {
  }

  // ----- subscribe ------------------------------------------------------------

  lemma {:induction false} AddLookup(h: Hier, toks: Levels, who: Option<Leaf>, p: Levels, c: string)
    requires WF(h)
    ensures SubAt(Add(h, toks, who), p, c) ==
      if who.Some? && p == toks && c == who.value.client then Some(who.value.qos) else SubAt(h, p, c)
    ensures RetAt(Add(h, toks, who), p) == RetAt(h, p)
    decreases |toks|
  {
    if toks == [] {
      if who.Some? {
        PutLeafLookup(h.subs, who.value, c);
      }
    } else {
      var i := Find(h.children, toks[0]);
      var k := if i < |h.children| then h.children[i] else Fresh(toks[0]);
      PutChild(h, Add(k, toks[1..], who), p);
      if p != [] && p[0] == toks[0] {
        AddLookup(k, toks[1..], who, p[1..], c);
        assert p == [p[0]] + p[1..] && toks == [toks[0]] + toks[1..];
        FreshHoldsNothing(toks[0], p[1..], c);
      }
    }
  }

  lemma FreshHoldsNothing(topic: string, p: Levels, c: string)
    ensures SubAt(Fresh(topic), p, c).None? && RetAt(Fresh(topic), p).None?
  {
    assert p == [] ==> NodeAt(Fresh(topic), p) == Some(Fresh(topic));
  }

  /** Putting child `k` in its place, or at the end, changes the nodes below it only. */
  lemma PutChild(h: Hier, k: Hier, p: Levels)
    ensures var i := Find(h.children, k.topic);
      var r := h.(children := if i < |h.children| then h.children[i := k] else h.children + [k]);
      if p == [] then NodeAt(r, p) == Some(r)
      else NodeAt(r, p) == if p[0] == k.topic then NodeAt(k, p[1..]) else NodeAt(h, p)
  {
    var i := Find(h.children, k.topic);
    var ks := if i < |h.children| then h.children[i := k] else h.children + [k];
    assert ks[i] == k && forall j :: 0 <= j < |ks| && j != i ==> ks[j] == h.children[j];
    if p != [] {
      var j := Find(h.children, p[0]);
      assert Find(ks, p[0]) == if p[0] == k.topic then i else if j < |h.children| then j else |ks|;
    }
  }

  lemma {:induction false} AddKeepsWF(h: Hier, toks: Levels, who: Option<Leaf>)
    requires WF(h) && FilterLevels(toks) && (toks != [] ==> h.topic != "#")
    ensures WF(Add(h, toks, who))
    ensures RetainsNothing(h) ==> RetainsNothing(Add(h, toks, who))
    decreases |toks|
  {
    if toks == [] {
      if who.Some? {
        PutLeafLookup(h.subs, who.value, who.value.client);
      }
    } else {
      var i := Find(h.children, toks[0]);
      var k := if i < |h.children| then h.children[i] else Fresh(toks[0]);
      assert |toks| > 1 ==> toks[0] != "#" by {
        if |toks| > 1 && toks[0] == "#" {
          PlainNotHash(toks[0]);
        }
      }
      assert FilterLevels(toks[1..]);
      AddKeepsWF(k, toks[1..], who);
      var r := Add(h, toks, who);
      assert forall x :: x in r.children ==> x in h.children || x == Add(k, toks[1..], who);
    }
  }

  lemma PlainNotHash(l: string)
    requires l == "#"
    ensures !Plain(l)
  {
    assert IsWild(l[0]);
  }

  lemma AddUnfolds(h: Hier, toks: Levels, who: Option<Leaf>)
    requires toks != []
    ensures var i := Find(h.children, toks[0]);
      Add(h, toks, who) ==
        if i < |h.children| then h.(children := h.children[i := Add(h.children[i], toks[1..], who)])
        else h.(children := h.children + [Add(Fresh(toks[0]), toks[1..], who)])
  {
  }

  /** `subscription_count` goes up exactly when the client was not there before. */
  lemma {:induction false} AddCounts(h: Hier, toks: Levels, who: Option<Leaf>, m: Option<nat>)
    requires WF(h)
    ensures LeafCount(Add(h, toks, who)) == LeafCount(h) +
      if who.Some? && SubAt(h, toks, who.value.client).None? then 1 else 0
    ensures RetCount(Add(h, toks, who), m) == RetCount(h, m)
    decreases |toks|
  {
    if toks == [] {
      assert NodeAt(h, toks) == Some(h);
    } else {
      hide Add, LeafCounts, RetCounts, FindFrom, DistinctTopics, DistinctClients;
      AddUnfolds(h, toks, who);
      var i := Find(h.children, toks[0]);
      var k := if i < |h.children| then h.children[i] else Fresh(toks[0]);
      AddCounts(k, toks[1..], who, m);
      var k' := Add(k, toks[1..], who);
      if i < |h.children| {
        CountsUpdate(h.children, i, k', m);
      } else {
        CountsOneMore(h.children, k', m);
      }
    }
  }

  lemma CountsOneMore(ks: seq<Hier>, k: Hier, m: Option<nat>)
    ensures LeafCounts(ks + [k]) == LeafCounts(ks) + LeafCount(k)
    ensures RetCounts(ks + [k], m) == RetCounts(ks, m) + RetCount(k, m)
  {
    CountsAppend(ks, [k], m);
    assert [k][1..] == [];
    assert LeafCounts([k]) == LeafCount(k) && RetCounts([k], m) == RetCount(k, m);
  }

  lemma {:induction false} CountsAppend(a: seq<Hier>, b: seq<Hier>, m: Option<nat>)
    ensures LeafCounts(a + b) == LeafCounts(a) + LeafCounts(b)
    ensures RetCounts(a + b, m) == RetCounts(a, m) + RetCounts(b, m)
  {
    if a == [] {
      assert a + b == b;
    } else {
      CountsAppend(a[1..], b, m);
      assert (a + b)[0] == a[0] && (a + b)[1..] == a[1..] + b;
    }
  }

  lemma CountsUpdate(ks: seq<Hier>, i: nat, k: Hier, m: Option<nat>)
    requires i < |ks|
    ensures LeafCounts(ks[i := k]) == LeafCounts(ks) - LeafCount(ks[i]) + LeafCount(k)
    ensures RetCounts(ks[i := k], m) == RetCounts(ks, m) - RetCount(ks[i], m) + RetCount(k, m)
    ensures LeafCounts(ks[..i] + ks[i + 1..]) == LeafCounts(ks) - LeafCount(ks[i])
    ensures RetCounts(ks[..i] + ks[i + 1..], m) == RetCounts(ks, m) - RetCount(ks[i], m)
  {
    CountsAppend(ks[..i], [k] + ks[i + 1..], m);
    CountsAppend(ks[..i], [ks[i]] + ks[i + 1..], m);
    CountsAppend(ks[..i], ks[i + 1..], m);
    assert ks[i := k] == ks[..i] + ([k] + ks[i + 1..]);
    assert ks == ks[..i] + ([ks[i]] + ks[i + 1..]);
    assert ([k] + ks[i + 1..])[1..] == ks[i + 1..] && ([ks[i]] + ks[i + 1..])[1..] == ks[i + 1..];
  }

  // ----- unsubscribe ----------------------------------------------------------

  lemma DeadHoldsNothing(h: Hier, p: Levels, c: string)
    requires Dead(h)
    ensures SubAt(h, p, c).None? && RetAt(h, p).None? && LeafCount(h) == 0
    ensures forall m :: RetCount(h, m) == 0
  {
    assert p == [] ==> NodeAt(h, p) == Some(h);
    assert p != [] ==> NodeAt(h, p) == None;
  }

  lemma SwapKeepsDistinct(cs: seq<Hier>, i: nat, k: Hier)
    requires DistinctTopics(cs) && i < |cs| && k.topic == cs[i].topic
    ensures DistinctTopics(cs[..i] + cs[i + 1..]) && DistinctTopics(cs[i := k])
    ensures forall x :: x in cs[..i] + cs[i + 1..] ==> x in cs
    ensures forall x :: x in cs[i := k] ==> x == k || x in cs
  {
    var ks := cs[..i] + cs[i + 1..];
    assert forall j :: 0 <= j < |ks| ==> ks[j] == cs[if j < i then j else j + 1];
    assert forall j :: 0 <= j < |cs| ==> cs[i := k][j].topic == cs[j].topic;
  }

  /** Replacing child `i` by `k`, or dropping it when `k` is empty, changes the
      contents below that child only. */
  lemma SwapChild(h: Hier, i: nat, k: Hier, p: Levels, c: string)
    requires DistinctTopics(h.children) && i < |h.children| && k.topic == h.children[i].topic
    ensures var ks := if Dead(k) then h.children[..i] + h.children[i + 1..] else h.children[i := k];
      var r := h.(children := ks);
      && SubAt(r, p, c) == (if p != [] && p[0] == k.topic then SubAt(k, p[1..], c) else SubAt(h, p, c))
      && RetAt(r, p) == (if p != [] && p[0] == k.topic then RetAt(k, p[1..]) else RetAt(h, p))
      && DistinctTopics(ks)
      && (forall x :: x in ks ==> x == k || x in h.children)
  {
    SwapKeepsDistinct(h.children, i, k);
    hide DistinctTopics, FindFrom;
    if p != [] {
      SwapFind(h.children, i, k, p[0]);
      if p[0] == k.topic && Dead(k) {
        DeadHoldsNothing(k, p[1..], c);
      }
    }
  }

  lemma SwapFind(cs: seq<Hier>, i: nat, k: Hier, tok: string)
    requires DistinctTopics(cs) && i < |cs| && k.topic == cs[i].topic
    ensures var ks, j := if Dead(k) then cs[..i] + cs[i + 1..] else cs[i := k], Find(cs, tok);
      if tok == k.topic then j == i && Find(ks, tok) == (if Dead(k) then |ks| else i)
      else if j < |cs| then
        j != i && Find(ks, tok) == (if Dead(k) && j > i then j - 1 else j) && ks[Find(ks, tok)] == cs[j]
      else Find(ks, tok) == |ks|
  {
    hide DistinctTopics, FindFrom, Find;
    if Dead(k) {
      DropFind(cs, i, tok);
    } else {
      PutFind(cs, i, k, tok);
    }
  }

  lemma DropFind(cs: seq<Hier>, i: nat, tok: string)
    requires DistinctTopics(cs) && i < |cs|
    ensures var ks, j := cs[..i] + cs[i + 1..], Find(cs, tok);
      if tok == cs[i].topic then j == i && Find(ks, tok) == |ks|
      else if j < |cs| then j != i && Find(ks, tok) == (if j > i then j - 1 else j) && ks[Find(ks, tok)] == cs[j]
      else Find(ks, tok) == |ks|
  {
    hide FindFrom;
    var ks, j := cs[..i] + cs[i + 1..], Find(cs, tok);
    assert forall x :: 0 <= x < |ks| ==> ks[x] == cs[if x < i then x else x + 1];
    if tok == cs[i].topic {
      FindIs(cs, i);
      FindNone(ks, tok);
    } else if j < |cs| {
      FindIs(ks, if j > i then j - 1 else j);
    } else {
      FindNone(ks, tok);
    }
  }

  lemma PutFind(cs: seq<Hier>, i: nat, k: Hier, tok: string)
    requires DistinctTopics(cs) && i < |cs| && k.topic == cs[i].topic
    ensures var ks, j := cs[i := k], Find(cs, tok);
      && Find(ks, tok) == j && (tok == k.topic ==> j == i) && (j < |cs| && tok != k.topic ==> j != i && ks[j] == cs[j])
  {
    hide FindFrom;
    var ks, j := cs[i := k], Find(cs, tok);
    assert forall x :: 0 <= x < |ks| ==> ks[x].topic == cs[x].topic;
    if tok == k.topic {
      FindIs(cs, i);
      FindIs(ks, i);
    } else if j < |cs| {
      FindIs(ks, j);
    } else {
      FindNone(ks, tok);
    }
  }

  /** One level down. */
  lemma StepDown(h: Hier, p: Levels, c: string)
    requires p != [] && Find(h.children, p[0]) < |h.children|
    ensures var k := h.children[Find(h.children, p[0])];
      SubAt(h, p, c) == SubAt(k, p[1..], c) && RetAt(h, p) == RetAt(k, p[1..])
  {
  }

  lemma RemoveUnfolds(h: Hier, toks: Levels, d: string)
    requires toks != []
    ensures var i := Find(h.children, toks[0]);
      Remove(h, toks, d) ==
        if i == |h.children| then h
        else
          var k := Remove(h.children[i], toks[1..], d);
          h.(children := if Dead(k) then h.children[..i] + h.children[i + 1..] else h.children[i := k])
  {
  }

  lemma {:induction false} RemoveLookup(h: Hier, toks: Levels, d: string, p: Levels, c: string)
    requires WF(h)
    ensures SubAt(Remove(h, toks, d), p, c) == if p == toks && c == d then None else SubAt(h, p, c)
    ensures RetAt(Remove(h, toks, d), p) == RetAt(h, p)
    decreases |toks|
  {
    if toks == [] {
      DropLeafLookup(h.subs, d, c);
    } else {
      hide Remove, SubAt, RetAt, FindFrom, DistinctClients;
      var i := Find(h.children, toks[0]);
      if p != [] && p[0] == toks[0] && i < |h.children| {
        RemoveLookup(h.children[i], toks[1..], d, p[1..], c);
      }
      RemoveBelow(h, toks, d, p, c);
    }
  }

  /** What is found after a removal, if the same is known one level down. */
  lemma RemoveBelow(h: Hier, toks: Levels, d: string, p: Levels, c: string)
    requires toks != [] && DistinctTopics(h.children)
    requires var i := Find(h.children, toks[0]);
      p != [] && p[0] == toks[0] && i < |h.children| ==>
        var k := Remove(h.children[i], toks[1..], d);
        && SubAt(k, p[1..], c) == (if p[1..] == toks[1..] && c == d then None else SubAt(h.children[i], p[1..], c))
        && RetAt(k, p[1..]) == RetAt(h.children[i], p[1..])
    ensures SubAt(Remove(h, toks, d), p, c) == if p == toks && c == d then None else SubAt(h, p, c)
    ensures RetAt(Remove(h, toks, d), p) == RetAt(h, p)
  {
    hide Remove, SubAt, RetAt, FindFrom, Dead, DistinctTopics;
    RemoveUnfolds(h, toks, d);
    var i := Find(h.children, toks[0]);
    if i < |h.children| {
      SwapChild(h, i, Remove(h.children[i], toks[1..], d), p, c);
      if p != [] && p[0] == toks[0] {
        StepDown(h, p, c);
        assert p == [p[0]] + p[1..] && toks == [toks[0]] + toks[1..];
      }
    } else {
      NothingThere(h, toks, d);
    }
  }

  lemma NothingThere(h: Hier, toks: Levels, d: string)
    requires toks != [] && Find(h.children, toks[0]) == |h.children|
    ensures SubAt(h, toks, d).None?
  {
  }

  lemma {:induction false} RemoveKeepsWF(h: Hier, toks: Levels, d: string)
    requires WF(h)
    ensures WF(Remove(h, toks, d))
    ensures RetainsNothing(h) ==> RetainsNothing(Remove(h, toks, d))
    decreases |toks|
  {
    if toks == [] {
      DropLeafLookup(h.subs, d, d);
    } else {
      var i := Find(h.children, toks[0]);
      if i < |h.children| {
        RemoveKeepsWF(h.children[i], toks[1..], d);
        SwapChild(h, i, Remove(h.children[i], toks[1..], d), [], d);
      }
    }
  }

  lemma {:induction false} RemoveCounts(h: Hier, toks: Levels, d: string, m: Option<nat>)
    requires WF(h)
    ensures LeafCount(Remove(h, toks, d)) == LeafCount(h) - if SubAt(h, toks, d).Some? then 1 else 0
    ensures RetCount(Remove(h, toks, d), m) == RetCount(h, m)
    decreases |toks|
  {
    if toks == [] {
      assert NodeAt(h, toks) == Some(h);
    } else {
      hide Remove, SubAt, FindFrom, LeafCounts, RetCounts;
      RemoveUnfolds(h, toks, d);
      var i := Find(h.children, toks[0]);
      if i < |h.children| {
        var k := Remove(h.children[i], toks[1..], d);
        StepDown(h, toks, d);
        RemoveCounts(h.children[i], toks[1..], d, m);
        CountsUpdate(h.children, i, k, m);
        if Dead(k) {
          DeadHoldsNothing(k, [], d);
        }
      } else {
        NothingThere(h, toks, d);
      }
    }
  }

  // ----- clean session --------------------------------------------------------

  lemma {:induction false} CleanKeepsWF(h: Hier, d: string)
    requires WF(h)
    ensures WF(Clean(h, d))
    ensures RetainsNothing(h) ==> RetainsNothing(Clean(h, d))
    decreases h
  {
    DropClientIsDropLeaf(h.subs, d);
    DropLeafLookup(h.subs, d, d);
    CleanKidsKeepsWF(h.children, d);
  }

  lemma {:induction false} CleanKidsKeepsWF(ks: seq<Hier>, d: string)
    requires WFs(ks)
    ensures WFs(CleanKids(ks, d))
    ensures (forall k :: k in ks ==> RetainsNothing(k)) ==> forall k :: k in CleanKids(ks, d) ==> RetainsNothing(k)
    ensures forall k :: k in CleanKids(ks, d) ==> exists j :: 0 <= j < |ks| && ks[j].topic == k.topic
    decreases ks
  {
    hide WF, RetainsNothing, Dead;
    if ks != [] {
      CleanKeepsWF(ks[0], d);
      CleanKidsKeepsWF(ks[1..], d);
      var k, r := Clean(ks[0], d), CleanKids(ks[1..], d);
      forall x | x in r ensures x.topic != ks[0].topic && exists j :: 0 <= j < |ks| && ks[j].topic == x.topic {
        var j :| 0 <= j < |ks[1..]| && ks[1..][j].topic == x.topic;
        assert ks[j + 1].topic == x.topic;
      }
      InFrontIsWF(k, r);
      assert k.topic == ks[0].topic;
      assert Dead(k) ==> CleanKids(ks, d) == r;
      assert !Dead(k) ==> CleanKids(ks, d) == [k] + r;
    }
  }

  lemma InFrontIsWF(k: Hier, ks: seq<Hier>)
    requires WF(k) && WFs(ks) && forall x :: x in ks ==> x.topic != k.topic
    ensures WFs([k] + ks) && forall x :: x in [k] + ks ==> x == k || x in ks
  {
    hide WF;
    var all := [k] + ks;
    assert all[0] == k && forall j :: 1 <= j < |all| ==> all[j] == ks[j - 1];
    assert forall j :: 0 <= j < |ks| ==> ks[j] in ks;
  }

  lemma {:induction false} CleanLookup(h: Hier, d: string, p: Levels, c: string)
    requires WF(h)
    ensures SubAt(Clean(h, d), p, c) == if c == d then None else SubAt(h, p, c)
    ensures RetAt(Clean(h, d), p) == RetAt(h, p)
    decreases h, 1
  {
    if p == [] {
      DropClientIsDropLeaf(h.subs, d);
      DropLeafLookup(h.subs, d, c);
    } else {
      CleanKidsLookup(h.children, d, p, c);
    }
  }

  lemma {:induction false} CleanKidsLookup(ks: seq<Hier>, d: string, p: Levels, c: string)
    requires WFs(ks) && p != []
    ensures SubsOf(KidAt(CleanKids(ks, d), p), c) == if c == d then None else SubsOf(KidAt(ks, p), c)
    ensures RetainedOf(KidAt(CleanKids(ks, d), p)) == RetainedOf(KidAt(ks, p))
    decreases ks, 0
  {
    if ks != [] {
      CleanKidsFirst(ks, d, p);
      if p[0] == ks[0].topic {
        CleanLookup(ks[0], d, p[1..], c);
        if Dead(Clean(ks[0], d)) {
          DeadHoldsNothing(Clean(ks[0], d), p[1..], c);
        }
      } else {
        CleanKidsLookup(ks[1..], d, p, c);
      }
    }
  }

  /** Where a path goes in a cleaned child list: into the cleaned first child (or
      nowhere, if that was unlinked), or into the rest. */
  lemma CleanKidsFirst(ks: seq<Hier>, d: string, p: Levels)
    requires WFs(ks) && ks != [] && p != []
    ensures KidAt(ks, p) == if p[0] == ks[0].topic then NodeAt(ks[0], p[1..]) else KidAt(ks[1..], p)
    ensures KidAt(CleanKids(ks, d), p) ==
      if p[0] != ks[0].topic then KidAt(CleanKids(ks[1..], d), p)
      else if Dead(Clean(ks[0], d)) then None
      else NodeAt(Clean(ks[0], d), p[1..])
  {
    var k, rest := Clean(ks[0], d), CleanKids(ks[1..], d);
    CleanKidsKeepsWF(ks[1..], d);
    KidAtCons(ks[0], ks[1..], p);
    KidAtCons(k, rest, p);
    assert ks == [ks[0]] + ks[1..];
    assert CleanKids(ks, d) == if Dead(k) then rest else [k] + rest;
    if p[0] == ks[0].topic {
      FindNone(rest, p[0]);
    }
  }

  lemma KidAtCons(k: Hier, ks: seq<Hier>, p: Levels)
    requires p != []
    ensures KidAt([k] + ks, p) == if p[0] == k.topic then NodeAt(k, p[1..]) else KidAt(ks, p)
  {
    hide NodeAt, FindFrom;
    FindCons(k, ks, p[0]);
  }

  lemma FindCons(k: Hier, ks: seq<Hier>, t: string)
    ensures var all, j := [k] + ks, Find(ks, t);
      if t == k.topic then Find(all, t) == 0 && all[0] == k
      else Find(all, t) == j + 1 && (j < |ks| ==> all[j + 1] == ks[j])
  {
    hide FindFrom;
    var all, j := [k] + ks, Find(ks, t);
    assert all[0] == k && forall i :: 0 <= i < |ks| ==> all[i + 1] == ks[i];
    if t != k.topic && j < |ks| {
      assert all[j + 1].topic == t;
    }
  }

  lemma {:induction false} CleanKeepsRetained(h: Hier, d: string, m: Option<nat>)
    ensures RetCount(Clean(h, d), m) == RetCount(h, m)
    decreases h, 1
  {
    CleanKidsKeepRetained(h.children, d, m);
  }

  lemma {:induction false} CleanKidsKeepRetained(ks: seq<Hier>, d: string, m: Option<nat>)
    ensures RetCounts(CleanKids(ks, d), m) == RetCounts(ks, m)
    decreases ks, 0
  {
    if ks != [] {
      CleanKeepsRetained(ks[0], d, m);
      CleanKidsKeepRetained(ks[1..], d, m);
      var k := Clean(ks[0], d);
      if Dead(k) {
        DeadHoldsNothing(k, [], d);
        assert [] + CleanKids(ks[1..], d) == CleanKids(ks[1..], d);
      } else {
        assert ([k] + CleanKids(ks[1..], d))[1..] == CleanKids(ks[1..], d);
      }
    }
  }

  /** Something is stored in the subtree. */
  ghost predicate Live(h: Hier) {
    h.subs != [] || h.retained.Some? || exists k :: k in h.children && Live(k)
  }

  /** Every proper descendant leads to something stored. */
  ghost predicate Pruned(h: Hier) {
    forall k :: k in h.children ==> Live(k) && Pruned(k)
  }

  lemma {:induction false} CleanPrunes(h: Hier, d: string)
    ensures Pruned(Clean(h, d))
    ensures !Dead(Clean(h, d)) ==> Live(Clean(h, d))
    decreases h, 1
  {
    CleanKidsPrune(h.children, d);
    var r := Clean(h, d);
    if r.children != [] {
      assert r.children[0] in r.children;
    }
  }

  lemma {:induction false} CleanKidsPrune(ks: seq<Hier>, d: string)
    ensures forall k :: k in CleanKids(ks, d) ==> Live(k) && Pruned(k)
    decreases ks, 0
  {
    if ks != [] {
      CleanPrunes(ks[0], d);
      CleanKidsPrune(ks[1..], d);
    }
  }
}

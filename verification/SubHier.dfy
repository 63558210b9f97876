/** The subscription tree as subs.c keeps it: nodes linked in the heap and edited in
    place. Every method is proved against the value-level walk of Hierarchy. */
module SubHier {
  import opened Options
  import opened Topics
  import opened Hierarchy
  import opened HierarchyLaws
  import opened SubTree

  /** After a call that changed only the subtree of child `i`, the rest of the node's
      value is as before. */
  twostate lemma OneChildChanged(n: Node, new i: nat)
    requires old(n.Valid()) && i < |n.children|
    requires n.children == old(n.children) && n.subs == old(n.subs) && n.retained == old(n.retained)
    requires n.children[i].Valid() && fresh(n.children[i].repr - old(n.children[i].repr))
    requires n.repr == old(n.repr) + n.children[i].repr
    requires forall m :: m in old(n.repr) && m != n && m !in old(n.children[i].repr) ==> unchanged(m)
    ensures n.Valid()
    ensures n.Value() == old(n.Value()).(children := old(n.Value()).children[i := n.children[i].Value()])
  {
    forall j | 0 <= j < |n.children| && j != i
      ensures n.children[j].Valid() && n.children[j].repr == old(n.children[j].repr)
      ensures n.children[j].Value() == old(n.children[j].Value())
    {
      assert n.children[j].repr !! old(n.children[i].repr);
      assert forall m :: m in old(n.children[j].repr) ==> unchanged(m);
    }
    assert n.Valid();
    assert n.Value().children == old(n.Value()).children[i := n.children[i].Value()];
  }

  /** A fresh child linked at the end. */
  twostate lemma ChildAppended(n: Node, new k: Node)
    requires old(n.Valid())
    requires n.children == old(n.children) + [k] && n.subs == old(n.subs) && n.retained == old(n.retained)
    requires k.Valid() && fresh(k.repr) && n.repr == old(n.repr) + k.repr
    requires forall m :: m in old(n.repr) && m != n ==> unchanged(m)
    ensures n.Valid()
    ensures n.Value() == old(n.Value()).(children := old(n.Value()).children + [k.Value()])
  {
    forall j | 0 <= j < |old(n.children)|
      ensures n.children[j] == old(n.children)[j] && n.children[j].Valid()
      ensures n.children[j].repr == old(n.children[j].repr)
      ensures n.children[j].Value() == old(n.children[j].Value())
    {
      assert forall m :: m in old(n.children[j].repr) ==> unchanged(m);
    }
    assert n.Valid();
    assert n.Value().children == old(n.Value()).children + [k.Value()];
  }

  /** A fresh child linked in front. */
  twostate lemma ChildInFront(n: Node, new k: Node)
    requires old(n.Valid())
    requires n.children == [k] + old(n.children) && n.subs == old(n.subs) && n.retained == old(n.retained)
    requires k.Valid() && fresh(k.repr) && n.repr == old(n.repr) + k.repr
    requires forall m :: m in old(n.repr) && m != n ==> unchanged(m)
    ensures n.Valid()
    ensures n.Value() == old(n.Value()).(children := [k.Value()] + old(n.Value()).children)
  {
    forall j | 1 <= j < |n.children|
      ensures n.children[j] == old(n.children)[j - 1] && n.children[j].Valid()
      ensures n.children[j].repr == old(n.children[j - 1].repr)
      ensures n.children[j].Value() == old(n.children[j - 1].Value())
    {
      var o := old(n.children)[j - 1];
      assert forall m :: m in old(o.repr) ==> unchanged(m);
    }
    assert n.children[0] == k;
    assert n.Valid();
    var v, w := n.Value().children, [k.Value()] + old(n.Value()).children;
    assert forall j :: 0 <= j < |v| ==> v[j] == w[j];
    assert v == w;
  }

  /** A child unlinked. */
  twostate lemma ChildDropped(n: Node, new i: nat)
    requires old(n.Valid()) && i < |old(n.children)|
    requires n.children == old(n.children)[..i] + old(n.children)[i + 1..]
    requires n.subs == old(n.subs) && n.retained == old(n.retained) && n.repr == old(n.repr)
    requires forall m :: m in old(n.repr) && m != n ==> unchanged(m)
    ensures n.Valid()
    ensures n.Value() == old(n.Value()).(children := old(n.Value()).children[..i] + old(n.Value()).children[i + 1..])
  {
    forall j | 0 <= j < |old(n.children)|
      ensures old(n.children)[j].Valid() && old(n.children)[j].repr == old(n.children[j].repr)
      ensures old(n.children)[j].Value() == old(n.children[j].Value())
    {
      assert forall m :: m in old(n.children[j].repr) ==> unchanged(m);
    }
    assert forall j :: 0 <= j < |n.children| ==> n.children[j] == old(n.children)[if j < i then j else j + 1];
    assert n.Valid();
    assert n.Value().children == old(n.Value()).children[..i] + old(n.Value()).children[i + 1..];
  }

  /** Linking the missing child first and then adding below it is what Add does. */
  lemma AddByLinking(h: Hier, tokens: Levels, who: Option<Leaf>, i: nat, mid: Hier)
    requires tokens != [] && i == Find(h.children, tokens[0])
    requires mid == h.(children := if i < |h.children| then h.children else h.children + [Fresh(tokens[0])])
    ensures Hierarchy.Add(h, tokens, who) ==
      mid.(children := mid.children[i := Hierarchy.Add(mid.children[i], tokens[1..], who)])
    ensures forall c :: SubAt(h, tokens, c) == SubAt(mid.children[i], tokens[1..], c)
  {
    if i == |h.children| {
      assert mid.children[i := Hierarchy.Add(Fresh(tokens[0]), tokens[1..], who)] ==
        h.children + [Hierarchy.Add(Fresh(tokens[0]), tokens[1..], who)];
      forall c ensures SubAt(h, tokens, c) == SubAt(mid.children[i], tokens[1..], c) {
        FreshHoldsNothing(tokens[0], tokens[1..], c);
      }
    }
  }

  /** The child list after the pruning loop has dealt with child `i`. */
  function Pruned1(was: seq<Hier>, i: nat, k: Hier): seq<Hier>
    requires i < |was|
  {
    if Dead(k) then was[..i] + was[i + 1..] else was[i := k]
  }

  /** Removing below child `i` and then pruning it is what Remove does. */
  lemma RemoveByPruning(h: Hier, tokens: Levels, client: string)
    requires tokens != []
    ensures var i := Find(h.children, tokens[0]);
      if i == |h.children| then Hierarchy.Remove(h, tokens, client) == h && SubAt(h, tokens, client).None?
      else
        var k := Hierarchy.Remove(h.children[i], tokens[1..], client);
        var mid := h.(children := h.children[i := k]);
        && SubAt(h, tokens, client) == SubAt(h.children[i], tokens[1..], client)
        && Hierarchy.Remove(h, tokens, client) ==
             if Dead(k) then mid.(children := mid.children[..i] + mid.children[i + 1..]) else mid
  {
    var i, cs := Find(h.children, tokens[0]), h.children;
    if i < |cs| {
      var k := Hierarchy.Remove(cs[i], tokens[1..], client);
      assert cs[i := k][..i] + cs[i := k][i + 1..] == cs[..i] + cs[i + 1..];
    }
  }

  lemma CleanOneMore(was: seq<Hier>, i: nat, k: Hier, client: string)
    requires i < |was| && k == Hierarchy.Clean(was[i], client)
    ensures var now, next := Pruned1(was, i, k), if Dead(k) then i else i + 1;
      was[..i] + CleanKids(was[i..], client) == now[..next] + CleanKids(now[next..], client)
  {
    var rest := was[i + 1..];
    var now := Pruned1(was, i, k);
    assert was[i..][0] == was[i] && was[i..][1..] == rest;
    if Dead(k) {
      assert now[..i] == was[..i] && now[i..] == rest;
      assert was[..i] + ([] + CleanKids(rest, client)) == was[..i] + CleanKids(rest, client);
    } else {
      assert now[..i + 1] == was[..i] + [k] && now[i + 1..] == rest;
      assert was[..i] + ([k] + CleanKids(rest, client)) == was[..i] + [k] + CleanKids(rest, client);
    }
  }

  lemma CleanOneMoreCount(was: seq<Hier>, i: nat, k: Hier)
    requires i < |was|
    ensures LeafCounts(Pruned1(was, i, k)) == LeafCounts(was) - LeafCount(was[i]) + LeafCount(k)
  {
    CountsUpdate(was, i, k, None);
    if Dead(k) {
      DeadHoldsNothing(k, [], "");
    }
  }

  lemma DropOneMore(was: seq<Leaf>, i: nat, client: string)
    requires i < |was|
    ensures var dropped := was[..i] + was[i + 1..];
      was[..i] + DropClient(was[i..], client) ==
        if was[i].client == client then dropped[..i] + DropClient(dropped[i..], client)
        else was[..i + 1] + DropClient(was[i + 1..], client)
  {
    var rest := was[i + 1..];
    var dropped := was[..i] + rest;
    assert was[i..][0] == was[i] && was[i..][1..] == rest;
    assert dropped[..i] == was[..i] && dropped[i..] == rest;
    assert was[..i] + ([was[i]] + DropClient(rest, client)) == was[..i + 1] + DropClient(rest, client);
  }

  /** The tree after a publish: unchanged without the retain flag. */
  ghost function AfterKids(ks: seq<Hier>, toks: Levels, sr: bool, upd: Option<Option<nat>>): seq<Hier> {
    if upd.Some? then Retains(ks, toks, sr, upd.value) else ks
  }

  ghost function AfterOne(b: Hier, toks: Levels, sr: bool, upd: Option<Option<nat>>): Hier {
    if upd.Some? then Retain(b, toks, sr, upd.value) else b
  }

  ghost function After(h: Hier, toks: Levels, sr: bool, upd: Option<Option<nat>>): Hier {
    h.(children := AfterKids(h.children, toks, sr, upd))
  }

  lemma VisitOneMore(done: seq<At<Stop>>, vs: seq<At<Stop>>, kids: seq<Hier>, i: nat, toks: Levels, sr: bool)
    requires i < |kids| && vs == Visit(kids[i], toks, sr)
    ensures done + Visits(kids[i..], toks, sr) == done + vs + Visits(kids[i + 1..], toks, sr)
  {
    assert kids[i..][0] == kids[i] && kids[i..][1..] == kids[i + 1..];
    assert done + (vs + Visits(kids[i + 1..], toks, sr)) == done + vs + Visits(kids[i + 1..], toks, sr);
  }

  lemma SearchStep(was: seq<Hier>, i: nat, k: Hier, kids: seq<Hier>, toks: Levels, sr: bool, upd: Option<Option<nat>>)
    requires |was| == |kids| && i < |was| && was[i..] == kids[i..] && k == AfterOne(was[i], toks, sr, upd)
    ensures was[i] == kids[i] && was[i := k][i + 1..] == kids[i + 1..]
    ensures was[i := k][..i + 1] + AfterKids(kids[i + 1..], toks, sr, upd) ==
      was[..i] + AfterKids(kids[i..], toks, sr, upd)
  {
    SameTail(was, i, k, kids);
    AfterCons(kids, i, toks, sr, upd);
    SpliceOne(was, i, k, AfterKids(kids[i + 1..], toks, sr, upd));
  }

  lemma SearchDone(kids: seq<Hier>, i: nat, toks: Levels, sr: bool, upd: Option<Option<nat>>)
    requires i == |kids|
    ensures Visits(kids[i..], toks, sr) == [] && AfterKids(kids[i..], toks, sr, upd) == []
  {
  }

  lemma SpliceOne<T>(was: seq<T>, i: nat, k: T, rest: seq<T>)
    requires i < |was|
    ensures was[i := k][..i + 1] + rest == was[..i] + ([k] + rest)
  {
    assert was[i := k][..i + 1] == was[..i] + [k];
  }

  lemma SameTail<T>(was: seq<T>, i: nat, k: T, kids: seq<T>)
    requires |was| == |kids| && i < |was| && was[i..] == kids[i..]
    ensures was[i] == kids[i] && was[i := k][i + 1..] == kids[i + 1..]
  {
    assert was[i..][0] == kids[i..][0];
    assert was[i := k][i + 1..] == was[i..][1..] && kids[i + 1..] == kids[i..][1..];
  }

  lemma AfterCons(kids: seq<Hier>, i: nat, toks: Levels, sr: bool, upd: Option<Option<nat>>)
    requires i < |kids|
    ensures AfterKids(kids[i..], toks, sr, upd) ==
      [AfterOne(kids[i], toks, sr, upd)] + AfterKids(kids[i + 1..], toks, sr, upd)
  {
    assert kids[i..][0] == kids[i] && kids[i..][1..] == kids[i + 1..];
    assert kids[i..] == [kids[i]] + kids[i + 1..];
  }

  class Node {
    const topic: string
    var subs: seq<Leaf>
    var retained: Option<nat>
    var children: seq<Node>
    ghost var repr: set<Node>

    ghost predicate Valid()
      reads this, repr
      decreases repr
    {
      && this in repr
      && (forall i :: 0 <= i < |children| ==>
            && children[i] in repr && children[i].repr <= repr && this !in children[i].repr
            && children[i].Valid())
      && (forall i, j :: 0 <= i < j < |children| ==> children[i].repr !! children[j].repr)
    }

    /** The subtree as a value. */
    ghost function Value(): (h: Hier)
      requires Valid()
      reads this, repr
      ensures h.topic == topic && h.subs == subs && h.retained == retained && |h.children| == |children|
      ensures forall i :: 0 <= i < |children| ==>
        h.children[i] == children[i].Value() && h.children[i].topic == children[i].topic
      decreases repr
    {
      Hier(topic, subs, retained,
           seq(|children|, i requires 0 <= i < |children| && Valid() reads this, repr => children[i].Value()))
    }

    constructor (topic: string)
      ensures this.topic == topic && Valid() && fresh(repr) && Value() == Fresh(topic)
    {
      this.topic := topic;
      subs := [];
      retained := None;
      children := [];
      repr := {this};
    }

    method FindChild(tok: string) returns (i: nat)
      requires Valid()
      ensures i == Find(Value().children, tok)
    {
      i := 0;
      while i < |children| && children[i].topic != tok
        invariant i <= |children|
        invariant forall j :: 0 <= j < i ==> Value().children[j].topic != tok
      {
        i := i + 1;
      }
    }

    /** `_sub_add`. `isNew` tells whether `subscription_count` goes up. */
    method Add(tokens: Levels, who: Option<Leaf>) returns (isNew: bool)
      requires Valid()
      modifies repr
      ensures Valid() && fresh(repr - old(repr))
      ensures Value() == Hierarchy.Add(old(Value()), tokens, who)
      ensures isNew <==> who.Some? && SubAt(old(Value()), tokens, who.value.client).None?
      decreases |tokens|, 1
    {
      if tokens == [] {
        isNew := false;
        if who.Some? {
          isNew := PutSubscriber(who.value);
        }
      } else {
        isNew := AddBelow(tokens, who);
      }
    }

    method AddBelow(tokens: Levels, who: Option<Leaf>) returns (isNew: bool)
      requires Valid() && tokens != []
      modifies repr
      ensures Valid() && fresh(repr - old(repr))
      ensures Value() == Hierarchy.Add(old(Value()), tokens, who)
      ensures isNew <==> who.Some? && SubAt(old(Value()), tokens, who.value.client).None?
      decreases |tokens|, 0
    {
      hide Hierarchy.Add, NodeAt;
      var i := FindOrLink(tokens[0]);
      AddByLinking(old(Value()), tokens, who, i, Value());
      isNew := AddTo(i, tokens[1..], who);
    }

    /** The child for a token, linked at the end if there is none. */
    method FindOrLink(tok: string) returns (i: nat)
      requires Valid()
      modifies this
      ensures Valid() && fresh(repr - old(repr)) && i == Find(old(Value()).children, tok) < |children|
      ensures Value() == old(Value()).(children :=
        if i < |old(children)| then old(Value()).children else old(Value()).children + [Fresh(tok)])
    {
      i := FindChild(tok);
      if i == |children| {
        var branch := new Node(tok);
        children := children + [branch];
        repr := repr + branch.repr;
        ChildAppended(this, branch);
      }
    }

    /** The leaf list: a second subscription of a client only changes the QoS. */
    method PutSubscriber(l: Leaf) returns (isNew: bool)
      requires Valid()
      modifies this`subs
      ensures Valid() && Value() == old(Value()).(subs := PutLeaf(old(subs), l))
      ensures isNew <==> QosOf(old(subs), l.client).None?
    {
      var i := 0;
      while i < |subs|
        invariant 0 <= i <= |subs| && subs == old(subs)
        invariant forall j :: 0 <= j < i ==> subs[j].client != l.client
      {
        if subs[i].client == l.client {
          subs := subs[i := l];
          return false;
        }
        i := i + 1;
      }
      subs := subs + [l];
      return true;
    }

    predicate IsDead()
      reads this
    {
      children == [] && subs == [] && retained.None?
    }

    /** `_sub_remove` */
    method Remove(tokens: Levels, client: string) returns (removed: bool)
      requires Valid()
      modifies repr
      ensures Valid() && repr == old(repr)
      ensures Value() == Hierarchy.Remove(old(Value()), tokens, client)
      ensures removed <==> SubAt(old(Value()), tokens, client).Some?
      decreases |tokens|, 1
    {
      if tokens == [] {
        removed := DropSubscriber(client);
      } else {
        removed := RemoveBelow(tokens, client);
      }
    }

    method RemoveBelow(tokens: Levels, client: string) returns (removed: bool)
      requires Valid() && tokens != []
      modifies repr
      ensures Valid() && repr == old(repr)
      ensures Value() == Hierarchy.Remove(old(Value()), tokens, client)
      ensures removed <==> SubAt(old(Value()), tokens, client).Some?
      decreases |tokens|, 0
    {
      hide Hierarchy.Remove, NodeAt;
      var i := FindChild(tokens[0]);
      RemoveByPruning(Value(), tokens, client);
      removed := false;
      if i < |children| {
        removed := RemoveFrom(i, tokens[1..], client);
        var _ := Prune(i);
      }
    }

    /** Unlink child `i` if it holds nothing and leads nowhere. */
    method Prune(i: nat) returns (pruned: bool)
      requires Valid() && i < |children|
      modifies this`children
      ensures Valid() && repr == old(repr) && old(children[i]).Valid()
      ensures old(children[i]).Value() == old(children[i].Value())
      ensures pruned <==> Dead(old(Value()).children[i])
      ensures Value() == if pruned
        then old(Value()).(children := old(Value()).children[..i] + old(Value()).children[i + 1..])
        else old(Value())
    {
      pruned := children[i].IsDead();
      if pruned {
        children := children[..i] + children[i + 1..];
        ChildDropped(this, i);
      }
    }

    method DropSubscriber(client: string) returns (removed: bool)
      requires Valid()
      modifies this`subs
      ensures Valid() && Value() == old(Value()).(subs := DropLeaf(old(subs), client))
      ensures removed <==> QosOf(old(subs), client).Some?
    {
      var i := 0;
      while i < |subs|
        invariant 0 <= i <= |subs| && subs == old(subs)
        invariant forall j :: 0 <= j < i ==> subs[j].client != client
      {
        if subs[i].client == client {
          subs := subs[..i] + subs[i + 1..];
          return true;
        }
        i := i + 1;
      }
      return false;
    }

    /** `_subs_clean_session`; `removed` is what `subscription_count` loses. */
    method Clean(client: string) returns (removed: nat)
      requires Valid()
      modifies repr
      ensures Valid() && repr == old(repr)
      ensures Value() == Hierarchy.Clean(old(Value()), client)
      ensures removed == LeafCount(old(Value())) - LeafCount(Value())
      decreases repr
    {
      removed := DropAllOf(client);
      ghost var kids := Value().children;
      var i := 0;
      while i < |children|
        invariant Valid() && repr == old(repr) && i <= |children|
        invariant subs == DropClient(old(subs), client) && retained == old(retained)
        invariant Value().children[..i] + CleanKids(Value().children[i..], client) == CleanKids(kids, client)
        invariant removed == |old(subs)| - |subs| + LeafCounts(kids) - LeafCounts(Value().children)
        decreases |children| - i
      {
        label before:
        ghost var was := Value().children;
        var child := children[i];
        var r := child.Clean(client);
        OneChildChanged@before(this, i);
        ghost var k := child.Value();
        var pruned := Prune(i);
        removed := removed + r;
        CleanOneMore(was, i, k, client);
        CleanOneMoreCount(was, i, k);
        assert was[i := k][..i] + was[i := k][i + 1..] == was[..i] + was[i + 1..];
        if !pruned {
          i := i + 1;
        }
      }
      assert Value().children[..i] == Value().children && Value().children[i..] == [];
    }

    method DropAllOf(client: string) returns (removed: nat)
      requires Valid()
      modifies this`subs
      ensures Valid() && Value() == old(Value()).(subs := DropClient(old(subs), client))
      ensures removed == |old(subs)| - |subs|
    {
      removed := 0;
      var i := 0;
      while i < |subs|
        invariant 0 <= i <= |subs|
        invariant subs[..i] + DropClient(subs[i..], client) == DropClient(old(subs), client)
        invariant removed == |old(subs)| - |subs|
        decreases |subs| - i
      {
        DropOneMore(subs, i, client);
        if subs[i].client == client {
          subs := subs[..i] + subs[i + 1..];
          removed := removed + 1;
        } else {
          i := i + 1;
        }
      }
      assert subs[..i] == subs && subs[i..] == [];
    }

    /** `_sub_search` over the children, with `_subs_process` storing or clearing the
        retained message. `upd` is `None` for a message without the retain flag. */
    method Search(tokens: Levels, setRetain: bool, upd: Option<Option<nat>>) returns (visits: seq<At<Stop>>, kept: int)
      requires Valid()
      modifies repr
      ensures Valid() && repr == old(repr)
      ensures visits == Visits(old(Value()).children, tokens, setRetain)
      ensures Value() == After(old(Value()), tokens, setRetain, upd)
      ensures kept == RetCounts(Value().children, None) - RetCounts(old(Value()).children, None)
      decreases repr, 1
    {
      hide Visits, RetCounts, Visit, AfterKids, AfterOne;
      visits, kept := [], 0;
      ghost var kids := Value().children;
      var i := 0;
      while i < |children|
        invariant Valid() && repr == old(repr) && i <= |children| && children == old(children)
        invariant subs == old(subs) && retained == old(retained)
        invariant visits + Visits(kids[i..], tokens, setRetain) == Visits(kids, tokens, setRetain)
        invariant Value().children[i..] == kids[i..]
        invariant Value().children[..i] + AfterKids(kids[i..], tokens, setRetain, upd) ==
          AfterKids(kids, tokens, setRetain, upd)
        invariant kept == RetCounts(Value().children, None) - RetCounts(kids, None)
      {
        ghost var was := Value().children;
        var vs, d := SearchAt(i, tokens, setRetain, upd);
        VisitOneMore(visits, vs, kids, i, tokens, setRetain);
        SearchStep(was, i, Value().children[i], kids, tokens, setRetain, upd);
        visits := visits + vs;
        kept := kept + d;
        i := i + 1;
      }
      SearchDone(kids, i, tokens, setRetain, upd);
      assert Value().children[..i] == Value().children;
    }

    method SearchAt(i: nat, tokens: Levels, setRetain: bool, upd: Option<Option<nat>>)
      returns (visits: seq<At<Stop>>, kept: int)
      requires Valid() && i < |children|
      modifies repr
      ensures Valid() && repr == old(repr) && children == old(children)
      ensures visits == Visit(old(Value()).children[i], tokens, setRetain)
      ensures Value() ==
        old(Value()).(children :=
          old(Value()).children[i := AfterOne(old(Value()).children[i], tokens, setRetain, upd)])
      ensures kept == RetCounts(Value().children, None) - RetCounts(old(Value()).children, None)
      decreases repr, 0
    {
      hide Visit, AfterOne;
      visits, kept := children[i].SearchBranch(tokens, setRetain, upd);
      OneChildChanged(this, i);
      CountsUpdate(old(Value()).children, i, Value().children[i], None);
    }

    /** The body of that loop for one child. */
    method SearchBranch(tokens: Levels, setRetain: bool, upd: Option<Option<nat>>)
      returns (visits: seq<At<Stop>>, kept: int)
      requires Valid()
      modifies repr
      ensures Valid() && repr == old(repr)
      ensures visits == Visit(old(Value()), tokens, setRetain)
      ensures Value() == AfterOne(old(Value()), tokens, setRetain, upd)
      ensures kept == RetCount(Value(), None) - RetCount(old(Value()), None)
      decreases repr, 3
    {
      visits, kept := [], 0;
      if tokens != [] && (topic == tokens[0] || topic == "+") {
        var sr := setRetain && topic != "+";
        visits, kept := SearchInto(tokens, sr, upd);
      } else if topic == "#" && children == [] {
        visits := [At(["#"], Stop(subs, false))];
      }
    }

    method SearchInto(tokens: Levels, sr: bool, upd: Option<Option<nat>>) returns (visits: seq<At<Stop>>, kept: int)
      requires Valid() && tokens != []
      modifies repr
      ensures Valid() && repr == old(repr)
      ensures visits == Prefix(topic, Visits(old(Value()).children, tokens[1..], sr)) +
        (if |tokens| == 1 then [At([topic], Stop(old(subs), sr))] else [])
      ensures Value() == old(Value()).(children := AfterKids(old(Value()).children, tokens[1..], sr, upd),
        retained := if |tokens| == 1 && sr && upd.Some? then upd.value else old(retained))
      ensures kept == RetCount(Value(), None) - RetCount(old(Value()), None)
      decreases repr, 2
    {
      visits, kept := Search(tokens[1..], sr, upd);
      visits := Prefix(topic, visits);
      if |tokens| == 1 {
        var d := Process(sr, upd);
        kept := kept + d;
        visits := visits + [At([topic], Stop(subs, sr))];
      }
    }

    /** The retain part of `_subs_process`, with the change of `retained_count`. */
    method Process(sr: bool, upd: Option<Option<nat>>) returns (kept: int)
      requires Valid()
      modifies this`retained
      ensures Valid()
      ensures Value() == old(Value()).(retained := if sr && upd.Some? then upd.value else old(retained))
      ensures kept == Keeps(retained, None) - Keeps(old(retained), None)
    {
      kept := 0;
      if upd.Some? && sr {
        if retained.Some? {
          kept := kept - 1;
        }
        retained := upd.value;
        if upd.value.Some? {
          kept := kept + 1;
        }
      }
      assert Value().children == old(Value()).children;
    }

    /** `_retain_search`; `found` is the -1 it returns. */
    method RetainSearch(tokens: Levels, level: nat) returns (found: bool, queued: seq<At<nat>>)
      requires Valid() && tokens != []
      ensures queued == Recall(Value().children, tokens, level)
      ensures found <==> tokens == ["#"] && children != []
      decreases repr, 0
    {
      found, queued := false, [];
      ghost var kids := Value().children;
      var i := 0;
      while i < |children|
        invariant i <= |children|
        invariant queued + Recall(kids[i..], tokens, level) == Recall(kids, tokens, level)
        invariant found <==> tokens == ["#"] && i > 0
      {
        assert kids[i..][0] == kids[i] && kids[i..][1..] == kids[i + 1..];
        var q := children[i].RetainSearchBranch(i == |children| - 1, tokens, level);
        assert queued + (q + Recall(kids[i + 1..], tokens, level)) == queued + q + Recall(kids[i + 1..], tokens, level);
        queued := queued + q;
        if tokens == ["#"] {
          found := true;
        }
        i := i + 1;
      }
      assert kids[i..] == [];
    }

    method RetainSearchBranch(last: bool, tokens: Levels, level: nat) returns (queued: seq<At<nat>>)
      requires Valid() && tokens != []
      ensures queued == RecallOne(Value(), last, tokens, level)
      decreases repr, 1
    {
      queued := [];
      if tokens[0] == "#" && |tokens| == 1 {
        assert tokens == ["#"];
        queued := Own(Flat());
        if children != [] {
          var _, q := RetainSearch(tokens, level + 1);
          queued := queued + Prefix(topic, q);
        }
      } else if topic != "+" && (topic == tokens[0] || tokens[0] == "+") {
        if |tokens| > 1 {
          var found, q := RetainSearch(tokens[1..], level + 1);
          queued := Prefix(topic, q);
          if found || (last && tokens[1] == "#" && level > 0) {
            queued := queued + Own(Flat());
          }
        } else {
          queued := Own(Flat());
        }
      }
    }

    /** The node's own fields. */
    function Flat(): Hier
      reads this
    {
      Hier(topic, subs, retained, [])
    }

    // ----- steps taken at the root --------------------------------------------

    method LinkInFront(tok: string)
      requires Valid()
      modifies this
      ensures Valid() && fresh(repr - old(repr)) && |children| > 0
      ensures Value() == old(Value()).(children := [Fresh(tok)] + old(Value()).children)
    {
      var child := new Node(tok);
      children := [child] + children;
      repr := repr + child.repr;
      ChildInFront(this, child);
    }

    method AddTo(i: nat, tokens: Levels, who: Option<Leaf>) returns (isNew: bool)
      requires Valid() && i < |children|
      modifies repr
      ensures Valid() && fresh(repr - old(repr)) && children == old(children)
      ensures Value() ==
        old(Value()).(children := old(Value()).children[i := Hierarchy.Add(old(Value()).children[i], tokens, who)])
      ensures isNew <==> who.Some? && SubAt(old(Value()).children[i], tokens, who.value.client).None?
      decreases |tokens|, 2
    {
      var child := children[i];
      isNew := child.Add(tokens, who);
      repr := repr + child.repr;
      OneChildChanged(this, i);
    }

    method RemoveFrom(i: nat, tokens: Levels, client: string) returns (removed: bool)
      requires Valid() && i < |children|
      modifies repr
      ensures Valid() && repr == old(repr)
      ensures Value() ==
        old(Value()).(children :=
          old(Value()).children[i := Hierarchy.Remove(old(Value()).children[i], tokens, client)])
      ensures children == old(children)
      ensures removed <==> SubAt(old(Value()).children[i], tokens, client).Some?
      decreases |tokens|, 2
    {
      removed := children[i].Remove(tokens, client);
      OneChildChanged(this, i);
    }

    method CleanTops(client: string) returns (removed: nat)
      requires Valid()
      modifies repr
      ensures Valid() && repr == old(repr)
      ensures Value() == old(Value()).(children := SubTree.CleanTops(old(Value()).children, client))
      ensures removed == LeafCount(old(Value())) - LeafCount(Value())
    {
      removed := 0;
      ghost var kids := Value().children;
      var i := 0;
      while i < |children|
        invariant Valid() && repr == old(repr) && i <= |children| && children == old(children)
        invariant subs == old(subs) && retained == old(retained)
        invariant Value().children[i..] == kids[i..]
        invariant Value().children[..i] + SubTree.CleanTops(kids[i..], client) == SubTree.CleanTops(kids, client)
        invariant removed == LeafCounts(kids) - LeafCounts(Value().children)
      {
        label before:
        ghost var was := Value().children;
        var child := children[i];
        var r := child.Clean(client);
        OneChildChanged@before(this, i);
        SameTail(was, i, child.Value(), kids);
        SpliceOne(was, i, child.Value(), SubTree.CleanTops(kids[i + 1..], client));
        assert kids[i..][0] == kids[i] && kids[i..][1..] == kids[i + 1..];
        CountsUpdate(was, i, child.Value(), None);
        removed := removed + r;
        i := i + 1;
      }
      assert Value().children[..i] == Value().children && kids[i..] == [];
    }

    method SearchFrom(i: nat, tokens: Levels, upd: Option<Option<nat>>) returns (visits: seq<At<Stop>>, kept: int)
      requires Valid() && i < |children|
      modifies repr
      ensures Valid() && repr == old(repr) && children == old(children)
      ensures visits == Visits(old(Value()).children[i].children, tokens, true)
      ensures Value() ==
        old(Value()).(children := old(Value()).children[i := After(old(Value()).children[i], tokens, true, upd)])
      ensures kept ==
        RetCount(After(old(Value()).children[i], tokens, true, upd), None) - RetCount(old(Value()).children[i], None)
    {
      visits, kept := children[i].Search(tokens, true, upd);
      OneChildChanged(this, i);
    }
  }

  // ----- the root ---------------------------------------------------------------

  /** Unsubscribing in terms of the tokens and of the chosen top. */
  ghost function RemoveToks(s: Subs, toks: Levels, client: string): Subs
    requires toks != []
  {
    var i := Find(s.root.children, toks[0]);
    if i == |s.root.children| then s
    else Subs(s.root.(children := s.root.children[i := Hierarchy.Remove(s.root.children[i], toks, client)]),
              s.subscriptionCount - (if SubAt(s.root.children[i], toks, client).Some? then 1 else 0), s.retainedCount)
  }

  lemma SubRemoveUnfolds(s: Subs, sub: string, client: string)
    ensures SubTree.SubRemove(s, sub, client) == RemoveToks(s, Tokens(sub), client)
  {
    TopHolds(s, Tokens(sub));
  }

  ghost function AddToks(s: Subs, toks: Levels, l: Leaf): Subs
    requires toks != []
  {
    var i := Find(s.root.children, toks[0]);
    var linked := if i < |s.root.children| then s.root.children else [Fresh(toks[0])] + s.root.children;
    var j := if i < |s.root.children| then i else 0;
    Subs(s.root.(children := linked[j := Hierarchy.Add(linked[j], toks, Some(l))]),
         s.subscriptionCount + (if SubAt(linked[j], toks, l.client).None? then 1 else 0), s.retainedCount)
  }

  lemma SubAddUnfolds(s: Subs, sub: string, l: Leaf)
    ensures SubTree.SubAdd(s, sub, l) == AddToks(s, Tokens(sub), l)
  {
    var toks := Tokens(sub);
    TopHolds(s, toks);
    assert SubAt(TopFor(s, toks[0]), toks, l.client) == SubOf(s, toks, l.client);
    var tops, k := s.root.children, Hierarchy.Add(Fresh(toks[0]), toks, Some(l));
    assert ([Fresh(toks[0])] + tops)[0 := k] == [k] + tops;
  }

  /** The tree after a publish to topic tokens below top `i`. */
  ghost function PublishTop(top: Hier, toks: Levels, upd: Option<Option<nat>>): Hier {
    After(if upd.Some? then Hierarchy.Add(top, toks, None) else top, toks, true, upd)
  }

  ghost function Published(s: Subs, topic: string, upd: Option<Option<nat>>): Subs {
    if upd.Some? then RetainPublish(s, topic, upd.value) else s
  }

  ghost function PublishToks(s: Subs, toks: Levels, upd: Option<Option<nat>>): Subs
    requires toks != []
  {
    var tops := s.root.children;
    var i := Find(tops, toks[0]);
    if i == |tops| then s
    else
      var top := PublishTop(tops[i], toks, upd);
      Subs(s.root.(children := tops[i := top]), s.subscriptionCount,
           s.retainedCount + RetCount(top, None) - RetCount(tops[i], None))
  }

  ghost function RouteToks(s: Subs, toks: Levels, retain: bool): seq<At<Stop>>
    requires toks != []
  {
    var tops := s.root.children;
    var i := Find(tops, toks[0]);
    if i == |tops| then []
    else Visits((if retain then Hierarchy.Add(tops[i], toks, None) else tops[i]).children, toks, true)
  }

  /** With no top of that name nothing is met, and nothing changes. */
  lemma NoTopMet(s: Subs, toks: Levels, retain: bool, upd: Option<Option<nat>>)
    requires toks != [] && Find(s.root.children, toks[0]) == |s.root.children|
    ensures PublishToks(s, toks, upd) == s && RouteToks(s, toks, retain) == []
  {
  }

  lemma PublishedUnfolds(s: Subs, topic: string, upd: Option<Option<nat>>)
    requires Valid(s) && PlainLevels(Split(topic))
    ensures Published(s, topic, upd) == PublishToks(s, Tokens(topic), upd)
  {
    var toks, tops := Tokens(topic), s.root.children;
    var i := Find(tops, toks[0]);
    if i < |tops| && upd.Some? {
      TokensLevels(topic);
      TopHolds(s, toks);
      RetainTopCounts(tops[i], toks, upd.value, None);
    } else if i < |tops| {
      assert PublishTop(tops[i], toks, upd) == tops[i];
      assert tops[i := tops[i]] == tops;
    }
  }

  lemma RouteUnfolds(s: Subs, topic: string, retain: bool)
    ensures Route(if retain then MakePath(s, topic) else s, topic) == RouteToks(s, Tokens(topic), retain)
  {
    var toks, tops := Tokens(topic), s.root.children;
    var i := Find(tops, toks[0]);
    if i < |tops| && retain {
      var k := Hierarchy.Add(tops[i], toks, None);
      assert tops[i := k][i] == k && forall j :: 0 <= j < i ==> tops[i := k][j] == tops[j];
      assert Find(tops[i := k], toks[0]) == i;
    }
  }

  /** `db->subs` and its counters. */
  class Tree {
    var root: Node
    var subscriptionCount: int
    var retainedCount: int

    ghost function State(): Subs
      requires root.Valid()
      reads this, root, root.repr
    {
      Subs(root.Value(), subscriptionCount, retainedCount)
    }

    /** `mqtt3_db_open` */
    constructor ()
      ensures fresh(root) && fresh(root.repr) && root.Valid()
      ensures State() == Boot()
    {
      subscriptionCount := 0;
      retainedCount := 0;
      root := new Node("");
      new;
      var _ := root.FindOrLink("");
      var _ := root.FindOrLink("$SYS");
      assert [Fresh("")] + [Fresh("$SYS")] == [Fresh(""), Fresh("$SYS")];
    }

    /** `mqtt3_sub_add`: the client's leaf below the top chosen by the first token; a
        missing top is linked in front. */
    method SubAdd(client: string, sub: string, qos: Qos)
      requires root.Valid()
      modifies this, root.repr
      ensures root == old(root) && root.Valid() && fresh(root.repr - old(root.repr))
      ensures State() == SubTree.SubAdd(old(State()), sub, Leaf(client, qos))
    {
      var tokens := Tokenise(sub);
      SubAddUnfolds(State(), sub, Leaf(client, qos));
      AddTokens(tokens, Leaf(client, qos));
    }

    method FindOrLinkTop(tok: string) returns (i: nat)
      requires root.Valid()
      modifies root
      ensures root == old(root) && root.Valid() && fresh(root.repr - old(root.repr)) && i < |root.children|
      ensures var tops, at := old(root.Value()).children, Find(old(root.Value()).children, tok);
        && i == (if at < |tops| then at else 0)
        && root.Value() == old(root.Value()).(children := if at < |tops| then tops else [Fresh(tok)] + tops)
    {
      i := root.FindChild(tok);
      if i == |root.children| {
        root.LinkInFront(tok);
        i := 0;
      }
    }

    method AddTokens(tokens: Levels, l: Leaf)
      requires root.Valid() && tokens != []
      modifies this, root.repr
      ensures root == old(root) && root.Valid() && fresh(root.repr - old(root.repr))
      ensures State() == AddToks(old(State()), tokens, l)
    {
      hide Hierarchy.Add, NodeAt;
      var i := FindOrLinkTop(tokens[0]);
      var isNew := root.AddTo(i, tokens, Some(l));
      Count(if isNew then 1 else 0, 0);
    }

    /** The counters move, the tree stays. */
    method Count(subs: int, kept: int)
      requires root.Valid()
      modifies this`subscriptionCount, this`retainedCount
      ensures root.Valid() && root.Value() == old(root.Value())
      ensures subscriptionCount == old(subscriptionCount) + subs && retainedCount == old(retainedCount) + kept
      ensures State() == Subs(old(root.Value()), subscriptionCount, retainedCount)
    {
      subscriptionCount := subscriptionCount + subs;
      retainedCount := retainedCount + kept;
    }

    /** `mqtt3_sub_remove` */
    method SubRemove(client: string, sub: string)
      requires root.Valid()
      modifies this, root.repr
      ensures root == old(root) && root.Valid() && root.repr == old(root.repr)
      ensures State() == SubTree.SubRemove(old(State()), sub, client)
    {
      var tokens := Tokenise(sub);
      SubRemoveUnfolds(State(), sub, client);
      RemoveTokens(tokens, client);
    }

    method RemoveTokens(tokens: Levels, client: string)
      requires root.Valid() && tokens != []
      modifies this, root.repr
      ensures root == old(root) && root.Valid() && root.repr == old(root.repr)
      ensures State() == RemoveToks(old(State()), tokens, client)
    {
      var i := root.FindChild(tokens[0]);
      if i < |root.children| {
        RemoveAt(i, tokens, client);
      }
    }

    method RemoveAt(i: nat, tokens: Levels, client: string)
      requires root.Valid() && i < |root.children|
      modifies this, root.repr
      ensures root == old(root) && root.Valid() && root.repr == old(root.repr)
      ensures var was := old(root.Value()).children;
        && root.Value() == old(root.Value()).(children := was[i := Hierarchy.Remove(was[i], tokens, client)])
        && subscriptionCount == old(subscriptionCount) - (if SubAt(was[i], tokens, client).Some? then 1 else 0)
        && retainedCount == old(retainedCount)
    {
      var removed := root.RemoveFrom(i, tokens, client);
      Count(if removed then -1 else 0, 0);
    }

    /** `mqtt3_subs_clean_session` */
    method CleanSession(client: string)
      requires root.Valid()
      modifies this, root.repr
      ensures root == old(root) && root.Valid() && root.repr == old(root.repr)
      ensures State() == SubTree.CleanSession(old(State()), client)
    {
      var removed := root.CleanTops(client);
      Count(0 - removed as int, 0);
    }

    /** The tree's part of `mqtt3_db_messages_queue`. With the retain flag, `message` is
        the message to keep, or `None` for an empty payload. */
    method MessagesQueue(topic: string, retain: bool, message: Option<nat>) returns (visits: seq<At<Stop>>)
      requires root.Valid() && Valid(State()) && PlainLevels(Split(topic))
      modifies this, root.repr
      ensures root == old(root) && root.Valid() && fresh(root.repr - old(root.repr))
      ensures State() == Published(old(State()), topic, if retain then Some(message) else None)
      ensures visits == Route(if retain then MakePath(old(State()), topic) else old(State()), topic)
    {
      PublishedUnfolds(State(), topic, if retain then Some(message) else None);
      RouteUnfolds(State(), topic, retain);
      var tokens := Tokenise(topic);
      visits := PublishTokens(tokens, retain, message);
    }

    method PublishTokens(tokens: Levels, retain: bool, message: Option<nat>) returns (visits: seq<At<Stop>>)
      requires root.Valid() && tokens != [] && WF(root.Value())
      modifies this, root.repr
      ensures root == old(root) && root.Valid() && fresh(root.repr - old(root.repr))
      ensures State() == PublishToks(old(State()), tokens, if retain then Some(message) else None)
      ensures visits == RouteToks(old(State()), tokens, retain)
    {
      hide PublishToks, RouteToks;
      visits := [];
      ghost var was := State();
      ghost var at := Find(was.root.children, tokens[0]);
      if at == |was.root.children| {
        NoTopMet(was, tokens, retain, if retain then Some(message) else None);
      }
      var i := 0;
      while i < |root.children|
        invariant root == old(root) && root.Valid() && fresh(root.repr - old(root.repr))
        invariant i <= |root.children| && root.children == old(root.children)
        invariant i <= at ==> State() == was && visits == []
        invariant i > at ==> State() == PublishToks(was, tokens, if retain then Some(message) else None)
        invariant i > at ==> visits == RouteToks(was, tokens, retain)
      {
        assert root.children[i].topic == was.root.children[i].topic;
        if root.children[i].topic == tokens[0] {
          visits := PublishAt(i, tokens, retain, message);
        }
        i := i + 1;
      }
    }

    method PublishAt(i: nat, tokens: Levels, retain: bool, message: Option<nat>) returns (visits: seq<At<Stop>>)
      requires root.Valid() && WF(root.Value())
      requires tokens != [] && i == Find(root.Value().children, tokens[0]) < |root.children|
      modifies this, root.repr
      ensures root == old(root) && root.Valid() && fresh(root.repr - old(root.repr))
      ensures root.children == old(root.children)
      ensures State() == PublishToks(old(State()), tokens, if retain then Some(message) else None)
      ensures visits == RouteToks(old(State()), tokens, retain)
    {
      visits := PublishBelow(i, tokens, retain, message);
    }

    method PublishBelow(i: nat, tokens: Levels, retain: bool, message: Option<nat>) returns (visits: seq<At<Stop>>)
      requires root.Valid() && i < |root.children| && WF(root.Value())
      modifies this, root.repr
      ensures root == old(root) && root.Valid() && fresh(root.repr - old(root.repr))
      ensures root.children == old(root.children) && subscriptionCount == old(subscriptionCount)
      ensures var was := old(root.Value()).children[i];
        var now := PublishTop(was, tokens, if retain then Some(message) else None);
        && root.Value() == old(root.Value()).(children := old(root.Value()).children[i := now])
        && retainedCount == old(retainedCount) + RetCount(now, None) - RetCount(was, None)
        && visits == Visits((if retain then Hierarchy.Add(was, tokens, None) else was).children, tokens, true)
    {
      hide Visits, Retains, RetCounts, LeafCounts, Hierarchy.Add;
      ghost var was := root.Value().children;
      AddCounts(was[i], tokens, None, None);
      if retain {
        var _ := root.AddTo(i, tokens, None);
      }
      ghost var mid := root.Value().children;
      assert mid[i] == if retain then Hierarchy.Add(was[i], tokens, None) else was[i];
      var kept;
      visits, kept := root.SearchFrom(i, tokens, if retain then Some(message) else None);
      Count(0, kept);
      assert was[i := mid[i]] == mid;
    }

    /** `mqtt3_retain_queue` */
    method RetainQueue(sub: string) returns (queued: seq<At<nat>>)
      requires root.Valid()
      ensures queued == SubTree.RetainQueue(State(), sub)
    {
      hide Recall;
      var tokens := Tokenise(sub);
      queued := [];
      var i := root.FindChild(tokens[0]);
      if i < |root.children| {
        var _, q := root.children[i].RetainSearch(tokens, 0);
        queued := q;
      }
    }
  }
}

/** What a backup writes of the subscription tree, and that a restore grows the same tree
    from it. */
module PersistTree {
  import opened Options
  import opened Topics
  import opened Hierarchy
  import opened HierarchyLaws
  import opened HierarchySearch
  import opened SubTree
  import opened PersistFormat
  import opened Persist

  // ----- names and paths ----------------------------------------------------------

  /** The name a node at path `p` gets below a node named `topic`. */
  function NameFrom(topic: string, p: Levels): string
    decreases |p|
  {
    if p == [] then topic else NameFrom(Extend(topic, p[0]), p[1..])
  }

  lemma {:induction false} NameIsJoin(topic: string, p: Levels)
    requires topic != ""
    ensures NameFrom(topic, p) == if p == [] then topic else topic + "/" + Join(p)
    decreases |p|
  {
    if p != [] {
      NameIsJoin(topic + "/" + p[0], p[1..]);
    }
  }

  /** The filter a node of the tree is saved under. */
  function SavedName(p: Levels): string
    requires p != []
  {
    NameFrom("", Climb(p))
  }

  /** A filter is saved under its own name exactly when it starts with neither '/' nor '$':
      an empty first level is lost, and the top of a '$' tree is named twice. */
  lemma SavedNameIsFilter(filter: string)
    requires filter != ""
    ensures SavedName(Tokens(filter)) == filter <==> filter[0] != '/' && filter[0] != '$'
  {
    var ls := Split(filter);
    JoinOfSplit(filter);
    if filter[0] == '$' {
      NameOfDollar(filter);
    } else {
      NameOfPlain(filter);
    }
  }

  lemma NameOfDollar(filter: string)
    requires filter != "" && filter[0] == '$'
    ensures SavedName(Tokens(filter)) != filter
  {
    var ls := Split(filter);
    JoinOfSplit(filter);
    assert ls[0] != "";
    var p := Climb(Tokens(filter));
    assert p[0] == ls[0] && p[1..] == ls;
    NameIsJoin(ls[0], ls);
    assert NameFrom("", p) == NameFrom(ls[0], ls);
  }

  lemma NameOfPlain(filter: string)
    requires filter != "" && filter[0] != '$'
    ensures SavedName(Tokens(filter)) == filter <==> filter[0] != '/'
  {
    var ls := Split(filter);
    JoinOfSplit(filter);
    var p := Climb(Tokens(filter));
    assert p == ["", ""] + ls;
    assert p[1..] == [""] + ls && p[1..][1..] == ls;
    assert NameFrom("", p) == NameFrom("", ls);
    if ls[0] != "" {
      NameIsJoin(ls[0], ls[1..]);
      assert NameFrom("", ls) == NameFrom(ls[0], ls[1..]);
    } else {
      SlashIsLost(filter);
    }
  }

  /** A leading '/' is not in the saved name. */
  lemma SlashIsLost(filter: string)
    requires filter != "" && Split(filter)[0] == ""
    ensures NameFrom("", Split(filter)) != filter && filter[0] == '/'
  {
    var ls := Split(filter);
    assert ls[1..] == Split(filter[1..]);
    assert NameFrom("", ls) == NameFrom("", Split(filter[1..]));
    NameNoLonger(Split(filter[1..]));
    JoinOfSplit(filter[1..]);
  }

  lemma {:induction false} NameNoLonger(ls: Levels)
    requires ls != []
    ensures |NameFrom("", ls)| <= |Join(ls)|
    decreases |ls|
  {
    if ls[0] != "" {
      NameIsJoin(ls[0], ls[1..]);
    } else if |ls| > 1 {
      NameNoLonger(ls[1..]);
      assert NameFrom("", ls) == NameFrom("", ls[1..]);
    } else {
      assert ls[1..] == [];
    }
  }

  // ----- what the chunks say --------------------------------------------------------

  /** A chunk that stands for a subscription or a retained message below one of `ks`. */
  ghost predicate SubChunkOf(db: Image, ks: seq<Hier>, topic: string, c: Chunk, p: Levels, l: Leaf) {
    SubsOf(KidAt(ks, p), l.client) == Some(l.qos) && LastingId(db.contexts, l.client)
    && c == Sub(Bytes(l.client), Bytes(NameFrom(topic, p)), l.qos)
  }

  ghost predicate RetainChunkOf(db: Image, ks: seq<Hier>, c: Chunk, p: Levels, id: nat) {
    RetainedOf(KidAt(ks, p)) == Some(id) && Savable(db, id) && c == Retain(id)
  }

  ghost predicate FromTree(db: Image, ks: seq<Hier>, topic: string, c: Chunk) {
    (exists p, l :: SubChunkOf(db, ks, topic, c, p, l)) || (exists p, id :: RetainChunkOf(db, ks, c, p, id))
  }

  lemma {:induction false} LeafChunksExact(db: Image, ls: seq<Leaf>, topic: string, c: Chunk)
    requires DistinctClients(ls)
    ensures c in LeafChunks(db, ls, topic) <==>
      exists l :: l in ls && LastingId(db.contexts, l.client) && c == Sub(Bytes(l.client), Bytes(topic), l.qos)
  {
    if ls != [] {
      LeafChunksExact(db, ls[1..], topic, c);
      if c in LeafChunks(db, ls, topic) {
        if c !in LeafChunks(db, ls[1..], topic) {
          assert ls[0] in ls;
        }
      }
      if l :| l in ls && LastingId(db.contexts, l.client) && c == Sub(Bytes(l.client), Bytes(topic), l.qos) {
        if l != ls[0] {
          assert l in ls[1..];
        }
      }
    }
  }

  lemma LeafLookup(ls: seq<Leaf>, l: Leaf)
    requires DistinctClients(ls)
    ensures l in ls <==> QosOf(ls, l.client) == Some(l.qos)
  {
    var i := FindLeaf(ls, l.client);
    if l in ls {
      var j :| 0 <= j < |ls| && ls[j] == l;
    }
  }

  /** Every chunk written below `ks` stands for something there. */
  lemma {:induction false} KidChunksSound(db: Image, ks: seq<Hier>, topic: string, c: Chunk)
    requires WFs(ks) && c in KidChunks(db, ks, topic)
    ensures FromTree(db, ks, topic, c)
    decreases ks, 0
  {
    var rest := ks[1..];
    assert WFs(rest) by { assert forall j :: 0 <= j < |rest| ==> rest[j] == ks[j + 1]; }
    if c in NodeChunks(db, ks[0], topic) {
      NodeChunksSound(db, ks[0], topic, c);
      WiderTree(db, ks, [ks[0]], topic, c);
    } else {
      KidChunksSound(db, rest, topic, c);
      WiderTree(db, ks, rest, topic, c);
    }
  }

  /** What is found below the first of `ks`, or below the others, is found below `ks`. */
  lemma WiderTree(db: Image, ks: seq<Hier>, part: seq<Hier>, topic: string, c: Chunk)
    requires WFs(ks) && ks != [] && (part == [ks[0]] || part == ks[1..])
    requires FromTree(db, part, topic, c)
    ensures FromTree(db, ks, topic, c)
  {
    forall p | KidAt(part, p).Some? ensures KidAt(ks, p) == KidAt(part, p) {
      RestHasNot(ks, p);
      KidAtCons(ks[0], [], p);
      assert [ks[0]] + [] == [ks[0]];
    }
    if p, l :| SubChunkOf(db, part, topic, c, p, l) {
      assert SubChunkOf(db, ks, topic, c, p, l);
    } else {
      var p, id :| RetainChunkOf(db, part, c, p, id);
      assert RetainChunkOf(db, ks, c, p, id);
    }
  }

  lemma {:induction false} NodeChunksSound(db: Image, h: Hier, topic: string, c: Chunk)
    requires WF(h) && c in NodeChunks(db, h, topic)
    ensures FromTree(db, [h], topic, c)
    decreases h, 1
  {
    var name := Extend(topic, h.topic);
    OwnPath(h, topic, []);
    if c in LeafChunks(db, h.subs, name) {
      LeafChunksExact(db, h.subs, name, c);
      var l :| l in h.subs && LastingId(db.contexts, l.client) && c == Sub(Bytes(l.client), Bytes(name), l.qos);
      LeafLookup(h.subs, l);
      assert SubChunkOf(db, [h], topic, c, [h.topic], l);
    } else if c in RetainChunks(db, h.retained) {
      assert RetainChunkOf(db, [h], c, [h.topic], h.retained.value);
    } else {
      KidChunksSound(db, h.children, name, c);
      BelowNode(db, h, topic, c);
    }
  }

  /** A path below a node, seen from above it. */
  lemma OwnPath(h: Hier, topic: string, q: Levels)
    ensures KidAt([h], [h.topic] + q) == NodeAt(h, q)
    ensures NameFrom(topic, [h.topic] + q) == NameFrom(Extend(topic, h.topic), q)
    ensures [h.topic] + [] == [h.topic]
  {
    assert ([h.topic] + q)[1..] == q;
  }

  lemma BelowNode(db: Image, h: Hier, topic: string, c: Chunk)
    requires FromTree(db, h.children, Extend(topic, h.topic), c)
    ensures FromTree(db, [h], topic, c)
  {
    var name := Extend(topic, h.topic);
    if q, l :| SubChunkOf(db, h.children, name, c, q, l) {
      OwnPath(h, topic, q);
      NodeBelow(h, q);
      assert SubChunkOf(db, [h], topic, c, [h.topic] + q, l);
    } else {
      var q, id :| RetainChunkOf(db, h.children, c, q, id);
      OwnPath(h, topic, q);
      NodeBelow(h, q);
      assert RetainChunkOf(db, [h], c, [h.topic] + q, id);
    }
  }

  /** Everything below `ks` that is to be saved has its chunk. */
  lemma {:induction false} KidChunksComplete(db: Image, ks: seq<Hier>, topic: string, p: Levels, l: Leaf)
    requires WFs(ks)
    ensures SubsOf(KidAt(ks, p), l.client) == Some(l.qos) && LastingId(db.contexts, l.client) ==>
      Sub(Bytes(l.client), Bytes(NameFrom(topic, p)), l.qos) in KidChunks(db, ks, topic)
    ensures RetainedOf(KidAt(ks, p)).Some? && Savable(db, RetainedOf(KidAt(ks, p)).value) ==>
      Retain(RetainedOf(KidAt(ks, p)).value) in KidChunks(db, ks, topic)
    decreases ks, 0
  {
    if ks != [] && p != [] {
      var rest := ks[1..];
      assert WFs(rest) by { assert forall j :: 0 <= j < |rest| ==> rest[j] == ks[j + 1]; }
      RestHasNot(ks, p);
      if p[0] == ks[0].topic {
        NodeChunksComplete(db, ks[0], topic, p[1..], l);
        OwnPath(ks[0], topic, p[1..]);
        assert p == [ks[0].topic] + p[1..];
      } else {
        KidChunksComplete(db, rest, topic, p, l);
      }
    }
  }

  lemma {:induction false} NodeChunksComplete(db: Image, h: Hier, topic: string, q: Levels, l: Leaf)
    requires WF(h)
    ensures var name := NameFrom(Extend(topic, h.topic), q);
      SubAt(h, q, l.client) == Some(l.qos) && LastingId(db.contexts, l.client) ==>
        Sub(Bytes(l.client), Bytes(name), l.qos) in NodeChunks(db, h, topic)
    ensures RetAt(h, q).Some? && Savable(db, RetAt(h, q).value) ==>
      Retain(RetAt(h, q).value) in NodeChunks(db, h, topic)
    decreases h, 1
  {
    var name := Extend(topic, h.topic);
    if q == [] {
      LeafLookup(h.subs, l);
      LeafChunksExact(db, h.subs, name, Sub(Bytes(l.client), Bytes(name), l.qos));
    } else {
      NodeBelow(h, q);
      KidChunksComplete(db, h.children, name, q, l);
    }
  }
}

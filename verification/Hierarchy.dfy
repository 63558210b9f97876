/** The subscription tree of the broker (`struct _mosquitto_subhier`) as a value, with
    the recursive walks of subs.c written the way the C code walks its child lists. */
module Hierarchy {
  import opened Options
  import opened Topics

  type Qos = q: nat | q <= 2

  /** One subscriber at a node. */
  datatype Leaf = Leaf(client: string, qos: Qos)

  /** One level of the tree; `retained` is the id of a stored message. */
  datatype Hier = Hier(topic: string, subs: seq<Leaf>, retained: Option<nat>, children: seq<Hier>)

  /** Something found at a path below the node where a walk started. */
  datatype At<T> = At(path: Levels, item: T)

  function Fresh(topic: string): Hier {
    Hier(topic, [], None, [])
  }

  /** The first child, from `from` on, with a given topic; the length if there is none. */
  function FindFrom(ks: seq<Hier>, tok: string, from: nat): (i: nat)
    requires from <= |ks|
    ensures from <= i <= |ks| && (i < |ks| ==> ks[i].topic == tok)
    ensures forall j :: from <= j < i ==> ks[j].topic != tok
    decreases |ks| - from
  {
    if from == |ks| || ks[from].topic == tok then from else FindFrom(ks, tok, from + 1)
  }

  function Find(ks: seq<Hier>, tok: string): (i: nat)
    ensures i <= |ks| && (i < |ks| ==> ks[i].topic == tok)
    ensures forall j :: 0 <= j < i ==> ks[j].topic != tok
  {
    FindFrom(ks, tok, 0)
  }

  function FindLeafFrom(ls: seq<Leaf>, c: string, from: nat): (i: nat)
    requires from <= |ls|
    ensures from <= i <= |ls| && (i < |ls| ==> ls[i].client == c)
    ensures forall j :: from <= j < i ==> ls[j].client != c
    decreases |ls| - from
  {
    if from == |ls| || ls[from].client == c then from else FindLeafFrom(ls, c, from + 1)
  }

  function FindLeaf(ls: seq<Leaf>, c: string): (i: nat)
    ensures i <= |ls| && (i < |ls| ==> ls[i].client == c)
    ensures forall j :: 0 <= j < i ==> ls[j].client != c
  {
    FindLeafFrom(ls, c, 0)
  }

  // ----- what a tree holds ----------------------------------------------------

  function NodeAt(h: Hier, p: Levels): Option<Hier>
    decreases |p|
  {
    if p == [] then Some(h)
    else
      var i := Find(h.children, p[0]);
      if i < |h.children| then NodeAt(h.children[i], p[1..]) else None
  }

  /** The node reached by a path that starts with one of `ks`. */
  function KidAt(ks: seq<Hier>, p: Levels): Option<Hier> {
    if p == [] then None
    else
      var i := Find(ks, p[0]);
      if i < |ks| then NodeAt(ks[i], p[1..]) else None
  }

  function QosOf(ls: seq<Leaf>, c: string): Option<nat> {
    var i := FindLeaf(ls, c);
    if i < |ls| then Some(ls[i].qos) else None
  }

  function SubsOf(n: Option<Hier>, c: string): Option<nat> {
    if n.Some? then QosOf(n.value.subs, c) else None
  }

  function RetainedOf(n: Option<Hier>): Option<nat> {
    if n.Some? then n.value.retained else None
  }

  /** The QoS granted to a client at a path, if it subscribed there. */
  function SubAt(h: Hier, p: Levels, c: string): Option<nat> {
    SubsOf(NodeAt(h, p), c)
  }

  function RetAt(h: Hier, p: Levels): Option<nat> {
    RetainedOf(NodeAt(h, p))
  }

  function LeafCount(h: Hier): nat {
    |h.subs| + LeafCounts(h.children)
  }

  function LeafCounts(ks: seq<Hier>): nat {
    if ks == [] then 0 else LeafCount(ks[0]) + LeafCounts(ks[1..])
  }

  /** How many nodes retain message `m`; with `None`, how many retain anything. */
  function RetCount(h: Hier, m: Option<nat>): nat {
    Keeps(h.retained, m) + RetCounts(h.children, m)
  }

  function Keeps(r: Option<nat>, m: Option<nat>): nat {
    if r.Some? && (m.None? || m == r) then 1 else 0
  }

  function RetCounts(ks: seq<Hier>, m: Option<nat>): nat {
    if ks == [] then 0 else RetCount(ks[0], m) + RetCounts(ks[1..], m)
  }

  // ----- well-formed trees ----------------------------------------------------

  ghost predicate DistinctTopics(ks: seq<Hier>) {
    forall i, j :: 0 <= i < j < |ks| ==> ks[i].topic != ks[j].topic
  }

  ghost predicate DistinctClients(ls: seq<Leaf>) {
    forall i, j :: 0 <= i < j < |ls| ==> ls[i].client != ls[j].client
  }

  ghost predicate RetainsNothing(h: Hier) {
    h.retained.None? && forall k :: k in h.children ==> RetainsNothing(k)
  }

  ghost predicate WF(h: Hier) {
    && DistinctClients(h.subs)
    && (h.topic == "#" ==> h.children == [])
    && (h.topic == "+" || h.topic == "#" ==> RetainsNothing(h))
    && DistinctTopics(h.children)
    && forall k :: k in h.children ==> WF(k)
  }

  ghost predicate WFs(ks: seq<Hier>) {
    DistinctTopics(ks) && forall k :: k in ks ==> WF(k)
  }

  // ----- subscribe and unsubscribe --------------------------------------------

  function PutLeaf(ls: seq<Leaf>, l: Leaf): seq<Leaf> {
    var i := FindLeaf(ls, l.client);
    if i < |ls| then ls[i := l] else ls + [l]
  }

  function DropLeaf(ls: seq<Leaf>, c: string): seq<Leaf> {
    var i := FindLeaf(ls, c);
    if i < |ls| then ls[..i] + ls[i + 1..] else ls
  }

  /** `_sub_add`; without a subscriber it only makes the path. */
  function Add(h: Hier, toks: Levels, who: Option<Leaf>): (r: Hier)
    ensures r.topic == h.topic
    decreases |toks|
  {
    if toks == [] then
      if who.Some? then h.(subs := PutLeaf(h.subs, who.value)) else h
    else
      var i := Find(h.children, toks[0]);
      if i < |h.children|
      then h.(children := h.children[i := Add(h.children[i], toks[1..], who)])
      else h.(children := h.children + [Add(Fresh(toks[0]), toks[1..], who)])
  }

  /** A node that the pruning code may unlink. */
  predicate Dead(h: Hier) {
    h.children == [] && h.subs == [] && h.retained.None?
  }

  /** `_sub_remove`: drop the leaf, and on the way back unlink nodes left empty. */
  function Remove(h: Hier, toks: Levels, c: string): (r: Hier)
    ensures r.topic == h.topic
    decreases |toks|
  {
    if toks == [] then h.(subs := DropLeaf(h.subs, c))
    else
      var i := Find(h.children, toks[0]);
      if i < |h.children| then
        var k := Remove(h.children[i], toks[1..], c);
        h.(children := if Dead(k) then h.children[..i] + h.children[i + 1..] else h.children[i := k])
      else h
  }

  function DropClient(ls: seq<Leaf>, c: string): seq<Leaf> {
    if ls == [] then []
    else (if ls[0].client == c then [] else [ls[0]]) + DropClient(ls[1..], c)
  }

  /** `_subs_clean_session`: drop every leaf of a client and unlink empty nodes. */
  function Clean(h: Hier, c: string): (r: Hier)
    ensures r.topic == h.topic
  {
    h.(subs := DropClient(h.subs, c), children := CleanKids(h.children, c))
  }

  function CleanKids(ks: seq<Hier>, c: string): seq<Hier> {
    if ks == [] then []
    else
      var k := Clean(ks[0], c);
      (if Dead(k) then [] else [k]) + CleanKids(ks[1..], c)
  }

  // ----- publish --------------------------------------------------------------

  function Prefix<T>(t: string, vs: seq<At<T>>): seq<At<T>> {
    if vs == [] then [] else [At([t] + vs[0].path, vs[0].item)] + Prefix(t, vs[1..])
  }

  /** The subscribers of one visited node, and whether the message may be retained there. */
  datatype Stop = Stop(leaves: seq<Leaf>, setRetain: bool)

  /** `_sub_search`: the nodes handed to `_subs_process`, in order. */
  function Visits(ks: seq<Hier>, toks: Levels, sr: bool): seq<At<Stop>> {
    if ks == [] then [] else Visit(ks[0], toks, sr) + Visits(ks[1..], toks, sr)
  }

  function Visit(b: Hier, toks: Levels, sr: bool): seq<At<Stop>> {
    if toks != [] && (b.topic == toks[0] || b.topic == "+") then
      var sr' := sr && b.topic != "+";
      Prefix(b.topic, Visits(b.children, toks[1..], sr'))
      + (if |toks| == 1 then [At([b.topic], Stop(b.subs, sr'))] else [])
    else if b.topic == "#" && b.children == [] then [At(["#"], Stop(b.subs, false))]
    else []
  }

  /** The same walk as it stores a retained message (or clears one) in the nodes it
      visits with `setRetain`. */
  function Retains(ks: seq<Hier>, toks: Levels, sr: bool, m: Option<nat>): (r: seq<Hier>)
    ensures |r| == |ks| && forall i :: 0 <= i < |ks| ==> r[i].topic == ks[i].topic
  {
    if ks == [] then [] else [Retain(ks[0], toks, sr, m)] + Retains(ks[1..], toks, sr, m)
  }

  function Retain(b: Hier, toks: Levels, sr: bool, m: Option<nat>): (r: Hier)
    ensures r.topic == b.topic
  {
    if toks != [] && (b.topic == toks[0] || b.topic == "+") then
      var sr' := sr && b.topic != "+";
      b.(children := Retains(b.children, toks[1..], sr', m),
         retained := if |toks| == 1 && sr' then m else b.retained)
    else b
  }

  // ----- retained messages for a new subscription -----------------------------

  function Own(b: Hier): seq<At<nat>> {
    if b.retained.Some? then [At([b.topic], b.retained.value)] else []
  }

  /** `_retain_search`: the retained messages queued for filter `toks`, in order. */
  function Recall(ks: seq<Hier>, toks: Levels, level: nat): seq<At<nat>>
    requires toks != []
  {
    if ks == [] then [] else RecallOne(ks[0], |ks| == 1, toks, level) + Recall(ks[1..], toks, level)
  }

  function RecallOne(b: Hier, last: bool, toks: Levels, level: nat): seq<At<nat>>
    requires toks != []
  {
    if toks == ["#"] then
      Own(b) + Prefix(b.topic, Recall(b.children, toks, level + 1))
    else if b.topic != "+" && (b.topic == toks[0] || toks[0] == "+") then
      if |toks| > 1 then
        var flag := toks[1..] == ["#"] && b.children != [];
        Prefix(b.topic, Recall(b.children, toks[1..], level + 1))
        + (if flag || (last && toks[1] == "#" && level > 0) then Own(b) else [])
      else Own(b)
    else []
  }
}

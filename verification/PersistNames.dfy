/** Which filters survive a restart: under what path a restore finds each subscription
    again, and when that is the path it had. */
module PersistNames {
  import opened Options
  import opened Topics
  import opened Hierarchy
  import opened SubTree
  import opened Wire
  import opened PersistFormat
  import opened Persist
  import opened PersistLaws
  import opened PersistTree
  import opened PersistTheorem

  // ----- saved names ------------------------------------------------------------------

  /** A name is read back as a filter. */
  lemma {:induction false} NameLevels(ls: Levels)
    requires FilterLevels(ls) && forall i :: 0 <= i < |ls| ==> SlashFree(ls[i])
    ensures FilterLevels(Split(NameFrom("", ls)))
    ensures NameFrom("", ls) != "" ==> NameFrom("", ls)[0] != '/'
    decreases |ls|
  {
    if ls == [] {
      assert Split("") == [""];
    } else if ls[0] == "" {
      assert forall i :: 0 <= i < |ls[1..]| ==> ls[1..][i] == ls[i + 1];
      NameLevels(ls[1..]);
      assert NameFrom("", ls) == NameFrom("", ls[1..]);
    } else {
      NameIsJoin(ls[0], ls[1..]);
      assert NameFrom("", ls) == NameFrom(ls[0], ls[1..]);
      NameIsJoined(ls);
      SplitOfJoin(ls);
    }
  }

  lemma NameIsJoined(ls: Levels)
    requires ls != [] && ls[0] != ""
    ensures Join(ls) == if |ls| == 1 then ls[0] else ls[0] + "/" + Join(ls[1..])
    ensures Join(ls)[0] == ls[0][0]
  {
  }

  /** The name a filter is saved under can be subscribed to, and does not start with '/'. */
  lemma SavedNameLevels(p: Levels)
    requires GoodName(p)
    ensures FilterLevels(Split(SavedName(p))) && (SavedName(p) != "" ==> SavedName(p)[0] != '/')
  {
    var f := FilterOf(p);
    JoinOfSplit(f);
    TokensLevels(f);
    TokensNotWild(f);
    var q := Climb(p);
    assert forall i :: 0 <= i < |q| ==> q[i] == if i == 0 then p[0] else p[i - 1];
    FirstIsPlain(f);
    NameLevels(q);
  }

  lemma FirstIsPlain(f: string)
    requires FilterLevels(Split(f))
    ensures Plain(Tokens(f)[0]) && forall i :: 0 <= i < |Tokens(f)| ==> SlashFree(Tokens(f)[i])
  {
    TokensLevels(f);
    TokensNotWild(f);
    JoinOfSplit(f);
  }

  /** Of the '$' trees the name gets longer. */
  lemma DollarGrows(p: Levels)
    requires GoodName(p) && FilterOf(p)[0] == '$'
    ensures |SavedName(p)| > |FilterOf(p)|
  {
    var f := FilterOf(p);
    var ls := Split(f);
    JoinOfSplit(f);
    assert p == ls && ls[0] != "";
    assert Climb(p)[1..] == ls;
    NameIsJoin(ls[0], ls);
  }

  // ----- one chunk after the other ------------------------------------------------------

  /** The path `q` of the old tree is read back as `p`. */
  predicate ReadAs(q: Levels, p: Levels) {
    q != [] && p == Tokens(SavedName(q))
  }

  /** Client `c` had this subscription, at a path that is read back as `p`. */
  ghost predicate Had(db: Image, p: Levels, c: string, qos: nat, q: Levels) {
    LastingId(db.contexts, c) && SubOf(db.subs, q, c) == Some(qos) && ReadAs(q, p)
  }

  /** Every subscription of the new tree was one of the old. */
  ghost predicate Named(db: Image, r: Image) {
    forall p, c :: SubOf(r.subs, p, c).Some? ==> exists q :: Had(db, p, c, SubOf(r.subs, p, c).value, q)
  }

  /** The messages, and the lasting clients with their queues, are those that were saved. */
  ghost predicate Lists(db: Image, r: Image) {
    && Bare(r.store) == RevivedStore(db.store)
    && r.contexts == Slots(Kept(db.contexts)) && Indexes(r.index, Kept(db.contexts))
  }

  ghost predicate Loose(db: Image, r: Image) {
    Lists(db, r) && Valid(r.subs) && Named(db, r)
  }

  ghost predicate SubsGrow(a: Image, b: Image) {
    forall p, c :: SubOf(a.subs, p, c).Some? ==> SubOf(b.subs, p, c).Some?
  }

  /** The subscription chunk `c` asks for is in the tree. */
  ghost predicate Subbed(r: Image, c: Chunk) {
    c.Sub? ==> SubOf(r.subs, Tokens(Text(c.filter)), Text(c.client)).Some?
  }

  lemma SubLoose(db: Image, r: Image, p: Levels, l: Leaf)
    requires Writable(db) && Loose(db, r)
    requires SubOf(db.subs, p, l.client) == Some(l.qos) && LastingId(db.contexts, l.client)
    ensures var c := Sub(Bytes(l.client), Bytes(SavedName(p)), l.qos);
      var o := ApplyChunk(r, c);
      o.Some? && Loose(db, o.value) && SubsGrow(r, o.value) && Subbed(o.value, c)
  {
    hide Writable, Bare, RevivedStore, Slots, Kept, SubOf, SubAdd, Valid, SavedName, GoodName;
    SavedPath(db, p, l.client);
    ClientKnown(db, l.client);
    SavedNameLevels(p);
    NameText(p);
    ClientText(db, l.client);
    TextRead(l.client);
    var f := SavedName(p);
    var r' := ApplyChunk(r, Sub(Bytes(l.client), Bytes(f), l.qos)).value;
    SubAddEffect(r.subs, f, l, Tokens(f), l.client);
    forall x, c
      ensures SubOf(r'.subs, x, c) == (if x == Tokens(f) && c == l.client then Some(l.qos) else SubOf(r.subs, x, c))
    {
      SubAddEffect(r.subs, f, l, x, c);
    }
    forall x, c | SubOf(r'.subs, x, c).Some? ensures exists q :: Had(db, x, c, SubOf(r'.subs, x, c).value, q) {
      if x == Tokens(f) && c == l.client {
        assert Had(db, x, c, l.qos, p);
      } else {
        assert SubOf(r.subs, x, c).Some?;
      }
    }
  }

  lemma NameText(p: Levels)
    requires GoodName(p)
    ensures p != [] && Text(Bytes(SavedName(p))) == SavedName(p)
  {
    TextRead(SavedName(p));
  }

  lemma RetainLoose(db: Image, r: Image, p: Levels, id: nat)
    requires Writable(db) && Loose(db, r) && RetOf(db.subs, p) == Some(id) && Savable(db, id)
    ensures var o := ApplyChunk(r, Retain(id));
      o.Some? && Loose(db, o.value) && SubsGrow(r, o.value)
  {
    hide Writable, Bare, RevivedStore, Slots, Kept, SubOf, RetOf, RetainPublish, HasTop, Valid;
    RestoredMessage(db, r, p, id);
    var topic := r.store[FindMessage(r.store, id)].topic;
    var r' := PutRetained(r, topic, id, false);
    RetainPublishEffect(r.subs, topic, Some(id), [], "");
    forall x, c ensures SubOf(r'.subs, x, c) == SubOf(r.subs, x, c) {
      RetainPublishEffect(r.subs, topic, Some(id), x, c);
    }
    RetainIsBare(r, topic, id);
  }

  lemma RetainIsBare(r: Image, topic: string, id: nat)
    ensures Bare(PutRetained(r, topic, id, false).store) == Bare(r.store)
  {
    var was := RetOf(r.subs, Tokens(topic));
    var mid := if was.Some? then Recounted(r.store, was.value, -1) else r.store;
    if was.Some? {
      RecountedIsBare(r.store, was.value, -1);
    }
    RecountedIsBare(mid, id, 1);
  }

  lemma ChunkLoose(db: Image, r: Image, c: Chunk)
    requires Writable(db) && Loose(db, r) && FromTree(db, db.subs.root.children, "", c)
    ensures ApplyChunk(r, c).Some?
    ensures var r' := ApplyChunk(r, c).value; Loose(db, r') && SubsGrow(r, r') && Subbed(r', c)
  {
    hide Loose, Persist.ApplyChunk, SubsGrow, SubOf;
    var tops := db.subs.root.children;
    if q, l :| SubChunkOf(db, tops, "", c, q, l) {
      TopPath(db.subs, q);
      SavedIs(q[1..]);
      TopSub(db.subs, q, l);
      SubLoose(db, r, q[1..], l);
    } else {
      var q, id :| RetainChunkOf(db, tops, c, q, id);
      TopPath(db.subs, q);
      RetainLoose(db, r, q[1..], id);
    }
  }

  lemma TopSub(s: Subs, q: Levels, l: Leaf)
    requires |q| >= 2 && KidAt(s.root.children, q) == NodeOf(s, q[1..])
    requires SubsOf(KidAt(s.root.children, q), l.client) == Some(l.qos)
    ensures SubOf(s, q[1..], l.client) == Some(l.qos)
  {
  }

  lemma {:induction false} TreeLoose(db: Image, r: Image, cs: seq<Chunk>)
    requires Writable(db) && Loose(db, r) && forall c :: c in cs ==> FromTree(db, db.subs.root.children, "", c)
    ensures ApplyChunks(r, cs).Some?
    ensures var r' := ApplyChunks(r, cs).value;
      Loose(db, r') && SubsGrow(r, r') && forall c :: c in cs ==> Subbed(r', c)
    decreases |cs|
  {
    hide Writable, Loose, FromTree, Persist.ApplyChunk;
    if cs != [] {
      ChunkLoose(db, r, cs[0]);
      TreeLoose(db, ApplyChunk(r, cs[0]).value, cs[1..]);
      assert forall c :: c in cs ==> c == cs[0] || c in cs[1..];
    }
  }

  // ----- the theorem --------------------------------------------------------------------

  /** What a restart makes of the lasting subscriptions: each is found again under the path
      of its saved name, and nothing else is found. */
  ghost predicate Renamed(db: Image, r: Image) {
    && Named(db, r)
    && forall q, c :: LastingId(db.contexts, c) && SubOf(db.subs, q, c).Some? ==>
         q != [] && SubOf(r.subs, Tokens(SavedName(q)), c).Some?
  }

  lemma RestartRenames(db: Image, shutdown: bool, now: nat)
    requires Writable(db)
    ensures var o := Restore(FileBytes(Backup(db, shutdown)), now);
      o.Some? && Renamed(db, o.value) && Lists(db, o.value)
  {
    hide Writable, ChunkFits, FromTree, Opened, KidChunks, FileBytes, SubOf;
    var cs, tree := Backup(db, shutdown), KidChunks(db, db.subs.root.children, "");
    forall i | 0 <= i < |cs| ensures ChunkFits(cs[i]) {
      BackupFits(db, shutdown, cs[i]);
    }
    FileRead(cs, now);
    ListsStage(db, shutdown);
    var lists := [Cfg(Bit(shutdown), 8, db.lastDbId)] + StoreChunks(db.store) + ClientChunks(db.contexts);
    var r := ApplyChunks(Opened(), lists).value;
    StartLoose(db, r);
    TreeChunksFromTree(db);
    TreeLoose(db, r, tree);
    ApplyChunksAppend(Opened(), lists, tree);
    AllRenamed(db, ApplyChunks(r, tree).value);
  }

  lemma StartLoose(db: Image, r: Image)
    requires Mirror(db, r) && r.subs == Boot()
    ensures Loose(db, r)
  {
    BootAgrees();
  }

  lemma AllRenamed(db: Image, r: Image)
    requires Writable(db) && Loose(db, r)
    requires forall x :: x in KidChunks(db, db.subs.root.children, "") ==> Subbed(r, x)
    ensures Renamed(db, r)
  {
    hide Writable, KidChunks, SubOf, SavedName, GoodName;
    forall q, c | LastingId(db.contexts, c) && SubOf(db.subs, q, c).Some?
      ensures q != [] && SubOf(r.subs, Tokens(SavedName(q)), c).Some?
    {
      SubIsWritten(db, q, c);
      NameText(q);
      TextRead(c);
      assert Subbed(r, Sub(Bytes(c), Bytes(SavedName(q)), SubOf(db.subs, q, c).value));
    }
  }

  /** The lasting subscriptions are what they were. */
  ghost predicate Unchanged(db: Image, r: Image) {
    forall p, c :: LastingId(db.contexts, c) ==> SubOf(r.subs, p, c) == SubOf(db.subs, p, c)
  }

  /** A subscription that changes its name is lost, or so is another. */
  lemma {:induction false} OneIsLost(db: Image, r: Image, q: Levels, c: string)
    requires Writable(db) && Renamed(db, r) && LastingId(db.contexts, c) && SubOf(db.subs, q, c).Some? && !KeepsName(q)
    ensures !Unchanged(db, r)
    decreases if q == [] then 0 else |FilterOf(q)|
  {
    hide Writable, SubOf, LastingId;
    SavedPath(db, q, c);
    if SubOf(r.subs, q, c) == SubOf(db.subs, q, c) {
      var o :| Had(db, q, c, SubOf(r.subs, q, c).value, o);
      SavedPath(db, o, c);
      TokensInjective(FilterOf(q), SavedName(o));
      SavedNameLevels(o);
      assert FilterOf(q)[0] == '$';
      if KeepsName(o) {
        PathText(o);
      } else {
        if FilterOf(o)[0] == '$' {
          DollarGrows(o);
          OneIsLost(db, r, o, c);
        } else {
          SlashIsGone(db, r, o, c);
        }
      }
    }
  }

  lemma SlashIsGone(db: Image, r: Image, q: Levels, c: string)
    requires Writable(db) && Renamed(db, r) && LastingId(db.contexts, c) && SubOf(db.subs, q, c).Some?
    requires GoodName(q) && FilterOf(q)[0] == '/'
    ensures SubOf(r.subs, q, c).None?
  {
    hide Writable, SubOf, LastingId;
    if SubOf(r.subs, q, c).Some? {
      var o :| Had(db, q, c, SubOf(r.subs, q, c).value, o);
      SavedPath(db, o, c);
      TokensInjective(FilterOf(q), SavedName(o));
      SavedNameLevels(o);
    }
  }

  lemma AllKept(db: Image, r: Image)
    requires Writable(db) && Renamed(db, r) && AllKeepNames(db)
    ensures Unchanged(db, r)
  {
    hide Writable, SubOf, LastingId, KeepsName;
    forall p, c | LastingId(db.contexts, c) ensures SubOf(r.subs, p, c) == SubOf(db.subs, p, c) {
      if SubOf(r.subs, p, c).Some? {
        var q :| Had(db, p, c, SubOf(r.subs, p, c).value, q);
        SavedPath(db, q, c);
        PathText(q);
        NamedPath(q);
      } else if SubOf(db.subs, p, c).Some? {
        SavedPath(db, p, c);
        PathText(p);
        NamedPath(p);
      }
    }
  }

  /** A restart leaves the lasting subscriptions as they were exactly when none of their
      filters starts with '/' or '$'. */
  lemma RestartKeepsFilters(db: Image, shutdown: bool, now: nat)
    requires Writable(db)
    ensures var o := Restore(FileBytes(Backup(db, shutdown)), now);
      o.Some? && (Unchanged(db, o.value) <==> AllKeepNames(db))
  {
    hide Writable, Lists, Renamed, Unchanged, SubOf, LastingId, KeepsName, FileBytes, Backup;
    RestartRenames(db, shutdown, now);
    var r := Restore(FileBytes(Backup(db, shutdown)), now).value;
    if AllKeepNames(db) {
      AllKept(db, r);
    } else {
      var q, c :| SubOf(db.subs, q, c).Some? && LastingId(db.contexts, c) && !KeepsName(q);
      OneIsLost(db, r, q, c);
    }
  }
}

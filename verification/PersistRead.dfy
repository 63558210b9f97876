/** The restore side of persist.c: a file read field by field, each chunk carried out on
    the broker's data as soon as it is complete. */
module PersistRead {
  import opened Options
  import opened Topics
  import opened Hierarchy
  import opened SubTree
  import opened Wire
  import opened PersistFormat
  import opened Persist

  /** Reading a chunk and carrying it out, until the file ends. */
  function RestoreFrom(db: Image, bs: seq<Byte>, version: nat, now: nat): Option<Image>
    decreases |bs|
  {
    match ReadChunk(bs, version, now)
    case End => Some(db)
    case Corrupt => None
    case Skipped(rest) => RestoreFrom(db, rest, version, now)
    case Read(c, rest) =>
      match ApplyChunk(db, c)
      case None => None
      case Some(d) => RestoreFrom(d, rest, version, now)
  }

  /** It does not matter that chunks are carried out before the file is known to be whole. */
  lemma {:induction false} RestoreFromIsApply(db: Image, bs: seq<Byte>, version: nat, now: nat)
    ensures RestoreFrom(db, bs, version, now) ==
      (match ReadChunks(bs, version, now) case None => None case Some(cs) => ApplyChunks(db, cs))
    decreases |bs|
  {
    hide ReadChunk, Persist.ApplyChunk;
    match ReadChunk(bs, version, now)
    case End =>
    case Corrupt =>
    case Skipped(rest) => RestoreFromIsApply(db, rest, version, now);
    case Read(c, rest) =>
      match ApplyChunk(db, c)
      case None =>
        assert ReadChunks(rest, version, now).Some? ==> ReadChunks(bs, version, now).value[0] == c;
      case Some(d) =>
        RestoreFromIsApply(d, rest, version, now);
        assert ReadChunks(rest, version, now).Some? ==>
          ReadChunks(bs, version, now).value[1..] == ReadChunks(rest, version, now).value;
  }

  /** The fields of a chunk of which `done` have been read. */
  function Resume(done: seq<Field>, todo: seq<Kind>, rest: seq<Byte>): Option<(seq<Field>, seq<Byte>)> {
    match ReadFields(todo, rest)
    case None => None
    case Some((fs, more)) => Some((done + fs, more))
  }

  lemma ResumeStep(done: seq<Field>, todo: seq<Kind>, rest: seq<Byte>)
    requires todo != []
    ensures Resume(done, todo, rest) ==
      (match ReadField(todo[0], rest) case None => None case Some((f, more)) => Resume(done + [f], todo[1..], more))
  {
    match ReadField(todo[0], rest)
    case None =>
    case Some((f, more)) =>
      match ReadFields(todo[1..], more)
      case None =>
      case Some((fs, end)) => assert done + ([f] + fs) == done + [f] + fs;
  }

  class Restorer {
    const file: seq<Byte>
    var pos: nat
    ghost var done: seq<Field>
    ghost var todo: seq<Kind>

    var lastDbId: nat
    var store: seq<StoredMsg>
    var contexts: seq<Option<Context>>
    var index: map<string, nat>
    var subs: Subs

    ghost predicate Valid()
      reads this
    {
      pos <= |file|
    }

    ghost function Rest(): seq<Byte>
      requires Valid()
      reads this
    {
      file[pos..]
    }

    ghost function Fields(): Option<(seq<Field>, seq<Byte>)>
      requires Valid()
      reads this
    {
      Resume(done, todo, Rest())
    }

    ghost function State(): Image
      reads this
    {
      Image(lastDbId, store, contexts, index, subs)
    }

    constructor (file: seq<Byte>)
      ensures this.file == file && Valid() && pos == 0 && State() == Opened()
    {
      this.file := file;
      pos, done, todo := 0, [], [];
      lastDbId, store, contexts, index, subs := 0, [], [None], map[], Boot();
    }

    // ----- fields -----------------------------------------------------------------

    /** `read_e` */
    method ReadE(count: nat) returns (ok: bool, bytes: seq<Byte>)
      requires Valid()
      modifies this`pos
      ensures Valid() && ok == (count <= |old(Rest())|)
      ensures ok ==> bytes == old(Rest())[..count] && Rest() == old(Rest())[count..]
    {
      if pos + count > |file| {
        return false, [];
      }
      bytes := file[pos..pos + count];
      pos := pos + count;
      ok := true;
    }

    ghost method Note(f: Field)
      requires Valid() && todo != []
      modifies this`done, this`todo
      ensures done == old(done) + [f] && todo == old(todo)[1..]
    {
      done, todo := done + [f], todo[1..];
    }

    method ReadNumber(width: nat) returns (ok: bool, n: nat)
      requires Valid() && todo != [] && todo[0] == Net(width)
      modifies this`pos, this`done, this`todo
      ensures Valid() && (!ok ==> old(Fields()).None?)
      ensures ok ==> Fields() == old(Fields()) && done == old(done) + [NetNumber(width, n)] && todo == old(todo)[1..]
    {
      hide ReadFields, Resume;
      n := 0;
      ResumeStep(done, todo, Rest());
      var bytes;
      ok, bytes := ReadE(width);
      if ok {
        n := NetValue(bytes);
        Note(NetNumber(width, n));
      }
    }

    method ReadRaw() returns (ok: bool, n: nat)
      requires Valid() && todo != [] && todo[0] == Host(8)
      modifies this`pos, this`done, this`todo
      ensures Valid() && (!ok ==> old(Fields()).None?)
      ensures ok ==> Fields() == old(Fields()) && done == old(done) + [HostNumber(8, n)] && todo == old(todo)[1..]
    {
      hide ReadFields, Resume;
      n := 0;
      ResumeStep(done, todo, Rest());
      var bytes;
      ok, bytes := ReadE(8);
      if ok {
        n := HostValue(bytes);
        Note(HostNumber(8, n));
      }
    }

    /** A length and the bytes it announces. */
    method ReadSized(width: nat) returns (ok: bool, s: seq<Byte>)
      requires Valid() && todo != [] && ((todo[0] == Chars && width == 2) || (todo[0] == Data && width == 4))
      modifies this`pos, this`done, this`todo
      ensures Valid() && (!ok ==> old(Fields()).None?)
      ensures ok ==> Fields() == old(Fields()) && todo == old(todo)[1..]
      ensures ok ==> done == old(done) + [if width == 2 then Str(s) else Blob(s)]
    {
      hide ReadFields, Resume;
      s := [];
      ResumeStep(done, todo, Rest());
      ghost var rest := Rest();
      var bytes;
      ok, bytes := ReadE(width);
      if ok {
        ok, s := ReadE(NetValue(bytes));
        if ok {
          assert s == rest[width..width + NetValue(bytes)];
          Note(if width == 2 then Str(s) else Blob(s));
        }
      }
    }

    // ----- the data ---------------------------------------------------------------

    /** `_db_find_or_add_context` without its `last_mid`: two loops over the table. */
    method FindOrAddContext(id: string) returns (i: nat)
      modifies this`contexts
      ensures contexts == WithContext(old(contexts), id) && i == FindContext(contexts, id) < |contexts|
    {
      i := 0;
      while i < |contexts|
        invariant i <= |contexts|
        invariant forall j :: 0 <= j < i ==> !(contexts[j].Some? && contexts[j].value.id == id)
      {
        if contexts[i].Some? && contexts[i].value.id == id {
          return;
        }
        i := i + 1;
      }
      var c := Some(Context(id, false, 0, 0, []));
      i := 0;
      while i < |contexts| && contexts[i].Some?
        invariant i <= |contexts| && FirstFree(contexts) == i + FirstFree(contexts[i..])
      {
        assert contexts[i..][1..] == contexts[i + 1..];
        i := i + 1;
      }
      contexts := if i < |contexts| then contexts[i := c] else contexts + [c];
      assert contexts[i] == c;
    }

    method FindStored(id: nat) returns (i: nat)
      ensures i == FindMessage(store, id)
    {
      i := 0;
      while i < |store| && store[i].dbId != id
        invariant i <= |store| && forall j :: 0 <= j < i ==> store[j].dbId != id
      {
        i := i + 1;
      }
    }

    /** `mqtt3_db_message_store` for a message that keeps its id unless that is 0. */
    method StoreMessage(
      id: nat, source: seq<Byte>, sourceMid: Word, topic: seq<Byte>, qos: Byte, retain: Byte, payload: seq<Byte>)
      requires topic != []
      modifies this`store, this`lastDbId
      ensures forall mid ::
        Some(State()) == ApplyChunk(old(State()), MsgStore(id, source, sourceMid, mid, topic, qos, retain, payload))
    {
      var next := id;
      if id == 0 {
        lastDbId := lastDbId + 1;
        next := lastDbId;
      }
      var m := StoredMsg(next, Persist.Text(source), sourceMid, 0, Persist.Text(topic), qos, retain != 0, payload, 0);
      store := [m] + store;
    }

    /** `_db_client_msg_restore` */
    method RestoreMsg(id: string, q: QueuedMsg) returns (ok: bool)
      modifies this`store, this`contexts
      ensures ok <==> PutMsg(old(State()), id, q).Some?
      ensures ok ==> Some(State()) == PutMsg(old(State()), id, q)
    {
      var k := FindStored(q.storeId);
      if k == |store| {
        return false;
      }
      store := store[k := store[k].(refCount := store[k].refCount + 1)];
      var i := FindOrAddContext(id);
      var c := contexts[i].value;
      contexts := contexts[i := Some(c.(msgs := c.msgs + [q]))];
      ok := true;
    }

    method RestoreClient(id: string, lastMid: Word, disconnectT: nat)
      modifies this`contexts, this`index
      ensures State() == PutContext(old(State()), id, lastMid, disconnectT)
    {
      var i := FindOrAddContext(id);
      var c := contexts[i].value;
      if lastMid != 0 {
        c := c.(lastMid := lastMid);
      }
      contexts := contexts[i := Some(c.(disconnectT := disconnectT))];
      index := index[id := i];
    }

    /** `_db_retain_chunk_restore`: the message goes to the tree as if published without a
        source, which reaches no subscriber. */
    method RestoreRetained(id: nat)
      modifies this`store, this`subs
      ensures Some(State()) == ApplyChunk(old(State()), Retain(id))
    {
      var i := FindStored(id);
      if i < |store| && store[i].retain {
        var topic, empty := store[i].topic, store[i].payload == [];
        if HasTop(subs, Tokens(topic)[0]) {
          var was := RetOf(subs, Tokens(topic));
          subs := RetainPublish(subs, topic, if empty then None else Some(id));
          if was.Some? {
            store := Recounted(store, was.value, -1);
          }
          if !empty {
            store := Recounted(store, id, 1);
          }
        }
      }
    }

    // ----- chunks -----------------------------------------------------------------

    /** The fields of a chunk of kind `code` have been read, or cannot be, and stand for
        chunk `c`. */
    ghost predicate Got(got: Option<(seq<Field>, seq<Byte>)>, code: nat, version: nat, now: nat, ok: bool, c: Chunk)
      requires Valid()
      requires KindsFor(code, version).Some? && (got.Some? ==> |got.value.0| == |KindsFor(code, version).value|)
      reads this
    {
      && ok == got.Some?
      && (ok ==> Rest() == got.value.1 && Assemble(code, version, got.value.0, now) == c)
    }

    ghost method Begin(code: nat, version: nat)
      requires Valid() && KindsFor(code, version).Some?
      modifies this`done, this`todo
      ensures done == [] && todo == KindsFor(code, version).value
      ensures Fields() == ReadFields(todo, Rest())
    {
      done, todo := [], KindsFor(code, version).value;
      ResumeStart(todo, Rest());
    }

    method ReadSub(ghost version: nat, ghost now: nat)
      returns (ok: bool, client: seq<Byte>, filter: seq<Byte>, qos: Byte)
      requires Valid()
      modifies this`pos, this`done, this`todo
      ensures Valid()
      ensures Got(ReadFields(KindsFor(5, version).value, old(Rest())), 5, version, now, ok, Sub(client, filter, qos))
    {
      hide ReadFields, Resume;
      filter, qos := [], 0;
      Begin(5, version);
      ok, client := ReadSized(2);
      if !ok { return; }
      ok, filter := ReadSized(2);
      if !ok { return; }
      var n;
      ok, n := ReadNumber(1);
      qos := Low(n);
      ResumeEnd(done, Rest());
    }

    method ReadConfig(ghost version: nat, ghost now: nat) returns (ok: bool, shutdown: Byte, size: Byte, last: nat)
      requires Valid()
      modifies this`pos, this`done, this`todo
      ensures Valid() && Got(ReadFields(KindsFor(1, version).value, old(Rest())), 1, version, now, ok,
                             Cfg(shutdown, size, last))
    {
      hide ReadFields, Resume;
      size, last := 0, 0;
      var n;
      Begin(1, version);
      ok, n := ReadNumber(1);
      shutdown := Low(n);
      if !ok { return; }
      ok, n := ReadNumber(1);
      size := Low(n);
      if !ok { return; }
      ok, last := ReadRaw();
      if !ok { return; }
      ResumeEnd(done, Rest());
    }

    method ReadRetained(ghost version: nat, ghost now: nat) returns (ok: bool, id: nat)
      requires Valid()
      modifies this`pos, this`done, this`todo
      ensures Valid() && Got(ReadFields(KindsFor(4, version).value, old(Rest())), 4, version, now, ok,
                             Retain(id))
    {
      hide ReadFields, Resume;
      Begin(4, version);
      ok, id := ReadRaw();
      if !ok { return; }
      ResumeEnd(done, Rest());
    }

    method ReadMessage(ghost version: nat, ghost now: nat)
      returns (ok: bool, id: nat, source: seq<Byte>, sourceMid: Word, mid: Word, topic: seq<Byte>, qos: Byte,
               retain: Byte, payload: seq<Byte>)
      requires Valid()
      modifies this`pos, this`done, this`todo
      ensures Valid() && Got(ReadFields(KindsFor(2, version).value, old(Rest())), 2, version, now, ok,
                             MsgStore(id, source, sourceMid, mid, topic, qos, retain, payload))
    {
      hide ReadFields, Resume;
      topic, qos, retain, payload := [], 0, 0, [];
      Begin(2, version);
      ok, id, source, sourceMid, mid := ReadOrigin();
      if !ok { return; }
      assert todo == [Chars, Net(1), Net(1), Data];
      ok, topic, qos, retain, payload := ReadContent();
      if !ok { return; }
      ResumeEnd(done, Rest());
    }

    /** The first half of a message chunk. */
    method ReadOrigin() returns (ok: bool, id: nat, source: seq<Byte>, sourceMid: Word, mid: Word)
      requires Valid() && done == [] && |todo| >= 4 && todo[..4] == [Host(8), Chars, Net(2), Net(2)]
      modifies this`pos, this`done, this`todo
      ensures Valid() && (!ok ==> old(Fields()).None?)
      ensures ok ==> Fields() == old(Fields()) && todo == old(todo)[4..] && |done| == 4
      ensures ok ==>
        && id == Number(done[0]) && source == Content(done[1])
        && sourceMid == Low2(Number(done[2])) && mid == Low2(Number(done[3]))
    {
      hide ReadFields, Resume;
      source, sourceMid, mid := [], 0, 0;
      assert todo[0] == todo[..4][0] && todo[1] == todo[..4][1] && todo[2] == todo[..4][2] && todo[3] == todo[..4][3];
      var n;
      ok, id := ReadRaw();
      if !ok { return; }
      ok, source := ReadSized(2);
      if !ok { return; }
      ok, n := ReadNumber(2);
      sourceMid := Low2(n);
      if !ok { return; }
      ok, n := ReadNumber(2);
      mid := Low2(n);
    }

    /** The second half of a message chunk. */
    method ReadContent() returns (ok: bool, topic: seq<Byte>, qos: Byte, retain: Byte, payload: seq<Byte>)
      requires Valid() && todo == [Chars, Net(1), Net(1), Data]
      modifies this`pos, this`done, this`todo
      ensures Valid() && (!ok ==> old(Fields()).None?)
      ensures ok ==>
        Fields() == old(Fields()) && todo == [] && |done| == |old(done)| + 4 && old(done) == done[..|old(done)|]
      ensures ok ==>
        var fs := done[|old(done)|..];
        && topic == Content(fs[0]) && qos == Low(Number(fs[1])) && retain == Low(Number(fs[2]))
        && payload == Content(fs[3])
    {
      hide ReadFields, Resume;
      qos, retain, payload := 0, 0, [];
      var n;
      ok, topic := ReadSized(2);
      if !ok { return; }
      ok, n := ReadNumber(1);
      qos := Low(n);
      if !ok { return; }
      ok, n := ReadNumber(1);
      retain := Low(n);
      if !ok { return; }
      ok, payload := ReadSized(4);
    }

    method ReadQueued(ghost version: nat, ghost now: nat) returns (ok: bool, client: seq<Byte>, id: nat, mid: Word,
        qos: Byte, retain: Byte, direction: Byte, state: Byte, dup: Byte)
      requires Valid()
      modifies this`pos, this`done, this`todo
      ensures Valid() && Got(ReadFields(KindsFor(3, version).value, old(Rest())), 3, version, now, ok,
                             ClientMsg(client, id, mid, qos, retain, direction, state, dup))
    {
      hide ReadFields, Resume;
      id, mid, qos, retain, direction, state, dup := 0, 0, 0, 0, 0, 0, 0;
      var n;
      Begin(3, version);
      ok, client := ReadSized(2);
      if !ok { return; }
      ok, id := ReadRaw();
      if !ok { return; }
      ok, n := ReadNumber(2);
      mid := Low2(n);
      if !ok { return; }
      ok, qos, retain, direction, state, dup := ReadFlags();
      if !ok { return; }
      ResumeEnd(done, Rest());
    }

    /** The five single bytes that end it. */
    method ReadFlags() returns (ok: bool, qos: Byte, retain: Byte, direction: Byte, state: Byte, dup: Byte)
      requires Valid() && todo == [Net(1), Net(1), Net(1), Net(1), Net(1)]
      modifies this`pos, this`done, this`todo
      ensures Valid() && (!ok ==> old(Fields()).None?)
      ensures ok ==>
        Fields() == old(Fields()) && todo == [] && |done| == |old(done)| + 5 && old(done) == done[..|old(done)|]
      ensures ok ==>
        var fs := done[|old(done)|..];
        && qos == Low(Number(fs[0])) && retain == Low(Number(fs[1])) && direction == Low(Number(fs[2]))
        && state == Low(Number(fs[3])) && dup == Low(Number(fs[4]))
    {
      hide ReadFields, Resume;
      qos, retain, direction, state, dup := 0, 0, 0, 0, 0;
      var n;
      ok, n := ReadNumber(1);
      qos := Low(n);
      if !ok { return; }
      ok, n := ReadNumber(1);
      retain := Low(n);
      if !ok { return; }
      ok, n := ReadNumber(1);
      direction := Low(n);
      if !ok { return; }
      ok, n := ReadNumber(1);
      state := Low(n);
      if !ok { return; }
      ok, n := ReadNumber(1);
      dup := Low(n);
    }

    /** A client chunk; before version 3 it has no time. */
    method ReadClient(version: nat, now: nat) returns (ok: bool, id: seq<Byte>, lastMid: Word, t: nat)
      requires Valid()
      modifies this`pos, this`done, this`todo
      ensures Valid()
      ensures Got(ReadFields(KindsFor(6, version).value, old(Rest())), 6, version, now, ok, Client(id, lastMid, t))
    {
      hide ReadFields, Resume;
      lastMid, t := 0, now;
      var n;
      Begin(6, version);
      ok, id := ReadSized(2);
      if !ok { return; }
      ok, n := ReadNumber(2);
      if !ok { return; }
      lastMid := Low2(n);
      if version != 2 {
        ok, t := ReadRaw();
        if !ok { return; }
      }
      ResumeEnd(done, Rest());
    }

    // ----- the whole file -----------------------------------------------------------

    /** A chunk was read as `c` and carried out. */
    ghost predicate Outcome(was: Image, c: Chunk, ok: bool)
      reads this
    {
      ok == ApplyChunk(was, c).Some? && (ok ==> State() == ApplyChunk(was, c).value)
    }

    /** The same of a chunk whose fields may be missing. */
    ghost predicate Carried(
      was: Image, got: Option<(seq<Field>, seq<Byte>)>, code: nat, version: nat, now: nat, ok: bool)
      requires Valid()
      requires KindsFor(code, version).Some? && (got.Some? ==> |got.value.0| == |KindsFor(code, version).value|)
      reads this
    {
      if got.None? then !ok
      else Outcome(was, Assemble(code, version, got.value.0, now), ok) && (ok ==> Rest() == got.value.1)
    }

    /** And of a turn of the loop. */
    ghost predicate Turned(was: Image, step: Step, ok: bool, more: bool)
      requires Valid()
      reads this
    {
      && (step.End? ==> ok && !more && State() == was)
      && (step.Corrupt? ==> !ok)
      && (step.Skipped? ==> ok && more && State() == was && Rest() == step.rest)
      && (step.Read? ==> Outcome(was, step.c, ok) && (ok ==> more && Rest() == step.rest))
    }

    method DoConfig(shutdown: Byte, size: Byte, last: nat) returns (ok: bool)
      modifies this`lastDbId
      ensures Outcome(old(State()), Cfg(shutdown, size, last), ok)
    {
      ok := size == 8;
      if ok {
        lastDbId := last;
      }
    }

    method DoSub(client: seq<Byte>, filter: seq<Byte>, qos: Byte) returns (ok: bool)
      modifies this`contexts, this`subs
      ensures Outcome(old(State()), Sub(client, filter, qos), ok)
    {
      ok := qos <= 2;
      if ok {
        var _ := FindOrAddContext(Persist.Text(client));
        subs := SubAdd(subs, Persist.Text(filter), Leaf(Persist.Text(client), qos));
      }
    }

    /** The body of the switch in `mqtt3_db_restore`. */
    method RestoreChunk(code: nat, version: nat, now: nat) returns (ok: bool)
      requires Valid() && KindsFor(code, version).Some?
      modifies this
      ensures Valid()
      ensures Carried(old(State()), ReadFields(KindsFor(code, version).value, old(Rest())), code, version, now, ok)
    {
      hide ReadFields, Assemble, PutContext, PutMsg, PutRetained;
      if code == 1 {
        var shutdown, size, last;
        ok, shutdown, size, last := ReadConfig(version, now);
        if ok {
          ok := DoConfig(shutdown, size, last);
        }
      } else if code == 2 {
        var id, source, sourceMid, mid, topic, qos, retain, payload;
        ok, id, source, sourceMid, mid, topic, qos, retain, payload := ReadMessage(version, now);
        ok := ok && topic != [];
        if ok {
          StoreMessage(id, source, sourceMid, topic, qos, retain, payload);
          assert Some(State()) ==
            ApplyChunk(old(State()), MsgStore(id, source, sourceMid, mid, topic, qos, retain, payload));
        }
      } else if code == 3 {
        var client, id, mid, qos, retain, direction, state, dup;
        ok, client, id, mid, qos, retain, direction, state, dup := ReadQueued(version, now);
        ok := ok && client != [];
        if ok {
          ok := RestoreMsg(Persist.Text(client), QueuedMsg(id, mid, qos, retain, direction, state, dup));
        }
      } else if code == 4 {
        var id;
        ok, id := ReadRetained(version, now);
        if ok {
          RestoreRetained(id);
        }
      } else if code == 5 {
        var client, filter, qos;
        ok, client, filter, qos := ReadSub(version, now);
        if ok {
          ok := DoSub(client, filter, qos);
        }
      } else {
        var id, lastMid, t;
        ok, id, lastMid, t := ReadClient(version, now);
        ok := ok && id != [];
        if ok {
          RestoreClient(Persist.Text(id), lastMid, t);
        }
      }
    }

    /** The magic, the checksum, which is not looked at, and the version. */
    method ReadHeader() returns (ok: bool, version: nat)
      requires Valid() && pos == 0
      modifies this`pos
      ensures Valid() && (ok <==> |file| >= 23 && file[..15] == MAGIC && NetValue(file[19..23]) <= VERSION)
      ensures ok ==> version == NetValue(file[19..23]) && Rest() == file[23..]
    {
      version := 0;
      assert Rest() == file;
      assert |file| >= 23 ==> file[15..][4..][..4] == file[19..23] && file[15..][4..][4..] == file[23..];
      var bytes;
      ok, bytes := ReadE(15);
      ok := ok && bytes == MAGIC;
      if ok {
        ok, bytes := ReadE(4);
        if ok {
          ok, bytes := ReadE(4);
          if ok {
            version := NetValue(bytes);
            ok := version <= VERSION;
          }
        }
      }
    }

    /** `mqtt3_db_restore` */
    method Restore(now: nat) returns (ok: bool)
      requires Valid() && pos == 0 && State() == Opened()
      modifies this
      ensures ok <==> Persist.Restore(file, now).Some?
      ensures ok ==> State() == Persist.Restore(file, now).value
    {
      hide RestoreFrom, Persist.ApplyChunk, ReadFields, ReadChunk, Opened;
      var version;
      ok, version := ReadHeader();
      if !ok {
        return;
      }
      RestoreFromIsApply(Opened(), file[23..], version, now);
      var more := true;
      while more
        invariant Valid() && ok
        invariant RestoreFrom(Opened(), file[23..], version, now) ==
          if more then RestoreFrom(State(), Rest(), version, now) else Some(State())
        decreases more, |file| - pos
      {
        RestoreTurn(State(), Rest(), version, now);
        ok, more := Turn(version, now);
        if !ok {
          return;
        }
      }
    }

    /** One turn of the loop. */
    method Turn(version: nat, now: nat) returns (ok: bool, more: bool)
      requires Valid()
      modifies this
      ensures Valid() && (ok && more ==> pos > old(pos))
      ensures Turned(old(State()), ReadChunk(old(Rest()), version, now), ok, more)
    {
      hide ReadFields, Persist.ApplyChunk, Assemble;
      more := false;
      ghost var rest := Rest();
      var bytes;
      ok, bytes := ReadE(2);
      if !ok {
        return true, false;
      }
      var code := NetValue(bytes);
      ok, bytes := ReadE(4);
      if !ok {
        return;
      }
      assert bytes == rest[2..6] && Rest() == rest[6..];
      more := true;
      if KindsFor(code, version).None? {
        pos := if pos + NetValue(bytes) <= |file| then pos + NetValue(bytes) else |file|;
      } else {
        ok := RestoreChunk(code, version, now);
      }
    }
  }

  lemma RestoreTurn(db: Image, bs: seq<Byte>, version: nat, now: nat)
    ensures var step := ReadChunk(bs, version, now);
      && (step.End? ==> RestoreFrom(db, bs, version, now) == Some(db))
      && (step.Corrupt? ==> RestoreFrom(db, bs, version, now).None?)
      && (step.Skipped? ==> RestoreFrom(db, bs, version, now) == RestoreFrom(db, step.rest, version, now))
      && (step.Read? ==>
            var o := ApplyChunk(db, step.c);
            RestoreFrom(db, bs, version, now) ==
              if o.None? then None else RestoreFrom(o.value, step.rest, version, now))
  {
  }

  lemma ResumeStart(todo: seq<Kind>, rest: seq<Byte>)
    ensures Resume([], todo, rest) == ReadFields(todo, rest)
  {
    match ReadFields(todo, rest)
    case None =>
    case Some((fs, more)) => assert [] + fs == fs;
  }

  lemma ResumeEnd(done: seq<Field>, rest: seq<Byte>)
    ensures Resume(done, [], rest) == Some((done, rest))
  {
    assert done + [] == done;
  }
}

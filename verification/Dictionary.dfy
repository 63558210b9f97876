/** The string dictionary of iniparser: three parallel arrays, searched from the front and
    filled by probing, as a finite map from keys to optional values. */
module Dictionary {
  import opened Options

  type Slot = Option<string>

  const MIN_SIZE: nat := 128

  // ----- the hash -----------------------------------------------------------------

  /** A C `char` made unsigned: bytes from 128 on are negative and wrap. */
  function Widened(c: char): bv32 {
    var n := c as int % 0x100;
    (if n < 0x80 then n else 0xFFFF_FF00 + n) as bv32
  }

  function Mix(h: bv32, c: char): bv32 {
    var a := h + Widened(c);
    var b := a + (a << 10);
    b ^ (b >> 6)
  }

  function Fold(h: bv32, key: string): bv32
    decreases |key|
  {
    if key == "" then h else Fold(Mix(h, key[0]), key[1..])
  }

  function Final(h: bv32): bv32 {
    var a := h + (h << 3);
    var b := a ^ (a >> 11);
    b + (b << 15)
  }

  function Hash(key: string): bv32 {
    Final(Fold(0, key))
  }

  /** `dictionary_hash` */
  method DictionaryHash(key: string) returns (hash: bv32)
    ensures hash == Hash(key)
  {
    hide Mix, Final;
    hash := 0;
    var i := 0;
    assert key[0..] == key;
    while i < |key|
      invariant i <= |key| && Fold(hash, key[i..]) == Fold(0, key)
    {
      assert key[i..][1..] == key[i + 1..];
      hash := Mix(hash, key[i]);
      i := i + 1;
    }
    hash := Final(hash);
  }

  // ----- counting slots -----------------------------------------------------------

  function Count(ks: seq<Slot>): nat {
    if ks == [] then 0 else (if ks[0].Some? then 1 else 0) + Count(ks[1..])
  }

  lemma {:induction false} CountPut(ks: seq<Slot>, i: nat, k: Slot)
    requires i < |ks|
    ensures Count(ks[i := k]) == Count(ks) - (if ks[i].Some? then 1 else 0) + (if k.Some? then 1 else 0)
  {
    if i > 0 {
      CountPut(ks[1..], i - 1, k);
      assert ks[i := k][1..] == ks[1..][i - 1 := k];
    }
  }

  lemma {:induction false} CountGrown(ks: seq<Slot>, more: seq<Slot>)
    requires forall i :: 0 <= i < |more| ==> more[i].None?
    ensures Count(ks + more) == Count(ks)
    decreases |ks|, |more|
  {
    if ks != [] {
      CountGrown(ks[1..], more);
      assert (ks + more)[1..] == ks[1..] + more;
    } else if more != [] {
      CountGrown([], more[1..]);
      assert [] + more == more && [] + more[1..] == more[1..];
    }
  }

  /** While fewer slots are taken than there are, one is free. */
  lemma {:induction false} FreeSlot(ks: seq<Slot>) returns (f: nat)
    requires Count(ks) < |ks|
    ensures f < |ks| && ks[f].None?
  {
    if ks[0].None? {
      f := 0;
    } else {
      f := FreeSlot(ks[1..]);
      f := f + 1;
    }
  }

  lemma {:induction false} CountAtMost(ks: seq<Slot>)
    ensures Count(ks) <= |ks|
  {
    if ks != [] {
      CountAtMost(ks[1..]);
    }
  }

  // ----- the table two arrays stand for ---------------------------------------------

  ghost predicate Distinct(ks: seq<Slot>) {
    forall i, j :: 0 <= i < j < |ks| && ks[i].Some? ==> ks[i] != ks[j]
  }

  ghost function Table(ks: seq<Slot>, vs: seq<Slot>): map<string, Slot>
    requires |ks| == |vs| && Distinct(ks)
  {
    map i | 0 <= i < |ks| && ks[i].Some? :: ks[i].value := vs[i]
  }

  lemma TableHas(ks: seq<Slot>, vs: seq<Slot>, i: nat)
    requires |ks| == |vs| && Distinct(ks) && i < |ks| && ks[i].Some?
    ensures ks[i].value in Table(ks, vs) && Table(ks, vs)[ks[i].value] == vs[i]
  {
  }

  lemma TableOnly(ks: seq<Slot>, vs: seq<Slot>, k: string) returns (i: nat)
    requires |ks| == |vs| && Distinct(ks) && k in Table(ks, vs)
    ensures i < |ks| && ks[i] == Some(k)
  {
    i :| 0 <= i < |ks| && ks[i] == Some(k);
  }

  /** Writing a slot that is free, or holds the same key, sets one key of the table. */
  lemma TablePut(ks: seq<Slot>, vs: seq<Slot>, i: nat, k: string, v: Slot)
    requires |ks| == |vs| && Distinct(ks) && i < |ks|
    requires ks[i] == Some(k) || (ks[i].None? && k !in Table(ks, vs))
    ensures Distinct(ks[i := Some(k)]) && Table(ks[i := Some(k)], vs[i := v]) == Table(ks, vs)[k := v]
  {
    hide Table;
    var ks', vs' := ks[i := Some(k)], vs[i := v];
    forall j | 0 <= j < |ks| && ks[j] == Some(k) ensures j == i {
      TableHas(ks, vs, j);
    }
    assert Distinct(ks');
    TableHas(ks', vs', i);
    var a, b := Table(ks', vs'), Table(ks, vs)[k := v];
    forall x | x in a ensures x in b && a[x] == b[x] {
      var j := TableOnly(ks', vs', x);
      TableHas(ks', vs', j);
      if j != i {
        TableHas(ks, vs, j);
      }
    }
    forall x | x in b && x != k ensures x in a {
      var j := TableOnly(ks, vs, x);
      TableHas(ks', vs', j);
    }
  }

  /** Emptying a slot drops its key. */
  lemma TableClear(ks: seq<Slot>, vs: seq<Slot>, i: nat)
    requires |ks| == |vs| && Distinct(ks) && i < |ks| && ks[i].Some?
    ensures Distinct(ks[i := None]) && Table(ks[i := None], vs[i := None]) == Table(ks, vs) - {ks[i].value}
  {
    var ks', vs' := ks[i := None], vs[i := None];
    var a, b := Table(ks', vs'), Table(ks, vs) - {ks[i].value};
    forall x ensures x in a <==> x in b
      ensures x in a && x in b ==> a[x] == b[x]
    {
      if x in a {
        var j := TableOnly(ks', vs', x);
        TableHas(ks', vs', j);
        TableHas(ks, vs, j);
      }
      if x in b {
        var j := TableOnly(ks, vs, x);
        TableHas(ks', vs', j);
      }
    }
  }

  /** Free slots at the end change nothing. */
  lemma TableGrown(ks: seq<Slot>, vs: seq<Slot>, ks': seq<Slot>, vs': seq<Slot>)
    requires |ks| == |vs| && Distinct(ks) && |ks'| == |vs'| && ks <= ks' && vs <= vs'
    requires forall i :: |ks| <= i < |ks'| ==> ks'[i].None?
    ensures Distinct(ks') && Table(ks', vs') == Table(ks, vs)
  {
    var a, b := Table(ks', vs'), Table(ks, vs);
    forall x ensures x in a <==> x in b
      ensures x in a && x in b ==> a[x] == b[x]
    {
      if x in a {
        var j := TableOnly(ks', vs', x);
        TableHas(ks', vs', j);
        TableHas(ks, vs, j);
      }
      if x in b {
        var j := TableOnly(ks, vs, x);
        TableHas(ks', vs', j);
      }
    }
  }

  // ----- the dictionary -------------------------------------------------------------

  class Dictionary {
    var n: nat
    var size: nat
    var val: array<Slot>
    var key: array<Slot>
    var hash: array<bv32>

    ghost predicate Valid()
      reads this, key, hash
    {
      && key != val && hash as object != key as object && hash as object != val as object
      && size == key.Length == val.Length == hash.Length && size > 0
      && n == Count(key[..])
      && (forall i :: 0 <= i < size && key[i].Some? ==> hash[i] == Hash(key[i].value))
      && Distinct(key[..])
    }

    /** The dictionary as a finite map. */
    ghost function Contents(): map<string, Slot>
      requires Valid()
      reads this, key, val, hash
    {
      Table(key[..], val[..])
    }

    /** `dictionary_new` */
    constructor (wanted: nat)
      ensures Valid() && Contents() == map[] && fresh(key) && fresh(val) && fresh(hash)
      ensures size == if wanted < MIN_SIZE then MIN_SIZE else wanted
    {
      var s := if wanted < MIN_SIZE then MIN_SIZE else wanted;
      n, size := 0, s;
      val := new Slot[s](_ => None);
      key := new Slot[s](_ => None);
      hash := new bv32[s](_ => 0);
      new;
      CountGrown([], key[..]);
      assert [] + key[..] == key[..];
      TableGrown([], [], key[..], val[..]);
      assert Table([], []) == map[];
    }

    /** The search of all three entry points: the slot of the key, or `size`. */
    method Find(k: string) returns (i: nat)
      requires Valid()
      ensures i <= size && (i < size ==> key[i] == Some(k))
      ensures i < size <==> k in Contents()
    {
      hide Hash;
      var h := DictionaryHash(k);
      i := 0;
      while i < size
        invariant i <= size && forall j :: 0 <= j < i ==> key[j] != Some(k)
      {
        if key[i].Some? && h == hash[i] && k == key[i].value {
          TableHas(key[..], val[..], i);
          return;
        }
        i := i + 1;
      }
      if k in Contents() {
        var _ := TableOnly(key[..], val[..], k);
        assert false;
      }
    }

    /** `dictionary_get` */
    method Get(k: string, def: Slot) returns (r: Slot)
      requires Valid()
      ensures r == if k in Contents() then Contents()[k] else def
    {
      var i := Find(k);
      r := def;
      if i < size {
        r := val[i];
        TableHas(key[..], val[..], i);
      }
    }

    /** A taken slot gets a new value. */
    method Replace(i: nat, v: Slot)
      requires Valid() && i < size && key[i].Some?
      modifies val
      ensures Valid() && Contents() == old(Contents())[key[i].value := v]
    {
      hide Hash, Table, Count;
      TablePut(key[..], val[..], i, key[i].value, v);
      val[i] := v;
      assert key[..][i := key[i]] == key[..];
      assert val[..] == old(val[..])[i := v];
    }

    /** The three arrays doubled; the new halves are empty. */
    method Grow()
      requires Valid()
      modifies this
      ensures Valid() && n == old(n) && size == 2 * old(size) && Contents() == old(Contents())
      ensures fresh(key) && fresh(val) && fresh(hash)
    {
      hide Hash, Table, Count;
      ghost var was, vs := key[..], val[..];
      var val' := Doubled(val, None);
      var key' := Doubled(key, None);
      var hash' := Doubled(hash, 0);
      val, key, hash := val', key', hash';
      size := 2 * size;
      CountGrown(was, key[|was|..]);
      assert was + key[|was|..] == key[..];
      assert was <= key[..] && vs <= val[..];
      TableGrown(was, vs, key[..], val[..]);
    }

    /** `mem_double` */
    method Doubled<T>(a: array<T>, zero: T) returns (b: array<T>)
      ensures fresh(b) && b.Length == 2 * a.Length
      ensures forall i :: 0 <= i < b.Length ==> b[i] == if i < a.Length then a[i] else zero
    {
      b := new T[2 * a.Length](_ => zero);
      for i := 0 to a.Length
        invariant forall j :: 0 <= j < b.Length ==> b[j] == if j < i then a[j] else zero
      {
        b[i] := a[i];
      }
    }

    /** The probe from slot `n` on, wrapping at the end, which always meets a free slot. */
    method Probe() returns (i: nat)
      requires Valid() && n < size
      ensures i < size && key[i].None?
    {
      ghost var f := FreeSlot(key[..]);
      i := n;
      while key[i].Some?
        invariant i < size
        decreases if i <= f then f - i else f - i + size
      {
        i := i + 1;
        if i == size {
          i := 0;
        }
      }
    }

    /** A free slot taken. */
    method Put(i: nat, k: string, v: Slot)
      requires Valid() && i < size && key[i].None? && k !in Contents()
      modifies this`n, key, val, hash
      ensures Valid() && Contents() == old(Contents())[k := v]
    {
      hide Hash, Table, Count;
      var h := DictionaryHash(k);
      CountPut(key[..], i, Some(k));
      TablePut(key[..], val[..], i, k, v);
      key[i] := Some(k);
      val[i] := v;
      hash[i] := h;
      n := n + 1;
      assert key[..] == old(key[..])[i := Some(k)];
      assert val[..] == old(val[..])[i := v];
    }

    /** `dictionary_set`; no key is an error. */
    method Set(k: Option<string>, v: Slot) returns (rc: int)
      requires Valid()
      modifies this, key, val, hash
      ensures Valid() && rc == (if k.None? then -1 else 0)
      ensures Contents() == if k.None? then old(Contents()) else old(Contents())[k.value := v]
    {
      if k.None? {
        return -1;
      }
      hide Hash, Table, Count;
      EmptyHasNothing();
      CountAtMost(key[..]);
      var i := size;
      if n > 0 {
        i := Find(k.value);
      }
      if i < size {
        Replace(i, v);
        return 0;
      }
      if n == size {
        Grow();
      }
      i := Probe();
      Put(i, k.value, v);
      rc := 0;
    }

    lemma EmptyHasNothing()
      requires Valid()
      ensures n == 0 ==> Contents() == map[]
    {
      if n == 0 {
        NoneTaken(key[..]);
        TableGrown([], [], key[..], val[..]);
        assert Table([], []) == map[];
      }
    }

    /** `dictionary_unset` */
    method Unset(k: Option<string>)
      requires Valid()
      modifies this`n, key, val, hash
      ensures Valid() && Contents() == if k.None? then old(Contents()) else old(Contents()) - {k.value}
    {
      hide Hash, Table, Count;
      if k.None? {
        return;
      }
      var i := Find(k.value);
      if i == size {
        return;
      }
      Clear(i);
    }

    method Clear(i: nat)
      requires Valid() && i < size && key[i].Some?
      modifies this`n, key, val, hash
      ensures Valid() && Contents() == old(Contents()) - {old(key[i].value)}
    {
      hide Hash, Table, Count;
      CountPut(key[..], i, None);
      TableClear(key[..], val[..], i);
      key[i] := None;
      val[i] := None;
      hash[i] := 0;
      n := n - 1;
      assert key[..] == old(key[..])[i := None];
      assert val[..] == old(val[..])[i := None];
    }
  }

  lemma {:induction false} NoneTaken(ks: seq<Slot>)
    requires Count(ks) == 0
    ensures forall i :: 0 <= i < |ks| ==> ks[i].None?
  {
    if ks != [] {
      NoneTaken(ks[1..]);
      assert forall i :: 0 < i < |ks| ==> ks[i] == ks[1..][i - 1];
    }
  }
}

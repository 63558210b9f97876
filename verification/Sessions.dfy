/** The contexts of the broker: who holds them, under which client id they are found, and
    which of them the subscription leaves point at, through accept, CONNECT with takeover,
    disconnect, expiry and cleanup. */
module Sessions {
  import opened Options

  datatype Phase = New | Connected | Disconnecting

  /** `struct mosquitto`. A context is known by its address. */
  class Context {
    var connected: bool
    var phase: Phase
    var id: Option<string>
    var cleanSession: bool
    var dbIndex: nat

    /** `mqtt3_context_init` for an accepted socket. */
    constructor ()
      ensures connected && phase == New && id == None && cleanSession
    {
      connected, phase, id, cleanSession, dbIndex := true, New, None, true, 0;
    }
  }

  /** A leaf of the subscription tree: the context it points at, the client id this had when
      it subscribed, and the filter. */
  datatype OwnedLeaf = OwnedLeaf(owner: Context, client: string, filter: string)

  class Sessions {
    var contexts: seq<Context?>
    var index: map<string, nat>
    var leaves: set<OwnedLeaf>

    ghost function Held(): set<Context>
      reads this
    {
      set c: Context | c in contexts
    }

    predicate Holds(c: Context)
      reads this, c
    {
      c.dbIndex < |contexts| && contexts[c.dbIndex] == c
    }

    /** Every held context knows its slot; a context on which CONNECT may still come has no
        client id; the index finds exactly the contexts that carry one; every leaf points at a
        held context that still carries the id it
        subscribed with. */
    ghost predicate Valid()
      reads this, Held()
    {
      && (forall i :: 0 <= i < |contexts| && contexts[i] != null ==>
            && contexts[i].dbIndex == i
            && (contexts[i].phase == New && contexts[i].connected ==> contexts[i].id.None?)
            && (contexts[i].id.Some? ==> contexts[i].id.value in index && index[contexts[i].id.value] == i))
      && (forall s :: s in index ==>
            index[s] < |contexts| && contexts[index[s]] != null && contexts[index[s]].id == Some(s))
      && (forall l :: l in leaves ==> l.owner in contexts && l.owner.id == Some(l.client))
    }

    /** The same while context `x` is without its id. */
    ghost predicate ValidApart(x: Context)
      reads this, Held()
    {
      && (forall i :: 0 <= i < |contexts| && contexts[i] != null ==>
            && contexts[i].dbIndex == i
            && (contexts[i] != x && contexts[i].phase == New && contexts[i].connected ==> contexts[i].id.None?)
            && (contexts[i] != x && contexts[i].id.Some? ==>
                  contexts[i].id.value in index && index[contexts[i].id.value] == i))
      && (forall s :: s in index ==>
            && index[s] < |contexts| && contexts[index[s]] != null && contexts[index[s]] != x
            && contexts[index[s]].id == Some(s))
      && (forall l :: l in leaves ==> l.owner in contexts && (l.owner != x ==> l.owner.id == Some(l.client)))
    }

    /** A broker that has just been opened: one empty slot. */
    constructor ()
      ensures Valid() && contexts == [null] && index == map[] && leaves == {}
    {
      contexts, index, leaves := [null], map[], {};
    }

    /** The end of `mqtt3_socket_accept`: the first free slot, or a new one. */
    method Accept() returns (c: Context)
      requires Valid()
      modifies this`contexts
      ensures Valid() && fresh(c) && c.phase == New && c.connected
      ensures c.dbIndex < |contexts| && contexts[c.dbIndex] == c && |old(contexts)| <= |contexts|
      ensures forall i :: 0 <= i < |old(contexts)| && i != c.dbIndex ==> contexts[i] == old(contexts)[i]
      ensures |contexts| == |old(contexts)| || (null !in old(contexts) && contexts == old(contexts) + [c])
    {
      c := new Context();
      var i := 0;
      while i < |contexts| && contexts[i] != null
        invariant i <= |contexts| && null !in contexts[..i]
      {
        i := i + 1;
      }
      c.dbIndex := i;
      contexts := if i < |contexts| then contexts[i := c] else contexts + [c];
      assert contexts[i] == c;
      assert Held() == old(Held()) + {c} by {
        forall x | x in old(Held()) ensures x in Held() {
          var k :| 0 <= k < |old(contexts)| && old(contexts)[k] == x;
          assert contexts[k] == x;
        }
      }
    }

    /** `mqtt3_context_disconnect`: only the socket goes. */
    method Disconnect(c: Context)
      requires Valid() && c in contexts
      modifies c`connected
      ensures Valid() && !c.connected
    {
      c.connected := false;
    }

    /** `mqtt3_context_cleanup`: the socket, the subscriptions of a clean session, and the
        client id with its index entry. */
    method Cleanup(c: Context)
      requires Valid() && c in contexts
      modifies this`index, this`leaves, c`connected, c`id
      ensures !c.connected && c.id == None && ValidApart(c)
      ensures leaves == if c.cleanSession then set l | l in old(leaves) && l.owner != c else old(leaves)
      ensures index == if old(c.id).Some? then old(index) - {old(c.id).value} else old(index)
    {
      c.connected := false;
      if c.cleanSession {
        leaves := set l | l in leaves && l.owner != c;
      }
      if c.id.Some? {
        if c.id.value in index {
          index := index - {c.id.value};
        }
        c.id := None;
      }
    }

    /** A CONNECT whose client id is known: that session gets the new socket, and the
        context the packet came on is left for the main loop to collect. */
    method TakeOver(c: Context, client: string, clean: bool)
      requires Valid() && c in contexts && c.phase == New && c.connected && client in index
      modifies this`index, this`leaves, c, contexts[index[client]]
      ensures Valid() && index == old(index) && c.dbIndex == old(c.dbIndex)
      ensures leaves == if clean then set l | l in old(leaves) && l.client != client else old(leaves)
      ensures !c.connected && c.id == None && contexts[index[client]] != c
      ensures contexts[index[client]].connected && contexts[index[client]].cleanSession == clean
      ensures contexts[index[client]].phase == Connected
    {
      hide Valid, ValidApart;
      OwnerFound(c, client);
      var session := contexts[index[client]];
      SetClean(session, clean);
      Cleanup(session);
      assert forall l :: l in leaves && l.owner == session ==> l.client == client;
      assert index == old(index) - {client};
      assert session.cleanSession == clean;
      assert c.phase == New && c != session;
      Resume(session, client);
      Abandon(c);
      assert index == old(index);
    }

    method SetClean(c: Context, clean: bool)
      requires Valid() && c in contexts
      modifies c`cleanSession
      ensures Valid() && c.cleanSession == clean
    {
      c.cleanSession := clean;
    }

    lemma OwnerFound(c: Context, client: string)
      requires Valid() && c in contexts && c.phase == New && c.connected && client in index
      ensures index[client] < |contexts| && contexts[index[client]] != null
      ensures var session := contexts[index[client]];
        && session != c && session.dbIndex == index[client] && session.id == Some(client)
        && forall l :: l in leaves ==> (l.owner == session <==> l.client == client)
    {
    }

    /** The session goes on under the same id. */
    method Resume(session: Context, client: string)
      requires ValidApart(session) && session in contexts && client !in index
      requires forall l :: l in leaves && l.owner == session ==> l.client == client
      modifies this`index, session
      ensures Valid() && index == old(index)[client := session.dbIndex] && session.dbIndex == old(session.dbIndex)
      ensures session.connected && session.phase == Connected && session.id == Some(client)
      ensures session.cleanSession == old(session.cleanSession)
    {
      session.phase := Connected;
      session.connected := true;
      session.id := Some(client);
      index := index[client := session.dbIndex];
    }

    method Abandon(c: Context)
      requires Valid() && c in contexts && c.phase == New && c.connected
      modifies c
      ensures Valid() && !c.connected && c.id == None && c.dbIndex == old(c.dbIndex)
    {
      c.connected := false;
      c.phase := Disconnecting;
    }

    /** A CONNECT with a client id that is not known. After a late refusal the context
        stays in the phase of a new one, without a socket, and keeps the id. */
    method Enter(c: Context, client: string, clean: bool, late: bool)
      requires Valid() && c in contexts && c.phase == New && c.connected && client !in index
      modifies this`index, c
      ensures Valid() && index == old(index)[client := c.dbIndex] && c.dbIndex == old(c.dbIndex)
      ensures c.id == Some(client) && c.cleanSession == clean
      ensures c.connected == late && c.phase == if late then Connected else New
    {
      c.id := Some(client);
      c.cleanSession := clean;
      index := index[client := c.dbIndex];
      if late {
        c.phase := Connected;
      } else {
        c.connected := false;
      }
    }

    /** `mqtt3_handle_connect`. `accepted` is the outcome of the checks that come before the
        search for the client id, `late` of those behind it. */
    method Connect(c: Context, client: string, clean: bool, accepted: bool, late: bool)
      requires Valid() && c in contexts && c.connected
      modifies this`index, this`leaves, Held()
      ensures Valid()
      ensures old(c.phase) != New || !accepted ==> !c.connected && index == old(index) && leaves == old(leaves)
      ensures old(c.phase) == New && accepted ==>
        && index == (if client in old(index) then old(index) else old(index)[client := c.dbIndex])
        && leaves == (if clean then set l | l in old(leaves) && l.client != client else old(leaves))
        && var session := contexts[index[client]];
           && session.cleanSession == clean && session.connected == late
           && (session.phase == if client in old(index) || late then Connected else New)
           && (session != c <==> client in old(index)) && (session != c ==> !c.connected && c.id == None)
    {
      if c.phase != New || !accepted {
        Disconnect(c);
        return;
      }
      if client in index {
        TakeOver(c, client, clean);
        if !late {
          Disconnect(contexts[index[client]]);
        }
      } else {
        assert forall l :: l in leaves ==> l.client != client;
        Enter(c, client, clean, late);
      }
    }

    /** `mqtt3_handle_subscribe` and `mqtt3_handle_unsubscribe`, as far as leaves go. */
    method Subscribe(c: Context, filter: string)
      requires Valid() && c in contexts && c.id.Some?
      modifies this`leaves
      ensures Valid() && leaves == old(leaves) + {OwnedLeaf(c, c.id.value, filter)}
    {
      leaves := leaves + {OwnedLeaf(c, c.id.value, filter)};
    }

    method Unsubscribe(c: Context, filter: string)
      requires Valid() && c in contexts && c.id.Some?
      modifies this`leaves
      ensures Valid() && leaves == set l | l in old(leaves) && !(l.client == c.id.value && l.filter == filter)
    {
      assert forall l :: l in leaves ==> (l.owner == c <==> l.client == c.id.value);
      leaves := set l | l in leaves && !(l.owner == c && l.filter == filter);
    }

    /** The main loop at slot `i`: a context without a socket goes if its session is clean
        or has expired. */
    method Collect(i: nat, expired: bool)
      requires Valid() && i < |contexts|
      modifies this, Held()
      ensures Valid() && |contexts| == |old(contexts)|
      ensures forall j :: 0 <= j < |contexts| && j != i ==> contexts[j] == old(contexts)[j]
      ensures var c := old(contexts)[i];
        if c != null && !old(c.connected) && (old(c.cleanSession) || expired) then
          && contexts[i] == null
          && leaves == (set l | l in old(leaves) && l.owner != c)
          && index == (if old(c.id).Some? then old(index) - {old(c.id).value} else old(index))
        else contexts == old(contexts) && leaves == old(leaves) && index == old(index)
      ensures forall c :: c in old(Held()) && c != old(contexts)[i] ==> unchanged(c)
    {
      hide Valid, ValidApart;
      var c := contexts[i];
      if c == null || c.connected {
        return;
      }
      if c.cleanSession || expired {
        SetClean(c, true);
        Cleanup(c);
        Vacate(c, i);
      }
    }

    /** The slot of a context that has lost its id, and its leaves, is emptied. */
    method Vacate(c: Context, i: nat)
      requires ValidApart(c) && i < |contexts| && contexts[i] == c && c.id == None
      requires forall l :: l in leaves ==> l.owner != c
      modifies this`contexts
      ensures Valid() && contexts == old(contexts)[i := null]
    {
      var before := contexts;
      contexts := contexts[i := null];
      assert forall j :: 0 <= j < |contexts| && j != i ==> contexts[j] == before[j];
      assert forall j :: 0 <= j < |contexts| && j != i && before[j] != null ==> before[j] != c;
      forall l | l in leaves ensures l.owner in contexts {
        var k :| 0 <= k < |before| && before[k] == l.owner;
        assert contexts[k] == l.owner;
      }
    }

    /** A slot the main loop empties. */
    predicate Due(c: Context?, i: nat, expired: set<nat>)
      reads c
    {
      c != null && !c.connected && (c.cleanSession || i in expired)
    }

    /** The pass of the main loop over all slots: a slot is emptied exactly if it is due, and
        exactly the leaves and the index entries of its context go with it. */
    method CollectAll(expired: set<nat>)
      requires Valid()
      modifies this, Held()
      ensures Valid() && |contexts| == |old(contexts)|
      ensures forall i :: 0 <= i < |contexts| ==>
        contexts[i] == if old(Due(contexts[i], i, expired)) then null else old(contexts)[i]
      ensures forall l :: l in leaves <==> l in old(leaves) && !old(Due(l.owner, l.owner.dbIndex, expired))
      ensures forall s :: s in index <==> s in old(index) && !old(Due(contexts[index[s]], index[s], expired))
      ensures forall s :: s in index ==> index[s] == old(index)[s]
    {
      hide Valid;
      SlotsKnown();
      var i := 0;
      while i < |contexts|
        invariant Valid() && i <= |contexts| == |old(contexts)| && Held() <= old(Held())
        invariant forall j :: 0 <= j < i ==>
          contexts[j] == if old(Due(contexts[j], j, expired)) then null else old(contexts)[j]
        invariant forall j :: i <= j < |contexts| ==> contexts[j] == old(contexts)[j]
        invariant forall j :: i <= j < |contexts| && contexts[j] != null ==> unchanged(contexts[j])
        invariant forall l :: l in leaves <==>
          l in old(leaves) && !(old(l.owner.dbIndex) < i && old(Due(l.owner, l.owner.dbIndex, expired)))
        invariant forall s :: s in index <==>
          s in old(index) && !(old(index)[s] < i && old(Due(contexts[index[s]], index[s], expired)))
        invariant forall s :: s in index ==> index[s] == old(index)[s]
      {
        OnlySlot(i);
        Collect(i, i in expired);
        i := i + 1;
      }
    }

    /** Leaves and index point at slots that are held. */
    lemma SlotsKnown()
      requires Valid()
      ensures forall l :: l in leaves ==> l.owner.dbIndex < |contexts| && contexts[l.owner.dbIndex] == l.owner
      ensures forall s :: s in index ==>
        index[s] < |contexts| && contexts[index[s]] != null && contexts[index[s]].id == Some(s)
      ensures forall i :: 0 <= i < |contexts| && contexts[i] != null ==>
        (&& contexts[i].dbIndex == i
         && (contexts[i].id.Some? ==> contexts[i].id.value in index && index[contexts[i].id.value] == i))
    {
    }

    lemma OnlySlot(i: nat)
      requires Valid() && i < |contexts|
      ensures forall j :: 0 <= j < |contexts| && j != i && contexts[j] != null ==> contexts[j] != contexts[i]
    {
    }

    /** Leaves are told apart by client id as well as by context, which is why the tree may
        be read as a table of client ids. */
    lemma ClientIsOwner(a: OwnedLeaf, b: OwnedLeaf)
      requires Valid() && a in leaves && b in leaves
      ensures a.owner == b.owner <==> a.client == b.client
      ensures a.owner in contexts && a.client in index && contexts[index[a.client]] == a.owner
    {
      assert a.owner.id == Some(a.client) && b.owner.id == Some(b.client);
    }
  }
}

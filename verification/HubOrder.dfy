/** Ranging over Go maps: a pass made one connection at a time, in whatever order. */
module HubOrder {
  import opened Common
  import opened Envelope
  import opened HubModel
  import opened HubInvariants

  /** One iteration of the range loops: offer, and drop the connection when its buffer was full. */
  function OfferOne(s: HubState, c: ClientId, msg: WSMessage): HubState
    requires Listed(s, c)
  {
    var u := s.channels[c].user;
    s.(channels := s.channels[c := Offer(s.channels[c], msg, |s.log|)],
       clients := if HasRoom(s, c) then s.clients else s.clients[u := s.clients[u] - {c}])
  }

  /** The connections of `order`, one after the other. */
  function OfferInOrder(s: HubState, order: seq<ClientId>, msg: WSMessage): HubState
    decreases |order|
  {
    if order == [] then s
    else
      var s1 := OfferInOrder(s, order[..|order| - 1], msg);
      var c := order[|order| - 1];
      if Listed(s1, c) then OfferOne(s1, c, msg) else s1
  }

  /** An enumeration: every listed connection of the users in us, each once, in any order. */
  ghost predicate Enumerates(s: HubState, us: set<UserId>, order: seq<ClientId>) {
    && Distinct(order)
    && (forall c :: c in order <==> Listed(s, c) && s.channels[c].user in us)
  }

  /** What has changed after the connections in `seen` were served. */
  ghost predicate Served(s: HubState, seen: set<ClientId>, msg: WSMessage, r: HubState) {
    && r == s.(channels := r.channels, clients := r.clients)
    && r.channels.Keys == s.channels.Keys && r.clients.Keys == s.clients.Keys
    && (forall c | c in s.channels ::
         r.channels[c] == if c in seen then Offer(s.channels[c], msg, |s.log|) else s.channels[c])
    && (forall u | u in s.clients ::
         r.clients[u] == set c | c in s.clients[u] && (c in seen ==> HasRoom(s, c)))
  }

  lemma OfferOneServes(s: HubState, seen: set<ClientId>, msg: WSMessage, r: HubState, c: ClientId)
    requires ListedAreOpen(s) && Served(s, seen, msg, r) && Listed(s, c) && c !in seen
    ensures Listed(r, c) && r.channels[c] == s.channels[c]
    ensures Served(s, seen + {c}, msg, OfferOne(r, c, msg))
  {
    var u := s.channels[c].user;
    var r' := OfferOne(r, c, msg);
    forall v | v in s.clients
      ensures r'.clients[v] == set d | d in s.clients[v] && (d in seen + {c} ==> HasRoom(s, d))
    {
      if v != u { assert c !in s.clients[v]; }
    }
  }

  ghost function Elements(order: seq<ClientId>): set<ClientId> {
    set c | c in order
  }

  lemma {:induction false} OfferInOrderServes(s: HubState, order: seq<ClientId>, msg: WSMessage)
    requires ListedAreOpen(s) && Distinct(order) && forall c | c in order :: Listed(s, c)
    ensures Served(s, Elements(order), msg, OfferInOrder(s, order, msg))
  {
    if order == [] {
      assert s.channels.Keys == s.channels.Keys;
    } else {
      var front := order[..|order| - 1];
      var c := order[|order| - 1];
      assert order == front + [c];
      OfferInOrderServes(s, front, msg);
      OfferOneServes(s, Elements(front), msg, OfferInOrder(s, front, msg), c);
      assert Elements(order) == Elements(front) + {c};
    }
  }

  /** One more connection: it is still as it was, and serving it extends the enumeration. */
  lemma OfferNext(s: HubState, order: seq<ClientId>, msg: WSMessage, c: ClientId)
    requires ListedAreOpen(s) && Distinct(order) && forall d | d in order :: Listed(s, d)
    requires Listed(s, c) && c !in order
    ensures var r := OfferInOrder(s, order, msg);
      && r.log == s.log && Listed(r, c) && r.channels[c] == s.channels[c]
      && OfferInOrder(s, order + [c], msg) == OfferOne(r, c, msg)
  {
    OfferInOrderServes(s, order, msg);
    OfferOneServes(s, Elements(order), msg, OfferInOrder(s, order, msg), c);
    assert (order + [c])[..|order + [c]| - 1] == order;
  }

  /** After the connections of one more user, the enumeration covers that user as well. */
  lemma CoversUser(s: HubState, done: set<UserId>, u: UserId, order: seq<ClientId>, longer: seq<ClientId>)
    requires ListedAreOpen(s) && u in s.clients
    requires forall c :: c in order <==> Listed(s, c) && s.channels[c].user in done
    requires forall c :: c in longer <==> c in order || c in s.clients[u]
    ensures forall c :: c in longer <==> Listed(s, c) && s.channels[c].user in done + {u}
  {
  }

  /**
   Map-order independence: whatever order the maps are enumerated in, a pass
   ends in the one state that OfferUsers describes.
   */
  lemma OrderIndependent(s: HubState, us: set<UserId>, order: seq<ClientId>, msg: WSMessage)
    requires ListedAreOpen(s) && Enumerates(s, us, order)
    ensures OfferInOrder(s, order, msg) == OfferUsers(s, us, msg)
  {
    var r := OfferInOrder(s, order, msg);
    var t := OfferUsers(s, us, msg);
    OfferInOrderServes(s, order, msg);
    assert r.channels == t.channels;
    forall u | u in s.clients ensures r.clients[u] == t.clients[u] {
      assert forall c | c in s.clients[u] :: Listed(s, c) && s.channels[c].user == u;
    }
    assert r.clients == t.clients;
  }

  /** Two enumerations of the same maps leave the same table, buffers and closed channels. */
  lemma AnyTwoOrdersAgree(s: HubState, a: Audience, msg: WSMessage, o1: seq<ClientId>, o2: seq<ClientId>)
    requires ListedAreOpen(s) && Enumerates(s, Audible(s, a), o1) && Enumerates(s, Audible(s, a), o2)
    ensures OfferInOrder(s, o1, msg) == OfferInOrder(s, o2, msg)
    ensures forall fromHub :: var e := Entry(msg, a, fromHub);
      Deliver(s, e) == OfferInOrder(s, o1, msg).(log := s.log + [e])
  {
    OrderIndependent(s, Audible(s, a), o1, msg);
    OrderIndependent(s, Audible(s, a), o2, msg);
    NeverSendsOnClosed(s, a);
  }
}

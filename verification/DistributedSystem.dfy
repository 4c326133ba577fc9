/**
 Many clients, joined by connections that deliver messages in order. Every step is one handler of one
 client, run to its end, or the loss of messages on a connection that is going down.
 */
module DistributedSystem {

  import opened Wrappers
  import opened Distributed
  import opened DistributedClient

  datatype Link = Link(requester: Name, acceptor: Name)

  /** wire[e] holds the messages on their way to end e. */
  datatype Sys = Sys(clients: map<Name, Client>, links: map<nat, Link>, wire: map<Conn, seq<Msg>>)

  datatype Step =
    | Connect(id: nat, requester: Name, acceptor: Name)
    | Initialize(end: Conn)
    | Deliver(end: Conn)
    | Disconnect(end: Conn)
    | Lose(end: Conn, kept: nat)
    | PotentialParents(who: Name, names: seq<Name>)
    | Settings(who: Name, acceptChildren: bool, maxChildren: int)
    | SessionInitialized(who: Name)
    | SessionDestroyed(who: Name)

  function Twin(e: Conn): Conn
  {
    match e case Requested(id) => Accepted(id) case Accepted(id) => Requested(id)
  }

  function OwnerIn(links: map<nat, Link>, e: Conn): Name
    requires e.id in links
  {
    if e.Requested? then links[e.id].requester else links[e.id].acceptor
  }

  function Owner(s: Sys, e: Conn): Name
    requires e.id in s.links
  {
    OwnerIn(s.links, e)
  }

  predicate IsOpen(s: Sys, e: Conn)
  {
    e.id in s.links && Owner(s, e) in s.clients && e in s.clients[Owner(s, e)].open
  }

  /** The messages a client sent enter the wires. */
  function Put(s: Sys, name: Name, o: Out): Sys
  {
    s.(clients := s.clients[name := o.client],
       wire := map e | e in s.wire :: s.wire[e] + MsgsTo(o.sends, Twin(e)))
  }

  predicate Enabled(s: Sys, step: Step)
  {
    match step
    case Connect(id, requester, acceptor) =>
      id !in s.links && requester in s.clients && acceptor in s.clients
    case Initialize(e) =>
      IsOpen(s, e) && e !in s.clients[Owner(s, e)].peers
    case Deliver(e) =>
      IsOpen(s, e) && e in s.clients[Owner(s, e)].peers && e in s.wire && s.wire[e] != []
    case Disconnect(e) =>
      IsOpen(s, e)
    case Lose(e, kept) =>
      e in s.wire && kept <= |s.wire[e]| && !(IsOpen(s, e) && IsOpen(s, Twin(e)))
    case PotentialParents(who, _) => who in s.clients
    case Settings(who, _, _) => who in s.clients
    case SessionInitialized(who) => who in s.clients
    case SessionDestroyed(who) => who in s.clients
  }

  /** The event a step is to the client that owns the end, as far as the client is concerned. */
  function After(s: Sys, e: Conn, ev: Event): Sys
    requires e.id in s.links && Owner(s, e) in s.clients
    requires ParentKnown(s.clients[Owner(s, e)])
    requires ev.Initialized? ==> ev.e !in s.clients[Owner(s, e)].peers
  {
    Put(s, Owner(s, e), Handle(s.clients[Owner(s, e)], ev))
  }

  predicate AllKnown(s: Sys)
  {
    forall n :: n in s.clients ==> ParentKnown(s.clients[n])
  }

  function Do(s: Sys, step: Step): Sys
    requires Enabled(s, step) && AllKnown(s)
  {
    match step
    case Connect(id, requester, acceptor) =>
      var c1 := s.clients[requester].(open := s.clients[requester].open + {Requested(id)});
      var clients1 := s.clients[requester := c1];
      var c2 := clients1[acceptor].(open := clients1[acceptor].open + {Accepted(id)});
      Sys(clients1[acceptor := c2], s.links[id := Link(requester, acceptor)],
          s.wire[Requested(id) := []][Accepted(id) := []])
    case Initialize(e) =>
      After(s, e, Initialized(e, Owner(s, Twin(e))))
    case Deliver(e) =>
      After(s.(wire := s.wire[e := s.wire[e][1..]]), e, Received(e, s.wire[e][0]))
    case Disconnect(e) =>
      After(s, e, Closed(e))
    case Lose(e, kept) =>
      s.(wire := s.wire[e := s.wire[e][..kept]])
    case PotentialParents(who, names) =>
      Put(s, who, Out(OnPotentialParents(s.clients[who], names), []))
    case Settings(who, accept, max) =>
      Put(s, who, Out(s.clients[who].(acceptChildren := accept, maxChildren := max), []))
    case SessionInitialized(who) =>
      Put(s, who, Out(s.clients[who].(session := true), []))
    case SessionDestroyed(who) =>
      Put(s, who, Out(s.clients[who].(session := false), []))
  }

  // ---------------------------------------------------------------- the invariant

  /** An open end belongs to the client, and a registered one carries the name of the far side. */
  predicate EndOk(links: map<nat, Link>, c: Client, e: Conn)
  {
    && (e in c.open ==> e.id in links && OwnerIn(links, e) == c.me)
    && (e in c.peers ==> e.id in links && c.peers[e].username == OwnerIn(links, Twin(e)))
  }

  ghost predicate ClientOk(links: map<nat, Link>, n: Name, c: Client)
  {
    c.me == n && Valid(c) && forall e :: EndOk(links, c, e)
  }

  /** Applying what is still on the wire to the requester's record gives what the acceptor has told. */
  predicate Agree(id: nat, requester: Client, acceptor: Client, wire: seq<Msg>)
  {
    Requested(id) in requester.open && Accepted(id) in acceptor.open ==>
      Apply(KnownAt(requester, Requested(id)), wire, acceptor.me) == Told(acceptor, Accepted(id))
  }

  /** Both sides agree, and nothing travels towards an acceptor. */
  predicate LinkOk(s: Sys, id: nat)
    requires id in s.links
  {
    && s.links[id].requester in s.clients && s.links[id].acceptor in s.clients
    && Requested(id) in s.wire && Accepted(id) in s.wire
    && s.wire[Accepted(id)] == []
    && Agree(id, s.clients[s.links[id].requester], s.clients[s.links[id].acceptor], s.wire[Requested(id)])
  }

  ghost predicate Inv(s: Sys)
  {
    && (forall n :: n in s.clients ==> ClientOk(s.links, n, s.clients[n]))
    && (forall id :: id in s.links ==> LinkOk(s, id))
    && (forall e :: e in s.wire ==> e.id in s.links)
  }

  lemma InvKnown(s: Sys)
    requires Inv(s)
    ensures AllKnown(s) && forall n :: n in s.clients ==> Valid(s.clients[n])
  {
  }

  /** Where runs start: clients that have just been created, without a session, and no connection. */
  predicate Init(s: Sys)
  {
    && s.links == map[] && s.wire == map[]
    && forall n :: n in s.clients ==>
      var c := s.clients[n];
      c.me == n && !c.session && c.parent == None && c.children == [] && c.peers == map[] && c.open == {} && c.told == map[]
  }

  lemma InitInv(s: Sys)
    requires Init(s)
    ensures Inv(s)
  {
  }

  // ---------------------------------------------------------------- one handler

  lemma HandlerAgree(s: Sys, n: Name, o: Out, id: nat)
    requires Inv(s) && n in s.clients && Follows(s.clients[n], o) && id in s.links
    requires s.links[id].requester in s.clients && s.links[id].acceptor in s.clients && Requested(id) in s.wire
    ensures var s' := Put(s, n, o);
            Agree(id, s'.clients[s.links[id].requester], s'.clients[s.links[id].acceptor], s'.wire[Requested(id)])
  {
    var link := s.links[id];
    var k := KnownAt(s.clients[link.requester], Requested(id));
    assert LinkOk(s, id);
    assert FollowsAt(s.clients[n], o, Requested(id)) && FollowsAt(s.clients[n], o, Accepted(id));
    ApplyAppend(k, s.wire[Requested(id)], MsgsTo(o.sends, Accepted(id)), link.acceptor);
    if link.acceptor != n {
      assert EndOk(s.links, s.clients[n], Accepted(id));
    }
  }

  lemma HandlerLink(s: Sys, n: Name, o: Out, id: nat)
    requires Inv(s) && n in s.clients && Follows(s.clients[n], o) && id in s.links
    ensures LinkOk(Put(s, n, o), id)
  {
    assert LinkOk(s, id);
    HandlerAgree(s, n, o, id);
    assert FollowsAt(s.clients[n], o, Requested(id));
  }

  lemma HandlerClient(links: map<nat, Link>, n: Name, c: Client, o: Out)
    requires ClientOk(links, n, c) && Follows(c, o)
    ensures ClientOk(links, n, o.client)
  {
    forall e ensures EndOk(links, o.client, e) {
      assert FollowsAt(c, o, e) && EndOk(links, c, e);
    }
  }

  lemma HandlerInv(s: Sys, n: Name, o: Out)
    requires Inv(s) && n in s.clients && Follows(s.clients[n], o)
    ensures Inv(Put(s, n, o))
  {
    HandlerClient(s.links, n, s.clients[n], o);
    forall id | id in s.links ensures LinkOk(Put(s, n, o), id) { HandlerLink(s, n, o, id); }
  }

  // ---------------------------------------------------------------- every step

  /** The client with one more open connection. */
  function Opened(c: Client, e: Conn): Client
  {
    c.(open := c.open + {e})
  }

  lemma OpenedOk(links: map<nat, Link>, n: Name, c: Client, e: Conn, more: map<nat, Link>)
    requires ClientOk(links, n, c) && e.id in more && OwnerIn(more, e) == n
    requires forall id :: id in links ==> id in more && more[id] == links[id]
    ensures ClientOk(more, n, Opened(c, e))
  {
    forall x ensures EndOk(more, Opened(c, e), x) {
      assert EndOk(links, c, x);
    }
  }

  lemma MoreLinksOk(links: map<nat, Link>, n: Name, c: Client, more: map<nat, Link>)
    requires ClientOk(links, n, c)
    requires forall id :: id in links ==> id in more && more[id] == links[id]
    ensures ClientOk(more, n, c)
  {
    forall x ensures EndOk(more, c, x) {
      assert EndOk(links, c, x);
    }
  }

  lemma ConnectClient(s: Sys, id: nat, requester: Name, acceptor: Name, n: Name)
    requires Inv(s) && Enabled(s, Connect(id, requester, acceptor)) && n in s.clients
    ensures var s' := Do(s, Connect(id, requester, acceptor)); ClientOk(s'.links, n, s'.clients[n])
  {
    var links := s.links[id := Link(requester, acceptor)];
    var c := s.clients[n];
    MoreLinksOk(s.links, n, c, links);
    if n == requester {
      OpenedOk(links, n, c, Requested(id), links);
    }
    var c1 := if n == requester then Opened(c, Requested(id)) else c;
    if n == acceptor {
      OpenedOk(links, n, c1, Accepted(id), links);
    }
    ConnectOpens(s, id, requester, acceptor, n);
  }

  /** A connection opens one end at each of its two clients, which may be the same. */
  lemma ConnectOpens(s: Sys, id: nat, requester: Name, acceptor: Name, n: Name)
    requires AllKnown(s) && Enabled(s, Connect(id, requester, acceptor)) && n in s.clients
    ensures var s' := Do(s, Connect(id, requester, acceptor));
            var c1 := if n == requester then Opened(s.clients[n], Requested(id)) else s.clients[n];
            && s'.links == s.links[id := Link(requester, acceptor)] && n in s'.clients
            && s'.clients[n] == if n == acceptor then Opened(c1, Accepted(id)) else c1
  {
  }

  lemma UnknownEnd(links: map<nat, Link>, n: Name, c: Client, e: Conn)
    requires ClientOk(links, n, c) && e.id !in links
    ensures KnownAt(c, e) == NOTHING && Told(c, e) == NOTHING
  {
    assert EndOk(links, c, e);
  }

  lemma ConnectNewLink(s: Sys, id: nat, requester: Name, acceptor: Name)
    requires Inv(s) && Enabled(s, Connect(id, requester, acceptor))
    ensures LinkOk(Do(s, Connect(id, requester, acceptor)), id)
  {
    UnknownEnd(s.links, requester, s.clients[requester], Requested(id));
    UnknownEnd(s.links, acceptor, s.clients[acceptor], Accepted(id));
  }

  lemma ConnectOldLink(s: Sys, id: nat, requester: Name, acceptor: Name, i: nat)
    requires AllKnown(s) && Enabled(s, Connect(id, requester, acceptor)) && i in s.links && LinkOk(s, i)
    ensures LinkOk(Do(s, Connect(id, requester, acceptor)), i)
  {
  }

  lemma ConnectInv(s: Sys, id: nat, requester: Name, acceptor: Name)
    requires Inv(s) && Enabled(s, Connect(id, requester, acceptor))
    ensures Inv(Do(s, Connect(id, requester, acceptor)))
  {
    var s' := Do(s, Connect(id, requester, acceptor));
    forall n | n in s'.clients ensures ClientOk(s'.links, n, s'.clients[n]) {
      ConnectClient(s, id, requester, acceptor, n);
    }
    forall i | i in s'.links ensures LinkOk(s', i) {
      if i == id { ConnectNewLink(s, id, requester, acceptor); } else { ConnectOldLink(s, id, requester, acceptor, i); }
    }
  }

  /** One client and one wire replaced. */
  function Replace(s: Sys, n: Name, c: Client, e: Conn, wire: seq<Msg>): Sys
  {
    Sys(s.clients[n := c], s.links, s.wire[e := wire])
  }

  /** A client that differs in the record of one requested connection only, consistently with the wire. */
  lemma ReplaceLink(s: Sys, n: Name, c1: Client, e: Conn, wire: seq<Msg>, i: nat)
    requires i in s.links && LinkOk(s, i)
    requires n in s.clients && e.id in s.links && Owner(s, e) == n
    requires s.links[i].acceptor in s.clients && s.clients[s.links[i].acceptor].me == s.links[i].acceptor
    requires c1.me == s.clients[n].me && c1.open == s.clients[n].open && c1.told == s.clients[n].told
    requires forall x :: x != e ==> KnownAt(c1, x) == KnownAt(s.clients[n], x)
    requires e.Accepted? ==> wire == [] && KnownAt(c1, e) == KnownAt(s.clients[n], e)
    requires e.Requested? && e in s.wire ==>
      Apply(KnownAt(c1, e), wire, Owner(s, Twin(e))) == Apply(KnownAt(s.clients[n], e), s.wire[e], Owner(s, Twin(e)))
    ensures LinkOk(Replace(s, n, c1, e, wire), i)
  {
    var s' := Replace(s, n, c1, e, wire);
    var r := s.links[i].requester;
    var a := s.links[i].acceptor;
    assert s'.wire[Accepted(i)] == [];
    assert Told(s'.clients[a], Accepted(i)) == Told(s.clients[a], Accepted(i));
    if e != Requested(i) {
      assert KnownAt(s'.clients[r], Requested(i)) == KnownAt(s.clients[r], Requested(i));
    }
  }

  lemma ReplaceInv(s: Sys, n: Name, c1: Client, e: Conn, wire: seq<Msg>)
    requires Inv(s) && n in s.clients && ClientOk(s.links, n, c1) && e.id in s.links && Owner(s, e) == n
    requires c1.open == s.clients[n].open && c1.told == s.clients[n].told
    requires forall x :: x != e ==> KnownAt(c1, x) == KnownAt(s.clients[n], x)
    requires e.Accepted? ==> wire == [] && KnownAt(c1, e) == KnownAt(s.clients[n], e)
    requires e.Requested? && e in s.wire ==>
      Apply(KnownAt(c1, e), wire, Owner(s, Twin(e))) == Apply(KnownAt(s.clients[n], e), s.wire[e], Owner(s, Twin(e)))
    ensures Inv(Replace(s, n, c1, e, wire))
  {
    forall i | i in s.links ensures LinkOk(Replace(s, n, c1, e, wire), i) {
      assert LinkOk(s, i) && ClientOk(s.links, s.links[i].acceptor, s.clients[s.links[i].acceptor]);
      ReplaceLink(s, n, c1, e, wire, i);
    }
    ReplaceClients(s, n, c1, e, wire);
  }

  lemma ReplaceClients(s: Sys, n: Name, c1: Client, e: Conn, wire: seq<Msg>)
    requires Inv(s) && ClientOk(s.links, n, c1)
    ensures var s' := Replace(s, n, c1, e, wire); forall x :: x in s'.clients ==> ClientOk(s'.links, x, s'.clients[x])
  {
  }

  lemma PutReplaced(s: Sys, n: Name, c1: Client, e: Conn, wire: seq<Msg>, o: Out)
    ensures Put(Replace(s, n, c1, e, wire), n, o) == Put(s.(wire := s.wire[e := wire]), n, o)
  {
    assert s.clients[n := c1][n := o.client] == s.clients[n := o.client];
  }

  lemma RegisterOk(links: map<nat, Link>, n: Name, c: Client, e: Conn)
    requires ClientOk(links, n, c) && e in c.open && e !in c.peers && e.id in links
    ensures ClientOk(links, n, Register(c, e, OwnerIn(links, Twin(e))))
    ensures forall x :: KnownAt(Register(c, e, OwnerIn(links, Twin(e))), x) == KnownAt(c, x)
  {
    var c1 := Register(c, e, OwnerIn(links, Twin(e)));
    OnInitializedFollows(c, e, OwnerIn(links, Twin(e)));
    forall x ensures EndOk(links, c1, x) {
      assert EndOk(links, c, x);
    }
  }

  lemma ReceiveOk(links: map<nat, Link>, n: Name, c: Client, e: Conn, m: Msg)
    requires ClientOk(links, n, c) && e in c.peers && e.Requested? && e.id in links
    ensures ClientOk(links, n, Receive(c, e, m))
    ensures KnownAt(Receive(c, e, m), e) == ApplyMsg(KnownAt(c, e), m, OwnerIn(links, Twin(e)))
    ensures forall x :: x != e ==> KnownAt(Receive(c, e, m), x) == KnownAt(c, x)
  {
    OnMessageFollows(c, e, m);
    assert EndOk(links, c, e);
    forall x ensures EndOk(links, Receive(c, e, m), x) {
      assert EndOk(links, c, x);
    }
  }

  /** Registering a connection that came up: nothing was known of it, nothing is. */
  lemma Registration(s: Sys, e: Conn)
    requires Inv(s) && Enabled(s, Initialize(e))
    ensures e in s.wire
    ensures Inv(Replace(s, Owner(s, e), Register(s.clients[Owner(s, e)], e, Owner(s, Twin(e))), e, s.wire[e]))
  {
    assert LinkOk(s, e.id);
    RegisterOk(s.links, Owner(s, e), s.clients[Owner(s, e)], e);
    ReplaceInv(s, Owner(s, e), Register(s.clients[Owner(s, e)], e, Owner(s, Twin(e))), e, s.wire[e]);
  }

  /** Initializing is registering, then the rest of the handler. */
  lemma InitializeInTwo(s: Sys, e: Conn)
    requires AllKnown(s) && Enabled(s, Initialize(e)) && e in s.wire
    requires e.id in s.links && Owner(s, Twin(e)) in s.clients
    ensures var username := Owner(s, Twin(e)); var c := s.clients[Owner(s, e)];
            Do(s, Initialize(e)) ==
            Put(Replace(s, Owner(s, e), Register(c, e, username), e, s.wire[e]), Owner(s, e), OnInitialized(c, e, username))
  {
    var username := Owner(s, Twin(e));
    var c := s.clients[Owner(s, e)];
    PutReplaced(s, Owner(s, e), Register(c, e, username), e, s.wire[e], OnInitialized(c, e, username));
    assert s.wire[e := s.wire[e]] == s.wire;
  }

  lemma RegistrationFollows(s: Sys, e: Conn)
    requires Inv(s) && AllKnown(s) && Enabled(s, Initialize(e))
    ensures Owner(s, Twin(e)) in s.clients
    ensures var username := Owner(s, Twin(e)); var c := s.clients[Owner(s, e)];
            Follows(Register(c, e, username), OnInitialized(c, e, username))
  {
    assert LinkOk(s, e.id);
    InvKnown(s);
    OnInitializedFollows(s.clients[Owner(s, e)], e, Owner(s, Twin(e)));
  }

  lemma InitializeInv(s: Sys, e: Conn)
    requires Inv(s) && AllKnown(s) && Enabled(s, Initialize(e))
    ensures Inv(Do(s, Initialize(e)))
  {
    var n := Owner(s, e);
    var c := s.clients[n];
    var username := Owner(s, Twin(e));
    Registration(s, e);
    RegistrationFollows(s, e);
    InitializeInTwo(s, e);
    HandlerInv(Replace(s, n, Register(c, e, username), e, s.wire[e]), n, OnInitialized(c, e, username));
  }

  /** Only requesters receive messages, and receiving one is as good as having it on the wire. */
  lemma Arrival(s: Sys, e: Conn)
    requires Inv(s) && Enabled(s, Deliver(e))
    ensures e.Requested?
    ensures Inv(Replace(s, Owner(s, e), Receive(s.clients[Owner(s, e)], e, s.wire[e][0]), e, s.wire[e][1..]))
  {
    var n := Owner(s, e);
    var c := s.clients[n];
    var m := s.wire[e][0];
    assert LinkOk(s, e.id);
    ReceiveOk(s.links, n, c, e, m);
    assert Apply(KnownAt(Receive(c, e, m), e), s.wire[e][1..], Owner(s, Twin(e))) ==
           Apply(KnownAt(c, e), s.wire[e], Owner(s, Twin(e)));
    ReplaceInv(s, n, Receive(c, e, m), e, s.wire[e][1..]);
  }

  lemma ArrivalFollows(s: Sys, e: Conn)
    requires Inv(s) && AllKnown(s) && Enabled(s, Deliver(e)) && e.Requested?
    ensures Follows(Receive(s.clients[Owner(s, e)], e, s.wire[e][0]),
                    OnMessage(s.clients[Owner(s, e)], e, s.wire[e][0]))
  {
    InvKnown(s);
    OnMessageFollows(s.clients[Owner(s, e)], e, s.wire[e][0]);
  }

  /** Delivering is receiving the message, then the rest of the handler. */
  lemma DeliverInTwo(s: Sys, e: Conn)
    requires AllKnown(s) && Enabled(s, Deliver(e))
    ensures Do(s, Deliver(e)) ==
            Put(Replace(s, Owner(s, e), Receive(s.clients[Owner(s, e)], e, s.wire[e][0]), e, s.wire[e][1..]),
                Owner(s, e), OnMessage(s.clients[Owner(s, e)], e, s.wire[e][0]))
  {
    PutReplaced(s, Owner(s, e), Receive(s.clients[Owner(s, e)], e, s.wire[e][0]), e, s.wire[e][1..],
                OnMessage(s.clients[Owner(s, e)], e, s.wire[e][0]));
  }

  lemma DeliverInv(s: Sys, e: Conn)
    requires Inv(s) && AllKnown(s) && Enabled(s, Deliver(e))
    ensures Inv(Do(s, Deliver(e)))
  {
    var n := Owner(s, e);
    Arrival(s, e);
    ArrivalFollows(s, e);
    DeliverInTwo(s, e);
    HandlerInv(Replace(s, n, Receive(s.clients[n], e, s.wire[e][0]), e, s.wire[e][1..]), n,
               OnMessage(s.clients[n], e, s.wire[e][0]));
  }

  lemma LoseLink(s: Sys, e: Conn, kept: nat, i: nat)
    requires AllKnown(s) && i in s.links && LinkOk(s, i) && e.id in s.links && Enabled(s, Lose(e, kept))
    ensures LinkOk(Do(s, Lose(e, kept)), i)
  {
  }

  lemma LoseInv(s: Sys, e: Conn, kept: nat)
    requires Inv(s) && Enabled(s, Lose(e, kept))
    ensures AllKnown(s) && Inv(Do(s, Lose(e, kept)))
  {
    forall i | i in s.links ensures LinkOk(Do(s, Lose(e, kept)), i) {
      LoseLink(s, e, kept, i);
    }
  }

  lemma DisconnectFollows(s: Sys, e: Conn)
    requires Inv(s) && AllKnown(s) && Enabled(s, Disconnect(e))
    ensures Follows(s.clients[Owner(s, e)], OnClosed(s.clients[Owner(s, e)], e))
    ensures Do(s, Disconnect(e)) == Put(s, Owner(s, e), OnClosed(s.clients[Owner(s, e)], e))
  {
    InvKnown(s);
    OnClosedFollows(s.clients[Owner(s, e)], e);
  }

  lemma DisconnectInv(s: Sys, e: Conn)
    requires Inv(s) && AllKnown(s) && Enabled(s, Disconnect(e))
    ensures Inv(Do(s, Disconnect(e)))
  {
    DisconnectFollows(s, e);
    HandlerInv(s, Owner(s, e), OnClosed(s.clients[Owner(s, e)], e));
  }

  /** Changes of what the server or the session contributes. */
  lemma ServerFollows(c: Client, c': Client)
    requires Valid(c)
    requires c' == c.(session := c'.session, potentialParents := c'.potentialParents,
                      acceptChildren := c'.acceptChildren, maxChildren := c'.maxChildren)
    ensures Follows(c, Out(c', [])) && (InSync(c') <==> InSync(c))
  {
  }

  lemma ServerInv(s: Sys, n: Name, c': Client)
    requires Inv(s) && n in s.clients
    requires c' == s.clients[n].(session := c'.session, potentialParents := c'.potentialParents,
                                 acceptChildren := c'.acceptChildren, maxChildren := c'.maxChildren)
    ensures Inv(Put(s, n, Out(c', [])))
  {
    ServerFollows(s.clients[n], c');
    HandlerInv(s, n, Out(c', []));
  }

  /** Every step keeps the invariant. */
  lemma StepInv(s: Sys, step: Step)
    requires Inv(s) && Enabled(s, step)
    ensures AllKnown(s) && Inv(Do(s, step))
  {
    InvKnown(s);
    match step
    case Connect(id, requester, acceptor) => ConnectInv(s, id, requester, acceptor);
    case Initialize(e) => InitializeInv(s, e);
    case Deliver(e) => DeliverInv(s, e);
    case Disconnect(e) => DisconnectInv(s, e);
    case Lose(e, kept) => LoseInv(s, e, kept);
    case PotentialParents(who, names) => ServerInv(s, who, OnPotentialParents(s.clients[who], names));
    case Settings(who, accept, max) =>
      ServerInv(s, who, s.clients[who].(acceptChildren := accept, maxChildren := max));
    case SessionInitialized(who) => ServerInv(s, who, s.clients[who].(session := true));
    case SessionDestroyed(who) => ServerInv(s, who, s.clients[who].(session := false));
  }
}

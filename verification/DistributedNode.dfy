/**
 DistributedNetwork and DistributedPeer as objects: the handlers update parent, children,
 distributed_peers and the branch values of the peers in place. Every method is proved against the
 function of module Distributed that specifies it.
 */
module DistributedNode {

  import opened Wrappers
  import opened Distributed
  import DistributedClient

  class DistributedPeer {
    const username: Name
    const connection: Conn
    var branchLevel: Option<nat>
    var branchRoot: Option<Name>

    constructor (username: Name, connection: Conn)
      ensures this.username == username && this.connection == connection
      ensures branchLevel == None && branchRoot == None
    {
      this.username := username;
      this.connection := connection;
      branchLevel := None;
      branchRoot := None;
    }

    ghost function Record(): Peer
      reads this
    {
      Peer(username, Known(branchLevel, branchRoot))
    }
  }

  // ---------------------------------------------------------------- lists of peers

  function Conns(peers: seq<DistributedPeer>): (r: seq<Conn>)
    ensures |r| == |peers| && forall i :: 0 <= i < |peers| ==> r[i] == peers[i].connection
  {
    seq(|peers|, i requires 0 <= i < |peers| => peers[i].connection)
  }

  /** get_distributed_peer */
  function Lookup(peers: seq<DistributedPeer>, e: Conn): (r: DistributedPeer?)
    ensures r != null ==> r in peers && r.connection == e
    ensures r == null <==> e !in Conns(peers)
  {
    if peers == [] then null
    else if peers[0].connection == e then peers[0]
    else
      assert Conns(peers) == [peers[0].connection] + Conns(peers[1..]);
      Lookup(peers[1..], e)
  }

  ghost function Records(peers: seq<DistributedPeer>): map<Conn, Peer>
    reads peers
  {
    map e | e in Conns(peers) :: Lookup(peers, e).Record()
  }

  /** list.remove, for an element the list holds at most once */
  function Without(peers: seq<DistributedPeer>, p: DistributedPeer): seq<DistributedPeer>
  {
    if peers == [] then [] else if peers[0] == p then peers[1..] else [peers[0]] + Without(peers[1..], p)
  }

  lemma OtherConn(peers: seq<DistributedPeer>, p: DistributedPeer)
    requires Distinct(Conns(peers)) && p in peers && peers[0] != p
    ensures peers[0].connection != p.connection && p in peers[1..]
  {
    var i :| 0 < i < |peers| && peers[i] == p;
    assert Conns(peers)[0] != Conns(peers)[i];
  }

  lemma ConnsCons(p: DistributedPeer, rest: seq<DistributedPeer>)
    ensures Conns([p] + rest) == [p.connection] + Conns(rest)
  {
  }

  lemma RestDistinct(peers: seq<DistributedPeer>)
    requires Distinct(Conns(peers)) && peers != []
    ensures Conns(peers) == [peers[0].connection] + Conns(peers[1..]) && Distinct(Conns(peers[1..]))
    ensures peers[0] !in peers[1..]
  {
    assert Conns(peers) == [peers[0].connection] + Conns(peers[1..]);
    forall i, j | 0 <= i < j < |peers[1..]| ensures Conns(peers[1..])[i] != Conns(peers[1..])[j] {
      assert Conns(peers)[i + 1] != Conns(peers)[j + 1];
    }
    forall i | 0 <= i < |peers[1..]| ensures peers[1..][i] != peers[0] {
      assert Conns(peers)[0] != Conns(peers)[i + 1];
    }
  }

  lemma {:induction false} WithoutIs(peers: seq<DistributedPeer>, p: DistributedPeer)
    requires Distinct(Conns(peers)) && p in peers
    ensures Conns(Without(peers, p)) == RemoveFirst(Conns(peers), p.connection)
  {
    RestDistinct(peers);
    if peers[0] != p {
      OtherConn(peers, p);
      WithoutIs(peers[1..], p);
      ConnsCons(peers[0], Without(peers[1..], p));
      assert Conns(peers)[1..] == Conns(peers[1..]);
    } else {
      assert Conns(peers)[1..] == Conns(peers[1..]);
    }
  }

  lemma InCons(q: DistributedPeer, peers: seq<DistributedPeer>)
    requires peers != []
    ensures q in peers <==> q == peers[0] || q in peers[1..]
  {
    assert peers == [peers[0]] + peers[1..];
  }

  lemma {:induction false} WithoutMember(peers: seq<DistributedPeer>, p: DistributedPeer, q: DistributedPeer)
    requires Distinct(Conns(peers)) && p in peers
    ensures q in Without(peers, p) <==> q in peers && q != p
  {
    RestDistinct(peers);
    InCons(q, peers);
    if peers[0] != p {
      OtherConn(peers, p);
      WithoutMember(peers[1..], p, q);
    }
  }

  lemma WithoutConns(peers: seq<DistributedPeer>, p: DistributedPeer)
    requires Distinct(Conns(peers)) && p in peers
    ensures Conns(Without(peers, p)) == RemoveFirst(Conns(peers), p.connection)
    ensures Distinct(Conns(Without(peers, p)))
    ensures forall q :: q in Without(peers, p) <==> q in peers && q != p
    ensures forall e :: e in Conns(Without(peers, p)) <==> e in Conns(peers) && e != p.connection
  {
    DistributedClient.RemoveFirstRemoves(Conns(peers), p.connection);
    WithoutIs(peers, p);
    forall q ensures q in Without(peers, p) <==> q in peers && q != p {
      WithoutMember(peers, p, q);
    }
  }

  /** With distinct connections, a listed peer is the one found by its connection. */
  lemma {:induction false} LookupListed(peers: seq<DistributedPeer>, p: DistributedPeer)
    requires Distinct(Conns(peers)) && p in peers
    ensures Lookup(peers, p.connection) == p
  {
    assert Conns(peers) == [peers[0].connection] + Conns(peers[1..]);
    if peers[0] != p {
      OtherConn(peers, p);
      LookupListed(peers[1..], p);
    }
  }

  /** The record found for a connection is that of the only peer listed for it. */
  lemma RecordsOf(peers: seq<DistributedPeer>, p: DistributedPeer)
    requires Distinct(Conns(peers)) && p in peers
    ensures p.connection in Records(peers) && Records(peers)[p.connection] == p.Record()
  {
    LookupListed(peers, p);
  }

  lemma RecordsAre(peers: seq<DistributedPeer>, m: map<Conn, Peer>)
    requires forall e :: e in Conns(peers) <==> e in m
    requires forall e :: e in m ==> Lookup(peers, e).Record() == m[e]
    ensures Records(peers) == m
  {
  }

  /** One peer has changed, so one record has. */
  lemma RecordChanged(peers: seq<DistributedPeer>, peer: DistributedPeer, before: map<Conn, Peer>)
    requires Distinct(Conns(peers)) && peer in peers && before.Keys == Records(peers).Keys
    requires forall p :: p in peers && p != peer ==> p.connection in before && before[p.connection] == p.Record()
    ensures Records(peers) == before[peer.connection := peer.Record()]
  {
    var m := before[peer.connection := peer.Record()];
    RecordsOf(peers, peer);
    forall e | e in m ensures e in Conns(peers) && Lookup(peers, e).Record() == m[e] {
      if e == peer.connection { LookupListed(peers, peer); }
    }
    RecordsAre(peers, m);
  }

  lemma ListedFor(peers: seq<DistributedPeer>, e: Conn) returns (p: DistributedPeer)
    requires e in Conns(peers)
    ensures p in peers && p.connection == e
  {
    p := Lookup(peers, e);
  }

  lemma RecordsAppend(peers: seq<DistributedPeer>, p: DistributedPeer)
    requires Distinct(Conns(peers)) && p.connection !in Conns(peers)
    ensures Distinct(Conns(peers + [p]))
    ensures Conns(peers + [p]) == Conns(peers) + [p.connection]
    ensures Records(peers + [p]) == Records(peers)[p.connection := p.Record()]
  {
    var more := peers + [p];
    assert Conns(more) == Conns(peers) + [p.connection];
    forall e | e in Conns(more) ensures Records(more)[e] == Records(peers)[p.connection := p.Record()][e] {
      var q := ListedFor(more, e);
      RecordsOf(more, q);
      if q in peers { RecordsOf(peers, q); }
    }
  }

  lemma {:induction false} LookupWithout(peers: seq<DistributedPeer>, p: DistributedPeer, e: Conn)
    requires e != p.connection
    ensures Lookup(Without(peers, p), e) == Lookup(peers, e)
  {
    if peers != [] && peers[0] != p {
      LookupWithout(peers[1..], p, e);
      assert ([peers[0]] + Without(peers[1..], p))[1..] == Without(peers[1..], p);
    }
  }

  lemma RecordsWithout(peers: seq<DistributedPeer>, p: DistributedPeer)
    requires Distinct(Conns(peers)) && p in peers
    ensures Records(Without(peers, p)) == Records(peers) - {p.connection}
  {
    WithoutConns(peers, p);
    var m := Records(peers) - {p.connection};
    forall e | e in m ensures Lookup(Without(peers, p), e).Record() == m[e] {
      LookupWithout(peers, p, e);
    }
    RecordsAre(Without(peers, p), m);
  }

  /** Removing a peer that may not be listed. */
  function Removed(peers: seq<DistributedPeer>, p: DistributedPeer): seq<DistributedPeer>
  {
    if p in peers then Without(peers, p) else peers
  }

  lemma RemovedConns(peers: seq<DistributedPeer>, among: seq<DistributedPeer>, p: DistributedPeer)
    requires Distinct(Conns(peers)) && Distinct(Conns(among)) && p in among
    requires forall q :: q in peers ==> q in among
    ensures Conns(Removed(peers, p)) == RemoveFirst(Conns(peers), p.connection)
    ensures Distinct(Conns(Removed(peers, p)))
    ensures forall q :: q in Removed(peers, p) <==> q in peers && q != p
  {
    if p in peers {
      WithoutConns(peers, p);
    } else {
      if p.connection in Conns(peers) {
        var q := ListedFor(peers, p.connection);
        LookupListed(among, q);
        LookupListed(among, p);
        assert false;
      }
      DistributedClient.NotThere(Conns(peers), p.connection);
    }
  }

  // ---------------------------------------------------------------- the network object

  class DistributedNetwork {
    const username: Name
    var session: bool
    var parent: DistributedPeer?
    var children: seq<DistributedPeer>
    var potentialParents: seq<Name>
    var distributedPeers: seq<DistributedPeer>
    var maxChildren: int
    var acceptChildren: bool
    /** The distributed connections among the peer connections of the network object. */
    var connections: set<Conn>
    /** The branch messages handed to connections, in order. */
    var sent: seq<Send>
    ghost var told: map<Conn, Known>

    /** A new object: no session yet, five children at most. */
    constructor (username: Name)
      ensures Linked()
      ensures View() == Client(username, false, None, [], map[], {}, [], true, 5, map[]) && sent == []
    {
      this.username := username;
      session := false;
      parent := null;
      children, potentialParents, distributedPeers, sent := [], [], [], [];
      maxChildren, acceptChildren := 5, true;
      connections, told := {}, map[];
    }

    ghost function View(): Client
      reads `session, `parent, `children, `potentialParents, `distributedPeers, `maxChildren, `acceptChildren
      reads `connections, `told, distributedPeers
    {
      Client(username, session, if parent == null then None else Some(parent.connection), Conns(children),
             Records(distributedPeers), connections, potentialParents, acceptChildren, maxChildren, told)
    }

    /** The lists share their peers, one for each connection. */
    ghost predicate Linked()
      reads `parent, `children, `distributedPeers
    {
      && Distinct(Conns(distributedPeers))
      && Distinct(Conns(children))
      && (parent != null ==> parent in distributedPeers)
      && (forall p :: p in children ==> p in distributedPeers)
    }

    /** The state and the messages of an outcome, after the messages already sent before. */
    ghost predicate Is(o: Out, before: seq<Send>)
      reads this, distributedPeers
    {
      View() == o.client && sent == before + o.sends
    }

    /** _get_advertised_branch_values */
    method GetAdvertisedBranchValues() returns (root: Name, level: nat)
      requires Linked() && ParentKnown(View())
      ensures Branch(root, level) == Advertised(View())
    {
      if parent != null {
        RecordsOf(distributedPeers, parent);
        if parent.branchRoot.value == username {
          return username, 0;
        }
        return parent.branchRoot.value, parent.branchLevel.value + 1;
      }
      return username, 0;
    }

    /** send_messages_to_children with a level and a root */
    method SendToChildren(level: nat, root: Name)
      modifies this`sent
      ensures sent == old(sent) + ToChildren(Conns(children), Branch(root, level))
    {
      var i := 0;
      ghost var all := ToChildren(Conns(children), Branch(root, level));
      while i < |children|
        invariant i <= |children|
        invariant sent + ToChildren(Conns(children)[i..], Branch(root, level)) == old(sent) + all
      {
        var e := children[i].connection;
        assert Conns(children)[i..][0] == e && Conns(children)[i..][1..] == Conns(children)[i + 1..];
        sent := sent + [Send(e, Level(level))] + [Send(e, Root(root))];
        i := i + 1;
      }
    }

    ghost method SetTold(told: map<Conn, Known>)
      modifies this`told
      ensures View() == old(View()).(told := told)
    {
      this.told := told;
      assert Records(distributedPeers) == old(Records(distributedPeers));
    }

    /** _notify_children_of_branch_values */
    method NotifyChildrenOfBranchValues(ghost c: Client)
      requires Linked() && View() == c && ParentKnown(c)
      modifies this`sent, this`told
      ensures Is(NotifyChildren(c), old(sent))
    {
      if !session {
        return;
      }
      var root, level := GetAdvertisedBranchValues();
      SendToChildren(level, root);
      SetTold(ToldAll(c, Branch(root, level)).told);
    }

    /** _unset_parent */
    method UnsetParent(ghost c: Client)
      requires Linked() && View() == c
      modifies this`parent, this`sent, this`told
      ensures Is(Distributed.UnsetParent(c), old(sent))
      ensures Linked() && parent == null
    {
      SetParentField(null);
      if !session {
        return;
      }
      SendToChildren(0, username);
      SetTold(ToldAll(c, Branch(username, 0)).told);
    }

    /** _remove_child, for a child; another peer is not in the list. */
    method RemoveChild(peer: DistributedPeer)
      requires Linked() && peer in distributedPeers
      modifies this`children
      ensures View() == old(View()).(children := RemoveFirst(old(Conns(children)), peer.connection)) && Linked()
      ensures peer !in children
    {
      RemovedConns(children, distributedPeers, peer);
      if peer in children {
        children := Without(children, peer);
      }
      assert Records(distributedPeers) == old(Records(distributedPeers));
    }

    method RemovePeer(peer: DistributedPeer)
      requires Linked() && peer in distributedPeers && parent != peer && peer !in children
      modifies this`distributedPeers, this`told
      ensures View() == old(View()).(peers := old(View()).peers - {peer.connection}, told := old(told) - {peer.connection})
      ensures Linked()
    {
      ghost var list := distributedPeers;
      WithoutConns(list, peer);
      distributedPeers := Without(distributedPeers, peer);
      told := told - {peer.connection};
      assert Records(list) == old(Records(list));
      RecordsWithout(list, peer);
    }

    method LetGo(e: Conn)
      requires Linked()
      modifies this`connections
      ensures View() == old(View()).(open := old(connections) - {e}) && Linked()
    {
      connections := connections - {e};
      assert Records(distributedPeers) == old(Records(distributedPeers));
    }

    /** _on_state_changed with CLOSED: the network object lets go of the connection first. */
    method OnClosed(e: Conn, ghost c: Client)
      requires Linked() && View() == c
      modifies this
      ensures Is(Distributed.OnClosed(c, e), old(sent))
      ensures Linked()
    {
      ClosedCases(c, e);
      LetGo(e);
      var peer := Lookup(distributedPeers, e);
      if peer == null {
        Unchanged(LetGoOf(c, e));
        return;
      }
      CloseRegistered(peer, LetGoOf(c, e));
    }

    /** The rest of _on_state_changed, for a peer that is registered */
    method CloseRegistered(peer: DistributedPeer, ghost c: Client)
      requires Linked() && View() == c && peer in distributedPeers
      modifies this
      ensures var o := if c.parent == Some(peer.connection) then Distributed.UnsetParent(c) else Out(c, []);
              Is(Out(Unregistered(o.client, peer.connection), o.sends), old(sent))
      ensures Linked()
    {
      LoseParent(peer, c);
      Unregister(peer, View());
    }

    method LoseParent(peer: DistributedPeer, ghost c: Client)
      requires Linked() && View() == c && peer in distributedPeers
      modifies this`parent, this`sent, this`told
      ensures Is(if c.parent == Some(peer.connection) then Distributed.UnsetParent(c) else Out(c, []), old(sent))
      ensures Linked() && parent != peer
    {
      LookupListed(distributedPeers, peer);
      if parent != null { LookupListed(distributedPeers, parent); }
      if parent != null && parent == peer {
        UnsetParent(c);
      }
    }

    method Unregister(peer: DistributedPeer, ghost c: Client)
      requires Linked() && View() == c && peer in distributedPeers && parent != peer
      modifies this`children, this`distributedPeers, this`told
      ensures View() == Unregistered(c, peer.connection) && Linked()
    {
      RemoveChild(peer);
      RemovePeer(peer);
    }

    method SetParentField(peer: DistributedPeer?)
      requires Linked() && (peer != null ==> peer in distributedPeers)
      modifies this`parent
      ensures View() == old(View()).(parent := if peer == null then None else Some(peer.connection)) && Linked()
      ensures parent == peer
    {
      parent := peer;
      assert Records(distributedPeers) == old(Records(distributedPeers));
    }

    /** The loop of _set_parent: every connection that is neither the parent's nor a child's is closed. */
    method DisconnectOthers(peer: DistributedPeer)
      requires Linked() && parent == peer
      requires Bounded(View())
      modifies this
      ensures Linked() && sent == old(sent)
      ensures View() == Dropped(old(View()), old(View()).open - Kept(old(View()), peer.connection))
    {
      ghost var was := View();
      var others := connections - ({peer.connection} + (set x | x in Conns(children)));
      assert others == was.open - Kept(was, peer.connection);
      var todo := others;
      DroppedNone(was, others);
      while todo != {}
        invariant Linked() && sent == old(sent) && todo <= others
        invariant View() == Dropped(was, others - todo)
      {
        var e :| e in todo;
        CloseOther(was, others, todo, e);
        OnClosed(e, View());
        todo := todo - {e};
      }
      assert others - todo == others;
    }

    /** _set_parent, up to the notifications */
    method AdoptParent(peer: DistributedPeer)
      requires Linked() && peer in distributedPeers && Bounded(View())
      modifies this
      ensures Linked() && sent == old(sent)
      ensures View() == Adopted(old(View()), peer.connection)
    {
      SetParentField(peer);
      DisconnectOthers(peer);
    }

    /** _set_parent */
    method SetParent(peer: DistributedPeer, ghost c: Client)
      requires Linked() && peer in distributedPeers && View() == c
      requires Bounded(c) && peer.connection in c.peers && Complete(c.peers[peer.connection].known)
      modifies this
      ensures Is(Distributed.SetParent(c, peer.connection), old(sent)) && Linked()
    {
      AdoptParent(peer);
      AdoptedKeeps(c, peer.connection);
      NotifyChildrenOfBranchValues(View());
    }

    /** _check_if_new_parent */
    method CheckIfNewParent(peer: DistributedPeer, ghost c: Client)
      requires Linked() && peer in distributedPeers && View() == c
      requires Bounded(c) && ParentKnown(c) && peer.connection in c.peers && c.peers[peer.connection] == peer.Record()
      modifies this
      ensures Is(Distributed.CheckIfNewParent(c, peer.connection), old(sent)) && Linked()
    {
      NewParentCases(c, peer.connection);
      if peer.branchLevel == None || peer.branchRoot == None {
        Unchanged(c);
        return;
      }
      if parent == null {
        SetParent(peer, c);
      } else {
        OnClosed(peer.connection, c);
      }
    }

    method AppendChild(peer: DistributedPeer)
      requires Linked() && peer in distributedPeers && peer.connection !in Conns(children)
      modifies this`children
      ensures View() == old(View()).(children := old(Conns(children)) + [peer.connection]) && Linked()
    {
      RecordsAppend(children, peer);
      children := children + [peer];
      assert Records(distributedPeers) == old(Records(distributedPeers));
    }

    /** The root is left out at level 0. */
    method SendBranch(e: Conn, level: nat, root: Name)
      modifies this`sent
      ensures sent == old(sent) + if level == 0 then [Send(e, Level(0))] else [Send(e, Level(level)), Send(e, Root(root))]
    {
      sent := sent + [Send(e, Level(level))];
      if level != 0 {
        sent := sent + [Send(e, Root(root))];
      }
    }

    /** The advertised branch to a new child. */
    method TellChild(e: Conn, ghost c: Client)
      requires Linked() && View() == c && ParentKnown(c)
      modifies this`sent, this`told
      ensures View() == c.(told := c.told[e := AsKnown(Advertised(c))])
      ensures var b := Advertised(c);
              sent == old(sent) + if b.level == 0 then [Send(e, Level(0))] else [Send(e, Level(b.level)), Send(e, Root(b.root))]
    {
      var root, level := GetAdvertisedBranchValues();
      SendBranch(e, level, root);
      SetTold(c.told[e := AsKnown(Branch(root, level))]);
    }

    /** _add_child: without a session the advertised values raise, after the child was added. */
    method AddChild(peer: DistributedPeer, ghost c: Client) returns (raised: bool)
      requires Linked() && peer in distributedPeers && peer.connection !in Conns(children) && View() == c && ParentKnown(c)
      modifies this`children, this`sent, this`told
      ensures Is(Distributed.AddChild(c, peer.connection), old(sent)) && Linked()
      ensures raised <==> !c.session
    {
      AppendChild(peer);
      raised := !session;
      if !raised {
        TellChild(peer.connection, c.(children := c.children + [peer.connection]));
      }
    }

    /** _check_if_new_child */
    method CheckIfNewChild(peer: DistributedPeer, ghost c: Client) returns (raised: bool)
      requires Linked() && peer in distributedPeers && peer.connection !in Conns(children) && View() == c && ParentKnown(c)
      requires peer.connection in c.peers && c.peers[peer.connection].username == peer.username
      modifies this
      ensures Is(Distributed.CheckIfNewChild(c, peer.connection), old(sent)) && Linked()
      ensures raised <==> !c.session && DistributedClient.Admits(c, peer.username)
    {
      NewChildCases(c, peer.connection);
      if peer.username in potentialParents {
        Unchanged(c);
        return false;
      }
      if !acceptChildren || |children| >= maxChildren {
        OnClosed(peer.connection, c);
        raised := false;
      } else {
        raised := AddChild(peer, c);
      }
    }

    /** Nothing has happened. */
    lemma Unchanged(c: Client)
      requires View() == c
      ensures Is(Out(c, []), sent)
    {
    }

    method AppendPeer(peer: DistributedPeer)
      requires Linked() && peer.connection !in Conns(distributedPeers)
      modifies this`distributedPeers
      ensures View() == old(View()).(peers := old(View()).peers[peer.connection := peer.Record()]) && Linked()
      ensures peer in distributedPeers
    {
      ghost var list := distributedPeers;
      RecordsAppend(list, peer);
      distributedPeers := distributedPeers + [peer];
      assert Records(list) == old(Records(list));
      RecordsAppend(list, peer);
    }

    /** New branch values of a registered peer. */
    method SetBranch(peer: DistributedPeer, level: Option<nat>, root: Option<Name>)
      requires Linked() && peer in distributedPeers
      modifies peer
      ensures View() == old(View()).(peers := old(View()).peers[peer.connection := Peer(peer.username, Known(level, root))])
      ensures peer.Record() == Peer(peer.username, Known(level, root))
    {
      ghost var before := Records(distributedPeers);
      forall p | p in distributedPeers ensures p.connection in before && before[p.connection] == p.Record() {
        RecordsOf(distributedPeers, p);
      }
      peer.branchLevel := level;
      peer.branchRoot := root;
      RecordChanged(distributedPeers, peer, before);
    }

    /** What both branch messages lead to, once the peer's values are set. */
    method BranchChanged(peer: DistributedPeer, ghost c: Client)
      requires Linked() && peer in distributedPeers && View() == c
      requires Bounded(c) && ParentKnown(c) && peer.connection in c.peers && c.peers[peer.connection] == peer.Record()
      modifies this
      ensures Is(if c.parent == Some(peer.connection) then NotifyChildren(c)
                 else Distributed.CheckIfNewParent(c, peer.connection), old(sent))
      ensures Linked()
    {
      LookupListed(distributedPeers, peer);
      if parent != null { LookupListed(distributedPeers, parent); }
      if peer != parent {
        CheckIfNewParent(peer, c);
      } else {
        NotifyChildrenOfBranchValues(c);
      }
    }

    /** _on_distributed_branch_level */
    method OnBranchLevel(level: nat, e: Conn, ghost c: Client)
      requires Linked() && View() == c && Distributed.Valid(c)
      modifies this, distributedPeers
      ensures Is(OnMessage(c, e, Level(level)), old(sent)) && Linked()
    {
      var peer := Lookup(distributedPeers, e);
      if peer == null {
        Unchanged(c);
        return;
      }
      RecordsOf(distributedPeers, peer);
      MessageTaken(c, e, Level(level));
      ReceivedBounded(c, e, Level(level));
      if level == 0 {
        SetBranch(peer, Some(level), Some(peer.username));
      } else {
        SetBranch(peer, Some(level), peer.branchRoot);
      }
      BranchChanged(peer, Receive(c, e, Level(level)));
    }

    /** _on_distributed_branch_root */
    method OnBranchRoot(root: Name, e: Conn, ghost c: Client)
      requires Linked() && View() == c && Distributed.Valid(c)
      modifies this, distributedPeers
      ensures Is(OnMessage(c, e, Root(root)), old(sent)) && Linked()
    {
      var peer := Lookup(distributedPeers, e);
      if peer == null {
        Unchanged(c);
        return;
      }
      RecordsOf(distributedPeers, peer);
      if peer.branchRoot == Some(root) {
        Unchanged(c);
        return;
      }
      MessageTaken(c, e, Root(root));
      ReceivedBounded(c, e, Root(root));
      SetBranch(peer, peer.branchLevel, Some(root));
      BranchChanged(peer, Receive(c, e, Root(root)));
    }

    /** _on_peer_connection_initialized, for a distributed connection */
    method OnPeerConnectionInitialized(username: Name, e: Conn, ghost c: Client) returns (raised: bool)
      requires Linked() && View() == c && Distributed.Valid(c) && e !in c.peers
      modifies this
      ensures Is(OnInitialized(c, e, username), old(sent)) && Linked()
      ensures raised <==> e.Accepted? && !c.session && DistributedClient.Admits(c, username)
    {
      raised := false;
      InitializedCases(c, e, username);
      var peer := new DistributedPeer(username, e);
      AppendPeer(peer);
      if e.Accepted? {
        raised := CheckIfNewChild(peer, Register(c, e, username));
      } else {
        Unchanged(Register(c, e, username));
      }
    }
  }

  /** Registered connections are open and only children have been told anything. */
  ghost predicate Bounded(c: Client)
  {
    c.peers.Keys <= c.open && forall e :: e in c.told ==> e in c.children
  }

  lemma InitializedCases(c: Client, e: Conn, username: Name)
    requires Distributed.Valid(c) && e !in c.peers
    ensures var c1 := Register(c, e, username);
            && ParentKnown(c1) && e !in c1.children && c1.peers[e] == Peer(username, NOTHING)
            && OnInitialized(c, e, username) == if e.Accepted? then Distributed.CheckIfNewChild(c1, e) else Out(c1, [])
  {
  }

  lemma NewParentCases(c: Client, e: Conn)
    requires ParentKnown(c) && e in c.peers
    ensures var k, o := c.peers[e].known, Distributed.CheckIfNewParent(c, e);
            if k.level == None || k.root == None then o == Out(c, [])
            else if c.parent == None then Complete(k) && o == Distributed.SetParent(c, e)
            else o == Distributed.OnClosed(c, e)
  {
  }

  lemma NewChildCases(c: Client, e: Conn)
    requires ParentKnown(c) && e in c.peers
    ensures var o := Distributed.CheckIfNewChild(c, e);
            if c.peers[e].username in c.potentialParents then o == Out(c, [])
            else if !c.acceptChildren || |c.children| >= c.maxChildren then o == Distributed.OnClosed(c, e)
            else o == Distributed.AddChild(c, e)
  {
  }

  /** What an end of a connection comes to, in the order in which it is done */
  lemma ClosedCases(c: Client, e: Conn)
    ensures Distributed.OnClosed(c, e) ==
            if e !in c.peers then Out(LetGoOf(c, e), [])
            else
              var o := if c.parent == Some(e) then Distributed.UnsetParent(LetGoOf(c, e)) else Out(LetGoOf(c, e), []);
              Out(Unregistered(o.client, e), o.sends)
  {
  }

  function LetGoOf(c: Client, e: Conn): Client
  {
    c.(open := c.open - {e})
  }

  function Unregistered(c: Client, e: Conn): Client
  {
    c.(children := RemoveFirst(c.children, e), told := c.told - {e}, peers := c.peers - {e})
  }

  /** A message that is not a root known already */
  lemma MessageTaken(c: Client, e: Conn, m: Msg)
    requires Distributed.Valid(c) && e in c.peers && (m.Root? ==> c.peers[e].known.root != Some(m.root))
    ensures var c1 := Receive(c, e, m);
            ParentKnown(c1) &&
            OnMessage(c, e, m) == if c1.parent == Some(e) then NotifyChildren(c1) else Distributed.CheckIfNewParent(c1, e)
  {
  }

  lemma ReceivedBounded(c: Client, e: Conn, m: Msg)
    requires Distributed.Valid(c) && e in c.peers
    ensures Bounded(Receive(c, e, m)) && ParentKnown(Receive(c, e, m))
  {
  }

  /** The connections that stay when e becomes the parent's. */
  function Kept(c: Client, e: Conn): set<Conn>
  {
    {e} + (set x | x in c.children)
  }

  /** Connections gone that are neither the parent's nor a child's. */
  function Dropped(c: Client, gone: set<Conn>): Client
  {
    c.(open := c.open - gone, peers := c.peers - gone)
  }

  /** What is left open and registered: the given connection and those of the children. */
  lemma DroppedLeaves(c: Client, e: Conn, x: Conn)
    requires Bounded(c)
    ensures var left := Dropped(c, c.open - Kept(c, e));
            && (x in left.open <==> x in c.open && (x == e || x in c.children))
            && (x in left.peers <==> x in c.peers && (x == e || x in c.children))
            && (x in left.peers ==> left.peers[x] == c.peers[x])
            && left.parent == c.parent && left.children == c.children
  {
  }

  lemma DroppedNone(c: Client, others: set<Conn>)
    ensures Dropped(c, others - others) == c
  {
    assert others - others == {};
    assert c.open - {} == c.open && c.peers - {} == c.peers;
  }

  lemma CloseOther(c: Client, others: set<Conn>, todo: set<Conn>, e: Conn)
    requires Bounded(c) && c.parent != Some(e) && e !in c.children && e in todo && todo <= others
    ensures Distributed.OnClosed(Dropped(c, others - todo), e) == Out(Dropped(c, others - (todo - {e})), [])
  {
    var gone := others - todo;
    assert gone + {e} == others - (todo - {e});
    DistributedClient.NotThere(c.children, e);
    assert c.open - gone - {e} == c.open - (gone + {e});
    assert c.peers - gone - {e} == c.peers - (gone + {e});
    assert c.told - {e} == c.told;
    if e !in c.peers - gone {
      assert c.peers - gone == c.peers - (gone + {e});
    }
  }

  /** The client that has taken e as its parent's connection and closed the others. */
  function Adopted(c: Client, e: Conn): Client
  {
    Dropped(c.(parent := Some(e)), c.open - Kept(c, e))
  }

  lemma AdoptedKeeps(c: Client, e: Conn)
    requires Bounded(c) && e in c.peers && Complete(c.peers[e].known)
    ensures ParentKnown(Adopted(c, e)) && Distributed.SetParent(c, e) == NotifyChildren(Adopted(c, e))
  {
    var gone := c.open - Kept(c, e);
    assert c.open - gone == c.open * Kept(c, e);
    assert c.peers - gone == map x | x in c.peers && x in Kept(c, e) :: c.peers[x];
  }
}

/**
 The handlers of distributed.py as functions on one client's state: parent, children and what each
 distributed connection has told about its branch.
 */
module Distributed {

  import opened Wrappers

  type Name = string

  /** One end of a distributed connection: requested by this client, or accepted from the other side. */
  datatype Conn = Requested(id: nat) | Accepted(id: nat)

  /** DistributedBranchLevel and DistributedBranchRoot */
  datatype Msg = Level(level: nat) | Root(root: Name)

  datatype Send = Send(to: Conn, msg: Msg)

  /** branch_level and branch_root of a peer. */
  datatype Known = Known(level: Option<nat>, root: Option<Name>)

  const NOTHING := Known(None, None)

  /** DistributedPeer, without its connection. */
  datatype Peer = Peer(username: Name, known: Known)

  /**
   One DistributedNetwork. open holds the distributed connections of the network object, peers the
   registered ones. told is a history variable: what the messages sent to a child amount to.
   */
  datatype Client = Client(
    me: Name,
    session: bool,
    parent: Option<Conn>,
    children: seq<Conn>,
    peers: map<Conn, Peer>,
    open: set<Conn>,
    potentialParents: seq<Name>,
    acceptChildren: bool,
    maxChildren: int,
    told: map<Conn, Known>)

  /** The state after a handler and the messages it sent, in order. */
  datatype Out = Out(client: Client, sends: seq<Send>)

  datatype Branch = Branch(root: Name, level: nat)

  const POTENTIAL_PARENTS_CACHE_SIZE := 20

  // ---------------------------------------------------------------- advertised values

  predicate Complete(k: Known)
  {
    k.level.Some? && k.root.Some?
  }

  predicate ParentKnown(c: Client)
  {
    c.parent.Some? ==> c.parent.value in c.peers && Complete(c.peers[c.parent.value].known)
  }

  /** _get_advertised_branch_values */
  function Advertised(c: Client): Branch
    requires ParentKnown(c)
  {
    if c.parent.None? then Branch(c.me, 0)
    else
      var k := c.peers[c.parent.value].known;
      if k.root.value == c.me then Branch(c.me, 0) else Branch(k.root.value, k.level.value + 1)
  }

  function AsKnown(b: Branch): Known
  {
    Known(Some(b.level), Some(b.root))
  }

  /** What the messages sent to a connection amount to; nothing for one that is not a child. */
  function Told(c: Client, e: Conn): Known
  {
    if e in c.told then c.told[e] else NOTHING
  }

  // ---------------------------------------------------------------- the effect of messages on the receiver

  function ApplyMsg(k: Known, m: Msg, sender: Name): Known
  {
    match m
    case Level(level) => Known(Some(level), if level == 0 then Some(sender) else k.root)
    case Root(root) => Known(k.level, Some(root))
  }

  function Apply(k: Known, ms: seq<Msg>, sender: Name): Known
    decreases |ms|
  {
    if ms == [] then k else Apply(ApplyMsg(k, ms[0], sender), ms[1..], sender)
  }

  lemma {:induction false} ApplyAppend(k: Known, ms: seq<Msg>, more: seq<Msg>, sender: Name)
    ensures Apply(k, ms + more, sender) == Apply(Apply(k, ms, sender), more, sender)
    decreases |ms|
  {
    if ms == [] {
      assert ms + more == more;
    } else {
      ApplyAppend(ApplyMsg(k, ms[0], sender), ms[1..], more, sender);
      assert (ms + more)[1..] == ms[1..] + more;
    }
  }

  function MsgFor(s: Send, e: Conn): seq<Msg>
  {
    if s.to == e then [s.msg] else []
  }

  /** The messages among sends that go to e. */
  function MsgsTo(sends: seq<Send>, e: Conn): seq<Msg>
  {
    if sends == [] then [] else MsgFor(sends[0], e) + MsgsTo(sends[1..], e)
  }

  lemma MsgsToCons(s: Send, rest: seq<Send>, e: Conn)
    ensures MsgsTo([s] + rest, e) == MsgFor(s, e) + MsgsTo(rest, e)
  {
    assert ([s] + rest)[1..] == rest;
  }

  // ---------------------------------------------------------------- handlers

  /** Level and root to every child. */
  function ToChildren(children: seq<Conn>, b: Branch): seq<Send>
  {
    if children == [] then []
    else [Send(children[0], Level(b.level))] + ([Send(children[0], Root(b.root))] + ToChildren(children[1..], b))
  }

  function ToldAll(c: Client, b: Branch): Client
  {
    c.(told := map e | e in c.children :: AsKnown(b))
  }

  /** The same branch told to every child. */
  function Announce(c: Client, b: Branch): Out
  {
    Out(ToldAll(c, b), ToChildren(c.children, b))
  }

  /** _notify_children_of_branch_values */
  function NotifyChildren(c: Client): Out
    requires ParentKnown(c)
  {
    if c.session then Announce(c, Advertised(c)) else Out(c, [])
  }

  /** _unset_parent */
  function UnsetParent(c: Client): Out
  {
    var c1 := c.(parent := None);
    if c.session then Announce(c1, Branch(c.me, 0)) else Out(c1, [])
  }

  function RemoveFirst(s: seq<Conn>, e: Conn): seq<Conn>
  {
    if s == [] then [] else if s[0] == e then s[1..] else [s[0]] + RemoveFirst(s[1..], e)
  }

  /** The connection is no longer a child's, nor registered, nor open. */
  function Forget(c: Client, e: Conn): Client
  {
    c.(open := c.open - {e},
       children := RemoveFirst(c.children, e),
       told := c.told - {e},
       peers := c.peers - {e})
  }

  /** _on_state_changed with CLOSED */
  function OnClosed(c: Client, e: Conn): Out
  {
    if e !in c.peers then Out(c.(open := c.open - {e}), [])
    else
      var o := if c.parent == Some(e) then UnsetParent(c) else Out(c, []);
      Out(Forget(o.client, e), o.sends)
  }

  /** _set_parent: every other connection that is not a child's is disconnected. */
  function SetParent(c: Client, e: Conn): Out
    requires e in c.peers && Complete(c.peers[e].known)
  {
    var keep := {e} + (set x | x in c.children);
    var c1 := c.(
      parent := Some(e),
      open := c.open * keep,
      peers := map x | x in c.peers && x in keep :: c.peers[x]);
    NotifyChildren(c1)
  }

  /** _check_if_new_parent */
  function CheckIfNewParent(c: Client, e: Conn): Out
    requires ParentKnown(c) && e in c.peers
  {
    if !Complete(c.peers[e].known) then Out(c, [])
    else if c.parent.None? then SetParent(c, e)
    else OnClosed(c, e)
  }

  /** _add_child; without a session the advertised values cannot be computed and nothing is sent. */
  function AddChild(c: Client, e: Conn): Out
    requires ParentKnown(c)
  {
    var c1 := c.(children := c.children + [e]);
    if !c.session then Out(c1, [])
    else
      var b := Advertised(c1);
      Out(c1.(told := c1.told[e := AsKnown(b)]),
          if b.level == 0 then [Send(e, Level(0))] else [Send(e, Level(b.level)), Send(e, Root(b.root))])
  }

  /** _check_if_new_child */
  function CheckIfNewChild(c: Client, e: Conn): Out
    requires ParentKnown(c) && e in c.peers
  {
    if c.peers[e].username in c.potentialParents then Out(c, [])
    else if !c.acceptChildren || |c.children| >= c.maxChildren then OnClosed(c, e)
    else AddChild(c, e)
  }

  function Register(c: Client, e: Conn, username: Name): Client
  {
    c.(peers := c.peers[e := Peer(username, NOTHING)])
  }

  /** _on_peer_connection_initialized */
  function OnInitialized(c: Client, e: Conn, username: Name): Out
    requires ParentKnown(c) && e !in c.peers
  {
    var c1 := Register(c, e, username);
    if e.Requested? then Out(c1, []) else CheckIfNewChild(c1, e)
  }

  /** The record of a registered connection after a message from its peer. */
  function Receive(c: Client, e: Conn, m: Msg): Client
    requires e in c.peers
  {
    c.(peers := c.peers[e := c.peers[e].(known := ApplyMsg(c.peers[e].known, m, c.peers[e].username))])
  }

  /** _on_distributed_branch_level and _on_distributed_branch_root */
  function OnMessage(c: Client, e: Conn, m: Msg): Out
    requires ParentKnown(c)
  {
    if e !in c.peers then Out(c, [])
    else if m.Root? && c.peers[e].known.root == Some(m.root) then Out(c, [])
    else if c.parent == Some(e) then NotifyChildren(Receive(c, e, m))
    else CheckIfNewParent(Receive(c, e, m), e)
  }

  /** What happens at one connection of a client. */
  datatype Event = Initialized(e: Conn, username: Name) | Received(e: Conn, msg: Msg) | Closed(e: Conn)

  function Handle(c: Client, ev: Event): Out
    requires ParentKnown(c) && (ev.Initialized? ==> ev.e !in c.peers)
  {
    match ev
    case Initialized(e, username) => OnInitialized(c, e, username)
    case Received(e, m) => OnMessage(c, e, m)
    case Closed(e) => OnClosed(c, e)
  }

  /** _on_potential_parents: the deque keeps the last entries. */
  function OnPotentialParents(c: Client, names: seq<Name>): Client
  {
    var all := c.potentialParents + names;
    c.(potentialParents :=
      if |all| <= POTENTIAL_PARENTS_CACHE_SIZE then all else all[|all| - POTENTIAL_PARENTS_CACHE_SIZE..])
  }

  // ---------------------------------------------------------------- the client invariant

  predicate Distinct(s: seq<Conn>)
  {
    forall i, j :: 0 <= i < j < |s| ==> s[i] != s[j]
  }

  /**
   A set parent is registered with both values; children are registered, accepted connections; only
   requested connections have told anything; what children were told has level 0 exactly when the root
   is this client.
   */
  predicate Valid(c: Client)
  {
    && ParentKnown(c)
    && Distinct(c.children)
    && (forall e :: e in c.children ==> e in c.peers && e.Accepted?)
    && c.peers.Keys <= c.open
    && (forall e :: e in c.peers && e.Accepted? ==> c.peers[e].known == NOTHING)
    && (forall e :: e in c.told ==> e in c.children && Complete(c.told[e]))
    && (forall e :: e in c.told ==> (c.told[e].level == Some(0) <==> c.told[e].root == Some(c.me)))
  }

  /** Every child has been told what is advertised now. */
  predicate InSync(c: Client)
    requires ParentKnown(c)
  {
    forall e :: e in c.children ==> Told(c, e) == AsKnown(Advertised(c))
  }

  /** Advertised level 0 means advertising oneself, and the other way round. */
  lemma LevelZeroIsOwnRoot(c: Client)
    requires Valid(c)
    ensures Advertised(c).level == 0 <==> Advertised(c).root == c.me
  {
  }
}

/**
 What every handler of one client keeps: the client invariant, agreement between the messages sent and
 the values the children are known to have been told, and, while a session is held, that every child has
 been told the values advertised now.
 */
module DistributedClient {

  import opened Wrappers
  import opened Distributed

  /** What the far side of a connection has told; nothing before the connection is registered. */
  function KnownAt(c: Client, e: Conn): Known
  {
    if e in c.peers then c.peers[e].known else NOTHING
  }

  /** The messages sent account for what the connection was told; its record stays as it is. */
  predicate FollowsAt(c: Client, o: Out, e: Conn)
  {
    && (e in o.client.open ==>
      && e in c.open
      && Told(o.client, e) == Apply(Told(c, e), MsgsTo(o.sends, e), c.me)
      && KnownAt(o.client, e) == KnownAt(c, e))
    && (e in o.client.peers ==> e in c.peers && o.client.peers[e] == c.peers[e])
    && (e !in o.client.children ==> MsgsTo(o.sends, e) == [])
  }

  /** From c to o.client no connection is opened and every connection follows. */
  ghost predicate Follows(c: Client, o: Out)
  {
    && Valid(o.client)
    && o.client.me == c.me
    && forall e :: FollowsAt(c, o, e)
  }

  // ---------------------------------------------------------------- messages to the children

  lemma {:induction false} MsgsToChild(children: seq<Conn>, b: Branch, e: Conn)
    requires Distinct(children)
    ensures MsgsTo(ToChildren(children, b), e) ==
            if e in children then [Level(b.level), Root(b.root)] else []
  {
    if children != [] {
      var rest := ToChildren(children[1..], b);
      MsgsToChild(children[1..], b, e);
      MsgsToCons(Send(children[0], Root(b.root)), rest, e);
      MsgsToCons(Send(children[0], Level(b.level)), [Send(children[0], Root(b.root))] + rest, e);
      assert e == children[0] ==> e !in children[1..];
    }
  }

  lemma MsgsToOne(a: Send, e: Conn)
    ensures MsgsTo([a], e) == MsgFor(a, e)
  {
    MsgsToCons(a, [], e);
    assert [a] + [] == [a];
  }

  lemma MsgsToTwo(a: Send, b: Send, e: Conn)
    ensures MsgsTo([a, b], e) == MsgFor(a, e) + MsgFor(b, e)
  {
    MsgsToCons(a, [b], e);
    MsgsToOne(b, e);
    assert [a] + [b] == [a, b];
  }

  /** Level and root together overwrite whatever was known. */
  lemma ApplyBoth(k: Known, b: Branch, sender: Name)
    ensures Apply(k, [Level(b.level), Root(b.root)], sender) == AsKnown(b)
  {
    var k1 := ApplyMsg(k, Level(b.level), sender);
    assert [Level(b.level), Root(b.root)][1..] == [Root(b.root)];
    ApplyOne(k1, Root(b.root), sender);
  }

  lemma ApplyOne(k: Known, m: Msg, sender: Name)
    ensures Apply(k, [m], sender) == ApplyMsg(k, m, sender)
  {
    assert [m][1..] == [];
    assert Apply(ApplyMsg(k, m, sender), [], sender) == ApplyMsg(k, m, sender);
  }

  // ---------------------------------------------------------------- every handler follows

  lemma AnnounceFollows(c: Client, b: Branch)
    requires Valid(c) && (b.level == 0 <==> b.root == c.me)
    ensures Follows(c, Announce(c, b))
  {
    forall e ensures FollowsAt(c, Announce(c, b), e) {
      MsgsToChild(c.children, b, e);
      ApplyBoth(Told(c, e), b, c.me);
    }
  }

  lemma SameFollows(c: Client)
    requires Valid(c)
    ensures Follows(c, Out(c, []))
  {
  }

  lemma NotifyChildrenFollows(c: Client)
    requires Valid(c)
    ensures Follows(c, NotifyChildren(c))
    ensures c.session ==> InSync(NotifyChildren(c).client)
  {
    if c.session { AnnounceFollows(c, Advertised(c)); }
  }

  lemma UnsetParentFollows(c: Client)
    requires Valid(c)
    ensures Follows(c, UnsetParent(c))
    ensures c.session ==> InSync(UnsetParent(c).client)
  {
    if c.session { AnnounceFollows(c.(parent := None), Branch(c.me, 0)); }
    forall e ensures FollowsAt(c, UnsetParent(c), e) {
      assert c.session ==> FollowsAt(c.(parent := None), UnsetParent(c), e);
    }
  }

  lemma {:induction false} RemoveFirstRemoves(s: seq<Conn>, e: Conn)
    requires Distinct(s)
    ensures Distinct(RemoveFirst(s, e))
    ensures forall x :: x in RemoveFirst(s, e) <==> x in s && x != e
  {
    if s != [] {
      assert s == [s[0]] + s[1..];
      assert s[0] !in s[1..];
      RemoveFirstRemoves(s[1..], e);
    }
  }

  lemma ForgetValid(c: Client, e: Conn)
    requires Valid(c) && c.parent != Some(e)
    ensures Valid(Forget(c, e))
    ensures InSync(c) ==> InSync(Forget(c, e))
    ensures forall x :: x in Forget(c, e).children <==> x in c.children && x != e
  {
    RemoveFirstRemoves(c.children, e);
    assert Advertised(Forget(c, e)) == Advertised(c);
  }

  /** A connection that was sent nothing can be forgotten, unless it is the parent's. */
  lemma ForgetFollows(c: Client, o: Out, e: Conn)
    requires Valid(c) && Follows(c, o) && o.client.parent != Some(e) && MsgsTo(o.sends, e) == []
    ensures Follows(c, Out(Forget(o.client, e), o.sends))
    ensures InSync(o.client) ==> InSync(Forget(o.client, e))
  {
    ForgetValid(o.client, e);
    forall x ensures FollowsAt(c, Out(Forget(o.client, e), o.sends), x) {
      ForgetAt(c, o, e, x);
    }
  }

  lemma ForgetAt(c: Client, o: Out, e: Conn, x: Conn)
    requires Valid(o.client) && o.client.parent != Some(e) && FollowsAt(c, o, x) && MsgsTo(o.sends, e) == []
    ensures FollowsAt(c, Out(Forget(o.client, e), o.sends), x)
  {
    ForgetValid(o.client, e);
  }

  lemma OnClosedFollows(c: Client, e: Conn)
    requires Valid(c)
    ensures Follows(c, OnClosed(c, e))
    ensures c.session && InSync(c) ==> InSync(OnClosed(c, e).client)
    ensures e !in OnClosed(c, e).client.open
  {
    if e in c.peers {
      UnsetParentFollows(c);
      SameFollows(c);
      var o := if c.parent == Some(e) then UnsetParent(c) else Out(c, []);
      assert FollowsAt(c, o, e);
      ForgetFollows(c, o, e);
    }
  }

  lemma SetParentFollows(c: Client, e: Conn)
    requires Valid(c) && e in c.peers && Complete(c.peers[e].known)
    ensures Follows(c, SetParent(c, e))
    ensures c.session ==> InSync(SetParent(c, e).client)
  {
    var keep := {e} + (set x | x in c.children);
    var c1 := c.(
      parent := Some(e),
      open := c.open * keep,
      peers := map x | x in c.peers && x in keep :: c.peers[x]);
    NotifyChildrenFollows(c1);
    forall x ensures FollowsAt(c, SetParent(c, e), x) {
      assert FollowsAt(c1, SetParent(c, e), x);
    }
  }

  lemma CheckIfNewParentFollows(c: Client, e: Conn)
    requires Valid(c) && e in c.peers
    ensures Follows(c, CheckIfNewParent(c, e))
    ensures c.session && InSync(c) ==> InSync(CheckIfNewParent(c, e).client)
  {
    if !Complete(c.peers[e].known) {
      SameFollows(c);
    } else if c.parent.None? {
      SetParentFollows(c, e);
    } else {
      OnClosedFollows(c, e);
    }
  }

  lemma AppendDistinct(s: seq<Conn>, e: Conn)
    requires Distinct(s) && e !in s
    ensures Distinct(s + [e]) && forall x :: x in s + [e] <==> x in s || x == e
  {
  }

  lemma AddChildValid(c: Client, e: Conn)
    requires Valid(c) && e in c.peers && e !in c.children && e.Accepted?
    ensures Valid(AddChild(c, e).client)
    ensures c.session && InSync(c) ==> InSync(AddChild(c, e).client)
  {
    var c1 := c.(children := c.children + [e]);
    AppendedValid(c, e);
    if c.session {
      ToldValid(c1, e);
    }
  }

  lemma AppendedValid(c: Client, e: Conn)
    requires Valid(c) && e in c.peers && e !in c.children && e.Accepted?
    ensures var c1 := c.(children := c.children + [e]); Valid(c1) && Advertised(c1) == Advertised(c)
    ensures forall x :: x in c.children + [e] <==> x in c.children || x == e
  {
    AppendDistinct(c.children, e);
  }

  /** A child that is told what is advertised */
  lemma ToldValid(c: Client, e: Conn)
    requires Valid(c) && e in c.children
    ensures var c1 := c.(told := c.told[e := AsKnown(Advertised(c))]); Valid(c1) && Advertised(c1) == Advertised(c)
  {
    LevelZeroIsOwnRoot(c);
  }

  /** A level 0 alone tells as much as level and root together. */
  lemma AddChildMsgs(c: Client, e: Conn, x: Conn)
    requires ParentKnown(c) && c.session
    ensures MsgsTo(AddChild(c, e).sends, x) != [] ==> x == e
    ensures Advertised(c).root == c.me || Advertised(c).level != 0 ==>
      Apply(NOTHING, MsgsTo(AddChild(c, e).sends, e), c.me) == AsKnown(Advertised(c))
  {
    var b := Advertised(c);
    if b.level == 0 {
      MsgsToOne(Send(e, Level(0)), x);
      MsgsToOne(Send(e, Level(0)), e);
      ApplyOne(NOTHING, Level(0), c.me);
    } else {
      MsgsToTwo(Send(e, Level(b.level)), Send(e, Root(b.root)), x);
      MsgsToTwo(Send(e, Level(b.level)), Send(e, Root(b.root)), e);
      ApplyBoth(NOTHING, b, c.me);
    }
  }

  lemma AddChildFollows(c: Client, e: Conn)
    requires Valid(c) && e in c.peers && e !in c.children && e.Accepted?
    ensures Follows(c, AddChild(c, e))
    ensures c.session && InSync(c) ==> InSync(AddChild(c, e).client)
  {
    AddChildValid(c, e);
    forall x ensures FollowsAt(c, AddChild(c, e), x) {
      AddChildFollowsAt(c, e, x);
    }
  }

  lemma AddChildFollowsAt(c: Client, e: Conn, x: Conn)
    requires Valid(c) && e in c.peers && e !in c.children && e.Accepted?
    ensures FollowsAt(c, AddChild(c, e), x)
  {
    if c.session { AddChildMsgs(c, e, x); }
  }

  lemma OnInitializedFollows(c: Client, e: Conn, username: Name)
    requires Valid(c) && e in c.open && e !in c.peers
    ensures Valid(Register(c, e, username))
    ensures Follows(Register(c, e, username), OnInitialized(c, e, username))
    ensures c.session && InSync(c) ==> InSync(OnInitialized(c, e, username).client)
  {
    var c1 := Register(c, e, username);
    SameFollows(c1);
    assert Advertised(c1) == Advertised(c);
    if e.Accepted? {
      OnClosedFollows(c1, e);
      AddChildFollows(c1, e);
    }
  }

  lemma OnMessageFollows(c: Client, e: Conn, m: Msg)
    requires Valid(c) && e in c.peers && e.Requested?
    ensures Valid(Receive(c, e, m))
    ensures Follows(Receive(c, e, m), OnMessage(c, e, m))
    ensures c.session && InSync(c) ==> InSync(OnMessage(c, e, m).client)
  {
    var c1 := Receive(c, e, m);
    if m.Root? && c.peers[e].known.root == Some(m.root) {
      assert c1 == c;
      SameFollows(c);
    } else {
      ReceiveValid(c, e, m);
      if c.parent == Some(e) {
        NotifyChildrenFollows(c1);
      } else {
        CheckIfNewParentFollows(c1, e);
      }
    }
  }

  lemma ReceiveValid(c: Client, e: Conn, m: Msg)
    requires Valid(c) && e in c.peers && e.Requested?
    ensures Valid(Receive(c, e, m))
    ensures c.parent != Some(e) && InSync(c) ==> InSync(Receive(c, e, m))
  {
  }

  // ---------------------------------------------------------------- who stays connected

  /**
   The first peer known by level and root becomes the parent. Its connection and those of the children are all
   that stays open and registered, with what they have told; the children stay.
   */
  lemma AdoptionExactly(c: Client, e: Conn, m: Msg)
    requires Valid(c) && c.parent == None && e in c.peers && e.Requested?
    ensures var was := c.peers[e].known; var c' := OnMessage(c, e, m).client;
            var hasLevel := m.Level? || was.level.Some?; var hasRoot := m.Root? || was.root.Some? || m.level == 0;
            var news := m.Level? || was.root != Some(m.root);
            && (c'.parent == Some(e) <==> news && hasLevel && hasRoot) && (c'.parent == None || c'.parent == Some(e))
            && c'.children == c.children
            && (c'.parent == Some(e) ==>
                  && (forall x :: x in c'.open <==> x in c.open && (x == e || x in c.children))
                  && (forall x :: x in c'.peers <==> x in c.peers && (x == e || x in c.children)))
            && (c'.parent == None ==> c'.open == c.open && c'.peers.Keys == c.peers.Keys)
            && (forall x :: x in c'.peers && x != e ==> c'.peers[x] == c.peers[x])
  {
    var c1 := Receive(c, e, m);
    ReceiveValid(c, e, m);
    if !(m.Root? && c.peers[e].known.root == Some(m.root)) && Complete(c1.peers[e].known) {
      AdoptedOnly(c1, e);
    }
  }

  lemma AdoptedOnly(c: Client, e: Conn)
    requires Valid(c) && e in c.peers && Complete(c.peers[e].known)
    ensures var c' := SetParent(c, e).client;
            && c'.parent == Some(e) && c'.children == c.children
            && (forall x :: x in c'.open <==> x in c.open && (x == e || x in c.children))
            && (forall x :: x in c'.peers <==> x in c.peers && (x == e || x in c.children))
            && (forall x :: x in c'.peers ==> c'.peers[x] == c.peers[x])
  {
  }

  /** What a message tells about its sender: a level 0 makes the sender its own root. */
  lemma ToldBy(c: Client, e: Conn, m: Msg)
    requires Valid(c) && e in c.peers && e.Requested? && e in OnMessage(c, e, m).client.peers
    ensures var was := c.peers[e]; var now := OnMessage(c, e, m).client.peers[e];
            now == was.(known := Known(if m.Level? then Some(m.level) else was.known.level,
                                       if m.Root? then Some(m.root) else if m.level == 0 then Some(was.username) else was.known.root))
  {
  }

  /** With a parent there already, a second peer known by level and root is let go, and no other is affected. */
  lemma SurplusIsClosed(c: Client, e: Conn, m: Msg)
    requires Valid(c) && c.parent.Some? && c.parent != Some(e) && e in c.peers && e.Requested?
    ensures var was := c.peers[e].known; var o := OnMessage(c, e, m); var c' := o.client;
            var hasLevel := m.Level? || was.level.Some?; var hasRoot := m.Root? || was.root.Some? || m.level == 0;
            var news := m.Level? || was.root != Some(m.root);
            && o.sends == [] && c'.parent == c.parent && c'.children == c.children
            && (e in c'.open <==> !(news && hasLevel && hasRoot)) && (e in c'.peers <==> e in c'.open)
            && (forall x :: x != e ==> (x in c'.open <==> x in c.open) && (x in c'.peers <==> x in c.peers))
            && (forall x :: x in c'.peers && x != e ==> c'.peers[x] == c.peers[x])
  {
    NotThere(c.children, e);
  }

  /**
   A new connection of an accepted peer becomes a child's exactly when its user is no potential parent, children
   are accepted and there is room; without one of the last two it is let go.
   */
  lemma InitializedExactly(c: Client, e: Conn, username: Name)
    requires Valid(c) && e in c.open && e !in c.peers
    ensures var c' := OnInitialized(c, e, username).client;
            var candidate := e.Accepted? && username !in c.potentialParents;
            var room := c.acceptChildren && |c.children| < c.maxChildren;
            && c'.parent == c.parent && c'.children == (if candidate && room then c.children + [e] else c.children)
            && (e in c'.open <==> !candidate || room) && (e in c'.peers <==> e in c'.open)
            && (e in c'.peers ==> c'.peers[e] == Peer(username, NOTHING))
            && (forall x :: x != e ==> (x in c'.open <==> x in c.open) && (x in c'.peers <==> x in c.peers))
            && (forall x :: x in c.peers ==> x in c'.peers && c'.peers[x] == c.peers[x])
  {
    NotThere(c.children, e);
  }

  /** A closed connection is forgotten: as the parent's, a child's and a peer's. */
  lemma ClosedIsForgotten(c: Client, e: Conn)
    requires Valid(c)
    ensures var c' := OnClosed(c, e).client;
            && c'.parent == (if c.parent == Some(e) then None else c.parent)
            && (forall x :: x in c'.children <==> x in c.children && x != e)
            && (forall x :: x in c'.open <==> x in c.open && x != e)
            && (forall x :: x in c'.peers <==> x in c.peers && x != e)
            && (forall x :: x in c'.peers ==> c'.peers[x] == c.peers[x])
  {
    RemoveFirstRemoves(c.children, e);
  }

  /** The names of potential parents: the last twenty, in the order they came. */
  lemma PotentialParentsKept(c: Client, names: seq<Name>)
    ensures var kept := OnPotentialParents(c, names).potentialParents; var all := c.potentialParents + names;
            |kept| == (if |all| < 20 then |all| else 20) && kept == all[|all| - |kept|..]
  {
  }

  // ---------------------------------------------------------------- children in sync

  /** An event that can happen: connections come up once, and only a parent side sends branch values. */
  predicate CanHappen(c: Client, ev: Event)
  {
    match ev
    case Initialized(e, _) => e in c.open && e !in c.peers
    case Received(e, _) => e in c.peers && e.Requested?
    case Closed(_) => true
  }

  lemma HandleValid(c: Client, ev: Event)
    requires Valid(c) && CanHappen(c, ev)
    ensures Valid(Handle(c, ev).client) && Handle(c, ev).client.session == c.session
    ensures c.session && InSync(c) ==> InSync(Handle(c, ev).client)
  {
    match ev
    case Initialized(e, username) => OnInitializedFollows(c, e, username);
    case Received(e, m) => OnMessageFollows(c, e, m);
    case Closed(e) => OnClosedFollows(c, e);
  }

  /** Without a session nothing is sent, and what the remaining children were told stays. */
  predicate Silent(c: Client, o: Out, x: Conn)
  {
    && o.sends == []
    && (x in o.client.children ==> Told(o.client, x) == if x in c.children then Told(c, x) else NOTHING)
  }

  lemma ClosedSilent(c: Client, e: Conn, x: Conn)
    requires Valid(c) && !c.session
    ensures Silent(c, OnClosed(c, e), x)
  {
    RemoveFirstRemoves(c.children, e);
  }

  lemma InitializedSilent(c: Client, e: Conn, username: Name, x: Conn)
    requires Valid(c) && !c.session && e in c.open && e !in c.peers
    ensures Silent(c, OnInitialized(c, e, username), x)
  {
    OnInitializedFollows(c, e, username);
    ClosedSilent(Register(c, e, username), e, x);
  }

  lemma ReceivedSilent(c: Client, e: Conn, m: Msg, x: Conn)
    requires Valid(c) && !c.session && e in c.peers && e.Requested?
    ensures Silent(c, OnMessage(c, e, m), x)
  {
    OnMessageFollows(c, e, m);
    if c.parent != Some(e) { ClosedSilent(Receive(c, e, m), e, x); }
  }

  lemma HandleSilent(c: Client, ev: Event, x: Conn)
    requires Valid(c) && CanHappen(c, ev) && !c.session
    ensures Silent(c, Handle(c, ev), x)
  {
    match ev
    case Initialized(e, username) => InitializedSilent(c, e, username, x);
    case Received(e, m) => ReceivedSilent(c, e, m, x);
    case Closed(e) => ClosedSilent(c, e, x);
  }

  /** Without a session the children are in sync afterwards if none is left, or if branch and children stay. */
  lemma SilentlyInSync(c: Client, ev: Event)
    requires Valid(c) && CanHappen(c, ev) && InSync(c) && !c.session
    ensures Valid(Handle(c, ev).client)
    ensures var c' := Handle(c, ev).client;
            InSync(c') <==>
            c'.children == [] || (Advertised(c') == Advertised(c) && forall x :: x in c'.children ==> x in c.children)
  {
    HandleValid(c, ev);
    var c' := Handle(c, ev).client;
    forall x ensures x in c'.children ==> Told(c', x) == if x in c.children then Told(c, x) else NOTHING {
      HandleSilent(c, ev, x);
    }
    if InSync(c') && c'.children != [] {
      var x := c'.children[0];
      assert x in c'.children && Told(c', x) == AsKnown(Advertised(c'));
    }
  }

  /** What a client advertises whose parent has told this. */
  function BranchUnder(k: Known, me: Name): Branch
    requires Complete(k)
  {
    if k.root.value == me then Branch(me, 0) else Branch(k.root.value, k.level.value + 1)
  }

  /** An accepted connection of this user becomes a child's. */
  predicate Admits(c: Client, username: Name)
  {
    username !in c.potentialParents && c.acceptChildren && |c.children| < c.maxChildren
  }

  /** With a session, the client would have to tell a child something on this event. */
  predicate MustTell(c: Client, ev: Event)
    requires ParentKnown(c) && CanHappen(c, ev)
  {
    match ev
    // a new child
    case Initialized(e, username) =>
      e.Accepted? && Admits(c, username)
    case Received(e, m) =>
      var k := ApplyMsg(c.peers[e].known, m, c.peers[e].username);
      && c.children != [] && !(m.Root? && c.peers[e].known.root == Some(m.root))
      && (if c.parent == Some(e) then Complete(k) && BranchUnder(k, c.me) != Advertised(c)
          // a new parent, which does not name this client as its root
          else c.parent == None && Complete(k) && k.root != Some(c.me))
    // the parent is lost
    case Closed(e) => c.children != [] && c.parent == Some(e) && Advertised(c).level != 0
  }

  lemma ClosedInSync(c: Client, e: Conn)
    requires Valid(c) && InSync(c) && !c.session
    ensures Valid(OnClosed(c, e).client) && (InSync(OnClosed(c, e).client) <==> !MustTell(c, Closed(e)))
  {
    SilentlyInSync(c, Closed(e));
    RemoveFirstRemoves(c.children, e);
    if c.parent == Some(e) {
      NotThere(c.children, e);
      LevelZeroIsOwnRoot(c);
    }
  }

  lemma InitializedInSync(c: Client, e: Conn, username: Name)
    requires Valid(c) && InSync(c) && !c.session && e in c.open && e !in c.peers
    ensures Valid(OnInitialized(c, e, username).client)
    ensures InSync(OnInitialized(c, e, username).client) <==> !MustTell(c, Initialized(e, username))
  {
    SilentlyInSync(c, Initialized(e, username));
    InitializedKeepsBranch(c, e, username);
  }

  lemma InitializedKeepsBranch(c: Client, e: Conn, username: Name)
    requires Valid(c) && !c.session && e in c.open && e !in c.peers
    ensures var c' := OnInitialized(c, e, username).client;
            && ParentKnown(c') && Advertised(c') == Advertised(c)
            && c'.children == (if MustTell(c, Initialized(e, username)) then c.children + [e] else c.children)
    ensures e !in c.children && e in c.children + [e]
  {
    var c1 := Register(c, e, username);
    NotThere(c.children, e);
    assert c1.parent == c.parent && (c.parent.Some? ==> c1.peers[c.parent.value] == c.peers[c.parent.value]);
  }

  /** Without a session a branch message leaves the children as they are, and may change the branch. */
  lemma ReceivedChanges(c: Client, e: Conn, m: Msg)
    requires Valid(c) && !c.session && e in c.peers && e.Requested?
    ensures var c' := OnMessage(c, e, m).client;
            && Valid(c') && c'.children == c.children
            && (MustTell(c, Received(e, m)) <==> c.children != [] && Advertised(c') != Advertised(c))
  {
    OnMessageFollows(c, e, m);
    if m.Root? && c.peers[e].known.root == Some(m.root) {
    } else if c.parent == Some(e) {
      assert Advertised(Receive(c, e, m)) == BranchUnder(Receive(c, e, m).peers[e].known, c.me);
    } else if c.parent == None && Complete(Receive(c, e, m).peers[e].known) {
      AdoptedBranch(Receive(c, e, m), e);
    } else {
      RemoveFirstRemoves(c.children, e);
      NotThere(c.children, e);
    }
  }

  lemma AdoptedBranch(c: Client, e: Conn)
    requires Valid(c) && !c.session && e in c.peers && Complete(c.peers[e].known)
    ensures var c' := SetParent(c, e).client;
            ParentKnown(c') && c'.children == c.children && Advertised(c') == BranchUnder(c.peers[e].known, c.me)
  {
  }

  lemma ReceivedInSync(c: Client, e: Conn, m: Msg)
    requires Valid(c) && InSync(c) && !c.session && e in c.peers && e.Requested?
    ensures Valid(OnMessage(c, e, m).client)
    ensures InSync(OnMessage(c, e, m).client) <==> !MustTell(c, Received(e, m))
  {
    SilentlyInSync(c, Received(e, m));
    ReceivedChanges(c, e, m);
  }

  /**
   An event leaves the children in sync exactly when a session is held or there is nothing to tell them: the
   early returns for a missing session are the only way a child can be left with outdated values.
   */
  lemma InSyncExactly(c: Client, ev: Event)
    requires Valid(c) && CanHappen(c, ev) && InSync(c)
    ensures Valid(Handle(c, ev).client)
    ensures InSync(Handle(c, ev).client) <==> c.session || !MustTell(c, ev)
  {
    HandleValid(c, ev);
    if !c.session {
      match ev
      case Initialized(e, username) => InitializedInSync(c, e, username);
      case Received(e, m) => ReceivedInSync(c, e, m);
      case Closed(e) => ClosedInSync(c, e);
    }
  }

  /**
   A client that loses its parent while it has no session leaves every child with the old values, and
   gaining a session again does not tell them.
   */
  lemma LostParentIsNotAnnounced(c: Client)
    requires Valid(c) && InSync(c) && !c.session && c.parent.Some? && c.children != [] && Advertised(c).level != 0
    ensures var c' := Handle(c, Closed(c.parent.value)).client.(session := true);
            Valid(c') && c'.children == c.children &&
            forall x :: x in c'.children ==> Told(c', x) == AsKnown(Advertised(c)) != AsKnown(Advertised(c'))
  {
    var e := c.parent.value;
    OnClosedFollows(c, e);
    assert e !in c.children;
    NotThere(c.children, e);
    forall x ensures x in c.children ==> Told(OnClosed(c, e).client, x) == Told(c, x) {
      ClosedSilent(c, e, x);
    }
  }

  lemma {:induction false} NotThere(s: seq<Conn>, e: Conn)
    requires e !in s
    ensures RemoveFirst(s, e) == s
  {
    if s != [] {
      NotThere(s[1..], e);
    }
  }

  /** Such a client exists: a parent at level 0 and one child. */
  lemma StaleChild() returns (c: Client)
    ensures Valid(c) && InSync(c) && !c.session && c.parent.Some? && c.children != [] && Advertised(c).level != 0
  {
    var parent := Requested(0);
    var child := Accepted(1);
    var branch := Branch("root", 1);
    c := Client("me", false, Some(parent), [child],
                map[parent := Peer("root", Known(Some(0), Some("root"))), child := Peer("child", NOTHING)],
                {parent, child}, [], true, 5, map[child := AsKnown(branch)]);
    assert forall x :: x in c.children ==> x == child;
  }
}

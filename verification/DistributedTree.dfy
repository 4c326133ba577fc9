/**
 The distributed tree over whole runs: what a child knows, once its messages have arrived, is what its
 parent advertises, and when nothing is on its way the advertised levels count the steps to the root.
 */
module DistributedTree {

  import opened Wrappers
  import opened Distributed
  import opened DistributedClient
  import opened DistributedSystem

  /** The steps can be taken one after the other and lead from s to s'. */
  ghost predicate IsRun(s: Sys, steps: seq<Step>, s': Sys)
    decreases |steps|
  {
    if steps == [] then s' == s
    else AllKnown(s) && Enabled(s, steps[0]) && IsRun(Do(s, steps[0]), steps[1..], s')
  }

  lemma {:induction false} RunInv(s: Sys, steps: seq<Step>, s': Sys)
    requires Inv(s) && IsRun(s, steps, s')
    ensures Inv(s')
    decreases |steps|
  {
    if steps != [] {
      StepInv(s, steps[0]);
      RunInv(Do(s, steps[0]), steps[1..], s');
    }
  }

  /** No run reaches a state in which an enabled step could not be taken: a parent's values are never missing. */
  lemma NoStepGetsStuck(s0: Sys, steps: seq<Step>, s: Sys)
    requires Init(s0) && IsRun(s0, steps, s)
    ensures AllKnown(s)
    ensures forall n :: n in s.clients && s.clients[n].parent.Some? ==> s.clients[n].parent.value in s.clients[n].open
  {
    InitInv(s0);
    RunInv(s0, steps, s);
    forall n | n in s.clients ensures ClientOk(s.links, n, s.clients[n]) {}
  }

  // ---------------------------------------------------------------- children in sync over a run

  predicate SyncedClient(s: Sys, n: Name)
  {
    n in s.clients && s.clients[n].session && ParentKnown(s.clients[n]) && InSync(s.clients[n])
  }

  /** One event at a client that holds a session. */
  lemma EventSynced(s: Sys, m: Name, ev: Event, n: Name)
    requires m in s.clients && Valid(s.clients[m]) && CanHappen(s.clients[m], ev) && SyncedClient(s, n)
    ensures SyncedClient(Put(s, m, Handle(s.clients[m], ev)), n)
  {
    HandleValid(s.clients[m], ev);
  }

  lemma DeliverSynced(s: Sys, e: Conn, n: Name)
    requires Inv(s) && AllKnown(s) && Enabled(s, Deliver(e)) && SyncedClient(s, n)
    ensures SyncedClient(Do(s, Deliver(e)), n)
  {
    Arrival(s, e);
    EventSynced(s.(wire := s.wire[e := s.wire[e][1..]]), Owner(s, e), Received(e, s.wire[e][0]), n);
  }

  lemma ConnectSynced(s: Sys, id: nat, requester: Name, acceptor: Name, n: Name)
    requires AllKnown(s) && Enabled(s, Connect(id, requester, acceptor)) && SyncedClient(s, n)
    ensures SyncedClient(Do(s, Connect(id, requester, acceptor)), n)
  {
  }

  lemma ServerSynced(s: Sys, step: Step, n: Name)
    requires AllKnown(s) && Enabled(s, step) && SyncedClient(s, n) && step != SessionDestroyed(n)
    requires step.PotentialParents? || step.Settings? || step.SessionInitialized? || step.SessionDestroyed?
    ensures SyncedClient(Do(s, step), n)
  {
  }

  lemma StepSynced(s: Sys, step: Step, n: Name)
    requires Inv(s) && AllKnown(s) && Enabled(s, step) && SyncedClient(s, n) && step != SessionDestroyed(n)
    ensures SyncedClient(Do(s, step), n)
  {
    match step
    case Connect(id, requester, acceptor) => ConnectSynced(s, id, requester, acceptor, n);
    case Initialize(e) => EventSynced(s, Owner(s, e), Initialized(e, Owner(s, Twin(e))), n);
    case Deliver(e) => DeliverSynced(s, e, n);
    case Disconnect(e) => EventSynced(s, Owner(s, e), Closed(e), n);
    case Lose(_, _) =>
    case _ => ServerSynced(s, step, n);
  }

  lemma {:induction false} RunSynced(s: Sys, steps: seq<Step>, s': Sys, n: Name)
    requires Inv(s) && IsRun(s, steps, s') && SyncedClient(s, n) && SessionDestroyed(n) !in steps
    ensures Inv(s') && SyncedClient(s', n)
    decreases |steps|
  {
    if steps != [] {
      StepInv(s, steps[0]);
      StepSynced(s, steps[0], n);
      RunSynced(Do(s, steps[0]), steps[1..], s', n);
    }
  }

  /** After the first k steps the client holds a session and has no child yet; it does not lose the session later. */
  ghost predicate KeepsSession(s0: Sys, steps: seq<Step>, s: Sys, n: Name, k: nat, s1: Sys)
  {
    && k <= |steps| && IsRun(s0, steps[..k], s1) && IsRun(s1, steps[k..], s)
    && n in s1.clients && s1.clients[n].session && s1.clients[n].children == []
    && SessionDestroyed(n) !in steps[k..]
  }

  lemma KeptInSync(s0: Sys, steps: seq<Step>, s: Sys, n: Name, k: nat, s1: Sys)
    requires Init(s0) && KeepsSession(s0, steps, s, n, k, s1)
    ensures Inv(s) && SyncedClient(s, n)
  {
    InitInv(s0);
    RunInv(s0, steps[..k], s1);
    assert ClientOk(s1.links, n, s1.clients[n]);
    RunSynced(s1, steps[k..], s, n);
  }

  /**
   For every open connection between a parent that has kept its session since before its first child and a
   child of it, the messages still on the wire turn the child's record into exactly what the parent
   advertises now.
   */
  lemma ChannelsMatch(s0: Sys, steps: seq<Step>, s: Sys, id: nat, k: nat, s1: Sys)
    requires Init(s0) && id in s.links && KeepsSession(s0, steps, s, s.links[id].acceptor, k, s1)
    requires IsOpen(s, Requested(id)) && IsOpen(s, Accepted(id))
    requires Accepted(id) in s.clients[s.links[id].acceptor].children
    ensures var parent := s.clients[s.links[id].acceptor]; var child := s.clients[s.links[id].requester];
            Requested(id) in s.wire && ParentKnown(parent) &&
            Apply(KnownAt(child, Requested(id)), s.wire[Requested(id)], parent.me) == AsKnown(Advertised(parent))
  {
    KeptInSync(s0, steps, s, s.links[id].acceptor, k, s1);
    assert LinkOk(s, id);
  }

  // ---------------------------------------------------------------- quiescent states

  /** No message is on its way, no connection is open on one side only, and all children are in sync. */
  ghost predicate Quiescent(s: Sys)
  {
    && Inv(s)
    && (forall e :: e in s.wire ==> s.wire[e] == [])
    && (forall n, e :: n in s.clients && e in s.clients[n].open ==> IsOpen(s, Twin(e)))
    && (forall n :: n in s.clients ==> InSync(s.clients[n]))
  }

  /**
   A run ends in sync when every client with children has gained its session before it had any and has not
   lost it since, so that only the channels have to drain.
   */
  lemma DrainedRunIsQuiescent(s0: Sys, steps: seq<Step>, s: Sys)
    requires Init(s0) && IsRun(s0, steps, s)
    requires forall n :: n in s.clients ==>
      s.clients[n].children == [] || exists k: nat, s1 :: KeepsSession(s0, steps, s, n, k, s1)
    requires forall e :: e in s.wire ==> s.wire[e] == []
    requires forall n, e :: n in s.clients && e in s.clients[n].open ==> IsOpen(s, Twin(e))
    ensures Quiescent(s)
  {
    InitInv(s0);
    RunInv(s0, steps, s);
    forall n | n in s.clients ensures InSync(s.clients[n]) {
      if s.clients[n].children != [] {
        var k: nat, s1 :| KeepsSession(s0, steps, s, n, k, s1);
        KeptInSync(s0, steps, s, n, k, s1);
      }
    }
  }

  ghost function Adv(s: Sys, n: Name): Branch
    requires Inv(s) && n in s.clients
  {
    assert ClientOk(s.links, n, s.clients[n]);
    Advertised(s.clients[n])
  }

  /** The client at the other side of the parent connection. */
  function ParentName(s: Sys, n: Name): Option<Name>
    requires n in s.clients
  {
    match s.clients[n].parent
    case None => None
    case Some(e) => if e.id in s.links then Some(Owner(s, Twin(e))) else None
  }

  /** In a quiescent state a client knows exactly what its parent advertises. */
  lemma ParentRecord(s: Sys, n: Name) returns (parent: Name)
    requires Quiescent(s) && n in s.clients && s.clients[n].parent.Some?
    ensures ParentName(s, n) == Some(parent) && parent in s.clients
    ensures KnownAt(s.clients[n], s.clients[n].parent.value) == AsKnown(Adv(s, parent))
  {
    var c := s.clients[n];
    var e := c.parent.value;
    assert EndOk(s.links, c, e);
    assert LinkOk(s, e.id);
    parent := Owner(s, Twin(e));
    assert IsOpen(s, Twin(e));
    assert Complete(Told(s.clients[parent], Twin(e)));
  }

  /** What a client advertises, in terms of what its parent advertises. */
  lemma AdvStep(s: Sys, n: Name)
    requires Quiescent(s) && n in s.clients
    ensures match ParentName(s, n)
            case None => Adv(s, n) == Branch(n, 0)
            case Some(p) =>
              p in s.clients &&
              Adv(s, n) == if Adv(s, p).root == n then Branch(n, 0) else Branch(Adv(s, p).root, Adv(s, p).level + 1)
  {
    assert ClientOk(s.links, n, s.clients[n]);
    if s.clients[n].parent.Some? {
      var p := ParentRecord(s, n);
    }
  }

  // ---------------------------------------------------------------- the shape of a quiescent state

  /** The parents and advertised values of all clients. */
  datatype Tree = Tree(parent: map<Name, Option<Name>>, adv: map<Name, Branch>)

  ghost function TreeOf(s: Sys): Tree
    requires Inv(s)
  {
    Tree(map n | n in s.clients :: ParentName(s, n), map n | n in s.clients :: Adv(s, n))
  }

  /** A client advertises itself without a parent, or when its parent names it as the root; else one level more. */
  predicate Consistent(t: Tree, n: Name)
  {
    n in t.parent && n in t.adv &&
    match t.parent[n]
    case None => t.adv[n] == Branch(n, 0)
    case Some(p) =>
      p in t.parent && p in t.adv &&
      t.adv[n] == if t.adv[p].root == n then Branch(n, 0) else Branch(t.adv[p].root, t.adv[p].level + 1)
  }

  ghost predicate Settled(t: Tree)
  {
    t.adv.Keys == t.parent.Keys && forall n {:trigger Consistent(t, n)} :: n in t.parent ==> Consistent(t, n)
  }

  /** In a quiescent state every client's values follow from its parent's. */
  lemma QuiescentIsSettled(s: Sys)
    requires Quiescent(s)
    ensures Settled(TreeOf(s)) && TreeOf(s).parent.Keys == s.clients.Keys
  {
    var t := TreeOf(s);
    forall n | n in t.parent ensures Consistent(t, n) {
      AdvStep(s, n);
    }
  }

  /** k steps up the tree. */
  function Ancestor(t: Tree, n: Name, k: nat): Option<Name>
    decreases k
  {
    if k == 0 then Some(n)
    else if n !in t.parent then None
    else match t.parent[n] case None => None case Some(p) => Ancestor(t, p, k - 1)
  }

  /** Going up one step, the level goes down by one until it is 0. */
  lemma {:induction false} LevelsDescend(t: Tree, n: Name, k: nat)
    requires Settled(t) && n in t.parent && k <= t.adv[n].level
    ensures Ancestor(t, n, k).Some? && Ancestor(t, n, k).value in t.parent
    ensures t.adv[Ancestor(t, n, k).value] == Branch(t.adv[n].root, t.adv[n].level - k)
    decreases k
  {
    assert Consistent(t, n);
    if k > 0 {
      LevelsDescend(t, t.parent[n].value, k - 1);
    }
  }

  /**
   The advertised level is the number of parent steps up to the first client at level 0, and that client
   is the one whose name is advertised as the root.
   */
  lemma LevelCountsSteps(s: Sys, n: Name)
    requires Quiescent(s) && n in s.clients
    ensures var t := TreeOf(s); var b := Adv(s, n);
            && b.root in s.clients && Adv(s, b.root) == Branch(b.root, 0)
            && Ancestor(t, n, b.level) == Some(b.root)
            && forall k: nat :: k < b.level ==>
              Ancestor(t, n, k).Some? && Ancestor(t, n, k).value in s.clients &&
              Adv(s, Ancestor(t, n, k).value) == Branch(b.root, b.level - k)
  {
    var t := TreeOf(s);
    QuiescentIsSettled(s);
    var b := Adv(s, n);
    LevelsDescend(t, n, b.level);
    assert Consistent(t, Ancestor(t, n, b.level).value);
    forall k: nat | k < b.level
      ensures Ancestor(t, n, k).Some? && Ancestor(t, n, k).value in s.clients
      ensures Adv(s, Ancestor(t, n, k).value) == Branch(b.root, b.level - k)
    {
      LevelsDescend(t, n, k);
    }
  }

  // ---------------------------------------------------------------- parent cycles

  function Next(i: nat, length: nat): nat
  {
    if i + 1 < length then i + 1 else 0
  }

  /** Each client of the cycle has the next one as its parent, the last one the first. */
  predicate ParentCycle(t: Tree, cycle: seq<Name>)
  {
    && cycle != []
    && (forall i :: 0 <= i < |cycle| ==> cycle[i] in t.parent)
    && (forall i, j :: 0 <= i < j < |cycle| ==> cycle[i] != cycle[j])
    && (forall i {:trigger Next(i, |cycle|)} :: 0 <= i < |cycle| ==>
          t.parent[cycle[i]] == Some(cycle[Next(i, |cycle|)]))
  }

  /** Some member of a cycle advertises level 0: each step up lowers the level. */
  lemma {:induction false} CycleHasRoot(t: Tree, cycle: seq<Name>, i: nat) returns (z: nat)
    requires Settled(t) && ParentCycle(t, cycle) && i < |cycle|
    ensures z < |cycle| && t.adv[cycle[z]].level == 0
    decreases t.adv[cycle[i]].level
  {
    assert Consistent(t, cycle[i]);
    if t.adv[cycle[i]].level == 0 {
      z := i;
    } else {
      z := CycleHasRoot(t, cycle, Next(i, |cycle|));
    }
  }

  /** When the first member is at level 0, every other one has it as its root. */
  lemma {:induction false} CycleRoots(t: Tree, cycle: seq<Name>, k: nat)
    requires Settled(t) && ParentCycle(t, cycle) && t.adv[cycle[0]].level == 0 && 0 < k < |cycle|
    ensures t.adv[cycle[k]].root == cycle[0]
    decreases k
  {
    assert Consistent(t, cycle[k - 1]) && t.parent[cycle[k - 1]] == Some(cycle[Next(k - 1, |cycle|)]);
    if k > 1 {
      CycleRoots(t, cycle, k - 1);
    }
  }

  /** ... and counts the remaining steps round to it. */
  lemma {:induction false} CycleLevels(t: Tree, cycle: seq<Name>, k: nat)
    requires Settled(t) && ParentCycle(t, cycle) && t.adv[cycle[0]].level == 0 && 0 < k < |cycle|
    ensures t.adv[cycle[k]] == Branch(cycle[0], |cycle| - k)
    decreases |cycle| - k
  {
    CycleRoots(t, cycle, k);
    assert Consistent(t, cycle[k]) && t.parent[cycle[k]] == Some(cycle[Next(k, |cycle|)]);
    if k + 1 < |cycle| {
      CycleLevels(t, cycle, k + 1);
    } else {
      assert Consistent(t, cycle[0]);
    }
  }

  function Rotated(cycle: seq<Name>, z: nat): (r: seq<Name>)
    requires z < |cycle|
    ensures |r| == |cycle|
    ensures forall i :: 0 <= i < |cycle| ==> r[i] == cycle[if i + z < |cycle| then i + z else i + z - |cycle|]
  {
    cycle[z..] + cycle[..z]
  }

  lemma RotatedCycle(t: Tree, cycle: seq<Name>, z: nat)
    requires ParentCycle(t, cycle) && z < |cycle|
    ensures ParentCycle(t, Rotated(cycle, z))
  {
    var r := Rotated(cycle, z);
    forall i | 0 <= i < |r| ensures t.parent[r[i]] == Some(r[Next(i, |r|)]) {
      var at := if i + z < |cycle| then i + z else i + z - |cycle|;
      assert t.parent[cycle[at]] == Some(cycle[Next(at, |cycle|)]);
    }
  }

  /** Steps from position k to position z, going round. */
  function StepsTo(k: nat, z: nat, length: nat): nat
    requires k < length && z < length
  {
    if k <= z then z - k else length - k + z
  }

  lemma CycleIsCutAt(t: Tree, cycle: seq<Name>, z: nat, k: nat)
    requires Settled(t) && ParentCycle(t, cycle) && z < |cycle| && k < |cycle| && t.adv[cycle[z]].level == 0
    ensures t.adv[cycle[k]] == Branch(cycle[z], StepsTo(k, z, |cycle|))
  {
    if k == z {
      assert Consistent(t, cycle[z]);
    } else {
      RotatedCycle(t, cycle, z);
      CycleLevels(t, Rotated(cycle, z), if k >= z then k - z else |cycle| - z + k);
    }
  }

  /**
   Nothing prevents a parent cycle, but a quiescent one is cut at exactly one member: it advertises itself
   at level 0, and every other member advertises it at the number of steps to it.
   */
  lemma CycleIsCutOnce(s: Sys, cycle: seq<Name>) returns (z: nat)
    requires Quiescent(s) && ParentCycle(TreeOf(s), cycle)
    ensures z < |cycle|
    ensures forall k :: 0 <= k < |cycle| ==> Adv(s, cycle[k]) == Branch(cycle[z], StepsTo(k, z, |cycle|))
    ensures forall k :: 0 <= k < |cycle| ==> (Adv(s, cycle[k]).level == 0 <==> k == z)
  {
    var t := TreeOf(s);
    QuiescentIsSettled(s);
    z := CycleHasRoot(t, cycle, 0);
    forall k | 0 <= k < |cycle| ensures t.adv[cycle[k]] == Branch(cycle[z], StepsTo(k, z, |cycle|)) {
      CycleIsCutAt(t, cycle, z, k);
    }
  }
}

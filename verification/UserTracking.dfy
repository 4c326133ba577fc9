/**
 User tracking of user/manager.py. Requests to track and untrack a user are queued and handled one at a
 time by a loop that ends, with its entry removed, when nothing is left to track.
 */
module UserTracking {

  import opened Wrappers

  type Name = string

  datatype Flag = Requested | Transfer | Friend

  /** A tracking flag value is a set of flags; the empty one stands for a retry. */
  type Flags = set<Flag>

  datatype State = Untracked | Tracked | RetryPending

  datatype Request = Request(add: bool, flags: Flags)

  const RETRY := Request(true, {})

  /** TrackedUser: the desired flags, the state, the queue, and whether a retry task is waiting. */
  datatype Entry = Entry(flags: Flags, state: State, queue: seq<Request>, retryArmed: bool)

  const NEW_ENTRY := Entry({}, Untracked, [], false)

  /** One user: the entry, if there is one, and whether the server tracks the user for us. */
  datatype Tracking = Tracking(entry: Option<Entry>, onServer: bool)

  /** How a request to the server ends. A message may reach the server without an answer coming back. */
  datatype Reply = NotSent | NoAnswer(reached: bool) | DoesNotExist | Exists

  function Operate(flags: Flags, r: Request): Flags
  {
    if r.add then flags + r.flags else flags - r.flags
  }

  // ---------------------------------------------------------------- handlers

  function Enqueue(e: Entry, r: Request): Entry
  {
    e.(queue := e.queue + [r])
  }

  function OnTrack(t: Tracking, flags: Flags): Tracking
  {
    t.(entry := Some(Enqueue(if t.entry.Some? then t.entry.value else NEW_ENTRY, Request(true, flags))))
  }

  function OnUntrack(t: Tracking, flags: Flags): Tracking
  {
    match t.entry
    case None => t
    case Some(e) => t.(entry := Some(Enqueue(e, Request(false, flags))))
  }

  /** The retry task wakes up. */
  function RetryFires(t: Tracking): Tracking
    requires t.entry.Some? && t.entry.value.retryArmed
  {
    t.(entry := Some(Enqueue(t.entry.value.(retryArmed := false), RETRY)))
  }

  /** The server after AddUser. */
  function ServerAfterAdd(onServer: bool, reply: Reply): bool
  {
    match reply
    case NotSent => onServer
    case NoAnswer(reached) => onServer || reached
    case DoesNotExist => false
    case Exists => true
  }

  /** The server after RemoveUser; only whether the message gets there matters. */
  function ServerAfterRemove(onServer: bool, reply: Reply): bool
  {
    onServer && reply == NotSent
  }

  /** One pass of the loop of _tracking_task; when the loop returns the entry is gone. */
  function Pass(t: Tracking, reply: Reply): Tracking
    requires t.entry.Some? && t.entry.value.queue != []
  {
    var e := t.entry.value;
    var r := e.queue[0];
    var flags := Operate(e.flags, r);
    var e1 := e.(flags := flags, queue := e.queue[1..]);
    if flags == {} then
      var e2 := e1.(retryArmed := false, state := if e.flags != {} then Untracked else e1.state);
      Tracking(if e1.queue == [] then None else Some(e2),
               if e.flags != {} then ServerAfterRemove(t.onServer, reply) else t.onServer)
    else if e.flags == {} || r.flags == {} then
      Tracking(Some(if reply == Exists then e1.(state := Tracked) else e1.(state := RetryPending, retryArmed := true)),
               ServerAfterAdd(t.onServer, reply))
    else Tracking(Some(e1), t.onServer)
  }

  /** The connection to the server is gone: all tasks are cancelled, and the server forgets. */
  function Disconnected(t: Tracking): Tracking
  {
    Tracking(None, false)
  }

  // ---------------------------------------------------------------- the invariant

  function FlagsOf(t: Tracking): Flags
  {
    match t.entry case None => {} case Some(e) => e.flags
  }

  function StateOf(t: Tracking): State
  {
    match t.entry case None => Untracked case Some(e) => e.state
  }

  function Fold(flags: Flags, requests: seq<Request>): Flags
    decreases |requests|
  {
    if requests == [] then flags else Fold(Operate(flags, requests[0]), requests[1..])
  }

  lemma {:induction false} FoldAppend(flags: Flags, requests: seq<Request>, r: Request)
    ensures Fold(flags, requests + [r]) == Operate(Fold(flags, requests), r)
    decreases |requests|
  {
    if requests == [] {
      assert [r][1..] == [] && [] + [r] == [r];
      assert Fold(Operate(flags, r), []) == Operate(flags, r);
    } else {
      assert (requests + [r])[1..] == requests[1..] + [r];
      FoldAppend(Operate(flags, requests[0]), requests[1..], r);
    }
  }

  /** Request i adds the flag, and no later one removes it. */
  predicate LastAt(f: Flag, requests: seq<Request>, i: int)
  {
    && 0 <= i < |requests| && requests[i].add && f in requests[i].flags
    && forall j :: i < j < |requests| && f in requests[j].flags ==> requests[j].add
  }

  ghost predicate LastAdds(f: Flag, requests: seq<Request>)
  {
    exists i :: LastAt(f, requests, i)
  }

  lemma LastAddsMore(f: Flag, requests: seq<Request>, r: Request)
    ensures LastAdds(f, requests + [r]) <==> if f in r.flags then r.add else LastAdds(f, requests)
  {
    var more := requests + [r];
    assert more[|requests|] == r && forall i :: 0 <= i < |requests| ==> more[i] == requests[i];
    if f in r.flags && r.add {
      assert LastAt(f, more, |requests|);
    }
    forall i | LastAt(f, requests, i) && f !in r.flags ensures LastAt(f, more, i) {}
    forall i | LastAt(f, more, i) && f !in r.flags ensures LastAt(f, requests, i) {}
  }

  /** Folding leaves exactly the flags whose last request adds them. */
  lemma {:induction false} FoldIsLast(requests: seq<Request>, f: Flag)
    ensures f in Fold({}, requests) <==> LastAdds(f, requests)
    decreases |requests|
  {
    if requests != [] {
      var init, last := requests[..|requests| - 1], requests[|requests| - 1];
      assert requests == init + [last];
      FoldIsLast(init, f);
      FoldAppend({}, init, last);
      LastAddsMore(f, init, last);
    }
  }

  /** Flags that will be in force once the queue has been handled. */
  function Desired(t: Tracking): Flags
  {
    match t.entry case None => {} case Some(e) => Fold(e.flags, e.queue)
  }

  predicate RetryQueued(queue: seq<Request>)
  {
    exists i :: 0 <= i < |queue| && queue[i].flags == {}
  }

  predicate Inv(t: Tracking)
  {
    match t.entry
    case None => true
    case Some(e) =>
      && (e.flags == {} <==> e.state == Untracked)
      && (e.flags == {} ==> e.queue != [])
      && (e.state == RetryPending ==> e.retryArmed || RetryQueued(e.queue))
      && (e.state == Tracked ==> t.onServer)
  }

  /** The server tracks nobody whom nobody wants tracked. */
  predicate NoGhost(t: Tracking)
  {
    t.onServer ==> t.entry.Some? && t.entry.value.flags != {}
  }

  lemma EnqueueInv(t: Tracking, e: Entry, r: Request)
    requires Inv(t) && (t.entry == Some(e) || (t.entry == None && e == NEW_ENTRY))
    ensures Inv(t.(entry := Some(Enqueue(e, r))))
    ensures Desired(t.(entry := Some(Enqueue(e, r)))) == Operate(Desired(t), r)
  {
    FoldAppend(e.flags, e.queue, r);
    assert forall i :: 0 <= i < |e.queue| ==> (e.queue + [r])[i] == e.queue[i];
  }

  lemma RetryFiresInv(t: Tracking)
    requires Inv(t) && t.entry.Some? && t.entry.value.retryArmed
    ensures Inv(RetryFires(t)) && Desired(RetryFires(t)) == Desired(t)
  {
    var e := t.entry.value.(retryArmed := false);
    FoldAppend(e.flags, e.queue, RETRY);
    assert (e.queue + [RETRY])[|e.queue|].flags == {};
  }

  lemma PassInv(t: Tracking, reply: Reply)
    requires Inv(t) && t.entry.Some? && t.entry.value.queue != []
    ensures Inv(Pass(t, reply)) && Desired(Pass(t, reply)) == Desired(t)
  {
    var e := t.entry.value;
    var e1 := e.(flags := Operate(e.flags, e.queue[0]), queue := e.queue[1..]);
    assert Fold(e.flags, e.queue) == Fold(e1.flags, e1.queue);
    if RetryQueued(e.queue) && e.queue[0].flags != {} {
      var i :| 0 <= i < |e.queue| && e.queue[i].flags == {};
      assert e1.queue[i - 1].flags == {};
    }
  }

  /** Exactly a RemoveUser that could not be sent leaves a user tracked by the server for nobody. */
  lemma NoGhostExactly(t: Tracking, reply: Reply)
    requires Inv(t) && NoGhost(t) && t.entry.Some? && t.entry.value.queue != []
    ensures NoGhost(Pass(t, reply)) <==>
            !(reply == NotSent && t.onServer && TakesAll(t.entry.value.flags, t.entry.value.queue[0]))
  {
    var flags, r := t.entry.value.flags, t.entry.value.queue[0];
    assert flags <= flags + r.flags && r.flags <= flags + r.flags;
    forall f | f in flags ensures f in r.flags || f in flags - r.flags {}
  }

  /** The last flags go. */
  predicate TakesAll(flags: Flags, r: Request)
  {
    !r.add && forall f :: f in flags ==> f in r.flags
  }

  /**
   When a request is handled, the server is asked to track the user exactly if flags appear where there were
   none, or a retry finds some, and asked to forget the user exactly if the last flags go; the state follows the
   answer, and otherwise stays. Whatever was waiting to be retried is dropped with the last flag.
   */
  lemma PassAsks(t: Tracking, reply: Reply)
    requires Inv(t) && t.entry.Some? && t.entry.value.queue != []
    ensures var e := t.entry.value; var r := e.queue[0]; var t' := Pass(t, reply);
            var some := exists f :: f in FlagsOf(t');
            && (forall f :: f in FlagsOf(t') <==> if f in r.flags then r.add else f in e.flags)
            // AddUser
            && (some && (e.flags == {} || r.flags == {}) ==>
                  && (StateOf(t') == Tracked <==> reply == Exists) && (StateOf(t') == RetryPending <==> reply != Exists)
                  && (reply == Exists ==> t'.onServer) && (reply == DoesNotExist ==> !t'.onServer)
                  && (reply.NoAnswer? ==> (t'.onServer <==> t.onServer || reply.reached))
                  && (reply != Exists ==> t'.entry.value.retryArmed))
            // nothing to say
            && (some && e.flags != {} && r.flags != {} ==>
                  StateOf(t') == e.state && t'.onServer == t.onServer && t'.entry.value.retryArmed == e.retryArmed)
            // RemoveUser
            && (!some ==> StateOf(t') == Untracked && (t'.entry == None || !t'.entry.value.retryArmed))
            && (!some && e.flags != {} && reply != NotSent ==> !t'.onServer)
            && ((!some && e.flags == {}) || reply == NotSent ==> t'.onServer == t.onServer)
            && (!some ==> (t'.entry == None <==> |e.queue| == 1))
            && (t'.entry.Some? ==> t'.entry.value.queue == e.queue[1..])
  {
    var e := t.entry.value;
    assert |e.queue| == 1 <==> e.queue[1..] == [];
    if FlagsOf(Pass(t, reply)) != {} {
      var f :| f in FlagsOf(Pass(t, reply));
    }
  }

  // ---------------------------------------------------------------- runs

  datatype Event =
    | Track(flags: Flags)
    | Untrack(flags: Flags)
    | Fire
    | Handle(reply: Reply)
    | Disconnect

  predicate Enabled(t: Tracking, e: Event)
  {
    match e
    case Fire => t.entry.Some? && t.entry.value.retryArmed
    case Handle(_) => t.entry.Some? && t.entry.value.queue != []
    case _ => true
  }

  function After(t: Tracking, e: Event): Tracking
    requires Enabled(t, e)
  {
    match e
    case Track(flags) => OnTrack(t, flags)
    case Untrack(flags) => OnUntrack(t, flags)
    case Fire => RetryFires(t)
    case Handle(reply) => Pass(t, reply)
    case Disconnect => Disconnected(t)
  }

  /** What callers have asked for since the connection was last lost. */
  function Asked(asked: seq<Request>, e: Event): seq<Request>
  {
    match e
    case Track(flags) => asked + [Request(true, flags)]
    case Untrack(flags) => asked + [Request(false, flags)]
    case Disconnect => []
    case _ => asked
  }

  /** The user goes from state to state by the events; asked[k] are the requests made up to then. */
  ghost predicate IsRun(states: seq<Tracking>, asked: seq<seq<Request>>, events: seq<Event>)
  {
    && |states| == |asked| == |events| + 1
    && states[0] == Tracking(None, false) && asked[0] == []
    && forall k :: 0 <= k < |events| ==>
      Enabled(states[k], events[k]) && states[k + 1] == After(states[k], events[k]) &&
      asked[k + 1] == Asked(asked[k], events[k])
  }

  lemma AfterInv(t: Tracking, e: Event, asked: seq<Request>)
    requires Inv(t) && Enabled(t, e) && Desired(t) == Fold({}, asked)
    ensures Inv(After(t, e)) && Desired(After(t, e)) == Fold({}, Asked(asked, e))
  {
    match e
    case Track(flags) =>
      FoldAppend({}, asked, Request(true, flags));
      EnqueueInv(t, if t.entry.Some? then t.entry.value else NEW_ENTRY, Request(true, flags));
    case Untrack(flags) =>
      FoldAppend({}, asked, Request(false, flags));
      if t.entry.Some? { EnqueueInv(t, t.entry.value, Request(false, flags)); }
    case Fire => RetryFiresInv(t);
    case Handle(reply) => PassInv(t, reply);
    case Disconnect =>
  }

  /**
   In every run the flags in force once the queue is handled are those the requests add up to: the ones whose
   last request adds them.
   */
  lemma {:induction false} RunInv(states: seq<Tracking>, asked: seq<seq<Request>>, events: seq<Event>, k: nat)
    requires IsRun(states, asked, events) && k <= |events|
    ensures Inv(states[k]) && Desired(states[k]) == Fold({}, asked[k])
    ensures forall f :: f in Desired(states[k]) <==> LastAdds(f, asked[k])
  {
    forall f ensures f in Fold({}, asked[k]) <==> LastAdds(f, asked[k]) {
      FoldIsLast(asked[k], f);
    }
    if k > 0 {
      RunInv(states, asked, events, k - 1);
      AfterInv(states[k - 1], events[k - 1], asked[k - 1]);
    }
  }

  predicate Drained(t: Tracking)
  {
    t.entry.Some? ==> t.entry.value.queue == []
  }

  /**
   When all requests have been handled, across any number of entries removed and created again, the flags are
   exactly those whose last request adds them, the state is UNTRACKED exactly when they are empty, and then the entry
   is gone; a tracked user is tracked by the server and a pending retry is on its way.
   */
  lemma DrainedFollowsRequests(states: seq<Tracking>, asked: seq<seq<Request>>, events: seq<Event>, k: nat)
    requires IsRun(states, asked, events) && k <= |events| && Drained(states[k])
    ensures var t := states[k];
            && FlagsOf(t) == Fold({}, asked[k])
            && (forall f :: f in FlagsOf(t) <==> LastAdds(f, asked[k]))
            && (StateOf(t) == Untracked <==> forall f :: !LastAdds(f, asked[k]))
            && (t.entry == None <==> StateOf(t) == Untracked)
            && (StateOf(t) == Tracked ==> t.onServer)
            && (StateOf(t) == RetryPending ==> t.entry.value.retryArmed)
  {
    RunInv(states, asked, events, k);
    if FlagsOf(states[k]) != {} {
      var f :| f in FlagsOf(states[k]);
    }
  }

  predicate Reliable(e: Event)
  {
    e.Handle? ==> e.reply != NotSent
  }

  lemma AfterNoGhost(t: Tracking, e: Event)
    requires Inv(t) && NoGhost(t) && Enabled(t, e) && Reliable(e)
    ensures NoGhost(After(t, e))
  {
    if e.Handle? { NoGhostExactly(t, e.reply); }
  }

  /** When messages to the server are sent, it never tracks a user nobody wants tracked. */
  lemma {:induction false} RunNoGhost(states: seq<Tracking>, asked: seq<seq<Request>>, events: seq<Event>, k: nat)
    requires IsRun(states, asked, events) && k <= |events| && forall i :: 0 <= i < k ==> Reliable(events[i])
    ensures NoGhost(states[k])
  {
    if k > 0 {
      RunNoGhost(states, asked, events, k - 1);
      RunInv(states, asked, events, k - 1);
      AfterNoGhost(states[k - 1], events[k - 1]);
    }
  }

  // ---------------------------------------------------------------- handling the whole queue

  /** The loop handles everything that is queued while the server answers every request. */
  function Drain(t: Tracking): Tracking
    decreases if t.entry.Some? then |t.entry.value.queue| else 0
  {
    if Drained(t) then t else Drain(Pass(t, Exists))
  }

  /** Then the server tracks the user exactly when somebody wants that, unless a retry is still to come. */
  lemma {:induction false} DrainSynchronizes(t: Tracking)
    requires Inv(t) && NoGhost(t)
    ensures var d := Drain(t);
            && Drained(d) && Inv(d) && NoGhost(d) && FlagsOf(d) == Desired(t)
            && (Desired(t) == {} ==> d.entry == None && !d.onServer)
            && (Desired(t) != {} ==> d.onServer || StateOf(d) == RetryPending)
    decreases if t.entry.Some? then |t.entry.value.queue| else 0
  {
    if !Drained(t) {
      PassInv(t, Exists);
      NoGhostExactly(t, Exists);
      DrainSynchronizes(Pass(t, Exists));
    }
  }

  // ---------------------------------------------------------------- the manager object

  class UserTrackingManager {
    var trackedUsers: map<Name, Entry>
    /** The users the server tracks for us. */
    var server: set<Name>

    constructor ()
      ensures forall name :: View(name) == Tracking(None, false)
    {
      trackedUsers := map[];
      server := {};
    }

    function View(name: Name): Tracking
      reads this
    {
      Tracking(if name in trackedUsers then Some(trackedUsers[name]) else None, name in server)
    }

    /** _get_tracked_user_object */
    method GetTrackedUserObject(name: Name) returns (e: Entry)
      modifies this
      ensures e == if View(name).entry.Some? && name in old(trackedUsers) then old(trackedUsers)[name] else NEW_ENTRY
      ensures trackedUsers == old(trackedUsers)[name := e] && server == old(server)
    {
      if name !in trackedUsers {
        trackedUsers := trackedUsers[name := NEW_ENTRY];
      }
      e := trackedUsers[name];
    }

    method TrackUser(name: Name, flags: Flags)
      modifies this
      ensures View(name) == OnTrack(old(View(name)), flags)
      ensures forall other :: other != name ==> View(other) == old(View(other))
    {
      var e := GetTrackedUserObject(name);
      trackedUsers := trackedUsers[name := e.(queue := e.queue + [Request(true, flags)])];
    }

    method UntrackUser(name: Name, flags: Flags)
      modifies this
      ensures View(name) == OnUntrack(old(View(name)), flags)
      ensures forall other :: other != name ==> View(other) == old(View(other))
    {
      if name !in trackedUsers {
        return;
      }
      var e := trackedUsers[name];
      trackedUsers := trackedUsers[name := e.(queue := e.queue + [Request(false, flags)])];
    }

    /** _request_retry, after its sleep */
    method RequestRetry(name: Name)
      requires name in trackedUsers && trackedUsers[name].retryArmed
      modifies this
      ensures View(name) == RetryFires(old(View(name)))
      ensures forall other :: other != name ==> View(other) == old(View(other))
    {
      var e := trackedUsers[name];
      trackedUsers := trackedUsers[name := e.(retryArmed := false, queue := e.queue + [RETRY])];
    }

    /** One pass of _tracking_task, together with the callback that removes the entry when the loop returns. */
    method TrackingPass(name: Name, reply: Reply) returns (returned: bool)
      requires name in trackedUsers && trackedUsers[name].queue != []
      modifies this
      ensures View(name) == Pass(old(View(name)), reply) && returned == (name !in trackedUsers)
      ensures forall other :: other != name ==> View(other) == old(View(other))
    {
      var e := trackedUsers[name];
      var request := e.queue[0];
      var previousFlags := e.flags;
      e := e.(queue := e.queue[1..], flags := Operate(e.flags, request));
      var isRetry := request.flags == {};
      returned := false;
      if e.flags == {} {
        e := e.(retryArmed := false);
        if previousFlags != {} {
          if reply != NotSent {
            server := server - {name};
          }
          e := e.(state := Untracked);
        }
        if e.queue == [] {
          returned := true;
        }
      } else if previousFlags == {} || isRetry {
        match reply {
          case NotSent =>
          case NoAnswer(reached) => if reached { server := server + {name}; }
          case DoesNotExist => server := server - {name};
          case Exists => server := server + {name};
        }
        if reply != Exists {
          e := e.(state := RetryPending, retryArmed := true);
        } else {
          e := e.(state := Tracked);
        }
      }
      if returned {
        trackedUsers := trackedUsers - {name};
      } else {
        trackedUsers := trackedUsers[name := e];
      }
    }

    /** stop, with the callbacks of the cancelled tasks, when the server connection is closed */
    method Stop()
      modifies this
      ensures forall name :: View(name) == Disconnected(old(View(name)))
    {
      trackedUsers := map[];
      server := {};
    }
  }
}

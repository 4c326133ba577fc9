/**
 Two attempts at once: when it is safe to start an attempt, and the run in which it is not.
 */
module FileCopyOverlap {

  import opened Wrappers
  import opened TransferState
  import opened FileCopy
  import opened FileCopyRuns
  import TransferLifecycle

  /** The same but for what is still to arrive */
  predicate SameButArriving(d: Client, d': Client)
  {
    && d'.t == d.t && d'.local == d.local && d'.referred == d.referred && |d'.tasks| == |d.tasks|
    && forall i :: 0 <= i < |d.tasks| ==>
         if d.tasks[i].Waiting? then d'.tasks[i] == Waiting
         else d'.tasks[i].Copying? && d'.tasks[i].size == d.tasks[i].size && d'.tasks[i].received == d.tasks[i].received
  }

  /** Whatever arrives, and whatever happens after one more request, the local file stays a prefix. */
  ghost predicate StartIsSafe(remote: seq<Byte>, d: Client)
    requires MayStart(d.t)
  {
    forall d', now, events ::
      && SameButArriving(d, d') && Inv(remote, d') && IsRun(remote, Do(remote, d', Requested(now)), events)
      && OneAtATime(remote, Do(remote, d', Requested(now)), events)
      ==> Run(remote, Do(remote, d', Requested(now)), events).local <= remote
  }

  /** Two files open, with all that is missing still to come for the second and something for the first. */
  lemma BothWrite(remote: seq<Byte>, d: Client) returns (events: seq<Event>)
    requires |d.local| < |remote| && d.t.localPath.Some? && |d.tasks| == 2
    requires d.tasks[0].Copying? && !IsOver(d.tasks[0]) && d.tasks[0].arriving != []
    requires d.tasks[1] == Copying(remote[|d.local|..], |remote| - |d.local|, 0)
    ensures IsRun(remote, d, events) && OneAtATime(remote, d, events) && |Run(remote, d, events).local| > |remote|
  {
    var e1, e0 := Wrote(1, |remote| - |d.local|), Wrote(0, 1);
    var d1 := Do(remote, d, e1);
    assert d1.tasks[0] == d.tasks[0] && |d1.local| == |remote|;
    FirstThen(remote, d1, e0, []);
    FirstThen(remote, d, e1, [e0] + []);
    events := [e1] + ([e0] + []);
  }

  /** A second attempt opens the file while the first has it open. */
  lemma SecondOpens(remote: seq<Byte>, d: Client, now: real) returns (events: seq<Event>)
    requires Inv(remote, d) && MayStart(d.t) && d.local != remote
    requires |d.tasks| == 1 && d.tasks[0].Copying? && d.tasks[0].arriving != []
    ensures var s := Do(remote, d, Requested(now));
            IsRun(remote, s, events) && OneAtATime(remote, s, events) && |Run(remote, s, events).local| > |remote|
  {
    var s := Do(remote, d, Requested(now));
    RequestKeepsData(d.t, |remote|, now);
    assert s.tasks == [d.tasks[0], Waiting] && s.t.localPath == d.t.localPath && s.local == d.local;
    var open := Opened(1, "file", remote[|d.local|..], now);
    OpenKeepsData(s, open);
    var rest := BothWrite(remote, Do(remote, s, open));
    FirstThen(remote, s, open, rest);
    events := [open] + rest;
  }

  lemma OpenKeepsData(s: Client, open: Event)
    requires open.Opened?
    ensures var t := Begun(WithOffset(s), open.path, open.now); t.localPath.Some? && t.filesize == s.t.filesize
    ensures s.t.localPath.Some? ==> Begun(WithOffset(s), open.path, open.now).localPath == s.t.localPath
  {
  }

  /** Two attempts find the same offset, and open the file. */
  lemma BothOpen(remote: seq<Byte>, d: Client, now: real) returns (events: seq<Event>)
    requires Inv(remote, d) && MayStart(d.t) && d.local != remote && d.tasks == [Waiting]
    ensures var s := Do(remote, d, Requested(now));
            IsRun(remote, s, events) && OneAtATime(remote, s, events) && |Run(remote, s, events).local| > |remote|
  {
    var s := Do(remote, d, Requested(now));
    RequestKeepsData(d.t, |remote|, now);
    assert s.tasks == [Waiting, Waiting] && s.local == d.local;
    var open0, open1 := Opened(0, "file", remote[|d.local|..], now), Opened(1, "file", remote[|d.local|..], now);
    OpenKeepsData(s, open0);
    var s0 := Do(remote, s, open0);
    OpenKeepsData(s0, open1);
    var rest := BothWrite(remote, Do(remote, s0, open1));
    FirstThen(remote, s0, open1, rest);
    FirstThen(remote, s, open0, [open1] + rest);
    events := [open0] + ([open1] + rest);
  }

  // ---------------------------------------------------------------- when nothing is left to come

  /** What is kept of the fields when a task may outlive its transfer being aborted or finished. */
  predicate Weak(remote: seq<Byte>, t: Fields, local: seq<Byte>)
  {
    && TransferLifecycle.Inv(t) && t.direction == TransferState.Download
    && local <= remote && (t.localPath == None ==> local == []) && t.localPath != Some("")
    && (t.state == Initializing ==> t.filesize == Some(|remote|))
    && (t.state == Downloading ==> t.localPath.Some? && t.filesize == Some(|remote|) && t.bytesTransfered == |local|)
    && (t.state == Complete ==> local == remote)
  }

  /** What arrives continues the local file, unless the transfer has forgotten about that. */
  predicate WeakTask(remote: seq<Byte>, t: Fields, local: seq<Byte>, task: Task)
  {
    task.Copying? && task.arriving != [] ==>
      t.state != Complete && (t.localPath == None || Truthful(remote, local, task.arriving))
  }

  predicate WeakInv(remote: seq<Byte>, d: Client)
  {
    |d.tasks| <= 1 && Weak(remote, d.t, d.local) && (d.tasks != [] ==> WeakTask(remote, d.t, d.local, d.tasks[0]))
  }

  /** Two tasks, and no byte to come for either. */
  predicate Harmless(remote: seq<Byte>, d: Client)
  {
    && |d.tasks| == 2 && d.referred && d.local == remote && Weak(remote, d.t, d.local)
    && d.t.state != Complete && d.t.state != Aborted
    && forall i :: 0 <= i < 2 && d.tasks[i].Copying? ==> d.tasks[i].arriving == []
  }

  /** A call on a download: the path stays, with the data, or is forgotten. */
  lemma CallWeak(remote: seq<Byte>, t: Fields, local: seq<Byte>, call: Call, now: real)
    requires Weak(remote, t, local) && FromOutside(call)
    ensures var t' := Step(t, call, now);
            && Weak(remote, t', if t'.localPath == None then [] else local)
            && (t'.localPath == t.localPath || t'.localPath == None)
            && (t'.state == Complete ==> t.state == Complete)
  {
    StepData(t, call, now);
  }

  /** The ends of a task. */
  lemma EndWeak(remote: seq<Byte>, t: Fields, local: seq<Byte>, call: Call, now: real)
    requires Weak(remote, t, local) && (call == Queue(false) || call.Fail? || call.Interrupt? || call == Finish)
    requires call == Finish ==> t.state == Downloading ==> local == remote
    ensures var t' := Step(t, call, now); Weak(remote, t', if t'.localPath == None then [] else local)
  {
    StepData(t, call, now);
  }

  lemma OffsetWeak(remote: seq<Byte>, d: Client, path: string)
    requires Weak(remote, d.t, d.local) && path != ""
    ensures Weak(remote, WithOffset(d), d.local) && Weak(remote, WithPath(WithOffset(d), path), d.local)
  {
  }

  lemma BegunWeak(remote: seq<Byte>, d: Client, path: string, now: real)
    requires Weak(remote, d.t, d.local) && path != ""
    ensures var t := Begun(WithOffset(d), path, now);
            && Weak(remote, t, d.local) && t.localPath.Some?
            && (t.state == Complete ==> d.t.state == Complete) && (t.state == Aborted ==> d.t.state == Aborted)
  {
    OffsetWeak(remote, d, path);
    StepData(WithPath(WithOffset(d), path), StartTransferring, now);
  }

  /** The fields of a client at a path, or without one */
  predicate WeakAt(remote: seq<Byte>, t: Fields, local: seq<Byte>)
  {
    Weak(remote, t, if t.localPath == None then [] else local)
  }

  lemma WaitingEndsWeak(remote: seq<Byte>, d: Client, e: Event)
    requires Weak(remote, d.t, d.local) && Enabled(remote, d, e)
    requires e.GivenUp? || e.OffsetFailed? || e.PathFailed? || e.OpenFailed?
    ensures WeakAt(remote, WaitingEnds(d, e), d.local)
  {
    match e
    case GivenUp(_, now) => EndWeak(remote, d.t, d.local, Queue(false), now);
    case OffsetFailed(_, now) =>
      OffsetWeak(remote, d, "file");
      EndWeak(remote, WithOffset(d), d.local, Interrupt, now);
    case PathFailed(_, path, now) =>
      OffsetWeak(remote, d, path);
      EndWeak(remote, WithPath(WithOffset(d), path), d.local, Fail(Some(FILE_READ_ERROR)), now);
    case OpenFailed(_, path, now) =>
      BegunWeak(remote, d, path, now);
      EndWeak(remote, Begun(WithOffset(d), path, now), d.local, Fail(Some(FILE_READ_ERROR)), now);
  }

  lemma CopyingEndsWeak(remote: seq<Byte>, t: Fields, local: seq<Byte>, outcome: Outcome, now: real)
    requires Weak(remote, t, local)
    ensures WeakAt(remote, CopyingEnds(t, outcome, now), local)
  {
    assert t.(bytesTransfered := t.bytesTransfered + 0) == t;
    match outcome
    case EndReached =>
      if t.filesize == Some(t.bytesTransfered) {
        EndWeak(remote, t, local, Finish, now);
      } else {
        EndWeak(remote, t, local, Fail(Some(CANCELLED)), now);
      }
    case ReadError => EndWeak(remote, t, local, Interrupt, now);
    case WriteError => EndWeak(remote, t, local, Fail(Some(FILE_READ_ERROR)), now);
  }

  lemma LoadedWeak(remote: seq<Byte>, t: Fields, local: seq<Byte>, stored: bool)
    requires Weak(remote, t, local)
    ensures WeakAt(remote, Loaded(Restore(Saved(t, stored))), local)
  {
    TransferLifecycle.ApplyInv(t, TransferLifecycle.Reloaded(stored));
  }

  lemma PreparedWeak(remote: seq<Byte>, t: Fields, local: seq<Byte>, now: real)
    requires Weak(remote, t, local) && MayStart(t)
    ensures var t' := Prepared(Requeued(t, now), |remote|, now);
            && Weak(remote, t', local) && t'.localPath == t.localPath
            && t'.state != Complete && t'.state != Aborted
  {
    StepData(t, Queue(true), now);
    StepData(Requeued(t, now), Initialize, now);
  }

  lemma WroteWeak(remote: seq<Byte>, d: Client, e: Event)
    requires WeakInv(remote, d) && e.Wrote? && Enabled(remote, d, e)
    ensures WeakInv(remote, Do(remote, d, e))
  {
    if d.t.localPath.Some? {
      PrefixGrows(remote, d.local, d.tasks[0].arriving, e.count);
    }
  }

  lemma OpenedWeak(remote: seq<Byte>, d: Client, e: Event)
    requires WeakInv(remote, d) && e.Opened? && Enabled(remote, d, e)
    ensures WeakInv(remote, Do(remote, d, e))
  {
    BegunWeak(remote, d, e.path, e.now);
  }

  lemma CalledWeak(remote: seq<Byte>, d: Client, call: Call, now: real)
    requires WeakInv(remote, d) && FromOutside(call)
    ensures WeakInv(remote, Do(remote, d, Called(call, now)))
  {
    CallWeak(remote, d.t, d.local, call, now);
  }

  lemma WeakDo(remote: seq<Byte>, d: Client, e: Event)
    requires WeakInv(remote, d) && Enabled(remote, d, e) && (e.Requested? ==> d.tasks == [])
    ensures WeakInv(remote, Do(remote, d, e))
  {
    match e
    case Requested(now) => PreparedWeak(remote, d.t, d.local, now);
    case Opened(_, _, _, _) => OpenedWeak(remote, d, e);
    case Wrote(_, _) => WroteWeak(remote, d, e);
    case Stopped(_, outcome, now) => CopyingEndsWeak(remote, d.t, d.local, outcome, now);
    case Called(call, now) => CalledWeak(remote, d, call, now);
    case Restarted(stored) => LoadedWeak(remote, d.t, d.local, stored);
    case _ => WaitingEndsWeak(remote, d, e);
  }

  lemma OneLeft(remote: seq<Byte>, d: Client, i: nat, t: Fields)
    requires Harmless(remote, d) && i < 2 && WeakAt(remote, t, d.local)
    ensures WeakInv(remote, At(t, d.local, Without(d.tasks, i), false))
  {
    assert Without(d.tasks, i) == [d.tasks[1 - i]];
  }

  lemma HarmlessOpened(remote: seq<Byte>, d: Client, e: Event)
    requires Harmless(remote, d) && e.Opened? && Enabled(remote, d, e)
    ensures Harmless(remote, Do(remote, d, e))
  {
    BegunWeak(remote, d, e.path, e.now);
  }

  lemma HarmlessCalled(remote: seq<Byte>, d: Client, call: Call, now: real)
    requires Harmless(remote, d) && FromOutside(call)
    ensures var d' := Do(remote, d, Called(call, now)); Harmless(remote, d') || WeakInv(remote, d')
  {
    CallWeak(remote, d.t, d.local, call, now);
    StepData(d.t, call, now);
  }

  lemma HarmlessWaitingEnds(remote: seq<Byte>, d: Client, e: Event)
    requires Harmless(remote, d) && Enabled(remote, d, e)
    requires e.GivenUp? || e.OffsetFailed? || e.PathFailed? || e.OpenFailed?
    ensures WeakInv(remote, Do(remote, d, e))
  {
    WaitingEndsWeak(remote, d, e);
    OneLeft(remote, d, e.task, WaitingEnds(d, e));
  }

  /** With nothing to come for either of two tasks, they go on like that until one ends. */
  lemma HarmlessDo(remote: seq<Byte>, d: Client, e: Event)
    requires Harmless(remote, d) && Enabled(remote, d, e) && !e.Requested?
    ensures Harmless(remote, Do(remote, d, e)) || WeakInv(remote, Do(remote, d, e))
  {
    match e
    case Requested(_) =>
    case Opened(_, _, _, _) => HarmlessOpened(remote, d, e);
    case Wrote(_, _) => assert false;
    case Stopped(i, outcome, now) =>
      CopyingEndsWeak(remote, d.t, d.local, outcome, now);
      OneLeft(remote, d, i, CopyingEnds(d.t, outcome, now));
    case Called(call, now) => HarmlessCalled(remote, d, call, now);
    case Restarted(stored) => LoadedWeak(remote, d.t, d.local, stored);
    case GivenUp(_, _) => HarmlessWaitingEnds(remote, d, e);
    case OffsetFailed(_, _) => HarmlessWaitingEnds(remote, d, e);
    case PathFailed(_, _, _) => HarmlessWaitingEnds(remote, d, e);
    case OpenFailed(_, _, _) => HarmlessWaitingEnds(remote, d, e);
  }

  lemma {:induction false} WeakRun(remote: seq<Byte>, d: Client, events: seq<Event>)
    requires WeakInv(remote, d) || Harmless(remote, d)
    requires IsRun(remote, d, events) && OneAtATime(remote, d, events)
    ensures Run(remote, d, events).local <= remote
    decreases |events|
  {
    if events != [] {
      if WeakInv(remote, d) {
        WeakDo(remote, d, events[0]);
      } else {
        HarmlessDo(remote, d, events[0]);
      }
      WeakRun(remote, Do(remote, d, events[0]), events[1..]);
    }
  }

  /** A second attempt after the last byte */
  lemma SecondIsHarmless(remote: seq<Byte>, d: Client, now: real)
    requires Inv(remote, d) && MayStart(d.t) && d.tasks != [] && d.local == remote
    ensures Harmless(remote, Do(remote, d, Requested(now)))
  {
    PreparedWeak(remote, d.t, d.local, now);
  }

  // ---------------------------------------------------------------- the exact condition

  lemma SafeToStart(remote: seq<Byte>, d: Client, d': Client, now: real, events: seq<Event>)
    requires Inv(remote, d') && SameButArriving(d, d') && MayStart(d.t) && (d.tasks == [] || d.local == remote)
    requires IsRun(remote, Do(remote, d', Requested(now)), events)
    requires OneAtATime(remote, Do(remote, d', Requested(now)), events)
    ensures Run(remote, Do(remote, d', Requested(now)), events).local <= remote
  {
    if d.tasks == [] {
      RequestedInv(remote, d', now);
      RunKeeps(remote, Do(remote, d', Requested(now)), events);
    } else {
      SecondIsHarmless(remote, d', now);
      WeakRun(remote, Do(remote, d', Requested(now)), events);
    }
  }

  lemma UnsafeToStart(remote: seq<Byte>, d: Client) returns (d': Client, events: seq<Event>)
    requires Inv(remote, d) && MayStart(d.t) && d.tasks != [] && d.local != remote
    ensures SameButArriving(d, d') && Inv(remote, d')
    ensures var s := Do(remote, d', Requested(0.0));
            IsRun(remote, s, events) && OneAtATime(remote, s, events) && |Run(remote, s, events).local| > |remote|
  {
    d' := d;
    if d.tasks[0].Waiting? {
      assert d.tasks == [Waiting];
      events := BothOpen(remote, d, 0.0);
    } else {
      d' := d.(tasks := [d.tasks[0].(arriving := remote[|d.local|..])]);
      events := SecondOpens(remote, d', 0.0);
    }
  }

  /** It is safe to start an attempt exactly when none is under way or the local file has all bytes. */
  lemma StartIsSafeExactly(remote: seq<Byte>, d: Client)
    requires Inv(remote, d) && MayStart(d.t)
    ensures StartIsSafe(remote, d) <==> d.tasks == [] || d.local == remote
  {
    if d.tasks == [] || d.local == remote {
      forall d', now, events |
        && SameButArriving(d, d') && Inv(remote, d') && IsRun(remote, Do(remote, d', Requested(now)), events)
        && OneAtATime(remote, Do(remote, d', Requested(now)), events)
        ensures Run(remote, Do(remote, d', Requested(now)), events).local <= remote
      {
        SafeToStart(remote, d, d', now, events);
      }
    } else {
      var d', events := UnsafeToStart(remote, d);
    }
  }

  /** A download whose first byte has arrived */
  function OneByteIn(username: Name, path: string, remote: seq<Byte>): Client
    requires |remote| > 1
  {
    var t := Fields(username, path, TransferState.Download, Downloading, Some("file"), false, None, None, None,
                    Some(|remote|), 1, 0, 0, Some(0.0), None);
    Client(t, remote[..1], [Copying(remote[1..], |remote|, 1)], true)
  }

  /** The same download before, when it waits for the connection */
  function NoByteIn(username: Name, path: string, remote: seq<Byte>): Client
  {
    var t := Fields(username, path, TransferState.Download, Initializing, None, false, None, None, None,
                    Some(|remote|), 0, 0, 0, None, None);
    Client(t, [], [Waiting], true)
  }

  /** The same download afterwards, told to fail: the file stays open. */
  function FailedMidway(username: Name, path: string, remote: seq<Byte>): Client
    requires |remote| > 1
  {
    var d := OneByteIn(username, path, remote);
    d.(t := Step(d.t, Fail(None), 0.0))
  }

  const REQUEST := [Called(Queue(false), 0.0), Requested(0.0)]

  /** A new download, queued and requested */
  lemma FirstRequest(username: Name, path: string, remote: seq<Byte>)
    ensures Reached(remote, NewClient(username, path), REQUEST, NoByteIn(username, path, remote))
  {
    var d, d1 := NoByteIn(username, path, remote), Do(remote, NewClient(username, path), REQUEST[0]);
    assert Do(remote, d1, REQUEST[1]) == d by {
      assert [] + [Waiting] == [Waiting];
    }
    NoStep(remote, d);
    OneStep(remote, d1, REQUEST[1], [], d);
    OneStep(remote, NewClient(username, path), REQUEST[0], [REQUEST[1]] + [], d);
  }

  function FirstBytes(remote: seq<Byte>): seq<Event>
  {
    [Opened(0, "file", remote, 0.0), Wrote(0, 1)]
  }

  lemma FirstByte(username: Name, path: string, remote: seq<Byte>)
    requires |remote| > 1
    ensures Reached(remote, NoByteIn(username, path, remote), FirstBytes(remote), OneByteIn(username, path, remote))
  {
    var d := NoByteIn(username, path, remote);
    assert remote[0..|remote|] == remote && [] + remote[..1] == remote[..1];
    var d1 := Do(remote, d, Opened(0, "file", remote, 0.0));
    assert d1.tasks == [Copying(remote, |remote|, 0)];
    var d2 := Do(remote, d1, Wrote(0, 1));
    assert d2.tasks == [Copying(remote[1..], |remote|, 1)];
    NoStep(remote, d2);
    OneStep(remote, d1, Wrote(0, 1), [], d2);
    OneStep(remote, d, Opened(0, "file", remote, 0.0), [Wrote(0, 1)] + [], d2);
  }

  lemma MidwayIsReached(username: Name, path: string, remote: seq<Byte>) returns (events: seq<Event>)
    requires |remote| > 1
    ensures IsRun(remote, NewClient(username, path), events)
    ensures Run(remote, NewClient(username, path), events) == FailedMidway(username, path, remote)
  {
    var d0, d1 := NewClient(username, path), NoByteIn(username, path, remote);
    var d2, d3 := OneByteIn(username, path, remote), FailedMidway(username, path, remote);
    var fail := Called(Fail(None), 0.0);
    FirstRequest(username, path, remote);
    FirstByte(username, path, remote);
    NoStep(remote, d3);
    OneStep(remote, d2, fail, [], d3);
    RunsInARow(remote, d0, REQUEST, d1, FirstBytes(remote), d2);
    RunsInARow(remote, d0, REQUEST + FirstBytes(remote), d2, [fail] + [], d3);
    events := REQUEST + FirstBytes(remote) + ([fail] + []);
  }

  lemma FirstOf(remote: seq<Byte>, d: Client, events: seq<Event>)
    requires IsRun(remote, d, events) && events != []
    ensures events == [events[0]] + events[1..] && Enabled(remote, d, events[0])
    ensures IsRun(remote, Do(remote, d, events[0]), events[1..])
    ensures Run(remote, d, events) == Run(remote, Do(remote, d, events[0]), events[1..])
  {
  }

  lemma FirstApart(first: seq<Event>, second: seq<Event>)
    requires first != []
    ensures first + second == [first[0]] + (first[1..] + second)
  {
  }

  lemma {:induction false} RunsInARow(remote: seq<Byte>, d: Client, first: seq<Event>, mid: Client, second: seq<Event>, d': Client)
    requires IsRun(remote, d, first) && Run(remote, d, first) == mid
    requires IsRun(remote, mid, second) && Run(remote, mid, second) == d'
    ensures IsRun(remote, d, first + second) && Run(remote, d, first + second) == d'
    decreases |first|
  {
    if first == [] {
      assert first + second == second;
    } else {
      FirstOf(remote, d, first);
      var next := Do(remote, d, first[0]);
      RunsInARow(remote, next, first[1..], mid, second, d');
      FirstThen(remote, d, first[0], first[1..] + second);
      FirstApart(first, second);
    }
  }

  lemma MidwayInv(username: Name, path: string, remote: seq<Byte>)
    requires |remote| > 1
    ensures Inv(remote, FailedMidway(username, path, remote))
  {
    StepData(OneByteIn(username, path, remote).t, Fail(None), 0.0);
  }

  /**
   So a transfer that fails from outside and is requested again, all while its first attempt is still copying,
   ends up with a local file longer than the remote one.
   */
  lemma FailThenRequestCorrupts(username: Name, path: string, remote: seq<Byte>) returns (events: seq<Event>)
    requires |remote| > 1
    ensures IsRun(remote, NewClient(username, path), events)
    ensures !(Run(remote, NewClient(username, path), events).local <= remote)
  {
    var d := FailedMidway(username, path, remote);
    var first := MidwayIsReached(username, path, remote);
    MidwayInv(username, path, remote);
    var second := SecondOpens(remote, d, 0.0);
    FirstThen(remote, d, Requested(0.0), second);
    events := first + ([Requested(0.0)] + second);
    RunsInARow(remote, NewClient(username, path), first, d, [Requested(0.0)] + second, Run(remote, d, [Requested(0.0)] + second));
  }
}

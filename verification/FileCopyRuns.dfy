/**
 What any number of attempts does to the local file of a download. An attempt is a task that goes on whatever
 becomes of the state of the transfer, unless a pause or an abort cancels it; so a second one can start while
 the first is still writing.
 */
module FileCopyRuns {

  import opened Wrappers
  import opened TransferState
  import opened FileCopy
  import TransferLifecycle

  /** An attempt: until the file connection is there, and with the bytes that are still to arrive over it. */
  datatype Task = Waiting | Copying(arriving: seq<Byte>, size: int, received: nat)

  /**
   A download, the file at its local path, and its tasks. The transfer refers to the one started last, until
   some task of it ends.
   */
  datatype Client = Client(t: Fields, local: seq<Byte>, tasks: seq<Task>, referred: bool)

  datatype Outcome = EndReached | ReadError | WriteError

  /**
   What happens to a download. The offset is found, the path made and the file opened in one step, in which
   arriving is what will come over the connection; the chunks are written one by one.
   */
  datatype Event =
    | Requested(now: real)
    | GivenUp(task: nat, now: real)
    | OffsetFailed(task: nat, now: real)
    | PathFailed(task: nat, path: string, now: real)
    | OpenFailed(task: nat, path: string, now: real)
    | Opened(task: nat, path: string, arriving: seq<Byte>, now: real)
    | Wrote(task: nat, count: nat)
    | Stopped(task: nat, outcome: Outcome, now: real)
    | Called(call: Call, now: real)
    | Restarted(storedReason: bool)

  /** The loop of receive_file has returned after a chunk. */
  predicate IsOver(task: Task)
    requires task.Copying?
  {
    task.received > 0 && task.received >= task.size
  }

  /** The bytes that come over a connection are those of the uploader's file from the offset on. */
  predicate Truthful(remote: seq<Byte>, local: seq<Byte>, arriving: seq<Byte>)
  {
    |local| + |arriving| <= |remote| && arriving == remote[|local|..|local| + |arriving|]
  }

  predicate FromOutside(call: Call)
  {
    call.Queue? || call.Pause? || call.Fail? || call.Abort?
  }

  predicate IsWaiting(d: Client, task: nat)
  {
    task < |d.tasks| && d.tasks[task].Waiting?
  }

  predicate IsCopying(d: Client, task: nat)
  {
    task < |d.tasks| && d.tasks[task].Copying?
  }

  predicate Enabled(remote: seq<Byte>, d: Client, e: Event)
  {
    match e
    case Requested(_) => MayStart(d.t)
    case GivenUp(i, _) => IsWaiting(d, i)
    case OffsetFailed(i, _) => IsWaiting(d, i)
    case PathFailed(i, path, _) => IsWaiting(d, i) && path != ""
    case OpenFailed(i, path, _) => IsWaiting(d, i) && path != ""
    case Opened(i, path, arriving, _) =>
      IsWaiting(d, i) && path != "" && d.t.filesize.Some? && Truthful(remote, d.local, arriving)
    case Wrote(i, count) => IsCopying(d, i) && !IsOver(d.tasks[i]) && 0 < count <= |d.tasks[i].arriving|
    case Stopped(i, outcome, _) =>
      IsCopying(d, i) &&
      match outcome {
        case EndReached => IsOver(d.tasks[i]) || d.tasks[i].arriving == []
        case ReadError => !IsOver(d.tasks[i])
        case WriteError => true
      }
    case Called(call, _) => FromOutside(call)
    case Restarted(_) => true
  }

  /** Without a local path the next attempt writes to a path that is not in use. */
  function At(t: Fields, local: seq<Byte>, tasks: seq<Task>, referred: bool): Client
  {
    Client(t, if t.localPath == None then [] else local, tasks, referred)
  }

  function Without(tasks: seq<Task>, i: nat): seq<Task>
    requires i < |tasks|
  {
    tasks[..i] + tasks[i + 1..]
  }

  /** The calls that cancel what the transfer refers to; fail and queue do not. */
  predicate Cancels(s: State, d: Direction, call: Call)
  {
    Target(s, d, call).Some? && (call.Abort? || (call.Pause? && s != Virgin))
  }

  /** The transfer with the offset noted, which is what the local file holds. */
  function WithOffset(d: Client): Fields
  {
    d.t.(bytesTransfered := |d.local|)
  }

  /** A waiting task comes to its end. */
  function WaitingEnds(d: Client, e: Event): Fields
    requires e.GivenUp? || e.OffsetFailed? || e.PathFailed? || e.OpenFailed?
  {
    match e
    case GivenUp(_, now) => Step(d.t, Queue(false), now)
    case OffsetFailed(_, now) => Step(WithOffset(d), Interrupt, now)
    case PathFailed(_, path, now) => Step(WithPath(WithOffset(d), path), Fail(Some(FILE_READ_ERROR)), now)
    case OpenFailed(_, path, now) => Step(Begun(WithOffset(d), path, now), Fail(Some(FILE_READ_ERROR)), now)
  }

  function CopyingEnds(t: Fields, outcome: Outcome, now: real): Fields
  {
    match outcome
    case EndReached => Ended(t, 0, false, now)
    case ReadError => Ended(t, 0, true, now)
    case WriteError => Step(t, Fail(Some(FILE_READ_ERROR)), now)
  }

  function Do(remote: seq<Byte>, d: Client, e: Event): Client
    requires Enabled(remote, d, e)
  {
    match e
    case Requested(now) => At(Prepared(Requeued(d.t, now), |remote|, now), d.local, d.tasks + [Waiting], true)
    case Opened(i, path, arriving, now) =>
      var t := Begun(WithOffset(d), path, now);
      At(t, d.local, d.tasks[i := Copying(arriving, d.t.filesize.value - |d.local|, 0)], d.referred)
    case Wrote(i, count) =>
      var task := d.tasks[i];
      At(d.t.(bytesTransfered := d.t.bytesTransfered + count), d.local + task.arriving[..count],
         d.tasks[i := Copying(task.arriving[count..], task.size, task.received + count)], d.referred)
    case Stopped(i, outcome, now) => At(CopyingEnds(d.t, outcome, now), d.local, Without(d.tasks, i), false)
    case Called(call, now) =>
      var cancels := Cancels(d.t.state, d.t.direction, call) && d.referred && d.tasks != [];
      At(Step(d.t, call, now), d.local, if cancels then d.tasks[..|d.tasks| - 1] else d.tasks, d.referred && !cancels)
    case Restarted(stored) => At(Loaded(Restore(Saved(d.t, stored))), d.local, [], false)
    case _ => At(WaitingEnds(d, e), d.local, Without(d.tasks, e.task), false)
  }

  // ---------------------------------------------------------------- runs

  predicate IsRun(remote: seq<Byte>, d: Client, events: seq<Event>)
    decreases |events|
  {
    events == [] || (Enabled(remote, d, events[0]) && IsRun(remote, Do(remote, d, events[0]), events[1..]))
  }

  function Run(remote: seq<Byte>, d: Client, events: seq<Event>): Client
    requires IsRun(remote, d, events)
    decreases |events|
  {
    if events == [] then d else Run(remote, Do(remote, d, events[0]), events[1..])
  }

  /** No attempt starts while one is under way. */
  predicate OneAtATime(remote: seq<Byte>, d: Client, events: seq<Event>)
    requires IsRun(remote, d, events)
    decreases |events|
  {
    events == [] ||
    ((events[0].Requested? ==> d.tasks == []) && OneAtATime(remote, Do(remote, d, events[0]), events[1..]))
  }

  function NewClient(username: Name, path: string): Client
  {
    Client(NewTransfer(username, path, TransferState.Download), [], [], false)
  }

  // ---------------------------------------------------------------- what is kept

  predicate FieldsOk(remote: seq<Byte>, t: Fields, local: seq<Byte>)
  {
    && TransferLifecycle.Inv(t) && t.direction == TransferState.Download
    // the local file is a prefix of the remote one, and is counted
    && local <= remote
    && (t.localPath == None ==> local == [])
    && t.localPath != Some("")
    && (t.state != Aborted ==> t.bytesTransfered == |local|)
    && (t.state == Downloading ==> t.filesize == Some(|remote|))
    // complete means equal
    && (t.state == Complete ==> local == remote && t.filesize == Some(|remote|))
  }

  /** An attempt under way and the state it leaves room for. */
  predicate TaskOk(remote: seq<Byte>, t: Fields, local: seq<Byte>, task: Task)
  {
    && t.filesize == Some(|remote|) && t.state != Complete && t.state != Aborted
    && (task.Copying? ==> t.localPath.Some? && Truthful(remote, local, task.arriving) &&
                          task.size == |remote| - |local| + task.received)
  }

  predicate Inv(remote: seq<Byte>, d: Client)
  {
    && FieldsOk(remote, d.t, d.local) && |d.tasks| <= 1 && d.referred == (d.tasks != [])
    && (d.tasks != [] ==> TaskOk(remote, d.t, d.local, d.tasks[0]))
  }

  /** What a call does to the data of a download. */
  lemma StepData(t: Fields, call: Call, now: real)
    requires TransferLifecycle.Inv(t) && t.direction == TransferState.Download
    ensures var t' := Step(t, call, now);
            && TransferLifecycle.Inv(t') && t'.direction == t.direction
            && t'.state == (match Target(t.state, t.direction, call) case Some(s) => s case None => t.state)
            && (if call.Queue? && t.state in {Complete, Aborted} then t'.localPath == None && t'.bytesTransfered == 0
                else t'.bytesTransfered == t.bytesTransfered && t'.filesize == t.filesize &&
                     (t'.localPath == t.localPath || (t'.localPath == None && t'.state == Aborted)))
  {
    TransferLifecycle.StepInv(t, call, now);
  }

  /** A call that neither aborts nor finishes the transfer, in a state with something to lose. */
  lemma StepOk(remote: seq<Byte>, t: Fields, local: seq<Byte>, call: Call, now: real)
    requires FieldsOk(remote, t, local) && t.state != Complete && t.state != Aborted
    requires call.Queue? || call.Pause? || call.Fail? || call.Interrupt? || call.Initialize?
    ensures var t' := Step(t, call, now);
            && FieldsOk(remote, t', local) && t'.filesize == t.filesize && t'.localPath == t.localPath
            && t'.state != Complete && t'.state != Aborted
  {
    StepData(t, call, now);
  }

  lemma RequestedInv(remote: seq<Byte>, d: Client, now: real)
    requires Inv(remote, d) && MayStart(d.t) && d.tasks == []
    ensures Inv(remote, Do(remote, d, Requested(now)))
  {
    StepOk(remote, d.t, d.local, Queue(true), now);
    StepOk(remote, Requeued(d.t, now), d.local, Initialize, now);
  }

  /** The offset is what has been counted, and a path that is made up is not empty. */
  lemma OffsetOk(remote: seq<Byte>, d: Client, path: string)
    requires Inv(remote, d) && d.tasks != [] && path != ""
    ensures WithOffset(d) == d.t && FieldsOk(remote, WithPath(d.t, path), d.local)
  {
  }

  lemma BegunOk(remote: seq<Byte>, d: Client, path: string, now: real)
    requires Inv(remote, d) && d.tasks != [] && path != ""
    ensures var t := Begun(WithOffset(d), path, now);
            && FieldsOk(remote, t, d.local) && t.localPath.Some? && t.filesize == d.t.filesize
            && t.state == (if d.t.state == Initializing then Downloading else d.t.state)
  {
    OffsetOk(remote, d, path);
    StepData(WithPath(d.t, path), StartTransferring, now);
  }

  lemma WaitingEndsInv(remote: seq<Byte>, d: Client, e: Event)
    requires Inv(remote, d) && Enabled(remote, d, e)
    requires e.GivenUp? || e.OffsetFailed? || e.PathFailed? || e.OpenFailed?
    ensures Inv(remote, Do(remote, d, e))
  {
    match e
    case GivenUp(_, now) => StepOk(remote, d.t, d.local, Queue(false), now);
    case OffsetFailed(_, now) =>
      StepOk(remote, d.t, d.local, Interrupt, now);
    case PathFailed(_, path, now) =>
      OffsetOk(remote, d, path);
      StepOk(remote, WithPath(d.t, path), d.local, Fail(Some(FILE_READ_ERROR)), now);
    case OpenFailed(_, path, now) =>
      BegunOk(remote, d, path, now);
      StepOk(remote, Begun(WithOffset(d), path, now), d.local, Fail(Some(FILE_READ_ERROR)), now);
  }

  lemma OpenedInv(remote: seq<Byte>, d: Client, e: Event)
    requires Inv(remote, d) && e.Opened? && Enabled(remote, d, e)
    ensures Inv(remote, Do(remote, d, e))
  {
    BegunOk(remote, d, e.path, e.now);
  }

  lemma PrefixGrows(remote: seq<Byte>, local: seq<Byte>, arriving: seq<Byte>, count: nat)
    requires local <= remote && Truthful(remote, local, arriving) && count <= |arriving|
    ensures local + arriving[..count] == remote[..|local| + count]
    ensures Truthful(remote, local + arriving[..count], arriving[count..])
  {
    assert arriving[..count] == remote[|local|..|local| + count];
    assert local == remote[..|local|];
  }

  lemma WroteInv(remote: seq<Byte>, d: Client, e: Event)
    requires Inv(remote, d) && e.Wrote? && Enabled(remote, d, e)
    ensures Inv(remote, Do(remote, d, e))
  {
    PrefixGrows(remote, d.local, d.tasks[0].arriving, e.count);
  }

  lemma EndReachedOk(remote: seq<Byte>, t: Fields, local: seq<Byte>, now: real)
    requires FieldsOk(remote, t, local) && t.filesize == Some(|remote|) && t.state != Complete && t.state != Aborted
    ensures FieldsOk(remote, Ended(t, 0, false, now), local)
  {
    assert t.(bytesTransfered := t.bytesTransfered + 0) == t;
    if |local| == |remote| {
      StepData(t, Finish, now);
    } else {
      StepOk(remote, t, local, Fail(Some(CANCELLED)), now);
    }
  }

  lemma StoppedInv(remote: seq<Byte>, d: Client, e: Event)
    requires Inv(remote, d) && e.Stopped? && Enabled(remote, d, e)
    ensures Inv(remote, Do(remote, d, e))
  {
    assert d.t.(bytesTransfered := d.t.bytesTransfered + 0) == d.t;
    match e.outcome
    case EndReached => EndReachedOk(remote, d.t, d.local, e.now);
    case ReadError => StepOk(remote, d.t, d.local, Interrupt, e.now);
    case WriteError => StepOk(remote, d.t, d.local, Fail(Some(FILE_READ_ERROR)), e.now);
  }

  lemma CalledInv(remote: seq<Byte>, d: Client, call: Call, now: real)
    requires Inv(remote, d) && FromOutside(call)
    ensures Inv(remote, Do(remote, d, Called(call, now)))
  {
    StepData(d.t, call, now);
  }

  lemma RestartedInv(remote: seq<Byte>, d: Client, stored: bool)
    requires Inv(remote, d)
    ensures Inv(remote, Do(remote, d, Restarted(stored)))
  {
    TransferLifecycle.ApplyInv(d.t, TransferLifecycle.Reloaded(stored));
  }

  lemma DoInv(remote: seq<Byte>, d: Client, e: Event)
    requires Inv(remote, d) && Enabled(remote, d, e) && (e.Requested? ==> d.tasks == [])
    ensures Inv(remote, Do(remote, d, e))
  {
    match e
    case Requested(now) => RequestedInv(remote, d, now);
    case Opened(_, _, _, _) => OpenedInv(remote, d, e);
    case Wrote(_, _) => WroteInv(remote, d, e);
    case Stopped(_, _, _) => StoppedInv(remote, d, e);
    case Called(call, now) => CalledInv(remote, d, call, now);
    case Restarted(stored) => RestartedInv(remote, d, stored);
    case _ => WaitingEndsInv(remote, d, e);
  }

  lemma {:induction false} RunKeeps(remote: seq<Byte>, d: Client, events: seq<Event>)
    requires Inv(remote, d) && IsRun(remote, d, events) && OneAtATime(remote, d, events)
    ensures Inv(remote, Run(remote, d, events))
    decreases |events|
  {
    if events != [] {
      DoInv(remote, d, events[0]);
      RunKeeps(remote, Do(remote, d, events[0]), events[1..]);
    }
  }

  /**
   Over any number of attempts, cut short anywhere and resumed, with failures from outside in the middle of
   them: as long as no attempt starts while one is under way, the local file is a prefix of the remote one, and
   a download that is complete has all of it.
   */
  lemma RunInv(remote: seq<Byte>, username: Name, path: string, events: seq<Event>)
    requires var d := NewClient(username, path); IsRun(remote, d, events) && OneAtATime(remote, d, events)
    ensures var d := Run(remote, NewClient(username, path), events);
            && d.local <= remote && (d.t.state == Complete ==> d.local == remote)
            && (d.t.state != Aborted ==> d.t.bytesTransfered == |d.local|)
  {
    RunKeeps(remote, NewClient(username, path), events);
  }

  lemma FirstThen(remote: seq<Byte>, d: Client, e: Event, rest: seq<Event>)
    requires Enabled(remote, d, e) && IsRun(remote, Do(remote, d, e), rest)
    ensures IsRun(remote, d, [e] + rest) && Run(remote, d, [e] + rest) == Run(remote, Do(remote, d, e), rest)
    ensures OneAtATime(remote, d, [e] + rest) <==>
            (e.Requested? ==> d.tasks == []) && OneAtATime(remote, Do(remote, d, e), rest)
  {
    assert ([e] + rest)[1..] == rest;
  }

  // ---------------------------------------------------------------- an attempt is a run

  /** A download with no attempt under way */
  function Idle(d: Copy): Client
  {
    Client(d.t, d.local, [], false)
  }

  /** From what a request leads to in one go, to the steps of a run. */
  ghost predicate Reached(remote: seq<Byte>, d: Client, events: seq<Event>, d': Client)
  {
    IsRun(remote, d, events) && OneAtATime(remote, d, events) && Run(remote, d, events) == d'
  }

  lemma OneStep(remote: seq<Byte>, d: Client, e: Event, rest: seq<Event>, d': Client)
    requires Enabled(remote, d, e) && (e.Requested? ==> d.tasks == []) && Reached(remote, Do(remote, d, e), rest, d')
    ensures Reached(remote, d, [e] + rest, d')
  {
    FirstThen(remote, d, e, rest);
  }

  lemma NoStep(remote: seq<Byte>, d: Client)
    ensures Reached(remote, d, [], d)
  {
  }

  /** The request of an attempt puts the transfer where the attempt begins. */
  function Started(remote: seq<Byte>, d: Copy, now: real): Client
  {
    Client(Prepared(Requeued(d.t, now), |remote|, now), d.local, [Waiting], true)
  }

  lemma RequestStarts(remote: seq<Byte>, d: Copy, now: real)
    requires Inv(remote, Idle(d)) && MayStart(d.t)
    ensures Do(remote, Idle(d), Requested(now)) == Started(remote, d, now) && Inv(remote, Started(remote, d, now))
  {
    RequestedInv(remote, Idle(d), now);
    StepData(d.t, Queue(true), now);
    StepData(Requeued(d.t, now), Initialize, now);
    assert [] + [Waiting] == [Waiting];
  }

  lemma OpenedIs(remote: seq<Byte>, s: Client, open: Event)
    requires Inv(remote, s) && s.tasks == [Waiting] && open.Opened? && Enabled(remote, s, open) && open.task == 0
    ensures var s' := Do(remote, s, open);
            && Inv(remote, s') && s'.tasks == [Copying(open.arriving, |remote| - |s.local|, 0)] && s'.local == s.local
            && s'.t == Begun(WithOffset(s), open.path, open.now) && s'.t.filesize == s.t.filesize
            && s'.t.bytesTransfered == |s.local|
  {
    OpenedInv(remote, s, open);
    BegunOk(remote, s, open.path, open.now);
    StepData(WithPath(WithOffset(s), open.path), StartTransferring, open.now);
  }

  lemma WroteIs(remote: seq<Byte>, s: Client, taken: nat)
    requires Inv(remote, s) && |s.tasks| == 1 && Enabled(remote, s, Wrote(0, taken))
    ensures var s' := Do(remote, s, Wrote(0, taken)); var task := s.tasks[0];
            && Inv(remote, s') && s'.tasks == [Copying(task.arriving[taken..], task.size, task.received + taken)]
            && s'.local == s.local + task.arriving[..taken] && s'.t == s.t.(bytesTransfered := s.t.bytesTransfered + taken)
  {
    WroteInv(remote, s, Wrote(0, taken));
  }

  /** The bytes taken, and the end. */
  lemma BytesThenEnd(remote: seq<Byte>, s: Client, taken: nat, failed: bool, now: real, d': Copy)
    returns (events: seq<Event>)
    requires Inv(remote, s) && |s.tasks| == 1 && s.tasks[0].Copying? && s.tasks[0].received == 0
    requires taken <= |s.tasks[0].arriving|
    requires if failed then taken == 0 || taken < s.tasks[0].size
             else taken == |s.tasks[0].arriving| || (taken > 0 && taken >= s.tasks[0].size)
    requires d' == Copy(Ended(s.t, taken, failed, now), s.local + s.tasks[0].arriving[..taken])
    ensures Reached(remote, s, events, Idle(d'))
  {
    if taken == 0 {
      NothingTaken(s);
      events := ThenEnd(remote, s, failed, now, d');
    } else {
      WroteIs(remote, s, taken);
      NothingTaken(Do(remote, s, Wrote(0, taken)));
      events := ThenEnd(remote, Do(remote, s, Wrote(0, taken)), failed, now, d');
      OneStep(remote, s, Wrote(0, taken), events, Idle(d'));
      events := [Wrote(0, taken)] + events;
    }
  }

  lemma ThenEnd(remote: seq<Byte>, s: Client, failed: bool, now: real, d': Copy) returns (events: seq<Event>)
    requires Inv(remote, s) && |s.tasks| == 1 && s.tasks[0].Copying?
    requires if failed then !IsOver(s.tasks[0]) else s.tasks[0].arriving == [] || IsOver(s.tasks[0])
    requires d' == Copy(Ended(s.t, 0, failed, now), s.local)
    ensures Reached(remote, s, events, Idle(d'))
  {
    var stop := Stopped(0, if failed then ReadError else EndReached, now);
    StopIsEnd(remote, s, stop, d');
    events := [stop];
  }

  lemma NothingTaken(s: Client)
    requires |s.tasks| == 1 && s.tasks[0].Copying?
    ensures s.local + s.tasks[0].arriving[..0] == s.local && s.t.(bytesTransfered := s.t.bytesTransfered + 0) == s.t
  {
  }

  /** The steps of the bytes that come over a connection. */
  lemma CopiedIsRun(remote: seq<Byte>, s: Client, a: Attempt, now: real, taken: nat, failed: bool, d': Copy)
    returns (events: seq<Event>)
    requires Inv(remote, s) && s.tasks == [Waiting] && a.Connected? && a.path != "" && Truthful(remote, s.local, a.arriving)
    requires Copied(Copy(WithOffset(s), s.local), a, now, taken, failed, d')
    ensures Reached(remote, s, events, Idle(d'))
  {
    var open := Opened(0, a.path, a.arriving, now);
    OpenedIs(remote, s, open);
    events := BytesThenEnd(remote, Do(remote, s, open), taken, failed, now, d');
    OneStep(remote, s, open, events, Idle(d'));
    events := [open] + events;
  }

  /** An attempt that ends before there is a file to write to */
  lemma WaitingEndIsRun(remote: seq<Byte>, s: Client, e: Event, d': Copy)
    requires Inv(remote, s) && s.tasks == [Waiting] && Enabled(remote, s, e)
    requires e.GivenUp? || e.OffsetFailed? || e.PathFailed? || e.OpenFailed?
    requires d' == Copy(WaitingEnds(s, e), s.local)
    ensures Reached(remote, s, [e], Idle(d'))
  {
    WaitingEndsInv(remote, s, e);
    assert Without([Waiting], 0) == [];
    NoStep(remote, Do(remote, s, e));
    OneStep(remote, s, e, [], Idle(d'));
  }

  lemma StopIsEnd(remote: seq<Byte>, s: Client, stop: Event, d': Copy)
    requires Inv(remote, s) && |s.tasks| == 1 && stop.Stopped? && Enabled(remote, s, stop)
    requires d' == Copy(CopyingEnds(s.t, stop.outcome, stop.now), s.local)
    ensures Reached(remote, s, [stop], Idle(d'))
  {
    StoppedInv(remote, s, stop);
    assert Without(s.tasks, 0) == [];
    StopKeepsPath(remote, s, stop);
    NoStep(remote, Do(remote, s, stop));
    OneStep(remote, s, stop, [], Idle(d'));
  }

  lemma StopKeepsPath(remote: seq<Byte>, s: Client, stop: Event)
    requires Inv(remote, s) && stop.Stopped? && Enabled(remote, s, stop)
    ensures CopyingEnds(s.t, stop.outcome, stop.now).localPath == s.t.localPath && s.t.localPath.Some?
  {
    assert s.t.(bytesTransfered := s.t.bytesTransfered + 0) == s.t;
    match stop.outcome
    case EndReached =>
      StepData(s.t, Finish, stop.now);
      StepData(s.t, Fail(Some(CANCELLED)), stop.now);
    case ReadError => StepData(s.t, Interrupt, stop.now);
    case WriteError => StepData(s.t, Fail(Some(FILE_READ_ERROR)), stop.now);
  }

  /** What the attempt needs of the network: paths that are names, and bytes that are those of the remote file. */
  predicate IsAttempt(remote: seq<Byte>, d: Copy, a: Attempt)
  {
    && (a.PathNotCreated? || a.FileNotOpened? || a.Connected? ==> a.path != "")
    && (a.Connected? ==> Truthful(remote, d.local, a.arriving))
  }

  /** How a task ends that gets no file to write to */
  function EarlyEnd(a: Attempt, now: real): Event
    requires !a.Connected?
  {
    match a
    case ReplyNotSent => GivenUp(0, now)
    case NoFileConnection => GivenUp(0, now)
    case OffsetNotSent => OffsetFailed(0, now)
    case PathNotCreated(path) => PathFailed(0, path, now)
    case FileNotOpened(path) => OpenFailed(0, path, now)
  }

  lemma EarlyLeadsTo(remote: seq<Byte>, d: Copy, a: Attempt, now: real, d': Copy)
    requires !a.Connected? && AttemptLeadsTo(Copy(Requeued(d.t, now), d.local), a, |remote|, now, d')
    ensures d' == Copy(WaitingEnds(Started(remote, d, now), EarlyEnd(a, now)), d.local)
  {
  }

  lemma ConnectedLeadsTo(remote: seq<Byte>, d: Copy, a: Attempt, now: real, d': Copy) returns (taken: nat, failed: bool)
    requires a.Connected? && AttemptLeadsTo(Copy(Requeued(d.t, now), d.local), a, |remote|, now, d')
    ensures Copied(Copy(WithOffset(Started(remote, d, now)), d.local), a, now, taken, failed, d')
  {
    taken, failed :| Copied(Copy(WithOffset(Started(remote, d, now)), d.local), a, now, taken, failed, d');
  }

  /** Everything a request can lead to is the outcome of a run in which one attempt starts, on its own. */
  lemma AttemptIsRun(remote: seq<Byte>, d: Copy, a: Attempt, now: real, d': Copy) returns (events: seq<Event>)
    requires Inv(remote, Idle(d)) && MayStart(d.t) && IsAttempt(remote, d, a)
    requires AttemptLeadsTo(Copy(Requeued(d.t, now), d.local), a, |remote|, now, d')
    ensures Reached(remote, Idle(d), events, Idle(d'))
  {
    var s := Started(remote, d, now);
    RequestStarts(remote, d, now);
    if a.Connected? {
      var taken, failed := ConnectedLeadsTo(remote, d, a, now, d');
      events := CopiedIsRun(remote, s, a, now, taken, failed, d');
    } else {
      EarlyLeadsTo(remote, d, a, now, d');
      WaitingEndIsRun(remote, s, EarlyEnd(a, now), d');
      events := [EarlyEnd(a, now)];
    }
    OneStep(remote, Idle(d), Requested(now), events, Idle(d'));
    events := [Requested(now)] + events;
  }

  /** So an attempt keeps what runs keep. */
  lemma AttemptInv(remote: seq<Byte>, d: Copy, a: Attempt, now: real, d': Copy)
    requires Inv(remote, Idle(d)) && MayStart(d.t) && IsAttempt(remote, d, a)
    requires AttemptLeadsTo(Copy(Requeued(d.t, now), d.local), a, |remote|, now, d')
    ensures Inv(remote, Idle(d'))
  {
    var events := AttemptIsRun(remote, d, a, now, d');
    RunKeeps(remote, Idle(d), events);
  }

  lemma RequestKeepsData(t: Fields, filesize: nat, now: real)
    requires TransferLifecycle.Inv(t) && t.direction == TransferState.Download && MayStart(t)
    ensures var t' := Prepared(Requeued(t, now), filesize, now); t'.localPath == t.localPath && t'.filesize == Some(filesize)
  {
    StepData(t, Queue(true), now);
    StepData(Requeued(t, now), Initialize, now);
  }

  /** How each attempt ends that begins in a state that expects it. */
  predicate EndsAs(remote: seq<Byte>, d: Copy, a: Attempt, d': Copy)
  {
    var path := if d.t.localPath.Some? || !(a.PathNotCreated? || a.FileNotOpened? || a.Connected?) then d.t.localPath else Some(a.path);
    && d'.t.localPath == path && d'.t.filesize == Some(|remote|) && (a.Connected? || d'.local == d.local)
    && match a {
         case ReplyNotSent => d'.t.state == Queued
         case NoFileConnection => d'.t.state == Queued
         case OffsetNotSent => d'.t.state == Initializing
         case PathNotCreated(_) => d'.t.state == Failed && d'.t.failReason == Some("File read error.")
         case FileNotOpened(_) => d'.t.state == Failed && d'.t.failReason == Some("File read error.")
         case Connected(_, arriving, network) =>
           || (d'.t.state == Complete && d'.local == remote)
           || (d'.t.state == Failed && d'.t.failReason == Some("Cancelled") && d'.local == d.local + arriving != remote)
           || (d'.t.state == Incomplete && network.failsAt.Some?)
       }
  }

  lemma EarlyEndsAs(remote: seq<Byte>, d: Copy, a: Attempt, now: real, d': Copy)
    requires Inv(remote, Idle(d)) && MayStart(d.t) && d.t.state != Virgin && !a.Connected?
    requires AttemptLeadsTo(Copy(Requeued(d.t, now), d.local), a, |remote|, now, d')
    ensures EndsAs(remote, d, a, d')
  {
    RequestStarts(remote, d, now);
    EarlyLeadsTo(remote, d, a, now, d');
    StateOfStarted(d, |remote|, now);
    RequestKeepsData(d.t, |remote|, now);
  }

  lemma EndedIs(t: Fields, taken: nat, failed: bool, now: real)
    requires t.state == Downloading
    ensures var t' := Ended(t, taken, failed, now);
            && t'.localPath == t.localPath && t'.filesize == t.filesize
            && (failed ==> t'.state == Incomplete)
            && (!failed && t.filesize == Some(t.bytesTransfered + taken) ==> t'.state == Complete)
            && (!failed && t.filesize != Some(t.bytesTransfered + taken) ==>
                  t'.state == Failed && t'.failReason == Some("Cancelled"))
  {
  }

  /** From a file that is open to the end */
  lemma CopiedEndsAs(remote: seq<Byte>, d: Copy, a: Attempt, begun: Fields, taken: nat, failed: bool, now: real, d': Copy)
    requires a.Connected? && d.local <= remote && Truthful(remote, d.local, a.arriving) && taken <= |a.arriving|
    requires begun.state == Downloading && begun.filesize == Some(|remote|) && begun.bytesTransfered == |d.local|
    requires begun.localPath == if d.t.localPath.Some? then d.t.localPath else Some(a.path)
    requires if failed then a.network.failsAt.Some? else taken == |a.arriving| || taken >= |remote| - |d.local|
    requires d' == Copy(Ended(begun, taken, failed, now), d.local + a.arriving[..taken])
    ensures EndsAs(remote, d, a, d')
  {
    EndedIs(begun, taken, failed, now);
    PrefixGrows(remote, d.local, a.arriving, taken);
    if !failed && |d.local| + taken != |remote| {
      assert a.arriving[..taken] == a.arriving;
    }
  }

  lemma ConnectedEndsAs(remote: seq<Byte>, d: Copy, a: Attempt, now: real, d': Copy)
    requires Inv(remote, Idle(d)) && MayStart(d.t) && d.t.state != Virgin && IsAttempt(remote, d, a) && a.Connected?
    requires AttemptLeadsTo(Copy(Requeued(d.t, now), d.local), a, |remote|, now, d')
    ensures EndsAs(remote, d, a, d')
  {
    RequestStarts(remote, d, now);
    StateOfStarted(d, |remote|, now);
    RequestKeepsData(d.t, |remote|, now);
    var s := Started(remote, d, now);
    var taken, failed := ConnectedLeadsTo(remote, d, a, now, d');
    BegunOk(remote, s, a.path, now);
    BegunPath(s, a.path, now);
    OpenedIs(remote, s, Opened(0, a.path, a.arriving, now));
    CopiedEndsAs(remote, d, a, Begun(WithOffset(s), a.path, now), taken, failed, now, d');
  }

  lemma BegunPath(s: Client, path: string, now: real)
    ensures Begun(WithOffset(s), path, now).localPath == if s.t.localPath.Some? then s.t.localPath else Some(path)
  {
  }

  /** Each way an attempt can go leaves its state, its reason, its path and its bytes. */
  lemma AttemptEndsExactly(remote: seq<Byte>, d: Copy, a: Attempt, now: real, d': Copy)
    requires Inv(remote, Idle(d)) && MayStart(d.t) && d.t.state != Virgin && IsAttempt(remote, d, a)
    requires AttemptLeadsTo(Copy(Requeued(d.t, now), d.local), a, |remote|, now, d')
    ensures EndsAs(remote, d, a, d') && d.local <= d'.local <= remote && d'.t.bytesTransfered == |d'.local|
  {
    AttemptInv(remote, d, a, now, d');
    if a.Connected? {
      ConnectedEndsAs(remote, d, a, now, d');
      var taken, failed := ConnectedLeadsTo(remote, d, a, now, d');
    } else {
      EarlyEndsAs(remote, d, a, now, d');
    }
  }

  /** How copying ends, in the state it began in: with all bytes, without some, cut off, or unable to write. */
  lemma CopyingEndsAs(remote: seq<Byte>, d: Client, outcome: Outcome, now: real)
    requires Inv(remote, d) && d.t.state == Downloading && Enabled(remote, d, Stopped(0, outcome, now))
    ensures var d' := Do(remote, d, Stopped(0, outcome, now));
            && d'.tasks == [] && d'.local == d.local && d'.t.bytesTransfered == |d.local|
            && (outcome == EndReached ==> d'.t.state == if d.local == remote then Complete else Failed)
            && (outcome == EndReached && d.local != remote ==> d'.t.failReason == Some("Cancelled"))
            && (outcome == ReadError ==> d'.t.state == Incomplete)
            && (outcome == WriteError ==> d'.t.state == Failed && d'.t.failReason == Some("File read error."))
  {
    StopKeepsPath(remote, d, Stopped(0, outcome, now));
    assert d.t.(bytesTransfered := d.t.bytesTransfered + 0) == d.t;
  }

  /** A pause or an abort stops the attempt under way, and nothing else that comes from outside does. */
  lemma CallsStop(remote: seq<Byte>, d: Client, call: Call, now: real)
    requires Inv(remote, d) && d.tasks != [] && FromOutside(call)
    ensures Do(remote, d, Called(call, now)).tasks ==
            if (call == Pause && d.t.state in {Queued, Initializing, Downloading, Incomplete}) ||
               (call.Abort? && d.t.state in {Queued, Initializing, Downloading, Incomplete, Paused})
            then [] else d.tasks
  {
    assert d.tasks[..0] == [];
  }

  /**
   When the offset cannot be sent the download stays INITIALIZING: incomplete() is not a transition of that
   state, so the transfer is neither queued nor interrupted, and no later request starts an attempt.
   */
  lemma OffsetNotSentStays(remote: seq<Byte>, d: Copy, now: real, d': Copy)
    requires Inv(remote, Idle(d)) && MayStart(d.t) && d.t.state != Virgin
    requires AttemptLeadsTo(Copy(Requeued(d.t, now), d.local), OffsetNotSent, |remote|, now, d')
    ensures d'.t.state == Initializing && !MayStart(d'.t)
  {
    RequestStarts(remote, d, now);
    EarlyLeadsTo(remote, d, OffsetNotSent, now, d');
  }

  /**
   With the whole rest of the file arriving and no failure, an attempt gets all of it; it completes the
   download, unless that was never queued.
   */
  lemma UndisturbedAttemptCompletes(remote: seq<Byte>, d: Copy, a: Attempt, now: real, d': Copy)
    requires Inv(remote, Idle(d)) && MayStart(d.t) && IsAttempt(remote, d, a)
    requires AttemptLeadsTo(Copy(Requeued(d.t, now), d.local), a, |remote|, now, d')
    requires a.Connected? && a.network.failsAt == None && a.arriving == remote[|d.local|..]
    ensures d'.local == remote && d'.t.state == if d.t.state == Virgin then Virgin else Complete
  {
    RequestStarts(remote, d, now);
    var s := Started(remote, d, now);
    var taken, failed := ConnectedLeadsTo(remote, d, a, now, d');
    OpenedIs(remote, s, Opened(0, a.path, a.arriving, now));
    AllTaken(remote, Copy(WithOffset(s), d.local), a, now, taken, failed, d');
    StateOfStarted(d, |remote|, now);
    WholeEnds(remote, Begun(WithOffset(s), a.path, now), d.local, now);
  }

  lemma AllTaken(remote: seq<Byte>, d: Copy, a: Attempt, now: real, taken: nat, failed: bool, d': Copy)
    requires a.Connected? && a.network.failsAt == None && |d.local| <= |remote| && a.arriving == remote[|d.local|..]
    requires d.t.filesize == Some(|remote|) && d.t.bytesTransfered == |d.local| && Copied(d, a, now, taken, failed, d')
    ensures d' == Copy(Ended(Begun(d.t, a.path, now), |remote| - |d.local|, false, now), d.local + remote[|d.local|..])
  {
    assert a.arriving[..taken] == a.arriving;
  }

  lemma StateOfStarted(d: Copy, filesize: nat, now: real)
    requires MayStart(d.t)
    ensures Prepared(Requeued(d.t, now), filesize, now).state == if d.t.state == Virgin then Virgin else Initializing
  {
  }

  lemma WholeEnds(remote: seq<Byte>, t: Fields, local: seq<Byte>, now: real)
    requires local <= remote && t.filesize == Some(|remote|) && t.bytesTransfered == |local|
    requires t.state in {Virgin, Downloading}
    ensures local + remote[|local|..] == remote
    ensures Ended(t, |remote| - |local|, false, now).state == if t.state == Virgin then Virgin else Complete
  {
  }

  /** What an uploader sends from the offset it was given, cut off anywhere on the way, is truthful. */
  lemma SentIsTruthful(remote: seq<Byte>, local: seq<Byte>, arriving: seq<Byte>, sent: seq<Byte>)
    requires |local| + |sent| <= |remote| && sent == remote[|local|..|local| + |sent|] && arriving <= sent
    ensures Truthful(remote, local, arriving)
  {
    assert arriving == sent[..|arriving|];
  }
}

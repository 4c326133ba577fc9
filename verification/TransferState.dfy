/**
 The transfer life cycle: the transitions of transfer/state.py on the fields of transfer/model.py, as a
 function on the fields, and as the methods of a class that updates them.
 */
module TransferState {

  import opened Wrappers

  type Name = string

  datatype Direction = Upload | Download

  datatype State =
    | Virgin | Queued | Initializing | Incomplete | Downloading | Uploading | Complete | Failed | Aborted | Paused

  const REQUESTED := "Requested"
  const BLOCKED := "Blocked"
  const NOT_SHARED := "File not shared"

  /** The fields of a transfer that are kept in the cache. */
  datatype Fields = Fields(
    username: Name,
    remotePath: string,
    direction: Direction,
    state: State,
    localPath: Option<string>,
    remotelyQueued: bool,
    placeInQueue: Option<int>,
    failReason: Option<string>,
    abortReason: Option<string>,
    filesize: Option<int>,
    bytesTransfered: int,
    queueAttempts: int,
    uploadRequestAttempts: int,
    startTime: Option<real>,
    completeTime: Option<real>)

  function NewTransfer(username: Name, remotePath: string, direction: Direction): Fields
  {
    Fields(username, remotePath, direction, Virgin, None, false, None, None, None, None, 0, 0, 0, None, None)
  }

  /** The transition methods of a state. */
  datatype Call =
    | Queue(remotely: bool)
    | Pause
    | Initialize
    | StartTransferring
    | Fail(reason: Option<string>)
    | Abort(reason: Option<string>)
    | Finish
    | Interrupt

  predicate IsProcessing(s: State)
  {
    s in {Downloading, Uploading, Initializing}
  }

  predicate IsTransferring(s: State)
  {
    s in {Downloading, Uploading}
  }

  // ---------------------------------------------------------------- the declared transitions

  /** The states a call leads to, and whether it is defined at all; complete() is Finish, incomplete() Interrupt. */
  function Target(s: State, d: Direction, call: Call): Option<State>
  {
    match call
    case Queue(_) => if s in {Virgin, Initializing, Complete, Incomplete, Failed, Paused, Aborted} then Some(Queued) else None
    case Pause => if s in {Virgin, Queued, Initializing, Downloading, Uploading, Incomplete} then Some(Paused) else None
    case Initialize => if s in {Queued, Incomplete} then Some(Initializing) else None
    case StartTransferring =>
      if s == Initializing then Some(if d == Upload then Uploading else Downloading) else None
    case Fail(_) =>
      if s in {Queued, Initializing, Downloading, Uploading, Incomplete, Paused} then Some(Failed) else None
    case Abort(_) =>
      if s in {Queued, Initializing, Downloading, Uploading, Incomplete, Paused} then Some(Aborted) else None
    case Finish => if IsTransferring(s) then Some(Complete) else None
    case Interrupt => if s == Downloading then Some(Incomplete) else None
  }

  // ---------------------------------------------------------------- resets

  function ResetTimes(t: Fields): Fields
  {
    t.(startTime := None, completeTime := None)
  }

  function WithCompleteTime(t: Fields, now: real): Fields
  {
    if t.startTime.Some? then t.(completeTime := Some(now)) else t
  }

  /** reset_progress_vars and reset_local_vars, for downloads */
  function ResetDownload(t: Fields): Fields
  {
    if t.direction == Download then t.(bytesTransfered := 0, localPath := None, filesize := None) else t
  }

  /** _remove_local_file, but for the file itself: a path that is empty counts as not set. */
  function FileRemoved(t: Fields): Fields
  {
    if t.direction == Download && t.localPath.Some? && t.localPath.value != "" then t.(localPath := None) else t
  }

  // ---------------------------------------------------------------- the calls

  function OnQueue(t: Fields, remotely: bool): Fields
  {
    var timed := if t.state in {Virgin, Initializing} then t else ResetTimes(t);
    var kept := if t.state in {Complete, Aborted} then ResetDownload(timed) else timed;
    var reasoned := if t.state in {Failed, Aborted} then kept.(failReason := None, abortReason := None) else kept;
    reasoned.(remotelyQueued := remotely, state := Queued)
  }

  function OnAbort(t: Fields, reason: Option<string>, now: real): Fields
  {
    var stopped := if IsTransferring(t.state) then WithCompleteTime(t, now) else t;
    var removed := if t.state == Uploading then stopped else FileRemoved(stopped);
    removed.(abortReason := reason, state := Aborted)
  }

  function OnFail(t: Fields, reason: Option<string>, now: real): Fields
  {
    var stopped := if IsTransferring(t.state) then WithCompleteTime(t, now) else t;
    stopped.(failReason := reason, state := Failed)
  }

  function OnStartTransferring(t: Fields, now: real): Fields
  {
    t.(startTime := Some(now), completeTime := None, placeInQueue := None, remotelyQueued := false,
       queueAttempts := 0, uploadRequestAttempts := 0,
       state := if t.direction == Upload then Uploading else Downloading)
  }

  /** A call at time now; an undefined one changes nothing. */
  function Step(t: Fields, call: Call, now: real): Fields
  {
    if Target(t.state, t.direction, call) == None then t
    else match call
      case Queue(remotely) => OnQueue(t, remotely)
      case Pause => (if IsTransferring(t.state) then WithCompleteTime(t, now) else t).(state := Paused)
      case Initialize => (if t.state == Incomplete then ResetTimes(t) else t).(state := Initializing)
      case StartTransferring => OnStartTransferring(t, now)
      case Fail(reason) => OnFail(t, reason, now)
      case Abort(reason) => OnAbort(t, reason, now)
      case Finish => WithCompleteTime(t, now).(state := Complete)
      case Interrupt => WithCompleteTime(t, now).(state := Incomplete)
  }

  // ---------------------------------------------------------------- the cache

  /** What __getstate__ stores; caches of earlier versions lack the abort reason. */
  datatype Saved = Saved(fields: Fields, hasAbortReason: bool)

  function Save(t: Fields): Saved
  {
    Saved(t, true)
  }

  /** __setstate__ */
  function Restore(s: Saved): Fields
  {
    var reason := if s.hasAbortReason then s.fields.abortReason else None;
    s.fields.(abortReason := if reason == None && s.fields.state == Aborted then Some(REQUESTED) else reason)
  }

  /** read_cache for one restored transfer, up to its addition. */
  function Loaded(t: Fields): Fields
  {
    var t0 := t.(remotelyQueued := false);
    if t.state == Initializing then Step(t0, Queue(false), 0.0)
    else if IsTransferring(t.state) then
      ResetTimes(t0.(state := if t.filesize == Some(t.bytesTransfered) then Complete else Incomplete))
    else t0
  }

  // ---------------------------------------------------------------- the transfer object

  /** Transfer, with the methods of its state objects; the lock is taken as uncontended. */
  class Transfer {
    const username: Name
    const remotePath: string
    const direction: Direction
    var state: State
    var localPath: Option<string>
    var remotelyQueued: bool
    var placeInQueue: Option<int>
    var failReason: Option<string>
    var abortReason: Option<string>
    var filesize: Option<int>
    var bytesTransfered: int
    var queueAttempts: int
    var uploadRequestAttempts: int
    var startTime: Option<real>
    var completeTime: Option<real>

    constructor (username: Name, remotePath: string, direction: Direction)
      ensures View() == NewTransfer(username, remotePath, direction)
    {
      this.username, this.remotePath, this.direction := username, remotePath, direction;
      state := Virgin;
      localPath, remotelyQueued, placeInQueue := None, false, None;
      failReason, abortReason, filesize := None, None, None;
      bytesTransfered, queueAttempts, uploadRequestAttempts := 0, 0, 0;
      startTime, completeTime := None, None;
    }

    function View(): Fields
      reads this
    {
      Fields(username, remotePath, direction, state, localPath, remotelyQueued, placeInQueue, failReason, abortReason,
             filesize, bytesTransfered, queueAttempts, uploadRequestAttempts, startTime, completeTime)
    }

    method ResetTimeVars()
      modifies this
      ensures View() == ResetTimes(old(View()))
    {
      startTime := None;
      completeTime := None;
    }

    method SetStartTime(now: real)
      modifies this
      ensures View() == old(View()).(startTime := Some(now), completeTime := None)
    {
      startTime := Some(now);
      completeTime := None;
    }

    method SetCompleteTime(now: real)
      modifies this
      ensures View() == WithCompleteTime(old(View()), now)
    {
      if startTime != None {
        completeTime := Some(now);
      }
    }

    method ResetQueueVars()
      modifies this
      ensures View() == old(View()).(placeInQueue := None, remotelyQueued := false,
                                     queueAttempts := 0, uploadRequestAttempts := 0)
    {
      placeInQueue := None;
      remotelyQueued := false;
      queueAttempts := 0;
      uploadRequestAttempts := 0;
    }

    method ResetProgressAndLocalVars()
      modifies this
      ensures View() == ResetDownload(old(View()))
    {
      if direction == Download {
        bytesTransfered := 0;
        localPath := None;
        filesize := None;
      }
    }

    method RemoveLocalFile()
      modifies this
      ensures View() == FileRemoved(old(View()))
    {
      if direction != Download {
        return;
      }
      if localPath.Some? && localPath.value != "" {
        localPath := None;
      }
    }

    method CallQueue(remotely: bool) returns (done: bool)
      modifies this
      ensures View() == Step(old(View()), Queue(remotely), 0.0)
      ensures done == Target(old(state), direction, Queue(remotely)).Some?
    {
      match state {
        case Virgin =>
        case Initializing =>
        case Complete =>
          ResetTimeVars();
          ResetProgressAndLocalVars();
        case Incomplete => ResetTimeVars();
        case Failed =>
          ResetTimeVars();
          failReason := None;
          abortReason := None;
        case Paused => ResetTimeVars();
        case Aborted =>
          ResetTimeVars();
          ResetProgressAndLocalVars();
          failReason := None;
          abortReason := None;
        case _ => return false;
      }
      remotelyQueued := remotely;
      state := Queued;
      return true;
    }

    method CallPause(now: real) returns (done: bool)
      modifies this
      ensures View() == Step(old(View()), Pause, now) && done == Target(old(state), direction, Pause).Some?
    {
      match state {
        case Virgin =>
        case Queued =>
        case Initializing =>
        case Incomplete =>
        case Downloading => SetCompleteTime(now);
        case Uploading => SetCompleteTime(now);
        case _ => return false;
      }
      state := Paused;
      return true;
    }

    method CallInitialize() returns (done: bool)
      modifies this
      ensures View() == Step(old(View()), Initialize, 0.0) && done == Target(old(state), direction, Initialize).Some?
    {
      match state {
        case Queued =>
        case Incomplete => ResetTimeVars();
        case _ => return false;
      }
      state := Initializing;
      return true;
    }

    method CallStartTransferring(now: real) returns (done: bool)
      modifies this
      ensures View() == Step(old(View()), StartTransferring, now)
      ensures done == Target(old(state), direction, StartTransferring).Some?
    {
      if state != Initializing {
        return false;
      }
      SetStartTime(now);
      ResetQueueVars();
      if direction == Upload {
        state := Uploading;
      } else {
        state := Downloading;
      }
      return true;
    }

    method CallFail(reason: Option<string>, now: real) returns (done: bool)
      modifies this
      ensures View() == Step(old(View()), Fail(reason), now) && done == Target(old(state), direction, Fail(reason)).Some?
    {
      match state {
        case Queued =>
        case Initializing =>
        case Incomplete =>
        case Paused =>
        case Downloading => SetCompleteTime(now);
        case Uploading => SetCompleteTime(now);
        case _ => return false;
      }
      failReason := reason;
      state := Failed;
      return true;
    }

    method CallAbort(reason: Option<string>, now: real) returns (done: bool)
      modifies this
      ensures View() == Step(old(View()), Abort(reason), now) && done == Target(old(state), direction, Abort(reason)).Some?
    {
      match state {
        case Queued => RemoveLocalFile();
        case Initializing => RemoveLocalFile();
        case Incomplete => RemoveLocalFile();
        case Paused => RemoveLocalFile();
        case Downloading =>
          SetCompleteTime(now);
          RemoveLocalFile();
        case Uploading => SetCompleteTime(now);
        case _ => return false;
      }
      abortReason := reason;
      state := Aborted;
      return true;
    }

    method CallComplete(now: real) returns (done: bool)
      modifies this
      ensures View() == Step(old(View()), Finish, now) && done == Target(old(state), direction, Finish).Some?
    {
      if state != Downloading && state != Uploading {
        return false;
      }
      SetCompleteTime(now);
      state := Complete;
      return true;
    }

    method CallIncomplete(now: real) returns (done: bool)
      modifies this
      ensures View() == Step(old(View()), Interrupt, now) && done == Target(old(state), direction, Interrupt).Some?
    {
      if state != Downloading {
        return false;
      }
      SetCompleteTime(now);
      state := Incomplete;
      return true;
    }

    /** The correction read_cache makes to a restored transfer. */
    method Correct()
      modifies this
      ensures View() == Loaded(old(View()))
    {
      remotelyQueued := false;
      if state == Initializing {
        var _ := CallQueue(false);
      } else if state == Downloading || state == Uploading {
        if filesize == Some(bytesTransfered) {
          state := Complete;
        } else {
          state := Incomplete;
        }
        ResetTimeVars();
      }
    }
  }
}

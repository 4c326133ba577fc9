/**
 What holds of a transfer over every run of state calls, reloads from the cache and updates of its data
 fields.
 */
module TransferLifecycle {

  import opened Wrappers
  import opened TransferState

  /**
   Anything that changes a transfer: a call at a time, being saved and loaded again (by a version that
   stored the abort reason or one that did not), new values of the data fields by the code that copies the
   file, and another reason for a transfer that is aborted already.
   */
  datatype Event =
    | Called(call: Call, now: real)
    | Reloaded(storedReason: bool)
    | Data(localPath: Option<string>, filesize: Option<int>, bytes: int, remotelyQueued: bool, place: Option<int>)
    | Reasoned(reason: string)

  function Apply(t: Fields, e: Event): Fields
  {
    match e
    case Called(call, now) => Step(t, call, now)
    case Reloaded(storedReason) => Loaded(Restore(Saved(t, storedReason)))
    case Data(localPath, filesize, bytes, remotelyQueued, place) =>
      t.(localPath := localPath, filesize := filesize, bytesTransfered := bytes, remotelyQueued := remotelyQueued,
         placeInQueue := place)
    case Reasoned(reason) => if t.state == Aborted then t.(abortReason := Some(reason)) else t
  }

  function Run(t: Fields, events: seq<Event>): Fields
    decreases |events|
  {
    if events == [] then t else Run(Apply(t, events[0]), events[1..])
  }

  /** One event more is one step more. */
  lemma {:induction false} RunExtends(t: Fields, events: seq<Event>, e: Event)
    ensures Run(t, events + [e]) == Apply(Run(t, events), e)
    decreases |events|
  {
    if events == [] {
      assert events + [e] == [e] && [e][1..] == [];
    } else {
      assert (events + [e])[0] == events[0] && (events + [e])[1..] == events[1..] + [e];
      RunExtends(Apply(t, events[0]), events[1..], e);
    }
  }

  // ---------------------------------------------------------------- transitions

  /** The states reachable in one transition, read off the state classes from the point of view of the state. */
  function Successors(s: State, d: Direction): set<State>
  {
    match s
    case Virgin => {Queued, Paused}
    case Queued => {Initializing, Failed, Aborted, Paused}
    case Initializing => {Aborted, Paused, Queued, Failed, if d == Upload then Uploading else Downloading}
    case Downloading => {Failed, Complete, Aborted, Paused, Incomplete}
    case Uploading => {Failed, Complete, Aborted, Paused}
    case Complete => {Queued}
    case Incomplete => {Failed, Queued, Initializing, Aborted, Paused}
    case Failed => {Queued}
    case Paused => {Queued, Aborted, Failed}
    case Aborted => {Queued}
  }

  /** A call either follows the relation or changes nothing at all. */
  lemma StepFollowsRelation(t: Fields, call: Call, now: real)
    ensures match Target(t.state, t.direction, call)
            case Some(s) => Step(t, call, now).state == s && s in Successors(t.state, t.direction)
            case None => Step(t, call, now) == t
  {
  }

  /** Every pair of the relation has a call that takes it. */
  lemma RelationIsReached(s: State, d: Direction, s': State) returns (call: Call)
    requires s' in Successors(s, d)
    ensures Target(s, d, call) == Some(s')
  {
    match s'
    case Queued => call := Queue(false);
    case Paused => call := Pause;
    case Initializing => call := Initialize;
    case Uploading => call := StartTransferring;
    case Downloading => call := StartTransferring;
    case Failed => call := Fail(None);
    case Aborted => call := Abort(None);
    case Complete => call := Finish;
    case Incomplete => call := Interrupt;
    case Virgin => call := Pause;
  }

  // ---------------------------------------------------------------- the invariant

  predicate Inv(t: Fields)
  {
    // reasons belong to the states they explain
    && (t.abortReason.Some? ==> t.state == Aborted)
    && (t.failReason.Some? ==> t.state == Failed)
    // the transfer has ended exactly when it has started and is not going on
    && (t.completeTime.Some? <==> t.startTime.Some? && !IsTransferring(t.state))
    && (t.state in {Virgin, Queued, Initializing} ==> t.startTime == None)
    && (IsTransferring(t.state) ==> t.startTime.Some?)
    && (t.state == Uploading ==> t.direction == Upload)
    && (t.state == Downloading ==> t.direction == Download)
  }

  lemma StepInv(t: Fields, call: Call, now: real)
    requires Inv(t)
    ensures Inv(Step(t, call, now))
  {
  }

  lemma ApplyInv(t: Fields, e: Event)
    requires Inv(t)
    ensures Inv(Apply(t, e))
  {
    match e
    case Called(call, now) => StepInv(t, call, now);
    case Reloaded(storedReason) =>
      var t1 := Restore(Saved(t, storedReason));
      assert Inv(t1);
      StepInv(t1.(remotelyQueued := false), Queue(false), 0.0);
    case _ =>
  }

  /** The invariant holds in every run from a new transfer. */
  lemma {:induction false} RunInv(t: Fields, events: seq<Event>)
    requires Inv(t)
    ensures Inv(Run(t, events))
    decreases |events|
  {
    if events != [] {
      ApplyInv(t, events[0]);
      RunInv(Apply(t, events[0]), events[1..]);
    }
  }

  lemma NewTransferRuns(username: Name, remotePath: string, direction: Direction, events: seq<Event>)
    ensures Inv(Run(NewTransfer(username, remotePath, direction), events))
  {
    RunInv(NewTransfer(username, remotePath, direction), events);
  }

  // ---------------------------------------------------------------- aborted means a reason

  predicate Explained(t: Fields)
  {
    t.state == Aborted ==> t.abortReason.Some?
  }

  /** Only an abort without a reason, where one is possible, leaves a transfer aborted without one. */
  lemma ExplainedExactly(t: Fields, e: Event)
    requires Inv(t) && Explained(t)
    ensures Explained(Apply(t, e)) <==>
            !(e.Called? && e.call == Abort(None) && Target(t.state, t.direction, e.call).Some?)
  {
  }

  /** With a reason at every abort, as the manager gives one, ABORTED and having a reason are the same. */
  lemma {:induction false} AbortReasonExactly(t: Fields, events: seq<Event>)
    requires Inv(t) && Explained(t) && forall e :: e in events && e.Called? ==> e.call != Abort(None)
    ensures Run(t, events).state == Aborted <==> Run(t, events).abortReason.Some?
    decreases |events|
  {
    if events != [] {
      ApplyInv(t, events[0]);
      ExplainedExactly(t, events[0]);
      AbortReasonExactly(Apply(t, events[0]), events[1..]);
    }
  }

  // ---------------------------------------------------------------- save and restore

  /**
   Saving and restoring gives the same fields unless the transfer was aborted without a reason; then, and when
   the cache has no reasons, an aborted transfer is taken to have been aborted on request.
   */
  lemma RestoreSaveExactly(t: Fields)
    ensures Restore(Save(t)) == t <==> Explained(t)
    ensures t.state == Aborted && t.abortReason == None ==> Restore(Save(t)) == t.(abortReason := Some("Requested"))
    ensures Restore(Saved(t, false)) == t.(abortReason := if t.state == Aborted then Some("Requested") else None)
  {
  }

  /** After loading nothing is being processed, nothing is queued remotely, and only the state and its times change. */
  lemma LoadedIsIdle(t: Fields)
    requires Inv(t)
    ensures var t' := Loaded(t);
            && t'.state !in {Initializing, Downloading, Uploading} && !t'.remotelyQueued
            && (t.state in {Downloading, Uploading} ==> t'.startTime == None && t'.completeTime == None)
            && (t'.state == t.state || IsProcessing(t.state))
            && t' == t.(state := t'.state, remotelyQueued := false, startTime := t'.startTime, completeTime := t'.completeTime)
            && (t.state in {Downloading, Uploading} ==>
                  t'.state == if t.filesize == Some(t.bytesTransfered) then Complete else Incomplete)
            && (t.state == Initializing ==> t'.state == Queued)
            && Loaded(t') == t'
  {
  }

  /**
   INCOMPLETE is documented as applying to downloads only. An upload gets there exactly when it is
   reloaded in the middle of uploading with a part of the file still to go.
   */
  lemma UploadIncompleteExactly(t: Fields, e: Event)
    requires Inv(t) && t.direction == Upload && t.state != Incomplete
    ensures Apply(t, e).state == Incomplete <==>
            e.Reloaded? && t.state == Uploading && t.filesize != Some(t.bytesTransfered)
  {
    match e
    case Called(call, now) => StepFollowsRelation(t, call, now);
    case _ =>
  }

  // ---------------------------------------------------------------- what the calls record

  /** Starting to transfer takes the transfer out of every queue and starts its clock. */
  lemma StartRecords(t: Fields, now: real)
    requires t.state == Initializing
    ensures Step(t, StartTransferring, now) ==
            t.(state := if t.direction == Upload then Uploading else Downloading, startTime := Some(now),
               completeTime := None, placeInQueue := None, remotelyQueued := false, queueAttempts := 0,
               uploadRequestAttempts := 0)
  {
  }

  /** A failure records its reason, and the end of what was going on; everything else is kept. */
  lemma FailRecords(t: Fields, reason: Option<string>, now: real)
    requires Inv(t) && t.state !in {Virgin, Complete, Failed, Aborted}
    ensures Step(t, Fail(reason), now) ==
            t.(state := Failed, failReason := reason,
               completeTime := if t.state in {Downloading, Uploading} then Some(now) else t.completeTime)
  {
  }

  /** An abort records its reason and the end, and forgets the local file of a download. */
  lemma AbortRecords(t: Fields, reason: Option<string>, now: real)
    requires Inv(t) && t.state !in {Virgin, Complete, Failed, Aborted} && t.localPath != Some("")
    ensures Step(t, Abort(reason), now) ==
            t.(state := Aborted, abortReason := reason, localPath := if t.direction == Download then None else t.localPath,
               completeTime := if t.state in {Downloading, Uploading} then Some(now) else t.completeTime)
  {
  }

  /** The end of a transfer: complete, or for a download incomplete */
  lemma EndRecords(t: Fields, now: real)
    requires Inv(t) && t.state in {Downloading, Uploading}
    ensures Step(t, Finish, now) == t.(state := Complete, completeTime := Some(now))
    ensures Step(t, Interrupt, now) ==
            if t.direction == Download then t.(state := Incomplete, completeTime := Some(now)) else t
    ensures Step(t, Pause, now) == t.(state := Paused, completeTime := Some(now))
  {
  }

  /** A download that is complete and queued again starts from nothing, an upload keeps its file. */
  lemma CompleteThenQueueRestarts(t: Fields, remotely: bool, now: real)
    requires Inv(t) && t.state == Complete
    ensures var t' := Step(t, Queue(remotely), now);
            var queued := t.(state := Queued, startTime := None, completeTime := None, remotelyQueued := remotely);
            t' == if t.direction == Download then queued.(localPath := None, filesize := None, bytesTransfered := 0) else queued
  {
  }

  // ---------------------------------------------------------------- going back to the queue

  /** A download that is aborted and queued again starts from nothing. */
  lemma AbortThenQueueRestarts(t: Fields, reason: Option<string>, now: real, remotely: bool)
    requires Inv(t) && t.direction == Download && Target(t.state, t.direction, Abort(reason)).Some?
    ensures Step(Step(t, Abort(reason), now), Queue(remotely), now) ==
            t.(state := Queued, localPath := None, filesize := None, bytesTransfered := 0, failReason := None,
               abortReason := None, startTime := None, completeTime := None, remotelyQueued := remotely)
  {
  }

  /** One that is paused and queued again continues: only the times and the remote flag are new. */
  lemma PauseThenQueueContinues(t: Fields, now: real, remotely: bool)
    requires Inv(t) && Target(t.state, t.direction, Pause).Some?
    ensures Step(Step(t, Pause, now), Queue(remotely), now) ==
            t.(state := Queued, startTime := None, completeTime := None, remotelyQueued := remotely)
  {
  }

  /** Queueing a failed transfer again forgets the failure and keeps the progress. */
  lemma FailThenQueueRetries(t: Fields, reason: Option<string>, now: real, remotely: bool)
    requires Inv(t) && Target(t.state, t.direction, Fail(reason)).Some?
    ensures Step(Step(t, Fail(reason), now), Queue(remotely), now) ==
            t.(state := Queued, startTime := None, completeTime := None, remotelyQueued := remotely)
  {
  }
}

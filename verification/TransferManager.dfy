/**
 The list of transfers of a TransferManager and the passes over it: adding, removing, loading, a
 management cycle and the reconciliation after changes of shares or blocked users.
 */
module TransferManager {

  import opened Wrappers
  import opened TransferState
  import TransferLifecycle
  import opened TransferScheduler
  import opened TransferSlots

  // ---------------------------------------------------------------- one management cycle

  /** Uploads chosen by a cycle: as many as fit of the ranked eligible ones. */
  ghost predicate IsChosen(w: World, ts: seq<Fields>, ranked: seq<nat>, chosen: seq<nat>)
  {
    && (forall i: nat :: i in ranked <==> Eligible(w, ts, i))
    && Descending(w, ts, ranked)
    && chosen == ranked[..Min(FreeSlots(w, ts), |ranked|)]
  }

  lemma DescendingDistinct(w: World, ts: seq<Fields>, s: seq<nat>)
    requires Descending(w, ts, s)
    ensures TransferSlots.Distinct(s)
  {
    forall a, b | 0 <= a < b < |s| ensures s[a] != s[b] {
      assert Below(w, ts, s[b], s[a]);
    }
  }

  /** Exactly as many uploads start as there are free slots and eligible users. */
  lemma CycleStarts(w: World, ts: seq<Fields>, ranked: seq<nat>, chosen: seq<nat>)
    requires IsChosen(w, ts, ranked, chosen)
    ensures Within(ts, chosen) && |chosen| == Min(FreeSlots(w, ts), |EligibleUsers(w, ts)|)
    ensures CountProcessing(Started(ts, chosen)) == CountProcessing(ts) + |chosen|
    ensures forall a :: 0 <= a < |chosen| ==> Eligible(w, ts, chosen[a])
  {
    DescendingDistinct(w, ts, ranked);
    EligibleByUser(w, ts, ranked);
    forall a | 0 <= a < |chosen| ensures Eligible(w, ts, chosen[a]) {
      assert ranked[a] in ranked;
    }
    StartedCount(ts, chosen);
  }

  predicate IsPrivileged(w: World, name: Name)
  {
    name in w.users && w.users[name].privileged
  }

  predicate IsAround(w: World, name: Name)
  {
    name in w.users && (w.users[name].status == Online || w.users[name].status == Away)
  }

  /**
   No eligible upload left waiting ranks above a started one: its user is not privileged, a friend or
   known to be online in preference to the started one's, and among equals the later upload was taken.
   */
  lemma ChosenAreHighest(w: World, ts: seq<Fields>, ranked: seq<nat>, chosen: seq<nat>, c: nat, v: nat)
    requires IsChosen(w, ts, ranked, chosen) && c in chosen && Eligible(w, ts, v) && v !in chosen
    ensures c < |ts| && v < |ts| && !Higher(w, ts[v].username, ts[c].username)
    ensures Higher(w, ts[c].username, ts[v].username) || c > v
    // privileged users before friends before those who are known to be online or away
    ensures IsPrivileged(w, ts[v].username) ==> IsPrivileged(w, ts[c].username)
    ensures IsPrivileged(w, ts[c].username) || ts[v].username !in w.friends || ts[c].username in w.friends
    ensures IsPrivileged(w, ts[c].username) || ts[c].username in w.friends ||
            !IsAround(w, ts[v].username) || IsAround(w, ts[c].username)
  {
    var a :| 0 <= a < |chosen| && chosen[a] == c;
    var b :| 0 <= b < |ranked| && ranked[b] == v;
    forall k | 0 <= k < |chosen| ensures ranked[k] != v {
      assert chosen[k] in chosen;
    }
    assert Below(w, ts, ranked[b], ranked[a]);
    RankIsLexicographic(w, ts[c].username, ts[v].username);
    RankIsLexicographic(w, ts[v].username, ts[c].username);
  }

  /** The uploads in progress */
  function InProgress(ts: seq<Fields>): set<int>
  {
    set i | 0 <= i < |ts| && ts[i].direction == Upload && ts[i].state in {Initializing, Uploading}
  }

  lemma {:induction false} CountIsInProgress(ts: seq<Fields>)
    requires forall i :: 0 <= i < |ts| ==> TransferLifecycle.Inv(ts[i])
    ensures CountProcessing(ts) == |InProgress(ts)|
  {
    if ts == [] {
      assert InProgress(ts) == {};
    } else {
      var init, last := ts[..|ts| - 1], ts[|ts| - 1];
      assert ts == init + [last];
      CountIsInProgress(init);
      CountAppend(init, last);
      InProgressAppend(init, last);
    }
  }

  lemma InProgressAppend(ts: seq<Fields>, t: Fields)
    requires TransferLifecycle.Inv(t)
    ensures |InProgress(ts + [t])| == |InProgress(ts)| + if ProcessingUpload(t) then 1 else 0
  {
    var more := ts + [t];
    assert forall i :: 0 <= i < |ts| ==> more[i] == ts[i];
    var added: set<int> := if ProcessingUpload(t) then {|ts|} else {};
    forall i ensures i in InProgress(more) <==> i in InProgress(ts) + added {
    }
    assert InProgress(more) == InProgress(ts) + added;
  }

  /** A queued upload of a user who is not known to be offline and has no upload in progress */
  ghost predicate IsWaiting(w: World, ts: seq<Fields>, i: nat)
  {
    && i < |ts| && ts[i].direction == Upload && ts[i].state == Queued
    && !(ts[i].username in w.users && w.users[ts[i].username].status == Offline)
    && forall j :: j in InProgress(ts) ==> ts[j].username != ts[i].username
  }

  lemma WaitingIsLeftOut(w: World, ts: seq<Fields>, ranked: seq<nat>, chosen: seq<nat>, i: nat) returns (k: nat)
    requires (forall i :: 0 <= i < |ts| ==> TransferLifecycle.Inv(ts[i])) && IsChosen(w, ts, ranked, chosen)
    requires Within(ts, chosen) && IsWaiting(w, Started(ts, chosen), i)
    ensures k in ranked && k !in chosen
  {
    var ts' := Started(ts, chosen);
    StartedAt(ts, chosen, i);
    k := FirstQueued(ts, ts[i].username, i);
    forall j | 0 <= j < |ts| && (j in chosen || ProcessingUpload(ts[j])) ensures ts[j].username != ts[i].username {
      StartedAt(ts, chosen, j);
      if j in chosen {
        assert j in ranked && Eligible(w, ts, j);
      }
      assert j in InProgress(ts');
    }
    assert Eligible(w, ts, k);
  }

  /** Nothing, or the first queued upload of a user who is not known to be offline is initialized. */
  predicate IsStart(w: World, ts: seq<Fields>, i: nat, t: Fields)
    requires i < |ts|
  {
    t == ts[i] ||
    (&& ts[i].direction == Upload && ts[i].state == Queued && t == ts[i].(state := Initializing)
     && !(ts[i].username in w.users && w.users[ts[i].username].status == Offline)
     && forall j :: 0 <= j < i && ts[j].direction == Upload && ts[j].state == Queued ==> ts[j].username != ts[i].username)
  }

  lemma OnlyStarts(w: World, ts: seq<Fields>, chosen: seq<nat>)
    requires Within(ts, chosen) && forall a :: 0 <= a < |chosen| ==> Eligible(w, ts, chosen[a])
    ensures forall i :: 0 <= i < |ts| ==> IsStart(w, ts, i, Started(ts, chosen)[i])
  {
    forall i | 0 <= i < |ts| ensures IsStart(w, ts, i, Started(ts, chosen)[i]) {
      StartedAt(ts, chosen, i);
      if i in chosen {
        assert Eligible(w, ts, i);
      }
    }
  }

  /**
   A cycle only turns queued uploads into initializing ones. Afterwards no slot is free while an upload waits
   that could go on, and no more slots are taken than there are, or than were taken before.
   */
  lemma CycleFillsSlots(w: World, ts: seq<Fields>, ranked: seq<nat>, chosen: seq<nat>)
    requires TransferSlots.Inv(ts, w.slots) && IsChosen(w, ts, ranked, chosen)
    ensures Within(ts, chosen)
    ensures var ts' := Started(ts, chosen);
            && (forall i :: 0 <= i < |ts| ==> IsStart(w, ts, i, ts'[i]))
            && (forall i :: IsWaiting(w, ts', i) ==> |InProgress(ts')| >= w.slots)
            && (|InProgress(ts')| <= w.slots || |InProgress(ts')| == |InProgress(ts)|)
  {
    CycleStarts(w, ts, ranked, chosen);
    CycleInv(w, ts, ranked, chosen);
    var ts' := Started(ts, chosen);
    CountIsInProgress(ts);
    CountIsInProgress(ts');
    OnlyStarts(w, ts, chosen);
    forall i | IsWaiting(w, ts', i) ensures |InProgress(ts')| >= w.slots {
      var k := WaitingIsLeftOut(w, ts, ranked, chosen, i);
      assert |chosen| < |ranked|;
    }
  }

  /** A cycle keeps the slots, the users and everything else in order. */
  lemma CycleInv(w: World, ts: seq<Fields>, ranked: seq<nat>, chosen: seq<nat>)
    requires TransferSlots.Inv(ts, w.slots) && IsChosen(w, ts, ranked, chosen)
    ensures Within(ts, chosen) && TransferSlots.Inv(Started(ts, chosen), w.slots)
  {
    CycleStarts(w, ts, ranked, chosen);
    DescendingDistinct(w, ts, ranked);
    EligibleByUser(w, ts, ranked);
    var ts' := Started(ts, chosen);
    forall i | 0 <= i < |ts|
      ensures ts'[i] == (if i in chosen then Step(ts[i], Initialize, 0.0) else ts[i])
      ensures TransferLifecycle.Inv(ts'[i]) && SameTransfer(ts'[i], ts[i])
      ensures ProcessingUpload(ts'[i]) <==> i in chosen || ProcessingUpload(ts[i])
      ensures i in chosen ==> Eligible(w, ts, i)
    {
      StartedAt(ts, chosen, i);
      if i in chosen {
        assert Eligible(w, ts, i);
        TransferLifecycle.StepInv(ts[i], Initialize, 0.0);
      }
    }
    forall i, j | 0 <= i < j < |ts| && ProcessingUpload(ts'[i]) && ProcessingUpload(ts'[j])
      ensures ts'[i].username != ts'[j].username
    {
      CycleUsers(w, ts, ranked, chosen, i, j);
    }
  }

  /** Two uploads that are in progress or chosen belong to different users. */
  lemma CycleUsers(w: World, ts: seq<Fields>, ranked: seq<nat>, chosen: seq<nat>, i: nat, j: nat)
    requires OneUploadPerUser(ts) && IsChosen(w, ts, ranked, chosen) && i < j < |ts|
    requires (i in chosen || ProcessingUpload(ts[i])) && (j in chosen || ProcessingUpload(ts[j]))
    ensures ts[i].username != ts[j].username
  {
    assert i in chosen ==> Eligible(w, ts, i);
    assert j in chosen ==> Eligible(w, ts, j);
  }

  // ---------------------------------------------------------------- reconciliation

  /** What decides whether an upload may go on: users blocked for uploads, and the shared items a user may see. */
  datatype Sharing = Sharing(blocked: set<Name>, shared: set<(string, Name)>)

  /** The first condition of _evaluate_aborted_state that applies. */
  function ReasonToAbort(s: Sharing, t: Fields): Option<string>
  {
    if t.abortReason == Some(REQUESTED) then Some(REQUESTED)
    else if t.username in s.blocked then Some(BLOCKED)
    else if (t.remotePath, t.username) !in s.shared then Some(NOT_SHARED)
    else None
  }

  predicate Reconcilable(t: Fields)
  {
    t.direction == Upload && t.state != Complete && t.state != Failed
  }

  /** One transfer after manage_shares_changed. */
  function Reconciled(s: Sharing, t: Fields, now: real): Fields
  {
    if !Reconcilable(t) then t
    else
      var reason := ReasonToAbort(s, t);
      if t.state == Aborted then
        if reason == None then Step(t, Queue(false), now) else t.(abortReason := reason)
      else if reason == None then t
      else Step(t, Abort(reason), now)
  }

  lemma ReconciledInv(s: Sharing, t: Fields, now: real)
    requires TransferLifecycle.Inv(t)
    ensures TransferLifecycle.Inv(Reconciled(s, t, now)) && SameTransfer(Reconciled(s, t, now), t)
    ensures ProcessingUpload(Reconciled(s, t, now)) ==> ProcessingUpload(t)
  {
    TransferLifecycle.StepInv(t, Queue(false), now);
    TransferLifecycle.StepInv(t, Abort(ReasonToAbort(s, t)), now);
  }

  /** The upload has been aborted on request, its user is blocked, or the file is not shared with the user. */
  predicate MustNotGoOn(s: Sharing, t: Fields)
  {
    t.abortReason == Some("Requested") || t.username in s.blocked || (t.remotePath, t.username) !in s.shared
  }

  /**
   After a pass an upload is ABORTED exactly when it must not go on, with the first of the reasons that applies,
   and an aborted one that may go on is queued again. This is so unless it is in a state that cannot be aborted,
   or that the pass leaves alone; then nothing changes, as for downloads.
   */
  lemma ReconciledExactly(s: Sharing, t: Fields, now: real)
    requires TransferLifecycle.Inv(t)
    ensures var t' := Reconciled(s, t, now);
            if t.direction == Download || t.state in {Virgin, Complete, Failed} then t' == t
            else
              && (t'.state == Aborted <==> MustNotGoOn(s, t))
              && (t'.state == Aborted ==>
                    t'.abortReason == if t.abortReason == Some("Requested") then Some("Requested")
                                      else if t.username in s.blocked then Some("Blocked") else Some("File not shared"))
              && (!MustNotGoOn(s, t) ==>
                    if t.state == Aborted then t'.state == Queued && t'.abortReason == None else t' == t)
    ensures t.direction == Upload ==>
              ((Reconciled(s, t, now).state == Aborted <==> MustNotGoOn(s, t)) <==>
               (!MustNotGoOn(s, t) || t.state !in {Virgin, Complete, Failed}))
  {
  }

  /** A second pass changes nothing. */
  lemma ReconciledIsFixpoint(s: Sharing, t: Fields, now: real, later: real)
    requires TransferLifecycle.Inv(t)
    ensures Reconciled(s, Reconciled(s, t, now), later) == Reconciled(s, t, now)
  {
    if Reconcilable(t) {
      var reason, t' := ReasonToAbort(s, t), Reconciled(s, t, now);
      if t.state == Aborted {
        if reason == None { QueuedFacts(t); }
        ReasonStays(s, t, t');
      } else if reason.Some? {
        AbortedFacts(t, reason, now);
        if t'.state == Aborted { ReasonStays(s, t, t'); }
      }
    }
  }

  lemma ReasonStays(s: Sharing, t: Fields, t': Fields)
    requires t'.username == t.username && t'.remotePath == t.remotePath && t'.abortReason == ReasonToAbort(s, t)
    ensures ReasonToAbort(s, t') == ReasonToAbort(s, t)
  {
  }

  lemma QueuedFacts(t: Fields)
    requires t.state == Aborted
    ensures var t' := Step(t, Queue(false), 0.0);
            && t'.state == Queued && t'.abortReason == None && t'.direction == t.direction
            && t'.username == t.username && t'.remotePath == t.remotePath
  {
  }

  /** An abort gives the state and the reason, or is not defined. */
  lemma AbortedFacts(t: Fields, reason: Option<string>, now: real)
    requires t.state != Aborted
    ensures var t' := Step(t, Abort(reason), now);
            if Target(t.state, t.direction, Abort(reason)) == None then t' == t
            else t'.state == Aborted && t'.abortReason == reason && t'.direction == t.direction &&
                 t'.username == t.username && t'.remotePath == t.remotePath
  {
  }

  // ---------------------------------------------------------------- the manager

  class TransferManager {
    var transfers: seq<Fields>

    constructor ()
      ensures transfers == []
    {
      transfers := [];
    }

    /** find_transfer, as a position */
    method Find(t: Fields) returns (found: Option<nat>)
      ensures match found
              case Some(i) => i < |transfers| && SameTransfer(transfers[i], t)
              case None => forall i :: 0 <= i < |transfers| ==> !SameTransfer(transfers[i], t)
    {
      for n := 0 to |transfers|
        invariant forall i :: 0 <= i < n ==> !SameTransfer(transfers[i], t)
      {
        if SameTransfer(transfers[n], t) {
          return Some(n);
        }
      }
      return None;
    }

    /** add: a transfer that is there already is returned instead. */
    method Add(t: Fields) returns (added: Fields)
      modifies this
      ensures transfers == Added(old(transfers), t)
      ensures SameTransfer(added, t) && added in transfers
    {
      var found := Find(t);
      match found {
        case Some(i) => added := transfers[i];
        case None =>
          transfers := transfers + [t];
          added := t;
      }
    }

    /** remove: abort on request, whether or not that is possible, and take it off the list. */
    method Remove(i: nat, now: real)
      requires i < |transfers|
      modifies this
      ensures transfers == old(transfers[..i] + transfers[i + 1..])
    {
      transfers := transfers[i := Step(transfers[i], Abort(Some(REQUESTED)), now)];
      transfers := transfers[..i] + transfers[i + 1..];
    }

    /** read_cache */
    method ReadCache(saved: seq<Saved>)
      modifies this
      ensures transfers == AllAdded(old(transfers), saved)
    {
      for n := 0 to |saved|
        invariant transfers == AllAdded(old(transfers), saved[..n])
      {
        assert saved[..n + 1][..n] == saved[..n];
        var _ := Add(Loaded(Restore(saved[n])));
      }
      assert saved[..|saved|] == saved;
    }

    /** What the new asyncio tasks do first to the chosen uploads. */
    method StartUploads(chosen: seq<nat>)
      requires Within(transfers, chosen) && TransferSlots.Distinct(chosen)
      modifies this
      ensures transfers == Started(old(transfers), chosen)
    {
      ghost var ts := transfers;
      for n := 0 to |chosen|
        invariant transfers == Started(ts, chosen[..n])
      {
        assert chosen[..n + 1][..n] == chosen[..n];
        assert chosen[n] !in chosen[..n];
        StartedAt(ts, chosen[..n], chosen[n]);
        transfers := transfers[chosen[n] := Step(transfers[chosen[n]], Initialize, 0.0)];
      }
      assert chosen[..|chosen|] == chosen;
    }

    /** manage_transfers, with the first step of every task it starts for an upload */
    method ManageTransfers(w: World) returns (downloads: seq<nat>, ghost ranked: seq<nat>, chosen: seq<nat>)
      modifies this
      ensures forall i: nat :: i in downloads <==> EligibleDownload(w, old(transfers), i)
      ensures IsChosen(w, old(transfers), ranked, chosen)
      ensures Within(old(transfers), chosen) && transfers == Started(old(transfers), chosen)
    {
      var uploads;
      downloads, uploads := GetQueuedTransfers(w, transfers);
      assert forall a :: 0 <= a < |uploads| ==> uploads[a] in uploads;
      var order := PrioritizeUploads(w, transfers, uploads);
      ranked := order;
      chosen := order[..Min(FreeSlots(w, transfers), |order|)];
      CycleStarts(w, transfers, ranked, chosen);
      DescendingDistinct(w, transfers, ranked);
      StartUploads(chosen);
    }

    /** The evaluation loop of manage_shares_changed: calls to make, and new reasons for aborted uploads. */
    method Evaluate(s: Sharing, now: real) returns (tasks: seq<Task>)
      modifies this
      ensures |transfers| == |old(transfers)|
      ensures forall i :: 0 <= i < |transfers| ==> Pending(s, old(transfers)[i], transfers[i], CallFor(tasks, i), now)
      ensures forall a, b :: 0 <= a < b < |tasks| ==> tasks[a].index < tasks[b].index
      ensures forall a :: 0 <= a < |tasks| ==> tasks[a].index < |transfers|
    {
      tasks := [];
      ghost var ts := transfers;
      for n := 0 to |transfers|
        invariant |transfers| == |ts| && forall i :: n <= i < |ts| ==> transfers[i] == ts[i]
        invariant forall a :: 0 <= a < |tasks| ==> tasks[a].index < n
        invariant forall a, b :: 0 <= a < b < |tasks| ==> tasks[a].index < tasks[b].index
        invariant forall i :: 0 <= i < n ==> Pending(s, ts[i], transfers[i], CallFor(tasks, i), now)
      {
        var upload := transfers[n];
        NoCallFor(tasks, n);
        if Reconcilable(upload) {
          var reason := ReasonToAbort(s, upload);
          if (upload.state == Aborted) != (reason != None) {
            var task := Task(n, if upload.state == Aborted then Queue(false) else Abort(reason));
            forall i | 0 <= i <= n ensures CallFor(tasks + [task], i) == if i == n then Some(task.call) else CallFor(tasks, i) {
              CallForMore(tasks, task, i);
            }
            tasks := tasks + [task];
          } else if reason != None {
            transfers := transfers[n := upload.(abortReason := reason)];
          }
        }
      }
    }

    /** manage_shares_changed: every upload is evaluated first, the calls are made afterwards. */
    method ManageSharesChanged(s: Sharing, now: real)
      modifies this
      ensures |transfers| == |old(transfers)|
      ensures forall i :: 0 <= i < |transfers| ==> transfers[i] == Reconciled(s, old(transfers)[i], now)
    {
      ghost var ts := transfers;
      var tasks := Evaluate(s, now);
      for m := 0 to |tasks|
        invariant |transfers| == |ts|
        invariant forall i :: 0 <= i < |ts| ==> Pending(s, ts[i], transfers[i], CallFor(tasks[m..], i), now)
      {
        var i := tasks[m].index;
        assert tasks[m..][0] == tasks[m] && tasks[m..][1..] == tasks[m + 1..];
        NoCallFor(tasks[m + 1..], i);
        transfers := transfers[i := Step(transfers[i], tasks[m].call, now)];
      }
    }
  }

  // ---------------------------------------------------------------- adding and loading

  ghost predicate Listed(ts: seq<Fields>, t: Fields)
  {
    exists i :: 0 <= i < |ts| && SameTransfer(ts[i], t)
  }

  ghost function Added(ts: seq<Fields>, t: Fields): seq<Fields>
  {
    if Listed(ts, t) then ts else ts + [t]
  }

  ghost function AllAdded(ts: seq<Fields>, saved: seq<Saved>): seq<Fields>
  {
    if saved == [] then ts else Added(AllAdded(ts, saved[..|saved| - 1]), Loaded(Restore(saved[|saved| - 1])))
  }

  /** A transfer is added behind the others unless one with the same file, user and direction is there. */
  lemma AddedIs(ts: seq<Fields>, t: Fields)
    ensures Added(ts, t) == ts + [t] <==>
            forall i :: 0 <= i < |ts| ==>
              ts[i].remotePath != t.remotePath || ts[i].username != t.username || ts[i].direction != t.direction
    ensures Added(ts, t) == ts + [t] || Added(ts, t) == ts
  {
    assert |ts + [t]| != |ts|;
    if Listed(ts, t) {
      var i :| 0 <= i < |ts| && SameTransfer(ts[i], t);
    }
    forall i | 0 <= i < |ts| && ts[i].remotePath == t.remotePath && ts[i].username == t.username && ts[i].direction == t.direction
      ensures Listed(ts, t)
    {
      assert SameTransfer(ts[i], t);
    }
  }

  // ---------------------------------------------------------------- downloads that are tried again

  /**
   A download that was interrupted, or failed without a reason, is queued remotely again, as starting it has
   cleared the mark of being queued; one that failed with a reason is not.
   */
  lemma RetriedExactly(w: World, t: Fields, reason: Option<string>, now: real)
    requires TransferLifecycle.Inv(t) && t.direction == Download && t.state == Initializing
    ensures var started := Step(t, StartTransferring, now);
            var offline := t.username in w.users && w.users[t.username].status == Offline;
            && (EligibleDownload(w, [Step(started, Interrupt, now)], 0) <==> !offline)
            && (EligibleDownload(w, [Step(started, Fail(reason), now)], 0) <==> !offline && reason == None)
            && (EligibleDownload(w, [Step(Step(started, Interrupt, now), Queue(true), now)], 0) <==> false)
            && (EligibleDownload(w, [Step(Step(started, Interrupt, now), Queue(false), now)], 0) <==> !offline)
            && !EligibleDownload(w, [started], 0)
  {
  }

  /**
   After loading, every saved transfer is listed once, and nothing is being processed, whatever the state
   of the transfers was when they were saved.
   */
  lemma {:induction false} LoadedList(saved: seq<Saved>)
    requires forall s :: s in saved ==> TransferLifecycle.Inv(s.fields)
    ensures var ts := AllAdded([], saved);
            && NoDuplicates(ts)
            && (forall i :: 0 <= i < |ts| ==> TransferLifecycle.Inv(ts[i]) && !IsProcessing(ts[i].state))
            && (forall s :: s in saved ==> Listed(ts, s.fields))
  {
    if saved != [] {
      var init := saved[..|saved| - 1];
      var last := saved[|saved| - 1];
      assert saved == init + [last];
      LoadedList(init);
      var before := AllAdded([], init);
      var t := Loaded(Restore(last));
      assert TransferLifecycle.Inv(Restore(last));
      TransferLifecycle.LoadedIsIdle(Restore(last));
      TransferLifecycle.ApplyInv(last.fields, TransferLifecycle.Reloaded(last.hasAbortReason));
      var ts := Added(before, t);
      assert |ts| > |before| ==> SameTransfer(ts[|before|], t);
      assert Listed(ts, t);
      forall s | s in init ensures Listed(ts, s.fields) {
        var i :| 0 <= i < |before| && SameTransfer(before[i], s.fields);
        assert SameTransfer(ts[i], s.fields);
      }
    }
  }

  // ---------------------------------------------------------------- pending calls

  datatype Task = Task(index: nat, call: Call)

  /** The call that is to be made on transfer i. */
  function CallFor(tasks: seq<Task>, i: nat): Option<Call>
  {
    if tasks == [] then None
    else if tasks[0].index == i then Some(tasks[0].call)
    else CallFor(tasks[1..], i)
  }

  /** Either a transfer has its new value already, or the pending call gives it. */
  predicate Pending(s: Sharing, was: Fields, t: Fields, call: Option<Call>, now: real)
  {
    match call
    case None => t == Reconciled(s, was, now)
    case Some(c) => t == was && Step(was, c, now) == Reconciled(s, was, now)
  }

  lemma {:induction false} CallForMore(tasks: seq<Task>, t: Task, i: nat)
    requires forall a :: 0 <= a < |tasks| ==> tasks[a].index != t.index
    ensures CallFor(tasks + [t], i) == if t.index == i then Some(t.call) else CallFor(tasks, i)
  {
    if tasks == [] {
      assert tasks + [t] == [t];
      assert CallFor([t][1..], i) == None;
    } else {
      assert (tasks + [t])[1..] == tasks[1..] + [t];
      CallForMore(tasks[1..], t, i);
    }
  }

  lemma {:induction false} NoCallFor(tasks: seq<Task>, i: nat)
    requires forall a :: 0 <= a < |tasks| ==> tasks[a].index != i
    ensures CallFor(tasks, i) == None
  {
    if tasks != [] {
      NoCallFor(tasks[1..], i);
    }
  }
}

/**
 Runs of a transfer manager with a fixed number of upload slots. Each management cycle is one step together
 with the first step of every task it starts; between cycles anything may happen to any transfer, except
 that only a cycle initializes uploads.
 */
module TransferRuns {

  import opened Wrappers
  import opened TransferState
  import TransferLifecycle
  import opened TransferScheduler
  import opened TransferSlots
  import opened TransferManager

  datatype Event =
    | Add(t: Fields)
    | Remove(index: nat)
    | Happened(index: nat, what: TransferLifecycle.Event)
    | Cycle(w: World)
    | SharesChanged(sharing: Sharing, now: real)
    | Restart(storedReasons: bool)

  ghost predicate Next(ts: seq<Fields>, e: Event, ts': seq<Fields>, slots: int)
  {
    match e
    case Add(t) => t.state == Virgin && TransferLifecycle.Inv(t) && ts' == Added(ts, t)
    case Remove(i) => i < |ts| && ts' == ts[..i] + ts[i + 1..]
    case Happened(i, what) =>
      && i < |ts|
      && !(ts[i].direction == Upload && what.Called? && what.call == Initialize)
      && ts' == ts[i := TransferLifecycle.Apply(ts[i], what)]
    case Cycle(w) =>
      w.slots == slots &&
      exists ranked, chosen :: IsChosen(w, ts, ranked, chosen) && Within(ts, chosen) && ts' == Started(ts, chosen)
    case SharesChanged(s, now) =>
      |ts'| == |ts| && forall i :: 0 <= i < |ts| ==> ts'[i] == Reconciled(s, ts[i], now)
    case Restart(stored) =>
      ts' == AllAdded([], seq(|ts|, i requires 0 <= i < |ts| => Saved(ts[i], stored)))
  }

  // ---------------------------------------------------------------- every step

  lemma AddedInv(ts: seq<Fields>, t: Fields, slots: int)
    requires TransferSlots.Inv(ts, slots) && t.state == Virgin && TransferLifecycle.Inv(t)
    ensures TransferSlots.Inv(Added(ts, t), slots)
  {
    CountAppend(ts, t);
    forall i | 0 <= i < |ts| && !Listed(ts, t) ensures !SameTransfer(ts[i], t) {}
  }

  lemma RemovedInv(ts: seq<Fields>, i: nat, slots: int)
    requires TransferSlots.Inv(ts, slots) && i < |ts|
    ensures TransferSlots.Inv(ts[..i] + ts[i + 1..], slots)
  {
    CountRemove(ts, i);
    var r := ts[..i] + ts[i + 1..];
    assert forall k :: 0 <= k < |r| ==> r[k] == ts[if k < i then k else k + 1];
  }

  lemma ApplySame(t: Fields, what: TransferLifecycle.Event)
    ensures SameTransfer(TransferLifecycle.Apply(t, what), t)
  {
  }

  lemma NotStarted(t: Fields, what: TransferLifecycle.Event)
    requires TransferLifecycle.Inv(t) && !(t.direction == Upload && what.Called? && what.call == Initialize)
    ensures ProcessingUpload(TransferLifecycle.Apply(t, what)) ==> ProcessingUpload(t)
  {
    ApplySame(t, what);
    if ProcessingUpload(TransferLifecycle.Apply(t, what)) && !ProcessingUpload(t) {
      OnlyInitializeStarts(t, what);
    }
  }

  lemma HappenedInv(ts: seq<Fields>, i: nat, what: TransferLifecycle.Event, slots: int)
    requires TransferSlots.Inv(ts, slots) && i < |ts|
    requires !(ts[i].direction == Upload && what.Called? && what.call == Initialize)
    ensures TransferSlots.Inv(ts[i := TransferLifecycle.Apply(ts[i], what)], slots)
  {
    TransferLifecycle.ApplyInv(ts[i], what);
    ApplySame(ts[i], what);
    NotStarted(ts[i], what);
    UpdateInv(ts, slots, i, TransferLifecycle.Apply(ts[i], what));
  }

  /** Replacing every transfer by one that is the same and in progress only if it was before. */
  lemma {:induction false} CountMapped(ts: seq<Fields>, ts': seq<Fields>)
    requires |ts'| == |ts| && forall i :: 0 <= i < |ts| && ProcessingUpload(ts'[i]) ==> ProcessingUpload(ts[i])
    ensures CountProcessing(ts') <= CountProcessing(ts)
  {
    if ts != [] {
      CountMapped(ts[1..], ts'[1..]);
    }
  }

  lemma ReconciledListInv(ts: seq<Fields>, ts': seq<Fields>, s: Sharing, now: real, slots: int)
    requires TransferSlots.Inv(ts, slots)
    requires |ts'| == |ts| && forall i :: 0 <= i < |ts| ==> ts'[i] == Reconciled(s, ts[i], now)
    ensures TransferSlots.Inv(ts', slots)
  {
    forall i | 0 <= i < |ts|
      ensures TransferLifecycle.Inv(ts'[i]) && SameTransfer(ts'[i], ts[i])
      ensures ProcessingUpload(ts'[i]) ==> ProcessingUpload(ts[i])
    {
      ReconciledInv(s, ts[i], now);
    }
    CountMapped(ts, ts');
  }

  lemma {:induction false} NoneProcessing(ts: seq<Fields>)
    requires forall i :: 0 <= i < |ts| ==> !IsProcessing(ts[i].state)
    ensures CountProcessing(ts) == 0
  {
    if ts != [] {
      NoneProcessing(ts[1..]);
    }
  }

  lemma StepInv(ts: seq<Fields>, e: Event, ts': seq<Fields>, slots: int)
    requires TransferSlots.Inv(ts, slots) && Next(ts, e, ts', slots)
    ensures TransferSlots.Inv(ts', slots)
  {
    match e
    case Add(t) => AddedInv(ts, t, slots);
    case Remove(i) => RemovedInv(ts, i, slots);
    case Happened(i, what) => HappenedInv(ts, i, what, slots);
    case Cycle(w) =>
      var ranked, chosen :| IsChosen(w, ts, ranked, chosen) && Within(ts, chosen) && ts' == Started(ts, chosen);
      CycleInv(w, ts, ranked, chosen);
    case SharesChanged(s, now) => ReconciledListInv(ts, ts', s, now, slots);
    case Restart(stored) =>
      var saved := seq(|ts|, i requires 0 <= i < |ts| => Saved(ts[i], stored));
      LoadedList(saved);
      NoneProcessing(ts');
  }

  // ---------------------------------------------------------------- whole runs

  /** states[k + 1] follows from states[k] by events[k]. */
  ghost predicate IsRun(states: seq<seq<Fields>>, events: seq<Event>, slots: int)
  {
    && |states| == |events| + 1
    && states[0] == []
    && forall k :: 0 <= k < |events| ==> Next(states[k], events[k], states[k + 1], slots)
  }

  /**
   At every moment of every run: uploads in progress never exceed the slots, no user has two of them, no two
   transfers are for the same file, user and direction, and every transfer is in order.
   */
  lemma {:induction false} RunInv(states: seq<seq<Fields>>, events: seq<Event>, slots: int, k: nat)
    requires IsRun(states, events, slots) && k <= |events|
    ensures CountProcessing(states[k]) <= Max0(slots) && OneUploadPerUser(states[k]) && NoDuplicates(states[k])
    ensures TransferSlots.Inv(states[k], slots)
  {
    if k > 0 {
      RunInv(states, events, slots, k - 1);
      StepInv(states[k - 1], events[k - 1], states[k], slots);
    }
  }
}

/**
 What the scheduler achieves: how many uploads a management cycle starts and which, and what every run of
 the manager keeps about slots, users and the identity of transfers.
 */
module TransferSlots {

  import opened Wrappers
  import opened TransferState
  import TransferLifecycle
  import opened TransferScheduler

  // ---------------------------------------------------------------- counting

  function CountProcessing(ts: seq<Fields>): nat
  {
    if ts == [] then 0 else (if ProcessingUpload(ts[0]) then 1 else 0) + CountProcessing(ts[1..])
  }

  function Max0(n: int): nat
  {
    if n < 0 then 0 else n
  }

  function Min(a: nat, b: nat): nat
  {
    if a < b then a else b
  }

  /** get_free_upload_slots */
  function FreeSlots(w: World, ts: seq<Fields>): nat
  {
    Max0(w.slots - CountProcessing(ts))
  }

  lemma {:induction false} CountUpdate(ts: seq<Fields>, i: nat, t: Fields)
    requires i < |ts|
    ensures CountProcessing(ts[i := t]) ==
            CountProcessing(ts) - (if ProcessingUpload(ts[i]) then 1 else 0) + (if ProcessingUpload(t) then 1 else 0)
  {
    if i == 0 {
      assert ts[0 := t][1..] == ts[1..];
    } else {
      assert ts[i := t][1..] == ts[1..][i - 1 := t];
      CountUpdate(ts[1..], i - 1, t);
    }
  }

  lemma {:induction false} CountAppend(ts: seq<Fields>, t: Fields)
    ensures CountProcessing(ts + [t]) == CountProcessing(ts) + (if ProcessingUpload(t) then 1 else 0)
  {
    if ts == [] {
      assert ([] + [t])[1..] == [] && [] + [t] == [t];
    } else {
      assert (ts + [t])[1..] == ts[1..] + [t];
      CountAppend(ts[1..], t);
    }
  }

  lemma {:induction false} CountRemove(ts: seq<Fields>, i: nat)
    requires i < |ts|
    ensures CountProcessing(ts[..i] + ts[i + 1..]) == CountProcessing(ts) - (if ProcessingUpload(ts[i]) then 1 else 0)
  {
    if i == 0 {
      assert ts[..0] + ts[1..] == ts[1..];
    } else {
      assert (ts[..i] + ts[i + 1..])[1..] == ts[1..][..i - 1] + ts[1..][i..];
      CountRemove(ts[1..], i - 1);
    }
  }

  // ---------------------------------------------------------------- starting uploads

  /** The transfers after the first step of the asyncio tasks started for some of them. */
  function Started(ts: seq<Fields>, chosen: seq<nat>): (r: seq<Fields>)
    requires Within(ts, chosen)
    ensures |r| == |ts|
  {
    if chosen == [] then ts
    else Started(ts, chosen[..|chosen| - 1])[chosen[|chosen| - 1] := Step(ts[chosen[|chosen| - 1]], Initialize, 0.0)]
  }

  predicate Distinct(s: seq<nat>)
  {
    forall a, b :: 0 <= a < b < |s| ==> s[a] != s[b]
  }

  /** Chosen transfers are initialized, the others untouched. */
  lemma {:induction false} StartedAt(ts: seq<Fields>, chosen: seq<nat>, i: nat)
    requires Within(ts, chosen) && i < |ts|
    ensures Started(ts, chosen)[i] == if i in chosen then Step(ts[i], Initialize, 0.0) else ts[i]
  {
    if chosen != [] {
      var init := chosen[..|chosen| - 1];
      assert chosen == init + [chosen[|chosen| - 1]];
      StartedAt(ts, init, i);
    }
  }

  lemma {:induction false} StartedCount(ts: seq<Fields>, chosen: seq<nat>)
    requires Within(ts, chosen) && Distinct(chosen) && forall a :: 0 <= a < |chosen| ==> QueuedUpload(ts[chosen[a]])
    ensures CountProcessing(Started(ts, chosen)) == CountProcessing(ts) + |chosen|
  {
    if chosen != [] {
      var init := chosen[..|chosen| - 1];
      var last := chosen[|chosen| - 1];
      assert forall a :: 0 <= a < |init| ==> init[a] == chosen[a];
      StartedCount(ts, init);
      StartedAt(ts, init, last);
      CountUpdate(Started(ts, init), last, Step(ts[last], Initialize, 0.0));
    }
  }

  // ---------------------------------------------------------------- the eligible users

  /** Users with a queued upload who are not offline and have no upload in progress. */
  function EligibleUsers(w: World, ts: seq<Fields>): set<Name>
  {
    set t | t in ts && QueuedUpload(t) && !IsOffline(w, t.username) && !IsUploading(ts, t.username) :: t.username
  }

  function Usernames(ts: seq<Fields>, s: seq<nat>): set<Name>
    requires Within(ts, s)
  {
    set a | 0 <= a < |s| :: ts[s[a]].username
  }

  lemma {:induction false} DistinctUsernames(ts: seq<Fields>, s: seq<nat>)
    requires Within(ts, s) && forall a, b :: 0 <= a < b < |s| ==> ts[s[a]].username != ts[s[b]].username
    ensures |Usernames(ts, s)| == |s|
  {
    if s == [] {
      assert Usernames(ts, s) == {};
    } else {
      var init := s[..|s| - 1];
      assert forall a :: 0 <= a < |init| ==> init[a] == s[a];
      DistinctUsernames(ts, init);
      assert Usernames(ts, s) == Usernames(ts, init) + {ts[s[|s| - 1]].username};
      assert ts[s[|s| - 1]].username !in Usernames(ts, init);
    }
  }

  /** The first queued upload of a user. */
  lemma {:induction false} FirstQueued(ts: seq<Fields>, name: Name, j: nat) returns (i: nat)
    requires j < |ts| && QueuedUpload(ts[j]) && ts[j].username == name
    ensures i <= j && QueuedUpload(ts[i]) && ts[i].username == name
    ensures forall k :: 0 <= k < i && QueuedUpload(ts[k]) ==> ts[k].username != name
  {
    if k: nat :| k < j && QueuedUpload(ts[k]) && ts[k].username == name {
      i := FirstQueued(ts, name, k);
    } else {
      i := j;
    }
  }

  /** One upload is eligible for every eligible user. */
  lemma EligibleByUser(w: World, ts: seq<Fields>, s: seq<nat>)
    requires forall i: nat :: i in s <==> Eligible(w, ts, i)
    requires Distinct(s)
    ensures Within(ts, s) && |s| == |EligibleUsers(w, ts)|
    ensures forall a, b :: 0 <= a < b < |s| ==> ts[s[a]].username != ts[s[b]].username
  {
    forall a | 0 <= a < |s| ensures Eligible(w, ts, s[a]) { assert s[a] in s; }
    forall a, b | 0 <= a < b < |s| ensures ts[s[a]].username != ts[s[b]].username {
      assert Eligible(w, ts, s[a]) && Eligible(w, ts, s[b]) && s[a] != s[b];
    }
    DistinctUsernames(ts, s);
    forall name ensures name in EligibleUsers(w, ts) <==> name in Usernames(ts, s) {
      if name in EligibleUsers(w, ts) {
        var j :| 0 <= j < |ts| && QueuedUpload(ts[j]) && ts[j].username == name;
        var i := FirstQueued(ts, name, j);
        assert Eligible(w, ts, i);
        assert i in s;
      }
    }
    assert EligibleUsers(w, ts) == Usernames(ts, s);
  }

  // ---------------------------------------------------------------- the invariant of the list

  predicate SameTransfer(a: Fields, b: Fields)
  {
    a.remotePath == b.remotePath && a.username == b.username && a.direction == b.direction
  }

  predicate NoDuplicates(ts: seq<Fields>)
  {
    forall i, j :: 0 <= i < j < |ts| ==> !SameTransfer(ts[i], ts[j])
  }

  predicate OneUploadPerUser(ts: seq<Fields>)
  {
    forall i, j :: 0 <= i < j < |ts| && ProcessingUpload(ts[i]) && ProcessingUpload(ts[j]) ==>
      ts[i].username != ts[j].username
  }

  predicate Inv(ts: seq<Fields>, slots: int)
  {
    && (forall i :: 0 <= i < |ts| ==> TransferLifecycle.Inv(ts[i]))
    && NoDuplicates(ts)
    && OneUploadPerUser(ts)
    && CountProcessing(ts) <= Max0(slots)
  }

  /** A replacement of one transfer that does not start an upload. */
  lemma UpdateInv(ts: seq<Fields>, slots: int, i: nat, t: Fields)
    requires Inv(ts, slots) && i < |ts| && TransferLifecycle.Inv(t) && SameTransfer(t, ts[i])
    requires ProcessingUpload(t) ==> ProcessingUpload(ts[i])
    ensures Inv(ts[i := t], slots)
  {
    CountUpdate(ts, i, t);
  }

  /** Whatever happens to a transfer, an upload only gets to be processed by being initialized. */
  lemma OnlyInitializeStarts(t: Fields, e: TransferLifecycle.Event)
    requires TransferLifecycle.Inv(t) && ProcessingUpload(TransferLifecycle.Apply(t, e)) && !ProcessingUpload(t)
    ensures e.Called? && e.call == Initialize
  {
    if e.Called? {
      TransferLifecycle.StepFollowsRelation(t, e.call, e.now);
    }
  }
}

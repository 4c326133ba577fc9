/**
 Which queued uploads are started: _get_queued_transfers, _prioritize_uploads and manage_transfers, on a list
 of transfers. Positions in the list stand for the transfer objects.
 */
module TransferScheduler {

  import opened Wrappers
  import opened TransferState

  datatype Status = Online | Away | Offline | Unknown

  datatype User = User(status: Status, privileged: bool)

  /** What the scheduler asks of the user manager and the settings. */
  datatype World = World(users: map<Name, User>, friends: set<Name>, slots: int)

  /** get_user_object: a user that is not tracked is unknown. */
  function UserOf(w: World, name: Name): User
  {
    if name in w.users then w.users[name] else User(Unknown, false)
  }

  // ---------------------------------------------------------------- eligible transfers

  predicate ProcessingUpload(t: Fields)
  {
    t.direction == Upload && IsProcessing(t.state)
  }

  predicate QueuedUpload(t: Fields)
  {
    t.direction == Upload && t.state == Queued
  }

  predicate IsUploading(ts: seq<Fields>, name: Name)
  {
    exists j :: 0 <= j < |ts| && ProcessingUpload(ts[j]) && ts[j].username == name
  }

  predicate IsOffline(w: World, name: Name)
  {
    UserOf(w, name).status == Offline
  }

  /** The first queued upload of a user who is not offline and has no upload in progress. */
  predicate Eligible(w: World, ts: seq<Fields>, i: nat)
  {
    && i < |ts|
    && QueuedUpload(ts[i])
    && !IsOffline(w, ts[i].username)
    && !IsUploading(ts, ts[i].username)
    && forall j :: 0 <= j < i && QueuedUpload(ts[j]) ==> ts[j].username != ts[i].username
  }

  /** A download to be queued remotely: queued, interrupted, or failed without a reason. */
  predicate EligibleDownload(w: World, ts: seq<Fields>, i: nat)
  {
    && i < |ts|
    && ts[i].direction == Download && !ts[i].remotelyQueued && !IsOffline(w, ts[i].username)
    && (ts[i].state in {Queued, Incomplete} || (ts[i].state == Failed && ts[i].failReason == None))
  }

  predicate Increasing(s: seq<nat>)
  {
    forall a, b :: 0 <= a < b < |s| ==> s[a] < s[b]
  }

  /** _get_queued_transfers, before the uploads are ranked */
  method GetQueuedTransfers(w: World, ts: seq<Fields>) returns (downloads: seq<nat>, uploads: seq<nat>)
    ensures Increasing(downloads) && forall i: nat :: i in downloads <==> EligibleDownload(w, ts, i)
    ensures Increasing(uploads) && forall i: nat :: i in uploads <==> Eligible(w, ts, i)
  {
    var uploadingUsers := set t | t in ts && ProcessingUpload(t) :: t.username;
    assert forall name :: name in uploadingUsers <==> IsUploading(ts, name);
    var usersWithQueuedUpload: set<Name> := {};
    downloads, uploads := [], [];
    for n := 0 to |ts|
      invariant Increasing(downloads) && (forall a :: 0 <= a < |downloads| ==> downloads[a] < n)
      invariant Increasing(uploads) && (forall a :: 0 <= a < |uploads| ==> uploads[a] < n)
      invariant forall i: nat :: i in downloads <==> i < n && EligibleDownload(w, ts, i)
      invariant forall i: nat :: i in uploads <==> i < n && Eligible(w, ts, i)
      invariant forall name :: name in usersWithQueuedUpload <==>
                  !IsOffline(w, name) && !IsUploading(ts, name) &&
                  exists j :: 0 <= j < n && QueuedUpload(ts[j]) && ts[j].username == name
    {
      var transfer := ts[n];
      if UserOf(w, transfer.username).status == Offline {
        continue;
      }
      if transfer.direction == Upload {
        if transfer.username in uploadingUsers {
          continue;
        }
        if transfer.username in usersWithQueuedUpload {
          continue;
        }
        if transfer.state == Queued {
          usersWithQueuedUpload := usersWithQueuedUpload + {transfer.username};
          uploads := uploads + [n];
        }
      } else {
        if transfer.remotelyQueued {
          continue;
        }
        if transfer.state in {Queued, Incomplete} {
          downloads := downloads + [n];
        } else if transfer.state == Failed && transfer.failReason == None {
          downloads := downloads + [n];
        }
      }
    }
  }

  // ---------------------------------------------------------------- ranking

  function Rank(w: World, name: Name): int
  {
    (if UserOf(w, name).status in {Online, Away} then 1 else 0) + (if name in w.friends then 5 else 0) +
    (if UserOf(w, name).privileged then 100 else 0)
  }

  /** Privileged users first, then friends, then users known to be online or away. */
  predicate Higher(w: World, a: Name, b: Name)
  {
    var pa, pb := UserOf(w, a).privileged, UserOf(w, b).privileged;
    var fa, fb := a in w.friends, b in w.friends;
    var oa, ob := UserOf(w, a).status in {Online, Away}, UserOf(w, b).status in {Online, Away};
    if pa != pb then pa else if fa != fb then fa else oa && !ob
  }

  /** The weights 100, 5 and 1 make the sum of ranks a lexicographic order. */
  lemma RankIsLexicographic(w: World, a: Name, b: Name)
    ensures Higher(w, a, b) <==> Rank(w, a) > Rank(w, b)
  {
  }

  /** Ascending rank, and the order of the list among equals. */
  predicate Below(w: World, ts: seq<Fields>, u: nat, v: nat)
  {
    && u < |ts| && v < |ts|
    && (Rank(w, ts[u].username) < Rank(w, ts[v].username) ||
        (Rank(w, ts[u].username) == Rank(w, ts[v].username) && u < v))
  }

  predicate Within(ts: seq<Fields>, s: seq<nat>)
  {
    forall a :: 0 <= a < |s| ==> s[a] < |ts|
  }

  predicate Ascending(w: World, ts: seq<Fields>, s: seq<nat>)
  {
    forall a, b :: 0 <= a < b < |s| ==> Below(w, ts, s[a], s[b])
  }

  /** One step of a stable sort by rank: after the last element that does not rank higher. */
  function Insert(w: World, ts: seq<Fields>, s: seq<nat>, x: nat): (r: seq<nat>)
    requires Within(ts, s) && x < |ts|
    ensures |r| == |s| + 1 && Within(ts, r)
    ensures forall u: nat :: u in r <==> u in s || u == x
  {
    if s == [] then [x]
    else
      var last := s[|s| - 1];
      assert s == s[..|s| - 1] + [last];
      if Rank(w, ts[last].username) <= Rank(w, ts[x].username) then s + [x]
      else Insert(w, ts, s[..|s| - 1], x) + [last]
  }

  lemma {:induction false} InsertAscending(w: World, ts: seq<Fields>, s: seq<nat>, x: nat)
    requires Within(ts, s) && x < |ts| && Ascending(w, ts, s) && forall a :: 0 <= a < |s| ==> s[a] < x
    ensures Ascending(w, ts, Insert(w, ts, s, x))
  {
    if s != [] {
      var last := s[|s| - 1];
      var init := s[..|s| - 1];
      assert s == init + [last];
      if Rank(w, ts[last].username) > Rank(w, ts[x].username) {
        InsertAscending(w, ts, init, x);
        var r := Insert(w, ts, init, x);
        forall a | 0 <= a < |r| ensures Below(w, ts, r[a], last) {
          assert r[a] in r;
          if r[a] in init {
            var b :| 0 <= b < |init| && init[b] == r[a];
            assert Below(w, ts, s[b], s[|s| - 1]);
          }
        }
      } else {
        forall a | 0 <= a < |s| ensures Below(w, ts, s[a], x) {
          assert a < |s| - 1 ==> Below(w, ts, s[a], s[|s| - 1]);
          assert s[a] < x;
        }
      }
    }
  }

  /** Descending rank; among equals the later transfer comes first. */
  predicate Descending(w: World, ts: seq<Fields>, s: seq<nat>)
  {
    forall a, b :: 0 <= a < b < |s| ==> Below(w, ts, s[b], s[a])
  }

  /** _prioritize_uploads: a stable sort by rank, reversed */
  method PrioritizeUploads(w: World, ts: seq<Fields>, uploads: seq<nat>) returns (ranked: seq<nat>)
    requires Within(ts, uploads) && Increasing(uploads)
    ensures |ranked| == |uploads| && (forall u: nat :: u in ranked <==> u in uploads)
    ensures Descending(w, ts, ranked)
  {
    var ranking: seq<nat> := [];
    for n := 0 to |uploads|
      invariant |ranking| == n && forall u: nat :: u in ranking <==> u in uploads[..n]
      invariant Within(ts, ranking) && Ascending(w, ts, ranking)
    {
      forall a | 0 <= a < |ranking| ensures ranking[a] < uploads[n] {
        assert ranking[a] in uploads[..n];
      }
      InsertAscending(w, ts, ranking, uploads[n]);
      assert uploads[..n + 1] == uploads[..n] + [uploads[n]];
      ranking := Insert(w, ts, ranking, uploads[n]);
    }
    assert uploads[..|uploads|] == uploads;
    ranked := Reversed(ranking);
  }

  function Reversed(s: seq<nat>): (r: seq<nat>)
    ensures |r| == |s| && forall i :: 0 <= i < |s| ==> r[i] == s[|s| - 1 - i]
    ensures forall u: nat :: u in r <==> u in s
  {
    var r := seq(|s|, i requires 0 <= i < |s| => s[|s| - 1 - i]);
    assert forall i :: 0 <= i < |s| ==> s[i] == r[|s| - 1 - i];
    r
  }
}

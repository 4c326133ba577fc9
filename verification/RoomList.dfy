/**
 Synchronising the stored rooms with a room list message: the successive loops of _on_room_list in
 room/manager.py, and the state they arrive at.
 */
module RoomList {

  import opened Wrappers

  type Name = string

  datatype Room = Room(
    name: Name,
    private: bool,
    users: seq<Name>,
    joined: bool,
    userCount: int,
    tickers: map<Name, string>,
    members: set<Name>,
    owner: Option<Name>,
    operators: set<Name>)

  function NewRoom(name: Name, private: bool): Room
  {
    Room(name, private, [], false, 0, map[], {}, None, {})
  }

  /** RoomList.Response */
  datatype Response = Response(
    rooms: seq<Name>, roomsUserCount: seq<int>,
    roomsPrivateOwned: seq<Name>, roomsPrivateOwnedUserCount: seq<int>,
    roomsPrivate: seq<Name>, roomsPrivateUserCount: seq<int>,
    roomsPrivateOperated: seq<Name>)

  /** Every name has a count. */
  predicate Counted(m: Response)
  {
    && |m.rooms| <= |m.roomsUserCount|
    && |m.roomsPrivateOwned| <= |m.roomsPrivateOwnedUserCount|
    && |m.roomsPrivate| <= |m.roomsPrivateUserCount|
  }

  /** The count given with the last mention of name among the first k. */
  function LastCount(names: seq<Name>, counts: seq<int>, k: nat, name: Name): (r: Option<int>)
    requires k <= |names| <= |counts|
    ensures r.Some? <==> name in names[..k]
  {
    if k == 0 then None
    else
      assert names[..k] == names[..k - 1] + [names[k - 1]];
      if names[k - 1] == name then Some(counts[k - 1]) else LastCount(names, counts, k - 1, name)
  }

  // ---------------------------------------------------------------- the state arrived at

  function Listed(m: Response): set<Name>
  {
    (set n | n in m.rooms) + (set n | n in m.roomsPrivate) + (set n | n in m.roomsPrivateOwned)
  }

  function Before(rooms: map<Name, Room>, name: Name): Room
  {
    if name in rooms then rooms[name] else NewRoom(name, false)
  }

  function Or(first: Option<int>, second: int): int
  {
    match first case Some(x) => x case None => second
  }

  /** The last of the lists that mentions a room determines its count: private, owned, then public. */
  function CountFor(m: Response, name: Name, before: int): int
    requires Counted(m)
  {
    Or(LastCount(m.roomsPrivate, m.roomsPrivateUserCount, |m.roomsPrivate|, name),
       Or(LastCount(m.roomsPrivateOwned, m.roomsPrivateOwnedUserCount, |m.roomsPrivateOwned|, name),
          Or(LastCount(m.rooms, m.roomsUserCount, |m.rooms|, name), before)))
  }

  /** My own entry in a set of names. */
  function Mine(names: set<Name>, me: Name, included: bool): set<Name>
  {
    if included then names + {me} else names - {me}
  }

  /** One room after the message. */
  function Synchronized(m: Response, me: Name, r: Room): Room
    requires Counted(m)
  {
    r.(private := r.name !in m.rooms,
       owner := if r.name in m.roomsPrivateOwned then Some(me) else if r.owner == Some(me) then None else r.owner,
       members := Mine(r.members, me, r.name in m.roomsPrivate),
       operators := Mine(r.operators, me, r.name in m.roomsPrivateOperated),
       userCount := CountFor(m, r.name, r.userCount))
  }

  /** Every room is stored under its name. */
  predicate Named(rooms: map<Name, Room>)
  {
    forall n :: n in rooms ==> rooms[n].name == n
  }

  ghost predicate IsSynchronized(m: Response, me: Name, before: map<Name, Room>, after: map<Name, Room>)
  {
    && Counted(m)
    && after.Keys == Listed(m)
    && forall n :: n in after ==> after[n] == Synchronized(m, me, Before(before, n))
  }

  /**
   After the message exactly the listed rooms are stored; each is private unless it is in the public list,
   mine exactly when it is in the owned list, has me as a member exactly when it is in the private list and
   as an operator exactly when I operate it. What concerns others is untouched.
   */
  lemma RoomsFollowLists(m: Response, me: Name, before: map<Name, Room>, after: map<Name, Room>, n: Name)
    requires Named(before) && IsSynchronized(m, me, before, after)
    ensures n in after <==> n in m.rooms || n in m.roomsPrivate || n in m.roomsPrivateOwned
    ensures n in after ==>
              var r := after[n]; var b := Before(before, n);
              && r.name == n
              && (r.private <==> n !in m.rooms)
              && (r.owner == Some(me) <==> n in m.roomsPrivateOwned)
              && (me in r.members <==> n in m.roomsPrivate)
              && (me in r.operators <==> n in m.roomsPrivateOperated)
              && (forall u :: u != me ==> (u in r.members <==> u in b.members) && (u in r.operators <==> u in b.operators))
              && (r.owner != b.owner ==> r.owner == Some(me) || (r.owner == None && b.owner == Some(me)))
              && r.users == b.users && r.joined == b.joined && r.tickers == b.tickers
              && (n !in before ==> r.users == [] && !r.joined && r.tickers == map[] && r.members + r.operators <= {me})
  {
  }

  lemma {:induction false} LastCountIs(names: seq<Name>, counts: seq<int>, n: nat, name: Name, k: nat)
    requires k < n <= |names| <= |counts| && names[k] == name && forall j :: k < j < n ==> names[j] != name
    ensures LastCount(names, counts, n, name) == Some(counts[k])
  {
    if n > k + 1 {
      LastCountIs(names, counts, n - 1, name, k);
    }
  }

  /** k is the last position of the name. */
  predicate LastMention(names: seq<Name>, k: nat, name: Name)
  {
    k < |names| && names[k] == name && forall j :: k < j < |names| ==> names[j] != name
  }

  /**
   The user count is the one given with the last mention of the room: among the private rooms if it is there,
   else among the owned ones, else among the public ones.
   */
  lemma CountFollowsLists(m: Response, me: Name, before: map<Name, Room>, after: map<Name, Room>, n: Name, k: nat)
    requires Named(before) && IsSynchronized(m, me, before, after) && n in after
    ensures LastMention(m.roomsPrivate, k, n) ==> after[n].userCount == m.roomsPrivateUserCount[k]
    ensures n !in m.roomsPrivate && LastMention(m.roomsPrivateOwned, k, n) ==>
              after[n].userCount == m.roomsPrivateOwnedUserCount[k]
    ensures n !in m.roomsPrivate && n !in m.roomsPrivateOwned && LastMention(m.rooms, k, n) ==>
              after[n].userCount == m.roomsUserCount[k]
  {
    if LastMention(m.roomsPrivate, k, n) {
      LastCountIs(m.roomsPrivate, m.roomsPrivateUserCount, |m.roomsPrivate|, n, k);
    }
    if LastMention(m.roomsPrivateOwned, k, n) {
      LastCountIs(m.roomsPrivateOwned, m.roomsPrivateOwnedUserCount, |m.roomsPrivateOwned|, n, k);
    }
    if LastMention(m.rooms, k, n) {
      LastCountIs(m.rooms, m.roomsUserCount, |m.rooms|, n, k);
    }
  }

  /** The same message again changes nothing. */
  lemma SynchronizingTwice(m: Response, me: Name, before: map<Name, Room>, once: map<Name, Room>, twice: map<Name, Room>)
    requires Named(before) && IsSynchronized(m, me, before, once) && IsSynchronized(m, me, once, twice)
    ensures twice == once
  {
    forall n | n in once ensures twice[n] == once[n] {
      SynchronizedTwice(m, me, Before(before, n));
    }
  }

  lemma SynchronizedTwice(m: Response, me: Name, r: Room)
    requires Counted(m)
    ensures Synchronized(m, me, Synchronized(m, me, r)) == Synchronized(m, me, r)
  {
    var once := Synchronized(m, me, r);
    assert Mine(once.members, me, r.name in m.roomsPrivate) == once.members;
    assert Mine(once.operators, me, r.name in m.roomsPrivateOperated) == once.operators;
  }

  // ---------------------------------------------------------------- the loops over the lists

  datatype Kind = PublicRooms | OwnedRooms | PrivateRooms | OperatedRooms

  function Names(m: Response, kind: Kind): seq<Name>
  {
    match kind
    case PublicRooms => m.rooms
    case OwnedRooms => m.roomsPrivateOwned
    case PrivateRooms => m.roomsPrivate
    case OperatedRooms => m.roomsPrivateOperated
  }

  /** What the loop over a list does to the room at index k of it. */
  function Marked(m: Response, me: Name, kind: Kind, k: nat, r: Room): Room
    requires Counted(m) && k < |Names(m, kind)|
  {
    match kind
    case PublicRooms => r.(userCount := m.roomsUserCount[k])
    case OwnedRooms => r.(owner := Some(me), userCount := m.roomsPrivateOwnedUserCount[k])
    case PrivateRooms => r.(members := r.members + {me}, userCount := m.roomsPrivateUserCount[k])
    case OperatedRooms => r.(operators := r.operators + {me})
  }

  function GetOrNew(rooms: map<Name, Room>, name: Name, private: bool): Room
  {
    if name in rooms then rooms[name] else NewRoom(name, private)
  }

  /** The rooms after the first k passes of the loop over a list. */
  function Touched(m: Response, me: Name, kind: Kind, k: nat, rooms: map<Name, Room>): map<Name, Room>
    requires Counted(m) && k <= |Names(m, kind)|
  {
    if k == 0 then rooms
    else
      var before := Touched(m, me, kind, k - 1, rooms);
      var name := Names(m, kind)[k - 1];
      before[name := Marked(m, me, kind, k - 1, GetOrNew(before, name, kind != PublicRooms))]
  }

  /** A room but for its private flag, which the last loop sets for all. */
  function Public(r: Room): Room
  {
    r.(private := false)
  }

  function CountIn(m: Response, kind: Kind, k: nat, name: Name): Option<int>
    requires Counted(m) && k <= |Names(m, kind)|
  {
    match kind
    case PublicRooms => LastCount(m.rooms, m.roomsUserCount, k, name)
    case OwnedRooms => LastCount(m.roomsPrivateOwned, m.roomsPrivateOwnedUserCount, k, name)
    case PrivateRooms => LastCount(m.roomsPrivate, m.roomsPrivateUserCount, k, name)
    case OperatedRooms => None
  }

  /** One room after the first k passes. */
  function Effect(m: Response, me: Name, kind: Kind, k: nat, r: Room): Room
    requires Counted(m) && k <= |Names(m, kind)|
  {
    if r.name !in Names(m, kind)[..k] then r
    else
      var counted := r.(userCount := Or(CountIn(m, kind, k, r.name), r.userCount));
      match kind
      case PublicRooms => counted
      case OwnedRooms => counted.(owner := Some(me))
      case PrivateRooms => counted.(members := r.members + {me})
      case OperatedRooms => counted.(operators := r.operators + {me})
  }

  lemma {:induction false} TouchedAt(m: Response, me: Name, kind: Kind, k: nat, rooms: map<Name, Room>, n: Name)
    requires Counted(m) && k <= |Names(m, kind)| && Named(rooms)
    ensures var after := Touched(m, me, kind, k, rooms);
            && (n in after <==> n in rooms || n in Names(m, kind)[..k])
            && (n in after ==> after[n].name == n)
            && (n in after ==> Public(after[n]) == Public(Effect(m, me, kind, k, Before(rooms, n))))
  {
    if k > 0 {
      var names := Names(m, kind);
      assert names[..k] == names[..k - 1] + [names[k - 1]];
      TouchedAt(m, me, kind, k - 1, rooms, n);
    }
  }

  /** After the four loops, for one room. */
  function AllTouched(m: Response, me: Name, rooms: map<Name, Room>): map<Name, Room>
    requires Counted(m)
  {
    var r1 := Touched(m, me, PublicRooms, |m.rooms|, rooms);
    var r2 := Touched(m, me, OwnedRooms, |m.roomsPrivateOwned|, r1);
    var r3 := Touched(m, me, PrivateRooms, |m.roomsPrivate|, r2);
    Touched(m, me, OperatedRooms, |m.roomsPrivateOperated|, r3)
  }

  function Whole(m: Response, me: Name, kind: Kind, r: Room): Room
    requires Counted(m)
  {
    Effect(m, me, kind, |Names(m, kind)|, r)
  }

  lemma TouchedAll(m: Response, me: Name, kind: Kind, rooms: map<Name, Room>, n: Name)
    requires Counted(m) && Named(rooms)
    ensures var after := Touched(m, me, kind, |Names(m, kind)|, rooms);
            && Named(after)
            && (n in after <==> n in rooms || n in Names(m, kind))
            && (n in after ==> Public(after[n]) == Public(Whole(m, me, kind, Before(rooms, n))))
  {
    assert Names(m, kind)[..|Names(m, kind)|] == Names(m, kind);
    var after := Touched(m, me, kind, |Names(m, kind)|, rooms);
    forall x ensures x in after ==> after[x].name == x {
      TouchedAt(m, me, kind, |Names(m, kind)|, rooms, x);
    }
    TouchedAt(m, me, kind, |Names(m, kind)|, rooms, n);
  }

  /** The private flag has no part in what the loops do. */
  lemma WholeOfPublic(m: Response, me: Name, kind: Kind, r: Room, r': Room)
    requires Counted(m) && Public(r) == Public(r')
    ensures Public(Whole(m, me, kind, r)) == Public(Whole(m, me, kind, r'))
  {
  }

  function AllWhole(m: Response, me: Name, b: Room): Room
    requires Counted(m)
  {
    Whole(m, me, OperatedRooms, Whole(m, me, PrivateRooms, Whole(m, me, OwnedRooms, Whole(m, me, PublicRooms, b))))
  }

  lemma AllTouchedAt(m: Response, me: Name, rooms: map<Name, Room>, n: Name)
    requires Counted(m) && Named(rooms)
    ensures var after := AllTouched(m, me, rooms);
            && Named(after)
            && (n in after <==> n in rooms || n in Listed(m) || n in m.roomsPrivateOperated)
            && (n in after ==>
                  Public(after[n]) ==
                  Public(AllWhole(m, me, Before(rooms, n))))
  {
    var r1 := Touched(m, me, PublicRooms, |m.rooms|, rooms);
    var r2 := Touched(m, me, OwnedRooms, |m.roomsPrivateOwned|, r1);
    var r3 := Touched(m, me, PrivateRooms, |m.roomsPrivate|, r2);
    TouchedAll(m, me, PublicRooms, rooms, n);
    TouchedAll(m, me, OwnedRooms, r1, n);
    TouchedAll(m, me, PrivateRooms, r2, n);
    TouchedAll(m, me, OperatedRooms, r3, n);
    var e1 := Whole(m, me, PublicRooms, Before(rooms, n));
    var e2 := Whole(m, me, OwnedRooms, e1);
    WholeOfPublic(m, me, OwnedRooms, Before(r1, n), e1);
    WholeOfPublic(m, me, PrivateRooms, Before(r2, n), e2);
    WholeOfPublic(m, me, OperatedRooms, Before(r3, n), Whole(m, me, PrivateRooms, e2));
  }

  // ---------------------------------------------------------------- the remaining rooms

  /** One pass of the last loop. */
  function Updated(m: Response, me: Name, r: Room): Room
  {
    r.(owner := if r.name !in m.roomsPrivateOwned && r.owner == Some(me) then None else r.owner,
       operators := if r.name !in m.roomsPrivateOperated then r.operators - {me} else r.operators,
       members := if r.name !in m.roomsPrivate then r.members - {me} else r.members,
       private := r.name !in m.rooms)
  }

  /** The count of a room after one list. */
  function Recounted(m: Response, kind: Kind, r: Room): Room
    requires Counted(m)
  {
    r.(userCount := Or(CountIn(m, kind, |Names(m, kind)|, r.name), r.userCount))
  }

  lemma WholeIs(m: Response, me: Name, kind: Kind, r: Room)
    requires Counted(m)
    ensures Whole(m, me, kind, r) ==
            match kind
            case PublicRooms => Recounted(m, kind, r)
            case OwnedRooms =>
              if r.name in m.roomsPrivateOwned then Recounted(m, kind, r).(owner := Some(me)) else Recounted(m, kind, r)
            case PrivateRooms =>
              if r.name in m.roomsPrivate then Recounted(m, kind, r).(members := r.members + {me}) else Recounted(m, kind, r)
            case OperatedRooms =>
              if r.name in m.roomsPrivateOperated then r.(operators := r.operators + {me}) else r
  {
    assert Names(m, kind)[..|Names(m, kind)|] == Names(m, kind);
  }

  lemma AllWholeIs(m: Response, me: Name, b: Room)
    requires Counted(m)
    ensures AllWhole(m, me, b) ==
            b.(userCount := CountFor(m, b.name, b.userCount),
               owner := if b.name in m.roomsPrivateOwned then Some(me) else b.owner,
               members := if b.name in m.roomsPrivate then b.members + {me} else b.members,
               operators := if b.name in m.roomsPrivateOperated then b.operators + {me} else b.operators)
  {
    var e1 := Whole(m, me, PublicRooms, b);
    var e2 := Whole(m, me, OwnedRooms, e1);
    var e3 := Whole(m, me, PrivateRooms, e2);
    WholeIs(m, me, PublicRooms, b);
    WholeIs(m, me, OwnedRooms, e1);
    WholeIs(m, me, PrivateRooms, e2);
    WholeIs(m, me, OperatedRooms, e3);
  }

  lemma LoopsSynchronize(m: Response, me: Name, b: Room, r: Room)
    requires Counted(m) && r.name == b.name
    requires Public(r) == Public(AllWhole(m, me, b))
    ensures Updated(m, me, r) == Synchronized(m, me, b)
  {
    AllWholeIs(m, me, b);
  }

  // ---------------------------------------------------------------- the manager object

  class RoomManager {
    var rooms: map<Name, Room>

    constructor ()
      ensures rooms == map[]
    {
      rooms := map[];
    }

    method GetOrCreateRoom(name: Name, private: bool) returns (room: Room)
      modifies this
      ensures room == GetOrNew(old(rooms), name, private) && rooms == old(rooms)[name := room]
    {
      if name !in rooms {
        rooms := rooms[name := NewRoom(name, private)];
      }
      room := rooms[name];
    }

    /** The loop over one of the lists. */
    method MarkRooms(m: Response, me: Name, kind: Kind)
      requires Counted(m)
      modifies this
      ensures rooms == Touched(m, me, kind, |Names(m, kind)|, old(rooms))
    {
      for k := 0 to |Names(m, kind)|
        invariant rooms == Touched(m, me, kind, k, old(rooms))
      {
        var name := Names(m, kind)[k];
        ghost var before := rooms;
        var room := GetOrCreateRoom(name, kind != PublicRooms);
        rooms := rooms[name := Marked(m, me, kind, k, room)];
        assert rooms == before[name := Marked(m, me, kind, k, room)];
      }
    }

    method RemoveUnknownRooms(m: Response)
      modifies this
      ensures rooms == map n | n in old(rooms) && n in Listed(m) :: old(rooms)[n]
    {
      var unknown := rooms.Keys - Listed(m);
      while unknown != {}
        invariant unknown <= rooms.Keys && unknown == rooms.Keys - Listed(m)
        invariant forall n :: n in old(rooms) && n in Listed(m) ==> n in rooms
        invariant forall n :: n in rooms ==> n in old(rooms) && rooms[n] == old(rooms)[n]
      {
        var n :| n in unknown;
        rooms := rooms - {n};
        unknown := unknown - {n};
      }
      assert forall n :: n in rooms ==> n !in unknown;
    }

    method UpdateRemainingRooms(m: Response, me: Name)
      modifies this
      ensures rooms == map n | n in old(rooms) :: Updated(m, me, old(rooms)[n])
    {
      var todo := rooms.Keys;
      while todo != {}
        invariant todo <= rooms.Keys == old(rooms).Keys
        invariant forall n :: n in rooms ==> rooms[n] == if n in todo then old(rooms)[n] else Updated(m, me, old(rooms)[n])
      {
        var n :| n in todo;
        rooms := rooms[n := Updated(m, me, rooms[n])];
        todo := todo - {n};
      }
    }

    /** _on_room_list */
    method OnRoomList(m: Response, me: Name)
      requires Named(rooms) && Counted(m)
      modifies this
      ensures Named(rooms) && IsSynchronized(m, me, old(rooms), rooms)
    {
      ghost var before := rooms;
      MarkRooms(m, me, PublicRooms);
      MarkRooms(m, me, OwnedRooms);
      MarkRooms(m, me, PrivateRooms);
      MarkRooms(m, me, OperatedRooms);
      ghost var touched := rooms;
      assert touched == AllTouched(m, me, before);
      RemoveUnknownRooms(m);
      UpdateRemainingRooms(m, me);
      forall n ensures n in rooms <==> n in Listed(m) { AllTouchedAt(m, me, before, n); }
      forall n | n in rooms ensures rooms[n] == Synchronized(m, me, Before(before, n)) {
        AllTouchedAt(m, me, before, n);
        LoopsSynchronize(m, me, Before(before, n), touched[n]);
      }
    }
  }
}

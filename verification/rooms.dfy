/**
  Rooms and the room directory: the `rooms` map and the `roomsPublic` list
  (meat.js:7-8), `checkRoomEmpty` (26-40), the `Room` class (42-110) and
  `newRoom` (112-117).
 */
module Rooms {
  import opened Wrappers
  import opened Protocol

  /** A pitch or speed default: a number, or the string "random". */
  datatype Default = Fixed(value: int) | RandomDefault

  datatype Range = Range(min: int, max: int, default: Default)

  /** A room's preferences, copied from settings when the room is made. */
  datatype Prefs = Prefs(
    roomMax: int,
    nameLimit: int,
    charLimit: int,
    defaultName: string,
    pitch: Range,
    speed: Range,
    runlevel: map<string, int>,
    owner: Option<Guid>,
    godword: Option<string>)

  /** A room: its id, its preferences and its members in join order. */
  datatype Room = Room(rid: RoomId, prefs: Prefs, users: seq<Guid>)

  /** Every live room by id, and the ids of the public ones in creation order. */
  datatype Directory = Directory(rooms: map<RoomId, Room>, publicIds: seq<RoomId>)

  /** A directory together with the events an operation on it emitted. */
  datatype Change = Change(dir: Directory, out: seq<Event>)

  predicate NoDup<T(==)>(s: seq<T>) {
    forall i, j :: 0 <= i < j < |s| ==> s[i] != s[j]
  }

  /** `roomsPublic` only names live rooms, and names each at most once; every
      room is filed under its own id. */
  ghost predicate Valid(d: Directory) {
    && (forall id :: id in d.publicIds ==> id in d.rooms)
    && NoDup(d.publicIds)
    && (forall id :: id in d.rooms ==> d.rooms[id].rid == id)
  }

  /** `g` is in the member list of the live room `rid`. */
  predicate IsMember(d: Directory, rid: RoomId, g: Guid) {
    rid in d.rooms && g in d.rooms[rid].users
  }

  /** `Room.isFull` (meat.js:62-64): a room that is not full has space for
      one more member under `room_max`. */
  predicate IsFull(room: Room): (full: bool)
    ensures !full ==> |room.users| + 1 <= room.prefs.roomMax
    ensures full ==> room.prefs.roomMax <= |room.users|
  {
    |room.users| >= room.prefs.roomMax
  }

  // ---------------------------------------------------------------------------
  // Sequence helpers: Array.prototype.indexOf and splice(i, 1)

  /** `s.indexOf(x)`: the first position of `x`, or -1. */
  function IndexOf<T(==)>(s: seq<T>, x: T): (i: int)
    ensures -1 <= i < |s|
    ensures i == -1 <==> x !in s
    ensures 0 <= i ==> s[i] == x && forall j :: 0 <= j < i ==> s[j] != x
  {
    if |s| == 0 then -1
    else if s[0] == x then 0
    else
      var k := IndexOf(s[1..], x);
      if k == -1 then -1 else k + 1
  }

  /** `s.splice(i, 1)`. */
  function RemoveAt<T>(s: seq<T>, i: nat): (r: seq<T>)
    requires i < |s|
    ensures |r| == |s| - 1
    ensures forall k :: 0 <= k < |r| ==> r[k] == (if k < i then s[k] else s[k + 1])
  {
    s[..i] + s[i + 1..]
  }

  lemma RemoveAtFacts<T>(s: seq<T>, i: nat)
    requires i < |s|
    ensures multiset(RemoveAt(s, i)) == multiset(s) - multiset{s[i]}
    ensures forall y :: y in RemoveAt(s, i) ==> y in s
    ensures forall k :: 0 <= k < |s| && k != i ==> s[k] in RemoveAt(s, i)
  {
    var r := RemoveAt(s, i);
    assert s == s[..i] + [s[i]] + s[i + 1..];
    assert r == s[..i] + s[i + 1..];
    forall k | 0 <= k < |s| && k != i ensures s[k] in r {
      if k < i { assert r[k] == s[k]; } else { assert r[k - 1] == s[k]; }
    }
  }

  lemma RemoveAtNoDup<T>(s: seq<T>, i: nat)
    requires i < |s| && NoDup(s)
    ensures NoDup(RemoveAt(s, i)) && s[i] !in RemoveAt(s, i)
  {
    var r := RemoveAt(s, i);
    forall a, b | 0 <= a < b < |r| ensures r[a] != r[b] {
      var a' := if a < i then a else a + 1;
      var b' := if b < i then b else b + 1;
      assert r[a] == s[a'] && r[b] == s[b'] && a' < b';
    }
  }

  /** `i = s.indexOf(x); if (i != -1) s.splice(i, 1)`. */
  function RemoveFirst<T(==)>(s: seq<T>, x: T): (r: seq<T>)
    ensures x !in s ==> r == s
    ensures x in s ==> |r| == |s| - 1
    ensures multiset(r) == multiset(s) - multiset{x}
    ensures forall y :: y in r ==> y in s
    ensures NoDup(s) ==> NoDup(r) && x !in r
    ensures forall y :: y != x && y in s ==> y in r
    ensures x in s ==> r == RemoveAt(s, IndexOf(s, x))
  {
    var i := IndexOf(s, x);
    if i == -1 then s
    else
      RemoveAtFacts(s, i);
      assert NoDup(s) ==> NoDup(RemoveAt(s, i)) && x !in RemoveAt(s, i) by {
        if NoDup(s) { RemoveAtNoDup(s, i); }
      }
      assert forall y :: y != x && y in s ==> y in RemoveAt(s, i) by {
        forall y | y != x && y in s ensures y in RemoveAt(s, i) {
          var k :| 0 <= k < |s| && s[k] == y;
        }
      }
      RemoveAt(s, i)
  }

  // ---------------------------------------------------------------------------
  // Directory operations

  /** `newRoom(rid, prefs)`: an empty room is filed under `rid`, replacing any
      room already there. */
  function NewRoom(d: Directory, rid: RoomId, prefs: Prefs): (d': Directory)
    ensures rid in d'.rooms && d'.rooms[rid] == Room(rid, prefs, [])
    ensures d'.rooms.Keys == d.rooms.Keys + {rid}
    ensures forall id :: id in d.rooms && id != rid ==> d'.rooms[id] == d.rooms[id]
    ensures d'.publicIds == d.publicIds
    ensures Valid(d) ==> Valid(d')
  {
    d.(rooms := d.rooms[rid := Room(rid, prefs, [])])
  }

  /** `checkRoomEmpty(room)`: a room with no members leaves `rooms` and (its
      first occurrence) `roomsPublic`. `Room.deconstruct` walks an empty member
      list here, so it does nothing. */
  function CheckRoomEmpty(d: Directory, rid: RoomId): (d': Directory)
    requires rid in d.rooms
    ensures |d.rooms[rid].users| != 0 ==> d' == d
    ensures |d.rooms[rid].users| == 0 ==> d'.rooms == d.rooms - {rid}
    ensures |d.rooms[rid].users| == 0 && NoDup(d.publicIds) ==> rid !in d'.publicIds
    ensures |d.rooms[rid].users| == 0 ==>
              d'.publicIds == (if rid in d.publicIds then RemoveAt(d.publicIds, IndexOf(d.publicIds, rid)) else d.publicIds)
    ensures forall id :: id in d'.publicIds ==> id in d.publicIds
    ensures forall id :: id in d.publicIds && id != rid ==> id in d'.publicIds
    ensures Valid(d) ==> Valid(d')
  {
    if |d.rooms[rid].users| != 0 then d
    else Directory(d.rooms - {rid}, RemoveFirst(d.publicIds, rid))
  }

  /** `Room.join(user)`: the member is appended and the room is told its
      profile (meat.js:66-71, 92-97). */
  function Join(d: Directory, rid: RoomId, g: Guid, profile: Profile): (c: Change)
    requires rid in d.rooms
    ensures rid in c.dir.rooms && c.dir.rooms[rid].users == d.rooms[rid].users + [g]
    ensures c.dir.rooms[rid].prefs == d.rooms[rid].prefs
    ensures c.dir.rooms.Keys == d.rooms.Keys
    ensures forall id :: id in d.rooms && id != rid ==> c.dir.rooms[id] == d.rooms[id]
    ensures c.dir.publicIds == d.publicIds
    ensures Valid(d) ==> Valid(c.dir)
    ensures c.out == [ToRoom(rid, Update(g, profile))]
  {
    var room := d.rooms[rid];
    Change(d.(rooms := d.rooms[rid := room.(users := room.users + [g])]), [ToRoom(rid, Update(g, profile))])
  }

  /** `Room.leave(user)` (meat.js:73-90): the room always hears `leave` first;
      a non-member changes nothing else; a member loses one entry, and a room
      left empty is reclaimed at once. */
  function Leave(d: Directory, rid: RoomId, g: Guid): (c: Change)
    ensures c.out == [ToRoom(rid, Msg.Leave(g))]
    ensures !IsMember(d, rid, g) ==> c.dir == d
    ensures IsMember(d, rid, g) && |d.rooms[rid].users| == 1 ==> c.dir.rooms == d.rooms - {rid}
    ensures IsMember(d, rid, g) && |d.rooms[rid].users| == 1 && NoDup(d.publicIds) ==> rid !in c.dir.publicIds
    ensures IsMember(d, rid, g) && |d.rooms[rid].users| == 1 ==>
              c.dir.publicIds == (if rid in d.publicIds then RemoveAt(d.publicIds, IndexOf(d.publicIds, rid)) else d.publicIds)
    ensures IsMember(d, rid, g) && |d.rooms[rid].users| > 1 ==>
              && rid in c.dir.rooms
              && c.dir.rooms[rid] == d.rooms[rid].(users := RemoveFirst(d.rooms[rid].users, g))
              && c.dir.publicIds == d.publicIds
              && c.dir.rooms.Keys == d.rooms.Keys
    ensures forall id :: id in c.dir.rooms ==> id in d.rooms
    ensures forall id :: id in c.dir.rooms && id != rid ==> c.dir.rooms[id] == d.rooms[id]
    ensures Valid(d) ==> Valid(c.dir)
  {
    var out := [ToRoom(rid, Msg.Leave(g))];
    if !IsMember(d, rid, g) then Change(d, out)
    else
      var room := d.rooms[rid];
      var left := d.(rooms := d.rooms[rid := room.(users := RemoveFirst(room.users, g))]);
      assert left.rooms - {rid} == d.rooms - {rid};
      assert |left.rooms[rid].users| == |room.users| - 1;
      Change(CheckRoomEmpty(left, rid), out)
  }

  /** `Room.getUsersPublic()` (meat.js:99-105): each member's public profile
      keyed by guid. */
  function UsersPublic(room: Room, profiles: map<Guid, Profile>): (m: map<Guid, Profile>)
    ensures m.Keys == set g | g in room.users && g in profiles
    ensures forall g :: g in m ==> m[g] == profiles[g]
  {
    map g | g in room.users && g in profiles :: profiles[g]
  }

  // ---------------------------------------------------------------------------
  // Properties

  /** Leaving and rejoining at the end restores the membership as a multiset:
      `join` and `leave` are inverse on the member list. */
  lemma JoinThenLeave(d: Directory, rid: RoomId, g: Guid, p: Profile)
    requires rid in d.rooms
    ensures var j := Join(d, rid, g, p).dir;
            var l := Leave(j, rid, g).dir;
            |d.rooms[rid].users| > 0 ==> rid in l.rooms && multiset(l.rooms[rid].users) == multiset(d.rooms[rid].users)
  {
  }

  /** Leaving twice is leaving once: after the first `leave` the user is no
      longer a member, so the second one only repeats the announcement. */
  lemma LeaveIdempotent(d: Directory, rid: RoomId, g: Guid)
    requires Valid(d)
    requires rid in d.rooms ==> NoDup(d.rooms[rid].users)
    ensures Leave(Leave(d, rid, g).dir, rid, g).dir == Leave(d, rid, g).dir
  {
    var d1 := Leave(d, rid, g).dir;
    if IsMember(d, rid, g) && |d.rooms[rid].users| > 1 {
      assert d1.rooms[rid].users == RemoveFirst(d.rooms[rid].users, g);
      assert !IsMember(d1, rid, g);
    }
  }

  /** The guard `isFull` keeps before a join keeps a room within `room_max`:
      a room that was not full is at most full after one more member. */
  lemma JoinRespectsCapacity(d: Directory, rid: RoomId, g: Guid, p: Profile)
    requires rid in d.rooms && !IsFull(d.rooms[rid])
    ensures var room := Join(d, rid, g, p).dir.rooms[rid];
            |room.users| <= room.prefs.roomMax
  {
  }

  /** After `join`, the snapshot `getUsersPublic` takes is the old one with
      the new member's profile added. */
  lemma JoinExtendsSnapshot(d: Directory, rid: RoomId, g: Guid, p: Profile, profiles: map<Guid, Profile>)
    requires rid in d.rooms && g in profiles
    ensures UsersPublic(Join(d, rid, g, p).dir.rooms[rid], profiles) == UsersPublic(d.rooms[rid], profiles)[g := profiles[g]]
  {
    var before := UsersPublic(d.rooms[rid], profiles);
    var after := UsersPublic(Join(d, rid, g, p).dir.rooms[rid], profiles);
    assert after.Keys == before.Keys + {g};
  }

  /** After a member of a duplicate-free room leaves and the room survives,
      the snapshot is the old one without that member. */
  lemma LeaveShrinksSnapshot(d: Directory, rid: RoomId, g: Guid, profiles: map<Guid, Profile>)
    requires rid in d.rooms && NoDup(d.rooms[rid].users)
    requires g in d.rooms[rid].users && |d.rooms[rid].users| > 1
    ensures rid in Leave(d, rid, g).dir.rooms
    ensures UsersPublic(Leave(d, rid, g).dir.rooms[rid], profiles) == UsersPublic(d.rooms[rid], profiles) - {g}
  {
    var before := UsersPublic(d.rooms[rid], profiles);
    var after := UsersPublic(Leave(d, rid, g).dir.rooms[rid], profiles);
    assert after.Keys == before.Keys - {g};
  }

  /** A room emptied by `leave` can no longer be picked from `roomsPublic`. */
  lemma LeaveLastMemberReclaims(d: Directory, rid: RoomId, g: Guid)
    requires Valid(d)
    requires rid in d.rooms && d.rooms[rid].users == [g]
    ensures rid !in Leave(d, rid, g).dir.rooms
    ensures rid !in Leave(d, rid, g).dir.publicIds
    ensures Valid(Leave(d, rid, g).dir)
  {
  }

  /** Reclaiming a room that is not the newest public one keeps the newest
      public room where the public login path looks for it: `splice` keeps the
      order of the ids that remain. */
  lemma CheckRoomEmptyKeepsNewest(d: Directory, rid: RoomId)
    requires rid in d.rooms && |d.publicIds| > 0
    requires d.publicIds[|d.publicIds| - 1] != rid
    ensures var d' := CheckRoomEmpty(d, rid);
            |d'.publicIds| > 0 && d'.publicIds[|d'.publicIds| - 1] == d.publicIds[|d.publicIds| - 1]
  {
    var s := d.publicIds;
    if |d.rooms[rid].users| == 0 && rid in s {
      var i := IndexOf(s, rid);
      assert i < |s| - 1;
      var r := RemoveAt(s, i);
      assert r[|r| - 1] == s[|s| - 1];
    }
  }
}

/**
  The consistency the server keeps between its sessions and its rooms
  (meat.js:7-9, 26-117, 305-396, 473-502), and its preservation by every
  operation a client can trigger.
 */
module WorldInvariant {
  import opened Wrappers
  import opened Protocol
  import opened Sanitizer
  import opened Rooms
  import opened Sessions
  import opened Commands

  /** Every session is filed under its own guid. */
  ghost predicate KeyedByGuid(w: World) {
    forall g :: g in w.sessions ==> w.sessions[g].guid == g
  }

  /** Every room member is a logged-in session that points back at the room. */
  ghost predicate MembersLoggedIn(w: World) {
    forall rid, u :: rid in w.dir.rooms && u in w.dir.rooms[rid].users ==>
      u in w.sessions && w.sessions[u].login && w.sessions[u].room == Some(rid)
  }

  /** No room lists a member twice. */
  ghost predicate MembersDistinct(w: World) {
    forall rid :: rid in w.dir.rooms ==> NoDup(w.dir.rooms[rid].users)
  }

  /** Every logged-in session is a member of its live room. */
  ghost predicate LoggedInAreMembers(w: World) {
    forall g :: g in w.sessions && w.sessions[g].login ==> LoggedIn(w, g) && g in RoomOf(w, g).users
  }

  ghost predicate Inv(w: World) {
    && Valid(w.dir)
    && KeyedByGuid(w)
    && MembersLoggedIn(w)
    && MembersDistinct(w)
    && LoggedInAreMembers(w)
  }

  /** The server starts with no rooms and no sessions. */
  lemma InitialWorld()
    ensures Inv(World(Directory(map[], []), map[]))
  {
  }

  /** A logged-in session is a member of exactly one room. */
  lemma MemberOfOneRoom(w: World, g: Guid, rid: RoomId)
    requires Inv(w) && g in w.sessions && w.sessions[g].login
    ensures LoggedIn(w, g)
    ensures rid in w.dir.rooms && g in w.dir.rooms[rid].users <==> w.sessions[g].room == Some(rid)
  {
  }

  /** A new connection keeps the invariant: it is in no room yet. */
  lemma ConnectKeeps(w: World, g: Guid, cfg: Config, o: Oracle)
    requires Inv(w) && g !in w.sessions && o.Valid()
    ensures Inv(Connect(w, g, cfg, o))
  {
    var w' := Connect(w, g, cfg, o);
    assert forall rid, u :: rid in w.dir.rooms && u in w.dir.rooms[rid].users ==> u != g;
  }

  /** Room selection with a fresh id keeps the directory valid and touches
      no member list: new rooms are empty. */
  lemma SelectRoomKeeps(d: Directory, g: Guid, room: Option<string>, cfg: Config, newId: Guid)
    requires Valid(d) && newId !in d.rooms
    ensures var c := SelectRoom(d, g, room, cfg, newId);
            c.Chosen? ==> Valid(c.dir) && SameMembers(d, c.dir) && c.rid in c.dir.rooms
  {
    var c := SelectRoom(d, g, room, cfg, newId);
    if RoomUnspecified(room) && c.rid == newId {
      var d1 := d.(publicIds := d.publicIds + [newId]);
      assert NoDup(d1.publicIds) by {
        assert newId !in d.publicIds;
      }
    }
  }

  /** `login` keeps the invariant, given a fresh id for a new public room. */
  lemma LoginKeeps(w: World, g: Guid, data: Option<LoginData>, cfg: Config, o: Oracle)
    requires Inv(w) && g in w.sessions && o.freshId !in w.dir.rooms
    ensures Inv(Login(w, g, data, cfg, o).world)
  {
    var s := w.sessions[g];
    if data.Some? && !s.login {
      var c := SelectRoom(w.dir, g, data.value.room, cfg, o.freshId);
      SelectRoomKeeps(w.dir, g, data.value.room, cfg, o.freshId);
      if c.Chosen? {
        EnterKeeps(w, g, data.value.name, c.dir, c.rid, cfg, o);
      }
    }
  }

  /** The second half of `login` keeps the invariant. */
  lemma EnterKeeps(w: World, g: Guid, name: Option<string>, dir1: Directory, rid: RoomId, cfg: Config, o: Oracle)
    requires Inv(w) && g in w.sessions && !w.sessions[g].login
    requires Valid(dir1) && SameMembers(w.dir, dir1) && rid in dir1.rooms
    ensures Inv(Enter(w, g, name, dir1, rid, cfg, o).world)
  {
    var r := Enter(w, g, name, dir1, rid, cfg, o);
    if r.world.sessions[g].login {
      JoinKeeps(w, g, dir1, rid, r.world);
    } else {
      RefusedKeeps(w, g, dir1, r.world);
    }
  }

  /** A refused login keeps the invariant: the session stays logged out and
      no member list changes. */
  lemma RefusedKeeps(w: World, g: Guid, dir1: Directory, w': World)
    requires Inv(w) && g in w.sessions && !w.sessions[g].login
    requires Valid(dir1) && SameMembers(w.dir, dir1)
    requires w'.dir == dir1
    requires w'.sessions.Keys == w.sessions.Keys
    requires forall h :: h in w.sessions && h != g ==> w'.sessions[h] == w.sessions[h]
    requires w'.sessions[g].guid == g && !w'.sessions[g].login
    ensures Inv(w')
  {
    assert forall id, u :: id in dir1.rooms && u in dir1.rooms[id].users ==> id in w.dir.rooms && u in w.dir.rooms[id].users;
  }

  /** `w'` is `w` after the logged-out session `g` joined room `rid` of the
      directory `dir1` that room selection produced. */
  ghost predicate JoinStep(w: World, g: Guid, dir1: Directory, rid: RoomId, w': World) {
    && Inv(w) && g in w.sessions && !w.sessions[g].login
    && Valid(dir1) && SameMembers(w.dir, dir1) && rid in dir1.rooms
    && Valid(w'.dir)
    && w'.sessions.Keys == w.sessions.Keys
    && (forall h :: h in w.sessions && h != g ==> w'.sessions[h] == w.sessions[h])
    && w'.sessions[g].guid == g && w'.sessions[g].login && w'.sessions[g].room == Some(rid)
    && rid in w'.dir.rooms && w'.dir.rooms[rid].users == dir1.rooms[rid].users + [g]
    && w'.dir.rooms.Keys == dir1.rooms.Keys
    && (forall id :: id in dir1.rooms && id != rid ==> w'.dir.rooms[id] == dir1.rooms[id])
  }

  /** A join by a session that was in no room keeps the invariant. */
  lemma JoinKeeps(w: World, g: Guid, dir1: Directory, rid: RoomId, w': World)
    requires Inv(w) && g in w.sessions && !w.sessions[g].login
    requires Valid(dir1) && SameMembers(w.dir, dir1) && rid in dir1.rooms
    requires Valid(w'.dir)
    requires w'.sessions.Keys == w.sessions.Keys
    requires forall h :: h in w.sessions && h != g ==> w'.sessions[h] == w.sessions[h]
    requires w'.sessions[g].guid == g && w'.sessions[g].login && w'.sessions[g].room == Some(rid)
    requires rid in w'.dir.rooms && w'.dir.rooms[rid].users == dir1.rooms[rid].users + [g]
    requires w'.dir.rooms.Keys == dir1.rooms.Keys
    requires forall id :: id in dir1.rooms && id != rid ==> w'.dir.rooms[id] == dir1.rooms[id]
    ensures Inv(w')
  {
    assert JoinStep(w, g, dir1, rid, w');
    JoinKeepsDistinct(w, g, dir1, rid, w');
    JoinKeepsMembers(w, g, dir1, rid, w');
    JoinKeepsLoggedIn(w, g, dir1, rid, w');
  }

  /** The joined room gains a member it did not have. */
  lemma JoinKeepsDistinct(w: World, g: Guid, dir1: Directory, rid: RoomId, w': World)
    requires JoinStep(w, g, dir1, rid, w')
    ensures MembersDistinct(w') && KeyedByGuid(w')
  {
    var us := dir1.rooms[rid].users;
    assert g !in us by {
      if rid in w.dir.rooms { assert us == w.dir.rooms[rid].users; }
    }
    AppendNoDup(us, g);
  }

  /** Every member after the join is a logged-in session of its room. */
  lemma JoinKeepsMembers(w: World, g: Guid, dir1: Directory, rid: RoomId, w': World)
    requires JoinStep(w, g, dir1, rid, w')
    ensures MembersLoggedIn(w')
  {
    JoinedRoomMembers(w, g, dir1, rid, w');
    OtherRoomMembers(w, g, dir1, rid, w');
  }

  lemma JoinedRoomMembers(w: World, g: Guid, dir1: Directory, rid: RoomId, w': World)
    requires JoinStep(w, g, dir1, rid, w')
    ensures forall u :: u in w'.dir.rooms[rid].users ==>
              u in w'.sessions && w'.sessions[u].login && w'.sessions[u].room == Some(rid)
  {
    forall u | u in w'.dir.rooms[rid].users
      ensures u in w'.sessions && w'.sessions[u].login && w'.sessions[u].room == Some(rid)
    {
      if u != g {
        assert u in dir1.rooms[rid].users;
        WasMember(w.dir, dir1, rid, u);
      }
    }
  }

  lemma OtherRoomMembers(w: World, g: Guid, dir1: Directory, rid: RoomId, w': World)
    requires JoinStep(w, g, dir1, rid, w')
    ensures forall id, u :: id in w'.dir.rooms && id != rid && u in w'.dir.rooms[id].users ==>
              u in w'.sessions && w'.sessions[u].login && w'.sessions[u].room == Some(id)
  {
    forall id, u | id in w'.dir.rooms && id != rid && u in w'.dir.rooms[id].users
      ensures u in w'.sessions && w'.sessions[u].login && w'.sessions[u].room == Some(id)
    {
      assert w'.dir.rooms[id] == dir1.rooms[id];
      WasMember(w.dir, dir1, id, u);
      assert u != g;
    }
  }

  /** Room selection adds only empty rooms: a member after it was a member before. */
  lemma WasMember(d: Directory, d': Directory, id: RoomId, u: Guid)
    requires SameMembers(d, d') && id in d'.rooms && u in d'.rooms[id].users
    ensures id in d.rooms && u in d.rooms[id].users
  {
  }

  /** Every logged-in session after the join is a member of its room. */
  lemma JoinKeepsLoggedIn(w: World, g: Guid, dir1: Directory, rid: RoomId, w': World)
    requires JoinStep(w, g, dir1, rid, w')
    ensures LoggedInAreMembers(w')
  {
    forall h | h in w'.sessions && w'.sessions[h].login
      ensures LoggedIn(w', h) && h in RoomOf(w', h).users
    {
      if h != g {
        var r0 := w.sessions[h].room.value;
        assert h in w.dir.rooms[r0].users;
        assert h in dir1.rooms[r0].users;
      }
    }
  }


  lemma AppendNoDup(us: seq<Guid>, g: Guid)
    requires NoDup(us) && g !in us
    ensures NoDup(us + [g])
  {
    forall i, j | 0 <= i < j < |us + [g]| ensures (us + [g])[i] != (us + [g])[j] {
      assert (us + [g])[i] == us[i];
    }
  }

  /** A step that keeps the directory and every session's guid, login flag
      and room keeps the invariant, whatever else it changes. */
  lemma SameShapeKeeps(w: World, w': World)
    requires Inv(w) && w'.dir == w.dir && w'.sessions.Keys == w.sessions.Keys
    requires forall h :: h in w.sessions ==>
               && w'.sessions[h].guid == w.sessions[h].guid
               && w'.sessions[h].login == w.sessions[h].login
               && w'.sessions[h].room == w.sessions[h].room
    ensures Inv(w')
  {
  }

  /** `command` keeps the invariant: it never touches rooms, login or room. */
  lemma CommandKeeps(w: World, g: Guid, data: Option<seq<string>>, cfg: Config, o: Oracle)
    requires Inv(w) && LoggedIn(w, g) && o.Valid()
    ensures Inv(Command(w, g, data, cfg, o).world)
  {
    SameShapeKeeps(w, Command(w, g, data, cfg, o).world);
  }

  /** `disconnect` keeps the invariant: the session leaves its room and the
      session table together. */
  lemma DisconnectKeeps(w: World, g: Guid)
    requires Inv(w) && LoggedIn(w, g)
    ensures Inv(Disconnect(w, g).world)
  {
    var rid := w.sessions[g].room.value;
    var l := Rooms.Leave(w.dir, rid, g);
    assert Disconnect(w, g).world == World(l.dir, w.sessions - {g});
    var users := w.dir.rooms[rid].users;
    if |users| == 1 {
      assert users == [g];
      DropRoomKeeps(w, g, rid, l.dir);
    } else {
      DropMemberKeeps(w, g, rid, l.dir);
    }
  }

  /** The last member leaving takes the room with it. */
  lemma DropRoomKeeps(w: World, g: Guid, rid: RoomId, d: Directory)
    requires Inv(w) && LoggedIn(w, g) && w.sessions[g].room == Some(rid)
    requires w.dir.rooms[rid].users == [g]
    requires Valid(d) && d.rooms == w.dir.rooms - {rid}
    ensures Inv(World(d, w.sessions - {g}))
  {
  }

  /** A member leaving a room with others in it shrinks its member list. */
  lemma DropMemberKeeps(w: World, g: Guid, rid: RoomId, d: Directory)
    requires Inv(w) && LoggedIn(w, g) && w.sessions[g].room == Some(rid)
    requires |w.dir.rooms[rid].users| > 1
    requires Valid(d) && rid in d.rooms && d.rooms[rid] == w.dir.rooms[rid].(users := RemoveFirst(w.dir.rooms[rid].users, g))
    requires forall id :: id in d.rooms ==> id in w.dir.rooms
    requires forall id :: id in d.rooms && id != rid ==> d.rooms[id] == w.dir.rooms[id]
    requires forall id :: id in w.dir.rooms ==> id in d.rooms
    ensures Inv(World(d, w.sessions - {g}))
  {
  }
}

/**
  Properties of `login` (meat.js:305-396): where a login lands, what it tells
  the user, and the stray "undefined" room of the public path as written.
 */
module LoginFacts {
  import opened Wrappers
  import opened Protocol
  import opened Sanitizer
  import opened JsBuiltins
  import opened Rooms
  import opened Sessions

  /** The name a login ends up with fits the limit of the room it landed in. */
  predicate NameFits(name: Option<string>, prefs: Prefs) {
    JsLength(NameOrDefault(name, prefs.defaultName)) <= prefs.nameLimit
  }

  /** A first login that asks for no room is never refused for its room: it
      joins the newest public room that has space, or a new public room, and is
      told so. */
  lemma PublicLoginLandsInPublicRoom(w: World, g: Guid, data: LoginData, cfg: Config, o: Oracle)
    requires g in w.sessions && !w.sessions[g].login && Valid(w.dir)
    requires RoomUnspecified(data.room)
    requires cfg.publicPrefs.owner.None?
    requires forall id :: id in w.dir.rooms ==> w.dir.rooms[id].prefs.owner.None? || id !in w.dir.publicIds
    requires forall id :: id in w.dir.publicIds ==> NameFits(data.name, w.dir.rooms[id].prefs)
    requires NameFits(data.name, cfg.publicPrefs)
    ensures var r := Login(w, g, Some(data), cfg, o);
            && LoggedIn(r.world, g)
            && var rid := r.world.sessions[g].room.value;
               && rid in r.world.dir.publicIds
               && |r.out| == 3
               && r.out[2] == Reply(g, RoomInfo(rid, false, true))
  {
  }

  /** A login that asks for no room is never refused with `nameMal` or `full`:
      its only possible refusal is `nameLength`. */
  lemma PublicLoginNeverFull(w: World, g: Guid, data: LoginData, cfg: Config, o: Oracle)
    requires g in w.sessions && !w.sessions[g].login
    requires RoomUnspecified(data.room)
    ensures var r := Login(w, g, Some(data), cfg, o);
            && Reply(g, LoginFail(NameMal)) !in r.out
            && Reply(g, LoginFail(Full)) !in r.out
            && (!r.world.sessions[g].login ==> r.out == [Reply(g, LoginFail(NameLength))])
  {
    var c := ResolvePublic(w.dir, cfg.publicPrefs, o.freshId);
    assert Login(w, g, Some(data), cfg, o) == Enter(w, g, data.name, c.dir, c.rid, cfg, o);
    EnterRefusesOnlyLongNames(w, g, data.name, c.dir, c.rid, cfg, o);
  }

  /** Once a room is settled, the only refusal left is `nameLength`. */
  lemma EnterRefusesOnlyLongNames(w: World, g: Guid, name: Option<string>, dir1: Directory, rid: RoomId, cfg: Config, o: Oracle)
    requires g in w.sessions && rid in dir1.rooms && !w.sessions[g].login
    ensures var r := Enter(w, g, name, dir1, rid, cfg, o);
            && Reply(g, LoginFail(NameMal)) !in r.out
            && Reply(g, LoginFail(Full)) !in r.out
            && (!r.world.sessions[g].login ==> r.out == [Reply(g, LoginFail(NameLength))])
  {
    var r := Enter(w, g, name, dir1, rid, cfg, o);
    var prefs := dir1.rooms[rid].prefs;
    if JsLength(NameOrDefault(name, prefs.defaultName)) <= prefs.nameLimit {
      assert r.out == [r.out[0], r.out[1], r.out[2]];
      assert r.out[0].ToRoom? && r.out[1].msg.UpdateAll? && r.out[2].msg.RoomInfo?;
    }
  }

  /** The room a login names, once reduced, and the preferences that will
      govern it: those of the live room, or the private defaults for a new one. */
  function TargetPrefs(d: Directory, rid: RoomId, cfg: Config): Prefs {
    if rid in d.rooms then d.rooms[rid].prefs else cfg.privatePrefs
  }

  /** The three refusals of a login that names a room, each exactly when its
      condition holds: `nameMal` for an id that reduces to nothing, `full` for a
      live full room, `nameLength` for a name over the room's limit. */
  lemma ExplicitLoginRefusals(w: World, g: Guid, data: LoginData, cfg: Config, o: Oracle)
    requires g in w.sessions && !w.sessions[g].login
    requires !RoomUnspecified(data.room)
    ensures var r := Login(w, g, Some(data), cfg, o);
            var rid := CleanIdent(data.room);
            && (r.out == [Reply(g, LoginFail(NameMal))] <==> rid == "")
            && (r.out == [Reply(g, LoginFail(Full))] <==> rid != "" && rid in w.dir.rooms && IsFull(w.dir.rooms[rid]))
            && (r.out == [Reply(g, LoginFail(NameLength))] <==>
                  rid != "" && !(rid in w.dir.rooms && IsFull(w.dir.rooms[rid])) && !NameFits(data.name, TargetPrefs(w.dir, rid, cfg)))
  {
    var rid := CleanIdent(data.room);
    var c := SelectRoom(w.dir, g, data.room, cfg, o.freshId);
    if c.Chosen? {
      assert c.dir.rooms[c.rid].prefs.nameLimit == TargetPrefs(w.dir, rid, cfg).nameLimit;
      assert c.dir.rooms[c.rid].prefs.defaultName == TargetPrefs(w.dir, rid, cfg).defaultName;
    }
  }

  /** A refused login joins nobody and stays logged out; an accepted one appends
      the user exactly once, to the room it now points at, and touches no other
      member list. */
  lemma LoginJoinsOnceOrNothing(w: World, g: Guid, data: LoginData, cfg: Config, o: Oracle)
    requires g in w.sessions && !w.sessions[g].login
    requires o.freshId !in w.dir.rooms
    ensures var r := Login(w, g, Some(data), cfg, o);
            !r.world.sessions[g].login ==>
              && |r.out| == 1 && r.out[0].Reply? && r.out[0].msg.LoginFail?
              && SameMembers(w.dir, r.world.dir)
    ensures var r := Login(w, g, Some(data), cfg, o);
            r.world.sessions[g].login ==>
              var rid := r.world.sessions[g].room.value;
              && rid in r.world.dir.rooms
              && r.world.dir.rooms[rid].users == (if rid in w.dir.rooms then w.dir.rooms[rid].users else []) + [g]
              && forall id :: id in w.dir.rooms && id != rid ==> id in r.world.dir.rooms && r.world.dir.rooms[id].users == w.dir.rooms[id].users
  {
    var c := SelectRoom(w.dir, g, data.room, cfg, o.freshId);
    if c.Chosen? {
      assert SameMembers(w.dir, c.dir);
    }
  }

  /** The user who names a room that does not exist becomes its owner, and the
      room is private. */
  lemma CreatorOwnsPrivateRoom(w: World, g: Guid, data: LoginData, cfg: Config, o: Oracle)
    requires g in w.sessions && !w.sessions[g].login && Valid(w.dir)
    requires !RoomUnspecified(data.room)
    requires CleanIdent(data.room) != "" && CleanIdent(data.room) !in w.dir.rooms
    requires NameFits(data.name, cfg.privatePrefs)
    ensures var r := Login(w, g, Some(data), cfg, o);
            var rid := CleanIdent(data.room);
            && LoggedIn(r.world, g)
            && r.world.sessions[g].room == Some(rid)
            && r.world.dir.rooms[rid].users == [g]
            && r.world.dir.rooms[rid].prefs.owner == Some(g)
            && |r.out| == 3
            && r.out[2] == Reply(g, RoomInfo(rid, true, false))
  {
  }

  /** A name over the limit is refused only after the room has been settled: a
      room the login created stays behind, empty and unjoined, and the session
      already points at it. */
  lemma LongNameLeavesEmptyRoom(w: World, g: Guid, data: LoginData, cfg: Config, o: Oracle)
    requires g in w.sessions && !w.sessions[g].login
    requires !RoomUnspecified(data.room)
    requires CleanIdent(data.room) != "" && CleanIdent(data.room) !in w.dir.rooms
    requires !NameFits(data.name, cfg.privatePrefs)
    ensures var r := Login(w, g, Some(data), cfg, o);
            var rid := CleanIdent(data.room);
            && r.out == [Reply(g, LoginFail(NameLength))]
            && !r.world.sessions[g].login
            && r.world.sessions[g].room == Some(rid)
            && rid in r.world.dir.rooms && r.world.dir.rooms[rid].users == []
  {
  }

  /** The public path leaves the same trace: with no usable public room, a
      name over the limit is refused after a fresh public room was made and
      listed, so the room stays behind empty in `roomsPublic`. */
  lemma LongNameLeavesEmptyPublicRoom(w: World, g: Guid, data: LoginData, cfg: Config, o: Oracle)
    requires g in w.sessions && !w.sessions[g].login
    requires RoomUnspecified(data.room)
    requires !NewestUsable(w.dir)
    requires !NameFits(data.name, cfg.publicPrefs)
    ensures var r := Login(w, g, Some(data), cfg, o);
            && r.out == [Reply(g, LoginFail(NameLength))]
            && !r.world.sessions[g].login
            && r.world.sessions[g].room == Some(o.freshId)
            && o.freshId in r.world.dir.rooms && r.world.dir.rooms[o.freshId].users == []
            && r.world.dir.publicIds == w.dir.publicIds + [o.freshId]
  {
  }

  // ---------------------------------------------------------------------------
  // The "undefined" room

  /** With no public room left, the public path as written looks up the room
      keyed "undefined"; when such a room is live and has space it is picked
      although it is not public, and the `room` reply carries no id. The
      corrected path always lands in a public room. */
  lemma UndefinedKeyIsPicked(d: Directory, prefs: Prefs, newId: Guid)
    requires Valid(d) && |d.publicIds| == 0
    requires "undefined" in d.rooms && !IsFull(d.rooms["undefined"])
    ensures var p := ResolvePublicAsWritten(d, prefs, newId);
            p.key == "undefined" && p.key !in p.dir.publicIds && p.reply.None? && p.dir == d
    ensures var c := ResolvePublic(d, prefs, newId);
            c.rid == newId && c.rid in c.dir.publicIds
  {
  }

  /** Anyone can make that room: a login that asks for the room "undefined",
      while no room of that name exists, creates it as a private room owned by
      the caller, and leaves `roomsPublic` as it was. The next login that asks
      for no room then lands in it under the code as written. */
  lemma UndefinedRoomIsReachable(w: World, g: Guid, name: Option<string>, cfg: Config, o: Oracle, prefs: Prefs, newId: Guid)
    requires g in w.sessions && !w.sessions[g].login && Valid(w.dir)
    requires |w.dir.publicIds| == 0 && "undefined" !in w.dir.rooms
    requires NameFits(name, cfg.privatePrefs) && cfg.privatePrefs.roomMax > 1
    ensures var r := Login(w, g, Some(LoginData(Some("undefined"), name)), cfg, o);
            && LoggedIn(r.world, g)
            && "undefined" in r.world.dir.rooms
            && r.world.dir.rooms["undefined"].prefs.owner == Some(g)
            && ResolvePublicAsWritten(r.world.dir, prefs, newId).key == "undefined"
            && ResolvePublicAsWritten(r.world.dir, prefs, newId).reply.None?
  {
    var rid := "undefined";
    assert forall c :: c in rid ==> IsIdentChar(c);
    IdentStringSurvives(rid);
    var data := LoginData(Some(rid), name);
    CreatorOwnsPrivateRoom(w, g, data, cfg, o);
    var dir1 := NewRoom(w.dir, rid, cfg.privatePrefs.(owner := Some(g)));
    assert SelectRoom(w.dir, g, Some(rid), cfg, o.freshId) == Chosen(dir1, rid);
    var r := Enter(w, g, name, dir1, rid, cfg, o);
    assert Login(w, g, Some(data), cfg, o) == r;
    assert Valid(r.world.dir) && r.world.dir.publicIds == [];
    assert !IsFull(r.world.dir.rooms[rid]);
    UndefinedKeyIsPicked(r.world.dir, prefs, newId);
  }
}

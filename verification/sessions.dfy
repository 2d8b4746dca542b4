/**
  The per-connection `User` (meat.js:268-503) except its command dispatch:
  construction, `login`, `talk` and `disconnect`, as pure steps over the whole
  server state.
 */
module Sessions {
  import opened Wrappers
  import opened Protocol
  import opened Sanitizer
  import opened JsBuiltins
  import opened Rooms

  /** One connected user: `guid`, `private` ({login, sanitize, runlevel}),
      `public` and the room it points at. */
  datatype Session = Session(
    guid: Guid,
    login: bool,
    sanitize: bool,
    runlevel: int,
    profile: Profile,
    room: Option<RoomId>)

  /** The room directory and every session, by guid. */
  datatype World = World(dir: Directory, sessions: map<Guid, Session>)

  /** A new server state together with the events emitted on the way. */
  datatype Step = Step(world: World, out: seq<Event>)

  /** What `settings.json` and `Utils.argsString` supply. */
  datatype Config = Config(
    privatePrefs: Prefs,
    publicPrefs: Prefs,
    palette: seq<string>,
    argsString: seq<string> -> string)

  /** The outcomes of `Utils.guidGen`, `Math.random` and `Utils.randomRangeInt`
      that one step consumes. */
  datatype Oracle = Oracle(freshId: Guid, random: real, pitchRoll: int, speedRoll: int) {
    predicate Valid() {
      0.0 <= random < 1.0
    }
  }

  /** A `login` payload that is an object; `None` stands for any other type. */
  datatype LoginData = LoginData(room: Option<string>, name: Option<string>)

  /** A `talk` payload that is an object; `None` stands for any other type. */
  datatype TalkData = TalkData(text: Option<string>)

  /** The text substituted for a payload that is not an object. */
  const Placeholder: string := "HEY EVERYONE LOOK AT ME I'M TRYING TO SCREW WITH THE SERVER LMAO"

  /** Logged in, pointing at a live room: the only sessions whose `talk`,
      `command` and `disconnect` listeners are attached (meat.js:393-395). */
  predicate LoggedIn(w: World, g: Guid) {
    && g in w.sessions
    && w.sessions[g].login
    && w.sessions[g].room.Some?
    && w.sessions[g].room.value in w.dir.rooms
  }

  /** The room of a logged-in session. */
  function RoomOf(w: World, g: Guid): (room: Room)
    requires LoggedIn(w, g)
  {
    w.dir.rooms[w.sessions[g].room.value]
  }

  /** Every session's public profile. */
  function Profiles(sessions: map<Guid, Session>): (m: map<Guid, Profile>)
    ensures m.Keys == sessions.Keys
    ensures forall g :: g in m ==> m[g] == sessions[g].profile
  {
    map g | g in sessions :: sessions[g].profile
  }

  /** `bc[Math.floor(Math.random() * bc.length)]`: undefined for an empty palette. */
  function PickColor(palette: seq<string>, u: real): (c: Option<string>)
    requires 0.0 <= u < 1.0
    ensures c.Some? <==> |palette| > 0
    ensures c.Some? ==> c.value in palette
  {
    if |palette| == 0 then None
    else
      var n := |palette| as real;
      assert u * n < n;
      Some(palette[(u * n).Floor])
  }

  // ---------------------------------------------------------------------------
  // new User(socket) (meat.js:269-295)

  /** A new session: not logged in, sanitizing, runlevel 0, a random colour
      and no name, pitch, speed or room. The ban check is not modelled. */
  function NewSession(g: Guid, cfg: Config, o: Oracle): (s: Session)
    requires o.Valid()
    ensures s.guid == g && !s.login && s.sanitize && s.runlevel == 0 && s.room.None?
    ensures s.profile.name.None? && s.profile.pitch.None? && s.profile.speed.None?
    ensures s.profile.color.Some? <==> |cfg.palette| > 0
    ensures s.profile.color.Some? ==> s.profile.color.value in cfg.palette
  {
    Session(g, false, true, 0, Profile(PickColor(cfg.palette, o.random), None, None, None), None)
  }

  /** `io.on('connection', ...)` (meat.js:21-23): a fresh guid gets a new
      session, and nothing else changes. */
  function Connect(w: World, g: Guid, cfg: Config, o: Oracle): (w': World)
    requires g !in w.sessions
    requires o.Valid()
    ensures w'.dir == w.dir
    ensures w'.sessions.Keys == w.sessions.Keys + {g}
    ensures forall h :: h in w.sessions ==> w'.sessions[h] == w.sessions[h]
    ensures w'.sessions[g] == NewSession(g, cfg, o) && !LoggedIn(w', g)
  {
    World(w.dir, w.sessions[g := NewSession(g, cfg, o)])
  }

  // ---------------------------------------------------------------------------
  // Room selection (meat.js:317-357)

  /** The room a login settles on, in the directory as it stands after any
      room creation the selection performed. */
  datatype Selection = Rejected(reason: LoginFailReason) | Chosen(dir: Directory, rid: RoomId)

  /** The last entry of `roomsPublic`. */
  function Newest(d: Directory): RoomId
    requires |d.publicIds| > 0
  {
    d.publicIds[|d.publicIds| - 1]
  }

  /** The newest public room is live and has space. */
  predicate NewestUsable(d: Directory) {
    |d.publicIds| > 0 && Newest(d) in d.rooms && !IsFull(d.rooms[Newest(d)])
  }

  /** With `roomsPublic` empty, a live room keyed "undefined" has space. */
  predicate UndefinedUsable(d: Directory) {
    |d.publicIds| == 0 && "undefined" in d.rooms && !IsFull(d.rooms["undefined"])
  }

  /** The result of the public path as the code is written: the room key used
      for `rooms[...]`, and the id sent back in the `room` reply (`None` when
      `rid` is undefined). */
  datatype PublicPick = PublicPick(dir: Directory, key: RoomId, reply: Option<RoomId>)

  /** The public path exactly as written (meat.js:320-321, 350-354). With
      `roomsPublic` empty, `roomsPublic[0]` is undefined and `rooms[undefined]`
      reads the property named "undefined", which any user can create as a
      private room. */
  function ResolvePublicAsWritten(d: Directory, prefs: Prefs, newId: Guid): (p: PublicPick)
    ensures p.key in p.dir.rooms
    ensures |d.publicIds| > 0 ==> p.reply == Some(p.key)
    ensures NewestUsable(d) ==> p == PublicPick(d, Newest(d), Some(Newest(d)))
    ensures UndefinedUsable(d) ==> p == PublicPick(d, "undefined", None)
    ensures !NewestUsable(d) && !UndefinedUsable(d) ==>
              && p.key == newId && p.reply == Some(newId)
              && p.dir.publicIds == d.publicIds + [newId]
              && p.dir.rooms == d.rooms[newId := Room(newId, prefs, [])]
  {
    var cand := if |d.publicIds| > 0 then Some(d.publicIds[|d.publicIds| - 1]) else None;
    var key := if cand.Some? then cand.value else "undefined";
    if key in d.rooms && !IsFull(d.rooms[key]) then PublicPick(d, key, cand)
    else
      var d1 := d.(publicIds := d.publicIds + [newId]);
      PublicPick(NewRoom(d1, newId, prefs), newId, Some(newId))
  }

  /** The public path as intended: the newest public room if it is live and has
      space, otherwise a fresh public room. */
  function ResolvePublic(d: Directory, prefs: Prefs, newId: Guid): (c: Selection)
    ensures c.Chosen?
    ensures c.rid in c.dir.rooms && c.rid in c.dir.publicIds
    ensures NewestUsable(d) ==> c.dir == d && c.rid == Newest(d)
    ensures !NewestUsable(d) ==>
              && c.rid == newId
              && c.dir.publicIds == d.publicIds + [newId]
              && c.dir.rooms == d.rooms[newId := Room(newId, prefs, [])]
  {
    if NewestUsable(d) then Chosen(d, Newest(d))
    else Chosen(NewRoom(d.(publicIds := d.publicIds + [newId]), newId, prefs), newId)
  }

  /** Away from the "undefined" input, the public path as written and as
      intended settle on the same directory and room, and the reply names it:
      the correction changes nothing else. */
  lemma PublicPathsAgree(d: Directory, prefs: Prefs, newId: Guid)
    requires !UndefinedUsable(d)
    ensures var p := ResolvePublicAsWritten(d, prefs, newId);
            ResolvePublic(d, prefs, newId) == Chosen(p.dir, p.key) && p.reply == Some(p.key)
  {
  }

  /** `data.room` is missing or the empty string. */
  predicate RoomUnspecified(room: Option<string>) {
    room.None? || room.value == ""
  }

  /** The test `/^[a-zA-Z0-9_-]+$/` (meat.js:331). */
  predicate IsRoomName(rid: string) {
    |rid| > 0 && forall i :: 0 <= i < |rid| ==> IsIdentChar(rid[i])
  }

  /** Room selection for a login by `g` (meat.js:317-355). */
  function SelectRoom(d: Directory, g: Guid, room: Option<string>, cfg: Config, newId: Guid): (c: Selection)
    ensures c.Chosen? ==> c.rid in c.dir.rooms
    ensures RoomUnspecified(room) ==> c == ResolvePublic(d, cfg.publicPrefs, newId)
    ensures !RoomUnspecified(room) ==>
              var rid := CleanIdent(room);
              && (c == Rejected(NameMal) <==> rid == "")
              && (rid != "" && rid in d.rooms && IsFull(d.rooms[rid]) ==> c == Rejected(Full))
              && (rid != "" && rid in d.rooms && !IsFull(d.rooms[rid]) ==> c == Chosen(d, rid))
              && (rid != "" && rid !in d.rooms ==>
                    c == Chosen(NewRoom(d, rid, cfg.privatePrefs.(owner := Some(g))), rid))
  {
    if RoomUnspecified(room) then ResolvePublic(d, cfg.publicPrefs, newId)
    else
      var rid := CleanIdent(room);
      assert IsRoomName(rid) <==> rid != "";
      if !IsRoomName(rid) then Rejected(NameMal)
      else if rid !in d.rooms then
        Chosen(NewRoom(d, rid, cfg.privatePrefs.(owner := Some(g))), rid)
      else if IsFull(d.rooms[rid]) then Rejected(Full)
      else Chosen(d, rid)
  }

  // ---------------------------------------------------------------------------
  // login (meat.js:305-396)

  /** `customSanitize(name, 'A-Za-z0-9_-') || defaultName`. */
  function NameOrDefault(raw: Option<string>, default: string): (n: string)
    ensures CleanIdent(raw) != "" ==> n == CleanIdent(raw)
    ensures CleanIdent(raw) == "" ==> n == default
  {
    var n := CleanIdent(raw);
    if n == "" then default else n
  }

  /** A pitch or speed default: `randomRangeInt(min, max)` when it is "random". */
  function DefaultValue(r: Range, roll: int): int {
    match r.default
    case Fixed(v) => v
    case RandomDefault => roll
  }

  /** Room member lists are as before, and any room that is new is empty. */
  ghost predicate SameMembers(d: Directory, d': Directory) {
    && (forall id :: id in d.rooms ==> id in d'.rooms && d'.rooms[id].users == d.rooms[id].users)
    && (forall id :: id in d'.rooms && id !in d.rooms ==> d'.rooms[id].users == [])
  }

  /** The second half of `login`, once the room `rid` of `dir1` is settled
      (meat.js:357-391): the name check, then the join and the two replies. */
  function Enter(w: World, g: Guid, name: Option<string>, dir1: Directory, rid: RoomId, cfg: Config, o: Oracle): (r: Step)
    requires g in w.sessions && rid in dir1.rooms
    ensures r.world.sessions.Keys == w.sessions.Keys
    ensures forall h :: h in w.sessions && h != g ==> r.world.sessions[h] == w.sessions[h]
    ensures var s, s' := w.sessions[g], r.world.sessions[g];
            s'.guid == s.guid && s'.runlevel == s.runlevel && s'.sanitize == s.sanitize && s'.room == Some(rid)
    ensures r.world.sessions[g].login == !(JsLength(NameOrDefault(name, dir1.rooms[rid].prefs.defaultName)) > dir1.rooms[rid].prefs.nameLimit) || w.sessions[g].login
    ensures !r.world.sessions[g].login ==> r.world.dir == dir1
    ensures Valid(dir1) ==> Valid(r.world.dir)
    ensures r.world.sessions[g].login && !w.sessions[g].login ==>
              && rid in r.world.dir.rooms
              && r.world.dir.rooms[rid].users == dir1.rooms[rid].users + [g]
              && r.world.dir.rooms[rid].prefs == dir1.rooms[rid].prefs
              && r.world.dir.rooms.Keys == dir1.rooms.Keys
              && r.world.dir.publicIds == dir1.publicIds
              && (forall id :: id in dir1.rooms && id != rid ==> r.world.dir.rooms[id] == dir1.rooms[id])
    ensures var prefs := dir1.rooms[rid].prefs;
            var n := NameOrDefault(name, prefs.defaultName);
            JsLength(n) > prefs.nameLimit ==>
              && r.out == [Reply(g, LoginFail(NameLength))]
              && r.world.sessions[g].profile == w.sessions[g].profile.(name := Some(n))
    ensures var prefs := dir1.rooms[rid].prefs;
            var n := NameOrDefault(name, prefs.defaultName);
            var p := r.world.sessions[g].profile;
            JsLength(n) <= prefs.nameLimit ==>
              && p.name == Some(n) && p.color == w.sessions[g].profile.color
              && (prefs.speed.default.Fixed? ==> p.speed == Some(prefs.speed.default.value))
              && (prefs.speed.default.RandomDefault? ==> p.speed == Some(o.speedRoll))
              && (prefs.pitch.default.Fixed? ==> p.pitch == Some(prefs.pitch.default.value))
              && (prefs.pitch.default.RandomDefault? ==> p.pitch == Some(o.pitchRoll))
    ensures var prefs := dir1.rooms[rid].prefs;
            JsLength(NameOrDefault(name, prefs.defaultName)) <= prefs.nameLimit ==>
              && |r.out| == 3
              && r.out[0] == ToRoom(rid, Update(g, r.world.sessions[g].profile))
              && r.out[1].Reply? && r.out[1].to == g && r.out[1].msg.UpdateAll?
              && r.out[1].msg.usersPublic.Keys == (set h | h in dir1.rooms[rid].users + [g] && h in r.world.sessions)
              && (forall h :: h in r.out[1].msg.usersPublic ==> r.out[1].msg.usersPublic[h] == r.world.sessions[h].profile)
              && r.out[2] == Reply(g, RoomInfo(rid, prefs.owner == Some(g), rid in dir1.publicIds))
  {
    var s := w.sessions[g];
    var prefs := dir1.rooms[rid].prefs;
    var n := NameOrDefault(name, prefs.defaultName);
    var named := s.(room := Some(rid), profile := s.profile.(name := Some(n)));
    if JsLength(n) > prefs.nameLimit then
      Step(World(dir1, w.sessions[g := named]), [Reply(g, LoginFail(NameLength))])
    else
      var joined := named.(login := true, profile := named.profile.(
        speed := Some(DefaultValue(prefs.speed, o.speedRoll)),
        pitch := Some(DefaultValue(prefs.pitch, o.pitchRoll))));
      var j := Join(dir1, rid, g, joined.profile);
      var sessions := w.sessions[g := joined];
      Step(World(j.dir, sessions),
           j.out + [Reply(g, UpdateAll(UsersPublic(j.dir.rooms[rid], Profiles(sessions)))),
                    Reply(g, RoomInfo(rid, prefs.owner == Some(g), rid in j.dir.publicIds))])
  }

  /** `User.login(data)` (meat.js:305-396). */
  function Login(w: World, g: Guid, data: Option<LoginData>, cfg: Config, o: Oracle): (r: Step)
    requires g in w.sessions
    ensures data.None? || w.sessions[g].login ==> r == Step(w, [])
    ensures r.world.sessions.Keys == w.sessions.Keys
    ensures forall h :: h in w.sessions && h != g ==> r.world.sessions[h] == w.sessions[h]
    ensures var s, s' := w.sessions[g], r.world.sessions[g];
            s'.guid == s.guid && s'.runlevel == s.runlevel && s'.sanitize == s.sanitize
    ensures r.world.sessions[g].login && !w.sessions[g].login ==> LoggedIn(r.world, g)
  {
    var s := w.sessions[g];
    if data.None? || s.login then Step(w, [])
    else
      match SelectRoom(w.dir, g, data.value.room, cfg, o.freshId)
      case Rejected(reason) => Step(w, [Reply(g, LoginFail(reason))])
      case Chosen(dir1, rid) => Enter(w, g, data.value.name, dir1, rid, cfg, o)
  }

  // ---------------------------------------------------------------------------
  // talk (meat.js:398-419)

  function Talk(w: World, g: Guid, data: Option<TalkData>): (out: seq<Event>)
    requires LoggedIn(w, g)
    ensures |out| <= 1
    ensures var text := if data.None? then Some(Placeholder) else data.value.text;
            |out| == 1 <==> text.Some? && 0 < JsLength(Clean(text)) <= RoomOf(w, g).prefs.charLimit
    ensures |out| == 1 ==> out[0].ToRoom? && out[0].rid == w.sessions[g].room.value
    ensures |out| == 1 ==> out[0].msg.Talk? && out[0].msg.guid == g && NoMarkup(out[0].msg.text)
    ensures |out| == 1 ==> out[0].msg.text == CustomSanitize(if data.None? then Some(Placeholder) else data.value.text, None).value
  {
    var text := if data.None? then Some(Placeholder) else data.value.text;
    if text.None? then []
    else
      var t := Clean(text);
      if JsLength(t) <= RoomOf(w, g).prefs.charLimit && JsLength(t) > 0 then
        [ToRoom(w.sessions[g].room.value, Msg.Talk(g, t))]
      else []
  }

  /** What `talk` emits depends only on the speaker's room and the room's
      preferences: not on the name, colour, runlevel or `sanitize` flag. */
  lemma TalkReadsOnlyRoom(w: World, w': World, g: Guid, data: Option<TalkData>)
    requires LoggedIn(w, g) && g in w'.sessions && w'.dir == w.dir
    requires w'.sessions[g].login && w'.sessions[g].room == w.sessions[g].room
    ensures LoggedIn(w', g) && Talk(w', g, data) == Talk(w, g, data)
  {
  }

  // ---------------------------------------------------------------------------
  // disconnect (meat.js:473-502)

  /** The body of `disconnect`: `leave` to every other socket, then
      `room.leave(this)`. It has no guard of its own. */
  function Teardown(d: Directory, s: Session): (c: Change)
    requires s.room.Some?
    ensures |c.out| == 2
    ensures c.out[0] == ToAllBut(s.guid, Msg.Leave(s.guid))
    ensures c.out[1] == ToRoom(s.room.value, Msg.Leave(s.guid))
    ensures c == Change(Rooms.Leave(d, s.room.value, s.guid).dir, c.out)
  {
    var l := Rooms.Leave(d, s.room.value, s.guid);
    Change(l.dir, [ToAllBut(s.guid, Msg.Leave(s.guid))] + l.out)
  }

  /** `disconnect` has no guard: a second run repeats both `leave`
      broadcasts, while the directory stays as the first run left it. */
  lemma TeardownTwice(d: Directory, s: Session)
    requires s.room.Some? && Valid(d)
    requires s.room.value in d.rooms ==> NoDup(d.rooms[s.room.value].users)
    ensures var c1 := Teardown(d, s);
            var c2 := Teardown(c1.dir, s);
            c2.dir == c1.dir && c2.out == c1.out
  {
    LeaveIdempotent(d, s.room.value, s.guid);
  }

  /** A transport-level disconnect of a logged-in session: the teardown runs
      and the connection, with the session, is released. */
  function Disconnect(w: World, g: Guid): (r: Step)
    requires LoggedIn(w, g)
    ensures r.world.sessions == w.sessions - {g}
    ensures |r.out| == 2
    ensures r.out == Teardown(w.dir, w.sessions[g]).out
    ensures r.world.dir == Rooms.Leave(w.dir, w.sessions[g].room.value, w.sessions[g].guid).dir
    ensures var me, rid := w.sessions[g].guid, w.sessions[g].room.value;
            var users := w.dir.rooms[rid].users;
            && (me in users && |users| == 1 ==> rid !in r.world.dir.rooms)
            && (me in users && |users| > 1 ==> rid in r.world.dir.rooms && |r.world.dir.rooms[rid].users| == |users| - 1)
            && (me !in users ==> r.world.dir == w.dir)
    ensures Valid(w.dir) ==> Valid(r.world.dir)
  {
    var s := w.sessions[g];
    var l := Rooms.Leave(w.dir, s.room.value, s.guid);
    var c := Teardown(w.dir, s);
    assert c.dir == l.dir;
    Step(World(c.dir, w.sessions - {g}), c.out)
  }
}

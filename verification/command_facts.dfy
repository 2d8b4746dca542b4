/**
  Properties of `User.command` (meat.js:421-471) and the table entries it
  dispatches to (meat.js:119-266).
 */
module CommandFacts {
  import opened Wrappers
  import opened Protocol
  import opened Sanitizer
  import opened JsBuiltins
  import opened Rooms
  import opened Sessions
  import opened Commands

  /** The caller may run `name` in its room. */
  predicate Permitted(w: World, g: Guid, name: string)
    requires LoggedIn(w, g)
  {
    w.sessions[g].runlevel >= Threshold(RoomOf(w, g).prefs, name)
  }

  /** What a handler of a logged-in caller sees as `this`. */
  function CtxOf(w: World, g: Guid): Ctx
    requires LoggedIn(w, g)
  {
    Ctx(w.sessions[g], w.sessions[g].room.value, RoomOf(w, g).prefs)
  }

  /** The argument a handler sees at position 0, after `command`'s own pass. */
  function FirstArg(list: seq<string>): (a: Option<string>)
    requires |list| > 0
    ensures |list| == 1 ==> a.None?
    ensures |list| > 1 ==> a == Some(CleanIdent(Some(list[1])))
  {
    Arg(CleanAll(list)[1..], 0)
  }

  /** The handler that `pitch` or `speed` names. */
  function TuneCmd(speed: bool): HandlerId {
    if speed then SpeedCmd else PitchCmd
  }

  // Which handler function each table entry runs.

  lemma RunsUrl(k: Media, c: Ctx, args: seq<string>, cfg: Config, o: Oracle)
    requires o.Valid()
    ensures RunHandler(UrlCmd(k), c, args, cfg, o) == UrlH(c, k, Arg(args, 0))
  {
  }

  lemma RunsYoutube(c: Ctx, args: seq<string>, cfg: Config, o: Oracle)
    requires o.Valid()
    ensures RunHandler(YoutubeCmd, c, args, cfg, o) == YoutubeH(c, Arg(args, 0))
  {
  }

  lemma RunsTune(speed: bool, c: Ctx, args: seq<string>, cfg: Config, o: Oracle)
    requires o.Valid()
    ensures RunHandler(TuneCmd(speed), c, args, cfg, o) == TuneH(c, speed, Arg(args, 0))
  {
  }

  lemma RunsGodmode(c: Ctx, args: seq<string>, cfg: Config, o: Oracle)
    requires o.Valid()
    ensures RunHandler(Godmode, c, args, cfg, o) == GodmodeH(c, Arg(args, 0))
  {
  }

  lemma RunsName(c: Ctx, args: seq<string>, cfg: Config, o: Oracle)
    requires o.Valid()
    ensures RunHandler(NameCmd, c, args, cfg, o) == NameH(c, args, cfg)
  {
  }

  lemma RunsColor(c: Ctx, args: seq<string>, cfg: Config, o: Oracle)
    requires o.Valid()
    ensures RunHandler(ColorCmd, c, args, cfg, o) == ColorH(c, Arg(args, 0), cfg, o)
  {
  }

  lemma RunsSanitize(c: Ctx, args: seq<string>, cfg: Config, o: Oracle)
    requires o.Valid()
    ensures RunHandler(SanitizePref, c, args, cfg, o) == SanitizeH(c, args, cfg)
  {
  }

  /** A handler that leaves the caller as it was leaves the world as it was. */
  lemma ApplyUnchanged(w: World, g: Guid, res: Outcome)
    requires g in w.sessions && res.Done? && res.s == w.sessions[g]
    ensures Apply(w, g, res) == Step(w, res.out)
  {
    assert w.sessions[g := res.s] == w.sessions;
  }

  /** The table name of each embedding command. */
  function MediaCommand(k: Media): string {
    match k
    case Img => "img"
    case Video => "video"
    case Iframe => "iframe"
  }

  /** The table entries the properties below rely on. */
  lemma Entries()
    ensures "youtube" in UserCommands && UserCommands["youtube"] == Handler(YoutubeCmd)
    ensures "godmode" in UserCommands && UserCommands["godmode"] == Handler(Godmode)
    ensures "sanitize" in UserCommands && UserCommands["sanitize"] == Handler(SanitizePref)
    ensures "pitch" in UserCommands && UserCommands["pitch"] == Handler(PitchCmd)
    ensures "speed" in UserCommands && UserCommands["speed"] == Handler(SpeedCmd)
    ensures "name" in UserCommands && UserCommands["name"] == Handler(NameCmd)
    ensures "color" in UserCommands && UserCommands["color"] == Handler(ColorCmd)
  {
  }

  lemma MediaEntry(k: Media)
    ensures MediaCommand(k) in UserCommands && UserCommands[MediaCommand(k)] == Handler(UrlCmd(k))
  {
  }

  // A permitted table command runs its handler on the reduced arguments.

  lemma UrlRuns(w: World, g: Guid, list: seq<string>, k: Media, cfg: Config, o: Oracle)
    requires LoggedIn(w, g) && o.Valid() && |list| > 0 && CommandName(list) == MediaCommand(k)
    requires Permitted(w, g, CommandName(list))
    ensures Command(w, g, Some(list), cfg, o) == Apply(w, g, UrlH(CtxOf(w, g), k, FirstArg(list)))
  {
    MediaEntry(k);
    RunsUrl(k, CtxOf(w, g), CleanAll(list)[1..], cfg, o);
  }

  lemma YoutubeRuns(w: World, g: Guid, list: seq<string>, cfg: Config, o: Oracle)
    requires LoggedIn(w, g) && o.Valid() && |list| > 0 && CommandName(list) == "youtube"
    requires Permitted(w, g, "youtube")
    ensures Command(w, g, Some(list), cfg, o) == Apply(w, g, YoutubeH(CtxOf(w, g), FirstArg(list)))
  {
    Entries();
    RunsYoutube(CtxOf(w, g), CleanAll(list)[1..], cfg, o);
  }

  lemma TuneRuns(w: World, g: Guid, list: seq<string>, speed: bool, cfg: Config, o: Oracle)
    requires LoggedIn(w, g) && o.Valid() && |list| > 0 && CommandName(list) == (if speed then "speed" else "pitch")
    requires Permitted(w, g, CommandName(list))
    ensures Command(w, g, Some(list), cfg, o) == Apply(w, g, TuneH(CtxOf(w, g), speed, FirstArg(list)))
  {
    Entries();
    RunsTune(speed, CtxOf(w, g), CleanAll(list)[1..], cfg, o);
  }

  lemma GodmodeRuns(w: World, g: Guid, list: seq<string>, cfg: Config, o: Oracle)
    requires LoggedIn(w, g) && o.Valid() && |list| > 0 && CommandName(list) == "godmode"
    requires Permitted(w, g, "godmode")
    ensures Command(w, g, Some(list), cfg, o) == Apply(w, g, GodmodeH(CtxOf(w, g), FirstArg(list)))
  {
    Entries();
    RunsGodmode(CtxOf(w, g), CleanAll(list)[1..], cfg, o);
  }


  /** `img`, `video` and `iframe` never embed anything: an argument survives the
      identifier pass only as a truthy string, which the URL class then throws
      on, and an empty one fails the `http` prefix test. */
  lemma UrlCommandsNeverEmbed(w: World, g: Guid, list: seq<string>, k: Media, cfg: Config, o: Oracle)
    requires LoggedIn(w, g) && o.Valid() && |list| > 0
    requires CommandName(list) == MediaCommand(k)
    ensures var r := Command(w, g, Some(list), cfg, o);
            && r.world == w
            && |r.out| == 1 && r.out[0] == Reply(w.sessions[g].guid, r.out[0].msg) && r.out[0].msg.CommandFail?
    ensures var r := Command(w, g, Some(list), cfg, o);
            Permitted(w, g, CommandName(list)) ==>
              (r.out[0].msg.commandReason == InvalidFormat <==> Falsy(FirstArg(list)))
  {
    if Permitted(w, g, CommandName(list)) {
      UrlRuns(w, g, list, k, cfg, o);
      var res := UrlH(CtxOf(w, g), k, FirstArg(list));
      if res.Done? {
        ApplyUnchanged(w, g, res);
      }
    }
  }

  /** `godmode` is the only table entry that runs the `godmode` handler. */
  lemma GodmodeEntryUnique(name: string)
    requires name in UserCommands && UserCommands[name] == Handler(Godmode)
    ensures name == "godmode"
  {
  }

  /** A command changes the caller's runlevel only when it is `godmode`, and
      then only to 3: no other command, and no refusal, raises privileges. */
  lemma RunlevelOnlyByGodmode(w: World, g: Guid, data: Option<seq<string>>, cfg: Config, o: Oracle)
    requires LoggedIn(w, g) && o.Valid()
    ensures var r := Command(w, g, data, cfg, o);
            r.world.sessions[g].runlevel != w.sessions[g].runlevel ==>
              && data.Some? && |data.value| > 0 && CommandName(data.value) == "godmode"
              && r.world.sessions[g].runlevel == GodRunlevel
  {
    var r := Command(w, g, data, cfg, o);
    if r.world.sessions[g].runlevel != w.sessions[g].runlevel {
      var name := CommandName(data.value);
      GodmodeEntryUnique(name);
    }
  }

  /** `youtube` embeds exactly when the argument reduced to the identifier
      class is eleven characters long, and it embeds that reduced id. */
  lemma YoutubeEmbedsIff(w: World, g: Guid, list: seq<string>, cfg: Config, o: Oracle)
    requires LoggedIn(w, g) && o.Valid() && |list| > 0
    requires CommandName(list) == "youtube" && Permitted(w, g, "youtube")
    ensures var r := Command(w, g, Some(list), cfg, o);
            var vid := if |list| > 1 then CleanIdent(Some(list[1])) else "";
            && r.world == w && |r.out| == 1
            && (r.out[0].ToRoom? <==> IsVideoId(vid))
            && (r.out[0].ToRoom? ==> r.out[0].msg == Youtube(w.sessions[g].guid, vid))
  {
    YoutubeRuns(w, g, list, cfg, o);
    var res := YoutubeH(CtxOf(w, g), FirstArg(list));
    ApplyUnchanged(w, g, res);
    if |list| > 1 {
      CleanIdentIdempotent(Some(list[1]));
    }
  }

  /** The digits and sign of a decimal literal are identifier characters. */
  lemma {:induction false} DecimalIsIdent(n: int)
    ensures |Decimal(n)| > 0
    ensures forall c :: c in Decimal(n) ==> IsIdentChar(c)
  {
    var m := if n < 0 then -n else n;
    var digits := Render(m, 10);
    assert forall i :: 0 <= i < |digits| ==> '0' <= digits[i] <= '9' by {
      forall i | 0 <= i < |digits| ensures '0' <= digits[i] <= '9' {
        assert IsDigitIn(digits[i], 10);
      }
    }
    if n < 0 {
      assert Decimal(n) == ['-'] + digits;
    }
  }

  /** The identifier pass leaves a decimal literal untouched. */
  lemma DecimalSurvivesCleaning(n: int)
    ensures CleanIdent(Some(Decimal(n))) == Decimal(n)
  {
    DecimalIsIdent(n);
    IdentStringSurvives(Decimal(n));
  }

  /** `pitch n` and `speed n` store `n` clamped into the room's range: the
      decimal text of any integer reads back through both passes. */
  lemma TuneStoresClampedValue(w: World, g: Guid, list: seq<string>, n: int, speed: bool, cfg: Config, o: Oracle)
    requires LoggedIn(w, g) && o.Valid() && |list| > 1 && list[1] == Decimal(n)
    requires CommandName(list) == (if speed then "speed" else "pitch")
    requires Permitted(w, g, CommandName(list))
    ensures var p := Command(w, g, Some(list), cfg, o).world.sessions[g].profile;
            var range := if speed then RoomOf(w, g).prefs.speed else RoomOf(w, g).prefs.pitch;
            var v := Clamp(n, range.min, range.max);
            (if speed then p.speed else p.pitch) == Some(v)
  {
    DecimalSurvivesCleaning(n);
    ParseIntDecimal(n);
    TuneRuns(w, g, list, speed, cfg, o);
  }

  /** Whatever the argument, a stored pitch or speed lies in the room's range
      (when the range is not inverted), or nothing changed. */
  lemma TuneStaysInRange(w: World, g: Guid, list: seq<string>, speed: bool, cfg: Config, o: Oracle)
    requires LoggedIn(w, g) && o.Valid() && |list| > 0
    requires CommandName(list) == (if speed then "speed" else "pitch")
    ensures var r := Command(w, g, Some(list), cfg, o);
            var before := w.sessions[g].profile;
            var after := r.world.sessions[g].profile;
            var range := if speed then RoomOf(w, g).prefs.speed else RoomOf(w, g).prefs.pitch;
            var x := if speed then after.speed else after.pitch;
            range.min <= range.max ==>
              after == before || (x.Some? && range.min <= x.value <= range.max)
  {
    if Permitted(w, g, CommandName(list)) {
      TuneRuns(w, g, list, speed, cfg, o);
    }
  }

  /** No reduced argument equals a word with a character outside the class. */
  lemma ReducedArgMisses(list: seq<string>, word: string)
    requires |list| > 0 && exists c :: c in word && !IsIdentChar(c)
    ensures FirstArg(list) != Some(word)
  {
  }

  /** A god word with a character outside `[A-Za-z0-9_-]` can never be
      matched: `command` reduces every argument to that class first. */
  lemma GodwordOutsideClassUnreachable(w: World, g: Guid, list: seq<string>, cfg: Config, o: Oracle)
    requires LoggedIn(w, g) && o.Valid() && |list| > 0 && CommandName(list) == "godmode"
    requires var gw := RoomOf(w, g).prefs.godword; gw.Some? && exists c :: c in gw.value && !IsIdentChar(c)
    ensures Command(w, g, Some(list), cfg, o).world == w
  {
    if Permitted(w, g, "godmode") {
      GodmodeRuns(w, g, list, cfg, o);
      var res := GodmodeH(CtxOf(w, g), FirstArg(list));
      ReducedArgMisses(list, RoomOf(w, g).prefs.godword.value);
      ApplyUnchanged(w, g, res);
    }
  }

  /** With a god word inside the identifier class, typing it grants runlevel 3. */
  lemma GodwordGrants(w: World, g: Guid, list: seq<string>, cfg: Config, o: Oracle)
    requires LoggedIn(w, g) && o.Valid() && |list| > 1 && CommandName(list) == "godmode"
    requires Permitted(w, g, "godmode")
    requires var gw := RoomOf(w, g).prefs.godword;
             gw == Some(list[1]) && forall c :: c in list[1] ==> IsIdentChar(c)
    ensures Command(w, g, Some(list), cfg, o).world.sessions[g].runlevel == GodRunlevel
  {
    IdentStringSurvives(list[1]);
    GodmodeRuns(w, g, list, cfg, o);
  }

  /** `sanitize` changes the caller's flag and nothing else: off exactly for
      the listed words, compared after lower-casing the joined arguments. */
  lemma SanitizeSetsOnlyFlag(w: World, g: Guid, list: seq<string>, cfg: Config, o: Oracle)
    requires LoggedIn(w, g) && o.Valid() && |list| > 0 && CommandName(list) == "sanitize"
    requires Permitted(w, g, "sanitize")
    ensures var r := Command(w, g, Some(list), cfg, o);
            var flag := r.world.sessions[g].sanitize;
            && r.out == []
            && r.world == w.(sessions := w.sessions[g := w.sessions[g].(sanitize := flag)])
            && (!flag <==> TurnsOff(cfg.argsString(CleanAll(list)[1..])))
  {
    Entries();
    RunsSanitize(CtxOf(w, g), CleanAll(list)[1..], cfg, o);
  }

  /** The `sanitize` preference is stored but `talk` does not consult it. */
  lemma SanitizeFlagIgnoredByTalk(w: World, g: Guid, list: seq<string>, data: Option<TalkData>, cfg: Config, o: Oracle)
    requires LoggedIn(w, g) && o.Valid() && |list| > 0 && CommandName(list) == "sanitize"
    ensures var r := Command(w, g, Some(list), cfg, o);
            LoggedIn(r.world, g) && Sessions.Talk(r.world, g, data) == Sessions.Talk(w, g, data)
  {
    var r := Command(w, g, Some(list), cfg, o);
    TalkReadsOnlyRoom(w, r.world, g, data);
  }

  lemma NameRuns(w: World, g: Guid, list: seq<string>, cfg: Config, o: Oracle)
    requires LoggedIn(w, g) && o.Valid() && |list| > 0 && CommandName(list) == "name"
    requires Permitted(w, g, "name")
    ensures Command(w, g, Some(list), cfg, o) == Apply(w, g, NameH(CtxOf(w, g), CleanAll(list)[1..], cfg))
  {
    Entries();
    RunsName(CtxOf(w, g), CleanAll(list)[1..], cfg, o);
  }

  /** Every character is in `[A-Za-z0-9_-]`. */
  predicate IsIdent(t: string) {
    forall c :: c in t ==> IsIdentChar(c)
  }

  lemma NameHStoresIdent(c: Ctx, args: seq<string>, cfg: Config)
    ensures var p := NameH(c, args, cfg).s.profile;
            JsLength(cfg.argsString(args)) <= c.prefs.nameLimit ==>
              p.name.Some? && (p.name.value == c.prefs.defaultName || IsIdent(p.name.value))
  {
  }

  /** A name set by `name` is the joined arguments reduced to the identifier
      class, or the room's default name when nothing survives; joined
      arguments longer than the room's limit leave the name alone. */
  lemma NameIsIdentOrDefault(w: World, g: Guid, list: seq<string>, cfg: Config, o: Oracle)
    requires LoggedIn(w, g) && o.Valid() && |list| > 0 && CommandName(list) == "name"
    requires Permitted(w, g, "name")
    ensures var r := Command(w, g, Some(list), cfg, o);
            var text := cfg.argsString(CleanAll(list)[1..]);
            var before, after := w.sessions[g].profile.name, r.world.sessions[g].profile.name;
            && (JsLength(text) > RoomOf(w, g).prefs.nameLimit ==> after == before && r.out == [])
            && (JsLength(text) <= RoomOf(w, g).prefs.nameLimit ==>
                  && after.Some? && (after.value == RoomOf(w, g).prefs.defaultName || IsIdent(after.value))
                  && r.out == [ToRoom(w.sessions[g].room.value, Update(w.sessions[g].guid, r.world.sessions[g].profile))])
  {
    NameRuns(w, g, list, cfg, o);
    NameHStoresIdent(CtxOf(w, g), CleanAll(list)[1..], cfg);
  }

  /** `color` only ever stores a palette colour: a named colour outside the
      palette changes nothing, and no argument draws one at random. */
  lemma ColorStaysInPalette(w: World, g: Guid, list: seq<string>, cfg: Config, o: Oracle)
    requires LoggedIn(w, g) && o.Valid() && |list| > 0 && CommandName(list) == "color"
    requires Permitted(w, g, "color")
    ensures var r := Command(w, g, Some(list), cfg, o);
            var before, after := w.sessions[g].profile, r.world.sessions[g].profile;
            && (after == before || (after == before.(color := after.color) && (after.color.Some? ==> after.color.value in cfg.palette)))
            && (FirstArg(list).Some? && FirstArg(list).value !in cfg.palette ==> r.world == w && r.out == [])
  {
    Entries();
    RunsColor(CtxOf(w, g), CleanAll(list)[1..], cfg, o);
    var res := ColorH(CtxOf(w, g), FirstArg(list), cfg, o);
    if res.s == w.sessions[g] {
      ApplyUnchanged(w, g, res);
    }
  }
}

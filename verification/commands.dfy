/**
  The `userCommands` table (meat.js:119-266) and `User.command` (421-471).
  Each handler is a pure function of the caller's session and room returning
  the new session and the events it emitted, or `Threw` for an exception.
 */
module Commands {
  import opened Wrappers
  import opened Protocol
  import opened Sanitizer
  import opened JsBuiltins
  import opened Rooms
  import opened Sessions

  /** The handlers of the table. */
  datatype HandlerId =
    | Godmode | SanitizePref | JokeCmd | FactCmd | UrlCmd(kind: Media) | YoutubeCmd
    | BackflipCmd | MutedCmd | OwoCmd | ColorCmd | PopeCmd | AssholeCmd
    | VaporwaveCmd | UnvaporwaveCmd | NameCmd | PitchCmd | SpeedCmd

  /** A table entry: the marker string "passthrough", or a handler. */
  datatype Entry = Passthrough | Handler(id: HandlerId)

  const UserCommands: map<string, Entry> := map[
    "godmode" := Handler(Godmode),
    "sanitize" := Handler(SanitizePref),
    "joke" := Handler(JokeCmd),
    "fact" := Handler(FactCmd),
    "img" := Handler(UrlCmd(Img)),
    "video" := Handler(UrlCmd(Video)),
    "iframe" := Handler(UrlCmd(Iframe)),
    "youtube" := Handler(YoutubeCmd),
    "backflip" := Handler(BackflipCmd),
    "muted" := Handler(MutedCmd),
    "owo" := Handler(OwoCmd),
    "linux" := Passthrough,
    "pawn" := Passthrough,
    "bees" := Passthrough,
    "color" := Handler(ColorCmd),
    "pope" := Handler(PopeCmd),
    "asshole" := Handler(AssholeCmd),
    "triggered" := Passthrough,
    "vaporwave" := Handler(VaporwaveCmd),
    "unvaporwave" := Handler(UnvaporwaveCmd),
    "name" := Handler(NameCmd),
    "pitch" := Handler(PitchCmd),
    "speed" := Handler(SpeedCmd)
  ]

  /** The words that switch the sanitize preference off (meat.js:129). */
  const SanitizeTerms: seq<string> := ["false", "off", "disable", "disabled", "f", "no", "n"]

  /** The runlevel `godmode` grants. */
  const GodRunlevel: int := 3

  /** The video `vaporwave` plays for the room. */
  const VaporwaveVideo: string := "aQkPcPqTq4M"

  /** The colour `pope` forces. */
  const PopeColor: string := "pope"

  /** What a handler sees as `this`: the caller and its room. */
  datatype Ctx = Ctx(me: Session, rid: RoomId, prefs: Prefs)

  /** A handler's effect: the caller's new session and the events, or an exception. */
  datatype Outcome = Done(s: Session, out: seq<Event>) | Threw

  /** Positional argument `i`, undefined when absent. */
  function Arg(args: seq<string>, i: nat): Option<string> {
    if i < |args| then Some(args[i]) else None
  }

  /** The caller with a new profile, announced by `room.updateUser(this)`:
      the room hears exactly one `update` carrying the profile now stored, and
      nothing but the profile changes. */
  function Updated(c: Ctx, p: Profile): (r: Outcome)
    ensures r.Done? && r.s.profile == p
    ensures r.s.guid == c.me.guid && r.s.login == c.me.login && r.s.sanitize == c.me.sanitize
    ensures r.s.runlevel == c.me.runlevel && r.s.room == c.me.room
    ensures |r.out| == 1 && r.out[0].ToRoom? && r.out[0].rid == c.rid
    ensures r.out[0].msg == Update(c.me.guid, r.s.profile)
  {
    Done(c.me.(profile := p), [ToRoom(c.rid, Update(c.me.guid, p))])
  }

  // ---------------------------------------------------------------------------
  // Handlers

  /** `godmode(word)`: loose equality, so an absent word matches an absent god word. */
  function GodmodeH(c: Ctx, word: Option<string>): (r: Outcome)
    ensures r.Done? && r.out == []
    ensures word == c.prefs.godword ==> r.s == c.me.(runlevel := GodRunlevel)
    ensures word != c.prefs.godword ==> r.s == c.me
  {
    Done(if word == c.prefs.godword then c.me.(runlevel := GodRunlevel) else c.me, [])
  }

  /** The joined arguments, lower-cased, are one of the words that switch
      sanitizing off. */
  predicate TurnsOff(text: string) {
    ToLower(text) in SanitizeTerms
  }

  /** `sanitize(...args)`: only the `sanitize` flag changes. */
  function SanitizeH(c: Ctx, args: seq<string>, cfg: Config): (r: Outcome)
    ensures r.Done? && r.out == []
    ensures r.s == c.me.(sanitize := r.s.sanitize)
    ensures !r.s.sanitize <==> TurnsOff(cfg.argsString(args))
  {
    Done(c.me.(sanitize := !TurnsOff(cfg.argsString(args))), [])
  }

  /** `img`, `video` and `iframe`: the URL class body does not compile, so
      every truthy argument throws. */
  function UrlH(c: Ctx, kind: Media, raw: Option<string>): (r: Outcome)
    ensures r.Threw? <==> !Falsy(raw)
    ensures r.Done? ==> r == Done(c.me, [Reply(c.me.guid, CommandFail(InvalidFormat))])
  {
    UrlSanitizeThrows(raw);
    match CustomSanitize(raw, Some(UrlClass))
    case Failure(_) => Threw
    case Success(url) =>
      if StartsWith(url, "http") then Done(c.me, [ToRoom(c.rid, MediaLink(kind, c.me.guid, url))])
      else Done(c.me, [Reply(c.me.guid, CommandFail(InvalidFormat))])
  }

  /** `/^[A-Za-z0-9_-]{11}$/`. */
  predicate IsVideoId(v: string) {
    |v| == 11 && forall i :: 0 <= i < |v| ==> IsIdentChar(v[i])
  }

  function YoutubeH(c: Ctx, raw: Option<string>): (r: Outcome)
    ensures r.Done? && r.s == c.me && |r.out| == 1
    ensures r.out[0].ToRoom? <==> |CleanIdent(raw)| == 11
    ensures r.out[0].ToRoom? ==> r.out[0] == ToRoom(c.rid, Youtube(c.me.guid, CleanIdent(raw)))
    ensures !r.out[0].ToRoom? ==> r.out[0] == Reply(c.me.guid, CommandFail(InvalidFormat))
  {
    var vid := CleanIdent(raw);
    if IsVideoId(vid) then Done(c.me, [ToRoom(c.rid, Youtube(c.me.guid, vid))])
    else Done(c.me, [Reply(c.me.guid, CommandFail(InvalidFormat))])
  }

  /** `joke` and `fact`: the room hears the caller's guid and a `Math.random` draw. */
  function JokeH(c: Ctx, fact: bool, o: Oracle): (r: Outcome)
    requires o.Valid()
    ensures r.Done? && r.s == c.me && |r.out| == 1
    ensures r.out[0].ToRoom? && r.out[0].rid == c.rid
    ensures r.out[0].msg.Joke? || r.out[0].msg.Fact?
    ensures fact <==> r.out[0].msg.Fact?
    ensures r.out[0].msg.guid == c.me.guid && 0.0 <= r.out[0].msg.rng < 1.0
  {
    Done(c.me, [ToRoom(c.rid, if fact then Fact(c.me.guid, o.random) else Joke(c.me.guid, o.random))])
  }

  /** `backflip(swag)`: strict comparison with "swag". */
  function BackflipH(c: Ctx, swag: Option<string>): (r: Outcome)
    ensures r.Done? && r.s == c.me && |r.out| == 1
    ensures r.out[0].ToRoom? && r.out[0].rid == c.rid
    ensures r.out[0].msg.Backflip? && r.out[0].msg.guid == c.me.guid
    ensures r.out[0].msg.swag <==> swag.Some? && swag.value == "swag"
  {
    Done(c.me, [ToRoom(c.rid, Backflip(c.me.guid, swag == Some("swag")))])
  }

  /** `muted` and `owo` share one shape: the target is markup-stripped. */
  function TargetH(c: Ctx, owo: bool, raw: Option<string>): (r: Outcome)
    ensures r.Done? && r.s == c.me && |r.out| == 1 && r.out[0].ToRoom? && r.out[0].rid == c.rid
    ensures (r.out[0].msg.Owo? || r.out[0].msg.Muted?) && r.out[0].msg.guid == c.me.guid
    ensures owo <==> r.out[0].msg.Owo?
    ensures NoMarkup(r.out[0].msg.target) && r.out[0].msg.target == CustomSanitize(raw, None).value
  {
    var target := Clean(raw);
    Done(c.me, [ToRoom(c.rid, if owo then Owo(c.me.guid, target) else Muted(c.me.guid, target))])
  }

  function ColorH(c: Ctx, color: Option<string>, cfg: Config, o: Oracle): (r: Outcome)
    requires o.Valid()
    ensures r.Done?
    ensures color.Some? && color.value !in cfg.palette ==> r == Done(c.me, [])
    ensures color.Some? && color.value in cfg.palette ==> r == Updated(c, c.me.profile.(color := color))
    ensures color.None? ==> (r.s.profile.color.Some? <==> |cfg.palette| > 0)
    ensures color.None? ==> r == Updated(c, c.me.profile.(color := r.s.profile.color))
    ensures color.None? && |cfg.palette| > 0 ==> r.s.profile.color.Some? && r.s.profile.color.value in cfg.palette
    ensures r.s.profile.color.Some? && r.s.profile.color != c.me.profile.color ==> r.s.profile.color.value in cfg.palette
  {
    match color
    case Some(col) =>
      if col !in cfg.palette then Done(c.me, [])
      else Updated(c, c.me.profile.(color := Some(col)))
    case None => Updated(c, c.me.profile.(color := PickColor(cfg.palette, o.random)))
  }

  /** `pope()`: the colour becomes "pope" and nothing else changes. */
  function PopeH(c: Ctx): (r: Outcome)
    ensures r.Done? && r.s.profile.color == Some(PopeColor)
    ensures r == Updated(c, c.me.profile.(color := r.s.profile.color))
  {
    Updated(c, c.me.profile.(color := Some(PopeColor)))
  }

  /** `asshole(...args)`: the joined arguments, markup-stripped, are the target. */
  function AssholeH(c: Ctx, args: seq<string>, cfg: Config): (r: Outcome)
    ensures r.Done? && r.s == c.me && |r.out| == 1
    ensures r.out[0].ToRoom? && r.out[0].rid == c.rid
    ensures r.out[0].msg.Asshole? && r.out[0].msg.guid == c.me.guid
    ensures NoMarkup(r.out[0].msg.target)
    ensures r.out[0].msg.target == CustomSanitize(Some(cfg.argsString(args)), None).value
  {
    Done(c.me, [ToRoom(c.rid, Asshole(c.me.guid, Clean(Some(cfg.argsString(args)))))])
  }

  /** `vaporwave()`: the caller is told, then the room gets the same broadcast
      `youtube` sends for the fixed video. */
  function VaporwaveH(c: Ctx): (r: Outcome)
    ensures r.Done? && r.s == c.me && |r.out| == 2
    ensures r.out[0] == Reply(c.me.guid, Vaporwave)
    ensures YoutubeH(c, Some(VaporwaveVideo)).out[0].ToRoom?
    ensures r.out[1] == YoutubeH(c, Some(VaporwaveVideo)).out[0]
  {
    IdentStringSurvives(VaporwaveVideo);
    Done(c.me, [Reply(c.me.guid, Vaporwave), ToRoom(c.rid, Youtube(c.me.guid, VaporwaveVideo))])
  }

  /** `unvaporwave()`: only the caller is told. */
  function UnvaporwaveH(c: Ctx): (r: Outcome)
    ensures r.Done? && r.s == c.me
    ensures |r.out| == 1 && r.out[0].Reply? && r.out[0].to == c.me.guid && r.out[0].msg == Unvaporwave
  {
    Done(c.me, [Reply(c.me.guid, Unvaporwave)])
  }

  /** `name(...args)`: the raw joined length is checked, then the text is
      reduced to the identifier class. */
  function NameH(c: Ctx, args: seq<string>, cfg: Config): (r: Outcome)
    ensures r.Done?
    ensures JsLength(cfg.argsString(args)) > c.prefs.nameLimit ==> r == Done(c.me, [])
    ensures JsLength(cfg.argsString(args)) <= c.prefs.nameLimit ==>
              r == Updated(c, c.me.profile.(name := Some(NameOrDefault(Some(cfg.argsString(args)), c.prefs.defaultName))))
  {
    var text := cfg.argsString(args);
    if JsLength(text) > c.prefs.nameLimit then Done(c.me, [])
    else Updated(c, c.me.profile.(name := Some(NameOrDefault(Some(text), c.prefs.defaultName))))
  }

  /** `parseInt(arg)`; `parseInt(undefined)` is `NaN`. */
  function ParseArg(arg: Option<string>): Option<int> {
    match arg
    case None => None
    case Some(t) => ParseInt(t)
  }

  /** `pitch` and `speed`: parse, clamp into the room's range, announce. */
  function TuneH(c: Ctx, speed: bool, arg: Option<string>): (r: Outcome)
    ensures r.Done?
    ensures ParseArg(arg).None? ==> r == Done(c.me, [])
    ensures ParseArg(arg).Some? ==>
              var range := if speed then c.prefs.speed else c.prefs.pitch;
              var v := Clamp(ParseArg(arg).value, range.min, range.max);
              r == Updated(c, if speed then c.me.profile.(speed := Some(v)) else c.me.profile.(pitch := Some(v)))
  {
    match ParseArg(arg)
    case None => Done(c.me, [])
    case Some(v) =>
      if speed then Updated(c, c.me.profile.(speed := Some(Clamp(v, c.prefs.speed.min, c.prefs.speed.max))))
      else Updated(c, c.me.profile.(pitch := Some(Clamp(v, c.prefs.pitch.min, c.prefs.pitch.max))))
  }

  /** `commandFunc.apply(this, args)`. */
  function RunHandler(h: HandlerId, c: Ctx, args: seq<string>, cfg: Config, o: Oracle): (r: Outcome)
    requires o.Valid()
    ensures r.Done? ==> r.s.guid == c.me.guid && r.s.login == c.me.login && r.s.room == c.me.room
    ensures r.Done? && h != Godmode ==> r.s.runlevel == c.me.runlevel
    ensures r.Done? && h != SanitizePref ==> r.s.sanitize == c.me.sanitize
    ensures r.Threw? ==> h.UrlCmd?
  {
    match h
    case Godmode => GodmodeH(c, Arg(args, 0))
    case SanitizePref => SanitizeH(c, args, cfg)
    case JokeCmd => JokeH(c, false, o)
    case FactCmd => JokeH(c, true, o)
    case UrlCmd(kind) => UrlH(c, kind, Arg(args, 0))
    case YoutubeCmd => YoutubeH(c, Arg(args, 0))
    case BackflipCmd => BackflipH(c, Arg(args, 0))
    case MutedCmd => TargetH(c, false, Arg(args, 0))
    case OwoCmd => TargetH(c, true, Arg(args, 0))
    case ColorCmd => ColorH(c, Arg(args, 0), cfg, o)
    case PopeCmd => PopeH(c)
    case AssholeCmd => AssholeH(c, args, cfg)
    case VaporwaveCmd => VaporwaveH(c)
    case UnvaporwaveCmd => UnvaporwaveH(c)
    case NameCmd => NameH(c, args, cfg)
    case PitchCmd => TuneH(c, false, Arg(args, 0))
    case SpeedCmd => TuneH(c, true, Arg(args, 0))
  }

  // ---------------------------------------------------------------------------
  // Dispatch

  /** `list.map(arg => customSanitize(String(arg), 'A-Za-z0-9_-'))`. */
  function CleanAll(list: seq<string>): (r: seq<string>)
    ensures |r| == |list|
    ensures forall i :: 0 <= i < |r| ==> r[i] == CleanIdent(Some(list[i]))
  {
    if |list| == 0 then [] else [CleanIdent(Some(list[0]))] + CleanAll(list[1..])
  }

  /** `this.room.prefs.runlevel[command] || 0`. */
  function Threshold(prefs: Prefs, name: string): int {
    if name in prefs.runlevel then prefs.runlevel[name] else 0
  }

  /** The name `command` dispatches on, once `data.list` is a non-empty array. */
  function CommandName(list: seq<string>): string
    requires |list| > 0
  {
    ToLower(CleanIdent(Some(list[0])))
  }

  /** The effect of a handler that ran: an exception is reported as an unknown
      command (meat.js:462-464); otherwise the caller's session is replaced. */
  function Apply(w: World, g: Guid, res: Outcome): (r: Step)
    requires g in w.sessions
    ensures res.Threw? ==> r == Step(w, [Reply(w.sessions[g].guid, CommandFail(Unknown))])
    ensures res.Done? ==> r == Step(w.(sessions := w.sessions[g := res.s]), res.out)
  {
    match res
    case Threw => Step(w, [Reply(w.sessions[g].guid, CommandFail(Unknown))])
    case Done(s', out) => Step(w.(sessions := w.sessions[g := s']), out)
  }

  /** `User.command(data)`; `data` is `None` unless `data.list` is an array. */
  function Command(w: World, g: Guid, data: Option<seq<string>>, cfg: Config, o: Oracle): (r: Step)
    requires LoggedIn(w, g) && o.Valid()
    ensures r.world.dir == w.dir
    ensures r.world.sessions.Keys == w.sessions.Keys
    ensures forall h :: h in w.sessions && h != g ==> r.world.sessions[h] == w.sessions[h]
    ensures var s, s' := w.sessions[g], r.world.sessions[g];
            s'.guid == s.guid && s'.login == s.login && s'.room == s.room
    ensures data.None? || |data.value| == 0 ==>
              r == Step(w, [ToRoom(w.sessions[g].room.value, Msg.Talk(w.sessions[g].guid, Placeholder))])
    ensures data.Some? && |data.value| > 0 && w.sessions[g].runlevel < Threshold(RoomOf(w, g).prefs, CommandName(data.value)) ==>
              r == Step(w, [Reply(w.sessions[g].guid, CommandFail(RunlevelTooLow))])
    ensures data.Some? && |data.value| > 0 && w.sessions[g].runlevel >= Threshold(RoomOf(w, g).prefs, CommandName(data.value)) ==>
              && (CommandName(data.value) !in UserCommands ==> r == Step(w, [Reply(w.sessions[g].guid, CommandFail(Unknown))]))
              && (CommandName(data.value) in UserCommands && UserCommands[CommandName(data.value)].Passthrough? ==>
                    r == Step(w, [ToRoom(w.sessions[g].room.value, Signal(CommandName(data.value), w.sessions[g].guid))]))
              && (CommandName(data.value) in UserCommands && UserCommands[CommandName(data.value)].Handler? ==>
                    r == Apply(w, g, RunHandler(UserCommands[CommandName(data.value)].id,
                                                Ctx(w.sessions[g], w.sessions[g].room.value, RoomOf(w, g).prefs),
                                                CleanAll(data.value)[1..], cfg, o)))
  {
    var s := w.sessions[g];
    var rid := s.room.value;
    var prefs := w.dir.rooms[rid].prefs;
    if data.None? || |data.value| < 1 then Step(w, [ToRoom(rid, Msg.Talk(s.guid, Placeholder))])
    else
      var list := CleanAll(data.value);
      var name := ToLower(list[0]);
      var args := list[1..];
      assert name == CommandName(data.value);
      if s.runlevel >= Threshold(prefs, name) then
        if name !in UserCommands then Step(w, [Reply(s.guid, CommandFail(Unknown))])
        else
          match UserCommands[name]
          case Passthrough => Step(w, [ToRoom(rid, Signal(name, s.guid))])
          case Handler(h) => Apply(w, g, RunHandler(h, Ctx(s, rid, prefs), args, cfg, o))
      else Step(w, [Reply(s.guid, CommandFail(RunlevelTooLow))])
  }
}

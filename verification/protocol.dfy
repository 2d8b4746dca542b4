/**
  The events the server exchanges with its clients (meat.js, every `emit`), and
  the public profile a session shows to its room.
 */
module Protocol {
  import opened Wrappers

  /** Session ids come from `Utils.guidGen`; room ids are user-chosen or guids. */
  type Guid = string
  type RoomId = string

  /** `user.public`: fields stay undefined until the code assigns them. */
  datatype Profile = Profile(color: Option<string>, name: Option<string>, pitch: Option<int>, speed: Option<int>)

  datatype LoginFailReason = NameMal | Full | NameLength

  datatype CommandFailReason = InvalidFormat | RunlevelTooLow | Unknown

  /** The three URL commands, each broadcast under its own event name. */
  datatype Media = Img | Video | Iframe

  /** One outbound event, by name and payload. */
  datatype Msg =
    | LoginFail(loginReason: LoginFailReason)
    | CommandFail(commandReason: CommandFailReason)
    | RoomInfo(room: RoomId, isOwner: bool, isPublic: bool)
    | UpdateAll(usersPublic: map<Guid, Profile>)
    | Update(guid: Guid, userPublic: Profile)
    | Leave(guid: Guid)
    | Talk(guid: Guid, text: string)
    | Signal(name: string, guid: Guid)            // a passthrough command, under its own name
    | Joke(guid: Guid, rng: real)
    | Fact(guid: Guid, rng: real)
    | MediaLink(kind: Media, guid: Guid, vid: string)
    | Youtube(guid: Guid, vid: string)
    | Backflip(guid: Guid, swag: bool)
    | Muted(guid: Guid, target: string)
    | Owo(guid: Guid, target: string)
    | Asshole(guid: Guid, target: string)
    | Vaporwave
    | Unvaporwave

  /** Who receives an event: the sender's own socket (`socket.emit`), every
      socket in a room (`io.to(rid).emit`), or every socket but the sender's
      (`socket.broadcast.emit`). */
  datatype Event =
    | Reply(to: Guid, msg: Msg)
    | ToRoom(rid: RoomId, msg: Msg)
    | ToAllBut(except: Guid, msg: Msg)
}

# meat.js session, room and command engine in Dafny

This project models the core of `meat.js`, the engine of a multi-room chat
broadcast server. The model covers:

- the `customSanitize` string filter;
- the room directory (`rooms` and `roomsPublic`), with `newRoom`, `checkRoomEmpty` and the `Room` methods `join`, `leave`, `isFull` and `getUsersPublic`;
- the per-connection `User`: construction, `login`, `talk`, `disconnect`;
- `User.command`, with its `userCommands` table and every handler in that table.

All server state is one immutable value, `World`: the directory plus every session keyed by guid. Each
operation is a pure function. It returns the new world and the list of events the code emits. An event
goes to the sender's own socket (`Reply`), to one room (`ToRoom`), or to every socket but the sender's
(`ToAllBut`). The outside world comes in as parameters:

- `Config` carries the settings file (private and public room preferences, the colour palette) and `Utils.argsString`;
- `Oracle` carries the value `Utils.guidGen` produces, the value `Math.random` produces, and the rolls `Utils.randomRangeInt` produces.

Modules, in dependency order:

- `Wrappers`: `Option` and `Result`.
- `Protocol`: the wire events.
- `Sanitizer`: `customSanitize`. The character class is parsed from its body text, so the `RegExp` SyntaxError of a malformed class is modelled.
- `JsBuiltins`: the built-ins the handlers rely on.
  - `parseInt` without a radix, including `0x` literals.
  - The `Math.max(Math.min(..))` clamp.
  - UTF-16 `length`.
  - `toLowerCase` and `startsWith`.
- `Rooms`: the directory and the room operations.
- `Sessions`: sessions, `login`, `talk` and `disconnect`.
- `Commands`: the command table, the handlers and `command`.
- `CommandFacts`: properties of `command`, one command at a time.
- `LoginFacts`: properties of `login`.
- `WorldInvariant`: the consistency between rooms and sessions, and its preservation by every operation.

The model follows the code as written, including where it behaves oddly:

- `customSanitize` throws for the URL class that `img`, `video` and `iframe` use. Every other call site gets a string back. The URL class body holds the range `_-.`, whose ends are out of order, so `new RegExp` throws on every truthy input.
- `disconnect` has no idempotence guard.
- A login refused for `nameLength` leaves behind the room it created.
- The `sanitize` preference is stored but never read.

The one exception is the public path of `login` when `roomsPublic` is empty, described under "## Findings". `Login` uses the corrected path. `Sessions.PublicPathsAgree` proves that the corrected path agrees with the code on every other input.

## Model

| member | source | states |
|---|---|---|
| Sanitizer.CustomSanitize | meat.js:11-18 | Falsy input gives `""`. It fails exactly when the input is truthy, a class is given, and the class body does not compile. Otherwise the result is the tag pass, then the quote pass, then the class pass when a class is given. The result has no `<` and no quote characters, uses only characters of the input, and keeps only characters of the class. What each pass deletes is stated by the lemmas below. |
| Sanitizer.StripTagsPlainPrefix | meat.js:13 | The tag pass keeps text without `<` as it is, whatever follows it. |
| Sanitizer.StripTagsDropsTag | meat.js:13 | The tag pass deletes a closed tag `<...>`, brackets included, and resumes after it. |
| Sanitizer.StripTagsDropsOpenTail | meat.js:13 | A `<` that is never closed takes the rest of the text with it. |
| Sanitizer.StripQuotesConcat | meat.js:13 | The quote pass works character by character: the result for a concatenation is the concatenation of the results. |
| Sanitizer.StripQuotesChar | meat.js:13 | The quote pass deletes a single character exactly when it is `"`, `'` or a backtick. |
| Sanitizer.KeepOnlyConcat | meat.js:15 | The class pass works character by character: the result for a concatenation is the concatenation of the results. |
| Sanitizer.KeepOnlyChar | meat.js:15 | The class pass keeps a single character exactly when it matches the class under the `i` flag. |
| Sanitizer.CleanDropsTag | meat.js:11-18 | With no class, text holding one closed tag loses the tag and the quotes, and every other character stays, in order. |
| Sanitizer.CleanExample | meat.js:11-18 | `customSanitize("a<b>c")` is `"ac"`. |
| Sanitizer.CleanIdent | meat.js:11-18 | Filtering with class `A-Za-z0-9_-` never throws, and every character it returns is an ASCII letter, a digit, `_` or `-`. |
| Sanitizer.Clean | meat.js:11-18 | Filtering with no class never throws and returns text free of markup. |
| Sanitizer.SanitizeIdempotent | meat.js:11-18 | For every class, filtering an already filtered string returns it unchanged. |
| Sanitizer.SafeStringsAreFixed | meat.js:11-18 | Every string with no markup whose characters are all in the class is left unchanged. Together with the output guarantees, the filter is a projection onto exactly these strings. |
| Sanitizer.CleanIdentIdempotent | meat.js:11-18 | The identifier filter, applied twice, equals the filter applied once. |
| Sanitizer.CleanIdempotent | meat.js:11-18 | The class-less filter, applied twice, equals the filter applied once. |
| Sanitizer.IdentClassIsAsciiIdent | meat.js:15 | The body `A-Za-z0-9_-` compiles. Under the `i` flag it matches exactly `[A-Za-z0-9_-]`. |
| Sanitizer.UrlSanitizeThrows | meat.js:145-177 | With the URL class body, falsy input gives `""` and every truthy input throws, because the range `_-.` is out of order. |
| Sanitizer.IdentStringSurvives | meat.js:439 | A string made only of identifier characters passes the identifier filter unchanged. |
| JsBuiltins.ParseIntDecimal | meat.js:254-265 | `parseInt` reads every integer back from its decimal rendering. |
| JsBuiltins.ParseIntHex | meat.js:254-265 | Without a radix, `parseInt` reads a `0x` literal, optionally signed, as hexadecimal. |
| JsBuiltins.ParseIntStopsAtNonDigit | meat.js:254-265 | A decimal reading stops at the first non-digit: `parseInt("12x")` is 12. Only a lone `0` followed by `x`/`X` starts a hex literal instead. |
| JsBuiltins.ParseInt | meat.js:254-265 | Empty text, text that starts with neither a digit nor a sign, and `0x` with no hex digit after it all give NaN. |
| JsBuiltins.Clamp | meat.js:257 | When `min <= max`, the result lies in `[min, max]`. An in-range value is returned unchanged. A value below `min` gives `min`, and one above `max` gives `max`. |
| JsBuiltins.JsLength | meat.js:360 | `.length` counts UTF-16 code units: between one and two per character, and exactly one per character when all characters lie in the Basic Multilingual Plane. |
| JsBuiltins.ToLowerPointwise | meat.js:440 | Lower-casing maps each character on its own, and lower-casing twice equals lower-casing once. |
| Rooms.NewRoom | meat.js:112-117 | Files an empty room under `rid`, keeps every other room, and keeps `roomsPublic` and directory validity. |
| Rooms.CheckRoomEmpty | meat.js:26-40 | A room with members changes nothing. An empty room leaves `rooms`. `roomsPublic` loses exactly the first occurrence of its id, by `splice`: every other id keeps its place in order. Validity is kept. |
| Rooms.IsFull | meat.js:62-64 | A room that is not full has space for one more member under `room_max`, and a full room has at least `room_max` members. |
| Rooms.Join | meat.js:66-71 | The member list gains the user at its end. Nothing else changes, validity is kept, and the room hears one `update`. |
| Rooms.Leave | meat.js:73-90 | The room always hears `leave` first. A non-member changes nothing. A member is removed once; every other room and the set of room ids stay as they were. A room left empty is removed from `rooms`, and `roomsPublic` loses exactly that id with the rest in order. `roomsPublic ⊆ keys(rooms)` is preserved. |
| Rooms.UsersPublic | meat.js:99-105 | The snapshot holds exactly the members' public profiles, keyed by guid. |
| Rooms.JoinRespectsCapacity | meat.js:62-71 | A room that was not full is within `room_max` after one more member joins. |
| Rooms.JoinExtendsSnapshot | meat.js:99-105 | After `join`, the `getUsersPublic` snapshot is the old one plus the new member's profile. |
| Rooms.LeaveShrinksSnapshot | meat.js:99-105 | After a member leaves a room with no duplicate members, and the room survives, the snapshot is the old one without that member. |
| Rooms.JoinThenLeave | meat.js:66-90 | For a non-empty room, joining and then leaving restores the member multiset. |
| Rooms.LeaveIdempotent | meat.js:73-90 | A second `leave` of the same user leaves the directory as the first one left it. |
| Rooms.LeaveLastMemberReclaims | meat.js:26-40 | When the last member leaves, the room is gone from `rooms` and `roomsPublic`. |
| Rooms.CheckRoomEmptyKeepsNewest | meat.js:33-35 | Reclaiming a room other than the newest public one keeps the newest public room last in `roomsPublic`, where the public login path reads it. |
| Sessions.NewSession | meat.js:269-295 | A new session is logged out, sanitizing, at runlevel 0 and in no room. Its colour is drawn from the palette, and is absent only when the palette is empty. |
| Sessions.PickColor | meat.js:284-286 | `bc[Math.floor(Math.random() * bc.length)]` for a draw in `[0, 1)` gives a palette entry, and is undefined exactly when the palette is empty. |
| Sessions.Connect | meat.js:21-23 | A connection adds exactly one new session, for a fresh guid, and that session is not logged in. Every other session and the directory stay as they were. |
| Sessions.ResolvePublicAsWritten | meat.js:320-354 | The public path as written. When the newest public room is live and has space, it is reused and named in the reply. When `roomsPublic` is empty and a live room "undefined" has space, that room is picked and the reply carries no id. In every other case, the fresh id is appended to `roomsPublic`, an empty room is filed under it, and the reply names it. |
| Sessions.ResolvePublic | meat.js:320-354 | The public path as intended always chooses a room, and the room is public. It reuses the newest public room when that room is live and not full. Otherwise it appends the fresh id to `roomsPublic` and files an empty room under it. |
| Sessions.PublicPathsAgree | meat.js:320-354 | Apart from the case where `roomsPublic` is empty and a live room "undefined" has space, the path as written and the corrected path settle on the same directory and room, and the reply names that room. |
| Sessions.SelectRoom | meat.js:317-355 | With no id, or an empty one, selection is the corrected public path `ResolvePublic`: the newest public room when it is live and has space, otherwise a fresh public room. This differs from the code only on the "undefined" input of "## Findings". An explicit id gives `nameMal` exactly when it reduces to nothing. An existing full room gives `full`. An existing room with space is chosen as it is. An unknown id creates a private room owned by the caller. |
| Sessions.Enter | meat.js:357-391 | The name is the reduced name or the room's default. A name over the room's limit gives exactly one `loginFail{nameLength}`, and the session keeps its profile apart from the name. Otherwise the speed and pitch are the room's defaults, or the rolls when a default is "random", and the colour is kept. The user is appended to the room, and other rooms and `roomsPublic` stay as they were. Three events follow. The room hears `update` with the new profile. The caller gets `updateAll`, keyed by the room's members including the caller, with each member's profile. Then the caller gets `room` with the id, `isOwner` exactly when the caller owns the room, and `isPublic` exactly when the id is in `roomsPublic`. |
| Sessions.Login | meat.js:305-396 | A repeat login, or a payload that is not an object, is ignored. Only the caller's session changes, its guid, runlevel and preference are kept, and a successful login ends logged in. The public path is the corrected one (see "## Findings"). |
| Sessions.Talk | meat.js:398-419 | At most one event is emitted. It is emitted exactly when the filtered text is non-empty and within the room's character limit. It goes to the speaker's room, and its text is `customSanitize` of the payload text, or of the placeholder for a payload that is not an object. |
| Sessions.TalkReadsOnlyRoom | meat.js:398-419 | What `talk` emits depends only on the speaker's room. Changing other session fields, such as the `sanitize` flag, changes nothing. |
| Sessions.Teardown | meat.js:473-502 | Emits `leave` to everyone else and then to the room. The directory is the one `Room.leave` produces. |
| Sessions.TeardownTwice | meat.js:473-502 | Running the unguarded teardown a second time repeats both broadcasts and leaves the directory unchanged. |
| Sessions.Disconnect | meat.js:473-502 | The session is released. The events are exactly the teardown's: `leave` to everyone else, then `leave` to the room. The directory is exactly the one `Room.leave` leaves: one entry removed from the caller's room, which goes when it empties, and other rooms unchanged. The last member takes the room with it, any other member shrinks the list by one, and validity is kept. |
| Commands.GodmodeH | meat.js:120-127 | Only `runlevel` changes, and only to 3 when the word loosely equals the god word. An absent word matches an absent god word. |
| Commands.SanitizeH | meat.js:128-132 | Only the `sanitize` flag changes. It is off exactly when the lower-cased joined arguments are one of the seven words. |
| Commands.JokeH | meat.js:133-144 | `joke` and `fact` leave the caller unchanged. They broadcast one event of their own kind to the caller's room, with the caller's guid and a draw in `[0, 1)`. |
| Commands.UrlH | meat.js:145-177 | Throws exactly on a truthy argument. Otherwise it replies `invalidFormat`. |
| Commands.YoutubeH | meat.js:178-188 | Broadcasts `youtube` with the reduced id exactly when that id has 11 characters. Otherwise it replies `invalidFormat`. |
| Commands.BackflipH | meat.js:189-194 | Leaves the caller unchanged and broadcasts one `backflip` with the caller's guid. `swag` is true exactly when the first argument is the string "swag". |
| Commands.TargetH | meat.js:195-208 | `muted` and `owo` leave the caller unchanged and broadcast one event of their own kind to the caller's room. The event carries the caller's guid, and its target is `customSanitize` of the argument with no class. |
| Commands.ColorH | meat.js:212-222 | A colour outside the palette changes nothing. A palette colour is stored and announced. With no argument and a non-empty palette, the stored colour is a palette entry, even when the old colour was not. With an empty palette, the colour becomes absent. Only the colour changes, and the room hears one `update`. |
| Commands.PopeH | meat.js:223-226 | The colour becomes "pope", nothing else changes, and the room hears one `update`. |
| Commands.AssholeH | meat.js:227-233 | Leaves the caller unchanged and broadcasts one `asshole` event to the caller's room with the caller's guid. Its target is `customSanitize` of the joined arguments with no class. |
| Commands.VaporwaveH | meat.js:235-241 | Leaves the caller unchanged. It sends `vaporwave` to the caller, then gives the room exactly the broadcast that `youtube aQkPcPqTq4M` gives. |
| Commands.UnvaporwaveH | meat.js:242-244 | Leaves the caller unchanged and sends one `unvaporwave` to the caller only. |
| Commands.NameH | meat.js:245-253 | Raw joined arguments over the limit change nothing. Otherwise the reduced text, or the default name, is stored and announced. |
| Commands.TuneH | meat.js:254-265 | An argument that parses to NaN changes nothing. Otherwise the clamped value is stored in the pitch or speed field, with one `update`. |
| Commands.RunHandler | meat.js:119-266 | No handler changes guid, login or room. Only `godmode` changes the runlevel, and only `sanitize` changes the flag. Only the URL handlers can throw. |
| Commands.Updated | meat.js:92-97 | `room.updateUser`: the room hears exactly one `update` with the caller's guid and the profile now stored. Nothing but the profile changes. |
| Commands.Apply | meat.js:454-470 | A handler exception becomes `commandFail{unknown}` for the sender, with no state change. |
| Commands.Command | meat.js:421-471 | The directory and every other session stay as they were. A missing or empty list makes the room hear the placeholder. A runlevel below the threshold (a missing threshold counts as 0) gives only `commandFail{runlevel}`. An unknown name gives `commandFail{unknown}`, and a passthrough broadcasts `{guid}` under its name. |
| CommandFacts.UrlCommandsNeverEmbed | meat.js:145-177 | `img`, `video` and `iframe` never change the world and answer only with a `commandFail`. When permitted, the reason is `invalidFormat` exactly when no argument survives the first pass, and `unknown` otherwise. |
| CommandFacts.YoutubeEmbedsIff | meat.js:178-188 | `youtube` broadcasts exactly when the reduced argument is an 11-character identifier, and it broadcasts that id. |
| CommandFacts.TuneStoresClampedValue | meat.js:254-265 | `pitch n` and `speed n` store `n` clamped into the room's range. |
| CommandFacts.TuneStaysInRange | meat.js:254-265 | Whatever the argument, either nothing changes or the stored value lies in the room's range. |
| CommandFacts.DecimalSurvivesCleaning | meat.js:439 | The identifier pass leaves every decimal literal unchanged. |
| CommandFacts.GodwordOutsideClassUnreachable | meat.js:120-127 | A god word containing a character outside `[A-Za-z0-9_-]` can never be matched. |
| CommandFacts.GodwordGrants | meat.js:120-127 | Typing a god word made of identifier characters grants runlevel 3. |
| CommandFacts.RunlevelOnlyByGodmode | meat.js:119-266 | A command changes the caller's runlevel only when it is `godmode`, and then only to 3. |
| CommandFacts.SanitizeSetsOnlyFlag | meat.js:128-132 | `sanitize` emits nothing and changes only the caller's flag. The flag is off exactly for the listed words. |
| CommandFacts.SanitizeFlagIgnoredByTalk | meat.js:412 | After `sanitize`, `talk` emits exactly what it emitted before. |
| CommandFacts.NameIsIdentOrDefault | meat.js:245-253 | A stored name is identifier text or the default name. Joined arguments over the limit leave the name alone. |
| CommandFacts.ColorStaysInPalette | meat.js:212-222 | `color` changes only the colour: to a palette colour, or to absent when the palette is empty. An unknown colour changes nothing. |
| LoginFacts.PublicLoginLandsInPublicRoom | meat.js:320-391 | Under the corrected public path, a login with no room and a name that fits ends logged in, in a public room, and is told `room{isOwner:false, isPublic:true}`. |
| LoginFacts.PublicLoginNeverFull | meat.js:320-363 | A login with no room is never refused with `nameMal` or `full`. Its only refusal is `nameLength`. |
| LoginFacts.EnterRefusesOnlyLongNames | meat.js:357-391 | Once the room is settled, the login is never refused with `nameMal` or `full`. Its only refusal is exactly one `loginFail{nameLength}`. |
| LoginFacts.ExplicitLoginRefusals | meat.js:329-363 | A login that names a room gets `nameMal` exactly when the id reduces to nothing. It gets `full` exactly for a live full room. It gets `nameLength` exactly when the name exceeds the target room's limit. |
| LoginFacts.LoginJoinsOnceOrNothing | meat.js:336-391 | A refused login sends one `loginFail` and changes no member list. An accepted login appends the user exactly once to its room and to no other. |
| LoginFacts.CreatorOwnsPrivateRoom | meat.js:336-391 | The creator of a new room joins it alone, owns it, and is told `room{isOwner:true, isPublic:false}`. |
| LoginFacts.LongNameLeavesEmptyRoom | meat.js:336-363 | A `nameLength` refusal after a login names an unknown room leaves that room behind, empty, with the session pointing at it. |
| LoginFacts.LongNameLeavesEmptyPublicRoom | meat.js:350-363 | A `nameLength` refusal on the public path with no usable public room leaves a fresh public room behind, empty and listed last in `roomsPublic`, with the session pointing at it. |
| LoginFacts.UndefinedKeyIsPicked | meat.js:320-354 | When `roomsPublic` is empty and a live room "undefined" has space, the code as written picks that non-public room and replies with no id. The corrected path lands in a public room. |
| LoginFacts.UndefinedRoomIsReachable | meat.js:305-391 | Any user can create the room "undefined" by naming it. The next login that names no room then lands in that room under the code as written. |
| WorldInvariant.ConnectKeeps | meat.js:269-295 | A new connection keeps the invariant. |
| WorldInvariant.SelectRoomKeeps | meat.js:317-355 | With a fresh id, room selection keeps the directory valid. It changes no member list, and any new room is empty. |
| WorldInvariant.LoginKeeps | meat.js:305-396 | `login`, with the corrected public path, keeps the invariant: the directory is valid, every member is a logged-in session pointing back at its room, no member appears twice, and every logged-in session is a member of its room. |
| WorldInvariant.CommandKeeps | meat.js:421-471 | `command` keeps the invariant. |
| WorldInvariant.DisconnectKeeps | meat.js:473-502 | `disconnect` keeps the invariant. |
| WorldInvariant.MemberOfOneRoom | meat.js:379 | Under the invariant, a logged-in session is a member of exactly one room, the one it points at. |

## Left out

- Transport:
  - socket.io is left out (connection events, `socket.join`, listener registration and removal).
  - Emissions are the returned event list.
  - The listeners attached after login become the `LoggedIn` precondition of `Talk`, `Command` and `Disconnect`.
- Logging calls are left out; they are side effects only.
- Bans (`Ban.isBanned`, `Ban.handleBan`) are left out; `ban.js` is not part of this model.
- The IP and port lookup in `disconnect`, and its try/catch, are left out; they only feed the log.
- `Room.deconstruct` is left out: it is only reached from `checkRoomEmpty` with an empty member list, where it does nothing.
- Unseen helpers become parameters:
  - `Utils.guidGen`, `Utils.randomRangeInt` and `Utils.argsString` come from `Oracle` and `Config`;
  - `Math.random` is a real in `[0, 1)`;
  - the settings file is `Config`.
- JavaScript coercions outside these types are left out:
  - `null` passing `typeof data == 'object'`;
  - non-string room, name, text or god-word values;
  - `String(obj)` on list items;
  - inherited prototype names (`constructor`, `__proto__`) used as room ids, command names or runlevel keys.
  - Payloads are modelled as optional strings and string lists.
- `Sessions.SelectRoom`: the no-id branch is the corrected public path of "## Findings". When `roomsPublic` is empty and a live room "undefined" has space, the code selects that room. The model files a fresh public room instead.
- `Sessions.Login`: runs the corrected public path of "## Findings". When `roomsPublic` is empty and a live room "undefined" has space, the code joins that room and replies with no id and `isPublic` false. The model files a fresh public room instead. `Sessions.PublicPathsAgree` shows that this is the only input where the two differ.
- `Sessions.Login`: a payload that is not an object is `None`. Non-string field values are not modelled.
- The JSON deep copy of the private preferences is left out; preferences are immutable values.
- `JsBuiltins.ParseInt`: leading white space and the floating-point range are not modelled. Every argument reaching it is already reduced to `[A-Za-z0-9_-]`.
- `JsBuiltins.ToLower` and `Sanitizer.MatchesCI` fold ASCII letters only. All text they see here is already ASCII, or the class is ASCII.
- `Sessions.Disconnect` applies only to logged-in sessions, because the `disconnect` listener is only attached at login. It also removes the session from the table, standing for the released connection. A connection dropped before login owns no room state.
- `WorldInvariant.LoginKeeps` and `LoginFacts.LoginJoinsOnceOrNothing` assume the id from `Utils.guidGen` names no live room. A colliding id would replace that room.
- `Commands.GodmodeH`: loose equality between a string and a non-string god word (a number in the settings, say) is not modelled. Both sides are optional strings.
- The joke and fact `rng` values and the colour draw are the `Oracle` value; no floating-point arithmetic is modelled.

## Findings

| source | as written | input that shows it | evidently intended | confidence | as-written member | corrected member |
|---|---|---|---|---|---|---|
| meat.js:320-321 | With `roomsPublic` empty, `roomsPublic[Math.max(-1, 0)]` is `undefined`, and `rooms[undefined]` reads the key "undefined". A live private room named "undefined" is then joined by public logins, which get a `room` reply with no id. | A user logs in with `room: "undefined"` while no public room exists. The next login with no room joins that private room. | A login with no room joins the newest public room, or a fresh public room when none is usable. | not executed | Sessions.ResolvePublicAsWritten; LoginFacts.UndefinedKeyIsPicked | Sessions.ResolvePublic |

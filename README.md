# moc-mpris-bridge: the state-synchronisation engine in Dafny

moc-mpris-bridge exposes the MOC console music player (`mocp`) on D-Bus as an
MPRIS `org.mpris.MediaPlayer2.Player` object. This project models the part of
the bridge that keeps the two sides in step:

- the snapshot of `mocp -i` that `MocP.UpdateInfo` keeps, with `parseDuration`
  and the artwork cache of `cacheArtURI` (modules `MocStatus`, `Mocp`);
- the player properties derived from that snapshot, and the guards and
  mocp commands behind the MPRIS methods (`Mocp`);
- the fifteen exported properties, `update`'s diff that republishes exactly
  the changed values, the methods Next … SetPosition with the Seeked signal,
  and the LoopStatus, Rate, Shuffle and Volume setters (`Player`);
- the `select` loop of `MPRISLoop` that runs queued D-Bus calls, updates after
  each call and each tick, and returns on an interrupt or a failed update
  (`Loop`).

The support modules are `Wrappers` (Option, Result), `GoStrings` (Split, Cut
at the first separator, TrimSpace), `Strconv` (Atoi and Itoa on 64-bit ints)
and `GoArith` (Go's integer division, which truncates toward zero).

How the model stands in for the outside world:

- The output of `mocp -i` is an `Option<string>`. None means the invocation
  failed.
- Every other mocp invocation is recorded in `MocP.issued` as a `Cmd`. Whether
  it succeeds is a boolean parameter `ok`.
- The amixer reading is an `Option<int>` percentage.
- `retrieveArtworkDataURI` is the function-valued constant `MocP.artwork`.
- A `properties.Set` publication is an entry appended to the log `published`.
  A Seeked signal is a position appended to `seeked`.
- The loop consumes a finite sequence of events. Each event carries what the
  world answers while it is handled.

The source does not compile as shown, and the model follows its evident
intent:

- `media_player2_player.go:100` calls `mp.GetInfo`, which is `SafeGetInfo`
  at `mocp.go:472`.
- `media_player2_player.go:287` calls `GetPlaybackStatus`, which is
  `SafeGetPlaybackStatus` at `mocp.go:297`.
- `loop.go:71` reads a `commands` channel that `MediaPlayer2Player` does not
  declare. The loop's events carry the queued calls instead.
- `main.go:33` calls `MPRISLoop()` with no argument, but `loop.go:15`
  declares `MPRISLoop(name string)`. The name is only used by the D-Bus setup,
  which is not part of this model.

Three behaviours of the code are modelled as written, although they differ
from what one would expect:

- `parseDuration` has no limit of three fields, although its own comment at
  `mocp.go:555` says it expects at most HH:MM:SS.
- `SetPosition` emits Seeked with the requested position even when `Jump`
  refused the target (`media_player2_player.go:256-266`). The MPRIS
  specification says a SetPosition outside the track is to be ignored.
- `Seek` computes the position it reports in Seeked from the CurrentSec read
  before the update that follows the seek (`media_player2_player.go:232-237`),
  not from mocp's position after the seek.

## Model

| member | source | states |
|---|---|---|
| GoStrings.SplitJoin | mocp.go:556 | joining the fields of strings.Split with the separator gives back the input |
| GoStrings.JoinSplit | mocp.go:495 | splitting a join of separator-free fields gives back the fields, so lines and fields are recovered exactly |
| GoStrings.Cut | mocp.go:498-502 | no result iff the separator is absent; otherwise the key before the first separator contains no separator and key + sep + rest is the line |
| GoStrings.CutUnique | mocp.go:498-502 | a split of a line at a separator-free prefix is the one Cut finds |
| GoStrings.TrimSpace | mocp.go:503 | the result is a contiguous slice of the input with no space at either end, and only spaces were removed |
| GoStrings.TrimSpaceIdempotent | mocp.go:503 | trimming a trimmed value changes nothing |
| Strconv.Atoi | mocp.go:521-524 | a text is accepted iff it is an optional sign and at least one digit whose signed value fits 64 bits, and the result is that value; a failure carries the rejected text |
| Strconv.AtoiLeadingZero | mocp.go:521-524 | a leading zero changes neither acceptance nor the value |
| Strconv.AtoiPlus | mocp.go:521-524 | a leading '+' changes neither acceptance nor the value |
| Strconv.AtoiNoDigits | mocp.go:561-564 | "", "-" and "+" are refused, so an empty duration field fails |
| Strconv.AtoiOutOfRange | mocp.go:521-524 | a number outside the 64-bit range is refused |
| Strconv.AtoiSpellings | mocp.go:521-524 | "+5" reads as 5, "007" as 7 and "-0" as 0 |
| Strconv.AtoiItoa | mocp.go:268 | Atoi reads back every 64-bit int that Itoa prints, the numbers in the command lines of the bridge |
| Strconv.ItoaInjective | mocp.go:250 | distinct ints print differently |
| Strconv.AtoiRejectsNonDigit | mocp.go:561-564 | a non-digit after the optional sign makes Atoi fail |
| GoArith.Quo | media_player2_player.go:226 | Go's `/`: the remainder has the sign of the dividend and is smaller than the divisor |
| GoArith.QuoOdd | media_player2_player.go:256 | division truncates toward zero, so negating the dividend negates the quotient |
| GoArith.QuoBackwardSeek | media_player2_player.go:226 | -1.5 s in microseconds is -1 second, where Euclidean division would give -2 |
| MocStatus.ParseDuration | mocp.go:554-570 | the loop from the last field to the first returns DurationOf of the colon-separated fields |
| MocStatus.DurationIsHorner | mocp.go:559-566 | the sum of field·60^(n-1-i) equals reading the fields left to right as base-60 digits |
| MocStatus.DurationFailsIff | mocp.go:559-564 | parsing fails iff some field, the empty field included, is not an integer |
| MocStatus.DurationFails | mocp.go:561-564 | the error returned is that of the last malformed field, the first one the backward loop meets |
| MocStatus.DurationClock | mocp.go:554-570 | "01:02:03" reads as 3723 seconds |
| MocStatus.DurationFourFields | mocp.go:555 | "1:00:00:00" reads as 216000 seconds: there is no three-field limit |
| MocStatus.DurationBadField | mocp.go:561-564 | "1:x" fails with the error for "x" |
| MocStatus.Field | mocp.go:498-503 | a line yields an entry iff it has a colon; the key is the line up to its first colon, and the value is the rest after that colon, trimmed |
| MocStatus.FieldOf | mocp.go:498-503 | a line made of a colon-free key, a colon and a raw value reads back as that key and the trimmed value |
| MocStatus.Convert | mocp.go:514-527 | every converted value has the kind of its key: int for TotalSec and CurrentSec, duration for the three times, string for the rest |
| MocStatus.AbsorbAllTyped | mocp.go:504-529 | every refresh, complete or cut short, stores only keys of mocpInfoKeys or ArtURI, each with its kind of value |
| MocStatus.AbsorbAllField | mocp.go:497-530 | after a complete refresh a known key is present iff some line gives it, and holds the last such value; ArtURI is present iff File is, and it holds the artwork of the last File |
| MocStatus.AbsorbAllError | mocp.go:514-525 | the error of a refresh is that of the first malformed line |
| MocStatus.AbsorbAllStops | mocp.go:516-517 | once a line is malformed, later lines change nothing |
| MocStatus.AbsorbAllErrPrefix | mocp.go:515-524 | a refresh cut short keeps exactly what the lines before the malformed one stored |
| MocStatus.AbsorbAllIdempotent | mocp.go:506-512 | refreshing again with the artwork cache the refresh left stores the same snapshot |
| MocStatus.RefreshTyped | mocp.go:479-532 | every snapshot UpdateInfo leaves behind is typed |
| MocStatus.RefreshError | mocp.go:486-491 | a failed `mocp -i` is no error; otherwise the error is the first malformed line's |
| MocStatus.RefreshIdempotent | mocp.go:493-530 | when a refresh succeeds, refreshing again from the same output leaves the same snapshot and no error |
| Mocp.PlaybackStatus | mocp.go:304-322 | Playing iff State is PLAY, Paused iff State is PAUSE, and Stopped otherwise, State absent included |
| Mocp.CurrentSeconds | mocp.go:387-402 | GetPosition's CurrentSec, present iff CurrentSec holds an int |
| Mocp.Metadata | mocp.go:341-374 | mpris:length is TotalSec·10⁶ iff TotalSec is present; the five copied entries are present iff their key is; the track id is constant; no other entry |
| Mocp.EmptyMetadata | mocp.go:367 | an empty snapshot gives only the track id |
| Mocp.PlayerDown | mocp.go:486-491 | when `mocp -i` fails: no error, Stopped, no capability, position 0, Metadata only the track id |
| Mocp.CanSeekAfterRefresh | mocp.go:452-465 | CanSeek holds iff some line gives CurrentSec and the last State line says PLAY |
| Mocp.StatusAfterRefresh | mocp.go:304-322 | after a refresh the status is read from the last State line alone |
| Mocp.Clamp | mocp.go:254-270 | the volume sent is within [0, 100], unchanged when already inside, 0 below and 100 above |
| Mocp.ToggleCmd | mocp.go:213-236 | pause iff Playing, unpause iff Paused, nothing iff Stopped |
| Mocp.JumpCmd | mocp.go:272-287 | a jump is issued iff TotalSec is known and 0 ≤ seconds ≤ TotalSec, and then to exactly those seconds |
| Mocp.ArgsInjective | mocp.go:165-295 | distinct commands have distinct mocp command lines |
| Mocp.MocP.constructor | mocp.go:60-62 | NewMocP starts with an empty snapshot and nothing issued |
| Mocp.MocP.UpdateInfo | mocp.go:479-532 | the new snapshot and error are Refresh of the old snapshot and the output; the error is the first malformed line's; no command is issued; the snapshot stays typed |
| Mocp.MocP.Refill | mocp.go:493-530 | the line loop that clears and refills the snapshot in place computes Refresh |
| Mocp.MocP.Store | mocp.go:504-528 | one line stored into the snapshot, or the parse error, as Absorb says |
| Mocp.MocP.Run | mocp.go:165-211 | the command is recorded and the snapshot unchanged; a failure is reported as an error carrying the command line, which stands in for exec's exit status |
| Mocp.MocP.TogglePause | mocp.go:213-236 | the command ToggleCmd chooses is issued, or none; the error is that command's failure |
| Mocp.MocP.Volume | mocp.go:254-270 | the clamped volume is issued |
| Mocp.MocP.Jump | mocp.go:272-287 | the jump JumpCmd allows is issued, or nothing |
| Player.CurrVal | media_player2_player.go:106-141 | every property's value has the D-Bus type MPRIS gives it |
| Player.CurrValConstants | media_player2_player.go:110-137 | Rate, MinimumRate and MaximumRate are 1.0, CanControl is true, LoopStatus is "None" and Shuffle is false |
| Player.CurrValReads | media_player2_player.go:118-135 | Position is CurrentSec·10⁶ or 0; Volume is the mixer percentage / 100 or 0; the four Can* of SongTitle; CanSeek of CurrentSec and PLAY |
| Player.Derived | media_player2_player.go:47-65 | propValues holds exactly the fifteen property names |
| Player.PropsOf | media_player2_player.go:42-71 | a prop per value, carrying that value, all writable; only Position is EmitFalse; exactly LoopStatus, Rate, Shuffle and Volume have a setter |
| Player.AnnouncedKeys | media_player2_player.go:62-71 | of the publications whose Set goes through, PropertiesChanged announces every one except Position's |
| Player.Republish | media_player2_player.go:87-94 | the range loop leaves every value at its target and publishes each changed property exactly once and no other |
| Player.PublishesReplay | media_player2_player.go:87-94 | replaying such publications on the old values gives the new values |
| Player.ReplayValues | media_player2_player.go:90-91 | applying the publications gives the new value of every published key and keeps the old value of every other |
| Player.DiffFacts | media_player2_player.go:87-94 | the publications of the keys visited are distinct, carry the new values, and are exactly the changed keys |
| Player.DiffOrder | media_player2_player.go:87-94 | the publications come in the order the keys were visited: their keys form a subsequence of the visiting order |
| Player.ReplayAppend | media_player2_player.go:91 | replaying two runs of publications is replaying one after the other |
| Player.NothingToPublish | media_player2_player.go:89 | when nothing changed, nothing is published |
| Player.SyncedIdempotent | media_player2_player.go:80-96 | when the output of `mocp -i` parses cleanly, a second update on the same reading changes nothing and publishes nothing |
| Player.MediaPlayer2Player.constructor | media_player2_player.go:22-36 | every property starts at its current value, and propValues is what was exported |
| Player.MediaPlayer2Player.Update | media_player2_player.go:80-96 | on a refresh error nothing of the properties changes and nothing is published; otherwise every value is getCurrVal's on the new snapshot and exactly the changed ones are published |
| Player.MediaPlayer2Player.Publish | media_player2_player.go:87-94 | propValues becomes the target; the log grows by publications of exactly the changed keys, and replaying the whole log still gives propValues |
| Player.Finish | media_player2_player.go:83-86 | a failed refresh makes the call fail with that parse error |
| Player.Guard | media_player2_player.go:144-254 | Next, Previous, Pause, PlayPause and Play go ahead iff SongTitle is present; Seek and SetPosition iff CanSeek; Stop and the setters always |
| Player.WrongChange | media_player2_player.go:295-366 | a setter refuses a value iff it has the wrong dynamic type |
| Player.Trunc | media_player2_player.go:359 | int(x) of a float truncates toward zero |
| Player.MediaPlayer2Player.Next | media_player2_player.go:144-156 | skips with success without SongTitle; else issues `-f`; a failed command returns its error before update; else the update's result |
| Player.MediaPlayer2Player.Previous | media_player2_player.go:158-170 | as Next, with `-r` |
| Player.MediaPlayer2Player.Pause | media_player2_player.go:172-183 | as Next, with `-P` |
| Player.MediaPlayer2Player.PlayPause | media_player2_player.go:185-196 | guarded by CanPlay and CanPause; TogglePause's command, then update |
| Player.MediaPlayer2Player.Stop | media_player2_player.go:198-205 | unguarded: `-s`, then update unless it failed |
| Player.MediaPlayer2Player.Play | media_player2_player.go:207-218 | guarded by CanPlay: `-U`, then update |
| Player.MediaPlayer2Player.Seek | media_player2_player.go:220-248 | guarded by CanSeek: seek by the truncated seconds, Seeked from the old CurrentSec, then update; without an int CurrentSec it ends with success, no signal and no update |
| Player.MediaPlayer2Player.SetPosition | media_player2_player.go:250-273 | guarded by CanSeek: the jump JumpCmd allows, Seeked with the requested position, then update |
| Player.MediaPlayer2Player.SetLoopStatus | media_player2_player.go:295-314 | a non-string is refused; "None" turns repeat off; "Track" and "Playlist" turn it on; other strings do nothing; no update |
| Player.MediaPlayer2Player.SetRate | media_player2_player.go:316-326 | a non-double is refused; rate 0 pauses; other rates do nothing |
| Player.MediaPlayer2Player.SetShuffle | media_player2_player.go:333-343 | a non-bool is refused; else shuffle is switched on or off |
| Player.MediaPlayer2Player.SetVolume | media_player2_player.go:353-366 | a non-double is refused; else the volume int(100·x), clamped, is sent |
| Player.MediaPlayer2Player.Perform | media_player2_player.go:144-366 | any call moves the bridge as its plan says: the result, the commands and signal issued, and the closing update |
| Player.SeekSeconds | media_player2_player.go:226-227 | Seek issues whole seconds truncated toward zero, so a seek of less than a second either way issues 0, and opposite offsets seek opposite amounts |
| Player.SeekSignal | media_player2_player.go:232-237 | Seeked reports (CurrentSec + seconds)·10⁶ with the CurrentSec read before the update, and the call goes on to update |
| Player.SetPositionPastEnd | media_player2_player.go:256-262 | past the end of the track no jump is issued, yet Seeked announces the requested position |
| Player.LoopStatusUnknown | media_player2_player.go:300-311 | an unknown LoopStatus string is accepted and issues nothing |
| Player.VolumeWrites | media_player2_player.go:359-360 | Volume 0.8 sends 80; finite volumes above 1 send 100 and below 0 send 0 |
| Loop.FirstStop | loop.go:69-88 | the loop takes events up to the first interrupt or failed update; the exit is that event's (nil or the error), or Exhausted when none stops it |
| Loop.LaterIgnored | loop.go:75-86 | after the event that stops the loop, later events change neither what runs nor the exit |
| Loop.CallsOnce | loop.go:71-73 | the actions run are exactly the queued calls taken, each once and in queue order |
| Loop.UpdatesCount | loop.go:69-88 | the number of updates equals the number of calls and ticks taken |
| Loop.CallThenUpdate | loop.go:73-74 | every call is followed at once by an update, so its result is handed back before the update runs |
| Loop.HandedPerCall | loop.go:73 | one result is handed back per call |
| Loop.Handle | loop.go:70-87 | one turn of the select: its steps move the bridge as the player's contracts say; it reports whether and how the loop returns |
| Loop.HandleTick | loop.go:78-83 | a tick runs update; its error stops the loop |
| Loop.HandleCommand | loop.go:71-77 | a call runs and its result is handed back; then update runs, and its error stops the loop |
| Loop.MPRISLoop | loop.go:69-88 | the steps run are Schedule of the events and the exit is ExitOf; each step moves the bridge as the player's contracts say, from the initial state to the final one; the results handed back are those of the calls |

## Left out

- Every mocp invocation other than `mocp -i`: its process is not modelled. It is a recorded `Cmd` whose success is a parameter.
- mocp commands the core never issues: Append, Enqueue, ToggleShuffle, ToggleAutoNext, ToggleRepeat, SetAutoNext, Clear, Exit and Play (`-p`) (mocp.go:72-211). The MPRIS Play method sends Unpause (`-U`).
- `retrieveArtworkDataURI` (mocp.go:600-622) reads files, parses tags and writes base64. It is the uninterpreted function `MocP.artwork`.
- `amixerGetVolume` (mocp.go:572-598) runs a subprocess and a regex. Its result is an `Option<int>` percentage, with failure giving 0 as at mocp.go:380-383.
- Floating point: Volume and Rate values are reals. Binary rounding is not modelled, so for example Go's `int(100 * 0.29)` is 28, where the model gives 29. NaN, the infinities and products beyond the int64 range are not modelled either. Go leaves `int()` of those to the implementation (on amd64 it gives MinInt64, which Volume clamps to 0).
- Player.MediaPlayer2Player.SetVolume: the volume is exact `Trunc(100·x)` on a real number, not the rounded float64 product. This is weaker than the source for inputs that do not round exactly.
- MocStatus.Value: a duration is kept in whole seconds. Go stores it as a time.Duration in nanoseconds, and the values are the same up to that unit.
- Integer width: Atoi checks the 64-bit range. The products `seconds·10⁶` of Position, Metadata and Seeked, and the duration sum, are unbounded here. Wrap-around on overflow is not modelled.
- Strconv.Atoi: the error records only the rejected text. It does not tell ErrSyntax from ErrRange.
- Player.MediaPlayer2Player.Update: `properties.Set` (media_player2_player.go:91) is the property library's D-Bus-facing Set, which runs the prop's callback before it stores and announces the value. For Volume that callback is setVolume (media_player2_player.go:353-366), so in Go every update whose mixer reading changed also sends `mocp --volume` with the new value (0 when amixer failed). The model's Synced keeps `issued` unchanged, and it does not capture this command.
- Player.MediaPlayer2Player.Publish: each changed property becomes an unconditional entry of `published`. In Go a failing Volume callback makes the library neither store nor announce that value, although propValues has already moved (media_player2_player.go:90). A client's own successful Set of a property is stored by the library without entering `published`. So `published` is the log of update's Set calls, and replaying it gives propValues, not necessarily what a client holds.
- Player.AnnouncedKeys: it describes the announcements of Set calls whose callback succeeds. A Volume publication whose `mocp --volume` fails is not announced in Go.
- Player.MediaPlayer2Player.Perform: a client's own write of LoopStatus, Rate, Shuffle or Volume runs the setter's command. The library's storing and announcing of the written value is not modelled.
- MocP's nil receiver: every MocP method checks for a nil receiver first (for example mocp.go:480-482, which returns "must initialize mocp", and mocp.go:255-257, which returns nil). The model's MocP object always exists, so these branches are not modelled.
- D-Bus plumbing is not modelled: `prop.Export`, `properties.Set` marshalling, variants, `conn.Emit`, `RequestName`, `conn.Export`, and the setup half of `MPRISLoop` (loop.go:16-67). Emit and Export errors cannot happen in the model.
- NewMocP's initial UpdateInfo (mocp.go:64-67) and `NewMediaPlayer2Player`'s failure path (media_player2_player.go:30-32) are not modelled. The MocP constructor takes only the artwork function and starts from an empty snapshot with nothing issued. The MediaPlayer2Player constructor takes the MocP object, whatever its snapshot, and the mixer reading.
- Concurrency: mutexes, the result channel, `signal.Notify`, the ticker and `time.Sleep` (media_player2_player.go:154, 168). The model is sequential, so no state changes between a guard and the reads after it.
- Player.MediaPlayer2Player.Seek: the early return when CurrentSec is not an int (media_player2_player.go:232-235) is written into the plan, but no input reaches it. Seek's guard CanSeek requires CurrentSec, and a typed snapshot holds it as an int. In Go that return is reached only through a concurrent update between the guard and the read, so the model drops it in effect.
- Loop.MPRISLoop: the Go loop runs until it returns. The model consumes a finite sequence of events, and running out of them is a third exit, `Exhausted`.
- Player.PropsOf: exportProps fills its two maps one `setProp` at a time. The model builds them with one map comprehension, with the same contents.
- Player.MediaPlayer2Player.Update: getCurrVal is called once per key inside the range loop. The model computes all current values from the refreshed snapshot first. No key's value depends on the others, so the values are the same.
- Player.Republish: the value the range clause yields for a key is its original entry, because no key is written before its own visit.
- Strings are sequences of Unicode code points (`char`), not UTF-8 bytes. TrimSpace's `unicode.IsSpace` is modelled as a predicate on `char`.
- Logging, media_player2.go (root properties, Quit) and main.go (flag parsing) are not part of this model.

/**
 * The MocP wrapper of mocp.go: the snapshot it keeps, the player properties
 * it derives from it, and the mocp commands it issues. Running a command is
 * an external action that succeeds or fails; the model records the argument
 * vector of every command issued.
 */
module Mocp {
  import opened Wrappers
  import opened Strconv
  import opened MocStatus

  // ---------------------------------------------------------------- reads of the snapshot

  /** getPlaybackStatus: the MPRIS status for mocp's State. */
  function PlaybackStatus(s: Snapshot): (r: string)
    ensures r == "Playing" <==> State in s && s[State] == Str("PLAY")
    ensures r == "Paused" <==> State in s && s[State] == Str("PAUSE")
    ensures r in {"Stopped", "Playing", "Paused"}
  {
    if State !in s then "Stopped"
    else match s[State]
      case Str("STOP") => "Stopped"
      case Str("PLAY") => "Playing"
      case Str("PAUSE") => "Paused"
      case _ => "Stopped"
  }

  /** GetLoopStatus: mocp's repeat mode is not read back. */
  const LoopStatusValue: string := "None"

  /** GetShuffle: mocp's shuffle mode is not read back. */
  const ShuffleValue: bool := false

  /** CanGoNext, CanGoPrev, CanPlay and CanPause, which all ask the same: is there a SongTitle. */
  predicate HasSongTitle(s: Snapshot)
  {
    SongTitle in s
  }

  /** CanSeek: a current position is known and mocp is playing. */
  predicate CanSeek(s: Snapshot)
  {
    CurrentSec in s && State in s && s[State] == Str("PLAY")
  }

  /** The seconds CurrentSec holds, when it holds an int (the type assertion of GetPosition and Seek). */
  function CurrentSeconds(s: Snapshot): (r: Option<int>)
    ensures r.Some? <==> CurrentSec in s && s[CurrentSec].Int?
    ensures r.Some? ==> s[CurrentSec] == Int(r.value)
  {
    if CurrentSec in s && s[CurrentSec].Int? then Some(s[CurrentSec].n) else None
  }

  /** GetPosition: the current second, 0 when unknown. */
  function Position(s: Snapshot): int
  {
    match CurrentSeconds(s)
    case Some(n) => n
    case None => 0
  }

  /** GetVolume: the mixer percentage, 0 when amixer could not be read. */
  function MixerVolume(mixer: Option<int>): int
  {
    match mixer
    case Some(v) => v
    case None => 0
  }

  /** A value of the Metadata dictionary: an int64, a snapshot value as is, or a D-Bus object path. */
  datatype MetaValue = Length(micros: int) | Copy(v: Value) | TrackId(path: string)

  const TrackPath: string := "/org/moc_mpris_bridge/track/1"

  predicate TotalSecIsInt(s: Snapshot)
  {
    TotalSec in s ==> s[TotalSec].Int?
  }

  /** A typed snapshot holds TotalSec, when at all, as an int. */
  lemma TypedTotalSec(s: Snapshot)
    requires Typed(s)
    ensures TotalSecIsInt(s)
  {
    if TotalSec in s {
      assert Fits(TotalSec, s[TotalSec]);
    }
  }

  /** The Metadata entry `name` is the snapshot's `key`, copied as is, and present exactly when `key` is. */
  predicate CopiedFrom(m: map<string, MetaValue>, s: Snapshot, name: string, key: string)
  {
    (name in m <==> key in s) && (key in s ==> m[name] == Copy(s[key]))
  }

  /** One `if val, ok := mp.getInfo(key); ok` step of GetMetadata. */
  function CopyEntry(m: map<string, MetaValue>, s: Snapshot, name: string, key: string): map<string, MetaValue>
  {
    if key in s then m[name := Copy(s[key])] else m
  }

  /**
   * GetMetadata. The length is TotalSec in microseconds (Go asserts that
   * TotalSec is an int, hence the precondition), the five copied entries
   * are present exactly when their snapshot key is, and the track id is
   * always there.
   */
  function Metadata(s: Snapshot): (m: map<string, MetaValue>)
    requires TotalSecIsInt(s)
    ensures "mpris:length" in m <==> TotalSec in s
    ensures TotalSec in s ==> m["mpris:length"] == Length(s[TotalSec].n * 1000000)
    ensures CopiedFrom(m, s, "xesam:url", File)
    ensures CopiedFrom(m, s, "mpris:artUrl", ArtURI)
    ensures CopiedFrom(m, s, "xesam:title", SongTitle)
    ensures CopiedFrom(m, s, "xesam:artist", Artist)
    ensures CopiedFrom(m, s, "xesam:album", Album)
    ensures "mpris:trackid" in m && m["mpris:trackid"] == TrackId(TrackPath)
    ensures m.Keys <= {"mpris:length", "xesam:url", "mpris:artUrl", "xesam:title", "xesam:artist", "xesam:album", "mpris:trackid"}
  {
    var m0: map<string, MetaValue> := map[];
    var m1 := if TotalSec in s then m0["mpris:length" := Length(s[TotalSec].n * 1000000)] else m0;
    var m2 := CopyEntry(m1, s, "xesam:url", File);
    var m3 := CopyEntry(m2, s, "mpris:artUrl", ArtURI);
    var m4 := CopyEntry(m3, s, "xesam:title", SongTitle);
    var m5 := CopyEntry(m4, s, "xesam:artist", Artist);
    var m6 := CopyEntry(m5, s, "xesam:album", Album);
    m6["mpris:trackid" := TrackId(TrackPath)]
  }

  // ---------------------------------------------------------------- commands

  /** The mocp invocations the bridge's core issues. */
  datatype Cmd =
    | Next | Previous | Stop | Unpause | Pause
    | Seek(seconds: int) | Volume(percent: int) | Jump(seconds: int)
    | Repeat(on: bool) | Shuffle(on: bool)

  /** The arguments after `mocp` on the command line. */
  function Args(c: Cmd): (argv: seq<string>)
    ensures |argv| >= 1
  {
    match c
    case Next => ["-f"]
    case Previous => ["-r"]
    case Stop => ["-s"]
    case Unpause => ["-U"]
    case Pause => ["-P"]
    case Seek(n) => ["--seek", Itoa(n)]
    case Volume(n) => ["--volume", Itoa(n)]
    case Jump(n) => ["--jump", Itoa(n) + "s"]
    case Repeat(on) => [if on then "-o" else "-u", "repeat"]
    case Shuffle(on) => [if on then "-o" else "-u", "shuffle"]
  }

  /** Distinct commands have distinct command lines, so the issued argument vectors determine the commands. */
  lemma ArgsInjective(a: Cmd, b: Cmd)
    requires Args(a) == Args(b)
    ensures a == b
  {
    match a
    case Seek(n) => ItoaInjective(n, b.seconds);
    case Volume(n) => ItoaInjective(n, b.percent);
    case Jump(n) =>
      assert Args(b)[1] == Itoa(b.seconds) + "s";
      assert Itoa(n) == (Itoa(n) + "s")[..|Itoa(n) + "s"| - 1];
      assert Itoa(b.seconds) == (Itoa(b.seconds) + "s")[..|Itoa(b.seconds) + "s"| - 1];
      ItoaInjective(n, b.seconds);
    case _ =>
  }

  /** The error exec reports when a mocp invocation fails. */
  datatype RunError = RunError(argv: seq<string>)

  /** Volume's argument clamped to the percentage range. */
  function Clamp(val: int): (v: int)
    ensures 0 <= v <= 100
    ensures 0 <= val <= 100 ==> v == val
    ensures val < 0 ==> v == 0
    ensures val > 100 ==> v == 100
  {
    if val < 0 then 0 else if val > 100 then 100 else val
  }

  /** TogglePause's decision: pause when playing, unpause when paused, nothing otherwise. */
  function ToggleCmd(s: Snapshot): (c: Option<Cmd>)
    ensures c == Some(Pause) <==> PlaybackStatus(s) == "Playing"
    ensures c == Some(Unpause) <==> PlaybackStatus(s) == "Paused"
    ensures c.None? <==> PlaybackStatus(s) == "Stopped"
  {
    match PlaybackStatus(s)
    case "Playing" => Some(Pause)
    case "Paused" => Some(Unpause)
    case _ => None
  }

  /** Jump's decision: a jump only to a second within the known length of the track. */
  function JumpCmd(s: Snapshot, seconds: int): (c: Option<Cmd>)
    requires TotalSecIsInt(s)
    ensures c.Some? <==> TotalSec in s && 0 <= seconds <= s[TotalSec].n
    ensures c.Some? ==> c.value == Jump(seconds)
  {
    if TotalSec !in s then None
    else if seconds < 0 || seconds > s[TotalSec].n then None
    else Some(Jump(seconds))
  }

  // ---------------------------------------------------------------- facts about the reads

  /** The Metadata of an empty snapshot holds only the track id. */
  lemma EmptyMetadata()
    ensures Metadata(map[]) == map["mpris:trackid" := TrackId(TrackPath)]
  {
    var m := Metadata(map[]);
    assert m.Keys == {"mpris:trackid"};
  }

  /**
   * When `mocp -i` fails the player reads as stopped with nothing to play:
   * no capability, position 0, and Metadata holding only the track id.
   */
  lemma PlayerDown(prev: Snapshot, art: string -> string)
    ensures var s := Refresh(prev, None, art).snap;
      && Refresh(prev, None, art).err.None?
      && PlaybackStatus(s) == "Stopped"
      && !HasSongTitle(s) && !CanSeek(s)
      && Position(s) == 0
      && Metadata(s) == map["mpris:trackid" := TrackId(TrackPath)]
  {
    assert Refresh(prev, None, art) == Refreshed(map[], None);
    EmptyMetadata();
  }

  /** After a complete refresh, CanSeek holds exactly when some entry gives CurrentSec and the last State entry says PLAY. */
  lemma CanSeekAfterRefresh(fs: seq<Entry>, cache: (string, string), art: string -> string)
    requires AbsorbAll(fs, cache, art).err.None?
    ensures CanSeek(AbsorbAll(fs, cache, art).snap) <==> LastValue(fs, CurrentSec).Some? && LastValue(fs, State) == Some("PLAY")
  {
    AbsorbAllField(fs, cache, art, CurrentSec);
    AbsorbAllField(fs, cache, art, State);
  }

  /** After a complete refresh, the playback status is read from the last State entry alone. */
  lemma StatusAfterRefresh(fs: seq<Entry>, cache: (string, string), art: string -> string)
    requires AbsorbAll(fs, cache, art).err.None?
    ensures PlaybackStatus(AbsorbAll(fs, cache, art).snap) == "Playing" <==> LastValue(fs, State) == Some("PLAY")
    ensures PlaybackStatus(AbsorbAll(fs, cache, art).snap) == "Paused" <==> LastValue(fs, State) == Some("PAUSE")
  {
    AbsorbAllField(fs, cache, art, State);
  }

  // ---------------------------------------------------------------- the MocP object

  /** Refill's loop ends with the whole sequence as its prefix. */
  lemma TakeAll<T>(s: seq<T>)
    ensures s[..|s|] == s
  {
  }

  /**
   * The bridge's handle on mocp: the snapshot of the last `mocp -i`, the
   * commands issued so far, and the artwork lookup (retrieveArtworkDataURI,
   * which reads the file's tags and is a parameter here).
   */
  class MocP {
    var metadata: Snapshot
    var issued: seq<Cmd>
    const artwork: string -> string

    ghost predicate Valid()
      reads this
    {
      Typed(metadata)
    }

    /** NewMocP before its first refresh: an empty snapshot. */
    constructor (artwork: string -> string)
      ensures Valid() && metadata == map[] && issued == [] && this.artwork == artwork
    {
      metadata := map[];
      issued := [];
      this.artwork := artwork;
    }

    /**
     * UpdateInfo for the output of `mocp -i` (None when the invocation
     * failed): the snapshot Refresh describes, which is typed, and the error
     * of the first malformed line, if any.
     */
    method UpdateInfo(output: Option<string>) returns (err: Option<NumError>)
      modifies this
      ensures Refreshed(metadata, err) == Refresh(old(metadata), output, artwork)
      ensures err == StatusError(output)
      ensures issued == old(issued)
      ensures Valid()
    {
      ghost var prev := metadata;
      err := Refill(output);
      RefreshTyped(prev, output, artwork);
      RefreshError(prev, output, artwork);
    }

    /**
     * The body of UpdateInfo: the snapshot is cleared (the File/ArtURI pair
     * kept aside first) and refilled line by line, and the first malformed
     * number or duration stops the refill and is returned.
     */
    method Refill(output: Option<string>) returns (err: Option<NumError>)
      modifies this
      ensures Refreshed(metadata, err) == Refresh(old(metadata), output, artwork)
      ensures issued == old(issued)
    {
      if output.None? {
        metadata := map[];
        return None;
      }
      var cache := CacheArtURI(metadata);
      metadata := map[];
      var lines := GoStrings.Split(output.value, '\n');
      ghost var fs := Fields(lines);
      var i := 0;
      while i < |lines|
        invariant 0 <= i <= |lines|
        invariant AbsorbAll(fs[..i], cache, artwork) == Refreshed(metadata, None)
        invariant issued == old(issued)
      {
        assert fs[..i + 1][..i] == fs[..i];
        FieldsAt(lines, i);
        var e := Store(Field(lines[i]), cache);
        if e.Some? {
          AbsorbAllStops(fs, i + 1, cache, artwork);
          return e;
        }
        i := i + 1;
      }
      assert i == |fs|;
      TakeAll(fs);
      return None;
    }

    /** The body of UpdateInfo's loop: one line's entry stored, or the error its value raises. */
    method Store(f: Entry, cache: (string, string)) returns (err: Option<NumError>)
      modifies this
      ensures match Absorb(old(metadata), f, cache, artwork)
        case Ok(s) => err.None? && metadata == s
        case Err(e) => err == Some(e) && metadata == old(metadata)
      ensures issued == old(issued)
    {
      match f {
        case None =>
        case Some((key, val)) =>
          if key in InfoKeys {
            if key == File {
              if val == cache.0 {
                metadata := metadata[ArtURI := Str(cache.1)];
              } else {
                metadata := metadata[ArtURI := Str(artwork(val))];
              }
              metadata := metadata[File := Str(val)];
            } else if key in DurationKeys {
              var d := ParseDuration(val);
              if d.Err? {
                return Some(d.error);
              }
              metadata := metadata[key := Dur(d.value)];
            } else if key in SecondKeys {
              var n := Atoi(val);
              if n.Err? {
                return Some(n.error);
              }
              metadata := metadata[key := Int(n.value)];
            } else {
              metadata := metadata[key := Str(val)];
            }
          }
      }
      return None;
    }

    /** Runs `mocp` with the command's arguments; `ok` is whether the invocation succeeds. */
    method Run(c: Cmd, ok: bool) returns (err: Option<RunError>)
      modifies this
      ensures issued == old(issued) + [c] && metadata == old(metadata)
      ensures err == if ok then None else Some(RunError(Args(c)))
    {
      issued := issued + [c];
      err := if ok then None else Some(RunError(Args(c)));
    }

    /** TogglePause: the command ToggleCmd picks, if any, on the current snapshot. */
    method TogglePause(ok: bool) returns (err: Option<RunError>)
      modifies this
      ensures metadata == old(metadata)
      ensures issued == old(issued) + OptionSeq(ToggleCmd(old(metadata)))
      ensures err == if ToggleCmd(old(metadata)).Some? && !ok then Some(RunError(Args(ToggleCmd(old(metadata)).value))) else None
    {
      match PlaybackStatus(metadata) {
        case "Playing" => err := Run(Pause, ok);
        case "Paused" => err := Run(Unpause, ok);
        case _ => err := None;
      }
    }

    /** Volume: sets the clamped percentage. */
    method Volume(val: int, ok: bool) returns (err: Option<RunError>)
      modifies this
      ensures metadata == old(metadata) && issued == old(issued) + [Cmd.Volume(Clamp(val))]
      ensures err == if ok then None else Some(RunError(Args(Cmd.Volume(Clamp(val)))))
    {
      var volume;
      if val < 0 {
        volume := 0;
      } else if val > 100 {
        volume := 100;
      } else {
        volume := val;
      }
      err := Run(Cmd.Volume(volume), ok);
    }

    /** Jump: a jump within the known track length, and nothing otherwise. */
    method Jump(seconds: int, ok: bool) returns (err: Option<RunError>)
      requires Valid()
      modifies this
      ensures metadata == old(metadata)
      ensures issued == old(issued) + OptionSeq(JumpCmd(old(metadata), seconds))
      ensures err == if JumpCmd(old(metadata), seconds).Some? && !ok then Some(RunError(Args(Cmd.Jump(seconds)))) else None
    {
      if TotalSec !in metadata {
        return None;
      }
      var totSec := metadata[TotalSec];
      if seconds < 0 || seconds > totSec.n {
        return None;
      }
      err := Run(Cmd.Jump(seconds), ok);
    }
  }
}

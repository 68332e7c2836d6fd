/**
 * The text `mocp -i` prints and how the bridge turns it into its snapshot of
 * the player (MocP.UpdateInfo, parseDuration and cacheArtURI in mocp.go).
 * The output is a list of `Key: value` lines; the snapshot maps the known
 * keys to a string, an integer or a duration, plus the artwork data URI the
 * bridge derives from the File line.
 */
module MocStatus {
  import opened Wrappers
  import opened GoStrings
  import opened Strconv

  const State: string := "State"
  const File: string := "File"
  const Title: string := "Title"
  const Artist: string := "Artist"
  const SongTitle: string := "SongTitle"
  const Album: string := "Album"
  const TotalTime: string := "TotalTime"
  const TimeLeft: string := "TimeLeft"
  const TotalSec: string := "TotalSec"
  const CurrentTime: string := "CurrentTime"
  const CurrentSec: string := "CurrentSec"
  const Bitrate: string := "Bitrate"
  const AvgBitrate: string := "AvgBitrate"
  const Rate: string := "Rate"
  /** Not printed by mocp: the bridge stores the artwork of File under this key. */
  const ArtURI: string := "ArtURI"

  /** The keys of `mocp -i` that are kept (mocpInfoKeys). */
  const InfoKeys: set<string> :=
    {State, File, Title, Artist, SongTitle, Album, TotalTime, TimeLeft, TotalSec,
     CurrentTime, CurrentSec, Bitrate, AvgBitrate, Rate}
  /** Keys whose value is an `HH:MM:SS` duration. */
  const DurationKeys: set<string> := {TotalTime, TimeLeft, CurrentTime}
  /** Keys whose value is a whole number of seconds. */
  const SecondKeys: set<string> := {TotalSec, CurrentSec}

  /** A snapshot value: a string, an int, or a time.Duration (kept in whole seconds). */
  datatype Value = Str(s: string) | Int(n: int) | Dur(seconds: int)

  type Snapshot = map<string, Value>

  /** The kind of value the bridge stores under a key. */
  predicate Fits(key: string, v: Value)
  {
    if key in SecondKeys then v.Int? else if key in DurationKeys then v.Dur? else v.Str?
  }

  /** Only known keys, each holding its kind of value. */
  predicate Typed(s: Snapshot)
  {
    forall k :: k in s ==> (k in InfoKeys || k == ArtURI) && Fits(k, s[k])
  }

  // ---------------------------------------------------------------- parseDuration

  function Pow60(k: nat): (p: nat)
    ensures p >= 1
  {
    if k == 0 then 1 else 60 * Pow60(k - 1)
  }

  /**
   * The seconds the colon-separated fields denote: the sum of field i times
   * 60 to the power of its distance from the right. The fields are read from
   * the right, so the rightmost malformed field is the one reported.
   */
  function DurationOf(parts: seq<string>): Result<int, NumError>
  {
    if |parts| == 0 then Ok(0)
    else
      match DurationOf(parts[1..])
      case Err(e) => Err(e)
      case Ok(rest) =>
        match Atoi(parts[0])
        case Err(e) => Err(e)
        case Ok(v) => Ok(v * Pow60(|parts| - 1) + rest)
  }

  function Duration(d: string): Result<int, NumError>
  {
    DurationOf(Split(d, ':'))
  }

  /** parseDuration: the fields are parsed from the rightmost one, accumulating seconds. */
  method ParseDuration(d: string) returns (r: Result<int, NumError>)
    ensures r == Duration(d)
  {
    var parts := Split(d, ':');
    var seconds := 0;
    var length := |parts| - 1;
    for i := |parts| downto 0
      invariant DurationOf(parts[i..]) == Ok(seconds)
    {
      var secVal := Atoi(parts[i]);
      if secVal.Err? {
        DurationFails(parts, i);
        return Err(secVal.error);
      }
      DurationStep(parts, i, seconds);
      seconds := seconds + secVal.value * Pow60(length - i);
    }
    assert parts[0..] == parts;
    return Ok(seconds);
  }

  /** One more field on the left adds its value times 60 to the power of the fields to its right. */
  lemma DurationStep(parts: seq<string>, i: nat, seconds: int)
    requires i < |parts| && DurationOf(parts[i + 1..]) == Ok(seconds) && Atoi(parts[i]).Ok?
    ensures DurationOf(parts[i..]) == Ok(seconds + Atoi(parts[i]).value * Pow60(|parts| - 1 - i))
  {
    assert parts[i..][1..] == parts[i + 1..];
    assert parts[i..][0] == parts[i];
  }

  /** A malformed field whose right-hand fields are well formed is the error of the whole. */
  lemma DurationFails(parts: seq<string>, i: nat)
    requires i < |parts| && DurationOf(parts[i + 1..]).Ok? && Atoi(parts[i]).Err?
    ensures DurationOf(parts) == Err(Atoi(parts[i]).error)
  {
    assert parts[i..][1..] == parts[i + 1..];
    assert parts[i..][0] == parts[i];
    DurationTail(parts, i);
  }

  /** A failure in a suffix of the fields is the failure of the whole. */
  lemma {:induction false} DurationTail(parts: seq<string>, i: nat)
    requires i <= |parts| && DurationOf(parts[i..]).Err?
    ensures DurationOf(parts) == DurationOf(parts[i..])
  {
    if i == 0 {
      assert parts[0..] == parts;
    } else {
      assert parts[i - 1..][1..] == parts[i..];
      DurationTail(parts, i - 1);
    }
  }

  /** One more field on the right: the seconds so far times 60, plus the new field. */
  function AppendField(acc: Result<int, NumError>, x: string): Result<int, NumError>
  {
    match Atoi(x)
    case Err(e) => Err(e)
    case Ok(v) =>
      match acc
      case Err(e) => Err(e)
      case Ok(h) => Ok(h * 60 + v)
  }

  /** Reading the fields left to right, `h*60 + m` and so on, as one would by hand. */
  function HornerOf(parts: seq<string>): Result<int, NumError>
  {
    if |parts| == 0 then Ok(0)
    else AppendField(HornerOf(parts[..|parts| - 1]), parts[|parts| - 1])
  }

  lemma {:induction false} DurationSnoc(p: seq<string>, x: string)
    ensures DurationOf(p + [x]) == AppendField(DurationOf(p), x)
  {
    if |p| == 0 {
      assert p + [x] == [x];
      assert [x][1..] == [];
    } else {
      var q := p[1..];
      assert (p + [x])[1..] == q + [x];
      assert (p + [x])[0] == p[0];
      DurationSnoc(q, x);
      if Atoi(x).Ok? && DurationOf(q).Ok? && Atoi(p[0]).Ok? {
        Regroup(Atoi(p[0]).value, Pow60(|p| - 1), DurationOf(q).value, Atoi(x).value);
      }
    }
  }

  lemma Regroup(a: int, w: int, s: int, v: int)
    ensures a * (60 * w) + (s * 60 + v) == (a * w + s) * 60 + v
  {
  }

  /** The weighted sum from the right and the left-to-right reading agree, failures included. */
  lemma {:induction false} DurationIsHorner(parts: seq<string>)
    ensures DurationOf(parts) == HornerOf(parts)
  {
    if |parts| > 0 {
      var p, x := parts[..|parts| - 1], parts[|parts| - 1];
      assert parts == p + [x];
      DurationIsHorner(p);
      DurationSnoc(p, x);
    }
  }

  /** A duration fails exactly when one of its fields is not an int; there is no limit on the number of fields. */
  lemma {:induction false} DurationFailsIff(parts: seq<string>)
    ensures DurationOf(parts).Err? <==> exists i :: 0 <= i < |parts| && Atoi(parts[i]).Err?
  {
    if |parts| > 0 {
      DurationFailsIff(parts[1..]);
      if exists i :: 0 <= i < |parts[1..]| && Atoi(parts[1..][i]).Err? {
        var i :| 0 <= i < |parts[1..]| && Atoi(parts[1..][i]).Err?;
        assert Atoi(parts[i + 1]).Err?;
      }
      if exists i :: 0 <= i < |parts| && Atoi(parts[i]).Err? {
        var i :| 0 <= i < |parts| && Atoi(parts[i]).Err?;
        if i > 0 {
          assert Atoi(parts[1..][i - 1]).Err?;
        }
      }
    }
  }

  lemma SplitClock()
    ensures Split("01:02:03", ':') == ["01", "02", "03"]
  {
    var parts := ["01", "02", "03"];
    assert parts[1..] == ["02", "03"] && parts[1..][1..] == ["03"];
    assert Join(parts, ':') == "01:02:03";
    JoinSplit(parts, ':');
  }

  lemma SplitFourFields()
    ensures Split("1:00:00:00", ':') == ["1", "00", "00", "00"]
  {
    var parts := ["1", "00", "00", "00"];
    assert parts[1..] == ["00", "00", "00"] && parts[1..][1..] == ["00", "00"] && parts[1..][1..][1..] == ["00"];
    assert Join(parts, ':') == "1:00:00:00";
    JoinSplit(parts, ':');
  }

  lemma SplitBadField()
    ensures Split("1:x", ':') == ["1", "x"]
  {
    var parts := ["1", "x"];
    assert parts[1..] == ["x"];
    assert Join(parts, ':') == "1:x";
    JoinSplit(parts, ':');
  }

  lemma AtoiExamples()
    ensures Atoi("01") == Ok(1) && Atoi("02") == Ok(2) && Atoi("03") == Ok(3)
    ensures Atoi("1") == Ok(1) && Atoi("00") == Ok(0)
  {
    assert "0"[..0] == "";
    assert "01"[..1] == "0";
    assert "02"[..1] == "0";
    assert "03"[..1] == "0";
    assert "00"[..1] == "0";
  }

  lemma AtoiRejectsLetter()
    ensures Atoi("x") == Err(NumError("x"))
  {
    assert "x"[0] == 'x' && !IsDigit("x"[0]);
  }

  lemma ClockValue()
    ensures DurationOf(["01", "02", "03"]) == Ok(3723)
  {
    AtoiExamples();
    assert ["01", "02", "03"][1..] == ["02", "03"] && ["02", "03"][1..] == ["03"] && ["03"][1..] == [];
    assert DurationOf(["03"]) == Ok(3);
    assert DurationOf(["02", "03"]) == Ok(123);
  }

  /** A clock time as mocp prints it. */
  lemma DurationClock()
    ensures Duration("01:02:03") == Ok(3723)
  {
    SplitClock();
    ClockValue();
  }

  lemma FourFieldsValue()
    ensures DurationOf(["1", "00", "00", "00"]) == Ok(216000)
  {
    AtoiExamples();
    assert ["1", "00", "00", "00"][1..] == ["00", "00", "00"] && ["00", "00", "00"][1..] == ["00", "00"];
    assert ["00", "00"][1..] == ["00"] && ["00"][1..] == [];
    assert DurationOf(["00", "00", "00"]) == Ok(0);
    assert Pow60(3) == 216000;
  }

  /** A fourth field is weighted 60^3 rather than refused. */
  lemma DurationFourFields()
    ensures Duration("1:00:00:00") == Ok(216000)
  {
    SplitFourFields();
    FourFieldsValue();
  }

  /** The malformed field is the one reported. */
  lemma DurationBadField()
    ensures Duration("1:x") == Err(NumError("x"))
  {
    SplitBadField();
    AtoiRejectsLetter();
    assert ["1", "x"][1..] == ["x"] && ["x"][1..] == [];
  }

  // ---------------------------------------------------------------- UpdateInfo

  /** The outcome of a refresh: the snapshot, and the parse error that cut it short, if any. */
  datatype Refreshed = Refreshed(snap: Snapshot, err: Option<NumError>)

  /**
   * cacheArtURI: the previous File and ArtURI when both are present as
   * strings, and a pair of empty strings otherwise.
   */
  function CacheArtURI(prev: Snapshot): (string, string)
  {
    if File in prev && ArtURI in prev && prev[File].Str? && prev[ArtURI].Str?
    then (prev[File].s, prev[ArtURI].s)
    else ("", "")
  }

  /** The artwork stored for a File line: the cached one when the file is the cached file. */
  function ArtFor(cache: (string, string), file: string, art: string -> string): string
  {
    if file == cache.0 then cache.1 else art(file)
  }

  /** The stored form of a value of a key other than File. */
  function Convert(key: string, val: string): (r: Result<Value, NumError>)
    ensures r.Ok? ==> Fits(key, r.value)
  {
    if key in DurationKeys then
      match Duration(val)
      case Ok(d) => Ok(Dur(d))
      case Err(e) => Err(e)
    else if key in SecondKeys then
      match Atoi(val)
      case Ok(n) => Ok(Int(n))
      case Err(e) => Err(e)
    else Ok(Str(val))
  }

  /** A line read as a key and a value: None for a line with no colon. */
  type Entry = Option<(string, string)>

  /**
   * A line split at its FIRST colon, with the value trimmed and the key not
   * (strings.SplitN with a limit of 2, then strings.TrimSpace on the value).
   */
  function Field(line: string): (f: Entry)
    ensures f.None? <==> ':' !in line
    ensures f.Some? ==> ':' !in f.value.0
    ensures f.Some? ==>
      var n := |f.value.0|;
      n < |line| && line[..n] == f.value.0 && line[n] == ':' && f.value.1 == TrimSpace(line[n + 1..])
  {
    match Cut(line, ':')
    case None => None
    case Some((key, raw)) => Some((key, TrimSpace(raw)))
  }

  /** A line built as a colon-free key, a colon and a raw value reads back as that key and the trimmed value. */
  lemma FieldOf(key: string, raw: string)
    requires ':' !in key
    ensures Field(key + ":" + raw) == Some((key, TrimSpace(raw)))
  {
    CutUnique(key + ":" + raw, ':', key, raw);
  }

  /** The lines of an output, each read as an entry. */
  function Fields(lines: seq<string>): (fs: seq<Entry>)
    ensures |fs| == |lines|
  {
    if |lines| == 0 then [] else Fields(lines[..|lines| - 1]) + [Field(lines[|lines| - 1])]
  }

  lemma {:induction false} FieldsAt(lines: seq<string>, i: nat)
    requires i < |lines|
    ensures Fields(lines)[i] == Field(lines[i])
  {
    if i < |lines| - 1 {
      FieldsAt(lines[..|lines| - 1], i);
    }
  }

  /** One entry absorbed into the snapshot: only known keys are stored; File also stores its artwork. */
  function Absorb(snap: Snapshot, f: Entry, cache: (string, string), art: string -> string): Result<Snapshot, NumError>
  {
    match f
    case None => Ok(snap)
    case Some((key, val)) =>
      if key !in InfoKeys then Ok(snap)
      else if key == File then Ok(snap[ArtURI := Str(ArtFor(cache, val, art))][File := Str(val)])
      else
        match Convert(key, val)
        case Err(e) => Err(e)
        case Ok(v) => Ok(snap[key := v])
  }

  /** The entries absorbed one after the other into an empty snapshot, stopping at the first malformed value. */
  function AbsorbAll(fs: seq<Entry>, cache: (string, string), art: string -> string): Refreshed
  {
    if |fs| == 0 then Refreshed(map[], None)
    else
      var prev := AbsorbAll(fs[..|fs| - 1], cache, art);
      if prev.err.Some? then prev
      else
        match Absorb(prev.snap, fs[|fs| - 1], cache, art)
        case Ok(s) => Refreshed(s, None)
        case Err(e) => Refreshed(prev.snap, Some(e))
  }

  /**
   * What UpdateInfo leaves behind, given the previous snapshot and the output
   * of `mocp -i` (None when the command failed, which the bridge reads as a
   * stopped player: an empty snapshot and no error).
   */
  function Refresh(prev: Snapshot, output: Option<string>, art: string -> string): Refreshed
  {
    if output.None? then Refreshed(map[], None)
    else AbsorbAll(Fields(Split(output.value, '\n')), CacheArtURI(prev), art)
  }

  /** The value of the last entry whose key is `key`, if any. */
  function LastValue(fs: seq<Entry>, key: string): Option<string>
  {
    if |fs| == 0 then None
    else
      var earlier := LastValue(fs[..|fs| - 1], key);
      match fs[|fs| - 1]
      case None => earlier
      case Some((k, val)) => if k == key then Some(val) else earlier
  }

  lemma AbsorbTyped(snap: Snapshot, f: Entry, cache: (string, string), art: string -> string)
    requires Typed(snap)
    ensures Absorb(snap, f, cache, art).Ok? ==> Typed(Absorb(snap, f, cache, art).value)
  {
  }

  /** Every refresh, complete or cut short, stores only known keys with their kind of value. */
  lemma {:induction false} AbsorbAllTyped(fs: seq<Entry>, cache: (string, string), art: string -> string)
    ensures Typed(AbsorbAll(fs, cache, art).snap)
  {
    if |fs| > 0 {
      AbsorbAllTyped(fs[..|fs| - 1], cache, art);
      AbsorbTyped(AbsorbAll(fs[..|fs| - 1], cache, art).snap, fs[|fs| - 1], cache, art);
    }
  }

  lemma RefreshTyped(prev: Snapshot, output: Option<string>, art: string -> string)
    ensures Typed(Refresh(prev, output, art).snap)
  {
    if output.Some? {
      AbsorbAllTyped(Fields(Split(output.value, '\n')), CacheArtURI(prev), art);
    }
  }

  /**
   * After a complete refresh, a known key is present exactly when some entry
   * carries it, and holds the value of the last such entry; ArtURI is present
   * exactly when File is, and holds the artwork of the last File entry.
   */
  lemma {:induction false} AbsorbAllField(fs: seq<Entry>, cache: (string, string), art: string -> string, k: string)
    requires AbsorbAll(fs, cache, art).err.None?
    ensures var snap := AbsorbAll(fs, cache, art).snap;
      && (k in snap <==> (k in InfoKeys && LastValue(fs, k).Some?) || (k == ArtURI && LastValue(fs, File).Some?))
      && (k in InfoKeys && k != File && LastValue(fs, k).Some? ==> Convert(k, LastValue(fs, k).value) == Ok(snap[k]))
      && (k == File && LastValue(fs, File).Some? ==> snap[k] == Str(LastValue(fs, File).value))
      && (k == ArtURI && LastValue(fs, File).Some? ==> snap[k] == Str(ArtFor(cache, LastValue(fs, File).value, art)))
  {
    if |fs| > 0 {
      var p, f := fs[..|fs| - 1], fs[|fs| - 1];
      var prev := AbsorbAll(p, cache, art);
      assert prev.err.None?;
      AbsorbAllField(p, cache, art, k);
      assert AbsorbAll(fs, cache, art).snap == Absorb(prev.snap, f, cache, art).value;
      match f
      case None =>
        assert LastValue(fs, k) == LastValue(p, k);
        assert LastValue(fs, File) == LastValue(p, File);
      case Some((key, val)) =>
        if key !in InfoKeys {
          assert LastValue(fs, File) == LastValue(p, File);
          assert k in InfoKeys ==> LastValue(fs, k) == LastValue(p, k);
        } else if key == File {
          assert LastValue(fs, File) == Some(val);
          assert k != File ==> LastValue(fs, k) == LastValue(p, k);
        } else {
          assert LastValue(fs, File) == LastValue(p, File);
          assert LastValue(fs, key) == Some(val);
          assert k != key ==> LastValue(fs, k) == LastValue(p, k);
        }
    }
  }

  /** The error an entry raises, whatever the snapshot and the cache. */
  function EntryError(f: Entry): Option<NumError>
  {
    match f
    case None => None
    case Some((key, val)) =>
      if key in InfoKeys && key != File && Convert(key, val).Err? then Some(Convert(key, val).error) else None
  }

  lemma AbsorbError(snap: Snapshot, f: Entry, cache: (string, string), art: string -> string)
    ensures Absorb(snap, f, cache, art).Err? <==> EntryError(f).Some?
    ensures Absorb(snap, f, cache, art).Err? ==> Absorb(snap, f, cache, art).error == EntryError(f).value
  {
  }

  /** The first error the entries raise, if any. */
  function FirstError(fs: seq<Entry>): Option<NumError>
  {
    if |fs| == 0 then None
    else
      var earlier := FirstError(fs[..|fs| - 1]);
      if earlier.Some? then earlier else EntryError(fs[|fs| - 1])
  }

  /** The error UpdateInfo returns for an output of `mocp -i`; a failed invocation is not an error. */
  function StatusError(output: Option<string>): Option<NumError>
  {
    if output.None? then None else FirstError(Fields(Split(output.value, '\n')))
  }

  /** A refresh is cut short by the first malformed entry, whatever the cache and the artwork. */
  lemma {:induction false} AbsorbAllError(fs: seq<Entry>, cache: (string, string), art: string -> string)
    ensures AbsorbAll(fs, cache, art).err == FirstError(fs)
  {
    if |fs| > 0 {
      var p, f := fs[..|fs| - 1], fs[|fs| - 1];
      AbsorbAllError(p, cache, art);
      AbsorbError(AbsorbAll(p, cache, art).snap, f, cache, art);
    }
  }

  lemma RefreshError(prev: Snapshot, output: Option<string>, art: string -> string)
    ensures Refresh(prev, output, art).err == StatusError(output)
  {
    if output.Some? {
      AbsorbAllError(Fields(Split(output.value, '\n')), CacheArtURI(prev), art);
    }
  }

  /** Once a prefix of the entries is cut short, the later entries change nothing. */
  lemma {:induction false} AbsorbAllStops(fs: seq<Entry>, i: nat, cache: (string, string), art: string -> string)
    requires i <= |fs| && AbsorbAll(fs[..i], cache, art).err.Some?
    ensures AbsorbAll(fs, cache, art) == AbsorbAll(fs[..i], cache, art)
  {
    if i < |fs| {
      var p := fs[..|fs| - 1];
      assert p[..i] == fs[..i];
      AbsorbAllStops(p, i, cache, art);
    } else {
      assert fs[..i] == fs;
    }
  }

  /**
   * Absorbing the same entries again, with the artwork memo taken from the
   * result, gives the same result: File did not change, so the memo carries
   * the artwork forward.
   */
  lemma AbsorbAllIdempotent(fs: seq<Entry>, cache: (string, string), art: string -> string)
    requires AbsorbAll(fs, cache, art).err.None?
    ensures AbsorbAll(fs, CacheArtURI(AbsorbAll(fs, cache, art).snap), art) == AbsorbAll(fs, cache, art)
  {
    var s1 := AbsorbAll(fs, cache, art).snap;
    var c2 := CacheArtURI(s1);
    AbsorbAllError(fs, cache, art);
    AbsorbAllError(fs, c2, art);
    var s2 := AbsorbAll(fs, c2, art).snap;
    forall k | true
      ensures k in s1 <==> k in s2
      ensures k in s1 ==> s1[k] == s2[k]
    {
      AbsorbAllField(fs, cache, art, k);
      AbsorbAllField(fs, c2, art, k);
      if k == ArtURI && LastValue(fs, File).Some? {
        AbsorbAllField(fs, cache, art, File);
        AbsorbAllField(fs, c2, art, File);
      }
    }
    assert s1 == s2;
  }

  /** Refreshing again from the same output changes nothing. */
  lemma RefreshIdempotent(prev: Snapshot, output: Option<string>, art: string -> string)
    requires Refresh(prev, output, art).err.None?
    ensures Refresh(Refresh(prev, output, art).snap, output, art) == Refresh(prev, output, art)
  {
    if output.Some? {
      AbsorbAllIdempotent(Fields(Split(output.value, '\n')), CacheArtURI(prev), art);
    }
  }

  /**
   * A refresh cut short keeps exactly what the entries before the malformed
   * one stored, and the malformed entry is the one that fails.
   */
  lemma {:induction false} AbsorbAllErrPrefix(fs: seq<Entry>, cache: (string, string), art: string -> string)
    requires AbsorbAll(fs, cache, art).err.Some?
    ensures exists i :: (0 <= i < |fs|
      && AbsorbAll(fs[..i], cache, art) == Refreshed(AbsorbAll(fs, cache, art).snap, None)
      && Absorb(AbsorbAll(fs, cache, art).snap, fs[i], cache, art) == Err(AbsorbAll(fs, cache, art).err.value))
  {
    var p := fs[..|fs| - 1];
    var r := AbsorbAll(fs, cache, art);
    if AbsorbAll(p, cache, art).err.Some? {
      assert r == AbsorbAll(p, cache, art);
      AbsorbAllErrPrefix(p, cache, art);
      var i :| 0 <= i < |p| && AbsorbAll(p[..i], cache, art) == Refreshed(r.snap, None)
        && Absorb(r.snap, p[i], cache, art) == Err(r.err.value);
      assert p[..i] == fs[..i] && p[i] == fs[i];
    } else {
      var i := |fs| - 1;
      assert fs[..i] == p;
      assert AbsorbAll(fs[..i], cache, art) == Refreshed(r.snap, None);
      assert Absorb(r.snap, fs[i], cache, art) == Err(r.err.value);
    }
  }
}

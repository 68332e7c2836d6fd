/**
 * The org.mpris.MediaPlayer2.Player object of media_player2_player.go: the
 * fifteen properties it exports, derived from the MocP snapshot; the diff
 * that republishes exactly the properties whose value changed; the guarded
 * methods Next … SetPosition with the Seeked signal; and the setters that
 * the property library calls back when a client writes LoopStatus, Rate,
 * Shuffle or Volume.
 *
 * D-Bus itself is not modelled: a property publication (`properties.Set`)
 * is an entry appended to a log, an emitted Seeked signal a position
 * appended to another, and what the outside world answers (the output of
 * `mocp -i`, the mixer, whether a mocp command succeeds) is a parameter.
 */
module Player {
  import opened Wrappers
  import opened Strconv
  import opened GoArith
  import S = MocStatus
  import M = Mocp

  // ---------------------------------------------------------------- the properties

  /** The properties of org.mpris.MediaPlayer2.Player, the keys of propValues. */
  datatype PropName =
    | PlaybackStatus | LoopStatus | Rate | Shuffle | Metadata | Volume
    | MinimumRate | MaximumRate | CanGoNext | CanGoPrevious | CanPlay | CanPause
    | CanSeek | CanControl | Position

  /** The name under which each property is exported. */
  function Name(k: PropName): string
  {
    match k
    case PlaybackStatus => "PlaybackStatus"
    case LoopStatus => "LoopStatus"
    case Rate => "Rate"
    case Shuffle => "Shuffle"
    case Metadata => "Metadata"
    case Volume => "Volume"
    case MinimumRate => "MinimumRate"
    case MaximumRate => "MaximumRate"
    case CanGoNext => "CanGoNext"
    case CanGoPrevious => "CanGoPrevious"
    case CanPlay => "CanPlay"
    case CanPause => "CanPause"
    case CanSeek => "CanSeek"
    case CanControl => "CanControl"
    case Position => "Position"
  }

  const AllProps: set<PropName> :=
    {PlaybackStatus, LoopStatus, Rate, Shuffle, Metadata, Volume, MinimumRate, MaximumRate,
     CanGoNext, CanGoPrevious, CanPlay, CanPause, CanSeek, CanControl, Position}

  /** A property value: D-Bus string, boolean, double, int64 or the a{sv} Metadata dictionary. */
  datatype PropValue =
    | Text(s: string)
    | Flag(b: bool)
    | Double(x: real)
    | Int64(n: int)
    | Dict(m: map<string, M.MetaValue>)

  /** The D-Bus type signature the MPRIS interface gives each property. */
  function Signature(k: PropName): string
  {
    match k
    case PlaybackStatus => "s"
    case LoopStatus => "s"
    case Metadata => "a{sv}"
    case Position => "x"
    case Rate => "d"
    case Volume => "d"
    case MinimumRate => "d"
    case MaximumRate => "d"
    case _ => "b"
  }

  function SignatureOf(v: PropValue): string
  {
    match v
    case Text(_) => "s"
    case Flag(_) => "b"
    case Double(_) => "d"
    case Int64(_) => "x"
    case Dict(_) => "a{sv}"
  }

  /** Microseconds per second, the MPRIS unit of time. */
  const Micro: int := 1000000

  /**
   * getCurrVal: a property's value for a snapshot and a mixer reading. It
   * always has the D-Bus type of the property. (The `default: nil` branch of
   * the Go switch cannot be reached from the fifteen exported names.)
   */
  function CurrVal(k: PropName, snap: S.Snapshot, mixer: Option<int>): (v: PropValue)
    requires M.TotalSecIsInt(snap)
    ensures SignatureOf(v) == Signature(k)
  {
    match k
    case PlaybackStatus => Text(M.PlaybackStatus(snap))
    case LoopStatus => Text(M.LoopStatusValue)
    case Rate => Double(1.0)
    case Shuffle => Flag(M.ShuffleValue)
    case Metadata => Dict(M.Metadata(snap))
    case Volume => Double(M.MixerVolume(mixer) as real / 100.0)
    case MinimumRate => Double(1.0)
    case MaximumRate => Double(1.0)
    case CanGoNext => Flag(M.HasSongTitle(snap))
    case CanGoPrevious => Flag(M.HasSongTitle(snap))
    case CanPlay => Flag(M.HasSongTitle(snap))
    case CanPause => Flag(M.HasSongTitle(snap))
    case CanSeek => Flag(M.CanSeek(snap))
    case CanControl => Flag(true)
    case Position => Int64(M.Position(snap) * Micro)
  }

  /** The properties getCurrVal answers with a constant. */
  lemma CurrValConstants(snap: S.Snapshot, mixer: Option<int>)
    requires M.TotalSecIsInt(snap)
    ensures CurrVal(Rate, snap, mixer) == CurrVal(MinimumRate, snap, mixer) == CurrVal(MaximumRate, snap, mixer) == Double(1.0)
    ensures CurrVal(CanControl, snap, mixer) == Flag(true)
    ensures CurrVal(LoopStatus, snap, mixer) == Text("None") && CurrVal(Shuffle, snap, mixer) == Flag(false)
  {
  }

  /** The values getCurrVal reads from the snapshot and the mixer, spelled out on the snapshot's keys. */
  lemma CurrValReads(snap: S.Snapshot, mixer: Option<int>)
    requires M.TotalSecIsInt(snap)
    ensures CurrVal(Position, snap, mixer) ==
      Int64(if S.CurrentSec in snap && snap[S.CurrentSec].Int? then snap[S.CurrentSec].n * 1000000 else 0)
    ensures CurrVal(Volume, snap, mixer) == Double(if mixer.Some? then mixer.value as real / 100.0 else 0.0)
    ensures CurrVal(CanGoNext, snap, mixer) == CurrVal(CanGoPrevious, snap, mixer) == Flag(S.SongTitle in snap)
    ensures CurrVal(CanPlay, snap, mixer) == CurrVal(CanPause, snap, mixer) == Flag(S.SongTitle in snap)
    ensures CurrVal(CanSeek, snap, mixer) ==
      Flag(S.CurrentSec in snap && S.State in snap && snap[S.State] == S.Str("PLAY"))
  {
  }

  /** Every property's current value. */
  function Derived(snap: S.Snapshot, mixer: Option<int>): (d: map<PropName, PropValue>)
    requires S.Typed(snap)
    ensures d.Keys == AllProps
  {
    M.TypedTotalSec(snap);
    map k | k in AllProps :: CurrVal(k, snap, mixer)
  }

  // ---------------------------------------------------------------- exportProps

  /** Whether a change of the property is announced with PropertiesChanged. */
  datatype Emit = EmitTrue | EmitFalse

  /** The setters the property library calls back when a client writes a property. */
  datatype Setter = OnLoopStatus | OnRate | OnShuffle | OnVolume

  /** A prop.Prop: the value, whether clients may write it, its Emit flag, its callback. */
  datatype Prop = Prop(value: PropValue, writable: bool, emit: Emit, callback: Option<Setter>)

  /** The callback exportProps registers for each property. */
  function CallbackOf(k: PropName): Option<Setter>
  {
    match k
    case LoopStatus => Some(OnLoopStatus)
    case Rate => Some(OnRate)
    case Shuffle => Some(OnShuffle)
    case Volume => Some(OnVolume)
    case _ => None
  }

  /** The Emit flag of each prop: newProp's EmitTrue, except Position, which exportProps builds with EmitFalse. */
  function EmitOf(k: PropName): Emit
  {
    if k == Position then EmitFalse else EmitTrue
  }

  /**
   * The props exportProps hands to the property library for the values it
   * exports: a prop per value, carrying that value; all writable; every one
   * but Position announces its changes; exactly LoopStatus, Rate, Shuffle
   * and Volume have a setter.
   */
  function PropsOf(values: map<PropName, PropValue>): (props: map<PropName, Prop>)
    ensures props.Keys == values.Keys
    ensures forall k :: k in props ==> props[k].value == values[k] && props[k].writable
    ensures forall k :: k in props ==> (props[k].emit == EmitFalse <==> k == Position)
    ensures forall k :: k in props ==> (props[k].callback.Some? <==> k == LoopStatus || k == Rate || k == Shuffle || k == Volume)
  {
    map k | k in values :: Prop(values[k], true, EmitOf(k), CallbackOf(k))
  }

  // ---------------------------------------------------------------- publication

  /** The `properties.Set` calls made, in order: each a property and its new value. */
  type Log = seq<(PropName, PropValue)>

  function KeysOf(l: Log): set<PropName>
  {
    set i | 0 <= i < |l| :: l[i].0
  }

  predicate Distinct(l: Log)
  {
    forall i, j :: 0 <= i < j < |l| ==> l[i].0 != l[j].0
  }

  /** The properties whose value differs (by deep equality) between two maps. */
  function Changed(before: map<PropName, PropValue>, after: map<PropName, PropValue>): set<PropName>
  {
    set k | k in before && k in after && before[k] != after[k]
  }

  /**
   * What one diff publishes, in whatever order Go's map iteration takes:
   * each changed property once, with its new value, and nothing else.
   */
  predicate Publishes(l: Log, before: map<PropName, PropValue>, after: map<PropName, PropValue>)
  {
    && Distinct(l)
    && KeysOf(l) == Changed(before, after)
    && forall i :: 0 <= i < |l| ==> l[i].0 in after && l[i].1 == after[l[i].0]
  }

  /** The values after the initial export with every publication applied in order, the last one winning. */
  function Replay(m: map<PropName, PropValue>, l: Log): (r: map<PropName, PropValue>)
  {
    if |l| == 0 then m else Replay(m, l[..|l| - 1])[l[|l| - 1].0 := l[|l| - 1].1]
  }

  lemma KeysOfSnoc(l: Log, x: (PropName, PropValue))
    ensures KeysOf(l + [x]) == KeysOf(l) + {x.0}
  {
    var t := l + [x];
    assert t[|l|] == x;
    forall k | k in KeysOf(l)
      ensures k in KeysOf(t)
    {
      var i :| 0 <= i < |l| && l[i].0 == k;
      assert t[i] == l[i];
    }
  }

  /** Replaying entries that all carry the values of `after` gives `after` on their keys and leaves the rest alone. */
  lemma {:induction false} ReplayValues(before: map<PropName, PropValue>, after: map<PropName, PropValue>, l: Log)
    requires forall i :: 0 <= i < |l| ==> l[i].0 in before && l[i].0 in after && l[i].1 == after[l[i].0]
    ensures Replay(before, l).Keys == before.Keys
    ensures forall k :: k in before ==> Replay(before, l)[k] == if k in KeysOf(l) then after[k] else before[k]
  {
    if |l| > 0 {
      var p, x := l[..|l| - 1], l[|l| - 1];
      assert l == p + [x];
      assert forall i :: 0 <= i < |p| ==> p[i] == l[i];
      ReplayValues(before, after, p);
      KeysOfSnoc(p, x);
    }
  }

  /** After a diff, applying its publications to the old values gives exactly the new values. */
  lemma PublishesReplay(before: map<PropName, PropValue>, after: map<PropName, PropValue>, l: Log)
    requires before.Keys == after.Keys
    requires Publishes(l, before, after)
    ensures Replay(before, l) == after
  {
    ReplayValues(before, after, l);
    forall k | k in before
      ensures Replay(before, l)[k] == after[k]
    {
      if k !in KeysOf(l) {
        assert k !in Changed(before, after);
      }
    }
  }

  /** Nothing changed, nothing published. */
  lemma NothingToPublish(l: Log, m: map<PropName, PropValue>)
    requires Publishes(l, m, m)
    ensures l == []
  {
    KeysOfHead(l);
  }

  lemma KeysOfHead(l: Log)
    ensures |l| > 0 ==> l[0].0 in KeysOf(l)
  {
  }

  /**
   * The publications a client is told of with PropertiesChanged: those of
   * properties whose Emit flag is EmitTrue.
   */
  function Announced(props: map<PropName, Prop>, l: Log): Log
  {
    if |l| == 0 then []
    else
      var x := l[|l| - 1];
      Announced(props, l[..|l| - 1]) + (if x.0 in props && props[x.0].emit == EmitTrue then [x] else [])
  }

  /** Every PropName is one of the fifteen exported properties. */
  lemma InAllProps(k: PropName)
    ensures k in AllProps
  {
  }

  /** With the props of exportProps, every publication but Position's is announced. */
  lemma {:induction false} AnnouncedKeys(values: map<PropName, PropValue>, l: Log)
    requires values.Keys == AllProps
    ensures KeysOf(Announced(PropsOf(values), l)) == KeysOf(l) - {Position}
  {
    if |l| > 0 {
      var props := PropsOf(values);
      var p, x := l[..|l| - 1], l[|l| - 1];
      assert l == p + [x];
      AnnouncedKeys(values, p);
      KeysOfSnoc(p, x);
      InAllProps(x.0);
      assert x.0 in props;
      if x.0 != Position {
        assert props[x.0].emit == EmitTrue;
        KeysOfSnoc(Announced(props, p), x);
        calc {
          KeysOf(Announced(props, l));
          KeysOf(Announced(props, p) + [x]);
          KeysOf(Announced(props, p)) + {x.0};
          (KeysOf(p) - {Position}) + {x.0};
          KeysOf(l) - {Position};
        }
      } else {
        assert props[x.0].emit == EmitFalse;
        assert Announced(props, l) == Announced(props, p) + [] == Announced(props, p);
        assert KeysOf(l) - {Position} == KeysOf(p) - {Position};
      }
    }
  }

  /** No key occurs twice. */
  predicate NoDup(ks: seq<PropName>)
  {
    |ks| == 0 || (NoDup(ks[..|ks| - 1]) && ks[|ks| - 1] !in ks[..|ks| - 1])
  }

  /**
   * The publications of update's loop when Go's map iteration visits the
   * keys in the order ks: each key whose new value differs from the old, with
   * the new value.
   */
  function Diff(ks: seq<PropName>, before: map<PropName, PropValue>, after: map<PropName, PropValue>): (l: Log)
  {
    if |ks| == 0 then []
    else
      var k := ks[|ks| - 1];
      Diff(ks[..|ks| - 1], before, after) + (if k in before && k in after && before[k] != after[k] then [(k, after[k])] else [])
  }

  /** Visiting keys once each publishes each changed key once, with its new value. */
  lemma {:induction false} DiffFacts(ks: seq<PropName>, before: map<PropName, PropValue>, after: map<PropName, PropValue>)
    requires NoDup(ks)
    ensures Distinct(Diff(ks, before, after))
    ensures forall i :: 0 <= i < |Diff(ks, before, after)| ==>
      var e := Diff(ks, before, after)[i]; e.0 in after && e.1 == after[e.0]
    ensures forall k :: k in KeysOf(Diff(ks, before, after)) <==> k in ks && k in before && k in after && before[k] != after[k]
  {
    if |ks| > 0 {
      var p, k := ks[..|ks| - 1], ks[|ks| - 1];
      assert ks == p + [k];
      DiffFacts(p, before, after);
      var d := Diff(p, before, after);
      assert k !in p;
      if k in before && k in after && before[k] != after[k] {
        KeysOfSnoc(d, (k, after[k]));
        assert forall i :: 0 <= i < |d| ==> d[i].0 != k;
      } else {
        assert Diff(ks, before, after) == d + [] == d;
      }
      forall k' | k' != k
        ensures k' in ks <==> k' in p
      {
      }
    }
  }

  /** idx gives, for each entry of the log, a position of its key in ks, the positions increasing. */
  predicate Indexes(idx: seq<int>, l: Log, ks: seq<PropName>)
  {
    && |idx| == |l|
    && (forall i :: 0 <= i < |l| ==> 0 <= idx[i] < |ks| && ks[idx[i]] == l[i].0)
    && (forall i, j :: 0 <= i < j < |l| ==> idx[i] < idx[j])
  }

  /** The keys of a log occur in ks in the same order. */
  ghost predicate InOrder(l: Log, ks: seq<PropName>)
  {
    exists idx :: Indexes(idx, l, ks)
  }

  lemma IndexesGrow(idx: seq<int>, l: Log, p: seq<PropName>, k: PropName)
    requires Indexes(idx, l, p)
    ensures Indexes(idx, l, p + [k])
  {
    assert forall i :: 0 <= i < |l| ==> (p + [k])[idx[i]] == p[idx[i]];
  }

  lemma IndexesSnoc(idx: seq<int>, l: Log, p: seq<PropName>, x: (PropName, PropValue))
    requires Indexes(idx, l, p)
    ensures Indexes(idx + [|p|], l + [x], p + [x.0])
  {
    IndexesGrow(idx, l, p, x.0);
  }

  /** The publications of a diff come in the order the keys were visited. */
  lemma {:induction false} DiffOrder(ks: seq<PropName>, before: map<PropName, PropValue>, after: map<PropName, PropValue>)
    ensures InOrder(Diff(ks, before, after), ks)
  {
    if |ks| == 0 {
      assert Indexes([], Diff(ks, before, after), ks);
    } else {
      var p, k := ks[..|ks| - 1], ks[|ks| - 1];
      assert ks == p + [k];
      DiffOrder(p, before, after);
      var dp := Diff(p, before, after);
      var idx :| Indexes(idx, dp, p);
      if k in before && k in after && before[k] != after[k] {
        IndexesSnoc(idx, dp, p, (k, after[k]));
        assert Indexes(idx + [|p|], Diff(ks, before, after), ks);
      } else {
        IndexesGrow(idx, dp, p, k);
        assert Indexes(idx, Diff(ks, before, after), ks);
      }
    }
  }

  /** Replaying two logs one after the other is replaying their concatenation. */
  lemma {:induction false} ReplayAppend(m: map<PropName, PropValue>, a: Log, b: Log)
    ensures Replay(m, a + b) == Replay(Replay(m, a), b)
  {
    if |b| > 0 {
      var p := b[..|b| - 1];
      assert (a + b)[..|a + b| - 1] == a + p;
      ReplayAppend(m, a, p);
    } else {
      assert a + b == a;
    }
  }

  // ---------------------------------------------------------------- update
  /**
   * The loop of update, over the keys of propValues in Go's (unspecified)
   * map order: each property whose current value differs by deep equality
   * from the one held is set to it and published.
   */
  method Republish(values: map<PropName, PropValue>, target: map<PropName, PropValue>) returns (updated: map<PropName, PropValue>, added: Log)
    requires values.Keys == AllProps && target.Keys == AllProps
    ensures updated == target
    ensures Publishes(added, values, target)
  {
    updated, added := values, [];
    ghost var visited: seq<PropName> := [];
    var pending := values.Keys;
    while pending != {}
      invariant pending <= AllProps
      invariant forall k :: k in visited <==> k in AllProps && k !in pending
      invariant NoDup(visited)
      invariant added == Diff(visited, values, target)
      invariant updated == Replay(values, added)
      decreases pending
    {
      var key :| key in pending;
      // the value the range clause yields: the key's entry is not written before its visit
      var value := values[key];
      assert (visited + [key])[..|visited|] == visited;
      var newVal := target[key];
      if newVal != value {
        assert (added + [(key, newVal)])[..|added|] == added;
        updated := updated[key := newVal];
        added := added + [(key, newVal)];
      }
      visited := visited + [key];
      pending := pending - {key};
    }
    DiffFacts(visited, values, target);
    assert KeysOf(added) == Changed(values, target);
    PublishesReplay(values, target, added);
  }

  // ---------------------------------------------------------------- update

  /** What the outside world answers during one update: the output of `mocp -i` and the mixer percentage. */
  datatype Reading = Reading(status: Option<string>, mixer: Option<int>)

  /** The part of the bridge one update or one method changes. */
  datatype BridgeState = BridgeState(
    snapshot: S.Snapshot,
    issued: seq<M.Cmd>,
    values: map<PropName, PropValue>,
    published: Log,
    seeked: seq<int>)

  /**
   * update: the snapshot is refreshed; if the refresh fails, nothing of the
   * properties changes and nothing is published; otherwise every value is
   * recomputed and the new publications are exactly the changed ones.
   */
  ghost predicate Synced(v0: BridgeState, v1: BridgeState, r: Reading, art: string -> string)
  {
    var refreshed := S.Refresh(v0.snapshot, r.status, art);
    S.RefreshTyped(v0.snapshot, r.status, art);
    M.TypedTotalSec(refreshed.snap);
    && v1.snapshot == refreshed.snap
    && v1.issued == v0.issued
    && v1.seeked == v0.seeked
    && if refreshed.err.Some? then
         v1.values == v0.values && v1.published == v0.published
       else
         && v1.values == Derived(refreshed.snap, r.mixer)
         && |v0.published| <= |v1.published|
         && v1.published[..|v0.published|] == v0.published
         && Publishes(v1.published[|v0.published|..], v0.values, v1.values)
  }

  /** A second update on the same reading changes nothing at all: no property is published again. */
  lemma SyncedIdempotent(v0: BridgeState, v1: BridgeState, v2: BridgeState, r: Reading, art: string -> string)
    requires S.StatusError(r.status).None?
    requires Synced(v0, v1, r, art) && Synced(v1, v2, r, art)
    ensures v2 == v1
  {
    S.RefreshError(v0.snapshot, r.status, art);
    S.RefreshError(v1.snapshot, r.status, art);
    S.RefreshIdempotent(v0.snapshot, r.status, art);
    assert v2.values == v1.values;
    NothingToPublish(v2.published[|v1.published|..], v1.values);
    assert v2.published == v2.published[..|v1.published|] + v2.published[|v1.published|..];
  }

  // ---------------------------------------------------------------- methods and setters

  /** The variant a client writes to a property, by its dynamic type. */
  datatype Variant = VString(s: string) | VBool(b: bool) | VDouble(x: real) | VOther

  /** The calls the object answers: the interface's methods and the four setters. */
  datatype Action =
    | Next | Previous | Pause | PlayPause | Stop | Play
    | Seek(offset: int)
    | SetPosition(trackId: string, position: int)
    | SetLoopStatus(loop: Variant)
    | SetRate(rate: Variant)
    | SetShuffle(shuffle: Variant)
    | SetVolume(volume: Variant)

  /** Go's int(x) of a float: the integer part, truncated toward zero. */
  function Trunc(x: real): (t: int)
    ensures x >= 0.0 ==> t as real <= x < t as real + 1.0
    ensures x < 0.0 ==> t as real - 1.0 < x <= t as real
  {
    if x >= 0.0 then x.Floor else -((-x).Floor)
  }

  /** The error a setter reports when the written value has the wrong type. */
  function WrongChange(a: Action): (msg: Option<string>)
    ensures msg.Some? <==>
      || (a.SetLoopStatus? && !a.loop.VString?)
      || (a.SetRate? && !a.rate.VDouble?)
      || (a.SetShuffle? && !a.shuffle.VBool?)
      || (a.SetVolume? && !a.volume.VDouble?)
  {
    match a
    case SetLoopStatus(v) => if v.VString? then None else Some("wrong LoopStatus change")
    case SetRate(v) => if v.VDouble? then None else Some("wrong Rate change")
    case SetShuffle(v) => if v.VBool? then None else Some("wrong Shuffle change")
    case SetVolume(v) => if v.VDouble? then None else Some("wrong Volume change")
    case _ => None
  }

  /** Whether a method goes ahead: getCanGoNext and friends on the snapshot; Stop and the setters always do. */
  function Guard(a: Action, s: S.Snapshot): (go: bool)
    ensures a.Stop? || a.SetLoopStatus? || a.SetRate? || a.SetShuffle? || a.SetVolume? ==> go
    ensures a.Seek? || a.SetPosition? ==> (go <==> M.CanSeek(s))
    ensures a.Next? || a.Previous? || a.Pause? || a.PlayPause? || a.Play? ==> (go <==> S.SongTitle in s)
  {
    match a
    case Next => M.HasSongTitle(s)
    case Previous => M.HasSongTitle(s)
    case Pause => M.HasSongTitle(s)
    case PlayPause => M.HasSongTitle(s)  // CanPlay and CanPause, the same test
    case Play => M.HasSongTitle(s)
    case Seek(_) => M.CanSeek(s)
    case SetPosition(_, _) => M.CanSeek(s)
    case _ => true
  }

  /** The mocp command a call issues once its guard passes, if any. */
  function Issues(a: Action, s: S.Snapshot): Option<M.Cmd>
    requires M.TotalSecIsInt(s)
  {
    match a
    case Next => Some(M.Cmd.Next)
    case Previous => Some(M.Cmd.Previous)
    case Pause => Some(M.Cmd.Pause)
    case PlayPause => M.ToggleCmd(s)
    case Stop => Some(M.Cmd.Stop)
    case Play => Some(M.Cmd.Unpause)
    case Seek(offset) => Some(M.Cmd.Seek(Quo(offset, Micro)))
    case SetPosition(_, position) => M.JumpCmd(s, Quo(position, Micro))
    case SetLoopStatus(v) =>
      if v == VString("None") then Some(M.Cmd.Repeat(false))
      else if v == VString("Track") || v == VString("Playlist") then Some(M.Cmd.Repeat(true))
      else None
    case SetRate(v) => if v == VDouble(0.0) then Some(M.Cmd.Pause) else None
    case SetShuffle(v) => if v.VBool? then Some(M.Cmd.Shuffle(v.b)) else None
    case SetVolume(v) => if v.VDouble? then Some(M.Cmd.Volume(M.Clamp(Trunc(100.0 * v.x)))) else None
  }

  /** The position the Seeked signal carries once the command went through, if one is emitted. */
  function SeekedSignal(a: Action, s: S.Snapshot): Option<int>
  {
    match a
    case Seek(offset) =>
      (match M.CurrentSeconds(s)
       case Some(cur) => Some((cur + Quo(offset, Micro)) * Micro)
       case None => None)
    case SetPosition(_, position) => Some(position)
    case _ => None
  }

  /** Whether the call ends with an update: every method, except a Seek whose CurrentSec is not an int; no setter. */
  function Refreshes(a: Action, s: S.Snapshot): bool
  {
    match a
    case Seek(_) => M.CurrentSeconds(s).Some?
    case SetLoopStatus(_) => false
    case SetRate(_) => false
    case SetShuffle(_) => false
    case SetVolume(_) => false
    case _ => true
  }

  /** Why a call failed: a malformed `mocp -i` line in its update, a failed mocp command, or a wrongly typed write. */
  datatype Reason = Malformed(parse: NumError) | CommandFailed(run: M.RunError) | Rejected(msg: string)

  /** The *dbus.Error a call returns: nil, or a failure. */
  datatype Outcome = Done | Failed(reason: Reason)

  /** What an update's error makes of a call's result. */
  function Finish(err: Option<NumError>): (out: Outcome)
    ensures out.Done? <==> err.None?
    ensures err.Some? ==> out == Failed(Malformed(err.value))
  {
    match err
    case None => Done
    case Some(e) => Failed(Malformed(e))
  }

  /**
   * One call of a method or setter, from v0 to v1 with result `out`: a
   * wrongly typed write is refused; a method whose guard fails succeeds
   * without doing anything; otherwise the command is issued (`ok` is
   * whether mocp succeeds); a failed command ends the call before the
   * update; then Seeked is emitted and the update runs, as the call says.
   */
  datatype Plan = Refuse(msg: string) | Skip | Go(cmd: Option<M.Cmd>, signal: Option<int>, refresh: bool)

  function PlanOf(a: Action, s: S.Snapshot): Plan
    requires S.Typed(s)
  {
    M.TypedTotalSec(s);
    if WrongChange(a).Some? then Refuse(WrongChange(a).value)
    else if !Guard(a, s) then Skip
    else Go(Issues(a, s), SeekedSignal(a, s), Refreshes(a, s))
  }

  /** The state once the plan's command, if any, is issued. */
  function Issued(p: Plan, v0: BridgeState): BridgeState
  {
    if p.Go? && p.cmd.Some? then v0.(issued := v0.issued + [p.cmd.value]) else v0
  }

  /** The state once the plan's command is issued and its Seeked signal, if any, emitted. */
  function Signalled(p: Plan, v0: BridgeState): BridgeState
  {
    var v2 := Issued(p, v0);
    if p.Go? && p.signal.Some? then v2.(seeked := v2.seeked + [p.signal.value]) else v2
  }

  /** Whether the call goes on to update instead of ending early. */
  predicate Refreshing(p: Plan, ok: bool)
  {
    p.Go? && (p.cmd.None? || ok) && p.refresh
  }

  /** The state when the call ends, or when its update starts if it is Refreshing. */
  function Pre(p: Plan, ok: bool, v0: BridgeState): BridgeState
  {
    match p
    case Go(c, _, _) => if c.Some? && !ok then Issued(p, v0) else Signalled(p, v0)
    case _ => v0
  }

  /** The call's result: a refusal, success, the failure of the command, or the update's error. */
  function OutOf(p: Plan, ok: bool, inner: Reading): Outcome
  {
    match p
    case Refuse(msg) => Failed(Rejected(msg))
    case Skip => Done
    case Go(c, _, refresh) =>
      if c.Some? && !ok then Failed(CommandFailed(M.RunError(M.Args(c.value))))
      else if refresh then Finish(S.StatusError(inner.status))
      else Done
  }

  /**
   * One call of a method or setter with plan p, from v0 to v1 with result
   * out: the result OutOf gives, and either the update the call ends with
   * or the state Pre describes.
   */
  ghost predicate Called(p: Plan, ok: bool, inner: Reading, art: string -> string, v0: BridgeState, v1: BridgeState, out: Outcome)
  {
    && out == OutOf(p, ok, inner)
    && if Refreshing(p, ok) then Synced(Pre(p, ok, v0), v1, inner, art) else v1 == Pre(p, ok, v0)
  }

  /** A call that does not refresh does not read the update's reading. */
  lemma InnerUnread(p: Plan, ok: bool, inner: Reading)
    requires !Refreshing(p, ok)
    ensures OutOf(p, ok, inner) == OutOf(p, ok, Reading(None, None))
  {
  }

  // ---------------------------------------------------------------- facts about the calls

  /** Seek moves by whole seconds, truncated toward zero, so a backward seek of less than a second does not move. */
  lemma SeekSeconds(offset: int, s: S.Snapshot)
    requires M.TotalSecIsInt(s)
    ensures Issues(Seek(offset), s) == Some(M.Cmd.Seek(Quo(offset, Micro)))
    ensures -Micro < offset < Micro ==> Issues(Seek(offset), s) == Some(M.Cmd.Seek(0))
    ensures Issues(Seek(-offset), s) == Some(M.Cmd.Seek(-Quo(offset, Micro)))
  {
    QuoOdd(offset, Micro);
  }

  /** Seeked after a Seek reports the position before the seek plus the whole seconds sought. */
  lemma SeekSignal(offset: int, s: S.Snapshot, cur: int)
    requires S.CurrentSec in s && s[S.CurrentSec] == S.Int(cur)
    ensures SeekedSignal(Seek(offset), s) == Some((cur + Quo(offset, Micro)) * Micro)
    ensures Refreshes(Seek(offset), s)
  {
  }

  /** SetPosition announces the requested position even when the target is past the track's end and no jump is issued. */
  lemma SetPositionPastEnd(s: S.Snapshot, id: string, position: int)
    requires S.TotalSec in s && s[S.TotalSec] == S.Int(100) && position >= 101 * Micro
    ensures Issues(SetPosition(id, position), s).None?
    ensures SeekedSignal(SetPosition(id, position), s) == Some(position)
  {
    assert Quo(position, Micro) >= 101;
  }

  /** A LoopStatus other than None, Track and Playlist is accepted but changes nothing. */
  lemma LoopStatusUnknown(loop: string, s: S.Snapshot)
    requires M.TotalSecIsInt(s)
    requires loop != "None" && loop != "Track" && loop != "Playlist"
    ensures WrongChange(SetLoopStatus(VString(loop))).None?
    ensures Issues(SetLoopStatus(VString(loop)), s).None?
  {
  }

  /** Writing Volume 0.8 sets the mixer to 80 percent; values outside [0, 1] are clamped. */
  lemma VolumeWrites(s: S.Snapshot, x: real)
    requires M.TotalSecIsInt(s)
    ensures Issues(SetVolume(VDouble(0.8)), s) == Some(M.Cmd.Volume(80))
    ensures x > 1.0 ==> Issues(SetVolume(VDouble(x)), s) == Some(M.Cmd.Volume(100))
    ensures x < 0.0 ==> Issues(SetVolume(VDouble(x)), s) == Some(M.Cmd.Volume(0))
  {
    assert Trunc(100.0 * 0.8) == 80;
    if x > 1.0 {
      assert Trunc(100.0 * x) >= 100;
    }
    if x < 0.0 {
      assert Trunc(100.0 * x) <= 0;
    }
  }

  // ---------------------------------------------------------------- the object

  /**
   * MediaPlayer2Player: the MocP handle, the props exported once, the values
   * last published for each property (propValues), and the record of what
   * was published and signalled.
   */
  class MediaPlayer2Player {
    const mp: M.MocP
    var propValues: map<PropName, PropValue>
    /** Every `properties.Set` call update has made so far, in order. */
    var published: Log
    /** Every Seeked signal so far, in microseconds. */
    var seeked: seq<int>
    /** The values exportProps handed to the property library. */
    const exported: map<PropName, PropValue>

    /**
     * propValues always has the fifteen properties, and it is the exported
     * values with every entry of the publication log applied in order.
     */
    ghost predicate Valid()
      reads this, mp
    {
      && mp.Valid()
      && propValues.Keys == AllProps
      && propValues == Replay(exported, published)
    }

    /** The props handed to the property library, as exportProps builds them. */
    function Props(): map<PropName, Prop>
    {
      PropsOf(exported)
    }

    ghost function Current(): BridgeState
      reads this, mp
    {
      BridgeState(mp.metadata, mp.issued, propValues, published, seeked)
    }

    /**
     * NewMediaPlayer2Player with exportProps: every property starts at its
     * current value for the snapshot and the mixer, and the props carry
     * those values.
     */
    constructor (mp: M.MocP, mixer: Option<int>)
      requires mp.Valid()
      ensures Valid() && this.mp == mp
      ensures propValues == Derived(mp.metadata, mixer) && published == [] && seeked == []
      ensures exported == propValues
    {
      this.mp := mp;
      var values := Derived(mp.metadata, mixer);
      exported := values;
      propValues := values;
      published := [];
      seeked := [];
    }

    /** update: refresh the snapshot, then recompute every property and publish the changed ones. */
    method Update(r: Reading) returns (err: Option<NumError>)
      requires Valid()
      modifies this, mp
      ensures Valid()
      ensures Synced(old(Current()), Current(), r, mp.artwork)
      ensures err == S.StatusError(r.status)
    {
      err := mp.UpdateInfo(r.status);
      if err.Some? {
        return;
      }
      Publish(Derived(mp.metadata, r.mixer));
    }

    /** The loop of update once the snapshot is refreshed, publishing after what was published before. */
    method Publish(target: map<PropName, PropValue>)
      requires Valid() && target.Keys == AllProps
      modifies this
      ensures Valid()
      ensures propValues == target && seeked == old(seeked)
      ensures |old(published)| <= |published| && published[..|old(published)|] == old(published)
      ensures Publishes(published[|old(published)|..], old(propValues), propValues)
    {
      var updated, added := Republish(propValues, target);
      PublishesReplay(propValues, updated, added);
      ReplayAppend(exported, published, added);
      assert (published + added)[..|published|] == published && (published + added)[|published|..] == added;
      propValues, published := updated, published + added;
    }

    /** Next; the half-second pause before the update is not modelled. */
    method Next(ok: bool, inner: Reading) returns (out: Outcome)
      requires Valid()
      modifies this, mp
      ensures Valid()
      ensures out == OutOf(PlanOf(Action.Next, old(mp.metadata)), ok, inner)
      ensures !Refreshing(PlanOf(Action.Next, old(mp.metadata)), ok) ==> Current() == Pre(PlanOf(Action.Next, old(mp.metadata)), ok, old(Current()))
      ensures Refreshing(PlanOf(Action.Next, old(mp.metadata)), ok) ==> Synced(Pre(PlanOf(Action.Next, old(mp.metadata)), ok, old(Current())), Current(), inner, mp.artwork)
    {
      if !M.HasSongTitle(mp.metadata) {
        return Done;
      }
      var e := mp.Run(M.Cmd.Next, ok);
      if e.Some? {
        return Failed(CommandFailed(e.value));
      }
      assert Current() == Pre(PlanOf(Action.Next, old(mp.metadata)), ok, old(Current()));
      var u := Update(inner);
      out := Finish(u);
    }

    /** Previous; the half-second pause before the update is not modelled. */
    method Previous(ok: bool, inner: Reading) returns (out: Outcome)
      requires Valid()
      modifies this, mp
      ensures Valid()
      ensures out == OutOf(PlanOf(Action.Previous, old(mp.metadata)), ok, inner)
      ensures !Refreshing(PlanOf(Action.Previous, old(mp.metadata)), ok) ==> Current() == Pre(PlanOf(Action.Previous, old(mp.metadata)), ok, old(Current()))
      ensures Refreshing(PlanOf(Action.Previous, old(mp.metadata)), ok) ==> Synced(Pre(PlanOf(Action.Previous, old(mp.metadata)), ok, old(Current())), Current(), inner, mp.artwork)
    {
      if !M.HasSongTitle(mp.metadata) {
        return Done;
      }
      var e := mp.Run(M.Cmd.Previous, ok);
      if e.Some? {
        return Failed(CommandFailed(e.value));
      }
      assert Current() == Pre(PlanOf(Action.Previous, old(mp.metadata)), ok, old(Current()));
      var u := Update(inner);
      out := Finish(u);
    }

    method Pause(ok: bool, inner: Reading) returns (out: Outcome)
      requires Valid()
      modifies this, mp
      ensures Valid()
      ensures out == OutOf(PlanOf(Action.Pause, old(mp.metadata)), ok, inner)
      ensures !Refreshing(PlanOf(Action.Pause, old(mp.metadata)), ok) ==> Current() == Pre(PlanOf(Action.Pause, old(mp.metadata)), ok, old(Current()))
      ensures Refreshing(PlanOf(Action.Pause, old(mp.metadata)), ok) ==> Synced(Pre(PlanOf(Action.Pause, old(mp.metadata)), ok, old(Current())), Current(), inner, mp.artwork)
    {
      if !M.HasSongTitle(mp.metadata) {
        return Done;
      }
      var e := mp.Run(M.Cmd.Pause, ok);
      if e.Some? {
        return Failed(CommandFailed(e.value));
      }
      assert Current() == Pre(PlanOf(Action.Pause, old(mp.metadata)), ok, old(Current()));
      var u := Update(inner);
      out := Finish(u);
    }

    /** PlayPause: guarded by CanPlay and CanPause, then MocP.TogglePause. */
    method PlayPause(ok: bool, inner: Reading) returns (out: Outcome)
      requires Valid()
      modifies this, mp
      ensures Valid()
      ensures out == OutOf(PlanOf(Action.PlayPause, old(mp.metadata)), ok, inner)
      ensures !Refreshing(PlanOf(Action.PlayPause, old(mp.metadata)), ok) ==> Current() == Pre(PlanOf(Action.PlayPause, old(mp.metadata)), ok, old(Current()))
      ensures Refreshing(PlanOf(Action.PlayPause, old(mp.metadata)), ok) ==> Synced(Pre(PlanOf(Action.PlayPause, old(mp.metadata)), ok, old(Current())), Current(), inner, mp.artwork)
    {
      if !M.HasSongTitle(mp.metadata) {
        return Done;
      }
      var e := mp.TogglePause(ok);
      if e.Some? {
        return Failed(CommandFailed(e.value));
      }
      assert Current() == Pre(PlanOf(Action.PlayPause, old(mp.metadata)), ok, old(Current()));
      var u := Update(inner);
      out := Finish(u);
    }

    method Stop(ok: bool, inner: Reading) returns (out: Outcome)
      requires Valid()
      modifies this, mp
      ensures Valid()
      ensures out == OutOf(PlanOf(Action.Stop, old(mp.metadata)), ok, inner)
      ensures !Refreshing(PlanOf(Action.Stop, old(mp.metadata)), ok) ==> Current() == Pre(PlanOf(Action.Stop, old(mp.metadata)), ok, old(Current()))
      ensures Refreshing(PlanOf(Action.Stop, old(mp.metadata)), ok) ==> Synced(Pre(PlanOf(Action.Stop, old(mp.metadata)), ok, old(Current())), Current(), inner, mp.artwork)
    {
      var e := mp.Run(M.Cmd.Stop, ok);
      if e.Some? {
        return Failed(CommandFailed(e.value));
      }
      assert Current() == Pre(PlanOf(Action.Stop, old(mp.metadata)), ok, old(Current()));
      var u := Update(inner);
      out := Finish(u);
    }

    /** Play unpauses (`mocp -U`). */
    method Play(ok: bool, inner: Reading) returns (out: Outcome)
      requires Valid()
      modifies this, mp
      ensures Valid()
      ensures out == OutOf(PlanOf(Action.Play, old(mp.metadata)), ok, inner)
      ensures !Refreshing(PlanOf(Action.Play, old(mp.metadata)), ok) ==> Current() == Pre(PlanOf(Action.Play, old(mp.metadata)), ok, old(Current()))
      ensures Refreshing(PlanOf(Action.Play, old(mp.metadata)), ok) ==> Synced(Pre(PlanOf(Action.Play, old(mp.metadata)), ok, old(Current())), Current(), inner, mp.artwork)
    {
      if !M.HasSongTitle(mp.metadata) {
        return Done;
      }
      var e := mp.Run(M.Cmd.Unpause, ok);
      if e.Some? {
        return Failed(CommandFailed(e.value));
      }
      assert Current() == Pre(PlanOf(Action.Play, old(mp.metadata)), ok, old(Current()));
      var u := Update(inner);
      out := Finish(u);
    }

    /** Seek by an offset in microseconds; Seeked is computed from the CurrentSec read before the update. */
    method Seek(offset: int, ok: bool, inner: Reading) returns (out: Outcome)
      requires Valid()
      modifies this, mp
      ensures Valid()
      ensures out == OutOf(PlanOf(Action.Seek(offset), old(mp.metadata)), ok, inner)
      ensures !Refreshing(PlanOf(Action.Seek(offset), old(mp.metadata)), ok) ==> Current() == Pre(PlanOf(Action.Seek(offset), old(mp.metadata)), ok, old(Current()))
      ensures Refreshing(PlanOf(Action.Seek(offset), old(mp.metadata)), ok) ==> Synced(Pre(PlanOf(Action.Seek(offset), old(mp.metadata)), ok, old(Current())), Current(), inner, mp.artwork)
    {
      if !M.CanSeek(mp.metadata) {
        return Done;
      }
      var seconds := Quo(offset, Micro);
      var e := mp.Run(M.Cmd.Seek(seconds), ok);
      if e.Some? {
        return Failed(CommandFailed(e.value));
      }
      var current := M.CurrentSeconds(mp.metadata);
      if current.None? {
        return Done;
      }
      seeked := seeked + [(current.value + seconds) * Micro];
      assert Current() == Pre(PlanOf(Action.Seek(offset), old(mp.metadata)), ok, old(Current()));
      var u := Update(inner);
      out := Finish(u);
    }

    /** SetPosition to an absolute position in microseconds; the track id is not looked at. */
    method SetPosition(trackId: string, position: int, ok: bool, inner: Reading) returns (out: Outcome)
      requires Valid()
      modifies this, mp
      ensures Valid()
      ensures out == OutOf(PlanOf(Action.SetPosition(trackId, position), old(mp.metadata)), ok, inner)
      ensures !Refreshing(PlanOf(Action.SetPosition(trackId, position), old(mp.metadata)), ok) ==> Current() == Pre(PlanOf(Action.SetPosition(trackId, position), old(mp.metadata)), ok, old(Current()))
      ensures Refreshing(PlanOf(Action.SetPosition(trackId, position), old(mp.metadata)), ok) ==> Synced(Pre(PlanOf(Action.SetPosition(trackId, position), old(mp.metadata)), ok, old(Current())), Current(), inner, mp.artwork)
    {
      if !M.CanSeek(mp.metadata) {
        return Done;
      }
      var seconds := Quo(position, Micro);
      var e := mp.Jump(seconds, ok);
      if e.Some? {
        return Failed(CommandFailed(e.value));
      }
      seeked := seeked + [position];
      assert Current() == Pre(PlanOf(Action.SetPosition(trackId, position), old(mp.metadata)), ok, old(Current()));
      var u := Update(inner);
      out := Finish(u);
    }

    /** setLoopStatus: None turns repeat off, Track and Playlist turn it on, anything else is ignored. */
    method SetLoopStatus(change: Variant, ok: bool) returns (out: Outcome)
      requires Valid()
      modifies this, mp
      ensures Valid()
      ensures !Refreshing(PlanOf(Action.SetLoopStatus(change), old(mp.metadata)), ok)
      ensures Current() == Pre(PlanOf(Action.SetLoopStatus(change), old(mp.metadata)), ok, old(Current()))
      ensures out == OutOf(PlanOf(Action.SetLoopStatus(change), old(mp.metadata)), ok, Reading(None, None))
    {
      if !change.VString? {
        return Failed(Rejected("wrong LoopStatus change"));
      }
      var value := change.s;
      if value == "None" {
        var e := mp.Run(M.Cmd.Repeat(false), ok);
        if e.Some? {
          return Failed(CommandFailed(e.value));
        }
      } else if value == "Track" || value == "Playlist" {
        var e := mp.Run(M.Cmd.Repeat(true), ok);
        if e.Some? {
          return Failed(CommandFailed(e.value));
        }
      }
      return Done;
    }

    /** setRate, through MocP.SetRate: a rate of 0 pauses, any other rate is ignored. */
    method SetRate(change: Variant, ok: bool) returns (out: Outcome)
      requires Valid()
      modifies this, mp
      ensures Valid()
      ensures !Refreshing(PlanOf(Action.SetRate(change), old(mp.metadata)), ok)
      ensures Current() == Pre(PlanOf(Action.SetRate(change), old(mp.metadata)), ok, old(Current()))
      ensures out == OutOf(PlanOf(Action.SetRate(change), old(mp.metadata)), ok, Reading(None, None))
    {
      if !change.VDouble? {
        return Failed(Rejected("wrong Rate change"));
      }
      if change.x == 0.0 {
        var e := mp.Run(M.Cmd.Pause, ok);
        if e.Some? {
          return Failed(CommandFailed(e.value));
        }
      }
      return Done;
    }

    method SetShuffle(change: Variant, ok: bool) returns (out: Outcome)
      requires Valid()
      modifies this, mp
      ensures Valid()
      ensures !Refreshing(PlanOf(Action.SetShuffle(change), old(mp.metadata)), ok)
      ensures Current() == Pre(PlanOf(Action.SetShuffle(change), old(mp.metadata)), ok, old(Current()))
      ensures out == OutOf(PlanOf(Action.SetShuffle(change), old(mp.metadata)), ok, Reading(None, None))
    {
      if !change.VBool? {
        return Failed(Rejected("wrong Shuffle change"));
      }
      var e := mp.Run(M.Cmd.Shuffle(change.b), ok);
      if e.Some? {
        return Failed(CommandFailed(e.value));
      }
      return Done;
    }

    /** setVolume: the fraction times 100, truncated, through MocP.Volume (which clamps). */
    method SetVolume(change: Variant, ok: bool) returns (out: Outcome)
      requires Valid()
      modifies this, mp
      ensures Valid()
      ensures !Refreshing(PlanOf(Action.SetVolume(change), old(mp.metadata)), ok)
      ensures Current() == Pre(PlanOf(Action.SetVolume(change), old(mp.metadata)), ok, old(Current()))
      ensures out == OutOf(PlanOf(Action.SetVolume(change), old(mp.metadata)), ok, Reading(None, None))
    {
      if !change.VDouble? {
        return Failed(Rejected("wrong Volume change"));
      }
      var newVol := Trunc(100.0 * change.x);
      var e := mp.Volume(newVol, ok);
      if e.Some? {
        return Failed(CommandFailed(e.value));
      }
      return Done;
    }

    /** Dispatch of a call to its method or setter. */
    method Perform(a: Action, ok: bool, inner: Reading) returns (out: Outcome)
      requires Valid()
      modifies this, mp
      ensures Valid()
      ensures Called(PlanOf(a, old(mp.metadata)), ok, inner, mp.artwork, old(Current()), Current(), out)
    {
      if a.SetLoopStatus? || a.SetRate? || a.SetShuffle? || a.SetVolume? {
        out := Set(a, ok, inner);
      } else {
        out := Invoke(a, ok, inner);
      }
    }

    /** A call of one of the interface's methods, as Perform describes it. */
    method Invoke(a: Action, ok: bool, inner: Reading) returns (out: Outcome)
      requires Valid() && !(a.SetLoopStatus? || a.SetRate? || a.SetShuffle? || a.SetVolume?)
      modifies this, mp
      ensures Valid()
      ensures Called(PlanOf(a, old(mp.metadata)), ok, inner, mp.artwork, old(Current()), Current(), out)
    {
      match a {
        case Next => out := Next(ok, inner);
        case Previous => out := Previous(ok, inner);
        case Pause => out := Pause(ok, inner);
        case PlayPause => out := PlayPause(ok, inner);
        case Stop => out := Stop(ok, inner);
        case Play => out := Play(ok, inner);
        case Seek(offset) => out := Seek(offset, ok, inner);
        case SetPosition(id, position) => out := SetPosition(id, position, ok, inner);
      }
    }

    /** A write of one of the writable properties, as Perform describes it; no update runs, so `inner` is not read. */
    method Set(a: Action, ok: bool, inner: Reading) returns (out: Outcome)
      requires Valid() && (a.SetLoopStatus? || a.SetRate? || a.SetShuffle? || a.SetVolume?)
      modifies this, mp
      ensures Valid()
      ensures Called(PlanOf(a, old(mp.metadata)), ok, inner, mp.artwork, old(Current()), Current(), out)
    {
      ghost var plan := PlanOf(a, mp.metadata);
      match a {
        case SetLoopStatus(v) => out := SetLoopStatus(v, ok);
        case SetRate(v) => out := SetRate(v, ok);
        case SetShuffle(v) => out := SetShuffle(v, ok);
        case SetVolume(v) => out := SetVolume(v, ok);
      }
      InnerUnread(plan, ok, inner);
    }
  }
}

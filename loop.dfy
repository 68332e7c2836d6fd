/**
 * The dispatch loop of MPRISLoop (loop.go): events are taken one at a time;
 * a queued D-Bus call runs, its result is handed back, and the bridge is
 * updated; a tick of the one-second ticker updates the bridge; an interrupt
 * ends the loop without error; an update that fails ends it with the error.
 *
 * The Go loop runs until it returns; here it consumes a finite sequence of
 * events, and running out of them is a third way to stop.
 */
module Loop {
  import opened Wrappers
  import opened Strconv
  import S = MocStatus
  import P = Player

  /**
   * What the select statement receives next. A queued call carries what the
   * world answers while it runs (whether its mocp command succeeds and the
   * reading of its own update) and the reading of the loop's update after it.
   */
  datatype Event =
    | Command(action: P.Action, ok: bool, inner: P.Reading, reading: P.Reading)
    | Tick(reading: P.Reading)
    | Interrupt

  /** How the loop stops: on an interrupt (nil), on a failed update (its error), or when the events run out. */
  datatype Exit = Interrupted | Failed(err: NumError) | Exhausted

  /** One thing the loop does: run a queued call, or update the bridge. */
  datatype Step = Call(action: P.Action, ok: bool, inner: P.Reading) | Refresh(reading: P.Reading)

  /** What the loop does for one event: a call then an update, an update, or nothing. */
  function StepsOf(e: Event): seq<Step>
  {
    match e
    case Command(a, ok, inner, r) => [Call(a, ok, inner), Refresh(r)]
    case Tick(r) => [Refresh(r)]
    case Interrupt => []
  }

  /** Whether the loop returns after the event: an interrupt, or an update that fails. */
  predicate Stops(e: Event)
  {
    e.Interrupt? || S.StatusError(e.reading.status).Some?
  }

  /** What the loop returns after an event that stops it. */
  function ExitAt(e: Event): Exit
    requires Stops(e)
  {
    if e.Interrupt? then Interrupted else Failed(S.StatusError(e.reading.status).value)
  }

  /** The steps the loop takes over the events, in order, up to the event that stops it. */
  function Schedule(events: seq<Event>): seq<Step>
  {
    if |events| == 0 then []
    else StepsOf(events[0]) + (if Stops(events[0]) then [] else Schedule(events[1..]))
  }

  /** How the loop stops on the events. */
  function ExitOf(events: seq<Event>): Exit
  {
    if |events| == 0 then Exhausted
    else if Stops(events[0]) then ExitAt(events[0])
    else ExitOf(events[1..])
  }

  /** The number of events the loop takes, the one that stops it included. */
  function Taken(events: seq<Event>): (n: nat)
    ensures n <= |events|
  {
    if |events| == 0 then 0
    else if Stops(events[0]) then 1
    else 1 + Taken(events[1..])
  }

  /** Whether the loop stopped on one of the events it took, rather than running out of them. */
  predicate Stopped(events: seq<Event>)
  {
    Taken(events) > 0 && Stops(events[Taken(events) - 1])
  }

  /**
   * The loop takes events up to the first that stops it: none before it
   * stops it, it stops it if there is one, and the exit is that event's,
   * or Exhausted when the events run out first.
   */
  lemma {:induction false} FirstStop(events: seq<Event>)
    ensures forall j :: 0 <= j < Taken(events) - 1 ==> !Stops(events[j])
    ensures Stopped(events) <==> exists j :: 0 <= j < |events| && Stops(events[j])
    ensures !Stopped(events) ==> Taken(events) == |events|
    ensures ExitOf(events) == if Stopped(events) then ExitAt(events[Taken(events) - 1]) else Exhausted
  {
    if |events| > 0 && !Stops(events[0]) {
      var t := events[1..];
      FirstStop(t);
      assert forall j :: 1 <= j < |events| ==> events[j] == t[j - 1];
      if Stopped(t) {
        var j :| 0 <= j < |t| && Stops(t[j]);
        assert Stops(events[j + 1]);
      }
    }
  }

  /** After the event that stops the loop, nothing else is taken: later events change neither the steps nor the exit. */
  lemma {:induction false} LaterIgnored(events: seq<Event>, more: seq<Event>)
    requires Stopped(events)
    ensures Taken(events + more) == Taken(events)
    ensures Schedule(events + more) == Schedule(events)
    ensures ExitOf(events + more) == ExitOf(events)
  {
    assert (events + more)[0] == events[0];
    if !Stops(events[0]) {
      assert (events + more)[1..] == events[1..] + more;
      LaterIgnored(events[1..], more);
    }
  }

  /** The actions of the calls among the steps, in order. */
  function Actions(steps: seq<Step>): seq<P.Action>
  {
    if |steps| == 0 then []
    else (if steps[0].Call? then [steps[0].action] else []) + Actions(steps[1..])
  }

  /** The number of updates among the steps. */
  function Updates(steps: seq<Step>): nat
  {
    if |steps| == 0 then 0
    else (if steps[0].Refresh? then 1 else 0) + Updates(steps[1..])
  }

  /** The actions of the queued calls among the events, in order. */
  function Queued(events: seq<Event>): seq<P.Action>
  {
    if |events| == 0 then []
    else (if events[0].Command? then [events[0].action] else []) + Queued(events[1..])
  }

  /** The number of queued calls and ticks among the events. */
  function Processed(events: seq<Event>): nat
  {
    if |events| == 0 then 0
    else (if events[0].Interrupt? then 0 else 1) + Processed(events[1..])
  }

  lemma {:induction false} ActionsAppend(s1: seq<Step>, s2: seq<Step>)
    ensures Actions(s1 + s2) == Actions(s1) + Actions(s2)
  {
    if |s1| == 0 {
      assert s1 + s2 == s2;
    } else {
      var h, a1, a2 := if s1[0].Call? then [s1[0].action] else [], Actions(s1[1..]), Actions(s2);
      assert (s1 + s2)[0] == s1[0] && (s1 + s2)[1..] == s1[1..] + s2;
      ActionsAppend(s1[1..], s2);
      assert Actions(s1 + s2) == h + (a1 + a2) == (h + a1) + a2;
    }
  }

  lemma {:induction false} UpdatesAppend(s1: seq<Step>, s2: seq<Step>)
    ensures Updates(s1 + s2) == Updates(s1) + Updates(s2)
  {
    if |s1| == 0 {
      assert s1 + s2 == s2;
    } else {
      assert (s1 + s2)[1..] == s1[1..] + s2;
      UpdatesAppend(s1[1..], s2);
    }
  }

  /** The events taken are the first one and those the loop takes after it, unless the first stops it. */
  lemma TakenCons(events: seq<Event>)
    requires |events| > 0
    ensures Taken(events) > 0 && events[..Taken(events)][0] == events[0]
    ensures events[..Taken(events)][1..] == if Stops(events[0]) then [] else events[1..][..Taken(events[1..])]
  {
    if !Stops(events[0]) {
      var n := Taken(events[1..]);
      assert events[..1 + n][1..] == events[1..][..n];
    }
  }

  /** Every queued call the loop takes runs exactly once, in the order queued, and no other action runs. */
  lemma {:induction false} CallsOnce(events: seq<Event>)
    ensures Actions(Schedule(events)) == Queued(events[..Taken(events)])
  {
    if |events| > 0 {
      var e, taken := events[0], events[..Taken(events)];
      TakenCons(events);
      ActionsAppend(StepsOf(e), if Stops(e) then [] else Schedule(events[1..]));
      assert Actions(StepsOf(e)) == if e.Command? then [e.action] else [];
      if !Stops(e) {
        CallsOnce(events[1..]);
      }
    }
  }

  /** One update runs for every queued call and every tick the loop takes. */
  lemma {:induction false} UpdatesCount(events: seq<Event>)
    ensures Updates(Schedule(events)) == Processed(events[..Taken(events)])
  {
    if |events| > 0 {
      var e, taken := events[0], events[..Taken(events)];
      TakenCons(events);
      UpdatesAppend(StepsOf(e), if Stops(e) then [] else Schedule(events[1..]));
      assert Updates(StepsOf(e)) == if e.Interrupt? then 0 else 1;
      if !Stops(e) {
        UpdatesCount(events[1..]);
      }
    }
  }

  /** Whether every call among the steps is followed at once by an update. */
  ghost predicate Paired(steps: seq<Step>)
  {
    forall j :: 0 <= j < |steps| && steps[j].Call? ==> j + 1 < |steps| && steps[j + 1].Refresh?
  }

  /** The update after a queued call follows it at once: the call's result is handed back before update runs. */
  lemma {:induction false} CallThenUpdate(events: seq<Event>)
    ensures Paired(Schedule(events))
  {
    if |events| > 0 {
      var head := StepsOf(events[0]);
      var rest := if Stops(events[0]) then [] else Schedule(events[1..]);
      if !Stops(events[0]) {
        CallThenUpdate(events[1..]);
      }
      var s := head + rest;
      forall j | 0 <= j < |s| && s[j].Call?
        ensures j + 1 < |s| && s[j + 1].Refresh?
      {
        if j < |head| {
          assert head[j].Call?;
          assert j == 0 && head[1].Refresh?;
        } else {
          assert rest[j - |head|] == s[j];
          assert s[j + 1] == rest[j + 1 - |head|];
        }
      }
    }
  }

  /**
   * One step from v0 to v1 with result out: a call behaves as P.Called says
   * for its plan on the state it starts from; an update as P.Synced says,
   * its result being the update's error.
   */
  ghost predicate Moves(s: Step, out: P.Outcome, art: string -> string, v0: P.BridgeState, v1: P.BridgeState)
  {
    match s
    case Call(a, ok, inner) => S.Typed(v0.snapshot) && P.Called(P.PlanOf(a, v0.snapshot), ok, inner, art, v0, v1, out)
    case Refresh(r) => P.Synced(v0, v1, r, art) && out == P.Finish(S.StatusError(r.status))
  }

  /** A step relation: whether a step goes from one state to another with a result. */
  type Relation = (Step, P.Outcome, P.BridgeState, P.BridgeState) -> bool

  /** Moves, for the artwork function of the bridge. */
  ghost function Movement(art: string -> string): Relation
  {
    (s, out, v0, v1) => Moves(s, out, art, v0, v1)
  }

  /** A run of steps with their results and the states between them, each step related by mv. */
  ghost predicate Run(steps: seq<Step>, outs: seq<P.Outcome>, states: seq<P.BridgeState>, mv: Relation)
  {
    && |outs| == |steps|
    && |states| == |steps| + 1
    && forall j :: 0 <= j < |steps| ==> mv(steps[j], outs[j], states[j], states[j + 1])
  }

  /** Two runs, the second starting where the first ends, make one run. */
  lemma RunAppend(s1: seq<Step>, o1: seq<P.Outcome>, t1: seq<P.BridgeState>,
                  s2: seq<Step>, o2: seq<P.Outcome>, t2: seq<P.BridgeState>, mv: Relation)
    requires Run(s1, o1, t1, mv) && Run(s2, o2, t2, mv)
    requires t1[|s1|] == t2[0]
    ensures Run(s1 + s2, o1 + o2, t1 + t2[1..], mv)
  {
    var s, o, t := s1 + s2, o1 + o2, t1 + t2[1..];
    forall j | 0 <= j < |s|
      ensures mv(s[j], o[j], t[j], t[j + 1])
    {
      if j < |s1| {
        assert s[j] == s1[j] && o[j] == o1[j] && t[j] == t1[j] && t[j + 1] == t1[j + 1];
      } else {
        var k := j - |s1|;
        assert s[j] == s2[k] && o[j] == o2[k] && t[j + 1] == t2[k + 1];
        assert t[j] == t2[k];
      }
    }
  }

  /** The results handed back to the callers: those of the calls, in order. */
  function Handed(steps: seq<Step>, outs: seq<P.Outcome>): seq<P.Outcome>
    requires |steps| == |outs|
  {
    if |steps| == 0 then []
    else
      var n := |steps| - 1;
      Handed(steps[..n], outs[..n]) + (if steps[n].Call? then [outs[n]] else [])
  }

  lemma {:induction false} HandedAppend(s1: seq<Step>, o1: seq<P.Outcome>, s2: seq<Step>, o2: seq<P.Outcome>)
    requires |s1| == |o1| && |s2| == |o2|
    ensures Handed(s1 + s2, o1 + o2) == Handed(s1, o1) + Handed(s2, o2)
  {
    if |s2| == 0 {
      assert s1 + s2 == s1 && o1 + o2 == o1;
    } else {
      var n := |s2| - 1;
      assert (s1 + s2)[..|s1| + n] == s1 + s2[..n];
      assert (o1 + o2)[..|o1| + n] == o1 + o2[..n];
      HandedAppend(s1, o1, s2[..n], o2[..n]);
    }
  }

  /** A step that moves is a run of one step. */
  lemma RunOne(s: Step, o: P.Outcome, art: string -> string, v0: P.BridgeState, v1: P.BridgeState)
    requires Moves(s, o, art, v0, v1)
    ensures Run([s], [o], [v0, v1], Movement(art))
  {
    assert Movement(art)(s, o, v0, v1);
  }

  /** Two steps that move one after the other are a run of two steps. */
  lemma RunTwo(s1: Step, o1: P.Outcome, s2: Step, o2: P.Outcome, art: string -> string,
               v0: P.BridgeState, v1: P.BridgeState, v2: P.BridgeState)
    requires Moves(s1, o1, art, v0, v1) && Moves(s2, o2, art, v1, v2)
    ensures Run([s1, s2], [o1, o2], [v0, v1, v2], Movement(art))
  {
    assert Movement(art)(s1, o1, v0, v1) && Movement(art)(s2, o2, v1, v2);
  }

  /** One result is handed back for every call among the steps. */
  lemma {:induction false} HandedPerCall(steps: seq<Step>, outs: seq<P.Outcome>)
    requires |steps| == |outs|
    ensures |Handed(steps, outs)| == |Actions(steps)|
  {
    if |steps| > 0 {
      var n := |steps| - 1;
      assert steps == steps[..n] + [steps[n]];
      ActionsAppend(steps[..n], [steps[n]]);
      assert [steps[n]][1..] == [];
      HandedPerCall(steps[..n], outs[..n]);
    }
  }

  /** Of an update alone, nothing is handed back. */
  lemma HandedRefresh(r: P.Reading, o: P.Outcome)
    ensures Handed([Refresh(r)], [o]) == []
  {
    assert [Refresh(r)][..0] == [] && [o][..0] == [];
  }

  /** Of a call followed by an update, the call's result is handed back. */
  lemma HandedCall(a: P.Action, ok: bool, inner: P.Reading, r: P.Reading, o1: P.Outcome, o2: P.Outcome)
    ensures Handed([Call(a, ok, inner), Refresh(r)], [o1, o2]) == [o1]
  {
    assert [Call(a, ok, inner), Refresh(r)][..1] == [Call(a, ok, inner)];
    assert [o1, o2][..1] == [o1];
    assert Handed([Call(a, ok, inner)], [o1]) == Handed([], []) + [o1];
  }

  /** Of the steps of one event, the result handed back is the call's, if there is one. */
  lemma HandedEvent(e: Event, os: seq<P.Outcome>)
    requires |os| == |StepsOf(e)|
    ensures Handed(StepsOf(e), os) == if e.Command? then [os[0]] else []
  {
    match e
    case Command(a, ok, inner, r) =>
      assert os == [os[0], os[1]];
      HandedCall(a, ok, inner, r, os[0], os[1]);
    case Tick(r) =>
      assert os == [os[0]];
      HandedRefresh(r, os[0]);
    case Interrupt =>
  }

  /**
   * One turn of the select loop: a queued call runs and its result is handed
   * back, then update runs; a tick runs update; an interrupt does nothing.
   * `ret` says whether MPRISLoop returns, and with what.
   */
  method Handle(p: P.MediaPlayer2Player, e: Event)
    returns (ret: Option<Exit>, handed: seq<P.Outcome>, ghost outs: seq<P.Outcome>, ghost states: seq<P.BridgeState>)
    requires p.Valid()
    modifies p, p.mp
    ensures p.Valid()
    ensures ret == if Stops(e) then Some(ExitAt(e)) else None
    ensures Run(StepsOf(e), outs, states, Movement(p.mp.artwork))
    ensures states[0] == old(p.Current()) && states[|states| - 1] == p.Current()
    ensures handed == if e.Command? then [outs[0]] else []
  {
    if e.Interrupt? {
      return Some(Interrupted), [], [], [p.Current()];
    } else if e.Tick? {
      ret, handed, outs, states := HandleTick(p, e);
    } else {
      ret, handed, outs, states := HandleCommand(p, e);
    }
  }

  /** The tick case of Handle: update runs, and a failure stops the loop. */
  method HandleTick(p: P.MediaPlayer2Player, e: Event)
    returns (ret: Option<Exit>, handed: seq<P.Outcome>, ghost outs: seq<P.Outcome>, ghost states: seq<P.BridgeState>)
    requires p.Valid() && e.Tick?
    modifies p, p.mp
    ensures p.Valid()
    ensures ret == if Stops(e) then Some(ExitAt(e)) else None
    ensures Run(StepsOf(e), outs, states, Movement(p.mp.artwork))
    ensures states[0] == old(p.Current()) && states[|states| - 1] == p.Current()
    ensures handed == []
  {
    ghost var v0 := p.Current();
    var err := RunUpdate(p, e.reading);
    outs, states := [P.Finish(err)], [v0, p.Current()];
    RunOne(Refresh(e.reading), P.Finish(err), p.mp.artwork, v0, p.Current());
    handed := [];
    ret := if err.Some? then Some(Failed(err.value)) else None;
  }

  /** The call case of Handle: the call runs, its result is handed back, then update runs. */
  method HandleCommand(p: P.MediaPlayer2Player, e: Event)
    returns (ret: Option<Exit>, handed: seq<P.Outcome>, ghost outs: seq<P.Outcome>, ghost states: seq<P.BridgeState>)
    requires p.Valid() && e.Command?
    modifies p, p.mp
    ensures p.Valid()
    ensures ret == if Stops(e) then Some(ExitAt(e)) else None
    ensures Run(StepsOf(e), outs, states, Movement(p.mp.artwork))
    ensures states[0] == old(p.Current()) && states[|states| - 1] == p.Current()
    ensures handed == [outs[0]]
  {
    ghost var v0 := p.Current();
    var out := RunCall(p, e.action, e.ok, e.inner);
    ghost var v1 := p.Current();
    var err := RunUpdate(p, e.reading);
    outs, states := [out, P.Finish(err)], [v0, v1, p.Current()];
    RunTwo(Call(e.action, e.ok, e.inner), out, Refresh(e.reading), P.Finish(err), p.mp.artwork, v0, v1, p.Current());
    handed := [out];
    ret := if err.Some? then Some(Failed(err.value)) else None;
  }

  /** A queued call: the D-Bus method's action runs, moving the bridge as Moves says for a call. */
  method RunCall(p: P.MediaPlayer2Player, a: P.Action, ok: bool, inner: P.Reading) returns (out: P.Outcome)
    requires p.Valid()
    modifies p, p.mp
    ensures p.Valid()
    ensures Moves(Call(a, ok, inner), out, p.mp.artwork, old(p.Current()), p.Current())
  {
    out := p.Perform(a, ok, inner);
  }

  /** The loop's update: the bridge moves as Moves says for an update, and its error is returned. */
  method RunUpdate(p: P.MediaPlayer2Player, r: P.Reading) returns (err: Option<NumError>)
    requires p.Valid()
    modifies p, p.mp
    ensures p.Valid()
    ensures err == S.StatusError(r.status)
    ensures Moves(Refresh(r), P.Finish(err), p.mp.artwork, old(p.Current()), p.Current())
  {
    err := p.Update(r);
  }

  /**
   * What holds of the select loop after i events, `stop` saying whether it
   * returned: the steps done, with their results and states, are a run; the
   * results handed back are those of its calls; and the schedule and exit of
   * all the events are those of the steps done followed by the remaining
   * events, or, once stopped, those of the steps done.
   */
  ghost predicate Looping(events: seq<Event>, i: nat, stop: bool, exit: Exit, results: seq<P.Outcome>,
                          steps: seq<Step>, outs: seq<P.Outcome>, states: seq<P.BridgeState>, mv: Relation)
  {
    && i <= |events|
    && Run(steps, outs, states, mv)
    && results == Handed(steps, outs)
    && (stop ==> Schedule(events) == steps && ExitOf(events) == exit)
    && (!stop ==> exit == Exhausted)
    && (!stop ==> Schedule(events) == steps + Schedule(events[i..]) && ExitOf(events) == ExitOf(events[i..]))
  }

  /** One more turn of the loop, as Handle describes it, keeps Looping. */
  lemma Advance(events: seq<Event>, i: nat, results: seq<P.Outcome>,
                steps: seq<Step>, outs: seq<P.Outcome>, states: seq<P.BridgeState>, mv: Relation,
                ret: Option<Exit>, h: seq<P.Outcome>, os: seq<P.Outcome>, ss: seq<P.BridgeState>)
    requires i < |events|
    requires Looping(events, i, false, Exhausted, results, steps, outs, states, mv)
    requires ret == if Stops(events[i]) then Some(ExitAt(events[i])) else None
    requires Run(StepsOf(events[i]), os, ss, mv) && h == if events[i].Command? then [os[0]] else []
    requires ss[0] == states[|states| - 1]
    ensures Looping(events, i + 1, ret.Some?, if ret.Some? then ret.value else Exhausted, results + h, steps + StepsOf(events[i]), outs + os, states + ss[1..], mv)
    ensures (states + ss[1..])[0] == states[0] && (states + ss[1..])[|states + ss[1..]| - 1] == ss[|ss| - 1]
  {
    var e := events[i];
    RunAppend(steps, outs, states, StepsOf(e), os, ss, mv);
    HandedEvent(e, os);
    HandedAppend(steps, outs, StepsOf(e), os);
    ScheduleStep(events, i, steps);
    ExitStep(events, i);
  }

  /** The schedule of the remaining events is that of the next event, then, unless it stops the loop, of the rest. */
  lemma ScheduleStep(events: seq<Event>, i: nat, steps: seq<Step>)
    requires i < |events|
    ensures steps + Schedule(events[i..]) ==
            if Stops(events[i]) then steps + StepsOf(events[i]) else (steps + StepsOf(events[i])) + Schedule(events[i + 1..])
  {
    var e := events[i];
    assert events[i..][1..] == events[i + 1..];
    if Stops(e) {
      assert Schedule(events[i..]) == StepsOf(e) + [] == StepsOf(e);
    } else {
      var rest := Schedule(events[i + 1..]);
      assert Schedule(events[i..]) == StepsOf(e) + rest;
      assert steps + (StepsOf(e) + rest) == (steps + StepsOf(e)) + rest;
    }
  }

  /** The exit on the remaining events is the next event's, if it stops the loop, or else the exit on the rest. */
  lemma ExitStep(events: seq<Event>, i: nat)
    requires i < |events|
    ensures ExitOf(events[i..]) == if Stops(events[i]) then ExitAt(events[i]) else ExitOf(events[i + 1..])
  {
    assert events[i..][1..] == events[i + 1..];
  }

  /**
   * The select loop over the events: each queued call runs once, its result
   * is handed back before the update that follows it, every call and every
   * tick is followed by exactly one update, and the loop returns on an
   * interrupt or on the first failed update. The ghost steps, outs and
   * states are what was done, the result of each step and the state after it.
   */
  method MPRISLoop(p: P.MediaPlayer2Player, events: seq<Event>)
    returns (exit: Exit, results: seq<P.Outcome>, ghost steps: seq<Step>, ghost outs: seq<P.Outcome>, ghost states: seq<P.BridgeState>)
    requires p.Valid()
    modifies p, p.mp
    ensures p.Valid()
    ensures exit == ExitOf(events) && steps == Schedule(events)
    ensures Run(steps, outs, states, Movement(p.mp.artwork))
    ensures states[0] == old(p.Current()) && states[|states| - 1] == p.Current()
    ensures results == Handed(steps, outs)
  {
    var i := 0;
    var stop := false;
    exit, results, steps, outs, states := Exhausted, [], [], [], [p.Current()];
    ghost var mv := Movement(p.mp.artwork);
    assert events[0..] == events;
    while i < |events| && !stop
      invariant p.Valid() && mv == Movement(p.mp.artwork)
      invariant Looping(events, i, stop, exit, results, steps, outs, states, mv)
      invariant |states| > 0 && states[0] == old(p.Current()) && states[|states| - 1] == p.Current()
      decreases |events| - i
    {
      var ret, h, os, ss := Handle(p, events[i]);
      Advance(events, i, results, steps, outs, states, mv, ret, h, os, ss);
      stop, exit := ret.Some?, if ret.Some? then ret.value else Exhausted;
      results, steps, outs, states := results + h, steps + StepsOf(events[i]), outs + os, states + ss[1..];
      i := i + 1;
    }
    if !stop {
      assert events[i..] == [];
      assert steps + [] == steps;
    }
  }
}

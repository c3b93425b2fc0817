/** What packages/agent/src/monitor.ts tracks about one remote peer, on values, with the taint set of
    relay-proxy.ts. */
module Tracking {
  import opened Common
  import opened PairMachine

  const MISS_THRESHOLD: nat := 3
  const FROZEN_TIMEOUT: nat := 30_000

  /** lastRx is -1 while no baseline is known. */
  datatype Tracked = Tracked(mode: Path, rxAlive: bool, lastRx: int, missed: nat)

  datatype View = View(state: Option<Tracked>, frozenAt: Option<nat>, tainted: bool)

  const UNSEEN := View(None, None, false)

  datatype Sighting =
    | Init
    | Remove
    | Freeze(now: nat)
    | Unfreeze
    | SetMode(mode: Path)
    | RelayFrame
    | Tick(now: nat, rx: nat)

  const FRESH := Tracked(DirectPath, true, -1, 0)

  function Switched(mode: Path): Tracked { Tracked(mode, mode.DirectPath?, -1, 0) }

  function Thawed(v: View, now: nat): View {
    if v.frozenAt.Some? && now - v.frozenAt.value > FROZEN_TIMEOUT then v.(frozenAt := None) else v
  }

  /** One tick's bookkeeping of a tracked peer on the direct path. */
  function Sampled(s: Tracked, rx: nat, tainted: bool): Tracked {
    var s' := if s.lastRx < 0 then s
              else if !tainted && rx > s.lastRx then s.(missed := 0, rxAlive := true)
              else s.(missed := s.missed + 1, rxAlive := s.rxAlive && s.missed + 1 < MISS_THRESHOLD);
    s'.(lastRx := rx)
  }

  function Ticked(v: View, now: nat, rx: nat): View {
    var t := Thawed(v, now);
    if t.frozenAt.None? && t.state.Some? && t.state.value.mode.DirectPath?
    then t.(state := Some(Sampled(t.state.value, rx, v.tainted)), tainted := false)
    else t.(tainted := false)
  }

  function Observe(v: View, ev: Sighting): View {
    match ev
    case Init => if v.state.Some? then v else v.(state := Some(FRESH))
    case Remove => v.(state := None, frozenAt := None)
    case Freeze(now) => v.(frozenAt := Some(now))
    case Unfreeze => v.(frozenAt := None)
    case SetMode(mode) => if v.state.Some? then v.(state := Some(Switched(mode))) else v
    case RelayFrame => v.(tainted := true)
    case Tick(now, rx) => Ticked(v, now, rx)
  }

  function Observed(tr: seq<Sighting>): View {
    if tr == [] then UNSEEN else Observe(Observed(tr[..|tr| - 1]), tr[|tr| - 1])
  }

  // ----- what the counters mean -----

  /** The tick samples the peer: it is not frozen, is known and on the direct path. */
  predicate Samples(v: View, ev: Sighting) {
    ev.Tick? && Thawed(v, ev.now).frozenAt.None? && v.state.Some? && v.state.value.mode.DirectPath?
  }

  /** The tracking starts over: the peer appears, goes, or switches mode. */
  predicate StartsOver(v: View, ev: Sighting) {
    ev.Remove? || (ev.Init? && v.state.None?) || (ev.SetMode? && v.state.Some?)
  }

  /** A relay frame was forwarded for the peer since the last tick. */
  function Tainted(tr: seq<Sighting>): bool {
    if tr == [] then false
    else
      var ev := tr[|tr| - 1];
      if ev.RelayFrame? then true else if ev.Tick? then false else Tainted(tr[..|tr| - 1])
  }

  /** The byte count of the last sample since the tracking started over. */
  function Baseline(tr: seq<Sighting>): Option<nat> {
    if tr == [] then None
    else
      var before := tr[..|tr| - 1];
      var ev := tr[|tr| - 1];
      if StartsOver(Observed(before), ev) then None
      else if Samples(Observed(before), ev) then Some(ev.rx)
      else Baseline(before)
  }

  /** The counted ticks since the tracking started over: did rx grow, untainted? */
  function Growth(tr: seq<Sighting>): seq<bool> {
    if tr == [] then []
    else
      var before := tr[..|tr| - 1];
      var ev := tr[|tr| - 1];
      if StartsOver(Observed(before), ev) then []
      else if Samples(Observed(before), ev) && Baseline(before).Some?
      then Growth(before) + [!Tainted(before) && ev.rx > Baseline(before).value]
      else Growth(before)
  }

  /** n is the length of the longest suffix of o without growth. */
  predicate TrailingMisses(o: seq<bool>, n: nat) {
    && n <= |o|
    && (forall i :: |o| - n <= i < |o| ==> !o[i])
    && (n < |o| ==> o[|o| - n - 1])
  }

  ghost predicate Tracks(tr: seq<Sighting>, v: View) {
    && v.tainted == Tainted(tr)
    && (v.state.None? ==> Baseline(tr).None? && Growth(tr) == [])
    && (v.state.Some? ==>
          && v.state.value.lastRx == (if Baseline(tr).Some? then Baseline(tr).value else -1)
          && TrailingMisses(Growth(tr), v.state.value.missed)
          && (v.state.value.mode.DirectPath? ==> (v.state.value.rxAlive <==> v.state.value.missed < 3))
          && (v.state.value.mode.RelayPath? ==> !v.state.value.rxAlive && Growth(tr) == []))
  }

  lemma TrackStep(before: seq<Sighting>, ev: Sighting, v: View)
    requires v == Observed(before) && Tracks(before, v)
    ensures Tracks(before + [ev], Observe(v, ev))
  {
    var tr := before + [ev];
    assert tr[..|tr| - 1] == before;
    if Samples(v, ev) {
      assert Growth(tr) == if Baseline(before).Some?
             then Growth(before) + [!Tainted(before) && ev.rx > Baseline(before).value] else Growth(before);
    }
  }

  /** Monitor refinement: over every history of a peer, directMissed is the number of trailing counted ticks
      without untainted growth since the last mode switch, and on the direct path rxAlive holds exactly while
      that number is below three. */
  lemma {:induction false} CountersAreTrailingRuns(tr: seq<Sighting>)
    ensures Tracks(tr, Observed(tr))
  {
    if tr != [] {
      CountersAreTrailingRuns(tr[..|tr| - 1]);
      assert tr[..|tr| - 1] + [tr[|tr| - 1]] == tr;
      TrackStep(tr[..|tr| - 1], tr[|tr| - 1], Observed(tr[..|tr| - 1]));
    }
  }

  /** After a tick no freeze is older than the timeout. */
  lemma NoStaleFreeze(v: View, now: nat, rx: nat)
    ensures var v' := Observe(v, Tick(now, rx)); v'.frozenAt.Some? ==> now - v'.frozenAt.value <= 30_000
  {
  }
}

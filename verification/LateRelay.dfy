/** When a switch-relay verdict answers a check of the probe it decides, and when the answer of an earlier one. */
module LateRelay {
  import opened Common
  import opened PairMachine
  import opened AgentMachine
  import opened Sessions
  import opened RelayEvidence
  import opened System
  import opened DirectEvidence
  import opened Freshness
  import opened StaleEvidence

  predicate RelayActive(s: PairState) { s.neg.Some? && s.neg.value.RelayProbe? }

  function Client(s: PairState): Side
    requires RelayActive(s)
  {
    s.neg.value.server.Other()
  }

  /** A message that, coming from the client, ends a relay probe. */
  predicate Ending(ev: Event) { ev.RelayResult? || ev.ProbeError? }

  function FirstEnding(q: seq<Event>): Option<Event> {
    if q == [] then None else if Ending(q[0]) then Some(q[0]) else FirstEnding(q[1..])
  }

  /** The first message under way that would end the probe is a success. */
  predicate SuccessFirst(q: seq<Event>) {
    FirstEnding(q).Some? && FirstEnding(q).value.RelayResult? && FirstEnding(q).value.success
  }

  predicate NoCheck(q: seq<Body>) {
    forall i :: 0 <= i < |q| ==> !q[i].ProbeRelayCheck?
  }

  /** A success is under way from end x, or a check to it. */
  predicate LeftBehind(y: Sys, x: Side) {
    SuccessFirst(y.up.At(x)) || !NoCheck(y.down.At(x))
  }

  /** The server has sent a check since b. */
  predicate CheckedSince(b: Sys, y: Sys) {
    exists i :: |b.pair.log| <= i < |y.pair.log| && y.pair.log[i].body.ProbeRelayCheck?
  }

  /** Act a at y sends a switch-relay verdict. */
  predicate SwitchesRelay(c: Config, y: Sys, a: Act) {
    Enabled(y, a) && Decides(y.pair, Next(c, y, a).pair, SwitchRelay)
  }

  /** However the relay probe active at b goes on, a switch-relay verdict on it comes after a check sent since. */
  ghost predicate AlwaysChecked(c: Config, b: Sys) {
    forall y, a :: Leads(c, b, y) && SwitchesRelay(c, y, a) ==> CheckedSince(b, y)
  }

  // ----- steps of the server while the probe lasts -----

  lemma RelayStays(c: Config, s: PairState, t: Timed)
    requires RelayActive(s) && Step(c, s, t).neg.Some?
    ensures Step(c, s, t).neg == s.neg
  {
  }

  lemma EndingEnds(c: Config, s: PairState, t: Timed)
    requires RelayActive(s) && Ending(t.ev) && t.ev.from == Client(s)
    ensures Step(c, s, t).neg.None?
  {
  }

  /** Anything else from the client is ignored. */
  lemma OthersIgnored(c: Config, s: PairState, t: Timed)
    requires RelayActive(s) && FromAgent(t.ev) && !Ending(t.ev) && t.ev.from == Client(s)
    ensures Step(c, s, t) == s && Added(s, s) == []
  {
  }

  /** What the invariant says of y: the same probe, and a check sent, or nothing left behind at the client. */
  predicate Tracked(b: Sys, y: Sys) {
    && RelayActive(y.pair) && y.pair.neg == b.pair.neg && b.pair.log <= y.pair.log
    && (CheckedSince(b, y) || !LeftBehind(y, Client(y.pair)))
  }

  lemma ServerTracks(c: Config, b: Sys, y: Sys, t: Timed)
    requires Sound(y.pair) && Tracked(b, y) && Step(c, y.pair, t).neg.Some?
    ensures Tracked(b, ServerMoves(c, y, t))
  {
    hide Step, Added, Sound;
    RelayStays(c, y.pair, t);
    LogExtends(c, y.pair, t);
    var y' := ServerMoves(c, y, t);
    var added := Added(y.pair, Step(c, y.pair, t));
    var x := Client(y.pair);
    if CheckedSince(b, y) {
      var i :| |b.pair.log| <= i < |y.pair.log| && y.pair.log[i].body.ProbeRelayCheck?;
      assert y'.pair.log[i] == y.pair.log[i];
    } else if i :| 0 <= i < |added| && added[i].body.ProbeRelayCheck? {
      assert y'.pair.log[|y.pair.log| + i] == added[i];
    } else {
      DeliveredIsSent(added, x);
    }
  }

  lemma {:induction false} FirstEndingAppend(q: seq<Event>, e: Event)
    ensures FirstEnding(q + [e]) == if FirstEnding(q).Some? then FirstEnding(q) else if Ending(e) then Some(e) else None
    decreases |q|
  {
    if q == [] {
      assert q + [e] == [e] && [e][1..] == [];
    } else {
      assert (q + [e])[1..] == q[1..] + [e];
      FirstEndingAppend(q[1..], e);
    }
  }

  /** A message other than a check leaves nothing behind that was not. */
  lemma AgentTracks(b: Sys, y: Sys, x: Side, w: World)
    requires Tracked(b, y) && Enabled(y, DeliverDown(x, w))
    ensures Tracked(b, AgentMoves(y, x, w))
  {
    hide OnMessage, FirstEnding;
    var q, body := y.up.At(x), y.down.At(x)[0];
    var r := Reply(y.agents.At(x), x, body, w);
    if r != [] {
      assert r == [r[0]];
      FirstEndingAppend(q, r[0]);
    } else {
      assert q + r == q;
    }
    var y' := AgentMoves(y, x, w);
    assert forall i :: 0 <= i < |y'.down.At(x)| ==> y'.down.At(x)[i] == y.down.At(x)[i + 1];
  }

  lemma OwnActTracks(c: Config, b: Sys, y: Sys, a: Act)
    requires Tracked(b, y) && Enabled(y, a) && !a.ServerAct? && !a.DeliverUp? && !a.DeliverDown?
    ensures Tracked(b, Next(c, y, a))
  {
    hide FirstEnding, OnDatagram, OnLoopEnd, OnDisconnect;
    NoneEnds();
    if a.LoopEnds? { FirstEndingAppend(y.up.At(a.x), DirectResult(a.x, a.success)); }
  }

  lemma NoneEnds()
    ensures FirstEnding([]) == None
  {
  }

  lemma TakenUp(b: Sys, y: Sys, x: Side)
    requires Good(y) && Tracked(b, y) && y.up.At(x) != [] && (x == Client(y.pair) ==> !Ending(y.up.At(x)[0]))
    ensures Tracked(b, y.(up := y.up.Put(x, y.up.At(x)[1..])))
  {
  }

  lemma ActTracks(c: Config, b: Sys, y: Sys, a: Act)
    requires Good(y) && Tracked(b, y) && Enabled(y, a) && Next(c, y, a).pair.neg.Some?
    ensures Tracked(b, Next(c, y, a))
  {
    hide Step, Good, Tracked, AgentMoves, Sound;
    HeadIsItsOwn(y, a);
    match a
    case ServerAct(t) =>
      ServerTracks(c, b, y, t);
    case DeliverUp(x, env) =>
      var t := Timed(env, y.up.At(x)[0]);
      TrackedMeans(b, y);
      if x == Client(y.pair) && Ending(t.ev) { EndingEnds(c, y.pair, t); }
      TakenUp(b, y, x);
      ServerTracks(c, b, y.(up := y.up.Put(x, y.up.At(x)[1..])), t);
    case DeliverDown(x, w) => AgentTracks(b, y, x, w);
    case _ => OwnActTracks(c, b, y, a);
  }

  lemma TrackedMeans(b: Sys, y: Sys)
    requires Tracked(b, y)
    ensures RelayActive(y.pair)
  {
  }

  lemma HeadIsItsOwn(y: Sys, a: Act)
    requires Good(y) && Enabled(y, a)
    ensures Sound(y.pair)
    ensures a.DeliverUp? ==> y.up.At(a.x) != [] && FromAgent(y.up.At(a.x)[0]) && y.up.At(a.x)[0].from == a.x
  {
    hide GoodLog, GoodPast, GoodNeg, GoodDowns, GoodAgent;
    if a.DeliverUp? { assert GoodUp(FactsOf(y), a.x, y.up.At(a.x)[0]); }
  }

  lemma {:induction false} TrackedRun(c: Config, b: Sys, acts: seq<Act>)
    requires Good(b) && Tracked(b, b) && Reachable(c, b, acts) && During(c, b, acts)
    ensures Good(After(c, b, acts)) && Tracked(b, After(c, b, acts))
    decreases |acts|
  {
    if acts != [] {
      TrackedRun(c, b, acts[..|acts| - 1]);
      hide Next, Good, Tracked, Enabled;
      ActKeepsGood(c, After(c, b, acts[..|acts| - 1]), acts[|acts| - 1]);
      ActTracks(c, b, After(c, b, acts[..|acts| - 1]), acts[|acts| - 1]);
    }
  }

  /** The verdict is the client's success report, next in its channel. */
  lemma VerdictIsNext(c: Config, y: Sys, a: Act)
    requires Good(y) && SwitchesRelay(c, y, a)
    ensures RelayActive(y.pair) && SuccessFirst(y.up.At(Client(y.pair)))
  {
    hide Step, Good, AgentMoves, Sound, Added;
    HeadIsItsOwn(y, a);
    if a.ServerAct? {
      VerdictComesFromResult(c, y.pair, a.t);
    } else if a.DeliverUp? {
      VerdictComesFromResult(c, y.pair, Timed(a.env, y.up.At(a.x)[0]));
    } else {
      NothingAdded(c, y, a);
    }
  }

  lemma NothingAdded(c: Config, y: Sys, a: Act)
    requires Enabled(y, a) && !a.ServerAct? && !a.DeliverUp?
    ensures !Decides(y.pair, Next(c, y, a).pair, SwitchRelay)
  {
    assert Next(c, y, a).pair == y.pair;
    assert Added(y.pair, y.pair) == [];
  }

  lemma CheckedIfNothingLeft(c: Config, b: Sys)
    requires Good(b) && RelayActive(b.pair) && !LeftBehind(b, Client(b.pair))
    ensures AlwaysChecked(c, b)
  {
    hide Good, SwitchesRelay, CheckedSince, SuccessFirst, NoCheck;
    forall y, a | Leads(c, b, y) && SwitchesRelay(c, y, a) ensures CheckedSince(b, y) {
      var acts: seq<Act> :| Reachable(c, b, acts) && During(c, b, acts) && After(c, b, acts) == y;
      TrackedRun(c, b, acts);
      VerdictIsNext(c, y, a);
    }
  }

  // ----- and otherwise -----

  /** A success that is first under way arrives and decides. */
  lemma {:induction false} SuccessGetsThrough(c: Config, b: Sys, u: Sys) returns (y: Sys, a: Act)
    requires Good(u) && Leads(c, b, u) && RelayActive(u.pair) && SuccessFirst(u.up.At(Client(u.pair)))
    ensures Leads(c, b, y) && SwitchesRelay(c, y, a) && y.pair == u.pair
    decreases |u.up.At(Client(u.pair))|
  {
    hide Leads, Good, Step, SwitchesRelay;
    var x, e := Client(u.pair), KnownEnv(0);
    a := DeliverUp(x, e);
    HeadIsItsOwn(u, a);
    if Ending(u.up.At(x)[0]) {
      y := u;
      SuccessDecidesRelay(c, u, e);
    } else {
      OthersIgnored(c, u.pair, Timed(e, u.up.At(x)[0]));
      ActKeepsGood(c, u, a);
      var u1 := Extends(c, b, u, a);
      assert u1.pair == u.pair && u1.up.At(x) == u.up.At(x)[1..];
      y, a := SuccessGetsThrough(c, b, u1);
    }
  }

  lemma SuccessDecidesRelay(c: Config, u: Sys, e: Env)
    requires RelayActive(u.pair) && u.up.At(Client(u.pair)) != []
    requires u.up.At(Client(u.pair))[0] == RelayResult(Client(u.pair), true)
    ensures SwitchesRelay(c, u, DeliverUp(Client(u.pair), e))
  {
    var s' := Step(c, u.pair, Timed(e, RelayResult(Client(u.pair), true)));
    var v := ProbeVerdict(SwitchRelay);
    assert s'.log == u.pair.log + [Sent(Lo, v, u.pair.connLo), Sent(Hi, v, u.pair.connHi)];
    assert Added(u.pair, s')[0].body == v;
  }

  /** A check under way is answered with a success, which is then first if nothing else is under way. */
  lemma {:induction false} CheckIsAnswered(c: Config, b: Sys, u: Sys) returns (u': Sys)
    requires Good(u) && Leads(c, b, u) && RelayActive(u.pair)
    requires FirstEnding(u.up.At(Client(u.pair))).None? && !NoCheck(u.down.At(Client(u.pair)))
    ensures Good(u') && Leads(c, b, u') && u'.pair == u.pair && SuccessFirst(u'.up.At(Client(u'.pair)))
    decreases |u.down.At(Client(u.pair))|
  {
    hide Leads, Good, OnMessage, FirstEnding;
    var x := Client(u.pair);
    var w := PickWorld(u, x);
    w := w.(probeOk := true);
    var body := u.down.At(x)[0];
    var r := Reply(u.agents.At(x), x, body, w);
    ActKeepsGood(c, u, DeliverDown(x, w));
    u' := Extends(c, b, u, DeliverDown(x, w));
    if r != [] {
      assert r == [r[0]];
      FirstEndingAppend(u.up.At(x), r[0]);
    } else {
      assert u.up.At(x) + r == u.up.At(x);
    }
    if !body.ProbeRelayCheck? {
      StillToCome(u.down.At(x));
      u' := CheckIsAnswered(c, b, u');
    }
  }

  lemma StillToCome(q: seq<Body>)
    requires !NoCheck(q) && !q[0].ProbeRelayCheck?
    ensures !NoCheck(q[1..])
  {
    var i :| 0 <= i < |q| && q[i].ProbeRelayCheck?;
    assert q[1..][i - 1] == q[i];
  }

  /** A success left behind decides a probe in which no check was sent. */
  lemma LeftBehindDecides(c: Config, b: Sys) returns (y: Sys, a: Act)
    requires Good(b) && RelayActive(b.pair) && LeftBehind(b, Client(b.pair))
    ensures Leads(c, b, y) && SwitchesRelay(c, y, a) && y.pair == b.pair
  {
    hide Leads, Good, SwitchesRelay, SuccessFirst, NoCheck;
    var x := Client(b.pair);
    LeadsSelf(c, b);
    var u := b;
    if !SuccessFirst(b.up.At(x)) {
      ActKeepsGood(c, b, CutUp(x));
      u := Extends(c, b, b, CutUp(x));
      NoneEnds();
      u := CheckIsAnswered(c, b, u);
    }
    y, a := SuccessGetsThrough(c, b, u);
  }

  /** A relay probe is decided for the relay only after a check of its own, if and only if its client has neither a
      success of an earlier probe first under way to the server nor an earlier check under way to it. */
  lemma {:induction false} CheckedIffNothingLeft(c: Config, acts: seq<Act>)
    requires Reachable(c, START, acts) && RelayActive(After(c, START, acts).pair)
    ensures var b := After(c, START, acts); AlwaysChecked(c, b) <==> !LeftBehind(b, Client(b.pair))
  {
    GoodRun(c, acts);
    hide Reachable, After, Good, LeftBehind;
    var b := After(c, START, acts);
    if LeftBehind(b, Client(b.pair)) {
      var y, a := LeftBehindDecides(c, b);
      assert !CheckedSince(b, y);
    } else {
      CheckedIfNothingLeft(c, b);
    }
  }

  // ----- such successes do occur -----

  /** Two connected peers, not forced, with these streaks; sides that have reported did so first at time 0. */
  predicate Failing(s: PairState, n: nat, m: nat) {
    && s.connLo && s.connHi && s.neg.None? && s.rowLo.None? && s.rowHi.None?
    && s.health.Some? && s.health.value.forced.None? && s.health.value.streakAB == n && s.health.value.streakBA == m
    && (s.health.value.joinedA == None || s.health.value.joinedA == Some(0))
    && (s.health.value.joinedB == None || s.health.value.joinedB == Some(0))
  }

  /** A dead report that does not make both streaks three adds one to a streak and sends nothing. */
  lemma OneMoreDead(c: Config, s: PairState, n: nat, m: nat, x: Side)
    requires Failing(s, n, m) && (if x.Lo? then n + 1 < 3 || m < 3 else n < 3 || m + 1 < 3)
    ensures var s' := Step(c, s, Timed(KnownEnv(0), Report(x, DirectPath, false)));
            s'.log == s.log && (if x.Lo? then Failing(s', n + 1, m) else Failing(s', n, m + 1))
  {
  }

  /** The report that does opens a relay probe, which Lo serves if its streak is as long. */
  lemma ThirdDeadOpens(c: Config, s: PairState, n: nat, m: nat, x: Side, now: nat)
    requires Failing(s, n, m) && (if x.Lo? then n + 1 >= m >= 3 && n + 1 >= 3 else n >= m + 1 >= 3)
    requires now == 0 || s.health.value.Joined(x) == Some(0)
    ensures var s' := Step(c, s, Timed(KnownEnv(now), Report(x, DirectPath, false)));
            && s'.neg == Some(RelayProbe(now, Some(Timer(RelayTimeout, now + RELAY_PROBE_TIMEOUT)), Lo))
            && Added(s, s') == [Sent(Lo, ProbeRelayServe, true)]
            && (if x.Lo? then Failing(s'.(neg := None), n + 1, m) else Failing(s'.(neg := None), n, m + 1))
            && s'.health.value.Joined(x) == Some(0)
            && s'.health.value.Joined(x.Other()) == s.health.value.Joined(x.Other())
  {
    var s' := Step(c, s, Timed(KnownEnv(now), Report(x, DirectPath, false)));
    assert s'.log == s.log + [Sent(Lo, ProbeRelayServe, true)];
  }

  lemma FirstDead(c: Config)
    ensures var s := INIT.(connLo := true, connHi := true);
            var s' := Step(c, s, Timed(KnownEnv(0), Report(Lo, DirectPath, false)));
            Failing(s', 1, 0) && s'.log == s.log && s'.health.value.joinedA == Some(0)
  {
  }

  lemma JoinKept(c: Config, s: PairState, x: Side)
    requires s.health.Some? && s.health.value.joinedA == Some(0)
    ensures var s' := Step(c, s, Timed(KnownEnv(0), Report(x, DirectPath, false)));
            s'.health.Some? && s'.health.value.joinedA == Some(0)
  {
  }

  lemma DeadStep(c: Config, y: Sys, n: nat, m: nat, x: Side) returns (y': Sys)
    requires Reaches(c, y) && y.down == Both([], []) && y.up == Both([], [])
    requires Failing(y.pair, n, m) && (if x.Lo? then n + 1 < 3 || m < 3 else n < 3 || m + 1 < 3)
    requires y.pair.health.value.joinedA == Some(0)
    ensures Reaches(c, y') && y'.down == Both([], []) && y'.up == Both([], [])
    ensures if x.Lo? then Failing(y'.pair, n + 1, m) else Failing(y'.pair, n, m + 1)
    ensures y'.pair.health.value.joinedA == Some(0)
  {
    hide Reaches, Step;
    OneMoreDead(c, y.pair, n, m, x);
    JoinKept(c, y.pair, x);
    y' := QuietStep(c, y, Timed(KnownEnv(0), Report(x, DirectPath, false)));
  }

  /** Two peers connect and find the direct path dead, one report short of a relay probe. */
  lemma DirectDies(c: Config) returns (y: Sys)
    ensures Reaches(c, y) && y.down == Both([], []) && y.up == Both([], []) && Failing(y.pair, 3, 2)
    ensures y.pair.health.value.joinedA == Some(0)
  {
    hide Reaches, Step, Failing;
    var e := KnownEnv(0);
    StartReached(c);
    RelaySteps(c, e);
    FirstDead(c);
    y := QuietStep(c, START, Timed(e, Connect(Lo)));
    y := QuietStep(c, y, Timed(e, Connect(Hi)));
    y := QuietStep(c, y, Timed(e, Report(Lo, DirectPath, false)));
    y := DeadStep(c, y, 1, 0, Lo);
    y := DeadStep(c, y, 2, 0, Lo);
    y := DeadStep(c, y, 3, 0, Hi);
    y := DeadStep(c, y, 3, 1, Hi);
  }

  /** The probe opens: Lo is told to serve. */
  lemma ProbeOpens(c: Config, y: Sys, n: nat, m: nat, x: Side, now: nat) returns (y': Sys)
    requires Reaches(c, y) && Failing(y.pair, n, m) && (if x.Lo? then n + 1 >= m >= 3 else n >= m + 1 >= 3)
    requires now == 0 || y.pair.health.value.Joined(x) == Some(0)
    ensures Reaches(c, y') && y' == ServerMoves(c, y, Timed(KnownEnv(now), Report(x, DirectPath, false)))
    ensures y'.pair.neg == Some(RelayProbe(now, Some(Timer(RelayTimeout, now + RELAY_PROBE_TIMEOUT)), Lo))
    ensures y'.up == y.up && y'.down == Both(y.down.lo + [ProbeRelayServe], y.down.hi)
    ensures if x.Lo? then Failing(y'.pair.(neg := None), n + 1, m) else Failing(y'.pair.(neg := None), n, m + 1)
    ensures y.pair.health.value.joinedA == Some(0) ==> y'.pair.health.value.joinedA == Some(0)
  {
    hide Reaches, Step;
    ThirdDeadOpens(c, y.pair, n, m, x, now);
    y' := ReachesNext(c, y, ServerAct(Timed(KnownEnv(now), Report(x, DirectPath, false))));
    DeliveredOne(Sent(Lo, ProbeRelayServe, true), Lo);
    DeliveredOne(Sent(Lo, ProbeRelayServe, true), Hi);
    assert y.down.hi + [] == y.down.hi;
  }

  lemma ReadyBringsCheck(c: Config, s: PairState, nonce: string)
    requires RelayActive(s) && s.neg.value.server == Lo && s.connHi
    ensures var s' := Step(c, s, Timed(KnownEnv(0), RelayReady(Lo, "", 1, nonce)));
            && s' == s.(log := s'.log)
            && Added(s, s') == [Sent(Hi, ProbeRelayCheck("", 1, nonce, "", ""), true)]
  {
    var s' := Step(c, s, Timed(KnownEnv(0), RelayReady(Lo, "", 1, nonce)));
    assert s'.log == s.log + [Sent(Hi, ProbeRelayCheck("", 1, nonce, "", ""), true)];
  }

  lemma TimeoutAborts(c: Config, s: PairState, now: nat)
    requires RelayActive(s) && s.connLo && s.connHi && s.neg.value.timer == Some(Timer(RelayTimeout, now))
    ensures var s' := Step(c, s, Timed(KnownEnv(now), TimerFires)); s' == s.(neg := None, log := s'.log)
  {
  }

  /** Lo serves and says where. */
  lemma LoServes(c: Config, y: Sys) returns (y': Sys, ready: Event)
    requires Reaches(c, y) && y.down.lo == [ProbeRelayServe] && y.up.lo == []
    ensures Reaches(c, y') && y'.pair == y.pair && y'.up == Both([ready], y.up.hi) && y'.down == Both([], y.down.hi)
    ensures ready.RelayReady? && ready == RelayReady(Lo, "", 1, ready.nonce)
  {
    hide Reaches;
    var w := PickWorld(y, Lo);
    w := w.(meshIpv4 := "", port := 1);
    y' := ReachesNext(c, y, DeliverDown(Lo, w));
    ready := RelayReady(Lo, "", 1, w.nonce);
    assert y.up.lo + [ready] == [ready] && y.down.lo[1..] == [];
  }

  /** The server sends the check on. */
  lemma CheckGoes(c: Config, y: Sys, nonce: string) returns (y': Sys, check: Body)
    requires Reaches(c, y) && RelayActive(y.pair) && y.pair.neg.value.server == Lo && y.pair.connHi
    requires y.up.lo == [RelayReady(Lo, "", 1, nonce)] && y.down == Both([], [])
    ensures Reaches(c, y') && y'.pair == y.pair.(log := y'.pair.log) && y'.up == Both([], y.up.hi)
    ensures y'.down == Both([], [check]) && check.ProbeRelayCheck?
  {
    hide Reaches, Step;
    ReadyBringsCheck(c, y.pair, nonce);
    y' := ReachesNext(c, y, DeliverUp(Lo, KnownEnv(0)));
    check := ProbeRelayCheck("", 1, nonce, "", "");
    DeliveredOne(Sent(Hi, check, true), Lo);
    DeliveredOne(Sent(Hi, check, true), Hi);
    assert [] + [check] == [check];
  }

  /** Hi's probe succeeds. */
  lemma HiSucceeds(c: Config, y: Sys) returns (y': Sys)
    requires Reaches(c, y) && y.up.hi == [] && y.down.hi != [] && y.down.hi[0].ProbeRelayCheck?
    ensures Reaches(c, y') && y'.pair == y.pair && y'.up.hi == [RelayResult(Hi, true)]
  {
    hide Reaches;
    var w := PickWorld(y, Hi);
    w := w.(probeOk := true);
    y' := ReachesNext(c, y, DeliverDown(Hi, w));
    assert y.up.hi + [RelayResult(Hi, true)] == [RelayResult(Hi, true)];
  }

  /** The probe goes well, but its timer fires before the client's success arrives. */
  lemma SuccessComesLate(c: Config) returns (y: Sys)
    ensures Reaches(c, y) && Failing(y.pair, 3, 3) && y.pair.health.value.joinedA == Some(0)
    ensures y.up.hi == [RelayResult(Hi, true)]
  {
    hide Reaches, Step, ServerMoves;
    var y0 := DirectDies(c);
    var ready, check;
    y := ProbeOpens(c, y0, 3, 2, Hi, 0);
    assert [] + [ProbeRelayServe] == [ProbeRelayServe];
    y, ready := LoServes(c, y);
    y, check := CheckGoes(c, y, ready.nonce);
    y := HiSucceeds(c, y);
    y := ProbeTimesOut(c, y, RELAY_PROBE_TIMEOUT);
  }

  lemma ProbeTimesOut(c: Config, y: Sys, now: nat) returns (y': Sys)
    requires Reaches(c, y) && RelayActive(y.pair) && y.pair.connLo && y.pair.connHi
    requires y.pair.neg.value.timer == Some(Timer(RelayTimeout, now))
    ensures Reaches(c, y') && y'.up == y.up && y'.pair == y.pair.(neg := None, log := y'.pair.log)
  {
    hide Reaches, Step;
    TimeoutAborts(c, y.pair, now);
    y' := ReachesNext(c, y, ServerAct(Timed(KnownEnv(now), TimerFires)));
  }

  /** In some run of honest agents from the start, whatever the configuration, a relay probe opens that a late success
      of the one before it can decide without a check. */
  lemma LateSuccessDecides(c: Config)
    ensures exists acts, t: Timed ::
              && Reachable(c, START, acts) && After(c, START, acts).pair.neg.None? && t.ev.Report?
              && var b := ServerMoves(c, After(c, START, acts), t); RelayActive(b.pair) && !AlwaysChecked(c, b)
  {
    hide Reaches, Step, Failing, AlwaysChecked, Reachable, After, ServerMoves;
    var y := SuccessComesLate(c);
    var t := Timed(KnownEnv(RELAY_PROBE_TIMEOUT), Report(Lo, DirectPath, false));
    var b := ProbeOpens(c, y, 3, 3, Lo, RELAY_PROBE_TIMEOUT);
    SuccessIsFirst();
    FailingIsIdle(y.pair, 3, 3);
    ReachedLate(c, b);
    ReachedBy(c, y, t);
  }

  lemma SuccessIsFirst()
    ensures SuccessFirst([RelayResult(Hi, true)])
  {
  }

  lemma FailingIsIdle(s: PairState, n: nat, m: nat)
    requires Failing(s, n, m)
    ensures s.neg.None?
  {
  }

  lemma ReachedLate(c: Config, b: Sys)
    requires Reaches(c, b) && RelayActive(b.pair) && LeftBehind(b, Client(b.pair))
    ensures !AlwaysChecked(c, b)
  {
    hide Reachable, After, AlwaysChecked, LeftBehind;
    var acts: seq<Act> :| Reachable(c, START, acts) && After(c, START, acts) == b;
    CheckedIffNothingLeft(c, acts);
  }

  lemma ReachedBy(c: Config, y: Sys, t: Timed)
    requires Reaches(c, y)
    ensures exists acts :: Reachable(c, START, acts) && After(c, START, acts) == y
  {
  }
}

/** The grammar of what the server sends about one pair. */
module Sessions {
  import opened Common
  import opened PairMachine

  /** How a negotiation ends: the same verdict to both ends, an abort to both or to the one end left,
      or silently with the server process. */
  datatype Ending =
    | Verdict(action: Action)
    | AbortBoth(reason: Reason)
    | AbortOne(to: Side, reason: Reason)
    | Lost

  datatype Session =
    | RelaySession(server: Side, checks: seq<Body>, end: Ending)
    | DirectSession(gos: seq<(Body, Body)>, end: Ending)
    | ForceSession(first: Side, target: Option<Forced>, toFirst: bool, toSecond: bool)

  /** A negotiation still open, with what it has sent so far. */
  datatype Open =
    | OpenRelaySession(server: Side, checks: seq<Body>)
    | OpenDirectSession(gos: seq<(Body, Body)>)

  function RenderEnd(end: Ending): seq<Sent> {
    match end
    case Verdict(a) => [Sent(Lo, ProbeVerdict(a), true), Sent(Hi, ProbeVerdict(a), true)]
    case AbortBoth(r) => [Sent(Lo, NegotiateAbort(r), true), Sent(Hi, NegotiateAbort(r), true)]
    case AbortOne(x, r) => [Sent(x, NegotiateAbort(r), true)]
    case Lost => []
  }

  function RenderChecks(client: Side, checks: seq<Body>): seq<Sent> {
    if checks == [] then []
    else RenderChecks(client, checks[..|checks| - 1]) + [Sent(client, checks[|checks| - 1], true)]
  }

  function RenderGos(gos: seq<(Body, Body)>): seq<Sent> {
    if gos == [] then []
    else RenderGos(gos[..|gos| - 1]) + [Sent(Lo, gos[|gos| - 1].0, true), Sent(Hi, gos[|gos| - 1].1, true)]
  }

  /** Serve Check* for a relay probe, Start Start (Go Go)* for a direct one; every message reaches a socket. */
  function RenderOpen(o: Open): seq<Sent> {
    match o
    case OpenRelaySession(server, checks) => [Sent(server, ProbeRelayServe, true)]
                                             + RenderChecks(server.Other(), checks)
    case OpenDirectSession(gos) => [Sent(Lo, ProbeDirectStart, true), Sent(Hi, ProbeDirectStart, true)] + RenderGos(gos)
  }

  function RenderSession(s: Session): seq<Sent> {
    match s
    case RelaySession(server, checks, end) => RenderOpen(OpenRelaySession(server, checks)) + RenderEnd(end)
    case DirectSession(gos, end) => RenderOpen(OpenDirectSession(gos)) + RenderEnd(end)
    case ForceSession(x, target, toFirst, toSecond) => [Sent(x, ForceMode(target), toFirst),
                                                        Sent(x.Other(), ForceMode(target), toSecond)]
  }

  function Render(ss: seq<Session>): seq<Sent> {
    if ss == [] then [] else Render(ss[..|ss| - 1]) + RenderSession(ss[|ss| - 1])
  }

  /** Checks carry checks, gos carry gos, and a relay probe never ends with the verdict of a direct one. */
  predicate WellFormed(s: Session) {
    match s
    case RelaySession(_, checks, end) =>
      (forall i :: 0 <= i < |checks| ==> checks[i].ProbeRelayCheck?) && end != Verdict(SwitchDirect)
    case DirectSession(gos, end) =>
      (forall i :: 0 <= i < |gos| ==> gos[i].0.ProbeDirectGo? && gos[i].1.ProbeDirectGo?) && end != Verdict(SwitchRelay)
    case ForceSession(_, _, _, _) => true
  }

  predicate WellFormedOpen(o: Open) {
    WellFormed(match o
               case OpenRelaySession(server, checks) => RelaySession(server, checks, Lost)
               case OpenDirectSession(gos) => DirectSession(gos, Lost))
  }

  /** The open part of the log belongs to the active negotiation. */
  predicate Matches(open: Option<Open>, neg: Option<Neg>) {
    match open
    case None => neg.None?
    case Some(OpenRelaySession(server, _)) => neg.Some? && neg.value.RelayProbe? && neg.value.server == server
    case Some(OpenDirectSession(_)) => neg.Some? && neg.value.DirectProbe?
  }

  predicate Explains(ss: seq<Session>, open: Option<Open>, s: PairState) {
    && (forall i :: 0 <= i < |ss| ==> WellFormed(ss[i]))
    && (open.Some? ==> WellFormedOpen(open.value))
    && Matches(open, s.neg)
    && s.log == Render(ss) + (if open.Some? then RenderOpen(open.value) else [])
  }

  /** The log reads as finished sessions followed by what the active negotiation, if any, has sent. */
  ghost predicate Grammatical(s: PairState) {
    exists ss: seq<Session>, open: Option<Open> :: Explains(ss, open, s)
  }

  // ----- the moves a step can make -----

  function Closed(o: Open, end: Ending): Session {
    match o
    case OpenRelaySession(server, checks) => RelaySession(server, checks, end)
    case OpenDirectSession(gos) => DirectSession(gos, end)
  }

  predicate EndFits(neg: Neg, end: Ending) {
    if neg.RelayProbe? then end != Verdict(SwitchDirect) else end != Verdict(SwitchRelay)
  }

  function ForceLog(s: PairState, x: Side, target: Option<Forced>): seq<Sent> {
    [Sent(x, ForceMode(target), s.Connected(x)), Sent(x.Other(), ForceMode(target), s.Connected(x.Other()))]
  }

  predicate SameSession(a: Option<Neg>, b: Option<Neg>) {
    match (a, b)
    case (None, None) => true
    case (Some(RelayProbe(t, _, x)), Some(RelayProbe(t', _, x'))) => t == t' && x == x'
    case (Some(DirectProbe(t, _, _, _, _, _)), Some(DirectProbe(t', _, _, _, _, _))) => t == t'
    case _ => false
  }

  datatype Move =
    | Quiet
    | Opens(open: Open)
    | Checks(body: Body)
    | Gos(toLo: Body, toHi: Body)
    | Ends(end: Ending)
    | Forces(first: Side, target: Option<Forced>)
    | EndsAndForces(first: Side, target: Option<Forced>)

  /** What a move adds to the log. */
  function MoveLog(s: PairState, m: Move): seq<Sent> {
    match m
    case Quiet => []
    case Opens(o) => RenderOpen(o)
    case Checks(b) => if s.neg.Some? && s.neg.value.RelayProbe? then [Sent(s.neg.value.server.Other(), b, true)] else []
    case Gos(a, b) => [Sent(Lo, a, true), Sent(Hi, b, true)]
    case Ends(end) => RenderEnd(end)
    case Forces(x, t) => ForceLog(s, x, t)
    case EndsAndForces(x, t) => RenderEnd(AbortBoth(AdminForce)) + ForceLog(s, x, t)
  }

  /** What a move does to the active negotiation, and that its messages fit it. */
  predicate Fits(n: Option<Neg>, n': Option<Neg>, m: Move) {
    match m
    case Quiet => SameSession(n, n')
    case Opens(o) => n.None? && Matches(Some(o), n')
                     && (match o case OpenRelaySession(_, cs) => cs == [] case OpenDirectSession(gs) => gs == [])
    case Checks(b) => SameSession(n, n') && n.Some? && n.value.RelayProbe? && b.ProbeRelayCheck?
    case Gos(a, b) => SameSession(n, n') && n.Some? && n.value.DirectProbe? && a.ProbeDirectGo? && b.ProbeDirectGo?
    case Ends(end) => n.Some? && n'.None? && EndFits(n.value, end)
    case Forces(_, _) => n.None? && n'.None?
    case EndsAndForces(_, _) => n.Some? && n'.None?
  }

  predicate Makes(s: PairState, s': PairState, m: Move) {
    Fits(s.neg, s'.neg, m) && s'.log == s.log + MoveLog(s, m)
  }

  /** What one step adds to the log. */
  function Added(s: PairState, s': PairState): seq<Sent> {
    if s.log <= s'.log then s'.log[|s.log|..] else []
  }

  lemma AddedByMove(s: PairState, s': PairState, m: Move)
    requires Makes(s, s', m)
    ensures s.log <= s'.log && Added(s, s') == MoveLog(s, m) && Fits(s.neg, s'.neg, m)
  {
  }

  /** The move a step makes, told by the event and by what became of the negotiation. */
  function MoveOf(s: PairState, s': PairState, t: Timed): Move {
    match t.ev
    case Force(x, target) => if s.neg.Some? then EndsAndForces(x, target) else Forces(x, target)
    case RelayResult(_, ok) => if s.neg.Some? && s'.neg.None?
                               then Ends(Verdict(if ok then SwitchRelay else Stay)) else Quiet
    case DirectResult(_, _) =>
      if s.neg.Some? && s'.neg.None? && |s'.log| > 0 && s'.log[|s'.log| - 1].body.ProbeVerdict?
      then Ends(Verdict(s'.log[|s'.log| - 1].body.action)) else Quiet
    case TimerFires =>
      if s.neg.None? || s'.neg.Some? then Quiet
      else if s.neg.value.RelayProbe? then Ends(AbortBoth(TimedOut)) else Ends(Verdict(Stay))
    case Close(x) => if s.neg.Some? then Ends(AbortOne(x.Other(), WsReset)) else Quiet
    case Purge(x) => if s.neg.Some? then Ends(AbortOne(x.Other(), PeerRemoved)) else Quiet
    case Restart => if s.neg.Some? then Ends(Lost) else Quiet
    case _ =>
      if s.neg.None? && s'.neg.Some? then
        Opens(if s'.neg.value.RelayProbe? then OpenRelaySession(s'.neg.value.server, []) else OpenDirectSession([]))
      else if s.neg.Some? && s'.neg.None? then Ends(AbortBoth(TimedOut))
      else if |s'.log| == |s.log| + 1 then Checks(s'.log[|s.log|].body)
      else if |s'.log| == |s.log| + 2 then Gos(s'.log[|s.log|].body, s'.log[|s.log| + 1].body)
      else Quiet
  }

  lemma AbortMove(s: PairState, reason: Reason)
    requires Sound(s) && s.neg.Some?
    ensures Abort(s, reason) == s.(neg := None, log := s.log + RenderEnd(AbortBoth(reason)))
  {
  }

  lemma ReportMove(c: Config, s: PairState, t: Timed)
    requires Sound(s) && t.ev.Report?
    ensures Makes(s, Step(c, s, t), MoveOf(s, Step(c, s, t), t))
  {
    var s' := Step(c, s, t);
    if s.neg.None? && s'.neg.Some? {
      var o := OpenRelaySession(s'.neg.value.server, []);
      assert RenderOpen(o) == [Sent(s'.neg.value.server, ProbeRelayServe, true)];
    }
  }

  lemma ReadyMove(c: Config, s: PairState, t: Timed)
    requires Sound(s) && (t.ev.RelayReady? || t.ev.DirectReady?)
    ensures Makes(s, Step(c, s, t), MoveOf(s, Step(c, s, t), t))
  {
    if s.neg.Some? {
      AbortMove(s, TimedOut);
      if t.ev.DirectReady? {
        var s' := Step(c, s, t);
        if s'.neg.Some? && |s'.log| == |s.log| + 2 {
          assert s'.log == s.log + [s'.log[|s.log|], s'.log[|s.log| + 1]];
        }
      }
    }
  }

  lemma EndMove(c: Config, s: PairState, t: Timed)
    requires Sound(s) && (t.ev.ProbeError? || t.ev.TimerFires? || t.ev.SweepStale? || t.ev.CheckDirect?)
    ensures Makes(s, Step(c, s, t), MoveOf(s, Step(c, s, t), t))
  {
    if s.neg.Some? {
      AbortMove(s, TimedOut);
      if t.ev.ProbeError? && s.neg.value.DirectProbe? {
        AbortMove(DoubleBackoff(s), TimedOut);
      }
    } else {
      assert RenderOpen(OpenDirectSession([])) == [Sent(Lo, ProbeDirectStart, true), Sent(Hi, ProbeDirectStart, true)];
    }
  }

  lemma ForceMove(c: Config, s: PairState, t: Timed)
    requires Sound(s) && t.ev.Force?
    ensures Makes(s, Step(c, s, t), MoveOf(s, Step(c, s, t), t))
  {
  }

  lemma ResultMove(c: Config, s: PairState, t: Timed)
    requires Sound(s) && (t.ev.RelayResult? || t.ev.DirectResult?)
    ensures Makes(s, Step(c, s, t), MoveOf(s, Step(c, s, t), t))
  {
  }

  /** Every step makes exactly the move its event calls for. */
  lemma {:induction false} StepMakesMove(c: Config, s: PairState, t: Timed)
    requires Sound(s)
    ensures Makes(s, Step(c, s, t), MoveOf(s, Step(c, s, t), t))
  {
    match t.ev
    case Report(_, _, _) => ReportMove(c, s, t);
    case RelayReady(_, _, _, _) => ReadyMove(c, s, t);
    case DirectReady(_, _) => ReadyMove(c, s, t);
    case RelayResult(_, _) => ResultMove(c, s, t);
    case DirectResult(_, _) => ResultMove(c, s, t);
    case Force(_, _) => ForceMove(c, s, t);
    case ProbeError(_) => EndMove(c, s, t);
    case TimerFires => EndMove(c, s, t);
    case SweepStale => EndMove(c, s, t);
    case CheckDirect => EndMove(c, s, t);
    case Connect(_) =>
    case Close(_) =>
    case Upsert(_, _) =>
    case Purge(_) =>
    case Cascade =>
    case Restart =>
  }

  // ----- the grammar holds over every run -----

  lemma {:induction false} Extend(ss: seq<Session>, x: Session)
    ensures Render(ss + [x]) == Render(ss) + RenderSession(x)
  {
    assert (ss + [x])[..|ss + [x]| - 1] == ss;
  }

  /** The open session with one more check or pair of gos. */
  function Grown(o: Open, m: Move): Open {
    if o.OpenRelaySession? && m.Checks? then OpenRelaySession(o.server, o.checks + [m.body])
    else if o.OpenDirectSession? && m.Gos? then OpenDirectSession(o.gos + [(m.toLo, m.toHi)])
    else o
  }

  lemma RenderGrown(o: Open, m: Move)
    requires if o.OpenRelaySession? then m.Checks? else m.Gos?
    ensures RenderOpen(Grown(o, m))
            == RenderOpen(o) + if m.Checks?
               then [Sent(o.server.Other(), m.body, true)] else [Sent(Lo, m.toLo, true), Sent(Hi, m.toHi, true)]
  {
    if m.Checks? {
      assert (o.checks + [m.body])[..|o.checks|] == o.checks;
    } else {
      assert (o.gos + [(m.toLo, m.toHi)])[..|o.gos|] == o.gos;
    }
  }

  lemma ExplainGrowth(ss: seq<Session>, open: Option<Open>, s: PairState, s': PairState, m: Move)
    requires Explains(ss, open, s) && Makes(s, s', m) && (m.Checks? || m.Gos?)
    ensures Grammatical(s')
  {
    hide Render, RenderOpen;
    var o := Grown(open.value, m);
    RenderGrown(open.value, m);
    assert s'.log == Render(ss) + RenderOpen(o);
    assert Explains(ss, Some(o), s');
  }

  lemma ClosedRenders(open: Open, end: Ending)
    ensures RenderSession(Closed(open, end)) == RenderOpen(open) + RenderEnd(end)
    ensures WellFormed(Closed(open, end)) <==>
              WellFormedOpen(open) && end != Verdict(if open.OpenRelaySession? then SwitchDirect else SwitchRelay)
  {
  }

  lemma ExplainEnd(ss: seq<Session>, open: Open, s: PairState, s': PairState, end: Ending)
    requires Explains(ss, Some(open), s) && EndFits(s.neg.value, end)
    requires s'.neg.None? && s'.log == s.log + RenderEnd(end)
    ensures Explains(ss + [Closed(open, end)], None, s')
  {
    hide Render, RenderSession, RenderOpen, RenderEnd, WellFormed, WellFormedOpen, Closed;
    Extend(ss, Closed(open, end));
    ClosedRenders(open, end);
    assert s'.log == Render(ss) + RenderSession(Closed(open, end));
  }

  function ForceSessionOf(s: PairState, x: Side, target: Option<Forced>): Session {
    ForceSession(x, target, s.Connected(x), s.Connected(x.Other()))
  }

  lemma ExplainForce(ss: seq<Session>, s: PairState, s': PairState, x: Side, target: Option<Forced>)
    requires Explains(ss, None, s) && s'.neg.None? && s'.log == s.log + ForceLog(s, x, target)
    ensures Explains(ss + [ForceSessionOf(s, x, target)], None, s')
  {
    hide Render, RenderSession, WellFormed, ForceLog, ForceSessionOf;
    Extend(ss, ForceSessionOf(s, x, target));
    ForceRenders(s, x, target);
  }

  lemma ForceRenders(s: PairState, x: Side, target: Option<Forced>)
    ensures RenderSession(ForceSessionOf(s, x, target)) == ForceLog(s, x, target)
    ensures WellFormed(ForceSessionOf(s, x, target))
  {
  }

  lemma ExplainQuiet(ss: seq<Session>, open: Option<Open>, s: PairState, s': PairState)
    requires Explains(ss, open, s) && Makes(s, s', Quiet)
    ensures Explains(ss, open, s')
  {
  }

  lemma ExplainOpens(ss: seq<Session>, s: PairState, s': PairState, o: Open)
    requires Explains(ss, None, s) && Makes(s, s', Opens(o))
    ensures Explains(ss, Some(o), s')
  {
  }

  lemma ExplainMove(ss: seq<Session>, open: Option<Open>, s: PairState, s': PairState, m: Move)
    requires Explains(ss, open, s) && Makes(s, s', m)
    ensures Grammatical(s')
  {
    hide Render, RenderOpen, WellFormed;
    match m
    case Quiet => ExplainQuiet(ss, open, s, s');
    case Opens(o) => ExplainOpens(ss, s, s', o);
    case Checks(_) => ExplainGrowth(ss, open, s, s', m);
    case Gos(_, _) => ExplainGrowth(ss, open, s, s', m);
    case Ends(end) => ExplainEnd(ss, open.value, s, s', end);
    case Forces(x, t) => ExplainForce(ss, s, s', x, t);
    case EndsAndForces(x, t) =>
      var mid := s.(neg := None, log := s.log + RenderEnd(AbortBoth(AdminForce)));
      ExplainEnd(ss, open.value, s, mid, AbortBoth(AdminForce));
      ExplainForce(ss + [Closed(open.value, AbortBoth(AdminForce))], mid, s', x, t);
  }

  /** Session grammar: over every run the outbound log is a sequence of sessions
      (Serve Check* End | Start Start (Go Go)* End | Force Force), the last one open exactly while a
      negotiation of that kind is active. So each negotiation gets at most one outcome, the same verdict or
      abort for whoever is told, and nothing is sent for it afterwards. */
  lemma {:induction false} GrammarRun(c: Config, tr: seq<Timed>)
    ensures Grammatical(Run(c, tr))
  {
    if tr == [] {
      assert Explains([], None, Run(c, tr));
    } else {
      var pre := tr[..|tr| - 1];
      GrammarRun(c, pre);
      SoundRun(c, pre);
      var ss, open :| Explains(ss, open, Run(c, pre));
      StepMakesMove(c, Run(c, pre), tr[|tr| - 1]);
      ExplainMove(ss, open, Run(c, pre), Run(c, tr), MoveOf(Run(c, pre), Run(c, tr), tr[|tr| - 1]));
    }
  }

  // ----- both ends are told to change mode alike -----

  /** A command that can change the mode an agent routes by. */
  datatype Command = ToRelay | ToDirect | Keep

  function CommandOf(b: Body): Command {
    match b
    case ProbeVerdict(SwitchRelay) => ToRelay
    case ProbeVerdict(SwitchDirect) => ToDirect
    case ForceMode(Some(ForceRelay)) => ToRelay
    case ForceMode(Some(ForceDirect)) => ToDirect
    case _ => Keep
  }

  /** The mode-changing commands sent to one end, in order. */
  function Commands(log: seq<Sent>, x: Side): seq<Command> {
    if log == [] then []
    else
      var last := log[|log| - 1];
      var cmd := CommandOf(last.body);
      Commands(log[..|log| - 1], x) + (if last.to == x && cmd != Keep then [cmd] else [])
  }

  lemma {:induction false} CommandsAppend(a: seq<Sent>, b: seq<Sent>, x: Side)
    ensures Commands(a + b, x) == Commands(a, x) + Commands(b, x)
    decreases |b|
  {
    if b == [] {
      assert a + b == a;
    } else {
      assert (a + b)[..|a + b| - 1] == a + b[..|b| - 1];
      CommandsAppend(a, b[..|b| - 1], x);
    }
  }

  lemma CommandsOne(x: Sent, to: Side)
    ensures Commands([x], to) == if x.to == to && CommandOf(x.body) != Keep then [CommandOf(x.body)] else []
  {
    assert [x][..|[x]| - 1] == [];
  }

  lemma CommandsTwo(x: Sent, y: Sent, to: Side)
    ensures Commands([x, y], to) == (if x.to == to && CommandOf(x.body) != Keep then [CommandOf(x.body)] else [])
                                  + (if y.to == to && CommandOf(y.body) != Keep then [CommandOf(y.body)] else [])
  {
    assert [x, y][..|[x, y]| - 1] == [x];
    CommandsOne(x, to);
  }

  lemma AbortAndForceCommands(s: PairState, first: Side, target: Option<Forced>, x: Side)
    ensures Commands(RenderEnd(AbortBoth(AdminForce)) + ForceLog(s, first, target), x)
            == if target.Some? then [CommandOf(ForceMode(target))] else []
  {
    var aborts := RenderEnd(AbortBoth(AdminForce));
    CommandsAppend(aborts, ForceLog(s, first, target), x);
    CommandsTwo(aborts[0], aborts[1], x);
    CommandsTwo(ForceLog(s, first, target)[0], ForceLog(s, first, target)[1], x);
  }

  lemma StepCommands(c: Config, s: PairState, t: Timed)
    requires Sound(s)
    ensures s.log <= Step(c, s, t).log
    ensures var added := Added(s, Step(c, s, t)); Commands(added, Lo) == Commands(added, Hi)
  {
    var s' := Step(c, s, t);
    StepMakesMove(c, s, t);
    var m := MoveOf(s, s', t);
    AddedByMove(s, s', m);
    var added := Added(s, s');
    if m.EndsAndForces? {
      AbortAndForceCommands(s, m.first, m.target, Lo);
      AbortAndForceCommands(s, m.first, m.target, Hi);
    } else if |added| == 2 {
      assert added == [added[0], added[1]];
      CommandsTwo(added[0], added[1], Lo);
      CommandsTwo(added[0], added[1], Hi);
    } else if |added| == 1 {
      assert added == [added[0]];
      CommandsOne(added[0], Lo);
      CommandsOne(added[0], Hi);
    }
  }

  /** The mode-changing commands sent to the two ends always form the same sequence. */
  lemma {:induction false} CommandsAgree(c: Config, tr: seq<Timed>)
    ensures Commands(Run(c, tr).log, Lo) == Commands(Run(c, tr).log, Hi)
  {
    if tr != [] {
      var s := Run(c, tr[..|tr| - 1]);
      CommandsAgree(c, tr[..|tr| - 1]);
      SoundRun(c, tr[..|tr| - 1]);
      StepCommands(c, s, tr[|tr| - 1]);
      var added := Added(s, Run(c, tr));
      assert Run(c, tr).log == s.log + added;
      CommandsAppend(s.log, added, Lo);
      CommandsAppend(s.log, added, Hi);
    }
  }
}

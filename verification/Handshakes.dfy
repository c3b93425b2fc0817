/** What an active probe knows and awaits, and how it is decided, told from what has happened to the pair. */
module Handshakes {
  import opened Common
  import opened PairMachine
  import opened Sessions
  import opened Backoffs
  import opened RelayEvidence
  import opened Openings
  import DirectEvidence
  import Freshness

  // ----- what has come in -----

  /** The step opens a negotiation. */
  predicate Begins(c: Config, before: seq<Timed>, t: Timed) {
    Run(c, before).neg.None? && Step(c, Run(c, before), t).neg.Some?
  }

  /** When the last negotiation opened. */
  function BegunAt(c: Config, tr: seq<Timed>): nat {
    if tr == [] then 0
    else
      var before, t := tr[..|tr| - 1], tr[|tr| - 1];
      if Begins(c, before, t) then t.env.now else BegunAt(c, before)
  }

  /** The last ready message of side x since the last negotiation opened. */
  function LastReady(c: Config, tr: seq<Timed>, x: Side): Option<Ready> {
    if tr == [] then None
    else
      var before, t := tr[..|tr| - 1], tr[|tr| - 1];
      if Begins(c, before, t) then None
      else if t.ev.DirectReady? && t.ev.from == x then Some(t.ev.ready)
      else LastReady(c, before, x)
  }

  /** The last result of side x since the last negotiation opened. */
  function LastResult(c: Config, tr: seq<Timed>, x: Side): Option<bool> {
    if tr == [] then None
    else
      var before, t := tr[..|tr| - 1], tr[|tr| - 1];
      if Begins(c, before, t) then None
      else if t.ev.DirectResult? && t.ev.from == x then Some(t.ev.success)
      else LastResult(c, before, x)
  }

  /** When the last ready message came that found both sides ready. */
  function BothReadyAt(c: Config, tr: seq<Timed>): Option<nat> {
    if tr == [] then None
    else
      var before, t := tr[..|tr| - 1], tr[|tr| - 1];
      if Begins(c, before, t) then None
      else if t.ev.DirectReady? && LastReady(c, tr, Lo).Some? && LastReady(c, tr, Hi).Some? then Some(t.env.now)
      else BothReadyAt(c, before)
  }

  /** What the run says of the active negotiation. */
  predicate Knows(c: Config, tr: seq<Timed>, n: Neg) {
    && n.startedAt == BegunAt(c, tr)
    && match n
       case RelayProbe(_, timer, _) => timer == Some(Timer(RelayTimeout, BegunAt(c, tr) + 15_000))
       case DirectProbe(_, timer, readyA, readyB, resultA, resultB) =>
         && readyA == LastReady(c, tr, Lo) && readyB == LastReady(c, tr, Hi)
         && resultA == LastResult(c, tr, Lo) && resultB == LastResult(c, tr, Hi)
         && (BothReadyAt(c, tr).Some? <==> readyA.Some? && readyB.Some?)
         && timer == Some(if BothReadyAt(c, tr).Some? then Timer(ResultTimeout, BothReadyAt(c, tr).value + 10_000)
                          else Timer(ReadyTimeout, BegunAt(c, tr) + 10_000))
  }

  lemma BegunNeg(c: Config, s: PairState, t: Timed)
    requires s.neg.None? && Step(c, s, t).neg.Some?
    ensures var n := Step(c, s, t).neg.value;
            n == (if n.RelayProbe? then RelayProbe(t.env.now, Some(Timer(RelayTimeout, t.env.now + 15_000)), n.server)
                  else DirectProbe(t.env.now, Some(Timer(ReadyTimeout, t.env.now + 10_000)), None, None, None, None))
  {
  }

  lemma KeptNeg(c: Config, s: PairState, t: Timed)
    requires s.neg.Some? && Step(c, s, t).neg.Some?
    ensures var n := s.neg.value;
            Step(c, s, t).neg.value ==
              if n.RelayProbe? then n
              else if t.ev.DirectReady? then
                var n1 := if t.ev.from.Lo? then n.(readyA := Some(t.ev.ready)) else n.(readyB := Some(t.ev.ready));
                if n1.readyA.Some? && n1.readyB.Some? then n1.(timer := Some(Timer(ResultTimeout, t.env.now + 10_000)))
                else n1
              else if t.ev.DirectResult? then
                (if t.ev.from.Lo? then n.(resultA := Some(t.ev.success)) else n.(resultB := Some(t.ev.success)))
              else n
  {
    if t.ev.DirectReady? || t.ev.DirectResult? || t.ev.TimerFires? { KeptByProbe(c, s, t); }
  }

  lemma KeptByProbe(c: Config, s: PairState, t: Timed)
    requires s.neg.Some? && Step(c, s, t).neg.Some? && (t.ev.DirectReady? || t.ev.DirectResult? || t.ev.TimerFires?)
    ensures var n := s.neg.value;
            Step(c, s, t).neg.value ==
              if n.RelayProbe? then n
              else if t.ev.DirectReady? then
                var n1 := if t.ev.from.Lo? then n.(readyA := Some(t.ev.ready)) else n.(readyB := Some(t.ev.ready));
                if n1.readyA.Some? && n1.readyB.Some? then n1.(timer := Some(Timer(ResultTimeout, t.env.now + 10_000)))
                else n1
              else if t.ev.DirectResult? then
                (if t.ev.from.Lo? then n.(resultA := Some(t.ev.success)) else n.(resultB := Some(t.ev.success)))
              else n
  {
  }

  lemma ComesIn(c: Config, before: seq<Timed>, t: Timed)
    ensures var tr, begins := before + [t], Begins(c, before, t);
            && BegunAt(c, tr) == (if begins then t.env.now else BegunAt(c, before))
            && (forall x: Side :: LastReady(c, tr, x) ==
                  if begins then None
                  else if t.ev.DirectReady? && t.ev.from == x then Some(t.ev.ready) else LastReady(c, before, x))
            && (forall x: Side :: LastResult(c, tr, x) ==
                  if begins then None
                  else if t.ev.DirectResult? && t.ev.from == x then Some(t.ev.success) else LastResult(c, before, x))
            && BothReadyAt(c, tr) ==
                 (if begins then None
                  else if t.ev.DirectReady? && LastReady(c, tr, Lo).Some? && LastReady(c, tr, Hi).Some?
                  then Some(t.env.now) else BothReadyAt(c, before))
  {
    assert (before + [t])[..|before + [t]| - 1] == before;
  }

  /** Over every run: the active negotiation holds the time it opened, the last ready message and the last result of
      either side since, and a timer of 15 s for a relay probe; for a direct one of 10 s from its opening, and of 10 s
      from each ready message once both sides are ready. */
  lemma {:induction false} ProbeTellsHistory(c: Config, tr: seq<Timed>)
    ensures Run(c, tr).neg.Some? ==> Knows(c, tr, Run(c, tr).neg.value)
  {
    hide Step, LastReady, LastResult, BegunAt, BothReadyAt, Knows;
    if tr != [] {
      var before, t := tr[..|tr| - 1], tr[|tr| - 1];
      ProbeTellsHistory(c, before);
      assert tr == before + [t];
      RunNext(c, tr);
      if Run(c, tr).neg.Some? { KnowsNext(c, before, t); }
    }
  }

  lemma KnowsNext(c: Config, before: seq<Timed>, t: Timed)
    requires Run(c, before).neg.Some? ==> Knows(c, before, Run(c, before).neg.value)
    requires Step(c, Run(c, before), t).neg.Some?
    ensures Knows(c, before + [t], Step(c, Run(c, before), t).neg.value)
  {
    hide Step, Run, LastReady, LastResult, BegunAt, BothReadyAt;
    ComesIn(c, before, t);
    if Run(c, before).neg.None? { BegunNeg(c, Run(c, before), t); } else { KeptNeg(c, Run(c, before), t); }
  }

  // ----- verdicts -----

  /** A relay probe is decided by what its client reports, a direct one by the last results of both sides, or, for
      staying, by its timer. */
  lemma {:induction false} VerdictsIff(c: Config, tr: seq<Timed>, t: Timed)
    ensures var n, s' := Run(c, tr).neg, Step(c, Run(c, tr), t);
            var lo, hi := LastResult(c, tr + [t], Lo), LastResult(c, tr + [t], Hi);
            var direct, relay := n.Some? && n.value.DirectProbe?, n.Some? && n.value.RelayProbe?;
            && (Decides(Run(c, tr), s', SwitchRelay) <==> relay && t.ev == RelayResult(n.value.server.Other(), true))
            && (Decides(Run(c, tr), s', SwitchDirect) <==>
                  direct && t.ev.DirectResult? && lo == Some(true) && hi == Some(true))
            && (Decides(Run(c, tr), s', Stay) <==>
                  || (relay && t.ev == RelayResult(n.value.server.Other(), false))
                  || (direct && t.ev.DirectResult? && lo.Some? && hi.Some? && !(lo.value && hi.value))
                  || (direct && t.ev.TimerFires?
                      && var since := if BothReadyAt(c, tr).Some? then BothReadyAt(c, tr).value else BegunAt(c, tr);
                         t.env.now >= since + 10_000))
  {
    hide Step, Run, LastResult, BothReadyAt, BegunAt, Decides, LastReady;
    ProbeTellsHistory(c, tr);
    SoundRun(c, tr);
    ComesIn(c, tr, t);
    DecidesWhen(c, Run(c, tr), t);
  }

  lemma DecidesWhen(c: Config, s: PairState, t: Timed)
    requires Sound(s)
    ensures var n, s' := s.neg, Step(c, s, t);
            var direct, relay := n.Some? && n.value.DirectProbe?, n.Some? && n.value.RelayProbe?;
            && (Decides(s, s', SwitchRelay) <==> relay && t.ev == RelayResult(n.value.server.Other(), true))
            && (Decides(s, s', SwitchDirect) <==>
                  direct && t.ev.DirectResult? && t.ev.success
                  && (if t.ev.from.Lo? then n.value.resultB else n.value.resultA) == Some(true))
            && (Decides(s, s', Stay) <==>
                  || (relay && t.ev == RelayResult(n.value.server.Other(), false))
                  || (direct && t.ev.DirectResult?
                      && (if t.ev.from.Lo? then n.value.resultB else n.value.resultA).Some?
                      && !(t.ev.success && (if t.ev.from.Lo? then n.value.resultB else n.value.resultA).value))
                  || (direct && t.ev.TimerFires? && t.env.now >= n.value.timer.value.deadline))
  {
    hide Step, Decides, Makes;
    var s' := Step(c, s, t);
    var m := MoveOf(s, s', t);
    StepMakesMove(c, s, t);
    VerdictMoves(s, s', m);
    hide MoveOf;
    EndsBy(c, s, t);
  }

  lemma VerdictMoves(s: PairState, s': PairState, m: Move)
    requires Makes(s, s', m)
    ensures forall a :: Decides(s, s', a) <==> m == Ends(Verdict(a))
  {
    hide Makes, Added;
    AddedByMove(s, s', m);
    forall a ensures Decides(s, s', a) <==> m == Ends(Verdict(a)) {
      VerdictEndsSession(s, s', m, a);
      if m == Ends(Verdict(a)) { assert Added(s, s')[0].body == ProbeVerdict(a); }
    }
  }

  /** Which events make the move of a verdict. */
  lemma EndsBy(c: Config, s: PairState, t: Timed)
    requires Sound(s)
    ensures var n, m := s.neg, MoveOf(s, Step(c, s, t), t);
            var direct, relay := n.Some? && n.value.DirectProbe?, n.Some? && n.value.RelayProbe?;
            && (m == Ends(Verdict(SwitchRelay)) <==> relay && t.ev == RelayResult(n.value.server.Other(), true))
            && (m == Ends(Verdict(SwitchDirect)) <==>
                  direct && t.ev.DirectResult? && t.ev.success
                  && (if t.ev.from.Lo? then n.value.resultB else n.value.resultA) == Some(true))
            && (m == Ends(Verdict(Stay)) <==>
                  || (relay && t.ev == RelayResult(n.value.server.Other(), false))
                  || (direct && t.ev.DirectResult?
                      && (if t.ev.from.Lo? then n.value.resultB else n.value.resultA).Some?
                      && !(t.ev.success && (if t.ev.from.Lo? then n.value.resultB else n.value.resultA).value))
                  || (direct && t.ev.TimerFires? && t.env.now >= n.value.timer.value.deadline))
  {
    if t.ev.DirectResult? {
      ByResults(c, s, t);
    } else if t.ev.RelayResult? {
      ByClient(c, s, t);
    } else if t.ev.TimerFires? {
      ByTimer(c, s, t);
    } else {
      hide Step;
    }
  }

  lemma ByResults(c: Config, s: PairState, t: Timed)
    requires Sound(s) && t.ev.DirectResult?
    ensures var n, m := s.neg, MoveOf(s, Step(c, s, t), t);
            if n.None? || n.value.RelayProbe? then m == Quiet
            else
              var other := if t.ev.from.Lo? then n.value.resultB else n.value.resultA;
              m == if other.None? then Quiet
                   else Ends(Verdict(if t.ev.success && other.value then SwitchDirect else Stay))
  {
  }

  lemma ByClient(c: Config, s: PairState, t: Timed)
    requires Sound(s) && t.ev.RelayResult?
    ensures MoveOf(s, Step(c, s, t), t)
            == if s.neg.Some? && s.neg.value.RelayProbe? && t.ev.from == s.neg.value.server.Other()
               then Ends(Verdict(if t.ev.success then SwitchRelay else Stay)) else Quiet
  {
  }

  lemma ByTimer(c: Config, s: PairState, t: Timed)
    requires Sound(s) && t.ev.TimerFires?
    ensures MoveOf(s, Step(c, s, t), t)
            == if s.neg.None? || t.env.now < s.neg.value.timer.value.deadline then Quiet
               else if s.neg.value.RelayProbe? then Ends(AbortBoth(TimedOut)) else Ends(Verdict(Stay))
  {
  }

  // ----- answers to ready messages -----

  /** A ready message that finds both sides ready is answered to both: with what the other last announced if both peers
      are in the table, else with the end. */
  lemma {:induction false} ReadyIsAnswered(c: Config, tr: seq<Timed>, t: Timed)
    requires Run(c, tr).neg.Some? && Run(c, tr).neg.value.DirectProbe? && t.ev.DirectReady?
    ensures var s, s' := Run(c, tr), Step(c, Run(c, tr), t);
            var lo, hi := LastReady(c, tr + [t], Lo), LastReady(c, tr + [t], Hi);
            if lo.None? || hi.None? then s'.neg.Some? && Added(s, s') == []
            else if t.env.infoLo.Some? && t.env.infoHi.Some? then
              var toLo := ProbeDirectGo(t.env.infoHi.value.publicIp, hi.value.udpPort, hi.value.nonce);
              var toHi := ProbeDirectGo(t.env.infoLo.value.publicIp, lo.value.udpPort, lo.value.nonce);
              s'.neg.Some? && Added(s, s') == [Sent(Lo, toLo, true), Sent(Hi, toHi, true)]
            else
              && s'.neg.None?
              && Added(s, s') == [Sent(Lo, NegotiateAbort(TimedOut), true), Sent(Hi, NegotiateAbort(TimedOut), true)]
  {
    hide Step, Run, LastReady, BegunAt, BothReadyAt, LastResult;
    ProbeTellsHistory(c, tr);
    SoundRun(c, tr);
    ComesIn(c, tr, t);
    AnswersReady(c, Run(c, tr), t);
  }

  lemma AnswersReady(c: Config, s: PairState, t: Timed)
    requires Sound(s) && s.neg.Some? && s.neg.value.DirectProbe? && t.ev.DirectReady?
    ensures var s' := Step(c, s, t);
            var lo := if t.ev.from.Lo? then Some(t.ev.ready) else s.neg.value.readyA;
            var hi := if t.ev.from.Lo? then s.neg.value.readyB else Some(t.ev.ready);
            if lo.None? || hi.None? then s'.neg.Some? && Added(s, s') == []
            else if t.env.infoLo.Some? && t.env.infoHi.Some? then
              var toLo := ProbeDirectGo(t.env.infoHi.value.publicIp, hi.value.udpPort, hi.value.nonce);
              var toHi := ProbeDirectGo(t.env.infoLo.value.publicIp, lo.value.udpPort, lo.value.nonce);
              s'.neg.Some? && Added(s, s') == [Sent(Lo, toLo, true), Sent(Hi, toHi, true)]
            else
              && s'.neg.None?
              && Added(s, s') == [Sent(Lo, NegotiateAbort(TimedOut), true), Sent(Hi, NegotiateAbort(TimedOut), true)]
  {
    var s' := Step(c, s, t);
    AbortMove(s, TimedOut);
    var lo := if t.ev.from.Lo? then Some(t.ev.ready) else s.neg.value.readyA;
    var hi := if t.ev.from.Lo? then s.neg.value.readyB else Some(t.ev.ready);
    if lo.Some? && hi.Some? && t.env.infoLo.Some? && t.env.infoHi.Some? {
      var toLo := ProbeDirectGo(t.env.infoHi.value.publicIp, hi.value.udpPort, hi.value.nonce);
      var toHi := ProbeDirectGo(t.env.infoLo.value.publicIp, lo.value.udpPort, lo.value.nonce);
      assert s'.log == s.log + [Sent(Lo, toLo, true), Sent(Hi, toHi, true)];
    }
  }

  /** The server node's ready message is answered to the client, if both peers are in the table, with what it announced
      and the two keys; else with the end, to both. Any other ready message is not answered. */
  lemma RelayReadyIsAnswered(c: Config, s: PairState, t: Timed)
    requires Sound(s) && s.neg.Some? && s.neg.value.RelayProbe? && t.ev.RelayReady?
    ensures var s', x := Step(c, s, t), s.neg.value.server;
            if t.ev.from != x then s' == s
            else if t.env.infoLo.Some? && t.env.infoHi.Some? then
              var client := if x.Lo? then t.env.infoHi else t.env.infoLo;
              var server := if x.Lo? then t.env.infoLo else t.env.infoHi;
              && s'.neg == s.neg
              && Added(s, s') == [Sent(x.Other(), ProbeRelayCheck(t.ev.meshIpv4, t.ev.tcpPort, t.ev.nonce,
                                                                  client.value.pubkey, server.value.pubkey), true)]
            else
              && s'.neg.None?
              && Added(s, s') == [Sent(Lo, NegotiateAbort(TimedOut), true), Sent(Hi, NegotiateAbort(TimedOut), true)]
  {
    AbortMove(s, TimedOut);
  }
}

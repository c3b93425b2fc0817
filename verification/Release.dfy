/** What `auto` gives back: a forced pair negotiates again, on either path, with no further command. */
module Release {
  import opened Common
  import opened PairMachine
  import opened Backoffs
  import opened ForcedPairs
  import opened Openings

  /** No command, and no end deleted. */
  predicate Untouched(tr: seq<Timed>) {
    forall i :: 0 <= i < |tr| ==> !tr[i].ev.Force? && !tr[i].ev.Cascade?
  }

  /** No restart or removal either: the record stays. */
  predicate Undisturbed(tr: seq<Timed>) {
    Untouched(tr) && KeepsRecord(tr)
  }

  /** Nothing is forced, in the record or the tables. */
  predicate Unforced(s: PairState) {
    && s.health.Some? && s.health.value.forced.None?
    && (s.rowLo.Some? ==> s.rowLo.value.forced.None?) && (s.rowHi.Some? ==> s.rowHi.value.forced.None?)
  }

  lemma AutoUnforces(c: Config, s: PairState, auto: Timed)
    requires auto.ev.Force? && auto.ev.target.None?
    ensures var s' := Step(c, s, auto);
            Unforced(s') && s'.neg.None? && (s'.rowLo.Some? <==> s.rowLo.Some?) && (s'.rowHi.Some? <==> s.rowHi.Some?)
  {
  }

  // ----- a direct probe -----

  function Returning(e: Env): seq<Timed> {
    [Timed(e, Connect(Lo)), Timed(e, Connect(Hi))]
  }

  function Relayed(e: Env): seq<Timed> {
    [Timed(e, Upsert(Lo, RelayPath)), Timed(e, Upsert(Hi, RelayPath))]
  }

  lemma BothConnect(c: Config, s: PairState, e: Env)
    ensures RunFrom(c, s, Returning(e)) == s.(connLo := true, connHi := true)
  {
    RunTwo(c, s, Returning(e)[0], Returning(e)[1]);
  }

  lemma BothRelayed(c: Config, s: PairState, e: Env)
    requires Unforced(s)
    ensures RunFrom(c, s, Relayed(e)) == s.(rowLo := Some(Row(RelayPath, None)), rowHi := Some(Row(RelayPath, None)))
  {
    RunTwo(c, s, Relayed(e)[0], Relayed(e)[1]);
  }

  lemma OpensDirect(c: Config, s: PairState, e: Env) returns (tr: seq<Timed>)
    requires Unforced(s) && s.neg.None? && e.relayLo
    ensures Undisturbed(tr) && RunFrom(c, s, tr).neg.Some? && RunFrom(c, s, tr).neg.value.DirectProbe?
  {
    hide RunFrom, Step;
    var e' := e.(now := s.health.value.lastDirectProbeAt + s.health.value.backoff);
    BothConnect(c, s, e');
    var s1 := RunFrom(c, s, Returning(e'));
    BothRelayed(c, s1, e');
    var s2 := RunFrom(c, s1, Relayed(e'));
    OpensDirectWhen(c, s2, Timed(e', CheckDirect));
    RunOne(c, s2, Timed(e', CheckDirect));
    RunFromAppend(c, s1, Relayed(e'), [Timed(e', CheckDirect)]);
    RunFromAppend(c, s, Returning(e'), Relayed(e') + [Timed(e', CheckDirect)]);
    tr := Returning(e') + (Relayed(e') + [Timed(e', CheckDirect)]);
  }

  // ----- a relay probe -----

  /** Nothing bars a relay probe, both sides have joined by `upto`, and have at least n dead reports in a row. */
  predicate Waiting(s: PairState, upto: nat, n: nat) {
    && s.BothConnected() && Unforced(s)
    && s.health.value.joinedA.Some? && s.health.value.joinedA.value <= upto
    && s.health.value.joinedB.Some? && s.health.value.joinedB.value <= upto
    && s.health.value.streakAB >= n && s.health.value.streakBA >= n
  }

  lemma OneDead(c: Config, s: PairState, e: Env, x: Side, upto: nat, n: nat)
    requires Waiting(s, upto, n) && e.now >= upto + c.grace && e.relayLo && e.relayHi
    ensures var s' := Step(c, s, Timed(e, Report(x, DirectPath, false)));
            && Waiting(s', upto, n) && s'.health.value.Streak(x) >= n + 1
            && s'.health.value.Streak(x.Other()) == s.health.value.Streak(x.Other())
            && (s'.health.value.streakAB >= 3 && s'.health.value.streakBA >= 3 ==> s'.neg.Some?)
            && (s.neg.Some? ==> s'.neg == s.neg) && (s.neg.None? && s'.neg.Some? ==> s'.neg.value.RelayProbe?)
  {
    DeadReport(c, s, e, x);
  }

  lemma DeadRound(c: Config, s: PairState, e: Env, upto: nat, n: nat)
    requires Waiting(s, upto, n) && e.now >= upto + c.grace && e.relayLo && e.relayHi
    requires s.neg.Some? ==> s.neg.value.RelayProbe?
    ensures var s' := RunFrom(c, s, Round(e));
            && Waiting(s', upto, n + 1) && (n + 1 >= 3 ==> s'.neg.Some?)
            && (s'.neg.Some? ==> s'.neg.value.RelayProbe?)
  {
    hide RunFrom, Step;
    RunTwo(c, s, Round(e)[0], Round(e)[1]);
    OneDead(c, s, e, Lo, upto, n);
    OneDead(c, Step(c, s, Round(e)[0]), e, Hi, upto, n);
  }

  lemma OneJoins(c: Config, s: PairState, e: Env, x: Side)
    requires s.BothConnected() && Unforced(s) && (s.neg.Some? ==> s.neg.value.RelayProbe?)
    requires s.health.value.Joined(x).Some? ==> s.health.value.Joined(x).value <= e.now
    ensures var s' := Step(c, s, Timed(e, Report(x, DirectPath, false)));
            && s'.BothConnected() && Unforced(s') && (s'.neg.Some? ==> s'.neg.value.RelayProbe?)
            && s'.health.value.Joined(x).Some? && s'.health.value.Joined(x).value <= e.now
            && s'.health.value.Joined(x.Other()) == s.health.value.Joined(x.Other())
  {
  }

  /** After a report from either side both have joined. */
  lemma JoinRound(c: Config, s: PairState, e: Env)
    requires s.BothConnected() && Unforced(s) && s.neg.None?
    requires s.health.value.joinedA.Some? ==> s.health.value.joinedA.value <= e.now
    requires s.health.value.joinedB.Some? ==> s.health.value.joinedB.value <= e.now
    ensures var s' := RunFrom(c, s, Round(e)); Waiting(s', e.now, 0) && (s'.neg.Some? ==> s'.neg.value.RelayProbe?)
  {
    hide RunFrom, Step;
    RunTwo(c, s, Round(e)[0], Round(e)[1]);
    OneJoins(c, s, e, Lo);
    OneJoins(c, Step(c, s, Round(e)[0]), e, Hi);
  }

  lemma ThreeRounds(c: Config, s: PairState, e: Env, upto: nat)
    requires Waiting(s, upto, 0) && e.now >= upto + c.grace && e.relayLo && e.relayHi
    requires s.neg.Some? ==> s.neg.value.RelayProbe?
    ensures var n := RunFrom(c, s, Round(e) + (Round(e) + Round(e))).neg; n.Some? && n.value.RelayProbe?
  {
    hide RunFrom, Waiting;
    var s1 := RunFrom(c, s, Round(e));
    var s2 := RunFrom(c, s1, Round(e));
    DeadRound(c, s, e, upto, 0);
    DeadRound(c, s1, e, upto, 1);
    DeadRound(c, s2, e, upto, 2);
    RunFromAppend(c, s1, Round(e), Round(e));
    RunFromAppend(c, s, Round(e), Round(e) + Round(e));
  }

  lemma OpensRelay(c: Config, s: PairState, e: Env) returns (tr: seq<Timed>)
    requires Unforced(s) && s.neg.None? && e.relayLo && e.relayHi
    ensures Undisturbed(tr) && RunFrom(c, s, tr).neg.Some? && RunFrom(c, s, tr).neg.value.RelayProbe?
  {
    hide RunFrom, Step;
    var h := s.health.value;
    var a, b := if h.joinedA.Some? then h.joinedA.value else 0, if h.joinedB.Some? then h.joinedB.value else 0;
    var e1 := e.(now := a + b);
    var e2 := e.(now := a + b + c.grace);
    BothConnect(c, s, e1);
    var s1 := RunFrom(c, s, Returning(e1));
    JoinRound(c, s1, e1);
    var s2 := RunFrom(c, s1, Round(e1));
    ThreeRounds(c, s2, e2, a + b);
    var rounds := Round(e2) + (Round(e2) + Round(e2));
    RunFromAppend(c, s1, Round(e1), rounds);
    RunFromAppend(c, s, Returning(e1), Round(e1) + rounds);
    tr := Returning(e1) + (Round(e1) + rounds);
  }

  // ----- exactly auto -----

  /** After `auto` the pair can be opened a relay probe, and a direct one, without a further command, a restart or a
      removal; whatever it was forced to before, whatever rows it has, and whichever of them a query shows. */
  lemma AutoReleases(c: Config, s: PairState, auto: Timed, e: Env) returns (relay: seq<Timed>, direct: seq<Timed>)
    requires auto.ev.Force? && auto.ev.target.None? && e.relayLo && e.relayHi
    ensures Undisturbed(relay) && Undisturbed(direct)
    ensures var n := RunFrom(c, Step(c, s, auto), relay).neg; n.Some? && n.value.RelayProbe?
    ensures var n := RunFrom(c, Step(c, s, auto), direct).neg; n.Some? && n.value.DirectProbe?
  {
    hide RunFrom, Step;
    AutoUnforces(c, s, auto);
    relay := OpensRelay(c, Step(c, s, auto), e);
    direct := OpensDirect(c, Step(c, s, auto), e);
  }

  /** With both rows in the table: after a command the pair can come to negotiate again without a further one or a
      deletion if and only if the command was `auto`. */
  lemma ReleasedIffAuto(c: Config, s: PairState, force: Timed)
    requires force.ev.Force? && s.rowLo.Some? && s.rowHi.Some?
    ensures (exists tr :: Untouched(tr) && RunFrom(c, Step(c, s, force), tr).neg.Some?) <==> force.ev.target.None?
  {
    hide RunFrom, Step;
    if force.ev.target.None? {
      var relay, direct := AutoReleases(c, s, force, EscapeEnv(0, Lo));
    } else {
      ForcedStaysOutIffBothRows(c, s, force);
      forall tr | Untouched(tr) ensures RunFrom(c, Step(c, s, force), tr).neg.None? {
        assert Unbroken(tr);
      }
    }
  }
}

/** A forced pair stays out of negotiation, and exactly when. */
module ForcedPairs {
  import opened Common
  import opened PairMachine

  /** Neither `auto` nor the deletion of an end. Restarts, reconnects, reports, sweeps, failed reaper
      passes and further force commands may all occur. */
  predicate Unbroken(tr: seq<Timed>) {
    forall i :: 0 <= i < |tr| ==> !(tr[i].ev.Force? && tr[i].ev.target.None?) && !tr[i].ev.Cascade?
  }

  /** After the command, no continuation without `auto` or deletion ever has an active negotiation. */
  ghost predicate StaysOut(c: Config, s: PairState, force: Timed) {
    forall tr: seq<Timed> :: Unbroken(tr) ==> RunFrom(c, Step(c, s, force), tr).neg.None?
  }

  predicate Blocked(s: PairState) {
    && s.neg.None?
    && s.rowLo.Some? && s.rowLo.value.forced.Some?
    && s.rowHi.Some? && s.rowHi.value.forced.Some?
  }

  lemma BlockedStep(c: Config, s: PairState, t: Timed)
    requires Blocked(s) && !(t.ev.Force? && t.ev.target.None?) && !t.ev.Cascade?
    ensures Blocked(Step(c, s, t))
  {
  }

  lemma {:induction false} BlockedRun(c: Config, s: PairState, tr: seq<Timed>)
    requires Blocked(s) && Unbroken(tr)
    ensures Blocked(RunFrom(c, s, tr))
  {
    if tr != [] {
      BlockedRun(c, s, tr[..|tr| - 1]);
      BlockedStep(c, RunFrom(c, s, tr[..|tr| - 1]), tr[|tr| - 1]);
    }
  }

  // ----- a missing row lets a restarted server forget -----

  lemma RunTwo(c: Config, s: PairState, a: Timed, b: Timed)
    ensures RunFrom(c, s, [a, b]) == Step(c, Step(c, s, a), b)
  {
    assert [a, b] == [a] + [b];
    RunFromAppend(c, s, [a], [b]);
    RunOne(c, s, a);
    RunOne(c, RunFrom(c, s, [a]), b);
  }

  /** A dead report from each side at one time. */
  function Round(e: Env): seq<Timed> {
    [Timed(e, Report(Lo, DirectPath, false)), Timed(e, Report(Hi, DirectPath, false))]
  }

  /** Both sides have joined at `since` and have at least n dead reports in a row; nothing bars a probe. */
  predicate Pending(s: PairState, e: Env, since: nat, n: nat) {
    && s.BothConnected() && s.health.Some? && s.health.value.forced.None? && DbForced(e, s).None?
    && s.health.value.joinedA == Some(since) && s.health.value.joinedB == Some(since)
    && s.health.value.streakAB >= n && s.health.value.streakBA >= n
  }

  lemma DeadReport(c: Config, s: PairState, e: Env, x: Side)
    requires s.BothConnected() && s.health.Some? && s.health.value.forced.None? && DbForced(e, s).None?
    requires s.health.value.Joined(x).Some? && e.now >= s.health.value.Joined(x).value + c.grace && e.relayLo
    requires e.relayHi
    ensures var s' := Step(c, s, Timed(e, Report(x, DirectPath, false)));
            && s' == s.(health := Some(s.health.value.SetStreak(x, s.health.value.Streak(x) + 1)), neg := s'.neg,
                        log := s'.log)
            && (s.neg.Some? ==> s'.neg.Some?)
            && (s'.health.value.streakAB >= STREAK_THRESHOLD && s'.health.value.streakBA >= STREAK_THRESHOLD ==>
                s'.neg.Some?)
  {
  }

  lemma RoundCounts(c: Config, s: PairState, e: Env, since: nat, n: nat)
    requires Pending(s, e, since, n) && e.now >= since + c.grace && e.relayLo && e.relayHi
    ensures var s' := RunFrom(c, s, Round(e));
            Pending(s', e, since, n + 1) && (n + 1 >= STREAK_THRESHOLD ==> s'.neg.Some?)
  {
    RunTwo(c, s, Round(e)[0], Round(e)[1]);
    DeadReport(c, s, e, Lo);
    DeadReport(c, Step(c, s, Round(e)[0]), e, Hi);
  }

  lemma JoinCounts(c: Config, s: PairState, e: Env)
    requires s.BothConnected() && s.health.None? && DbForced(e, s).None? && e.now > 0
    ensures Pending(RunFrom(c, s, Round(e)), e, e.now, 0)
  {
    RunTwo(c, s, Round(e)[0], Round(e)[1]);
  }

  /** The environment of the escape: the unforced row is the one the query returns. */
  function EscapeEnv(now: nat, missing: Side): Env {
    Env(now, Some(Info("", "")), Some(Info("", "")), true, true, missing.Lo?)
  }

  /** Restart, reconnect, a first report on the missing row, then dead reports past the grace period. */
  function Escape(c: Config, now: nat, missing: Side): seq<Timed> {
    var e := EscapeEnv(now, missing);
    var later := EscapeEnv(now + c.grace, missing);
    [Timed(e, Restart), Timed(e, Upsert(missing, DirectPath))]
    + ([Timed(e, Connect(Lo)), Timed(e, Connect(Hi))]
       + (Round(e) + (Round(later) + (Round(later) + Round(later)))))
  }

  lemma EscapeBoots(c: Config, s: PairState, now: nat, missing: Side)
    requires now > 0 && (if missing.Lo? then s.rowLo else s.rowHi).None?
    ensures var e := EscapeEnv(now, missing);
            var s1 := RunFrom(c, s, [Timed(e, Restart), Timed(e, Upsert(missing, DirectPath))]);
            var s2 := RunFrom(c, s1, [Timed(e, Connect(Lo)), Timed(e, Connect(Hi))]);
            Pending(RunFrom(c, s2, Round(e)), EscapeEnv(now + c.grace, missing), now, 0)
  {
    var e := EscapeEnv(now, missing);
    RunTwo(c, s, Timed(e, Restart), Timed(e, Upsert(missing, DirectPath)));
    var s1 := RunFrom(c, s, [Timed(e, Restart), Timed(e, Upsert(missing, DirectPath))]);
    RunTwo(c, s1, Timed(e, Connect(Lo)), Timed(e, Connect(Hi)));
    JoinCounts(c, RunFrom(c, s1, [Timed(e, Connect(Lo)), Timed(e, Connect(Hi))]), e);
  }

  lemma ThreeRoundsNegotiate(c: Config, s: PairState, e: Env, since: nat)
    requires Pending(s, e, since, 0) && e.now >= since + c.grace && e.relayLo && e.relayHi
    ensures RunFrom(c, s, Round(e) + (Round(e) + Round(e))).neg.Some?
  {
    var s1 := RunFrom(c, s, Round(e));
    var s2 := RunFrom(c, s1, Round(e));
    RoundCounts(c, s, e, since, 0);
    RoundCounts(c, s1, e, since, 1);
    RoundCounts(c, s2, e, since, 2);
    RunFromAppend(c, s1, Round(e), Round(e));
    RunFromAppend(c, s, Round(e), Round(e) + Round(e));
  }

  lemma RunInFour(c: Config, s: PairState, a: seq<Timed>, b: seq<Timed>, d: seq<Timed>, r: seq<Timed>)
    ensures RunFrom(c, s, a + (b + (d + r))) == RunFrom(c, RunFrom(c, RunFrom(c, RunFrom(c, s, a), b), d), r)
  {
    RunFromAppend(c, s, a, b + (d + r));
    RunFromAppend(c, RunFrom(c, s, a), b, d + r);
    RunFromAppend(c, RunFrom(c, RunFrom(c, s, a), b), d, r);
  }

  lemma EscapeUnbroken(c: Config, now: nat, missing: Side)
    ensures Unbroken(Escape(c, now, missing))
  {
  }

  lemma EscapeNegotiates(c: Config, s: PairState, now: nat, missing: Side)
    requires now > 0 && (if missing.Lo? then s.rowLo else s.rowHi).None?
    ensures RunFrom(c, s, Escape(c, now, missing)).neg.Some?
  {
    hide RunFrom, Step;
    var e := EscapeEnv(now, missing);
    var later := EscapeEnv(now + c.grace, missing);
    var boot := [Timed(e, Restart), Timed(e, Upsert(missing, DirectPath))];
    var link := [Timed(e, Connect(Lo)), Timed(e, Connect(Hi))];
    EscapeBoots(c, s, now, missing);
    ThreeRoundsNegotiate(c, RunFrom(c, RunFrom(c, RunFrom(c, s, boot), link), Round(e)), later, now);
    RunInFour(c, s, boot, link, Round(e), Round(later) + (Round(later) + Round(later)));
  }

  /** Forced pairs stay out of negotiation until `auto`, even across restarts, if and only if both link rows
      exist when the command is given. */
  lemma ForcedStaysOutIffBothRows(c: Config, s: PairState, force: Timed)
    requires force.ev.Force? && force.ev.target.Some?
    ensures StaysOut(c, s, force) <==> s.rowLo.Some? && s.rowHi.Some?
  {
    var s' := Step(c, s, force);
    if s.rowLo.Some? && s.rowHi.Some? {
      forall tr: seq<Timed> | Unbroken(tr) ensures RunFrom(c, s', tr).neg.None? {
        BlockedRun(c, s', tr);
      }
    } else {
      var missing := if s.rowLo.None? then Lo else Hi;
      EscapeUnbroken(c, force.env.now + 1, missing);
      EscapeNegotiates(c, s', force.env.now + 1, missing);
    }
  }
}

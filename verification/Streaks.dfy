/** The dead streaks as a function of the history of reports. */
module Streaks {
  import opened Common
  import opened PairMachine

  /** When a side first reported since the pair's health record was last dropped. */
  function JoinedAt(tr: seq<Timed>, x: Side): Option<nat> {
    if tr == [] then None
    else
      var before := JoinedAt(tr[..|tr| - 1], x);
      var t := tr[|tr| - 1];
      if t.ev.Restart? || t.ev.Purge? then None
      else if t.ev.Report? && t.ev.from == x && before.None? then Some(t.env.now)
      else before
  }

  /** A report counts when its side is past the grace period and the path in use is the direct one. */
  predicate Counts(c: Config, before: seq<Timed>, t: Timed, x: Side)
  {
    && t.ev.Report? && t.ev.from == x && t.ev.mode.DirectPath?
    && (var j := JoinedAt(before + [t], x); j.Some? && j.value != 0 ==> t.env.now - j.value >= c.grace)
  }

  /** What sets both streaks back: a dropped record, an admin command, the verdict of a relay probe. */
  predicate Resets(c: Config, before: seq<Timed>, t: Timed) {
    || t.ev.Restart? || t.ev.Purge? || t.ev.Force?
    || (t.ev.RelayResult? && var n := Run(c, before).neg; n.Some? && n.value.RelayProbe? && n.value.server != t.ev.from)
  }

  /** The counted reports of a side since the last reset, as alive (true) or dead (false). */
  function Outcomes(c: Config, tr: seq<Timed>, x: Side): seq<bool> {
    if tr == [] then []
    else
      var before := tr[..|tr| - 1];
      var t := tr[|tr| - 1];
      if Resets(c, before, t) then []
      else Outcomes(c, before, x) + (if Counts(c, before, t, x) then [t.ev.rxAlive] else [])
  }

  /** n is the length of the longest all-dead suffix of o. */
  predicate TrailingDead(o: seq<bool>, n: nat) {
    && n <= |o|
    && (forall i :: |o| - n <= i < |o| ==> !o[i])
    && (n < |o| ==> o[|o| - n - 1])
  }

  lemma TrailingDeadUnique(o: seq<bool>, n: nat, m: nat)
    requires TrailingDead(o, n) && n < m <= |o|
    ensures !TrailingDead(o, m)
  {
    assert o[|o| - n - 1];
  }

  predicate Tracks(c: Config, tr: seq<Timed>, s: PairState, x: Side) {
    && (s.health.None? ==> JoinedAt(tr, x).None? && Outcomes(c, tr, x) == [])
    && (s.health.Some? ==>
          && s.health.value.Joined(x) == JoinedAt(tr, x)
          && TrailingDead(Outcomes(c, tr, x), s.health.value.Streak(x)))
  }

  /** A relay probe ended by its client's result. */
  predicate EndsRelayProbe(s: PairState, ev: Event) {
    ev.RelayResult? && s.neg.Some? && s.neg.value.RelayProbe? && s.neg.value.server != ev.from
  }

  /** The step keeps the side's join time and streak, or only clears the streak. */
  predicate Keeps(h: Option<Health>, h': Option<Health>, x: Side, cleared: bool) {
    && (h.None? <==> h'.None?)
    && (h.Some? ==>
          && h'.value.Joined(x) == h.value.Joined(x)
          && h'.value.Streak(x) == if cleared then 0 else h.value.Streak(x))
  }

  lemma RecordKeptByTimer(c: Config, s: PairState, t: Timed, x: Side)
    requires t.ev.TimerFires?
    ensures Keeps(s.health, Step(c, s, t).health, x, false)
  {
    hide Abort;
    AbortKeepsRecord(s, TimedOut);
    ToConnectedKeepsRecord(s, ProbeVerdict(Stay));
    hide SendBothIfConnected;
  }

  lemma ToConnectedKeepsRecord(s: PairState, body: Body)
    ensures SendBothIfConnected(s, body).health == s.health
  {
  }

  lemma AbortKeepsRecord(s: PairState, reason: Reason)
    ensures Abort(s, reason).health == s.health
  {
  }

  lemma RecordKeptByDirectProbe(c: Config, s: PairState, t: Timed, x: Side)
    requires t.ev.DirectResult? || t.ev.DirectReady?
    ensures Keeps(s.health, Step(c, s, t).health, x, false)
  {
  }

  /** What an event other than a report, a command or a drop does to the record. */
  lemma RecordKept(c: Config, s: PairState, t: Timed, x: Side)
    requires !t.ev.Report? && !t.ev.Restart? && !t.ev.Purge? && !t.ev.Force?
    ensures Keeps(s.health, Step(c, s, t).health, x, EndsRelayProbe(s, t.ev))
  {
    if t.ev.TimerFires? {
      RecordKeptByTimer(c, s, t, x);
    } else if t.ev.DirectResult? || t.ev.DirectReady? {
      RecordKeptByDirectProbe(c, s, t, x);
    }
  }

  lemma RecordForced(c: Config, s: PairState, t: Timed, x: Side)
    requires t.ev.Force?
    ensures var h, h' := s.health, Step(c, s, t).health;
            && h'.Some? && h'.value.Streak(x) == 0
            && h'.value.Joined(x) == if h.Some? then h.value.Joined(x) else None
  {
  }

  lemma RecordAfterReport(c: Config, s: PairState, t: Timed, x: Side)
    requires t.ev.Report?
    ensures var h, h' := HealthOf(c, s), Step(c, s, t).health;
            && h'.Some?
            && h'.value.Joined(x) == (if t.ev.from == x then h.Join(x, t.env.now) else h).Joined(x)
            && h'.value.Streak(x) ==
               if t.ev.from != x || t.ev.mode.RelayPath? || InGrace(c, h.Join(x, t.env.now), x, t.env.now)
                   then h.Streak(x)
               else if t.ev.rxAlive then 0 else h.Streak(x) + 1
  {
  }

  lemma RecordDropped(c: Config, s: PairState, t: Timed)
    requires t.ev.Restart? || t.ev.Purge?
    ensures Step(c, s, t).health.None?
  {
  }

  lemma HistoryNext(c: Config, before: seq<Timed>, t: Timed, x: Side)
    ensures JoinedAt(before + [t], x)
            == if t.ev.Restart? || t.ev.Purge? then None
               else if t.ev.Report? && t.ev.from == x && JoinedAt(before, x).None? then Some(t.env.now)
               else JoinedAt(before, x)
    ensures Outcomes(c, before + [t], x)
            == if Resets(c, before, t) then []
               else if Counts(c, before, t, x) then Outcomes(c, before, x) + [t.ev.rxAlive] else Outcomes(c, before, x)
  {
    hide Resets, Counts;
    assert (before + [t])[..|before + [t]| - 1] == before;
    assert Outcomes(c, before, x) + [] == Outcomes(c, before, x);
  }

  lemma TrailingNext(o: seq<bool>, n: nat, alive: bool)
    requires TrailingDead(o, n)
    ensures TrailingDead(o + [alive], if alive then 0 else n + 1)
  {
  }

  lemma TrackStep(c: Config, before: seq<Timed>, t: Timed, s: PairState, x: Side)
    requires s == Run(c, before) && Tracks(c, before, s, x)
    ensures Tracks(c, before + [t], Step(c, s, t), x)
  {
    hide Step, RunFrom, JoinedAt, Outcomes, TrailingDead;
    HistoryNext(c, before, t, x);
    NoneTrail();
    if t.ev.Report? {
      RecordAfterReport(c, s, t, x);
      TrailingNext(Outcomes(c, before, x), HealthOf(c, s).Streak(x), t.ev.rxAlive);
    } else if t.ev.Force? {
      RecordForced(c, s, t, x);
    } else if t.ev.Restart? || t.ev.Purge? {
      RecordDropped(c, s, t);
    } else {
      RecordKept(c, s, t, x);
    }
  }

  lemma NoneTrail()
    ensures TrailingDead([], 0)
  {
  }

  /** Streak refinement: over every run each streak is the number of trailing dead reports of its side,
      counting only post-grace direct-mode reports since the last reset. */
  lemma {:induction false} StreaksAreTrailingRuns(c: Config, tr: seq<Timed>, x: Side)
    ensures Tracks(c, tr, Run(c, tr), x)
  {
    if tr != [] {
      var before := tr[..|tr| - 1];
      StreaksAreTrailingRuns(c, before, x);
      assert before + [tr[|tr| - 1]] == tr;
      TrackStep(c, before, tr[|tr| - 1], Run(c, before), x);
    }
  }

  // ----- no relay probe inside the grace period -----

  /** The clock is past 1970 and never goes back. */
  predicate Clocked(tr: seq<Timed>) {
    && (forall i :: 0 <= i < |tr| ==> tr[i].env.now > 0)
    && (forall i, j :: 0 <= i <= j < |tr| ==> tr[i].env.now <= tr[j].env.now)
  }

  predicate PastGrace(c: Config, tr: seq<Timed>, x: Side, now: nat) {
    JoinedAt(tr, x).Some? && now - JoinedAt(tr, x).value >= c.grace
  }

  lemma {:induction false} JoinedAtPositive(tr: seq<Timed>, x: Side)
    requires Clocked(tr)
    ensures JoinedAt(tr, x).Some? ==> 0 < JoinedAt(tr, x).value
  {
    if tr != [] {
      JoinedAtPositive(tr[..|tr| - 1], x);
    }
  }

  lemma {:induction false} CountedMeansPastGrace(c: Config, tr: seq<Timed>, x: Side)
    requires Clocked(tr) && tr != []
    ensures Outcomes(c, tr, x) != [] ==> PastGrace(c, tr, x, tr[|tr| - 1].env.now)
  {
    var before := tr[..|tr| - 1];
    var t := tr[|tr| - 1];
    assert before + [t] == tr;
    if Outcomes(c, tr, x) != [] {
      if Counts(c, before, t, x) {
        JoinedAtPositive(tr, x);
      } else {
        assert Outcomes(c, tr, x) == Outcomes(c, before, x);
        CountedMeansPastGrace(c, before, x);
        assert JoinedAt(tr, x) == JoinedAt(before, x);
      }
    }
  }

  /** A relay probe starts only when both sides joined at least the grace period ago and both have three
      dead reports in a row. */
  lemma {:induction false} NoRelayProbeInGrace(c: Config, tr: seq<Timed>, x: Side)
    requires Clocked(tr) && tr != []
    requires Run(c, tr[..|tr| - 1]).neg.None?
    requires Run(c, tr).neg.Some? && Run(c, tr).neg.value.RelayProbe?
    ensures PastGrace(c, tr, x, tr[|tr| - 1].env.now)
    ensures |Outcomes(c, tr, x)| >= 3
    ensures forall i :: |Outcomes(c, tr, x)| - 3 <= i < |Outcomes(c, tr, x)| ==> !Outcomes(c, tr, x)[i]
  {
    StreaksAreTrailingRuns(c, tr, x);
    var s := Run(c, tr);
    assert tr[|tr| - 1].ev.Report?;
    assert s.health.Some? && s.health.value.streakAB >= STREAK_THRESHOLD && s.health.value.streakBA >= STREAK_THRESHOLD;
    CountedMeansPastGrace(c, tr, x);
  }
}

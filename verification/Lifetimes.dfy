/** How long a negotiation can last when timers and sweeps are handled at most so late. */
module Lifetimes {
  import opened Common
  import opened PairMachine

  /** The time of the last sweep (the sweep interval starts at boot and afresh at a restart). */
  function LastSweep(boot: nat, tr: seq<Timed>): nat {
    if tr == [] then boot
    else
      var t := tr[|tr| - 1];
      if t.ev.SweepStale? || t.ev.Restart? then t.env.now else LastSweep(boot, tr[..|tr| - 1])
  }

  function Now(boot: nat, tr: seq<Timed>): nat {
    if tr == [] then boot else tr[|tr| - 1].env.now
  }

  /** The event loop is at most `late` milliseconds behind: time does not go back, no event is handled later
      than that after an armed timer's deadline, nor later than that after the next sweep is due. */
  predicate Punctual(c: Config, late: nat, boot: nat, tr: seq<Timed>) {
    tr == [] ||
    var before := tr[..|tr| - 1];
    var t := tr[|tr| - 1];
    && Punctual(c, late, boot, before)
    && t.env.now >= Now(boot, before)
    && t.env.now <= LastSweep(boot, before) + SWEEP_INTERVAL + late
    && (Run(c, before).neg.Some? && Run(c, before).neg.value.timer.Some?
        ==> t.env.now <= Run(c, before).neg.value.timer.value.deadline + late)
  }

  predicate Young(boot: nat, tr: seq<Timed>, s: PairState) {
    s.neg.Some? ==>
      && boot <= s.neg.value.startedAt <= Now(boot, tr)
      && LastSweep(boot, tr) <= s.neg.value.startedAt + STALE_AGE
      && (s.neg.value.RelayProbe? ==>
            && s.neg.value.timer.Some?
            && s.neg.value.timer.value.deadline == s.neg.value.startedAt + RELAY_PROBE_TIMEOUT)
  }

  lemma {:induction false} SweepNotLater(c: Config, late: nat, boot: nat, tr: seq<Timed>)
    requires Punctual(c, late, boot, tr)
    ensures boot <= LastSweep(boot, tr) <= Now(boot, tr)
  {
    if tr != [] {
      SweepNotLater(c, late, boot, tr[..|tr| - 1]);
    }
  }

  /** An active negotiation either goes on as it was, up to its timer, or has just started. */
  lemma NegAfter(c: Config, s: PairState, t: Timed)
    ensures var n, n' := s.neg, Step(c, s, t).neg;
            n'.Some? ==>
              || (&& n.Some? && n'.value.startedAt == n.value.startedAt
                  && (n'.value.RelayProbe? ==> n' == n)
                  && (t.ev.SweepStale? ==> t.env.now - n.value.startedAt <= STALE_AGE)
                  && !t.ev.Restart?)
              || (&& n.None? && n'.value.startedAt == t.env.now && !t.ev.SweepStale? && !t.ev.Restart?
                  && (n'.value.RelayProbe? ==>
                        n'.value.timer == Some(Timer(RelayTimeout, t.env.now + RELAY_PROBE_TIMEOUT))))
  {
    match t.ev
    case DirectReady(_, _) =>
    case DirectResult(_, _) =>
    case Report(_, _, _) =>
    case _ =>
  }

  lemma {:induction false} YoungRun(c: Config, late: nat, boot: nat, tr: seq<Timed>)
    requires Punctual(c, late, boot, tr)
    ensures Young(boot, tr, Run(c, tr))
  {
    if tr != [] {
      var before := tr[..|tr| - 1];
      YoungRun(c, late, boot, before);
      SweepNotLater(c, late, boot, before);
      NegAfter(c, Run(c, before), tr[|tr| - 1]);
    }
  }

  /** The same read at the last event: what is active then is as young. */
  lemma YoungAtLastEvent(c: Config, late: nat, boot: nat, tr: seq<Timed>)
    requires Punctual(c, late, boot, tr) && Run(c, tr).neg.Some?
    ensures var neg := Run(c, tr).neg.value;
            && neg.startedAt <= Now(boot, tr) <= neg.startedAt + 40_000 + late
            && (neg.RelayProbe? ==> Now(boot, tr) <= neg.startedAt + 15_000 + late)
  {
    YoungRun(c, late, boot, tr);
    if tr != [] {
      var before := tr[..|tr| - 1];
      SweepNotLater(c, late, boot, before);
      YoungRun(c, late, boot, before);
      NegAfter(c, Run(c, before), tr[|tr| - 1]);
    }
  }

  /** Bounded life: with an event loop at most `late` behind, no event ever finds a relay probe older than
      15 s + late or any negotiation older than 40 s + late, even when repeated ready messages keep re-arming the
      timer of a direct probe. */
  lemma BoundedLife(c: Config, late: nat, boot: nat, tr: seq<Timed>)
    requires Punctual(c, late, boot, tr) && tr != []
    requires Run(c, tr[..|tr| - 1]).neg.Some?
    ensures var neg := Run(c, tr[..|tr| - 1]).neg.value;
            && tr[|tr| - 1].env.now - neg.startedAt <= 40_000 + late
            && (neg.RelayProbe? ==> tr[|tr| - 1].env.now - neg.startedAt <= 15_000 + late)
  {
    YoungRun(c, late, boot, tr[..|tr| - 1]);
  }

  // ----- the 40 s bound is the sweep's doing -----

  /** A peer that repeats its ready message every ten seconds. */
  function Repeats(e: Env, n: nat): seq<Timed> {
    if n == 0 then []
    else Repeats(e, n - 1) + [Timed(e.(now := e.now + (n - 1) * DIRECT_RESULT_TIMEOUT), DirectReady(Lo, Ready(1, "n")))]
  }

  /** Without the sweep there is no bound: repeated ready messages, each in time, keep a direct probe alive
      as long as one likes. */
  lemma {:induction false} RepeatsRearm(c: Config, s: PairState, e: Env, n: nat)
    requires s.neg.Some? && s.neg.value.DirectProbe? && s.neg.value.readyB.Some?
    requires e.infoLo.Some? && e.infoHi.Some? && n > 0
    ensures var s' := RunFrom(c, s, Repeats(e, n));
            && s'.neg.Some? && s'.neg.value.DirectProbe? && s'.neg.value.readyB.Some?
            && s'.neg.value.startedAt == s.neg.value.startedAt
            && s'.neg.value.timer == Some(Timer(ResultTimeout, e.now + n * DIRECT_RESULT_TIMEOUT))
    decreases n
  {
    var tr := Repeats(e, n);
    assert tr[..|tr| - 1] == Repeats(e, n - 1);
    assert RunFrom(c, s, tr) == Step(c, RunFrom(c, s, Repeats(e, n - 1)), tr[|tr| - 1]);
    if n > 1 {
      RepeatsRearm(c, s, e, n - 1);
    } else {
      assert Repeats(e, 0) == [];
    }
  }
}

/** The direct-probe backoff and the budget of probes it enforces. */
module Backoffs {
  import opened Common
  import opened PairMachine

  // ----- closed form -----

  /** The step ends a direct probe as failed: a timeout, a completed result that is not both true, an error. */
  predicate FailsDirectProbe(c: Config, s: PairState, t: Timed) {
    && s.neg.Some? && s.neg.value.DirectProbe?
    && match t.ev
       case ProbeError(_) => true
       case TimerFires => s.neg.value.timer.Some? && t.env.now >= s.neg.value.timer.value.deadline
       case DirectResult(x, ok) =>
         var other := if x.Lo? then s.neg.value.resultB else s.neg.value.resultA;
         other.Some? && !(ok && other.value)
       case _ => false
  }

  predicate SucceedsDirectProbe(s: PairState, t: Timed) {
    && s.neg.Some? && s.neg.value.DirectProbe? && t.ev.DirectResult? && t.ev.success
    && (if t.ev.from.Lo? then s.neg.value.resultB else s.neg.value.resultA) == Some(true)
  }

  predicate IsAuto(ev: Event) { ev.Force? && ev.target.None? }

  /** Failed direct probes since the last success, `auto` command or new record. */
  function Failures(c: Config, tr: seq<Timed>): nat {
    if tr == [] then 0
    else
      var before := tr[..|tr| - 1];
      var t := tr[|tr| - 1];
      if t.ev.Restart? || t.ev.Purge? || IsAuto(t.ev) || SucceedsDirectProbe(Run(c, before), t) then 0
      else Failures(c, before) + if FailsDirectProbe(c, Run(c, before), t) then 1 else 0
  }

  /** The ladder 30s, 60s, 120s, 240s, 240s, ... for the default interval. */
  function Ladder(init: nat, k: nat): nat {
    if k == 0 then init else Min(init * Pow2(k), 240_000)
  }

  lemma LadderNext(init: nat, k: nat)
    ensures Min(Ladder(init, k) * 2, 240_000) == Ladder(init, k + 1)
  {
    assert init * Pow2(k + 1) == init * Pow2(k) * 2;
  }

  predicate OnLadder(c: Config, tr: seq<Timed>, s: PairState) {
    && (s.health.None? ==> Failures(c, tr) == 0)
    && (s.health.Some? ==> s.health.value.backoff == Ladder(c.init, Failures(c, tr)))
  }

  /** The backoff after a step of a pair that has its record. */
  function NextBackoff(c: Config, s: PairState, t: Timed): nat
    requires s.health.Some?
  {
    if IsAuto(t.ev) || SucceedsDirectProbe(s, t) then c.init
    else if FailsDirectProbe(c, s, t) then Min(s.health.value.backoff * 2, BACKOFF_MAX)
    else s.health.value.backoff
  }

  predicate BackoffIs(h: Option<Health>, b: nat) { h.Some? && h.value.backoff == b }

  lemma BackoffAfterTimer(c: Config, s: PairState, t: Timed)
    requires s.health.Some? && t.ev.TimerFires? && Sound(s)
    ensures BackoffIs(Step(c, s, t).health, NextBackoff(c, s, t))
  {
  }

  lemma BackoffAfterDirectProbe(c: Config, s: PairState, t: Timed)
    requires s.health.Some? && (t.ev.DirectResult? || t.ev.DirectReady?)
    ensures BackoffIs(Step(c, s, t).health, NextBackoff(c, s, t))
  {
  }

  lemma BackoffAfter(c: Config, s: PairState, t: Timed)
    requires s.health.Some? && !t.ev.Restart? && !t.ev.Purge? && Sound(s)
    ensures BackoffIs(Step(c, s, t).health, NextBackoff(c, s, t))
  {
    if t.ev.TimerFires? {
      BackoffAfterTimer(c, s, t);
    } else if t.ev.DirectResult? || t.ev.DirectReady? {
      BackoffAfterDirectProbe(c, s, t);
    }
  }

  /** A new record starts at the initial backoff. */
  lemma BackoffOfNewRecord(c: Config, s: PairState, t: Timed)
    requires s.health.None? && Sound(s)
    ensures Step(c, s, t).health.Some? ==> Step(c, s, t).health.value.backoff == c.init
  {
  }

  /** Without a record there is no negotiation to fail. */
  lemma LadderOfNewRecord(c: Config, before: seq<Timed>, t: Timed, s: PairState)
    requires s == Run(c, before) && OnLadder(c, before, s) && Sound(s) && s.health.None?
    ensures OnLadder(c, before + [t], Step(c, s, t))
  {
    BackoffOfNewRecord(c, s, t);
    hide Step, RunFrom;
    assert (before + [t])[..|before + [t]| - 1] == before;
  }

  lemma LadderStep(c: Config, before: seq<Timed>, t: Timed, s: PairState)
    requires s == Run(c, before) && OnLadder(c, before, s) && Sound(s)
    ensures OnLadder(c, before + [t], Step(c, s, t))
  {
    if s.health.None? {
      LadderOfNewRecord(c, before, t, s);
    } else if t.ev.Restart? || t.ev.Purge? {
      assert (before + [t])[..|before + [t]| - 1] == before;
    } else {
      hide Step, Ladder, FailsDirectProbe, SucceedsDirectProbe, RunFrom, Sound;
      assert (before + [t])[..|before + [t]| - 1] == before;
      LadderNext(c.init, Failures(c, before));
      BackoffAfter(c, s, t);
    }
  }

  /** Backoff closed form: over every run the backoff is the initial one doubled once per failed direct
      probe since the last success or `auto`, capped at the maximum. */
  lemma {:induction false} BackoffIsLadder(c: Config, tr: seq<Timed>)
    ensures OnLadder(c, tr, Run(c, tr))
  {
    if tr != [] {
      var before := tr[..|tr| - 1];
      BackoffIsLadder(c, before);
      SoundRun(c, before);
      assert before + [tr[|tr| - 1]] == tr;
      LadderStep(c, before, tr[|tr| - 1], Run(c, before));
    }
  }

  /** min(init * 2^k, max) as documented holds exactly when the configured start does not exceed the cap
      or a probe has failed. */
  lemma LadderAsDocumented(init: nat, k: nat)
    ensures Ladder(init, k) == Min(init * Pow2(k), 240_000) <==> init <= 240_000 || k > 0
  {
    assert Pow2(0) == 1 && init * 1 == init;
  }

  /** A negotiation changes the backoff at most once, in the step that ends it. */
  lemma BackoffChangesAtTheEnd(c: Config, s: PairState, t: Timed)
    requires Sound(s) && s.health.Some? && !t.ev.Force? && !t.ev.Restart? && !t.ev.Purge?
    requires Step(c, s, t).health.Some? && Step(c, s, t).health.value.backoff != s.health.value.backoff
    ensures s.neg.Some? && s.neg.value.DirectProbe? && Step(c, s, t).neg.None?
    ensures FailsDirectProbe(c, s, t) || SucceedsDirectProbe(s, t)
  {
    BackoffAfter(c, s, t);
    match t.ev
    case ProbeError(_) =>
    case TimerFires =>
    case DirectResult(_, _) =>
    case _ =>
  }

  // ----- probe budget -----

  predicate KeepsRecord(tr: seq<Timed>) {
    forall i :: 0 <= i < |tr| ==> !tr[i].ev.Restart? && !tr[i].ev.Purge?
  }

  predicate StartsDirect(s: PairState, s': PairState) {
    s.neg.None? && s'.neg.Some? && s'.neg.value.DirectProbe?
  }

  /** The start times of the direct probes of a run. */
  function Starts(c: Config, s: PairState, tr: seq<Timed>): seq<nat> {
    if tr == [] then []
    else
      var before := tr[..|tr| - 1];
      Starts(c, s, before)
      + (if StartsDirect(RunFrom(c, s, before), RunFrom(c, s, tr)) then [tr[|tr| - 1].env.now] else [])
  }

  /** The smallest backoff there can be. */
  function Gap(c: Config): nat { Min(c.init, 240_000) }

  predicate Spaced(c: Config, starts: seq<nat>) {
    forall i, j :: 0 <= i <= j < |starts| ==> Apart(starts[i], starts[j], j - i, Gap(c))
  }

  predicate Apart(a: nat, b: nat, n: nat, gap: nat) { b - a >= n * gap }

  predicate Budgeted(c: Config, starts: seq<nat>, s: PairState) {
    && Spaced(c, starts)
    && (s.health.Some? ==> s.health.value.backoff >= Gap(c))
    && (starts != [] ==> s.health.Some? && s.health.value.lastDirectProbeAt == starts[|starts| - 1])
  }

  lemma StampKept(c: Config, s: PairState, t: Timed)
    requires Sound(s) && s.health.Some? && (t.ev.TimerFires? || t.ev.DirectResult? || t.ev.DirectReady? || t.ev.Report?)
    ensures var s' := Step(c, s, t);
            && s'.health.Some? && s'.health.value.lastDirectProbeAt == s.health.value.lastDirectProbeAt
            && !StartsDirect(s, s')
  {
  }

  /** Only checkDirectProbes starts a direct probe, and stamps the record. */
  lemma StampAfter(c: Config, s: PairState, t: Timed)
    requires Sound(s) && !t.ev.Restart? && !t.ev.Purge? && s.health.Some?
    ensures var s' := Step(c, s, t);
            && s'.health.Some?
            && s'.health.value.lastDirectProbeAt
               == (if StartsDirect(s, s') then t.env.now else s.health.value.lastDirectProbeAt)
            && (StartsDirect(s, s') ==> t.env.now - s.health.value.lastDirectProbeAt >= s.health.value.backoff)
  {
    if t.ev.TimerFires? || t.ev.DirectResult? || t.ev.DirectReady? || t.ev.Report? {
      StampKept(c, s, t);
    }
  }

  lemma SpacedExtend(c: Config, starts: seq<nat>, now: nat)
    requires Spaced(c, starts) && (starts != [] ==> now - starts[|starts| - 1] >= Gap(c))
    ensures Spaced(c, starts + [now])
  {
    var all := starts + [now];
    forall i, j | 0 <= i <= j < |all| ensures Apart(all[i], all[j], j - i, Gap(c)) {
      if i < j == |starts| {
        assert Apart(all[i], all[j - 1], j - 1 - i, Gap(c));
        assert (j - i) * Gap(c) == (j - 1 - i) * Gap(c) + Gap(c);
      }
    }
  }

  lemma BudgetStep(c: Config, starts: seq<nat>, s: PairState, t: Timed)
    requires Budgeted(c, starts, s) && Sound(s) && !t.ev.Restart? && !t.ev.Purge?
    ensures var s' := Step(c, s, t);
            Budgeted(c, starts + (if StartsDirect(s, s') then [t.env.now] else []), s')
  {
    var s' := Step(c, s, t);
    if s.health.Some? {
      BackoffAfter(c, s, t);
      StampAfter(c, s, t);
    } else {
      BackoffOfNewRecord(c, s, t);
    }
    if StartsDirect(s, s') {
      SpacedExtend(c, starts, t.env.now);
    } else {
      assert starts + [] == starts;
    }
  }

  lemma {:induction false} BudgetRun(c: Config, s: PairState, tr: seq<Timed>)
    requires Sound(s) && Budgeted(c, [], s) && KeepsRecord(tr)
    ensures Sound(RunFrom(c, s, tr)) && Budgeted(c, Starts(c, s, tr), RunFrom(c, s, tr))
  {
    if tr != [] {
      var before := tr[..|tr| - 1];
      BudgetRun(c, s, before);
      SoundStep(c, RunFrom(c, s, before), tr[|tr| - 1]);
      BudgetStep(c, Starts(c, s, before), RunFrom(c, s, before), tr[|tr| - 1]);
    }
  }

  lemma {:induction false} BackoffAtLeastGap(c: Config, tr: seq<Timed>)
    ensures Budgeted(c, [], Run(c, tr))
  {
    BackoffIsLadder(c, tr);
    var k := Failures(c, tr);
    if k > 0 {
      assert c.init * Pow2(k) >= c.init;
    }
  }

  /** Probe budget: after any run, for as long as the server is not restarted and the pair keeps its record,
      n direct probes in a row take at least n - 1 gaps, so a window of length w holds at most 1 + w / gap of
      them, whatever successes, failures and admin commands fall between. */
  lemma ProbeBudget(c: Config, past: seq<Timed>, tr: seq<Timed>, i: nat, j: nat)
    requires KeepsRecord(tr)
    requires i <= j < |Starts(c, Run(c, past), tr)|
    ensures var st := Starts(c, Run(c, past), tr);
            st[i] + (j - i) * Gap(c) <= st[j]
  {
    var st := Starts(c, Run(c, past), tr);
    SoundRun(c, past);
    BackoffAtLeastGap(c, past);
    BudgetRun(c, Run(c, past), tr);
    assert Apart(st[i], st[j], j - i, Gap(c));
  }
}

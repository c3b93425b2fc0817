/** When a probe opens, told from what has happened to the pair: the tables, sockets and record that the guards look
    at are functions of the events so far. */
module Openings {
  import opened Common
  import opened PairMachine
  import opened Streaks
  import opened Backoffs
  import opened ForcedPairs

  // ----- the link rows -----

  /** What side x last had stored as its mode since its row last went; None if there is no row. */
  function LastMode(tr: seq<Timed>, x: Side): Option<Path> {
    if tr == [] then None
    else
      var ev := tr[|tr| - 1].ev;
      if ev.Cascade? then None
      else if ev.Upsert? && ev.from == x then Some(ev.mode)
      else LastMode(tr[..|tr| - 1], x)
  }

  /** What the last force command since the row came to exist asked for: nothing after `auto`. */
  function LastForce(tr: seq<Timed>, x: Side): Option<Forced> {
    if tr == [] then None
    else
      var before, ev := tr[..|tr| - 1], tr[|tr| - 1].ev;
      if LastMode(before, x).None? then None
      else if ev.Cascade? then None
      else if ev.Force? then ev.target
      else LastForce(before, x)
  }

  function RowOf(s: PairState, x: Side): Option<Row> { if x.Lo? then s.rowLo else s.rowHi }

  /** Stored rows over runs: a side's row exists while it has a mode stored, and holds that mode and what the last
      command asked for. */
  lemma {:induction false} RowsTellHistory(c: Config, tr: seq<Timed>, x: Side)
    ensures var row := RowOf(Run(c, tr), x);
            && (row.Some? <==> LastMode(tr, x).Some?)
            && (row.Some? ==> Some(row.value.mode) == LastMode(tr, x) && row.value.forced == LastForce(tr, x))
    ensures LastMode(tr, x).None? ==> LastForce(tr, x).None?
  {
    if tr != [] {
      var before := tr[..|tr| - 1];
      RowsTellHistory(c, before, x);
      RowStep(c, Run(c, before), tr[|tr| - 1], x);
    }
  }

  lemma RowStep(c: Config, s: PairState, t: Timed, x: Side)
    ensures var row, row' := RowOf(s, x), RowOf(Step(c, s, t), x);
            match t.ev
            case Cascade => row'.None?
            case Upsert(y, mode) =>
              if y == x then row' == Some(Row(mode, if row.Some? then row.value.forced else None)) else row' == row
            case Force(_, target) => row' == if row.Some? then Some(Row(row.value.mode, target)) else None
            case _ => row' == row
  {
    if t.ev.Report? {
      ReportKeeps(c, s, t);
    } else if t.ev.TimerFires? || t.ev.DirectResult? || t.ev.DirectReady? {
      ProbeKeeps(c, s, t);
    }
  }

  lemma ReportKeeps(c: Config, s: PairState, t: Timed)
    requires t.ev.Report?
    ensures var s' := Step(c, s, t);
            s'.rowLo == s.rowLo && s'.rowHi == s.rowHi && s'.connLo == s.connLo && s'.connHi == s.connHi
  {
    hide Recorded, Ripe;
  }

  /** Rows, sockets and the command remembered are the same. */
  predicate SameGuards(s: PairState, s': PairState) {
    && s'.rowLo == s.rowLo && s'.rowHi == s.rowHi && s'.connLo == s.connLo && s'.connHi == s.connHi
    && (s'.health.Some? <==> s.health.Some?) && (s.health.Some? ==> s'.health.value.forced == s.health.value.forced)
  }

  lemma ProbeKeeps(c: Config, s: PairState, t: Timed)
    requires t.ev.TimerFires? || t.ev.DirectResult? || t.ev.DirectReady?
    ensures SameGuards(s, Step(c, s, t))
  {
    match t.ev
    case TimerFires => TimerKeeps(c, s, t);
    case DirectResult(_, _) => ResultKeeps(c, s, t);
    case DirectReady(_, _) => ReadyKeeps(c, s, t);
  }

  lemma TimerKeeps(c: Config, s: PairState, t: Timed)
    requires t.ev.TimerFires?
    ensures SameGuards(s, Step(c, s, t))
  {
    hide SendIfConnected;
    TellingKeeps(s);
  }

  lemma TellingKeeps(s: PairState)
    ensures forall x, b :: SameGuards(s, SendIfConnected(s, x, b))
    ensures forall b :: SameGuards(s, SendBothIfConnected(s, b))
  {
  }

  lemma ResultKeeps(c: Config, s: PairState, t: Timed)
    requires t.ev.DirectResult?
    ensures SameGuards(s, Step(c, s, t))
  {
  }

  lemma ReadyKeeps(c: Config, s: PairState, t: Timed)
    requires t.ev.DirectReady?
    ensures SameGuards(s, Step(c, s, t))
  {
  }

  // ----- sockets and the record -----

  /** The last thing that happened to the socket of side x is that it opened. */
  predicate Up(tr: seq<Timed>, x: Side) {
    tr != [] &&
    var ev := tr[|tr| - 1].ev;
    if ev.Restart? then false
    else if ev.Connect? && ev.from == x then true
    else if ev.Close? && ev.from == x then false
    else Up(tr[..|tr| - 1], x)
  }

  lemma {:induction false} SocketsTellHistory(c: Config, tr: seq<Timed>, x: Side)
    ensures Run(c, tr).Connected(x) <==> Up(tr, x)
  {
    if tr != [] {
      SocketsTellHistory(c, tr[..|tr| - 1], x);
      SocketStep(c, Run(c, tr[..|tr| - 1]), tr[|tr| - 1], x);
    }
  }

  lemma SocketStep(c: Config, s: PairState, t: Timed, x: Side)
    ensures Step(c, s, t).Connected(x) <==>
            if t.ev.Restart? then false
            else if (t.ev.Connect? || t.ev.Close?) && t.ev.from == x then t.ev.Connect?
            else s.Connected(x)
  {
    if t.ev.Report? {
      ReportKeeps(c, s, t);
    } else if t.ev.TimerFires? || t.ev.DirectResult? || t.ev.DirectReady? {
      ProbeKeeps(c, s, t);
    } else {
      hide Abort, AbortFor;
      AbortKeeps(s);
      AbortKeeps(DoubleBackoff(s));
      if t.ev.Close? { AbortForKeeps(s.SetConnected(t.ev.from, false), t.ev.from); }
      if t.ev.Purge? { AbortForKeeps(s, t.ev.from); }
    }
  }

  lemma AbortKeeps(s: PairState)
    ensures forall r :: SameGuards(s, Abort(s, r))
  {
  }

  lemma AbortForKeeps(s: PairState, x: Side)
    ensures forall r :: SameGuards(s, AbortFor(s, x, r))
  {
  }

  /** A report or a command has come since the record was last dropped. */
  predicate HasRecord(tr: seq<Timed>) {
    tr != [] &&
    var ev := tr[|tr| - 1].ev;
    !ev.Restart? && !ev.Purge? && (ev.Report? || ev.Force? || HasRecord(tr[..|tr| - 1]))
  }

  /** When the last direct probe of this record started; 0 if none has. */
  function LastProbe(c: Config, tr: seq<Timed>): nat {
    if tr == [] then 0
    else
      var before, t := tr[..|tr| - 1], tr[|tr| - 1];
      if t.ev.Restart? || t.ev.Purge? then 0
      else if StartsDirect(Run(c, before), Run(c, tr)) then t.env.now
      else LastProbe(c, before)
  }

  lemma {:induction false} StampsTellHistory(c: Config, tr: seq<Timed>)
    ensures var h := Run(c, tr).health;
            (h.Some? <==> HasRecord(tr)) && (h.Some? ==> h.value.lastDirectProbeAt == LastProbe(c, tr))
    ensures !HasRecord(tr) ==> LastProbe(c, tr) == 0
  {
    if tr != [] {
      var before := tr[..|tr| - 1];
      StampsTellHistory(c, before);
      SoundRun(c, before);
      StampStep(c, Run(c, before), tr[|tr| - 1]);
    }
  }

  lemma StampStep(c: Config, s: PairState, t: Timed)
    requires Sound(s)
    ensures var s' := Step(c, s, t);
            if t.ev.Restart? || t.ev.Purge? then s'.health.None? && !StartsDirect(s, s')
            else
              && (s'.health.Some? <==> s.health.Some? || t.ev.Report? || t.ev.Force?)
              && (s.health.None? ==> !StartsDirect(s, s'))
              && (s.health.None? && s'.health.Some? ==> s'.health.value.lastDirectProbeAt == 0)
              && (s.health.Some? ==>
                    s'.health.value.lastDirectProbeAt
                    == if StartsDirect(s, s') then t.env.now else s.health.value.lastDirectProbeAt)
  {
    if s.health.Some? && !t.ev.Restart? && !t.ev.Purge? {
      StampAfter(c, s, t);
    } else {
      StampOfNone(c, s, t);
    }
  }

  lemma StampOfNone(c: Config, s: PairState, t: Timed)
    requires Sound(s) && (s.health.None? || t.ev.Restart? || t.ev.Purge?)
    ensures var s' := Step(c, s, t);
            && !StartsDirect(s, s')
            && (s'.health.Some? <==> !t.ev.Restart? && !t.ev.Purge? && (t.ev.Report? || t.ev.Force?))
            && (s'.health.Some? ==> s'.health.value.lastDirectProbeAt == 0)
  {
  }

  // ----- direct probes -----

  /** What the sweep asks of a pair before it opens a direct probe: the last mode stored for either side is relay, no
      command stands for either row, both sockets are up, the pair has its record, the backoff (the ladder's rung) has
      passed since the last direct probe, and the relay is on for Lo's network. */
  predicate DirectIsDue(c: Config, tr: seq<Timed>, e: Env) {
    && LastMode(tr, Lo) == Some(RelayPath) && LastMode(tr, Hi) == Some(RelayPath)
    && LastForce(tr, Lo).None? && LastForce(tr, Hi).None?
    && Up(tr, Lo) && Up(tr, Hi) && HasRecord(tr)
    && e.now - LastProbe(c, tr) >= Ladder(c.init, Failures(c, tr))
    && e.relayLo
  }

  /** A step opens a direct probe if and only if it is the sweep's look at a pair with no active negotiation for which
      one is due. */
  lemma {:induction false} DirectOpensIff(c: Config, tr: seq<Timed>, t: Timed)
    ensures StartsDirect(Run(c, tr), Step(c, Run(c, tr), t)) <==>
            t.ev.CheckDirect? && Run(c, tr).neg.None? && DirectIsDue(c, tr, t.env)
  {
    hide Run, Ladder, Failures, LastProbe, LastMode, LastForce, Up, HasRecord, Step;
    RowsTellHistory(c, tr, Lo);
    RowsTellHistory(c, tr, Hi);
    SocketsTellHistory(c, tr, Lo);
    SocketsTellHistory(c, tr, Hi);
    StampsTellHistory(c, tr);
    BackoffIsLadder(c, tr);
    OpensDirectWhen(c, Run(c, tr), t);
  }

  lemma OpensDirectWhen(c: Config, s: PairState, t: Timed)
    ensures StartsDirect(s, Step(c, s, t)) <==>
            && t.ev.CheckDirect? && s.neg.None?
            && s.rowLo.Some? && s.rowLo.value.mode.RelayPath? && s.rowLo.value.forced.None?
            && s.rowHi.Some? && s.rowHi.value.mode.RelayPath? && s.rowHi.value.forced.None?
            && s.connLo && s.connHi && s.health.Some? && t.env.relayLo
            && t.env.now - s.health.value.lastDirectProbeAt >= s.health.value.backoff
  {
    if !t.ev.CheckDirect? { OnlySweepOpens(c, s, t); }
  }

  lemma OnlySweepOpens(c: Config, s: PairState, t: Timed)
    requires !t.ev.CheckDirect?
    ensures !StartsDirect(s, Step(c, s, t))
  {
  }

  // ----- relay probes -----

  /** The last three counted reports of the side were dead. */
  predicate ThreeDead(c: Config, tr: seq<Timed>, x: Side) {
    var o := Outcomes(c, tr, x);
    |o| >= 3 && !o[|o| - 1] && !o[|o| - 2] && !o[|o| - 3]
  }

  /** The report counts, and makes three dead ones in a row on either side, or more. */
  predicate Tips(c: Config, before: seq<Timed>, t: Timed) {
    && t.ev.Report? && Counts(c, before, t, t.ev.from)
    && ThreeDead(c, before + [t], Lo) && ThreeDead(c, before + [t], Hi)
  }

  lemma TrailMeans(o: seq<bool>, n: nat)
    requires TrailingDead(o, n)
    ensures n >= 3 <==> |o| >= 3 && !o[|o| - 1] && !o[|o| - 2] && !o[|o| - 3]
  {
  }

  lemma ReportStep(c: Config, s: PairState, t: Timed)
    requires t.ev.Report?
    ensures var h', j := Step(c, s, t).health, HealthOf(c, s).Join(t.ev.from, t.env.now);
            h'.Some? && (Ripe(c, HealthOf(c, s), t.ev.from, t.ev.mode, t.ev.rxAlive, t.env.now) <==>
              && t.ev.mode.DirectPath? && !InGrace(c, j, t.ev.from, t.env.now)
              && h'.value.streakAB >= 3 && h'.value.streakBA >= 3)
  {
  }

  lemma RipeMeansTips(c: Config, before: seq<Timed>, t: Timed)
    requires t.ev.Report?
    ensures Ripe(c, HealthOf(c, Run(c, before)), t.ev.from, t.ev.mode, t.ev.rxAlive, t.env.now) <==> Tips(c, before, t)
  {
    hide Outcomes, TrailingDead, Step, RunFrom, JoinedAt;
    var s, x := Run(c, before), t.ev.from;
    ReportStep(c, s, t);
    RecordAfterReport(c, s, t, x);
    HistoryNext(c, before, t, x);
    StreaksAreTrailingRuns(c, before, x);
    TracksNext(c, before, t, Lo);
    TracksNext(c, before, t, Hi);
  }

  lemma TracksNext(c: Config, before: seq<Timed>, t: Timed, x: Side)
    ensures var h := Step(c, Run(c, before), t).health;
            h.Some? ==> (h.value.Streak(x) >= 3 <==> ThreeDead(c, before + [t], x))
  {
    hide Outcomes, TrailingDead, Step, RunFrom, JoinedAt;
    StreaksAreTrailingRuns(c, before, x);
    TrackStep(c, before, t, Run(c, before), x);
    var h := Step(c, Run(c, before), t).health;
    if h.Some? { TrailMeans(Outcomes(c, before + [t], x), h.value.Streak(x)); }
  }

  /** The command that the unordered query shows, of at most two rows. */
  function Shown(tr: seq<Timed>, e: Env): Option<Forced> {
    if LastMode(tr, Lo).None? || (LastMode(tr, Hi).Some? && !e.loFirst) then LastForce(tr, Hi) else LastForce(tr, Lo)
  }

  /** The command the record remembers: the last one given to it, or one that a report due for a probe was shown. */
  function Remembered(c: Config, tr: seq<Timed>): Option<Forced> {
    if tr == [] then None
    else
      var before, t := tr[..|tr| - 1], tr[|tr| - 1];
      if t.ev.Restart? || t.ev.Purge? then None
      else if t.ev.Force? then t.ev.target
      else if Remembered(c, before).None? && Run(c, before).neg.None? && Tips(c, before, t) then Shown(before, t.env)
      else Remembered(c, before)
  }

  lemma ShownIsStored(c: Config, tr: seq<Timed>, e: Env)
    ensures DbForced(e, Run(c, tr)) == Shown(tr, e)
  {
    hide Run;
    RowsTellHistory(c, tr, Lo);
    RowsTellHistory(c, tr, Hi);
  }

  lemma RecallStep(c: Config, s: PairState, t: Timed)
    ensures var h := Step(c, s, t).health;
            if t.ev.Restart? || t.ev.Purge? then h.None?
            else if t.ev.Force? then h.Some? && h.value.forced == t.ev.target
            else if t.ev.Report? then
              var known := HealthOf(c, s).forced;
              h.Some? && h.value.forced ==
                if known.None? && s.neg.None? && Ripe(c, HealthOf(c, s), t.ev.from, t.ev.mode, t.ev.rxAlive, t.env.now)
                then DbForced(t.env, s) else known
            else (h.Some? <==> s.health.Some?) && (h.Some? ==> h.value.forced == s.health.value.forced)
  {
    if t.ev.TimerFires? || t.ev.DirectResult? || t.ev.DirectReady? {
      ProbeKeeps(c, s, t);
    } else if t.ev.Report? {
      RecallReport(c, s, t);
    } else if !t.ev.Restart? && !t.ev.Purge? && !t.ev.Force? {
      RecallRest(c, s, t);
    }
  }

  lemma RecallRest(c: Config, s: PairState, t: Timed)
    requires !t.ev.TimerFires? && !t.ev.DirectResult? && !t.ev.DirectReady? && !t.ev.Report?
    requires !t.ev.Restart? && !t.ev.Purge? && !t.ev.Force?
    ensures var h := Step(c, s, t).health;
            (h.Some? <==> s.health.Some?) && (h.Some? ==> h.value.forced == s.health.value.forced)
  {
    hide Abort, AbortFor;
    AbortKeeps(s);
    AbortKeeps(DoubleBackoff(s));
    if t.ev.Close? { AbortForKeeps(s.SetConnected(t.ev.from, false), t.ev.from); }
  }

  lemma RecallReport(c: Config, s: PairState, t: Timed)
    requires t.ev.Report?
    ensures var h, known := Step(c, s, t).health, HealthOf(c, s).forced;
            h.Some? && h.value.forced ==
              if known.None? && s.neg.None? && Ripe(c, HealthOf(c, s), t.ev.from, t.ev.mode, t.ev.rxAlive, t.env.now)
              then DbForced(t.env, s) else known
  {
    hide Ripe;
  }

  lemma {:induction false} RecordRemembers(c: Config, tr: seq<Timed>)
    ensures var h := Run(c, tr).health; (if h.Some? then h.value.forced else None) == Remembered(c, tr)
  {
    if tr != [] {
      var before, t := tr[..|tr| - 1], tr[|tr| - 1];
      RecordRemembers(c, before);
      SoundRun(c, before);
      RecallStep(c, Run(c, before), t);
      ShownIsStored(c, before, t.env);
      if t.ev.Report? { RipeMeansTips(c, before, t); }
      hide Step, RunFrom, Shown, Tips, DbForced, Ripe;
      assert Run(c, tr) == Step(c, Run(c, before), t) by { RunNext(c, tr); }
    }
  }

  lemma RunNext(c: Config, tr: seq<Timed>)
    requires tr != []
    ensures Run(c, tr) == Step(c, Run(c, tr[..|tr| - 1]), tr[|tr| - 1])
  {
  }

  predicate StartsRelay(s: PairState, s': PairState) {
    s.neg.None? && s'.neg.Some? && s'.neg.value.RelayProbe?
  }

  /** A step opens a relay probe if and only if it is a report that tips the scales of a pair with no active
      negotiation, no command is remembered or shown, both sockets are up, and the relay is on for the reporter's
      network. */
  lemma {:induction false} RelayOpensIff(c: Config, tr: seq<Timed>, t: Timed)
    ensures StartsRelay(Run(c, tr), Step(c, Run(c, tr), t)) <==>
            && Run(c, tr).neg.None? && Tips(c, tr, t) && Remembered(c, tr).None? && Shown(tr, t.env).None?
            && Up(tr, Lo) && Up(tr, Hi) && (if t.ev.from.Lo? then t.env.relayLo else t.env.relayHi)
  {
    hide Run, Step, Tips, Remembered, Shown, Up, Ripe, DbForced;
    SocketsTellHistory(c, tr, Lo);
    SocketsTellHistory(c, tr, Hi);
    RecordRemembers(c, tr);
    ShownIsStored(c, tr, t.env);
    OpensRelayWhen(c, Run(c, tr), t);
    if t.ev.Report? { RipeMeansTips(c, tr, t); } else { OnlyReportsTip(c, tr, t); }
  }

  lemma OnlyReportsTip(c: Config, tr: seq<Timed>, t: Timed)
    ensures Tips(c, tr, t) ==> t.ev.Report?
  {
  }

  lemma OpensRelayWhen(c: Config, s: PairState, t: Timed)
    ensures StartsRelay(s, Step(c, s, t)) <==>
            && t.ev.Report? && s.neg.None?
            && Ripe(c, HealthOf(c, s), t.ev.from, t.ev.mode, t.ev.rxAlive, t.env.now)
            && HealthOf(c, s).forced.None? && DbForced(t.env, s).None?
            && s.connLo && s.connHi && (if t.ev.from.Lo? then t.env.relayLo else t.env.relayHi)
  {
    if !t.ev.Report? { OnlyReportOpens(c, s, t); }
  }

  lemma OnlyReportOpens(c: Config, s: PairState, t: Timed)
    requires !t.ev.Report?
    ensures !StartsRelay(s, Step(c, s, t))
  {
  }
}

/** The protocol read off what was asked of the server: the tables, the sockets, and which call pushed what, on what
    it found in the tables. */
module Readings {
  import opened Common
  import opened PairKeys
  import opened PairMachine
  import opened Negotiator
  import opened Sessions
  import opened Backoffs
  import opened RelayEvidence
  import opened Openings
  import DirectEvidence

  // ----- tables and sockets -----

  /** The mode of the last report on `to` in a batch. */
  function LastAbout(reports: seq<HealthReport>, to: PeerId): Option<Path> {
    if reports == [] then None
    else
      var r := reports[|reports| - 1];
      if r.peerId == to then Some(r.mode) else LastAbout(reports[..|reports| - 1], to)
  }

  /** What the table holds as the mode that `from` reported of its path to `to`: the last report in a batch whose
      peers were all known, unless one of the two has been deleted since. */
  function StoredMode(h: seq<Input>, from: PeerId, to: PeerId): Option<Path> {
    if h == [] then None
    else
      var i, before := h[|h| - 1], StoredMode(h[..|h| - 1], from, to);
      match i.call
      case Message(x, HealthReportMsg(reports)) =>
        if x == from && LastAbout(reports, to).Some?
           && (forall k :: 0 <= k < |reports| ==> from in i.peers && reports[k].peerId in i.peers)
        then LastAbout(reports, to) else before
      case Deleted(x) => if x == from || x == to then None else before
      case Reaped(gone, deleted) => if deleted && (from in gone || to in gone) then None else before
      case _ => before
  }

  /** What the table holds as the forced mode: that of the last command for the two, in either order, since they have
      a mode stored; none after `auto`. */
  function StoredForce(h: seq<Input>, from: PeerId, to: PeerId): Option<Forced> {
    if h == [] || StoredMode(h[..|h| - 1], from, to).None? then None
    else
      var i, before := h[|h| - 1], StoredForce(h[..|h| - 1], from, to);
      match i.call
      case Forces(a, b, target) => if (a == from && b == to) || (a == to && b == from) then target else before
      case Deleted(x) => if x == from || x == to then None else before
      case Reaped(gone, deleted) => if deleted && (from in gone || to in gone) then None else before
      case _ => before
  }

  /** The peer's socket has opened, and neither it nor the server has gone since. */
  predicate Online(h: seq<Input>, x: PeerId) {
    h != [] &&
    match h[|h| - 1].call
    case Opened(y) => y == x || Online(h[..|h| - 1], x)
    case Closed(y) => y != x && Online(h[..|h| - 1], x)
    case Restarted => false
    case _ => Online(h[..|h| - 1], x)
  }

  /** An event that is not one of those a side's row or socket depends on. */
  predicate Idle(ev: Event) {
    !ev.Upsert? && !ev.Cascade? && !ev.Force? && !ev.Connect? && !ev.Close? && !ev.Restart?
  }

  /** What one event does to what the rows and sockets are told by. */
  lemma OneEvent(tr: seq<Timed>, t: Timed, x: Side)
    ensures LastMode(tr + [t], x)
            == if t.ev.Cascade? then None
               else if t.ev.Upsert? && t.ev.from == x then Some(t.ev.mode) else LastMode(tr, x)
    ensures LastForce(tr + [t], x)
            == if LastMode(tr, x).None? || t.ev.Cascade? then None
               else if t.ev.Force? then t.ev.target else LastForce(tr, x)
    ensures Up(tr + [t], x)
            <==> !t.ev.Restart?
                 && (if (t.ev.Connect? || t.ev.Close?) && t.ev.from == x then t.ev.Connect? else Up(tr, x))
  {
    assert (tr + [t])[..|tr + [t]| - 1] == tr;
  }

  lemma {:induction false} NoForceWithoutRow(tr: seq<Timed>, x: Side)
    ensures LastMode(tr, x).None? ==> LastForce(tr, x).None?
  {
    if tr != [] { NoForceWithoutRow(tr[..|tr| - 1], x); }
  }

  lemma StampSnoc(e: Env, evs: seq<Event>, ev: Event)
    ensures Stamp(e, evs + [ev]) == Stamp(e, evs) + [Timed(e, ev)] && Stamp(e, []) == []
  {
  }

  lemma {:induction false} IdleEvents(tr: seq<Timed>, e: Env, evs: seq<Event>, x: Side)
    requires forall i :: 0 <= i < |evs| ==> Idle(evs[i])
    ensures var tr' := tr + Stamp(e, evs);
            LastMode(tr', x) == LastMode(tr, x) && LastForce(tr', x) == LastForce(tr, x) && (Up(tr', x) <==> Up(tr, x))
  {
    StampSnoc(e, [], TimerFires);
    if evs == [] {
      assert tr + [] == tr;
    } else {
      var front, ev := evs[..|evs| - 1], evs[|evs| - 1];
      IdleEvents(tr, e, front, x);
      StampSnoc(e, front, ev);
      assert evs == front + [ev] && tr + Stamp(e, evs) == tr + Stamp(e, front) + [Timed(e, ev)];
      OneEvent(tr + Stamp(e, front), Timed(e, ev), x);
      NoForceWithoutRow(tr + Stamp(e, front), x);
    }
  }

  lemma {:induction false} ReportsAreIdle(from: PeerId, reports: seq<HealthReport>, p: Pair)
    ensures forall i :: 0 <= i < |ReportsFor(from, reports, p)| ==> ReportsFor(from, reports, p)[i].Report?
  {
    if reports != [] { ReportsAreIdle(from, reports[..|reports| - 1], p); }
  }

  lemma {:induction false} PurgesAreIdle(gone: seq<PeerId>, p: Pair)
    ensures forall i :: 0 <= i < |PurgesFor(gone, p)| ==> PurgesFor(gone, p)[i].Purge?
  {
    if gone != [] { PurgesAreIdle(gone[..|gone| - 1], p); }
  }

  /** A batch stored leaves each side's row with its last report on the other. */
  lemma {:induction false} UpsertsStore(tr: seq<Timed>, e: Env, from: PeerId, reports: seq<HealthReport>, p: Pair,
                                        x: Side)
    requires p.Proper()
    ensures var tr' := tr + Stamp(e, UpsertsFor(from, reports, p));
            var about := LastAbout(reports, End(p, x.Other()));
            && LastMode(tr', x) == (if from == End(p, x) && about.Some? then about else LastMode(tr, x))
            && LastForce(tr', x) == LastForce(tr, x) && (Up(tr', x) <==> Up(tr, x))
  {
    hide Less, PairOf, LastMode, LastForce, Up;
    StampSnoc(e, [], TimerFires);
    if reports == [] {
      assert tr + [] == tr;
    } else {
      var front, r := reports[..|reports| - 1], reports[|reports| - 1];
      UpsertsStore(tr, e, from, front, p, x);
      var before, ev := UpsertsFor(from, front, p), Upsert(SideOf(p, from), r.mode);
      StampSnoc(e, before, ev);
      assert before + [] == before;
      assert tr + (Stamp(e, before) + [Timed(e, ev)]) == tr + Stamp(e, before) + [Timed(e, ev)];
      OneEvent(tr + Stamp(e, before), Timed(e, ev), x);
      NoForceWithoutRow(tr + Stamp(e, before), x);
      WhoReports(from, r.peerId, p, x);
    }
  }

  lemma WhoReports(from: PeerId, to: PeerId, p: Pair, x: Side)
    requires p.Proper()
    ensures PairOf(from, to) == p && SideOf(p, from) == x <==> from == End(p, x) && to == End(p, x.Other())
    ensures PairOf(from, to) == p <==> (from == p.lo && to == p.hi) || (from == p.hi && to == p.lo)
  {
    hide Less;
    PairOfEnds(p);
  }

  lemma {:induction false} CascadesClear(tr: seq<Timed>, e: Env, gone: seq<PeerId>, p: Pair, x: Side)
    ensures var tr' := tr + Stamp(e, CascadesFor(gone, p));
            var hit := p.lo in gone || p.hi in gone;
            && LastMode(tr', x) == (if hit then None else LastMode(tr, x))
            && LastForce(tr', x) == (if hit then None else LastForce(tr, x)) && (Up(tr', x) <==> Up(tr, x))
  {
    hide LastMode, LastForce, Up;
    StampSnoc(e, [], TimerFires);
    if gone == [] {
      assert tr + [] == tr;
    } else {
      var front, g := gone[..|gone| - 1], gone[|gone| - 1];
      CascadesClear(tr, e, front, p, x);
      assert gone == front + [g];
      var before := CascadesFor(front, p);
      StampSnoc(e, before, Cascade);
      assert before + [] == before;
      assert tr + (Stamp(e, before) + [Timed(e, Cascade)]) == tr + Stamp(e, before) + [Timed(e, Cascade)];
      OneEvent(tr + Stamp(e, before), Timed(e, Cascade), x);
    }
  }

  lemma StampTwo(tr: seq<Timed>, e: Env, a: seq<Event>, b: seq<Event>)
    ensures tr + Stamp(e, a + b) == tr + Stamp(e, a) + Stamp(e, b)
  {
    StampAppend(e, a, b);
  }

  /** What the events so far tell of a side, and what the calls so far tell of the two peers, agree. */
  ghost predicate Agrees(h: seq<Input>, tr: seq<Timed>, p: Pair, x: Side) {
    var from, to := End(p, x), End(p, x.Other());
    && LastMode(tr, x) == StoredMode(h, from, to) && LastForce(tr, x) == StoredForce(h, from, to)
    && (Up(tr, x) <==> Online(h, from))
  }

  /** What the calls say one call further. */
  lemma HistoryOn(h: seq<Input>, i: Input, from: PeerId, to: PeerId)
    ensures (h + [i])[..|h + [i]| - 1] == h && (h + [i])[|h + [i]| - 1] == i
  {
  }

  lemma BatchAgrees(h: seq<Input>, tr: seq<Timed>, i: Input, from: PeerId, reports: seq<HealthReport>, p: Pair, x: Side)
    requires p.Proper() && Agrees(h, tr, p, x) && i.call == Message(from, HealthReportMsg(reports))
    ensures Agrees(h + [i], tr + TimedOf(i, p), p, x)
  {
    hide LastMode, LastForce, Up, UpsertsFor, ReportsFor, Less, Stamp;
    var e := EnvOf(i.peers, i.relayEnabled, i.now, i.loFirst, p);
    var ups := if Storable(i.peers, from, reports) then UpsertsFor(from, reports, p) else [];
    var reps := ReportsFor(from, reports, p);
    HistoryOn(h, i, End(p, x), End(p, x.Other()));
    StampTwo(tr, e, ups, reps);
    UpsertsStore(tr, e, from, reports, p, x);
    StampSnoc(e, [], TimerFires);
    assert tr + [] == tr;
    ReportsAreIdle(from, reports, p);
    IdleEvents(tr + Stamp(e, ups), e, reps, x);
    NoForceWithoutRow(tr, x);
  }

  lemma ReapAgrees(h: seq<Input>, tr: seq<Timed>, i: Input, gone: seq<PeerId>, deleted: bool, p: Pair, x: Side)
    requires p.Proper() && Agrees(h, tr, p, x) && i.call == Reaped(gone, deleted)
    ensures Agrees(h + [i], tr + TimedOf(i, p), p, x)
  {
    hide LastMode, LastForce, Up, PurgesFor, CascadesFor, Less, Stamp;
    var e := EnvOf(i.peers, i.relayEnabled, i.now, i.loFirst, p);
    var purges, cascades := PurgesFor(gone, p), if deleted then CascadesFor(gone, p) else [];
    HistoryOn(h, i, End(p, x), End(p, x.Other()));
    StampTwo(tr, e, purges, cascades);
    PurgesAreIdle(gone, p);
    IdleEvents(tr, e, purges, x);
    CascadesClear(tr + Stamp(e, purges), e, gone, p, x);
    StampSnoc(e, [], TimerFires);
    assert tr + Stamp(e, purges) + [] == tr + Stamp(e, purges);
    NoForceWithoutRow(tr, x);
  }

  lemma CallAgrees(h: seq<Input>, tr: seq<Timed>, i: Input, p: Pair, x: Side)
    requires p.Proper() && Agrees(h, tr, p, x)
    ensures Agrees(h + [i], tr + TimedOf(i, p), p, x)
  {
    match i.call
    case Message(from, HealthReportMsg(reports)) => BatchAgrees(h, tr, i, from, reports, p, x);
    case Reaped(gone, deleted) => ReapAgrees(h, tr, i, gone, deleted, p, x);
    case _ => PlainCallAgrees(h, tr, i, p, x);
  }

  lemma PlainCallAgrees(h: seq<Input>, tr: seq<Timed>, i: Input, p: Pair, x: Side)
    requires p.Proper() && Agrees(h, tr, p, x)
    requires !i.call.Reaped? && (i.call.Message? ==> !i.call.msg.HealthReportMsg?)
    ensures Agrees(h + [i], tr + TimedOf(i, p), p, x)
  {
    hide LastMode, LastForce, Up, Less, Stamp, PairOf;
    var e, evs := EnvOf(i.peers, i.relayEnabled, i.now, i.loFirst, p), EventsOf(i, p);
    HistoryOn(h, i, End(p, x), End(p, x.Other()));
    PairOfEnds(p);
    NoForceWithoutRow(tr, x);
    if i.call.Forces? { WhoReports(i.call.a, i.call.b, p, x); }
    if |evs| == 1 && !Idle(evs[0]) {
      assert evs == [] + [evs[0]];
      StampSnoc(e, [], evs[0]);
      assert [] + [Timed(e, evs[0])] == [Timed(e, evs[0])];
      OneEvent(tr, Timed(e, evs[0]), x);
    } else {
      IdleEvents(tr, e, evs, x);
    }
  }

  lemma {:induction false} HistoriesAgree(h: seq<Input>, p: Pair, x: Side)
    requires p.Proper()
    ensures Agrees(h, Project(h, p), p, x)
  {
    if h != [] {
      var l := |h| - 1;
      HistoriesAgree(h[..l], p, x);
      CallAgrees(h[..l], Project(h[..l], p), h[l], p, x);
      assert h == h[..l] + [h[l]];
    }
  }

  /** The link table of a server, row by row: a row exists exactly while a mode is stored, and holds that mode and what
      the last command asked for, nothing after `auto`. */
  lemma LinksTellHistory(s: Server, from: PeerId, to: PeerId)
    requires s.Valid() && from != to
    ensures (from, to) in s.links <==> StoredMode(s.history, from, to).Some?
    ensures (from, to) in s.links ==>
              && Some(s.links[(from, to)].mode) == StoredMode(s.history, from, to)
              && s.links[(from, to)].forced == StoredForce(s.history, from, to)
  {
    hide LogOf, Less, Project, Run, LastMode, LastForce, Up, StoredMode, StoredForce, Online;
    PairOfSymmetric(from, to);
    var p := PairOf(from, to);
    var x := if from == p.lo then Lo else Hi;
    PairOfEnds(p);
    PairHolds(from, to);
    HistoriesAgree(s.history, p, x);
    RowsTellHistory(s.config, Project(s.history, p), x);
    assert s.Slice(p) == Run(s.config, Project(s.history, p));
  }

  lemma PairHolds(a: PeerId, b: PeerId)
    ensures var p := PairOf(a, b); (p.lo == a && p.hi == b) || (p.lo == b && p.hi == a)
  {
  }

  // ----- which call pushed what -----

  /** What the n-th call made the server push about the pair. */
  function PushedBy(c: Config, h: seq<Input>, n: nat, p: Pair): seq<Sent>
    requires n < |h|
  {
    Added(Run(c, Project(h[..n], p)), Run(c, Project(h[..n + 1], p)))
  }

  /** The events before step j of the n-th call. */
  function Upto(h: seq<Input>, n: nat, j: nat, p: Pair): seq<Timed>
    requires n < |h| && j <= |TimedOf(h[n], p)|
  {
    Project(h[..n], p) + TimedOf(h[n], p)[..j]
  }

  /** What step j of the n-th call added to the log. */
  function StepAdds(c: Config, h: seq<Input>, n: nat, j: nat, p: Pair): seq<Sent>
    requires n < |h| && j < |TimedOf(h[n], p)|
  {
    var s := Run(c, Upto(h, n, j, p));
    Added(s, Step(c, s, TimedOf(h[n], p)[j]))
  }

  lemma UptoNext(c: Config, h: seq<Input>, n: nat, j: nat, p: Pair)
    requires n < |h| && j < |TimedOf(h[n], p)|
    ensures Run(c, Upto(h, n, j + 1, p)) == Step(c, Run(c, Upto(h, n, j, p)), TimedOf(h[n], p)[j])
    ensures Run(c, Upto(h, n, j + 1, p)).log == Run(c, Upto(h, n, j, p)).log + StepAdds(c, h, n, j, p)
  {
    hide TimedOf, Project, Step;
    var tr := TimedOf(h[n], p);
    assert Upto(h, n, j + 1, p) == Upto(h, n, j, p) + [tr[j]];
    RunFromAppend(c, INIT, Upto(h, n, j, p), [tr[j]]);
    RunOne(c, Run(c, Upto(h, n, j, p)), tr[j]);
    SoundRun(c, Upto(h, n, j, p));
    DirectEvidence.LogExtends(c, Run(c, Upto(h, n, j, p)), tr[j]);
  }

  /** A message is in what the first j steps of the call added exactly if one of them added it. */
  lemma {:induction false} SomeStepAdds(c: Config, h: seq<Input>, n: nat, j: nat, p: Pair, m: Sent)
    requires n < |h| && j <= |TimedOf(h[n], p)|
    ensures Run(c, Project(h[..n], p)).log <= Run(c, Upto(h, n, j, p)).log
    ensures m in Run(c, Upto(h, n, j, p)).log[|Run(c, Project(h[..n], p)).log|..]
            <==> exists k: nat :: k < j && m in StepAdds(c, h, n, k, p)
    decreases j
  {
    hide TimedOf, Project, Run, StepAdds;
    if j == 0 {
      assert Upto(h, n, 0, p) == Project(h[..n], p);
    } else {
      SomeStepAdds(c, h, n, j - 1, p, m);
      UptoNext(c, h, n, j - 1, p);
      var log0, log1 := Run(c, Project(h[..n], p)).log, Run(c, Upto(h, n, j - 1, p)).log;
      var more := StepAdds(c, h, n, j - 1, p);
      assert (log1 + more)[|log0|..] == log1[|log0|..] + more;
    }
  }

  lemma PushedMeans(c: Config, h: seq<Input>, n: nat, p: Pair, m: Sent)
    requires n < |h|
    ensures m in PushedBy(c, h, n, p) <==> exists k: nat :: k < |TimedOf(h[n], p)| && m in StepAdds(c, h, n, k, p)
    ensures Run(c, Project(h[..n], p)).log + PushedBy(c, h, n, p) == Run(c, Project(h[..n + 1], p)).log
  {
    hide TimedOf, Run, StepAdds;
    var all := |TimedOf(h[n], p)|;
    SomeStepAdds(c, h, n, all, p, m);
    assert h[..n + 1][..|h[..n + 1]| - 1] == h[..n] && h[..n + 1][n] == h[n];
    assert TimedOf(h[n], p)[..all] == TimedOf(h[n], p);
    assert Upto(h, n, all, p) == Project(h[..n + 1], p);
  }

  /** Everything in the log of a pair was pushed by some call. */
  lemma {:induction false} SomeCallPushed(c: Config, h: seq<Input>, p: Pair, m: Sent)
    requires m in Run(c, Project(h, p)).log
    ensures exists n: nat :: n < |h| && m in PushedBy(c, h, n, p)
    decreases |h|
  {
    hide TimedOf, Run;
    if h == [] {
      EmptyLog(c);
    } else {
      var l := |h| - 1;
      PushedMeans(c, h, l, p, m);
      assert h[..l + 1] == h;
      if m in Run(c, Project(h[..l], p)).log {
        SomeCallPushed(c, h[..l], p, m);
        var n: nat :| n < l && m in PushedBy(c, h[..l], n, p);
        assert h[..l][..n] == h[..n] && h[..l][..n + 1] == h[..n + 1];
        assert m in PushedBy(c, h, n, p);
      }
    }
  }

  lemma EmptyLog(c: Config)
    ensures Run(c, []).log == []
  {
  }

  /** The n-th call made the server push the message. */
  predicate Pushes(c: Config, h: seq<Input>, n: nat, m: Push) {
    var p := PairOf(m.to, m.other);
    n < |h| && Sent(SideOf(p, m.to), m.body, m.delivered) in PushedBy(c, h, n, p)
  }

  lemma {:induction false} InLog(box: seq<Push>, m: Push)
    requires m in box
    ensures var p := PairOf(m.to, m.other); Sent(SideOf(p, m.to), m.body, m.delivered) in LogOf(box, p)
  {
    hide PairOf;
    var l := |box| - 1;
    if m != box[l] {
      assert box == box[..l] + [box[l]];
      InLog(box[..l], m);
    }
  }

  /** Everything in the outbox about two peers was pushed by some call. */
  lemma OutboxIsPushed(s: Server, m: Push)
    requires s.Valid() && m in s.outbox && m.to != m.other
    ensures exists n: nat :: Pushes(s.config, s.history, n, m)
  {
    hide LogOf, Less, Project, Run, PushedBy, PairOf;
    var p := PairOf(m.to, m.other);
    PairOfSymmetric(m.to, m.other);
    InLog(s.outbox, m);
    assert s.Slice(p) == Run(s.config, Project(s.history, p));
    assert s.Slice(p).log == LogOf(s.outbox, p);
    SomeCallPushed(s.config, s.history, p, Sent(SideOf(p, m.to), m.body, m.delivered));
    var n: nat :| n < |s.history| && Sent(SideOf(p, m.to), m.body, m.delivered) in PushedBy(s.config, s.history, n, p);
    assert Pushes(s.config, s.history, n, m);
  }
}

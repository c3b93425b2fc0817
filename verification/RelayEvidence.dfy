/** What stands behind a switch-relay verdict. */
module RelayEvidence {
  import opened Common
  import opened PairMachine
  import opened Sessions

  /** The step from s to s' opens a relay probe, and every guard is met: the report of a dead direct path,
      three dead reports in a row on either side, the longer streak serving, no forced mode in the cache or
      the tables, both ends connected, relay enabled. */
  predicate Opening(s: PairState, s': PairState, t: Timed) {
    && t.ev.Report? && !t.ev.rxAlive && t.ev.mode.DirectPath?
    && s.neg.None? && s'.neg.Some? && s'.neg.value.RelayProbe? && s'.health.Some?
    && s'.health.value.streakAB >= STREAK_THRESHOLD && s'.health.value.streakBA >= STREAK_THRESHOLD
    && s'.health.value.Streak(s'.neg.value.server) >= s'.health.value.Streak(s'.neg.value.server.Other())
    && s'.health.value.forced.None? && DbForced(t.env, s).None?
    && s.BothConnected() && t.env.RelayOn(t.ev.from)
  }

  /** From step i on the same relay probe has been active, with no command in between. */
  predicate SameProbeSince(c: Config, tr: seq<Timed>, i: nat)
    requires i < |tr|
  {
    forall k :: i < k < |tr| ==> !tr[k].ev.Force? && ProbeAt(c, tr, k) == ProbeAt(c, tr, i + 1)
  }

  /** The negotiation before step k. */
  function ProbeAt(c: Config, tr: seq<Timed>, k: nat): Option<Neg>
    requires k <= |tr|
  {
    Run(c, tr[..k]).neg
  }

  /** Some step opened the probe now active, which `server` serves, and it has been left alone since. */
  ghost predicate Founded(c: Config, tr: seq<Timed>, server: Side) {
    exists i :: FoundedAt(c, tr, server, i)
  }

  predicate FoundedAt(c: Config, tr: seq<Timed>, server: Side, i: nat) {
    && i < |tr|
    && Opening(Run(c, tr[..i]), Run(c, tr[..i + 1]), tr[i])
    && ProbeAt(c, tr, i + 1).value.server == server
    && SameProbeSince(c, tr, i)
    && ProbeAt(c, tr, |tr|) == ProbeAt(c, tr, i + 1)
  }

  lemma ReportOpens(c: Config, s: PairState, t: Timed)
    requires t.ev.Report? && Sound(s)
    ensures Step(c, s, t).neg != s.neg ==> Opening(s, Step(c, s, t), t)
  {
  }

  /** A step that leaves a relay probe active has left it untouched or has opened it. */
  lemma RelayStep(c: Config, s: PairState, t: Timed)
    requires Sound(s)
    ensures var s' := Step(c, s, t);
            s'.neg.Some? && s'.neg.value.RelayProbe? ==> (s'.neg == s.neg && !t.ev.Force?) || Opening(s, s', t)
  {
    if t.ev.Report? {
      ReportOpens(c, s, t);
    }
  }

  lemma {:induction false} ActiveProbeIsFounded(c: Config, tr: seq<Timed>)
    ensures var n := Run(c, tr).neg;
            n.Some? && n.value.RelayProbe? ==> Founded(c, tr, n.value.server)
  {
    if tr != [] && Run(c, tr).neg.Some? && Run(c, tr).neg.value.RelayProbe? {
      var before := tr[..|tr| - 1];
      var server := Run(c, tr).neg.value.server;
      SoundRun(c, before);
      RelayStep(c, Run(c, before), tr[|tr| - 1]);
      assert tr[..|tr|] == tr;
      if Run(c, tr).neg == Run(c, before).neg && !tr[|tr| - 1].ev.Force? {
        ActiveProbeIsFounded(c, before);
        var i :| FoundedAt(c, before, server, i);
        PrefixesAgree(c, tr, server, i);
      } else {
        assert FoundedAt(c, tr, server, |tr| - 1);
      }
    }
  }

  lemma PrefixesAgree(c: Config, tr: seq<Timed>, server: Side, i: nat)
    requires tr != [] && FoundedAt(c, tr[..|tr| - 1], server, i)
    requires !tr[|tr| - 1].ev.Force? && ProbeAt(c, tr, |tr|) == ProbeAt(c, tr, |tr| - 1)
    ensures FoundedAt(c, tr, server, i)
  {
    var before := tr[..|tr| - 1];
    forall k | 0 <= k <= |before| ensures before[..k] == tr[..k] {
    }
    assert before[..|before|] == before;
    forall k | i < k < |tr| ensures !tr[k].ev.Force? && ProbeAt(c, tr, k) == ProbeAt(c, tr, i + 1) {
      if k < |before| {
        assert before[k] == tr[k] && ProbeAt(c, before, k) == ProbeAt(c, tr, k);
      }
    }
  }

  /** The step from s to s' sends the verdict to some end. */
  predicate Decides(s: PairState, s': PairState, a: Action) {
    exists i :: 0 <= i < |Added(s, s')| && Added(s, s')[i].body == ProbeVerdict(a)
  }

  /** Only the end of a session by that verdict adds it to the log. */
  lemma VerdictEndsSession(s: PairState, s': PairState, m: Move, a: Action)
    requires Makes(s, s', m)
    ensures Decides(s, s', a) ==> m == Ends(Verdict(a))
  {
    hide Makes, Added;
    AddedByMove(s, s', m);
  }

  lemma VerdictComesFromResult(c: Config, s: PairState, t: Timed)
    requires Sound(s) && Decides(s, Step(c, s, t), SwitchRelay)
    ensures s.neg.Some? && s.neg.value.RelayProbe? && t.ev == RelayResult(s.neg.value.server.Other(), true)
  {
    StepMakesMove(c, s, t);
    VerdictEndsSession(s, Step(c, s, t), MoveOf(s, Step(c, s, t), t), SwitchRelay);
  }

  /** Evidence for switch-relay: the step that sends such a verdict is the success report of the chosen
      client, and it ends a relay probe that one earlier report of a dead direct path opened with both
      streaks at least three, both ends connected, relay enabled, no forced mode known to the cache or the
      tables, and no command since. */
  lemma {:induction false} SwitchRelayIsFounded(c: Config, tr: seq<Timed>)
    requires tr != [] && Decides(Run(c, tr[..|tr| - 1]), Run(c, tr), SwitchRelay)
    ensures var before := tr[..|tr| - 1];
            var n := Run(c, before).neg;
            && n.Some? && n.value.RelayProbe?
            && tr[|tr| - 1].ev == RelayResult(n.value.server.Other(), true)
            && Founded(c, before, n.value.server)
  {
    var before := tr[..|tr| - 1];
    SoundRun(c, before);
    VerdictComesFromResult(c, Run(c, before), tr[|tr| - 1]);
    ActiveProbeIsFounded(c, before);
  }

  // ----- what the client is told lets it pass -----

  /** The body of the client's POST to the TCP probe server: what its check told it. */
  datatype Post = Post(clientPubkey: string, serverPubkey: string, nonce: string)

  function PostOf(check: Body): Post
    requires check.ProbeRelayCheck?
  {
    Post(check.clientPubkey, check.serverPubkey, check.nonce)
  }

  /** The answer of a probe server that made `nonce` on the node with key `selfPubkey`. */
  predicate Accepts(nonce: string, selfPubkey: string, post: Post) {
    post.nonce == nonce && post.serverPubkey == selfPubkey && post.clientPubkey != ""
  }

  lemma OnlyReadyChecks(c: Config, s: PairState, t: Timed)
    requires Sound(s) && MoveOf(s, Step(c, s, t), t).Checks?
    ensures t.ev.RelayReady?
  {
  }

  lemma CheckOfReady(c: Config, s: PairState, t: Timed, m: Sent)
    requires Sound(s) && t.ev.RelayReady? && m in Added(s, Step(c, s, t)) && m.body.ProbeRelayCheck?
    ensures var x := t.ev.from;
            && s.neg.Some? && s.neg.value.RelayProbe? && x == s.neg.value.server && m.to == x.Other()
            && InfoOf(t.env, x).Some? && InfoOf(t.env, x.Other()).Some?
            && m.body == ProbeRelayCheck(t.ev.meshIpv4, t.ev.tcpPort, t.ev.nonce,
                                         InfoOf(t.env, x.Other()).value.pubkey, InfoOf(t.env, x).value.pubkey)
  {
  }

  lemma ChecksAreMoves(s: PairState, s': PairState, m: Move, sent: Sent)
    requires Makes(s, s', m) && sent in Added(s, s') && sent.body.ProbeRelayCheck?
    ensures m.Checks?
  {
    hide Makes, Added;
    AddedByMove(s, s', m);
  }

  /** Whenever a check is sent it goes to the client of the active relay probe and points it at the address and
      port its server has just announced; and what the client then posts is accepted by that server, provided
      the table holds the server's true key, if and only if the table holds a key for the client. */
  lemma HonestProbeIsAccepted(c: Config, s: PairState, t: Timed, m: Sent, selfPubkey: string)
    requires Sound(s) && m in Added(s, Step(c, s, t)) && m.body.ProbeRelayCheck?
    ensures t.ev.RelayReady? && s.neg.Some? && s.neg.value.RelayProbe?
            && t.ev.from == s.neg.value.server && m.to == s.neg.value.server.Other()
    ensures m.body.meshIpv4 == t.ev.meshIpv4 && m.body.tcpPort == t.ev.tcpPort
    ensures InfoOf(t.env, t.ev.from).Some? && InfoOf(t.env, m.to).Some?
    ensures InfoOf(t.env, t.ev.from).value.pubkey == selfPubkey ==>
              (Accepts(t.ev.nonce, selfPubkey, PostOf(m.body)) <==> InfoOf(t.env, m.to).value.pubkey != "")
  {
    hide Added, Makes, MoveOf;
    StepMakesMove(c, s, t);
    ChecksAreMoves(s, Step(c, s, t), MoveOf(s, Step(c, s, t), t), m);
    OnlyReadyChecks(c, s, t);
    CheckOfReady(c, s, t, m);
  }
}

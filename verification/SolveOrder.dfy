/** The order of things in a solve, over every run cut at any await: presents,
    then visibility, then the one `set_ready`, then `finalize`; and what the
    cleanup guard guarantees throughout. */
module SolveOrder {
  import opened Prelude
  import opened Solver

  // --- What a log must look like ----------------------------------------------------

  /** The records whose `present` was started, in order. */
  function StartedIn(log: seq<Entry>): seq<Challenge> {
    if log == [] then []
    else
      var n := |log| - 1;
      StartedIn(log[..n]) + if log[n].PresentStarted? then [log[n].c] else []
  }

  /** The ACME server has not been told anything yet. */
  ghost predicate Quiet(log: seq<Entry>) {
    forall e | e in log :: !e.ReadySent? && !e.ReadyOk? && !e.FinalizeOk?
  }

  ghost predicate ConfirmedBetween(log: seq<Entry>, a: nat, b: nat, c: Challenge, t: Target)
    requires b <= |log|
  {
    exists m :: a < m < b && log[m] == Confirmed(c, t)
  }

  /** Since `c` was presented, the targets in `ts` have confirmed it. */
  ghost predicate Heard(log: seq<Entry>, c: Challenge, ts: set<Target>) {
    exists a: nat :: a < |log| && log[a] == Presented(c)
      && forall t | t in ts :: ConfirmedBetween(log, a, |log|, c, t)
  }

  ghost predicate SeenAt(log: seq<Entry>, c: Challenge, a: nat, b: nat) {
    && a < b < |log| && log[a] == Presented(c)
    && log[b].Visible? && log[b].c == c && log[b].targets != {}
    && forall t | t in log[b].targets :: ConfirmedBetween(log, a, b, c, t)
  }

  /** Since `c` was presented, every polled target has confirmed it. */
  ghost predicate Seen(log: seq<Entry>, c: Challenge) {
    exists a: nat, b: nat :: SeenAt(log, c, a, b)
  }

  /** Everything `set_ready` waits for: every challenge presented and then seen
      by all polled targets, or the configured delay slept after presenting. */
  ghost predicate Cleared(log: seq<Entry>, challenges: seq<Challenge>) {
    || (forall c | c in challenges :: Seen(log, c))
    || (log != [] && log[|log| - 1] == Slept && forall c | c in challenges :: Presented(c) in log)
  }

  ghost predicate AfterReady(log: seq<Entry>, challenges: seq<Challenge>, tail: seq<Entry>) {
    && |tail| <= |log|
    && var n := |log| - |tail|;
       log[n..] == tail && Quiet(log[..n]) && Cleared(log[..n], challenges) && StartedIn(log[..n]) == challenges
  }

  ghost predicate Shaped(log: seq<Entry>, challenges: seq<Challenge>) {
    || Quiet(log)
    || AfterReady(log, challenges, [ReadySent])
    || AfterReady(log, challenges, [ReadySent, ReadyOk])
    || AfterReady(log, challenges, [ReadySent, ReadyOk, FinalizeOk])
  }

  ghost predicate PhaseFits(log: seq<Entry>, cs: seq<Challenge>, phase: Phase) {
    match phase
    case Collecting => Quiet(log)
    case Presenting => Quiet(log)
    case Sleeping => Quiet(log)
    case Confirming(n) => Quiet(log) && n <= |cs| && AllSeen(log, cs, n)
    case Polling(n, targets, silent) => Quiet(log) && n < |cs| && AllSeen(log, cs, n) &&
        Heard(log, cs[n], targets - silent)
    case Readying => AfterReady(log, cs, [ReadySent])
    case Finalizing => AfterReady(log, cs, [ReadySent, ReadyOk])
    case Cleaning(ok, _) => Shaped(log, cs) && (ok <==> FinalizeOk in log)
    case Finished(ok) => Shaped(log, cs) && (ok <==> FinalizeOk in log)
    case _ => Shaped(log, cs)
  }

  /** The presents the log shows are those the solve counts. */
  ghost predicate PresentsFit(log: seq<Entry>, cs: seq<Challenge>, pushed: nat, presented: nat) {
    && presented <= pushed <= |cs| && StartedIn(log) == cs[..pushed]
    && forall j | 0 <= j < presented :: Presented(cs[j]) in log
  }

  ghost predicate LogOk(s: Solve) {
    PresentsFit(s.log, s.challenges, s.pushed, s.presented) && PhaseFits(s.log, s.challenges, s.phase)
  }

  // --- Logs only grow ------------------------------------------------------------------

  lemma StartedInAppend(log: seq<Entry>, e: Entry)
    ensures StartedIn(log + [e]) == StartedIn(log) + if e.PresentStarted? then [e.c] else []
  {
    assert (log + [e])[..|log|] == log;
  }

  lemma SeenGrows(log: seq<Entry>, e: Entry, c: Challenge)
    requires Seen(log, c)
    ensures Seen(log + [e], c)
  {
    var log' := log + [e];
    var a: nat, b: nat :| SeenAt(log, c, a, b);
    forall t | t in log'[b].targets ensures ConfirmedBetween(log', a, b, c, t) {
      assert ConfirmedBetween(log, a, b, c, t);
      var m :| a < m < b && log[m] == Confirmed(c, t);
      assert log'[m] == Confirmed(c, t);
    }
    assert SeenAt(log', c, a, b);
  }

  ghost predicate AllSeen(log: seq<Entry>, cs: seq<Challenge>, n: nat)
    requires n <= |cs|
  {
    forall j | 0 <= j < n :: Seen(log, cs[j])
  }

  lemma AllSeenGrows(log: seq<Entry>, e: Entry, cs: seq<Challenge>, n: nat)
    requires n <= |cs| && AllSeen(log, cs, n)
    ensures AllSeen(log + [e], cs, n)
  {
    forall j | 0 <= j < n ensures Seen(log + [e], cs[j]) {
      SeenGrows(log, e, cs[j]);
    }
  }

  lemma HeardGrows(log: seq<Entry>, c: Challenge, ts: set<Target>, t: Target)
    requires Heard(log, c, ts)
    ensures Heard(log + [Confirmed(c, t)], c, ts + {t})
  {
    var log' := log + [Confirmed(c, t)];
    var a: nat :| a < |log| && log[a] == Presented(c)
      && forall u | u in ts :: ConfirmedBetween(log, a, |log|, c, u);
    forall u | u in ts + {t} ensures ConfirmedBetween(log', a, |log'|, c, u) {
      if u in ts {
        assert ConfirmedBetween(log, a, |log|, c, u);
        var m :| a < m < |log| && log[m] == Confirmed(c, u);
        assert log'[m] == Confirmed(c, u);
      } else {
        assert log'[|log|] == Confirmed(c, u);
      }
    }
    assert log'[a] == Presented(c);
  }

  lemma HeardIsSeen(log: seq<Entry>, c: Challenge, ts: set<Target>)
    requires Heard(log, c, ts) && ts != {}
    ensures Seen(log + [Visible(c, ts)], c)
  {
    var log' := log + [Visible(c, ts)];
    var a: nat :| a < |log| && log[a] == Presented(c)
      && forall u | u in ts :: ConfirmedBetween(log, a, |log|, c, u);
    forall u | u in ts ensures ConfirmedBetween(log', a, |log|, c, u) {
      assert ConfirmedBetween(log, a, |log|, c, u);
      var m :| a < m < |log| && log[m] == Confirmed(c, u);
      assert log'[m] == Confirmed(c, u);
    }
    assert SeenAt(log', c, a, |log|);
  }

  lemma ReadyAppends(log: seq<Entry>, challenges: seq<Challenge>, tail: seq<Entry>, e: Entry)
    requires AfterReady(log, challenges, tail)
    ensures AfterReady(log + [e], challenges, tail + [e])
  {
    var n := |log| - |tail|;
    assert (log + [e])[..n] == log[..n];
    assert (log + [e])[n..] == log[n..] + [e];
  }

  lemma FinalizeOkIffTail(log: seq<Entry>, challenges: seq<Challenge>, tail: seq<Entry>)
    requires AfterReady(log, challenges, tail)
    ensures FinalizeOk in log <==> FinalizeOk in tail
  {
    var n := |log| - |tail|;
    assert log == log[..n] + log[n..];
  }

  lemma PresentsGrow(log: seq<Entry>, e: Entry, cs: seq<Challenge>, pushed: nat, presented: nat)
    requires PresentsFit(log, cs, pushed, presented) && !e.PresentStarted?
    ensures PresentsFit(log + [e], cs, pushed, presented)
    ensures presented < pushed && e == Presented(cs[presented]) ==> PresentsFit(log + [e], cs, pushed, presented + 1)
  {
    StartedInAppend(log, e);
  }

  // --- Every step keeps the log in shape --------------------------------------------------

  lemma StartKeepsLog(s: Solve)
    requires BooksOk(s) && LogOk(s) && CanStart(s)
    ensures LogOk(AfterStart(s))
  {
    if s.phase.Collecting? {
      var c := s.challenges[s.pushed];
      StartedInAppend(s.log, PresentStarted(c));
      assert s.challenges[..s.pushed + 1] == s.challenges[..s.pushed] + [c];
    }
  }

  /** The record being presented is the last one pushed. */
  lemma LastPending(s: Solve)
    requires BooksOk(s) && s.phase.Presenting?
    ensures s.ledger.pending != [] && s.ledger.pending[|s.ledger.pending| - 1] == s.challenges[s.presented]
  {
    assert s.ledger.pending == s.challenges[..s.pushed];
  }

  lemma PresentFits(log: seq<Entry>, cs: seq<Challenge>, pushed: nat, presented: nat)
    requires PresentsFit(log, cs, pushed, presented) && Quiet(log) && presented < pushed
    ensures PresentsFit(log + [Presented(cs[presented])], cs, pushed, presented + 1)
    ensures Quiet(log + [Presented(cs[presented])])
  {
    PresentsGrow(log, Presented(cs[presented]), cs, pushed, presented);
  }

  lemma FinishKeepsLog(s: Solve, ok: bool, s': Solve)
    requires BooksOk(s) && LogOk(s) && FinishStep(s, ok, s')
    ensures LogOk(s')
  {
    if s.phase.Presenting? {
      LastPending(s);
      PresentFits(s.log, s.challenges, s.pushed, s.presented);
    } else {
      assert s'.log == s.log && s'.pushed == s.pushed && s'.presented == s.presented;
    }
  }

  lemma DropKeepsLog(s: Solve, s': Solve)
    requires BooksOk(s) && LogOk(s) && DropStep(s, s')
    ensures LogOk(s')
  {
  }

  /** Telling the ACME server: from a quiet log with everything cleared. */
  lemma ReadyFits(log: seq<Entry>, cs: seq<Challenge>)
    requires Quiet(log) && Cleared(log, cs) && StartedIn(log) == cs
    ensures PhaseFits(log + [ReadySent], cs, Readying)
  {
    var log' := log + [ReadySent];
    assert log'[..|log|] == log && log'[|log|..] == [ReadySent];
  }

  lemma SleepKeepsLog(log: seq<Entry>, cs: seq<Challenge>)
    requires Quiet(log) && PresentsFit(log, cs, |cs|, |cs|)
    ensures PresentsFit(log + [Slept] + [ReadySent], cs, |cs|, |cs|) &&
        PhaseFits(log + [Slept] + [ReadySent], cs, Readying)
  {
    PresentsGrow(log, Slept, cs, |cs|, |cs|);
    PresentsGrow(log + [Slept], ReadySent, cs, |cs|, |cs|);
    forall c | c in cs ensures Presented(c) in log + [Slept] {
      var j :| 0 <= j < |cs| && cs[j] == c;
    }
    assert cs[..|cs|] == cs;
    ReadyFits(log + [Slept], cs);
  }

  lemma AllSeenSendsReady(log: seq<Entry>, cs: seq<Challenge>)
    requires Quiet(log) && PresentsFit(log, cs, |cs|, |cs|) && AllSeen(log, cs, |cs|)
    ensures PresentsFit(log + [ReadySent], cs, |cs|, |cs|) && PhaseFits(log + [ReadySent], cs, Readying)
  {
    PresentsGrow(log, ReadySent, cs, |cs|, |cs|);
    assert cs[..|cs|] == cs;
    ReadyFits(log, cs);
  }

  lemma HearFits(log: seq<Entry>, cs: seq<Challenge>, n: nat, targets: set<Target>, silent: set<Target>, t: Target)
    requires PhaseFits(log, cs, Polling(n, targets, silent)) && t in silent && silent <= targets
    ensures PhaseFits(log + [Confirmed(cs[n], t)], cs, Polling(n, targets, silent - {t}))
  {
    HeardGrows(log, cs[n], targets - silent, t);
    assert targets - silent + {t} == targets - (silent - {t});
    AllSeenGrows(log, Confirmed(cs[n], t), cs, n);
  }

  lemma VisibleFits(log: seq<Entry>, cs: seq<Challenge>, n: nat, targets: set<Target>)
    requires PhaseFits(log, cs, Polling(n, targets, {})) && targets != {}
    ensures PhaseFits(log + [Visible(cs[n], targets)], cs, Confirming(n + 1))
  {
    assert targets - {} == targets;
    HeardIsSeen(log, cs[n], targets);
    AllSeenGrows(log, Visible(cs[n], targets), cs, n);
  }

  lemma StartPollFits(log: seq<Entry>, cs: seq<Challenge>, n: nat, ts: set<Target>)
    requires PhaseFits(log, cs, Confirming(n)) && n < |cs| && Presented(cs[n]) in log
    ensures PhaseFits(log, cs, Polling(n, ts, ts))
  {
    var a :| 0 <= a < |log| && log[a] == Presented(cs[n]);
    assert ts - ts == {};
    assert Heard(log, cs[n], {});
  }

  /** While polling, the guard holds all the challenges. */
  lemma PendingIsAll(s: Solve)
    requires BooksOk(s) && (s.phase.Polling? || s.phase.Confirming? || s.phase.Sleeping?)
    ensures s.ledger.pending == s.challenges && s.pushed == s.presented == |s.challenges|
  {
    assert s.challenges[..s.pushed] == s.challenges;
  }

  lemma PollKeepsLog(s: Solve, s': Solve)
    requires BooksOk(s) && LogOk(s) && s.phase.Polling? && OwnStep(s, s')
    ensures LogOk(s')
  {
    PendingIsAll(s);
    var c, cs := s.challenges[s.phase.next], s.challenges;
    if s'.phase.Polling? {
      var t :| t in s.phase.silent &&
        s' == Logged(s, Confirmed(c, t)).(phase := s.phase.(silent := s.phase.silent - {t}));
      PresentsGrow(s.log, Confirmed(c, t), cs, s.pushed, s.presented);
      HearFits(s.log, cs, s.phase.next, s.phase.targets, s.phase.silent, t);
    } else if s'.phase.Confirming? {
      PresentsGrow(s.log, Visible(c, s.phase.targets), cs, s.pushed, s.presented);
      VisibleFits(s.log, cs, s.phase.next, s.phase.targets);
    }
  }

  lemma ConfirmKeepsLog(s: Solve, s': Solve)
    requires BooksOk(s) && LogOk(s) && (s.phase.Confirming? || s.phase.Sleeping?) && OwnStep(s, s')
    ensures LogOk(s')
  {
    PendingIsAll(s);
    if s.phase.Sleeping? {
      SleepKeepsLog(s.log, s.challenges);
    } else if s'.phase.Readying? {
      AllSeenSendsReady(s.log, s.challenges);
    } else if s'.phase.Polling? {
      StartPollFits(s.log, s.challenges, s.phase.next, s'.phase.targets);
    }
  }

  lemma ReplyFits(log: seq<Entry>, cs: seq<Challenge>)
    ensures PhaseFits(log, cs, Readying) ==>
              PhaseFits(log, cs, Cleaning(false, false)) && PhaseFits(log + [ReadyOk], cs, Finalizing)
    ensures PhaseFits(log, cs, Finalizing) ==>
              PhaseFits(log, cs, Cleaning(false, false)) && PhaseFits(log + [FinalizeOk], cs, Cleaning(true, false))
  {
    if AfterReady(log, cs, [ReadySent]) {
      FinalizeOkIffTail(log, cs, [ReadySent]);
      ReadyAppends(log, cs, [ReadySent], ReadyOk);
      assert [ReadySent] + [ReadyOk] == [ReadySent, ReadyOk];
    }
    if AfterReady(log, cs, [ReadySent, ReadyOk]) {
      FinalizeOkIffTail(log, cs, [ReadySent, ReadyOk]);
      ReadyAppends(log, cs, [ReadySent, ReadyOk], FinalizeOk);
      assert [ReadySent, ReadyOk] + [FinalizeOk] == [ReadySent, ReadyOk, FinalizeOk];
    }
  }

  lemma AcmeKeepsLog(s: Solve, s': Solve)
    requires BooksOk(s) && LogOk(s) && (s.phase.Readying? || s.phase.Finalizing?) && OwnStep(s, s')
    ensures LogOk(s')
  {
    ReplyFits(s.log, s.challenges);
    PresentsGrow(s.log, ReadyOk, s.challenges, s.pushed, s.presented);
    PresentsGrow(s.log, FinalizeOk, s.challenges, s.pushed, s.presented);
  }

  lemma OwnKeepsLog(s: Solve, s': Solve)
    requires BooksOk(s) && LogOk(s) && OwnStep(s, s')
    ensures LogOk(s')
  {
    match s.phase
    case Polling(_, _, _) => PollKeepsLog(s, s');
    case Confirming(_) => ConfirmKeepsLog(s, s');
    case Sleeping => ConfirmKeepsLog(s, s');
    case Readying => AcmeKeepsLog(s, s');
    case Finalizing => AcmeKeepsLog(s, s');
    case _ =>
  }

  lemma StepKeepsLog(s: Solve, a: Act, s': Solve)
    requires BooksOk(s) && LogOk(s) && Step(s, a, s')
    ensures BooksOk(s') && LogOk(s')
  {
    StepKeepsBooks(s, a, s');
    match a
    case Tau => if OwnStep(s, s') { OwnKeepsLog(s, s'); } else { DropKeepsLog(s, s'); }
    case Start(_) => StartKeepsLog(s);
    case Finish(ok) => FinishKeepsLog(s, ok, s');
    case Abort => DropKeepsLog(s, s');
  }

  // --- Over whole runs -----------------------------------------------------------------------

  ghost predicate IsRun(run: seq<Solve>, acts: seq<Act>) {
    && |run| == |acts| + 1 && run[0] == Fresh(run[0].challenges)
    && forall i | 0 <= i < |acts| :: Step(run[i], acts[i], run[i + 1])
  }

  lemma {:induction false} RunKeeps(run: seq<Solve>, acts: seq<Act>, i: nat)
    requires IsRun(run, acts) && i < |run|
    ensures BooksOk(run[i]) && LogOk(run[i])
  {
    if i == 0 {
      FreshBooks(run[0].challenges);
    } else {
      RunKeeps(run, acts, i - 1);
      assert Step(run[i - 1], acts[i - 1], run[i]);
      StepKeepsLog(run[i - 1], acts[i - 1], run[i]);
    }
  }

  lemma TailIsAfterReady(log: seq<Entry>, challenges: seq<Challenge>, tail: seq<Entry>, r: nat)
    requires tail == [ReadySent] || tail == [ReadySent, ReadyOk] || tail == [ReadySent, ReadyOk, FinalizeOk]
    requires AfterReady(log, challenges, tail) && r < |log| && log[r] == ReadySent
    ensures StartedIn(log[..r]) == challenges && Cleared(log[..r], challenges)
    ensures forall j | r < j < |log| :: !log[j].PresentStarted? && !log[j].Presented? && log[j] != ReadySent
    ensures forall j | 0 <= j < |log| && log[j] == FinalizeOk :: r < j - 1 && log[j - 1] == ReadyOk
  {
    var n := |log| - |tail|;
    forall j | 0 <= j < n ensures log[j] in log[..n] {
      assert log[..n][j] == log[j];
    }
    assert forall j | n <= j < |log| :: log[j] == log[n..][j - n];
    assert r == n;
  }

  /** In every run, `set_ready` is sent at most once, after every present and
      only when everything is cleared; `finalize` succeeds only after
      `set_ready` succeeded. */
  lemma ReadyComesLast(run: seq<Solve>, acts: seq<Act>, i: nat, r: nat)
    requires IsRun(run, acts) && i < |run| && r < |run[i].log| && run[i].log[r] == ReadySent
    ensures var log, challenges := run[i].log, run[i].challenges;
            && StartedIn(log[..r]) == challenges && Cleared(log[..r], challenges)
            && (forall j | r < j < |log| :: !log[j].PresentStarted? && !log[j].Presented? && log[j] != ReadySent)
            && (forall j | 0 <= j < |log| && log[j] == FinalizeOk :: r < j - 1 && log[j - 1] == ReadyOk)
  {
    RunKeeps(run, acts, i);
    var s := run[i];
    assert s.log[r] in s.log;
    assert Shaped(s.log, s.challenges) && !Quiet(s.log);
    var tail := if AfterReady(s.log, s.challenges, [ReadySent]) then [ReadySent]
                else if AfterReady(s.log, s.challenges, [ReadySent, ReadyOk]) then [ReadySent, ReadyOk]
                else [ReadySent, ReadyOk, FinalizeOk];
    TailIsAfterReady(s.log, s.challenges, tail, r);
  }

  /** The outcome is decided by `finalize` alone: whether cleanups succeed,
      fail or number none does not change it. */
  lemma CleanupNeverChangesTheOutcome(run: seq<Solve>, acts: seq<Act>, i: nat)
    requires IsRun(run, acts) && i < |run| && run[i].phase.Finished?
    ensures run[i].phase.ok <==> FinalizeOk in run[i].log
  {
    RunKeeps(run, acts, i);
  }

  /** In every state of every run, each record whose present was started is
      cleaned or still accounted for, in push order. Once `run` or the spawned
      task is through, the completed cleanups are exactly the pushed records,
      in order and once each. */
  lemma EveryRecordIsAccountedFor(run: seq<Solve>, acts: seq<Act>, i: nat)
    requires IsRun(run, acts) && i < |run|
    ensures StartedIn(run[i].log) == run[i].ledger.finished + Remaining(run[i])
    ensures run[i].phase.Finished? || run[i].phase.Drained? ==> run[i].ledger.finished == StartedIn(run[i].log)
  {
    RunKeeps(run, acts, i);
    var s := run[i];
    assert s.ledger.finished + [] == s.ledger.finished;
  }

  /** At most one cleanup is started twice, the one in flight when the solve
      was dropped: the starts are the first `a` pushed records, then, after a
      drop, a stretch that begins with record `b`, and `b >= a - 1`. */
  lemma AtMostOneCleanupStartsTwice(run: seq<Solve>, acts: seq<Act>, i: nat) returns (a: nat, b: nat, c: nat)
    requires IsRun(run, acts) && i < |run|
    ensures a <= b + 1 && b <= c <= |run[i].challenges| && a <= |run[i].challenges|
    ensures run[i].ledger.started == run[i].challenges[..a] + run[i].challenges[b..c]
    ensures run[i].drop.None? ==> b == c
  {
    RunKeeps(run, acts, i);
    var s := run[i];
    match s.drop
    case None =>
      a, b, c := s.touched, s.touched, s.touched;
      assert s.challenges[b..c] == [];
    case Some(cut) =>
      a, b, c := cut.touched, cut.finished, cut.finished + |s.ledger.started| - cut.touched;
  }
}

/** Waiting with a deadline: the nameserver sweep behind
    `wait_for_propagation`, and the change polling of Route53 and Google Cloud
    DNS. Clocks and answers are oracles; time is counted in whole units. */
module Polling {
  import opened Prelude

  // --- Sweeping the nameservers ---------------------------------------------------------

  /** A nameserver, or the one fallback resolver. */
  type Nameserver = string

  /** `confirms(t, n)` is the answer target `t` would give in sweep `n`. */
  ghost predicate ConfirmedBefore(confirms: (Nameserver, nat) -> bool, t: Nameserver, n: nat) {
    exists k: nat :: k < n && confirms(t, k)
  }

  /** The targets a sweep leaves pending. */
  function Unconfirmed(confirms: (Nameserver, nat) -> bool, pending: seq<Nameserver>, n: nat): seq<Nameserver> {
    if pending == [] then []
    else
      var last := |pending| - 1;
      Unconfirmed(confirms, pending[..last], n) + if confirms(pending[last], n) then [] else [pending[last]]
  }

  /** The targets pending before sweep `n`. */
  function PendingAt(confirms: (Nameserver, nat) -> bool, targets: seq<Nameserver>, n: nat): seq<Nameserver> {
    if n == 0 then targets else Unconfirmed(confirms, PendingAt(confirms, targets, n - 1), n - 1)
  }

  lemma {:induction false} UnconfirmedMembers(confirms: (Nameserver, nat) -> bool, pending: seq<Nameserver>, n: nat,
                                              t: Nameserver)
    ensures t in Unconfirmed(confirms, pending, n) <==> t in pending && !confirms(t, n)
  {
    if pending != [] {
      var last := |pending| - 1;
      UnconfirmedMembers(confirms, pending[..last], n, t);
      assert pending == pending[..last] + [pending[last]];
    }
  }

  lemma ConfirmedStep(confirms: (Nameserver, nat) -> bool, t: Nameserver, n: nat)
    ensures ConfirmedBefore(confirms, t, n + 1) <==> ConfirmedBefore(confirms, t, n) || confirms(t, n)
  {
    if ConfirmedBefore(confirms, t, n) {
      var k: nat :| k < n && confirms(t, k);
      assert k < n + 1 && confirms(t, k);
    }
  }

  /** Exactly the targets without a confirmation are asked again. */
  lemma {:induction false} PendingMeansNeverConfirmed(confirms: (Nameserver, nat) -> bool, targets: seq<Nameserver>,
                                                      n: nat, t: Nameserver)
    ensures t in PendingAt(confirms, targets, n) <==> t in targets && !ConfirmedBefore(confirms, t, n)
  {
    if n > 0 {
      PendingMeansNeverConfirmed(confirms, targets, n - 1, t);
      UnconfirmedMembers(confirms, PendingAt(confirms, targets, n - 1), n - 1, t);
      ConfirmedStep(confirms, t, n - 1);
    }
  }

  /** One sweep, one target at a time; `asked` are the targets queried. */
  method Sweep(confirms: (Nameserver, nat) -> bool, pending: seq<Nameserver>, n: nat)
    returns (left: seq<Nameserver>, asked: seq<Nameserver>)
    ensures left == Unconfirmed(confirms, pending, n) && asked == pending
  {
    left, asked := [], [];
    for i := 0 to |pending|
      invariant left == Unconfirmed(confirms, pending[..i], n) && asked == pending[..i]
    {
      assert pending[..i + 1][..i] == pending[..i];
      asked := asked + [pending[i]];
      if !confirms(pending[i], n) {
        left := left + [pending[i]];
      }
    }
    assert pending[..|pending|] == pending;
  }

  /** Sweep `k` ends with someone pending and time left. */
  predicate GoesOn(confirms: (Nameserver, nat) -> bool, targets: seq<Nameserver>, elapsed: nat -> nat, timeout: nat,
                   k: nat) {
    PendingAt(confirms, targets, k + 1) != [] && elapsed(k) < timeout
  }

  predicate TimedOut(elapsed: nat -> nat, timeout: nat, n: nat) {
    elapsed(n) >= timeout
  }

  predicate SweepWentOn(confirms: (Nameserver, nat) -> bool, targets: seq<Nameserver>, elapsed: nat -> nat,
                        timeout: nat, k: nat, queried: seq<Nameserver>) {
    queried == PendingAt(confirms, targets, k) && GoesOn(confirms, targets, elapsed, timeout, k)
  }

  /** The sweeps so far, by the targets they queried: each asked exactly those
      pending, and all went on. */
  ghost predicate WentOn(confirms: (Nameserver, nat) -> bool, targets: seq<Nameserver>, elapsed: nat -> nat,
                         timeout: nat, asked: seq<seq<Nameserver>>) {
    forall k | 0 <= k < |asked| :: SweepWentOn(confirms, targets, elapsed, timeout, k, asked[k])
  }

  /** `elapsed(n)` is the time on the clock after sweep `n`; `horizon` is a
      sweep by which the timeout is up. `asked` are the targets queried in the
      sweeps before the last, and `last` those of the last one. */
  method PollUntilAllConfirm(targets: seq<Nameserver>, confirms: (Nameserver, nat) -> bool, elapsed: nat -> nat,
                             timeout: nat, ghost horizon: nat)
    returns (ok: bool, asked: seq<seq<Nameserver>>, last: seq<Nameserver>)
    requires TimedOut(elapsed, timeout, horizon)
    ensures WentOn(confirms, targets, elapsed, timeout, asked) && last == PendingAt(confirms, targets, |asked|)
    ensures ok <==> PendingAt(confirms, targets, |asked| + 1) == []
    ensures !ok ==> TimedOut(elapsed, timeout, |asked|)
  {
    var pending := targets;
    asked := [];
    while true
      invariant |asked| <= horizon
      invariant pending == PendingAt(confirms, targets, |asked|)
      invariant WentOn(confirms, targets, elapsed, timeout, asked)
      decreases horizon - |asked|
    {
      var n := |asked|;
      pending, last := Sweep(confirms, pending, n);
      assert pending == PendingAt(confirms, targets, n + 1);
      if pending == [] {
        return true, asked, last;
      }
      if TimedOut(elapsed, timeout, n) {
        return false, asked, last;
      }
      assert SweepWentOn(confirms, targets, elapsed, timeout, n, last);
      asked := asked + [last];
    }
  }

  /** All targets have confirmed in the sweeps up to and including `n`. */
  ghost predicate AllConfirmedBy(targets: seq<Nameserver>, confirms: (Nameserver, nat) -> bool, n: nat) {
    forall t | t in targets :: ConfirmedBefore(confirms, t, n + 1)
  }

  lemma NobodyPending(targets: seq<Nameserver>, confirms: (Nameserver, nat) -> bool, n: nat)
    ensures PendingAt(confirms, targets, n + 1) == [] <==> AllConfirmedBy(targets, confirms, n)
  {
    var left := PendingAt(confirms, targets, n + 1);
    forall t: Nameserver ensures t in left <==> t in targets && !ConfirmedBefore(confirms, t, n + 1) {
      PendingMeansNeverConfirmed(confirms, targets, n + 1, t);
    }
    assert left != [] ==> left[0] in left;
  }

  /** The wait ends well if and only if every target has confirmed at some sweep
      that no earlier sweep's clock reading had cut off, each target counted at
      whichever sweep it answered. The last sweep runs even past the timeout. */
  lemma OkIffAllConfirmInTime(targets: seq<Nameserver>, confirms: (Nameserver, nat) -> bool, elapsed: nat -> nat,
                              timeout: nat, asked: seq<seq<Nameserver>>, ok: bool)
    requires WentOn(confirms, targets, elapsed, timeout, asked)
    requires ok <==> PendingAt(confirms, targets, |asked| + 1) == []
    requires !ok ==> TimedOut(elapsed, timeout, |asked|)
    ensures ok <==> exists n: nat :: AllConfirmedBy(targets, confirms, n) && forall k: nat | k < n ::
        elapsed(k) < timeout
  {
    NobodyPending(targets, confirms, |asked|);
    forall n: nat | n < |asked| ensures !AllConfirmedBy(targets, confirms, n) {
      assert SweepWentOn(confirms, targets, elapsed, timeout, n, asked[n]);
      NobodyPending(targets, confirms, n);
    }
    if ok {
      forall k: nat | k < |asked| ensures elapsed(k) < timeout {
        assert SweepWentOn(confirms, targets, elapsed, timeout, k, asked[k]);
      }
    }
  }

  // --- Positive intervals ----------------------------------------------------------------

  /** Sleeping `interval` between readings moves the clock at least that much. */
  ghost predicate Sleeps(clock: nat -> nat, interval: nat) {
    forall n: nat :: clock(n + 1) >= clock(n) + interval
  }

  lemma {:induction false} ClockAfter(clock: nat -> nat, interval: nat, n: nat)
    requires Sleeps(clock, interval)
    ensures clock(n) >= clock(0) + n * interval
  {
    if n > 0 {
      ClockAfter(clock, interval, n - 1);
      assert clock(n - 1 + 1) >= clock(n - 1) + interval;
      assert n * interval == (n - 1) * interval + interval;
    }
  }

  /** The number of intervals, rounded up, that fill the timeout. */
  function Intervals(timeout: nat, interval: nat): nat
    requires interval > 0
  {
    (timeout + interval - 1) / interval
  }

  lemma SweepsFit(interval: nat, timeout: nat, n: nat)
    requires interval > 0 && n * interval < timeout
    ensures n < Intervals(timeout, interval)
  {
    var q := Intervals(timeout, interval);
    assert n >= q ==> (n - q) * interval >= 0;
    assert (n - q) * interval == n * interval - q * interval;
  }

  /** With a positive interval the wait takes at most one sweep more than the
      intervals that fill the timeout. */
  lemma SweepsAreBounded(targets: seq<Nameserver>, confirms: (Nameserver, nat) -> bool, elapsed: nat -> nat,
                         interval: nat, timeout: nat, asked: seq<seq<Nameserver>>)
    requires interval > 0 && Sleeps(elapsed, interval)
    requires WentOn(confirms, targets, elapsed, timeout, asked)
    ensures |asked| + 1 <= Intervals(timeout, interval) + 1
    ensures asked != [] ==> (|asked| - 1) * interval < timeout
  {
    if asked != [] {
      var n := |asked| - 1;
      ClockAfter(elapsed, interval, n);
      assert SweepWentOn(confirms, targets, elapsed, timeout, n, asked[n]);
      SweepsFit(interval, timeout, n);
    }
  }

  // --- Waiting for a submitted change ---------------------------------------------------

  datatype Waiting = Waiting(final: string, interval: nat, timeout: nat)

  const ROUTE53 := Waiting("INSYNC", 2, 120)
  const GOOGLE := Waiting("done", 1, 60)

  datatype Waited = Done | StillPending | FetchFailed

  /** `status(n)` is what poll `n` reports, nothing when it fails; poll 0 is
      the answer that submitted the change. `now(n)` is the clock when status
      `n` is looked at. */
  method WaitForChange(w: Waiting, first: string, status: nat -> Option<string>, now: nat -> nat)
    returns (r: Waited, polls: nat)
    requires w.interval > 0 && status(0) == Some(first) && Sleeps(now, w.interval)
    ensures r.Done? <==> status(polls) == Some(w.final)
    ensures r.FetchFailed? <==> status(polls) == None
    ensures r.StillPending? ==> now(polls) + w.interval > now(0) + w.timeout
    ensures forall k: nat | k < polls ::
        status(k).Some? && status(k) != Some(w.final) && now(k) + w.interval <= now(0) + w.timeout
  {
    var deadline := now(0) + w.timeout;
    var current := first;
    polls := 0;
    while true
      invariant status(polls) == Some(current)
      invariant forall k: nat | k < polls ::
          status(k).Some? && status(k) != Some(w.final) && now(k) + w.interval <= deadline
      decreases deadline - now(polls)
    {
      if current == w.final {
        return Done, polls;
      }
      if now(polls) + w.interval > deadline {
        return StillPending, polls;
      }
      assert now(polls + 1) >= now(polls) + w.interval;
      polls := polls + 1;
      if status(polls).None? {
        return FetchFailed, polls;
      }
      current := status(polls).value;
    }
  }

  /** Both providers poll at most sixty times, and no sleep is begun that would
      end past the deadline. */
  lemma AtMostSixtyPolls(w: Waiting, now: nat -> nat, polls: nat)
    requires w == ROUTE53 || w == GOOGLE
    requires Sleeps(now, w.interval)
    requires forall k: nat | k < polls :: now(k) + w.interval <= now(0) + w.timeout
    ensures polls <= 60
  {
    if polls > 0 {
      ClockAfter(now, w.interval, polls - 1);
      assert now(polls - 1) + w.interval <= now(0) + w.timeout;
    }
  }
}

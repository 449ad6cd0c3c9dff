/** Bounded retries of HTTP requests: `send_retrying`, and Route53's loop
    around it. Durations are in seconds. */
module Retry {
  import opened Prelude

  datatype Method = Get | Head | Options | Trace | Put | Delete | Post | Patch | Connect

  /** Only the delay-seconds form of the header is read. */
  datatype RetryAfter = Absent | Unreadable | Seconds(n: nat)

  /** `throttled` says whether the body carries one of Route53's throttling codes. */
  datatype Response = Response(status: nat, retryAfter: RetryAfter, throttled: bool)

  datatype Answer = TransportError | Answered(response: Response)

  const MAX_ATTEMPTS: nat := 3
  const MAX_RETRY_WAIT: nat := 10
  const RETRY_BACKOFF: nat := 1

  /** Idempotent methods, section 9.2.2 of RFC 9110. */
  predicate Idempotent(m: Method) {
    m.Get? || m.Head? || m.Options? || m.Trace? || m.Put? || m.Delete?
  }

  /** The wait after attempt `attempt`, counted from 1: the base, doubled each time. */
  function RetryBackoff(attempt: nat): nat {
    if attempt <= 1 then RETRY_BACKOFF else 2 * RetryBackoff(attempt - 1)
  }

  /** How long to wait before retrying, or nothing to return the response. */
  function RetryDelay(m: Method, r: Response, attempt: nat): Option<nat> {
    if !(r.status == 429 || (r.status == 503 && Idempotent(m))) then None
    else
      match r.retryAfter
      case Seconds(n) => if n > MAX_RETRY_WAIT then None else Some(n)
      case _ => Some(RetryBackoff(attempt))
  }

  // --- One retried request ------------------------------------------------------------

  /** The answer to attempt `attempt` leads to another one. */
  predicate TriesAgain(m: Method, cloneable: bool, a: Answer, attempt: nat) {
    cloneable && 1 <= attempt < MAX_ATTEMPTS && a.Answered? && RetryDelay(m, a.response, attempt).Some?
  }

  /** What a retried request amounts to: requests sent, seconds slept, and the
      answer handed back. */
  datatype Outcome = Outcome(sends: nat, waits: nat, answer: Answer) {
    function After(sent: nat, slept: nat): Outcome {
      Outcome(sent + sends, slept + waits, answer)
    }
  }

  /** From attempt `attempt` on; `server` answers the requests by number, the
      next one being `from`; `cloneable` is false for a streaming body. */
  function Retried(m: Method, cloneable: bool, server: nat -> Answer, from: nat, attempt: nat): Outcome
    decreases MAX_ATTEMPTS - attempt
  {
    var a := server(from);
    if TriesAgain(m, cloneable, a, attempt)
    then Retried(m, cloneable, server, from + 1, attempt + 1).After(1, RetryDelay(m, a.response, attempt).value)
    else Outcome(1, 0, a)
  }

  method SendRetrying(m: Method, cloneable: bool, server: nat -> Answer, from: nat) returns (o: Outcome)
    ensures o == Retried(m, cloneable, server, from, 1)
  {
    var attempt: nat, next: nat, slept: nat := 1, from, 0;
    while true
      invariant 1 <= attempt <= MAX_ATTEMPTS
      invariant Retried(m, cloneable, server, next, attempt).After(attempt - 1, slept) ==
          Retried(m, cloneable, server, from, 1)
      decreases MAX_ATTEMPTS - attempt
    {
      var answer := server(next);
      if !TriesAgain(m, cloneable, answer, attempt) {
        return Outcome(attempt, slept, answer);
      }
      slept := slept + RetryDelay(m, answer.response, attempt).value;
      attempt, next := attempt + 1, next + 1;
    }
  }

  lemma DelayBound(m: Method, r: Response, attempt: nat)
    requires 1 <= attempt < MAX_ATTEMPTS
    ensures RetryDelay(m, r, attempt).Some? ==> RetryDelay(m, r, attempt).value <= MAX_RETRY_WAIT
  {
    assert RetryBackoff(attempt) == attempt;
  }

  /** Whatever the server answers, the attempts left bound the sends and the
      capped waits between them. */
  lemma {:induction false} RetriesAreBounded(m: Method, cloneable: bool, server: nat -> Answer, from: nat, attempt: nat)
    requires 1 <= attempt <= MAX_ATTEMPTS
    ensures 1 <= Retried(m, cloneable, server, from, attempt).sends <= 4 - attempt
    ensures Retried(m, cloneable, server, from, attempt).waits <= 10 * (3 - attempt)
    decreases MAX_ATTEMPTS - attempt
  {
    if TriesAgain(m, cloneable, server(from), attempt) {
      RetriesAreBounded(m, cloneable, server, from + 1, attempt + 1);
      DelayBound(m, server(from).response, attempt);
    }
  }

  /** The answer handed back is the last one, unchanged; a body that cannot be
      replayed goes out once. */
  lemma {:induction false} LastAnswerIsReturned(m: Method, cloneable: bool, server: nat -> Answer, from: nat,
                                                attempt: nat)
    ensures var o := Retried(m, cloneable, server, from, attempt);
            o.sends >= 1 && o.answer == server(from + o.sends - 1) && (!cloneable ==> o.sends == 1)
    decreases MAX_ATTEMPTS - attempt
  {
    if TriesAgain(m, cloneable, server(from), attempt) {
      LastAnswerIsReturned(m, cloneable, server, from + 1, attempt + 1);
    }
  }

  /** Sent again, the answer could be different. */
  predicate Transient(m: Method, a: Answer) {
    && a.Answered?
    && (a.response.status == 429 || (a.response.status == 503 && !m.Post? && !m.Patch? && !m.Connect?))
  }

  predicate AsksForTooLong(a: Answer) {
    a.Answered? && a.response.retryAfter.Seconds? && a.response.retryAfter.n > 10
  }

  /** The seconds between an answer to attempt `attempt` and the next request:
      what the server asks for, else one after the first and two after the second. */
  function Pause(a: Answer, attempt: nat): nat {
    if a.Answered? && a.response.retryAfter.Seconds? then a.response.retryAfter.n else attempt
  }

  predicate SentAgain(m: Method, cloneable: bool, a: Answer) {
    cloneable && Transient(m, a) && !AsksForTooLong(a)
  }

  lemma AttemptGoesOn(m: Method, cloneable: bool, server: nat -> Answer, from: nat, attempt: nat)
    requires 1 <= attempt < MAX_ATTEMPTS
    ensures Retried(m, cloneable, server, from, attempt) ==
            if !SentAgain(m, cloneable, server(from)) then Outcome(1, 0, server(from))
            else Retried(m, cloneable, server, from + 1, attempt + 1).After(1, Pause(server(from), attempt))
  {
    assert RetryBackoff(attempt) == attempt;
    assert TriesAgain(m, cloneable, server(from), attempt) <==> SentAgain(m, cloneable, server(from));
  }

  /** The whole of a retried request: a second and a third one are sent exactly
      after transient answers with a wait of at most ten seconds. */
  lemma SentUpToThreeTimes(m: Method, cloneable: bool, server: nat -> Answer, from: nat)
    ensures var first, second := server(from), server(from + 1);
            Retried(m, cloneable, server, from, 1) ==
            if !SentAgain(m, cloneable, first) then Outcome(1, 0, first)
            else if !SentAgain(m, cloneable, second) then Outcome(2, Pause(first, 1), second)
            else Outcome(3, Pause(first, 1) + Pause(second, 2), server(from + 2))
  {
    AttemptGoesOn(m, cloneable, server, from, 1);
    AttemptGoesOn(m, cloneable, server, from + 1, 2);
    assert Retried(m, cloneable, server, from + 2, 3) == Outcome(1, 0, server(from + 2));
  }

  /** A request that can be replayed is given up before the last attempt only
      at an answer that is not transient or asks for too long a wait. */
  lemma {:induction false} GivesUpEarlyOnlyAt(m: Method, server: nat -> Answer, from: nat, attempt: nat)
    requires 1 <= attempt <= MAX_ATTEMPTS
    requires Retried(m, true, server, from, attempt).sends < 4 - attempt
    ensures !Transient(m, Retried(m, true, server, from, attempt).answer) ||
        AsksForTooLong(Retried(m, true, server, from, attempt).answer)
    decreases MAX_ATTEMPTS - attempt
  {
    if TriesAgain(m, true, server(from), attempt) {
      GivesUpEarlyOnlyAt(m, server, from + 1, attempt + 1);
    }
  }

  /** Every answer that is not the last was transient, with a wait within the limit. */
  lemma {:induction false} EarlierAnswersWereTransient(m: Method, server: nat -> Answer, from: nat, attempt: nat,
                                                       i: nat)
    requires from <= i < from + Retried(m, true, server, from, attempt).sends - 1
    ensures Transient(m, server(i)) && !AsksForTooLong(server(i))
    decreases MAX_ATTEMPTS - attempt
  {
    if i > from {
      EarlierAnswersWereTransient(m, server, from + 1, attempt + 1, i);
    }
  }

  /** A method that is not idempotent is resent only after a 429. */
  lemma {:induction false} ResentOnlyAfter429(m: Method, cloneable: bool, server: nat -> Answer, from: nat,
                                              attempt: nat, i: nat)
    requires m.Post? || m.Patch? || m.Connect?
    requires from <= i < from + Retried(m, cloneable, server, from, attempt).sends - 1
    ensures server(i).Answered? && server(i).response.status == 429
    decreases MAX_ATTEMPTS - attempt
  {
    if i > from {
      ResentOnlyAfter429(m, cloneable, server, from + 1, attempt + 1, i);
    }
  }

  // --- At most one effect ------------------------------------------------------------

  /** How many of the requests numbered `from` to `to` the server processed. */
  function Count(processed: nat -> bool, from: nat, to: nat): nat
    requires from <= to
  {
    if from == to then 0 else Count(processed, from, to - 1) + if processed(to - 1) then 1 else 0
  }

  lemma {:induction false} NoneProcessed(processed: nat -> bool, from: nat, to: nat)
    requires from <= to && forall i | from <= i < to :: !processed(i)
    ensures Count(processed, from, to) == 0
  {
    if from < to {
      NoneProcessed(processed, from, to - 1);
    }
  }

  /** A server that leaves 429 requests unprocessed applies a request that is
      not idempotent at most once. */
  lemma AppliedAtMostOnce(m: Method, cloneable: bool, server: nat -> Answer, from: nat, processed: nat -> bool)
    requires m.Post? || m.Patch? || m.Connect?
    requires forall i :: processed(i) ==> !(server(i).Answered? && server(i).response.status == 429)
    ensures Count(processed, from, from + Retried(m, cloneable, server, from, 1).sends) <= 1
  {
    LastAnswerIsReturned(m, cloneable, server, from, 1);
    var last := from + Retried(m, cloneable, server, from, 1).sends - 1;
    forall i | from <= i < last ensures !processed(i) {
      ResentOnlyAfter429(m, cloneable, server, from, 1, i);
    }
    NoneProcessed(processed, from, last);
  }

  // --- Route53's loop around it ---------------------------------------------------------

  predicate Success(r: Response) {
    200 <= r.status < 300
  }

  predicate Throttled(a: Answer) {
    a.Answered? && !Success(a.response) && a.response.throttled
  }

  /** What `SendRetrying` makes of a request whose first send has a given number. */
  function Rounds(m: Method, server: nat -> Answer): nat -> Outcome {
    (from: nat) => Retried(m, true, server, from, 1)
  }

  /** From outer attempt `attempt` on; `rounds` says what one retried request
      amounts to. */
  function Route53Retried(rounds: nat -> Outcome, from: nat, attempt: nat): Outcome
    decreases MAX_ATTEMPTS - attempt
  {
    var o := rounds(from);
    if attempt < MAX_ATTEMPTS && Throttled(o.answer)
    then Route53Retried(rounds, from + o.sends, attempt + 1).After(o.sends, o.waits + RetryBackoff(attempt))
    else o
  }

  method Route53Send(rounds: nat -> Outcome) returns (o: Outcome)
    ensures o == Route53Retried(rounds, 0, 1)
  {
    var attempt: nat, sent: nat, slept: nat := 1, 0, 0;
    while true
      invariant 1 <= attempt <= MAX_ATTEMPTS
      invariant Route53Retried(rounds, sent, attempt).After(sent, slept) == Route53Retried(rounds, 0, 1)
      decreases MAX_ATTEMPTS - attempt
    {
      o := rounds(sent);
      if o.answer.TransportError? || Success(o.answer.response) || attempt == MAX_ATTEMPTS ||
          !o.answer.response.throttled {
        return o.After(sent, slept);
      }
      sent, slept := sent + o.sends, slept + o.waits + RetryBackoff(attempt);
      attempt := attempt + 1;
    }
  }

  /** The server reports throttling, and not success. */
  predicate SlowedDown(a: Answer) {
    a.Answered? && (a.response.status < 200 || a.response.status >= 300) && a.response.throttled
  }

  /** The whole of Route53's loop: a second and a third round exactly after
      throttled ones, after one and two seconds more. */
  lemma UpToThreeRounds(rounds: nat -> Outcome)
    ensures var first := rounds(0);
            var second := rounds(first.sends);
            var third := rounds(first.sends + second.sends);
            Route53Retried(rounds, 0, 1) ==
            if !SlowedDown(first.answer) then first
            else if !SlowedDown(second.answer)
            then Outcome(first.sends + second.sends, first.waits + 1 + second.waits, second.answer)
            else Outcome(first.sends + second.sends + third.sends, first.waits + 1 + second.waits + 2 + third.waits,
                         third.answer)
  {
    assert RetryBackoff(1) == 1 && RetryBackoff(2) == 2;
    var from := rounds(0).sends + rounds(rounds(0).sends).sends;
    assert Route53Retried(rounds, from, 3) == rounds(from);
  }

  /** The answer handed back is the last one, when it is that of each round. It
      reports throttling only when each of three rounds ended with such an answer. */
  lemma LastOfTheRounds(rounds: nat -> Outcome, server: nat -> Answer) returns (ends: seq<nat>)
    requires forall f: nat :: rounds(f).sends >= 1 && rounds(f).answer == server(f + rounds(f).sends - 1)
    ensures var o := Route53Retried(rounds, 0, 1);
            && 1 <= |ends| <= 3 && o.sends == ends[|ends| - 1] + 1 && o.answer == server(ends[|ends| - 1])
            && (forall k, l | 0 <= k < l < |ends| :: ends[k] < ends[l] && SlowedDown(server(ends[k])))
            && (SlowedDown(o.answer) ==> |ends| == 3)
  {
    UpToThreeRounds(rounds);
    var second := rounds(0).sends;
    var third := second + rounds(second).sends;
    ends := if !SlowedDown(rounds(0).answer) then [second - 1]
            else if !SlowedDown(rounds(second).answer) then [second - 1, third - 1]
            else [second - 1, third - 1, third + rounds(third).sends - 1];
  }

  lemma Route53ReturnsTheLastAnswer(m: Method, server: nat -> Answer) returns (ends: seq<nat>)
    ensures var o := Route53Retried(Rounds(m, server), 0, 1);
            && 1 <= |ends| <= 3 && o.sends == ends[|ends| - 1] + 1 && o.answer == server(ends[|ends| - 1])
            && (forall k, l | 0 <= k < l < |ends| :: ends[k] < ends[l] && SlowedDown(server(ends[k])))
            && (SlowedDown(o.answer) ==> |ends| == 3)
  {
    forall f: nat ensures Rounds(m, server)(f).sends >= 1 &&
        Rounds(m, server)(f).answer == server(f + Rounds(m, server)(f).sends - 1) {
      LastAnswerIsReturned(m, true, server, f, 1);
    }
    ends := LastOfTheRounds(Rounds(m, server), server);
  }

  /** What the outer loop itself sleeps from attempt `attempt` on, at most. */
  function LaterBackoffs(attempt: nat): nat
    decreases MAX_ATTEMPTS - attempt
  {
    if attempt < MAX_ATTEMPTS then RetryBackoff(attempt) + LaterBackoffs(attempt + 1) else 0
  }

  lemma {:induction false} BoundedFrom(rounds: nat -> Outcome, from: nat, attempt: nat)
    requires 1 <= attempt <= MAX_ATTEMPTS
    requires forall i :: 1 <= rounds(i).sends <= 3 && rounds(i).waits <= 20
    ensures var o := Route53Retried(rounds, from, attempt);
            && 1 <= o.sends <= 3 * (4 - attempt)
            && o.waits <= 20 * (4 - attempt) + LaterBackoffs(attempt)
    decreases MAX_ATTEMPTS - attempt
  {
    var o := rounds(from);
    if attempt < MAX_ATTEMPTS && Throttled(o.answer) {
      BoundedFrom(rounds, from + o.sends, attempt + 1);
    }
  }

  /** One Route53 request: at most nine HTTP sends and 63 seconds of sleep,
      whatever the server answers. */
  lemma Route53IsBounded(m: Method, server: nat -> Answer)
    ensures var o := Route53Retried(Rounds(m, server), 0, 1); 1 <= o.sends <= 9 && o.waits <= 63
  {
    var rounds := Rounds(m, server);
    forall i ensures 1 <= rounds(i).sends <= 3 && rounds(i).waits <= 20 {
      RetriesAreBounded(m, true, server, i, 1);
    }
    BoundedFrom(rounds, 0, 1);
    assert LaterBackoffs(2) == 2 && LaterBackoffs(1) == 3;
  }

  /** The server that keeps Route53 busy longest: two 429s asking for ten
      seconds, then a throttling error, every time. */
  function Stubborn(i: nat): Answer {
    if i % 3 == 2 then Answered(Response(400, Absent, true)) else Answered(Response(429, Seconds(10), false))
  }

  /** The bounds are reached, so none of them can be lowered. */
  lemma Route53BoundsAreTight()
    ensures var o := Route53Retried(Rounds(Post, Stubborn), 0, 1); o.sends == 9 && o.waits == 63
  {
    StubbornAttempt(0);
    StubbornAttempt(3);
    StubbornAttempt(6);
    assert Route53Retried(Rounds(Post, Stubborn), 6, 3) == Outcome(3, 20, Stubborn(8));
    assert Route53Retried(Rounds(Post, Stubborn), 3, 2) == Outcome(6, 42, Stubborn(8));
  }

  lemma StubbornAttempt(from: nat)
    requires from % 3 == 0
    ensures Retried(Post, true, Stubborn, from, 1) == Outcome(3, 20, Stubborn(from + 2))
    ensures Throttled(Stubborn(from + 2))
  {
    assert (from + 1) % 3 == 1 && (from + 2) % 3 == 2;
    assert Retried(Post, true, Stubborn, from + 2, 3) == Outcome(1, 0, Stubborn(from + 2));
    assert Retried(Post, true, Stubborn, from + 1, 2) == Outcome(2, 10, Stubborn(from + 2));
  }

  /** Across the outer attempts, no request but the last is processed, when none
      but the last of a round is, and not that one if it was throttled. */
  lemma {:induction false} OnlyTheLastIsProcessed(rounds: nat -> Outcome, processed: nat -> bool, from: nat,
                                                  attempt: nat, i: nat)
    requires forall f: nat, j: nat :: f <= j < f + rounds(f).sends - 1 ==> !processed(j)
    requires forall f: nat ::
        rounds(f).sends >= 1 && (Throttled(rounds(f).answer) ==> !processed(f + rounds(f).sends - 1))
    requires from <= i < from + Route53Retried(rounds, from, attempt).sends - 1
    ensures !processed(i)
    decreases MAX_ATTEMPTS - attempt
  {
    var o := rounds(from);
    if i >= from + o.sends {
      OnlyTheLastIsProcessed(rounds, processed, from + o.sends, attempt + 1, i);
    }
  }

  /** The nested loops still apply a change batch at most once, for a server
      that leaves 429 and throttled requests unprocessed. */
  lemma Route53AppliesAtMostOnce(m: Method, server: nat -> Answer, processed: nat -> bool)
    requires m.Post? || m.Patch? || m.Connect?
    requires forall i :: processed(i) ==>
        !(server(i).Answered? && server(i).response.status == 429) && !Throttled(server(i))
    ensures Count(processed, 0, Route53Retried(Rounds(m, server), 0, 1).sends) <= 1
  {
    var rounds := Rounds(m, server);
    forall f: nat, j: nat | f <= j < f + rounds(f).sends - 1 ensures !processed(j) {
      ResentOnlyAfter429(m, true, server, f, 1, j);
    }
    forall f: nat ensures rounds(f).sends >= 1 && (Throttled(rounds(f).answer) ==>
        !processed(f + rounds(f).sends - 1)) {
      LastAnswerIsReturned(m, true, server, f, 1);
    }
    Route53IsBounded(m, server);
    CountUpToTheLast(rounds, processed);
  }

  lemma CountUpToTheLast(rounds: nat -> Outcome, processed: nat -> bool)
    requires forall f: nat, j: nat :: f <= j < f + rounds(f).sends - 1 ==> !processed(j)
    requires forall f: nat ::
        rounds(f).sends >= 1 && (Throttled(rounds(f).answer) ==> !processed(f + rounds(f).sends - 1))
    requires Route53Retried(rounds, 0, 1).sends >= 1
    ensures Count(processed, 0, Route53Retried(rounds, 0, 1).sends) <= 1
  {
    var last := Route53Retried(rounds, 0, 1).sends - 1;
    forall i: nat | i < last ensures !processed(i) {
      OnlyTheLastIsProcessed(rounds, processed, 0, 1, i);
    }
    NoneProcessed(processed, 0, last);
  }
}

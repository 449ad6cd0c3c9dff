/** A solve gets done: a solve whose calls succeed runs to its end, and whatever
    happened before, an error or a drop leads on to the cleanup of every record
    in the guard. The moves may be any relation that covers the steps. */
module SolveCompletion {
  import opened Prelude
  import opened Paths
  import opened Solver
  import G = CleanupGuard

  type Moves = (Solve, Solve) -> bool

  ghost predicate Covers(moves: Moves) {
    forall s, a, s' {:trigger Step(s, a, s')} :: Step(s, a, s') ==> moves(s, s')
  }

  lemma Moved(moves: Moves, s: Solve, a: Act, s': Solve) returns (n: nat)
    requires Covers(moves) && Step(s, a, s')
    ensures Leads(moves, s, s', n)
  {
    Via(moves, s, s', s', 0);
    n := 1;
  }

  /** Everything pushed has been cleaned, in order. */
  ghost predicate AllCleaned(s: Solve) {
    && s.pushed <= |s.challenges| && s.ledger.finished == s.challenges[..s.pushed]
    && Remaining(s) == [] && Over(s)
  }

  // --- Cleanup -------------------------------------------------------------------------

  lemma CleansOne(moves: Moves, s: Solve, ok: bool) returns (n: nat, m: Solve)
    requires Covers(moves) && s.phase == Cleaning(ok, false) && s.ledger.pending != []
    ensures Leads(moves, s, m, n) && m.phase == Cleaning(ok, false) && m.ledger.pending == s.ledger.pending[1..]
    ensures m.ledger.finished == s.ledger.finished + [s.ledger.pending[0]]
    ensures m.challenges == s.challenges && m.pushed == s.pushed && m.log == s.log
  {
    var started := AfterStart(s);
    m := started.(ledger := G.Finished(started.ledger), results := s.results + [true], phase := Cleaning(ok, false));
    var j := Moved(moves, s, Start(Next(s)), started);
    var k := Moved(moves, started, Finish(true), m);
    Then(moves, s, started, m, j, k);
    n := j + k;
  }

  lemma {:induction false} CleansAll(moves: Moves, s: Solve, ok: bool) returns (n: nat, m: Solve)
    requires Covers(moves) && s.phase == Cleaning(ok, false)
    ensures Leads(moves, s, m, n) && m.phase == Finished(ok) && m.ledger.pending == []
    ensures m.ledger.finished == s.ledger.finished + s.ledger.pending
    ensures m.challenges == s.challenges && m.pushed == s.pushed && m.log == s.log
    decreases |s.ledger.pending|
  {
    if s.ledger.pending == [] {
      m := s.(phase := Finished(ok));
      n := Moved(moves, s, Tau, m);
    } else {
      var j, next := CleansOne(moves, s, ok);
      var k;
      k, m := CleansAll(moves, next, ok);
      Then(moves, s, next, m, j, k);
      n := j + k;
      assert s.ledger.pending == [s.ledger.pending[0]] + s.ledger.pending[1..];
    }
  }

  lemma DrainsOne(moves: Moves, s: Solve, queue: seq<Challenge>) returns (n: nat, m: Solve)
    requires Covers(moves) && s.phase == Draining(queue, false) && queue != []
    ensures Leads(moves, s, m, n) && m.phase == Draining(queue[1..], false)
    ensures m.ledger.finished == s.ledger.finished + [queue[0]] && m.ledger.pending == s.ledger.pending
    ensures m.challenges == s.challenges && m.pushed == s.pushed
  {
    var started := AfterStart(s);
    m := started.(ledger := started.ledger.(finished := started.ledger.finished + [queue[0]]),
                  results := s.results + [true], phase := Draining(queue[1..], false));
    var j := Moved(moves, s, Start(Next(s)), started);
    var k := Moved(moves, started, Finish(true), m);
    Then(moves, s, started, m, j, k);
    n := j + k;
  }

  lemma {:induction false} DrainsAll(moves: Moves, s: Solve, queue: seq<Challenge>) returns (n: nat, m: Solve)
    requires Covers(moves) && s.phase == Draining(queue, false)
    ensures Leads(moves, s, m, n) && m.phase == Drained
    ensures m.ledger.finished == s.ledger.finished + queue && m.ledger.pending == s.ledger.pending
    ensures m.challenges == s.challenges && m.pushed == s.pushed
    decreases |queue|
  {
    if queue == [] {
      m := s.(phase := Drained);
      n := Moved(moves, s, Tau, m);
    } else {
      var j, next := DrainsOne(moves, s, queue);
      var k;
      k, m := DrainsAll(moves, next, queue[1..]);
      Then(moves, s, next, m, j, k);
      n := j + k;
      assert queue == [queue[0]] + queue[1..];
    }
  }

  /** The awaits at which a solve can fail on its own. */
  predicate CanFail(s: Solve) {
    match s.phase
    case Collecting => true
    case Confirming(n) => n != |s.ledger.pending|
    case Polling(n, _, _) => n < |s.ledger.pending|
    case Readying => true
    case Finalizing => true
    case _ => false
  }

  /** An error at any of them, or in a present, leads to an error result with
      every record in the guard cleaned. */
  lemma ErrorsAreCleanedUp(moves: Moves, s: Solve) returns (n: nat, m: Solve)
    requires Covers(moves) && BooksOk(s) && (CanFail(s) || s.phase.Presenting?)
    ensures Leads(moves, s, m, n) && m.phase == Finished(false)
    ensures AllCleaned(m) && m.pushed == s.pushed && m.challenges == s.challenges && m.log == s.log
  {
    var j;
    if s.phase.Presenting? {
      j := Moved(moves, s, Finish(false), Failed(s));
    } else {
      j := Moved(moves, s, Tau, Failed(s));
    }
    var k;
    k, m := CleansAll(moves, Failed(s), false);
    Then(moves, s, Failed(s), m, j, k);
    n := j + k;
  }

  /** Dropped at any moment while a runtime is there, the spawned task cleans
      every record that the guard still had. */
  lemma DropsAreCleanedUp(moves: Moves, s: Solve) returns (n: nat, m: Solve)
    requires Covers(moves) && BooksOk(s) && !Over(s) && !s.phase.Draining?
    ensures Leads(moves, s, m, n) && AllCleaned(m) && m.pushed == s.pushed && m.challenges == s.challenges
  {
    var dropped := Dropped(s, true);
    var j := Moved(moves, s, if Busy(s) then Abort else Tau, dropped);
    if s.ledger.pending == [] {
      n, m := j, dropped;
    } else {
      var k;
      k, m := DrainsAll(moves, dropped, s.ledger.pending);
      Then(moves, s, dropped, m, j, k);
      n := j + k;
    }
  }

  /** Without a runtime, or when the spawned task is dropped too, what is left
      is exactly what had not been cleaned. */
  lemma DropsLoseOnlyTheRest(s: Solve)
    requires BooksOk(s) && !Over(s)
    ensures Step(s, if Busy(s) then Abort else Tau, Dropped(s, false))
    ensures Dropped(s, false).phase == Abandoned(Remaining(s))
    ensures s.challenges[..s.pushed] == Dropped(s, false).ledger.finished + Remaining(Dropped(s, false))
  {
  }

  // --- A solve that succeeds -------------------------------------------------------------

  lemma PresentsOne(moves: Moves, s: Solve) returns (n: nat, m: Solve)
    requires Covers(moves) && s.phase.Collecting? && s.pushed == s.presented < |s.challenges|
    requires s.ledger == G.Ledger(s.challenges[..s.pushed], [], [])
    ensures Leads(moves, s, m, n)
    ensures m == s.(pushed := s.pushed + 1, presented := s.pushed + 1,
                    ledger := G.Ledger(s.challenges[..s.pushed + 1], [], []), log := m.log)
  {
    var c := s.challenges[s.pushed];
    var started := AfterStart(s);
    assert s.challenges[..s.pushed] + [c] == s.challenges[..s.pushed + 1];
    m := Logged(started, Presented(c)).(presented := started.presented + 1, phase := Collecting);
    var j := Moved(moves, s, Start(Next(s)), started);
    var k := Moved(moves, started, Finish(true), m);
    Then(moves, s, started, m, j, k);
    n := j + k;
  }

  lemma {:induction false} PresentsAll(moves: Moves, s: Solve) returns (n: nat, m: Solve)
    requires Covers(moves) && s.phase.Collecting? && s.pushed == s.presented <= |s.challenges|
    requires s.ledger == G.Ledger(s.challenges[..s.pushed], [], [])
    ensures Leads(moves, s, m, n)
    ensures m == s.(pushed := |s.challenges|, presented := |s.challenges|, ledger := G.Ledger(s.challenges, [], []),
                    log := m.log)
    decreases |s.challenges| - s.pushed
  {
    if s.pushed == |s.challenges| {
      assert s.challenges[..s.pushed] == s.challenges;
      n, m := 0, s;
    } else {
      var j, next := PresentsOne(moves, s);
      var k;
      k, m := PresentsAll(moves, next);
      Then(moves, s, next, m, j, k);
      n := j + k;
    }
  }

  lemma ConfirmsOne(moves: Moves, s: Solve, i: nat) returns (n: nat, m: Solve)
    requires Covers(moves) && s.phase == Confirming(i) && i < |s.ledger.pending|
    ensures Leads(moves, s, m, n) && m == s.(phase := Confirming(i + 1), log := m.log)
    ensures m.log == s.log + [Confirmed(s.ledger.pending[i], 0), Visible(s.ledger.pending[i], {0})]
  {
    var c := s.ledger.pending[i];
    var asked := s.(phase := Polling(i, {0}, {0}));
    var heard := Logged(asked, Confirmed(c, 0)).(phase := Polling(i, {0}, {0} - {0}));
    m := Logged(heard, Visible(c, {0})).(phase := Confirming(i + 1));
    assert 0 in asked.phase.silent && PollStep(asked, heard) && PollStep(heard, m);
    var j := Moved(moves, s, Tau, asked);
    var k := Moved(moves, asked, Tau, heard);
    var l := Moved(moves, heard, Tau, m);
    Then(moves, asked, heard, m, k, l);
    Then(moves, s, asked, m, j, k + l);
    n := j + (k + l);
  }

  lemma {:induction false} ConfirmsAll(moves: Moves, s: Solve, i: nat) returns (n: nat, m: Solve)
    requires Covers(moves) && s.phase == Confirming(i) && i <= |s.ledger.pending|
    ensures Leads(moves, s, m, n) && m == s.(phase := Confirming(|s.ledger.pending|), log := m.log)
    decreases |s.ledger.pending| - i
  {
    if i == |s.ledger.pending| {
      n, m := 0, s;
    } else {
      var j, next := ConfirmsOne(moves, s, i);
      var k;
      k, m := ConfirmsAll(moves, next, i + 1);
      Then(moves, s, next, m, j, k);
      n := j + k;
    }
  }

  /** From the request that the challenges be validated to the end. */
  lemma ValidatesAndCleans(moves: Moves, s: Solve) returns (n: nat, m: Solve)
    requires Covers(moves) && s.phase.Readying?
    ensures Leads(moves, s, m, n) && m.phase == Finished(true) && m.ledger.pending == []
    ensures m.ledger.finished == s.ledger.finished + s.ledger.pending
    ensures m.challenges == s.challenges && m.pushed == s.pushed && m.log == s.log + [ReadyOk, FinalizeOk]
  {
    var ready := Logged(s, ReadyOk).(phase := Finalizing);
    var done := Logged(ready, FinalizeOk).(phase := Cleaning(true, false));
    var j := Moved(moves, s, Tau, ready);
    var k := Moved(moves, ready, Tau, done);
    var l;
    l, m := CleansAll(moves, done, true);
    Then(moves, ready, done, m, k, l);
    Then(moves, s, ready, m, j, k + l);
    n := j + (k + l);
  }

  lemma WaitsAndValidates(moves: Moves, s: Solve, check: bool) returns (n: nat, m: Solve)
    requires Covers(moves) && s.phase.Collecting? && s.pushed == |s.challenges|
    ensures Leads(moves, s, m, n) && m.phase == Finished(true) && m.ledger.pending == []
    ensures m.ledger.finished == s.ledger.finished + s.ledger.pending
    ensures m.challenges == s.challenges && m.pushed == s.pushed
  {
    var waiting := s.(phase := if check then Confirming(0) else Sleeping);
    var j := Moved(moves, s, Tau, waiting);
    var k, waited := 0, waiting;
    if check {
      k, waited := ConfirmsAll(moves, waiting, 0);
    }
    var sent := SendReady(if check then waited else Logged(waited, Slept));
    var l := Moved(moves, waited, Tau, sent);
    var rest;
    rest, m := ValidatesAndCleans(moves, sent);
    Then(moves, waited, sent, m, l, rest);
    Then(moves, waiting, waited, m, k, l + rest);
    Then(moves, s, waiting, m, j, k + (l + rest));
    n := j + (k + (l + rest));
  }

  /** When all goes well, with or without the propagation check, a solve places
      every record, finalizes, and cleans every record up in order. */
  lemma SolveSucceeds(moves: Moves, challenges: seq<Challenge>, check: bool) returns (n: nat, m: Solve)
    requires Covers(moves)
    ensures Leads(moves, Fresh(challenges), m, n) && m.phase == Finished(true)
    ensures m.challenges == challenges && m.pushed == |challenges| && m.ledger.finished == challenges && AllCleaned(m)
  {
    assert challenges[..0] == [];
    var j, placed := PresentsAll(moves, Fresh(challenges));
    var k;
    k, m := WaitsAndValidates(moves, placed, check);
    Then(moves, Fresh(challenges), placed, m, j, k);
    n := j + k;
    assert challenges[..|challenges|] == challenges;
  }
}

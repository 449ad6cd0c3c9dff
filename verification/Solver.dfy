/** One solve: place every record, wait until they are visible, tell the ACME
    server, finalize, and take the records down again, with an error or a drop
    of the future possible at every await. */
module Solver {
  import opened Prelude
  import G = CleanupGuard
  import R = AtomicRecords

  /** The TXT value of one challenge and the record set it belongs in. */
  datatype Challenge = Challenge(key: string, value: string)

  /** A nameserver polled for propagation. */
  type Target = nat

  /** What happened, in order. */
  datatype Entry =
    | PresentStarted(c: Challenge)
    | Presented(c: Challenge)
    | Confirmed(c: Challenge, target: Target)
    | Visible(c: Challenge, targets: set<Target>)
    | Slept
    | ReadySent
    | ReadyOk
    | FinalizeOk

  datatype Phase =
    | Collecting
    | Presenting
    | Sleeping
    | Confirming(next: nat)
    | Polling(next: nat, targets: set<Target>, silent: set<Target>)
    | Readying
    | Finalizing
    /** The guard's `run`; `ok` is the outcome to return. */
    | Cleaning(ok: bool, busy: bool)
    | Finished(ok: bool)
    /** The task spawned when the guard is dropped. */
    | Draining(queue: seq<Challenge>, busy: bool)
    | Drained
    /** Dropped without a runtime, or the spawned task was killed. */
    | Abandoned(left: seq<Challenge>)

  /** How far cleanup was when the solve was dropped. */
  datatype Cut = Cut(finished: nat, touched: nat)

  /** `challenges` is what the driver yields, in order. `pushed` of them are in
      the guard, `presented` were presented with success, `touched` have had a
      cleanup started, and `results` are the outcomes of completed cleanups. */
  datatype Solve = Solve(
    challenges: seq<Challenge>,
    pushed: nat,
    presented: nat,
    touched: nat,
    ledger: G.Ledger<Challenge>,
    results: seq<bool>,
    drop: Option<Cut>,
    phase: Phase,
    log: seq<Entry>)

  /** How a step shows at the provider. */
  datatype Act = Tau | Start(req: R.Request) | Finish(ok: bool) | Abort

  function Fresh(challenges: seq<Challenge>): Solve {
    Solve(challenges, 0, 0, 0, G.Ledger([], [], []), [], None, Collecting, [])
  }

  // --- Steps -------------------------------------------------------------------

  function Logged(s: Solve, e: Entry): Solve {
    s.(log := s.log + [e])
  }

  /** An error before the end: on to the guard's `run`. */
  function Failed(s: Solve): Solve {
    s.(phase := Cleaning(false, false))
  }

  function SendReady(s: Solve): Solve {
    Logged(s, ReadySent).(phase := Readying)
  }

  predicate Busy(s: Solve) {
    s.phase.Presenting? || (s.phase.Cleaning? && s.phase.busy) || (s.phase.Draining? && s.phase.busy)
  }

  predicate Over(s: Solve) {
    s.phase.Finished? || s.phase.Drained? || s.phase.Abandoned?
  }

  predicate CanStart(s: Solve) {
    match s.phase
    case Collecting => s.pushed < |s.challenges|
    case Cleaning(_, busy) => !busy && s.ledger.pending != []
    case Draining(queue, busy) => !busy && queue != []
    case _ => false
  }

  function Placing(c: Challenge): R.Request {
    R.Request(R.Add, c.key, c.value)
  }

  function Removing(c: Challenge): R.Request {
    R.Request(R.Remove, c.key, c.value)
  }

  function Next(s: Solve): R.Request
    requires CanStart(s)
  {
    match s.phase
    case Collecting => Placing(s.challenges[s.pushed])
    case Cleaning(_, _) => Removing(s.ledger.pending[0])
    case Draining(queue, _) => Removing(queue[0])
  }

  /** The record goes into the guard before `present` starts. */
  function AfterStart(s: Solve): Solve
    requires CanStart(s)
  {
    match s.phase
    case Collecting =>
      var c := s.challenges[s.pushed];
      Logged(s, PresentStarted(c)).(pushed := s.pushed + 1, ledger := G.Pushed(s.ledger, c), phase := Presenting)
    case Cleaning(ok, _) =>
      s.(ledger := G.Started(s.ledger, s.ledger.pending[0]), touched := |s.ledger.finished| + 1,
          phase := Cleaning(ok, true))
    case Draining(queue, _) =>
      s.(ledger := G.Started(s.ledger, queue[0]), touched := |s.ledger.finished| + 1, phase := Draining(queue, true))
  }

  /** A cleanup that fails is reported and counts as done all the same. */
  ghost predicate FinishStep(s: Solve, ok: bool, s': Solve) {
    match s.phase
    case Presenting =>
      var n := |s.ledger.pending|;
      && n > 0
      && s' == if ok
               then Logged(s, Presented(s.ledger.pending[n - 1])).(presented := s.presented + 1, phase := Collecting)
               else Failed(s)
    case Cleaning(outcome, busy) =>
      && busy && s.ledger.pending != []
      && s' == s.(ledger := G.Finished(s.ledger), results := s.results + [ok], phase := Cleaning(outcome, false))
    case Draining(queue, busy) =>
      && busy && queue != []
      && s' == s.(ledger := s.ledger.(finished := s.ledger.finished + [queue[0]]),
                  results := s.results + [ok], phase := Draining(queue[1..], false))
    case _ => false
  }

  /** The future is dropped: what is pending goes to a spawned task, unless
      there is no runtime. Dropping that task loses the rest. */
  function Dropped(s: Solve, runtime: bool): Solve {
    if s.phase.Draining? then s.(phase := Abandoned(s.phase.queue))
    else
      var left := s.ledger.pending;
      s.(ledger := s.ledger.(pending := []),
         drop := Some(Cut(|s.ledger.finished|, s.touched)),
         phase := if runtime && left != [] then Draining(left, false) else Abandoned(left))
  }

  ghost predicate PollStep(s: Solve, s': Solve)
    requires s.phase.Polling? && s.phase.next < |s.ledger.pending|
  {
    var c := s.ledger.pending[s.phase.next];
    || (exists t :: t in s.phase.silent &&
          s' == Logged(s, Confirmed(c, t)).(phase := s.phase.(silent := s.phase.silent - {t})))
    || (s.phase.silent == {} && s' == Logged(s, Visible(c, s.phase.targets)).(phase := Confirming(s.phase.next + 1)))
    || s' == Failed(s)
  }

  ghost predicate OwnStep(s: Solve, s': Solve) {
    match s.phase
    case Collecting =>
      || s' == Failed(s)
      || (s.pushed == |s.challenges| && (s' == s.(phase := Sleeping) || s' == s.(phase := Confirming(0))))
    case Sleeping => s' == SendReady(Logged(s, Slept))
    case Confirming(n) =>
      if n == |s.ledger.pending| then s' == SendReady(s)
      else s' == Failed(s) || (exists ts :: ts != {} && s' == s.(phase := Polling(n, ts, ts)))
    case Polling(n, _, _) => n < |s.ledger.pending| && PollStep(s, s')
    case Readying => s' == Failed(s) || s' == Logged(s, ReadyOk).(phase := Finalizing)
    case Finalizing => s' == Failed(s) || s' == Logged(s, FinalizeOk).(phase := Cleaning(true, false))
    case Cleaning(ok, busy) => !busy && s.ledger.pending == [] && s' == s.(phase := Finished(ok))
    case Draining(queue, busy) => !busy && queue == [] && s' == s.(phase := Drained)
    case _ => false
  }

  ghost predicate DropStep(s: Solve, s': Solve) {
    !Over(s) && exists runtime :: s' == Dropped(s, runtime)
  }

  ghost predicate Step(s: Solve, a: Act, s': Solve) {
    match a
    case Tau => OwnStep(s, s') || (!Busy(s) && DropStep(s, s'))
    case Start(req) => CanStart(s) && req == Next(s) && s' == AfterStart(s)
    case Finish(ok) => FinishStep(s, ok, s')
    case Abort => Busy(s) && DropStep(s, s')
  }

  // --- The guard's books ----------------------------------------------------------

  /** What has been pushed and not been cleaned. */
  function Remaining(s: Solve): seq<Challenge> {
    match s.phase
    case Draining(queue, _) => queue
    case Abandoned(left) => left
    case _ => s.ledger.pending
  }

  ghost predicate CountsOk(s: Solve) {
    && s.presented <= s.pushed <= s.presented + 1 && s.pushed <= |s.challenges|
    && s.challenges[..s.pushed] == s.ledger.finished + Remaining(s)
    && |s.results| == |s.ledger.finished| <= s.touched <= |s.ledger.finished| + 1
    && s.touched <= s.pushed
  }

  /** Starts before the drop, then those of the spawned task, from the first
      record not cleaned on. */
  ghost predicate StartsOk(s: Solve)
    requires CountsOk(s)
  {
    var n := |s.ledger.started|;
    match s.drop
    case None => s.ledger.started == s.challenges[..s.touched]
    case Some(cut) =>
      var reached := cut.finished + n - cut.touched;
      && cut.finished <= cut.touched <= n && cut.touched <= cut.finished + 1 && cut.touched <= s.touched
      && cut.finished <= |s.ledger.finished| <= reached <= s.touched
      && s.ledger.started == s.challenges[..cut.touched] + s.challenges[cut.finished..reached]
  }

  ghost predicate PhaseOk(s: Solve) {
    match s.phase
    case Collecting => s.presented == s.pushed && s.touched == 0 && s.drop.None?
    case Presenting => s.pushed == s.presented + 1 && s.touched == 0 && s.drop.None?
    case Sleeping => s.presented == |s.challenges| && s.touched == 0 && s.drop.None?
    case Confirming(n) => s.presented == |s.challenges| && s.touched == 0 && s.drop.None? && n <= |s.challenges|
    case Polling(n, targets, silent) =>
      && s.presented == |s.challenges| && s.touched == 0 && s.drop.None?
      && n < |s.challenges| && targets != {} && silent <= targets
    case Readying => s.presented == |s.challenges| && s.touched == 0 && s.drop.None?
    case Finalizing => s.presented == |s.challenges| && s.touched == 0 && s.drop.None?
    case Cleaning(_, busy) =>
      s.drop.None? && s.touched == |s.ledger.finished| + (if busy then 1 else 0) && (busy ==> s.ledger.pending != [])
    case Finished(_) => s.drop.None? && s.ledger.pending == []
    case Draining(queue, busy) =>
      && s.drop.Some? && s.ledger.pending == [] && (busy ==> queue != [] && s.touched == |s.ledger.finished| + 1)
      && |s.ledger.started| - s.drop.value.touched ==
          |s.ledger.finished| - s.drop.value.finished + (if busy then 1 else 0)
    case Drained => s.drop.Some? && s.ledger.pending == []
    case Abandoned(_) => s.drop.Some? && s.ledger.pending == []
  }

  ghost predicate BooksOk(s: Solve) {
    CountsOk(s) && PhaseOk(s) && StartsOk(s)
  }

  lemma FreshBooks(challenges: seq<Challenge>)
    ensures BooksOk(Fresh(challenges))
  {
  }

  lemma PresentKeepsBooks(s: Solve)
    requires BooksOk(s) && CanStart(s) && s.phase.Collecting?
    ensures BooksOk(AfterStart(s))
  {
    assert s.challenges[..s.pushed + 1] == s.challenges[..s.pushed] + [s.challenges[s.pushed]];
  }

  lemma CleanKeepsBooks(s: Solve)
    requires BooksOk(s) && CanStart(s) && s.phase.Cleaning?
    ensures BooksOk(AfterStart(s))
  {
    assert s.challenges[..s.pushed][|s.ledger.finished|] == s.ledger.pending[0];
    assert s.challenges[..s.touched + 1] == s.challenges[..s.touched] + [s.ledger.pending[0]];
  }

  lemma DrainKeepsBooks(s: Solve)
    requires BooksOk(s) && CanStart(s) && s.phase.Draining?
    ensures BooksOk(AfterStart(s))
  {
    var cut, queue := s.drop.value, s.phase.queue;
    assert s.challenges[..s.pushed][|s.ledger.finished|] == queue[0];
    assert s.challenges[cut.finished..|s.ledger.finished| + 1] ==
           s.challenges[cut.finished..|s.ledger.finished|] + [queue[0]];
  }

  lemma StartKeepsBooks(s: Solve)
    requires BooksOk(s) && CanStart(s)
    ensures BooksOk(AfterStart(s))
  {
    match s.phase
    case Collecting => PresentKeepsBooks(s);
    case Cleaning(_, _) => CleanKeepsBooks(s);
    case Draining(_, _) => DrainKeepsBooks(s);
  }

  lemma FinishKeepsBooks(s: Solve, ok: bool, s': Solve)
    requires BooksOk(s) && FinishStep(s, ok, s')
    ensures BooksOk(s')
  {
    match s.phase
    case Presenting =>
    case Cleaning(_, _) =>
      assert s.ledger.finished + s.ledger.pending == s'.ledger.finished + s'.ledger.pending;
    case Draining(queue, _) =>
      assert s.ledger.finished + queue == s'.ledger.finished + queue[1..];
  }

  lemma DropKeepsBooks(s: Solve, s': Solve)
    requires BooksOk(s) && DropStep(s, s')
    ensures BooksOk(s')
  {
    if !s.phase.Draining? {
      var n := |s.ledger.finished|;
      assert s.challenges[n..n] == [];
    }
  }

  /** A step that moves on and logs, and touches no record. */
  lemma MoveKeepsBooks(s: Solve, phase: Phase, log: seq<Entry>)
    requires BooksOk(s) && !s.phase.Draining? && !phase.Draining? && !phase.Abandoned? && !s.phase.Abandoned?
    requires PhaseOk(s.(phase := phase, log := log))
    ensures BooksOk(s.(phase := phase, log := log))
  {
    var s' := s.(phase := phase, log := log);
    assert Remaining(s') == Remaining(s);
    assert CountsOk(s');
  }

  lemma OwnKeepsBooks(s: Solve, s': Solve)
    requires BooksOk(s) && OwnStep(s, s')
    ensures BooksOk(s')
  {
    if !s.phase.Draining? {
      assert s' == s.(phase := s'.phase, log := s'.log);
      OwnMoves(s, s');
      MoveKeepsBooks(s, s'.phase, s'.log);
    }
  }

  lemma OwnMoves(s: Solve, s': Solve)
    requires BooksOk(s) && OwnStep(s, s') && !s.phase.Draining?
    ensures PhaseOk(s') && !s'.phase.Draining? && !s'.phase.Abandoned?
  {
    if s.phase.Polling? || s.phase.Confirming? {
      assert s.challenges[..s.pushed] == s.challenges;
      assert |s.ledger.pending| == |s.challenges|;
    }
  }

  lemma StepKeepsBooks(s: Solve, a: Act, s': Solve)
    requires BooksOk(s) && Step(s, a, s')
    ensures BooksOk(s') && s'.challenges == s.challenges
  {
    match a
    case Tau => if OwnStep(s, s') { OwnKeepsBooks(s, s'); } else { DropKeepsBooks(s, s'); }
    case Start(_) => StartKeepsBooks(s);
    case Finish(ok) => FinishKeepsBooks(s, ok, s');
    case Abort => DropKeepsBooks(s, s');
  }
}

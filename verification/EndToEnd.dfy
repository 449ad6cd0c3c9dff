/** Any number of solves at once over one provider, each failing or dropped
    anywhere: what happens to the values in their shared record sets. */
module EndToEnd {
  import opened Solver
  import R = AtomicRecords
  import Providers
  import L = LockedCalls
  import P = RecordPerValue
  import RecordCounts

  type TaskId = nat

  /** `base` is what the record sets would hold had no solve touched them: the
      initial sets, plus what other clients wrote since. `overlooked` are the
      challenges whose cleanup returned Ok without having taken effect. */
  datatype System = System(
    provider: Providers.Provider,
    solves: map<TaskId, Solve>,
    base: map<string, set<string>>,
    overlooked: set<Challenge>)

  ghost predicate Owned(solves: map<TaskId, Solve>, c: Challenge) {
    exists id :: id in solves && c in solves[id].challenges
  }

  /** `c` has been handed to a guard. */
  ghost predicate Pushed(solves: map<TaskId, Solve>, c: Challenge) {
    exists id, j :: id in solves && 0 <= j < solves[id].pushed && j < |solves[id].challenges| &&
        solves[id].challenges[j] == c
  }

  /** No two challenges share both their name and their value. */
  ghost predicate Distinct(solves: map<TaskId, Solve>) {
    forall a, i, b, j | a in solves && b in solves && 0 <= i < |solves[a].challenges| && 0 <= j < |solves[b].challenges|
                        && solves[a].challenges[i] == solves[b].challenges[j] :: a == b && i == j
  }

  // --- Steps ---------------------------------------------------------------------

  function EventOf(id: TaskId, act: Act): R.Event {
    match act
    case Tau => R.Internal
    case Start(req) => R.Begin(id, req)
    case Finish(ok) => R.Return(id, ok)
    case Abort => R.Cancel(id)
  }

  /** The challenge a finished call claims to have removed, if it has not. */
  function Overlooks(r: R.Records, id: TaskId, act: Act): set<Challenge> {
    if act == Finish(true) && id in r.calls && !r.calls[id].applied
    then {Challenge(r.calls[id].req.key, r.calls[id].req.value)} else {}
  }

  ghost predicate SolveStep(s: System, s': System, id: TaskId, act: Act) {
    && id in s.solves && id in s'.solves
    && Solver.Step(s.solves[id], act, s'.solves[id])
    && s'.solves == s.solves[id := s'.solves[id]] && s'.base == s.base
    && s'.overlooked == s.overlooked + Overlooks(Providers.Abs(s.provider), id, act)
    && if act.Tau? then s'.provider == s.provider else Providers.Step(s.provider, EventOf(id, act), s'.provider)
  }

  ghost predicate ProviderStep(s: System, s': System) {
    && Providers.Step(s.provider, R.Internal, s'.provider)
    && s'.solves == s.solves && s'.base == s.base && s'.overlooked == s.overlooked
  }

  /** Another client rewrites a record set, leaving the solves' values alone. */
  ghost predicate ForeignStep(s: System, s': System, key: string, values: set<string>) {
    && Providers.Step(s.provider, R.Foreign(key, values), s'.provider)
    && s'.solves == s.solves && s'.overlooked == s.overlooked
    && (forall v :: Owned(s.solves, Challenge(key, v)) ==>
          (v in values <==> v in R.At(Providers.Abs(s.provider).sets, key)))
    && (forall k, v :: v in R.At(s'.base, k) <==>
          if k == key && !Owned(s.solves, Challenge(k, v)) then v in values else v in R.At(s.base, k))
  }

  ghost predicate Step(s: System, s': System) {
    || (exists id, act :: SolveStep(s, s', id, act))
    || ProviderStep(s, s')
    || (exists key, values :: ForeignStep(s, s', key, values))
  }

  ghost predicate Init(s: System) {
    && Providers.Init(s.provider)
    && (forall id | id in s.solves :: s.solves[id] == Fresh(s.solves[id].challenges))
    && Distinct(s.solves)
    && s.base == Providers.Abs(s.provider).sets && s.overlooked == {}
  }

  /** Moment `i` follows from the one before it. */
  ghost predicate Follows(run: seq<System>, i: nat) {
    0 < i < |run| ==> Step(run[i - 1], run[i])
  }

  ghost predicate IsRun(run: seq<System>) {
    |run| > 0 && Init(run[0]) && forall i :: Follows(run, i)
  }

  // --- The invariant, over the atomic contract ---------------------------------------

  ghost predicate There(r: R.Records, c: Challenge) {
    c.value in R.At(r.sets, c.key)
  }

  /** The challenge a solve has a call in flight for. */
  function CurrentIndex(s: Solve): nat {
    if s.phase.Presenting? && s.pushed > 0 then s.pushed - 1 else |s.ledger.finished|
  }

  ghost predicate CallOk(call: R.Call, s: Solve, r: R.Records) {
    && Busy(s) && CurrentIndex(s) < |s.challenges|
    && var c := s.challenges[CurrentIndex(s)];
       && call.req == (if s.phase.Presenting? then Placing(c) else Removing(c))
       && (call.applied ==> (There(r, c) <==> s.phase.Presenting?))
  }

  /** A presented value is there until its cleanup starts, and gone once its
      cleanup has succeeded without overlooking it. */
  ghost predicate RecordOk(s: Solve, j: nat, r: R.Records, o: set<Challenge>)
    requires j < |s.challenges|
  {
    && (s.touched <= j < s.presented ==> There(r, s.challenges[j]))
    && (j < |s.results| && s.results[j] && s.challenges[j] !in o ==> !There(r, s.challenges[j]))
  }

  ghost predicate SolveOk(id: TaskId, s: Solve, r: R.Records, o: set<Challenge>) {
    && BooksOk(s)
    && (id in r.calls <==> Busy(s))
    && (id in r.calls ==> CallOk(r.calls[id], s, r))
    && (forall j: nat | j < |s.challenges| :: RecordOk(s, j, r, o))
  }

  /** What no solve has pushed is as if the solves did not exist. */
  ghost predicate OthersOk(solves: map<TaskId, Solve>, r: R.Records, base: map<string, set<string>>) {
    forall c :: !Pushed(solves, c) ==> (There(r, c) <==> c.value in R.At(base, c.key))
  }

  ghost predicate AbsInv(solves: map<TaskId, Solve>, r: R.Records, base: map<string, set<string>>, o: set<Challenge>) {
    && Distinct(solves) && r.calls.Keys <= solves.Keys
    && (forall id | id in solves :: SolveOk(id, solves[id], r, o))
    && OthersOk(solves, r, base)
  }

  ghost predicate Inv(s: System) {
    Providers.Inv(s.provider) && AbsInv(s.solves, Providers.Abs(s.provider), s.base, s.overlooked)
  }

  // --- Each kind of step keeps it ---------------------------------------------------------

  /** Steps of a solve that start or end no call and move no count. */
  ghost predicate SameCounts(s: Solve, s': Solve) {
    && s'.challenges == s.challenges && s'.pushed == s.pushed && s'.presented == s.presented
    && s'.touched == s.touched && s'.results == s.results
  }

  lemma TauKeepsCounts(s: Solve, s': Solve)
    requires Solver.Step(s, Tau, s')
    ensures SameCounts(s, s') && !Busy(s) && !Busy(s')
  {
  }

  lemma AbortKeepsCounts(s: Solve, s': Solve)
    requires Solver.Step(s, Abort, s')
    ensures SameCounts(s, s') && Busy(s) && !Busy(s')
  {
  }

  /** A started call is for the challenge the books say is next. */
  lemma StartedCall(s: Solve)
    requires BooksOk(s) && CanStart(s)
    ensures var s' := AfterStart(s);
            && Busy(s') && !Busy(s) && CurrentIndex(s') < |s.challenges|
            && Next(s) == (if s'.phase.Presenting? then Placing(s.challenges[CurrentIndex(s')])
                           else Removing(s.challenges[CurrentIndex(s')]))
            && s'.challenges == s.challenges && s'.presented == s.presented && s'.results == s.results
            && s.touched <= s'.touched && s.pushed <= s'.pushed
  {
    if !s.phase.Collecting? {
      assert s.challenges[..s.pushed][|s.ledger.finished|] == Remaining(s)[0];
    }
  }

  lemma StartKeeps(id: TaskId, s: Solve, r: R.Records, r': R.Records, o: set<Challenge>)
    requires SolveOk(id, s, r, o) && CanStart(s)
    requires R.SameSets(r, r') && r'.calls == r.calls[id := R.Call(Next(s), false)]
    ensures SolveOk(id, AfterStart(s), r', o)
  {
    StartKeepsBooks(s);
    StartedCall(s);
    var s' := AfterStart(s);
    forall j: nat | j < |s'.challenges| ensures RecordOk(s', j, r', o) {
      assert RecordOk(s, j, r, o);
    }
  }

  lemma FinishedRecord(id: TaskId, s: Solve, ok: bool, s': Solve, r: R.Records, r': R.Records, o: set<Challenge>,
                       j: nat)
    requires SolveOk(id, s, r, o) && FinishStep(s, ok, s') && j < |s.challenges|
    requires id in r.calls && (ok && r.calls[id].req.op.Add? ==> r.calls[id].applied) && R.SameSets(r, r')
    ensures s'.challenges == s.challenges && RecordOk(s', j, r', o + Overlooks(r, id, Finish(ok)))
  {
    assert CallOk(r.calls[id], s, r) && RecordOk(s, j, r, o);
  }

  /** A call that ends leaves its value where its outcome says. */
  lemma FinishKeeps(id: TaskId, s: Solve, ok: bool, s': Solve, r: R.Records, r': R.Records, o: set<Challenge>)
    requires SolveOk(id, s, r, o) && FinishStep(s, ok, s')
    requires id in r.calls && (ok && r.calls[id].req.op.Add? ==> r.calls[id].applied)
    requires R.SameSets(r, r') && r'.calls == r.calls - {id}
    ensures SolveOk(id, s', r', o + Overlooks(r, id, Finish(ok)))
  {
    FinishKeepsBooks(s, ok, s');
    forall j: nat | j < |s.challenges|
      ensures s'.challenges == s.challenges && RecordOk(s', j, r', o + Overlooks(r, id, Finish(ok)))
    {
      FinishedRecord(id, s, ok, s', r, r', o, j);
    }
  }

  /** Moving on without a call, or giving one up, changes nothing that counts. */
  lemma IdleKeeps(id: TaskId, s: Solve, s': Solve, r: R.Records, r': R.Records, o: set<Challenge>)
    requires SolveOk(id, s, r, o) && BooksOk(s') && SameCounts(s, s') && !Busy(s')
    requires R.SameSets(r, r') && id !in r'.calls
    ensures SolveOk(id, s', r', o)
  {
    forall j: nat | j < |s'.challenges| ensures RecordOk(s', j, r', o) {
      assert RecordOk(s, j, r, o);
    }
  }

  /** A solve does not notice what happens elsewhere. */
  lemma ElsewhereKeeps(id: TaskId, s: Solve, r: R.Records, r': R.Records, o: set<Challenge>, o': set<Challenge>)
    requires SolveOk(id, s, r, o) && o <= o'
    requires forall c | c in s.challenges :: There(r', c) == There(r, c)
    requires id in r'.calls <==> id in r.calls
    requires id in r.calls ==> r'.calls[id] == r.calls[id]
    ensures SolveOk(id, s, r', o')
  {
    forall j: nat | j < |s.challenges| ensures RecordOk(s, j, r', o') {
      assert RecordOk(s, j, r, o);
    }
    if id in r.calls {
      assert CallOk(r.calls[id], s, r);
    }
  }

  /** The moment a call takes effect, seen from its own solve. */
  lemma ApplyKeeps(id: TaskId, s: Solve, r: R.Records, r': R.Records, o: set<Challenge>)
    requires SolveOk(id, s, r, o) && id in r.calls
    requires forall i | 0 <= i < |s.challenges| && i != CurrentIndex(s) ::
        There(r', s.challenges[i]) == There(r, s.challenges[i])
    requires r'.calls == r.calls[id := r.calls[id].(applied := true)]
    requires CallOk(r.calls[id], s, r) ==> (There(r', s.challenges[CurrentIndex(s)]) <==> s.phase.Presenting?)
    ensures SolveOk(id, s, r', o)
  {
    assert CallOk(r.calls[id], s, r);
    forall j: nat | j < |s.challenges| ensures RecordOk(s, j, r', o) {
      assert RecordOk(s, j, r, o);
    }
  }

  // --- From one solve to all of them -------------------------------------------------------

  lemma SameChallengesStayDistinct(solves: map<TaskId, Solve>, id: TaskId, s': Solve)
    requires Distinct(solves) && id in solves && s'.challenges == solves[id].challenges
    ensures Distinct(solves[id := s'])
  {
  }

  lemma PushedGrows(solves: map<TaskId, Solve>, id: TaskId, s': Solve, c: Challenge)
    requires id in solves && s'.challenges == solves[id].challenges && solves[id].pushed <= s'.pushed
    requires Pushed(solves, c)
    ensures Pushed(solves[id := s'], c)
  {
    var a, j :| a in solves && 0 <= j < solves[a].pushed && j < |solves[a].challenges| && solves[a].challenges[j] == c;
    var after := solves[id := s'];
    assert a in after && 0 <= j < after[a].pushed && after[a].challenges[j] == c;
  }

  lemma StepPushesOn(s: Solve, act: Act, s': Solve)
    requires BooksOk(s) && Solver.Step(s, act, s')
    ensures s.pushed <= s'.pushed
  {
  }

  /** Every call but that of `id` is as before. */
  ghost predicate OtherCallsStay(r: R.Records, r': R.Records, id: TaskId) {
    && (forall t | t != id :: t in r'.calls <==> t in r.calls)
    && (forall t | t != id && t in r.calls :: r'.calls[t] == r.calls[t])
  }

  lemma OtherSolvesKeep(solves: map<TaskId, Solve>, id: TaskId, t: TaskId, r: R.Records, r': R.Records,
                        base: map<string, set<string>>, o: set<Challenge>, o': set<Challenge>)
    requires o <= o' && AbsInv(solves, r, base, o) && t in solves && t != id
    requires R.SameSets(r, r') && OtherCallsStay(r, r', id)
    ensures SolveOk(t, solves[t], r', o')
  {
    ElsewhereKeeps(t, solves[t], r, r', o, o');
  }

  /** A step of solve `id` whose only trace in the provider is its own call. */
  lemma SolveStepKeeps(solves: map<TaskId, Solve>, id: TaskId, act: Act, s': Solve,
                       r: R.Records, r': R.Records, base: map<string, set<string>>,
                       o: set<Challenge>, o': set<Challenge>)
    requires o <= o' && AbsInv(solves, r, base, o) && id in solves && Solver.Step(solves[id], act, s')
    requires R.SameSets(r, r') && OtherCallsStay(r, r', id) && SolveOk(id, s', r', o')
    ensures AbsInv(solves[id := s'], r', base, o')
  {
    var after := solves[id := s'];
    StepKeepsBooks(solves[id], act, s');
    StepPushesOn(solves[id], act, s');
    SameChallengesStayDistinct(solves, id, s');
    forall t | t in r'.calls ensures t in after {
      assert t == id || t in r.calls;
    }
    forall t | t in after ensures SolveOk(t, after[t], r', o') {
      if t != id { OtherSolvesKeep(solves, id, t, r, r', base, o, o'); }
    }
    UnpushedStaysAsItWas(solves, id, act, s', r, r', base, o);
  }

  lemma UnpushedStaysAsItWas(solves: map<TaskId, Solve>, id: TaskId, act: Act, s': Solve,
                             r: R.Records, r': R.Records, base: map<string, set<string>>, o: set<Challenge>)
    requires AbsInv(solves, r, base, o) && id in solves && Solver.Step(solves[id], act, s') && R.SameSets(r, r')
    ensures forall c | !Pushed(solves[id := s'], c) :: There(r', c) <==> c.value in R.At(base, c.key)
  {
    StepPushesOn(solves[id], act, s');
    forall c | !Pushed(solves[id := s'], c) ensures There(r', c) <==> c.value in R.At(base, c.key) {
      if Pushed(solves, c) { PushedGrows(solves, id, s', c); }
    }
  }

  lemma ActKeeps(id: TaskId, s: Solve, act: Act, s': Solve, r: R.Records, r': R.Records, o: set<Challenge>)
    requires SolveOk(id, s, r, o) && Solver.Step(s, act, s')
    requires if act.Tau? then r' == r else R.WeakStep(r, EventOf(id, act), r')
    ensures SolveOk(id, s', r', o + Overlooks(r, id, act)) && R.SameSets(r, r')
    ensures OtherCallsStay(r, r', id)
  {
    StepKeepsBooks(s, act, s');
    assert !act.Finish? ==> o + Overlooks(r, id, act) == o;
    match act
    case Tau =>
      TauKeepsCounts(s, s');
      IdleKeeps(id, s, s', r, r', o);
    case Start(_) => StartKeeps(id, s, r, r', o);
    case Finish(ok) => FinishKeeps(id, s, ok, s', r, r', o);
    case Abort =>
      AbortKeepsCounts(s, s');
      IdleKeeps(id, s, s', r, r', o);
  }

  /** Only the pair a call names changes when the call takes effect. */
  lemma ApplyTouchesOnePair(r: R.Records, r': R.Records, id: TaskId, c: Challenge)
    requires R.ApplyStep(r, r', id)
    ensures var req := r.calls[id].req;
            There(r', c) == if c == Challenge(req.key, req.value) then req.op.Add? else There(r, c)
  {
    var req := r.calls[id].req;
    assert R.At(r'.sets, c.key) == if c.key == req.key then R.Effect(req, R.At(r.sets, req.key))
        else R.At(r.sets, c.key);
  }

  lemma CurrentIsPushed(s: Solve)
    requires BooksOk(s) && Busy(s)
    ensures CurrentIndex(s) < s.pushed <= |s.challenges|
  {
    assert |s.challenges[..s.pushed]| == |s.ledger.finished| + |Remaining(s)|;
  }

  lemma ApplyStepKeeps(solves: map<TaskId, Solve>, r: R.Records, r': R.Records, base: map<string, set<string>>,
                       o: set<Challenge>, id: TaskId)
    requires AbsInv(solves, r, base, o) && R.ApplyStep(r, r', id)
    ensures AbsInv(solves, r', base, o)
  {
    var s := solves[id];
    assert SolveOk(id, s, r, o) && CallOk(r.calls[id], s, r);
    CurrentIsPushed(s);
    var n := CurrentIndex(s);
    var mine := s.challenges[n];
    forall c ensures There(r', c) == if c == mine then s.phase.Presenting? else There(r, c) {
      ApplyTouchesOnePair(r, r', id, c);
    }
    forall t | t in solves ensures SolveOk(t, solves[t], r', o) {
      if t == id {
        ApplyKeeps(id, s, r, r', o);
      } else {
        ElsewhereKeeps(t, solves[t], r, r', o, o);
      }
    }
    assert Pushed(solves, mine);
  }

  lemma InternalKeeps(solves: map<TaskId, Solve>, r: R.Records, r': R.Records, base: map<string, set<string>>,
                      o: set<Challenge>)
    requires AbsInv(solves, r, base, o) && R.Step(r, R.Internal, r')
    ensures AbsInv(solves, r', base, o)
  {
    if id :| R.ApplyStep(r, r', id) {
      ApplyStepKeeps(solves, r, r', base, o, id);
    } else {
      forall t | t in solves ensures SolveOk(t, solves[t], r', o) {
        ElsewhereKeeps(t, solves[t], r, r', o, o);
      }
    }
  }

  lemma ForeignKeeps(s: System, s': System, key: string, values: set<string>)
    requires Inv(s) && ForeignStep(s, s', key, values)
    ensures Inv(s')
  {
    Providers.StepRefines(s.provider, R.Foreign(key, values), s'.provider);
    var r, r' := Providers.Abs(s.provider), Providers.Abs(s'.provider);
    forall t | t in s.solves ensures SolveOk(t, s.solves[t], r', s.overlooked) {
      forall c | c in s.solves[t].challenges ensures There(r', c) == There(r, c) {
        assert Owned(s.solves, c);
        assert c == Challenge(c.key, c.value);
      }
      ElsewhereKeeps(t, s.solves[t], r, r', s.overlooked, s.overlooked);
    }
    forall c | !Pushed(s.solves, c) ensures There(r', c) <==> c.value in R.At(s'.base, c.key) {
      assert c == Challenge(c.key, c.value);
      assert There(r, c) <==> c.value in R.At(s.base, c.key);
    }
  }

  lemma StepKeepsInv(s: System, s': System)
    requires Inv(s) && Step(s, s')
    ensures Inv(s')
  {
    var r, r' := Providers.Abs(s.provider), Providers.Abs(s'.provider);
    if id, act :| SolveStep(s, s', id, act) {
      if !act.Tau? { Providers.StepRefines(s.provider, EventOf(id, act), s'.provider); }
      ActKeeps(id, s.solves[id], act, s'.solves[id], r, r', s.overlooked);
      SolveStepKeeps(s.solves, id, act, s'.solves[id], r, r', s.base, s.overlooked, s'.overlooked);
    } else if ProviderStep(s, s') {
      Providers.StepRefines(s.provider, R.Internal, s'.provider);
      InternalKeeps(s.solves, r, r', s.base, s.overlooked);
    } else {
      var key, values :| ForeignStep(s, s', key, values);
      ForeignKeeps(s, s', key, values);
    }
  }

  lemma InitInv(s: System)
    requires Init(s)
    ensures Inv(s)
  {
    Providers.InitInv(s.provider);
    var r := Providers.Abs(s.provider);
    forall id | id in s.solves ensures SolveOk(id, s.solves[id], r, {}) {
      FreshBooks(s.solves[id].challenges);
    }
  }

  lemma {:induction false} RunKeepsInv(run: seq<System>, i: nat)
    requires IsRun(run) && i < |run|
    ensures Inv(run[i])
  {
    if i == 0 {
      InitInv(run[0]);
    } else {
      RunKeepsInv(run, i - 1);
      assert Follows(run, i);
      StepKeepsInv(run[i - 1], run[i]);
    }
  }

  // --- The end-to-end guarantees --------------------------------------------------------------

  /** Whatever the other solves and other clients do, and with any of the three
      provider designs: a value presented with success is stored under its name
      until its own cleanup starts. */
  lemma PresentedValueStays(run: seq<System>, i: nat, id: TaskId, j: nat)
    requires IsRun(run) && i < |run| && id in run[i].solves
    requires run[i].solves[id].touched <= j < run[i].solves[id].presented
    ensures j < |run[i].solves[id].challenges|
    ensures var c := run[i].solves[id].challenges[j];
            c.value in Providers.Stored(run[i].provider, c.key)
  {
    RunKeepsInv(run, i);
    var s := run[i].solves[id];
    assert SolveOk(id, s, Providers.Abs(run[i].provider), run[i].overlooked);
    assert RecordOk(s, j, Providers.Abs(run[i].provider), run[i].overlooked);
    Providers.StoredIsAbs(run[i].provider, s.challenges[j].key);
  }

  /** Every pushed record of the solve has been cleaned up with success. */
  ghost predicate CleanedUp(s: Solve) {
    |s.results| == s.pushed && forall j | 0 <= j < |s.results| :: s.results[j]
  }

  /** When all the cleanups have succeeded, each record set is what it would be
      had the solves never run, less the values they used, and but for the
      values a cleanup overlooked. */
  lemma OnlyTheOverlookedStay(run: seq<System>, i: nat, key: string, v: string)
    requires IsRun(run) && i < |run| && Challenge(key, v) !in run[i].overlooked
    requires forall id | id in run[i].solves :: CleanedUp(run[i].solves[id])
    ensures v in Providers.Stored(run[i].provider, key) <==>
            v in R.At(run[i].base, key) && !Pushed(run[i].solves, Challenge(key, v))
  {
    RunKeepsInv(run, i);
    var r, solves, c := Providers.Abs(run[i].provider), run[i].solves, Challenge(key, v);
    Providers.StoredIsAbs(run[i].provider, key);
    if Pushed(solves, c) {
      var id, j :| id in solves && 0 <= j < solves[id].pushed && j < |solves[id].challenges| &&
          solves[id].challenges[j] == c;
      assert CleanedUp(solves[id]) && SolveOk(id, solves[id], r, run[i].overlooked);
      assert RecordOk(solves[id], j, r, run[i].overlooked);
    } else {
      assert There(r, c) <==> v in R.At(run[i].base, key);
    }
  }

  // --- When nothing is overlooked -----------------------------------------------------------------

  /** The provider of the system takes a step of its own, or none. */
  lemma ProviderMoves(s: System, s': System)
    requires Step(s, s')
    ensures s'.provider == s.provider || exists e :: Providers.Step(s.provider, e, s'.provider)
  {
  }

  /** Call `id` of the provider is at work on a listing it is not sure of. */
  ghost predicate InDoubt(p: Providers.Provider, id: TaskId, c: Challenge) {
    && p.PerValue? && id in p.perValue.calls.active
    && RecordCounts.Unsure(L.Work(p.perValue.calls.active[id]))
    && c == Challenge(p.perValue.calls.active[id].req.key, p.perValue.calls.active[id].req.value)
  }

  lemma DoubtBefore(s: System, s': System, id: TaskId, c: Challenge)
    requires Providers.Inv(s.provider) && Step(s, s') && InDoubt(s'.provider, id, c)
    ensures InDoubt(s.provider, id, c) || !Providers.Findable(s.provider, c.key, c.value)
  {
    ProviderMoves(s, s');
    if s'.provider != s.provider {
      var e :| Providers.Step(s.provider, e, s'.provider);
      RecordCounts.StepDoubt(s.provider.perValue, e, s'.provider.perValue, id);
    }
  }

  lemma DoubtAt(run: seq<System>, i: nat, id: TaskId, c: Challenge)
    requires IsRun(run) && i < |run| && InDoubt(run[i].provider, id, c)
    ensures i > 0
    ensures InDoubt(run[i - 1].provider, id, c) || !Providers.Findable(run[i - 1].provider, c.key, c.value)
  {
    assert i > 0;
    RunKeepsInv(run, i - 1);
    assert Follows(run, i);
    DoubtBefore(run[i - 1], run[i], id, c);
  }

  /** A cleanup in doubt has asked for its first page while a record of its
      value was not on it. */
  lemma {:induction false} DoubtHasACause(run: seq<System>, i: nat, id: TaskId, c: Challenge) returns (j: nat)
    requires IsRun(run) && i < |run| && InDoubt(run[i].provider, id, c)
    ensures j < i && !Providers.Findable(run[j].provider, c.key, c.value)
  {
    DoubtAt(run, i, id, c);
    if InDoubt(run[i - 1].provider, id, c) {
      j := DoubtHasACause(run, i - 1, id, c);
    } else {
      j := i - 1;
    }
  }

  /** Only a cleanup in doubt overlooks anything. */
  lemma OverlooksInDoubt(s: System, s': System, id: TaskId, act: Act, c: Challenge)
    requires Inv(s) && SolveStep(s, s', id, act) && c in Overlooks(Providers.Abs(s.provider), id, act)
    ensures InDoubt(s.provider, id, c)
  {
    Providers.StepRefines(s.provider, EventOf(id, act), s'.provider);
    var p := s.provider.perValue;
    if !P.Doubtful(L.Work(p.calls.active[id])) {
      P.SuccessIsApplied(p, id);
      assert false;
    }
  }

  lemma OverlookedNow(s: System, s': System, c: Challenge) returns (id: TaskId)
    requires Inv(s) && Step(s, s') && c in s'.overlooked && c !in s.overlooked
    ensures InDoubt(s.provider, id, c)
  {
    var t, act :| SolveStep(s, s', t, act);
    OverlooksInDoubt(s, s', t, act, c);
    id := t;
  }

  lemma OverlookedAt(run: seq<System>, i: nat, c: Challenge) returns (id: TaskId)
    requires IsRun(run) && 0 < i < |run| && c in run[i].overlooked && c !in run[i - 1].overlooked
    ensures InDoubt(run[i - 1].provider, id, c)
  {
    RunKeepsInv(run, i - 1);
    var s, s' := run[i - 1], run[i];
    assert Follows(run, i);
    id := OverlookedNow(s, s', c);
  }

  /** What was overlooked had, at some moment, a record beyond the first page. */
  lemma {:induction false} OverlookedWasBehind(run: seq<System>, i: nat, c: Challenge) returns (j: nat)
    requires IsRun(run) && i < |run| && c in run[i].overlooked
    ensures j < i && !Providers.Findable(run[j].provider, c.key, c.value)
  {
    if i == 0 {
      assert false;
    }
    if c in run[i - 1].overlooked {
      j := OverlookedWasBehind(run, i - 1, c);
    } else {
      var id := OverlookedAt(run, i, c);
      j := DoubtHasACause(run, i - 1, id, c);
    }
  }

  /** When all the cleanups have succeeded, a value is stored exactly if it would
      be had the solves never run and no solve used it: with a provider that
      rewrites sets always, and with one that lists records while those of the
      value are on the first page. */
  lemma NothingIsLeftBehind(run: seq<System>, i: nat, key: string, v: string)
    requires IsRun(run) && i < |run| && forall j: nat | j < i :: Providers.Findable(run[j].provider, key, v)
    requires forall id | id in run[i].solves :: CleanedUp(run[i].solves[id])
    ensures v in Providers.Stored(run[i].provider, key) <==>
            v in R.At(run[i].base, key) && !Pushed(run[i].solves, Challenge(key, v))
  {
    if Challenge(key, v) in run[i].overlooked {
      var j := OverlookedWasBehind(run, i, Challenge(key, v));
      assert false;
    }
    OnlyTheOverlookedStay(run, i, key, v);
  }

  lemma OnlySwappingAdmitsOthers(s: System, s': System)
    ensures (exists key, values :: ForeignStep(s, s', key, values)) ==> s.provider.Swapping?
  {
  }

  lemma StepKeepsBase(s: System, s': System)
    requires Step(s, s') && !s.provider.Swapping?
    ensures !s'.provider.Swapping? && s'.base == s.base
  {
    OnlySwappingAdmitsOthers(s, s');
    if id, act :| SolveStep(s, s', id, act) {
    } else if ProviderStep(s, s') {
    }
  }

  lemma {:induction false} BaseIsInitial(run: seq<System>, i: nat)
    requires IsRun(run) && i < |run| && !run[0].provider.Swapping?
    ensures !run[i].provider.Swapping? && run[i].base == run[0].base
  {
    if i > 0 {
      BaseIsInitial(run, i - 1);
      assert Follows(run, i);
      StepKeepsBase(run[i - 1], run[i]);
    }
  }

  /** Under the lock, with no other writer: the initial values minus the
      solves' own. */
  lemma InitialValuesMinusTheSolves(run: seq<System>, i: nat, key: string, v: string)
    requires IsRun(run) && i < |run| && !run[0].provider.Swapping?
    requires forall j: nat | j < i :: Providers.Findable(run[j].provider, key, v)
    requires forall id | id in run[i].solves :: CleanedUp(run[i].solves[id])
    ensures v in Providers.Stored(run[i].provider, key) <==>
            v in Providers.Stored(run[0].provider, key) && !Pushed(run[i].solves, Challenge(key, v))
  {
    BaseIsInitial(run, i);
    NothingIsLeftBehind(run, i, key, v);
    Providers.StoredIsAbs(run[0].provider, key);
  }
}

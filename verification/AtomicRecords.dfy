/** The contract of `DnsProvider`: every name has a set of TXT values, and each
    `present` or `cleanup` call adds or removes its value in one atomic step
    somewhere between its start and its end. */
module AtomicRecords {

  type TaskId = nat

  datatype Op = Add | Remove

  /** A provider call. `key` names the record set. */
  datatype Request = Request(op: Op, key: string, value: string)

  datatype Call = Call(req: Request, applied: bool)

  datatype Records = Records(sets: map<string, set<string>>, calls: map<TaskId, Call>)

  /** What a caller or another client can see of a step. */
  datatype Event =
    | Begin(id: TaskId, req: Request)
    | Return(id: TaskId, ok: bool)
    | Cancel(id: TaskId)
    | Foreign(key: string, values: set<string>)
    | Internal

  function At(sets: map<string, set<string>>, key: string): set<string> {
    if key in sets then sets[key] else {}
  }

  function Effect(req: Request, values: set<string>): set<string> {
    match req.op
    case Add => values + {req.value}
    case Remove => values - {req.value}
  }

  ghost predicate SameSets(s: Records, s': Records) {
    forall k :: At(s'.sets, k) == At(s.sets, k)
  }

  /** The set at `key` becomes `values`; every other set stays. */
  ghost predicate Becomes(s: Records, s': Records, key: string, values: set<string>) {
    forall k :: At(s'.sets, k) == if k == key then values else At(s.sets, k)
  }

  /** The atomic effect of a call, at most once. */
  ghost predicate ApplyStep(s: Records, s': Records, id: TaskId) {
    && id in s.calls && !s.calls[id].applied
    && Becomes(s, s', s.calls[id].req.key, Effect(s.calls[id].req, At(s.sets, s.calls[id].req.key)))
    && s'.calls == s.calls[id := s.calls[id].(applied := true)]
  }

  /** A call that returns Ok has taken effect; one that fails or is dropped may
      or may not have, but is over either way. */
  ghost predicate Step(s: Records, e: Event, s': Records) {
    match e
    case Begin(id, req) =>
      id !in s.calls && SameSets(s, s') && s'.calls == s.calls[id := Call(req, false)]
    case Return(id, ok) =>
      && id in s.calls && (ok ==> s.calls[id].applied)
      && SameSets(s, s') && s'.calls == s.calls - {id}
    case Cancel(id) =>
      id in s.calls && SameSets(s, s') && s'.calls == s.calls - {id}
    case Foreign(key, values) =>
      Becomes(s, s', key, values) && s'.calls == s.calls
    case Internal =>
      || (SameSets(s, s') && s'.calls == s.calls)
      || (exists id :: ApplyStep(s, s', id))
  }

  ghost predicate IsRun(run: seq<Records>, events: seq<Event>) {
    && |run| == |events| + 1
    && forall i | 0 <= i < |events| :: Step(run[i], events[i], run[i + 1])
  }

  /** The contract with one guarantee less: a cleanup that returns Ok may have
      overlooked a record, so that its value is still there. */
  ghost predicate WeakStep(s: Records, e: Event, s': Records) {
    if e.Return? then
      && e.id in s.calls && (e.ok && s.calls[e.id].req.op.Add? ==> s.calls[e.id].applied)
      && SameSets(s, s') && s'.calls == s.calls - {e.id}
    else Step(s, e, s')
  }

  ghost predicate IsWeakRun(run: seq<Records>, events: seq<Event>) {
    && |run| == |events| + 1
    && forall i | 0 <= i < |events| :: WeakStep(run[i], events[i], run[i + 1])
  }

  // --- Ways to take an internal step -----------------------------------------

  lemma Stutter(s: Records, s': Records)
    requires s'.sets == s.sets && s'.calls == s.calls
    ensures Step(s, Internal, s')
  {
  }

  /** A call takes effect by one write of the set it names. */
  lemma AppliesBy(s: Records, s': Records, id: TaskId, values: set<string>)
    requires id in s.calls && !s.calls[id].applied
    requires values == Effect(s.calls[id].req, At(s.sets, s.calls[id].req.key))
    requires Becomes(s, s', s.calls[id].req.key, values)
    requires s'.calls == s.calls[id := Call(s.calls[id].req, true)]
    ensures Step(s, Internal, s')
  {
    assert ApplyStep(s, s', id);
  }

  /** Adding a value a second time changes no set. */
  lemma AddsAgain(s: Records, s': Records, id: TaskId)
    requires id in s.calls && s.calls[id].applied && s.calls[id].req.op.Add?
    requires s.calls[id].req.value in At(s.sets, s.calls[id].req.key)
    requires Becomes(s, s', s.calls[id].req.key, At(s.sets, s.calls[id].req.key) + {s.calls[id].req.value})
    requires s'.calls == s.calls[id := Call(s.calls[id].req, true)]
    ensures Step(s, Internal, s')
  {
    SameCall(s, id);
    var key := s.calls[id].req.key;
    assert At(s.sets, key) + {s.calls[id].req.value} == At(s.sets, key);
    RewritesBy(s, s', key);
  }

  lemma SameCall(s: Records, id: TaskId)
    requires id in s.calls
    ensures s.calls[id := Call(s.calls[id].req, s.calls[id].applied)] == s.calls
  {
  }

  /** A write that stores what is there already changes nothing. */
  lemma RewritesBy(s: Records, s': Records, key: string)
    requires Becomes(s, s', key, At(s.sets, key)) && s'.calls == s.calls
    ensures Step(s, Internal, s')
  {
    assert SameSets(s, s');
  }
}

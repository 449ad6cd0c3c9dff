/** Google Cloud DNS: a change deletes the record set exactly as fetched and
    adds the new one, and the server applies both or neither. Other clients may
    write at any time. */
module CompareAndSwap {
  import opened Prelude
  import opened TxtValues
  import L = LockedCalls
  import R = AtomicRecords

  type TaskId = nat

  /** A record set as the API reports it; `rest` stands for its other fields,
      which only take part in the exact match. */
  datatype RRset = RRset(ttl: Option<nat>, rrdatas: seq<Entry>, rest: string)

  datatype Change = NoChange | Change(deletion: Option<RRset>, addition: Option<RRset>)

  function Entries(rrset: Option<RRset>): seq<Entry> {
    if rrset.Some? then rrset.value.rrdatas else []
  }

  /** The TTL of the existing set, or the configured one when it has none. */
  function TtlOf(ttl: nat, existing: Option<RRset>): nat {
    if existing.Some? && existing.value.ttl.Some? then existing.value.ttl.value else ttl
  }

  function PresentChange(ttl: nat, existing: Option<RRset>, v: string): Change {
    if Contains(Entries(existing), v) then NoChange
    else Change(existing, Some(RRset(Some(TtlOf(ttl, existing)), Merged(Entries(existing), v), "")))
  }

  function CleanupChange(ttl: nat, existing: Option<RRset>, v: string): Change {
    var remaining := Kept(Entries(existing), v);
    if existing.None? || |remaining| == |existing.value.rrdatas| then NoChange
    else Change(existing, if remaining == [] then None else Some(RRset(Some(TtlOf(ttl, existing)), remaining, "")))
  }

  function Plan(ttl: nat, req: R.Request, existing: Option<RRset>): Change {
    match req.op
    case Add => PresentChange(ttl, existing, req.value)
    case Remove => CleanupChange(ttl, existing, req.value)
  }

  /** The deletion must match what is stored; with nothing to delete, nothing
      may be stored. Otherwise the server answers 412 or 409. */
  predicate Matches(change: Change, stored: Option<RRset>) {
    change.Change? && stored == change.deletion
  }

  lemma PlanHasTheAtomicEffect(ttl: nat, req: R.Request, existing: Option<RRset>)
    ensures var change, values := Plan(ttl, req, existing), Values(Entries(existing));
            && (change.NoChange? <==> R.Effect(req, values) == values)
            && (change.Change? ==>
                  && change.deletion == existing
                  && Values(Entries(change.addition)) == R.Effect(req, values)
                  && (change.addition.None? <==> R.Effect(req, values) == {}))
  {
    var es := Entries(existing);
    match req.op
    case Add =>
      MergedValues(es, req.value);
      assert Contains(es, req.value) <==> req.value in Values(es);
    case Remove =>
      KeptValues(es, req.value);
      KeptLength(es, req.value);
      var remaining := Kept(es, req.value);
      assert remaining != [] ==> Unquote(remaining[0].content) in Values(remaining);
  }

  // --- Concurrent calls and foreign writers -----------------------------------

  datatype Progress = Fetched(ttl: nat, seen: Option<RRset>) | Committed | Rejected | Unneeded

  datatype State = State(calls: L.Calls<Progress>, server: map<string, RRset>)

  predicate Applied(work: Option<Progress>) {
    work.Some? && (work.value.Committed? || work.value.Unneeded?)
  }

  function Advanced(s: State, id: TaskId, p: Progress): State
    requires id in s.calls.active
  {
    s.(calls := L.Advanced(s.calls, id, p))
  }

  ghost predicate FetchStep(s: State, s': State, id: TaskId, ttl: nat) {
    && L.CanWork(s.calls, id) && L.Work(s.calls.active[id]).None?
    && var req := s.calls.active[id].req;
       var seen := Lookup(s.server, req.key);
       s' == Advanced(s, id, if Plan(ttl, req, seen).NoChange? then Unneeded else Fetched(ttl, seen))
  }

  /** The POST reaches the server, which commits or rejects it. A change is
      never replayed after being processed. */
  ghost predicate ChangeStep(s: State, s': State, id: TaskId, ttl: nat, seen: Option<RRset>) {
    && id in s.calls.active && L.Work(s.calls.active[id]) == Some(Fetched(ttl, seen))
    && var req := s.calls.active[id].req;
       var change := Plan(ttl, req, seen);
       s' == if Matches(change, Lookup(s.server, req.key))
             then Advanced(s, id, Committed).(server := Put(s.server, req.key, change.addition))
             else Advanced(s, id, Rejected)
  }

  ghost predicate ForeignStep(s: State, s': State, key: string, written: Option<RRset>) {
    s' == s.(server := Put(s.server, key, written))
  }

  ghost predicate Step(s: State, e: R.Event, s': State) {
    match e
    case Begin(id, req) => id !in s.calls.active && s' == s.(calls := L.Began(s.calls, id, req))
    case Return(id, ok) =>
      && id in s.calls.active && (ok ==> Applied(L.Work(s.calls.active[id])))
      && s' == s.(calls := L.Ended(s.calls, id))
    case Cancel(id) => id in s.calls.active && s' == s.(calls := L.Ended(s.calls, id))
    case Foreign(key, values) => exists w :: ForeignStep(s, s', key, w) && values == Values(Entries(w))
    case Internal =>
      || (L.WaitStep(s.calls, s'.calls) && s'.server == s.server)
      || (exists id, ttl :: FetchStep(s, s', id, ttl))
      || (exists id, ttl, seen :: ChangeStep(s, s', id, ttl, seen))
  }

  ghost predicate Init(s: State) {
    L.Init(s.calls)
  }

  ghost predicate IsRun(run: seq<State>, events: seq<R.Event>) {
    && |run| == |events| + 1 && Init(run[0])
    && forall i | 0 <= i < |events| :: Step(run[i], events[i], run[i + 1])
  }

  // --- Refinement -------------------------------------------------------------

  ghost function Abs(s: State): R.Records {
    R.Records(map k | k in s.server :: Values(s.server[k].rrdatas),
              map t | t in s.calls.active :: R.Call(s.calls.active[t].req, Applied(L.Work(s.calls.active[t]))))
  }

  ghost predicate CallOk(c: L.Call<Progress>) {
    var work := L.Work(c);
    work.Some? && work.value.Fetched? ==> Plan(work.value.ttl, c.req, work.value.seen).Change?
  }

  ghost predicate Inv(s: State) {
    L.Inv(s.calls) && forall t | t in s.calls.active :: CallOk(s.calls.active[t])
  }

  lemma AbsAt(s: State, k: string)
    ensures R.At(Abs(s).sets, k) == Values(Entries(Lookup(s.server, k)))
  {
    assert Values([]) == {};
  }

  lemma StoreAbs(s: State, key: string, stored: Option<RRset>)
    ensures var s' := s.(server := Put(s.server, key, stored));
            R.Becomes(Abs(s), Abs(s'), key, Values(Entries(stored))) && Abs(s').calls == Abs(s).calls
  {
    var s' := s.(server := Put(s.server, key, stored));
    forall k ensures R.At(Abs(s').sets, k) == if k == key then Values(Entries(stored)) else R.At(Abs(s).sets, k) {
      AbsAt(s, k);
      AbsAt(s', k);
    }
  }

  lemma AdvanceRefines(s: State, id: TaskId, p: Progress)
    requires Inv(s) && L.CanWork(s.calls, id) && CallOk(L.Call(s.calls.active[id].req, L.Working(p)))
    ensures Inv(Advanced(s, id, p))
    ensures Abs(Advanced(s, id, p)) ==
            Abs(s).(calls := Abs(s).calls[id := R.Call(s.calls.active[id].req, Applied(Some(p)))])
  {
    L.AdvanceKeepsInv(s.calls, id, p);
  }

  lemma FetchRefines(s: State, s': State, id: TaskId, ttl: nat)
    requires Inv(s) && FetchStep(s, s', id, ttl)
    ensures Inv(s') && R.Step(Abs(s), R.Internal, Abs(s'))
  {
    var req := s.calls.active[id].req;
    var p := s'.calls.active[id].phase.progress;
    AdvanceRefines(s, id, p);
    AbsAt(s, req.key);
    if p.Unneeded? {
      PlanHasTheAtomicEffect(ttl, req, Lookup(s.server, req.key));
      R.AppliesBy(Abs(s), Abs(s'), id, R.At(Abs(s).sets, req.key));
    } else {
      R.SameCall(Abs(s), id);
      R.Stutter(Abs(s), Abs(s'));
    }
  }

  lemma ChangeRefines(s: State, s': State, id: TaskId, ttl: nat, seen: Option<RRset>)
    requires Inv(s) && ChangeStep(s, s', id, ttl, seen)
    ensures Inv(s') && R.Step(Abs(s), R.Internal, Abs(s'))
  {
    var req := s.calls.active[id].req;
    var change := Plan(ttl, req, seen);
    assert L.TicketOk(s.calls, id) && CallOk(s.calls.active[id]);
    if Matches(change, Lookup(s.server, req.key)) {
      AdvanceRefines(s, id, Committed);
      PlanHasTheAtomicEffect(ttl, req, seen);
      AbsAt(s, req.key);
      StoreAbs(Advanced(s, id, Committed), req.key, change.addition);
      R.AppliesBy(Abs(s), Abs(s'), id, Values(Entries(change.addition)));
    } else {
      AdvanceRefines(s, id, Rejected);
      R.SameCall(Abs(s), id);
      R.Stutter(Abs(s), Abs(s'));
    }
  }

  lemma WaitRefines(s: State, s': State)
    requires Inv(s) && L.WaitStep(s.calls, s'.calls) && s'.server == s.server
    ensures Inv(s') && R.Step(Abs(s), R.Internal, Abs(s'))
  {
    L.WaitKeepsInv(s.calls, s'.calls);
    forall t | t in s'.calls.active ensures CallOk(s'.calls.active[t]) {
      assert CallOk(s.calls.active[t]);
    }
    assert Abs(s').calls == Abs(s).calls;
    R.Stutter(Abs(s), Abs(s'));
  }

  lemma BeginRefines(s: State, id: TaskId, req: R.Request)
    requires Inv(s) && id !in s.calls.active
    ensures var s' := s.(calls := L.Began(s.calls, id, req));
            Inv(s') && R.Step(Abs(s), R.Begin(id, req), Abs(s'))
  {
    L.BeginKeepsInv(s.calls, id, req);
    var s' := s.(calls := L.Began(s.calls, id, req));
    assert Abs(s').calls == Abs(s).calls[id := R.Call(req, false)];
  }

  lemma EndRefines(s: State, id: TaskId)
    requires Inv(s) && id in s.calls.active
    ensures var s' := s.(calls := L.Ended(s.calls, id));
            Inv(s') && Abs(s').calls == Abs(s).calls - {id} && R.SameSets(Abs(s), Abs(s'))
  {
    L.EndKeepsInv(s.calls, id);
  }

  /** Even with foreign writers between any two steps, every interleaving is
      one of the atomic contract. */
  lemma StepRefines(s: State, e: R.Event, s': State)
    requires Inv(s) && Step(s, e, s')
    ensures Inv(s') && R.Step(Abs(s), e, Abs(s'))
  {
    match e
    case Begin(id, req) => BeginRefines(s, id, req);
    case Return(id, ok) => EndRefines(s, id);
    case Cancel(id) => EndRefines(s, id);
    case Foreign(key, values) =>
      var w :| ForeignStep(s, s', key, w) && values == Values(Entries(w));
      StoreAbs(s, key, w);
    case Internal =>
      if L.WaitStep(s.calls, s'.calls) && s'.server == s.server {
        WaitRefines(s, s');
      } else if id, ttl :| FetchStep(s, s', id, ttl) {
        FetchRefines(s, s', id, ttl);
      } else {
        var id, ttl, seen :| ChangeStep(s, s', id, ttl, seen);
        ChangeRefines(s, s', id, ttl, seen);
      }
  }

  lemma {:induction false} RunKeepsInv(run: seq<State>, events: seq<R.Event>, i: nat)
    requires IsRun(run, events) && i < |run|
    ensures Inv(run[i])
  {
    if i > 0 {
      RunKeepsInv(run, events, i - 1);
      assert Step(run[i - 1], events[i - 1], run[i]);
      StepRefines(run[i - 1], events[i - 1], run[i]);
    }
  }

  lemma RunRefines(run: seq<State>, events: seq<R.Event>)
    requires IsRun(run, events)
    ensures R.IsRun(seq(|run|, i requires 0 <= i < |run| => Abs(run[i])), events)
  {
    forall i | 0 <= i < |events| ensures R.Step(Abs(run[i]), events[i], Abs(run[i + 1])) {
      RunKeepsInv(run, events, i);
      assert Step(run[i], events[i], run[i + 1]);
      StepRefines(run[i], events[i], run[i + 1]);
    }
  }

  /** No update is lost. However stale the fetch, when the change reaches the
      server it commits exactly if the stored set is the one fetched; what it
      then stores is the operation applied to the set of that moment, other
      entries verbatim and in order and an existing TTL kept, or the configured
      one where there is none, and otherwise nothing changes. */
  lemma NoUpdateIsLost(run: seq<State>, events: seq<R.Event>, i: nat, id: TaskId, ttl: nat, seen: Option<RRset>)
    requires IsRun(run, events) && i < |events| && ChangeStep(run[i], run[i + 1], id, ttl, seen)
    ensures var req := run[i].calls.active[id].req;
            var now, after := Lookup(run[i].server, req.key), Lookup(run[i + 1].server, req.key);
            if now == seen then
              && L.Work(run[i + 1].calls.active[id]) == Some(Committed)
              && Values(Entries(after)) == R.Effect(req, Values(Entries(now)))
              && (after.None? <==> R.Effect(req, Values(Entries(now))) == {})
              && (now.Some? && now.value.ttl.Some? && after.Some? ==> after.value.ttl == now.value.ttl)
              && ((now.None? || now.value.ttl.None?) && after.Some? ==> after.value.ttl == Some(ttl))
              && (req.op.Add? ==> Entries(after) == Entries(now) + [Entry(Quote(req.value), false)])
              && (req.op.Remove? ==> Selects(Entries(now), Entries(after), OtherPositions(Entries(now), req.value)))
            else
              L.Work(run[i + 1].calls.active[id]) == Some(Rejected) && run[i + 1].server == run[i].server
  {
    RunKeepsInv(run, events, i);
    var req := run[i].calls.active[id].req;
    assert CallOk(run[i].calls.active[id]);
    PlanHasTheAtomicEffect(ttl, req, seen);
    CommittedEntries(ttl, req, seen);
  }

  lemma CommittedEntries(ttl: nat, req: R.Request, seen: Option<RRset>)
    requires Plan(ttl, req, seen).Change?
    ensures var added := Plan(ttl, req, seen).addition;
            && (req.op.Add? ==> Entries(added) == Entries(seen) + [Entry(Quote(req.value), false)])
            && (req.op.Remove? ==> Selects(Entries(seen), Entries(added), OtherPositions(Entries(seen), req.value)))
            && (added.Some? && seen.Some? && seen.value.ttl.Some? ==> added.value.ttl == seen.value.ttl)
            && (added.Some? ==> added.value.rest == "")
            && (added.Some? && (seen.None? || seen.value.ttl.None?) ==> added.value.ttl == Some(ttl))
  {
    KeptSelectsTheOthers(Entries(seen), req.value);
  }
}

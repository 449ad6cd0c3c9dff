/** How many records the one-record-per-value providers leave, and whose. What
    paging and replays cost is shown by runs, and what holds without them over
    all runs. */
module RecordCounts {
  import opened Prelude
  import opened TxtValues
  import opened RecordPerValue
  import L = LockedCalls
  import R = AtomicRecords

  // --- Where doubt comes from ---------------------------------------------------------

  ghost predicate Unsure(work: Option<Progress>) {
    && work.Some?
    && match work.value
       case Listing(_, _, sure) => !sure
       case Creating(sure) => !sure
       case Deleting(_, sure) => !sure
       case _ => false
  }

  /** Call `id` requests its first page. */
  ghost predicate FirstRequest(s: State, s': State, id: TaskId) {
    PageStep(s, s', id) && L.Work(s.calls.active[id]).None?
  }

  /** A step makes a call unsure only as its first page request, and only if a
      record of its value stands beyond that page. */
  ghost predicate DoubtFrom(s: State, s': State, id: TaskId)
    requires id in s'.calls.active
  {
    && id in s.calls.active && s.calls.active[id].req == s'.calls.active[id].req
    && (|| Unsure(L.Work(s.calls.active[id]))
        || (FirstRequest(s, s', id) && !OnFirstPage(s.zone, s.calls.active[id].req.key, s.calls.active[id].req.value)))
  }

  /** Working on what was listed brings no doubt. */
  lemma WorkDoubt(s: State, s': State, t: TaskId, p: Progress, id: TaskId)
    requires t in s.calls.active && s'.calls == L.Advanced(s.calls, t, p)
    requires id == t && Unsure(Some(p)) ==> Unsure(L.Work(s.calls.active[t]))
    requires id in s'.calls.active && Unsure(L.Work(s'.calls.active[id]))
    ensures DoubtFrom(s, s', id)
  {
  }

  lemma PageDoubt(s: State, s': State, t: TaskId, id: TaskId)
    requires PageStep(s, s', t) && id in s'.calls.active && Unsure(L.Work(s'.calls.active[id]))
    ensures DoubtFrom(s, s', id)
  {
    var work := L.Work(s.calls.active[t]);
    var p := AfterPage(s.zone, s.calls.active[t].req, work);
    assert Unsure(Some(p)) ==> !SureAfter(s.zone, s.calls.active[t].req, work);
    if id != t || work.Some? {
      WorkDoubt(s, s', t, p, id);
    }
  }

  lemma InternalDoubt(s: State, s': State, id: TaskId)
    requires Inv(s) && Step(s, R.Internal, s') && id in s'.calls.active && Unsure(L.Work(s'.calls.active[id]))
    ensures DoubtFrom(s, s', id)
  {
    if L.WaitStep(s.calls, s'.calls) && s'.zone == s.zone {
      L.WaitKeepsInv(s.calls, s'.calls);
    } else if t :| PageStep(s, s', t) {
      PageDoubt(s, s', t, id);
    } else if t, r, at :| CreateStep(s, s', t, r, at) {
      WorkDoubt(s, s', t, Done, id);
    } else if t :| ExistsStep(s, s', t) {
      WorkDoubt(s, s', t, Done, id);
    } else {
      var t, p, answered :| DeleteStep(s, s', t, p, answered);
      WorkDoubt(s, s', t, if answered then Deleting(p.todo[1..], p.sure) else p, id);
    }
  }

  lemma StepDoubt(s: State, e: R.Event, s': State, id: TaskId)
    requires Inv(s) && Step(s, e, s') && id in s'.calls.active && Unsure(L.Work(s'.calls.active[id]))
    ensures DoubtFrom(s, s', id)
  {
    if e.Internal? {
      InternalDoubt(s, s', id);
    }
  }

  /** An unsure call has requested its first page while a record of its value
      stood beyond it. */
  lemma {:induction false} UnsureSinceFirstRequest(run: seq<State>, events: seq<R.Event>, i: nat, id: TaskId)
    returns (j: nat)
    requires IsRun(run, events) && i < |run| && id in run[i].calls.active && Unsure(L.Work(run[i].calls.active[id]))
    ensures j < i && id in run[j].calls.active && run[j].calls.active[id].req == run[i].calls.active[id].req
    ensures var req := run[i].calls.active[id].req;
            FirstRequest(run[j], run[j + 1], id) && !OnFirstPage(run[j].zone, req.key, req.value)
  {
    assert i > 0;
    RunKeepsInv(run, events, i - 1);
    assert Step(run[i - 1], events[i - 1], run[i]);
    StepDoubt(run[i - 1], events[i - 1], run[i], id);
    if Unsure(L.Work(run[i - 1].calls.active[id])) {
      j := UnsureSinceFirstRequest(run, events, i - 1, id);
    } else {
      j := i - 1;
    }
  }

  // --- What cleanup leaves ----------------------------------------------------------------

  /** Every record of the value was on the first page when call `id` asked for
      it: what its caller can look up before the call. */
  ghost predicate FoundAtOnce(run: seq<State>, i: nat, id: TaskId, key: string, v: string)
    requires i < |run|
  {
    forall j: nat | j < i && FirstRequest(run[j], run[j + 1], id) :: OnFirstPage(run[j].zone, key, v)
  }

  /** A cleanup that returns Ok leaves no record of its value, duplicates
      included, if all of them were on the first page it requested. */
  lemma CleanupLeavesNoRecord(run: seq<State>, events: seq<R.Event>, i: nat, id: TaskId)
    requires IsRun(run, events) && i < |events| && id in run[i].calls.active && run[i].calls.active[id].req.op.Remove?
    requires events[i] == R.Return(id, true)
    requires FoundAtOnce(run, i, id, run[i].calls.active[id].req.key, run[i].calls.active[id].req.value)
    ensures var req := run[i].calls.active[id].req; Matching(run[i + 1].zone, req.key, req.value) == {}
  {
    RunKeepsInv(run, events, i);
    assert Step(run[i], events[i], run[i + 1]);
    assert CallOk(run[i], id);
    if Doubtful(L.Work(run[i].calls.active[id])) {
      var j := UnsureSinceFirstRequest(run, events, i, id);
      assert false;
    }
    SuccessIsApplied(run[i], id);
  }

  /** A cleanup deletes no record of another name or value. */
  lemma CleanupDeletesOnlyItsValue(run: seq<State>, events: seq<R.Event>, i: nat, id: TaskId, p: Progress,
                                   answered: bool)
    requires IsRun(run, events) && i < |events| && DeleteStep(run[i], run[i + 1], id, p, answered)
    ensures var req := run[i].calls.active[id].req;
            forall r | r in run[i].zone.records ::
              if r in run[i + 1].zone.records then run[i + 1].zone.records[r] == run[i].zone.records[r]
              else r in Matching(run[i].zone, req.key, req.value)
  {
    RunKeepsInv(run, events, i);
    assert CallOk(run[i], id);
  }

  /** With every listing a single request, as Bunny's always are, runs are runs
      of the full contract. */
  lemma RunRefines(run: seq<State>, events: seq<R.Event>)
    requires IsRun(run, events) && forall i | 0 <= i < |run| :: OnePage(run[i].zone)
    ensures R.IsRun(seq(|run|, i requires 0 <= i < |run| => Abs(run[i])), events)
  {
    forall i | 0 <= i < |events| ensures R.Step(Abs(run[i]), events[i], Abs(run[i + 1])) {
      RunKeepsInv(run, events, i);
      assert Step(run[i], events[i], run[i + 1]);
      OnePageIsCertain(run, events, i);
      StepRefines(run[i], events[i], run[i + 1]);
    }
  }

  lemma OnePageIsCertain(run: seq<State>, events: seq<R.Event>, i: nat)
    requires IsRun(run, events) && i < |events| && forall j | 0 <= j < |run| :: OnePage(run[j].zone)
    ensures Certain(run[i], events[i])
  {
    var e := events[i];
    if e.Return? && e.id in run[i].calls.active && Doubtful(L.Work(run[i].calls.active[e.id])) {
      var j := UnsureSinceFirstRequest(run, events, i, e.id);
      RunKeepsInv(run, events, j);
      var req := run[i].calls.active[e.id].req;
      OnePageHoldsAll(run[j].zone, req.key, req.value);
      assert false;
    }
  }

  // --- How many records ---------------------------------------------------------------------

  ghost function AtLeastOne(n: nat): nat {
    if n == 0 then 1 else n
  }

  ghost predicate CreatesFor(s: State, s': State, id: TaskId, key: string, v: string) {
    && (exists r, at :: CreateStep(s, s', id, r, at))
    && s.calls.active[id].req.key == key && s.calls.active[id].req.value == v
  }

  /** The server processes a creation a second time. */
  ghost predicate Replays(s: State, s': State, key: string, v: string) {
    exists id :: CreatesFor(s, s', id, key, v) && L.Work(s.calls.active[id]) == Some(Done)
  }

  /** A call creates a record although its listing was not sure to be complete. */
  ghost predicate CreatesBlindly(s: State, s': State, key: string, v: string) {
    exists id :: CreatesFor(s, s', id, key, v) && L.Work(s.calls.active[id]) == Some(Creating(false))
  }

  ghost function Repeats(run: seq<State>, i: nat, key: string, v: string): nat
    requires i < |run|
  {
    if i == 0 then 0
    else Repeats(run, i - 1, key, v) +
         if Replays(run[i - 1], run[i], key, v) || CreatesBlindly(run[i - 1], run[i], key, v) then 1 else 0
  }

  lemma CreatedElsewhere(z: Zone, r: RecordId, key: string, v: string, at: nat, otherKey: string, other: string)
    requires r !in z.records && ValidAcmeValue(v) && (otherKey != key || other != v) && at <= |z.order|
    ensures Matching(Created(z, r, key, v, at), otherKey, other) == Matching(z, otherKey, other)
  {
    ValidValueReadsBack(v);
  }

  lemma CreateAddsAtMostOne(s: State, s': State, id: TaskId, r: RecordId, at: nat, key: string, v: string)
    requires Inv(s) && CreateStep(s, s', id, r, at)
    ensures |Matching(s'.zone, key, v)| <= |Matching(s.zone, key, v)| + 1
    ensures |Matching(s'.zone, key, v)| <= AtLeastOne(|Matching(s.zone, key, v)|) || Replays(s, s', key, v) ||
        CreatesBlindly(s, s', key, v)
  {
    var req := s.calls.active[id].req;
    assert L.TicketOk(s.calls, id) && CallOk(s, id);
    if req.key == key && req.value == v {
      CreatedValues(s.zone, r, key, v, at);
      assert CreatesFor(s, s', id, key, v);
      if L.Work(s.calls.active[id]) == Some(Creating(true)) {
        assert Matching(s'.zone, key, v) == {r};
      }
    } else {
      CreatedElsewhere(s.zone, r, req.key, req.value, at, key, v);
    }
  }

  lemma DeletedAddsNone(z: Zone, r: RecordId, key: string, v: string)
    ensures |Matching(Deleted(z, r), key, v)| <= |Matching(z, key, v)|
  {
    DeletedMatching(z, r, key, v);
  }

  lemma StepAddsAtMostOne(s: State, e: R.Event, s': State, key: string, v: string)
    requires Inv(s) && Step(s, e, s')
    ensures |Matching(s'.zone, key, v)| <= AtLeastOne(|Matching(s.zone, key, v)|) ||
            (|Matching(s'.zone, key, v)| == |Matching(s.zone, key, v)| + 1
             && (Replays(s, s', key, v) || CreatesBlindly(s, s', key, v)))
  {
    if s'.zone != s.zone {
      if id, r, at :| CreateStep(s, s', id, r, at) {
        CreateAddsAtMostOne(s, s', id, r, at, key, v);
      } else {
        var id, p, answered :| DeleteStep(s, s', id, p, answered);
        DeletedAddsNone(s.zone, p.todo[0], key, v);
      }
    }
  }

  /** Over any run of either provider, a value never has more records than at
      first, or than one, plus one for every replay and every blind creation. */
  lemma {:induction false} RecordsAreBounded(run: seq<State>, events: seq<R.Event>, i: nat, key: string, v: string)
    requires IsRun(run, events) && i < |run|
    ensures |Matching(run[i].zone, key, v)| <= AtLeastOne(|Matching(run[0].zone, key, v)|) + Repeats(run, i, key, v)
  {
    if i > 0 {
      RecordsAreBounded(run, events, i - 1, key, v);
      RunKeepsInv(run, events, i - 1);
      assert Step(run[i - 1], events[i - 1], run[i]);
      StepAddsAtMostOne(run[i - 1], events[i - 1], run[i], key, v);
    }
  }

  lemma BlindMeansBehind(run: seq<State>, events: seq<R.Event>, i: nat, key: string, v: string)
    requires IsRun(run, events) && 0 < i < |run| && CreatesBlindly(run[i - 1], run[i], key, v)
    ensures exists j: nat :: j < i && !OnFirstPage(run[j].zone, key, v)
  {
    var id :| CreatesFor(run[i - 1], run[i], id, key, v) &&
        L.Work(run[i - 1].calls.active[id]) == Some(Creating(false));
    var j := UnsureSinceFirstRequest(run, events, i - 1, id);
    assert j < i && !OnFirstPage(run[j].zone, key, v);
  }

  lemma {:induction false} NothingRepeats(run: seq<State>, events: seq<R.Event>, i: nat, key: string, v: string)
    requires IsRun(run, events) && i < |run|
    requires forall j: nat | j < i :: OnFirstPage(run[j].zone, key, v) && !Replays(run[j], run[j + 1], key, v)
    ensures Repeats(run, i, key, v) == 0
  {
    if i > 0 {
      NothingRepeats(run, events, i - 1, key, v);
      assert !Replays(run[i - 1], run[i - 1 + 1], key, v);
      if CreatesBlindly(run[i - 1], run[i], key, v) {
        BlindMeansBehind(run, events, i, key, v);
        assert false;
      }
    }
  }

  /** However many presents of a value run at once: while its records are on the
      first page and nothing is replayed, there is at most one more than none. */
  lemma ConcurrentPresentsAddOneRecord(run: seq<State>, events: seq<R.Event>, i: nat, key: string, v: string)
    requires IsRun(run, events) && i < |run|
    requires forall j: nat | j < i :: OnFirstPage(run[j].zone, key, v) && !Replays(run[j], run[j + 1], key, v)
    ensures |Matching(run[i].zone, key, v)| <= AtLeastOne(|Matching(run[0].zone, key, v)|)
  {
    RecordsAreBounded(run, events, i, key, v);
    NothingRepeats(run, events, i, key, v);
  }

  /** Infomaniak's creation is a POST, which is never replayed. */
  lemma {:induction false} InfomaniakNeverReplays(run: seq<State>, events: seq<R.Event>, i: nat, key: string, v: string)
    requires IsRun(run, events) && i < |events| && run[0].zone.kind.Infomaniak?
    ensures run[i].zone.kind.Infomaniak? && !Replays(run[i], run[i + 1], key, v)
  {
    if i > 0 {
      InfomaniakNeverReplays(run, events, i - 1, key, v);
      assert Step(run[i - 1], events[i - 1], run[i]);
    }
  }

  /** Every replay of Bunny's PUT leaves one more record of the value. */
  lemma ReplayedPutDuplicates(run: seq<State>, events: seq<R.Event>, i: nat, id: TaskId, r: RecordId, at: nat)
    requires IsRun(run, events) && i < |events| && CreateStep(run[i], run[i + 1], id, r, at)
    requires L.Work(run[i].calls.active[id]) == Some(Done)
    ensures var req := run[i].calls.active[id].req;
            |Matching(run[i + 1].zone, req.key, req.value)| == |Matching(run[i].zone, req.key, req.value)| + 1 >= 2
  {
    RunKeepsInv(run, events, i);
    var s, req := run[i], run[i].calls.active[id].req;
    assert L.TicketOk(s.calls, id) && CallOk(s, id);
    CreatedValues(s.zone, r, req.key, req.value, at);
    assert r !in Matching(s.zone, req.key, req.value);
  }
}

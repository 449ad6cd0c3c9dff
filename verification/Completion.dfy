/** A call that is left alone succeeds: in each design, whatever happened before,
    the steps of the model lead a call whose key nobody holds to an Ok with
    exactly the effect that the contract asks for. The moves may be any relation
    that covers the internal steps, such as these alone. */
module Paths {

  /** `n` moves lead from one state to another. */
  ghost predicate Leads<S(!new)>(moves: (S, S) -> bool, s: S, m: S, n: nat)
    decreases n
  {
    if n == 0 then m == s else exists k :: moves(s, k) && Leads(moves, k, m, n - 1)
  }

  lemma Via<S(!new)>(moves: (S, S) -> bool, s: S, k: S, m: S, n: nat)
    requires moves(s, k) && Leads(moves, k, m, n)
    ensures Leads(moves, s, m, n + 1)
  {
  }

  lemma {:induction false} Then<S(!new)>(moves: (S, S) -> bool, s: S, m: S, e: S, n: nat, k: nat)
    requires Leads(moves, s, m, n) && Leads(moves, m, e, k)
    ensures Leads(moves, s, e, n + k)
  {
    if n > 0 {
      var next :| moves(s, next) && Leads(moves, next, m, n - 1);
      Then(moves, next, m, e, n - 1, k);
    }
  }
}

module CompletionRewriting {
  import opened Prelude
  import opened TxtValues
  import opened WholeSetRewrite
  import opened Paths
  import L = LockedCalls
  import R = AtomicRecords

  type Moves = (State, State) -> bool

  /** Every internal step is among the moves. */
  ghost predicate Covers(moves: Moves) {
    forall s, s' {:trigger Step(s, R.Internal, s')} :: Step(s, R.Internal, s') ==> moves(s, s')
  }

  lemma Moved(moves: Moves, s: State, s': State) returns (n: nat)
    requires Covers(moves) && Step(s, R.Internal, s')
    ensures Leads(moves, s, s', n)
  {
    Via(moves, s, s', s', 0);
    n := 1;
  }

  lemma Waited(moves: Moves, s: State, calls: L.Calls<Progress>) returns (n: nat)
    requires Covers(moves) && L.WaitStep(s.calls, calls)
    ensures Leads(moves, s, s.(calls := calls), n)
  {
    n := Moved(moves, s, s.(calls := calls));
  }

  /** A call whose key nobody holds gets the lock. */
  lemma GetsTheLock(moves: Moves, s: State, id: TaskId) returns (n: nat, m: State)
    requires Covers(moves) && L.Inv(s.calls) && L.Unhindered(s.calls, id)
    ensures Leads(moves, s, m, n) && m == s.(calls := m.calls)
    ensures L.CanWork(m.calls, id) && L.Work(m.calls.active[id]).None?
    ensures m.calls.active[id].req == s.calls.active[id].req
  {
    var queued, holding := L.ReachesTheLock(s.calls, id);
    var j := Waited(moves, s, queued);
    var k := Waited(moves, s.(calls := queued), holding);
    m := s.(calls := holding);
    Then(moves, s, s.(calls := queued), m, j, k);
    n := j + k;
  }

  /** Call `id` can return Ok in `m`, its set is what the contract makes of the
      one in `s`, and nothing else has changed. */
  ghost predicate Succeeds(s: State, m: State, id: TaskId)
    requires id in s.calls.active
  {
    var req := s.calls.active[id].req;
    && Step(m, R.Return(id, true), m.(calls := L.Ended(m.calls, id)))
    && Values(Entries(Lookup(m.server, req.key))) == R.Effect(req, Values(Entries(Lookup(s.server, req.key))))
    && m.server - {req.key} == s.server - {req.key}
  }

  lemma Fetches(moves: Moves, s: State, id: TaskId, cfg: Config) returns (n: nat, m: State)
    requires Covers(moves) && L.CanWork(s.calls, id) && L.Work(s.calls.active[id]).None?
    ensures var req := s.calls.active[id].req;
            var seen := Lookup(s.server, req.key);
            m == Advanced(s, id, if Plan(cfg, req, seen).NoWrite? then Unneeded else Fetched(cfg, seen))
    ensures Leads(moves, s, m, n)
  {
    var req := s.calls.active[id].req;
    var seen := Lookup(s.server, req.key);
    m := Advanced(s, id, if Plan(cfg, req, seen).NoWrite? then Unneeded else Fetched(cfg, seen));
    assert FetchStep(s, m, id, cfg);
    n := Moved(moves, s, m);
  }

  lemma Writes(moves: Moves, s: State, id: TaskId, p: Progress) returns (n: nat, m: State)
    requires Covers(moves) && id in s.calls.active && L.Work(s.calls.active[id]) == Some(p) && p.Fetched?
    requires Accepts(Plan(p.cfg, s.calls.active[id].req, p.seen), Lookup(s.server, s.calls.active[id].req.key))
    ensures m == Wrote(s, id, p) && Leads(moves, s, m, n)
  {
    m := Wrote(s, id, p);
    assert WriteStep(s, m, id, p);
    n := Moved(moves, s, m);
  }

  lemma UnneededSucceeds(s: State, id: TaskId, cfg: Config)
    requires id in s.calls.active
    requires Plan(cfg, s.calls.active[id].req, Lookup(s.server, s.calls.active[id].req.key)).NoWrite?
    ensures Succeeds(s, Advanced(s, id, Unneeded), id)
  {
    PlanHasTheAtomicEffect(cfg, s.calls.active[id].req, Lookup(s.server, s.calls.active[id].req.key));
  }

  lemma WrittenSucceeds(s: State, id: TaskId, cfg: Config)
    requires id in s.calls.active
    ensures var p := Fetched(cfg, Lookup(s.server, s.calls.active[id].req.key));
            Succeeds(s, Wrote(Advanced(s, id, p), id, p), id)
    ensures Accepts(Plan(cfg, s.calls.active[id].req, Lookup(s.server, s.calls.active[id].req.key)),
                    Lookup(s.server, s.calls.active[id].req.key))
  {
    var req := s.calls.active[id].req;
    var seen := Lookup(s.server, req.key);
    PlanHasTheAtomicEffect(cfg, req, seen);
    PutChangesOneKey(s.server, req.key, Stored(Plan(cfg, req, seen), seen));
  }

  lemma WorkSucceeds(moves: Moves, s: State, id: TaskId, cfg: Config) returns (n: nat, m: State)
    requires Covers(moves) && L.CanWork(s.calls, id) && L.Work(s.calls.active[id]).None?
    ensures Leads(moves, s, m, n) && Succeeds(s, m, id)
  {
    var seen := Lookup(s.server, s.calls.active[id].req.key);
    n, m := Fetches(moves, s, id, cfg);
    if Plan(cfg, s.calls.active[id].req, seen).NoWrite? {
      UnneededSucceeds(s, id, cfg);
    } else {
      WrittenSucceeds(s, id, cfg);
      var k, written := Writes(moves, m, id, Fetched(cfg, seen));
      Then(moves, s, m, written, n, k);
      n, m := n + k, written;
    }
  }

  /** From any state of a run, a call that has resolved its zone and whose key
      nobody holds gets to return Ok with its effect in place. */
  lemma LeftAloneSucceeds(moves: Moves, s: State, id: TaskId, cfg: Config) returns (n: nat, m: State)
    requires Covers(moves) && Inv(s) && L.Unhindered(s.calls, id)
    ensures Leads(moves, s, m, n) && Succeeds(s, m, id)
  {
    var j, holding := GetsTheLock(moves, s, id);
    var k;
    k, m := WorkSucceeds(moves, holding, id, cfg);
    Then(moves, s, holding, m, j, k);
    n := j + k;
  }
}

module CompletionSwapping {
  import opened Prelude
  import opened TxtValues
  import opened CompareAndSwap
  import opened Paths
  import L = LockedCalls
  import R = AtomicRecords

  type Moves = (State, State) -> bool

  /** Every internal step is among the moves. */
  ghost predicate Covers(moves: Moves) {
    forall s, s' {:trigger Step(s, R.Internal, s')} :: Step(s, R.Internal, s') ==> moves(s, s')
  }

  lemma Moved(moves: Moves, s: State, s': State) returns (n: nat)
    requires Covers(moves) && Step(s, R.Internal, s')
    ensures Leads(moves, s, s', n)
  {
    Via(moves, s, s', s', 0);
    n := 1;
  }

  lemma Waited(moves: Moves, s: State, calls: L.Calls<Progress>) returns (n: nat)
    requires Covers(moves) && L.WaitStep(s.calls, calls)
    ensures Leads(moves, s, s.(calls := calls), n)
  {
    n := Moved(moves, s, s.(calls := calls));
  }

  /** A call whose key nobody holds gets the lock. */
  lemma GetsTheLock(moves: Moves, s: State, id: TaskId) returns (n: nat, m: State)
    requires Covers(moves) && L.Inv(s.calls) && L.Unhindered(s.calls, id)
    ensures Leads(moves, s, m, n) && m == s.(calls := m.calls)
    ensures L.CanWork(m.calls, id) && L.Work(m.calls.active[id]).None?
    ensures m.calls.active[id].req == s.calls.active[id].req
  {
    var queued, holding := L.ReachesTheLock(s.calls, id);
    var j := Waited(moves, s, queued);
    var k := Waited(moves, s.(calls := queued), holding);
    m := s.(calls := holding);
    Then(moves, s, s.(calls := queued), m, j, k);
    n := j + k;
  }

  ghost predicate Succeeds(s: State, m: State, id: TaskId)
    requires id in s.calls.active
  {
    var req := s.calls.active[id].req;
    && Step(m, R.Return(id, true), m.(calls := L.Ended(m.calls, id)))
    && Values(Entries(Lookup(m.server, req.key))) == R.Effect(req, Values(Entries(Lookup(s.server, req.key))))
    && m.server - {req.key} == s.server - {req.key}
  }

  lemma Fetches(moves: Moves, s: State, id: TaskId, ttl: nat) returns (n: nat, m: State)
    requires Covers(moves) && L.CanWork(s.calls, id) && L.Work(s.calls.active[id]).None?
    ensures var req := s.calls.active[id].req;
            var seen := Lookup(s.server, req.key);
            m == Advanced(s, id, if Plan(ttl, req, seen).NoChange? then Unneeded else Fetched(ttl, seen))
    ensures Leads(moves, s, m, n)
  {
    var req := s.calls.active[id].req;
    var seen := Lookup(s.server, req.key);
    m := Advanced(s, id, if Plan(ttl, req, seen).NoChange? then Unneeded else Fetched(ttl, seen));
    assert FetchStep(s, m, id, ttl);
    n := Moved(moves, s, m);
  }

  lemma Commits(moves: Moves, s: State, id: TaskId, ttl: nat, seen: Option<RRset>) returns (n: nat, m: State)
    requires Covers(moves) && id in s.calls.active && L.Work(s.calls.active[id]) == Some(Fetched(ttl, seen))
    requires Matches(Plan(ttl, s.calls.active[id].req, seen), Lookup(s.server, s.calls.active[id].req.key))
    ensures var req := s.calls.active[id].req;
            m == Advanced(s, id, Committed).(server := Put(s.server, req.key, Plan(ttl, req, seen).addition))
    ensures Leads(moves, s, m, n)
  {
    var req := s.calls.active[id].req;
    m := Advanced(s, id, Committed).(server := Put(s.server, req.key, Plan(ttl, req, seen).addition));
    assert ChangeStep(s, m, id, ttl, seen);
    n := Moved(moves, s, m);
  }

  lemma UnneededSucceeds(s: State, id: TaskId, ttl: nat)
    requires id in s.calls.active
    requires Plan(ttl, s.calls.active[id].req, Lookup(s.server, s.calls.active[id].req.key)).NoChange?
    ensures Succeeds(s, Advanced(s, id, Unneeded), id)
  {
    PlanHasTheAtomicEffect(ttl, s.calls.active[id].req, Lookup(s.server, s.calls.active[id].req.key));
  }

  lemma CommittedSucceeds(s: State, id: TaskId, p: Progress, change: Change)
    requires id in s.calls.active && p.Fetched? && change.Change?
    requires Plan(p.ttl, s.calls.active[id].req, Lookup(s.server, s.calls.active[id].req.key)) == change
    ensures Succeeds(s, Advanced(Advanced(s, id, p), id, Committed).(
                       server := Put(s.server, s.calls.active[id].req.key, change.addition)), id)
    ensures Matches(change, Lookup(s.server, s.calls.active[id].req.key))
  {
    var req := s.calls.active[id].req;
    PlanHasTheAtomicEffect(p.ttl, req, Lookup(s.server, req.key));
    PutChangesOneKey(s.server, req.key, change.addition);
  }

  lemma WorkSucceeds(moves: Moves, s: State, id: TaskId, ttl: nat) returns (n: nat, m: State)
    requires Covers(moves) && L.CanWork(s.calls, id) && L.Work(s.calls.active[id]).None?
    ensures Leads(moves, s, m, n) && Succeeds(s, m, id)
  {
    var seen := Lookup(s.server, s.calls.active[id].req.key);
    var change := Plan(ttl, s.calls.active[id].req, seen);
    n, m := Fetches(moves, s, id, ttl);
    if change.NoChange? {
      UnneededSucceeds(s, id, ttl);
    } else {
      CommittedSucceeds(s, id, Fetched(ttl, seen), change);
      var k, committed := Commits(moves, m, id, ttl, seen);
      Then(moves, s, m, committed, n, k);
      n, m := n + k, committed;
    }
  }

  /** The same for a set that nobody else writes meanwhile. */
  lemma LeftAloneSucceeds(moves: Moves, s: State, id: TaskId, ttl: nat) returns (n: nat, m: State)
    requires Covers(moves) && Inv(s) && L.Unhindered(s.calls, id)
    ensures Leads(moves, s, m, n) && Succeeds(s, m, id)
  {
    var j, holding := GetsTheLock(moves, s, id);
    var k;
    k, m := WorkSucceeds(moves, holding, id, ttl);
    Then(moves, s, holding, m, j, k);
    n := j + k;
  }
}

module CompletionListing {
  import opened Prelude
  import opened TxtValues
  import opened RecordPerValue
  import opened StableListing
  import opened Paths
  import L = LockedCalls
  import R = AtomicRecords

  type Moves = (State, State) -> bool

  /** Every internal step is among the moves. */
  ghost predicate Covers(moves: Moves) {
    forall s, s' {:trigger Step(s, R.Internal, s')} :: Step(s, R.Internal, s') ==> moves(s, s')
  }

  lemma Moved(moves: Moves, s: State, s': State) returns (n: nat)
    requires Covers(moves) && Step(s, R.Internal, s')
    ensures Leads(moves, s, s', n)
  {
    Via(moves, s, s', s', 0);
    n := 1;
  }

  lemma Waited(moves: Moves, s: State, calls: L.Calls<Progress>) returns (n: nat)
    requires Covers(moves) && L.WaitStep(s.calls, calls)
    ensures Leads(moves, s, s.(calls := calls), n)
  {
    n := Moved(moves, s, s.(calls := calls));
  }

  /** A call whose key nobody holds gets the lock. */
  lemma GetsTheLock(moves: Moves, s: State, id: TaskId) returns (n: nat, m: State)
    requires Covers(moves) && L.Inv(s.calls) && L.Unhindered(s.calls, id)
    ensures Leads(moves, s, m, n) && m == s.(calls := m.calls)
    ensures L.CanWork(m.calls, id) && L.Work(m.calls.active[id]).None?
    ensures m.calls.active[id].req == s.calls.active[id].req
  {
    var queued, holding := L.ReachesTheLock(s.calls, id);
    var j := Waited(moves, s, queued);
    var k := Waited(moves, s.(calls := queued), holding);
    m := s.(calls := holding);
    Then(moves, s, s.(calls := queued), m, j, k);
    n := j + k;
  }

  /** Only records of one value of one name differ. */
  ghost predicate OnlyFor(z: Zone, w: Zone, key: string, v: string) {
    forall k, x | k != key || x != v :: Matching(w, k, x) == Matching(z, k, x)
  }

  /** Call `id` can return Ok in `m`: a present has left the records of its
      value as they were, or created one if there were none; a cleanup has left
      none; and nothing else has changed. */
  ghost predicate Succeeds(s: State, m: State, id: TaskId)
    requires id in s.calls.active
  {
    var req := s.calls.active[id].req;
    var before, after := Matching(s.zone, req.key, req.value), Matching(m.zone, req.key, req.value);
    && Step(m, R.Return(id, true), m.(calls := L.Ended(m.calls, id)))
    && (req.op.Remove? ==> after == {})
    && (req.op.Add? ==> if before != {} then after == before else |after| == 1)
    && OnlyFor(s.zone, m.zone, req.key, req.value)
  }

  /** Where a call stands that lists a zone nobody changes. */
  ghost predicate Reads(s: State, id: TaskId) {
    && L.CanWork(s.calls, id) && CanRead(L.Work(s.calls.active[id])) && ZoneOk(s.zone)
    && Knows(s.zone, s.calls.active[id].req, L.Work(s.calls.active[id])) && Tracks(s, id, s.zone)
    && PagesOf(s.zone) <= 100
    && (L.Work(s.calls.active[id]).Some? ==> L.Work(s.calls.active[id]).value.read < PagesOf(s.zone))
  }

  lemma ReadsOn(s: State, id: TaskId) returns (p: Progress)
    requires Reads(s, id)
    ensures PageStep(s, Advanced(s, id, p), id)
    ensures p.Listing? ==> Reads(Advanced(s, id, p), id) && p.read == Requested(s.calls.active[id])
    ensures !p.Listing? ==> Listed(Advanced(s, id, p), id)
  {
    var c := s.calls.active[id];
    AfterPageKnows(s.zone, c.req, L.Work(c));
    p := AfterPage(s.zone, c.req, L.Work(c));
    var q := PageStepCollects(s, Advanced(s, id, p), id);
    assert q == p by {
      assert Advanced(s, id, q).calls.active[id].phase.progress == Advanced(s, id, p).calls.active[id].phase.progress;
    }
    PageTracks(s, id, p, s.zone);
  }

  /** The listing is over, and nothing was missed. */
  ghost predicate Listed(s: State, id: TaskId) {
    && L.CanWork(s.calls, id) && L.Work(s.calls.active[id]).Some? && Tracks(s, id, s.zone)
    && Knows(s.zone, s.calls.active[id].req, L.Work(s.calls.active[id])) && ZoneOk(s.zone)
    && var req, p := s.calls.active[id].req, L.Work(s.calls.active[id]).value;
       if req.op.Remove? then p.Deleting?
       else p.Creating? || (p.Unneeded? && Matching(s.zone, req.key, req.value) != {})
  }

  lemma {:induction false} ListsToTheEnd(moves: Moves, s: State, id: TaskId) returns (n: nat, m: State)
    requires Covers(moves) && Reads(s, id)
    ensures Leads(moves, s, m, n) && Listed(m, id)
    ensures m.zone == s.zone && m.calls.active[id].req == s.calls.active[id].req
    decreases 101 - Requested(s.calls.active[id])
  {
    var p := ReadsOn(s, id);
    m := Advanced(s, id, p);
    n := Moved(moves, s, m);
    if p.Listing? {
      var k, listed := ListsToTheEnd(moves, m, id);
      Then(moves, s, m, listed, n, k);
      n, m := n + k, listed;
    }
  }

  /** Call `id` is to delete `p.todo`, which is all there is of its value. */
  ghost predicate Clears(s: State, id: TaskId, p: Progress) {
    && id in s.calls.active && L.Work(s.calls.active[id]) == Some(p) && p.Deleting?
    && Knows(s.zone, s.calls.active[id].req, Some(p)) && Tracks(s, id, s.zone)
  }

  lemma DeletesOne(moves: Moves, s: State, id: TaskId, p: Progress) returns (n: nat, m: State)
    requires Covers(moves) && Clears(s, id, p) && p.todo != []
    ensures Leads(moves, s, m, n) && Clears(m, id, Deleting(p.todo[1..], p.sure))
    ensures m.calls.active[id].req == s.calls.active[id].req
    ensures OnlyFor(s.zone, m.zone, s.calls.active[id].req.key, s.calls.active[id].req.value)
  {
    m := Advanced(s, id, Deleting(p.todo[1..], p.sure)).(zone := Deleted(s.zone, p.todo[0]));
    assert DeleteStep(s, m, id, p, true);
    DeleteKnows(s.zone, s.calls.active[id].req, p, true);
    DeleteTracks(s, m, id, p, true, s.zone);
    DeletedOnlyFor(s.zone, s.calls.active[id].req, p);
    n := Moved(moves, s, m);
  }

  lemma {:induction false} DeletesAll(moves: Moves, s: State, id: TaskId, p: Progress) returns (n: nat, m: State)
    requires Covers(moves) && Clears(s, id, p)
    ensures Leads(moves, s, m, n) && Clears(m, id, Deleting([], p.sure))
    ensures m.calls.active[id].req == s.calls.active[id].req
    ensures OnlyFor(s.zone, m.zone, s.calls.active[id].req.key, s.calls.active[id].req.value)
    decreases |p.todo|
  {
    n, m := 0, s;
    if p.todo != [] {
      var next;
      n, next := DeletesOne(moves, s, id, p);
      var k;
      k, m := DeletesAll(moves, next, id, Deleting(p.todo[1..], p.sure));
      Then(moves, s, next, m, n, k);
      n := n + k;
    }
  }

  lemma DeletedOnlyFor(z: Zone, req: R.Request, p: Progress)
    requires p.Deleting? && p.todo != [] && Knows(z, req, Some(p))
    ensures OnlyFor(z, Deleted(z, p.todo[0]), req.key, req.value)
  {
    assert p.todo[0] in p.todo;
    forall k, x | k != req.key || x != req.value
      ensures Matching(Deleted(z, p.todo[0]), k, x) == Matching(z, k, x)
    {
      DeletedMatching(z, p.todo[0], k, x);
    }
  }

  lemma CreatesOne(moves: Moves, s: State, id: TaskId) returns (n: nat, m: State)
    requires Covers(moves) && Listed(s, id) && IsCreating(L.Work(s.calls.active[id]))
    requires ValidAcmeValue(s.calls.active[id].req.value)
    ensures Leads(moves, s, m, n) && Succeeds(s, m, id)
  {
    var req := s.calls.active[id].req;
    var r := L.UnusedNumber(s.zone.used);
    m := Advanced(s, id, Done).(zone := Created(s.zone, r, req.key, req.value, 0));
    assert CreateStep(s, m, id, r, 0);
    n := Moved(moves, s, m);
    CreatedOnlyFor(s.zone, r, req.key, req.value);
    assert Matching(m.zone, req.key, req.value) == {r};
  }

  lemma CreatedOnlyFor(z: Zone, r: RecordId, key: string, v: string)
    requires r !in z.records && ValidAcmeValue(v)
    ensures OnlyFor(z, Created(z, r, key, v, 0), key, v)
    ensures Matching(Created(z, r, key, v, 0), key, v) == Matching(z, key, v) + {r}
  {
    CreatedValues(z, r, key, v, 0);
    ValidValueReadsBack(v);
  }

  lemma SettlesWhatIsListed(moves: Moves, s: State, id: TaskId) returns (n: nat, m: State)
    requires Covers(moves) && Listed(s, id)
    requires s.calls.active[id].req.op.Add? ==> ValidAcmeValue(s.calls.active[id].req.value)
    ensures Leads(moves, s, m, n) && Succeeds(s, m, id)
  {
    var p := L.Work(s.calls.active[id]).value;
    if p.Deleting? {
      n, m := DeletesAll(moves, s, id, p);
    } else if p.Creating? {
      n, m := CreatesOne(moves, s, id);
    } else {
      n, m := 0, s;
    }
  }

  /** From any state of a run with at most a hundred pages, a call whose key
      nobody holds gets to return Ok: a present with exactly one record more if
      there was none of its value, a cleanup with none left. */
  lemma LeftAloneSucceeds(moves: Moves, s: State, id: TaskId) returns (n: nat, m: State)
    requires Covers(moves) && Inv(s) && L.Unhindered(s.calls, id) && PagesOf(s.zone) <= 100
    ensures Leads(moves, s, m, n) && Succeeds(s, m, id)
  {
    var h, holding := GetsTheLock(moves, s, id);
    var j, listed := ListsToTheEnd(moves, holding, id);
    var k;
    k, m := SettlesWhatIsListed(moves, listed, id);
    Then(moves, holding, listed, m, j, k);
    Then(moves, s, holding, m, h, j + k);
    n := h + (j + k);
  }
}

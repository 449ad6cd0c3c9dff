/** Two runs of the one-record-per-value providers, step by step from an empty
    lock table: what a page too many and a replayed request can do. */
module RecordRuns {
  import opened Prelude
  import opened TxtValues
  import opened RecordPerValue
  import KeyedLock
  import Pages
  import Retry
  import L = LockedCalls
  import R = AtomicRecords

  ghost predicate Reachable(s: State) {
    exists run, events :: IsRun(run, events) && run[|events|] == s
  }

  lemma Begins(s: State)
    requires Init(s)
    ensures Reachable(s)
  {
    assert IsRun([s], []);
  }

  lemma Continues(s: State, e: R.Event, s': State)
    requires Reachable(s) && Step(s, e, s')
    ensures Reachable(s')
  {
    var run, events :| IsRun(run, events) && run[|events|] == s;
    var run', events' := run + [s'], events + [e];
    forall i | 0 <= i < |events'| ensures Step(run'[i], events'[i], run'[i + 1]) {
      if i < |events| {
        assert Step(run[i], events[i], run[i + 1]);
      }
    }
    assert IsRun(run', events') && run'[|events'|] == s';
  }

  lemma ReachableInv(s: State)
    requires Reachable(s)
    ensures Inv(s)
  {
    var run, events :| IsRun(run, events) && run[|events|] == s;
    RunKeepsInv(run, events, |events|);
  }

  lemma {:induction false} SpareNumber(taken: set<nat>) returns (n: nat)
    ensures n !in taken && forall t | t in taken :: t < n
    decreases |taken|
  {
    if taken == {} {
      n := 0;
    } else {
      var t :| t in taken;
      var m := SpareNumber(taken - {t});
      n := if m > t then m else t + 1;
      assert forall x | x in taken :: x == t || x in taken - {t};
    }
  }

  /** No call waits for the key or holds it. */
  ghost predicate Unlocked(s: State, key: string) {
    forall t | t in s.calls.locks.tasks :: s.calls.locks.tasks[t].key != key
  }

  lemma Queues(s: State, id: TaskId, req: R.Request) returns (q: State, m: nat)
    requires Reachable(s) && id !in s.calls.active && id !in s.calls.locks.tasks
    requires req.op.Add? ==> ValidAcmeValue(req.value)
    ensures Reachable(q) && q.zone == s.zone && q.calls.active == s.calls.active[id := L.Call(req, L.Queued)]
    ensures q.calls.locks.tasks == s.calls.locks.tasks[id := KeyedLock.Ticket(req.key, m, false)]
  {
    var begun := s.(calls := L.Began(s.calls, id, req));
    assert Step(s, R.Begin(id, req), begun);
    Continues(s, R.Begin(id, req), begun);
    var spare := SpareNumber(KeyedLock.Pruned(begun.calls.locks.arcs).refs.Keys);
    m := KeyedLock.EntryFor(KeyedLock.Pruned(begun.calls.locks.arcs), req.key, spare);
    q := begun.(calls := L.Calls(KeyedLock.Entered(begun.calls.locks, id, req.key, spare),
                                 begun.calls.active[id := L.Call(req, L.Queued)]));
    assert L.LockStep(begun.calls, q.calls, id, spare);
    Continues(begun, R.Internal, q);
  }

  lemma Acquires(s: State, id: TaskId) returns (w: State)
    requires Reachable(s) && id in s.calls.active && id in s.calls.locks.tasks && !s.calls.locks.tasks[id].held
    requires forall t | t in s.calls.locks.tasks && t != id :: s.calls.locks.tasks[t].key != s.calls.locks.tasks[id].key
    ensures Reachable(w) && w.zone == s.zone && w.calls.active == s.calls.active
    ensures w.calls.locks.tasks == s.calls.locks.tasks[id := s.calls.locks.tasks[id].(held := true)]
  {
    ReachableInv(s);
    KeyedLock.FreeIffNoHolder(s.calls.locks, id);
    w := s.(calls := s.calls.(locks := KeyedLock.Acquired(s.calls.locks, id)));
    assert L.AcquireStep(s.calls, w.calls, id);
    Continues(s, R.Internal, w);
  }

  /** A call for a free name gets to work, and takes nobody's lock. */
  lemma GetsToWork(s: State, id: TaskId, req: R.Request) returns (w: State)
    requires Reachable(s) && id !in s.calls.active && Unlocked(s, req.key)
    requires req.op.Add? ==> ValidAcmeValue(req.value)
    ensures Reachable(w) && w.zone == s.zone && L.CanWork(w.calls, id)
    ensures w.calls.active == s.calls.active[id := L.Call(req, L.Queued)]
    ensures forall t | t != id && L.CanWork(s.calls, t) :: L.CanWork(w.calls, t)
  {
    ReachableInv(s);
    assert id !in s.calls.locks.tasks;
    var q, m := Queues(s, id, req);
    w := Acquires(q, id);
  }

  type Active = map<TaskId, L.Call<Progress>>

  /** A reachable state, by its zone and its calls, which are all at work. */
  ghost predicate At(s: State, z: Zone, active: Active) {
    Reachable(s) && s.zone == z && s.calls.active == active && forall t | t in active :: L.CanWork(s.calls, t)
  }

  lemma Starts(s: State, z: Zone, active: Active, id: TaskId, req: R.Request) returns (w: State)
    requires At(s, z, active) && id !in active && (req.op.Add? ==> ValidAcmeValue(req.value))
    requires forall t | t in active :: active[t].req.key != req.key
    ensures At(w, z, active[id := L.Call(req, L.Queued)])
  {
    ReachableInv(s);
    forall t | t in s.calls.locks.tasks ensures s.calls.locks.tasks[t].key != req.key {
      assert L.TicketOk(s.calls, t);
    }
    w := GetsToWork(s, id, req);
  }

  /** The calls after `id` has got to `p`. */
  function Now(active: Active, id: TaskId, p: Progress): Active
    requires id in active
  {
    active[id := L.Call(active[id].req, L.Working(p))]
  }

  lemma Reads(s: State, z: Zone, active: Active, id: TaskId) returns (s': State)
    requires At(s, z, active) && id in active && CanRead(L.Work(active[id]))
    ensures At(s', z, Now(active, id, AfterPage(z, active[id].req, L.Work(active[id]))))
  {
    s' := Advanced(s, id, AfterPage(z, active[id].req, L.Work(active[id])));
    assert PageStep(s, s', id);
    Continues(s, R.Internal, s');
  }

  lemma Deletes(s: State, z: Zone, active: Active, id: TaskId, p: Progress) returns (s': State)
    requires At(s, z, active) && id in active && L.Work(active[id]) == Some(p) && p.Deleting? && p.todo != []
    ensures At(s', Deleted(z, p.todo[0]), Now(active, id, Deleting(p.todo[1..], p.sure)))
  {
    s' := Advanced(s, id, Deleting(p.todo[1..], p.sure)).(zone := Deleted(z, p.todo[0]));
    assert DeleteStep(s, s', id, p, true);
    Continues(s, R.Internal, s');
  }

  lemma Creates(s: State, z: Zone, active: Active, id: TaskId, r: RecordId) returns (s': State)
    requires At(s, z, active) && id in active && r !in z.used
    requires IsCreating(L.Work(active[id])) || (z.kind.Bunny? && L.Work(active[id]) == Some(Done))
    ensures At(s', Created(z, r, active[id].req.key, active[id].req.value, 0), Now(active, id, Done))
  {
    s' := Advanced(s, id, Done).(zone := Created(z, r, active[id].req.key, active[id].req.value, 0));
    assert CreateStep(s, s', id, r, 0);
    Continues(s, R.Internal, s');
  }

  lemma Nobody(z: Zone) returns (s: State)
    requires ZoneOk(z)
    ensures At(s, z, map[])
  {
    s := State(L.Calls(KeyedLock.Locks(KeyedLock.Arcs(map[], map[]), {}, map[]), map[]), z);
    Begins(s);
  }

  /** A first call, up to its first page. */
  lemma Opens(z: Zone, req: R.Request) returns (s: State)
    requires ZoneOk(z) && (req.op.Add? ==> ValidAcmeValue(req.value))
    ensures At(s, z, map[0 := L.Call(req, L.Working(AfterPage(z, req, None)))])
  {
    var a := Nobody(z);
    var b := Starts(a, z, map[], 0, req);
    var active: Active := map[0 := L.Call(req, L.Queued)];
    assert map[][0 := L.Call(req, L.Queued)] == active;
    s := Reads(b, z, active, 0);
    assert Now(active, 0, AfterPage(z, req, None)) == map[0 := L.Call(req, L.Working(AfterPage(z, req, None)))];
  }

  lemma Returns(s: State, z: Zone, active: Active, id: TaskId) returns (s': State)
    requires At(s, z, active) && id in active && CanSucceed(L.Work(active[id]))
    ensures Step(s, R.Return(id, true), s') && s'.zone == z
  {
    s' := s.(calls := L.Ended(s.calls, id));
  }

  // --- Two names, two pages ---------------------------------------------------------------

  const OURS := R.Request(R.Remove, "a", "v")
  const THEIRS := R.Request(R.Remove, "b", "v")

  /** One record on each of two pages, ours on the second. */
  function TwoPages(): Zone {
    Zone(Infomaniak, 1, [1, 2], map[1 := Record("b", "v"), 2 := Record("a", "v")], {1, 2})
  }

  /** What is left when the first is deleted. */
  function OneLeft(): Zone {
    Zone(Infomaniak, 1, [2], map[2 := Record("a", "v")], {1, 2})
  }

  lemma TwoPagesFacts()
    ensures ZoneOk(TwoPages())
    ensures Matching(TwoPages(), "a", "v") == {2} && Matching(TwoPages(), "b", "v") == {1}
    ensures PageOf(TwoPages(), 1) == [1] && PageOf(TwoPages(), 2) == [2] && PagesOf(TwoPages()) == 2
  {
    ValidValueReadsBack("v");
    assert Pages.Offset(1, 1) == 1 && Pages.Offset(1, 2) == 2;
  }

  lemma OneLeftFacts()
    ensures Deleted(TwoPages(), 1) == OneLeft() && Matching(OneLeft(), "a", "v") == {2}
    ensures PageOf(OneLeft(), 2) == [] && PagesOf(OneLeft()) == 1
  {
    ValidValueReadsBack("v");
    assert Pages.Offset(1, 1) == 1 && Pages.Offset(1, 2) == 2;
    assert [1, 2][1..] == [2] && [2][1..] == [];
    assert Without([2], 1) == [2];
    assert Without([1, 2], 1) == [2];
    assert TwoPages().records - {1} == map[2 := Record("a", "v")];
  }

  lemma OneHit(z: Zone, r: RecordId, key: string, v: string)
    ensures Hits(z, [r], key, v) == if r in Matching(z, key, v) then [r] else []
  {
    assert [r][1..] == [];
  }

  lemma OursFirst()
    ensures AfterPage(TwoPages(), OURS, None) == Listing(1, [], false)
  {
    TwoPagesFacts();
    OneHit(TwoPages(), 1, "a", "v");
    assert 2 in Matching(TwoPages(), "a", "v") && 2 !in PageOf(TwoPages(), 1);
  }

  lemma TheirsFirst()
    ensures AfterPage(TwoPages(), THEIRS, None) == Listing(1, [1], true)
  {
    TwoPagesFacts();
    OneHit(TwoPages(), 1, "b", "v");
  }

  lemma TheirsSecond()
    ensures AfterPage(TwoPages(), THEIRS, Some(Listing(1, [1], true))) == Deleting([1], true)
  {
    TwoPagesFacts();
    OneHit(TwoPages(), 2, "b", "v");
    assert [1] + [] == [1];
  }

  lemma OursSecond()
    ensures AfterPage(OneLeft(), OURS, Some(Listing(1, [], false))) == Deleting([], false)
  {
    OneLeftFacts();
  }

  function Ours(phase: L.Phase<Progress>): Active {
    map[0 := L.Call(OURS, phase)]
  }

  /** Ours between its pages, and theirs. */
  function Both(theirs: L.Phase<Progress>): Active {
    Ours(L.Working(Listing(1, [], false)))[1 := L.Call(THEIRS, theirs)]
  }

  lemma TheirsMoves(phase: L.Phase<Progress>, p: Progress)
    ensures Now(Both(phase), 1, p) == Both(L.Working(p)) && L.Work(Both(phase)[1]) == L.Work(L.Call(THEIRS, phase))
  {
  }

  /** Theirs goes all the way while ours is between its pages. */
  lemma TheirsDeletes(s: State) returns (s': State)
    requires At(s, TwoPages(), Ours(L.Working(Listing(1, [], false))))
    ensures At(s', OneLeft(), Both(L.Working(Deleting([], true))))
  {
    var a := Starts(s, TwoPages(), Ours(L.Working(Listing(1, [], false))), 1, THEIRS);
    var b := TheirsReads(a);
    TheirsMoves(L.Working(Deleting([1], true)), Deleting([], true));
    assert [1][1..] == [];
    OneLeftFacts();
    s' := Deletes(b, TwoPages(), Both(L.Working(Deleting([1], true))), 1, Deleting([1], true));
  }

  lemma TheirsReads(s: State) returns (s': State)
    requires At(s, TwoPages(), Both(L.Queued))
    ensures At(s', TwoPages(), Both(L.Working(Deleting([1], true))))
  {
    TheirsFirst();
    TheirsSecond();
    TheirsMoves(L.Queued, Listing(1, [1], true));
    var a := Reads(s, TwoPages(), Both(L.Queued), 1);
    TheirsMoves(L.Working(Listing(1, [1], true)), Deleting([1], true));
    s' := Reads(a, TwoPages(), Both(L.Working(Listing(1, [1], true))), 1);
  }

  lemma OursReads() returns (s: State)
    ensures At(s, TwoPages(), Ours(L.Working(Listing(1, [], false))))
  {
    TwoPagesFacts();
    OursFirst();
    s := Opens(TwoPages(), OURS);
  }

  lemma OursMoves(theirs: L.Phase<Progress>, p: Progress)
    ensures Now(Both(theirs), 0, p) == Both(theirs)[0 := L.Call(OURS, L.Working(p))]
    ensures L.Work(Both(theirs)[0]) == Some(Listing(1, [], false))
  {
  }

  /** Two cleanups of one process, for two names and with no other writer. While
      ours is between its pages, theirs deletes a record on the first: ours
      returns Ok, and its record is still there. */
  lemma OtherNameHidesOurRecord() returns (s: State, s': State)
    ensures Reachable(s) && 0 in s.calls.active && s.calls.active[0].req == OURS
    ensures Step(s, R.Return(0, true), s') && Matching(s'.zone, OURS.key, OURS.value) != {}
  {
    var a := OursReads();
    var b := TheirsDeletes(a);
    var theirs := L.Working(Deleting([], true));
    OursMoves(theirs, Deleting([], false));
    OursSecond();
    s := Reads(b, OneLeft(), Both(theirs), 0);
    s' := Returns(s, OneLeft(), Now(Both(theirs), 0, Deleting([], false)), 0);
    OneLeftFacts();
  }

  // --- One creation, processed twice ---------------------------------------------------------

  const PLACE := R.Request(R.Add, "a", "v")

  /** The first answer to Bunny's PUT: a 503, although it was processed. */
  const UNAVAILABLE := Retry.Answered(Retry.Response(503, Retry.Absent, false))

  function Empty(): Zone {
    Zone(Bunny, 1, [], map[], {})
  }

  function Place(phase: L.Phase<Progress>): Active {
    map[0 := L.Call(PLACE, phase)]
  }

  lemma TwoCreations()
    ensures var z1 := Created(Empty(), 1, "a", "v", 0);
            AfterPage(Empty(), PLACE, None) == Creating(true) &&
                Matching(Created(z1, 2, "a", "v", 0), "a", "v") == {1, 2}
  {
    assert Hits(Empty(), [], "a", "v") == [];
    CreatedValues(Empty(), 1, "a", "v", 0);
    CreatedValues(Created(Empty(), 1, "a", "v", 0), 2, "a", "v", 0);
  }

  lemma PlacedOnce() returns (s: State)
    ensures At(s, Created(Empty(), 1, "a", "v", 0), Place(L.Working(Done)))
  {
    TwoCreations();
    var a := Opens(Empty(), PLACE);
    s := Creates(a, Empty(), Place(L.Working(Creating(true))), 0, 1);
  }

  /** One present on an empty zone: the PUT is processed, answered with a 503,
      which the retry rule replays, and processed again. The present returns Ok
      and leaves two records. */
  lemma ReplayLeavesTwoRecords() returns (s: State, s': State)
    ensures Retry.TriesAgain(Retry.Put, true, UNAVAILABLE, 1)
    ensures Reachable(s) && 0 in s.calls.active && s.calls.active[0].req == PLACE
    ensures Step(s, R.Return(0, true), s') && |Matching(s'.zone, "a", "v")| == 2
  {
    TwoCreations();
    var a := PlacedOnce();
    var z1 := Created(Empty(), 1, "a", "v", 0);
    s := Creates(a, z1, Place(L.Working(Done)), 0, 2);
    s' := Returns(s, Created(z1, 2, "a", "v", 0), Place(L.Working(Done)), 0);
  }
}

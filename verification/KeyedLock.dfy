/** The process-wide keyed lock (`KeyedMutex`): a table of reference-counted
    mutexes that prunes itself on every call, while tasks acquire, release and
    abandon the mutexes they cloned out of it. */
module KeyedLock {

  type TaskId = nat
  /** Identity of a mutex allocation. A freed one may be allocated again. */
  type MutexId = nat

  /** The table and the strong count of every live mutex. */
  datatype Arcs = Arcs(table: map<string, MutexId>, refs: map<MutexId, nat>)

  /** What a task between the table lookup and the end of its critical section
      owns: a clone of the mutex and, once acquired, its guard. */
  datatype Ticket = Ticket(key: string, mutex: MutexId, held: bool)

  datatype Locks = Locks(arcs: Arcs, locked: set<MutexId>, tasks: map<TaskId, Ticket>)

  function Count(refs: map<MutexId, nat>, m: MutexId): nat {
    if m in refs then refs[m] else 0
  }

  /** Mutexes whose only reference is the table's. */
  function Idle(a: Arcs): set<MutexId> {
    set k | k in a.table && Count(a.refs, a.table[k]) <= 1 :: a.table[k]
  }

  /** Drops every entry nobody but the table references. */
  function Pruned(a: Arcs): Arcs {
    Arcs(map k | k in a.table && Count(a.refs, a.table[k]) > 1 :: a.table[k], a.refs - Idle(a))
  }

  function EntryFor(a: Arcs, key: string, spare: MutexId): MutexId {
    if key in a.table then a.table[key] else spare
  }

  /** Gets or inserts the entry of `key` and clones it. */
  function Cloned(a: Arcs, key: string, spare: MutexId): Arcs {
    var m := EntryFor(a, key, spare);
    if key in a.table
    then a.(refs := a.refs[m := Count(a.refs, m) + 1])
    else Arcs(a.table[key := m], a.refs[m := 2])
  }

  /** Drops one reference; the last one frees the mutex. */
  function Released(refs: map<MutexId, nat>, m: MutexId): map<MutexId, nat> {
    if Count(refs, m) <= 1 then refs - {m} else refs[m := Count(refs, m) - 1]
  }

  // --- The critical section of `lock` ---------------------------------------

  ghost predicate EntriesDistinct(a: Arcs) {
    forall k, l | k in a.table && l in a.table && a.table[k] == a.table[l] :: k == l
  }

  /** Pruning with the keys in `todo` not visited yet. */
  ghost function PrunedBut(a: Arcs, todo: set<string>): Arcs {
    Arcs(map k | k in a.table && (k in todo || Count(a.refs, a.table[k]) > 1) :: a.table[k],
         a.refs - set k | k in a.table && k !in todo && Count(a.refs, a.table[k]) <= 1 :: a.table[k])
  }

  lemma PruneOneEntry(a: Arcs, todo: set<string>, k: string)
    requires EntriesDistinct(a) && k in todo && todo <= a.table.Keys
    ensures PrunedBut(a, todo - {k}).table
         == if Count(a.refs, a.table[k]) <= 1 then PrunedBut(a, todo).table - {k} else PrunedBut(a, todo).table
  {
    var before, after := PrunedBut(a, todo).table, PrunedBut(a, todo - {k}).table;
    if Count(a.refs, a.table[k]) <= 1 {
      assert after == before - {k};
    } else {
      assert after == before;
    }
  }

  lemma PruneOneReference(a: Arcs, todo: set<string>, k: string)
    requires EntriesDistinct(a) && k in todo && todo <= a.table.Keys
    ensures PrunedBut(a, todo - {k}).refs
         == if Count(a.refs, a.table[k]) <= 1 then PrunedBut(a, todo).refs - {a.table[k]} else PrunedBut(a, todo).refs
    ensures Count(PrunedBut(a, todo).refs, a.table[k]) == Count(a.refs, a.table[k])
  {
    var before, after := PrunedBut(a, todo).refs, PrunedBut(a, todo - {k}).refs;
    if Count(a.refs, a.table[k]) <= 1 {
      assert after == before - {a.table[k]};
    } else {
      assert after == before;
    }
  }

  lemma PruneOne(a: Arcs, todo: set<string>, k: string)
    requires EntriesDistinct(a) && k in todo && todo <= a.table.Keys
    ensures var before, after := PrunedBut(a, todo), PrunedBut(a, todo - {k});
            && k in before.table && before.table[k] == a.table[k]
            && Count(before.refs, a.table[k]) == Count(a.refs, a.table[k])
            && after == if Count(a.refs, a.table[k]) <= 1
                        then Arcs(before.table - {k}, before.refs - {a.table[k]})
                        else before
  {
    PruneOneEntry(a, todo, k);
    PruneOneReference(a, todo, k);
  }

  lemma PruneEnds(a: Arcs)
    ensures PrunedBut(a, a.table.Keys) == a && PrunedBut(a, {}) == Pruned(a)
  {
    assert PrunedBut(a, a.table.Keys).table == a.table;
    assert PrunedBut(a, a.table.Keys).refs == a.refs;
    assert PrunedBut(a, {}).table == Pruned(a).table;
    assert PrunedBut(a, {}).refs == Pruned(a).refs;
  }

  class LockTable {
    var table: map<string, MutexId>
    var refs: map<MutexId, nat>

    ghost function View(): Arcs
      reads this
    {
      Arcs(table, refs)
    }

    constructor ()
      ensures View() == Arcs(map[], map[])
    {
      table, refs := map[], map[];
    }

    /** Retains the referenced entries, one key at a time. */
    method Retain()
      requires EntriesDistinct(View())
      modifies this
      ensures View() == Pruned(old(View()))
    {
      ghost var was := View();
      var todo := table.Keys;
      PruneEnds(was);
      while todo != {}
        invariant todo <= was.table.Keys
        invariant View() == PrunedBut(was, todo)
        decreases todo
      {
        var k :| k in todo;
        PruneOne(was, todo, k);
        todo := todo - {k};
        if Count(refs, table[k]) <= 1 {
          refs := refs - {table[k]};
          table := table - {k};
        }
      }
    }

    /** The part of `lock` that runs under the table's own mutex. `spare` is
        the allocation a new entry would get. */
    method Enter(key: string, spare: MutexId) returns (m: MutexId)
      requires EntriesDistinct(View())
      modifies this
      ensures View() == Cloned(Pruned(old(View())), key, spare)
      ensures m == EntryFor(Pruned(old(View())), key, spare)
    {
      Retain();
      if key !in table {
        table := table[key := spare];
        refs := refs[spare := 1];
      }
      m := table[key];
      refs := refs[m := Count(refs, m) + 1];
    }
  }

  // --- Steps of the tasks ---------------------------------------------------

  function Entered(s: Locks, id: TaskId, key: string, spare: MutexId): Locks {
    var pruned := Pruned(s.arcs);
    Locks(Cloned(pruned, key, spare),
          s.locked - Idle(s.arcs),
          s.tasks[id := Ticket(key, EntryFor(pruned, key, spare), false)])
  }

  ghost predicate CanEnter(s: Locks, id: TaskId, spare: MutexId) {
    id !in s.tasks && spare !in Pruned(s.arcs).refs
  }

  ghost predicate CanAcquire(s: Locks, id: TaskId) {
    id in s.tasks && !s.tasks[id].held && s.tasks[id].mutex !in s.locked
  }

  function Acquired(s: Locks, id: TaskId): Locks
    requires id in s.tasks
  {
    s.(locked := s.locked + {s.tasks[id].mutex}, tasks := s.tasks[id := s.tasks[id].(held := true)])
  }

  /** Releasing the guard and abandoning the wait both drop the clone. */
  function Left(s: Locks, id: TaskId): Locks
    requires id in s.tasks
  {
    var ticket := s.tasks[id];
    Locks(s.arcs.(refs := Released(s.arcs.refs, ticket.mutex)),
          if ticket.held then s.locked - {ticket.mutex} else s.locked,
          s.tasks - {id})
  }

  ghost predicate Init(s: Locks) {
    s == Locks(Arcs(map[], map[]), {}, map[])
  }

  ghost predicate EnterStep(s: Locks, s': Locks, id: TaskId, key: string, spare: MutexId) {
    CanEnter(s, id, spare) && s' == Entered(s, id, key, spare)
  }

  ghost predicate AcquireStep(s: Locks, s': Locks, id: TaskId) {
    CanAcquire(s, id) && s' == Acquired(s, id)
  }

  ghost predicate LeaveStep(s: Locks, s': Locks, id: TaskId) {
    id in s.tasks && s' == Left(s, id)
  }

  ghost predicate Step(s: Locks, s': Locks) {
    || (exists id, key, spare :: EnterStep(s, s', id, key, spare))
    || (exists id :: AcquireStep(s, s', id))
    || (exists id :: LeaveStep(s, s', id))
  }

  ghost predicate IsRun(run: seq<Locks>) {
    |run| > 0 && Init(run[0]) && forall i | 0 <= i < |run| - 1 :: Step(run[i], run[i + 1])
  }

  // --- The inductive invariant ----------------------------------------------

  ghost function Users(tasks: map<TaskId, Ticket>, m: MutexId): set<TaskId> {
    set t | t in tasks && tasks[t].mutex == m
  }

  ghost function KeysInUse(tasks: map<TaskId, Ticket>): set<string> {
    set t | t in tasks :: tasks[t].key
  }

  /** Every ticket's mutex is the one the table maps its key to. */
  ghost predicate TicketsAgree(s: Locks) {
    forall t | t in s.tasks ::
      s.tasks[t].key in s.arcs.table && s.arcs.table[s.tasks[t].key] == s.tasks[t].mutex
  }

  /** A live mutex counts the table and each task that cloned it. */
  ghost predicate CountsExact(s: Locks) {
    && s.arcs.refs.Keys == s.arcs.table.Values
    && forall m | m in s.arcs.refs :: s.arcs.refs[m] == 1 + |Users(s.tasks, m)|
  }

  ghost predicate HoldersUnique(s: Locks) {
    && (forall t | t in s.tasks && s.tasks[t].held :: s.tasks[t].mutex in s.locked)
    && (forall m | m in s.locked :: exists t :: t in s.tasks && s.tasks[t].held && s.tasks[t].mutex == m)
    && (forall t, u | t in s.tasks && u in s.tasks && s.tasks[t].held && s.tasks[u].held
                      && s.tasks[t].mutex == s.tasks[u].mutex :: t == u)
  }

  ghost predicate Inv(s: Locks) {
    TicketsAgree(s) && EntriesDistinct(s.arcs) && CountsExact(s) && HoldersUnique(s)
  }

  /** The strong count of an entry exceeds one exactly when a task uses it. */
  lemma PrunedIffUnused(s: Locks, k: string)
    requires Inv(s) && k in s.arcs.table
    ensures k in Pruned(s.arcs).table <==> k in KeysInUse(s.tasks)
  {
    var m := s.arcs.table[k];
    assert m in s.arcs.table.Values;
    if k in KeysInUse(s.tasks) {
      var t :| t in s.tasks && s.tasks[t].key == k;
      assert t in Users(s.tasks, m);
      assert |Users(s.tasks, m)| > 0;
    } else {
      forall t | t in s.tasks ensures s.tasks[t].mutex != m {
        assert s.arcs.table[s.tasks[t].key] == s.tasks[t].mutex;
      }
      assert Users(s.tasks, m) == {};
    }
  }

  /** Pruning frees no mutex that a task still refers to. */
  lemma TicketsSurvivePruning(s: Locks, t: TaskId)
    requires Inv(s) && t in s.tasks
    ensures var a := Pruned(s.arcs);
            && s.tasks[t].key in a.table && a.table[s.tasks[t].key] == s.tasks[t].mutex
            && s.tasks[t].mutex in a.refs && s.tasks[t].mutex !in Idle(s.arcs)
  {
    var m := s.tasks[t].mutex;
    PrunedIffUnused(s, s.tasks[t].key);
    assert m in s.arcs.table.Values;
    if k :| k in s.arcs.table && Count(s.arcs.refs, s.arcs.table[k]) <= 1 && s.arcs.table[k] == m {
      assert false;
    }
  }

  lemma EnterKeepsTickets(s: Locks, id: TaskId, key: string, spare: MutexId)
    requires Inv(s) && CanEnter(s, id, spare)
    ensures TicketsAgree(Entered(s, id, key, spare))
  {
    var s' := Entered(s, id, key, spare);
    forall t | t in s'.tasks
      ensures s'.tasks[t].key in s'.arcs.table && s'.arcs.table[s'.tasks[t].key] == s'.tasks[t].mutex
    {
      if t != id { TicketsSurvivePruning(s, t); }
    }
  }

  lemma EnterKeepsEntries(s: Locks, key: string, spare: MutexId)
    requires Inv(s) && spare !in Pruned(s.arcs).refs
    ensures EntriesDistinct(Cloned(Pruned(s.arcs), key, spare))
  {
    PrunedValues(s);
    var p := Pruned(s.arcs);
    assert forall k | k in p.table :: p.table[k] in p.table.Values;
    assert EntriesDistinct(p);
  }

  lemma CloneKeepsLiveSet(p: Arcs, key: string, spare: MutexId)
    requires p.refs.Keys == p.table.Values
    ensures Cloned(p, key, spare).refs.Keys == Cloned(p, key, spare).table.Values
  {
    var a := Cloned(p, key, spare);
    if key !in p.table {
      assert a.table[key] == spare;
      forall m | m in p.table.Values ensures m in a.table.Values {
        var k :| k in p.table && p.table[k] == m;
        assert a.table[k] == m;
      }
      assert a.table.Values <= p.table.Values + {spare};
    } else {
      assert p.table[key] in p.table.Values;
    }
  }

  lemma NewUser(tasks: map<TaskId, Ticket>, id: TaskId, ticket: Ticket, m: MutexId)
    requires id !in tasks
    ensures |Users(tasks[id := ticket], m)| == |Users(tasks, m)| + if ticket.mutex == m then 1 else 0
  {
    var after := Users(tasks[id := ticket], m);
    assert after == Users(tasks, m) + if ticket.mutex == m then {id} else {};
  }

  lemma SpareHasNoUsers(s: Locks, id: TaskId, spare: MutexId)
    requires Inv(s) && CanEnter(s, id, spare)
    ensures Users(s.tasks, spare) == {}
  {
    forall u | u in s.tasks ensures s.tasks[u].mutex != spare {
      TicketsSurvivePruning(s, u);
    }
  }

  lemma EnterKeepsCounts(s: Locks, id: TaskId, key: string, spare: MutexId)
    requires Inv(s) && CanEnter(s, id, spare)
    ensures CountsExact(Entered(s, id, key, spare))
  {
    var s' := Entered(s, id, key, spare);
    var p := Pruned(s.arcs);
    PrunedValues(s);
    CloneKeepsLiveSet(p, key, spare);
    SpareHasNoUsers(s, id, spare);
    assert key in p.table ==> p.table[key] in s.arcs.table.Values;
    forall m | m in s'.arcs.refs ensures s'.arcs.refs[m] == 1 + |Users(s'.tasks, m)| {
      NewUser(s.tasks, id, s'.tasks[id], m);
    }
  }

  lemma PrunedValues(s: Locks)
    requires Inv(s)
    ensures Pruned(s.arcs).refs.Keys == Pruned(s.arcs).table.Values
    ensures forall k | k in Pruned(s.arcs).table :: Pruned(s.arcs).table[k] == s.arcs.table[k]
  {
    var p := Pruned(s.arcs);
    forall m | m in p.refs ensures m in p.table.Values {
      var k :| k in s.arcs.table && s.arcs.table[k] == m;
      assert k in p.table;
    }
    forall k | k in p.table ensures p.table[k] in p.refs {
      assert s.arcs.table[k] in s.arcs.table.Values;
    }
  }

  lemma EnterKeepsHolders(s: Locks, id: TaskId, key: string, spare: MutexId)
    requires Inv(s) && CanEnter(s, id, spare)
    ensures HoldersUnique(Entered(s, id, key, spare))
  {
    var s' := Entered(s, id, key, spare);
    forall t | t in s'.tasks && s'.tasks[t].held ensures s'.tasks[t].mutex in s'.locked {
      TicketsSurvivePruning(s, t);
    }
    forall m | m in s'.locked ensures exists t :: t in s'.tasks && s'.tasks[t].held && s'.tasks[t].mutex == m {
      var t :| t in s.tasks && s.tasks[t].held && s.tasks[t].mutex == m;
      assert s'.tasks[t] == s.tasks[t];
    }
  }

  lemma AcquireKeepsCounts(s: Locks, id: TaskId)
    requires Inv(s) && CanAcquire(s, id)
    ensures TicketsAgree(Acquired(s, id)) && CountsExact(Acquired(s, id))
  {
    var s' := Acquired(s, id);
    forall m | m in s'.arcs.refs ensures s'.arcs.refs[m] == 1 + |Users(s'.tasks, m)| {
      assert Users(s'.tasks, m) == Users(s.tasks, m);
    }
  }

  lemma AcquireKeepsHolders(s: Locks, id: TaskId)
    requires Inv(s) && CanAcquire(s, id)
    ensures HoldersUnique(Acquired(s, id))
  {
    var s' := Acquired(s, id);
    forall m | m in s'.locked ensures exists t :: t in s'.tasks && s'.tasks[t].held && s'.tasks[t].mutex == m {
      if m == s.tasks[id].mutex {
        assert s'.tasks[id].held && s'.tasks[id].mutex == m;
      } else {
        var t :| t in s.tasks && s.tasks[t].held && s.tasks[t].mutex == m;
        assert s'.tasks[t] == s.tasks[t];
      }
    }
  }

  lemma AcquireKeepsInv(s: Locks, id: TaskId)
    requires Inv(s) && CanAcquire(s, id)
    ensures Inv(Acquired(s, id))
  {
    AcquireKeepsCounts(s, id);
    AcquireKeepsHolders(s, id);
  }

  lemma LeaveKeepsCounts(s: Locks, id: TaskId)
    requires Inv(s) && id in s.tasks
    ensures CountsExact(Left(s, id))
  {
    var s' := Left(s, id);
    var e := s.tasks[id].mutex;
    assert s.arcs.table[s.tasks[id].key] == e;
    assert id in Users(s.tasks, e);
    assert Users(s'.tasks, e) == Users(s.tasks, e) - {id};
    forall m | m in s'.arcs.refs ensures s'.arcs.refs[m] == 1 + |Users(s'.tasks, m)| {
      if m != e { assert Users(s'.tasks, m) == Users(s.tasks, m); }
    }
  }

  lemma LeaveKeepsHolders(s: Locks, id: TaskId)
    requires Inv(s) && id in s.tasks
    ensures HoldersUnique(Left(s, id))
  {
    var s' := Left(s, id);
    forall m | m in s'.locked ensures exists t :: t in s'.tasks && s'.tasks[t].held && s'.tasks[t].mutex == m {
      var t :| t in s.tasks && s.tasks[t].held && s.tasks[t].mutex == m;
      assert t != id;
      assert s'.tasks[t] == s.tasks[t];
    }
  }

  lemma EnterKeepsInv(s: Locks, id: TaskId, key: string, spare: MutexId)
    requires Inv(s) && CanEnter(s, id, spare)
    ensures Inv(Entered(s, id, key, spare))
  {
    EnterKeepsTickets(s, id, key, spare);
    EnterKeepsEntries(s, key, spare);
    EnterKeepsCounts(s, id, key, spare);
    EnterKeepsHolders(s, id, key, spare);
  }

  /** The new ticket waits for its key; the other tickets stay. */
  lemma EnterAddsTicket(s: Locks, s': Locks, id: TaskId, key: string, spare: MutexId)
    requires Inv(s) && EnterStep(s, s', id, key, spare)
    ensures Inv(s') && id !in s.tasks
    ensures s'.tasks == s.tasks[id := Ticket(key, EntryFor(Pruned(s.arcs), key, spare), false)]
  {
    EnterKeepsInv(s, id, key, spare);
  }

  lemma LeaveKeepsInv(s: Locks, id: TaskId)
    requires Inv(s) && id in s.tasks
    ensures Inv(Left(s, id))
  {
    LeaveKeepsCounts(s, id);
    LeaveKeepsHolders(s, id);
  }

  lemma StepKeepsInv(s: Locks, s': Locks)
    requires Inv(s) && Step(s, s')
    ensures Inv(s')
  {
    if id, key, spare :| EnterStep(s, s', id, key, spare) {
      EnterKeepsInv(s, id, key, spare);
    } else if id :| AcquireStep(s, s', id) {
      AcquireKeepsInv(s, id);
    } else {
      var id :| LeaveStep(s, s', id);
      LeaveKeepsInv(s, id);
    }
  }

  lemma {:induction false} RunKeepsInv(run: seq<Locks>, i: nat)
    requires IsRun(run) && i < |run|
    ensures Inv(run[i])
  {
    if i > 0 {
      RunKeepsInv(run, i - 1);
      assert Step(run[i - 1], run[i]);
      StepKeepsInv(run[i - 1], run[i]);
    }
  }

  // --- What the lock promises -----------------------------------------------

  /** Two tasks holding the same key in one state are the same task. */
  lemma HolderOfKeyIsUnique(s: Locks, t: TaskId, u: TaskId)
    requires Inv(s) && t in s.tasks && u in s.tasks
    requires s.tasks[t].held && s.tasks[u].held && s.tasks[t].key == s.tasks[u].key
    ensures t == u
  {
    assert s.tasks[t].mutex == s.tasks[u].mutex;
  }

  /** Mutual exclusion over whole runs, however often the table was pruned and
      mutex addresses reused: at most one task holds a key, and all tasks of a
      key, waiting or holding, share the mutex the table maps it to. */
  lemma MutualExclusion(run: seq<Locks>, i: nat, t: TaskId, u: TaskId)
    requires IsRun(run) && i < |run| && t in run[i].tasks && u in run[i].tasks
    requires run[i].tasks[t].key == run[i].tasks[u].key
    ensures run[i].tasks[t].mutex == run[i].tasks[u].mutex
    ensures run[i].tasks[t].key in run[i].arcs.table
    ensures run[i].arcs.table[run[i].tasks[t].key] == run[i].tasks[t].mutex
    ensures run[i].tasks[t].held && run[i].tasks[u].held ==> t == u
  {
    RunKeepsInv(run, i);
    if run[i].tasks[t].held && run[i].tasks[u].held { HolderOfKeyIsUnique(run[i], t, u); }
  }

  lemma FreeIffNoHolder(s: Locks, t: TaskId)
    requires Inv(s) && t in s.tasks && !s.tasks[t].held
    ensures CanAcquire(s, t) <==> !exists u :: u in s.tasks && s.tasks[u].held && s.tasks[u].key == s.tasks[t].key
  {
    if s.tasks[t].mutex in s.locked {
      var u :| u in s.tasks && s.tasks[u].held && s.tasks[u].mutex == s.tasks[t].mutex;
      assert s.arcs.table[s.tasks[u].key] == s.arcs.table[s.tasks[t].key];
    }
  }

  /** A waiting task is blocked by holders of its own key only: it can acquire
      exactly when no task holds that key. */
  lemma BlockedOnlyByOwnKey(run: seq<Locks>, i: nat, t: TaskId)
    requires IsRun(run) && i < |run| && t in run[i].tasks && !run[i].tasks[t].held
    ensures CanAcquire(run[i], t) <==>
            !exists u :: u in run[i].tasks && run[i].tasks[u].held && run[i].tasks[u].key == run[i].tasks[t].key
  {
    RunKeepsInv(run, i);
    FreeIffNoHolder(run[i], t);
  }

  lemma RunGoesOn(run: seq<Locks>, s: Locks)
    requires IsRun(run) && Step(run[|run| - 1], s)
    ensures IsRun(run + [s])
  {
    var longer := run + [s];
    forall i | 0 <= i < |longer| - 1 ensures Step(longer[i], longer[i + 1]) {
      assert i < |run| - 1 ==> Step(run[i], run[i + 1]);
    }
  }

  lemma RunCanStart()
    ensures IsRun([Locks(Arcs(map[], map[]), {}, map[])])
  {
  }

  ghost predicate NobodyHolds(s: Locks, key: string) {
    forall u | u in s.tasks && s.tasks[u].held :: s.tasks[u].key != key
  }

  lemma CanTakeFreeKey(s: Locks, id: TaskId, key: string, spare: MutexId)
    requires Inv(s) && CanEnter(s, id, spare) && NobodyHolds(s, key)
    ensures CanAcquire(Entered(s, id, key, spare), id)
  {
    EnterAddsTicket(s, Entered(s, id, key, spare), id, key, spare);
    FreeIffNoHolder(Entered(s, id, key, spare), id);
  }

  lemma ThreeMore(run: seq<Locks>, a: Locks, b: Locks, c: Locks)
    requires IsRun(run) && Step(run[|run| - 1], a) && Step(a, b) && Step(b, c)
    ensures IsRun(run + [a] + [b] + [c])
  {
    RunGoesOn(run, a);
    RunGoesOn(run + [a], b);
    RunGoesOn(run + [a] + [b], c);
  }

  lemma TakesItsTurn(s: Locks, id: TaskId, key: string, spare: MutexId)
    returns (entered: Locks, holding: Locks, left: Locks)
    requires Inv(s) && CanEnter(s, id, spare) && NobodyHolds(s, key)
    ensures Step(s, entered) && Step(entered, holding) && Step(holding, left)
    ensures id in holding.tasks && holding.tasks[id].held && holding.tasks[id].key == key
    ensures left.tasks == s.tasks
  {
    CanTakeFreeKey(s, id, key, spare);
    entered := Entered(s, id, key, spare);
    holding := Acquired(entered, id);
    left := Left(holding, id);
    assert EnterStep(s, entered, id, key, spare) && AcquireStep(entered, holding, id) && LeaveStep(holding, left, id);
  }

  /** Nobody is kept out: after any run, a new task can look up a key that no
      task holds, acquire it, and leave with the other tasks as they were. */
  lemma FreeKeyCanBeTaken(run: seq<Locks>, id: TaskId, key: string, spare: MutexId)
    returns (entered: Locks, holding: Locks, left: Locks)
    requires IsRun(run) && CanEnter(run[|run| - 1], id, spare) && NobodyHolds(run[|run| - 1], key)
    ensures IsRun(run + [entered] + [holding] + [left])
    ensures id in holding.tasks && holding.tasks[id].held && holding.tasks[id].key == key
    ensures left.tasks == run[|run| - 1].tasks
  {
    RunKeepsInv(run, |run| - 1);
    entered, holding, left := TakesItsTurn(run[|run| - 1], id, key, spare);
    ThreeMore(run, entered, holding, left);
  }

  /** A call of `lock` leaves exactly the entries of keys that a task waits for
      or holds, its own included, so a pruned key has no waiter and no holder
      and the table never outgrows the tasks. */
  lemma TableIsWhatTasksUse(run: seq<Locks>, i: nat, id: TaskId, key: string, spare: MutexId)
    requires IsRun(run) && i < |run| - 1 && EnterStep(run[i], run[i + 1], id, key, spare)
    ensures run[i + 1].arcs.table.Keys == KeysInUse(run[i + 1].tasks)
    ensures |run[i + 1].arcs.table| <= |run[i + 1].tasks|
  {
    RunKeepsInv(run, i);
    RunKeepsInv(run, i + 1);
    var s, s' := run[i], run[i + 1];
    forall k | k in s'.arcs.table ensures k in KeysInUse(s'.tasks) {
      if k != key {
        PrunedIffUnused(s, k);
        var t :| t in s.tasks && s.tasks[t].key == k;
        assert s'.tasks[t].key == k;
      } else {
        assert s'.tasks[id].key == k;
      }
    }
    KeysNoMoreThanTasks(s'.tasks);
  }

  lemma {:induction false} KeysNoMoreThanTasks(tasks: map<TaskId, Ticket>)
    ensures |KeysInUse(tasks)| <= |tasks|
    decreases |tasks|
  {
    if tasks.Keys == {} {
      assert KeysInUse(tasks) == {};
    } else {
      var t :| t in tasks.Keys;
      var rest := tasks - {t};
      assert rest.Keys == tasks.Keys - {t};
      assert |rest| == |tasks| - 1;
      KeysNoMoreThanTasks(rest);
      assert KeysInUse(tasks) == KeysInUse(rest) + {tasks[t].key} by {
        forall k | k in KeysInUse(tasks) ensures k in KeysInUse(rest) + {tasks[t].key} {
          var u :| u in tasks && tasks[u].key == k;
          if u != t { assert rest[u].key == k; }
        }
      }
    }
  }
}

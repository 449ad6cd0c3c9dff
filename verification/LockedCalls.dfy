/** Provider calls that do their work under the keyed lock, whatever that work
    is: a call resolves its zone, queues for its key, holds the lock while it
    makes progress, and gives it up when it returns or is dropped. */
module LockedCalls {
  import opened Prelude
  import opened TxtValues
  import KeyedLock
  import R = AtomicRecords

  type TaskId = nat

  datatype Phase<P> = Resolving | Queued | Working(progress: P)

  datatype Call<P> = Call(req: R.Request, phase: Phase<P>)

  datatype Calls<P> = Calls(locks: KeyedLock.Locks, active: map<TaskId, Call<P>>)

  /** What a call has achieved under the lock. */
  function Work<P>(c: Call<P>): Option<P> {
    if c.phase.Working? then Some(c.phase.progress) else None
  }

  ghost predicate Holds<P>(s: Calls<P>, id: TaskId) {
    id in s.locks.tasks && s.locks.tasks[id].held
  }

  // --- Steps -------------------------------------------------------------------

  function Began<P>(s: Calls<P>, id: TaskId, req: R.Request): Calls<P> {
    s.(active := s.active[id := Call(req, Resolving)])
  }

  /** Zone resolved, value valid: the call looks its key up in the lock table. */
  ghost predicate LockStep<P>(s: Calls<P>, s': Calls<P>, id: TaskId, spare: nat) {
    && id in s.active && s.active[id].phase.Resolving?
    && (s.active[id].req.op.Add? ==> ValidAcmeValue(s.active[id].req.value))
    && KeyedLock.EnterStep(s.locks, s'.locks, id, s.active[id].req.key, spare)
    && s'.active == s.active[id := s.active[id].(phase := Queued)]
  }

  ghost predicate AcquireStep<P>(s: Calls<P>, s': Calls<P>, id: TaskId) {
    && id in s.active
    && KeyedLock.AcquireStep(s.locks, s'.locks, id)
    && s'.active == s.active
  }

  /** A step on the way to the lock. */
  ghost predicate WaitStep<P>(s: Calls<P>, s': Calls<P>) {
    || (exists id, spare :: LockStep(s, s', id, spare))
    || (exists id :: AcquireStep(s, s', id))
  }

  ghost predicate CanWork<P>(s: Calls<P>, id: TaskId) {
    id in s.active && Holds(s, id)
  }

  function Advanced<P>(s: Calls<P>, id: TaskId, progress: P): Calls<P>
    requires id in s.active
  {
    s.(active := s.active[id := s.active[id].(phase := Working(progress))])
  }

  /** The call is over, by returning or by being dropped: its guard goes. */
  function Ended<P>(s: Calls<P>, id: TaskId): Calls<P> {
    Calls(if id in s.locks.tasks then KeyedLock.Left(s.locks, id) else s.locks, s.active - {id})
  }

  ghost predicate Init<P>(s: Calls<P>) {
    KeyedLock.Init(s.locks) && s.active == map[]
  }

  // --- Tickets and calls stay in step ------------------------------------------

  ghost predicate TicketOk<P>(s: Calls<P>, t: TaskId)
    requires t in s.active
  {
    && (s.active[t].phase.Resolving? <==> t !in s.locks.tasks)
    && (t in s.locks.tasks ==> s.locks.tasks[t].key == s.active[t].req.key)
    && (s.active[t].phase.Working? ==> Holds(s, t))
    && (!s.active[t].phase.Resolving? && s.active[t].req.op.Add? ==> ValidAcmeValue(s.active[t].req.value))
  }

  ghost predicate Inv<P>(s: Calls<P>) {
    && KeyedLock.Inv(s.locks)
    && s.locks.tasks.Keys <= s.active.Keys
    && (forall t | t in s.active :: TicketOk(s, t))
  }

  /** While a call holds its key, no other call of that key is at work. */
  lemma HolderIsAlone<P>(s: Calls<P>, id: TaskId, t: TaskId)
    requires Inv(s) && CanWork(s, id) && t in s.active && t != id
    requires s.active[t].req.key == s.active[id].req.key
    ensures Work(s.active[t]).None?
  {
    assert TicketOk(s, t) && TicketOk(s, id);
    if Holds(s, t) { KeyedLock.HolderOfKeyIsUnique(s.locks, id, t); }
  }

  lemma BeginKeepsInv<P>(s: Calls<P>, id: TaskId, req: R.Request)
    requires Inv(s) && id !in s.active
    ensures Inv(Began(s, id, req))
  {
    var s' := Began(s, id, req);
    forall t | t in s'.active ensures TicketOk(s', t) {
      if t != id { assert TicketOk(s, t); }
    }
  }

  /** A call that takes its ticket keeps the invariant, whatever the table did. */
  lemma QueueKeepsInv<P>(s: Calls<P>, s': Calls<P>, id: TaskId, ticket: KeyedLock.Ticket)
    requires Inv(s) && id in s.active && s.active[id].phase.Resolving?
    requires s.active[id].req.op.Add? ==> ValidAcmeValue(s.active[id].req.value)
    requires ticket.key == s.active[id].req.key && !ticket.held
    requires KeyedLock.Inv(s'.locks) && s'.locks.tasks == s.locks.tasks[id := ticket]
    requires s'.active == s.active[id := s.active[id].(phase := Queued)]
    ensures Inv(s')
  {
    forall t | t in s'.active ensures TicketOk(s', t) {
      assert TicketOk(s, t);
    }
  }

  lemma AcquireKeepsInv<P>(s: Calls<P>, s': Calls<P>, id: TaskId)
    requires Inv(s) && AcquireStep(s, s', id)
    ensures Inv(s')
  {
    KeyedLock.AcquireKeepsInv(s.locks, id);
    forall t | t in s'.active ensures TicketOk(s', t) {
      assert TicketOk(s, t);
    }
  }

  /** Waiting changes no call's request and no call's progress. */
  lemma WaitKeepsInv<P>(s: Calls<P>, s': Calls<P>)
    requires Inv(s) && WaitStep(s, s')
    ensures Inv(s') && s'.active.Keys == s.active.Keys
    ensures forall t | t in s.active :: s'.active[t].req == s.active[t].req && Work(s'.active[t]) == Work(s.active[t])
  {
    if id, spare :| LockStep(s, s', id, spare) {
      KeyedLock.EnterAddsTicket(s.locks, s'.locks, id, s.active[id].req.key, spare);
      QueueKeepsInv(s, s', id, s'.locks.tasks[id]);
    } else {
      var id :| AcquireStep(s, s', id);
      AcquireKeepsInv(s, s', id);
    }
  }

  lemma AdvanceKeepsInv<P>(s: Calls<P>, id: TaskId, progress: P)
    requires Inv(s) && CanWork(s, id)
    ensures Inv(Advanced(s, id, progress))
  {
    var s' := Advanced(s, id, progress);
    forall t | t in s'.active ensures TicketOk(s', t) {
      assert TicketOk(s, t);
    }
  }

  lemma EndKeepsInv<P>(s: Calls<P>, id: TaskId)
    requires Inv(s) && id in s.active
    ensures Inv(Ended(s, id))
  {
    var s' := Ended(s, id);
    if id in s.locks.tasks { KeyedLock.LeaveKeepsInv(s.locks, id); }
    forall t | t in s'.active ensures TicketOk(s', t) {
      assert TicketOk(s, t);
    }
  }

  // --- Nobody is kept out --------------------------------------------------------

  lemma UnusedNumber(used: set<nat>) returns (n: nat)
    ensures n !in used
  {
    n := Bound(used);
  }

  lemma {:induction false} Bound(used: set<nat>) returns (n: nat)
    ensures forall u | u in used :: u < n
    decreases |used|
  {
    n := 0;
    if used != {} {
      var u :| u in used;
      var below := Bound(used - {u});
      n := if u < below then below else u + 1;
      assert forall t | t in used :: t == u || t in used - {u};
    }
  }

  /** Call `id` has a valid request and has resolved its zone, and nobody holds its key. */
  ghost predicate Unhindered<P>(s: Calls<P>, id: TaskId) {
    && id in s.active && s.active[id].phase.Resolving?
    && (s.active[id].req.op.Add? ==> ValidAcmeValue(s.active[id].req.value))
    && KeyedLock.NobodyHolds(s.locks, s.active[id].req.key)
  }

  /** Such a call can take the lock in two steps. */
  lemma ReachesTheLock<P>(s: Calls<P>, id: TaskId) returns (queued: Calls<P>, holding: Calls<P>)
    requires Inv(s) && Unhindered(s, id)
    ensures WaitStep(s, queued) && WaitStep(queued, holding)
    ensures CanWork(holding, id) && holding.active == s.active[id := s.active[id].(phase := Queued)]
  {
    var spare := UnusedNumber(KeyedLock.Pruned(s.locks.arcs).refs.Keys);
    queued := Calls(KeyedLock.Entered(s.locks, id, s.active[id].req.key, spare),
                    s.active[id := s.active[id].(phase := Queued)]);
    Queues(s, queued, id, spare);
    holding := Calls(KeyedLock.Acquired(queued.locks, id), queued.active);
    assert AcquireStep(queued, holding, id);
  }

  lemma Queues<P>(s: Calls<P>, queued: Calls<P>, id: TaskId, spare: nat)
    requires Inv(s) && Unhindered(s, id) && spare !in KeyedLock.Pruned(s.locks.arcs).refs
    requires queued.locks == KeyedLock.Entered(s.locks, id, s.active[id].req.key, spare)
    requires queued.active == s.active[id := s.active[id].(phase := Queued)]
    ensures LockStep(s, queued, id, spare) && KeyedLock.CanAcquire(queued.locks, id)
  {
    assert TicketOk(s, id);
    KeyedLock.CanTakeFreeKey(s.locks, id, s.active[id].req.key, spare);
  }
}

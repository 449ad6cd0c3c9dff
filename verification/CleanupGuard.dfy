/** The guard that remembers what a solver has put in place: it cleans up in
    order, and what a dropped solve leaves goes to a spawned task. */
module CleanupGuard {

  /** What is still in place, and the cleanups started and completed so far. */
  datatype Ledger<T> = Ledger(pending: seq<T>, started: seq<T>, finished: seq<T>)

  function Pushed<T>(g: Ledger<T>, item: T): Ledger<T> {
    g.(pending := g.pending + [item])
  }

  function Started<T>(g: Ledger<T>, item: T): Ledger<T> {
    g.(started := g.started + [item])
  }

  /** The first pending item leaves the list once its cleanup has completed. */
  function Finished<T>(g: Ledger<T>): Ledger<T>
    requires g.pending != []
  {
    g.(pending := g.pending[1..], finished := g.finished + [g.pending[0]])
  }

  function Min(a: nat, b: nat): nat {
    if a < b then a else b
  }

  /** The ledger when `items` are cleaned up one after the other and the task is
      cut off after `polls` of them. */
  ghost function Drained<T>(g: Ledger<T>, items: seq<T>, polls: nat): Ledger<T> {
    g.(started := g.started + items[..Min(polls + 1, |items|)],
       finished := g.finished + items[..Min(polls, |items|)])
  }

  class Guard<T(==)> {
    var pending: seq<T>
    ghost var started: seq<T>
    ghost var finished: seq<T>

    ghost function View(): Ledger<T>
      reads this
    {
      Ledger(pending, started, finished)
    }

    constructor ()
      ensures View() == Ledger([], [], [])
    {
      pending, started, finished := [], [], [];
    }

    method Push(item: T)
      modifies this
      ensures View() == Pushed(old(View()), item)
    {
      pending := pending + [item];
    }

    /** Cleans up every pending item, in order. `polls` is the number of
        cleanups that complete before the solve is dropped, if it is. */
    method Run(polls: nat) returns (completed: bool)
      modifies this
      ensures View() == Drained(old(View()), old(pending), polls).(
                pending := old(pending)[Min(polls, |old(pending)|)..])
      ensures completed <==> |old(pending)| <= polls
    {
      ghost var was := View();
      var n: nat := 0;
      while pending != []
        invariant n <= Min(polls, |was.pending|)
        invariant pending == was.pending[n..]
        invariant started == was.started + was.pending[..n] && finished == was.finished + was.pending[..n]
        decreases |pending|
      {
        var item := pending[0];
        started := started + [item];
        if n == polls {
          return false;
        }
        finished := finished + [item];
        pending := pending[1..];
        n := n + 1;
      }
      return true;
    }

    /** What is pending when the guard is dropped is cleaned up by a spawned
        task, if there is a runtime; `polls` is how far that task gets before
        the runtime shuts down. */
    method Drop(runtime: bool, polls: nat)
      modifies this
      ensures View() == if runtime
                        then Drained(old(View()), old(pending), polls).(pending := [])
                        else old(View())
    {
      if pending == [] || !runtime {
        return;
      }
      ghost var was := View();
      var items := pending;
      pending := [];
      var i := 0;
      while i < |items|
        invariant 0 <= i <= |items| && i <= polls
        invariant pending == [] && items == was.pending
        invariant started == was.started + items[..i] && finished == was.finished + items[..i]
      {
        started := started + [items[i]];
        if i == polls {
          return;
        }
        finished := finished + [items[i]];
        i := i + 1;
      }
    }
  }

  /** The drop's share of the items, in terms of all of them. */
  lemma LeftOver<T>(items: seq<T>, cut: nat, polls: nat)
    requires cut <= |items|
    ensures var left := items[cut..];
            var reached := cut + Min(polls, |left|);
            && items[..cut] + left[..reached - cut] == items[..reached]
            && left[..Min(polls + 1, |left|)] == items[cut..Min(reached + 1, |items|)]
  {
    var left := items[cut..];
    var n := Min(polls, |left|);
    assert items[..cut] + left[..n] == items[..cut + n];
    assert left[..Min(polls + 1, |left|)] == items[cut..Min(cut + n + 1, |items|)];
  }

  /** A whole life of the guard: items pushed, a run that may be cut anywhere,
      and the drop. The completed cleanups are always a prefix of the pushed
      items, in push order and once each, and all of them unless the drop task
      itself is cut short. At most the item in flight at the cut is started a
      second time, so the starts are two overlapping stretches of the pushes. */
  method Lifetime<T(==)>(items: seq<T>, runPolls: nat, runtime: bool, dropPolls: nat)
    returns (guard: Guard<T>, ghost cut: nat, ghost reached: nat)
    ensures cut == Min(runPolls, |items|) <= reached <= |items|
    ensures guard.finished == items[..reached]
    ensures guard.started == items[..Min(cut + 1, |items|)] + if runtime then items[cut..Min(reached + 1, |items|)]
        else []
    ensures reached == |items| <==> cut == |items| || (runtime && |items| <= cut + dropPolls)
  {
    guard := new Guard();
    for i := 0 to |items|
      invariant guard.View() == Ledger(items[..i], [], [])
    {
      guard.Push(items[i]);
    }
    assert items[..|items|] == items;
    var _ := guard.Run(runPolls);
    cut := Min(runPolls, |items|);
    ghost var left := items[cut..];
    assert guard.finished == items[..cut];
    guard.Drop(runtime, dropPolls);
    reached := if runtime then cut + Min(dropPolls, |left|) else cut;
    LeftOver(items, cut, dropPolls);
    assert items[..cut] + [] == items[..cut];
  }
}

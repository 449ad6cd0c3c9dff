/** What the one-record-per-value providers make of what they list: the records
    a call has seen on the pages it read, and whole listings of a zone that
    stays as it is meanwhile. */
module StableListing {
  import opened Prelude
  import opened RecordPerValue
  import Pages
  import L = LockedCalls
  import R = AtomicRecords

  // --- One page request -------------------------------------------------------------------

  /** The page a call requests next, counted from 1. */
  ghost function Requested(c: L.Call<Progress>): nat {
    var work := L.Work(c);
    if work.Some? && work.value.Listing? then work.value.read + 1 else 1
  }

  /** The records a call has found so far. */
  ghost function FoundBefore(c: L.Call<Progress>): set<RecordId> {
    var work := L.Work(c);
    if work.Some? && work.value.Listing? then set r | r in work.value.found else {}
  }

  /** What a call has found with its next page: the records of its value that
      stand on that page, and those found before. */
  ghost function Gathered(z: Zone, c: L.Call<Progress>): set<RecordId> {
    FoundBefore(c) + set r | r in PageOf(z, Requested(c)) && r in Matching(z, c.req.key, c.req.value)
  }

  /** The listing goes on while the zone reports more pages; then a cleanup has
      to delete exactly what was found, and a present creates a record exactly
      when nothing was. */
  ghost predicate GoesOn(z: Zone, c: L.Call<Progress>, p: Progress) {
    match p
    case Listing(read, ids, _) => Requested(c) < PagesOf(z) && read == Requested(c) && Holds(Gathered(z, c), ids)
    case Deleting(ids, _) => Requested(c) >= PagesOf(z) && c.req.op.Remove? && Holds(Gathered(z, c), ids)
    case Creating(_) => Requested(c) >= PagesOf(z) && c.req.op.Add? && Gathered(z, c) == {}
    case Unneeded => Requested(c) >= PagesOf(z) && c.req.op.Add? && Gathered(z, c) != {}
    case Done => false
  }

  ghost predicate Holds(found: set<RecordId>, ids: seq<RecordId>) {
    forall r :: r in found <==> r in ids
  }

  lemma GatheredAreFound(z: Zone, c: L.Call<Progress>)
    requires CanRead(L.Work(c))
    ensures Holds(Gathered(z, c), FoundAfter(z, c.req, L.Work(c)))
    ensures Gathered(z, c) == {} <==> FoundAfter(z, c.req, L.Work(c)) == []
  {
    HitsMembers(z, PageOf(z, Requested(c)), c.req.key, c.req.value);
    var ids := FoundAfter(z, c.req, L.Work(c));
    if ids != [] {
      assert ids[0] in Gathered(z, c);
    }
  }

  /** A page request finds what stands on that page, and changes nothing but
      the progress of its own call. */
  lemma PageStepCollects(s: State, s': State, id: TaskId) returns (p: Progress)
    requires PageStep(s, s', id)
    ensures s' == Advanced(s, id, p) && GoesOn(s.zone, s.calls.active[id], p)
  {
    var c := s.calls.active[id];
    GatheredAreFound(s.zone, c);
    p := AfterPage(s.zone, c.req, L.Work(c));
  }

  /** A call at work can request a page exactly as long as it has not finished
      its listing and has read fewer than a hundred. */
  lemma UpToAHundredPages(s: State, id: TaskId)
    requires L.CanWork(s.calls, id)
    ensures (exists s' :: PageStep(s, s', id)) <==>
            var work := L.Work(s.calls.active[id]); work.None? || (work.value.Listing? && work.value.read < 100)
  {
    var work := L.Work(s.calls.active[id]);
    if CanRead(work) {
      assert PageStep(s, Advanced(s, id, AfterPage(s.zone, s.calls.active[id].req, work)), id);
    }
  }

  // --- What a step means for one call -----------------------------------------------------

  ghost predicate Creates(s: State, s': State, id: TaskId) {
    exists r, at :: CreateStep(s, s', id, r, at)
  }

  ghost predicate Deletes(s: State, s': State, id: TaskId) {
    exists p, answered :: DeleteStep(s, s', id, p, answered)
  }

  /** Not a step of call `id`: its progress stays, and so do the records of its
      name once it has the lock. */
  ghost predicate Undisturbed(s: State, s': State, id: TaskId)
    requires id in s.calls.active && id in s'.calls.active
  {
    && L.Work(s'.calls.active[id]) == L.Work(s.calls.active[id])
    && s.zone.used <= s'.zone.used
    && (L.Work(s.calls.active[id]).Some? ==>
          var req := s.calls.active[id].req;
          Matching(s'.zone, req.key, req.value) == Matching(s.zone, req.key, req.value))
    && (forall r | r in s.zone.used && r !in s.zone.records :: r !in s'.zone.records)
  }

  lemma OthersWork(s: State, s': State, t: TaskId, p: Progress, id: TaskId)
    requires Inv(s) && L.CanWork(s.calls, t) && WorkedOn(s.zone, s'.zone, s.calls.active[t].req.key)
    requires s' == Advanced(s, t, p).(zone := s'.zone) && id in s.calls.active && id != t
    ensures Undisturbed(s, s', id)
  {
    if s.calls.active[id].req.key == s.calls.active[t].req.key {
      L.HolderIsAlone(s.calls, t, id);
    }
  }

  lemma OtherLooks(s: State, s': State, t: TaskId, p: Progress, id: TaskId)
    requires t in s.calls.active && s' == Advanced(s, t, p) && id in s.calls.active && id != t
    ensures Undisturbed(s, s', id)
  {
  }

  lemma OtherCreates(s: State, s': State, t: TaskId, r: RecordId, at: nat, id: TaskId)
    requires Inv(s) && CreateStep(s, s', t, r, at) && id in s.calls.active && id != t
    ensures Undisturbed(s, s', id)
  {
    var req := s.calls.active[t].req;
    assert L.TicketOk(s.calls, t);
    CreatedIsOk(s.zone, r, req.key, req.value, at);
    OtherNames(s.zone, s'.zone, req.key);
    OthersWork(s, s', t, Done, id);
  }

  lemma OtherDeletes(s: State, s': State, t: TaskId, p: Progress, answered: bool, id: TaskId)
    requires Inv(s) && DeleteStep(s, s', t, p, answered) && id in s.calls.active && id != t
    ensures Undisturbed(s, s', id)
  {
    assert L.TicketOk(s.calls, t) && CallOk(s, t);
    DeletedIsOk(s.zone, p.todo[0]);
    OtherNames(s.zone, s'.zone, s.calls.active[t].req.key);
    OthersWork(s, s', t, if answered then Deleting(p.todo[1..], p.sure) else p, id);
  }

  /** A step of call `id`, or one that leaves it undisturbed. */
  ghost predicate ForCall(s: State, s': State, id: TaskId) {
    && id in s.calls.active && id in s'.calls.active && s'.calls.active[id].req == s.calls.active[id].req
    && (PageStep(s, s', id) || Creates(s, s', id) || ExistsStep(s, s', id) || Deletes(s, s', id) ||
        Undisturbed(s, s', id))
  }

  lemma WaitOnCall(s: State, s': State, id: TaskId)
    requires Inv(s) && L.WaitStep(s.calls, s'.calls) && s'.zone == s.zone && id in s.calls.active
    ensures ForCall(s, s', id)
  {
    L.WaitKeepsInv(s.calls, s'.calls);
  }

  lemma LookOnCall(s: State, s': State, t: TaskId, id: TaskId)
    requires (PageStep(s, s', t) || ExistsStep(s, s', t)) && id in s.calls.active
    ensures ForCall(s, s', id)
  {
    if t != id && PageStep(s, s', t) {
      OtherLooks(s, s', t, AfterPage(s.zone, s.calls.active[t].req, L.Work(s.calls.active[t])), id);
    } else if t != id {
      OtherLooks(s, s', t, Done, id);
    }
  }

  lemma CreateOnCall(s: State, s': State, t: TaskId, r: RecordId, at: nat, id: TaskId)
    requires Inv(s) && CreateStep(s, s', t, r, at) && id in s.calls.active
    ensures ForCall(s, s', id)
  {
    if t != id {
      OtherCreates(s, s', t, r, at, id);
    }
  }

  lemma DeleteOnCall(s: State, s': State, t: TaskId, p: Progress, answered: bool, id: TaskId)
    requires Inv(s) && DeleteStep(s, s', t, p, answered) && id in s.calls.active
    ensures ForCall(s, s', id)
  {
    if t != id {
      OtherDeletes(s, s', t, p, answered, id);
    }
  }

  lemma InternalOnCall(s: State, s': State, id: TaskId)
    requires Inv(s) && Step(s, R.Internal, s') && id in s.calls.active
    ensures ForCall(s, s', id)
  {
    if L.WaitStep(s.calls, s'.calls) && s'.zone == s.zone {
      WaitOnCall(s, s', id);
    } else if t :| PageStep(s, s', t) {
      LookOnCall(s, s', t, id);
    } else if t, r, at :| CreateStep(s, s', t, r, at) {
      CreateOnCall(s, s', t, r, at, id);
    } else if t :| ExistsStep(s, s', t) {
      LookOnCall(s, s', t, id);
    } else {
      var t, p, answered :| DeleteStep(s, s', t, p, answered);
      DeleteOnCall(s, s', t, p, answered, id);
    }
  }

  lemma StepOnCall(s: State, e: R.Event, s': State, id: TaskId)
    requires Inv(s) && Step(s, e, s') && id in s.calls.active && id in s'.calls.active
    ensures ForCall(s, s', id)
  {
    if e.Internal? {
      InternalOnCall(s, s', id);
    }
  }

  // --- Records seen -----------------------------------------------------------------------

  /** Call `id` has taken note of record `r`. */
  ghost predicate HasSeen(s: State, id: TaskId, r: RecordId) {
    && id in s.calls.active && L.Work(s.calls.active[id]).Some? && r in s.zone.used
    && match L.Work(s.calls.active[id]).value
       case Listing(_, found, _) => r in found
       case Deleting(todo, _) => r in todo || r !in s.zone.records
       case Unneeded => true
       case _ => false
  }

  /** A record of the value stands on the page that is requested. */
  ghost predicate Sees(s: State, s': State, id: TaskId, r: RecordId) {
    && PageStep(s, s', id)
    && var c := s.calls.active[id];
       r in PageOf(s.zone, Requested(c)) && r in Matching(s.zone, c.req.key, c.req.value)
  }

  lemma SeenOnThePage(s: State, s': State, id: TaskId, r: RecordId)
    requires Inv(s) && Sees(s, s', id, r)
    ensures HasSeen(s', id, r)
  {
    var p := PageStepCollects(s, s', id);
    assert r in Gathered(s.zone, s.calls.active[id]);
  }

  lemma SeenStaysOnPage(s: State, s': State, id: TaskId, r: RecordId)
    requires PageStep(s, s', id) && HasSeen(s, id, r)
    ensures HasSeen(s', id, r)
  {
    var p := PageStepCollects(s, s', id);
    assert r in Gathered(s.zone, s.calls.active[id]);
  }

  lemma SeenStaysOnDelete(s: State, s': State, id: TaskId, p: Progress, answered: bool, r: RecordId)
    requires DeleteStep(s, s', id, p, answered) && HasSeen(s, id, r)
    ensures HasSeen(s', id, r)
  {
    assert p.todo == [p.todo[0]] + p.todo[1..];
  }

  lemma SeenStaysSeen(s: State, e: R.Event, s': State, id: TaskId, r: RecordId)
    requires Inv(s) && Step(s, e, s') && HasSeen(s, id, r) && id in s'.calls.active
    ensures HasSeen(s', id, r)
  {
    StepOnCall(s, e, s', id);
    if PageStep(s, s', id) {
      SeenStaysOnPage(s, s', id, r);
    } else if p, answered :| DeleteStep(s, s', id, p, answered) {
      SeenStaysOnDelete(s, s', id, p, answered, r);
    }
  }

  /** Call `id` goes on from state `b` to state `i`. */
  ghost predicate Lasts(run: seq<State>, id: TaskId, b: nat, i: nat) {
    b <= i < |run| && ActiveAt(run, b, id) && ActiveAt(run, i, id) && forall k | b <= k <= i :: ActiveAt(run, k, id)
  }

  ghost predicate ActiveAt(run: seq<State>, k: int, id: TaskId) {
    0 <= k < |run| && id in run[k].calls.active
  }

  /** Page request `j` of a run is one of call `id` that finds `r` on the page. */
  ghost predicate SeesAt(run: seq<State>, j: nat, id: TaskId, r: RecordId) {
    j + 1 < |run| && Sees(run[j], run[j + 1], id, r)
  }

  lemma SeenNext(run: seq<State>, events: seq<R.Event>, k: nat, id: TaskId, r: RecordId)
    requires IsRun(run, events) && k < |events| && ActiveAt(run, k + 1, id)
    requires SeesAt(run, k, id, r) || HasSeen(run[k], id, r)
    ensures HasSeen(run[k + 1], id, r)
  {
    RunKeepsInv(run, events, k);
    if SeesAt(run, k, id, r) {
      SeenOnThePage(run[k], run[k + 1], id, r);
    } else {
      SeenStaysSeen(run[k], events[k], run[k + 1], id, r);
    }
  }

  ghost predicate NotesAt(run: seq<State>, k: nat, id: TaskId, r: RecordId) {
    k + 1 < |run| && (SeesAt(run, k, id, r) || HasSeen(run[k], id, r) ==> HasSeen(run[k + 1], id, r))
  }

  lemma {:induction false} SeenSince(run: seq<State>, j: nat, i: nat, id: TaskId, r: RecordId)
    requires j < i < |run| && SeesAt(run, j, id, r) && forall k: nat | j <= k < i :: NotesAt(run, k, id, r)
    ensures HasSeen(run[i], id, r)
  {
    assert NotesAt(run, i - 1, id, r);
    if i - 1 > j {
      SeenSince(run, j, i - 1, id, r);
    }
  }

  /** Whatever goes on beside it: a record of the value that stood on a page when
      call `id` requested it keeps the call from creating another, and is gone
      when a cleanup returns Ok. */
  lemma SeenIsHandled(run: seq<State>, events: seq<R.Event>, j: nat, i: nat, id: TaskId, r: RecordId)
    requires IsRun(run, events) && j < i < |events| && Lasts(run, id, j, i) && SeesAt(run, j, id, r)
    ensures !Creates(run[i], run[i + 1], id)
    ensures events[i] == R.Return(id, true) && run[i].calls.active[id].req.op.Remove? ==> r !in run[i + 1].zone.records
  {
    forall k: nat | j <= k < i ensures NotesAt(run, k, id, r) {
      assert ActiveAt(run, k + 1, id);
      if SeesAt(run, k, id, r) || HasSeen(run[k], id, r) {
        SeenNext(run, events, k, id, r);
      }
    }
    SeenSince(run, j, i, id, r);
    RunKeepsInv(run, events, i);
    assert Step(run[i], events[i], run[i + 1]);
    assert CallOk(run[i], id);
  }

  // --- A zone that stays as it is -----------------------------------------------------------

  ghost predicate SameListing(z: Zone, w: Zone) {
    z.kind == w.kind && z.size == w.size && z.order == w.order && z.records == w.records
  }

  /** On one of the first `n` pages. */
  ghost predicate WithinPages(z: Zone, n: nat, r: RecordId) {
    n >= 1 && (r in PageOf(z, n) || WithinPages(z, n - 1, r))
  }

  lemma {:induction false} FirstPagesHold(z: Zone, n: nat, r: RecordId)
    requires z.kind.Infomaniak? && r in Pages.FirstPages(z.order, z.size, n)
    ensures WithinPages(z, n, r)
  {
    Pages.PagesAppend(z.order, z.size, n);
    if r !in Pages.PageAt(z.order, z.size, n) {
      FirstPagesHold(z, n - 1, r);
    }
  }

  /** As many pages as reported hold every record. */
  lemma {:induction false} PagesHoldAll(z: Zone, n: nat, r: RecordId)
    requires n >= 1 && n >= PagesOf(z) && r in z.order
    ensures WithinPages(z, n, r)
  {
    if z.kind.Infomaniak? {
      Pages.LastPageEnds(z.order, z.size, n);
      assert Pages.FirstPages(z.order, z.size, n) == z.order;
      FirstPagesHold(z, n, r);
    } else if n > 1 {
      PagesHoldAll(z, n - 1, r);
    }
  }

  /** Everything of the value on the first `n` pages is in `found`. */
  ghost predicate FoundWithin(z: Zone, req: R.Request, n: nat, found: set<RecordId>) {
    forall r | r in Matching(z, req.key, req.value) && WithinPages(z, n, r) :: r in found
  }

  /** Call `id` has found all of its value that stands on the pages of `z` it
      has read, and has the whole of it once its listing is over. */
  ghost predicate Tracks(s: State, id: TaskId, z: Zone)
    requires id in s.calls.active
  {
    L.Work(s.calls.active[id]).Some? ==>
      var req := s.calls.active[id].req;
      var all := Matching(s.zone, req.key, req.value);
      match L.Work(s.calls.active[id]).value
      case Listing(read, found, _) =>
        all == Matching(z, req.key, req.value) && FoundWithin(z, req, read, set r | r in found)
      case Deleting(todo, _) => forall r | r in all :: r in todo
      case Creating(_) => all == {}
      case _ => true
  }

  lemma GatheredWithin(z: Zone, c: L.Call<Progress>, r: RecordId)
    requires r in Matching(z, c.req.key, c.req.value) && WithinPages(z, Requested(c), r)
    requires WithinPages(z, Requested(c) - 1, r) ==> r in FoundBefore(c)
    ensures r in Gathered(z, c)
  {
  }

  lemma GathersAll(z: Zone, c: L.Call<Progress>)
    requires forall r | r in z.records :: r in z.order
    requires FoundWithin(z, c.req, Requested(c) - 1, FoundBefore(c))
    ensures FoundWithin(z, c.req, Requested(c), Gathered(z, c))
    ensures Requested(c) >= PagesOf(z) ==> Matching(z, c.req.key, c.req.value) <= Gathered(z, c)
  {
    forall r | r in Matching(z, c.req.key, c.req.value) && WithinPages(z, Requested(c), r)
      ensures r in Gathered(z, c)
    {
      GatheredWithin(z, c, r);
    }
    if Requested(c) >= PagesOf(z) {
      forall r | r in Matching(z, c.req.key, c.req.value) ensures r in Gathered(z, c) {
        PagesHoldAll(z, Requested(c), r);
      }
    }
  }

  lemma TracksBefore(s: State, id: TaskId, z: Zone)
    requires id in s.calls.active && CanRead(L.Work(s.calls.active[id])) && Tracks(s, id, z)
    ensures var c := s.calls.active[id]; FoundWithin(z, c.req, Requested(c) - 1, FoundBefore(c))
  {
  }

  lemma TracksAfter(s: State, id: TaskId, z: Zone, p: Progress)
    requires id in s.calls.active && GoesOn(z, s.calls.active[id], p)
    requires var req := s.calls.active[id].req;
             Matching(s.zone, req.key, req.value) == Matching(z, req.key, req.value)
    requires var c := s.calls.active[id];
             && FoundWithin(z, c.req, Requested(c), Gathered(z, c))
             && (Requested(c) >= PagesOf(z) ==> Matching(z, c.req.key, c.req.value) <= Gathered(z, c))
    ensures Tracks(Advanced(s, id, p), id, z)
  {
  }

  lemma PageTracks(s: State, id: TaskId, p: Progress, z: Zone)
    requires id in s.calls.active && CanRead(L.Work(s.calls.active[id])) && Tracks(s, id, z)
    requires GoesOn(s.zone, s.calls.active[id], p) && SameListing(s.zone, z)
    requires forall r | r in z.records :: r in z.order
    ensures Tracks(Advanced(s, id, p), id, z)
  {
    var c := s.calls.active[id];
    SameListingReads(s.zone, z, c, p);
    TracksBefore(s, id, z);
    GathersAll(z, c);
    TracksAfter(s, id, z, p);
  }

  lemma SameListingReads(w: Zone, z: Zone, c: L.Call<Progress>, p: Progress)
    requires SameListing(w, z)
    ensures PagesOf(w) == PagesOf(z) && Gathered(w, c) == Gathered(z, c)
    ensures GoesOn(w, c, p) <==> GoesOn(z, c, p)
    ensures Matching(w, c.req.key, c.req.value) == Matching(z, c.req.key, c.req.value)
  {
  }

  lemma DeleteTracks(s: State, s': State, id: TaskId, p: Progress, answered: bool, z: Zone)
    requires DeleteStep(s, s', id, p, answered) && Tracks(s, id, z)
    ensures Tracks(s', id, z)
  {
    var req := s.calls.active[id].req;
    DeletedMatching(s.zone, p.todo[0], req.key, req.value);
    assert p.todo == [p.todo[0]] + p.todo[1..];
  }

  lemma OthersTrack(s: State, s': State, id: TaskId, z: Zone)
    requires id in s.calls.active && id in s'.calls.active && s'.calls.active[id].req == s.calls.active[id].req
    requires Undisturbed(s, s', id) && Tracks(s, id, z)
    ensures Tracks(s', id, z)
  {
  }

  lemma StepTracks(s: State, e: R.Event, s': State, id: TaskId, z: Zone)
    requires Inv(s) && Step(s, e, s') && id in s.calls.active && id in s'.calls.active && Tracks(s, id, z)
    requires PageStep(s, s', id) ==> SameListing(s.zone, z)
    ensures Tracks(s', id, z)
  {
    StepOnCall(s, e, s', id);
    if Undisturbed(s, s', id) {
      OthersTrack(s, s', id, z);
    } else if PageStep(s, s', id) {
      var p := PageStepCollects(s, s', id);
      PageTracks(s, id, p, z);
    } else if p, answered :| DeleteStep(s, s', id, p, answered) {
      DeleteTracks(s, s', id, p, answered, z);
    }
  }

  /** The zone is `z` whenever call `id`, begun by state `b`, requests a page. */
  ghost predicate ListsThroughout(run: seq<State>, id: TaskId, b: nat, i: nat, z: Zone) {
    && Lasts(run, id, b, i) && L.Work(run[b].calls.active[id]).None?
    && forall k: nat | b <= k < i :: PageFrom(run, k, id, z)
  }

  ghost predicate PageFrom(run: seq<State>, k: nat, id: TaskId, z: Zone) {
    k + 1 < |run| && (PageStep(run[k], run[k + 1], id) ==> SameListing(run[k].zone, z))
  }

  lemma {:induction false} TracksThroughout(run: seq<State>, events: seq<R.Event>, b: nat, i: nat, id: TaskId, z: Zone)
    requires IsRun(run, events) && ListsThroughout(run, id, b, i, z)
    ensures id in run[i].calls.active && Tracks(run[i], id, z)
  {
    assert ActiveAt(run, i, id);
    if i > b {
      assert ActiveAt(run, i - 1, id);
      TracksThroughout(run, events, b, i - 1, id, z);
      RunKeepsInv(run, events, i - 1);
      assert PageFrom(run, i - 1, id, z);
      assert Step(run[i - 1], events[i - 1], run[i]);
      StepTracks(run[i - 1], events[i - 1], run[i], id, z);
    }
  }

  /** A call that lists a zone which stays as it is meanwhile, over however many
      pages, misses nothing: a cleanup that returns Ok leaves no record of its
      value, and a present creates one only when there is none. */
  lemma StableListingMissesNothing(run: seq<State>, events: seq<R.Event>, b: nat, i: nat, id: TaskId, z: Zone)
    requires IsRun(run, events) && i < |events| && ListsThroughout(run, id, b, i, z)
    ensures ActiveAt(run, i, id)
    ensures var req := run[i].calls.active[id].req;
            && (events[i] == R.Return(id, true) && req.op.Remove? ==>
                  Matching(run[i + 1].zone, req.key, req.value) == {})
            && (IsCreating(L.Work(run[i].calls.active[id])) ==> Matching(run[i].zone, req.key, req.value) == {})
  {
    TracksThroughout(run, events, b, i, id, z);
    RunKeepsInv(run, events, i);
    assert Step(run[i], events[i], run[i + 1]);
    assert CallOk(run[i], id);
  }
}

/** Providers that keep one record per value: Infomaniak and Bunny list the
    records of a name under the keyed lock, create one when the value is not
    there, and delete every record that holds it. Bunny lists a zone in one
    request; Infomaniak reads it page by page, while calls for other names of
    the zone go on. */
module RecordPerValue {
  import opened Prelude
  import opened TxtValues
  import Pages
  import L = LockedCalls
  import R = AtomicRecords

  type TaskId = nat
  type RecordId = nat
  type Size = n: nat | 0 < n witness 1

  const MAX_PAGES: nat := 100

  datatype Kind = Infomaniak | Bunny

  /** A TXT record of the name `key`. */
  datatype Record = Record(key: string, target: string)

  /** `order` is the order in which the records are listed, `size` the number of
      records on a page. Record ids are never given out twice: `used` are all
      the ones so far. */
  datatype Zone = Zone(kind: Kind, size: Size, order: seq<RecordId>, records: map<RecordId, Record>,
                       used: set<RecordId>)

  ghost predicate ZoneOk(z: Zone) {
    z.records.Keys <= z.used && forall r :: r in z.order <==> r in z.records
  }

  function ValueOf(kind: Kind, r: Record): string {
    match kind
    case Infomaniak => Unquote(r.target)
    case Bunny => UnquoteAll(r.target)
  }

  /** The records of a name that hold a value. */
  function Matching(z: Zone, key: string, v: string): set<RecordId> {
    set r | r in z.records && z.records[r].key == key && ValueOf(z.kind, z.records[r]) == v
  }

  function ValuesAt(z: Zone, key: string): set<string> {
    set r | r in z.records && z.records[r].key == key :: ValueOf(z.kind, z.records[r])
  }

  /** `create_record` sends the bare value; the server lists the new record
      wherever it likes. */
  function Created(z: Zone, r: RecordId, key: string, v: string, at: nat): Zone
    requires at <= |z.order|
  {
    z.(order := z.order[..at] + [r] + z.order[at..], records := z.records[r := Record(key, v)], used := z.used + {r})
  }

  function Without(order: seq<RecordId>, r: RecordId): seq<RecordId> {
    if order == [] then [] else (if order[0] == r then [] else [order[0]]) + Without(order[1..], r)
  }

  function Deleted(z: Zone, r: RecordId): Zone {
    z.(order := Without(z.order, r), records := z.records - {r})
  }

  lemma {:induction false} WithoutMembers(order: seq<RecordId>, r: RecordId)
    ensures forall q :: q in Without(order, r) <==> q in order && q != r
  {
    if order != [] {
      WithoutMembers(order[1..], r);
      assert order == [order[0]] + order[1..];
    }
  }

  lemma CreatedIsOk(z: Zone, r: RecordId, key: string, v: string, at: nat)
    requires ZoneOk(z) && at <= |z.order|
    ensures ZoneOk(Created(z, r, key, v, at))
  {
    assert z.order == z.order[..at] + z.order[at..];
  }

  lemma DeletedIsOk(z: Zone, r: RecordId)
    requires ZoneOk(z)
    ensures ZoneOk(Deleted(z, r))
  {
    WithoutMembers(z.order, r);
  }

  lemma CreatedValues(z: Zone, r: RecordId, key: string, v: string, at: nat)
    requires r !in z.records && ValidAcmeValue(v) && at <= |z.order|
    ensures Matching(Created(z, r, key, v, at), key, v) == Matching(z, key, v) + {r}
    ensures forall k :: ValuesAt(Created(z, r, key, v, at), k) == if k == key then ValuesAt(z, key) + {v}
        else ValuesAt(z, k)
  {
    ValidValueReadsBack(v);
    var z' := Created(z, r, key, v, at);
    assert z'.records[r].key == key && ValueOf(z'.kind, z'.records[r]) == v;
    forall k, x | x in ValuesAt(z, k) ensures x in ValuesAt(z', k) {
      var q :| q in z.records && z.records[q].key == k && ValueOf(z.kind, z.records[q]) == x;
      assert z'.records[q] == z.records[q];
    }
  }

  /** Deleting a record takes its value out of the set exactly when it was the
      last one to hold it. */
  lemma DeletedValues(z: Zone, r: RecordId, key: string, v: string)
    requires r in Matching(z, key, v)
    ensures Matching(Deleted(z, r), key, v) == Matching(z, key, v) - {r}
    ensures forall k :: ValuesAt(Deleted(z, r), k) ==
              if k == key && Matching(Deleted(z, r), key, v) == {} then ValuesAt(z, k) - {v} else ValuesAt(z, k)
  {
    var z' := Deleted(z, r);
    assert Matching(z', key, v) == Matching(z, key, v) - {r};
    forall k, x | x in ValuesAt(z, k) && !(k == key && x == v) ensures x in ValuesAt(z', k) {
      var q :| q in z.records && z.records[q].key == k && ValueOf(z.kind, z.records[q]) == x;
      assert q in z'.records;
    }
    if q :| q in Matching(z', key, v) {
      assert v in ValuesAt(z', key);
    }
  }

  lemma ValueHasRecord(z: Zone, key: string, v: string)
    ensures v in ValuesAt(z, key) <==> Matching(z, key, v) != {}
  {
    if v in ValuesAt(z, key) {
      var r :| r in z.records && z.records[r].key == key && ValueOf(z.kind, z.records[r]) == v;
      assert r in Matching(z, key, v);
    } else if r :| r in Matching(z, key, v) {
    }
  }

  /** Another name's records are not touched. */
  lemma OtherNames(z: Zone, z': Zone, key: string)
    requires z'.kind == z.kind
    requires forall r :: (r in z'.records && z'.records[r].key != key) <==> (r in z.records && z.records[r].key != key)
    requires forall r | r in z'.records && z'.records[r].key != key :: z'.records[r] == z.records[r]
    ensures forall k, v | k != key :: Matching(z', k, v) == Matching(z, k, v)
  {
  }

  // --- Pages ----------------------------------------------------------------------

  /** What request `n` of a listing answers. */
  function PageOf(z: Zone, n: nat): seq<RecordId>
    requires n >= 1
  {
    match z.kind
    case Infomaniak => Pages.PageAt(z.order, z.size, n)
    case Bunny => if n == 1 then z.order else []
  }

  /** How many pages a request reports. */
  function PagesOf(z: Zone): nat {
    if z.kind.Bunny? then 1 else Pages.PageCount(z.order, z.size)
  }

  /** Those of the listed records that are of the name and hold the value. */
  function Hits(z: Zone, ids: seq<RecordId>, key: string, v: string): seq<RecordId> {
    if ids == [] then [] else (if ids[0] in Matching(z, key, v) then [ids[0]] else []) + Hits(z, ids[1..], key, v)
  }

  lemma {:induction false} HitsMembers(z: Zone, ids: seq<RecordId>, key: string, v: string)
    ensures forall r :: r in Hits(z, ids, key, v) <==> r in ids && r in Matching(z, key, v)
  {
    if ids != [] {
      HitsMembers(z, ids[1..], key, v);
      assert ids == [ids[0]] + ids[1..];
    }
  }

  /** Every record of the value stands on the first page. */
  ghost predicate OnFirstPage(z: Zone, key: string, v: string) {
    forall r | r in Matching(z, key, v) :: r in PageOf(z, 1)
  }

  /** The zone is listed in one request. */
  predicate OnePage(z: Zone) {
    z.kind.Bunny? || |z.order| <= z.size
  }

  lemma OnePageHoldsAll(z: Zone, key: string, v: string)
    requires ZoneOk(z) && OnePage(z)
    ensures OnFirstPage(z, key, v)
  {
    Pages.FirstPage(z.order, z.size);
  }

  // --- Concurrent calls ---------------------------------------------------------

  /** `read` pages have been read and the records `found` on them; `sure` says
      whether every record of the value stood on the first page when that was
      requested. */
  datatype Progress =
    | Listing(read: nat, found: seq<RecordId>, sure: bool)
    | Unneeded
    | Creating(sure: bool)
    | Done
    | Deleting(todo: seq<RecordId>, sure: bool)

  datatype State = State(calls: L.Calls<Progress>, zone: Zone)

  function Advanced(s: State, id: TaskId, p: Progress): State
    requires id in s.calls.active
  {
    s.(calls := L.Advanced(s.calls, id, p))
  }

  /** A call that has read a hundred pages can only fail. */
  predicate CanRead(work: Option<Progress>) {
    work.None? || (work.value.Listing? && work.value.read < MAX_PAGES)
  }

  /** The page a call requests next. */
  function NextPage(work: Option<Progress>): nat
    requires CanRead(work)
  {
    if work.None? then 1 else work.value.read + 1
  }

  function FoundAfter(z: Zone, req: R.Request, work: Option<Progress>): seq<RecordId>
    requires CanRead(work)
  {
    (if work.None? then [] else work.value.found) + Hits(z, PageOf(z, NextPage(work)), req.key, req.value)
  }

  ghost predicate SureAfter(z: Zone, req: R.Request, work: Option<Progress>)
    requires CanRead(work)
  {
    if work.None? then OnFirstPage(z, req.key, req.value) else work.value.sure
  }

  /** Where a call stands after its next page request. */
  ghost function AfterPage(z: Zone, req: R.Request, work: Option<Progress>): Progress
    requires CanRead(work)
  {
    var n, found, sure := NextPage(work), FoundAfter(z, req, work), SureAfter(z, req, work);
    if n < PagesOf(z) then Listing(n, found, sure)
    else if req.op.Remove? then Deleting(found, sure)
    else if found == [] then Creating(sure)
    else Unneeded
  }

  ghost predicate PageStep(s: State, s': State, id: TaskId) {
    && L.CanWork(s.calls, id) && CanRead(L.Work(s.calls.active[id]))
    && s' == Advanced(s, id, AfterPage(s.zone, s.calls.active[id].req, L.Work(s.calls.active[id])))
  }

  predicate IsCreating(work: Option<Progress>) {
    work.Some? && work.value.Creating?
  }

  /** The server adds a record. Bunny's request is a PUT, which the HTTP retry
      may replay after a 503 that was in fact processed. */
  ghost predicate CreateStep(s: State, s': State, id: TaskId, r: RecordId, at: nat) {
    && id in s.calls.active && r !in s.zone.used && at <= |s.zone.order|
    && (|| IsCreating(L.Work(s.calls.active[id]))
        || (s.zone.kind.Bunny? && L.Work(s.calls.active[id]) == Some(Done)))
    && var req := s.calls.active[id].req;
       s' == Advanced(s, id, Done).(zone := Created(s.zone, r, req.key, req.value, at))
  }

  /** Infomaniak may answer that the record exists, which counts as success. */
  ghost predicate ExistsStep(s: State, s': State, id: TaskId) {
    && id in s.calls.active && s.zone.kind.Infomaniak? && IsCreating(L.Work(s.calls.active[id]))
    && Matching(s.zone, s.calls.active[id].req.key, s.calls.active[id].req.value) != {}
    && s' == Advanced(s, id, Done)
  }

  /** The server deletes the next listed record; a replayed DELETE finds it
      gone. `answered` says whether the loop moves on. */
  ghost predicate DeleteStep(s: State, s': State, id: TaskId, p: Progress, answered: bool) {
    && id in s.calls.active && L.Work(s.calls.active[id]) == Some(p) && p.Deleting? && p.todo != []
    && s' == Advanced(s, id, if answered then Deleting(p.todo[1..], p.sure) else p).(zone := Deleted(s.zone, p.todo[0]))
  }

  predicate CanSucceed(work: Option<Progress>) {
    work.Some? && (work.value.Unneeded? || work.value.Done? || (work.value.Deleting? && work.value.todo == []))
  }

  ghost predicate Step(s: State, e: R.Event, s': State) {
    match e
    case Begin(id, req) => id !in s.calls.active && s' == s.(calls := L.Began(s.calls, id, req))
    case Return(id, ok) =>
      && id in s.calls.active && (ok ==> CanSucceed(L.Work(s.calls.active[id])))
      && s' == s.(calls := L.Ended(s.calls, id))
    case Cancel(id) => id in s.calls.active && s' == s.(calls := L.Ended(s.calls, id))
    case Foreign(_, _) => false
    case Internal =>
      || (L.WaitStep(s.calls, s'.calls) && s'.zone == s.zone)
      || (exists id :: PageStep(s, s', id))
      || (exists id, r, at :: CreateStep(s, s', id, r, at))
      || (exists id :: ExistsStep(s, s', id))
      || (exists id, p, answered :: DeleteStep(s, s', id, p, answered))
  }

  ghost predicate Init(s: State) {
    L.Init(s.calls) && ZoneOk(s.zone)
  }

  ghost predicate IsRun(run: seq<State>, events: seq<R.Event>) {
    && |run| == |events| + 1 && Init(run[0])
    && forall i | 0 <= i < |events| :: Step(run[i], events[i], run[i + 1])
  }

  // --- Refinement ---------------------------------------------------------------

  ghost predicate Applied(z: Zone, req: R.Request, work: Option<Progress>) {
    && work.Some?
    && match work.value
       case Unneeded => true
       case Done => true
       case Deleting(_, _) => Matching(z, req.key, req.value) == {}
       case _ => false
  }

  ghost function Names(z: Zone): set<string> {
    set r | r in z.records :: z.records[r].key
  }

  ghost function AbsCalls(s: State): map<TaskId, R.Call> {
    map t | t in s.calls.active ::
      R.Call(s.calls.active[t].req, Applied(s.zone, s.calls.active[t].req, L.Work(s.calls.active[t])))
  }

  ghost function Abs(s: State): R.Records {
    R.Records(map k | k in Names(s.zone) :: ValuesAt(s.zone, k), AbsCalls(s))
  }

  /** What a call's progress says about the records of its name. What a listing
      has found is there; it has found all when it is sure. */
  ghost predicate Knows(z: Zone, req: R.Request, work: Option<Progress>) {
    work.Some? ==>
      var all := Matching(z, req.key, req.value);
      match work.value
      case Listing(read, found, sure) =>
        read >= 1 && (forall r | r in found :: r in all) && (sure ==> forall r | r in all :: r in found)
      case Unneeded => req.op.Add?
      case Creating(sure) => req.op.Add? && (sure ==> all == {})
      case Done => req.op.Add? && all != {}
      case Deleting(todo, sure) =>
        && req.op.Remove?
        && (sure ==> forall r | r in all :: r in todo)
        && (forall r | r in todo :: r in z.used && (r in z.records ==> r in all))
  }

  ghost predicate CallOk(s: State, t: TaskId)
    requires t in s.calls.active
  {
    Knows(s.zone, s.calls.active[t].req, L.Work(s.calls.active[t]))
  }

  ghost predicate Inv(s: State) {
    L.Inv(s.calls) && ZoneOk(s.zone) && forall t | t in s.calls.active :: CallOk(s, t)
  }

  lemma AbsAt(s: State, k: string)
    ensures R.At(Abs(s).sets, k) == ValuesAt(s.zone, k)
  {
  }

  /** `z` is the zone after work on the name `key` alone. */
  ghost predicate WorkedOn(z0: Zone, z: Zone, key: string) {
    && z.kind == z0.kind && ZoneOk(z) && z0.used <= z.used
    && (forall r | r in z.records :: r in z0.records || r !in z0.used)
    && (forall k, v | k != key :: Matching(z, k, v) == Matching(z0, k, v))
  }

  lemma OthersKnowTheSame(z0: Zone, z: Zone, key: string, req: R.Request, work: Option<Progress>)
    requires WorkedOn(z0, z, key) && Knows(z0, req, work) && (work.None? || req.key != key)
    ensures Knows(z, req, work) && Applied(z, req, work) == Applied(z0, req, work)
  {
    if work.Some? {
      assert Matching(z, req.key, req.value) == Matching(z0, req.key, req.value);
    }
  }

  lemma OthersUntouched(s: State, id: TaskId, z: Zone, t: TaskId)
    requires Inv(s) && L.CanWork(s.calls, id) && WorkedOn(s.zone, z, s.calls.active[id].req.key)
    requires t in s.calls.active && t != id
    ensures var c := s.calls.active[t];
            Knows(z, c.req, L.Work(c)) && Applied(z, c.req, L.Work(c)) == Applied(s.zone, c.req, L.Work(c))
  {
    assert CallOk(s, t);
    var c, key := s.calls.active[t], s.calls.active[id].req.key;
    if c.req.key == key { L.HolderIsAlone(s.calls, id, t); }
    OthersKnowTheSame(s.zone, z, key, c.req, L.Work(c));
  }

  lemma WorkKeepsCalls(s: State, id: TaskId, p: Progress, z: Zone)
    requires Inv(s) && L.CanWork(s.calls, id) && WorkedOn(s.zone, z, s.calls.active[id].req.key)
    ensures AbsCalls(Advanced(s, id, p).(zone := z))
         == AbsCalls(s)[id := R.Call(s.calls.active[id].req, Applied(z, s.calls.active[id].req, Some(p)))]
  {
    var s' := Advanced(s, id, p).(zone := z);
    forall t | t in s'.calls.active && t != id ensures AbsCalls(s')[t] == AbsCalls(s)[t] {
      OthersUntouched(s, id, z, t);
    }
  }

  /** One call works on its own name: the others neither notice nor change
      what they have applied. */
  lemma WorkKeepsInv(s: State, id: TaskId, p: Progress, z: Zone)
    requires Inv(s) && L.CanWork(s.calls, id) && WorkedOn(s.zone, z, s.calls.active[id].req.key)
    requires Knows(z, s.calls.active[id].req, Some(p))
    ensures var s' := Advanced(s, id, p).(zone := z);
            && Inv(s')
            && AbsCalls(s') == AbsCalls(s)[id := R.Call(s.calls.active[id].req,
                Applied(z, s.calls.active[id].req, Some(p)))]
  {
    L.AdvanceKeepsInv(s.calls, id, p);
    var s' := Advanced(s, id, p).(zone := z);
    forall t | t in s'.calls.active ensures CallOk(s', t) {
      if t != id {
        OthersUntouched(s, id, z, t);
      }
    }
    WorkKeepsCalls(s, id, p, z);
  }

  lemma PageFinds(z: Zone, req: R.Request, work: Option<Progress>)
    requires CanRead(work) && Knows(z, req, work)
    ensures forall r | r in FoundAfter(z, req, work) :: r in Matching(z, req.key, req.value)
    ensures SureAfter(z, req, work) ==> forall r | r in Matching(z, req.key, req.value) :: r in FoundAfter(z, req, work)
  {
    HitsMembers(z, PageOf(z, NextPage(work)), req.key, req.value);
  }

  lemma AfterPageKnows(z: Zone, req: R.Request, work: Option<Progress>)
    requires ZoneOk(z) && CanRead(work) && Knows(z, req, work)
    ensures Knows(z, req, Some(AfterPage(z, req, work)))
    ensures AfterPage(z, req, work).Unneeded? ==> Matching(z, req.key, req.value) != {}
  {
    PageFinds(z, req, work);
    var found := FoundAfter(z, req, work);
    assert found != [] ==> found[0] in found;
  }

  lemma PageRefines(s: State, s': State, id: TaskId)
    requires Inv(s) && PageStep(s, s', id)
    ensures Inv(s') && R.Step(Abs(s), R.Internal, Abs(s'))
  {
    var req := s.calls.active[id].req;
    var p := AfterPage(s.zone, req, L.Work(s.calls.active[id]));
    assert CallOk(s, id);
    AfterPageKnows(s.zone, req, L.Work(s.calls.active[id]));
    WorkKeepsInv(s, id, p, s.zone);
    AbsAt(s, req.key);
    ValueHasRecord(s.zone, req.key, req.value);
    if Applied(s.zone, req, Some(p)) {
      R.AppliesBy(Abs(s), Abs(s'), id, ValuesAt(s.zone, req.key));
    } else {
      R.SameCall(Abs(s), id);
      R.Stutter(Abs(s), Abs(s'));
    }
  }

  lemma CreateBecomes(s: State, s': State, id: TaskId, r: RecordId, at: nat)
    requires Inv(s) && CreateStep(s, s', id, r, at)
    ensures var req := s.calls.active[id].req;
            && ValidAcmeValue(req.value)
            && R.Becomes(Abs(s), Abs(s'), req.key, ValuesAt(s.zone, req.key) + {req.value})
  {
    var req := s.calls.active[id].req;
    assert L.TicketOk(s.calls, id) && CallOk(s, id);
    CreatedValues(s.zone, r, req.key, req.value, at);
    forall k ensures R.At(Abs(s').sets, k) == ValuesAt(s'.zone, k) && R.At(Abs(s).sets, k) == ValuesAt(s.zone, k) {
      AbsAt(s, k);
      AbsAt(s', k);
    }
  }

  lemma CreateKeepsInv(s: State, s': State, id: TaskId, r: RecordId, at: nat)
    requires Inv(s) && CreateStep(s, s', id, r, at)
    ensures Inv(s')
    ensures AbsCalls(s') == AbsCalls(s)[id := R.Call(s.calls.active[id].req, true)]
  {
    var req := s.calls.active[id].req;
    assert L.TicketOk(s.calls, id) && CallOk(s, id);
    CreatedIsOk(s.zone, r, req.key, req.value, at);
    OtherNames(s.zone, s'.zone, req.key);
    CreatedValues(s.zone, r, req.key, req.value, at);
    WorkKeepsInv(s, id, Done, s'.zone);
  }

  lemma CreateRefines(s: State, s': State, id: TaskId, r: RecordId, at: nat)
    requires Inv(s) && CreateStep(s, s', id, r, at)
    ensures Inv(s') && R.Step(Abs(s), R.Internal, Abs(s'))
  {
    var req := s.calls.active[id].req;
    CreateKeepsInv(s, s', id, r, at);
    CreateBecomes(s, s', id, r, at);
    assert CallOk(s, id);
    AbsAt(s, req.key);
    ValueHasRecord(s.zone, req.key, req.value);
    if IsCreating(L.Work(s.calls.active[id])) {
      R.AppliesBy(Abs(s), Abs(s'), id, ValuesAt(s.zone, req.key) + {req.value});
    } else {
      R.AddsAgain(Abs(s), Abs(s'), id);
    }
  }

  lemma ExistsRefines(s: State, s': State, id: TaskId)
    requires Inv(s) && ExistsStep(s, s', id)
    ensures Inv(s') && R.Step(Abs(s), R.Internal, Abs(s'))
  {
    var req := s.calls.active[id].req;
    assert L.TicketOk(s.calls, id) && CallOk(s, id);
    WorkKeepsInv(s, id, Done, s.zone);
    AbsAt(s, req.key);
    ValueHasRecord(s.zone, req.key, req.value);
    R.AppliesBy(Abs(s), Abs(s'), id, ValuesAt(s.zone, req.key));
  }

  lemma DeletedMatching(z: Zone, r: RecordId, key: string, v: string)
    ensures Matching(Deleted(z, r), key, v) == Matching(z, key, v) - {r}
  {
  }

  lemma DeleteKnows(z: Zone, req: R.Request, p: Progress, answered: bool)
    requires Knows(z, req, Some(p)) && p.Deleting? && p.todo != []
    ensures Knows(Deleted(z, p.todo[0]), req, Some(if answered then Deleting(p.todo[1..], p.sure) else p))
  {
    DeletedMatching(z, p.todo[0], req.key, req.value);
    assert p.todo == [p.todo[0]] + p.todo[1..];
  }

  lemma DeleteKeepsInv(s: State, s': State, id: TaskId, p: Progress, answered: bool)
    requires Inv(s) && DeleteStep(s, s', id, p, answered)
    ensures Inv(s')
    ensures var req := s.calls.active[id].req;
            AbsCalls(s') == AbsCalls(s)[id := R.Call(req, Matching(s'.zone, req.key, req.value) == {})]
  {
    var req := s.calls.active[id].req;
    assert L.TicketOk(s.calls, id) && CallOk(s, id);
    DeletedIsOk(s.zone, p.todo[0]);
    OtherNames(s.zone, s'.zone, req.key);
    DeleteKnows(s.zone, req, p, answered);
    WorkKeepsInv(s, id, if answered then Deleting(p.todo[1..], p.sure) else p, s'.zone);
  }

  lemma DeleteBecomes(s: State, s': State, id: TaskId, p: Progress, answered: bool)
    requires Inv(s) && DeleteStep(s, s', id, p, answered)
    ensures var req := s.calls.active[id].req;
            R.Becomes(Abs(s), Abs(s'), req.key,
                      if Matching(s'.zone, req.key, req.value) == {} then ValuesAt(s.zone, req.key) - {req.value}
                      else ValuesAt(s.zone, req.key))
  {
    var req := s.calls.active[id].req;
    assert CallOk(s, id);
    ValueHasRecord(s.zone, req.key, req.value);
    if p.todo[0] in s.zone.records {
      DeletedValues(s.zone, p.todo[0], req.key, req.value);
    } else {
      assert s'.zone.records == s.zone.records;
    }
    forall k ensures R.At(Abs(s').sets, k) == ValuesAt(s'.zone, k) && R.At(Abs(s).sets, k) == ValuesAt(s.zone, k) {
      AbsAt(s, k);
      AbsAt(s', k);
    }
  }

  lemma LastRecordRefines(s: State, s': State, id: TaskId, p: Progress, answered: bool)
    requires Inv(s) && DeleteStep(s, s', id, p, answered)
    requires var req := s.calls.active[id].req;
             Matching(s.zone, req.key, req.value) != {} && Matching(s'.zone, req.key, req.value) == {}
    ensures R.Step(Abs(s), R.Internal, Abs(s'))
  {
    var req := s.calls.active[id].req;
    DeleteKeepsInv(s, s', id, p, answered);
    DeleteBecomes(s, s', id, p, answered);
    AbsAt(s, req.key);
    R.AppliesBy(Abs(s), Abs(s'), id, ValuesAt(s.zone, req.key) - {req.value});
  }

  lemma OtherRecordRefines(s: State, s': State, id: TaskId, p: Progress, answered: bool)
    requires Inv(s) && DeleteStep(s, s', id, p, answered)
    requires var req := s.calls.active[id].req;
             Matching(s.zone, req.key, req.value) == {} <==> Matching(s'.zone, req.key, req.value) == {}
    ensures R.Step(Abs(s), R.Internal, Abs(s'))
  {
    var req := s.calls.active[id].req;
    DeleteKeepsInv(s, s', id, p, answered);
    DeleteBecomes(s, s', id, p, answered);
    AbsAt(s, req.key);
    ValueHasRecord(s.zone, req.key, req.value);
    R.SameCall(Abs(s), id);
    R.RewritesBy(Abs(s), Abs(s'), req.key);
  }

  /** Deleting duplicates one by one is still an atomic removal: it happens
      when the last record that holds the value goes. */
  lemma DeleteRefines(s: State, s': State, id: TaskId, p: Progress, answered: bool)
    requires Inv(s) && DeleteStep(s, s', id, p, answered)
    ensures Inv(s') && R.Step(Abs(s), R.Internal, Abs(s'))
  {
    var req := s.calls.active[id].req;
    DeleteKeepsInv(s, s', id, p, answered);
    DeletedMatching(s.zone, p.todo[0], req.key, req.value);
    if Matching(s.zone, req.key, req.value) != {} && Matching(s'.zone, req.key, req.value) == {} {
      LastRecordRefines(s, s', id, p, answered);
    } else {
      OtherRecordRefines(s, s', id, p, answered);
    }
  }

  lemma WaitRefines(s: State, s': State)
    requires Inv(s) && L.WaitStep(s.calls, s'.calls) && s'.zone == s.zone
    ensures Inv(s') && R.Step(Abs(s), R.Internal, Abs(s'))
  {
    L.WaitKeepsInv(s.calls, s'.calls);
    forall t | t in s'.calls.active ensures CallOk(s', t) {
      assert CallOk(s, t);
    }
    assert AbsCalls(s') == AbsCalls(s);
    R.Stutter(Abs(s), Abs(s'));
  }

  lemma BeginRefines(s: State, id: TaskId, req: R.Request)
    requires Inv(s) && id !in s.calls.active
    ensures var s' := s.(calls := L.Began(s.calls, id, req));
            Inv(s') && R.Step(Abs(s), R.Begin(id, req), Abs(s'))
  {
    L.BeginKeepsInv(s.calls, id, req);
    var s' := s.(calls := L.Began(s.calls, id, req));
    forall t | t in s'.calls.active ensures CallOk(s', t) {
      if t != id { assert CallOk(s, t); }
    }
    assert AbsCalls(s') == AbsCalls(s)[id := R.Call(req, false)];
  }

  lemma EndRefines(s: State, id: TaskId)
    requires Inv(s) && id in s.calls.active
    ensures var s' := s.(calls := L.Ended(s.calls, id));
            Inv(s') && Abs(s').calls == Abs(s).calls - {id} && R.SameSets(Abs(s), Abs(s'))
  {
    L.EndKeepsInv(s.calls, id);
    var s' := s.(calls := L.Ended(s.calls, id));
    forall t | t in s'.calls.active ensures CallOk(s', t) {
      assert CallOk(s, t);
    }
  }

  /** An Ok that may be wrong: the cleanup was not sure to see every record. */
  ghost predicate Doubtful(work: Option<Progress>) {
    work.Some? && work.value.Deleting? && !work.value.sure
  }

  /** A present returns Ok only once its effect is there, and so does a cleanup
      that was sure of its listing. */
  lemma SuccessIsApplied(s: State, id: TaskId)
    requires Inv(s) && id in s.calls.active && CanSucceed(L.Work(s.calls.active[id]))
    requires !Doubtful(L.Work(s.calls.active[id]))
    ensures Abs(s).calls[id].applied
  {
    assert CallOk(s, id);
    var req := s.calls.active[id].req;
    assert L.Work(s.calls.active[id]).value.Deleting? ==> Matching(s.zone, req.key, req.value) == {};
  }

  /** No cleanup returns Ok in doubt. */
  ghost predicate Certain(s: State, e: R.Event) {
    e.Return? && e.ok && e.id in s.calls.active ==> !Doubtful(L.Work(s.calls.active[e.id]))
  }

  lemma InternalRefines(s: State, s': State)
    requires Inv(s) && Step(s, R.Internal, s')
    ensures Inv(s') && R.Step(Abs(s), R.Internal, Abs(s'))
  {
    if L.WaitStep(s.calls, s'.calls) && s'.zone == s.zone {
      WaitRefines(s, s');
    } else if id :| PageStep(s, s', id) {
      PageRefines(s, s', id);
    } else if id, r, at :| CreateStep(s, s', id, r, at) {
      CreateRefines(s, s', id, r, at);
    } else if id :| ExistsStep(s, s', id) {
      ExistsRefines(s, s', id);
    } else {
      var id, p, answered :| DeleteStep(s, s', id, p, answered);
      DeleteRefines(s, s', id, p, answered);
    }
  }

  /** Every step is one of the contract in which a cleanup may overlook a record,
      and of the full contract unless one returns Ok in doubt. */
  lemma StepRefines(s: State, e: R.Event, s': State)
    requires Inv(s) && Step(s, e, s')
    ensures Inv(s') && R.WeakStep(Abs(s), e, Abs(s'))
    ensures Certain(s, e) ==> R.Step(Abs(s), e, Abs(s'))
  {
    match e
    case Begin(id, req) => BeginRefines(s, id, req);
    case Return(id, ok) =>
      EndRefines(s, id);
      assert CallOk(s, id);
      if ok && !Doubtful(L.Work(s.calls.active[id])) { SuccessIsApplied(s, id); }
    case Cancel(id) => EndRefines(s, id);
    case Foreign(_, _) =>
    case Internal => InternalRefines(s, s');
  }

  lemma {:induction false} RunKeepsInv(run: seq<State>, events: seq<R.Event>, i: nat)
    requires IsRun(run, events) && i < |run|
    ensures Inv(run[i])
  {
    if i > 0 {
      RunKeepsInv(run, events, i - 1);
      assert Step(run[i - 1], events[i - 1], run[i]);
      StepRefines(run[i - 1], events[i - 1], run[i]);
    }
  }

  /** Every run is a run of the weaker contract, with the same events. */
  lemma RunRefinesWeakly(run: seq<State>, events: seq<R.Event>)
    requires IsRun(run, events)
    ensures R.IsWeakRun(seq(|run|, i requires 0 <= i < |run| => Abs(run[i])), events)
  {
    forall i | 0 <= i < |events| ensures R.WeakStep(Abs(run[i]), events[i], Abs(run[i + 1])) {
      RunKeepsInv(run, events, i);
      assert Step(run[i], events[i], run[i + 1]);
      StepRefines(run[i], events[i], run[i + 1]);
    }
  }
}

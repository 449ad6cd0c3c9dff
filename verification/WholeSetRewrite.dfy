/** Providers that rewrite a whole TXT record set under the keyed lock: Gandi,
    PowerDNS and Route53 fetch the set, merge or filter their value, and write
    the result back. */
module WholeSetRewrite {
  import opened Prelude
  import opened TxtValues
  import L = LockedCalls
  import R = AtomicRecords

  type TaskId = nat

  datatype Kind = Gandi | PowerDns | Route53

  datatype Config = Config(kind: Kind, ttl: nat)

  datatype RRset = RRset(ttl: nat, entries: seq<Entry>)

  /** The write a provider sends after reading the set. */
  datatype Write =
    | NoWrite
    | Replace(rrset: RRset)
    | Delete
    /** Route53 deletes by naming the exact set it expects to find. */
    | DeleteExact(rrset: RRset)

  function Entries(set_: Option<RRset>): seq<Entry> {
    match set_
    case Some(r) => r.entries
    case None => []
  }

  /** Gandi writes its configured TTL; the others keep the set's own. */
  function TtlFor(cfg: Config, existing: Option<RRset>): nat {
    if cfg.kind.Gandi? || existing.None? then cfg.ttl else existing.value.ttl
  }

  function PresentWrite(cfg: Config, existing: Option<RRset>, v: string): Write {
    if Contains(Entries(existing), v) then NoWrite
    else Replace(RRset(TtlFor(cfg, existing), Merged(Entries(existing), v)))
  }

  function CleanupWrite(cfg: Config, existing: Option<RRset>, v: string): Write {
    var remaining := Kept(Entries(existing), v);
    if existing.None? || |remaining| == |existing.value.entries| then NoWrite
    else if remaining == [] then
      if cfg.kind.Route53? then DeleteExact(existing.value) else Delete
    else Replace(RRset(TtlFor(cfg, existing), remaining))
  }

  function Plan(cfg: Config, req: R.Request, existing: Option<RRset>): Write {
    match req.op
    case Add => PresentWrite(cfg, existing, req.value)
    case Remove => CleanupWrite(cfg, existing, req.value)
  }

  /** The server refuses a delete that does not match the stored set. */
  predicate Accepts(w: Write, stored: Option<RRset>) {
    w.DeleteExact? ==> stored == Some(w.rrset)
  }

  function Stored(w: Write, stored: Option<RRset>): Option<RRset> {
    match w
    case NoWrite => stored
    case Replace(r) => Some(r)
    case Delete => None
    case DeleteExact(_) => None
  }

  // --- What one read-merge-write does to the set -----------------------------

  /** The write has exactly the atomic effect on the set of values; it is
      skipped exactly when there is nothing to change, and it deletes the
      record set exactly when the change removes the last value, Route53 by
      naming the set it read. */
  lemma PlanHasTheAtomicEffect(cfg: Config, req: R.Request, existing: Option<RRset>)
    ensures var w, values := Plan(cfg, req, existing), Values(Entries(existing));
            && Accepts(w, existing)
            && Values(Entries(Stored(w, existing))) == R.Effect(req, values)
            && (w.NoWrite? <==> R.Effect(req, values) == values)
            && (w.Delete? || w.DeleteExact? <==> values != {} && R.Effect(req, values) == {})
            && (w.Delete? ==> !cfg.kind.Route53?)
            && (w.DeleteExact? ==> cfg.kind.Route53? && existing == Some(w.rrset))
  {
    var es := Entries(existing);
    match req.op
    case Add =>
      MergedValues(es, req.value);
      assert Contains(es, req.value) <==> req.value in Values(es);
    case Remove =>
      KeptValues(es, req.value);
      KeptLength(es, req.value);
      KeptMembers(es, req.value);
      var remaining := Kept(es, req.value);
      assert remaining != [] ==> Unquote(remaining[0].content) in Values(remaining);
      assert es != [] ==> Unquote(es[0].content) in Values(es);
  }

  /** The other entries go back byte for byte and in order. */
  lemma PlanWritesOthersVerbatim(cfg: Config, req: R.Request, existing: Option<RRset>)
    requires Plan(cfg, req, existing).Replace?
    ensures var w, es := Plan(cfg, req, existing), Entries(existing);
            && (req.op.Add? ==> w.rrset.entries == es + [Entry(Quote(req.value), false)])
            && (req.op.Remove? ==> Selects(es, w.rrset.entries, OtherPositions(es, req.value)))
    ensures forall p: nat :: p in OtherPositions(Entries(existing), req.value) <==>
              p < |Entries(existing)| && Unquote(Entries(existing)[p].content) != req.value
  {
    KeptSelectsTheOthers(Entries(existing), req.value);
  }

  // --- Concurrent calls -------------------------------------------------------

  /** A write may be replayed by the HTTP retry, so `Written` still knows what
      was read. */
  datatype Progress = Fetched(cfg: Config, seen: Option<RRset>) | Written(cfg: Config, seen: Option<RRset>) | Unneeded

  datatype State = State(calls: L.Calls<Progress>, server: map<string, RRset>)

  predicate Applied(work: Option<Progress>) {
    work.Some? && (work.value.Written? || work.value.Unneeded?)
  }

  function Advanced(s: State, id: TaskId, p: Progress): State
    requires id in s.calls.active
  {
    s.(calls := L.Advanced(s.calls, id, p))
  }

  ghost predicate FetchStep(s: State, s': State, id: TaskId, cfg: Config) {
    && L.CanWork(s.calls, id) && L.Work(s.calls.active[id]).None?
    && var req := s.calls.active[id].req;
       var seen := Lookup(s.server, req.key);
       s' == Advanced(s, id, if Plan(cfg, req, seen).NoWrite? then Unneeded else Fetched(cfg, seen))
  }

  /** The server applies the write of call `id` (perhaps once more). */
  function Wrote(s: State, id: TaskId, p: Progress): State
    requires id in s.calls.active && !p.Unneeded?
  {
    var req := s.calls.active[id].req;
    Advanced(s, id, Written(p.cfg, p.seen)).(
      server := Put(s.server, req.key, Stored(Plan(p.cfg, req, p.seen), Lookup(s.server, req.key))))
  }

  ghost predicate WriteStep(s: State, s': State, id: TaskId, p: Progress) {
    && id in s.calls.active && L.Work(s.calls.active[id]) == Some(p) && !p.Unneeded?
    && Accepts(Plan(p.cfg, s.calls.active[id].req, p.seen), Lookup(s.server, s.calls.active[id].req.key))
    && s' == Wrote(s, id, p)
  }

  ghost predicate Step(s: State, e: R.Event, s': State) {
    match e
    case Begin(id, req) => id !in s.calls.active && s' == s.(calls := L.Began(s.calls, id, req))
    case Return(id, ok) =>
      && id in s.calls.active && (ok ==> Applied(L.Work(s.calls.active[id])))
      && s' == s.(calls := L.Ended(s.calls, id))
    case Cancel(id) => id in s.calls.active && s' == s.(calls := L.Ended(s.calls, id))
    case Foreign(_, _) => false
    case Internal =>
      || (L.WaitStep(s.calls, s'.calls) && s'.server == s.server)
      || (exists id, cfg :: FetchStep(s, s', id, cfg))
      || (exists id, p :: WriteStep(s, s', id, p))
  }

  ghost predicate Init(s: State) {
    L.Init(s.calls)
  }

  ghost predicate IsRun(run: seq<State>, events: seq<R.Event>) {
    && |run| == |events| + 1 && Init(run[0])
    && forall i | 0 <= i < |events| :: Step(run[i], events[i], run[i + 1])
  }

  // --- Refinement ---------------------------------------------------------------

  ghost function Abs(s: State): R.Records {
    R.Records(map k | k in s.server :: Values(s.server[k].entries),
              map t | t in s.calls.active :: R.Call(s.calls.active[t].req, Applied(L.Work(s.calls.active[t]))))
  }

  /** What a call's progress says about the stored set of its key. */
  ghost predicate Knows(req: R.Request, work: Option<Progress>, stored: Option<RRset>) {
    match work
    case Some(Fetched(cfg, seen)) => stored == seen && !Plan(cfg, req, seen).NoWrite?
    case Some(Written(cfg, seen)) => stored == Stored(Plan(cfg, req, seen), seen) && !Plan(cfg, req, seen).NoWrite?
    case _ => true
  }

  ghost predicate CallOk(s: State, t: TaskId)
    requires t in s.calls.active
  {
    var c := s.calls.active[t];
    Knows(c.req, L.Work(c), Lookup(s.server, c.req.key))
  }

  ghost predicate Inv(s: State) {
    L.Inv(s.calls) && forall t | t in s.calls.active :: CallOk(s, t)
  }

  lemma AbsAt(s: State, k: string)
    ensures R.At(Abs(s).sets, k) == Values(Entries(Lookup(s.server, k)))
  {
    assert Values([]) == {};
  }

  lemma SameProgressSameCalls(s: State, s': State)
    requires s'.calls.active.Keys == s.calls.active.Keys
    requires forall t | t in s.calls.active ::
               s'.calls.active[t].req == s.calls.active[t].req &&
                   L.Work(s'.calls.active[t]) == L.Work(s.calls.active[t])
    ensures Abs(s').calls == Abs(s).calls
  {
  }

  lemma WaitRefines(s: State, s': State)
    requires Inv(s) && L.WaitStep(s.calls, s'.calls) && s'.server == s.server
    ensures Inv(s') && R.Step(Abs(s), R.Internal, Abs(s'))
  {
    L.WaitKeepsInv(s.calls, s'.calls);
    forall t | t in s'.calls.active ensures CallOk(s', t) {
      assert CallOk(s, t);
    }
    SameProgressSameCalls(s, s');
    R.Stutter(Abs(s), Abs(s'));
  }

  /** Storing a set under a held key disturbs no other call. */
  lemma AdvanceKeepsInv(s: State, id: TaskId, p: Progress, stored: Option<RRset>)
    requires Inv(s) && L.CanWork(s.calls, id)
    requires Knows(s.calls.active[id].req, Some(p), stored)
    ensures Inv(Advanced(s, id, p).(server := Put(s.server, s.calls.active[id].req.key, stored)))
  {
    L.AdvanceKeepsInv(s.calls, id, p);
    var key := s.calls.active[id].req.key;
    var s' := Advanced(s, id, p).(server := Put(s.server, key, stored));
    forall t | t in s'.calls.active ensures CallOk(s', t) {
      assert CallOk(s, t);
      if t != id && s.calls.active[t].req.key == key { L.HolderIsAlone(s.calls, id, t); }
    }
  }

  lemma AdvanceAbs(s: State, id: TaskId, p: Progress, stored: Option<RRset>)
    requires id in s.calls.active
    ensures var req := s.calls.active[id].req;
            var s' := Advanced(s, id, p).(server := Put(s.server, req.key, stored));
            && R.Becomes(Abs(s), Abs(s'), req.key, Values(Entries(stored)))
            && Abs(s').calls == Abs(s).calls[id := R.Call(req, Applied(Some(p)))]
  {
    var key := s.calls.active[id].req.key;
    var s' := Advanced(s, id, p).(server := Put(s.server, key, stored));
    forall k ensures R.At(Abs(s').sets, k) == if k == key then Values(Entries(stored)) else R.At(Abs(s).sets, k) {
      AbsAt(s, k);
      AbsAt(s', k);
    }
  }

  /** Reading is storing what is there. Finding nothing to change is itself the
      moment the call takes effect. */
  lemma FetchRefines(s: State, s': State, id: TaskId, cfg: Config)
    requires Inv(s) && FetchStep(s, s', id, cfg)
    ensures Inv(s') && R.Step(Abs(s), R.Internal, Abs(s'))
  {
    var req := s.calls.active[id].req;
    var seen := Lookup(s.server, req.key);
    var p := s'.calls.active[id].phase.progress;
    assert Put(s.server, req.key, seen) == s.server;
    AdvanceKeepsInv(s, id, p, seen);
    AdvanceAbs(s, id, p, seen);
    AbsAt(s, req.key);
    if p.Unneeded? {
      PlanHasTheAtomicEffect(cfg, req, seen);
      R.AppliesBy(Abs(s), Abs(s'), id, Values(Entries(seen)));
    } else {
      R.SameCall(Abs(s), id);
      R.RewritesBy(Abs(s), Abs(s'), req.key);
    }
  }

  /** What a write stores, first or replayed. */
  lemma WriteStores(req: R.Request, p: Progress, stored: Option<RRset>)
    requires !p.Unneeded? && Knows(req, Some(p), stored)
    ensures var after := Stored(Plan(p.cfg, req, p.seen), stored);
            && Knows(req, Some(Written(p.cfg, p.seen)), after)
            && (p.Fetched? ==> Values(Entries(after)) == R.Effect(req, Values(Entries(stored))))
            && (p.Written? ==> after == stored)
  {
    PlanHasTheAtomicEffect(p.cfg, req, p.seen);
  }

  lemma WriteRefines(s: State, s': State, id: TaskId, p: Progress)
    requires Inv(s) && WriteStep(s, s', id, p)
    ensures Inv(s') && R.Step(Abs(s), R.Internal, Abs(s'))
  {
    var req := s.calls.active[id].req;
    var before := Lookup(s.server, req.key);
    var after := Stored(Plan(p.cfg, req, p.seen), before);
    assert L.TicketOk(s.calls, id) && CallOk(s, id);
    WriteStores(req, p, before);
    AdvanceKeepsInv(s, id, Written(p.cfg, p.seen), after);
    AdvanceAbs(s, id, Written(p.cfg, p.seen), after);
    AbsAt(s, req.key);
    if p.Written? {
      R.SameCall(Abs(s), id);
      R.RewritesBy(Abs(s), Abs(s'), req.key);
    } else {
      R.AppliesBy(Abs(s), Abs(s'), id, Values(Entries(after)));
    }
  }

  lemma BeginRefines(s: State, id: TaskId, req: R.Request)
    requires Inv(s) && id !in s.calls.active
    ensures var s' := s.(calls := L.Began(s.calls, id, req));
            Inv(s') && R.Step(Abs(s), R.Begin(id, req), Abs(s'))
  {
    L.BeginKeepsInv(s.calls, id, req);
    var s' := s.(calls := L.Began(s.calls, id, req));
    forall t | t in s'.calls.active ensures CallOk(s', t) {
      if t != id { assert CallOk(s, t); }
    }
    assert Abs(s').calls == Abs(s).calls[id := R.Call(req, false)];
  }

  lemma EndRefines(s: State, id: TaskId)
    requires Inv(s) && id in s.calls.active
    ensures var s' := s.(calls := L.Ended(s.calls, id));
            Inv(s') && Abs(s').calls == Abs(s).calls - {id} && R.SameSets(Abs(s), Abs(s'))
  {
    L.EndKeepsInv(s.calls, id);
    var s' := s.(calls := L.Ended(s.calls, id));
    forall t | t in s'.calls.active ensures CallOk(s', t) {
      assert CallOk(s, t);
    }
  }

  /** Every step of every interleaving is a step of the atomic contract, seen
      through the sets of unquoted values. */
  lemma StepRefines(s: State, e: R.Event, s': State)
    requires Inv(s) && Step(s, e, s')
    ensures Inv(s') && R.Step(Abs(s), e, Abs(s'))
  {
    match e
    case Begin(id, req) => BeginRefines(s, id, req);
    case Return(id, ok) => EndRefines(s, id);
    case Cancel(id) => EndRefines(s, id);
    case Foreign(_, _) =>
    case Internal =>
      if L.WaitStep(s.calls, s'.calls) && s'.server == s.server {
        WaitRefines(s, s');
      } else if id, cfg :| FetchStep(s, s', id, cfg) {
        FetchRefines(s, s', id, cfg);
      } else {
        var id, p :| WriteStep(s, s', id, p);
        WriteRefines(s, s', id, p);
      }
  }

  lemma {:induction false} RunKeepsInv(run: seq<State>, events: seq<R.Event>, i: nat)
    requires IsRun(run, events) && i < |run|
    ensures Inv(run[i])
  {
    if i > 0 {
      RunKeepsInv(run, events, i - 1);
      assert Step(run[i - 1], events[i - 1], run[i]);
      StepRefines(run[i - 1], events[i - 1], run[i]);
    }
  }

  /** Every run of concurrent present and cleanup calls, with failures and
      drops anywhere, is a run of the atomic contract with the same events. */
  lemma RunRefines(run: seq<State>, events: seq<R.Event>)
    requires IsRun(run, events)
    ensures R.IsRun(seq(|run|, i requires 0 <= i < |run| => Abs(run[i])), events)
  {
    forall i | 0 <= i < |events| ensures R.Step(Abs(run[i]), events[i], Abs(run[i + 1])) {
      RunKeepsInv(run, events, i);
      assert Step(run[i], events[i], run[i + 1]);
      StepRefines(run[i], events[i], run[i + 1]);
    }
  }

  /** Over any run, a call that is about to write still finds the very set it
      fetched: no update of another call is overwritten, and Route53's exact
      delete always matches. */
  lemma WritesMeetWhatTheyRead(run: seq<State>, events: seq<R.Event>, i: nat, id: TaskId, cfg: Config,
                               seen: Option<RRset>)
    requires IsRun(run, events) && i < |run| && id in run[i].calls.active
    requires L.Work(run[i].calls.active[id]) == Some(Fetched(cfg, seen))
    ensures var req := run[i].calls.active[id].req;
            && Lookup(run[i].server, req.key) == seen
            && Accepts(Plan(cfg, req, seen), Lookup(run[i].server, req.key))
  {
    RunKeepsInv(run, events, i);
    assert CallOk(run[i], id);
    PlanHasTheAtomicEffect(cfg, run[i].calls.active[id].req, seen);
  }

  // --- Entries nobody asked about -------------------------------------------------

  /** The entries that hold none of the given values. */
  function Others(entries: seq<Entry>, mine: set<string>): seq<Entry> {
    if entries == [] then []
    else
      var n := |entries| - 1;
      Others(entries[..n], mine) + if Unquote(entries[n].content) in mine then [] else [entries[n]]
  }

  lemma OthersAppend(entries: seq<Entry>, e: Entry, mine: set<string>)
    ensures Others(entries + [e], mine) == Others(entries, mine) + if Unquote(e.content) in mine then [] else [e]
  {
    assert (entries + [e])[..|entries|] == entries;
  }

  lemma MergeLeavesOthers(entries: seq<Entry>, v: string, mine: set<string>)
    requires v in mine
    ensures Others(Merged(entries, v), mine) == Others(entries, mine)
  {
    UnquoteQuote(v);
    OthersAppend(entries, Entry(Quote(v), false), mine);
  }

  lemma {:induction false} KeepLeavesOthers(entries: seq<Entry>, v: string, mine: set<string>)
    requires v in mine
    ensures Others(Kept(entries, v), mine) == Others(entries, mine)
  {
    if entries != [] {
      var n := |entries| - 1;
      var rest := Kept(entries[..n], v);
      KeepLeavesOthers(entries[..n], v, mine);
      if Unquote(entries[n].content) == v {
        assert Kept(entries, v) == rest;
        assert Others(entries, mine) == Others(entries[..n], mine);
      } else {
        OthersAppend(rest, entries[n], mine);
      }
    }
  }

  /** What is stored at a name besides these values. */
  ghost function OthersAt(s: State, key: string, mine: set<string>): seq<Entry> {
    Others(Entries(Lookup(s.server, key)), mine)
  }

  lemma PlanLeavesOthers(cfg: Config, req: R.Request, existing: Option<RRset>, mine: set<string>)
    requires req.value in mine
    ensures Others(Entries(Stored(Plan(cfg, req, existing), existing)), mine) == Others(Entries(existing), mine)
  {
    MergeLeavesOthers(Entries(existing), req.value, mine);
    KeepLeavesOthers(Entries(existing), req.value, mine);
  }

  ghost predicate AsksOnlyFor(s: State, key: string, mine: set<string>) {
    forall t | t in s.calls.active && s.calls.active[t].req.key == key :: s.calls.active[t].req.value in mine
  }

  /** A call for this name is for one of these values. */
  ghost predicate BeginsWithin(e: R.Event, key: string, mine: set<string>) {
    e.Begin? && e.req.key == key ==> e.req.value in mine
  }

  lemma WriteLeavesOthers(s: State, s': State, id: TaskId, p: Progress, key: string, mine: set<string>)
    requires Inv(s) && WriteStep(s, s', id, p) && AsksOnlyFor(s, key, mine)
    ensures OthersAt(s', key, mine) == OthersAt(s, key, mine)
  {
    var req := s.calls.active[id].req;
    if req.key == key {
      assert CallOk(s, id);
      PlanLeavesOthers(p.cfg, req, p.seen, mine);
    }
  }

  /** Whatever happens to a call, it asks for what it began with. */
  ghost predicate AsksTheSame(s: State, s': State) {
    forall t | t in s'.calls.active :: t in s.calls.active && s'.calls.active[t].req == s.calls.active[t].req
  }

  lemma WaitAsksTheSame(s: State, s': State)
    requires L.Inv(s.calls) && L.WaitStep(s.calls, s'.calls)
    ensures AsksTheSame(s, s')
  {
    L.WaitKeepsInv(s.calls, s'.calls);
  }

  lemma FetchAsksTheSame(s: State, s': State, id: TaskId, cfg: Config)
    requires FetchStep(s, s', id, cfg)
    ensures AsksTheSame(s, s')
  {
  }

  lemma WriteAsksTheSame(s: State, s': State, id: TaskId, p: Progress)
    requires WriteStep(s, s', id, p)
    ensures AsksTheSame(s, s')
  {
  }

  lemma InternalAsksTheSame(s: State, s': State)
    requires L.Inv(s.calls) && Step(s, R.Internal, s')
    ensures AsksTheSame(s, s')
  {
    if L.WaitStep(s.calls, s'.calls) && s'.server == s.server {
      WaitAsksTheSame(s, s');
    } else if id, cfg :| FetchStep(s, s', id, cfg) {
      FetchAsksTheSame(s, s', id, cfg);
    } else {
      var id, p :| WriteStep(s, s', id, p);
      WriteAsksTheSame(s, s', id, p);
    }
  }

  lemma StepAsksOnlyFor(s: State, e: R.Event, s': State, key: string, mine: set<string>)
    requires Inv(s) && Step(s, e, s') && AsksOnlyFor(s, key, mine)
    requires BeginsWithin(e, key, mine)
    ensures AsksOnlyFor(s', key, mine)
  {
    if e.Internal? {
      InternalAsksTheSame(s, s');
    } else if e.Begin? {
      assert s'.calls.active == s.calls.active[e.id := L.Call(e.req, L.Resolving)];
    }
  }

  lemma StepLeavesOthers(s: State, e: R.Event, s': State, key: string, mine: set<string>)
    requires Inv(s) && Step(s, e, s') && AsksOnlyFor(s, key, mine)
    ensures OthersAt(s', key, mine) == OthersAt(s, key, mine)
  {
    if s'.server != s.server {
      var id, p :| WriteStep(s, s', id, p);
      WriteLeavesOthers(s, s', id, p, key, mine);
    }
  }

  lemma StepAtLeavesOthers(run: seq<State>, events: seq<R.Event>, i: nat, key: string, mine: set<string>)
    requires IsRun(run, events) && 0 < i < |run| && AsksOnlyFor(run[i - 1], key, mine)
    requires BeginsWithin(events[i - 1], key, mine)
    ensures AsksOnlyFor(run[i], key, mine)
    ensures OthersAt(run[i], key, mine) == OthersAt(run[i - 1], key, mine)
  {
    RunKeepsInv(run, events, i - 1);
    var s, e, s' := run[i - 1], events[i - 1], run[i];
    assert Step(s, e, s');
    StepAsksOnlyFor(s, e, s', key, mine);
    StepLeavesOthers(s, e, s', key, mine);
  }

  /** At every moment of every run, the entries of a name that hold none of the
      values asked for are, byte for byte and in order, the initial ones. */
  lemma {:induction false} OtherEntriesNeverChange(run: seq<State>, events: seq<R.Event>, i: nat, key: string,
                                                   mine: set<string>)
    requires IsRun(run, events) && i < |run|
    requires forall j | 0 <= j < |events| :: BeginsWithin(events[j], key, mine)
    ensures AsksOnlyFor(run[i], key, mine)
    ensures OthersAt(run[i], key, mine) == OthersAt(run[0], key, mine)
  {
    if i > 0 {
      OtherEntriesNeverChange(run, events, i - 1, key, mine);
      StepAtLeavesOthers(run, events, i, key, mine);
    }
  }

  // --- The TTL of a set that stays -----------------------------------------------------

  /** A write of a provider other than Gandi, or of another name. */
  ghost predicate NoGandiWrite(s: State, s': State, key: string) {
    forall id, p | WriteStep(s, s', id, p) && s.calls.active[id].req.key == key :: !p.cfg.kind.Gandi?
  }

  lemma WriteKeepsTheTtl(s: State, s': State, id: TaskId, p: Progress, key: string)
    requires Inv(s) && WriteStep(s, s', id, p) && key in s.server && key in s'.server
    requires s.calls.active[id].req.key == key ==> !p.cfg.kind.Gandi?
    ensures s'.server[key].ttl == s.server[key].ttl
  {
    assert CallOk(s, id);
  }

  /** What a write leaves has the configured TTL if Gandi wrote it or there was
      no set, and the TTL of the set that was there otherwise. */
  lemma TtlOfWhatIsWritten(run: seq<State>, events: seq<R.Event>, i: nat, id: TaskId, p: Progress)
    requires IsRun(run, events) && i < |events| && WriteStep(run[i], run[i + 1], id, p)
    ensures var key := run[i].calls.active[id].req.key;
            key in run[i + 1].server ==>
              run[i + 1].server[key].ttl ==
              if p.cfg.kind.Gandi? || key !in run[i].server then p.cfg.ttl else run[i].server[key].ttl
  {
    RunKeepsInv(run, events, i);
    assert CallOk(run[i], id);
  }

  /** While a set exists and no Gandi call writes it, it keeps its TTL, through
      any number of presents and cleanups, failed, dropped or replayed. */
  lemma {:induction false} TtlStays(run: seq<State>, events: seq<R.Event>, i: nat, j: nat, key: string)
    requires IsRun(run, events) && i <= j < |run|
    requires forall k | i <= k <= j :: key in run[k].server
    requires forall k | i <= k < j :: NoGandiWrite(run[k], run[k + 1], key)
    ensures run[j].server[key].ttl == run[i].server[key].ttl
    decreases j
  {
    if i < j {
      TtlStays(run, events, i, j - 1, key);
      RunKeepsInv(run, events, j - 1);
      var s, s' := run[j - 1], run[j];
      assert Step(s, events[j - 1], s') && NoGandiWrite(s, run[j - 1 + 1], key);
      if s'.server != s.server {
        var id, p :| WriteStep(s, s', id, p);
        WriteKeepsTheTtl(s, s', id, p, key);
      }
    }
  }
}

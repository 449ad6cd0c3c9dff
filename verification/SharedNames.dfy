/** Names as callers spell them, and the locks and record sets they reach. */
module SharedNames {
  import opened Prelude
  import opened Names
  import opened Solver
  import EndToEnd
  import L = LockedCalls
  import Providers

  /** The name `fqdn`, however spelled, in a zone of a provider: `key` is the lock
      and the record set it reaches. */
  ghost predicate Leads(namespace: string, zone: string, fqdn: string, key: string) {
    && '|' !in namespace && ValidZone(zone) && TrimDots(zone) == zone && ValidFqdn(fqdn)
    && RelativeName(Lower(fqdn), zone).Some?
    && key == LockKey(namespace, zone, RelativeName(Lower(fqdn), zone).value)
  }

  /** Two calls at work at once are for different names, however spelled, of one
      zone, or for different zones or providers. */
  lemma SpellingsTakeTurns<P>(s: L.Calls<P>, a: nat, b: nat, ns: string, zone: string, f: string,
                              ns': string, zone': string, f': string)
    requires L.Inv(s) && a in s.active && b in s.active && a != b
    requires L.Work(s.active[a]).Some? && L.Work(s.active[b]).Some?
    requires Leads(ns, zone, f, s.active[a].req.key) && Leads(ns', zone', f', s.active[b].req.key)
    ensures ns != ns' || zone != zone' || Normal(f) != Normal(f')
  {
    OneLockPerRecordSet(ns, zone, f, RelativeName(Lower(f), zone).value, ns', zone', f',
        RelativeName(Lower(f'), zone').value);
    assert L.TicketOk(s, a) && L.TicketOk(s, b);
    if s.active[a].req.key == s.active[b].req.key {
      L.HolderIsAlone(s, a, b);
      assert false;
    }
  }

  /** End to end: what one solve has presented for a name is stored in the record
      set that another solve reaches under any other spelling of the name. */
  lemma PresentedUnderEverySpelling(run: seq<EndToEnd.System>, i: nat, id: nat, j: nat,
                                    ns: string, zone: string, f: string, f': string, key: string)
    requires EndToEnd.IsRun(run) && i < |run| && id in run[i].solves
    requires run[i].solves[id].touched <= j < run[i].solves[id].presented && j < |run[i].solves[id].challenges|
    requires Leads(ns, zone, f, run[i].solves[id].challenges[j].key) && Leads(ns, zone, f', key) &&
        Normal(f) == Normal(f')
    ensures run[i].solves[id].challenges[j].value in Providers.Stored(run[i].provider, key)
  {
    OneLockPerRecordSet(ns, zone, f, RelativeName(Lower(f), zone).value, ns, zone, f',
        RelativeName(Lower(f'), zone).value);
    EndToEnd.PresentedValueStays(run, i, id, j);
  }
}

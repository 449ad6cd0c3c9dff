/** Which zone owns a name. Four strategies of the providers, each shown to
    find the longest enclosing zone, and the cache in front of the label walk. */
module ZoneResolution {
  import opened Prelude
  import opened Names

  // --- What every strategy is after -------------------------------------------------------

  /** The longest of the zones that enclose the name. */
  ghost predicate IsOwner(zones: set<string>, name: string, z: string) {
    z in zones && Encloses(z, name) && forall o | o in zones && Encloses(o, name) :: |o| <= |z|
  }

  ghost predicate Resolves(zones: set<string>, name: string, r: Option<string>) {
    if r.Some? then IsOwner(zones, name, r.value) else forall z | z in zones :: !Encloses(z, name)
  }

  /** There is at most one owner, so strategies that all find one agree. */
  lemma ResolutionIsUnique(zones: set<string>, name: string, r: Option<string>, r': Option<string>)
    requires Resolves(zones, name, r) && Resolves(zones, name, r')
    ensures r == r'
  {
    if r.Some? && r'.Some? {
      SameLengthSameZone(r.value, r'.value, name);
    }
  }

  lemma SameLengthSameZone(z: string, z': string, name: string)
    requires Encloses(z, name) && Encloses(z', name) && |z| == |z'|
    ensures z == z'
  {
    assert EndsWith(name, "." + z) ==> name[|name| - |z|..] == ("." + z)[1..] == z;
    assert EndsWith(name, "." + z') ==> name[|name| - |z'|..] == ("." + z')[1..] == z';
    assert name[0..] == name;
  }

  /** The zones of two labels or more, the only ones the walks ask for. */
  ghost function Eligible(zones: set<string>): set<string> {
    set z | z in zones && '.' in z
  }

  // --- The label walk: PowerDNS, Infomaniak, Route53 ----------------------------------------

  /** What the API answers for one candidate. */
  datatype Fetched = Absent | Present(zone: string) | Failed

  datatype Found = Found(zone: string) | NotFound | Refused

  /** A reported zone is checked before it is believed. */
  function Judge(name: string, f: Fetched): Found {
    match f
    case Absent => NotFound
    case Failed => Refused
    case Present(raw) =>
      var z := Normal(raw);
      if ValidZone(z) && RelativeName(name, z).Some? then Found(z) else Refused
  }

  function Answer(r: Found): Option<string> {
    if r.Found? then Some(r.zone) else None
  }

  /** How many candidates there are: the bare last label is never queried. */
  function Candidates(name: string): nat {
    |Split(name)| - 1
  }

  predicate AbsentAt(name: string, fetch: string -> Fetched, k: nat) {
    k < Candidates(name) ==> fetch(Candidate(name, k)).Absent?
  }

  function FetchedAt(name: string, fetch: string -> Fetched, k: nat): Fetched {
    if k < Candidates(name) then fetch(Candidate(name, k)) else Absent
  }

  method Walk(name: string, fetch: string -> Fetched) returns (r: Found, hit: nat)
    ensures hit <= Candidates(name) && forall k: nat | k < hit :: AbsentAt(name, fetch, k)
    ensures hit < Candidates(name) ==> !FetchedAt(name, fetch, hit).Absent?
    ensures r == Judge(name, FetchedAt(name, fetch, hit))
  {
    for start := 0 to Candidates(name)
      invariant forall k: nat | k < start :: AbsentAt(name, fetch, k)
    {
      var f := FetchedAt(name, fetch, start);
      if !f.Absent? {
        return Judge(name, f), start;
      }
    }
    return NotFound, Candidates(name);
  }

  /** The API knows exactly these zones; any request to it may fail. */
  ghost predicate Truthful(fetch: string -> Fetched, zones: set<string>) {
    forall c :: fetch(c) == Failed || fetch(c) == if c in zones then Present(c) else Absent
  }

  lemma AtOrAfter(name: string, z: string, zones: set<string>, fetch: string -> Fetched, hit: nat)
    requires Truthful(fetch, zones) && forall k: nat | k < hit :: AbsentAt(name, fetch, k)
    requires z in Eligible(zones) && Encloses(z, name)
    ensures exists k :: hit <= k < Candidates(name) && Candidate(name, k) == z
  {
    var k := EnclosingZoneIsCandidate(z, name);
    CandidateLabels(name, k);
    DotMeansTwoLabels(z);
    assert AbsentAt(name, fetch, k) ==> k >= Candidates(name);
  }

  lemma HitIsOwner(name: string, zones: set<string>, fetch: string -> Fetched, hit: nat)
    requires Truthful(fetch, zones) && forall k: nat | k < hit :: AbsentAt(name, fetch, k)
    requires hit < Candidates(name) && FetchedAt(name, fetch, hit).Present?
    ensures IsOwner(Eligible(zones), name, Candidate(name, hit))
  {
    var z := Candidate(name, hit);
    CandidateEncloses(name, hit);
    CandidateLabels(name, hit);
    DotMeansTwoLabels(z);
    forall o | o in Eligible(zones) && Encloses(o, name) ensures |o| <= |z| {
      AtOrAfter(name, o, zones, fetch, hit);
      var k :| hit <= k < Candidates(name) && Candidate(name, k) == o;
      if k > hit {
        CandidatesShrink(name, hit, k);
      }
    }
  }

  lemma CandidateIsNormal(fqdn: string, k: nat)
    requires ValidFqdn(fqdn) && k < Candidates(Normal(fqdn))
    ensures Normal(Candidate(Normal(fqdn), k)) == Candidate(Normal(fqdn), k)
  {
    var name := Normal(fqdn);
    var c := Candidate(name, k);
    LowerIsValid(fqdn);
    CandidateIsValidZone(name, k);
    CandidateEncloses(name, k);
    assert EndsWith(name, "." + c) ==> c == name[|name| - |c|..];
    assert Lower(c) == c;
  }

  /** For a valid name the walk refuses exactly when a request fails before an
      answer, and otherwise resolves the name among the zones of two labels or
      more: it never refuses what it finds. */
  lemma WalkFindsTheOwner(fqdn: string, zones: set<string>, fetch: string -> Fetched, hit: nat, r: Found)
    requires ValidFqdn(fqdn) && Truthful(fetch, zones)
    requires hit <= Candidates(Normal(fqdn)) && forall k: nat | k < hit :: AbsentAt(Normal(fqdn), fetch, k)
    requires hit < Candidates(Normal(fqdn)) ==> !FetchedAt(Normal(fqdn), fetch, hit).Absent?
    requires r == Judge(Normal(fqdn), FetchedAt(Normal(fqdn), fetch, hit))
    ensures r.Refused? <==> FetchedAt(Normal(fqdn), fetch, hit).Failed?
    ensures !r.Refused? ==> Resolves(Eligible(zones), Normal(fqdn), Answer(r))
  {
    var name := Normal(fqdn);
    LowerIsValid(fqdn);
    if hit < Candidates(name) {
      if FetchedAt(name, fetch, hit).Present? {
        HitIsOwner(name, zones, fetch, hit);
        CandidateIsNormal(fqdn, hit);
        CandidateIsValidZone(name, hit);
        RelativeNameRejoins(name, Candidate(name, hit));
      }
    } else {
      forall z | z in Eligible(zones) ensures !Encloses(z, name) {
        if Encloses(z, name) {
          AtOrAfter(name, z, zones, fetch, hit);
        }
      }
    }
  }

  // --- The cache in front of the walk --------------------------------------------------------

  class ZoneCache {
    const zoneOverride: Option<string>
    var cache: map<string, string>

    /** Every cached zone encloses the name it is cached for. */
    ghost predicate Valid()
      reads this
    {
      forall n | n in cache :: ValidZone(cache[n]) && RelativeName(n, cache[n]).Some?
    }

    /** Every cached zone is the one that an account with these zones resolves. */
    ghost predicate Faithful(zones: set<string>)
      reads this
    {
      forall n | n in cache :: Resolves(Eligible(zones), n, Some(cache[n]))
    }

    constructor (zoneOverride: Option<string>)
      ensures this.zoneOverride == zoneOverride && cache == map[] && Valid()
    {
      this.zoneOverride := zoneOverride;
      cache := map[];
    }

    /** `hit` is the number of candidates found absent, as in `Walk`. Only a
        success is remembered, and a remembered name is not looked up. */
    method Resolve(fqdn: string, fetch: string -> Fetched) returns (r: Found, hit: nat)
      requires Valid()
      modifies this
      ensures Valid()
      ensures zoneOverride.Some? ==> r == Found(zoneOverride.value) && cache == old(cache) && hit == 0
      ensures zoneOverride.None? && Normal(fqdn) in old(cache) ==>
          r == Found(old(cache)[Normal(fqdn)]) && cache == old(cache) && hit == 0
      ensures zoneOverride.None? && Normal(fqdn) !in old(cache) ==>
                && hit <= Candidates(Normal(fqdn)) && (forall k: nat | k < hit :: AbsentAt(Normal(fqdn), fetch, k))
                && (hit < Candidates(Normal(fqdn)) ==> !FetchedAt(Normal(fqdn), fetch, hit).Absent?)
                && r == Judge(Normal(fqdn), FetchedAt(Normal(fqdn), fetch, hit))
                && cache == if r.Found? then old(cache)[Normal(fqdn) := r.zone] else old(cache)
      ensures zoneOverride.None? && r.Found? ==> ValidZone(r.zone) && RelativeName(Normal(fqdn), r.zone).Some?
    {
      if zoneOverride.Some? {
        return Found(zoneOverride.value), 0;
      }
      var name := Normal(fqdn);
      if name in cache {
        return Found(cache[name]), 0;
      }
      r, hit := Walk(name, fetch);
      if r.Found? {
        cache := cache[name := r.zone];
      }
    }

    /** While the account does not change, the cache is invisible: whatever was
        asked and failed before, and however the name is spelled, an answer is
        the one a fresh walk gives, and a failure leaves no trace. */
    method ResolveStable(fqdn: string, fetch: string -> Fetched, ghost zones: set<string>) returns (r: Found)
      requires Valid() && zoneOverride.None? && Faithful(zones)
      requires ValidFqdn(fqdn) && Truthful(fetch, zones)
      modifies this
      ensures Valid() && Faithful(zones)
      ensures !r.Refused? ==> Resolves(Eligible(zones), Normal(fqdn), Answer(r))
      ensures r.Refused? ==> cache == old(cache) && Normal(fqdn) !in cache
    {
      var hit;
      r, hit := Resolve(fqdn, fetch);
      if Normal(fqdn) !in old(cache) {
        WalkFindsTheOwner(fqdn, zones, fetch, hit, r);
      }
    }
  }

  // --- The SOA walk: Gandi, and propagation -------------------------------------------------

  /** What follows the first dot. */
  function AfterDot(s: string): Option<string> {
    if s == "" then None else if s[0] == '.' then Some(s[1..]) else AfterDot(s[1..])
  }

  lemma {:induction false} AfterDotDropsALabel(s: string)
    ensures AfterDot(s) == if |Split(s)| == 1 then None else Some(Join(Split(s)[1..]))
  {
    if s != "" {
      if s[0] == '.' {
        JoinSplit(s[1..]);
        assert Split(s)[1..] == Split(s[1..]);
      } else {
        AfterDotDropsALabel(s[1..]);
        assert Split(s)[1..] == Split(s[1..])[1..];
      }
    }
  }

  lemma NextCandidate(name: string, k: nat)
    requires k < |Split(name)|
    ensures AfterDot(Candidate(name, k)) == if k + 1 == |Split(name)| then None else Some(Candidate(name, k + 1))
    ensures '.' in Candidate(name, k) <==> k < Candidates(name)
  {
    CandidateLabels(name, k);
    AfterDotDropsALabel(Candidate(name, k));
    DotMeansTwoLabels(Candidate(name, k));
    assert k + 1 < |Split(name)| ==> Split(name)[k..][1..] == Split(name)[k + 1..];
  }

  /** What is left begins with its first label. */
  lemma BeginsWithItsLabel(name: string, k: nat)
    requires k < |Split(name)|
    ensures Split(name)[k] != "" <==> Candidate(name, k) != "" && Candidate(name, k)[0] != '.'
  {
    LabelsHaveNoDot(name);
    var l := Split(name)[k];
    assert l in Split(name);
    assert Split(name)[k..][0] == l;
    if l != "" {
      assert l[0] in l;
      assert Candidate(name, k)[0] == l[0];
    }
  }

  /** An empty label, other than the first, ends the walk before candidate `j`. */
  ghost predicate CutOff(name: string, j: nat) {
    exists k | 1 <= k < |Split(name)| :: k <= j && Split(name)[k] == ""
  }

  /** Candidate `j` has two labels or more, is served, and is not cut off. */
  ghost predicate Reaches(name: string, served: set<string>, j: nat) {
    j < Candidates(name) && Candidate(name, j) in served && !CutOff(name, j)
  }

  ghost predicate ReachesSome(name: string, served: set<string>) {
    exists j: nat :: Reaches(name, served, j)
  }

  ghost predicate ReachesAs(name: string, served: set<string>, z: string) {
    exists j: nat :: Reaches(name, served, j) && Candidate(name, j) == z
  }

  /** `served` are the names with an SOA record. The walk finds a zone if and
      only if one of them is a candidate not behind an empty label. */
  method FindZone(fqdn: string, served: set<string>) returns (r: Option<string>)
    ensures r.Some? ==> IsOwner(Eligible(served), TrimDots(fqdn), r.value)
    ensures r.Some? ==> ReachesAs(TrimDots(fqdn), served, r.value)
    ensures r.Some? <==> ReachesSome(TrimDots(fqdn), served)
  {
    var name := TrimDots(fqdn);
    var candidate := name;
    ghost var k: nat := 0;
    CandidateLabels(name, 0);
    while true
      invariant k < |Split(name)| && candidate == Candidate(name, k)
      invariant forall j | 0 <= j < k :: Candidate(name, j) !in served
      invariant !CutOff(name, k)
      decreases |Split(name)| - k
    {
      NextCandidate(name, k);
      if candidate == "" || '.' !in candidate {
        return None;
      }
      if candidate in served {
        FirstServedIsOwner(name, served, k);
        assert Reaches(name, served, k);
        return Some(candidate);
      }
      var rest := AfterDot(candidate).value;
      BeginsWithItsLabel(name, k + 1);
      if rest == "" || rest[0] == '.' {
        return None;
      }
      candidate := rest;
      k := k + 1;
    }
  }

  /** For a valid name the SOA walk resolves it like the others. */
  lemma SoaWalkResolves(fqdn: string, served: set<string>, r: Option<string>)
    requires ValidFqdn(fqdn)
    requires r.Some? ==> IsOwner(Eligible(served), TrimDots(fqdn), r.value)
    requires r.Some? <==> ReachesSome(TrimDots(fqdn), served)
    ensures Resolves(Eligible(served), TrimDots(fqdn), r)
  {
    var name := TrimDots(fqdn);
    forall j: nat ensures !CutOff(name, j) {
      assert forall k | 0 <= k < |Split(name)| :: Split(name)[k] in Split(name);
    }
    if r.None? {
      forall z | z in Eligible(served) ensures !Encloses(z, name) {
        if Encloses(z, name) {
          var j := EnclosingZoneIsCandidate(z, name);
          NextCandidate(name, j);
          assert Reaches(name, served, j);
        }
      }
    }
  }

  lemma LeadingDot(z: string)
    ensures Split("." + z) == [""] + Split(z)
  {
    assert ("." + z)[1..] == z;
  }

  lemma EmptyLabelLabels(a: string, z: string)
    requires '.' !in a
    ensures Split(a + "." + ("." + z)) == [a, ""] + Split(z) && Encloses(z, a + "." + ("." + z))
  {
    SplitWithoutDot(a);
    SplitAtDot(a, "." + z);
    LeadingDot(z);
    EndsAfterDot(a + ".", z);
    assert a + "." + ("." + z) == (a + ".") + "." + z;
  }

  /** Names on which the SOA walk and the label walk part, such as `a..example.com`:
      the one zone served encloses the name, but behind an empty label. */
  lemma EmptyLabelHidesTheZone(a: string, z: string, r: Option<string>)
    requires '.' !in a && '.' in z
    requires r.Some? <==> ReachesSome(a + "." + ("." + z), {z})
    ensures r.None? && IsOwner(Eligible({z}), a + "." + ("." + z), z)
  {
    var name := a + "." + ("." + z);
    EmptyLabelLabels(a, z);
    forall j: nat ensures !Reaches(name, {z}, j) {
      if j < Candidates(name) && Candidate(name, j) == z {
        CandidateLabels(name, j);
        assert |Split(name)[j..]| == |Split(z)| && Split(name)[1] == "";
      }
    }
  }

  lemma FirstServedIsOwner(name: string, served: set<string>, k: nat)
    requires k < |Split(name)| && Candidate(name, k) in served && '.' in Candidate(name, k)
    requires forall j | 0 <= j < k :: Candidate(name, j) !in served
    ensures IsOwner(Eligible(served), name, Candidate(name, k))
  {
    CandidateEncloses(name, k);
    forall o | o in Eligible(served) && Encloses(o, name) ensures |o| <= |Candidate(name, k)| {
      var j := EnclosingZoneIsCandidate(o, name);
      if j > k {
        CandidatesShrink(name, k, j);
      }
    }
  }

  // --- The longest match of a listing: Bunny --------------------------------------------------

  datatype Listed = Listed(id: nat, domain: string)

  /** The comparison as it is made, on the end of the name and the byte before. */
  predicate IsSuffix(name: string, zone: string) {
    name == zone || (|name| > |zone| && name[|name| - |zone| - 1] == '.' && name[|name| - |zone|..] == zone)
  }

  lemma IsSuffixMeansEncloses(name: string, zone: string)
    ensures IsSuffix(name, zone) <==> Encloses(zone, name)
  {
    if |name| > |zone| {
      var end := name[|name| - |zone| - 1..];
      assert end[1..] == name[|name| - |zone|..];
      assert end[0] == '.' && end[1..] == zone ==> end == "." + zone;
      assert end == "." + zone ==> end[1..] == zone;
    }
  }

  ghost function Domains(listing: seq<Listed>): set<string> {
    set i | 0 <= i < |listing| :: listing[i].domain
  }

  /** Of several longest matches, the last listed wins. */
  method LongestMatch(name: string, listing: seq<Listed>) returns (r: Option<Listed>)
    ensures Resolves(Domains(listing), name, DomainOf(r))
    ensures r.Some? ==> exists i :: 0 <= i < |listing| && listing[i] == r.value
                                    && forall j | i < j < |listing| :: listing[j].domain != r.value.domain
  {
    r := None;
    ghost var at := 0;
    for i := 0 to |listing|
      invariant r.None? ==> forall j | 0 <= j < i :: !Encloses(listing[j].domain, name)
      invariant r.Some? ==> at < i && listing[at] == r.value && Encloses(r.value.domain, name)
      invariant r.Some? ==> forall j | 0 <= j < i && Encloses(listing[j].domain, name) ::
          |listing[j].domain| <= |r.value.domain|
      invariant r.Some? ==> forall j | at < j < i :: listing[j].domain != r.value.domain
    {
      var z := listing[i];
      IsSuffixMeansEncloses(name, z.domain);
      if IsSuffix(name, z.domain) && (r.None? || |z.domain| >= |r.value.domain|) {
        r := Some(z);
        at := i;
      }
    }
    if r.Some? {
      assert r.value.domain in Domains(listing);
    }
  }

  predicate OccursAt(s: string, part: string, i: nat) {
    i + |part| <= |s| && s[i..i + |part|] == part
  }

  ghost predicate Contains(s: string, part: string) {
    exists i :: OccursAt(s, part, i)
  }

  /** The last two labels of the name, or all of it. */
  function SearchFor(name: string): string {
    var n := |Split(name)|;
    Candidate(name, if n < 2 then 0 else n - 2)
  }

  lemma SearchIsInCandidates(name: string, k: nat)
    requires k < Candidates(name)
    ensures Contains(Candidate(name, k), SearchFor(name))
  {
    var labels := Split(name);
    var n := |labels|;
    var c, s := Candidate(name, k), SearchFor(name);
    if k < n - 2 {
      assert labels[k..] == labels[k..n - 2] + labels[n - 2..];
      JoinConcat(labels[k..n - 2], labels[n - 2..]);
      var p := Join(labels[k..n - 2]);
      assert c == p + "." + s;
      assert OccursAt(c, s, |p| + 1);
    } else {
      assert OccursAt(c, s, 0);
    }
  }

  /** Searching for the last two labels hides no zone the walk would find, and
      for a name of two labels or more it lets through none it would not ask for. */
  lemma SearchLosesNothing(account: set<string>, listed: set<string>, name: string, r: Option<string>)
    requires '.' in name
    requires forall z :: z in listed <==> z in account && Contains(z, SearchFor(name))
    requires Resolves(listed, name, r)
    ensures Resolves(Eligible(account), name, r)
  {
    forall z | Encloses(z, name) ensures z in listed <==> z in Eligible(account) {
      var k := EnclosingZoneIsCandidate(z, name);
      NextCandidate(name, k);
      DotMeansTwoLabels(name);
      if k < Candidates(name) {
        SearchIsInCandidates(name, k);
      } else {
        SearchIsLonger(name);
      }
    }
  }

  lemma SearchIsLonger(name: string)
    requires |Split(name)| >= 2
    ensures |SearchFor(name)| > |Candidate(name, Candidates(name))|
    ensures !Contains(Candidate(name, Candidates(name)), SearchFor(name))
  {
    CandidatesShrink(name, |Split(name)| - 2, |Split(name)| - 1);
  }

  // --- The paged listing: Google Cloud DNS ------------------------------------------------------

  /** A managed zone; its DNS name ends in a dot. */
  datatype Managed = Managed(id: string, dnsName: string, isPrivate: bool)

  datatype Page = Page(zones: seq<Managed>, more: bool)

  const MAX_PAGES: nat := 50

  datatype Best = Best(length: nat, id: string)

  /** The public zones of a page sequence, in the order they are read. */
  function Public(zones: seq<Managed>): seq<Managed> {
    if zones == [] then []
    else Public(zones[..|zones| - 1]) + if zones[|zones| - 1].isPrivate then [] else [zones[|zones| - 1]]
  }

  function PublicUpTo(pages: nat -> Page, n: nat): seq<Managed> {
    if n == 0 then [] else PublicUpTo(pages, n - 1) + Public(pages(n - 1).zones)
  }

  /** `best` is the first longest match of `seen`, at index `at`. */
  ghost predicate BestOf(name: string, seen: seq<Managed>, best: Option<Best>, at: nat) {
    if best.None? then forall j | 0 <= j < |seen| :: !Encloses(Lower(seen[j].dnsName), name)
    else
      && at < |seen| && best == Some(Best(|seen[at].dnsName|, seen[at].id)) && Encloses(Lower(seen[at].dnsName), name)
      && (forall j | 0 <= j < |seen| && Encloses(Lower(seen[j].dnsName), name) ::
          |seen[j].dnsName| <= best.value.length)
      && (forall j | 0 <= j < at && Encloses(Lower(seen[j].dnsName), name) :: |seen[j].dnsName| < best.value.length)
  }

  predicate Better(name: string, z: Managed, best: Option<Best>) {
    Encloses(Lower(z.dnsName), name) && (best.None? || |z.dnsName| > best.value.length)
  }

  lemma OneMoreZone(name: string, seen: seq<Managed>, best: Option<Best>, at: nat, z: Managed)
    requires BestOf(name, seen, best, at)
    ensures Better(name, z, best) ==> BestOf(name, seen + [z], Some(Best(|z.dnsName|, z.id)), |seen|)
    ensures !Better(name, z, best) ==> BestOf(name, seen + [z], best, at)
  {
  }

  lemma PublicAppend(seen: seq<Managed>, zones: seq<Managed>, i: nat)
    requires i < |zones|
    ensures seen + Public(zones[..i + 1]) == seen + Public(zones[..i]) + if zones[i].isPrivate then [] else [zones[i]]
  {
    assert zones[..i + 1][..i] == zones[..i];
  }

  method ReadPage(name: string, zones: seq<Managed>, best: Option<Best>, ghost seen: seq<Managed>, ghost at: nat)
    returns (best': Option<Best>, ghost at': nat)
    requires BestOf(name, seen, best, at)
    ensures BestOf(name, seen + Public(zones), best', at')
  {
    best', at' := best, at;
    ghost var now := seen;
    for i := 0 to |zones|
      invariant now == seen + Public(zones[..i]) && BestOf(name, now, best', at')
    {
      var z := zones[i];
      PublicAppend(seen, zones, i);
      if !z.isPrivate {
        OneMoreZone(name, now, best', at', z);
        if Better(name, z, best') {
          best', at' := Some(Best(|z.dnsName|, z.id)), |now|;
        }
        now := now + [z];
      }
    }
    assert zones[..|zones|] == zones;
  }

  datatype Resolved = Zone(id: string) | NoZone | TooManyPages

  /** `read` pages were read. */
  method PagedBest(name: string, pages: nat -> Page) returns (r: Resolved, read: nat, ghost at: nat)
    ensures r.TooManyPages? <==> forall k: nat | k < MAX_PAGES :: pages(k).more
    ensures !r.TooManyPages? ==>
              && 1 <= read <= MAX_PAGES && !pages(read - 1).more && (forall k: nat | k < read - 1 :: pages(k).more)
              && exists best :: BestOf(name, PublicUpTo(pages, read), best, at) &&
                  r == (if best.Some? then Zone(best.value.id) else NoZone)
  {
    var best: Option<Best> := None;
    at := 0;
    for n := 0 to MAX_PAGES
      invariant BestOf(name, PublicUpTo(pages, n), best, at)
      invariant forall k: nat | k < n :: pages(k).more
    {
      best, at := ReadPage(name, pages(n).zones, best, PublicUpTo(pages, n), at);
      assert PublicUpTo(pages, n + 1) == PublicUpTo(pages, n) + Public(pages(n).zones);
      if !pages(n).more {
        return if best.Some? then Zone(best.value.id) else NoZone, n + 1, at;
      }
    }
    return TooManyPages, MAX_PAGES, at;
  }

  /** The DNS names of a listing without their dots. */
  ghost function DnsNames(seen: seq<Managed>): set<string> {
    set j | 0 <= j < |seen| :: Normal(seen[j].dnsName)
  }

  lemma AbsoluteEncloses(zone: string, name: string)
    ensures Encloses(zone + ".", name + ".") <==> Encloses(zone, name)
  {
    var n, z := name + ".", zone + ".";
    assert n[..|name|] == name && z[..|zone|] == zone;
    if |name| > |zone| {
      var d := "." + zone;
      var tail := name[|name| - |zone| - 1..];
      assert n[|n| - |z| - 1..] == tail + ".";
      assert "." + z == d + ".";
      assert (tail + ".")[..|tail|] == tail && (d + ".")[..|d|] == d;
    }
  }

  predicate Absolute(m: Managed) {
    m.dnsName != "" && m.dnsName == TrimDots(m.dnsName) + "."
  }

  lemma AbsoluteIsNormal(m: Managed)
    requires Absolute(m)
    ensures Lower(m.dnsName) == Normal(m.dnsName) + "." && |m.dnsName| == |Normal(m.dnsName)| + 1
  {
    var t := TrimDots(m.dnsName);
    assert Lower(t + ".") == Lower(t) + ".";
  }

  /** The running best over the pages resolves the name among the public zones. */
  lemma BestIsOwner(name: string, seen: seq<Managed>, best: Option<Best>, at: nat)
    requires BestOf(name + ".", seen, best, at) && forall j | 0 <= j < |seen| :: Absolute(seen[j])
    ensures Resolves(DnsNames(seen), name, if best.Some? && at < |seen| then Some(Normal(seen[at].dnsName)) else None)
  {
    forall j | 0 <= j < |seen|
      ensures Encloses(Lower(seen[j].dnsName), name + ".") <==> Encloses(Normal(seen[j].dnsName), name)
      ensures |seen[j].dnsName| == |Normal(seen[j].dnsName)| + 1
    {
      AbsoluteIsNormal(seen[j]);
      AbsoluteEncloses(Normal(seen[j].dnsName), name);
    }
    if best.Some? {
      assert Normal(seen[at].dnsName) in DnsNames(seen);
    }
  }

  // --- Where the strategies part --------------------------------------------------------------

  /** Some zone of two labels or more encloses the name, or no zone at all does. */
  ghost predicate WalkSees(zones: set<string>, name: string) {
    || (exists z :: z in zones && '.' in z && Encloses(z, name))
    || (forall z | z in zones :: !Encloses(z, name))
  }

  lemma DottedIsLonger(z: string, o: string, name: string)
    requires Encloses(z, name) && Encloses(o, name) && '.' in z && '.' !in o
    ensures |o| < |z|
  {
    var j := EnclosingZoneIsCandidate(z, name);
    var k := EnclosingZoneIsCandidate(o, name);
    NextCandidate(name, j);
    NextCandidate(name, k);
    CandidatesShrink(name, j, k);
  }

  /** A listing may hold a zone of a single label, which no walk asks for. The
      longest match of the listing is the walk's answer if and only if the walk
      sees a zone that encloses the name, or none does. */
  lemma AgreeUnlessOneLabel(zones: set<string>, name: string, listed: Option<string>, walked: Option<string>)
    requires Resolves(zones, name, listed) && Resolves(Eligible(zones), name, walked)
    ensures listed == walked <==> WalkSees(zones, name)
  {
    if z :| z in zones && '.' in z && Encloses(z, name) {
      assert z in Eligible(zones);
      if '.' !in listed.value {
        DottedIsLonger(z, listed.value, name);
      }
      assert Resolves(Eligible(zones), name, listed);
      ResolutionIsUnique(Eligible(zones), name, listed, walked);
    }
  }

  /** An account whose only zone is a single label: the listing finds it for a
      name below it, and the walk nothing. */
  lemma OneLabelZoneParts(listed: Option<string>, walked: Option<string>)
    requires Resolves({"test"}, "a.test", listed) && Resolves(Eligible({"test"}), "a.test", walked)
    ensures listed == Some("test") && walked == None
  {
    assert "." + "test" == ".test" && EndsWith("a.test", ".test");
    assert Encloses("test", "a.test") && "test" in {"test"};
  }

  // --- All four agree -------------------------------------------------------------------------

  /** Domains listed by Bunny for a name: those of the account that contain the
      text searched for. */
  ghost predicate SearchResult(account: set<string>, name: string, listing: seq<Listed>) {
    forall z :: z in Domains(listing) <==> z in account && Contains(z, SearchFor(name))
  }

  /** The public zones of Google's pages, without their dots. */
  ghost predicate PagesHold(account: set<string>, seen: seq<Managed>) {
    DnsNames(seen) == account && forall j | 0 <= j < |seen| :: Absolute(seen[j])
  }

  /** On one account whose zones have two labels or more, and for one valid name,
      the label walk, Bunny's longest match, Google's paged best and the SOA walk
      give one answer: the longest enclosing zone, or none. */
  method AllStrategiesAgree(fqdn: string, account: set<string>, fetch: string -> Fetched, listing: seq<Listed>,
                            pages: nat -> Page)
    returns (walked: Found, listed: Option<Listed>, paged: Resolved, ghost at: nat, soa: Option<string>,
        ghost seen: seq<Managed>)
    requires ValidFqdn(fqdn) && '.' in Normal(fqdn) && Eligible(account) == account
    requires Truthful(fetch, account) && SearchResult(account, Normal(fqdn), listing)
    requires forall n: nat | n <= MAX_PAGES && LastRead(pages, n) :: PagesHold(account, PublicUpTo(pages, n))
    ensures Resolves(account, Normal(fqdn), soa) && DomainOf(listed) == soa
    ensures !walked.Refused? ==> Answer(walked) == soa
    ensures !paged.TooManyPages? ==> PagedAnswer(paged, seen, at) == soa
  {
    var hit, read;
    var name := Normal(fqdn);
    LowerIsValid(fqdn);
    walked, hit := Walk(name, fetch);
    WalkFindsTheOwner(fqdn, account, fetch, hit, walked);
    listed := LongestMatch(name, listing);
    SearchLosesNothing(account, Domains(listing), name, DomainOf(listed));
    soa := FindZone(name, account);
    SoaWalkResolves(name, account, soa);
    ResolutionIsUnique(account, name, soa, DomainOf(listed));
    if !walked.Refused? {
      ResolutionIsUnique(account, name, soa, Answer(walked));
    }
    paged, read, at := PagedBest(name + ".", pages);
    seen := PublicUpTo(pages, read);
    if !paged.TooManyPages? {
      assert LastRead(pages, read);
      PagedResolves(name, account, seen, paged, at);
      ResolutionIsUnique(account, name, soa, PagedAnswer(paged, seen, at));
    }
  }

  function DomainOf(r: Option<Listed>): Option<string> {
    if r.Some? then Some(r.value.domain) else None
  }

  /** Page `n` is the last one. */
  predicate LastRead(pages: nat -> Page, n: nat) {
    n >= 1 && !pages(n - 1).more && forall k: nat | k < n - 1 :: pages(k).more
  }

  /** The zone Google's answer stands for; `at` is where it was seen. */
  ghost function PagedAnswer(r: Resolved, seen: seq<Managed>, at: nat): Option<string> {
    if r.Zone? && at < |seen| then Some(Normal(seen[at].dnsName)) else None
  }

  lemma PagedResolves(name: string, account: set<string>, seen: seq<Managed>, r: Resolved, at: nat)
    requires PagesHold(account, seen)
    requires exists best ::
        BestOf(name + ".", seen, best, at) && r == (if best.Some? then Zone(best.value.id) else NoZone)
    ensures Resolves(account, name, PagedAnswer(r, seen, at))
  {
    var best :| BestOf(name + ".", seen, best, at) && r == (if best.Some? then Zone(best.value.id) else NoZone);
    BestIsOwner(name, seen, best, at);
  }
}

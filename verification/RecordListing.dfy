/** Infomaniak's paged listing of the TXT records at a name. The zone may
    change between two page requests: `zone(k)` is what it holds when page `k`,
    counted from 1, is requested. */
module RecordListing {
  import opened Prelude
  import opened Names
  import opened Pages

  datatype Record = Record(id: nat, kind: string, source: string, target: string)

  const MAX_PAGES: nat := 100

  /** The apex may be reported as ".", "@" or nothing. */
  predicate SameSource(source: string, rname: string) {
    var s := TrimDots(source);
    if rname == "@" then s == "" || s == "@" else Lower(s) == Lower(rname)
  }

  /** The name a reported source stands for. */
  function NameOf(source: string, zone: string): string {
    var s := TrimDots(source);
    if s == "" || s == "@" then zone else s + "." + zone
  }

  lemma SameLower(s: string, r: string, zone: string)
    ensures Lower(s + "." + zone) == Lower(r + "." + zone) <==> Lower(s) == Lower(r)
  {
    var a, b := Lower(s + "." + zone), Lower(r + "." + zone);
    assert a[..|s|] == Lower(s) && b[..|r|] == Lower(r);
    assert |a| == |s| + 1 + |zone| && |b| == |r| + 1 + |zone|;
    if Lower(s) == Lower(r) {
      assert |s| == |r|;
      assert forall i | 0 <= i < |s| :: Lower(s)[i] == Lower(r)[i];
    }
  }

  /** The comparison of sources finds exactly the records of the name, however
      the API writes the apex and the case. */
  lemma SameSourceIffSameName(source: string, fqdn: string, zone: string, rname: string)
    requires ValidFqdn(fqdn) && RelativeName(fqdn, zone) == Some(rname)
    ensures SameSource(source, rname) <==> Lower(NameOf(source, TrimDots(zone))) == Lower(TrimDots(fqdn))
  {
    var s, f, z := TrimDots(source), TrimDots(fqdn), TrimDots(zone);
    RelativeNameRejoins(fqdn, zone);
    ValidNamesAvoidTheAt(fqdn, zone);
    if f == z {
      assert s != "" && s != "@" ==> |NameOf(source, z)| > |z|;
    } else {
      SameLower(s, rname, z);
      RelativeIsALabel(fqdn, zone, rname);
      assert |f| > |z|;
      assert Lower("") == "" && Lower("@")[0] == '@';
    }
  }

  lemma ValidStart(fqdn: string)
    requires ValidFqdn(fqdn)
    ensures TrimDots(fqdn) != "" && HostChar(TrimDots(fqdn)[0])
  {
    var f := TrimDots(fqdn);
    var first := Split(f)[0];
    assert first in Split(f);
    assert f[0] != '.' ==> first[0] == f[0];
  }

  lemma RelativeIsALabel(fqdn: string, zone: string, rname: string)
    requires ValidFqdn(fqdn) && TrimDots(fqdn) == rname + "." + TrimDots(zone)
    ensures rname != "" && Lower(rname) != "" && Lower(rname)[0] != '@'
  {
    ValidStart(fqdn);
    assert (rname + "." + TrimDots(zone))[0] == if rname == "" then '.' else rname[0];
  }

  predicate Matches(r: Record, rname: string) {
    Lower(r.kind) == "txt" && SameSource(r.source, rname)
  }

  /** A record matches exactly if its type reads TXT in any case and its source
      is the name's. */
  lemma MatchesIffTxt(r: Record, rname: string)
    ensures Matches(r, rname) <==>
            && |r.kind| == 3 && (forall i | 0 <= i < 3 :: SameButCase(r.kind[i], "TXT"[i]))
            && SameSource(r.source, rname)
  {
    assert Lower(r.kind) == "txt" ==> |r.kind| == 3 && Lower(r.kind)[0] == 't' && Lower(r.kind)[1] == 'x'
                                      && Lower(r.kind)[2] == 't';
    if |r.kind| == 3 {
      SameLowerChar(r.kind[0], 'T');
      SameLowerChar(r.kind[1], 'X');
      SameLowerChar(r.kind[2], 'T');
      assert Lower(r.kind) == [LowerChar(r.kind[0]), LowerChar(r.kind[1]), LowerChar(r.kind[2])];
    }
  }

  function Matching(records: seq<Record>, rname: string): seq<Record> {
    if records == [] then []
    else
      var last := records[|records| - 1];
      Matching(records[..|records| - 1], rname) + if Matches(last, rname) then [last] else []
  }

  lemma {:induction false} MatchingConcat(a: seq<Record>, b: seq<Record>, rname: string)
    ensures Matching(a + b, rname) == Matching(a, rname) + Matching(b, rname)
  {
    if b == [] {
      assert a + b == a;
    } else {
      var n := |b| - 1;
      assert (a + b)[..|a| + n] == a + b[..n];
      MatchingConcat(a, b[..n], rname);
    }
  }

  lemma {:induction false} MatchingMembers(records: seq<Record>, rname: string, r: Record)
    ensures r in Matching(records, rname) <==> r in records && Matches(r, rname)
  {
    if records != [] {
      var n := |records| - 1;
      MatchingMembers(records[..n], rname, r);
      assert records == records[..n] + [records[n]];
    }
  }

  // --- The listing --------------------------------------------------------------------------

  /** What the filters leave of each page. */
  function Filtered(zone: nat -> seq<Record>, size: nat, rname: string): nat -> seq<Record> {
    (k: nat) => if k == 0 then [] else Matching(PageAt(zone(k), size, k), rname)
  }

  /** What reading the first `n` pages collects. */
  function Collected(page: nat -> seq<Record>, n: nat): seq<Record> {
    if n == 0 then [] else Collected(page, n - 1) + page(n)
  }

  /** `pages(k)` is the number of pages reported along with page `k`. */
  predicate LastPage(pages: nat -> nat, k: nat) {
    k >= pages(k)
  }

  /** Nothing when there are too many pages; `read` pages were read, `page`
      giving what each adds. */
  method ListTxtRecords(page: nat -> seq<Record>, pages: nat -> nat) returns (r: Option<seq<Record>>, read: nat)
    ensures 1 <= read <= 100 && forall k | 1 <= k < read :: k < pages(k)
    ensures r.Some? <==> read >= pages(read)
    ensures r.None? ==> read == 100
    ensures r.Some? ==> r.value == Collected(page, read)
  {
    var matching := [];
    read := 1;
    while true
      invariant 1 <= read <= MAX_PAGES && matching == Collected(page, read - 1)
      invariant forall k | 1 <= k < read :: k < pages(k)
      decreases MAX_PAGES - read
    {
      matching := matching + page(read);
      if LastPage(pages, read) {
        return Some(matching), read;
      }
      if read >= MAX_PAGES {
        return None, read;
      }
      read := read + 1;
    }
  }

  lemma OnePageMore(records: seq<Record>, size: nat, rname: string, n: nat)
    requires n >= 1
    ensures Matching(FirstPages(records, size, n), rname)
         == Matching(FirstPages(records, size, n - 1), rname) + Matching(PageAt(records, size, n), rname)
  {
    PagesAppend(records, size, n);
    MatchingConcat(FirstPages(records, size, n - 1), PageAt(records, size, n), rname);
  }

  predicate PageOf(page: nat -> seq<Record>, records: seq<Record>, size: nat, rname: string, k: nat) {
    k >= 1 && page(k) == Matching(PageAt(records, size, k), rname)
  }

  lemma {:induction false} CollectedFromOneList(page: nat -> seq<Record>, records: seq<Record>, size: nat,
                                                rname: string, n: nat)
    requires forall k | 1 <= k <= n :: PageOf(page, records, size, rname, k)
    ensures Collected(page, n) == Matching(FirstPages(records, size, n), rname)
  {
    if n > 0 {
      CollectedFromOneList(page, records, size, rname, n - 1);
      OnePageMore(records, size, rname, n);
      assert PageOf(page, records, size, rname, n);
    }
  }

  /** A zone that stays as it is gets listed whole: every matching record, once
      per occurrence and in order, and nothing else. */
  lemma StableZoneIsListedWhole(zone: nat -> seq<Record>, records: seq<Record>, size: nat, rname: string,
                                pages: nat -> nat, read: nat)
    requires size > 0 && pages(read) == PageCount(records, size) && forall k | 1 <= k <= read :: zone(k) == records
    requires read >= 1 && read >= pages(read)
    ensures Collected(Filtered(zone, size, rname), read) == Matching(records, rname)
  {
    var page := Filtered(zone, size, rname);
    assert forall k | 1 <= k <= read :: PageOf(page, records, size, rname, k);
    CollectedFromOneList(page, records, size, rname, read);
    LastPageEnds(records, size, read);
    assert FirstPages(records, size, read) == records;
  }

  // --- A zone that changes while it is listed ---------------------------------------------------

  predicate OnPage(page: nat -> seq<Record>, k: nat, r: Record) {
    r in page(k)
  }

  lemma {:induction false} CollectedMembers(page: nat -> seq<Record>, n: nat, r: Record)
    ensures r in Collected(page, n) <==> exists k | 1 <= k <= n :: OnPage(page, k, r)
  {
    if n > 0 {
      CollectedMembers(page, n - 1, r);
      assert OnPage(page, n, r) <==> r in page(n);
    }
  }

  /** Record `r` stands on page `k` when that is requested. */
  predicate StandsOn(zone: nat -> seq<Record>, size: nat, k: nat, r: Record) {
    k >= 1 && r in PageAt(zone(k), size, k)
  }

  /** Exactly those records are listed that stand on a page when it is read. */
  lemma ListedIffOnAPageRead(zone: nat -> seq<Record>, size: nat, rname: string, n: nat, r: Record)
    ensures r in Collected(Filtered(zone, size, rname), n)
            <==> Matches(r, rname) && exists k | 1 <= k <= n :: StandsOn(zone, size, k, r)
  {
    var page := Filtered(zone, size, rname);
    CollectedMembers(page, n, r);
    forall k | 1 <= k <= n ensures OnPage(page, k, r) <==> StandsOn(zone, size, k, r) && Matches(r, rname) {
      MatchingMembers(PageAt(zone(k), size, k), rname, r);
    }
    if k :| 1 <= k <= n && OnPage(page, k, r) {
      assert StandsOn(zone, size, k, r);
    }
    if k :| 1 <= k <= n && StandsOn(zone, size, k, r) {
      assert Matches(r, rname) ==> OnPage(page, k, r);
    }
  }

  /** Where record `r` stands when page `k` is requested. */
  predicate StandsAt(zone: nat -> seq<Record>, r: Record, k: nat, at: nat) {
    at < |zone(k)| && zone(k)[at] == r
  }

  /** By the end of page `k` or before. */
  predicate Passed(size: nat, k: nat, at: nat) {
    at < Offset(size, k)
  }

  lemma OnThePage(zone: nat -> seq<Record>, size: nat, r: Record, k: nat, at: nat)
    requires k >= 1 && StandsAt(zone, r, k, at) && Passed(size, k, at) && !Passed(size, k - 1, at)
    ensures StandsOn(zone, size, k, r)
  {
    var from := Min(Offset(size, k - 1), |zone(k)|);
    assert PageAt(zone(k), size, k)[at - from] == r;
  }

  /** The first page request that finds the record at or before its page. */
  lemma {:induction false} FirstPassed(size: nat, at: nat -> nat, n: nat) returns (k: nat)
    requires n >= 1 && Passed(size, n, at(n))
    ensures 1 <= k <= n && Passed(size, k, at(k)) && (k > 1 ==> !Passed(size, k - 1, at(k - 1)))
  {
    if n == 1 || !Passed(size, n - 1, at(n - 1)) {
      k := n;
    } else {
      k := FirstPassed(size, at, n - 1);
    }
  }

  /** A matching record that is there throughout and never moves towards the
      front is listed, whatever else is added, changed or removed behind it. */
  lemma RecordThatNeverMovesForwardIsListed(zone: nat -> seq<Record>, size: nat, rname: string, pages: nat -> nat,
                                            read: nat, r: Record, at: nat -> nat)
    requires size > 0 && pages(read) == PageCount(zone(read), size) && 1 <= read && pages(read) <= read &&
        Matches(r, rname)
    requires forall k | 1 <= k <= read :: StandsAt(zone, r, k, at(k))
    requires forall k | 1 < k <= read :: at(k - 1) <= at(k)
    ensures r in Collected(Filtered(zone, size, rname), read)
  {
    LastPageEnds(zone(read), size, read);
    assert StandsAt(zone, r, read, at(read));
    var k := FirstPassed(size, at, read);
    assert StandsAt(zone, r, k, at(k));
    OnThePage(zone, size, r, k, at(k));
    ListedIffOnAPageRead(zone, size, rname, read, r);
  }

  // --- Which records are safe -------------------------------------------------------------------

  /** A zone that is `first` when page 1 is requested, keeps `r`, and is read
      up to the last page: what may happen while it is listed. */
  ghost predicate Evolves(zone: nat -> seq<Record>, first: seq<Record>, size: nat, r: Record, read: nat) {
    && size > 0 && read >= 1 && zone(1) == first
    && (forall k | 1 <= k <= read :: Keeps(zone, r, k))
    && (forall k | 1 <= k <= read :: k >= PageCount(zone(k), size) <==> k == read)
  }

  predicate Keeps(zone: nat -> seq<Record>, r: Record, k: nat) {
    r in zone(k)
  }

  /** A record on the first page is listed whatever happens to the zone. */
  lemma FirstPageIsSafe(zone: nat -> seq<Record>, first: seq<Record>, size: nat, rname: string, r: Record, read: nat)
    requires Evolves(zone, first, size, r, read) && Matches(r, rname) && r in PageAt(first, size, 1)
    ensures r in Collected(Filtered(zone, size, rname), read)
  {
    assert StandsOn(zone, size, 1, r);
    ListedIffOnAPageRead(zone, size, rname, read, r);
  }

  /** Everything but `r` is removed after the first page was read. */
  function Stripped(first: seq<Record>, r: Record): nat -> seq<Record> {
    (k: nat) => if k <= 1 then first else [r]
  }

  /** Any other record can be missed, by removals alone. */
  lemma LaterPagesAreNot(first: seq<Record>, size: nat, rname: string, r: Record)
    requires size > 0 && r in first && r !in PageAt(first, size, 1)
    ensures Evolves(Stripped(first, r), first, size, r, 2)
    ensures r !in Collected(Filtered(Stripped(first, r), size, rname), 2)
  {
    var zone := Stripped(first, r);
    FirstPage(first, size);
    MoreThanOnePage(first, size);
    MoreThanOnePage([r], size);
    assert Keeps(zone, r, 1) && Keeps(zone, r, 2);
    assert Offset(size, 1) == size;
    assert PageAt([r], size, 2) == [];
    ListedIffOnAPageRead(zone, size, rname, 2, r);
    assert !StandsOn(zone, size, 1, r) && !StandsOn(zone, size, 2, r);
  }

  /** Listed in every evolution of the zone that keeps it. */
  ghost predicate AlwaysListed(first: seq<Record>, size: nat, rname: string, r: Record) {
    forall zone: nat -> seq<Record>, read: nat | Evolves(zone, first, size, r, read) ::
      r in Collected(Filtered(zone, size, rname), read)
  }

  /** A matching record at position `i` of the zone, when its first page is
      requested, is certain to be listed if and only if `i` is on that page. */
  lemma SafeIffOnTheFirstPage(first: seq<Record>, size: nat, rname: string, r: Record, i: nat)
    requires size > 0 && Matches(r, rname) && i < |first| && first[i] == r
    requires forall j | 0 <= j < |first| && first[j] == r :: j == i
    ensures AlwaysListed(first, size, rname, r) <==> i < size
  {
    FirstPage(first, size);
    if i < size {
      assert first[..Min(size, |first|)][i] == r;
      forall zone: nat -> seq<Record>, read: nat | Evolves(zone, first, size, r, read)
        ensures r in Collected(Filtered(zone, size, rname), read)
      {
        FirstPageIsSafe(zone, first, size, rname, r, read);
      }
    } else {
      LaterPagesAreNot(first, size, rname, r);
    }
  }

  // --- A removal in front ----------------------------------------------------------------------

  const OTHER := Record(1, "TXT", "www", "v")
  const OURS := Record(2, "TXT", "_acme-challenge", "v")

  /** Another name's record goes away after the first page. */
  function Shrinking(k: nat): seq<Record> {
    if k <= 1 then [OTHER, OURS] else [OURS]
  }

  /** Removing a record of another name between two page requests moves ours to
      a page already read: it was there throughout and is not listed. */
  lemma RemovalInFrontHidesARecord()
    ensures forall k | 1 <= k <= 2 :: OURS in Shrinking(k)
    ensures Matches(OURS, "_acme-challenge")
    ensures PageCount(Shrinking(1), 1) == 2 && PageCount(Shrinking(2), 1) == 1
    ensures Collected(Filtered(Shrinking, 1, "_acme-challenge"), 2) == []
  {
    assert Shrinking(1)[1] == OURS && Shrinking(2)[0] == OURS;
    assert Lower("TXT") == "txt";
    assert Lower("www") == "www" && Lower("_acme-challenge") == "_acme-challenge";
    assert PageAt(Shrinking(1), 1, 1) == [OTHER];
    assert PageAt(Shrinking(2), 1, 2) == [];
    assert Matching([OTHER], "_acme-challenge") == [] by {
      assert [OTHER][..0] == [];
      assert "www" != "_acme-challenge" by { assert |"www"| != |"_acme-challenge"|; }
    }
    assert Collected(Filtered(Shrinking, 1, "_acme-challenge"), 1) == [];
  }
}

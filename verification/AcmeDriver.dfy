/** The driver over an ACME order: one pass over the authorizations collects
    the pending DNS-01 challenges, a second one sets them ready. */
module AcmeDriver {
  import opened Prelude

  datatype Status = Pending | Valid | Other

  /** `domain` is absent when the identifier is not a DNS name, `url` when there
      is no DNS-01 challenge. */
  datatype Authorization = Authorization(status: Status, domain: Option<string>, url: Option<string>, value: string)

  /** An authorization is an HTTP fetch, which can fail. */
  datatype Fetch = FetchError | Fetched(authz: Authorization)

  datatype Error = Acme | ChallengeInvalid | UnsupportedIdentifier | NoDns01Challenge
                 | PresentFailed | InvalidToken | Disappeared

  datatype Result = Ok | Err(error: Error)

  datatype Challenge = Challenge(fqdn: string, value: string, token: nat)

  /** What goes into the cleanup guard. */
  datatype Placed = Placed(fqdn: string, value: string)

  /** What the queue holds: challenges, or the error that ended collection. */
  datatype Item = Yield(challenge: Challenge) | Fail(error: Error)

  // --- What the two passes are meant to do --------------------------------------

  predicate Skipped(f: Fetch) {
    f.Fetched? && f.authz.status.Valid?
  }

  /** The error an authorization ends the collection with, if any. */
  function ErrorOf(f: Fetch): Option<Error> {
    if f.FetchError? then Some(Acme)
    else if f.authz.status.Valid? then None
    else if f.authz.status.Other? then Some(ChallengeInvalid)
    else if f.authz.domain.None? then Some(UnsupportedIdentifier)
    else if f.authz.url.None? then Some(NoDns01Challenge)
    else None
  }

  /** The URLs of the pending challenges before the first error, in order. */
  function PendingUrls(fetches: seq<Fetch>): seq<string> {
    if fetches == [] || ErrorOf(fetches[0]).Some? then []
    else (if Skipped(fetches[0]) then [] else [fetches[0].authz.url.value]) + PendingUrls(fetches[1..])
  }

  function RecordOf(a: Authorization): Placed {
    Placed("_acme-challenge." + (if a.domain.Some? then a.domain.value else ""), a.value)
  }

  /** The records of the pending challenges before the first error, in order. */
  function PendingRecords(fetches: seq<Fetch>): seq<Placed> {
    if fetches == [] || ErrorOf(fetches[0]).Some? then []
    else (if Skipped(fetches[0]) then [] else [RecordOf(fetches[0].authz)]) + PendingRecords(fetches[1..])
  }

  /** Record and URL number `i` belong to one authorization. */
  lemma {:induction false} SameAuthorization(fetches: seq<Fetch>, i: nat) returns (k: nat)
    requires i < |PendingUrls(fetches)|
    ensures |PendingRecords(fetches)| == |PendingUrls(fetches)| && k < |fetches| && fetches[k].Fetched?
    ensures fetches[k].authz.url == Some(PendingUrls(fetches)[i]) &&
        RecordOf(fetches[k].authz) == PendingRecords(fetches)[i]
  {
    var own := if Skipped(fetches[0]) then 0 else 1;
    AsManyRecords(fetches[1..]);
    if i < own {
      k := 0;
    } else {
      k := SameAuthorization(fetches[1..], i - own);
      k := k + 1;
    }
  }

  lemma {:induction false} AsManyRecords(fetches: seq<Fetch>)
    ensures |PendingRecords(fetches)| == |PendingUrls(fetches)|
  {
    if fetches != [] {
      AsManyRecords(fetches[1..]);
    }
  }

  /** The error that ends the collection, if any. */
  function FirstError(fetches: seq<Fetch>): (e: Option<Error>)
    ensures e.Some? ==> e.value != InvalidToken && e.value != PresentFailed && e.value != Disappeared
  {
    if fetches == [] then None
    else if ErrorOf(fetches[0]).Some? then ErrorOf(fetches[0])
    else FirstError(fetches[1..])
  }

  /** An authorization that cannot be collected: its fetch failed, it is neither
      pending nor valid, or it is pending without a domain or a DNS-01 challenge. */
  predicate Unusable(f: Fetch) {
    || f.FetchError?
    || (f.authz.status != Pending && f.authz.status != Valid)
    || (f.authz.status == Pending && (f.authz.domain == None || f.authz.url == None))
  }

  /** What an unusable authorization is reported as. */
  ghost predicate ReportedAs(f: Fetch, e: Error) {
    if f.FetchError? then e == Acme
    else if f.authz.status != Pending then e == ChallengeInvalid
    else if f.authz.domain == None then e == UnsupportedIdentifier
    else e == NoDns01Challenge
  }

  ghost predicate IsPending(fetches: seq<Fetch>, k: nat) {
    k < |fetches| && fetches[k].Fetched? && fetches[k].authz.status == Pending
  }

  /** The positions of the pending ones among the first `e` authorizations. */
  ghost predicate PendingAt(fetches: seq<Fetch>, e: nat, at: seq<nat>) {
    && (forall i, j | 0 <= i < j < |at| :: at[i] < at[j])
    && (forall i | 0 <= i < |at| :: at[i] < e && IsPending(fetches, at[i]))
    && (forall k: nat | k < e && IsPending(fetches, k) :: k in at)
  }

  /** Challenge `i` is that of authorization `k`. */
  ghost predicate IsOf(fetches: seq<Fetch>, i: nat, k: nat) {
    && i < |PendingUrls(fetches)| && i < |PendingRecords(fetches)| && k < |fetches| && fetches[k].Fetched?
    && var a := fetches[k].authz;
       && a.url == Some(PendingUrls(fetches)[i]) && a.domain.Some?
       && PendingRecords(fetches)[i] == Placed("_acme-challenge." + a.domain.value, a.value)
  }

  /** In terms of the authorizations alone: collection ends at the first unusable
      one, `e`, and reports it; the challenges collected are exactly those of the
      pending ones before it, in order. */
  lemma {:induction false} CollectsThePending(fetches: seq<Fetch>, e: nat) returns (at: seq<nat>)
    requires e <= |fetches| && (e < |fetches| ==> Unusable(fetches[e]))
    requires forall k | 0 <= k < e :: !Unusable(fetches[k])
    ensures |PendingUrls(fetches)| == |PendingRecords(fetches)| == |at| && PendingAt(fetches, e, at)
    ensures forall i | 0 <= i < |at| :: IsOf(fetches, i, at[i])
    ensures if e == |fetches| then FirstError(fetches) == None
            else FirstError(fetches).Some? && ReportedAs(fetches[e], FirstError(fetches).value)
  {
    if e == 0 {
      at := [];
    } else {
      assert !Unusable(fetches[0]);
      var rest := CollectsThePending(fetches[1..], e - 1);
      at := (if IsPending(fetches, 0) then [0] else []) + Shifted(rest);
      ShiftedPending(fetches, e, rest);
      ShiftedIsOf(fetches, rest);
    }
  }

  lemma ShiftedIsOf(fetches: seq<Fetch>, rest: seq<nat>)
    requires fetches != [] && !Unusable(fetches[0])
    requires forall i | 0 <= i < |rest| :: IsOf(fetches[1..], i, rest[i])
    ensures var at := (if IsPending(fetches, 0) then [0] else []) + Shifted(rest);
            forall i | 0 <= i < |at| :: IsOf(fetches, i, at[i])
  {
    var own := if IsPending(fetches, 0) then [0] else [];
    var at := own + Shifted(rest);
    forall i | 0 <= i < |at| ensures IsOf(fetches, i, at[i]) {
      if i >= |own| {
        assert IsOf(fetches[1..], i - |own|, rest[i - |own|]);
      }
    }
  }

  function Shifted(at: seq<nat>): seq<nat> {
    seq(|at|, i requires 0 <= i < |at| => at[i] + 1)
  }

  lemma ShiftedIn(rest: seq<nat>, own: seq<nat>, k: nat)
    requires k in rest
    ensures k + 1 in own + Shifted(rest)
  {
    var i :| 0 <= i < |rest| && rest[i] == k;
    assert (own + Shifted(rest))[|own| + i] == k + 1;
  }

  lemma ShiftedPending(fetches: seq<Fetch>, e: nat, rest: seq<nat>)
    requires 0 < e <= |fetches| && PendingAt(fetches[1..], e - 1, rest)
    ensures PendingAt(fetches, e, (if IsPending(fetches, 0) then [0] else []) + Shifted(rest))
  {
    var own := if IsPending(fetches, 0) then [0] else [];
    var at := own + Shifted(rest);
    forall k: nat | k < e && IsPending(fetches, k) ensures k in at {
      if k == 0 {
        assert at[0] == 0;
      } else {
        assert IsPending(fetches[1..], k - 1);
        ShiftedIn(rest, own, k - 1);
      }
    }
    forall i | 0 <= i < |at| ensures at[i] < e && IsPending(fetches, at[i]) {
      if i >= |own| {
        assert IsPending(fetches[1..], rest[i - |own|]);
      }
    }
  }

  /** The DNS-01 URLs the second pass comes across. */
  function OfferedUrls(fetches: seq<Fetch>): seq<string> {
    if fetches == [] then []
    else
      var n := |fetches| - 1;
      OfferedUrls(fetches[..n]) +
      if fetches[n].Fetched? && fetches[n].authz.url.Some? then [fetches[n].authz.url.value] else []
  }

  /** What collection queues: the pending challenges, numbered on from `n`, and
      the error that ends them, if any. */
  function Items(fetches: seq<Fetch>, n: nat): seq<Item> {
    if fetches == [] then []
    else if ErrorOf(fetches[0]).Some? then [Fail(ErrorOf(fetches[0]).value)]
    else if Skipped(fetches[0]) then Items(fetches[1..], n)
    else
      var r := RecordOf(fetches[0].authz);
      [Yield(Challenge(r.fqdn, r.value, n))] + Items(fetches[1..], n + 1)
  }

  lemma {:induction false} ItemsLength(fetches: seq<Fetch>, n: nat)
    ensures |PendingRecords(fetches)| == |PendingUrls(fetches)|
    ensures |Items(fetches, n)| == |PendingUrls(fetches)| + if FirstError(fetches).Some? then 1 else 0
  {
    if fetches != [] {
      ItemsLength(fetches[1..], n);
      ItemsLength(fetches[1..], n + 1);
    }
  }

  /** Item `i` is challenge `i`, with token `n + i` and the record of its
      authorization; the one after the last challenge is the error. */
  lemma {:induction false} ItemAt(fetches: seq<Fetch>, n: nat, i: nat)
    requires i < |Items(fetches, n)|
    ensures |PendingRecords(fetches)| == |PendingUrls(fetches)|
    ensures i < |PendingUrls(fetches)| ==>
              var r := PendingRecords(fetches)[i]; Items(fetches, n)[i] == Yield(Challenge(r.fqdn, r.value, n + i))
    ensures i >= |PendingUrls(fetches)| ==>
        FirstError(fetches).Some? && Items(fetches, n)[i] == Fail(FirstError(fetches).value)
  {
    ItemsLength(fetches, n);
    if ErrorOf(fetches[0]).None? {
      if Skipped(fetches[0]) {
        ItemAt(fetches[1..], n, i);
      } else if i > 0 {
        ItemAt(fetches[1..], n + 1, i - 1);
      }
    }
  }

  function Asked(urls: seq<string>, tokens: seq<nat>): seq<string>
    requires forall i | 0 <= i < |tokens| :: tokens[i] < |urls|
  {
    seq(|tokens|, i requires 0 <= i < |tokens| => urls[tokens[i]])
  }

  /** Removes position `pos` by moving the last element into it. */
  function SwapRemove<T>(s: seq<T>, pos: nat): seq<T>
    requires pos < |s|
  {
    var n := |s| - 1;
    if pos == n then s[..n] else s[..n][pos := s[n]]
  }

  lemma SwapRemoveTakesOne<T>(s: seq<T>, pos: nat)
    requires pos < |s|
    ensures multiset(SwapRemove(s, pos)) == multiset(s) - multiset{s[pos]}
  {
    var n := |s| - 1;
    assert s == s[..n] + [s[n]];
    if pos < n {
      assert multiset(s[..n][pos := s[n]]) == multiset(s[..n]) - multiset{s[pos]} + multiset{s[n]};
    }
  }

  lemma OfferedAppend(fetches: seq<Fetch>, f: Fetch)
    ensures OfferedUrls(fetches + [f]) ==
            OfferedUrls(fetches) + if f.Fetched? && f.authz.url.Some? then [f.authz.url.value] else []
  {
    assert (fetches + [f])[..|fetches|] == fetches;
  }

  /** Where the second pass stands: what was sent and what is still wanted make
      up the request, and wanted is what has not been offered yet. */
  ghost predicate Balanced(requested: seq<string>, offered: seq<string>, sent: seq<string>, targets: seq<string>) {
    && multiset(sent) + multiset(targets) == multiset(requested)
    && multiset(targets) == multiset(requested) - multiset(offered)
  }

  lemma OfferTaken(requested: seq<string>, offered: seq<string>, sent: seq<string>, targets: seq<string>, pos: nat)
    requires Balanced(requested, offered, sent, targets) && pos < |targets|
    ensures Balanced(requested, offered + [targets[pos]], sent + [targets[pos]], SwapRemove(targets, pos))
  {
    SwapRemoveTakesOne(targets, pos);
    assert targets[pos] in multiset(targets);
  }

  lemma OfferPassed(requested: seq<string>, offered: seq<string>, sent: seq<string>, targets: seq<string>, u: string)
    requires Balanced(requested, offered, sent, targets) && u !in targets
    ensures Balanced(requested, offered + [u], sent, targets)
  {
    assert u !in multiset(targets);
  }

  function Position(s: seq<string>, u: string): (pos: nat)
    requires u in s
    ensures pos < |s| && s[pos] == u
  {
    if s[0] == u then 0 else 1 + Position(s[1..], u)
  }

  datatype Standing = Standing(targets: seq<string>, sent: seq<string>)

  /** One offered challenge: set ready and taken off the list if wanted. */
  function Offer(st: Standing, url: string): Standing {
    if url in st.targets
    then Standing(SwapRemove(st.targets, Position(st.targets, url)), st.sent + [url])
    else st
  }

  ghost function AfterOffers(requested: seq<string>, offered: seq<string>): Standing {
    if offered == [] then Standing(requested, [])
    else Offer(AfterOffers(requested, offered[..|offered| - 1]), offered[|offered| - 1])
  }

  /** What was sent and what is still wanted make up the request, and wanted is
      what has not been offered. */
  lemma {:induction false} OffersBalance(requested: seq<string>, offered: seq<string>)
    ensures var st := AfterOffers(requested, offered); Balanced(requested, offered, st.sent, st.targets)
  {
    if offered != [] {
      var n := |offered| - 1;
      var st := AfterOffers(requested, offered[..n]);
      OffersBalance(requested, offered[..n]);
      assert offered == offered[..n] + [offered[n]];
      if offered[n] in st.targets {
        OfferTaken(requested, offered[..n], st.sent, st.targets, Position(st.targets, offered[n]));
      } else {
        OfferPassed(requested, offered[..n], st.sent, st.targets, offered[n]);
      }
    }
  }

  /** Everything requested was sent exactly when all of it was offered. */
  lemma OffersSettle(requested: seq<string>, offered: seq<string>)
    ensures var st := AfterOffers(requested, offered);
            && multiset(st.sent) <= multiset(requested)
            && (st.targets == [] ==> multiset(st.sent) == multiset(requested))
            && (st.targets == [] <==> multiset(requested) <= multiset(offered))
  {
    OffersBalance(requested, offered);
    var st := AfterOffers(requested, offered);
    if st.targets != [] {
      assert st.targets[0] in multiset(st.targets);
    }
  }

  lemma OffersAppend(requested: seq<string>, offered: seq<string>, url: string)
    ensures AfterOffers(requested, offered + [url]) == Offer(AfterOffers(requested, offered), url)
  {
    assert (offered + [url])[..|offered|] == offered;
  }

  /** What an oracle answers, apart from the heap. */
  predicate Succeeds(oracle: nat -> bool, i: nat) {
    oracle(i)
  }

  /** The second pass ends with an ACME error at authorization `i`: its fetch
      fails, or its challenge is still wanted, being requested more often than
      offered before, and the server does not accept it. */
  predicate Rejected(requested: seq<string>, fetches: seq<Fetch>, accepts: nat -> bool, i: nat) {
    && i < |fetches|
    && (|| fetches[i].FetchError?
        || (&& fetches[i].authz.url.Some? && !Succeeds(accepts, i)
            && var u := fetches[i].authz.url.value;
               multiset(requested)[u] > multiset(OfferedUrls(fetches[..i]))[u]))
  }

  ghost predicate SomeRejected(requested: seq<string>, fetches: seq<Fetch>, accepts: nat -> bool) {
    exists i :: Rejected(requested, fetches, accepts, i)
  }

  /** Each of `sent` was offered and accepted at its own position, in order. */
  ghost predicate AcceptedAt(sent: seq<string>, at: seq<nat>, fetches: seq<Fetch>, accepts: nat -> bool) {
    && |at| == |sent| && (forall k, l | 0 <= k < l < |at| :: at[k] < at[l])
    && (forall k | 0 <= k < |at| :: Took(sent[k], at[k], fetches, accepts))
  }

  predicate Took(u: string, i: nat, fetches: seq<Fetch>, accepts: nat -> bool) {
    i < |fetches| && fetches[i].Fetched? && fetches[i].authz.url == Some(u) && Succeeds(accepts, i)
  }

  lemma TookOneMore(sent: seq<string>, at: seq<nat>, fetches: seq<Fetch>, accepts: nat -> bool, u: string, i: nat)
    requires AcceptedAt(sent, at, fetches, accepts) && (at != [] ==> at[|at| - 1] < i) && Took(u, i, fetches, accepts)
    ensures AcceptedAt(sent + [u], at + [i], fetches, accepts)
  {
  }

  lemma WantedIff(requested: seq<string>, offered: seq<string>, u: string)
    ensures u in AfterOffers(requested, offered).targets <==> multiset(requested)[u] > multiset(offered)[u]
  {
    OffersBalance(requested, offered);
    assert u in AfterOffers(requested, offered).targets <==> multiset(AfterOffers(requested, offered).targets)[u] > 0;
  }

  /** Where the pass stands before authorization `i`. */
  ghost function StandingAt(requested: seq<string>, fetches: seq<Fetch>, i: nat): Standing
    requires i <= |fetches|
  {
    AfterOffers(requested, OfferedUrls(fetches[..i]))
  }

  lemma OneMoreOffer(requested: seq<string>, fetches: seq<Fetch>, accepts: nat -> bool, i: nat)
    requires i < |fetches| && fetches[i].Fetched?
    ensures StandingAt(requested, fetches, i + 1) ==
            match fetches[i].authz.url
            case Some(u) => Offer(StandingAt(requested, fetches, i), u)
            case None => StandingAt(requested, fetches, i)
    ensures Rejected(requested, fetches, accepts, i) <==>
            && fetches[i].authz.url.Some? && !Succeeds(accepts, i)
            && fetches[i].authz.url.value in StandingAt(requested, fetches, i).targets
  {
    assert fetches[..i + 1] == fetches[..i] + [fetches[i]];
    OfferedAppend(fetches[..i], fetches[i]);
    if fetches[i].authz.url.Some? {
      OffersAppend(requested, OfferedUrls(fetches[..i]), fetches[i].authz.url.value);
      WantedIff(requested, OfferedUrls(fetches[..i]), fetches[i].authz.url.value);
    } else {
      assert OfferedUrls(fetches[..i + 1]) == OfferedUrls(fetches[..i]);
    }
  }

  /** As long as nothing is rejected, all that was sent was accepted where it was offered. */
  lemma {:induction false} SentWasAccepted(requested: seq<string>, fetches: seq<Fetch>, accepts: nat -> bool, n: nat)
    returns (at: seq<nat>)
    requires n <= |fetches| && forall j: nat | j < n :: !Rejected(requested, fetches, accepts, j)
    ensures AcceptedAt(StandingAt(requested, fetches, n).sent, at, fetches, accepts)
    ensures forall k | 0 <= k < |at| :: at[k] < n
  {
    at := [];
    if n > 0 {
      at := SentWasAccepted(requested, fetches, accepts, n - 1);
      assert !Rejected(requested, fetches, accepts, n - 1);
      OneMoreOffer(requested, fetches, accepts, n - 1);
      var st, url := StandingAt(requested, fetches, n - 1), fetches[n - 1].authz.url;
      if url.Some? && url.value in st.targets {
        TookOneMore(st.sent, at, fetches, accepts, url.value, n - 1);
        at := at + [n - 1];
      }
    }
  }

  /** The second pass over the authorizations: sets ready each target it comes
      across, and takes it off the list. `accepts` is the server's answer for
      the authorization at a position; `sent` are the challenges set ready. */
  method ReadyPass(requested: seq<string>, fetches: seq<Fetch>, accepts: nat -> bool)
    returns (r: Result, sent: seq<string>, ghost at: seq<nat>)
    ensures r.Ok? || r == Err(Acme) || r == Err(Disappeared)
    ensures r == Err(Acme) <==> SomeRejected(requested, fetches, accepts)
    ensures AcceptedAt(sent, at, fetches, accepts)
    ensures exists n: nat | n <= |fetches| :: sent == AfterOffers(requested, OfferedUrls(fetches[..n])).sent
    ensures r != Err(Acme) ==> sent == AfterOffers(requested, OfferedUrls(fetches)).sent
    ensures r != Err(Acme) ==> (r.Ok? <==> AfterOffers(requested, OfferedUrls(fetches)).targets == [])
  {
    var st := Standing(requested, []);
    for i := 0 to |fetches|
      invariant st == StandingAt(requested, fetches, i)
      invariant forall j: nat | j < i :: !Rejected(requested, fetches, accepts, j)
    {
      var f := fetches[i];
      if f.FetchError? {
        assert Rejected(requested, fetches, accepts, i);
        at := SentWasAccepted(requested, fetches, accepts, i);
        return Err(Acme), st.sent, at;
      }
      OneMoreOffer(requested, fetches, accepts, i);
      if f.authz.url.Some? {
        var url := f.authz.url.value;
        if url in st.targets && !Succeeds(accepts, i) {
          at := SentWasAccepted(requested, fetches, accepts, i);
          return Err(Acme), st.sent, at;
        }
        st := Offer(st, url);
      }
    }
    at := SentWasAccepted(requested, fetches, accepts, |fetches|);
    assert fetches[..|fetches|] == fetches;
    sent := st.sent;
    r := if st.targets == [] then Ok else Err(Disappeared);
  }

  /** How setting `asked` ready ended: every challenge sent was asked for and
      accepted where it was offered; it ends with an ACME error if and only if
      an authorization is rejected, and otherwise well if and only if all that
      was asked for is on offer, having then sent all of it. */
  ghost predicate Readied(r: Result, sent: seq<string>, at: seq<nat>, asked: seq<string>, fetches: seq<Fetch>,
                          accepts: nat -> bool)
  {
    && multiset(sent) <= multiset(asked) && AcceptedAt(sent, at, fetches, accepts)
    && (r == Err(Acme) <==> SomeRejected(asked, fetches, accepts))
    && (r != Err(Acme) ==> r == if multiset(asked) <= multiset(OfferedUrls(fetches)) then Ok else Err(Disappeared))
    && (r.Ok? ==> multiset(sent) == multiset(asked))
  }

  lemma PassSettles(r: Result, sent: seq<string>, asked: seq<string>, fetches: seq<Fetch>)
    requires r.Ok? || r == Err(Acme) || r == Err(Disappeared)
    requires exists n: nat | n <= |fetches| :: sent == AfterOffers(asked, OfferedUrls(fetches[..n])).sent
    requires r != Err(Acme) ==> sent == AfterOffers(asked, OfferedUrls(fetches)).sent
    requires r != Err(Acme) ==> (r.Ok? <==> AfterOffers(asked, OfferedUrls(fetches)).targets == [])
    ensures multiset(sent) <= multiset(asked)
    ensures r != Err(Acme) ==> r == if multiset(asked) <= multiset(OfferedUrls(fetches)) then Ok else Err(Disappeared)
    ensures r.Ok? ==> multiset(sent) == multiset(asked)
  {
    var n: nat :| n <= |fetches| && sent == AfterOffers(asked, OfferedUrls(fetches[..n])).sent;
    OffersSettle(asked, OfferedUrls(fetches[..n]));
    OffersSettle(asked, OfferedUrls(fetches));
  }

  // --- The driver ------------------------------------------------------------------

  class Driver {
    var queue: Option<seq<Item>>
    var urls: seq<string>
    /** The challenges the ACME server has been told are ready. */
    var readied: seq<string>

    constructor ()
      ensures queue == None && urls == [] && readied == []
    {
      queue, urls, readied := None, [], [];
    }

    /** Reads every authorization once. Collection stops at the first error,
        which is queued after the challenges found before it. */
    method Collect(fetches: seq<Fetch>) returns (found: seq<Item>)
      modifies this`urls
      ensures urls == old(urls) + PendingUrls(fetches)
      ensures found == Items(fetches, |old(urls)|)
    {
      found := [];
      var i := 0;
      while i < |fetches|
        invariant 0 <= i <= |fetches|
        invariant found + Items(fetches[i..], |urls|) == Items(fetches, |old(urls)|)
        invariant urls + PendingUrls(fetches[i..]) == old(urls) + PendingUrls(fetches)
      {
        var f := fetches[i];
        assert fetches[i..][0] == f && fetches[i..][1..] == fetches[i + 1..];
        var error := ErrorOf(f);
        if error.Some? {
          found := found + [Fail(error.value)];
          return;
        }
        if !Skipped(f) {
          found := found + [Yield(Challenge("_acme-challenge." + f.authz.domain.value, f.authz.value, |urls|))];
          urls := urls + [f.authz.url.value];
        }
        i := i + 1;
      }
    }

    /** Yields the next challenge or error, collecting on the first call. */
    method NextDns01(fetches: seq<Fetch>) returns (item: Option<Item>)
      modifies this
      ensures readied == old(readied) && queue.Some? && (item.None? ==> queue.value == [])
      ensures urls == old(urls) + if old(queue).None? then PendingUrls(fetches) else []
      ensures Outstanding(item, queue) == if old(queue).None? then Items(fetches, |old(urls)|) else old(queue).value
    {
      if queue.None? {
        var found := Collect(fetches);
        queue := Some(found);
      }
      if queue.value == [] {
        return None;
      }
      item := Some(queue.value[0]);
      assert [item.value] + queue.value[1..] == queue.value;
      queue := Some(queue.value[1..]);
    }

    /** Looks the tokens up, in order. */
    method Targets(tokens: seq<nat>) returns (targets: Option<seq<string>>)
      ensures targets.None? <==> exists i :: 0 <= i < |tokens| && tokens[i] >= |urls|
      ensures targets.Some? ==> targets.value == Asked(urls, tokens)
    {
      var found: seq<string> := [];
      for i := 0 to |tokens|
        invariant |found| == i
        invariant forall k | 0 <= k < i :: tokens[k] < |urls| && found[k] == urls[tokens[k]]
      {
        if tokens[i] >= |urls| {
          return None;
        }
        found := found + [urls[tokens[i]]];
      }
      assert found == Asked(urls, tokens);
      return Some(found);
    }

    /** Tells the server that the records of these challenges are in place. */
    method SetReady(tokens: seq<nat>, fetches: seq<Fetch>, accepts: nat -> bool) returns (r: Result, ghost at: seq<nat>)
      modifies this`readied
      ensures r == Err(InvalidToken) <==> exists i :: 0 <= i < |tokens| && tokens[i] >= |urls|
      ensures r == Err(InvalidToken) ==> readied == old(readied)
      ensures r != Err(InvalidToken) ==> old(readied) <= readied
      ensures r != Err(InvalidToken) ==>
                Readied(r, readied[|old(readied)|..], at, Asked(urls, tokens), fetches, accepts)
    {
      var targets := Targets(tokens);
      if targets.None? {
        return Err(InvalidToken), [];
      }
      var sent;
      r, sent, at := ReadyPass(targets.value, fetches, accepts);
      PassSettles(r, sent, targets.value, fetches);
      readied := readied + sent;
      assert readied[|old(readied)|..] == sent;
    }
  }

  /** What is left to yield, the item in hand included. */
  ghost function Outstanding(item: Option<Item>, queue: Option<seq<Item>>): seq<Item> {
    (if item.Some? then [item.value] else []) + if queue.Some? then queue.value else []
  }

  predicate Numbered(tokens: seq<nat>) {
    forall i | 0 <= i < |tokens| :: tokens[i] == i
  }

  /** Item number `n`, if there is one. */
  function Nth(items: seq<Item>, n: nat): Option<Item> {
    if n < |items| then Some(items[n]) else None
  }

  function Behind(items: seq<Item>, n: nat): seq<Item> {
    if n < |items| then items[n + 1..] else []
  }

  /** The first item: the driver collects. */
  method YieldFirst(driver: Driver, fetches: seq<Fetch>) returns (item: Option<Item>)
    requires driver.queue.None? && driver.urls == []
    modifies driver
    ensures driver.urls == PendingUrls(fetches) && driver.readied == old(driver.readied)
    ensures item == Nth(Items(fetches, 0), 0) && driver.queue == Some(Behind(Items(fetches, 0), 0))
  {
    item := driver.NextDns01(fetches);
    assert item.Some? ==> Outstanding(item, driver.queue)[0] == item.value;
    assert item.Some? ==> Outstanding(item, driver.queue)[1..] == driver.queue.value;
  }

  /** The next item, after item `n`. */
  method YieldNext(driver: Driver, fetches: seq<Fetch>, ghost items: seq<Item>, ghost n: nat)
    returns (item: Option<Item>)
    requires n < |items| && driver.queue == Some(Behind(items, n))
    modifies driver
    ensures driver.urls == old(driver.urls) && driver.readied == old(driver.readied)
    ensures item == Nth(items, n + 1) && driver.queue == Some(Behind(items, n + 1))
  {
    item := driver.NextDns01(fetches);
    assert item.Some? ==> Outstanding(item, driver.queue)[0] == item.value;
    assert item.Some? ==> Outstanding(item, driver.queue)[1..] == driver.queue.value;
    assert driver.urls == old(driver.urls);
  }

  /** The pushes are the first `n` records. */
  predicate Pushed(placed: seq<Placed>, n: nat, records: seq<Placed>) {
    n <= |records| && placed == records[..n]
  }

  ghost predicate AllSucceed(presents: nat -> bool, n: nat) {
    forall t: nat | t < n :: Succeeds(presents, t)
  }

  /** How the collecting loop ends: with the first present that fails, else with
      the error that ended the collection, else well. */
  ghost function Collected(fetches: seq<Fetch>, presents: nat -> bool): Result {
    if !AllSucceed(presents, |PendingUrls(fetches)|) then Err(PresentFailed)
    else if FirstError(fetches).Some? then Err(FirstError(fetches).value)
    else Ok
  }

  /** After `n` presents that succeeded, the next item decides how the loop goes on. */
  lemma LoopGoesOn(fetches: seq<Fetch>, presents: nat -> bool, n: nat)
    requires AllSucceed(presents, n) && n <= |PendingRecords(fetches)| && n <= |Items(fetches, 0)|
    ensures n == |Items(fetches, 0)| ==>
              Collected(fetches, presents) == Ok && FirstError(fetches).None? && n == |PendingUrls(fetches)|
    ensures n < |Items(fetches, 0)| ==>
              match Items(fetches, 0)[n]
              case Fail(e) => Collected(fetches, presents) == Err(e)
              case Yield(c) =>
                && n < |PendingRecords(fetches)| && c.token == n
                && PendingRecords(fetches)[n] == Placed(c.fqdn, c.value)
                && (!Succeeds(presents, n) ==> Collected(fetches, presents) == Err(PresentFailed))
  {
    ItemsLength(fetches, 0);
    if n < |Items(fetches, 0)| {
      ItemAt(fetches, 0, n);
    }
  }

  /** The loop has pushed, presented and kept the first `n` challenges. */
  ghost predicate Taken(n: nat, tokens: seq<nat>, placed: seq<Placed>, records: seq<Placed>, presents: nat -> bool) {
    n == |tokens| == |placed| && Numbered(tokens) && Pushed(placed, n, records) && AllSucceed(presents, n)
  }

  lemma TakesOneMore(n: nat, tokens: seq<nat>, placed: seq<Placed>, records: seq<Placed>, presents: nat -> bool)
    requires n < |records| && Taken(n, tokens, placed, records, presents)
    ensures Pushed(placed + [records[n]], n + 1, records)
    ensures Succeeds(presents, n) ==> Taken(n + 1, tokens + [n], placed + [records[n]], records, presents)
  {
    assert records[..n + 1] == records[..n] + [records[n]];
  }

  /** The solver's loop over the driver: push what it yields into the guard,
      present it, keep the tokens. `placed` are the pushes. */
  method CollectTokens(driver: Driver, fetches: seq<Fetch>, presents: nat -> bool)
    returns (r: Result, tokens: seq<nat>, placed: seq<Placed>)
    requires driver.queue.None? && driver.urls == [] && driver.readied == []
    modifies driver
    ensures driver.urls == PendingUrls(fetches) && driver.readied == []
    ensures Numbered(tokens) && |tokens| <= |placed| <= |tokens| + 1 &&
        Pushed(placed, |placed|, PendingRecords(fetches))
    ensures r == Collected(fetches, presents)
    ensures r.Ok? ==> FirstError(fetches).None? && |tokens| == |placed| == |driver.urls|
  {
    tokens, placed := [], [];
    var item := YieldFirst(driver, fetches);
    ghost var items, records := Items(fetches, 0), PendingRecords(fetches);
    while item.Some?
      invariant driver.urls == PendingUrls(fetches) && driver.readied == []
      invariant Taken(|tokens|, tokens, placed, records, presents) && |tokens| <= |items|
      invariant item == Nth(items, |tokens|) && driver.queue == Some(Behind(items, |tokens|))
      decreases |items| - |tokens|
    {
      LoopGoesOn(fetches, presents, |tokens|);
      if item.value.Fail? {
        return Err(item.value.error), tokens, placed;
      }
      TakesOneMore(|tokens|, tokens, placed, records, presents);
      var c := item.value.challenge;
      placed := placed + [Placed(c.fqdn, c.value)];
      if !Succeeds(presents, c.token) {
        return Err(PresentFailed), tokens, placed;
      }
      item := YieldNext(driver, fetches, items, |tokens|);
      tokens := tokens + [c.token];
    }
    LoopGoesOn(fetches, presents, |tokens|);
    r := Ok;
  }

  /** The solver's use of the driver. Whatever the fetches, presents and server
      answer, no token is ever invalid. Ok means that exactly the collected
      challenges were set ready and accepted, each as often as it was collected,
      and that the records of the same authorizations are in the guard. The
      outcome is that of the collection, or else that of the second pass. */
  method PresentThenReady(first: seq<Fetch>, presents: nat -> bool, second: seq<Fetch>, accepts: nat -> bool)
    returns (r: Result, urls: seq<string>, readied: seq<string>, placed: seq<Placed>, ghost at: seq<nat>)
    ensures urls == PendingUrls(first) && Pushed(placed, |placed|, PendingRecords(first))
    ensures r != Err(InvalidToken)
    ensures Collected(first, presents).Err? ==> r == Collected(first, presents) && readied == []
    ensures Collected(first, presents).Ok? ==>
              placed == PendingRecords(first) && Readied(r, readied, at, urls, second, accepts)
    ensures r.Ok? ==> Collected(first, presents).Ok? && multiset(readied) == multiset(urls)
  {
    var driver := new Driver();
    var tokens;
    r, tokens, placed := CollectTokens(driver, first, presents);
    urls, readied, at := driver.urls, driver.readied, [];
    if r.Ok? {
      AsManyRecords(first);
      assert Asked(urls, tokens) == urls;
      r, at := driver.SetReady(tokens, second, accepts);
      readied := driver.readied;
      assert readied[0..] == readied;
    }
  }

  /** With distinct URLs, equal multisets mean exactly once each. */
  lemma {:induction false} DistinctOccurOnce(urls: seq<string>, readied: seq<string>, u: string)
    requires forall i, j | 0 <= i < j < |urls| :: urls[i] != urls[j]
    requires multiset(readied) == multiset(urls) && u in urls
    ensures multiset(readied)[u] == 1
  {
    var n := |urls| - 1;
    assert urls == urls[..n] + [urls[n]];
    if urls[n] == u {
      assert u !in urls[..n];
    } else {
      DistinctOccurOnce(urls[..n], urls[..n], u);
    }
  }
}

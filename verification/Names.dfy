/** Domain names as strings and as labels, names relative to a zone, and the
    keys that serialise the writers of a record set. */
module Names {
  import opened Prelude

  // --- Labels ---------------------------------------------------------------------------

  /** The labels of a name, empty ones included: there is always one. */
  function Split(s: string): (labels: seq<string>)
    ensures |labels| >= 1
  {
    if s == "" then [""]
    else
      var rest := Split(s[1..]);
      if s[0] == '.' then [""] + rest else [[s[0]] + rest[0]] + rest[1..]
  }

  function Join(labels: seq<string>): string {
    if labels == [] then ""
    else if |labels| == 1 then labels[0]
    else labels[0] + "." + Join(labels[1..])
  }

  lemma {:induction false} SplitAtDot(p: string, z: string)
    ensures Split(p + "." + z) == Split(p) + Split(z)
  {
    var s := p + "." + z;
    if p == "" {
      assert s[1..] == z;
    } else {
      assert s[1..] == p[1..] + "." + z;
      SplitAtDot(p[1..], z);
    }
  }

  lemma {:induction false} SplitWithoutDot(s: string)
    requires '.' !in s
    ensures Split(s) == [s]
  {
    if s != "" {
      assert s[0] in s;
      SplitWithoutDot(s[1..]);
      assert [s[0]] + s[1..] == s;
    }
  }

  lemma {:induction false} LabelsHaveNoDot(s: string)
    ensures forall l | l in Split(s) :: '.' !in l
  {
    if s != "" {
      LabelsHaveNoDot(s[1..]);
      var rest := Split(s[1..]);
      assert rest[0] in rest;
    }
  }

  lemma {:induction false} JoinSplit(s: string)
    ensures Join(Split(s)) == s
  {
    if s != "" {
      JoinSplit(s[1..]);
      var rest := Split(s[1..]);
      if s[0] == '.' {
        assert Split(s)[1..] == rest;
      } else if |rest| > 1 {
        assert Split(s)[1..] == rest[1..];
      }
    }
  }

  lemma {:induction false} SplitJoin(labels: seq<string>)
    requires labels != [] && forall l | l in labels :: '.' !in l
    ensures Split(Join(labels)) == labels
  {
    assert labels[0] in labels;
    SplitWithoutDot(labels[0]);
    if |labels| > 1 {
      SplitJoin(labels[1..]);
      SplitAtDot(labels[0], Join(labels[1..]));
    }
  }

  lemma {:induction false} JoinConcat(a: seq<string>, b: seq<string>)
    requires a != [] && b != []
    ensures Join(a + b) == Join(a) + "." + Join(b)
  {
    assert (a + b)[1..] == a[1..] + b;
    if |a| > 1 {
      JoinConcat(a[1..], b);
    } else {
      assert a[1..] + b == b;
    }
  }

  /** The name from label `start` on. */
  function Candidate(name: string, start: nat): string
    requires start < |Split(name)|
  {
    Join(Split(name)[start..])
  }

  lemma CandidateLabels(name: string, start: nat)
    requires start < |Split(name)|
    ensures Split(Candidate(name, start)) == Split(name)[start..]
    ensures Candidate(name, 0) == name
  {
    LabelsHaveNoDot(name);
    SplitJoin(Split(name)[start..]);
    JoinSplit(name);
    assert Split(name)[0..] == Split(name);
  }

  lemma DotMeansTwoLabels(s: string)
    ensures '.' in s <==> |Split(s)| >= 2
  {
    if '.' in s {
      var i :| 0 <= i < |s| && s[i] == '.';
      assert s == s[..i] + "." + s[i + 1..];
      SplitAtDot(s[..i], s[i + 1..]);
    } else {
      SplitWithoutDot(s);
    }
  }

  // --- Zones enclose names --------------------------------------------------------------

  predicate EndsWith(s: string, t: string) {
    |t| <= |s| && s[|s| - |t|..] == t
  }

  predicate Encloses(zone: string, name: string) {
    name == zone || EndsWith(name, "." + zone)
  }

  /** Comparing text after a dot is comparing whole labels: a zone encloses a
      name exactly if its labels end the name's. */
  lemma EnclosesIffLabelsEnd(zone: string, name: string)
    ensures Encloses(zone, name) <==> exists k :: 0 <= k < |Split(name)| && Split(name)[k..] == Split(zone)
  {
    var labels := Split(name);
    if name == zone {
      assert labels[0..] == Split(zone);
    } else if EndsWith(name, "." + zone) {
      var p := name[..|name| - |zone| - 1];
      assert name == p + "." + zone;
      SplitAtDot(p, zone);
      assert labels[|Split(p)|..] == Split(zone);
    }
    if k :| 0 <= k < |labels| && labels[k..] == Split(zone) {
      LabelsEndMeansEncloses(zone, name, k);
    }
  }

  lemma CutAt(name: string, k: nat)
    requires 0 < k < |Split(name)|
    ensures name == Join(Split(name)[..k]) + "." + Candidate(name, k)
  {
    var labels := Split(name);
    JoinSplit(name);
    assert labels == labels[..k] + labels[k..];
    JoinConcat(labels[..k], labels[k..]);
  }

  lemma EndsAfterDot(p: string, zone: string)
    ensures EndsWith(p + "." + zone, "." + zone)
  {
    assert p + "." + zone == p + ("." + zone);
  }

  lemma LabelsEndMeansEncloses(zone: string, name: string, k: nat)
    requires k < |Split(name)| && Split(name)[k..] == Split(zone)
    ensures Encloses(zone, name)
  {
    JoinSplit(zone);
    if k == 0 {
      CandidateLabels(name, 0);
    } else {
      CutAt(name, k);
      EndsAfterDot(Join(Split(name)[..k]), zone);
    }
  }

  /** The zones enclosing a name are the candidates it is cut into. */
  lemma EnclosingZoneIsCandidate(zone: string, name: string) returns (k: nat)
    requires Encloses(zone, name)
    ensures k < |Split(name)| && Candidate(name, k) == zone
  {
    EnclosesIffLabelsEnd(zone, name);
    k :| k < |Split(name)| && Split(name)[k..] == Split(zone);
    JoinSplit(zone);
  }

  lemma CandidateEncloses(name: string, k: nat)
    requires k < |Split(name)|
    ensures Encloses(Candidate(name, k), name)
  {
    CandidateLabels(name, k);
    LabelsEndMeansEncloses(Candidate(name, k), name, k);
  }

  /** Cutting off more labels leaves less. */
  lemma CandidatesShrink(name: string, j: nat, k: nat)
    requires j < k < |Split(name)|
    ensures |Candidate(name, j)| > |Candidate(name, k)|
  {
    var labels := Split(name);
    assert labels[j..] == labels[j..k] + labels[k..];
    JoinConcat(labels[j..k], labels[k..]);
  }

  // --- Spelling ---------------------------------------------------------------------------

  function TrimDots(s: string): string {
    if s != "" && s[|s| - 1] == '.' then TrimDots(s[..|s| - 1]) else s
  }

  function LowerChar(c: char): char {
    if 'A' <= c <= 'Z' then c - 'A' + 'a' else c
  }

  function Lower(s: string): string {
    seq(|s|, i requires 0 <= i < |s| => LowerChar(s[i]))
  }

  lemma {:induction false} TrimLower(s: string)
    ensures TrimDots(Lower(s)) == Lower(TrimDots(s))
  {
    if s != "" && s[|s| - 1] == '.' {
      assert Lower(s)[..|s| - 1] == Lower(s[..|s| - 1]);
      TrimLower(s[..|s| - 1]);
    }
  }

  lemma {:induction false} TrimIsIdempotent(s: string)
    ensures TrimDots(TrimDots(s)) == TrimDots(s)
  {
    if s != "" && s[|s| - 1] == '.' {
      TrimIsIdempotent(s[..|s| - 1]);
    }
  }

  /** One spelling per name: no trailing dots, lower case. */
  function Normal(fqdn: string): string {
    Lower(TrimDots(fqdn))
  }

  /** Trimming takes off dots, and all of them. */
  lemma {:induction false} TrimTakesOffDots(s: string)
    ensures TrimDots(s) <= s && forall i | |TrimDots(s)| <= i < |s| :: s[i] == '.'
    ensures TrimDots(s) == "" || TrimDots(s)[|TrimDots(s)| - 1] != '.'
  {
    if s != "" && s[|s| - 1] == '.' {
      TrimTakesOffDots(s[..|s| - 1]);
    }
  }

  /** The same character, or the same letter of the alphabet in the other case. */
  predicate SameButCase(c: char, d: char) {
    || c == d
    || ('a' <= c <= 'z' && d as int == c as int - 32)
    || ('a' <= d <= 'z' && c as int == d as int - 32)
  }

  /** Two names have one spelling exactly if, trailing dots apart, they agree
      character by character up to the case of the letters A to Z. */
  lemma NormalIffSameButCase(f: string, g: string)
    ensures Normal(f) == Normal(g) <==>
            && |TrimDots(f)| == |TrimDots(g)|
            && forall i | 0 <= i < |TrimDots(f)| :: SameButCase(TrimDots(f)[i], TrimDots(g)[i])
  {
    var a, b := TrimDots(f), TrimDots(g);
    assert |Lower(a)| == |a| && |Lower(b)| == |b|;
    if |a| == |b| {
      forall i | 0 <= i < |a| ensures Lower(a)[i] == Lower(b)[i] <==> SameButCase(a[i], b[i]) {
        SameLowerChar(a[i], b[i]);
      }
    }
  }

  lemma SameLowerChar(c: char, d: char)
    ensures LowerChar(c) == LowerChar(d) <==> SameButCase(c, d)
  {
  }

  // --- Validation ----------------------------------------------------------------------

  predicate HostChar(c: char) {
    'a' <= c <= 'z' || 'A' <= c <= 'Z' || '0' <= c <= '9' || c == '-' || c == '_'
  }

  predicate ValidLabel(l: string) {
    1 <= |l| <= 63 && forall c | c in l :: HostChar(c)
  }

  predicate ValidFqdn(fqdn: string) {
    1 <= |TrimDots(fqdn)| <= 253 && forall l | l in Split(TrimDots(fqdn)) :: ValidLabel(l)
  }

  predicate ValidZone(zone: string) {
    ValidFqdn(zone) && '.' in TrimDots(zone)
  }

  /** A stretch of a name between two dots, or a dot and an end. */
  ghost predicate Segment(s: string, i: int, j: int) {
    && 0 <= i <= j <= |s| && '.' !in s[i..j]
    && (i == 0 || s[i - 1] == '.') && (j == |s| || s[j] == '.')
  }

  /** What validation asks of a label, by character codes. */
  ghost predicate GoodSegment(s: string, i: int, j: int)
    requires 0 <= i <= j <= |s|
  {
    i < j && j - i < 64 && forall k | i <= k < j :: HostCode(s[k] as int)
  }

  predicate HostCode(n: int) {
    0x61 <= n <= 0x7A || 0x41 <= n <= 0x5A || 0x30 <= n <= 0x39 || n == 0x2D || n == 0x5F
  }

  ghost predicate AllSegmentsGood(s: string) {
    forall i, j | Segment(s, i, j) :: GoodSegment(s, i, j)
  }

  lemma LabelIsGood(l: string)
    requires '.' !in l
    ensures ValidLabel(l) <==> GoodSegment(l, 0, |l|)
  {
    if ValidLabel(l) {
      assert forall k | 0 <= k < |l| :: l[k] in l;
    }
  }

  /** The first dot, or the end. */
  function FirstDot(s: string): (n: nat)
    ensures n <= |s| && '.' !in s[..n] && (n < |s| ==> s[n] == '.')
  {
    if s == "" || s[0] == '.' then 0
    else
      var n := 1 + FirstDot(s[1..]);
      assert s[..n] == [s[0]] + s[1..][..n - 1];
      n
  }

  lemma SegmentsAfterDot(p: string, z: string)
    requires '.' !in p
    ensures AllSegmentsGood(p + "." + z) <==> GoodSegment(p, 0, |p|) && AllSegmentsGood(z)
  {
    var s := p + "." + z;
    assert s[0..|p|] == p && Segment(s, 0, |p|);
    assert GoodSegment(s, 0, |p|) <==> GoodSegment(p, 0, |p|) by {
      assert forall k | 0 <= k < |p| :: s[k] == p[k];
    }
    forall i, j | Segment(z, i, j) ensures Segment(s, i + |p| + 1, j + |p| + 1) {
      assert s[i + |p| + 1..j + |p| + 1] == z[i..j];
    }
    forall i, j | Segment(z, i, j) && AllSegmentsGood(s) ensures GoodSegment(z, i, j) {
      assert GoodSegment(s, i + |p| + 1, j + |p| + 1);
      assert forall k | i <= k < j :: z[k] == s[k + |p| + 1];
    }
    forall i, j | Segment(s, i, j) && GoodSegment(p, 0, |p|) && AllSegmentsGood(z) ensures GoodSegment(s, i, j) {
      SegmentIsFirstOrLater(p, z, i, j);
    }
  }

  lemma SegmentIsFirstOrLater(p: string, z: string, i: int, j: int)
    requires '.' !in p && Segment(p + "." + z, i, j)
    ensures (i == 0 && j == |p|) || (i > |p| && Segment(z, i - |p| - 1, j - |p| - 1))
    ensures var s := p + "." + z;
            i > |p| ==> GoodSegment(z, i - |p| - 1, j - |p| - 1) ==> GoodSegment(s, i, j)
  {
    var s := p + "." + z;
    FirstMark('.', p, z);
    if i <= |p| {
      assert i == 0;
    } else {
      assert z[i - |p| - 1..j - |p| - 1] == s[i..j];
      assert i > |p| + 1 ==> s[i - 1] == z[i - 1 - |p| - 1];
      assert forall k | i <= k < j :: s[k] == z[k - |p| - 1];
    }
  }

  lemma {:induction false} LabelsAreSegments(s: string)
    ensures (forall l | l in Split(s) :: ValidLabel(l)) <==> AllSegmentsGood(s)
    decreases |s|
  {
    var n := FirstDot(s);
    var p := s[..n];
    if n == |s| {
      assert p == s;
      SplitWithoutDot(s);
      LabelIsGood(s);
      assert s[0..|s|] == s && Segment(s, 0, |s|);
      assert forall i, j | Segment(s, i, j) :: i == 0 && j == |s|;
    } else {
      var z := s[n + 1..];
      assert s == p + "." + z;
      SplitAtDot(p, z);
      SplitWithoutDot(p);
      LabelsAreSegments(z);
      LabelIsGood(p);
      SegmentsAfterDot(p, z);
      assert Split(s)[0] == p && Split(s)[1..] == Split(z);
    }
  }

  /** Validation in terms of the characters alone: trailing dots apart, 1 to 253
      of them, and between dots 1 to 63 letters, digits, hyphens or underscores. */
  lemma ValidIffSegmentsGood(fqdn: string)
    ensures ValidFqdn(fqdn) <==> TrimDots(fqdn) != "" && |TrimDots(fqdn)| < 254 && AllSegmentsGood(TrimDots(fqdn))
  {
    LabelsAreSegments(TrimDots(fqdn));
  }

  /** A zone is a valid name of two labels or more. */
  lemma ValidZoneIffTwoLabels(zone: string)
    ensures ValidZone(zone) <==> ValidFqdn(zone) && |Split(TrimDots(zone))| >= 2
  {
    var t := TrimDots(zone);
    if '.' in t {
      var n := FirstDot(t);
      assert t[..|t|] == t;
      assert t == t[..n] + "." + t[n + 1..];
      SplitAtDot(t[..n], t[n + 1..]);
    } else {
      SplitWithoutDot(t);
    }
  }

  lemma {:induction false} CharsOf(s: string, c: char)
    requires c in s && c != '.'
    ensures exists l :: l in Split(s) && c in l
  {
    var rest := Split(s[1..]);
    if s[0] == c {
      assert [s[0]] + rest[0] in Split(s);
    } else {
      assert s == [s[0]] + s[1..];
      CharsOf(s[1..], c);
      var l :| l in rest && c in l;
      if s[0] != '.' {
        if l == rest[0] {
          assert [s[0]] + rest[0] in Split(s);
        } else {
          assert l in rest[1..];
        }
      }
    }
  }

  lemma ValidChars(fqdn: string)
    requires ValidFqdn(fqdn)
    ensures forall c | c in TrimDots(fqdn) :: c == '.' || HostChar(c)
  {
    forall c | c in TrimDots(fqdn) && c != '.' ensures HostChar(c) {
      CharsOf(TrimDots(fqdn), c);
    }
  }

  lemma {:induction false} LastLabel(s: string)
    ensures s != "" && s[|s| - 1] == '.' ==> "" in Split(s)
  {
    if s != "" && s[|s| - 1] == '.' {
      var p := s[..|s| - 1];
      assert s == p + "." + "";
      SplitAtDot(p, "");
    }
  }

  /** Every candidate of two labels or more of a valid name passes for a zone. */
  lemma CandidateIsValidZone(name: string, k: nat)
    requires ValidFqdn(name) && TrimDots(name) == name && k + 1 < |Split(name)|
    ensures ValidZone(Candidate(name, k)) && TrimDots(Candidate(name, k)) == Candidate(name, k)
  {
    var c := Candidate(name, k);
    CandidateLabels(name, k);
    DotMeansTwoLabels(c);
    assert forall l | l in Split(c) :: l in Split(name);
    LastLabel(c);
    if k > 0 {
      CandidatesShrink(name, 0, k);
      CandidateLabels(name, 0);
    }
  }

  // --- Names relative to a zone -----------------------------------------------------------

  function RelativeName(fqdn: string, zone: string): Option<string> {
    var f, z := TrimDots(fqdn), TrimDots(zone);
    if f == z then Some("@")
    else if EndsWith(f, "." + z) then Some(f[..|f| - |z| - 1])
    else None
  }

  /** What a relative name stands for. */
  function Rejoin(rname: string, zone: string): string {
    if rname == "@" then zone else rname + "." + zone
  }

  /** A relative name exists exactly inside the zone, and it stands for the
      name it was taken from, except that a label `@` reads as the apex. */
  lemma RelativeNameRejoins(fqdn: string, zone: string)
    ensures RelativeName(fqdn, zone).Some? <==> Encloses(TrimDots(zone), TrimDots(fqdn))
    ensures RelativeName(fqdn, zone).Some? ==>
              (Rejoin(RelativeName(fqdn, zone).value, TrimDots(zone)) == TrimDots(fqdn)
               <==> TrimDots(fqdn) != "@." + TrimDots(zone))
  {
    var f, z := TrimDots(fqdn), TrimDots(zone);
    if f != z && EndsWith(f, "." + z) {
      assert f == f[..|f| - |z| - 1] + "." + z;
    }
  }

  lemma ValidNamesAvoidTheAt(fqdn: string, zone: string)
    requires ValidFqdn(fqdn)
    ensures TrimDots(fqdn) != "@." + TrimDots(zone)
  {
    ValidChars(fqdn);
    var t := TrimDots(fqdn);
    assert t[0] in t;
    assert ("@." + TrimDots(zone))[0] == '@';
  }

  // --- Lock keys --------------------------------------------------------------------------

  /** The key under which a provider locks a record set. */
  function LockKey(namespace: string, zone: string, rname: string): string {
    namespace + "|" + zone + "|" + rname
  }

  lemma KeyParts(ns: string, zone: string, rname: string, ns': string, zone': string, rname': string)
    requires '|' !in ns && '|' !in ns' && '|' !in zone && '|' !in zone'
    ensures LockKey(ns, zone, rname) == LockKey(ns', zone', rname') <==> ns == ns' && zone == zone' && rname == rname'
  {
    if LockKey(ns, zone, rname) == LockKey(ns', zone', rname') {
      assert LockKey(ns, zone, rname) == ns + "|" + (zone + "|" + rname);
      assert LockKey(ns', zone', rname') == ns' + "|" + (zone' + "|" + rname');
      SplitAtMark('|', ns, zone + "|" + rname, ns', zone' + "|" + rname');
      SplitAtMark('|', zone, rname, zone', rname');
    }
  }

  lemma SameNameSameRelative(f: string, f': string, zone: string, r: string, r': string)
    requires ValidFqdn(f) && ValidFqdn(f')
    requires RelativeName(f, zone) == Some(r) && RelativeName(f', zone) == Some(r')
    ensures r == r' <==> TrimDots(f) == TrimDots(f')
  {
    RelativeNameRejoins(f, zone);
    RelativeNameRejoins(f', zone);
    ValidNamesAvoidTheAt(f, zone);
    ValidNamesAvoidTheAt(f', zone);
  }

  function LowerAll(labels: seq<string>): seq<string> {
    if labels == [] then [] else [Lower(labels[0])] + LowerAll(labels[1..])
  }

  lemma LowerCons(c: char, s: string)
    ensures Lower([c] + s) == [LowerChar(c)] + Lower(s)
  {
  }

  lemma {:induction false} LowerSplit(s: string)
    ensures Split(Lower(s)) == LowerAll(Split(s))
  {
    if s == "" {
      assert Lower("") == "";
    } else {
      var c, t := s[0], s[1..];
      assert s == [c] + t;
      LowerCons(c, t);
      assert Lower(s)[1..] == Lower(t);
      LowerSplit(t);
      LowerCons(c, Split(t)[0]);
    }
  }

  lemma {:induction false} LowerAllMembers(labels: seq<string>)
    ensures forall l | l in LowerAll(labels) :: exists o :: o in labels && l == Lower(o)
  {
    if labels != [] {
      LowerAllMembers(labels[1..]);
      assert labels[0] in labels;
    }
  }

  lemma LowerIsValid(fqdn: string)
    requires ValidFqdn(fqdn)
    ensures ValidFqdn(Lower(fqdn)) && ValidFqdn(Normal(fqdn)) && TrimDots(Normal(fqdn)) == Normal(fqdn)
  {
    var t := TrimDots(fqdn);
    TrimLower(fqdn);
    TrimLower(t);
    TrimIsIdempotent(fqdn);
    LowerSplit(t);
    LowerAllMembers(Split(t));
    forall l | l in Split(Lower(t)) ensures ValidLabel(l) {
      var o :| o in Split(t) && l == Lower(o);
      assert forall c | c in o :: HostChar(LowerChar(c));
    }
  }

  /** Two callers get the same lock exactly if they mean the same record set:
      the spelling of the name never separates them, and nothing else ever
      makes them wait for each other. */
  lemma OneLockPerRecordSet(ns: string, zone: string, f: string, r: string, ns': string, zone': string, f': string,
                            r': string)
    requires '|' !in ns && '|' !in ns'
    requires ValidZone(zone) && ValidZone(zone') && TrimDots(zone) == zone && TrimDots(zone') == zone'
    requires ValidFqdn(f) && ValidFqdn(f')
    requires RelativeName(Lower(f), zone) == Some(r) && RelativeName(Lower(f'), zone') == Some(r')
    ensures LockKey(ns, zone, r) == LockKey(ns', zone', r') <==> ns == ns' && zone == zone' && Normal(f) == Normal(f')
  {
    ValidChars(zone);
    ValidChars(zone');
    KeyParts(ns, zone, r, ns', zone', r');
    TrimLower(f);
    TrimLower(f');
    LowerIsValid(f);
    LowerIsValid(f');
    if zone == zone' {
      SameNameSameRelative(Lower(f), Lower(f'), zone, r, r');
    }
  }
}

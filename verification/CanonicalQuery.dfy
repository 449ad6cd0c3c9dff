/** The query string Route53 requests are signed over and sent with. */
module CanonicalQuery {
  import opened Prelude

  type Byte = b: nat | b < 256

  // --- Percent encoding ---------------------------------------------------------------------

  predicate Unreserved(c: char) {
    'a' <= c <= 'z' || 'A' <= c <= 'Z' || '0' <= c <= '9' || c == '-' || c == '_' || c == '.' || c == '~'
  }

  function Hex(d: nat): char
    requires d < 16
  {
    if d < 10 then '0' + d as char else 'A' + (d - 10) as char
  }

  function Unhex(c: char): Option<nat> {
    if '0' <= c <= '9' then Some((c - '0') as nat)
    else if 'A' <= c <= 'F' then Some((c - 'A') as nat + 10)
    else None
  }

  function EncodeByte(b: Byte): string {
    if Unreserved(b as char) then [b as char] else ['%', Hex(b / 16), Hex(b % 16)]
  }

  function Encode(bytes: seq<Byte>): string {
    if bytes == [] then "" else EncodeByte(bytes[0]) + Encode(bytes[1..])
  }

  const HEX_DIGITS := "0123456789ABCDEF"

  /** Letters, digits, hyphen, full stop, underscore and tilde, by their codes,
      stand for themselves; any other byte is two upper-case digits. */
  lemma EncodedByteIs(b: Byte)
    ensures Encode([b]) ==
            if 0x61 <= b <= 0x7A || 0x41 <= b <= 0x5A || 0x30 <= b <= 0x39 || b in {0x2D, 0x2E, 0x5F, 0x7E}
            then [b as char] else ['%', HEX_DIGITS[b / 16], HEX_DIGITS[b % 16]]
  {
    HexIsTheDigit(b / 16);
    HexIsTheDigit(b % 16);
    assert Encode([b][1..]) == "";
  }

  lemma HexIsTheDigit(d: nat)
    requires d < 16
    ensures Hex(d) == HEX_DIGITS[d]
  {
  }

  /** Byte for byte, whatever the neighbours. */
  lemma {:induction false} EncodesByteForByte(a: seq<Byte>, b: seq<Byte>)
    ensures Encode(a + b) == Encode(a) + Encode(b)
  {
    if a == [] {
      assert a + b == b;
    } else {
      assert (a + b)[1..] == a[1..] + b;
      EncodesByteForByte(a[1..], b);
    }
  }

  function Decode(s: string): Option<seq<Byte>> {
    if s == "" then Some([])
    else if s[0] == '%' then
      if |s| >= 3 && Unhex(s[1]).Some? && Unhex(s[2]).Some? && Decode(s[3..]).Some?
      then Some([16 * HexValue(s[1]) + HexValue(s[2])] + Decode(s[3..]).value) else None
    else if Unreserved(s[0]) && Decode(s[1..]).Some? then Some([s[0] as Byte] + Decode(s[1..]).value)
    else None
  }

  function HexValue(c: char): (d: nat)
    ensures d < 16
  {
    if Unhex(c).Some? then Unhex(c).value else 0
  }

  lemma UnhexHex(d: nat)
    requires d < 16
    ensures Unhex(Hex(d)) == Some(d)
  {
  }

  lemma {:induction false} DecodeEncode(bytes: seq<Byte>)
    ensures Decode(Encode(bytes)) == Some(bytes)
  {
    if bytes != [] {
      var b, rest := bytes[0], Encode(bytes[1..]);
      DecodeEncode(bytes[1..]);
      var s := Encode(bytes);
      if Unreserved(b as char) {
        assert s[0] == b as char && s[1..] == rest;
      } else {
        UnhexHex(b / 16);
        UnhexHex(b % 16);
        assert s[0] == '%' && s[1] == Hex(b / 16) && s[2] == Hex(b % 16) && s[3..] == rest;
      }
      assert bytes == [b] + bytes[1..];
    }
  }

  /** Free of the characters that separate parameters and their parts. */
  predicate Clean(s: string) {
    '=' !in s && '&' !in s
  }

  lemma {:induction false} EncodedIsClean(bytes: seq<Byte>)
    ensures Clean(Encode(bytes))
  {
    if bytes != [] {
      EncodedIsClean(bytes[1..]);
      assert Clean(EncodeByte(bytes[0]));
    }
  }

  // --- Parameters -----------------------------------------------------------------------------

  datatype Param = Param(key: seq<Byte>, value: seq<Byte>)
  datatype Pair = Pair(key: string, value: string)

  function EncodePair(p: Param): Pair {
    Pair(Encode(p.key), Encode(p.value))
  }

  function EncodeAll(params: seq<Param>): seq<Pair> {
    if params == [] then [] else [EncodePair(params[0])] + EncodeAll(params[1..])
  }

  lemma {:induction false} EncodeAllAt(params: seq<Param>, i: nat)
    requires i < |params|
    ensures |EncodeAll(params)| == |params|
    ensures EncodeAll(params)[i] == Pair(Encode(params[i].key), Encode(params[i].value))
  {
    if |params| > 1 {
      EncodeAllAt(params[1..], if i == 0 then 0 else i - 1);
    }
  }

  predicate CleanPair(p: Pair) {
    Clean(p.key) && Clean(p.value)
  }

  lemma EncodePairIsInjective(p: Param, q: Param)
    ensures EncodePair(p) == EncodePair(q) <==> p == q
    ensures CleanPair(EncodePair(p))
  {
    DecodeEncode(p.key);
    DecodeEncode(p.value);
    DecodeEncode(q.key);
    DecodeEncode(q.value);
    EncodedIsClean(p.key);
    EncodedIsClean(p.value);
  }

  lemma {:induction false} EncodeAllCounts(params: seq<Param>, p: Param)
    ensures multiset(EncodeAll(params))[EncodePair(p)] == multiset(params)[p]
  {
    if params != [] {
      var rest := params[1..];
      EncodeAllCounts(rest, p);
      EncodePairIsInjective(params[0], p);
      assert params == [params[0]] + rest;
      assert multiset(params) == multiset{params[0]} + multiset(rest);
      assert multiset(EncodeAll(params)) == multiset{EncodePair(params[0])} + multiset(EncodeAll(rest));
    }
  }

  lemma {:induction false} EncodeAllMembers(params: seq<Param>, e: Pair)
    requires e in EncodeAll(params)
    ensures CleanPair(e) && exists p :: p in params && e == EncodePair(p)
  {
    EncodePairIsInjective(params[0], params[0]);
    if e == EncodePair(params[0]) {
      assert params[0] in params;
    } else {
      EncodeAllMembers(params[1..], e);
    }
  }

  lemma EncodeAllKeepsMultisets(a: seq<Param>, b: seq<Param>)
    ensures multiset(EncodeAll(a)) == multiset(EncodeAll(b)) <==> multiset(a) == multiset(b)
  {
    if multiset(EncodeAll(a)) == multiset(EncodeAll(b)) {
      forall p ensures multiset(a)[p] == multiset(b)[p] {
        EncodeAllCounts(a, p);
        EncodeAllCounts(b, p);
      }
    }
    if multiset(a) == multiset(b) {
      forall e ensures multiset(EncodeAll(a))[e] == multiset(EncodeAll(b))[e] {
        SameCount(a, b, e);
      }
    }
  }

  lemma SameCount(a: seq<Param>, b: seq<Param>, e: Pair)
    requires multiset(a) == multiset(b)
    ensures multiset(EncodeAll(a))[e] == multiset(EncodeAll(b))[e]
  {
    if e in EncodeAll(a) || e in EncodeAll(b) {
      if e in EncodeAll(a) { EncodeAllMembers(a, e); } else { EncodeAllMembers(b, e); }
      var p :| e == EncodePair(p);
      EncodeAllCounts(a, p);
      EncodeAllCounts(b, p);
    }
  }

  // --- Sorting ------------------------------------------------------------------------------

  predicate TextLe(a: string, b: string) {
    a == "" || (b != "" && (a[0] < b[0] || (a[0] == b[0] && TextLe(a[1..], b[1..]))))
  }

  predicate PairLe(p: Pair, q: Pair) {
    if p.key == q.key then TextLe(p.value, q.value) else TextLe(p.key, q.key)
  }

  lemma {:induction false} TextLeIsTotal(a: string, b: string)
    ensures TextLe(a, b) || TextLe(b, a)
    ensures TextLe(a, b) && TextLe(b, a) ==> a == b
  {
    if a != "" && b != "" && a[0] == b[0] {
      TextLeIsTotal(a[1..], b[1..]);
      assert a == [a[0]] + a[1..] && b == [b[0]] + b[1..];
    }
  }

  lemma {:induction false} TextLeIsTransitive(a: string, b: string, c: string)
    requires TextLe(a, b) && TextLe(b, c)
    ensures TextLe(a, c)
  {
    if a != "" && a[0] == b[0] == c[0] {
      TextLeIsTransitive(a[1..], b[1..], c[1..]);
    }
  }

  lemma PairLeIsTotal(p: Pair, q: Pair)
    ensures PairLe(p, q) || PairLe(q, p)
    ensures PairLe(p, q) && PairLe(q, p) ==> p == q
  {
    TextLeIsTotal(p.key, q.key);
    TextLeIsTotal(p.value, q.value);
  }

  lemma PairLeIsTransitive(p: Pair, q: Pair, r: Pair)
    requires PairLe(p, q) && PairLe(q, r)
    ensures PairLe(p, r)
  {
    if p.key == q.key == r.key {
      TextLeIsTransitive(p.value, q.value, r.value);
    } else if p.key != q.key && q.key != r.key {
      TextLeIsTransitive(p.key, q.key, r.key);
      TextLeIsTotal(p.key, q.key);
    }
  }

  /** Dictionary order on the character codes: `a` is a prefix of `b`, or has
      the smaller character where the two first differ. */
  ghost predicate Precedes(a: string, b: string) {
    a <= b || exists i :: FirstDifference(a, b, i) && a[i] < b[i]
  }

  ghost predicate FirstDifference(a: string, b: string, i: int) {
    0 <= i < |a| && i < |b| && a[..i] == b[..i] && a[i] != b[i]
  }

  lemma {:induction false} TextLeIsDictionaryOrder(a: string, b: string)
    ensures TextLe(a, b) <==> Precedes(a, b)
  {
    if a != "" && b != "" && a[0] == b[0] {
      TextLeIsDictionaryOrder(a[1..], b[1..]);
      PrecedesByTails(a, b);
    } else if a != "" && b != "" && a[0] < b[0] {
      assert FirstDifference(a, b, 0);
    }
  }

  lemma PrecedesByTails(a: string, b: string)
    requires a != "" && b != "" && a[0] == b[0]
    ensures Precedes(a, b) <==> Precedes(a[1..], b[1..])
  {
    assert a == [a[0]] + a[1..] && b == [b[0]] + b[1..];
    forall i | FirstDifference(a, b, i) ensures FirstDifference(a[1..], b[1..], i - 1) {
      assert a[1..][..i - 1] == a[..i][1..] && b[1..][..i - 1] == b[..i][1..];
    }
    forall i | FirstDifference(a[1..], b[1..], i) ensures FirstDifference(a, b, i + 1) {
      assert a[..i + 1] == [a[0]] + a[1..][..i] && b[..i + 1] == [b[0]] + b[1..][..i];
    }
    if i :| FirstDifference(a, b, i) && a[i] < b[i] {
      assert FirstDifference(a[1..], b[1..], i - 1);
    }
    if i :| FirstDifference(a[1..], b[1..], i) && a[1..][i] < b[1..][i] {
      assert FirstDifference(a, b, i + 1);
    }
  }

  ghost predicate Below(p: Pair, s: seq<Pair>) {
    forall q | q in s :: PairLe(p, q)
  }

  ghost predicate Ordered(s: seq<Pair>) {
    s == [] || (Below(s[0], s[1..]) && Ordered(s[1..]))
  }

  function Insert(p: Pair, s: seq<Pair>): seq<Pair> {
    if s == [] || PairLe(p, s[0]) then [p] + s else [s[0]] + Insert(p, s[1..])
  }

  function Sort(s: seq<Pair>): seq<Pair> {
    if s == [] then [] else Insert(s[0], Sort(s[1..]))
  }

  lemma {:induction false} InsertAddsOne(p: Pair, s: seq<Pair>)
    ensures multiset(Insert(p, s)) == multiset(s) + multiset{p}
  {
    if s != [] {
      InsertAddsOne(p, s[1..]);
      assert s == [s[0]] + s[1..];
    }
  }

  lemma BelowByMultiset(p: Pair, s: seq<Pair>, t: seq<Pair>)
    requires Below(p, s) && forall q | q in multiset(t) :: q in multiset(s)
    ensures Below(p, t)
  {
    forall q | q in t ensures PairLe(p, q) {
      assert q in multiset(t);
    }
  }

  lemma {:induction false} InsertKeepsOrder(p: Pair, s: seq<Pair>)
    requires Ordered(s)
    ensures Ordered(Insert(p, s))
  {
    if s != [] {
      PairLeIsTotal(p, s[0]);
      var r := Insert(p, s);
      if PairLe(p, s[0]) {
        forall q | q in s ensures PairLe(p, q) {
          if q != s[0] {
            PairLeIsTransitive(p, s[0], q);
          }
        }
        assert r[1..] == s;
      } else {
        InsertKeepsOrder(p, s[1..]);
        InsertAddsOne(p, s[1..]);
        assert r[1..] == Insert(p, s[1..]);
        BelowByMultiset(s[0], s[1..] + [p], r[1..]);
      }
    }
  }

  lemma {:induction false} SortSorts(s: seq<Pair>)
    ensures Ordered(Sort(s)) && multiset(Sort(s)) == multiset(s)
  {
    if s != [] {
      SortSorts(s[1..]);
      InsertKeepsOrder(s[0], Sort(s[1..]));
      InsertAddsOne(s[0], Sort(s[1..]));
      assert s == [s[0]] + s[1..];
    }
  }

  lemma {:induction false} OrderedAt(s: seq<Pair>, i: nat, j: nat)
    requires Ordered(s) && i < j < |s|
    ensures PairLe(s[i], s[j])
  {
    if i == 0 {
      assert s[j] == s[1..][j - 1];
    } else {
      OrderedAt(s[1..], i - 1, j - 1);
    }
  }

  /** One order per multiset, whatever the sorting algorithm. */
  lemma {:induction false} OrderedIsUnique(a: seq<Pair>, b: seq<Pair>)
    requires Ordered(a) && Ordered(b) && multiset(a) == multiset(b)
    ensures a == b
  {
    if a == [] {
      assert |multiset(b)| == 0;
    } else {
      assert |multiset(b)| == |multiset(a)|;
      HeadsAgree(a, b);
      WithoutTheHead(a);
      WithoutTheHead(b);
      OrderedIsUnique(a[1..], b[1..]);
    }
  }

  lemma WithoutTheHead(a: seq<Pair>)
    requires a != []
    ensures a == [a[0]] + a[1..] && multiset(a[1..]) == multiset(a) - multiset{a[0]}
  {
    assert a == [a[0]] + a[1..];
  }

  lemma HeadsAgree(a: seq<Pair>, b: seq<Pair>)
    requires a != [] && b != [] && Ordered(a) && Ordered(b) && multiset(a) == multiset(b)
    ensures a[0] == b[0]
  {
    assert a[0] in multiset(b) && b[0] in multiset(a);
    assert b[0] == a[0] || b[0] in a[1..];
    assert a[0] == b[0] || a[0] in b[1..];
    PairLeIsTotal(a[0], b[0]);
  }

  // --- The query string ------------------------------------------------------------------------

  function Text(p: Pair): string {
    p.key + "=" + p.value
  }

  function JoinPairs(pairs: seq<Pair>): string {
    if pairs == [] then ""
    else if |pairs| == 1 then Text(pairs[0])
    else Text(pairs[0]) + "&" + JoinPairs(pairs[1..])
  }

  /** One pair is its key, an equals sign and its value; lists of pairs are
      joined by an ampersand. */
  lemma {:induction false} JoinsAtMarks(a: seq<Pair>, b: seq<Pair>)
    requires a != [] && b != []
    ensures JoinPairs(a + b) == JoinPairs(a) + "&" + JoinPairs(b)
    ensures forall p :: JoinPairs([p]) == p.key + "=" + p.value
  {
    assert (a + b)[1..] == a[1..] + b;
    if |a| > 1 {
      JoinsAtMarks(a[1..], b);
      var first, rest, last := Text(a[0]), JoinPairs(a[1..]), JoinPairs(b);
      assert first + "&" + (rest + "&" + last) == (first + "&" + rest) + "&" + last;
    } else {
      assert a[1..] + b == b;
    }
  }

  function Canonical(params: seq<Param>): string {
    JoinPairs(Sort(EncodeAll(params)))
  }

  // --- Reading it back -------------------------------------------------------------------------

  /** Where `mark` first occurs, or the end. */
  function IndexOf(mark: char, s: string): (i: nat)
    ensures i <= |s| && (i < |s| ==> s[i] == mark)
  {
    if s == "" || s[0] == mark then 0 else 1 + IndexOf(mark, s[1..])
  }

  lemma {:induction false} IndexOfMark(mark: char, a: string, rest: string)
    requires mark !in a && (rest == "" || rest[0] == mark)
    ensures IndexOf(mark, a + rest) == |a|
  {
    if a == "" {
      assert a + rest == rest;
    } else {
      assert a[0] in a;
      assert (a + rest)[1..] == a[1..] + rest;
      IndexOfMark(mark, a[1..], rest);
    }
  }

  function ParsePair(s: string): Pair {
    var i := IndexOf('=', s);
    Pair(s[..i], if i < |s| then s[i + 1..] else "")
  }

  function ParsePairs(s: string): seq<Pair> {
    if s == "" then []
    else
      var i := IndexOf('&', s);
      [ParsePair(s[..i])] + if i < |s| then ParsePairs(s[i + 1..]) else []
  }

  lemma ParseText(p: Pair)
    requires CleanPair(p)
    ensures ParsePair(Text(p)) == p && '&' !in Text(p) && Text(p) != ""
  {
    assert Text(p) == p.key + ("=" + p.value);
    IndexOfMark('=', p.key, "=" + p.value);
  }

  lemma ParseOne(t: string)
    requires '&' !in t && t != ""
    ensures ParsePairs(t) == [ParsePair(t)]
  {
    assert t + "" == t;
    IndexOfMark('&', t, "");
    assert t[..|t|] == t;
  }

  lemma ParseFirst(t: string, rest: string)
    requires '&' !in t
    ensures ParsePairs(t + "&" + rest) == [ParsePair(t)] + ParsePairs(rest)
  {
    var s := t + "&" + rest;
    assert s == t + ("&" + rest);
    IndexOfMark('&', t, "&" + rest);
    assert s[..|t|] == t && s[|t| + 1..] == rest;
  }

  /** Splitting at the marks gives back the pairs and their order. */
  lemma {:induction false} ParseJoin(pairs: seq<Pair>)
    requires forall p | p in pairs :: CleanPair(p)
    ensures ParsePairs(JoinPairs(pairs)) == pairs
  {
    if pairs != [] {
      ParseText(pairs[0]);
      if |pairs| == 1 {
        ParseOne(Text(pairs[0]));
      } else {
        ParseJoin(pairs[1..]);
        ParseFirst(Text(pairs[0]), JoinPairs(pairs[1..]));
      }
    }
  }

  /** The parameters a query string stands for. */
  function DecodeAll(pairs: seq<Pair>): Option<seq<Param>> {
    if pairs == [] then Some([])
    else
      var k, v, rest := Decode(pairs[0].key), Decode(pairs[0].value), DecodeAll(pairs[1..]);
      if k.Some? && v.Some? && rest.Some? then Some([Param(k.value, v.value)] + rest.value) else None
  }

  lemma {:induction false} DecodeAllOfEncoded(pairs: seq<Pair>, params: seq<Param>)
    requires forall e | e in pairs :: exists p :: p in params && e == EncodePair(p)
    ensures DecodeAll(pairs).Some? && EncodeAll(DecodeAll(pairs).value) == pairs
  {
    if pairs != [] {
      assert pairs[0] in pairs;
      var p :| p in params && pairs[0] == EncodePair(p);
      DecodeEncode(p.key);
      DecodeEncode(p.value);
      assert forall e | e in pairs[1..] :: e in pairs;
      DecodeAllOfEncoded(pairs[1..], params);
      assert DecodeAll(pairs).value[1..] == DecodeAll(pairs[1..]).value;
    }
  }

  function Parameters(query: string): Option<seq<Param>> {
    DecodeAll(ParsePairs(query))
  }

  lemma NonEmpty(a: seq<Pair>)
    ensures JoinPairs(a) == "" <==> a == []
  {
  }

  lemma SortedMembers(params: seq<Param>)
    ensures forall e | e in Sort(EncodeAll(params)) :: CleanPair(e) && exists p :: p in params && e == EncodePair(p)
  {
    SortSorts(EncodeAll(params));
    forall e | e in Sort(EncodeAll(params)) ensures CleanPair(e) && exists p :: p in params && e == EncodePair(p) {
      assert e in multiset(Sort(EncodeAll(params)));
      assert e in multiset(EncodeAll(params));
      EncodeAllMembers(params, e);
    }
  }

  /** The canonical query can be read back: it stands for exactly the given
      parameters, in the order of their encodings. */
  lemma CanonicalReadsBack(params: seq<Param>)
    ensures var read := Parameters(Canonical(params));
            read.Some? && multiset(read.value) == multiset(params) && EncodeAll(read.value) == Sort(EncodeAll(params))
  {
    var sorted := Sort(EncodeAll(params));
    SortedMembers(params);
    ParseJoin(sorted);
    DecodeAllOfEncoded(sorted, params);
    SortSorts(EncodeAll(params));
    EncodeAllKeepsMultisets(Parameters(Canonical(params)).value, params);
  }

  /** The pairs of the canonical query are the encoded parameters, in the
      dictionary order of the keys, and of the values where keys are equal. */
  lemma CanonicalIsInOrder(params: seq<Param>, i: nat, j: nat)
    requires i < j < |ParsePairs(Canonical(params))|
    ensures var pairs := ParsePairs(Canonical(params));
            && multiset(pairs) == multiset(EncodeAll(params))
            && if pairs[i].key == pairs[j].key then Precedes(pairs[i].value, pairs[j].value)
               else Precedes(pairs[i].key, pairs[j].key)
  {
    var sorted := Sort(EncodeAll(params));
    SortedMembers(params);
    ParseJoin(sorted);
    SortSorts(EncodeAll(params));
    OrderedAt(sorted, i, j);
    TextLeIsDictionaryOrder(sorted[i].key, sorted[j].key);
    TextLeIsDictionaryOrder(sorted[i].value, sorted[j].value);
  }

  /** Two requests have the same canonical query exactly if they have the same
      parameters, each as often, in whatever order. */
  lemma CanonicalIffSameParameters(a: seq<Param>, b: seq<Param>)
    ensures Canonical(a) == Canonical(b) <==> multiset(a) == multiset(b)
  {
    CanonicalReadsBack(a);
    CanonicalReadsBack(b);
    if multiset(a) == multiset(b) {
      SortSorts(EncodeAll(a));
      SortSorts(EncodeAll(b));
      EncodeAllKeepsMultisets(a, b);
      OrderedIsUnique(Sort(EncodeAll(a)), Sort(EncodeAll(b)));
    }
  }

  /** The URL gets a query exactly if there are parameters. */
  lemma EmptyQueryIffNoParameters(params: seq<Param>)
    ensures Canonical(params) == "" <==> params == []
  {
    SortSorts(EncodeAll(params));
    NonEmpty(Sort(EncodeAll(params)));
    assert |multiset(Sort(EncodeAll(params)))| == |multiset(EncodeAll(params))|;
  }
}

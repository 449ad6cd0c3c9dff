/** TXT values in presentation format: how providers read, add and remove one
    value in a list of entries. */
module TxtValues {

  /** One TXT entry as an API returns it. `disabled` is PowerDNS's flag for an
      entry that is stored but not served; elsewhere it is always false. */
  datatype Entry = Entry(content: string, disabled: bool)

  /** Unicode White_Space, which string trimming removes. */
  predicate IsWhitespace(c: char) {
    || '\t' <= c <= '\r'
    || c == ' '
    || c == '\U{0085}'
    || c == '\U{00A0}'
    || c == '\U{1680}'
    || '\U{2000}' <= c <= '\U{200A}'
    || c == '\U{2028}' || c == '\U{2029}' || c == '\U{202F}' || c == '\U{205F}'
    || c == '\U{3000}'
  }

  function TrimStart(s: string): string {
    if s != [] && IsWhitespace(s[0]) then TrimStart(s[1..]) else s
  }

  function TrimEnd(s: string): string {
    if s != [] && IsWhitespace(s[|s| - 1]) then TrimEnd(s[..|s| - 1]) else s
  }

  function Trim(s: string): string {
    TrimEnd(TrimStart(s))
  }

  function Quote(v: string): string {
    "\"" + v + "\""
  }

  /** Strips one pair of surrounding quotes, when both are there. */
  function Unquote(s: string): string {
    var t := Trim(s);
    if |t| >= 2 && t[0] == '\"' && t[|t| - 1] == '\"' then t[1..|t| - 1] else t
  }

  function TrimQuotesStart(s: string): string {
    if s != [] && s[0] == '\"' then TrimQuotesStart(s[1..]) else s
  }

  function TrimQuotesEnd(s: string): string {
    if s != [] && s[|s| - 1] == '\"' then TrimQuotesEnd(s[..|s| - 1]) else s
  }

  /** Bunny's reading: every surrounding quote is stripped. */
  function UnquoteAll(s: string): string {
    TrimQuotesEnd(TrimQuotesStart(Trim(s)))
  }

  predicate IsBase64Url(c: char) {
    'A' <= c <= 'Z' || 'a' <= c <= 'z' || '0' <= c <= '9' || c == '-' || c == '_'
  }

  predicate ValidAcmeValue(v: string) {
    1 <= |v| <= 128 && forall i | 0 <= i < |v| :: IsBase64Url(v[i])
  }

  /** The 64 characters of section 5 of RFC 4648, by their codes. */
  predicate Base64UrlCode(n: int) {
    0x41 <= n <= 0x5A || 0x61 <= n <= 0x7A || 0x30 <= n <= 0x39 || n == 0x2D || n == 0x5F
  }

  lemma ValidIffShortBase64Url(v: string)
    ensures ValidAcmeValue(v) <==> v != "" && |v| < 129 && forall i | 0 <= i < |v| :: Base64UrlCode(v[i] as int)
  {
  }

  // --- Reading ------------------------------------------------------------------

  /** The code points with the property White_Space. */
  predicate BlankCode(n: int) {
    0x9 <= n <= 0xD || 0x2000 <= n <= 0x200A ||
    n in {0x20, 0x85, 0xA0, 0x1680, 0x2028, 0x2029, 0x202F, 0x205F, 0x3000}
  }

  predicate AllBlank(s: string) {
    forall i | 0 <= i < |s| :: BlankCode(s[i] as int)
  }

  lemma {:induction false} TrimStartSkips(a: string, s: string)
    requires AllBlank(a) && (s == "" || !BlankCode(s[0] as int))
    ensures TrimStart(a + s) == s
  {
    if a == "" {
      assert a + s == s;
    } else {
      assert BlankCode(a[0] as int);
      assert (a + s)[1..] == a[1..] + s;
      TrimStartSkips(a[1..], s);
    }
  }

  lemma {:induction false} TrimEndSkips(s: string, b: string)
    requires AllBlank(b) && (s == "" || !BlankCode(s[|s| - 1] as int))
    ensures TrimEnd(s + b) == s
  {
    if b == "" {
      assert s + b == s;
    } else {
      assert BlankCode(b[|b| - 1] as int);
      assert (s + b)[..|s + b| - 1] == s + b[..|b| - 1];
      TrimEndSkips(s, b[..|b| - 1]);
    }
  }

  /** Whatever white space is around it: a text between quotes is read without
      them, quotes inside included, and any other text as it stands. */
  lemma ReadsBetweenWhitespace(a: string, s: string, b: string)
    requires AllBlank(a) && AllBlank(b)
    requires s == "" || (!BlankCode(s[0] as int) && !BlankCode(s[|s| - 1] as int))
    ensures (forall v :: s == "\"" + v + "\"" ==> Unquote(a + s + b) == v)
    ensures (forall v :: s != "\"" + v + "\"") ==> Unquote(a + s + b) == s
  {
    TrimsTo(a, s, b);
    if |s| >= 2 && s[0] == '\"' && s[|s| - 1] == '\"' {
      assert s == "\"" + s[1..|s| - 1] + "\"";
      forall v | s == "\"" + v + "\"" ensures v == s[1..|s| - 1] {
        assert v == ("\"" + v + "\"")[1..|v| + 1];
      }
    } else {
      forall v ensures s != "\"" + v + "\"" {
        var q := "\"" + v + "\"";
        assert |q| >= 2 && q[0] == '\"' && q[|q| - 1] == '\"';
      }
    }
  }

  lemma TrimsTo(a: string, s: string, b: string)
    requires AllBlank(a) && AllBlank(b)
    requires s == "" || (!BlankCode(s[0] as int) && !BlankCode(s[|s| - 1] as int))
    ensures Trim(a + s + b) == s
  {
    if s == "" {
      assert a + s + b == (a + b) + "";
      TrimStartSkips(a + b, "");
    } else {
      assert a + s + b == a + (s + b);
      TrimStartSkips(a, s + b);
      TrimEndSkips(s, b);
    }
  }

  predicate AllQuotes(s: string) {
    forall i | 0 <= i < |s| :: s[i] == '\"'
  }

  lemma {:induction false} QuotesStartSkips(q: string, s: string)
    requires AllQuotes(q) && (s == "" || s[0] != '\"')
    ensures TrimQuotesStart(q + s) == s
  {
    if q == "" {
      assert q + s == s;
    } else {
      assert (q + s)[1..] == q[1..] + s;
      QuotesStartSkips(q[1..], s);
    }
  }

  lemma {:induction false} QuotesEndSkips(s: string, q: string)
    requires AllQuotes(q) && (s == "" || s[|s| - 1] != '\"')
    ensures TrimQuotesEnd(s + q) == s
  {
    if q == "" {
      assert s + q == s;
    } else {
      assert (s + q)[..|s + q| - 1] == s + q[..|q| - 1];
      QuotesEndSkips(s, q[..|q| - 1]);
    }
  }

  /** Bunny's reading skips any number of quotes inside the white space. */
  lemma BunnyReadsBetweenQuotes(a: string, q: string, v: string, q': string, b: string)
    requires AllBlank(a) && AllQuotes(q) && AllQuotes(q') && AllBlank(b)
    requires v != "" && v[0] != '\"' && v[|v| - 1] != '\"'
    requires (q == "" ==> !BlankCode(v[0] as int)) && (q' == "" ==> !BlankCode(v[|v| - 1] as int))
    ensures UnquoteAll(a + (q + v + q') + b) == v
  {
    var s := q + v + q';
    assert s[0] == if q == "" then v[0] else q[0];
    assert s[|s| - 1] == if q' == "" then v[|v| - 1] else q'[|q'| - 1];
    TrimsTo(a, s, b);
    assert s == q + (v + q');
    QuotesStartSkips(q, v + q');
    QuotesEndSkips(v, q');
  }

  /** Writing a value quoted and reading it back is lossless for every value,
      not only for the ones ACME uses. */
  lemma UnquoteQuote(v: string)
    ensures Unquote(Quote(v)) == v
  {
    var q := Quote(v);
    assert q[0] == '\"' && q[|q| - 1] == '\"';
    assert Trim(q) == q;
    assert q[1..|q| - 1] == v;
  }

  /** A validated value written without quotes reads back as itself, with
      either way of unquoting. */
  lemma ValidValueReadsBack(v: string)
    requires ValidAcmeValue(v)
    ensures Unquote(v) == v && UnquoteAll(v) == v
  {
    assert IsBase64Url(v[0]) && IsBase64Url(v[|v| - 1]);
    assert Trim(v) == v;
  }

  /** The set of values a list of entries holds. */
  function Values(entries: seq<Entry>): set<string> {
    set e | e in entries :: Unquote(e.content)
  }

  /** The values resolvers are served. */
  function Served(entries: seq<Entry>): set<string> {
    set e | e in entries && !e.disabled :: Unquote(e.content)
  }

  predicate Contains(entries: seq<Entry>, v: string) {
    exists e | e in entries :: Unquote(e.content) == v
  }

  /** The entries `present` writes: the ones fetched, then the new value. */
  function Merged(entries: seq<Entry>, v: string): seq<Entry> {
    entries + [Entry(Quote(v), false)]
  }

  /** The entries `cleanup` writes back. */
  function Kept(entries: seq<Entry>, v: string): seq<Entry> {
    if entries == [] then []
    else
      var n := |entries| - 1;
      Kept(entries[..n], v) + if Unquote(entries[n].content) == v then [] else [entries[n]]
  }

  /** The positions whose entry does not hold the value. */
  ghost function OtherPositions(entries: seq<Entry>, v: string): seq<nat> {
    if entries == [] then []
    else
      var n := |entries| - 1;
      OtherPositions(entries[..n], v) + if Unquote(entries[n].content) == v then [] else [n]
  }

  lemma MergedValues(entries: seq<Entry>, v: string)
    ensures Values(Merged(entries, v)) == Values(entries) + {v}
  {
    UnquoteQuote(v);
    var added := Entry(Quote(v), false);
    assert added in Merged(entries, v);
    forall e | e in Merged(entries, v) ensures Unquote(e.content) in Values(entries) + {v} {
      assert e in entries || e == added;
    }
    forall x | x in Values(entries) ensures x in Values(Merged(entries, v)) {
      var e :| e in entries && Unquote(e.content) == x;
      assert e in Merged(entries, v);
    }
  }

  lemma {:induction false} KeptMembers(entries: seq<Entry>, v: string)
    ensures forall e :: e in Kept(entries, v) <==> e in entries && Unquote(e.content) != v
  {
    if entries != [] {
      var n := |entries| - 1;
      KeptMembers(entries[..n], v);
      assert entries == entries[..n] + [entries[n]];
    }
  }

  lemma KeptValues(entries: seq<Entry>, v: string)
    ensures Values(Kept(entries, v)) == Values(entries) - {v}
  {
    KeptMembers(entries, v);
  }

  /** Cleanup shortens the list exactly when the value was there, which is the
      length comparison the providers use to decide whether to write. */
  lemma {:induction false} KeptLength(entries: seq<Entry>, v: string)
    ensures |Kept(entries, v)| <= |entries|
    ensures |Kept(entries, v)| == |entries| <==> v !in Values(entries)
    ensures v !in Values(entries) ==> Kept(entries, v) == entries
  {
    if entries != [] {
      var n := |entries| - 1;
      KeptLength(entries[..n], v);
      assert entries == entries[..n] + [entries[n]];
      assert Values(entries) == Values(entries[..n]) + {Unquote(entries[n].content)};
    }
  }

  /** `at` lists the positions of `entries` that `part` consists of, in order. */
  ghost predicate Selects(entries: seq<Entry>, part: seq<Entry>, at: seq<nat>) {
    && |at| == |part|
    && (forall i | 0 <= i < |at| :: at[i] < |entries| && part[i] == entries[at[i]])
    && (forall i, j | 0 <= i < j < |at| :: at[i] < at[j])
  }

  /** What cleanup writes back is verbatim and in order: the entries at exactly
      those positions that do not hold the value, at increasing positions. */
  lemma {:induction false} KeptSelectsTheOthers(entries: seq<Entry>, v: string)
    ensures Selects(entries, Kept(entries, v), OtherPositions(entries, v))
    ensures forall p: nat :: p in OtherPositions(entries, v) <==> p < |entries| && Unquote(entries[p].content) != v
  {
    if entries != [] {
      var n := |entries| - 1;
      KeptSelectsTheOthers(entries[..n], v);
      forall p: nat ensures p in OtherPositions(entries, v) <==> p < |entries| && Unquote(entries[p].content) != v {
        assert p in OtherPositions(entries, v) <==>
               p in OtherPositions(entries[..n], v) || (p == n && Unquote(entries[n].content) != v);
        assert p < n ==> entries[..n][p] == entries[p];
      }
    }
  }

  /** PowerDNS answers Ok as soon as some entry holds the value, even one that
      is disabled: the value is then served after `present` exactly when it was
      served before, or no entry held it. */
  lemma PresentServesUnlessDisabled(entries: seq<Entry>, v: string)
    ensures var after := if Contains(entries, v) then entries else Merged(entries, v);
            v in Served(after) <==> v in Served(entries) || v !in Values(entries)
  {
    UnquoteQuote(v);
    if v !in Values(entries) {
      assert Entry(Quote(v), false) in Merged(entries, v);
    }
  }

  /** A PowerDNS record set on which `present` succeeds and serves nothing. */
  lemma DisabledEntryIsNotServed()
    ensures var entries := [Entry("\"token\"", true)];
            Contains(entries, "token") && "token" !in Served(entries)
  {
    UnquoteQuote("token");
    assert Quote("token") == "\"token\"";
    assert [Entry("\"token\"", true)][0].content == Quote("token");
  }
}

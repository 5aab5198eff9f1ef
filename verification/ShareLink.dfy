// Share links: the printer for scheme://userinfo@host:port?query#remark and the
// parser that undoes it. Strings stand for byte strings, one character a byte.
module ShareLink {
  import opened Text

  predicate Bytes(s: string) {
    forall i :: 0 <= i < |s| ==> s[i] as int < 256
  }

  // ---------- percent encoding (section 2.1 of RFC 3986) ----------

  predicate Unreserved(c: char) {
    'a' <= c <= 'z' || 'A' <= c <= 'Z' || '0' <= c <= '9' || c in {'-', '_', '.', '~'}
  }

  function HexDigit(n: nat): (c: char)
    requires n < 16
    ensures HexValue(c) == Some(n) && Unreserved(c)
  {
    if n < 10 then ('0' as int + n) as char else ('A' as int + (n - 10)) as char
  }

  function Triplet(c: char): string
    requires c as int < 256
  {
    ['%', HexDigit(c as int / 16), HexDigit(c as int % 16)]
  }

  function PercentByte(c: char): string
    requires c as int < 256
  {
    if Unreserved(c) then [c] else Triplet(c)
  }

  // Every byte but the unreserved ones as a percent triplet.
  function PercentEncode(s: string): string
    requires Bytes(s)
  {
    if s == "" then "" else PercentEncode(s[..|s| - 1]) + PercentByte(s[|s| - 1])
  }

  // Form encoding: as above, but a space becomes a plus sign.
  function QueryByte(c: char): string
    requires c as int < 256
  {
    if c == ' ' then "+" else PercentByte(c)
  }

  function QueryEscape(s: string): string
    requires Bytes(s)
  {
    if s == "" then "" else QueryEscape(s[..|s| - 1]) + QueryByte(s[|s| - 1])
  }

  function ReplacePlus(s: string): string {
    if s == "" then "" else ReplacePlus(s[..|s| - 1]) + if s[|s| - 1] == '+' then "%20" else [s[|s| - 1]]
  }

  function EncodeUserinfo(s: string): string
    requires Bytes(s)
  {
    ReplacePlus(QueryEscape(s))
  }

  lemma {:induction false} ReplacePlusAppends(s: string, t: string)
    ensures ReplacePlus(s + t) == ReplacePlus(s) + ReplacePlus(t)
  {
    if t == "" {
      assert s + t == s;
    } else {
      var n := |t| - 1;
      ReplacePlusAppends(s, t[..n]);
      assert (s + t)[..|s + t| - 1] == s + t[..n];
    }
  }

  lemma ReplacePlusByte(c: char)
    requires c as int < 256
    ensures ReplacePlus(QueryByte(c)) == PercentByte(c)
  {
    if c == ' ' {
      assert "+"[..0] == "";
    } else {
      NoPlusReplaced(PercentByte(c));
    }
  }

  lemma {:induction false} NoPlusReplaced(s: string)
    requires '+' !in s
    ensures ReplacePlus(s) == s
  {
    if s != "" {
      NoPlusReplaced(s[..|s| - 1]);
      assert s == s[..|s| - 1] + [s[|s| - 1]];
    }
  }

  // Escaping as a form value and replacing the plus signs is percent encoding.
  lemma {:induction false} UserinfoIsPercentEncoded(s: string)
    requires Bytes(s)
    ensures EncodeUserinfo(s) == PercentEncode(s)
  {
    if s != "" {
      var n := |s| - 1;
      UserinfoIsPercentEncoded(s[..n]);
      ReplacePlusAppends(QueryEscape(s[..n]), QueryByte(s[n]));
      ReplacePlusByte(s[n]);
    }
  }

  // ---------- decoding ----------

  // How many characters the first byte of an encoded text takes.
  function Width(s: string): (k: nat)
    requires s != ""
    ensures k > 0
  {
    if s[0] == '%' then 3 else 1
  }

  // The first byte; plus signs stand for spaces in a query.
  function FirstByte(s: string, query: bool): Option<char>
    requires s != "" && Width(s) <= |s|
  {
    if s[0] == '%' then
      var hi, lo := HexValue(s[1]), HexValue(s[2]);
      if hi.None? || lo.None? then None else Some((16 * hi.value + lo.value) as char)
    else Some(if query && s[0] == '+' then ' ' else s[0])
  }

  function Decode(s: string, query: bool): Option<string> {
    if s == "" then Some("")
    else if |s| < Width(s) then None
    else Prepended(FirstByte(s, query), Decode(s[Width(s)..], query))
  }

  function Prepended(c: Option<char>, rest: Option<string>): Option<string> {
    if c.None? || rest.None? then None else Some([c.value] + rest.value)
  }

  function Joined(a: Option<string>, b: Option<string>): Option<string> {
    if a.None? || b.None? then None else Some(a.value + b.value)
  }

  lemma JoinPrepended(c: Option<char>, a: Option<string>, b: Option<string>)
    ensures Prepended(c, Joined(a, b)) == Joined(Prepended(c, a), b)
  {
    if c.Some? && a.Some? && b.Some? {
      assert [c.value] + (a.value + b.value) == [c.value] + a.value + b.value;
    }
  }

  lemma FirstByteStays(s: string, t: string, query: bool)
    requires s != "" && Width(s) <= |s|
    ensures Width(s + t) == Width(s) && FirstByte(s + t, query) == FirstByte(s, query)
    ensures (s + t)[Width(s)..] == s[Width(s)..] + t
  {
  }

  // Decoding splits wherever no triplet is cut.
  lemma {:induction false} DecodeAppends(s: string, t: string, query: bool)
    requires Decode(s, query).Some?
    ensures Decode(s + t, query) == Joined(Decode(s, query), Decode(t, query))
  {
    hide FirstByte, Width;
    if s == "" {
      assert s + t == t;
      assert Decode(t, query).Some? ==> "" + Decode(t, query).value == Decode(t, query).value;
    } else {
      FirstByteStays(s, t, query);
      DecodeAppends(s[Width(s)..], t, query);
      JoinPrepended(FirstByte(s, query), Decode(s[Width(s)..], query), Decode(t, query));
    }
  }

  lemma DecodePlain(c: char, query: bool)
    requires c != '%'
    ensures Decode([c], query) == Some([if query && c == '+' then ' ' else c])
  {
    assert [c][1..] == "";
    var r := if query && c == '+' then ' ' else c;
    assert [r] + "" == [r];
  }

  lemma DecodeTriplet(c: char, query: bool)
    requires c as int < 256
    ensures Decode(Triplet(c), query) == Some([c])
  {
    assert Triplet(c)[3..] == "";
    assert 16 * (c as int / 16) + c as int % 16 == c as int;
    assert [c] + "" == [c];
  }

  lemma DecodeByte(c: char, query: bool)
    requires c as int < 256
    ensures Decode(PercentByte(c), query) == Some([c])
    ensures Decode(QueryByte(c), true) == Some([c])
  {
    hide Decode;
    DecodeTriplet(c, query);
    DecodeTriplet(c, true);
    if Unreserved(c) {
      DecodePlain(c, query);
      DecodePlain(c, true);
    }
    DecodePlain('+', true);
  }

  lemma {:induction false} PercentDecodes(s: string, query: bool)
    requires Bytes(s)
    ensures Decode(PercentEncode(s), query) == Some(s)
  {
    if s != "" {
      var n := |s| - 1;
      PercentDecodes(s[..n], query);
      DecodeByte(s[n], query);
      DecodeAppends(PercentEncode(s[..n]), PercentByte(s[n]), query);
      assert s == s[..n] + [s[n]];
    }
  }

  lemma {:induction false} QueryDecodes(s: string)
    requires Bytes(s)
    ensures Decode(QueryEscape(s), true) == Some(s)
  {
    if s != "" {
      var n := |s| - 1;
      QueryDecodes(s[..n]);
      DecodeByte(s[n], true);
      DecodeAppends(QueryEscape(s[..n]), QueryByte(s[n]), true);
      assert s == s[..n] + [s[n]];
    }
  }

  // ---------- delimiters ----------

  predicate Free(s: string, delimiters: set<char>) {
    forall i :: 0 <= i < |s| ==> s[i] !in delimiters
  }

  const DELIMITERS := {':', '/', '?', '#', '@', '&', '='}

  lemma {:induction false} EscapedIsFree(s: string)
    requires Bytes(s)
    ensures Free(PercentEncode(s), DELIMITERS) && Free(QueryEscape(s), DELIMITERS)
  {
    if s != "" { EscapedIsFree(s[..|s| - 1]); }
  }

  datatype Halves = Halves(left: string, right: Option<string>)

  // Splits at the first, or at the last, occurrence of a delimiter.
  function Cut(s: string, c: char): Halves {
    if s == "" then Halves("", None)
    else if s[0] == c then Halves("", Some(s[1..]))
    else var h := Cut(s[1..], c); Halves([s[0]] + h.left, h.right)
  }

  function CutLast(s: string, c: char): Halves {
    if s == "" then Halves("", None)
    else
      var n := |s| - 1;
      if s[n] == c then Halves(s[..n], Some(""))
      else
        var h := CutLast(s[..n], c);
        if h.right.None? then Halves(h.left + [s[n]], None) else Halves(h.left, Some(h.right.value + [s[n]]))
  }

  lemma {:induction false} CutFinds(a: string, c: char, b: string)
    requires c !in a
    ensures Cut(a + [c] + b, c) == Halves(a, Some(b))
  {
    var s := a + [c] + b;
    if a == "" {
      assert s[1..] == b;
    } else {
      CutFinds(a[1..], c, b);
      assert s[1..] == a[1..] + [c] + b;
      assert s[0] == a[0] && a == [a[0]] + a[1..];
    }
  }

  lemma {:induction false} CutMisses(a: string, c: char)
    requires c !in a
    ensures Cut(a, c) == Halves(a, None)
  {
    if a != "" {
      CutMisses(a[1..], c);
      assert a == [a[0]] + a[1..];
    }
  }

  lemma {:induction false} CutLastFinds(a: string, c: char, b: string)
    requires c !in b
    ensures CutLast(a + [c] + b, c) == Halves(a, Some(b))
  {
    var s, n := a + [c] + b, |a + [c] + b| - 1;
    if b == "" {
      assert s[..n] == a;
    } else {
      CutLastFinds(a, c, b[..|b| - 1]);
      assert s[..n] == a + [c] + b[..|b| - 1];
      assert s[n] == b[|b| - 1] && b == b[..|b| - 1] + [b[|b| - 1]];
    }
  }

  lemma {:induction false} CutLastMisses(a: string, c: char)
    requires c !in a
    ensures CutLast(a, c) == Halves(a, None)
  {
    if a != "" {
      CutLastMisses(a[..|a| - 1], c);
      assert a == a[..|a| - 1] + [a[|a| - 1]];
    }
  }

  // ---------- the query ----------

  predicate BytesMap(q: map<string, string>) {
    forall k :: k in q ==> Bytes(k) && Bytes(q[k])
  }

  function Less(a: string, b: string): bool {
    b != "" && (a == "" || a[0] < b[0] || (a[0] == b[0] && Less(a[1..], b[1..])))
  }

  lemma {:induction false} LessIsTotal(a: string, b: string)
    ensures a == b || Less(a, b) || Less(b, a)
    ensures !(Less(a, b) && Less(b, a)) && !Less(a, a)
  {
    if a != "" && b != "" {
      LessIsTotal(a[1..], b[1..]);
      assert a == [a[0]] + a[1..] && b == [b[0]] + b[1..];
    } else if a != "" {
      LessIsTotal(a[1..], "");
    }
  }

  lemma {:induction false} LessIsTransitive(a: string, b: string, c: string)
    requires Less(a, b) && Less(b, c)
    ensures Less(a, c)
  {
    if a != "" && a[0] == b[0] == c[0] {
      LessIsTransitive(a[1..], b[1..], c[1..]);
    }
  }

  predicate Ascending(keys: seq<string>) {
    forall i, j :: 0 <= i < j < |keys| ==> Less(keys[i], keys[j])
  }

  ghost predicate SortedKeys(keys: seq<string>, q: map<string, string>) {
    Ascending(keys) && forall k :: k in keys <==> k in q
  }

  function Pair(k: string, v: string): string
    requires Bytes(k) && Bytes(v)
  {
    QueryEscape(k) + "=" + QueryEscape(v)
  }

  function Pairs(keys: seq<string>, q: map<string, string>): string
    requires BytesMap(q) && forall i :: 0 <= i < |keys| ==> keys[i] in q
  {
    if keys == [] then ""
    else
      var n := |keys| - 1;
      (if n == 0 then "" else Pairs(keys[..n], q) + "&") + Pair(keys[n], q[keys[n]])
  }

  // The place of a key among ascending ones.
  method PlaceOf(keys: seq<string>, k: string) returns (p: nat)
    requires Ascending(keys) && k !in keys
    ensures p <= |keys| && Ascending(keys[..p] + [k] + keys[p..])
  {
    p := 0;
    while p < |keys| && Less(keys[p], k)
      invariant p <= |keys| && forall i :: 0 <= i < p ==> Less(keys[i], k)
    {
      p := p + 1;
    }
    ghost var r := keys[..p] + [k] + keys[p..];
    if p < |keys| {
      LessIsTotal(keys[p], k);
      assert keys[p] in keys;
    }
    forall j | p <= j < |keys| ensures Less(k, keys[j]) {
      if p < j { LessIsTransitive(k, keys[p], keys[j]); }
    }
  }

  method SortKeys(q: map<string, string>) returns (keys: seq<string>)
    ensures SortedKeys(keys, q)
  {
    hide Less;
    keys := [];
    var left := q.Keys;
    while left != {}
      invariant left <= q.Keys && Ascending(keys)
      invariant forall k :: k in keys <==> k in q && k !in left
      decreases left
    {
      var k :| k in left;
      var p := PlaceOf(keys, k);
      assert keys == keys[..p] + keys[p..];
      keys, left := keys[..p] + [k] + keys[p..], left - {k};
    }
  }

  // The encoded query: the pairs in key order.
  ghost predicate Encodes(s: string, q: map<string, string>) {
    BytesMap(q) && exists keys :: EncodedBy(s, keys, q)
  }

  ghost predicate EncodedBy(s: string, keys: seq<string>, q: map<string, string>)
    requires BytesMap(q)
  {
    SortedKeys(keys, q) && s == Pairs(keys, q)
  }

  method EncodeValues(q: map<string, string>) returns (s: string)
    requires BytesMap(q)
    ensures Encodes(s, q) && (s == "" <==> q == map[])
  {
    hide QueryEscape, Ascending;
    var sorted := SortKeys(q);
    s := "";
    for i := 0 to |sorted|
      invariant s == Pairs(sorted[..i], q) && (s == "" <==> i == 0)
    {
      assert sorted[..i + 1][..i] == sorted[..i];
      assert sorted[i] in sorted;
      if i > 0 {
        s := s + "&";
      }
      s := s + (QueryEscape(sorted[i]) + "=" + QueryEscape(q[sorted[i]]));
    }
    assert sorted[..|sorted|] == sorted;
    NoKeysNoPairs(sorted, q);
    assert EncodedBy(s, sorted, q);
  }

  // Map order plays no part: the keys sort in one way only.
  lemma {:induction false} OneSortedOrder(a: seq<string>, b: seq<string>, q: map<string, string>)
    requires SortedKeys(a, q) && SortedKeys(b, q)
    ensures a == b
  {
    hide Less, SortedKeys;
    NoKeysNoPairs(a, q);
    NoKeysNoPairs(b, q);
    if a != [] {
      var n := |a| - 1;
      Largest(a, q);
      Largest(b, q);
      LessIsTotal(a[n], b[|b| - 1]);
      DropLargest(a, q);
      DropLargest(b, q);
      OneSortedOrder(a[..n], b[..|b| - 1], map k | k in q && k != a[n] :: q[k]);
      assert a == a[..n] + [a[n]] && b == b[..|b| - 1] + [b[|b| - 1]];
    }
  }

  lemma NoKeysNoPairs(keys: seq<string>, q: map<string, string>)
    requires SortedKeys(keys, q)
    ensures keys == [] <==> q == map[]
  {
    if keys != [] { assert keys[0] in keys; }
    assert keys == [] ==> forall k :: k !in q;
  }

  lemma Largest(a: seq<string>, q: map<string, string>)
    requires SortedKeys(a, q) && a != []
    ensures a[|a| - 1] in q && forall k :: k in q ==> k == a[|a| - 1] || Less(k, a[|a| - 1])
  {
    var n := |a| - 1;
    assert a[n] in a;
    forall k | k in q ensures k == a[n] || Less(k, a[n]) {
      var i :| 0 <= i < |a| && a[i] == k;
    }
  }

  lemma DropLargest(a: seq<string>, q: map<string, string>)
    requires a != [] && SortedKeys(a, q)
    ensures SortedKeys(a[..|a| - 1], map k | k in q && k != a[|a| - 1] :: q[k])
  {
    var n := |a| - 1;
    forall i | 0 <= i < n ensures a[i] != a[n] {
      assert Less(a[i], a[n]);
      LessIsTotal(a[n], a[n]);
    }
    assert a == a[..n] + [a[n]];
  }

  function AddPair(m: Option<map<string, string>>, segment: string): Option<map<string, string>> {
    if m.None? || segment == "" then m
    else
      var h := Cut(segment, '=');
      var k, v := Decode(h.left, true), Decode(if h.right.Some? then h.right.value else "", true);
      if k.None? || v.None? then None else Some(m.value[k.value := v.value])
  }

  function ParseQuery(s: string): Option<map<string, string>>
    decreases |s|
  {
    var h := CutLast(s, '&');
    CutLastShrinks(s, '&');
    if h.right.None? then AddPair(Some(map[]), s) else AddPair(ParseQuery(h.left), h.right.value)
  }

  lemma {:induction false} CutLastShrinks(s: string, c: char)
    ensures CutLast(s, c).right.Some? ==> |CutLast(s, c).left| < |s|
  {
    if s != "" { CutLastShrinks(s[..|s| - 1], c); }
  }

  lemma PairParses(m: map<string, string>, k: string, v: string)
    requires Bytes(k) && Bytes(v)
    ensures '&' !in Pair(k, v) && AddPair(Some(m), Pair(k, v)) == Some(m[k := v])
  {
    hide QueryEscape, Decode, Cut;
    EscapedIsFree(k);
    EscapedIsFree(v);
    var a, b := QueryEscape(k), QueryEscape(v);
    FreeOf(a, '&');
    FreeOf(a, '=');
    FreeOf(b, '&');
    assert '&' !in a + "=" + b;
    CutFinds(a, '=', b);
    QueryDecodes(k);
    QueryDecodes(v);
  }

  lemma FreeOf(s: string, c: char)
    requires Free(s, DELIMITERS) && c in DELIMITERS
    ensures c !in s
  {
  }

  function Part(q: map<string, string>, keys: seq<string>): map<string, string> {
    map k | k in q && k in keys :: q[k]
  }

  lemma {:induction false} PairsParse(keys: seq<string>, q: map<string, string>)
    requires BytesMap(q) && forall i :: 0 <= i < |keys| ==> keys[i] in q
    ensures ParseQuery(Pairs(keys, q)) == Some(Part(q, keys))
  {
    hide Pair, AddPair;
    if keys == [] {
      NothingParses();
      assert Part(q, keys) == map[];
    } else {
      var n := |keys| - 1;
      var k, front := keys[n], keys[..n];
      PairsParse(front, q);
      PairParses(Part(q, front), k, q[k]);
      assert keys == front + [k];
      assert Part(q, keys) == Part(q, front)[k := q[k]];
      if n == 0 {
        assert Part(q, front) == map[];
        assert "" + Pair(k, q[k]) == Pair(k, q[k]);
        CutLastMisses(Pair(k, q[k]), '&');
      } else {
        CutLastFinds(Pairs(front, q), '&', Pair(k, q[k]));
      }
    }
  }

  lemma NothingParses()
    ensures ParseQuery("") == Some(map[])
  {
  }

  // Reading an encoded query back gives the parameters it was made from.
  lemma QueryRoundTrip(keys: seq<string>, q: map<string, string>)
    requires BytesMap(q) && SortedKeys(keys, q)
    ensures ParseQuery(Pairs(keys, q)) == Some(q)
  {
    PairsParse(keys, q);
    assert Part(q, keys) == q;
  }

  // ---------- the link ----------

  predicate TlsField(k: string) {
    k in {"alpn", "sni", "fp", "pcs"}
  }

  // The parameters the link carries: an override replaces the security value, and
  // the TLS hints go when told to.
  function FinalParams(params: map<string, string>, securityOverride: string, omitTlsFields: bool): map<string, string> {
    map k | k in params && !(omitTlsFields && TlsField(k)) ::
      if securityOverride != "" && k == "security" then securityOverride else params[k]
  }

  function Assembled(link: string, encoded: string, fragment: string): string
    requires Bytes(fragment)
  {
    link + (if encoded == "" then "" else (if '?' in link then "&" else "?") + encoded)
         + (if fragment == "" then "" else "#" + EncodeUserinfo(fragment))
  }

  // link, query and remark put together for some encoding of the parameters.
  ghost predicate AssembledFrom(s: string, link: string, q: map<string, string>, fragment: string)
    requires Bytes(fragment)
  {
    exists encoded :: Encodes(encoded, q) && s == Assembled(link, encoded, fragment)
  }

  method FinalValues(params: map<string, string>, securityOverride: string, omitTlsFields: bool) returns (q: map<string, string>)
    ensures q == FinalParams(params, securityOverride, omitTlsFields)
    ensures forall k :: k in q <==> k in params && !(omitTlsFields && k in {"alpn", "sni", "fp", "pcs"})
    ensures forall k :: k in q ==> q[k] == if securityOverride != "" && k == "security" then securityOverride else params[k]
  {
    q := map[];
    var left := params.Keys;
    while left != {}
      invariant left <= params.Keys
      invariant forall k :: k in q <==> k in params && k !in left && !(omitTlsFields && TlsField(k))
      invariant forall k :: k in q ==> q[k] == if securityOverride != "" && k == "security" then securityOverride else params[k]
      decreases left
    {
      var k :| k in left;
      left := left - {k};
      var v := params[k];
      if securityOverride != "" && k == "security" {
        v := securityOverride;
      }
      if !(omitTlsFields && (k == "alpn" || k == "sni" || k == "fp" || k == "pcs")) {
        q := q[k := v];
      }
    }
  }

  lemma FinalBytes(params: map<string, string>, securityOverride: string, omitTlsFields: bool)
    requires BytesMap(params) && Bytes(securityOverride)
    ensures BytesMap(FinalParams(params, securityOverride, omitTlsFields))
    ensures params == map[] ==> FinalParams(params, securityOverride, omitTlsFields) == map[]
  {
  }

  method AppendQueryAndFragment(link: string, params: map<string, string>, fragment: string,
                                securityOverride: string, omitTlsFields: bool)
    returns (s: string)
    requires BytesMap(params) && Bytes(fragment) && Bytes(securityOverride)
    ensures AssembledFrom(s, link, FinalParams(params, securityOverride, omitTlsFields), fragment)
  {
    hide FinalParams, EncodeUserinfo, Encodes;
    FinalBytes(params, securityOverride, omitTlsFields);
    NothingEncodes();
    s := link;
    var encoded := "";
    if params != map[] {
      var q := FinalValues(params, securityOverride, omitTlsFields);
      encoded := EncodeValues(q);
      if encoded != "" {
        if '?' in link {
          s := s + "&";
        } else {
          s := s + "?";
        }
        s := s + encoded;
      }
    }
    if fragment != "" {
      s := s + "#";
      s := s + EncodeUserinfo(fragment);
    }
    assert s == Assembled(link, encoded, fragment);
  }

  lemma NothingEncodes()
    ensures Encodes("", map[])
  {
    assert EncodedBy("", [], map[]);
  }

  // userinfo@host:port
  function Authority(userinfo: string, host: string, port: int): string {
    userinfo + "@" + (host + ":" + FormatInt(port))
  }

  function BaseLink(scheme: string, userinfo: string, host: string, port: int): string {
    scheme + ":" + ("//" + Authority(userinfo, host, port))
  }

  // ---------- reading a link back (section 3 of RFC 3986) ----------

  datatype Url = Url(scheme: string, userinfo: string, host: string, port: int, params: map<string, string>, fragment: string)

  function OrEmpty(s: Option<string>): string {
    if s.Some? then s.value else ""
  }

  function ParseInt(s: string): Option<int> {
    if s != "" && (if s[0] == '-' then AllDigits(s[1..]) else AllDigits(s)) then Some(IntValue(s)) else None
  }

  datatype Server = Server(userinfo: string, host: string, port: int)

  function ParseAuthority(s: string): Option<Server> {
    var userCut := CutLast(s, '@');
    var portCut := CutLast(OrEmpty(userCut.right), ':');
    var userinfo, port := Decode(userCut.left, false), ParseInt(OrEmpty(portCut.right));
    if Cut(s, '/').right.Some? || userinfo.None? || port.None? then None
    else Some(Server(userinfo.value, portCut.left, port.value))
  }

  function ParseUrl(s: string): Option<Url> {
    var fragmentCut := Cut(s, '#');
    var queryCut := Cut(fragmentCut.left, '?');
    var schemeCut := Cut(queryCut.left, ':');
    var rest := OrEmpty(schemeCut.right);
    if |rest| < 2 || rest[..2] != "//" then None
    else
      var server, fragment := ParseAuthority(rest[2..]), Decode(OrEmpty(fragmentCut.right), false);
      var params := ParseQuery(OrEmpty(queryCut.right));
      if server.None? || fragment.None? || params.None? then None
      else Some(Url(schemeCut.left, server.value.userinfo, server.value.host, server.value.port, params.value, fragment.value))
  }

  lemma {:induction false} FormatNatFree(n: nat)
    ensures Free(FormatNat(n), DELIMITERS)
  {
    if n >= 10 { FormatNatFree(n / 10); }
  }

  lemma FormatIntFree(n: int)
    ensures Free(FormatInt(n), DELIMITERS)
  {
    FormatNatFree(if n < 0 then -n else n);
  }

  lemma PairFree(k: string, v: string)
    requires Bytes(k) && Bytes(v)
    ensures '#' !in Pair(k, v)
  {
    hide QueryEscape;
    EscapedIsFree(k);
    EscapedIsFree(v);
    FreeOf(QueryEscape(k), '#');
    FreeOf(QueryEscape(v), '#');
  }

  lemma {:induction false} PairsFree(keys: seq<string>, q: map<string, string>)
    requires BytesMap(q) && forall i :: 0 <= i < |keys| ==> keys[i] in q
    ensures '#' !in Pairs(keys, q)
  {
    hide Pair, Bytes;
    if keys != [] {
      var n := |keys| - 1;
      var last := Pair(keys[n], q[keys[n]]);
      PairFree(keys[n], q[keys[n]]);
      PairsFree(keys[..n], q);
      assert Pairs(keys, q) == if n == 0 then last else Pairs(keys[..n], q) + "&" + last;
    }
  }

  const HOST_DELIMITERS := {'/', '?', '#', '@'}

  lemma AuthorityParses(secret: string, host: string, port: int)
    requires Bytes(secret) && Free(host, HOST_DELIMITERS)
    ensures var a := Authority(EncodeUserinfo(secret), host, port);
            ParseAuthority(a) == Some(Server(secret, host, port)) && Free(a, {'/', '?', '#'})
  {
    hide EncodeUserinfo, FormatInt, Cut, CutLast, Decode, IntValue;
    var user, number := EncodeUserinfo(secret), FormatInt(port);
    UserinfoIsPercentEncoded(secret);
    EscapedIsFree(secret);
    FormatIntFree(port);
    CutLastFinds(user, '@', host + ":" + number);
    CutLastFinds(host, ':', number);
    PercentDecodes(secret, false);
    IntRoundTrip(port);
    CutMisses(Authority(user, host, port), '/');
  }

  // Reading an encoded query back gives the parameters it was made from, and it
  // is empty only without parameters.
  lemma EncodedParses(encoded: string, q: map<string, string>)
    requires Encodes(encoded, q)
    ensures ParseQuery(encoded) == Some(q) && '#' !in encoded
  {
    hide ParseQuery, Pairs;
    var keys :| EncodedBy(encoded, keys, q);
    QueryRoundTrip(keys, q);
    assert forall i :: 0 <= i < |keys| ==> keys[i] in keys;
    PairsFree(keys, q);
  }

  // ?query, absent when it is empty.
  function QueryPart(encoded: string): string {
    if encoded == "" then "" else "?" + encoded
  }

  lemma QueryPartParses(base: string, encoded: string, q: map<string, string>)
    requires Encodes(encoded, q) && Free(base, {'?', '#'})
    ensures var h := Cut(base + QueryPart(encoded), '?');
            h.left == base && ParseQuery(OrEmpty(h.right)) == Some(q)
    ensures '#' !in base + QueryPart(encoded)
  {
    hide Cut, ParseQuery, Encodes;
    EncodedParses(encoded, q);
    if encoded == "" {
      assert base + "" == base;
      CutMisses(base, '?');
    } else {
      CutFinds(base, '?', encoded);
      assert base + ("?" + encoded) == base + "?" + encoded;
    }
  }

  lemma FragmentParses(front: string, fragment: string)
    requires '#' !in front && Bytes(fragment)
    ensures var h := Cut(front + (if fragment == "" then "" else "#" + EncodeUserinfo(fragment)), '#');
            h.left == front && Decode(OrEmpty(h.right), false) == Some(fragment)
  {
    hide Cut, EncodeUserinfo;
    if fragment == "" {
      assert front + "" == front;
      CutMisses(front, '#');
    } else {
      UserinfoIsPercentEncoded(fragment);
      PercentDecodes(fragment, false);
      CutFinds(front, '#', EncodeUserinfo(fragment));
      assert front + ("#" + EncodeUserinfo(fragment)) == front + "#" + EncodeUserinfo(fragment);
    }
  }

  // Parsing an assembled link recovers every part of it.
  lemma LinkRoundTrip(link: string, scheme: string, secret: string, host: string, port: int, q: map<string, string>, fragment: string)
    requires Bytes(secret) && Bytes(fragment)
    requires Free(scheme, DELIMITERS) && Free(host, HOST_DELIMITERS)
    requires AssembledFrom(link, BaseLink(scheme, EncodeUserinfo(secret), host, port), q, fragment)
    ensures ParseUrl(link) == Some(Url(scheme, secret, host, port, q, fragment))
  {
    hide EncodeUserinfo, Authority, ParseAuthority, Cut, Decode, ParseQuery, Encodes;
    var authority := Authority(EncodeUserinfo(secret), host, port);
    var base := BaseLink(scheme, EncodeUserinfo(secret), host, port);
    var encoded :| Encodes(encoded, q) && link == Assembled(base, encoded, fragment);
    AuthorityParses(secret, host, port);
    BaseFree(scheme, authority);
    QueryPartParses(base, encoded, q);
    FragmentParses(base + QueryPart(encoded), fragment);
    assert link == base + QueryPart(encoded) + (if fragment == "" then "" else "#" + EncodeUserinfo(fragment));
    CutFinds(scheme, ':', "//" + authority);
    assert ("//" + authority)[2..] == authority && ("//" + authority)[..2] == "//";
  }

  lemma BaseFree(scheme: string, authority: string)
    requires Free(scheme, DELIMITERS) && Free(authority, {'/', '?', '#'})
    ensures Free(scheme + ":" + ("//" + authority), {'?', '#'})
    ensures '?' !in scheme + ":" + ("//" + authority)
  {
  }

  // A trojan link, with the security override of an external proxy if there is one,
  // reads back as the password, endpoint, final parameters and remark.
  method TrojanLink(password: string, host: string, port: int, params: map<string, string>, remark: string,
                    securityOverride: string, omitTlsFields: bool)
    returns (link: string)
    requires Bytes(password) && BytesMap(params) && Bytes(remark) && Bytes(securityOverride)
    requires Free(host, HOST_DELIMITERS)
    ensures ParseUrl(link) ==
            Some(Url("trojan", password, host, port, FinalParams(params, securityOverride, omitTlsFields), remark))
  {
    hide FinalParams, EncodeUserinfo, ParseUrl, Bytes, AssembledFrom;
    var base := BaseLink("trojan", EncodeUserinfo(password), host, port);
    link := AppendQueryAndFragment(base, params, remark, securityOverride, omitTlsFields);
    LinkRoundTrip(link, "trojan", password, host, port, FinalParams(params, securityOverride, omitTlsFields), remark);
  }
}

/** The query part of a full-page-cache key: form-urlencoded parsing and escaping
    (percent-encoding of section 2.1 of RFC 3986, with + for a space), and the filter
    that keeps what changes the page. Characters are bytes. */
module PageQuery {
  import opened Text

  predicate Byte(c: char) { (c as int) < 256 }

  predicate Bytes(s: string) {
    forall i :: 0 <= i < |s| ==> Byte(s[i])
  }

  // ---- Escaping ----

  /** Left as it is by url.QueryEscape. */
  predicate Unreserved(c: char) {
    'a' <= c <= 'z' || 'A' <= c <= 'Z' || '0' <= c <= '9' || c == '-' || c == '_' || c == '.' || c == '~'
  }

  function HexDigit(n: int): char
    requires 0 <= n < 16
  {
    if n < 10 then (48 + n) as char else (55 + n) as char
  }

  function HexValue(c: char): Option<int> {
    if '0' <= c <= '9' then Some(c as int - 48)
    else if 'A' <= c <= 'F' then Some(c as int - 55)
    else if 'a' <= c <= 'f' then Some(c as int - 87)
    else None
  }

  function EscapeChar(c: char): string
    requires Byte(c)
  {
    if Unreserved(c) then [c]
    else if c == ' ' then "+"
    else ['%', HexDigit(c as int / 16), HexDigit(c as int % 16)]
  }

  /** url.QueryEscape */
  function Escape(s: string): string
    requires Bytes(s)
  {
    if s == "" then "" else EscapeChar(s[0]) + Escape(s[1..])
  }

  /** url.QueryUnescape; None on a malformed escape. */
  function Unescape(s: string): Option<string> {
    if s == "" then Some("")
    else if s[0] == '%' then
      if |s| < 3 || HexValue(s[1]).None? || HexValue(s[2]).None? then None
      else
        match Unescape(s[3..])
        case None => None
        case Some(rest) => Some([(16 * HexValue(s[1]).value + HexValue(s[2]).value) as char] + rest)
    else
      match Unescape(s[1..])
      case None => None
      case Some(rest) => Some([if s[0] == '+' then ' ' else s[0]] + rest)
  }

  lemma HexRoundTrip(n: int)
    requires 0 <= n < 16
    ensures HexValue(HexDigit(n)) == Some(n)
  {
  }

  lemma UnescapeChar(c: char, rest: string)
    requires Byte(c) && Unescape(rest).Some?
    ensures Unescape(EscapeChar(c) + rest) == Some([c] + Unescape(rest).value)
  {
    var s := EscapeChar(c) + rest;
    if Unreserved(c) || c == ' ' {
      assert s[1..] == rest;
    } else {
      HexRoundTrip(c as int / 16);
      HexRoundTrip(c as int % 16);
      assert s[0] == '%' && s[1] == HexDigit(c as int / 16) && s[2] == HexDigit(c as int % 16) && s[3..] == rest;
    }
  }

  lemma {:induction false} EscapeRoundTrip(s: string)
    requires Bytes(s)
    ensures Unescape(Escape(s)) == Some(s)
  {
    hide EscapeChar, Unreserved;
    if s != "" {
      EscapeRoundTrip(s[1..]);
      UnescapeChar(s[0], Escape(s[1..]));
      assert s == [s[0]] + s[1..];
    } else {
      assert s == "";
    }
  }

  /** No delimiter of a query string, and no control character, survives escaping. */
  predicate Plain(s: string) {
    forall i :: 0 <= i < |s| ==> s[i] != '&' && s[i] != '=' && s[i] != ';' && (s[i] as int) >= 32
  }

  lemma {:induction false} EscapedIsPlain(s: string)
    requires Bytes(s)
    ensures Plain(Escape(s)) && Bytes(Escape(s))
  {
    if s != "" { EscapedIsPlain(s[1..]); }
  }

  lemma {:induction false} UnescapedIsBytes(s: string)
    requires Bytes(s) && Unescape(s).Some?
    ensures Bytes(Unescape(s).value)
  {
    hide HexValue;
    if s != "" {
      if s[0] == '%' {
        UnescapedIsBytes(s[3..]);
        HexRange(s[1]);
        HexRange(s[2]);
      } else {
        UnescapedIsBytes(s[1..]);
      }
    }
  }

  lemma HexRange(c: char)
    ensures HexValue(c).Some? ==> 0 <= HexValue(c).value < 16
  {
  }

  // ---- Parsing ----

  datatype Pair = Pair(key: string, value: string)

  /** One segment between ampersands; skipped when blank, when it holds a semicolon, or when an escape is malformed. */
  function ParseSegment(seg: string): seq<Pair> {
    if seg == "" || IndexOf(seg, ';') < |seg| then [] else
      var j := IndexOf(seg, '=');
      match (Unescape(seg[..j]), Unescape(if j < |seg| then seg[j + 1..] else ""))
      case (Some(k), Some(v)) => [Pair(k, v)]
      case _ => []
  }

  /** url.ParseQuery, keeping every pair that parses, in order. */
  function ParseQuery(raw: string): seq<Pair>
    decreases |raw|
  {
    if raw == "" then [] else
      var i := IndexOf(raw, '&');
      ParseSegment(raw[..i]) + ParseQuery(if i < |raw| then raw[i + 1..] else "")
  }

  /** url.Values.Get: the first value of every key. */
  function Firsts(pairs: seq<Pair>): map<string, string> {
    if pairs == [] then map[] else Firsts(pairs[1..])[pairs[0].key := pairs[0].value]
  }

  function Render(keys: seq<string>, values: map<string, string>): string
    requires forall i :: 0 <= i < |keys| ==> keys[i] in values && Bytes(keys[i]) && Bytes(values[keys[i]])
  {
    if keys == [] then ""
    else
      var seg := Escape(keys[0]) + "=" + Escape(values[keys[0]]);
      if |keys| == 1 then seg else seg + "&" + Render(keys[1..], values)
  }

  function PairsOf(keys: seq<string>, values: map<string, string>): seq<Pair>
    requires forall i :: 0 <= i < |keys| ==> keys[i] in values
  {
    seq(|keys|, i requires 0 <= i < |keys| => Pair(keys[i], values[keys[i]]))
  }

  lemma SegmentRoundTrip(k: string, v: string)
    requires Bytes(k) && Bytes(v)
    ensures var seg := Escape(k) + "=" + Escape(v);
            ParseSegment(seg) == [Pair(k, v)] && (forall i :: 0 <= i < |seg| ==> seg[i] != '&') && seg != ""
  {
    hide Escape, Unescape;
    EscapedIsPlain(k);
    EscapedIsPlain(v);
    EscapeRoundTrip(k);
    EscapeRoundTrip(v);
    var seg := Escape(k) + "=" + Escape(v);
    assert seg[|Escape(k)|] == '=';
    IndexOfIs(seg, ';', |seg|);
    IndexOfIs(seg, '=', |Escape(k)|);
    assert seg[..|Escape(k)|] == Escape(k) && seg[|Escape(k)| + 1..] == Escape(v);
  }

  /** Letters, digits and four marks stay, a space becomes a plus, and all else two upper-case hex digits. */
  lemma EscapeForms(c: char)
    requires Byte(c)
    ensures EscapeChar(c) ==
            if 'a' <= c <= 'z' || 'A' <= c <= 'Z' || '0' <= c <= '9' || c in {'-', '_', '.', '~'} then [c]
            else if c == ' ' then "+"
            else ['%', "0123456789ABCDEF"[c as int / 16], "0123456789ABCDEF"[c as int % 16]]
  {
    hide HexDigit;
    DigitIs(c as int / 16);
    DigitIs(c as int % 16);
  }

  lemma DigitIs(n: int)
    requires 0 <= n < 16
    ensures HexDigit(n) == "0123456789ABCDEF"[n]
  {
  }

  lemma HexDigitsAre(n: int)
    requires 0 <= n < 16
    ensures HexValue("0123456789ABCDEF"[n]) == Some(n) == HexValue("0123456789abcdef"[n])
  {
  }

  /** An escape may be spelled in either case, and a plus is a space. */
  lemma UnescapeForms(c: char, rest: string)
    requires Byte(c) && Unescape(rest).Some?
    ensures var hi, lo := c as int / 16, c as int % 16;
            && Unescape(['%', "0123456789ABCDEF"[hi], "0123456789ABCDEF"[lo]] + rest) == Some([c] + Unescape(rest).value)
            && Unescape(['%', "0123456789abcdef"[hi], "0123456789abcdef"[lo]] + rest) == Some([c] + Unescape(rest).value)
            && Unescape("+" + rest) == Some(" " + Unescape(rest).value)
  {
    hide HexValue;
    var hi, lo := c as int / 16, c as int % 16;
    HexDigitsAre(hi);
    HexDigitsAre(lo);
    UnescapeHex("0123456789ABCDEF"[hi], "0123456789ABCDEF"[lo], hi, lo, rest);
    UnescapeHex("0123456789abcdef"[hi], "0123456789abcdef"[lo], hi, lo, rest);
    assert ("+" + rest)[1..] == rest;
  }

  lemma UnescapeHex(h: char, l: char, hi: int, lo: int, rest: string)
    requires HexValue(h) == Some(hi) && HexValue(l) == Some(lo) && 0 <= hi < 16 && 0 <= lo < 16 && Unescape(rest).Some?
    ensures Unescape(['%', h, l] + rest) == Some([(16 * hi + lo) as char] + Unescape(rest).value)
  {
    hide HexValue;
    var s := ['%', h, l] + rest;
    assert s[0] == '%' && s[1] == h && s[2] == l && s[3..] == rest;
  }

  /** A segment with a semicolon is dropped; one without an equals sign is a key with no value; the first
      equals sign separates. */
  lemma SegmentForms(k: string, v: string, raw: string)
    requires Bytes(k)
    ensures ';' in raw ==> ParseSegment(raw) == []
    ensures k != "" ==> ParseSegment(Escape(k)) == [Pair(k, "")]
    ensures ';' !in raw && Unescape(raw).Some? ==> ParseSegment(Escape(k) + "=" + raw) == [Pair(k, Unescape(raw).value)]
  {
    hide Escape, Unescape;
    EscapedIsPlain(k);
    EscapeRoundTrip(k);
    EscapedNonEmpty(k);
    var e := Escape(k);
    IndexOfIs(e, ';', |e|);
    IndexOfIs(e, '=', |e|);
    assert e[..|e|] == e;
    assert Unescape("") == Some("") by { EscapeRoundTrip(""); EscapedNonEmpty(""); }
    var seg := e + "=" + raw;
    assert seg[|e|] == '=' && seg[..|e|] == e && seg[|e| + 1..] == raw;
    IndexOfIs(seg, '=', |e|);
    if ';' !in raw { IndexOfIs(seg, ';', |seg|); }
  }

  lemma EscapedNonEmpty(k: string)
    requires Bytes(k)
    ensures Escape(k) == "" <==> k == ""
  {
  }

  /** What is rendered parses back to the same pairs. */
  lemma {:induction false} RenderRoundTrip(keys: seq<string>, values: map<string, string>)
    requires forall i :: 0 <= i < |keys| ==> keys[i] in values && Bytes(keys[i]) && Bytes(values[keys[i]])
    ensures ParseQuery(Render(keys, values)) == PairsOf(keys, values)
  {
    hide Escape, ParseSegment, IndexOf, Bytes;
    if keys != [] {
      var k, v := keys[0], values[keys[0]];
      var seg, raw := Escape(k) + "=" + Escape(v), Render(keys, values);
      SegmentRoundTrip(k, v);
      RenderRoundTrip(keys[1..], values);
      if |keys| == 1 {
        IndexOfIs(raw, '&', |raw|);
        assert raw[..|raw|] == raw;
        assert PairsOf(keys, values) == [Pair(k, v)];
      } else {
        assert raw[|seg|] == '&';
        IndexOfIs(raw, '&', |seg|);
        assert raw[..|seg|] == seg && raw[|seg| + 1..] == Render(keys[1..], values);
        assert PairsOf(keys, values) == [Pair(k, v)] + PairsOf(keys[1..], values);
      }
    }
  }

  lemma {:induction false} ParsedIsBytes(raw: string)
    requires Bytes(raw)
    ensures forall k :: k in Firsts(ParseQuery(raw)) ==> Bytes(k) && Bytes(Firsts(ParseQuery(raw))[k])
    decreases |raw|
  {
    hide ParseSegment, Bytes;
    if raw != "" {
      var i := IndexOf(raw, '&');
      var seg, rest := raw[..i], if i < |raw| then raw[i + 1..] else "";
      BytesSlice(raw, 0, i);
      if i < |raw| { BytesSlice(raw, i + 1, |raw|); } else { BytesSlice(raw, 0, 0); }
      ParsedIsBytes(rest);
      SegmentBytes(seg);
      if ParseSegment(seg) == [] {
        assert ParseQuery(raw) == ParseQuery(rest);
      } else {
        assert ParseQuery(raw)[1..] == ParseQuery(rest);
      }
    }
  }

  lemma BytesSlice(s: string, i: nat, j: nat)
    requires Bytes(s) && i <= j <= |s|
    ensures Bytes(s[i..j]) && (j == |s| ==> s[i..] == s[i..j]) && (i == 0 ==> s[..j] == s[i..j]) && (i == j ==> s[i..j] == "")
  {
  }

  lemma SegmentBytes(seg: string)
    requires Bytes(seg)
    ensures ParseSegment(seg) == [] || (|ParseSegment(seg)| == 1 && Bytes(ParseSegment(seg)[0].key) && Bytes(ParseSegment(seg)[0].value))
  {
    hide Bytes, Unescape;
    if seg != "" {
      var j := IndexOf(seg, '=');
      BytesSlice(seg, 0, j);
      if j < |seg| { BytesSlice(seg, j + 1, |seg|); } else { BytesSlice(seg, 0, 0); }
      if Unescape(seg[..j]).Some? { UnescapedIsBytes(seg[..j]); }
      if Unescape(if j < |seg| then seg[j + 1..] else "").Some? { UnescapedIsBytes(if j < |seg| then seg[j + 1..] else ""); }
    }
  }

  // ---- Filtering ----

  const ROUTE_HOME := "/"
  const ROUTE_PDP := "/products/{slug}"
  const ROUTE_PLP := "/products"
  const ROUTE_CATEGORY := "/categories/{slug}"
  const ROUTE_CATEGORIES := "/categories"
  const ROUTE_SEARCH := "/search"
  const ROUTE_CMS := "/pages/{slug}"

  predicate ListingRoute(route: string) {
    route == ROUTE_PLP || route == ROUTE_SEARCH || route == ROUTE_CATEGORY || route == ROUTE_CATEGORIES
  }

  predicate ListingKey(key: string) {
    key in {"q", "page", "per_page", "sort", "view", "category"}
  }

  /** queryKeyAllowed; a blank extra key allows nothing. */
  predicate Allowed(route: string, key: string, extras: seq<string>) {
    ListingRoute(route) && (ListingKey(key) || (key != "" && key in extras))
  }

  /** The parameters that reach the page: the first value of every allowed key. */
  function Kept(route: string, raw: string, extras: seq<string>): map<string, string> {
    var values := Firsts(ParseQuery(raw));
    map k | k in values && Allowed(route, k, extras) :: values[k]
  }

  /** k=v is the first pair of k in the query, and this page reads k. */
  predicate Shown(route: string, raw: string, extras: seq<string>, k: string, v: string) {
    && (route == "/products" || route == "/search" || route == "/categories/{slug}" || route == "/categories")
    && (k == "q" || k == "page" || k == "per_page" || k == "sort" || k == "view" || k == "category" || (k != "" && k in extras))
    && exists i :: 0 <= i < |ParseQuery(raw)| && ParseQuery(raw)[i] == Pair(k, v)
                   && forall j :: 0 <= j < i ==> ParseQuery(raw)[j].key != k
  }

  lemma {:induction false} FirstsAre(pairs: seq<Pair>, k: string, v: string)
    ensures k in Firsts(pairs) && Firsts(pairs)[k] == v
            <==> exists i :: 0 <= i < |pairs| && pairs[i] == Pair(k, v) && forall j :: 0 <= j < i ==> pairs[j].key != k
  {
    if pairs != [] {
      var rest := pairs[1..];
      FirstsAre(rest, k, v);
      if pairs[0].key != k {
        if i :| 0 <= i < |pairs| && pairs[i] == Pair(k, v) && forall j :: 0 <= j < i ==> pairs[j].key != k {
          assert rest[i - 1] == pairs[i] && forall j :: 0 <= j < i - 1 ==> rest[j] == pairs[j + 1];
        }
        if i :| 0 <= i < |rest| && rest[i] == Pair(k, v) && forall j :: 0 <= j < i ==> rest[j].key != k {
          assert pairs[i + 1] == rest[i] && forall j :: 0 < j < i + 1 ==> pairs[j] == rest[j - 1];
        }
      }
    }
  }

  /** The kept parameters are the first pairs of the keys that the page reads. */
  lemma KeptIsShown(route: string, raw: string, extras: seq<string>, k: string, v: string)
    ensures k in Kept(route, raw, extras) && Kept(route, raw, extras)[k] == v <==> Shown(route, raw, extras, k, v)
  {
    hide ParseQuery, Firsts;
    FirstsAre(ParseQuery(raw), k, v);
  }

  lemma KeptEqual(route: string, raw: string, extras: seq<string>, other: string, others: seq<string>)
    ensures Kept(route, raw, extras) == Kept(route, other, others)
            <==> forall k, v :: Shown(route, raw, extras, k, v) <==> Shown(route, other, others, k, v)
  {
    hide Kept, Shown;
    var a, b := Kept(route, raw, extras), Kept(route, other, others);
    forall k, v ensures (k in a && a[k] == v <==> Shown(route, raw, extras, k, v)) && (k in b && b[k] == v <==> Shown(route, other, others, k, v)) {
      KeptIsShown(route, raw, extras, k, v);
      KeptIsShown(route, other, others, k, v);
    }
    if forall k, v :: Shown(route, raw, extras, k, v) <==> Shown(route, other, others, k, v) {
      forall k ensures (k in a <==> k in b) && (k in a ==> a[k] == b[k]) {
        if k in a { assert Shown(route, other, others, k, a[k]); }
        if k in b { assert Shown(route, raw, extras, k, b[k]); }
      }
    }
  }

  /** The keys of a map in sorted order. */
  ghost predicate SortedKeys(keys: seq<string>, m: map<string, string>) {
    Sorted(keys) && Distinct(keys) && forall k :: k in keys <==> k in m
  }

  /** Some list of the elements of a set, each once. */
  ghost function Listing(s: set<string>): (list: seq<string>)
    ensures Distinct(list) && forall k :: k in list <==> k in s
    decreases |s|
  {
    if s == {} then [] else
      var x :| x in s;
      [x] + Listing(s - {x})
  }

  ghost function KeysOf(m: map<string, string>): (keys: seq<string>)
    ensures SortedKeys(keys, m)
  {
    var list := Listing(m.Keys);
    SortSorts(list);
    SortDistinct(list);
    SortEntries(list);
    Sort(list)
  }

  lemma KeysUnique(a: seq<string>, b: seq<string>, m: map<string, string>)
    requires SortedKeys(a, m) && SortedKeys(b, m)
    ensures a == b
  {
    SortedUnique(a, b);
  }

  /** The filtered query: the kept parameters in key order. */
  ghost function FilteredQuery(route: string, raw: string, extras: seq<string>): string
    requires Bytes(raw)
  {
    KeptIsBytes(route, raw, extras);
    Render(KeysOf(Kept(route, raw, extras)), Kept(route, raw, extras))
  }

  lemma KeptIsBytes(route: string, raw: string, extras: seq<string>)
    requires Bytes(raw)
    ensures forall k :: k in Kept(route, raw, extras) ==> Bytes(k) && Bytes(Kept(route, raw, extras)[k])
  {
    ParsedIsBytes(raw);
  }

  /** FilterQuery. The keys of a Go map come in any order, which the sort hides. */
  method FilterQuery(route: string, raw: string, extraQueryKeys: seq<string>) returns (r: string)
    requires Bytes(raw)
    ensures r == FilteredQuery(route, raw, extraQueryKeys)
  {
    hide Allowed, Escape, Bytes;
    var values := Firsts(ParseQuery(raw));
    ghost var kept := Kept(route, raw, extraQueryKeys);
    KeptIsBytes(route, raw, extraQueryKeys);
    var keys: seq<string> := [];
    var todo := values.Keys;
    while todo != {}
      invariant todo <= values.Keys && Distinct(keys)
      invariant forall k :: k in keys <==> k in values && k !in todo && Allowed(route, k, extraQueryKeys)
      decreases |todo|
    {
      var k :| k in todo;
      todo := todo - {k};
      if Allowed(route, k, extraQueryKeys) { keys := keys + [k]; }
    }
    SortSorts(keys);
    SortDistinct(keys);
    SortEntries(keys);
    keys := Sort(keys);
    KeysUnique(keys, KeysOf(kept), kept);
    r := RenderLoop(keys, kept, values);
  }

  /** Writes the pairs one after the other, an ampersand before all but the first. */
  method RenderLoop(keys: seq<string>, ghost kept: map<string, string>, values: map<string, string>) returns (r: string)
    requires forall i :: 0 <= i < |keys| ==> keys[i] in kept && Bytes(keys[i]) && Bytes(kept[keys[i]])
    requires forall k :: k in kept ==> k in values && values[k] == kept[k]
    ensures r == Render(keys, kept)
  {
    hide Escape, Bytes, Render;
    assert keys[0..] == keys;
    RenderNone(kept);
    r := "";
    var first := true;
    for i := 0 to |keys|
      invariant first <==> i == 0
      invariant Render(keys, kept) == if i == 0 then Render(keys[i..], kept)
                                      else if i == |keys| then r else r + "&" + Render(keys[i..], kept)
      invariant i == 0 ==> r == ""
    {
      RenderNext(keys, i, kept);
      var k := keys[i];
      if !first { r := r + "&"; }
      first := false;
      r := r + Escape(k);
      r := r + "=";
      r := r + Escape(values[k]);
    }
  }

  lemma RenderNone(m: map<string, string>)
    ensures Render([], m) == ""
  {
  }

  lemma RenderNext(keys: seq<string>, i: nat, m: map<string, string>)
    requires i < |keys| && forall j :: 0 <= j < |keys| ==> keys[j] in m && Bytes(keys[j]) && Bytes(m[keys[j]])
    ensures var seg := Escape(keys[i]) + "=" + Escape(m[keys[i]]);
            Render(keys[i..], m) == if i + 1 == |keys| then seg else seg + "&" + Render(keys[i + 1..], m)
  {
    hide Escape, Bytes;
    assert keys[i..][1..] == keys[i + 1..];
  }

  lemma {:induction false} FirstsOfPairs(keys: seq<string>, m: map<string, string>)
    requires Distinct(keys) && forall k :: k in keys ==> k in m
    ensures forall k :: k in Firsts(PairsOf(keys, m)) <==> k in keys
    ensures forall k :: k in keys ==> Firsts(PairsOf(keys, m))[k] == m[k]
  {
    if keys != [] {
      FirstsOfPairs(keys[1..], m);
      assert PairsOf(keys, m)[1..] == PairsOf(keys[1..], m);
    }
  }

  lemma FilteredIsBytes(route: string, raw: string, extras: seq<string>)
    requires Bytes(raw)
    ensures Bytes(FilteredQuery(route, raw, extras))
    ensures forall i :: 0 <= i < |FilteredQuery(route, raw, extras)| ==> (FilteredQuery(route, raw, extras)[i] as int) >= 32
  {
    hide Bytes, Kept, Escape;
    KeptIsBytes(route, raw, extras);
    RenderedIsBytes(KeysOf(Kept(route, raw, extras)), Kept(route, raw, extras));
  }

  lemma {:induction false} RenderedIsBytes(keys: seq<string>, m: map<string, string>)
    requires forall i :: 0 <= i < |keys| ==> keys[i] in m && Bytes(keys[i]) && Bytes(m[keys[i]])
    ensures Bytes(Render(keys, m)) && forall i :: 0 <= i < |Render(keys, m)| ==> (Render(keys, m)[i] as int) >= 32
  {
    hide Escape;
    if keys != [] {
      RenderedIsBytes(keys[1..], m);
      EscapedIsPlain(keys[0]);
      EscapedIsPlain(m[keys[0]]);
    }
  }

  /** The kept parameters of a filtered query are those of the original. */
  lemma KeptOfFiltered(route: string, raw: string, extras: seq<string>)
    requires Bytes(raw)
    ensures Kept(route, FilteredQuery(route, raw, extras), extras) == Kept(route, raw, extras)
  {
    hide Bytes, Escape, Allowed, ParseQuery;
    var m := Kept(route, raw, extras);
    var keys := KeysOf(m);
    KeptIsBytes(route, raw, extras);
    RenderRoundTrip(keys, m);
    FirstsOfPairs(keys, m);
  }

  /** Filtering a filtered query changes nothing. */
  lemma FilterIdempotent(route: string, raw: string, extras: seq<string>)
    requires Bytes(raw)
    ensures Bytes(FilteredQuery(route, raw, extras))
    ensures FilteredQuery(route, FilteredQuery(route, raw, extras), extras) == FilteredQuery(route, raw, extras)
  {
    hide Bytes, Kept, Render;
    FilteredIsBytes(route, raw, extras);
    KeptOfFiltered(route, raw, extras);
  }

  /** The filtered query holds exactly the first pair of every key that the page reads, in key
      order: of page=2&page=1 it keeps page 2. */
  lemma FilteredPairs(route: string, raw: string, extras: seq<string>)
    requires Bytes(raw)
    ensures var pairs := ParseQuery(FilteredQuery(route, raw, extras));
            && (forall k, v :: Pair(k, v) in pairs <==> Shown(route, raw, extras, k, v))
            && (forall i, j :: 0 <= i < j < |pairs| ==> Leq(pairs[i].key, pairs[j].key) && pairs[i].key != pairs[j].key)
  {
    hide Bytes, Escape, Kept, Shown, ParseQuery, Leq, Render;
    var m := Kept(route, raw, extras);
    var keys := KeysOf(m);
    KeptIsBytes(route, raw, extras);
    RenderRoundTrip(keys, m);
    var pairs := PairsOf(keys, m);
    assert forall i :: 0 <= i < |pairs| ==> pairs[i].key == keys[i];
    hide PairsOf, KeysOf, SortedKeys;
    forall k, v ensures Pair(k, v) in pairs <==> Shown(route, raw, extras, k, v) {
      KeptIsShown(route, raw, extras, k, v);
      PairListed(keys, m, k, v);
    }
  }

  lemma PairListed(keys: seq<string>, m: map<string, string>, k: string, v: string)
    requires SortedKeys(keys, m)
    ensures Pair(k, v) in PairsOf(keys, m) <==> k in m && m[k] == v
  {
    if k in m && m[k] == v {
      var i :| 0 <= i < |keys| && keys[i] == k;
      assert PairsOf(keys, m)[i] == Pair(k, v);
    }
  }

  lemma ParseCut(raw: string, i: nat)
    requires i < |raw| && raw[i] == '&' && forall j :: 0 <= j < i ==> raw[j] != '&'
    ensures ParseQuery(raw) == ParseSegment(raw[..i]) + ParseQuery(raw[i + 1..])
  {
    hide ParseSegment;
    IndexOfIs(raw, '&', i);
  }

  lemma ParseWhole(raw: string)
    requires forall j :: 0 <= j < |raw| ==> raw[j] != '&'
    ensures ParseQuery(raw) == ParseSegment(raw)
  {
    hide Unescape;
    IndexOfIs(raw, '&', |raw|);
    assert raw[..|raw|] == raw;
  }

  lemma {:induction false} ParseConcat(a: string, b: string)
    ensures ParseQuery(a + "&" + b) == ParseQuery(a) + ParseQuery(b)
    decreases |a|
  {
    hide ParseSegment, ParseQuery, IndexOf;
    var raw, i := a + "&" + b, IndexOf(a, '&');
    assert raw[..i] == a[..i];
    ParseCut(raw, i);
    if i < |a| {
      ParseCut(a, i);
      assert raw[i + 1..] == a[i + 1..] + "&" + b;
      ParseConcat(a[i + 1..], b);
    } else {
      ParseWhole(a);
      assert raw[i + 1..] == b && a[..i] == a;
    }
  }

  lemma {:induction false} FirstsAppend(pairs: seq<Pair>, p: Pair, k: string)
    ensures k in Firsts(pairs + [p]) <==> k in Firsts(pairs) || k == p.key
    ensures k in Firsts(pairs) ==> Firsts(pairs + [p])[k] == Firsts(pairs)[k]
  {
    if pairs == [] {
      assert (pairs + [p])[1..] == [];
    } else {
      assert (pairs + [p])[1..] == pairs[1..] + [p];
      FirstsAppend(pairs[1..], p, k);
    }
  }

  lemma {:induction false} FirstsHas(pairs: seq<Pair>, i: nat)
    requires i < |pairs|
    ensures pairs[i].key in Firsts(pairs)
  {
    if i > 0 { FirstsHas(pairs[1..], i - 1); }
  }

  /** A later pair of a key that is there already changes nothing. */
  lemma RepeatIgnored(route: string, raw: string, extras: seq<string>, k: string, v: string)
    requires Bytes(raw) && Bytes(k) && Bytes(v) && exists i :: 0 <= i < |ParseQuery(raw)| && ParseQuery(raw)[i].key == k
    ensures Bytes(raw + "&" + Escape(k) + "=" + Escape(v))
    ensures FilteredQuery(route, raw + "&" + Escape(k) + "=" + Escape(v), extras) == FilteredQuery(route, raw, extras)
  {
    hide Escape, ParseSegment, ParseQuery, Render;
    EscapedIsPlain(k);
    EscapedIsPlain(v);
    var seg := Escape(k) + "=" + Escape(v);
    assert raw + "&" + Escape(k) + "=" + Escape(v) == raw + "&" + seg;
    ParseConcat(raw, seg);
    SegmentRoundTrip(k, v);
    ParseWhole(seg);
    var pairs := ParseQuery(raw);
    var i :| 0 <= i < |pairs| && pairs[i].key == k;
    FirstsHas(pairs, i);
    forall key { FirstsAppend(pairs, Pair(k, v), key); }
    assert Firsts(pairs + [Pair(k, v)]) == Firsts(pairs);
  }

  /** Two queries filter to the same string exactly when they agree on the first value of every
      allowed key, whatever the order, repeats, escapes or dropped parameters; each may be
      filtered with its own extra keys. */
  lemma FilterCanonical(route: string, raw: string, extras: seq<string>, other: string, others: seq<string>)
    requires Bytes(raw) && Bytes(other)
    ensures FilteredQuery(route, raw, extras) == FilteredQuery(route, other, others)
            <==> Kept(route, raw, extras) == Kept(route, other, others)
    ensures FilteredQuery(route, raw, extras) == FilteredQuery(route, other, others)
            <==> forall k, v :: Shown(route, raw, extras, k, v) <==> Shown(route, other, others, k, v)
  {
    hide Bytes, Kept, Render, KeysOf, Shown;
    KeptEqual(route, raw, extras, other, others);
    if FilteredQuery(route, raw, extras) == FilteredQuery(route, other, others) {
      var a, b := Kept(route, raw, extras), Kept(route, other, others);
      KeptIsBytes(route, raw, extras);
      KeptIsBytes(route, other, others);
      RenderInjective(KeysOf(a), a, KeysOf(b), b);
    }
  }

  lemma RenderInjective(ka: seq<string>, a: map<string, string>, kb: seq<string>, b: map<string, string>)
    requires SortedKeys(ka, a) && SortedKeys(kb, b)
    requires forall k :: k in a ==> Bytes(k) && Bytes(a[k])
    requires forall k :: k in b ==> Bytes(k) && Bytes(b[k])
    requires Render(ka, a) == Render(kb, b)
    ensures a == b
  {
    hide Bytes, Escape, Sorted, Render, ParseQuery, Firsts, PairsOf, Distinct;
    RenderRoundTrip(ka, a);
    RenderRoundTrip(kb, b);
    FirstsOfPairs(ka, a);
    FirstsOfPairs(kb, b);
    var m := Firsts(PairsOf(ka, a));
    assert m == Firsts(PairsOf(kb, b));
    forall k ensures (k in a <==> k in b) && (k in a ==> a[k] == b[k]) {
      assert k in a <==> k in m;
      assert k in b <==> k in m;
    }
  }

  /** Pages outside the listings ignore the query altogether. */
  lemma OtherRoutesDropQuery(route: string, raw: string, extras: seq<string>)
    requires Bytes(raw) && !ListingRoute(route)
    ensures FilteredQuery(route, raw, extras) == ""
  {
    hide ParseQuery, Escape;
    assert Kept(route, raw, extras) == map[];
    KeptIsBytes(route, raw, extras);
    var keys := KeysOf(Kept(route, raw, extras));
    assert forall k :: k !in multiset(keys) by { assert forall k :: k !in keys; }
    assert |keys| == |multiset(keys)| == 0;
  }
}

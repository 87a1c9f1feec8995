/** Full-page-cache keys, and the purge of every key a URL can have been stored under. */
module PageKeys {
  import opened Text
  import opened PageQuery

  const KEY_PREFIX := "fpc:v1:"
  const GUEST := "guest"
  const AUTHENTICATED := "authenticated"
  const SEPARATOR: char := 31 as char

  datatype Vary = Vary(store: string, language: string, currency: string, authState: string, visibilityEnforce: bool)

  function Join(fields: seq<string>): string {
    if fields == [] then ""
    else if |fields| == 1 then fields[0]
    else fields[0] + [SEPARATOR] + Join(fields[1..])
  }

  /** Anything but "authenticated" counts as a guest. */
  function AuthOf(v: Vary): string {
    if v.authState == AUTHENTICATED then AUTHENTICATED else GUEST
  }

  function FieldsOf(route: string, path: string, filtered: string, v: Vary): seq<string> {
    [route, path, filtered, v.store, v.language, v.currency, AuthOf(v), if v.visibilityEnforce then "1" else "0"]
  }

  ghost function Key(route: string, path: string, raw: string, v: Vary, extras: seq<string>): string
    requires Bytes(raw)
  {
    KEY_PREFIX + Join(FieldsOf(route, path, FilteredQuery(route, raw, extras), v))
  }

  predicate Free(s: string) {
    forall i :: 0 <= i < |s| ==> s[i] != SEPARATOR
  }

  predicate FreeFields(route: string, path: string, v: Vary) {
    Free(route) && Free(path) && Free(v.store) && Free(v.language) && Free(v.currency)
  }

  lemma {:induction false} JoinInjective(a: seq<string>, b: seq<string>)
    requires |a| == |b| && Join(a) == Join(b)
    requires forall i :: 0 <= i < |a| ==> Free(a[i]) && Free(b[i])
    ensures a == b
  {
    if |a| > 1 {
      IndexOfIs(Join(a), SEPARATOR, |a[0]|);
      IndexOfIs(Join(b), SEPARATOR, |b[0]|);
      var n := |a[0]|;
      assert Join(a)[..n] == a[0] && Join(b)[..n] == b[0];
      assert Join(a)[n + 1..] == Join(a[1..]) && Join(b)[n + 1..] == Join(b[1..]);
      JoinInjective(a[1..], b[1..]);
      assert a == [a[0]] + a[1..] && b == [b[0]] + b[1..];
    } else if |a| == 1 {
      assert a == [a[0]] && b == [b[0]];
    }
  }

  /** On fields free of the separator, two requests share a key exactly when they are the same
      page: same route and path, same store, language and currency, same auth state and enforce
      flag, and the same first value for every parameter that reaches the page. */
  lemma KeyIdentifiesPage(route: string, path: string, raw: string, v: Vary, extras: seq<string>,
                          route': string, path': string, raw': string, v': Vary, extras': seq<string>)
    requires Bytes(raw) && Bytes(raw') && FreeFields(route, path, v) && FreeFields(route', path', v')
    ensures Key(route, path, raw, v, extras) == Key(route', path', raw', v', extras') <==>
            && route == route' && path == path' && Kept(route, raw, extras) == Kept(route, raw', extras')
            && v.store == v'.store && v.language == v'.language && v.currency == v'.currency
            && AuthOf(v) == AuthOf(v') && v.visibilityEnforce == v'.visibilityEnforce
    ensures Key(route, path, raw, v, extras) == Key(route', path', raw', v', extras') <==>
            && route == route' && path == path'
            && (forall k, value :: Shown(route, raw, extras, k, value) <==> Shown(route, raw', extras', k, value))
            && v.store == v'.store && v.language == v'.language && v.currency == v'.currency
            && (v.authState == "authenticated" <==> v'.authState == "authenticated") && v.visibilityEnforce == v'.visibilityEnforce
  {
    hide Bytes, FilteredQuery, Kept, Free, Join, Shown;
    KeptEqual(route, raw, extras, raw', extras');
    var q, q' := FilteredQuery(route, raw, extras), FilteredQuery(route', raw', extras');
    var a, b := FieldsOf(route, path, q, v), FieldsOf(route', path', q', v');
    FilterCanonical(route, raw, extras, raw', extras');
    FieldsFree(route, path, raw, v, extras);
    FieldsFree(route', path', raw', v', extras');
    if Key(route, path, raw, v, extras) == Key(route', path', raw', v', extras') {
      DropPrefix(Join(a), Join(b));
      JoinInjective(a, b);
      assert a[0] == b[0] && a[1] == b[1] && a[2] == b[2] && a[3] == b[3] && a[4] == b[4] && a[5] == b[5] && a[6] == b[6] && a[7] == b[7];
    }
  }

  lemma DropPrefix(a: string, b: string)
    requires KEY_PREFIX + a == KEY_PREFIX + b
    ensures a == b
  {
    assert (KEY_PREFIX + a)[|KEY_PREFIX|..] == a;
    assert (KEY_PREFIX + b)[|KEY_PREFIX|..] == b;
  }

  lemma FieldsFree(route: string, path: string, raw: string, v: Vary, extras: seq<string>)
    requires Bytes(raw) && FreeFields(route, path, v)
    ensures forall i :: 0 <= i < 8 ==> Free(FieldsOf(route, path, FilteredQuery(route, raw, extras), v)[i])
  {
    hide Bytes, FilteredQuery;
    FilteredIsBytes(route, raw, extras);
  }

  /** Filtering before the key is built makes no difference. */
  lemma KeyOfFiltered(route: string, path: string, raw: string, v: Vary, extras: seq<string>)
    requires Bytes(raw)
    ensures Bytes(FilteredQuery(route, raw, extras))
    ensures Key(route, path, FilteredQuery(route, raw, extras), v, extras) == Key(route, path, raw, v, extras)
  {
    hide Bytes, FilteredQuery, Join;
    FilterIdempotent(route, raw, extras);
  }

  // ---- Routes ----

  predicate HasPrefix(s: string, p: string) {
    p <= s
  }

  function TrimSlash(path: string): string {
    if path != "" && path[|path| - 1] == '/' then path[..|path| - 1] else path
  }

  /** The path without its query and final slash, with a first slash. */
  function RootedPath(t: string): string {
    var rooted := if HasPrefix(t, "/") then t else "/" + t;
    var cut := TrimSlash(rooted[..IndexOf(rooted, '?')]);
    if cut == "" then "/" else cut
  }

  function TemplateOf(path: string): Option<string> {
    if path == "/" then Some(ROUTE_HOME)
    else if path == "/products" then Some(ROUTE_PLP)
    else if HasPrefix(path, "/products/") then Some(ROUTE_PDP)
    else if path == "/categories" then Some(ROUTE_CATEGORIES)
    else if HasPrefix(path, "/categories/") then Some(ROUTE_CATEGORY)
    else if path == "/search" then Some(ROUTE_SEARCH)
    else if HasPrefix(path, "/pages/") && path != "/pages" then Some(ROUTE_CMS)
    else None
  }

  /** RouteTemplateForPath */
  function RouteFor(raw: string): Option<string> {
    var t := Trim(raw);
    if t == "" then None else TemplateOf(RootedPath(t))
  }

  const DENIED: seq<string> := ["/cart", "/checkout", "/account", "/admin", "/fragments", "/storefront", "/api", "/setup"]

  predicate DeniedPath(path: string) {
    path == "" || exists i :: 0 <= i < |DENIED| && (path == DENIED[i] || HasPrefix(path, DENIED[i] + "/"))
  }

  predicate Cacheable(route: string, path: string) {
    (ListingRoute(route) || route == ROUTE_HOME || route == ROUTE_PDP || route == ROUTE_CMS) && !DeniedPath(path)
  }

  /** A path without query or final slash. */
  predicate PlainPath(path: string) {
    Trimmed(path) && "/" <= path && (path != "/" ==> path[|path| - 1] != '/') && forall i :: 0 <= i < |path| ==> path[i] != '?'
  }

  /** The route of a plain path; a query, a final slash or a missing first slash makes no difference. */
  lemma RouteTable(path: string, query: string)
    requires PlainPath(path)
    ensures RouteFor(path) ==
            (if path == "/" then Some("/")
             else if path == "/products" || path == "/categories" || path == "/search" then Some(path)
             else if "/products/" <= path then Some("/products/{slug}")
             else if "/categories/" <= path then Some("/categories/{slug}")
             else if "/pages/" <= path then Some("/pages/{slug}")
             else None)
    ensures Trimmed(path + "?" + query) ==> RouteFor(path + "?" + query) == RouteFor(path)
    ensures path != "/" ==> RouteFor(path + "/") == RouteFor(path)
    ensures path != "/" && path[1] != '/' && !IsSpace(path[1]) ==> RouteFor(path[1..]) == RouteFor(path)
  {
    TemplateTable(path);
    hide Trim, TemplateOf, RootedPath, IsSpace;
    TrimIsTrimmed(path);
    Rooted(path, query);
    TrimIsTrimmed(path + "?" + query);
    if path != "/" {
      assert Trimmed(path + "/") by { SlashIsNoSpace(); }
      TrimIsTrimmed(path + "/");
      if path[1] != '/' && !IsSpace(path[1]) {
        assert Trimmed(path[1..]);
        TrimIsTrimmed(path[1..]);
      }
    }
  }

  lemma SlashIsNoSpace()
    ensures !IsSpace('/')
  {
  }

  lemma TemplateTable(path: string)
    ensures TemplateOf(path) ==
            (if path == "/" then Some("/")
             else if path == "/products" || path == "/categories" || path == "/search" then Some(path)
             else if "/products/" <= path then Some("/products/{slug}")
             else if "/categories/" <= path then Some("/categories/{slug}")
             else if "/pages/" <= path then Some("/pages/{slug}")
             else None)
  {
    assert "/products/" <= path ==> path[1] == 'p' && path[2] == 'r';
    assert "/categories/" <= path ==> path[1] == 'c';
    assert "/pages/" <= path ==> path[1] == 'p' && path[2] == 'a' && path != "/pages";
    assert path == "/search" ==> path[1] == 's';
    assert path == "/categories" ==> path[1] == 'c' && |path| == 11;
    assert "/categories/" <= path ==> |path| >= 12;
    assert path == "/products" ==> path[1] == 'p' && path[2] == 'r';
  }

  lemma Rooted(path: string, query: string)
    requires PlainPath(path)
    ensures RootedPath(path) == path && RootedPath(path + "?" + query) == path
    ensures path != "/" ==> RootedPath(path + "/") == path
    ensures path != "/" && path[1] != '/' ==> RootedPath(path[1..]) == path
  {
    var q, s := path + "?" + query, path + "/";
    IndexOfIs(path, '?', |path|);
    assert path[..|path|] == path && q[..|path|] == path && s[..|path| + 1] == s && s[..|path|] == path;
    assert q[|path|] == '?' && forall i :: 0 <= i < |path| ==> q[i] == path[i];
    IndexOfIs(q, '?', |path|);
    assert s[|path|] == '/' && forall i :: 0 <= i < |path| ==> s[i] == path[i];
    IndexOfIs(s, '?', |path| + 1);
    assert HasPrefix(path, "/") && HasPrefix(q, "/") && HasPrefix(s, "/");
    if path != "/" && path[1] != '/' { assert "/" + path[1..] == path && !HasPrefix(path[1..], "/"); }
  }

  /** Carts, checkout, accounts, administration, fragments, API and setup are never cached, nor anything under them. */
  lemma NeverCached(route: string, rest: string)
    ensures forall p :: p in {"/cart", "/checkout", "/account", "/admin", "/fragments", "/storefront", "/api", "/setup"} ==>
              !Cacheable(route, p) && !Cacheable(route, p + "/" + rest)
  {
    assert DENIED[0] == "/cart" && DENIED[1] == "/checkout" && DENIED[2] == "/account" && DENIED[3] == "/admin";
    assert DENIED[4] == "/fragments" && DENIED[5] == "/storefront" && DENIED[6] == "/api" && DENIED[7] == "/setup";
    forall p | p in {"/cart", "/checkout", "/account", "/admin", "/fragments", "/storefront", "/api", "/setup"}
      ensures DeniedPath(p) && DeniedPath(p + "/" + rest)
    {
      var i :| 0 <= i < |DENIED| && DENIED[i] == p;
      assert HasPrefix(p + "/" + rest, DENIED[i] + "/");
    }
  }

  // ---- Purge by URL ----

  datatype StoreVary = StoreVary(id: string, language: string, currency: string)

  predicate AttrKey(k: string) {
    HasPrefix(k, "attr_") && k != "attr_"
  }

  /** The attr_* keys of the URL, sorted. */
  ghost function AttrKeys(raw: string): seq<string> {
    var values := Firsts(ParseQuery(raw));
    KeysOf(map k | k in values && AttrKey(k) :: values[k])
  }

  method CollectAttrKeys(raw: string) returns (keys: seq<string>)
    ensures keys == AttrKeys(raw) && Sorted(keys) && Distinct(keys)
    ensures forall k :: k in keys <==> "attr_" <= k && k != "attr_" && exists p :: p in ParseQuery(raw) && p.key == k
  {
    hide AttrKey;
    var values := Firsts(ParseQuery(raw));
    ghost var m := map k | k in values && AttrKey(k) :: values[k];
    keys := [];
    var todo := values.Keys;
    while todo != {}
      invariant todo <= values.Keys && Distinct(keys)
      invariant forall k :: k in keys <==> k in values && k !in todo && AttrKey(k)
      decreases |todo|
    {
      var k :| k in todo;
      todo := todo - {k};
      if AttrKey(k) { keys := keys + [k]; }
    }
    SortSorts(keys);
    SortDistinct(keys);
    SortEntries(keys);
    keys := Sort(keys);
    KeysUnique(keys, KeysOf(m), m);
    forall k ensures k in keys <==> "attr_" <= k && k != "attr_" && exists p :: p in ParseQuery(raw) && p.key == k {
      AttrKeyIs(k);
      FirstsKeys(ParseQuery(raw), k);
    }
  }

  lemma AttrKeyIs(k: string)
    ensures AttrKey(k) <==> "attr_" <= k && k != "attr_"
  {
  }

  lemma {:induction false} FirstsKeys(pairs: seq<Pair>, k: string)
    ensures k in Firsts(pairs) <==> exists p :: p in pairs && p.key == k
  {
    if pairs != [] {
      FirstsKeys(pairs[1..], k);
      assert pairs == [pairs[0]] + pairs[1..];
    }
  }

  function QueryLanguage(raw: string): string {
    var values := Firsts(ParseQuery(raw));
    Trim(if "lang" in values then values["lang"] else "")
  }

  /** The language asked for is the first lang of the query, trimmed, or none. */
  lemma QueryLanguageIs(raw: string, i: nat)
    requires i <= |ParseQuery(raw)| && (i < |ParseQuery(raw)| ==> ParseQuery(raw)[i].key == "lang")
    requires forall j :: 0 <= j < i ==> ParseQuery(raw)[j].key != "lang"
    ensures QueryLanguage(raw) == if i < |ParseQuery(raw)| then Trim(ParseQuery(raw)[i].value) else ""
  {
    hide ParseQuery;
    var pairs := ParseQuery(raw);
    if i < |pairs| {
      FirstsAre(pairs, "lang", pairs[i].value);
      assert pairs[i] == Pair("lang", pairs[i].value);
    } else {
      TrimIsTrimmed("");
      FirstsKeys(pairs, "lang");
    }
  }

  /** The languages that occur in keys: every store's, the one asked for, and "en". */
  predicate PurgedLanguage(stores: seq<StoreVary>, queryLang: string, lang: string) {
    lang != "" && (lang == Trim(queryLang) || lang == "en" || exists i :: 0 <= i < |stores| && Trim(stores[i].language) == lang)
  }

  method AddLanguage(out: seq<string>, raw: string) returns (more: seq<string>)
    requires Distinct(out)
    ensures Distinct(more)
    ensures forall l :: l in more <==> l in out || (l == Trim(raw) && l != "")
  {
    var lang := Trim(raw);
    if lang == "" || lang in out { return out; }
    return out + [lang];
  }

  method PurgeLanguages(stores: seq<StoreVary>, queryLang: string) returns (out: seq<string>)
    ensures Distinct(out)
    ensures forall l :: l in out <==> PurgedLanguage(stores, queryLang, l)
  {
    hide Trim;
    out := [];
    for i := 0 to |stores|
      invariant Distinct(out)
      invariant forall l :: l in out <==> l != "" && exists j :: 0 <= j < i && Trim(stores[j].language) == l
    {
      out := AddLanguage(out, stores[i].language);
    }
    out := AddLanguage(out, queryLang);
    assert Trim("en") == "en" by { TrimIsTrimmed("en"); }
    out := AddLanguage(out, "en");
    assert "en" in out;
  }

  /** No store configured: one with blank id and currency. */
  function StoresOr(stores: seq<StoreVary>): seq<StoreVary> {
    if stores == [] then [StoreVary("", "", "")] else stores
  }

  function NormalPath(path: string): string {
    var cut := if path == "/" then path else TrimSlash(path);
    if cut == "" then "/" else cut
  }

  /** The path names a page that may be cached. */
  predicate Purgeable(path: string) {
    RouteFor(NormalPath(path)).Some? && Cacheable(RouteFor(NormalPath(path)).value, NormalPath(path))
  }

  /** k is the key of this URL for one of the stores, languages, auth states and enforce flags. */
  ghost predicate PurgedKey(path: string, raw: string, stores: seq<StoreVary>, k: string)
    requires Bytes(raw) && Purgeable(path)
  {
    exists i :: 0 <= i < |StoresOr(stores)| && ForStore(path, raw, stores, i, k)
  }

  ghost predicate ForStore(path: string, raw: string, stores: seq<StoreVary>, i: nat, k: string)
    requires Bytes(raw) && Purgeable(path) && i < |StoresOr(stores)|
  {
    exists lang :: PurgedLanguage(StoresOr(stores), QueryLanguage(raw), lang) && ForLanguage(path, raw, stores, i, lang, k)
  }

  ghost predicate ForLanguage(path: string, raw: string, stores: seq<StoreVary>, i: nat, lang: string, k: string)
    requires Bytes(raw) && Purgeable(path) && i < |StoresOr(stores)|
  {
    exists auth, enforce :: k == PurgeKey(path, raw, stores, i, lang, auth, enforce)
  }

  ghost function PurgeKey(path: string, raw: string, stores: seq<StoreVary>, i: nat, lang: string, auth: bool, enforce: bool): string
    requires Bytes(raw) && Purgeable(path) && i < |StoresOr(stores)|
  {
    var st := StoresOr(stores)[i];
    Key(RouteFor(NormalPath(path)).value, NormalPath(path), raw,
        Vary(st.id, lang, st.currency, if auth then AUTHENTICATED else GUEST, enforce), AttrKeys(raw))
  }

  /** With no store configured a page is purged for one with blank id and currency. */
  lemma NoStorePurged(path: string, raw: string, k: string)
    requires Bytes(raw) && Purgeable(path)
    ensures PurgedKey(path, raw, [], k) <==>
            exists lang :: (lang == "en" || (lang != "" && lang == Trim(QueryLanguage(raw)))) && ForLanguage(path, raw, [], 0, lang, k)
    ensures forall lang, auth, enforce :: PurgeKey(path, raw, [], 0, lang, auth, enforce) ==
              Key(RouteFor(NormalPath(path)).value, NormalPath(path), raw,
                  Vary("", lang, "", if auth then "authenticated" else "guest", enforce), AttrKeys(raw))
  {
    hide Bytes, ForLanguage, QueryLanguage, Key, RouteFor, NormalPath, AttrKeys, Purgeable, Trim;
    assert Trim("") == "" by { TrimIsTrimmed(""); }
    forall lang ensures PurgedLanguage(StoresOr([]), QueryLanguage(raw), lang) <==>
                        lang == "en" || (lang != "" && lang == Trim(QueryLanguage(raw))) {
      assert StoresOr([])[0].language == "";
    }
    assert PurgedKey(path, raw, [], k) <==> ForStore(path, raw, [], 0, k);
  }

  /** A plain path is purged, with or without a final slash, exactly when it is a storefront page. */
  lemma PurgeableIff(path: string)
    requires PlainPath(path)
    ensures Purgeable(path) <==>
            path == "/" || path == "/products" || path == "/categories" || path == "/search"
            || "/products/" <= path || "/categories/" <= path || "/pages/" <= path
    ensures path != "/" ==> NormalPath(path + "/") == path
  {
    hide RouteFor, IsSpace;
    assert NormalPath(path) == path;
    assert (path + "/")[..|path|] == path;
    RouteTable(path, "");
    if RouteFor(path).Some? { StorefrontIsOpen(path); }
  }

  lemma StorefrontIsOpen(path: string)
    requires path == "/" || path == "/products" || path == "/categories" || path == "/search"
             || "/products/" <= path || "/categories/" <= path || "/pages/" <= path
    ensures !DeniedPath(path)
  {
    forall i | 0 <= i < |DENIED| ensures path != DENIED[i] && !HasPrefix(path, DENIED[i] + "/") {
      var d := DENIED[i];
      var e := d + "/";
      assert d == "/cart" || d == "/checkout" || d == "/account" || d == "/admin" || d == "/fragments" || d == "/storefront" || d == "/api" || d == "/setup";
      assert path == "/" || path[1] == 'p' || (path[1] == 'c' && path[3] == 't') || (path[1] == 's' && path[2] == 'e' && path[3] == 'a');
      assert |d| >= 4 && d[1] != 'p' && !(d[1] == 'c' && d[3] == 't') && !(d[1] == 's' && d[2] == 'e' && d[3] == 'a');
      assert e[1] == d[1] && e[2] == d[2] && e[3] == d[3];
    }
  }

  method BuildKey(route: string, path: string, filtered: string, v: Vary, extras: seq<string>) returns (k: string)
    requires Bytes(filtered)
    ensures k == Key(route, path, filtered, v, extras)
  {
    var q := FilterQuery(route, filtered, extras);
    k := KEY_PREFIX + Join(FieldsOf(route, path, q, v));
  }

  /** One key per store, language, auth state and enforce flag, each once. path and raw are the
      two parts of the parsed URL; None is the validation error. */
  method PurgeURLKeys(path: string, raw: string, stores: seq<StoreVary>) returns (keys: Option<seq<string>>)
    requires Bytes(raw)
    ensures keys.None? <==> !Purgeable(path)
    ensures keys.Some? ==> Distinct(keys.value) && forall k :: k in keys.value <==> PurgedKey(path, raw, stores, k)
  {
    hide Bytes, RouteFor, NormalPath, Cacheable, AttrKeys, FilteredQuery, ForStore, PurgedLanguage, QueryLanguage;
    var p := NormalPath(path);
    var route := RouteFor(p);
    if route.None? || !Cacheable(route.value, p) { return None; }
    var extras := CollectAttrKeys(raw);
    FilteredIsBytes(route.value, raw, extras);
    var filtered := FilterQuery(route.value, raw, extras);
    var all := StoresOr(stores);
    var languages := PurgeLanguages(all, QueryLanguage(raw));
    var out: seq<string> := [];
    for i := 0 to |all|
      invariant Distinct(out)
      invariant forall k :: k in out <==> exists i' :: 0 <= i' < i && ForStore(path, raw, stores, i', k)
    {
      out := AddLanguages(route.value, p, path, filtered, extras, raw, stores, i, languages, out);
    }
    return Some(out);
  }

  /** The keys of one store. */
  method AddLanguages(route: string, p: string, ghost path: string, filtered: string, extras: seq<string>, ghost raw: string,
                      stores: seq<StoreVary>, i: nat, languages: seq<string>, out: seq<string>) returns (more: seq<string>)
    requires Bytes(raw) && Purgeable(path) && i < |StoresOr(stores)| && Distinct(out)
    requires p == NormalPath(path) && RouteFor(p) == Some(route) && extras == AttrKeys(raw)
    requires Bytes(filtered) && filtered == FilteredQuery(route, raw, extras)
    requires forall l :: l in languages <==> PurgedLanguage(StoresOr(stores), QueryLanguage(raw), l)
    ensures Distinct(more)
    ensures forall k :: k in more <==> k in out || ForStore(path, raw, stores, i, k)
  {
    hide Bytes, RouteFor, NormalPath, Purgeable, AttrKeys, FilteredQuery, ForLanguage, PurgedLanguage, QueryLanguage;
    more := out;
    for j := 0 to |languages|
      invariant Distinct(more)
      invariant forall k :: k in more <==> k in out || exists l :: l in languages[..j] && ForLanguage(path, raw, stores, i, l, k)
    {
      more := AddStates(route, p, path, filtered, extras, raw, stores, i, languages[j], more);
      assert languages[..j + 1] == languages[..j] + [languages[j]];
    }
    assert languages[..|languages|] == languages;
  }

  /** Both auth states and both enforce flags for one store and language. */
  method AddStates(route: string, p: string, ghost path: string, filtered: string, extras: seq<string>, ghost raw: string,
                   stores: seq<StoreVary>, i: nat, lang: string, out: seq<string>) returns (more: seq<string>)
    requires Bytes(raw) && Purgeable(path) && i < |StoresOr(stores)| && Distinct(out)
    requires p == NormalPath(path) && RouteFor(p) == Some(route) && extras == AttrKeys(raw)
    requires Bytes(filtered) && filtered == FilteredQuery(route, raw, extras)
    ensures Distinct(more)
    ensures forall k :: k in more <==> k in out || ForLanguage(path, raw, stores, i, lang, k)
  {
    hide Bytes, RouteFor, NormalPath, Cacheable, AttrKeys, FilteredQuery, Key;
    var st := StoresOr(stores)[i];
    more := out;
    var states := [(false, false), (false, true), (true, false), (true, true)];
    for n := 0 to 4
      invariant Distinct(more)
      invariant forall k :: k in more <==> k in out || exists m :: 0 <= m < n && k == PurgeKey(path, raw, stores, i, lang, states[m].0, states[m].1)
    {
      var (auth, enforce) := states[n];
      var v := Vary(st.id, lang, st.currency, if auth then AUTHENTICATED else GUEST, enforce);
      KeyOfFiltered(route, p, raw, v, extras);
      var k := BuildKey(route, p, filtered, v, extras);
      assert k == PurgeKey(path, raw, stores, i, lang, states[n].0, states[n].1);
      if k in more { continue; }
      more := more + [k];
    }
    forall auth: bool, enforce: bool ensures exists m :: 0 <= m < 4 && (auth, enforce) == states[m] {
      assert states[0] == (false, false) && states[1] == (false, true) && states[2] == (true, false) && states[3] == (true, true);
    }
  }

  // ---- What the storefront can have stored ----

  /** The page is stored under the key of the filtered query and the configured attribute keys. */
  ghost function StorefrontKey(route: string, path: string, raw: string, v: Vary, configured: seq<string>): string
    requires Bytes(raw)
  {
    FilteredIsBytes(route, raw, configured);
    Key(route, path, FilteredQuery(route, raw, configured), v, configured)
  }

  /** The allowed keys of the URL that are no listing keys are exactly its attr_* keys. */
  predicate AttrKeysConfigured(raw: string, configured: seq<string>) {
    forall k :: k in Firsts(ParseQuery(raw)) && !ListingKey(k) ==> (k != "" && k in configured <==> AttrKey(k))
  }

  lemma KeptAgree(route: string, raw: string, configured: seq<string>)
    ensures Kept(route, raw, configured) == Kept(route, raw, AttrKeys(raw)) <==> !ListingRoute(route) || AttrKeysConfigured(raw, configured)
  {
    hide ParseQuery, ListingRoute, ListingKey, HasPrefix;
    var values := Firsts(ParseQuery(raw));
    var a, b := Kept(route, raw, configured), Kept(route, raw, AttrKeys(raw));
    NotAttr();
    forall k | k in values ensures k in AttrKeys(raw) <==> AttrKey(k) {}
    if ListingRoute(route) && a == b {
      forall k | k in values && !ListingKey(k) ensures k != "" && k in configured <==> AttrKey(k) {
        assert k in a <==> k in b;
      }
    }
  }

  lemma NotAttr()
    ensures !AttrKey("")
  {
  }

  lemma RouteIsFree(path: string)
    requires RouteFor(path).Some?
    ensures Free(RouteFor(path).value)
  {
    hide Trim, RootedPath, HasPrefix;
    assert Free(ROUTE_HOME) && Free(ROUTE_PLP) && Free(ROUTE_PDP) && Free(ROUTE_CATEGORIES);
    assert Free(ROUTE_CATEGORY) && Free(ROUTE_SEARCH) && Free(ROUTE_CMS);
  }

  /** Purging a URL hits the page the storefront stored for it, for any of the stores, the purged
      languages, both auth states and both enforce flags, exactly when the page ignores its query
      or the URL's extra parameters are exactly its attr_* ones. */
  lemma PurgeHitsStoredPage(path: string, raw: string, stores: seq<StoreVary>, i: nat, lang: string, auth: string, enforce: bool,
                            configured: seq<string>)
    requires Bytes(raw) && Purgeable(path) && i < |StoresOr(stores)|
    requires PurgedLanguage(StoresOr(stores), QueryLanguage(raw), lang)
    requires Free(NormalPath(path)) && forall l :: PurgedLanguage(StoresOr(stores), QueryLanguage(raw), l) ==> Free(l)
    requires forall j :: 0 <= j < |StoresOr(stores)| ==> Free(StoresOr(stores)[j].id) && Free(StoresOr(stores)[j].currency)
    ensures var route := RouteFor(NormalPath(path)).value;
            var st := StoresOr(stores)[i];
            PurgedKey(path, raw, stores, StorefrontKey(route, NormalPath(path), raw, Vary(st.id, lang, st.currency, auth, enforce), configured))
            <==> !ListingRoute(route) || AttrKeysConfigured(raw, configured)
  {
    hide Bytes, RouteFor, NormalPath, Cacheable, AttrKeys, Key, Free, PurgedLanguage, QueryLanguage, ListingRoute, AttrKeysConfigured, Kept;
    var route, p, st := RouteFor(NormalPath(path)).value, NormalPath(path), StoresOr(stores)[i];
    var v := Vary(st.id, lang, st.currency, auth, enforce);
    var k := StorefrontKey(route, p, raw, v, configured);
    KeyOfFiltered(route, p, raw, v, configured);
    RouteIsFree(p);
    KeptAgree(route, raw, configured);
    if !ListingRoute(route) || AttrKeysConfigured(raw, configured) {
      var v' := Vary(st.id, lang, st.currency, if auth == AUTHENTICATED then AUTHENTICATED else GUEST, enforce);
      KeyIdentifiesPage(route, p, raw, v, configured, route, p, raw, v', AttrKeys(raw));
      assert k == PurgeKey(path, raw, stores, i, lang, auth == AUTHENTICATED, enforce);
      assert ForLanguage(path, raw, stores, i, lang, k);
      assert ForStore(path, raw, stores, i, k);
    }
    if PurgedKey(path, raw, stores, k) {
      var i' :| 0 <= i' < |StoresOr(stores)| && ForStore(path, raw, stores, i', k);
      var lang' :| PurgedLanguage(StoresOr(stores), QueryLanguage(raw), lang') && ForLanguage(path, raw, stores, i', lang', k);
      var auth', enforce' :| k == PurgeKey(path, raw, stores, i', lang', auth', enforce');
      var st' := StoresOr(stores)[i'];
      var v' := Vary(st'.id, lang', st'.currency, if auth' then AUTHENTICATED else GUEST, enforce');
      KeyIdentifiesPage(route, p, raw, v, configured, route, p, raw, v', AttrKeys(raw));
    }
  }

  // ---- Deleting the keys ----

  /** Keys that were read as a hit and then deleted. */
  function Confirmed(pages: set<string>, keys: seq<string>, getFails: set<string>, deleteFails: set<string>): set<string> {
    set k | k in keys && k in pages && k !in getFails && k !in deleteFails
  }

  /** Reading or deleting this key fails. */
  predicate Fails(pages: set<string>, k: string, getFails: set<string>, deleteFails: set<string>) {
    k in getFails || (k in pages && k in deleteFails)
  }

  /** The stored pages, whose reads and deletes may fail key by key. */
  class Backend {
    var pages: set<string>

    constructor (p: set<string>)
      ensures pages == p
    {
      pages := p;
    }

    /** Goes on past failures: every key reached is gone unless its own delete failed, a failed read
        does not spare it, and the count is of confirmed deletions only. cancelAt is how many keys
        are reached before the context is cancelled. */
    method PurgeURL(keys: seq<string>, getFails: set<string>, deleteFails: set<string>, cancelAt: nat) returns (deleted: nat, failed: bool)
      requires Distinct(keys)
      modifies this
      ensures var reached := if cancelAt < |keys| then keys[..cancelAt] else keys;
              && pages == old(pages) - ((set k | k in reached) - deleteFails)
              && deleted == |Confirmed(old(pages), reached, getFails, deleteFails)|
              && (failed <==> cancelAt < |keys| || exists k :: k in reached && Fails(old(pages), k, getFails, deleteFails))
    {
      deleted, failed := 0, false;
      assert keys[..|keys|] == keys;
      for i := 0 to |keys|
        invariant i <= cancelAt
        invariant pages == old(pages) - ((set k | k in keys[..i]) - deleteFails)
        invariant deleted == |Confirmed(old(pages), keys[..i], getFails, deleteFails)|
        invariant failed <==> exists k :: k in keys[..i] && Fails(old(pages), k, getFails, deleteFails)
      {
        if i == cancelAt { return deleted, true; }
        var key := keys[i];
        assert keys[..i + 1] == keys[..i] + [key] && key !in keys[..i];
        ConfirmedOneMore(old(pages), keys[..i], key, getFails, deleteFails);
        if key in getFails {
          failed := true;
          assert Fails(old(pages), key, getFails, deleteFails);
          if key !in deleteFails { pages := pages - {key}; }
          continue;
        }
        if key !in pages { continue; }
        if key in deleteFails {
          failed := true;
          assert Fails(old(pages), key, getFails, deleteFails);
          continue;
        }
        pages := pages - {key};
        deleted := deleted + 1;
      }
    }
  }

  lemma ConfirmedOneMore(pages: set<string>, keys: seq<string>, key: string, getFails: set<string>, deleteFails: set<string>)
    requires key !in keys
    ensures |Confirmed(pages, keys + [key], getFails, deleteFails)| == |Confirmed(pages, keys, getFails, deleteFails)|
              + (if key in pages && key !in getFails && key !in deleteFails then 1 else 0)
  {
    var a, b := Confirmed(pages, keys, getFails, deleteFails), Confirmed(pages, keys + [key], getFails, deleteFails);
    if key in pages && key !in getFails && key !in deleteFails {
      assert b == a + {key};
    } else {
      assert b == a;
    }
  }
}

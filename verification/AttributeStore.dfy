/** Attribute and attribute-group definitions: two sorted lists in config storage,
    edited under a mutex, and the references from groups to attributes. */
module AttributeStore {
  import opened Text

  datatype Attribute = Attribute(code: string, title: string, kind: string, required: bool, options: seq<string>)
  datatype Group = Group(code: string, title: string, attributes: seq<string>)

  datatype Error = Invalid | Exists | NotFound | Storage
  datatype Outcome = Done | Failed(error: Error)

  // ---- Lists sorted by code ----

  function AttributeCode(a: Attribute): string { a.code }
  function GroupCode(g: Group): string { g.code }

  predicate Unique<T>(s: seq<T>, code: T -> string) {
    forall i, j :: 0 <= i < j < |s| ==> code(s[i]) != code(s[j])
  }

  /** Position of the element with this code, or |s|. */
  function IndexBy<T>(s: seq<T>, code: T -> string, key: string): (i: nat)
    ensures i <= |s| && (i < |s| ==> code(s[i]) == key) && forall j :: 0 <= j < i ==> code(s[j]) != key
  {
    if s == [] || code(s[0]) == key then 0 else 1 + IndexBy(s[1..], code, key)
  }

  function Codes<T>(s: seq<T>, code: T -> string): seq<string> {
    seq(|s|, i requires 0 <= i < |s| => code(s[i]))
  }

  lemma IndexFound<T>(s: seq<T>, code: T -> string, key: string, i: nat)
    requires i <= |s| && (i < |s| ==> code(s[i]) == key) && forall j :: 0 <= j < i ==> code(s[j]) != key
    ensures IndexBy(s, code, key) == i
  {
    assert !(IndexBy(s, code, key) < i);
    assert !(i < IndexBy(s, code, key));
  }

  lemma KnownCodes<T>(s: seq<T>, code: T -> string, k: string)
    ensures k in Codes(s, code) <==> IndexBy(s, code, k) < |s|
  {
    var codes := Codes(s, code);
    if k in codes { var i :| 0 <= i < |codes| && codes[i] == k; assert code(s[i]) == k; }
    if IndexBy(s, code, k) < |s| { assert codes[IndexBy(s, code, k)] == k; }
  }

  /** The list as a map from codes, which is all that a list sorted by unique codes says. */
  function ToMap<T>(s: seq<T>, code: T -> string): (m: map<string, T>)
    ensures forall k :: k in m <==> IndexBy(s, code, k) < |s|
    ensures forall k :: k in m ==> m[k] == s[IndexBy(s, code, k)]
  {
    assert forall k :: k in Codes(s, code) <==> IndexBy(s, code, k) < |s| by {
      forall k ensures k in Codes(s, code) <==> IndexBy(s, code, k) < |s| { KnownCodes(s, code, k); }
    }
    map k | k in Codes(s, code) :: s[IndexBy(s, code, k)]
  }

  lemma ToMapAt<T>(s: seq<T>, code: T -> string, i: nat)
    requires Unique(s, code) && i < |s|
    ensures IndexBy(s, code, code(s[i])) == i && code(s[i]) in ToMap(s, code) && ToMap(s, code)[code(s[i])] == s[i]
  {
    IndexFound(s, code, code(s[i]), i);
  }

  /** Sorting rearranges nothing but the order. */
  lemma SortKeepsMap<T>(s: seq<T>, code: T -> string)
    requires Unique(s, code)
    ensures Unique(SortBy(s, code), code) && SortedBy(SortBy(s, code), code)
    ensures ToMap(SortBy(s, code), code) == ToMap(s, code)
  {
    SortBySorts(s, code);
    var r := SortBy(s, code);
    SortUnique(s, r, code);
    forall k ensures IndexBy(s, code, k) < |s| <==> IndexBy(r, code, k) < |r|
             ensures IndexBy(s, code, k) < |s| ==> s[IndexBy(s, code, k)] == r[IndexBy(r, code, k)]
    {
      SameIndexed(s, r, code, k);
      SameIndexed(r, s, code, k);
    }
  }

  lemma SameIndexed<T>(s: seq<T>, r: seq<T>, code: T -> string, k: string)
    requires Unique(r, code) && multiset(s) == multiset(r)
    ensures IndexBy(s, code, k) < |s| ==> IndexBy(r, code, k) < |r| && s[IndexBy(s, code, k)] == r[IndexBy(r, code, k)]
  {
    hide IndexBy;
    SameMembers(s, r);
    if IndexBy(s, code, k) < |s| {
      var x := s[IndexBy(s, code, k)];
      assert x in r;
      var i :| 0 <= i < |r| && r[i] == x;
      IndexFound(r, code, k, i);
    }
  }

  lemma SameMembers<T>(s: seq<T>, r: seq<T>)
    requires multiset(r) == multiset(s)
    ensures forall x :: x in s <==> x in r
    ensures |r| == |s|
  {
    forall x ensures x in s <==> x in r {
      assert x in s <==> x in multiset(s);
      assert x in r <==> x in multiset(r);
    }
    assert |multiset(r)| == |r| && |multiset(s)| == |s|;
  }

  lemma {:induction false} SortUnique<T>(s: seq<T>, r: seq<T>, code: T -> string)
    requires Unique(s, code) && multiset(r) == multiset(s)
    ensures Unique(r, code)
  {
    forall i, j | 0 <= i < j < |r| ensures code(r[i]) != code(r[j]) {
      SameMembers(s, r);
      assert r[i] in s && r[j] in s;
      if r[i] == r[j] {
        assert r == r[..j] + [r[j]] + r[j + 1..];
        assert r[..j][i] == r[i];
        assert multiset(r)[r[i]] >= 2;
        DistinctOf(s, code);
        DistinctCount(s);
      }
    }
  }

  lemma DistinctOf<T>(s: seq<T>, code: T -> string)
    requires Unique(s, code)
    ensures Distinct(s)
  {
    forall i, j | 0 <= i < j < |s| ensures s[i] != s[j] { assert code(s[i]) != code(s[j]); }
  }

  lemma AppendMap<T>(s: seq<T>, x: T, code: T -> string)
    requires Unique(s, code) && IndexBy(s, code, code(x)) == |s|
    ensures Unique(s + [x], code) && ToMap(s + [x], code) == ToMap(s, code)[code(x) := x]
  {
    hide IndexBy, ToMap;
    var r := s + [x];
    forall k ensures (k in ToMap(r, code) <==> k in ToMap(s, code) || k == code(x))
                     && (k in ToMap(r, code) ==> ToMap(r, code)[k] == if k == code(x) then x else ToMap(s, code)[k])
    {
      AppendedIndex(s, x, code, k);
    }
  }

  lemma AppendedIndex<T>(s: seq<T>, x: T, code: T -> string, k: string)
    ensures IndexBy(s + [x], code, k) == if IndexBy(s, code, k) < |s| then IndexBy(s, code, k) else if k == code(x) then |s| else |s| + 1
  {
    hide IndexBy;
    var r, i := s + [x], IndexBy(s, code, k);
    assert forall j :: 0 <= j < |s| ==> r[j] == s[j];
    IndexFound(r, code, k, if i < |s| then i else if k == code(x) then |s| else |s| + 1);
  }

  lemma UpdateMap<T>(s: seq<T>, i: nat, x: T, code: T -> string)
    requires Unique(s, code) && i < |s| && code(s[i]) == code(x)
    ensures Unique(s[i := x], code) && ToMap(s[i := x], code) == ToMap(s, code)[code(x) := x]
  {
    hide IndexBy, ToMap;
    var r := s[i := x];
    assert forall j :: 0 <= j < |s| ==> code(r[j]) == code(s[j]);
    IndexFound(s, code, code(x), i);
    forall k ensures IndexBy(r, code, k) == IndexBy(s, code, k) { IndexFound(r, code, k, IndexBy(s, code, k)); }
  }

  lemma RemoveMap<T>(s: seq<T>, i: nat, code: T -> string)
    requires Unique(s, code) && i < |s|
    ensures Unique(s[..i] + s[i + 1..], code) && ToMap(s[..i] + s[i + 1..], code) == ToMap(s, code) - {code(s[i])}
  {
    RemovedMap(s, s[..i] + s[i + 1..], i, code);
  }

  lemma RemovedMap<T>(s: seq<T>, r: seq<T>, i: nat, code: T -> string)
    requires Unique(s, code) && i < |s| == |r| + 1 && forall j :: 0 <= j < |r| ==> r[j] == s[if j < i then j else j + 1]
    ensures Unique(r, code) && ToMap(r, code) == ToMap(s, code) - {code(s[i])}
  {
    hide IndexBy, ToMap;
    RemovedUnique(s, r, i, code);
    forall k ensures (k in ToMap(r, code) <==> k in ToMap(s, code) && k != code(s[i]))
                     && (k in ToMap(r, code) ==> ToMap(r, code)[k] == ToMap(s, code)[k])
    {
      hide Unique;
      RemovedIndex(s, r, i, code, k);
      RemovedIndex(s, r, i, code, code(s[i]));
      assert IndexBy(s, code, code(s[i])) == i by { ToMapAt(s, code, i); }
    }
  }

  lemma RemovedUnique<T>(s: seq<T>, r: seq<T>, i: nat, code: T -> string)
    requires Unique(s, code) && i < |s| == |r| + 1 && forall j :: 0 <= j < |r| ==> r[j] == s[if j < i then j else j + 1]
    ensures Unique(r, code)
  {
  }

  /** Where an index moves when position i is removed and n elements are left. */
  function Shifted(j: nat, i: nat, n: nat): nat {
    if j < i then j else if j == i || j > n then n else j - 1
  }

  lemma RemovedIndex<T>(s: seq<T>, r: seq<T>, i: nat, code: T -> string, k: string)
    requires Unique(s, code) && i < |s| == |r| + 1 && forall j :: 0 <= j < |r| ==> r[j] == s[if j < i then j else j + 1]
    ensures IndexBy(r, code, k) == Shifted(IndexBy(s, code, k), i, |r|)
  {
    hide IndexBy;
    var n := Shifted(IndexBy(s, code, k), i, |r|);
    forall j | 0 <= j < n ensures code(r[j]) != k {
      assert r[j] == s[if j < i then j else j + 1];
    }
    IndexFound(r, code, k, n);
  }

  // ---- Definitions ----

  predicate ValidKind(kind: string) {
    kind == "text" || kind == "number" || kind == "boolean" || kind == "select"
  }

  predicate Reserved(code: string) {
    code == "category" || code == "category_ids"
  }

  /** Non-blank options, trimmed. */
  function CleanOptions(options: seq<string>): seq<string> {
    if options == [] then [] else
      var n := |options| - 1;
      if Trim(options[n]) == "" then CleanOptions(options[..n]) else CleanOptions(options[..n]) + [Trim(options[n])]
  }

  function NormalAttribute(a: Attribute): Attribute {
    a.(code := Trim(a.code), title := Trim(a.title), options := CleanOptions(a.options))
  }

  /** validateAttributeDefinition on a normalized attribute. */
  predicate Accepted(a: Attribute) {
    Trim(a.code) != "" && Trim(a.title) != "" && ValidKind(a.kind) && (a.kind == "select" ==> a.options != []) && !Reserved(Trim(a.code))
  }

  /** Non-blank codes, trimmed, in the order of first mention. */
  function CleanCodes(codes: seq<string>): seq<string> {
    if codes == [] then [] else
      var n := |codes| - 1;
      var head, c := CleanCodes(codes[..n]), Trim(codes[n]);
      if c == "" || c in head then head else head + [c]
  }

  function NormalGroup(g: Group): Group {
    Group(Trim(g.code), Trim(g.title), CleanCodes(g.attributes))
  }

  lemma {:induction false} CleanCodesDistinct(codes: seq<string>)
    ensures Distinct(CleanCodes(codes))
  {
    hide Trim;
    if codes != [] { CleanCodesDistinct(codes[..|codes| - 1]); }
  }

  lemma {:induction false} CleanOptionsFilled(options: seq<string>)
    ensures forall i :: 0 <= i < |CleanOptions(options)| ==> Trim(CleanOptions(options)[i]) != ""
  {
    hide Trim;
    if options != [] {
      CleanOptionsFilled(options[..|options| - 1]);
      assert Trim(Trim(options[|options| - 1])) == Trim(options[|options| - 1]) by { TrimIsTrimmed(options[|options| - 1]); }
    }
  }

  function RemoveFirst(codes: seq<string>, code: string): seq<string> {
    if codes == [] then [] else if codes[0] == code then codes[1..] else [codes[0]] + RemoveFirst(codes[1..], code)
  }

  /** A list without repeats loses exactly the code. */
  lemma {:induction false} RemovedFirst(codes: seq<string>, code: string)
    requires Distinct(codes)
    ensures Distinct(RemoveFirst(codes, code))
    ensures forall c :: c in RemoveFirst(codes, code) <==> c in codes && c != code
    ensures code !in codes ==> RemoveFirst(codes, code) == codes
  {
    if codes != [] {
      assert codes == [codes[0]] + codes[1..];
      assert codes[0] !in codes[1..];
      RemovedFirst(codes[1..], code);
      if codes[0] != code { assert codes[0] !in RemoveFirst(codes[1..], code); }
    }
  }

  function Without(g: Group, code: string): Group {
    g.(attributes := RemoveFirst(g.attributes, code))
  }

  // ---- The registry as two maps ----

  datatype Registry = Registry(attrs: map<string, Attribute>, groups: map<string, Group>)

  datatype Op =
    | CreateAttribute(attr: Attribute)
    | UpdateAttribute(code: string, attr: Attribute)
    | DeleteAttribute(code: string)
    | CreateGroup(group: Group)
    | UpdateGroup(code: string, group: Group)
    | DeleteGroup(code: string)

  datatype Applied = Ok(r: Registry) | Err(error: Error)

  predicate Registered(attrs: map<string, Attribute>, codes: seq<string>) {
    forall i :: 0 <= i < |codes| ==> codes[i] in attrs
  }

  function PutAttribute(r: Registry, a: Attribute, creating: bool): Applied {
    if !Accepted(a) then Err(Invalid)
    else if creating && a.code in r.attrs then Err(Exists)
    else if !creating && a.code !in r.attrs then Err(NotFound)
    else Ok(r.(attrs := r.attrs[a.code := a]))
  }

  function PutGroup(r: Registry, g: Group, creating: bool): Applied {
    if g.code == "" || g.title == "" || !Registered(r.attrs, g.attributes) then Err(Invalid)
    else if creating && g.code in r.groups then Err(Exists)
    else if !creating && g.code !in r.groups then Err(NotFound)
    else Ok(r.(groups := r.groups[g.code := g]))
  }

  /** One operation: every write, of one list or of both, happens at once. */
  function Apply(r: Registry, op: Op): Applied {
    match op
    case CreateAttribute(a) => PutAttribute(r, NormalAttribute(a), true)
    case UpdateAttribute(code, a) =>
      if Trim(code) == "" then Err(Invalid) else PutAttribute(r, NormalAttribute(a).(code := Trim(code)), false)
    case DeleteAttribute(code) =>
      if Trim(code) == "" then Err(Invalid)
      else if Trim(code) !in r.attrs then Err(NotFound)
      else Ok(Registry(r.attrs - {Trim(code)}, map k | k in r.groups :: Without(r.groups[k], Trim(code))))
    case CreateGroup(g) => PutGroup(r, NormalGroup(g), true)
    case UpdateGroup(code, g) =>
      if Trim(code) == "" then Err(Invalid) else PutGroup(r, NormalGroup(g).(code := Trim(code)), false)
    case DeleteGroup(code) =>
      if Trim(code) == "" then Err(Invalid)
      else if Trim(code) !in r.groups then Err(NotFound)
      else Ok(r.(groups := r.groups - {Trim(code)}))
  }

  /** A stored attribute is usable: named, of a known kind, and a select offers a non-blank option. */
  predicate Sound(a: Attribute) {
    && Trim(a.code) != "" && Trim(a.title) != "" && ValidKind(a.kind) && !Reserved(a.code)
    && (a.kind == "select" ==> a.options != [])
    && forall i :: 0 <= i < |a.options| ==> Trim(a.options[i]) != ""
  }

  /** Codes key their definitions, attributes are sound, and groups list registered attributes without repeats. */
  ghost predicate Inv(r: Registry) {
    && (forall c :: c in r.attrs ==> r.attrs[c].code == c && Sound(r.attrs[c]))
    && (forall c :: c in r.groups ==> r.groups[c].code == c && Distinct(r.groups[c].attributes)
                                      && Registered(r.attrs, r.groups[c].attributes))
  }

  lemma PutAttributeKeeps(r: Registry, a: Attribute, creating: bool, options: seq<string>)
    requires Inv(r) && PutAttribute(r, a, creating).Ok? && a.options == CleanOptions(options) && Trim(a.code) == a.code
    ensures Inv(PutAttribute(r, a, creating).r)
  {
    hide Trim, CleanOptions;
    CleanOptionsFilled(options);
  }

  lemma PutGroupKeeps(r: Registry, g: Group, creating: bool, codes: seq<string>)
    requires Inv(r) && PutGroup(r, g, creating).Ok? && g.attributes == CleanCodes(codes)
    ensures Inv(PutGroup(r, g, creating).r)
  {
    hide Trim, CleanCodes, Sound;
    CleanCodesDistinct(codes);
  }

  /** Deleting an attribute leaves no group that lists it, and takes nothing else from any group. */
  lemma DeleteRemovesEverywhere(r: Registry, code: string)
    requires Inv(r) && Apply(r, DeleteAttribute(code)).Ok?
    ensures Inv(Apply(r, DeleteAttribute(code)).r)
    ensures var r' := Apply(r, DeleteAttribute(code)).r;
            && Trim(code) !in r'.attrs && r'.groups.Keys == r.groups.Keys
            && forall g, c :: g in r.groups ==> (c in r'.groups[g].attributes <==> c in r.groups[g].attributes && c != Trim(code))
  {
    hide Trim, Sound, RemoveFirst;
    var r' := Apply(r, DeleteAttribute(code)).r;
    forall g | g in r.groups
      ensures Distinct(r'.groups[g].attributes)
      ensures forall c :: c in r'.groups[g].attributes <==> c in r.groups[g].attributes && c != Trim(code)
      ensures Registered(r'.attrs, r'.groups[g].attributes)
    {
      RemovedFirst(r.groups[g].attributes, Trim(code));
      forall i | 0 <= i < |r'.groups[g].attributes| ensures r'.groups[g].attributes[i] in r'.attrs {
        assert r'.groups[g].attributes[i] in r.groups[g].attributes;
      }
    }
  }

  lemma ApplyKeeps(r: Registry, op: Op)
    requires Inv(r) && Apply(r, op).Ok?
    ensures Inv(Apply(r, op).r)
  {
    hide Trim, Inv, PutAttribute, PutGroup, CleanCodes, CleanOptions;
    match op {
      case CreateAttribute(a) =>
        TrimIsTrimmed(a.code);
        PutAttributeKeeps(r, NormalAttribute(a), true, a.options);
      case UpdateAttribute(code, a) =>
        TrimIsTrimmed(code);
        PutAttributeKeeps(r, NormalAttribute(a).(code := Trim(code)), false, a.options);
      case DeleteAttribute(code) => DeleteRemovesEverywhere(r, code);
      case CreateGroup(g) => PutGroupKeeps(r, NormalGroup(g), true, g.attributes);
      case UpdateGroup(code, g) => PutGroupKeeps(r, NormalGroup(g).(code := Trim(code)), false, g.attributes);
      case DeleteGroup(code) => DeleteGroupKeeps(r, code);
    }
  }

  lemma DeleteGroupKeeps(r: Registry, code: string)
    requires Inv(r) && Apply(r, DeleteGroup(code)).Ok?
    ensures Inv(Apply(r, DeleteGroup(code)).r)
  {
    hide Trim, Sound;
  }

  // ---- Exactly what is accepted, and what it does ----

  lemma {:induction false} SomeOption(options: seq<string>)
    ensures CleanOptions(options) != [] <==> exists i :: 0 <= i < |options| && Trim(options[i]) != ""
  {
    hide Trim;
    if options != [] {
      var n := |options| - 1;
      SomeOption(options[..n]);
      if i :| 0 <= i < n && Trim(options[..n][i]) != "" { assert Trim(options[i]) != ""; }
      if i :| 0 <= i < |options| && Trim(options[i]) != "" { assert i < n ==> options[..n][i] == options[i]; }
    }
  }

  lemma {:induction false} CodesNamed(codes: seq<string>, c: string)
    ensures c in CleanCodes(codes) <==> c != "" && exists i :: 0 <= i < |codes| && Trim(codes[i]) == c
  {
    hide Trim;
    if codes != [] {
      var n := |codes| - 1;
      CodesNamed(codes[..n], c);
      if i :| 0 <= i < n && Trim(codes[..n][i]) == c { assert Trim(codes[i]) == c; }
      if i :| 0 <= i < |codes| && Trim(codes[i]) == c { assert i < n ==> codes[..n][i] == codes[i]; }
    }
  }

  /** A code and a title, a known kind, a non-blank option for a select, and no reserved code. */
  predicate Describes(code: string, a: Attribute) {
    && Trim(code) != "" && Trim(a.title) != "" && Trim(code) != "category" && Trim(code) != "category_ids"
    && (a.kind == "text" || a.kind == "number" || a.kind == "boolean" || a.kind == "select")
    && (a.kind == "select" ==> exists i :: 0 <= i < |a.options| && Trim(a.options[i]) != "")
  }

  /** Every code the group lists is blank or registered. */
  predicate ListsKnown(r: Registry, g: Group) {
    forall i :: 0 <= i < |g.attributes| ==> Trim(g.attributes[i]) == "" || Trim(g.attributes[i]) in r.attrs
  }

  lemma KnownIff(r: Registry, g: Group)
    ensures Registered(r.attrs, CleanCodes(g.attributes)) <==> ListsKnown(r, g)
  {
    hide Trim, CleanCodes;
    var codes := CleanCodes(g.attributes);
    if Registered(r.attrs, codes) {
      forall i | 0 <= i < |g.attributes| && Trim(g.attributes[i]) != "" ensures Trim(g.attributes[i]) in r.attrs {
        CodesNamed(g.attributes, Trim(g.attributes[i]));
        var j :| 0 <= j < |codes| && codes[j] == Trim(g.attributes[i]);
      }
    }
    if ListsKnown(r, g) {
      forall j | 0 <= j < |codes| ensures codes[j] in r.attrs { CodesNamed(g.attributes, codes[j]); }
    }
  }

  /** Exactly when an operation is accepted. */
  lemma AcceptedIff(r: Registry, op: Op)
    ensures Apply(r, op).Ok? <==>
            match op
            case CreateAttribute(a) => Describes(a.code, a) && Trim(a.code) !in r.attrs
            case UpdateAttribute(code, a) => Describes(code, a) && Trim(code) in r.attrs
            case DeleteAttribute(code) => Trim(code) != "" && Trim(code) in r.attrs
            case CreateGroup(g) => Trim(g.code) != "" && Trim(g.title) != "" && ListsKnown(r, g) && Trim(g.code) !in r.groups
            case UpdateGroup(code, g) => Trim(code) != "" && Trim(g.title) != "" && ListsKnown(r, g) && Trim(code) in r.groups
            case DeleteGroup(code) => Trim(code) != "" && Trim(code) in r.groups
  {
    hide Trim, CleanCodes, CleanOptions, Registered, ListsKnown;
    match op {
      case CreateAttribute(a) => SomeOption(a.options); TrimIsTrimmed(a.code); TrimIsTrimmed(a.title);
      case UpdateAttribute(code, a) => SomeOption(a.options); TrimIsTrimmed(code); TrimIsTrimmed(a.title);
      case CreateGroup(g) => KnownIff(r, g);
      case UpdateGroup(_, g) => KnownIff(r, g);
      case _ =>
    }
  }

  /** What an accepted operation leaves: only the named definition is new, changed or gone, except
      that a deleted attribute also leaves the groups. */
  lemma AcceptedWrites(r: Registry, op: Op)
    requires Apply(r, op).Ok?
    ensures var r' := Apply(r, op).r;
            match op
            case CreateAttribute(a) => r'.groups == r.groups && Defines(r, r', Trim(a.code), a)
            case UpdateAttribute(code, a) => r'.groups == r.groups && Defines(r, r', Trim(code), a)
            case DeleteAttribute(code) => r'.attrs == r.attrs - {Trim(code)}
            case CreateGroup(g) => r'.attrs == r.attrs && Groups(r, r', Trim(g.code), g)
            case UpdateGroup(code, g) => r'.attrs == r.attrs && Groups(r, r', Trim(code), g)
            case DeleteGroup(code) => r'.attrs == r.attrs && r'.groups == r.groups - {Trim(code)}
  {
    hide Trim, CleanCodes, CleanOptions, Registered, Accepted;
    match op {
      case CreateGroup(g) => CleanCodesDistinct(g.attributes); forall c { CodesNamed(g.attributes, c); }
      case UpdateGroup(_, g) => CleanCodesDistinct(g.attributes); forall c { CodesNamed(g.attributes, c); }
      case _ =>
    }
  }

  predicate Defines(r: Registry, r': Registry, code: string, a: Attribute) {
    code in r'.attrs && r'.attrs == r.attrs[code := r'.attrs[code]]
    && r'.attrs[code] == Attribute(code, Trim(a.title), a.kind, a.required, CleanOptions(a.options))
  }

  /** The group lists the trimmed codes that are not blank, each once. */
  ghost predicate Groups(r: Registry, r': Registry, code: string, g: Group) {
    && code in r'.groups && r'.groups == r.groups[code := r'.groups[code]]
    && r'.groups[code].code == code && r'.groups[code].title == Trim(g.title) && Distinct(r'.groups[code].attributes)
    && forall c :: c in r'.groups[code].attributes <==> c != "" && exists i :: 0 <= i < |g.attributes| && Trim(g.attributes[i]) == c
  }

  /** A run; a refused or failed operation changes nothing. */
  function Run(r: Registry, ops: seq<Op>): Registry {
    if ops == [] then r else
      var before := Run(r, ops[..|ops| - 1]);
      match Apply(before, ops[|ops| - 1]) case Ok(after) => after case Err(_) => before
  }

  /** Over every run from an empty registry the references stay intact. */
  lemma {:induction false} RunKeeps(ops: seq<Op>)
    ensures Inv(Run(Registry(map[], map[]), ops))
  {
    hide Apply;
    if ops != [] {
      RunKeeps(ops[..|ops| - 1]);
      var before := Run(Registry(map[], map[]), ops[..|ops| - 1]);
      if Apply(before, ops[|ops| - 1]).Ok? { ApplyKeeps(before, ops[|ops| - 1]); }
    }
  }

  // ---- The store ----

  /** The two config values. saved says whether the write of the operation succeeds. */
  class Store {
    var attrs: seq<Attribute>
    var groups: seq<Group>

    /** Sorted by code, no code twice, and the references intact. */
    ghost predicate Valid()
      reads this
    {
      && Unique(attrs, AttributeCode) && SortedBy(attrs, AttributeCode)
      && Unique(groups, GroupCode) && SortedBy(groups, GroupCode)
      && Inv(View())
    }

    ghost function View(): Registry
      reads this
    {
      Registry(ToMap(attrs, AttributeCode), ToMap(groups, GroupCode))
    }

    /** The outcome of an operation and the state after it. */
    twostate predicate Did(op: Op, saved: bool, o: Outcome)
      reads this
      requires old(Valid()) && Valid()
    {
      match Apply(old(View()), op)
      case Err(e) => o == Failed(e) && attrs == old(attrs) && groups == old(groups)
      case Ok(r) => if saved then o == Done && View() == r else o == Failed(Storage) && attrs == old(attrs) && groups == old(groups)
    }

    constructor ()
      ensures Valid() && View() == Registry(map[], map[])
    {
      attrs, groups := [], [];
    }

    method NormalizeOptions(options: seq<string>) returns (opts: seq<string>)
      ensures opts == CleanOptions(options)
    {
      hide Trim;
      opts := [];
      for i := 0 to |options|
        invariant opts == CleanOptions(options[..i])
      {
        assert options[..i + 1][..i] == options[..i];
        var o := Trim(options[i]);
        if o != "" { opts := opts + [o]; }
      }
      assert options[..|options|] == options;
    }

    method NormalizeCodes(codes: seq<string>) returns (cleaned: seq<string>)
      ensures cleaned == CleanCodes(codes)
    {
      hide Trim;
      cleaned := [];
      var seen: set<string> := {};
      for i := 0 to |codes|
        invariant cleaned == CleanCodes(codes[..i])
        invariant forall c :: c in seen <==> c in cleaned
      {
        assert codes[..i + 1][..i] == codes[..i];
        var code := Trim(codes[i]);
        if code == "" { continue; }
        if code in seen { continue; }
        seen := seen + {code};
        cleaned := cleaned + [code];
      }
      assert codes[..|codes|] == codes;
    }

    method CollectCodes() returns (known: set<string>)
      requires Unique(attrs, AttributeCode)
      ensures forall c :: c in known <==> c in ToMap(attrs, AttributeCode)
    {
      known := {};
      for i := 0 to |attrs|
        invariant forall c :: c in known <==> exists j :: 0 <= j < i && attrs[j].code == c
      {
        known := known + {attrs[i].code};
      }
      forall j | 0 <= j < |attrs| ensures attrs[j].code in ToMap(attrs, AttributeCode) { ToMapAt(attrs, AttributeCode, j); }
    }

    /** validateGroupReferences */
    method ReferencesKnown(codes: seq<string>) returns (ok: bool)
      requires Unique(attrs, AttributeCode)
      ensures ok == Registered(ToMap(attrs, AttributeCode), codes)
    {
      hide ToMap, Unique;
      var known := CollectCodes();
      for i := 0 to |codes|
        invariant forall j :: 0 <= j < i ==> codes[j] in ToMap(attrs, AttributeCode)
      {
        if codes[i] !in known { return false; }
      }
      return true;
    }

    method WriteAttributes(list: seq<Attribute>)
      requires Unique(list, AttributeCode) && Unique(groups, GroupCode) && SortedBy(groups, GroupCode)
      requires Inv(Registry(ToMap(list, AttributeCode), ToMap(groups, GroupCode)))
      modifies this`attrs
      ensures Valid() && View() == Registry(ToMap(list, AttributeCode), ToMap(groups, GroupCode))
    {
      SortKeepsMap(list, AttributeCode);
      attrs := SortBy(list, AttributeCode);
    }

    method WriteGroups(list: seq<Group>)
      requires Unique(list, GroupCode) && Unique(attrs, AttributeCode) && SortedBy(attrs, AttributeCode)
      requires Inv(Registry(ToMap(attrs, AttributeCode), ToMap(list, GroupCode)))
      modifies this`groups
      ensures Valid() && View() == Registry(ToMap(attrs, AttributeCode), ToMap(list, GroupCode))
    {
      SortKeepsMap(list, GroupCode);
      groups := SortBy(list, GroupCode);
    }

    /** SetMany: both lists in one write. */
    method WriteBoth(list: seq<Attribute>, others: seq<Group>)
      requires Unique(list, AttributeCode) && Unique(others, GroupCode)
      requires Inv(Registry(ToMap(list, AttributeCode), ToMap(others, GroupCode)))
      modifies this
      ensures Valid() && View() == Registry(ToMap(list, AttributeCode), ToMap(others, GroupCode))
    {
      SortKeepsMap(list, AttributeCode);
      SortKeepsMap(others, GroupCode);
      attrs, groups := SortBy(list, AttributeCode), SortBy(others, GroupCode);
    }

    method Create(raw: Attribute, saved: bool) returns (o: Outcome)
      requires Valid()
      modifies this
      ensures Valid() && Did(CreateAttribute(raw), saved, o)
    {
      hide Trim, Inv, CleanOptions, Accepted, SortedBy;
      var options := NormalizeOptions(raw.options);
      var a := raw.(code := Trim(raw.code), title := Trim(raw.title), options := options);
      if !Accepted(a) { return Failed(Invalid); }
      if IndexBy(attrs, AttributeCode, a.code) < |attrs| { return Failed(Exists); }
      AppendMap(attrs, a, AttributeCode);
      ApplyKeeps(View(), CreateAttribute(raw));
      if !saved { return Failed(Storage); }
      WriteAttributes(attrs + [a]);
      return Done;
    }

    method Update(rawCode: string, raw: Attribute, saved: bool) returns (o: Outcome)
      requires Valid()
      modifies this
      ensures Valid() && Did(UpdateAttribute(rawCode, raw), saved, o)
    {
      hide Trim, Inv, CleanOptions, Accepted, SortedBy;
      var code := Trim(rawCode);
      if code == "" { return Failed(Invalid); }
      var options := NormalizeOptions(raw.options);
      var a := raw.(code := code, title := Trim(raw.title), options := options);
      if !Accepted(a) { return Failed(Invalid); }
      var idx := IndexBy(attrs, AttributeCode, code);
      if idx == |attrs| { return Failed(NotFound); }
      UpdateMap(attrs, idx, a, AttributeCode);
      ApplyKeeps(View(), UpdateAttribute(rawCode, raw));
      if !saved { return Failed(Storage); }
      WriteAttributes(attrs[idx := a]);
      return Done;
    }

    /** Drops the code from every group; changed says whether any listed it. */
    method DropFromGroups(code: string) returns (list: seq<Group>, changed: bool)
      requires Unique(groups, GroupCode)
      requires forall i :: 0 <= i < |groups| ==> Distinct(groups[i].attributes)
      ensures |list| == |groups| && forall i :: 0 <= i < |groups| ==> list[i] == Without(groups[i], code)
      ensures !changed ==> list == groups
    {
      hide RemoveFirst;
      list, changed := groups, false;
      for i := 0 to |groups|
        invariant |list| == |groups|
        invariant forall j :: 0 <= j < |groups| ==> list[j] == if j < i then Without(groups[j], code) else groups[j]
        invariant !changed ==> list == groups
      {
        RemovedFirst(groups[i].attributes, code);
        if code in groups[i].attributes {
          list := list[i := Without(groups[i], code)];
          changed := true;
        }
      }
    }

    method Delete(rawCode: string, saved: bool) returns (o: Outcome)
      requires Valid()
      modifies this
      ensures Valid() && Did(DeleteAttribute(rawCode), saved, o)
    {
      hide Trim, Inv, RemoveFirst, SortedBy;
      var code := Trim(rawCode);
      if code == "" { return Failed(Invalid); }
      var idx := IndexBy(attrs, AttributeCode, code);
      if idx == |attrs| { return Failed(NotFound); }
      RemoveMap(attrs, idx, AttributeCode);
      GroupsDistinct(this);
      var list, changed := DropFromGroups(code);
      WithoutMap(groups, list, code);
      ApplyKeeps(View(), DeleteAttribute(rawCode));
      if !saved { return Failed(Storage); }
      if changed {
        WriteBoth(attrs[..idx] + attrs[idx + 1..], list);
      } else {
        WriteAttributes(attrs[..idx] + attrs[idx + 1..]);
      }
      return Done;
    }

    method AddGroup(raw: Group, saved: bool) returns (o: Outcome)
      requires Valid()
      modifies this
      ensures Valid() && Did(CreateGroup(raw), saved, o)
    {
      hide Trim, Inv, CleanCodes, Registered, SortedBy;
      var codes := NormalizeCodes(raw.attributes);
      var g := Group(Trim(raw.code), Trim(raw.title), codes);
      if g.code == "" || g.title == "" { return Failed(Invalid); }
      var known := ReferencesKnown(codes);
      if !known { return Failed(Invalid); }
      if IndexBy(groups, GroupCode, g.code) < |groups| { return Failed(Exists); }
      AppendMap(groups, g, GroupCode);
      ApplyKeeps(View(), CreateGroup(raw));
      if !saved { return Failed(Storage); }
      WriteGroups(groups + [g]);
      return Done;
    }

    method ReplaceGroup(rawCode: string, raw: Group, saved: bool) returns (o: Outcome)
      requires Valid()
      modifies this
      ensures Valid() && Did(UpdateGroup(rawCode, raw), saved, o)
    {
      hide Trim, Inv, CleanCodes, Registered, SortedBy;
      var code := Trim(rawCode);
      if code == "" { return Failed(Invalid); }
      var codes := NormalizeCodes(raw.attributes);
      var g := Group(code, Trim(raw.title), codes);
      if g.title == "" { return Failed(Invalid); }
      var known := ReferencesKnown(codes);
      if !known { return Failed(Invalid); }
      var idx := IndexBy(groups, GroupCode, code);
      if idx == |groups| { return Failed(NotFound); }
      UpdateMap(groups, idx, g, GroupCode);
      ApplyKeeps(View(), UpdateGroup(rawCode, raw));
      if !saved { return Failed(Storage); }
      WriteGroups(groups[idx := g]);
      return Done;
    }

    method RemoveGroup(rawCode: string, saved: bool) returns (o: Outcome)
      requires Valid()
      modifies this
      ensures Valid() && Did(DeleteGroup(rawCode), saved, o)
    {
      hide Trim, Inv, SortedBy;
      var code := Trim(rawCode);
      if code == "" { return Failed(Invalid); }
      var idx := IndexBy(groups, GroupCode, code);
      if idx == |groups| { return Failed(NotFound); }
      RemoveMap(groups, idx, GroupCode);
      ApplyKeeps(View(), DeleteGroup(rawCode));
      if !saved { return Failed(Storage); }
      WriteGroups(groups[..idx] + groups[idx + 1..]);
      return Done;
    }
  }

  lemma GroupsDistinct(s: Store)
    requires s.Valid()
    ensures forall i :: 0 <= i < |s.groups| ==> Distinct(s.groups[i].attributes)
  {
    forall i | 0 <= i < |s.groups| ensures Distinct(s.groups[i].attributes) {
      ToMapAt(s.groups, GroupCode, i);
    }
  }

  lemma WithoutMap(groups: seq<Group>, list: seq<Group>, code: string)
    requires Unique(groups, GroupCode) && |list| == |groups|
    requires forall i :: 0 <= i < |groups| ==> list[i] == Without(groups[i], code)
    ensures Unique(list, GroupCode)
    ensures var m := ToMap(groups, GroupCode); ToMap(list, GroupCode) == map k | k in m :: Without(m[k], code)
  {
    hide RemoveFirst;
    assert forall i :: 0 <= i < |list| ==> GroupCode(list[i]) == GroupCode(groups[i]);
    forall k ensures IndexBy(list, GroupCode, k) == IndexBy(groups, GroupCode, k) {
      IndexFound(list, GroupCode, k, IndexBy(groups, GroupCode, k));
    }
  }
}

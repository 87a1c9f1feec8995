/** Unit ids (orderID/variantID) and the advisory-lock keys built from them. */
module Units {
  import opened Text

  const UNIT_LOCK_PREFIX := "assignment:unit:"

  predicate IsHex(c: char) {
    '0' <= c <= '9' || 'a' <= c <= 'f' || 'A' <= c <= 'F'
  }

  /** RFC 4122 shape: 8-4-4-4-12 hex digits in either case. */
  predicate IsUUID(s: string) {
    |s| == 36 && forall i :: 0 <= i < 36 ==> if i in {8, 13, 18, 23} then s[i] == '-' else IsHex(s[i])
  }

  /** Mints the id of an order line; an empty part yields the empty string. */
  function UnitID(orderID: string, variantID: string): string {
    var o, v := Trim(orderID), Trim(variantID);
    if o == "" || v == "" then "" else o + "/" + v
  }

  /** A blank part gives no unit. */
  lemma UnitNeedsBoth(orderID: string, variantID: string)
    ensures UnitID(orderID, variantID) == "" <==> Trim(orderID) == "" || Trim(variantID) == ""
  {
  }

  /** Cuts at the first slash. None when a part is missing or blank. */
  function SplitUnitID(unitID: string): Option<(string, string)> {
    var u := Trim(unitID);
    var i := IndexOf(u, '/');
    if i == |u| then None else
      var o, v := Trim(u[..i]), Trim(u[i + 1..]);
      if o == "" || v == "" then None else Some((o, v))
  }

  /** The spelling used in writes: both parts trimmed, the order UUID in lower case. */
  function CanonicalUnitID(unitID: string): Option<string> {
    match SplitUnitID(unitID)
    case None => None
    case Some((o, v)) => if IsUUID(o) then Some(UnitID(Fold(o), v)) else None
  }

  ghost predicate IsCanonical(u: string) {
    CanonicalUnitID(u) == Some(u)
  }

  /** A lower-case UUID and a trimmed non-blank variant id mint a unit id that
      splits back into the same parts and is its own canonical form. */
  lemma MintedUnitIsCanonical(o: string, v: string)
    requires IsUUID(o) && Fold(o) == o
    requires v != "" && Trimmed(v)
    ensures UnitID(o, v) == o + "/" + v
    ensures SplitUnitID(UnitID(o, v)) == Some((o, v))
    ensures IsCanonical(UnitID(o, v))
  {
    assert IsHex(o[0]) && IsHex(o[35]);
    assert Trim(o) == o by { TrimIsTrimmed(o); }
    assert Trim(v) == v by { TrimIsTrimmed(v); }
    SplitsBack(o, v);
  }

  lemma SplitsBack(o: string, v: string)
    requires IsUUID(o) && v != "" && Trimmed(v) && Trim(o) == o && Trim(v) == v
    ensures SplitUnitID(o + "/" + v) == Some((o, v))
  {
    hide Trim;
    var u := o + "/" + v;
    assert IsHex(o[0]) && u[0] == o[0];
    assert Trim(u) == u by { assert Trimmed(u); TrimIsTrimmed(u); }
    assert forall j :: 0 <= j < 36 ==> u[j] == o[j] && o[j] != '/';
    IndexOfIs(u, '/', 36);
    assert u[..36] == o && u[37..] == v;
  }

  /** The unit of an order line, whatever white space surrounds the variant id. */
  lemma LineUnitIsCanonical(o: string, variant: string)
    requires IsUUID(o) && Fold(o) == o && Trim(variant) != ""
    ensures IsCanonical(UnitID(o, variant)) && UnitID(o, variant) == o + "/" + Trim(variant)
  {
    TrimIsTrimmed(variant);
    MintedUnitIsCanonical(o, Trim(variant));
  }

  lemma CanonicalParts(raw: string) returns (o: string, v: string)
    requires CanonicalUnitID(raw).Some?
    ensures IsUUID(o) && Fold(o) == o && v != "" && Trimmed(v)
    ensures CanonicalUnitID(raw) == Some(UnitID(o, v))
  {
    var parts := SplitUnitID(raw).value;
    o, v := Fold(parts.0), parts.1;
    var u := Trim(raw);
    TrimIsTrimmed(u[IndexOf(u, '/') + 1..]);
  }

  /** Canonicalisation is idempotent: every spelling of a unit leads to one
      fixed point, so all spellings share one row key and one lock. */
  lemma CanonicalIsFixed(raw: string)
    requires CanonicalUnitID(raw).Some?
    ensures IsCanonical(CanonicalUnitID(raw).value)
  {
    var o, v := CanonicalParts(raw);
    MintedUnitIsCanonical(o, v);
  }

  /** The unit a lock request names: canonical when it parses, trimmed otherwise, blank ids skipped. */
  function LockUnit(raw: string): Option<string> {
    var t := Trim(raw);
    if t == "" then None else
      match CanonicalUnitID(t)
      case Some(c) => Some(c)
      case None => Some(t)
  }

  lemma CanonicalLocksItself(u: string)
    requires IsCanonical(u)
    ensures LockUnit(u) == Some(u) && Trim(u) == u
  {
    var o, v := CanonicalParts(u);
    MintedUnitIsCanonical(o, v);
    assert u == o + "/" + v;
    assert IsHex(o[0]) && u[0] == o[0] && u[|u| - 1] == v[|v| - 1];
    assert Trimmed(u);
    TrimIsTrimmed(u);
  }

  /** The key of each named unit; None for a blank id. */
  function KeysNamed(unitIDs: seq<string>): seq<Option<string>> {
    seq(|unitIDs|, i requires 0 <= i < |unitIDs| =>
      match LockUnit(unitIDs[i]) case None => None case Some(u) => Some(UNIT_LOCK_PREFIX + u))
  }

  /** Keys in the order of first mention, each once. */
  function FirstMentions(named: seq<Option<string>>): (keys: seq<string>)
    ensures Distinct(keys)
  {
    if named == [] then [] else
      var n := |named| - 1;
      var keys := FirstMentions(named[..n]);
      if named[n].None? || named[n].value in keys then keys else keys + [named[n].value]
  }

  /** The keys a batch takes, in the order in which it takes them. */
  function LockKeys(unitIDs: seq<string>): seq<string> {
    Sort(FirstMentions(KeysNamed(unitIDs)))
  }

  lemma {:induction false} MentionsEntries(named: seq<Option<string>>, k: string)
    ensures k in FirstMentions(named) <==> Some(k) in named
  {
    if named != [] {
      var n := |named| - 1;
      MentionsEntries(named[..n], k);
      assert named == named[..n] + [named[n]];
    }
  }

  /** Sorted, without repeats, and covering exactly the units named in any spelling. */
  lemma LockKeysCover(unitIDs: seq<string>)
    ensures Sorted(LockKeys(unitIDs)) && Distinct(LockKeys(unitIDs))
    ensures forall k :: k in LockKeys(unitIDs) <==> Some(k) in KeysNamed(unitIDs)
  {
    var keys := FirstMentions(KeysNamed(unitIDs));
    SortSorts(keys);
    SortDistinct(keys);
    SortEntries(keys);
    forall k ensures k in LockKeys(unitIDs) <==> Some(k) in KeysNamed(unitIDs) {
      MentionsEntries(KeysNamed(unitIDs), k);
    }
  }

  /** Two units contend for a lock only if they are the same unit. */
  lemma LockKeyOfUnit(unitIDs: seq<string>, u: string)
    requires u in unitIDs && IsCanonical(u)
    ensures UNIT_LOCK_PREFIX + u in LockKeys(unitIDs)
  {
    CanonicalLocksItself(u);
    LockKeysCover(unitIDs);
    var i :| 0 <= i < |unitIDs| && unitIDs[i] == u;
    assert KeysNamed(unitIDs)[i] == Some(UNIT_LOCK_PREFIX + u);
  }

  /** The key list LockAssignmentUnits walks: built with a seen-map, then sorted. */
  method CollectLockKeys(unitIDs: seq<string>) returns (keys: seq<string>)
    ensures keys == LockKeys(unitIDs)
    ensures Sorted(keys) && Distinct(keys)
  {
    keys := [];
    var seen: set<string> := {};
    ghost var named := KeysNamed(unitIDs);
    for i := 0 to |unitIDs|
      invariant keys == FirstMentions(named[..i])
      invariant forall u :: u in seen <==> UNIT_LOCK_PREFIX + u in keys
    {
      assert named[..i + 1][..i] == named[..i];
      var unitID := Trim(unitIDs[i]);
      if unitID == "" {
        continue;
      }
      match CanonicalUnitID(unitID) {
        case Some(canon) => unitID := canon;
        case None =>
      }
      assert named[i] == Some(UNIT_LOCK_PREFIX + unitID);
      if unitID in seen {
        continue;
      }
      seen := seen + {unitID};
      keys := keys + [UNIT_LOCK_PREFIX + unitID];
      forall u ensures u in seen <==> UNIT_LOCK_PREFIX + u in keys {
        PrefixInjective(u, unitID);
      }
    }
    assert named[..|unitIDs|] == named;
    LockKeysCover(unitIDs);
    keys := Sort(keys);
  }

  lemma PrefixInjective(a: string, b: string)
    ensures UNIT_LOCK_PREFIX + a == UNIT_LOCK_PREFIX + b ==> a == b
  {
    assert (UNIT_LOCK_PREFIX + a)[|UNIT_LOCK_PREFIX|..] == a;
    assert (UNIT_LOCK_PREFIX + b)[|UNIT_LOCK_PREFIX|..] == b;
  }
}

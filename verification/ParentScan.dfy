/** The paged listing of a parent's bindings, and the scan that decides whether
    the parent may be returned. */
module ParentScan {
  import opened Text
  import opened Units
  import opened T = AssignmentTable
  import P = AssignmentProtocol

  const MAX_LIMIT := 100
  const DEFAULT_LIMIT := 100

  datatype Query = Query(status: string, limit: int, offset: int)

  datatype Page = Page(rows: seq<Row>, hasMore: bool)

  /** parentListStatus; blank means assigned. */
  function ListStatus(raw: string): Result<string> {
    var s := Trim(raw);
    if s == "" || s == "assigned" then Ok("assigned")
    else if s == "revoked" || s == "all" then Ok(s)
    else Err(Validation)
  }

  function StatusName(s: Status): string {
    match s case Unassigned => "unassigned" case Assigned => "assigned" case Revoked => "revoked"
  }

  predicate Listed(r: Row, parent: string, status: string) {
    r.parent == parent && (status == "all" || StatusName(r.status) == status)
  }

  /** The rows of the table that the query selects, newest first. */
  function Selected(t: Table, parent: string, status: string): seq<Row> {
    if t == [] then []
    else if Listed(t[0], parent, status) then [t[0]] + Selected(t[1..], parent, status)
    else Selected(t[1..], parent, status)
  }

  lemma {:induction false} SelectedRows(t: Table, parent: string, status: string)
    ensures forall r :: r in Selected(t, parent, status) <==> r in t && Listed(r, parent, status)
    ensures status in {"all", "assigned", "revoked"} ==>
              forall r :: r in Selected(t, parent, status) <==>
                r in t && r.parent == parent && (status == "all" || (if status == "assigned" then r.status == Assigned else r.status == Revoked))
  {
    StatusNames();
    if t != [] {
      SelectedRows(t[1..], parent, status);
      assert t == [t[0]] + t[1..];
    }
  }

  /** LIMIT limit+1 OFFSET offset; the extra row only says whether there are more. */
  function ReadPage(rows: seq<Row>, limit: nat, offset: nat): Page {
    var lo := if offset <= |rows| then offset else |rows|;
    var hi := if lo + limit <= |rows| then lo + limit else |rows|;
    Page(rows[lo..hi], lo + limit < |rows|)
  }

  function ListByParent(t: Table, parentOrderItemID: string, q: Query): Result<Page> {
    match CanonicalUnitID(Trim(parentOrderItemID))
    case None => Err(Validation)
    case Some(parent) =>
      match ListStatus(q.status)
      case Err(e) => Err(e)
      case Ok(status) =>
        var limit := if q.limit <= 0 then DEFAULT_LIMIT else if q.limit > MAX_LIMIT then MAX_LIMIT else q.limit;
        if q.offset < 0 then Err(Validation) else Ok(ReadPage(Selected(t, parent, status), limit, q.offset))
  }

  /** A listing fails exactly on an invalid parent, an unknown status or a negative offset. Otherwise it
      is a cut of the selected rows at the offset, of at most 100 or the positive limit asked for,
      and says whether rows follow. A blank status asks for the assigned ones. */
  lemma ListingIs(t: Table, parentOrderItemID: string, q: Query)
    ensures ListByParent(t, parentOrderItemID, q).Err? <==>
            CanonicalUnitID(parentOrderItemID).None? || q.offset < 0 || Trim(q.status) !in {"", "assigned", "revoked", "all"}
    ensures ListByParent(t, parentOrderItemID, q).Ok? ==>
              var status := if Trim(q.status) == "" then "assigned" else Trim(q.status);
              var all := Selected(t, CanonicalUnitID(parentOrderItemID).value, status);
              var page := ListByParent(t, parentOrderItemID, q).value;
              var n := if 1 <= q.limit <= 100 then q.limit else 100;
              && |page.rows| == (if q.offset + n <= |all| then n else if q.offset <= |all| then |all| - q.offset else 0)
              && (forall i :: 0 <= i < |page.rows| ==> page.rows[i] == all[q.offset + i])
              && (page.hasMore <==> q.offset + n < |all|)
  {
    hide Selected, CanonicalUnitID, Trim;
    CanonicalOfTrimmed(parentOrderItemID);
  }

  lemma CanonicalOfTrimmed(raw: string)
    ensures CanonicalUnitID(Trim(raw)) == CanonicalUnitID(raw)
  {
    TrimIsTrimmed(raw);
  }

  // ---- What the scan decides ----

  /** The spelling in which a child is compared and reported. */
  function ChildName(child: string): string {
    CanonicalUnitID(child).GetOr(child)
  }

  /** A child the caller lists is skipped in any spelling; blank ids name nothing. */
  ghost predicate Skipped(skip: seq<string>, child: string) {
    exists i :: 0 <= i < |skip| && LockUnit(skip[i]) == Some(child)
  }

  /** c is a live child of the parent that the caller did not list. */
  ghost predicate Stranded(t: Table, parent: string, skip: seq<string>, c: string) {
    !Skipped(skip, c) && exists r :: r in t && r.parent == parent && r.status == Assigned && ChildName(r.child) == c
  }

  datatype Verdict = Returnable | StrandedChildren(children: seq<string>) | Failed(error: Error)

  method CollectSkip(skipChildUnitIDs: seq<string>) returns (skip: set<string>)
    ensures forall c :: c in skip <==> Skipped(skipChildUnitIDs, c)
  {
    hide CanonicalUnitID, Trim;
    skip := {};
    for i := 0 to |skipChildUnitIDs|
      invariant forall c :: c in skip <==> Skipped(skipChildUnitIDs[..i], c)
    {
      ghost var before := skip;
      var id := Trim(skipChildUnitIDs[i]);
      if id != "" {
        match CanonicalUnitID(id) {
          case Some(canon) => id := canon;
          case None =>
        }
        skip := skip + {id};
      }
      forall c ensures c in skip <==> Skipped(skipChildUnitIDs[..i + 1], c) {
        SkipOneMore(skipChildUnitIDs, i, c);
      }
    }
    assert skipChildUnitIDs[..|skipChildUnitIDs|] == skipChildUnitIDs;
  }

  lemma SkipOneMore(ids: seq<string>, i: nat, c: string)
    requires i < |ids|
    ensures Skipped(ids[..i + 1], c) <==> Skipped(ids[..i], c) || LockUnit(ids[i]) == Some(c)
  {
    hide LockUnit;
    var a, b := ids[..i], ids[..i + 1];
    assert forall j :: 0 <= j < i ==> a[j] == b[j];
    assert b[i] == ids[i];
    if Skipped(a, c) {
      var j :| 0 <= j < |a| && LockUnit(a[j]) == Some(c);
      assert LockUnit(b[j]) == Some(c);
    }
    if LockUnit(ids[i]) == Some(c) { assert LockUnit(b[i]) == Some(c); }
    if Skipped(b, c) {
      var j :| 0 <= j < |b| && LockUnit(b[j]) == Some(c);
      if j < i { assert LockUnit(a[j]) == Some(c); }
    }
  }

  /** The children reported once these rows have been read. */
  function Missing(rows: seq<Row>, skip: set<string>): seq<string> {
    if rows == [] then [] else
      var n := |rows| - 1;
      var blocking, c := Missing(rows[..n], skip), ChildName(rows[n].child);
      if c in skip || c in blocking then blocking else blocking + [c]
  }

  lemma NothingMissing(skip: set<string>)
    ensures Missing([], skip) == []
  {
  }

  lemma {:induction false} MissingChildren(rows: seq<Row>, skip: set<string>)
    ensures Distinct(Missing(rows, skip))
    ensures forall c :: c in Missing(rows, skip) <==> c !in skip && exists r :: r in rows && ChildName(r.child) == c
  {
    hide ChildName;
    if rows != [] {
      var n := |rows| - 1;
      MissingChildren(rows[..n], skip);
      assert rows == rows[..n] + [rows[n]];
      assert rows[n] in rows;
    }
  }

  /** One page of the scan. */
  method ScanPage(rows: seq<Row>, skip: set<string>, blocking: seq<string>, ghost before: seq<Row>)
    returns (blocking': seq<string>)
    requires blocking == Missing(before, skip)
    ensures blocking' == Missing(before + rows, skip)
  {
    hide CanonicalUnitID;
    blocking' := blocking;
    var seen := set c | c in blocking;
    assert before + rows[..0] == before;
    for i := 0 to |rows|
      invariant blocking' == Missing(before + rows[..i], skip)
      invariant forall c :: c in seen <==> c in blocking'
    {
      ghost var next := before + rows[..i + 1];
      assert next[..|next| - 1] == before + rows[..i];
      var child := rows[i].child;
      match CanonicalUnitID(child) {
        case Some(canon) => child := canon;
        case None =>
      }
      if child in skip { continue; }
      if child in seen { continue; }
      seen := seen + {child};
      blocking' := blocking' + [child];
    }
    assert rows[..|rows|] == rows;
  }

  /** Reads every page of live children, however many there are. */
  method ScanPages(t: Table, parentUnitID: string, skip: set<string>) returns (r: Result<seq<string>>)
    ensures r.Err? <==> CanonicalUnitID(Trim(parentUnitID)).None?
    ensures r.Ok? ==> r.value == Missing(LiveRows(t, parentUnitID), skip)
  {
    hide CanonicalUnitID, Trim, ListByParent, LiveRows, Missing;
    var blocking: seq<string> := [];
    var offset := 0;
    ghost var all := LiveRows(t, parentUnitID);
    NothingMissing(skip);
    assert all[..0] == [];
    while true
      invariant 0 <= offset <= |all|
      invariant blocking == Missing(all[..offset], skip)
      decreases |all| - offset
    {
      PageOfLive(t, parentUnitID, offset);
      var listed := ListByParent(t, parentUnitID, Query("assigned", MAX_LIMIT, offset));
      if listed.Err? { return Err(listed.error); }
      var rows := listed.value.rows;
      blocking := ScanPage(rows, skip, blocking, all[..offset]);
      assert all[..offset] + rows == all[..offset + |rows|];
      offset := offset + |rows|;
      if !listed.value.hasMore || |rows| == 0 { break; }
    }
    assert all[..offset] == all;
    return Ok(blocking);
  }

  /** Accepts exactly when each live child is listed by the caller; otherwise it
      reports exactly the missing ones, each once. */
  method AssertParentReturnable(t: Table, parentUnitID: string, skipChildUnitIDs: seq<string>) returns (v: Verdict)
    ensures v.Failed? <==> CanonicalUnitID(Trim(parentUnitID)).None?
    ensures !v.Failed? ==> var p := CanonicalUnitID(Trim(parentUnitID)).value;
              (v.Returnable? <==> forall c :: !Stranded(t, p, skipChildUnitIDs, c))
    ensures v.StrandedChildren? ==> var p := CanonicalUnitID(Trim(parentUnitID)).value;
              Distinct(v.children) && forall c :: c in v.children <==> Stranded(t, p, skipChildUnitIDs, c)
  {
    hide CanonicalUnitID, Trim, Selected, Stranded, Skipped, Distinct, Missing;
    var skip := CollectSkip(skipChildUnitIDs);
    var scanned := ScanPages(t, parentUnitID, skip);
    if scanned.Err? { return Failed(scanned.error); }
    var blocking := scanned.value;
    MissingIsStranded(t, CanonicalUnitID(Trim(parentUnitID)).value, skipChildUnitIDs, skip);
    if |blocking| == 0 { return Returnable; }
    return StrandedChildren(blocking);
  }

  /** What the pages of the scan are cut from. */
  function LiveRows(t: Table, parentUnitID: string): seq<Row> {
    match CanonicalUnitID(Trim(parentUnitID)) case None => [] case Some(p) => Selected(t, p, "assigned")
  }

  lemma PageOfLive(t: Table, parentUnitID: string, offset: nat)
    requires offset <= |LiveRows(t, parentUnitID)|
    ensures var page, all := ListByParent(t, parentUnitID, Query("assigned", MAX_LIMIT, offset)), LiveRows(t, parentUnitID);
            && (page.Err? <==> CanonicalUnitID(Trim(parentUnitID)).None?)
            && (page.Ok? ==> offset + |page.value.rows| <= |all| && page.value.rows == all[offset..offset + |page.value.rows|]
                             && (page.value.hasMore ==> page.value.rows != [])
                             && (!page.value.hasMore ==> offset + |page.value.rows| == |all|))
  {
    hide CanonicalUnitID, Selected, Trim;
    assert ListStatus("assigned") == Ok("assigned") by { TrimIsTrimmed("assigned"); }
    hide ListStatus;
  }

  lemma MissingIsStranded(t: Table, p: string, skipIDs: seq<string>, skip: set<string>)
    requires forall c :: c in skip <==> Skipped(skipIDs, c)
    ensures var blocking := Missing(Selected(t, p, "assigned"), skip);
            Distinct(blocking) && (forall c :: c in blocking <==> Stranded(t, p, skipIDs, c))
            && (blocking == [] <==> forall c :: !Stranded(t, p, skipIDs, c))
  {
    SelectedRows(t, p, "assigned");
    MissingChildren(Selected(t, p, "assigned"), skip);
    StatusNames();
    var blocking := Missing(Selected(t, p, "assigned"), skip);
    if blocking != [] { assert blocking[0] in blocking; }
  }

  lemma StatusNames()
    ensures forall s :: StatusName(s) == "assigned" <==> s == Assigned
    ensures forall s :: StatusName(s) == "revoked" <==> s == Revoked
  {
    assert |"assigned"| == 8 && |"unassigned"| == 10 && |"revoked"| == 7;
  }

  // ---- The scan and the protocol ----

  /** A return lists its own lines as the children to skip. In every reachable state
      of the protocol, scanning each of its units accepts all of them exactly when the
      return may be opened, so the transitions of AssignmentProtocol test what the scan computes. */
  lemma ScanDecidesReturn(s: P.State, units: seq<string>)
    requires P.Inv(s) && P.AllCanonical(units)
    ensures P.Returnable(s.rows, units) <==> forall p, c :: p in units ==> !Stranded(s.rows, p, units, c)
  {
    var t := s.rows;
    forall c | IsCanonical(c) ensures Skipped(units, c) <==> c in units { SkippedIsListed(units, c); }
    if P.Returnable(t, units) {
      forall p, c | p in units ensures !Stranded(t, p, units, c) {
        if r :| r in t && r.parent == p && r.status == Assigned && ChildName(r.child) == c {
          var i :| 0 <= i < |t| && t[i] == r;
          assert r.child == c;
        }
      }
    }
    if forall p, c :: p in units ==> !Stranded(t, p, units, c) {
      forall i | 0 <= i < |t| && t[i].status == Assigned && t[i].parent in units ensures t[i].child in units {
        assert t[i] in t && ChildName(t[i].child) == t[i].child;
        assert !Stranded(t, t[i].parent, units, t[i].child);
      }
    }
  }

  lemma SkippedIsListed(units: seq<string>, c: string)
    requires P.AllCanonical(units) && IsCanonical(c)
    ensures Skipped(units, c) <==> c in units
  {
    forall i | 0 <= i < |units| ensures LockUnit(units[i]) == Some(units[i]) { CanonicalLocksItself(units[i]); }
  }
}

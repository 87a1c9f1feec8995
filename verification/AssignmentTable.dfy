/** The product-assignment rows and the service that moves them
    unassigned -> assigned -> revoked. */
module AssignmentTable {
  import opened Text
  import opened Units

  datatype Error = Validation | NotFound | Conflict | Internal

  datatype Result<+T> = Ok(value: T) | Err(error: Error)

  datatype Status = Unassigned | Assigned | Revoked

  /** One binding of a child unit. parent is empty while unassigned. */
  datatype Row = Row(id: string, parent: string, child: string, status: Status, forcedReason: string)

  /** Newest first, as every list query orders them. */
  type Table = seq<Row>

  const MAX_FORCED_REASON := 500

  /** The id column holds UUIDs. */
  predicate UuidRows(t: Table) {
    forall i :: 0 <= i < |t| ==> IsUUID(t[i].id)
  }

  predicate Current(r: Row) { r.status != Revoked }

  /** ProductAssignment.Validate, on ids the constructors have trimmed. */
  predicate ValidRow(r: Row) {
    && r.id != ""
    && r.child != ""
    && match r.status
       case Unassigned => r.parent == "" && r.forcedReason == ""
       case Assigned => r.parent != "" && r.child != r.parent
       case Revoked => r.parent != "" ==> r.child != r.parent
  }

  /** FindCurrentByChildID */
  function CurrentByChild(t: Table, child: string): (r: Option<Row>)
    ensures r.Some? ==> r.value in t && r.value.child == child && Current(r.value)
    ensures r.None? <==> forall x :: x in t && x.child == child ==> !Current(x)
  {
    if t == [] then None
    else if t[0].child == child && Current(t[0]) then Some(t[0])
    else CurrentByChild(t[1..], child)
  }

  /** Position of the row with this id, or |t|. */
  function IndexById(t: Table, id: string): (i: nat)
    ensures i <= |t|
    ensures i < |t| ==> t[i].id == id
    ensures forall j :: 0 <= j < i ==> t[j].id != id
  {
    if t == [] || t[0].id == id then 0 else 1 + IndexById(t[1..], id)
  }

  /** With unique ids, any row with the id is the one that is found. */
  lemma IndexByIdIs(t: Table, k: nat)
    requires IdsUnique(t) && k < |t|
    ensures IndexById(t, t[k].id) == k
  {
    assert !(IndexById(t, t[k].id) < k);
  }

  /** Insert: field checks, the primary key, and one current row per child. */
  function InsertRow(t: Table, r: Row): Result<Table> {
    if !ValidRow(r) then Err(Validation)
    else if IndexById(t, r.id) < |t| then Err(Conflict)
    else if Current(r) && CurrentByChild(t, r.child).Some? then Err(Conflict)
    else Ok([r] + t)
  }

  // ---- The service operations, each one transaction, on trimmed arguments ----

  datatype Op =
    | CreateUnassigned(newID: string, child: string)
    | CreateAssigned(newID: string, parent: string, child: string, reason: string)
    | Assign(id: string, parent: string, reason: string)
    | Revoke(id: string)

  /** applyForced: an empty reason leaves the row alone, a long one is refused. */
  function Forced(r: Row, reason: string): Result<Row> {
    if reason == "" then Ok(r)
    else if |reason| > MAX_FORCED_REASON then Err(Validation)
    else Ok(r.(forcedReason := reason))
  }

  /** Get: the id must be a UUID and the row must exist. */
  function Get(t: Table, id: string): (r: Result<nat>)
    ensures r.Ok? ==> r.value == IndexById(t, id) && r.value < |t|
  {
    if !IsUUID(id) then Err(Validation)
    else if IndexById(t, id) == |t| then Err(NotFound)
    else Ok(IndexById(t, id))
  }

  /** requireNoCurrent, the field checks, the forced reason, then the insert. */
  function InsertNew(t: Table, r: Row, reason: string): Result<Table> {
    if r.child == "" then Err(Validation)
    else if CurrentByChild(t, r.child).Some? then Err(Conflict)
    else if !ValidRow(r) then Err(Validation)
    else
      match Forced(r, reason)
      case Err(e) => Err(e)
      case Ok(f) => InsertRow(t, f)
  }

  function AssignRow(t: Table, i: nat, parent: string, reason: string): Result<Table>
    requires i < |t|
  {
    var r := t[i].(parent := parent, status := Assigned);
    if t[i].status != Unassigned || !ValidRow(r) then Err(Validation)
    else
      match Forced(r, reason)
      case Err(e) => Err(e)
      case Ok(f) => Ok(t[i := f])
  }

  function RevokeRow(t: Table, i: nat): Result<Table>
    requires i < |t|
  {
    var r := t[i].(status := Revoked);
    if t[i].status == Revoked then Ok(t)
    else if !ValidRow(r) then Err(Validation)
    else Ok(t[i := r])
  }

  function Apply(t: Table, op: Op): Result<Table> {
    match op
    case CreateUnassigned(newID, child) => InsertNew(t, Row(newID, "", child, Unassigned, ""), "")
    case CreateAssigned(newID, parent, child, reason) => InsertNew(t, Row(newID, parent, child, Assigned, ""), reason)
    case Assign(id, parent, reason) =>
      (match Get(t, id) case Err(e) => Err(e) case Ok(i) => AssignRow(t, i, parent, reason))
    case Revoke(id) =>
      (match Get(t, id) case Err(e) => Err(e) case Ok(i) => RevokeRow(t, i))
  }

  // ---- What every operation keeps ----

  predicate RowsValid(t: Table) {
    forall i :: 0 <= i < |t| ==> ValidRow(t[i])
  }

  predicate IdsUnique(t: Table) {
    forall i, j :: 0 <= i < j < |t| ==> t[i].id != t[j].id
  }

  /** A child unit has at most one row that is not revoked. */
  predicate OneCurrent(t: Table) {
    forall i, j :: 0 <= i < j < |t| && Current(t[i]) && Current(t[j]) ==> t[i].child != t[j].child
  }

  predicate TableInv(t: Table) {
    RowsValid(t) && IdsUnique(t) && OneCurrent(t)
  }

  function Rank(s: Status): nat {
    match s case Unassigned => 0 case Assigned => 1 case Revoked => 2
  }

  /** What a later reader may find in place of row a: the status only moves
      forward, the parent is written once, on unassigned -> assigned, and a
      revoked row is never touched again. */
  predicate Evolves(a: Row, b: Row) {
    && a.id == b.id && a.child == b.child
    && Rank(a.status) <= Rank(b.status)
    && (a.status != Unassigned ==> b.parent == a.parent && b.forcedReason == a.forcedReason)
    && (a.status == Unassigned && b.status == Unassigned ==> a == b)
    && (a.status == Revoked ==> a == b)
  }

  /** Rows are added in front, never removed, and each old row has only evolved. */
  predicate Later(t: Table, t': Table) {
    |t| <= |t'| && forall i :: 0 <= i < |t| ==> Evolves(t[i], t'[|t'| - |t| + i])
  }

  lemma LaterTransitive(a: Table, b: Table, c: Table)
    requires Later(a, b) && Later(b, c)
    ensures Later(a, c)
  {
    forall i | 0 <= i < |a| ensures Evolves(a[i], c[|c| - |a| + i]) {
      assert Evolves(a[i], b[|b| - |a| + i]);
      assert Evolves(b[|b| - |a| + i], c[|c| - |b| + (|b| - |a| + i)]);
    }
  }

  lemma InsertKeeps(t: Table, r: Row)
    requires TableInv(t) && InsertRow(t, r).Ok?
    ensures TableInv([r] + t) && Later(t, [r] + t)
  {
    var t' := [r] + t;
    InsertFits(t, r);
    hide InsertRow, ValidRow, Evolves;
    assert forall i :: 0 < i < |t'| ==> t'[i] == t[i - 1];
    forall i | 0 <= i < |t| ensures Evolves(t[i], t'[|t'| - |t| + i]) { EvolvesNot(t[i]); }
  }

  lemma InsertFits(t: Table, r: Row)
    requires InsertRow(t, r).Ok?
    ensures ValidRow(r) && forall i :: 0 <= i < |t| ==> t[i].id != r.id && (Current(t[i]) && Current(r) ==> t[i].child != r.child)
  {
    hide ValidRow;
    forall i | 0 <= i < |t| ensures t[i].id != r.id && (Current(t[i]) && Current(r) ==> t[i].child != r.child) { assert t[i] in t; }
  }

  lemma EvolvesNot(r: Row)
    ensures Evolves(r, r)
  {
  }

  lemma UpdateKeeps(t: Table, i: nat, r: Row)
    requires TableInv(t) && i < |t| && ValidRow(r) && Evolves(t[i], r)
    ensures TableInv(t[i := r]) && Later(t, t[i := r])
  {
    assert Current(r) ==> Current(t[i]);
  }

  /** The one row an accepted operation writes, and where: in front, or over the row it names. */
  lemma ApplyWrites(t: Table, op: Op) returns (r: Row, i: nat)
    requires TableInv(t) && Apply(t, op).Ok?
    ensures ValidRow(r)
    ensures op.CreateUnassigned? || op.CreateAssigned? ==>
              Apply(t, op).value == [r] + t && InsertRow(t, r).Ok? && r.child == op.child
    ensures op.CreateUnassigned? ==> r == Row(op.newID, "", op.child, Unassigned, "")
    ensures op.CreateAssigned? ==> r == Row(op.newID, op.parent, op.child, Assigned, op.reason)
    ensures op.Assign? || op.Revoke? ==>
              i == IndexById(t, op.id) && i < |t| && Apply(t, op).value == t[i := r] && Evolves(t[i], r)
    ensures op.Assign? ==> t[i].status == Unassigned && r == Row(op.id, op.parent, t[i].child, Assigned, op.reason)
    ensures op.Revoke? ==> r == t[i].(status := Revoked)
  {
    i := 0;
    match op {
      case CreateUnassigned(newID, child) =>
        r := Row(newID, "", child, Unassigned, "");
      case CreateAssigned(newID, parent, child, reason) =>
        r := Forced(Row(newID, parent, child, Assigned, ""), reason).value;
      case Assign(id, parent, reason) =>
        i := Get(t, id).value;
        r := Forced(t[i].(parent := parent, status := Assigned), reason).value;
      case Revoke(id) =>
        i := Get(t, id).value;
        r := t[i].(status := Revoked);
        assert t[i].status == Revoked ==> r == t[i] && t[i := r] == t;
    }
  }

  lemma ApplyKeeps(t: Table, op: Op)
    requires TableInv(t) && Apply(t, op).Ok?
    ensures TableInv(Apply(t, op).value) && Later(t, Apply(t, op).value)
  {
    var r, i := ApplyWrites(t, op);
    if op.CreateUnassigned? || op.CreateAssigned? {
      InsertKeeps(t, r);
    } else {
      UpdateKeeps(t, i, r);
    }
  }

  /** Exactly when an operation is accepted, said of the rows. */
  lemma AcceptedIff(t: Table, op: Op)
    requires TableInv(t)
    ensures op.CreateUnassigned? ==>
              (Apply(t, op).Ok? <==> op.newID != "" && op.child != "" && Unused(t, op.newID) && NoneCurrent(t, op.child))
    ensures op.CreateAssigned? ==>
              (Apply(t, op).Ok? <==> op.newID != "" && op.child != "" && Unused(t, op.newID) && NoneCurrent(t, op.child)
                                     && op.parent != "" && op.parent != op.child && |op.reason| <= 500)
    ensures op.Assign? ==>
              (Apply(t, op).Ok? <==> IsUUID(op.id) && op.parent != "" && |op.reason| <= 500
                                     && exists r :: r in t && r.id == op.id && r.status == Unassigned && r.child != op.parent)
    ensures op.Revoke? ==> (Apply(t, op).Ok? <==> IsUUID(op.id) && exists r :: r in t && r.id == op.id)
  {
    hide IsUUID;
    if op.Assign? || op.Revoke? {
      var i := IndexById(t, op.id);
      forall r | r in t && r.id == op.id ensures i < |t| && t[i] == r {
        var j :| 0 <= j < |t| && t[j] == r;
        IndexByIdIs(t, j);
      }
      if i < |t| { assert t[i] in t && ValidRow(t[i]); }
    } else {
      var i := IndexById(t, op.newID);
      if i < |t| { assert t[i] in t; }
      assert Unused(t, op.newID) <==> i == |t|;
      assert NoneCurrent(t, op.child) <==> CurrentByChild(t, op.child).None?;
    }
  }

  predicate Unused(t: Table, id: string) {
    forall r :: r in t ==> r.id != id
  }

  predicate NoneCurrent(t: Table, child: string) {
    forall r :: r in t && r.child == child ==> r.status == Revoked
  }

  /** A run of operations; a refused one leaves the table as it is. */
  function Run(t: Table, ops: seq<Op>): Table
    decreases |ops|
  {
    if ops == [] then t else
      match Apply(t, ops[0])
      case Err(_) => Run(t, ops[1..])
      case Ok(t') => Run(t', ops[1..])
  }

  /** Over every run of service operations a child unit has at most one current
      row, ids stay unique, and each row has only moved forward. */
  lemma {:induction false} RunKeepsRows(t: Table, ops: seq<Op>)
    requires TableInv(t)
    ensures TableInv(Run(t, ops)) && Later(t, Run(t, ops))
    decreases |ops|
  {
    if ops != [] {
      match Apply(t, ops[0]) {
        case Err(_) => RunKeepsRows(t, ops[1..]);
        case Ok(t') =>
          ApplyKeeps(t, ops[0]);
          RunKeepsRows(t', ops[1..]);
          LaterTransitive(t, t', Run(t', ops[1..]));
      }
    }
  }

  /** While a child has a live assigned row, every further bind of that child is refused. */
  lemma AssignedBlocksBind(t: Table, i: nat, op: Op)
    requires TableInv(t) && i < |t| && t[i].status == Assigned
    requires !op.Revoke?
    requires op.CreateUnassigned? || op.CreateAssigned? ==> op.child == t[i].child
    requires op.Assign? && IndexById(t, op.id) < |t| ==> t[IndexById(t, op.id)].child == t[i].child
    ensures Apply(t, op).Err?
  {
    assert t[i] in t;
    if op.Assign? && Get(t, op.id).Ok? {
      var j := Get(t, op.id).value;
      assert j != i ==> !Current(t[j]);
    }
  }

  // ---- The service ----

  /** assignment.Service over one repository. */
  class Service {
    var rows: Table

    constructor ()
      ensures rows == []
    {
      rows := [];
    }

    method CreateUnassigned(newID: string, childOrderItemID: string) returns (r: Result<Row>)
      modifies this
      ensures match Apply(old(rows), Op.CreateUnassigned(Trim(newID), Trim(childOrderItemID)))
              case Err(e) => r == Err(e) && rows == old(rows)
              case Ok(t) => rows == t && r.Ok? && rows == [r.value] + old(rows)
    {
      var child := Trim(childOrderItemID);
      if child == "" { return Err(Validation); }
      if CurrentByChild(rows, child).Some? { return Err(Conflict); }
      var a := Row(Trim(newID), "", child, Unassigned, "");
      if !ValidRow(a) { return Err(Validation); }
      r := Save(a);
    }

    method CreateAssigned(newID: string, parentOrderItemID: string, childOrderItemID: string, reason: string)
      returns (r: Result<Row>)
      modifies this
      ensures match Apply(old(rows), Op.CreateAssigned(Trim(newID), Trim(parentOrderItemID), Trim(childOrderItemID), Trim(reason)))
              case Err(e) => r == Err(e) && rows == old(rows)
              case Ok(t) => rows == t && r.Ok? && rows == [r.value] + old(rows)
    {
      var parent, child := Trim(parentOrderItemID), Trim(childOrderItemID);
      if child == "" { return Err(Validation); }
      if CurrentByChild(rows, child).Some? { return Err(Conflict); }
      var a := Row(Trim(newID), parent, child, Assigned, "");
      if !ValidRow(a) { return Err(Validation); }
      match Forced(a, Trim(reason)) {
        case Err(e) => return Err(e);
        case Ok(f) => r := Save(f);
      }
    }

    method Save(a: Row) returns (r: Result<Row>)
      modifies this
      ensures match InsertRow(old(rows), a)
              case Err(e) => r == Err(e) && rows == old(rows)
              case Ok(t) => rows == t && r == Ok(a)
    {
      match InsertRow(rows, a) {
        case Err(e) => return Err(e);
        case Ok(t) => rows := t;
      }
      return Ok(a);
    }

    method Assign(id: string, parentOrderItemID: string, reason: string) returns (r: Result<Row>)
      modifies this
      ensures match Apply(old(rows), Op.Assign(Trim(id), Trim(parentOrderItemID), Trim(reason)))
              case Err(e) => r == Err(e) && rows == old(rows)
              case Ok(t) => rows == t && r.Ok? && r.value in rows && r.value.status == Assigned
    {
      match Get(rows, Trim(id)) {
        case Err(e) => return Err(e);
        case Ok(i) =>
          if rows[i].status != Unassigned { return Err(Validation); }
          var a := rows[i].(parent := Trim(parentOrderItemID), status := Assigned);
          if !ValidRow(a) { return Err(Validation); }
          match Forced(a, Trim(reason)) {
            case Err(e) => return Err(e);
            case Ok(f) =>
              rows := rows[i := f];
              assert rows[i] == f;
              return Ok(f);
          }
      }
    }

    /** idempotent is true when the row was already revoked and nothing was written. */
    method Revoke(id: string) returns (r: Result<Row>, idempotent: bool)
      modifies this
      ensures match Apply(old(rows), Op.Revoke(Trim(id)))
              case Err(e) => r == Err(e) && rows == old(rows) && !idempotent
              case Ok(t) => rows == t && r.Ok? && r.value in rows && r.value.status == Revoked
                            && (idempotent <==> rows == old(rows))
    {
      match Get(rows, Trim(id)) {
        case Err(e) => return Err(e), false;
        case Ok(i) =>
          if rows[i].status == Revoked { return Ok(rows[i]), true; }
          var a := rows[i].(status := Revoked);
          if !ValidRow(a) { return Err(Validation), false; }
          rows := rows[i := a];
          assert rows[i] == a && old(rows)[i] != a;
          return Ok(a), false;
      }
    }
  }
}

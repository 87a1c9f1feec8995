/** Binds and returns as interleaved transactions.

    A bind (AssignOwned, AdminAssign, RecordPurchase) reads before locking, then
    locks its units in one batch, rechecks that none is on a blocking return, and
    writes. A return transaction (request, approve, refund) locks the units of the
    return, checks that no parent would be stranded, and writes. Locks are kept to
    the end; writes appear at commit, where status-checked updates and the
    one-current-row index are tested against the table of that moment. */
module AssignmentProtocol {
  import opened Text
  import opened Units
  import L = LockOrder
  import opened T = AssignmentTable

  datatype ReturnStatus = Requested | Approved | Received | Refunded | Rejected | Cancelled

  /** A return request and the units of its lines. The lines never change. */
  datatype Return = Return(units: seq<string>, status: ReturnStatus)

  /** Rejected and cancelled returns no longer hold their units. */
  predicate Blocking(r: Return) {
    r.status != Rejected && r.status != Cancelled
  }

  /** Approval revoked the bindings of the returned units. */
  predicate Settled(r: Return) {
    r.status == Approved || r.status == Received || r.status == Refunded
  }

  datatype Work =
    | Bind(writes: seq<Op>)
    | OpenReturn(ret: nat)
    | SettleReturn(ret: nat, from: ReturnStatus, to: ReturnStatus)

  /** An unfinished transaction: the units it locks and whether its check under the locks has passed. */
  datatype Job = Job(units: seq<string>, work: Work, checked: bool)

  datatype State = State(rows: Table, rmas: map<nat, Return>, locks: L.Locks, jobs: map<nat, Job>)

  const EMPTY := State([], map[], map[], map[])

  datatype PurchaseLine = PurchaseLine(variant: string, parentUnit: string, newID: string)

  datatype Action =
    | BeginBind(tx: nat, child: string, parent: string, newID: string, reason: string)
    | BeginPurchase(tx: nat, order: string, lines: seq<PurchaseLine>)
    | BeginReturn(tx: nat, ret: nat, units: seq<string>)
    | BeginSettle(tx: nat, ret: nat)
    | Acquire(tx: nat)
    | Check(tx: nat)
    | Commit(tx: nat)
    | Rollback(tx: nat)
    | CloseReturn(ret: nat, to: ReturnStatus)
    | Receive(ret: nat)
    | RevokeRow(id: string)
    | InsertUnassigned(newID: string, child: string)

  // ---- What the transactions test ----

  predicate OnBlocking(rmas: map<nat, Return>, u: string) {
    exists k :: k in rmas && Blocking(rmas[k]) && u in rmas[k].units
  }

  /** Every live child of a returned parent is on the same return. */
  predicate Returnable(rows: Table, units: seq<string>) {
    forall i :: 0 <= i < |rows| && rows[i].status == Assigned && rows[i].parent in units ==> rows[i].child in units
  }

  predicate Clear(rmas: map<nat, Return>, units: seq<string>) {
    forall u :: u in units ==> !OnBlocking(rmas, u)
  }

  ghost predicate AllCanonical(units: seq<string>) {
    forall u :: u in units ==> IsCanonical(u)
  }

  function WriteAll(t: Table, writes: seq<Op>): Result<Table>
    decreases |writes|
  {
    if writes == [] then Ok(t) else
      match Apply(t, writes[0])
      case Err(e) => Err(e)
      case Ok(t') => WriteAll(t', writes[1..])
  }

  /** RevokeForUnit on every line of the return. */
  function RevokeUnits(t: Table, units: seq<string>): Result<Table>
    decreases |units|
  {
    if units == [] then Ok(t) else
      match CurrentByChild(t, units[0])
      case None => RevokeUnits(t, units[1..])
      case Some(r) =>
        match Apply(t, Op.Revoke(r.id))
        case Err(e) => Err(e)
        case Ok(t') => RevokeUnits(t', units[1..])
  }

  // ---- Steps ----

  function Start(s: State, tx: nat, units: seq<string>, work: Work): State {
    if tx in s.jobs then s else
      s.(jobs := s.jobs[tx := Job(units, work, false)],
         locks := L.Step(s.locks, L.Begin(tx, L.UnitLocks(units))))
  }

  function End(s: State, tx: nat): State {
    s.(jobs := s.jobs - {tx}, locks := L.Step(s.locks, L.Finish(tx)))
  }

  /** The write a bind decides on from its read before locking. */
  function BindWrite(t: Table, child: string, parent: string, newID: string, reason: string): Option<Op> {
    match CurrentByChild(t, child)
    case None => Some(Op.CreateAssigned(newID, parent, child, reason))
    case Some(r) => if r.status == Assigned then None else Some(Op.Assign(r.id, parent, reason))
  }

  function PurchaseWrites(order: string, lines: seq<PurchaseLine>, bound: bool): seq<Op> {
    if lines == [] then [] else
      var l := lines[0];
      var rest := PurchaseWrites(order, lines[1..], bound);
      if (Trim(l.parentUnit) != "") != bound then rest
      else if bound then
        [Op.CreateAssigned(Trim(l.newID), CanonicalUnitID(l.parentUnit).GetOr(""), UnitID(order, l.variant), "")] + rest
      else [Op.CreateUnassigned(Trim(l.newID), UnitID(order, l.variant))] + rest
  }

  /** Parent and child of every line that names a parent unit. */
  function PurchaseUnits(order: string, lines: seq<PurchaseLine>): seq<string> {
    if lines == [] then [] else
      var l := lines[0];
      var rest := PurchaseUnits(order, lines[1..]);
      if Trim(l.parentUnit) == "" then rest
      else [CanonicalUnitID(l.parentUnit).GetOr(""), UnitID(order, l.variant)] + rest
  }

  /** Lines RecordPurchase accepts: a variant, and a parent that is blank or a unit. */
  predicate LinesParse(lines: seq<PurchaseLine>) {
    forall i :: 0 <= i < |lines| ==>
      Trim(lines[i].variant) != "" &&
      (Trim(lines[i].parentUnit) != "" ==> CanonicalUnitID(lines[i].parentUnit).Some?)
  }

  function Holding(s: State, tx: nat): bool {
    tx in s.locks && s.locks[tx].held == |s.locks[tx].want|
  }

  function CheckStep(s: State, tx: nat): State {
    if tx !in s.jobs || !Holding(s, tx) || s.jobs[tx].checked then s else
      var j := s.jobs[tx];
      var ok := if j.work.Bind? then Clear(s.rmas, j.units) else Returnable(s.rows, j.units);
      if ok then s.(jobs := s.jobs[tx := j.(checked := true)]) else End(s, tx)
  }

  function CommitStep(s: State, tx: nat): State {
    if tx !in s.jobs || !s.jobs[tx].checked then s else
      var j := s.jobs[tx];
      match j.work
      case Bind(writes) =>
        (match WriteAll(s.rows, writes)
         case Err(_) => End(s, tx)
         case Ok(t) => End(s, tx).(rows := t))
      case OpenReturn(k) =>
        if k in s.rmas then End(s, tx)
        else End(s, tx).(rmas := s.rmas[k := Return(j.units, Requested)])
      case SettleReturn(k, from, to) =>
        if k !in s.rmas || s.rmas[k].status != from then End(s, tx) else
          match RevokeUnits(s.rows, j.units)
          case Err(_) => End(s, tx)
          case Ok(t) => End(s, tx).(rows := t, rmas := s.rmas[k := s.rmas[k].(status := to)])
  }

  function Step(s: State, a: Action): State {
    match a
    case BeginBind(tx, child, parent, newID, reason) =>
      (match (CanonicalUnitID(child), CanonicalUnitID(parent))
       case (Some(c), Some(p)) =>
         (match BindWrite(s.rows, c, p, newID, reason)
          case None => s
          case Some(w) => if Clear(s.rmas, [c, p]) then Start(s, tx, [c, p], Bind([w])) else s)
       case _ => s)
    case BeginPurchase(tx, order, lines) =>
      if IsUUID(order) && Fold(order) == order && LinesParse(lines) && Clear(s.rmas, PurchaseUnits(order, lines))
      then Start(s, tx, PurchaseUnits(order, lines),
                 Bind(PurchaseWrites(order, lines, true) + PurchaseWrites(order, lines, false)))
      else s
    case BeginReturn(tx, k, units) =>
      if (forall u :: u in units ==> CanonicalUnitID(u) == Some(u)) && Returnable(s.rows, units)
      then Start(s, tx, units, OpenReturn(k)) else s
    case BeginSettle(tx, k) =>
      if k !in s.rmas then s
      else if s.rmas[k].status == Requested then Start(s, tx, s.rmas[k].units, SettleReturn(k, Requested, Approved))
      else if s.rmas[k].status == Received then Start(s, tx, s.rmas[k].units, SettleReturn(k, Received, Refunded))
      else s
    case Acquire(tx) => s.(locks := L.Step(s.locks, L.Acquire(tx)))
    case Check(tx) => CheckStep(s, tx)
    case Commit(tx) => CommitStep(s, tx)
    case Rollback(tx) => End(s, tx)
    case CloseReturn(k, to) =>
      if k in s.rmas && s.rmas[k].status == Requested && (to == Rejected || to == Cancelled)
      then s.(rmas := s.rmas[k := s.rmas[k].(status := to)]) else s
    case Receive(k) =>
      if k in s.rmas && s.rmas[k].status == Approved
      then s.(rmas := s.rmas[k := s.rmas[k].(status := Received)]) else s
    case RevokeRow(id) =>
      (match Apply(s.rows, Op.Revoke(id)) case Err(_) => s case Ok(t) => s.(rows := t))
    case InsertUnassigned(newID, child) =>
      (match Apply(s.rows, Op.CreateUnassigned(newID, child)) case Err(_) => s case Ok(t) => s.(rows := t))
  }

  /** The states of a run: any actions, in any order. */
  predicate IsRun(trace: seq<State>, acts: seq<Action>) {
    |trace| == |acts| + 1 && forall i :: 0 <= i < |acts| ==> trace[i + 1] == Step(trace[i], acts[i])
  }

  // ---- Invariant ----

  /** No blocking return holds a parent whose live child is outside that return. */
  predicate NoStrandedChild(rows: Table, rmas: map<nat, Return>) {
    forall k :: k in rmas && Blocking(rmas[k]) ==> Returnable(rows, rmas[k].units)
  }

  /** A unit whose return was approved is not bound again. */
  predicate NoReturnedChildBound(rows: Table, rmas: map<nat, Return>) {
    forall k, i :: k in rmas && Settled(rmas[k]) && 0 <= i < |rows| && rows[i].status == Assigned
      ==> rows[i].child !in rmas[k].units
  }

  /** The parent and the child of every bind the write makes are among the units. */
  predicate WriteCovered(t: Table, w: Op, units: seq<string>) {
    match w
    case CreateUnassigned(_, _) => true
    case CreateAssigned(_, p, c, _) => p in units && c in units
    case Assign(id, p, _) => p in units && IndexById(t, id) < |t| && t[IndexById(t, id)].child in units
    case Revoke(_) => false
  }

  predicate WritesCovered(t: Table, writes: seq<Op>, units: seq<string>) {
    forall i :: 0 <= i < |writes| ==> WriteCovered(t, writes[i], units)
  }

  /** The two transitions that revoke bindings: approve and refund. */
  predicate SettleMove(from: ReturnStatus, to: ReturnStatus) {
    (from == Requested && to == Approved) || (from == Received && to == Refunded)
  }

  /** What is known of an unfinished transaction, given its locks. */
  ghost predicate Fits(rows: Table, rmas: map<nat, Return>, h: L.Holder, j: Job) {
    && AllCanonical(j.units)
    && h.want == L.UnitLocks(j.units)
    && (j.checked ==> h.held == |h.want|)
    && (j.checked && j.work.Bind? ==> Clear(rmas, j.units))
    && (j.checked && !j.work.Bind? ==> Returnable(rows, j.units))
    && (j.work.Bind? ==> WritesCovered(rows, j.work.writes, j.units))
    && (j.work.SettleReturn? ==> j.work.ret in rmas && rmas[j.work.ret].units == j.units
                                 && SettleMove(j.work.from, j.work.to))
  }

  ghost predicate JobOk(s: State, tx: nat)
    requires tx in s.jobs && tx in s.locks
  {
    Fits(s.rows, s.rmas, s.locks[tx], s.jobs[tx])
  }

  /** Both ends of a live binding are in canonical spelling. */
  ghost predicate LiveCanonical(rows: Table) {
    forall i :: 0 <= i < |rows| && rows[i].status == Assigned ==> IsCanonical(rows[i].parent) && IsCanonical(rows[i].child)
  }

  /** What is known of the committed rows and returns. */
  ghost predicate DataOk(rows: Table, rmas: map<nat, Return>) {
    && TableInv(rows)
    && (forall k :: k in rmas ==> AllCanonical(rmas[k].units))
    && NoStrandedChild(rows, rmas)
    && NoReturnedChildBound(rows, rmas)
    && LiveCanonical(rows)
  }

  ghost predicate LocksOk(locks: L.Locks) {
    L.Valid(locks) && L.Exclusive(locks)
  }

  ghost predicate Inv(s: State) {
    && DataOk(s.rows, s.rmas)
    && LocksOk(s.locks)
    && s.jobs.Keys == s.locks.Keys
    && (forall tx :: tx in s.jobs ==> JobOk(s, tx))
  }

  /** Every live binding of t' is one of t, or joins two of the units. */
  predicate BoundWithin(t: Table, t': Table, units: seq<string>) {
    forall i :: 0 <= i < |t'| && t'[i].status == Assigned ==>
      t'[i] in t || (t'[i].parent in units && t'[i].child in units)
  }

  /** What a change of the rows by the owner of these units may do. */
  predicate RowsMove(t: Table, t': Table, units: seq<string>) {
    TableInv(t) && TableInv(t') && Later(t, t') && BoundWithin(t, t', units)
  }

  lemma RowsMoveTransitive(a: Table, b: Table, c: Table, units: seq<string>)
    requires RowsMove(a, b, units) && RowsMove(b, c, units)
    ensures RowsMove(a, c, units)
  {
    LaterTransitive(a, b, c);
    forall i | 0 <= i < |c| && c[i].status == Assigned
      ensures c[i] in a || (c[i].parent in units && c[i].child in units)
    {
      if c[i] in b { var j :| 0 <= j < |b| && b[j] == c[i]; }
    }
  }

  /** A row keeps its id and its child, so a write covered before a change is covered after it. */
  lemma CoveredStays(t: Table, t': Table, writes: seq<Op>, units: seq<string>)
    requires TableInv(t) && TableInv(t') && Later(t, t') && WritesCovered(t, writes, units)
    ensures WritesCovered(t', writes, units)
  {
    forall i | 0 <= i < |writes| ensures WriteCovered(t', writes[i], units) {
      assert WriteCovered(t, writes[i], units);
      if writes[i].Assign? {
        RowKept(t, t', writes[i].id);
      }
    }
  }

  lemma RowKept(t: Table, t': Table, id: string)
    requires IdsUnique(t') && Later(t, t') && IndexById(t, id) < |t|
    ensures IndexById(t', id) < |t'| && t'[IndexById(t', id)].child == t[IndexById(t, id)].child
  {
    var j := IndexById(t, id);
    var k := |t'| - |t| + j;
    assert Evolves(t[j], t'[k]);
    IndexByIdIs(t', k);
  }

  lemma ApplyMoves(t: Table, w: Op, units: seq<string>)
    requires TableInv(t) && Apply(t, w).Ok?
    requires w.Revoke? || WriteCovered(t, w, units)
    ensures RowsMove(t, Apply(t, w).value, units)
  {
    ApplyKeeps(t, w);
    var r, i := ApplyWrites(t, w);
    if w.CreateUnassigned? || w.CreateAssigned? {
      PrependBound(t, r, units);
    } else {
      UpdateBound(t, i, r, units);
    }
  }

  lemma PrependBound(t: Table, r: Row, units: seq<string>)
    requires r.status == Assigned ==> r.parent in units && r.child in units
    ensures BoundWithin(t, [r] + t, units)
  {
    var t' := [r] + t;
    assert forall m :: 0 < m < |t'| ==> t'[m] == t[m - 1];
  }

  lemma UpdateBound(t: Table, i: nat, r: Row, units: seq<string>)
    requires i < |t| && (r.status == Assigned ==> r.parent in units && r.child in units)
    ensures BoundWithin(t, t[i := r], units)
  {
    assert forall m :: 0 <= m < |t| && m != i ==> t[i := r][m] == t[m];
  }

  lemma {:induction false} WriteAllMoves(t: Table, writes: seq<Op>, units: seq<string>)
    requires TableInv(t) && WritesCovered(t, writes, units) && WriteAll(t, writes).Ok?
    ensures RowsMove(t, WriteAll(t, writes).value, units)
    decreases |writes|
  {
    if writes != [] {
      var t' := Apply(t, writes[0]).value;
      ApplyMoves(t, writes[0], units);
      CoveredStays(t, t', writes[1..], units);
      WriteAllMoves(t', writes[1..], units);
      RowsMoveTransitive(t, t', WriteAll(t, writes).value, units);
    }
  }

  /** Revoking by unit leaves no current row for any of the units. */
  lemma {:induction false} RevokeUnitsMoves(t: Table, units: seq<string>)
    requires TableInv(t) && RevokeUnits(t, units).Ok?
    ensures RowsMove(t, RevokeUnits(t, units).value, [])
    ensures forall u :: u in units ==> CurrentByChild(RevokeUnits(t, units).value, u).None?
    ensures forall c :: CurrentByChild(t, c).None? ==> CurrentByChild(RevokeUnits(t, units).value, c).None?
    decreases |units|
  {
    if units != [] {
      match CurrentByChild(t, units[0]) {
        case None =>
          RevokeUnitsMoves(t, units[1..]);
        case Some(r) =>
          var t' := Apply(t, Op.Revoke(r.id)).value;
          RevokeClears(t, r);
          ApplyMoves(t, Op.Revoke(r.id), []);
          RevokeUnitsMoves(t', units[1..]);
          RowsMoveTransitive(t, t', RevokeUnits(t, units).value, []);
      }
    }
  }

  lemma RevokeClears(t: Table, r: Row)
    requires TableInv(t) && r in t && Current(r) && Apply(t, Op.Revoke(r.id)).Ok?
    ensures CurrentByChild(Apply(t, Op.Revoke(r.id)).value, r.child).None?
    ensures forall c :: CurrentByChild(t, c).None? ==> CurrentByChild(Apply(t, Op.Revoke(r.id)).value, c).None?
  {
    var j :| 0 <= j < |t| && t[j] == r;
    assert IndexById(t, r.id) == j;
    var t' := Apply(t, Op.Revoke(r.id)).value;
    assert forall i :: 0 <= i < |t'| ==> t'[i] == t[i] || i == j;
    assert t'[j].status == Revoked;
    forall c | CurrentByChild(t, c).None? ensures CurrentByChild(t', c).None? {
      forall x | x in t' && x.child == c ensures !Current(x) {
        var i :| 0 <= i < |t'| && t'[i] == x;
        assert i != j ==> t[i] in t;
      }
    }
    forall x | x in t' && x.child == r.child ensures !Current(x) {
      var i :| 0 <= i < |t'| && t'[i] == x;
    }
  }

  /** Two transactions that hold all their locks share no unit. */
  lemma OwnersDiffer(s: State, a: nat, b: nat, u: string)
    requires Inv(s) && a in s.jobs && b in s.jobs && Holding(s, a) && Holding(s, b)
    requires u in s.jobs[a].units && u in s.jobs[b].units
    ensures a == b
  {
    HoldsUnit(s, a, u);
    HoldsUnit(s, b, u);
  }

  lemma HoldsUnit(s: State, a: nat, u: string)
    requires Inv(s) && a in s.jobs && Holding(s, a) && u in s.jobs[a].units
    ensures L.Holds(s.locks[a], L.Key(L.UNIT_RANK, UNIT_LOCK_PREFIX + u))
  {
    assert JobOk(s, a);
    L.UnitLocksHold(s.jobs[a].units, u);
    var want := s.locks[a].want;
    assert want[..|want|] == want;
  }

  // ---- Every step keeps the invariant ----

  lemma EndKeeps(s: State, tx: nat)
    requires Inv(s)
    ensures Inv(End(s, tx))
  {
    L.StepIsExclusive(s.locks, L.Finish(tx));
    forall t | t in End(s, tx).jobs ensures JobOk(End(s, tx), t) {
      assert JobOk(s, t);
    }
  }

  lemma StartKeeps(s: State, tx: nat, units: seq<string>, work: Work)
    requires Inv(s) && AllCanonical(units)
    requires work.Bind? ==> WritesCovered(s.rows, work.writes, units)
    requires work.SettleReturn? ==> work.ret in s.rmas && s.rmas[work.ret].units == units
                                    && SettleMove(work.from, work.to)
    ensures Inv(Start(s, tx, units, work))
  {
    L.StepIsExclusive(s.locks, L.Begin(tx, L.UnitLocks(units)));
    var s' := Start(s, tx, units, work);
    forall t | t in s'.jobs ensures JobOk(s', t) {
      if t in s.jobs { assert JobOk(s, t); }
    }
  }

  /** The rows change and everything else is as before: allowed to the owner of
      the units, and to nobody in particular when no binding is added. */
  lemma RowsKeep(s: State, t': Table, units: seq<string>)
    requires Inv(s) && RowsMove(s.rows, t', units)
    requires AllCanonical(units) && Clear(s.rmas, units)
    requires forall tx, u :: tx in s.jobs && Holding(s, tx) && u in units ==> u !in s.jobs[tx].units
    ensures Inv(s.(rows := t'))
  {
    var s' := s.(rows := t');
    LiveCanonicalStays(s.rows, t', units);
    forall tx | tx in s'.jobs ensures JobOk(s', tx) {
      assert JobOk(s, tx);
      var j := s.jobs[tx];
      if j.work.Bind? { CoveredStays(s.rows, t', j.work.writes, j.units); }
      if j.checked && !j.work.Bind? { ReturnableStays(s.rows, t', units, j.units); }
    }
    forall k | k in s'.rmas && Blocking(s'.rmas[k]) ensures Returnable(t', s'.rmas[k].units) {
      forall u | u in units ensures u !in s.rmas[k].units { assert !OnBlocking(s.rmas, u); }
      ReturnableStays(s.rows, t', units, s.rmas[k].units);
    }
    forall k, i | k in s'.rmas && Settled(s'.rmas[k]) && 0 <= i < |t'| && t'[i].status == Assigned
      ensures t'[i].child !in s'.rmas[k].units
    {
      if t'[i] in s.rows {
        var m :| 0 <= m < |s.rows| && s.rows[m] == t'[i];
      } else {
        assert !OnBlocking(s.rmas, t'[i].child);
      }
    }
  }

  lemma LiveCanonicalStays(t: Table, t': Table, units: seq<string>)
    requires BoundWithin(t, t', units) && LiveCanonical(t) && AllCanonical(units)
    ensures LiveCanonical(t')
  {
    forall i | 0 <= i < |t'| && t'[i].status == Assigned ensures IsCanonical(t'[i].parent) && IsCanonical(t'[i].child) {
      if t'[i] in t { var m :| 0 <= m < |t| && t[m] == t'[i]; }
    }
  }

  lemma ReturnableStays(t: Table, t': Table, units: seq<string>, others: seq<string>)
    requires BoundWithin(t, t', units) && Returnable(t, others)
    requires forall u :: u in units ==> u !in others
    ensures Returnable(t', others)
  {
    forall i | 0 <= i < |t'| && t'[i].status == Assigned && t'[i].parent in others ensures t'[i].child in others {
      assert t'[i] in t;
      var m :| 0 <= m < |t| && t[m] == t'[i];
    }
  }

  lemma CheckKeeps(s: State, tx: nat)
    requires Inv(s)
    ensures Inv(CheckStep(s, tx))
  {
    EndKeeps(s, tx);
    if tx in s.jobs && Holding(s, tx) {
      var j := s.jobs[tx];
      if (j.work.Bind? && Clear(s.rmas, j.units)) || (!j.work.Bind? && Returnable(s.rows, j.units)) {
        MarkKeeps(s, tx);
      }
    }
  }

  lemma MarkKeeps(s: State, tx: nat)
    requires Inv(s) && tx in s.jobs && Holding(s, tx)
    requires s.jobs[tx].work.Bind? ==> Clear(s.rmas, s.jobs[tx].units)
    requires !s.jobs[tx].work.Bind? ==> Returnable(s.rows, s.jobs[tx].units)
    ensures Inv(s.(jobs := s.jobs[tx := s.jobs[tx].(checked := true)]))
  {
    var s' := s.(jobs := s.jobs[tx := s.jobs[tx].(checked := true)]);
    forall t | t in s'.jobs ensures JobOk(s', t) {
      assert JobOk(s, t);
      if t == tx { FitsMarked(s.rows, s.rmas, s.locks[tx], s.jobs[tx]); }
    }
    assert s'.jobs.Keys == s'.locks.Keys;
  }

  lemma FitsMarked(rows: Table, rmas: map<nat, Return>, h: L.Holder, j: Job)
    requires Fits(rows, rmas, h, j) && h.held == |h.want|
    requires if j.work.Bind? then Clear(rmas, j.units) else Returnable(rows, j.units)
    ensures Fits(rows, rmas, h, j.(checked := true))
  {
  }

  /** No unit of a checked transaction is locked by anyone else. */
  lemma AloneAfterEnd(s: State, tx: nat)
    requires Inv(s) && tx in s.jobs && s.jobs[tx].checked
    ensures forall t, u :: t in End(s, tx).jobs && Holding(End(s, tx), t) && u in s.jobs[tx].units
              ==> u !in End(s, tx).jobs[t].units
  {
    assert JobOk(s, tx);
    var e := End(s, tx);
    forall t, u | t in e.jobs && Holding(e, t) && u in s.jobs[tx].units ensures u !in e.jobs[t].units {
      if u in s.jobs[t].units { OwnersDiffer(s, t, tx, u); }
    }
  }

  lemma CommitBindKeeps(s: State, tx: nat)
    requires Inv(s) && tx in s.jobs && s.jobs[tx].checked && s.jobs[tx].work.Bind?
    ensures Inv(CommitStep(s, tx))
  {
    assert JobOk(s, tx);
    EndKeeps(s, tx);
    var j := s.jobs[tx];
    if WriteAll(s.rows, j.work.writes).Ok? {
      WriteAllMoves(s.rows, j.work.writes, j.units);
      AloneAfterEnd(s, tx);
      RowsKeep(End(s, tx), WriteAll(s.rows, j.work.writes).value, j.units);
    }
  }

  lemma CommitOpenKeeps(s: State, tx: nat)
    requires Inv(s) && tx in s.jobs && s.jobs[tx].checked && s.jobs[tx].work.OpenReturn?
    ensures Inv(CommitStep(s, tx))
  {
    assert JobOk(s, tx);
    EndKeeps(s, tx);
    AloneAfterEnd(s, tx);
    var e, j := End(s, tx), s.jobs[tx];
    if j.work.ret !in s.rmas {
      ReturnOpens(e, j.work.ret, j.units);
    }
  }

  lemma ReturnOpens(s: State, k: nat, units: seq<string>)
    requires Inv(s) && k !in s.rmas && AllCanonical(units) && Returnable(s.rows, units)
    requires forall t, u :: t in s.jobs && Holding(s, t) && u in units ==> u !in s.jobs[t].units
    ensures Inv(s.(rmas := s.rmas[k := Return(units, Requested)]))
  {
    var r := Return(units, Requested);
    var s' := s.(rmas := s.rmas[k := r]);
    DataOpens(s.rows, s.rmas, k, units);
    forall t | t in s'.jobs ensures JobOk(s', t) {
      assert JobOk(s, t);
      var j := s.jobs[t];
      if j.checked && j.work.Bind? {
        assert Holding(s, t);
        forall u | u in j.units ensures u !in units {}
        ClearStays(s.rmas, k, r, j.units);
      }
    }
  }

  lemma DataOpens(rows: Table, rmas: map<nat, Return>, k: nat, units: seq<string>)
    requires DataOk(rows, rmas) && k !in rmas && AllCanonical(units) && Returnable(rows, units)
    ensures DataOk(rows, rmas[k := Return(units, Requested)])
  {
  }

  lemma ClearStays(rmas: map<nat, Return>, k: nat, r: Return, units: seq<string>)
    requires Clear(rmas, units)
    requires forall u :: u in units ==> Blocking(r) && u in r.units ==> k in rmas && Blocking(rmas[k]) && u in rmas[k].units
    ensures Clear(rmas[k := r], units)
  {
    forall u | u in units ensures !OnBlocking(rmas[k := r], u) {
      assert !OnBlocking(rmas, u);
    }
  }

  /** A change of status that frees units, or keeps them blocked. */
  lemma StatusKeeps(s: State, k: nat, to: ReturnStatus)
    requires Inv(s) && k in s.rmas && (Blocking(Return([], to)) ==> Blocking(s.rmas[k]))
    requires Settled(Return([], to)) ==> forall i :: 0 <= i < |s.rows| && s.rows[i].status == Assigned ==> s.rows[i].child !in s.rmas[k].units
    ensures Inv(s.(rmas := s.rmas[k := s.rmas[k].(status := to)]))
  {
    var s' := s.(rmas := s.rmas[k := s.rmas[k].(status := to)]);
    forall t | t in s'.jobs ensures JobOk(s', t) {
      assert JobOk(s, t);
      if s.jobs[t].checked && s.jobs[t].work.Bind? {
        ClearStays(s.rmas, k, s.rmas[k].(status := to), s.jobs[t].units);
      }
    }
  }

  lemma CommitSettleKeeps(s: State, tx: nat)
    requires Inv(s) && tx in s.jobs && s.jobs[tx].checked && s.jobs[tx].work.SettleReturn?
    ensures Inv(CommitStep(s, tx))
  {
    assert JobOk(s, tx);
    EndKeeps(s, tx);
    var e, j := End(s, tx), s.jobs[tx];
    var k := j.work.ret;
    if s.rmas[k].status == j.work.from && RevokeUnits(s.rows, j.units).Ok? {
      var t := RevokeUnits(s.rows, j.units).value;
      RevokeUnitsMoves(s.rows, j.units);
      RowsKeep(e, t, []);
      forall i | 0 <= i < |t| && t[i].status == Assigned ensures t[i].child !in j.units {
        assert t[i] in t;
        assert CurrentByChild(t, t[i].child).Some?;
      }
      StatusKeeps(e.(rows := t), k, j.work.to);
    }
  }

  /** The row read before locking keeps its child, so the write that was decided on stays covered. */
  lemma BindWriteCovered(t: Table, c: string, p: string, newID: string, reason: string)
    requires TableInv(t) && BindWrite(t, c, p, newID, reason).Some?
    ensures WritesCovered(t, [BindWrite(t, c, p, newID, reason).value], [c, p])
  {
    match CurrentByChild(t, c) {
      case None =>
      case Some(r) =>
        var i :| 0 <= i < |t| && t[i] == r;
        assert IndexById(t, r.id) == i;
    }
  }

  lemma BeginBindKeeps(s: State, tx: nat, child: string, parent: string, newID: string, reason: string)
    requires Inv(s)
    ensures Inv(Step(s, BeginBind(tx, child, parent, newID, reason)))
  {
    if CanonicalUnitID(child).Some? && CanonicalUnitID(parent).Some? {
      var c, p := CanonicalUnitID(child).value, CanonicalUnitID(parent).value;
      CanonicalIsFixed(child);
      CanonicalIsFixed(parent);
      match BindWrite(s.rows, c, p, newID, reason) {
        case None =>
        case Some(w) =>
          BindWriteCovered(s.rows, c, p, newID, reason);
          StartKeeps(s, tx, [c, p], Bind([w]));
      }
    }
  }

  lemma {:induction false} PurchaseCovered(t: Table, order: string, lines: seq<PurchaseLine>, bound: bool)
    requires IsUUID(order) && Fold(order) == order && LinesParse(lines)
    ensures AllCanonical(PurchaseUnits(order, lines))
    ensures WritesCovered(t, PurchaseWrites(order, lines, bound), PurchaseUnits(order, lines))
  {
    if lines != [] {
      var l := lines[0];
      PurchaseCovered(t, order, lines[1..], bound);
      var units, writes := PurchaseUnits(order, lines), PurchaseWrites(order, lines, bound);
      var rest := PurchaseWrites(order, lines[1..], bound);
      LineUnitIsCanonical(order, l.variant);
      if Trim(l.parentUnit) != "" {
        CanonicalIsFixed(l.parentUnit);
      }
      forall i | 0 <= i < |writes| ensures WriteCovered(t, writes[i], units) {
        if |writes| == |rest| {
          assert WriteCovered(t, rest[i], PurchaseUnits(order, lines[1..]));
        } else if i > 0 {
          assert WriteCovered(t, rest[i - 1], PurchaseUnits(order, lines[1..]));
        }
      }
    }
  }

  lemma BeginPurchaseKeeps(s: State, tx: nat, order: string, lines: seq<PurchaseLine>)
    requires Inv(s)
    ensures Inv(Step(s, BeginPurchase(tx, order, lines)))
  {
    if IsUUID(order) && Fold(order) == order && LinesParse(lines) {
      PurchaseCovered(s.rows, order, lines, true);
      PurchaseCovered(s.rows, order, lines, false);
      StartKeeps(s, tx, PurchaseUnits(order, lines),
                 Bind(PurchaseWrites(order, lines, true) + PurchaseWrites(order, lines, false)));
    }
  }

  lemma AcquireKeeps(s: State, tx: nat)
    requires Inv(s)
    ensures Inv(s.(locks := L.Step(s.locks, L.Acquire(tx))))
  {
    var locks := L.Step(s.locks, L.Acquire(tx));
    assert LocksOk(locks) by { L.StepIsExclusive(s.locks, L.Acquire(tx)); }
    if L.CanAcquire(s.locks, tx) {
      assert JobOk(s, tx);
      FitsAcquired(s.rows, s.rmas, s.locks[tx], s.jobs[tx]);
    }
    HoldersKeep(s, locks);
  }

  lemma HoldersKeep(s: State, locks: L.Locks)
    requires Inv(s) && LocksOk(locks) && locks.Keys == s.locks.Keys
    requires forall t :: t in s.jobs ==> t in locks && (locks[t] == s.locks[t] || Fits(s.rows, s.rmas, locks[t], s.jobs[t]))
    ensures Inv(s.(locks := locks))
  {
    var s' := s.(locks := locks);
    forall t | t in s'.jobs ensures JobOk(s', t) { assert JobOk(s, t); }
  }

  lemma FitsAcquired(rows: Table, rmas: map<nat, Return>, h: L.Holder, j: Job)
    requires Fits(rows, rmas, h, j) && h.held < |h.want|
    ensures Fits(rows, rmas, h.(held := h.held + 1), j)
  {
  }

  lemma FreeRowsKeep(s: State, w: Op)
    requires Inv(s) && (w.Revoke? || w.CreateUnassigned?) && Apply(s.rows, w).Ok?
    ensures Inv(s.(rows := Apply(s.rows, w).value))
  {
    ApplyMoves(s.rows, w, []);
    RowsKeep(s, Apply(s.rows, w).value, []);
  }

  lemma CommitKeeps(s: State, tx: nat)
    requires Inv(s)
    ensures Inv(CommitStep(s, tx))
  {
    if tx in s.jobs && s.jobs[tx].checked {
      match s.jobs[tx].work {
        case Bind(_) => CommitBindKeeps(s, tx);
        case OpenReturn(_) => CommitOpenKeeps(s, tx);
        case SettleReturn(_, _, _) => CommitSettleKeeps(s, tx);
      }
    }
  }

  lemma BeginReturnKeeps(s: State, tx: nat, k: nat, units: seq<string>)
    requires Inv(s)
    ensures Inv(Step(s, BeginReturn(tx, k, units)))
  {
    if forall u :: u in units ==> CanonicalUnitID(u) == Some(u) { StartKeeps(s, tx, units, OpenReturn(k)); }
  }

  lemma CloseKeeps(s: State, k: nat, to: ReturnStatus)
    requires Inv(s)
    ensures Inv(Step(s, CloseReturn(k, to)))
  {
    if Step(s, CloseReturn(k, to)) != s { StatusKeeps(s, k, to); }
  }

  lemma ReceiveKeeps(s: State, k: nat)
    requires Inv(s)
    ensures Inv(Step(s, Receive(k)))
  {
    if k in s.rmas && s.rmas[k].status == Approved { StatusKeeps(s, k, Received); }
  }

  lemma BeginSettleKeeps(s: State, tx: nat, k: nat)
    requires Inv(s)
    ensures Inv(Step(s, BeginSettle(tx, k)))
  {
    if k in s.rmas {
      if s.rmas[k].status == Requested {
        StartKeeps(s, tx, s.rmas[k].units, SettleReturn(k, Requested, Approved));
      } else if s.rmas[k].status == Received {
        StartKeeps(s, tx, s.rmas[k].units, SettleReturn(k, Received, Refunded));
      }
    }
  }

  lemma StepKeeps(s: State, a: Action)
    requires Inv(s)
    ensures Inv(Step(s, a))
  {
    match a {
      case BeginBind(tx, child, parent, newID, reason) => BeginBindKeeps(s, tx, child, parent, newID, reason);
      case BeginPurchase(tx, order, lines) => BeginPurchaseKeeps(s, tx, order, lines);
      case BeginReturn(tx, k, units) => BeginReturnKeeps(s, tx, k, units);
      case BeginSettle(tx, k) => BeginSettleKeeps(s, tx, k);
      case Acquire(tx) => AcquireKeeps(s, tx);
      case Check(tx) => CheckKeeps(s, tx);
      case Commit(tx) => CommitKeeps(s, tx);
      case Rollback(tx) => EndKeeps(s, tx);
      case CloseReturn(k, to) => CloseKeeps(s, k, to);
      case Receive(k) => ReceiveKeeps(s, k);
      case RevokeRow(id) => if Apply(s.rows, Op.Revoke(id)).Ok? { FreeRowsKeep(s, Op.Revoke(id)); }
      case InsertUnassigned(newID, child) =>
        if Apply(s.rows, Op.CreateUnassigned(newID, child)).Ok? { FreeRowsKeep(s, Op.CreateUnassigned(newID, child)); }
    }
  }

  // ---- Theorems over every interleaving ----

  lemma {:induction false} RunKeeps(trace: seq<State>, acts: seq<Action>, n: nat)
    requires IsRun(trace, acts) && Inv(trace[0]) && n < |trace|
    ensures Inv(trace[n])
  {
    if n > 0 {
      RunKeeps(trace, acts, n - 1);
      StepKeeps(trace[n - 1], acts[n - 1]);
      assert trace[n - 1 + 1] == Step(trace[n - 1], acts[n - 1]);
    }
  }

  /** Whatever binds, purchases, returns, revokes and rollbacks are interleaved, and in
      whatever order: no blocking return holds a parent unit that has a live child outside
      that return, no unit of an approved return is bound again, and no child unit has two
      current rows. */
  lemma BindsAndReturnsAgree(trace: seq<State>, acts: seq<Action>, n: nat)
    requires IsRun(trace, acts) && trace[0] == EMPTY && n < |trace|
    ensures NoStrandedChild(trace[n].rows, trace[n].rmas)
    ensures NoReturnedChildBound(trace[n].rows, trace[n].rmas)
    ensures TableInv(trace[n].rows)
  {
    RunKeeps(trace, acts, n);
  }

  // ---- An opened return holds its units ----

  /** The return has these units and has not been rejected or cancelled. */
  predicate Holds(rmas: map<nat, Return>, k: nat, units: seq<string>) {
    && k in rmas && rmas[k].units == units
    && (rmas[k].status == Requested || rmas[k].status == Approved || rmas[k].status == Received || rmas[k].status == Refunded)
  }

  /** The action commits a checked transaction that opens return k, which is new, on these units. */
  predicate Opens(s: State, a: Action, k: nat, units: seq<string>) {
    a.Commit? && a.tx in s.jobs && s.jobs[a.tx].checked && s.jobs[a.tx].work == OpenReturn(k)
    && s.jobs[a.tx].units == units && k !in s.rmas
  }

  predicate Closes(a: Action, k: nat) {
    a.CloseReturn? && a.ret == k
  }

  lemma OpensHolds(s: State, a: Action, k: nat, units: seq<string>)
    requires Opens(s, a, k, units)
    ensures Holds(Step(s, a).rmas, k, units)
  {
  }

  lemma RmasOfStep(s: State, a: Action)
    ensures Step(s, a).rmas == match a
              case Commit(tx) => CommitStep(s, tx).rmas
              case CloseReturn(k, to) =>
                if k in s.rmas && s.rmas[k].status == Requested && (to == Rejected || to == Cancelled)
                then s.rmas[k := s.rmas[k].(status := to)] else s.rmas
              case Receive(k) =>
                if k in s.rmas && s.rmas[k].status == Approved then s.rmas[k := s.rmas[k].(status := Received)] else s.rmas
              case _ => s.rmas
  {
    hide Apply, CommitStep, Returnable, Clear, BindWrite, CanonicalUnitID, PurchaseUnits, PurchaseWrites, LinesParse, L.Step;
  }

  lemma HoldsStep(s: State, a: Action, k: nat, units: seq<string>)
    requires Inv(s) && Holds(s.rmas, k, units) && !Closes(a, k)
    ensures Holds(Step(s, a).rmas, k, units)
  {
    hide Step, Inv, CommitStep;
    RmasOfStep(s, a);
    if a.Commit? { CommitHolds(s, a.tx, k, units); }
  }

  lemma Reached(trace: seq<State>, acts: seq<Action>, n: nat)
    requires IsRun(trace, acts) && trace[0] == EMPTY && n < |trace|
    ensures Inv(trace[n])
  {
    RunKeeps(trace, acts, n);
  }

  lemma SettleJob(s: State, tx: nat)
    requires Inv(s) && tx in s.jobs && s.jobs[tx].work.SettleReturn?
    ensures var w := s.jobs[tx].work; w.ret in s.rmas && s.rmas[w.ret].units == s.jobs[tx].units && SettleMove(w.from, w.to)
  {
    assert JobOk(s, tx);
  }

  lemma CommitHolds(s: State, tx: nat, k: nat, units: seq<string>)
    requires Inv(s) && Holds(s.rmas, k, units)
    ensures Holds(CommitStep(s, tx).rmas, k, units)
  {
    hide Inv, RevokeUnits, WriteAll, L.Step;
    if tx in s.jobs && s.jobs[tx].work.SettleReturn? { SettleJob(s, tx); }
  }

  lemma HoldsBlocks(rmas: map<nat, Return>, k: nat, units: seq<string>)
    requires Holds(rmas, k, units)
    ensures forall u :: u in units ==> OnBlocking(rmas, u)
  {
  }

  /** From its commit on, whatever happens, an opened return holds exactly its units, each of them
      blocked, until it is closed. */
  lemma {:induction false} OpenedReturnBlocks(trace: seq<State>, acts: seq<Action>, m: nat, n: nat, k: nat, units: seq<string>)
    requires IsRun(trace, acts) && trace[0] == EMPTY && m < n < |trace| && Opens(trace[m], acts[m], k, units)
    requires forall i :: m < i < n ==> !Closes(acts[i], k)
    ensures Holds(trace[n].rmas, k, units) && forall u :: u in units ==> OnBlocking(trace[n].rmas, u)
    decreases n
  {
    hide Inv, Step, Holds, Opens, Closes, OnBlocking;
    assert trace[n - 1 + 1] == Step(trace[n - 1], acts[n - 1]);
    if m == n - 1 {
      OpensHolds(trace[m], acts[m], k, units);
    } else {
      OpenedReturnBlocks(trace, acts, m, n - 1, k, units);
      RunKeeps(trace, acts, n - 1);
      HoldsStep(trace[n - 1], acts[n - 1], k, units);
    }
    HoldsBlocks(trace[n].rmas, k, units);
  }

  /** The live rows of t' with an end among the units are live rows of t. */
  predicate NoneAdded(t: Table, t': Table, units: seq<string>) {
    forall r :: r in t' && r.status == Assigned && (r.parent in units || r.child in units) ==> r in t
  }

  /** What a step does to the rows: only units off every blocking return are bound. */
  lemma StepBinds(s: State, a: Action) returns (bound: seq<string>)
    requires Inv(s)
    ensures Clear(s.rmas, bound) && RowsMove(s.rows, Step(s, a).rows, bound)
  {
    hide RowsMove, DataOk, LocksOk, Returnable, Clear, BindWrite, CanonicalUnitID, PurchaseUnits, PurchaseWrites, LinesParse, L.Step, Apply,
         WritesCovered, BoundWithin, TableInv, RevokeUnits, WriteAll, Step;
    bound := [];
    NothingClear(s.rmas);
    DataHas(s);
    NothingBound(s.rows);
    RowsOfStep(s, a);
    match a {
      case Commit(tx) => if tx in s.jobs && s.jobs[tx].checked { bound := CommitBinds(s, tx); }
      case RevokeRow(id) => if Apply(s.rows, Op.Revoke(id)).Ok? { ApplyMoves(s.rows, Op.Revoke(id), []); }
      case InsertUnassigned(newID, child) =>
        if Apply(s.rows, Op.CreateUnassigned(newID, child)).Ok? { FreeMoves(s.rows, newID, child); }
      case _ =>
    }
  }

  lemma NothingClear(rmas: map<nat, Return>)
    ensures Clear(rmas, [])
  {
  }

  lemma NothingBound(t: Table)
    requires TableInv(t)
    ensures RowsMove(t, t, [])
  {
  }

  lemma DataHas(s: State)
    requires Inv(s)
    ensures TableInv(s.rows)
  {
  }

  lemma FreeMoves(t: Table, newID: string, child: string)
    requires TableInv(t) && Apply(t, Op.CreateUnassigned(newID, child)).Ok?
    ensures RowsMove(t, Apply(t, Op.CreateUnassigned(newID, child)).value, [])
  {
    ApplyMoves(t, Op.CreateUnassigned(newID, child), []);
  }

  lemma RowsOfStep(s: State, a: Action)
    ensures Step(s, a).rows == match a
              case Commit(tx) => CommitStep(s, tx).rows
              case RevokeRow(id) => (match Apply(s.rows, Op.Revoke(id)) case Err(_) => s.rows case Ok(t) => t)
              case InsertUnassigned(newID, child) =>
                (match Apply(s.rows, Op.CreateUnassigned(newID, child)) case Err(_) => s.rows case Ok(t) => t)
              case _ => s.rows
  {
    hide Apply, CommitStep, Returnable, Clear, BindWrite, CanonicalUnitID, PurchaseUnits, PurchaseWrites, LinesParse, L.Step;
  }

  lemma BindJob(s: State, tx: nat)
    requires Inv(s) && tx in s.jobs && s.jobs[tx].work.Bind?
    ensures WritesCovered(s.rows, s.jobs[tx].work.writes, s.jobs[tx].units)
    ensures s.jobs[tx].checked ==> Clear(s.rmas, s.jobs[tx].units)
  {
    assert JobOk(s, tx);
  }

  lemma CommitBinds(s: State, tx: nat) returns (bound: seq<string>)
    requires Inv(s) && tx in s.jobs && s.jobs[tx].checked
    ensures Clear(s.rmas, bound) && RowsMove(s.rows, CommitStep(s, tx).rows, bound)
  {
    hide Inv, Apply, Clear, L.Step, TableInv, RowsMove, WritesCovered, WriteAll, RevokeUnits;
    bound := [];
    NothingClear(s.rmas);
    DataHas(s);
    NothingBound(s.rows);
    var j := s.jobs[tx];
    if j.work.Bind? {
      BindJob(s, tx);
      if WriteAll(s.rows, j.work.writes).Ok? {
        WriteAllMoves(s.rows, j.work.writes, j.units);
        bound := j.units;
      }
    } else if j.work.SettleReturn? {
      if RevokeUnits(s.rows, j.units).Ok? { RevokeUnitsMoves(s.rows, j.units); }
    }
  }

  lemma NoneAddedStep(s: State, s': State, bound: seq<string>, k: nat, units: seq<string>)
    requires Holds(s.rmas, k, units) && Clear(s.rmas, bound) && BoundWithin(s.rows, s'.rows, bound)
    ensures NoneAdded(s.rows, s'.rows, units)
  {
    HoldsBlocks(s.rmas, k, units);
    assert forall u :: u in bound ==> u !in units;
    forall r | r in s'.rows && r.status == Assigned && (r.parent in units || r.child in units) ensures r in s.rows {
      var i :| 0 <= i < |s'.rows| && s'.rows[i] == r;
    }
  }

  /** While a return is open, no bind, purchase or anything else adds a live row whose parent or
      child is one of its units. */
  lemma {:induction false} OpenedReturnStopsBinds(trace: seq<State>, acts: seq<Action>, m: nat, n: nat, k: nat, units: seq<string>)
    requires IsRun(trace, acts) && trace[0] == EMPTY && m < n < |trace| && Opens(trace[m], acts[m], k, units)
    requires forall i :: m < i < n - 1 ==> !Closes(acts[i], k)
    ensures forall r :: r in trace[n].rows && r.status == Assigned && (r.parent in units || r.child in units) ==> r in trace[m].rows
    decreases n
  {
    hide Inv, Step, Holds, Opens, Closes, BoundWithin, Clear;
    assert trace[n - 1 + 1] == Step(trace[n - 1], acts[n - 1]);
    if m == n - 1 {
      OpeningBindsNothing(trace[m], acts[m], k, units);
    } else {
      OpenedReturnStopsBinds(trace, acts, m, n - 1, k, units);
      OpenedReturnBlocks(trace, acts, m, n - 1, k, units);
      RunKeeps(trace, acts, n - 1);
      var bound := StepBinds(trace[n - 1], acts[n - 1]);
      NoneAddedStep(trace[n - 1], trace[n], bound, k, units);
    }
  }

  lemma OpeningBindsNothing(s: State, a: Action, k: nat, units: seq<string>)
    requires Opens(s, a, k, units)
    ensures Step(s, a).rows == s.rows
  {
  }

  /** A unit is blocked exactly by the returns that hold it. */
  lemma BlockedIff(rmas: map<nat, Return>, u: string)
    ensures OnBlocking(rmas, u) <==> exists k: nat :: k in rmas && Holds(rmas, k, rmas[k].units) && u in rmas[k].units
  {
    if OnBlocking(rmas, u) {
      var k :| k in rmas && Blocking(rmas[k]) && u in rmas[k].units;
      assert Holds(rmas, k, rmas[k].units);
    }
  }

  /** Rejecting or cancelling a requested return frees its units, and it is never taken up again. */
  lemma {:induction false} ClosedReturnStays(trace: seq<State>, acts: seq<Action>, m: nat, n: nat, k: nat, to: ReturnStatus)
    requires IsRun(trace, acts) && trace[0] == EMPTY && m < n < |trace| && acts[m] == CloseReturn(k, to) && (to == Rejected || to == Cancelled)
    requires k in trace[m].rmas && trace[m].rmas[k].status == Requested
    ensures k in trace[n].rmas && trace[n].rmas[k].status == to
    decreases n
  {
    hide Inv, Step;
    assert trace[n - 1 + 1] == Step(trace[n - 1], acts[n - 1]);
    if m == n - 1 {
      CloseTakesEffect(trace[m], k, to);
    } else {
      ClosedReturnStays(trace, acts, m, n - 1, k, to);
      RunKeeps(trace, acts, n - 1);
      ClosedStep(trace[n - 1], acts[n - 1], k, to);
    }
  }

  lemma CloseTakesEffect(s: State, k: nat, to: ReturnStatus)
    requires k in s.rmas && s.rmas[k].status == Requested && (to == Rejected || to == Cancelled)
    ensures k in Step(s, CloseReturn(k, to)).rmas && Step(s, CloseReturn(k, to)).rmas[k].status == to
  {
  }

  lemma ClosedStep(s: State, a: Action, k: nat, to: ReturnStatus)
    requires Inv(s) && k in s.rmas && s.rmas[k].status == to && (to == Rejected || to == Cancelled)
    ensures k in Step(s, a).rmas && Step(s, a).rmas[k].status == to
  {
    hide Step, Inv, CommitStep;
    RmasOfStep(s, a);
    if a.Commit? { CommitLeavesClosed(s, a.tx, k, to); }
  }

  lemma CommitLeavesClosed(s: State, tx: nat, k: nat, to: ReturnStatus)
    requires Inv(s) && k in s.rmas && s.rmas[k].status == to && (to == Rejected || to == Cancelled)
    ensures k in CommitStep(s, tx).rmas && CommitStep(s, tx).rmas[k].status == to
  {
    hide Inv, RevokeUnits, WriteAll, L.Step;
    if tx in s.jobs && s.jobs[tx].work.SettleReturn? { SettleJob(s, tx); }
  }

  // ---- What a bind and a settlement do in the end ----

  /** An unfinished transaction keeps its units and its work. */
  lemma JobStep(s: State, a: Action, tx: nat)
    requires tx in s.jobs && tx in Step(s, a).jobs
    ensures Step(s, a).jobs[tx].units == s.jobs[tx].units && Step(s, a).jobs[tx].work == s.jobs[tx].work
  {
    hide Apply, Returnable, Clear, BindWrite, CanonicalUnitID, PurchaseUnits, PurchaseWrites, LinesParse, L.Step, RevokeUnits, WriteAll;
  }

  lemma {:induction false} JobStays(trace: seq<State>, acts: seq<Action>, m: nat, n: nat, tx: nat)
    requires IsRun(trace, acts) && trace[0] == EMPTY && m <= n < |trace| && forall i :: m <= i <= n ==> tx in trace[i].jobs
    ensures trace[n].jobs[tx].units == trace[m].jobs[tx].units && trace[n].jobs[tx].work == trace[m].jobs[tx].work
    ensures TableInv(trace[m].rows) && TableInv(trace[n].rows) && Later(trace[m].rows, trace[n].rows)
    decreases n
  {
    hide Inv, Step, TableInv, Later, BoundWithin, Clear;
    Reached(trace, acts, n);
    DataHas(trace[n]);
    if m < n {
      JobStays(trace, acts, m, n - 1, tx);
      assert trace[n - 1 + 1] == Step(trace[n - 1], acts[n - 1]);
      JobStep(trace[n - 1], acts[n - 1], tx);
      Reached(trace, acts, n - 1);
      var bound := StepBinds(trace[n - 1], acts[n - 1]);
      LaterTransitive(trace[m].rows, trace[n - 1].rows, trace[n].rows);
    } else {
      NothingBound(trace[n].rows);
    }
  }

  lemma BeginStarts(s: State, tx: nat, child: string, parent: string, newID: string, reason: string)
    requires tx !in s.jobs && tx in Step(s, BeginBind(tx, child, parent, newID, reason)).jobs
    ensures CanonicalUnitID(child).Some? && CanonicalUnitID(parent).Some?
    ensures var c, p := CanonicalUnitID(child).value, CanonicalUnitID(parent).value;
            BindWrite(s.rows, c, p, newID, reason).Some? &&
            Step(s, BeginBind(tx, child, parent, newID, reason)).jobs[tx] == Job([c, p], Bind([BindWrite(s.rows, c, p, newID, reason).value]), false)
  {
    hide CanonicalUnitID, BindWrite, Clear, L.Step;
  }

  /** The rows of t' are those of t, except for one row that binds this child to this parent. */
  predicate BindsOne(t: Table, t': Table, c: string, p: string) {
    && (exists r :: r in t' && r.status == Assigned && r.child == c && r.parent == p)
    && (forall r :: r in t' && r !in t ==> r.status == Assigned && r.child == c && r.parent == p)
    && (forall r :: r in t && r.status == Assigned ==> r in t')
  }

  lemma OneWriteBinds(t0: Table, t: Table, c: string, p: string, newID: string, reason: string)
    requires TableInv(t0) && TableInv(t) && Later(t0, t) && BindWrite(t0, c, p, newID, reason).Some?
    requires WriteAll(t, [BindWrite(t0, c, p, newID, reason).value]).Ok?
    ensures BindsOne(t, WriteAll(t, [BindWrite(t0, c, p, newID, reason).value]).value, c, p)
  {
    hide Apply, TableInv, Later;
    var w := BindWrite(t0, c, p, newID, reason).value;
    assert [w][1..] == [];
    var t' := Apply(t, w).value;
    assert WriteAll(t, [w]).value == t';
    var r, i := ApplyWrites(t, w);
    if w.CreateAssigned? {
      assert t'[0] == r && forall j :: 0 < j < |t'| ==> t'[j] == t[j - 1];
      assert forall j :: 0 <= j < |t| ==> t'[j + 1] == t[j];
    } else {
      WriteNames(t0, c, p, newID, reason);
      KeptChild(t0, t, w.id);
      assert t'[i] == r && forall j :: 0 <= j < |t| && j != i ==> t'[j] == t[j];
    }
  }

  lemma WriteNames(t0: Table, c: string, p: string, newID: string, reason: string)
    requires TableInv(t0) && BindWrite(t0, c, p, newID, reason).Some? && BindWrite(t0, c, p, newID, reason).value.Assign?
    ensures var w := BindWrite(t0, c, p, newID, reason).value;
            w.parent == p && IndexById(t0, w.id) < |t0| && t0[IndexById(t0, w.id)].child == c
  {
    var r := CurrentByChild(t0, c).value;
    var i :| 0 <= i < |t0| && t0[i] == r;
    IndexByIdIs(t0, i);
  }

  lemma KeptChild(t0: Table, t: Table, id: string)
    requires TableInv(t) && Later(t0, t) && IndexById(t0, id) < |t0|
    ensures IndexById(t, id) < |t| && t[IndexById(t, id)].child == t0[IndexById(t0, id)].child
  {
    RowKept(t0, t, id);
  }

  /** A bind that was begun for a child and a parent, in any spelling, and whose commit writes, has
      bound exactly this child to exactly this parent, whatever ran in between. */
  lemma BegunBindBinds(trace: seq<State>, acts: seq<Action>, m: nat, n: nat, tx: nat, child: string, parent: string, newID: string, reason: string)
    requires IsRun(trace, acts) && trace[0] == EMPTY && m < n < |acts|
    requires acts[m] == BeginBind(tx, child, parent, newID, reason) && tx !in trace[m].jobs && acts[n] == Commit(tx)
    requires (forall i :: m < i <= n ==> tx in trace[i].jobs) && trace[n + 1].rows != trace[n].rows
    ensures CanonicalUnitID(child).Some? && CanonicalUnitID(parent).Some?
    ensures BindsOne(trace[n].rows, trace[n + 1].rows, CanonicalUnitID(child).value, CanonicalUnitID(parent).value)
  {
    hide Inv, Step, BindsOne, CanonicalUnitID, BindWrite, TableInv, Later, CommitStep;
    assert trace[m + 1] == Step(trace[m], acts[m]) && trace[n + 1] == Step(trace[n], acts[n]);
    BeginStarts(trace[m], tx, child, parent, newID, reason);
    JobStays(trace, acts, m + 1, n, tx);
    BeginLeavesRows(trace[m], tx, child, parent, newID, reason);
    var c, p := CanonicalUnitID(child).value, CanonicalUnitID(parent).value;
    CommitOutcome(trace[n], tx);
    OneWriteBinds(trace[m].rows, trace[n].rows, c, p, newID, reason);
  }

  lemma BeginLeavesRows(s: State, tx: nat, child: string, parent: string, newID: string, reason: string)
    ensures Step(s, BeginBind(tx, child, parent, newID, reason)).rows == s.rows
  {
    hide CanonicalUnitID, BindWrite, Clear, L.Step;
  }

  lemma CommitOutcome(s: State, tx: nat)
    requires tx in s.jobs && s.jobs[tx].work.Bind? && Step(s, Commit(tx)).rows != s.rows
    ensures WriteAll(s.rows, s.jobs[tx].work.writes).Ok?
    ensures Step(s, Commit(tx)).rows == WriteAll(s.rows, s.jobs[tx].work.writes).value
  {
  }

  lemma {:induction false} RevokeUnitsSucceeds(t: Table, units: seq<string>)
    requires TableInv(t) && UuidRows(t)
    ensures RevokeUnits(t, units).Ok?
    decreases |units|
  {
    hide UuidRows, TableInv, Apply;
    if units != [] {
      match CurrentByChild(t, units[0]) {
        case None => RevokeUnitsSucceeds(t, units[1..]);
        case Some(r) =>
          RevokeSucceeds(t, r);
          RevokeUnitsSucceeds(Apply(t, Op.Revoke(r.id)).value, units[1..]);
      }
    }
  }

  lemma RevokeSucceeds(t: Table, r: Row)
    requires TableInv(t) && UuidRows(t) && r in t
    ensures Apply(t, Op.Revoke(r.id)).Ok? && TableInv(Apply(t, Op.Revoke(r.id)).value) && UuidRows(Apply(t, Op.Revoke(r.id)).value)
  {
    hide IsUUID, TableInv;
    var i := RevokeApplies(t, r);
    ApplyKeeps(t, Op.Revoke(r.id));
    assert forall j :: 0 <= j < |t| ==> t[i := t[i].(status := Revoked)][j].id == t[j].id;
  }

  lemma RevokeApplies(t: Table, r: Row) returns (i: nat)
    requires TableInv(t) && UuidRows(t) && r in t
    ensures i < |t| && Apply(t, Op.Revoke(r.id)) == Ok(t[i := t[i].(status := Revoked)])
  {
    hide IsUUID;
    i :| 0 <= i < |t| && t[i] == r;
    IndexByIdIs(t, i);
    assert ValidRow(t[i]) && IsUUID(t[i].id);
    assert t[i].status == Revoked ==> t[i := t[i].(status := Revoked)] == t;
  }

  /** The commit of a checked approval or refund, for a return still in the status it was begun in,
      leaves no current row for any unit of the return and moves it on: requested to approved,
      received to refunded. */
  lemma SettlementSettles(trace: seq<State>, acts: seq<Action>, n: nat, tx: nat)
    requires IsRun(trace, acts) && trace[0] == EMPTY && n < |acts| && acts[n] == Commit(tx) && UuidRows(trace[n].rows)
    requires tx in trace[n].jobs && trace[n].jobs[tx].checked && trace[n].jobs[tx].work.SettleReturn?
    requires var w := trace[n].jobs[tx].work; w.ret in trace[n].rmas && trace[n].rmas[w.ret].status == w.from
    ensures var w, before := trace[n].jobs[tx].work, trace[n].rmas;
            && w.ret in trace[n + 1].rmas && trace[n + 1].rmas[w.ret].units == before[w.ret].units
            && ((before[w.ret].status == Requested && trace[n + 1].rmas[w.ret].status == Approved)
                || (before[w.ret].status == Received && trace[n + 1].rmas[w.ret].status == Refunded))
            && forall r :: r in trace[n + 1].rows && r.child in before[w.ret].units ==> r.status == Revoked
  {
    hide Inv, WriteAll, L.Step, UuidRows, TableInv, RevokeUnits, CommitStep;
    Reached(trace, acts, n);
    var s := trace[n];
    SettleJob(s, tx);
    assert trace[n + 1] == Step(s, acts[n]);
    DataHas(s);
    RevokeUnitsSucceeds(s.rows, s.jobs[tx].units);
    RevokeUnitsMoves(s.rows, s.jobs[tx].units);
    SettleCommits(s, tx);
    var rows := RevokeUnits(s.rows, s.jobs[tx].units).value;
    forall r | r in rows && r.child in s.jobs[tx].units ensures r.status == Revoked { assert CurrentByChild(rows, r.child).None?; }
  }

  lemma SettleCommits(s: State, tx: nat)
    requires tx in s.jobs && s.jobs[tx].checked && s.jobs[tx].work.SettleReturn? && RevokeUnits(s.rows, s.jobs[tx].units).Ok?
    requires var w := s.jobs[tx].work; w.ret in s.rmas && s.rmas[w.ret].status == w.from
    ensures CommitStep(s, tx).rows == RevokeUnits(s.rows, s.jobs[tx].units).value
    ensures var w := s.jobs[tx].work; CommitStep(s, tx).rmas == s.rmas[w.ret := s.rmas[w.ret].(status := w.to)]
  {
  }

  // ---- A transaction that runs alone succeeds ----

  function AcquireTimes(s: State, tx: nat, n: nat): State {
    if n == 0 then s else Step(AcquireTimes(s, tx, n - 1), Acquire(tx))
  }

  /** tx runs from begin to commit, nothing in between. */
  function Alone(s: State, begin: Action, tx: nat): State {
    var begun := Step(s, begin);
    if tx !in begun.locks then begun
    else Step(Step(AcquireTimes(begun, tx, |begun.locks[tx].want|), Check(tx)), Commit(tx))
  }

  lemma {:induction false} AcquiresAll(s: State, tx: nat, want: seq<L.Key>, n: nat)
    requires s.locks == map[tx := L.Holder(want, 0)] && n <= |want|
    ensures AcquireTimes(s, tx, n) == s.(locks := map[tx := L.Holder(want, n)])
  {
    hide L.Step;
    if n > 0 {
      AcquiresAll(s, tx, want, n - 1);
      AcquiresOne(tx, want, n - 1);
    }
  }

  lemma AcquiresOne(tx: nat, want: seq<L.Key>, n: nat)
    requires n < |want|
    ensures L.Step(map[tx := L.Holder(want, n)], L.Acquire(tx)) == map[tx := L.Holder(want, n + 1)]
  {
  }

  lemma AloneIs(s: State, begin: Action, tx: nat, units: seq<string>, work: Work)
    requires s.jobs == map[] && s.locks == map[] && Step(s, begin) == Start(s, tx, units, work)
    requires if work.Bind? then Clear(s.rmas, units) else Returnable(s.rows, units)
    ensures exists locks: L.Locks ::
              Alone(s, begin, tx) == CommitStep(s.(jobs := map[tx := Job(units, work, true)], locks := locks), tx)
  {
    hide Clear, Returnable, L.UnitLocks, WriteAll, RevokeUnits, CommitStep;
    var begun := Start(s, tx, units, work);
    var want := L.UnitLocks(units);
    assert begun.locks == map[tx := L.Holder(want, 0)];
    AcquiresAll(begun, tx, want, |want|);
    assert begun.jobs == map[tx := Job(units, work, false)];
    var ready := begun.(locks := map[tx := L.Holder(want, |want|)]);
    assert CheckStep(ready, tx) == s.(jobs := map[tx := Job(units, work, true)], locks := ready.locks);
  }

  /** Alone, a bind of a free child to a parent, both off every blocking return, binds. */
  lemma AloneBindBinds(s: State, tx: nat, child: string, parent: string, newID: string, reason: string)
    requires Inv(s) && s.jobs == map[] && s.locks == map[] && UuidRows(s.rows)
    requires CanonicalUnitID(child).Some? && CanonicalUnitID(parent).Some? && CanonicalUnitID(child) != CanonicalUnitID(parent)
    requires Clear(s.rmas, [CanonicalUnitID(child).value, CanonicalUnitID(parent).value])
    requires forall r :: r in s.rows && r.child == CanonicalUnitID(child).value ==> r.status != Assigned
    requires newID != "" && IndexById(s.rows, newID) == |s.rows| && |reason| <= MAX_FORCED_REASON
    ensures BindsOne(s.rows, Alone(s, BeginBind(tx, child, parent, newID, reason), tx).rows,
                     CanonicalUnitID(child).value, CanonicalUnitID(parent).value)
  {
    hide CanonicalUnitID, BindWrite, UuidRows, Clear, BindsOne, TableInv, Start, CommitStep, Apply, Alone;
    var c, p := CanonicalUnitID(child).value, CanonicalUnitID(parent).value;
    var begin := BeginBind(tx, child, parent, newID, reason);
    DataHas(s);
    NonBlank(child);
    NonBlank(parent);
    BindWriteSucceeds(s.rows, c, p, newID, reason);
    var w := BindWrite(s.rows, c, p, newID, reason).value;
    assert Step(s, begin) == Start(s, tx, [c, p], Bind([w]));
    AloneIs(s, begin, tx, [c, p], Bind([w]));
    var locks: L.Locks :| Alone(s, begin, tx) == CommitStep(s.(jobs := map[tx := Job([c, p], Bind([w]), true)], locks := locks), tx);
    CommitsBind(s.(jobs := map[tx := Job([c, p], Bind([w]), true)], locks := locks), tx);
    NothingBound(s.rows);
    OneWriteBinds(s.rows, s.rows, c, p, newID, reason);
  }

  lemma NonBlank(raw: string)
    requires CanonicalUnitID(raw).Some?
    ensures CanonicalUnitID(raw).value != ""
  {
    var o, v := CanonicalParts(raw);
    MintedUnitIsCanonical(o, v);
  }

  lemma CommitsBind(s: State, tx: nat)
    requires tx in s.jobs && s.jobs[tx].checked && s.jobs[tx].work.Bind? && WriteAll(s.rows, s.jobs[tx].work.writes).Ok?
    ensures CommitStep(s, tx).rows == WriteAll(s.rows, s.jobs[tx].work.writes).value
  {
  }

  lemma CurrentRow(t: Table, c: string)
    requires TableInv(t) && UuidRows(t) && CurrentByChild(t, c).Some?
    ensures var r := CurrentByChild(t, c).value; IsUUID(r.id) && r.id != "" && IndexById(t, r.id) < |t| && t[IndexById(t, r.id)] == r
  {
    hide IsUUID;
    var i :| 0 <= i < |t| && t[i] == CurrentByChild(t, c).value;
    IndexByIdIs(t, i);
    assert ValidRow(t[i]);
  }

  lemma BindWriteSucceeds(t: Table, c: string, p: string, newID: string, reason: string)
    requires TableInv(t) && UuidRows(t) && c != "" && p != "" && c != p
    requires forall r :: r in t && r.child == c ==> r.status != Assigned
    requires newID != "" && IndexById(t, newID) == |t| && |reason| <= MAX_FORCED_REASON
    ensures BindWrite(t, c, p, newID, reason).Some? && WriteAll(t, [BindWrite(t, c, p, newID, reason).value]).Ok?
  {
    hide IsUUID, TableInv, UuidRows;
    if CurrentByChild(t, c).Some? { CurrentRow(t, c); }
    var w := BindWrite(t, c, p, newID, reason).value;
    assert [w][1..] == [];
  }

  /** Alone, a requested return is approved, a received one refunded, and no unit of it keeps a current row. */
  lemma AloneSettles(s: State, tx: nat, k: nat)
    requires Inv(s) && s.jobs == map[] && s.locks == map[] && UuidRows(s.rows)
    requires k in s.rmas && (s.rmas[k].status == Requested || s.rmas[k].status == Received)
    ensures var s' := Alone(s, BeginSettle(tx, k), tx);
            && k in s'.rmas && s'.rmas[k] == Return(s.rmas[k].units, if s.rmas[k].status == Requested then Approved else Refunded)
            && (forall r :: r in s'.rows && r.child in s.rmas[k].units ==> r.status == Revoked)
            && (forall r :: r in s'.rows && r.status == Assigned ==> r in s.rows)
  {
    hide Returnable, Start, Alone, RevokeUnits, UuidRows, CommitStep, TableInv, LiveCanonical, NoReturnedChildBound;
    var units := s.rmas[k].units;
    var to := if s.rmas[k].status == Requested then Approved else Refunded;
    var begin, work := BeginSettle(tx, k), SettleReturn(k, s.rmas[k].status, to);
    assert Step(s, begin) == Start(s, tx, units, work);
    assert Returnable(s.rows, units) by { assert Blocking(s.rmas[k]); }
    AloneIs(s, begin, tx, units, work);
    var locks: L.Locks :| Alone(s, begin, tx) == CommitStep(s.(jobs := map[tx := Job(units, work, true)], locks := locks), tx);
    var ready := s.(jobs := map[tx := Job(units, work, true)], locks := locks);
    RevokeUnitsSucceeds(s.rows, units);
    RevokeUnitsMoves(s.rows, units);
    SettleCommits(ready, tx);
    var rows := RevokeUnits(s.rows, units).value;
    forall r | r in rows && r.child in units ensures r.status == Revoked { assert CurrentByChild(rows, r.child).None?; }
    forall r | r in rows && r.status == Assigned ensures r in s.rows { var i :| 0 <= i < |rows| && rows[i] == r; }
  }

  /** Receiving moves an approved return on and touches no row. */
  lemma ReceiveMovesOn(s: State, k: nat)
    requires k in s.rmas && s.rmas[k].status == Approved
    ensures Step(s, Receive(k)) == s.(rmas := s.rmas[k := Return(s.rmas[k].units, Received)])
  {
  }

  /** Revoking by id ends that one row and keeps the others. */
  lemma RevokeRowRevokes(s: State, id: string)
    requires TableInv(s.rows) && IsUUID(id)
    ensures forall r :: r in Step(s, RevokeRow(id)).rows && r.id == id ==> r.status == Revoked
    ensures forall r :: r in s.rows && r.id != id ==> r in Step(s, RevokeRow(id)).rows
  {
    hide IsUUID, TableInv, Apply, Step;
    RowsOfStep(s, RevokeRow(id));
    T.AcceptedIff(s.rows, Op.Revoke(id));
    if Apply(s.rows, Op.Revoke(id)).Ok? { RevokedRows(s.rows, id); }
  }

  lemma RevokedRows(t: Table, id: string)
    requires TableInv(t) && Apply(t, Op.Revoke(id)).Ok?
    ensures forall r :: r in Apply(t, Op.Revoke(id)).value && r.id == id ==> r.status == Revoked
    ensures forall r :: r in t && r.id != id ==> r in Apply(t, Op.Revoke(id)).value
  {
    hide Apply, IsUUID;
    var row, i := ApplyWrites(t, Op.Revoke(id));
    var t' := t[i := row];
    assert Apply(t, Op.Revoke(id)).value == t' && row.id == id && t[i].id == id;
    assert forall m :: 0 <= m < |t| && m != i ==> t[m].id != id;
    forall r | r in t' && r.id == id ensures r.status == Revoked { var j :| 0 <= j < |t'| && t'[j] == r; }
    forall r | r in t && r.id != id ensures r in t' {
      var j :| 0 <= j < |t| && t[j] == r;
      assert t'[j] == r;
    }
  }

  /** Alone, a return of units with no live child outside is opened and touches no row. */
  lemma AloneReturnOpens(s: State, tx: nat, k: nat, units: seq<string>)
    requires s.jobs == map[] && s.locks == map[] && AllCanonical(units) && Returnable(s.rows, units) && k !in s.rmas
    ensures Alone(s, BeginReturn(tx, k, units), tx).rows == s.rows
    ensures Holds(Alone(s, BeginReturn(tx, k, units), tx).rmas, k, units)
  {
    hide CanonicalUnitID, Returnable, Start, Alone, Holds;
    var begin := BeginReturn(tx, k, units);
    assert Step(s, begin) == Start(s, tx, units, OpenReturn(k));
    AloneIs(s, begin, tx, units, OpenReturn(k));
    var locks: L.Locks :| Alone(s, begin, tx) == CommitStep(s.(jobs := map[tx := Job(units, OpenReturn(k), true)], locks := locks), tx);
    var ready := s.(jobs := map[tx := Job(units, OpenReturn(k), true)], locks := locks);
    OpensHolds(ready, Commit(tx), k, units);
    OpeningBindsNothing(ready, Commit(tx), k, units);
  }

  /** Some unfinished transaction can always take a lock, run its check, or commit. */
  lemma TransactionsMakeProgress(trace: seq<State>, acts: seq<Action>, n: nat)
    requires IsRun(trace, acts) && trace[0] == EMPTY && n < |trace| && trace[n].jobs != map[]
    ensures exists tx :: CanAdvance(trace[n], tx)
  {
    RunKeeps(trace, acts, n);
    var s := trace[n];
    var x :| x in s.jobs;
    assert x in s.locks;
    forall t | t in s.locks ensures L.Ascending(s.locks[t].want) {
      assert JobOk(s, t);
      L.UnitLocksAscend(s.jobs[t].units);
    }
    L.SomeoneCanStep(s.locks);
    var tx :| L.CanStep(s.locks, tx);
    ReadyToStep(s, tx);
  }

  /** tx is unfinished and one of its own steps changes the state. */
  predicate CanAdvance(s: State, tx: nat) {
    tx in s.jobs && (Step(s, Acquire(tx)) != s || Step(s, Check(tx)) != s || Step(s, Commit(tx)) != s)
  }

  lemma ReadyToStep(s: State, tx: nat)
    requires s.jobs.Keys == s.locks.Keys && L.CanStep(s.locks, tx)
    ensures CanAdvance(s, tx)
  {
    assert tx in s.locks.Keys;
    if s.locks[tx].held < |s.locks[tx].want| {
      assert Step(s, Acquire(tx)).locks[tx].held == s.locks[tx].held + 1;
    } else if !s.jobs[tx].checked {
      var s' := CheckStep(s, tx);
      assert tx !in s'.jobs || s'.jobs[tx].checked;
    } else {
      assert tx !in CommitStep(s, tx).jobs;
    }
  }

  // ---- Two binds of one child ----

  predicate HasLive(t: Table, child: string) {
    exists i :: 0 <= i < |t| && t[i].status == Assigned && t[i].child == child
  }

  /** The write binds this child. */
  predicate WritesChild(t: Table, w: Op, child: string) {
    (w.CreateAssigned? && w.child == child)
    || (w.Assign? && IndexById(t, w.id) < |t| && t[IndexById(t, w.id)].child == child)
  }

  predicate AllBinds(writes: seq<Op>) {
    forall i :: 0 <= i < |writes| ==> !writes[i].Revoke?
  }

  /** The step commits a bind of this child. */
  predicate CommitsChild(s: State, a: Action, child: string) {
    && a.Commit? && a.tx in s.jobs && s.jobs[a.tx].checked && s.jobs[a.tx].work.Bind?
    && var writes := s.jobs[a.tx].work.writes;
       WriteAll(s.rows, writes).Ok? && exists i :: 0 <= i < |writes| && WritesChild(s.rows, writes[i], child)
  }

  /** Where a live row is found after a write that revokes nothing. */
  lemma LiveStays(t: Table, w: Op, i: nat) returns (j: nat)
    requires TableInv(t) && Apply(t, w).Ok? && !w.Revoke? && i < |t| && t[i].status == Assigned
    ensures j < |Apply(t, w).value| && Apply(t, w).value[j] == t[i]
  {
    var r, k := ApplyWrites(t, w);
    j := if w.Assign? then i else i + 1;
  }

  /** A batch with a bind of a child that is live already is refused as a whole. */
  lemma {:induction false} LiveChildRefused(t: Table, writes: seq<Op>, k: nat, i: nat)
    requires TableInv(t) && AllBinds(writes) && i < |t| && t[i].status == Assigned
    requires k < |writes| && WritesChild(t, writes[k], t[i].child)
    ensures WriteAll(t, writes).Err?
    decreases |writes|
  {
    hide Apply, TableInv;
    if k == 0 {
      AssignedBlocksBind(t, i, writes[0]);
    } else if Apply(t, writes[0]).Ok? {
      var j := LiveStep(t, writes[0], writes[k], i);
      LiveChildRefused(Apply(t, writes[0]).value, writes[1..], k - 1, j);
    }
  }

  lemma LiveStep(t: Table, w: Op, later: Op, i: nat) returns (j: nat)
    requires TableInv(t) && Apply(t, w).Ok? && !w.Revoke? && i < |t| && t[i].status == Assigned
    requires WritesChild(t, later, t[i].child)
    ensures var t' := Apply(t, w).value;
            TableInv(t') && j < |t'| && t'[j] == t[i] && WritesChild(t', later, t[i].child)
  {
    ChildStep(t, w, later, t[i].child);
    j := LiveStays(t, w, i);
  }

  lemma ChildStays(t: Table, t': Table, w: Op, child: string)
    requires TableInv(t') && Later(t, t') && WritesChild(t, w, child)
    ensures WritesChild(t', w, child)
  {
    if w.Assign? { RowKept(t, t', w.id); }
  }

  lemma {:induction false} LiveThrough(t: Table, writes: seq<Op>, i: nat)
    requires TableInv(t) && AllBinds(writes) && WriteAll(t, writes).Ok? && i < |t| && t[i].status == Assigned
    ensures HasLive(WriteAll(t, writes).value, t[i].child)
    decreases |writes|
  {
    if writes != [] {
      ApplyKeeps(t, writes[0]);
      var j := LiveStays(t, writes[0], i);
      LiveThrough(Apply(t, writes[0]).value, writes[1..], j);
    }
  }

  lemma {:induction false} CommitMakesLive(t: Table, writes: seq<Op>, k: nat, child: string)
    requires TableInv(t) && AllBinds(writes) && WriteAll(t, writes).Ok?
    requires k < |writes| && WritesChild(t, writes[k], child)
    ensures HasLive(WriteAll(t, writes).value, child)
    decreases |writes|
  {
    hide Apply, WritesChild, TableInv;
    if k == 0 {
      var j := BoundRow(t, writes[0], child);
      LiveThrough(Apply(t, writes[0]).value, writes[1..], j);
    } else {
      ChildStep(t, writes[0], writes[k], child);
      CommitMakesLive(Apply(t, writes[0]).value, writes[1..], k - 1, child);
    }
  }

  lemma ChildStep(t: Table, w: Op, later: Op, child: string)
    requires TableInv(t) && Apply(t, w).Ok? && WritesChild(t, later, child)
    ensures TableInv(Apply(t, w).value) && WritesChild(Apply(t, w).value, later, child)
  {
    ApplyKeeps(t, w);
    ChildStays(t, Apply(t, w).value, later, child);
  }

  lemma BoundRow(t: Table, w: Op, child: string) returns (j: nat)
    requires TableInv(t) && Apply(t, w).Ok? && WritesChild(t, w, child)
    ensures var t' := Apply(t, w).value; TableInv(t') && j < |t'| && t'[j].status == Assigned && t'[j].child == child
  {
    ApplyKeeps(t, w);
    var r, i := ApplyWrites(t, w);
    j := if w.Assign? then i else 0;
    assert Apply(t, w).value[j] == r;
  }

  /** When two binds of one child both commit in a run, whatever they read before
      locking, the first binding was revoked somewhere in between. */
  lemma TwoBindsNeedRevoke(trace: seq<State>, acts: seq<Action>, first: nat, second: nat, child: string)
    requires IsRun(trace, acts) && Inv(trace[0]) && first < second < |acts|
    requires CommitsChild(trace[first], acts[first], child)
    requires CommitsChild(trace[second], acts[second], child)
    ensures exists k :: first < k < second && HasLive(trace[k].rows, child) && !HasLive(trace[k + 1].rows, child)
  {
    LiveAfter(trace, acts, first, child);
    FreeBefore(trace, acts, second, child);
    LiveThenFree(trace, first + 1, second, child);
  }

  lemma LiveAfter(trace: seq<State>, acts: seq<Action>, n: nat, child: string)
    requires IsRun(trace, acts) && Inv(trace[0]) && n < |acts| && CommitsChild(trace[n], acts[n], child)
    ensures HasLive(trace[n + 1].rows, child)
  {
    RunKeeps(trace, acts, n);
    FirstIsLive(trace[n], acts[n], child);
  }

  lemma FreeBefore(trace: seq<State>, acts: seq<Action>, n: nat, child: string)
    requires IsRun(trace, acts) && Inv(trace[0]) && n < |acts| && CommitsChild(trace[n], acts[n], child)
    ensures !HasLive(trace[n].rows, child)
  {
    RunKeeps(trace, acts, n);
    SecondIsFree(trace[n], acts[n], child);
  }

  lemma {:induction false} LiveThenFree(trace: seq<State>, lo: nat, hi: nat, child: string)
    requires lo <= hi < |trace| && HasLive(trace[lo].rows, child) && !HasLive(trace[hi].rows, child)
    ensures exists k :: lo <= k < hi && HasLive(trace[k].rows, child) && !HasLive(trace[k + 1].rows, child)
    decreases hi
  {
    if HasLive(trace[hi - 1].rows, child) {
      assert !HasLive(trace[hi - 1 + 1].rows, child);
    } else {
      LiveThenFree(trace, lo, hi - 1, child);
    }
  }

  lemma FirstIsLive(s: State, a: Action, child: string)
    requires Inv(s) && CommitsChild(s, a, child)
    ensures HasLive(Step(s, a).rows, child)
  {
    assert JobOk(s, a.tx);
    var writes := s.jobs[a.tx].work.writes;
    var i :| 0 <= i < |writes| && WritesChild(s.rows, writes[i], child);
    CoveredBinds(s.rows, writes, s.jobs[a.tx].units);
    CommitMakesLive(s.rows, writes, i, child);
    CommitWrites(s, a.tx);
  }

  lemma CommitWrites(s: State, tx: nat)
    requires tx in s.jobs && s.jobs[tx].checked && s.jobs[tx].work.Bind? && WriteAll(s.rows, s.jobs[tx].work.writes).Ok?
    ensures Step(s, Commit(tx)).rows == WriteAll(s.rows, s.jobs[tx].work.writes).value
  {
  }

  lemma SecondIsFree(s: State, a: Action, child: string)
    requires Inv(s) && CommitsChild(s, a, child)
    ensures !HasLive(s.rows, child)
  {
    assert JobOk(s, a.tx);
    var writes := s.jobs[a.tx].work.writes;
    var i :| 0 <= i < |writes| && WritesChild(s.rows, writes[i], child);
    CoveredBinds(s.rows, writes, s.jobs[a.tx].units);
    forall m | 0 <= m < |s.rows| && s.rows[m].status == Assigned ensures s.rows[m].child != child {
      if s.rows[m].child == child { LiveChildRefused(s.rows, writes, i, m); }
    }
  }

  lemma CoveredBinds(t: Table, writes: seq<Op>, units: seq<string>)
    requires WritesCovered(t, writes, units)
    ensures AllBinds(writes)
  {
    forall i | 0 <= i < |writes| ensures !writes[i].Revoke? { assert WriteCovered(t, writes[i], units); }
  }
}

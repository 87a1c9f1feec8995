/** RecordPurchase: the assignment rows a checkout writes, all lines checked
    before the first write. */
module Purchase {
  import opened Text
  import opened Units
  import opened T = AssignmentTable
  import P = AssignmentProtocol
  import O = OwnedParents
  import B = Binding

  /** One purchased line. unit names the child variant, the parent unit (blank when
      there is none) and the id its row will get. */
  datatype Line = Line(unit: P.PurchaseLine, childProductID: string, eligibleProductIDs: seq<string>, parentProductID: string)

  function EligibilityIDs(l: Line): seq<string> {
    if |l.eligibleProductIDs| > 0 then l.eligibleProductIDs
    else if Trim(l.childProductID) == "" then [] else [l.childProductID]
  }

  predicate NamesParent(l: Line) { Trim(l.unit.parentUnit) != "" }

  /** What one line must pass before anything is written. */
  function CheckLine(w: O.World, customerID: string, orderID: string, l: Line): O.Check {
    var child := UnitID(orderID, l.unit.variant);
    if child == "" then O.Refuse(Validation) else
      match O.CheckPurchaseAll(w, customerID, EligibilityIDs(l), O.Context(l.parentProductID, l.unit.parentUnit))
      case Refuse(e) => O.Refuse(e)
      case Pass =>
        if !NamesParent(l) then O.Pass else
          match CanonicalUnitID(Trim(l.unit.parentUnit))
          case None => O.Refuse(Validation)
          case Some(parent) => if O.OnReturn(w, parent) || O.OnReturn(w, child) then O.Refuse(Validation) else O.Pass
  }

  /** The first refusal, in line order. */
  function CheckLines(w: O.World, customerID: string, orderID: string, lines: seq<Line>): O.Check {
    if lines == [] then O.Pass else
      var n := |lines| - 1;
      match CheckLines(w, customerID, orderID, lines[..n])
      case Refuse(e) => O.Refuse(e)
      case Pass => CheckLine(w, customerID, orderID, lines[n])
  }

  /** The write of one line. */
  function WriteOf(orderID: string, l: Line): Op {
    if NamesParent(l)
    then Op.CreateAssigned(Trim(l.unit.newID), CanonicalUnitID(Trim(l.unit.parentUnit)).GetOr(""), UnitID(orderID, l.unit.variant), "")
    else Op.CreateUnassigned(Trim(l.unit.newID), UnitID(orderID, l.unit.variant))
  }

  /** The row that write inserts. */
  function RowOf(orderID: string, l: Line): Row {
    if NamesParent(l)
    then Row(Trim(l.unit.newID), CanonicalUnitID(Trim(l.unit.parentUnit)).GetOr(""), UnitID(orderID, l.unit.variant), Assigned, "")
    else Row(Trim(l.unit.newID), "", UnitID(orderID, l.unit.variant), Unassigned, "")
  }

  /** The lines that name a parent, or those that do not, in line order. */
  function Lines(lines: seq<Line>, bound: bool): seq<Line> {
    if lines == [] then [] else
      var n := |lines| - 1;
      if NamesParent(lines[n]) == bound then Lines(lines[..n], bound) + [lines[n]] else Lines(lines[..n], bound)
  }

  function Writes(orderID: string, lines: seq<Line>): seq<Op> {
    seq(|lines|, i requires 0 <= i < |lines| => WriteOf(orderID, lines[i]))
  }

  /** assignedPurchaseLockUnitIDs: both units of every line that names a parent. */
  function LockUnits(orderID: string, lines: seq<Line>): seq<string> {
    if lines == [] then [] else
      var n := |lines| - 1;
      LockUnits(orderID, lines[..n])
      + [CanonicalUnitID(Trim(lines[n].unit.parentUnit)).GetOr(""), UnitID(orderID, lines[n].unit.variant)]
  }

  /** The table after the longest accepted prefix of the writes. */
  function WritePrefix(t: Table, writes: seq<Op>): Table
    decreases |writes|
  {
    if writes == [] then t else
      match Apply(t, writes[0])
      case Err(_) => t
      case Ok(t') => WritePrefix(t', writes[1..])
  }

  predicate AnyOnReturn(w: O.World, units: seq<string>) {
    exists i :: 0 <= i < |units| && O.OnReturn(w, units[i])
  }

  /** Answer and table. later is what is on a return once the locks are held; inTx says that
      the caller's transaction is used, which a failure rolls back. */
  function Record(w: O.World, later: set<string>, t: Table, inTx: bool, customer: string, order: string, lines: seq<Line>): (O.Check, Table) {
    var orderID := Trim(order);
    if orderID == "" then (O.Refuse(Validation), t) else
      match CheckLines(w, Trim(customer), orderID, lines)
      case Refuse(e) => (O.Refuse(e), t)
      case Pass =>
        var bound, free := Lines(lines, true), Lines(lines, false);
        if bound == [] then
          (match P.WriteAll(t, Writes(orderID, free))
           case Ok(t') => (O.Pass, t')
           case Err(e) => (O.Refuse(e), if inTx then t else WritePrefix(t, Writes(orderID, free))))
        else if AnyOnReturn(w.(onReturn := later), LockUnits(orderID, bound)) then (O.Refuse(Validation), t)
        else
          match P.WriteAll(t, Writes(orderID, bound + free))
          case Ok(t') => (O.Pass, t')
          case Err(e) => (O.Refuse(e), t)
  }

  // ---- What a batch of inserts does ----

  /** An accepted insert: no current row for its child before, its row in front after. */
  lemma InsertEffect(t: Table, orderID: string, l: Line)
    requires Apply(t, WriteOf(orderID, l)).Ok?
    ensures Apply(t, WriteOf(orderID, l)).value == [RowOf(orderID, l)] + t
    ensures CurrentByChild(t, UnitID(orderID, l.unit.variant)).None?
  {
    hide CanonicalUnitID, UnitID, Trim, NamesParent, IndexById;
  }

  predicate NoCurrent(t: Table, orderID: string, lines: seq<Line>) {
    forall i :: 0 <= i < |lines| ==> CurrentByChild(t, UnitID(orderID, lines[i].unit.variant)).None?
  }

  predicate DistinctChildren(orderID: string, lines: seq<Line>) {
    forall i, j :: 0 <= i < j < |lines| ==> UnitID(orderID, lines[i].unit.variant) != UnitID(orderID, lines[j].unit.variant)
  }

  /** t' is t with one new row per line in front of it, the last line first. */
  predicate RowsAdded(t: Table, t': Table, orderID: string, lines: seq<Line>) {
    |t'| == |lines| + |t| && t'[|lines|..] == t
    && forall i :: 0 <= i < |lines| ==> t'[|lines| - 1 - i] == RowOf(orderID, lines[i])
  }

  lemma {:induction false} BatchEffect(t: Table, orderID: string, lines: seq<Line>)
    requires P.WriteAll(t, Writes(orderID, lines)).Ok?
    ensures RowsAdded(t, P.WriteAll(t, Writes(orderID, lines)).value, orderID, lines)
    ensures NoCurrent(t, orderID, lines) && DistinctChildren(orderID, lines)
    decreases |lines|
  {
    hide CanonicalUnitID, UnitID, Apply, WriteOf, RowOf;
    if lines != [] {
      var writes := Writes(orderID, lines);
      assert writes[1..] == Writes(orderID, lines[1..]);
      InsertEffect(t, orderID, lines[0]);
      var r := RowOf(orderID, lines[0]);
      BatchEffect([r] + t, orderID, lines[1..]);
      RowsAddedCons(t, P.WriteAll(t, writes).value, orderID, lines);
      FreshChildren(t, orderID, lines);
    }
  }

  lemma RowsAddedCons(t: Table, t': Table, orderID: string, lines: seq<Line>)
    requires lines != [] && RowsAdded([RowOf(orderID, lines[0])] + t, t', orderID, lines[1..])
    ensures RowsAdded(t, t', orderID, lines)
  {
    hide RowOf;
    var r, n := RowOf(orderID, lines[0]), |lines|;
    assert t'[n - 1..] == [r] + t;
    assert t'[n..] == t'[n - 1..][1..] == t;
    assert t'[n - 1] == t'[n - 1..][0];
    forall i | 0 <= i < n ensures t'[n - 1 - i] == RowOf(orderID, lines[i]) {
      if i > 0 { assert t'[n - 1 - 1 - (i - 1)] == RowOf(orderID, lines[1..][i - 1]); }
    }
  }

  lemma FreshChildren(t: Table, orderID: string, lines: seq<Line>)
    requires lines != [] && CurrentByChild(t, UnitID(orderID, lines[0].unit.variant)).None?
    requires NoCurrent([RowOf(orderID, lines[0])] + t, orderID, lines[1..]) && DistinctChildren(orderID, lines[1..])
    ensures NoCurrent(t, orderID, lines) && DistinctChildren(orderID, lines)
  {
    hide CanonicalUnitID, UnitID, NamesParent, Trim;
    var r := RowOf(orderID, lines[0]);
    var more := [r] + t;
    assert r in more && Current(r) && forall x :: x in t ==> x in more;
    forall i | 0 < i < |lines|
      ensures CurrentByChild(t, UnitID(orderID, lines[i].unit.variant)).None? && UnitID(orderID, lines[i].unit.variant) != r.child
    {
      assert lines[1..][i - 1] == lines[i];
    }
    forall i, j | 0 <= i < j < |lines|
      ensures UnitID(orderID, lines[i].unit.variant) != UnitID(orderID, lines[j].unit.variant)
    {
      if i > 0 { assert lines[1..][i - 1] == lines[i] && lines[1..][j - 1] == lines[j]; }
    }
  }

  lemma {:induction false} LinesPartition(lines: seq<Line>)
    ensures |Lines(lines, true)| + |Lines(lines, false)| == |lines|
    ensures multiset(Lines(lines, true) + Lines(lines, false)) == multiset(lines)
  {
    hide NamesParent;
    if lines != [] {
      var n := |lines| - 1;
      LinesPartition(lines[..n]);
      assert lines == lines[..n] + [lines[n]];
    }
  }

  lemma {:induction false} LinesAre(lines: seq<Line>, bound: bool)
    ensures forall i :: 0 <= i < |Lines(lines, bound)| ==> NamesParent(Lines(lines, bound)[i]) == bound
    ensures Lines(lines, bound) == [] <==> forall i :: 0 <= i < |lines| ==> NamesParent(lines[i]) != bound
  {
    hide NamesParent;
    if lines != [] { LinesAre(lines[..|lines| - 1], bound); }
  }

  // ---- What RecordPurchase promises ----

  /** Success adds exactly one row per line and nothing else: the lines are a rearrangement
      of the purchased ones, each row is assigned to the canonical parent exactly when its
      line names a parent unit, the children are pairwise different and none had a current
      row. Nothing is written unless every line passed its checks. */
  lemma PurchaseWritesEachLineOnce(w: O.World, later: set<string>, t: Table, inTx: bool, customer: string, order: string, lines: seq<Line>)
    returns (written: seq<Line>)
    requires Record(w, later, t, inTx, customer, order, lines).0.Pass?
    ensures multiset(written) == multiset(lines)
    ensures RowsAdded(t, Record(w, later, t, inTx, customer, order, lines).1, Trim(order), written)
    ensures NoCurrent(t, Trim(order), written) && DistinctChildren(Trim(order), written)
    ensures CheckLines(w, Trim(customer), Trim(order), lines).Pass?
    ensures forall i :: 0 <= i < |written| ==> RowFits(Record(w, later, t, inTx, customer, order, lines).1[|written| - 1 - i], Trim(order), written[i])
  {
    hide CanonicalUnitID, UnitID, Trim, Apply, CheckLines, P.WriteAll, Writes, RowsAdded, RowFits;
    PurchaseChecked(w, later, t, inTx, customer, order, lines);
    var orderID := Trim(order);
    var bound, free := Lines(lines, true), Lines(lines, false);
    written := bound + free;
    LinesPartition(lines);
    if bound == [] { assert written == free; }
    BatchEffect(t, orderID, written);
    RowsFit(w, t, Record(w, later, t, inTx, customer, order, lines).1, Trim(customer), orderID, lines, written);
  }

  lemma PurchaseChecked(w: O.World, later: set<string>, t: Table, inTx: bool, customer: string, order: string, lines: seq<Line>)
    requires Record(w, later, t, inTx, customer, order, lines).0.Pass?
    ensures Trim(order) != "" && CheckLines(w, Trim(customer), Trim(order), lines).Pass?
    ensures Lines(lines, true) != [] ==> !AnyOnReturn(w.(onReturn := later), LockUnits(Trim(order), Lines(lines, true)))
  {
    hide CanonicalUnitID, UnitID, Trim, Apply, CheckLines, P.WriteAll, Writes, LockUnits, AnyOnReturn;
  }

  /** The row is the line's: its child is the unit of the line, assigned to the unit the line names, or
      unassigned when it names none. */
  predicate RowFits(r: Row, orderID: string, l: Line) {
    && r.id == Trim(l.unit.newID) && r.child == UnitID(orderID, l.unit.variant) && r.forcedReason == ""
    && if Trim(l.unit.parentUnit) != "" then r.status == Assigned && CanonicalUnitID(l.unit.parentUnit) == Some(r.parent)
       else r.status == Unassigned && r.parent == ""
  }

  lemma RowsFit(w: O.World, t: Table, t': Table, customerID: string, orderID: string, lines: seq<Line>, written: seq<Line>)
    requires CheckLines(w, customerID, orderID, lines).Pass? && multiset(written) == multiset(lines) && RowsAdded(t, t', orderID, written)
    ensures forall i :: 0 <= i < |written| ==> RowFits(t'[|written| - 1 - i], orderID, written[i])
  {
    hide CanonicalUnitID, UnitID, Trim, CheckLines, RowOf, RowFits;
    forall i | 0 <= i < |written| ensures RowFits(t'[|written| - 1 - i], orderID, written[i]) {
      assert written[i] in multiset(lines);
      var k :| 0 <= k < |lines| && lines[k] == written[i];
      LineChecked(w, customerID, orderID, lines, k);
      RowOfFits(w, customerID, orderID, written[i]);
    }
  }

  lemma {:induction false} LineChecked(w: O.World, customerID: string, orderID: string, lines: seq<Line>, k: nat)
    requires CheckLines(w, customerID, orderID, lines).Pass? && k < |lines|
    ensures CheckLine(w, customerID, orderID, lines[k]).Pass?
    decreases |lines|
  {
    hide CheckLine;
    if k < |lines| - 1 { LineChecked(w, customerID, orderID, lines[..|lines| - 1], k); }
  }

  lemma RowOfFits(w: O.World, customerID: string, orderID: string, l: Line)
    requires CheckLine(w, customerID, orderID, l).Pass?
    ensures RowFits(RowOf(orderID, l), orderID, l)
  {
    hide CanonicalUnitID, UnitID, Trim, O.CheckPurchaseAll, O.OnReturn;
    CanonicalTrims(l.unit.parentUnit);
  }

  /** A line that names a parent unit is recorded only for a signed-in customer who owns that unit, when
      neither unit is on a return, before or under the locks, and each of the line's products that must
      fit has a rule that allows it under the parent's product. */
  lemma PurchaseNeedsOwnedParent(w: O.World, later: set<string>, t: Table, inTx: bool, customer: string, order: string, lines: seq<Line>, k: nat)
    requires O.WellFormed(w) && k < |lines| && Trim(lines[k].unit.parentUnit) != ""
    requires Record(w, later, t, inTx, customer, order, lines).0.Pass?
    ensures CanonicalUnitID(lines[k].unit.parentUnit).Some?
    ensures var parent, child := CanonicalUnitID(lines[k].unit.parentUnit).value, UnitID(Trim(order), lines[k].unit.variant);
            && !O.OnReturn(w, parent) && !O.OnReturn(w, child)
            && !O.OnReturn(w.(onReturn := later), parent) && !O.OnReturn(w.(onReturn := later), child)
    ensures forall id :: Trim(id) != "" && (if lines[k].eligibleProductIDs != [] then id in lines[k].eligibleProductIDs else id == lines[k].childProductID) ==>
              UnderOwned(w, Trim(customer), Trim(id), Trim(lines[k].parentProductID), CanonicalUnitID(lines[k].unit.parentUnit).value)
  {
    hide CanonicalUnitID, UnitID, Trim, Apply, CheckLines, CheckLine, P.WriteAll, Writes, LockUnits, AnyOnReturn, O.OnReturn,
         O.WellFormed, Record, Lines, NamesParent, UnderOwned, O.CheckPurchase;
    var l, customerID, orderID := lines[k], Trim(customer), Trim(order);
    PurchaseChecked(w, later, t, inTx, customer, order, lines);
    LineChecked(w, customerID, orderID, lines, k);
    BoundLine(w, customerID, orderID, l);
    BoundIsLocked(w.(onReturn := later), orderID, lines, k);
    forall id | Trim(id) != "" && (if l.eligibleProductIDs != [] then id in l.eligibleProductIDs else id == l.childProductID)
      ensures UnderOwned(w, customerID, Trim(id), Trim(l.parentProductID), CanonicalUnitID(l.unit.parentUnit).value)
    {
      AllChecked(w, customerID, EligibilityIDs(l), O.Context(l.parentProductID, l.unit.parentUnit), id);
      ContextTrims(w, customer, id, l.parentProductID, l.unit.parentUnit);
      ContextTrims(w, customerID, id, l.parentProductID, l.unit.parentUnit);
      TrimIsTrimmed(customer);
      CheckPurchaseIff(w, customer, id, l.parentProductID, l.unit.parentUnit);
    }
  }

  /** A rule allows the product under the other one. */
  predicate Allowed(w: O.World, id: string, parentProduct: string) {
    Fold(id) != Fold(Trim(parentProduct)) && (id, Trim(parentProduct)) in w.rules
  }

  lemma BoundLine(w: O.World, customerID: string, orderID: string, l: Line)
    requires CheckLine(w, customerID, orderID, l).Pass? && Trim(l.unit.parentUnit) != ""
    ensures CanonicalUnitID(l.unit.parentUnit).Some? && NamesParent(l)
    ensures !O.OnReturn(w, CanonicalUnitID(l.unit.parentUnit).value) && !O.OnReturn(w, UnitID(orderID, l.unit.variant))
    ensures O.CheckPurchaseAll(w, customerID, EligibilityIDs(l), O.Context(l.parentProductID, l.unit.parentUnit)).Pass?
  {
    hide CanonicalUnitID, UnitID, Trim, O.CheckPurchaseAll, O.OnReturn;
    CanonicalTrims(l.unit.parentUnit);
  }

  lemma BoundIsLocked(w: O.World, orderID: string, lines: seq<Line>, k: nat)
    requires k < |lines| && NamesParent(lines[k]) && CanonicalUnitID(lines[k].unit.parentUnit).Some?
    requires Lines(lines, true) != [] ==> !AnyOnReturn(w, LockUnits(orderID, Lines(lines, true)))
    ensures !O.OnReturn(w, CanonicalUnitID(lines[k].unit.parentUnit).value) && !O.OnReturn(w, UnitID(orderID, lines[k].unit.variant))
  {
    hide CanonicalUnitID, UnitID, Trim, NamesParent, O.OnReturn;
    var bound := Lines(lines, true);
    var b := LineIsIn(lines, true, k);
    LocksBoth(orderID, bound, b);
    CanonicalTrims(lines[k].unit.parentUnit);
    var units := LockUnits(orderID, bound);
    var p :| 0 <= p < |units| && units[p] == CanonicalUnitID(Trim(bound[b].unit.parentUnit)).GetOr("");
    var c :| 0 <= c < |units| && units[c] == UnitID(orderID, bound[b].unit.variant);
    assert !O.OnReturn(w, units[p]) && !O.OnReturn(w, units[c]);
  }

  lemma {:induction false} LineIsIn(lines: seq<Line>, bound: bool, k: nat) returns (b: nat)
    requires k < |lines| && NamesParent(lines[k]) == bound
    ensures b < |Lines(lines, bound)| && Lines(lines, bound)[b] == lines[k]
    decreases |lines|
  {
    hide NamesParent;
    var n := |lines| - 1;
    if k < n { b := LineIsIn(lines[..n], bound, k); } else { b := |Lines(lines[..n], bound)|; }
  }

  lemma {:induction false} LocksBoth(orderID: string, lines: seq<Line>, b: nat)
    requires b < |lines|
    ensures CanonicalUnitID(Trim(lines[b].unit.parentUnit)).GetOr("") in LockUnits(orderID, lines)
    ensures UnitID(orderID, lines[b].unit.variant) in LockUnits(orderID, lines)
    decreases |lines|
  {
    hide CanonicalUnitID, UnitID, Trim;
    if b < |lines| - 1 { LocksBoth(orderID, lines[..|lines| - 1], b); }
  }

  lemma {:induction false} AllChecked(w: O.World, customerID: string, ids: seq<string>, ac: O.Context, id: string)
    requires O.CheckPurchaseAll(w, customerID, ids, ac).Pass? && id in ids && Trim(id) != ""
    ensures O.CheckPurchase(w, customerID, id, ac).Pass?
  {
    hide O.CheckPurchase, Trim;
    var n := |ids| - 1;
    assert ids == ids[..n] + [ids[n]];
    if id != ids[n] { AllChecked(w, customerID, ids[..n], ac, id); }
  }

  /** The unit is the customer's, of the catalog product if one is named, and a rule allows the product under its product. */
  ghost predicate UnderOwned(w: O.World, customerID: string, id: string, parentProduct: string, unit: string) {
    exists i: nat, j: nat ::
      && O.OwnsLine(w, customerID, i, j, unit) && Allowed(w, id, w.variants[w.orders[i].items[j].variantID])
      && (parentProduct != "" ==> parentProduct == w.variants[w.orders[i].items[j].variantID])
  }

  /** What CheckPurchase accepts, said of the stored rows: any product without a parent; under a catalog
      product, one with a rule for it; under a unit, one with a rule for the unit's product, the unit
      being the customer's, off every return, and of the catalog product if one is named too. */
  lemma CheckPurchaseIff(w: O.World, customer: string, id: string, parentProduct: string, parentUnit: string)
    requires O.WellFormed(w)
    ensures O.CheckPurchase(w, customer, id, O.Context(parentProduct, parentUnit)).Pass? <==>
            Trim(id) != "" &&
            if Trim(parentUnit) == "" then Trim(parentProduct) == "" || Allowed(w, Trim(id), parentProduct)
            else
              && Trim(customer) != "" && CanonicalUnitID(parentUnit).Some? && CanonicalUnitID(parentUnit).value !in w.onReturn
              && UnderOwned(w, Trim(customer), Trim(id), Trim(parentProduct), CanonicalUnitID(parentUnit).value)
  {
    hide CanonicalUnitID, Trim, Fold, O.WellFormed, O.RequireOwnedUnit, UnderOwned;
    TrimIsTrimmed(customer);
    TrimIsTrimmed(id);
    TrimIsTrimmed(parentUnit);
    TrimIsTrimmed(parentProduct);
    CanonicalTrims(parentUnit);
    ContextTrims(w, customer, id, parentProduct, parentUnit);
    BlankIsNoUnit();
    var c := Trim(customer);
    if Trim(parentUnit) != "" && c != "" && Trim(id) != "" {
      if CanonicalUnitID(parentUnit).Some? {
        SameUnit(w, c, Trim(parentUnit), parentUnit);
        UnderUnit(w, c, Trim(id), Trim(parentProduct), Trim(parentUnit), CanonicalUnitID(parentUnit).value);
      } else {
        NoUnit(w, c, Trim(parentUnit));
      }
    }
  }

  lemma UnderUnit(w: O.World, c: string, id: string, parentProduct: string, trimmed: string, unit: string)
    requires O.WellFormed(w) && c != "" && Trim(c) == c && Trim(id) == id != "" && Trim(parentProduct) == parentProduct
    requires Trim(trimmed) == trimmed != "" && CanonicalUnitID(trimmed) == Some(unit) && IsCanonical(unit) && Trimmed(c)
    requires O.RequireOwnedUnit(w, c, trimmed) == O.RequireOwnedUnit(w, c, unit)
    ensures O.CheckPurchase(w, c, id, O.Context(parentProduct, trimmed)).Pass?
            <==> unit !in w.onReturn && UnderOwned(w, c, id, parentProduct, unit)
  {
    hide CanonicalUnitID, Trim, Fold, O.WellFormed, O.RequireOwnedUnit, UnitID;
    B.OwnedIsLine(w, c, unit);
    if O.RequireOwnedUnit(w, c, unit).Ok? {
      var i: nat, j: nat :| O.OwnsLine(w, c, i, j, unit);
      B.OwnedProductKnown(w, c, i, j, unit);
      assert O.RequireOwnedUnit(w, c, unit) == Ok(w.variants[w.orders[i].items[j].variantID]);
    }
  }

  lemma ContextTrims(w: O.World, customer: string, id: string, parentProduct: string, parentUnit: string)
    ensures O.CheckPurchase(w, Trim(customer), Trim(id), O.Context(Trim(parentProduct), Trim(parentUnit))) ==
            O.CheckPurchase(w, customer, id, O.Context(parentProduct, parentUnit))
  {
    hide O.ParentProduct, O.OnReturn, O.IsEligible;
    TrimIsTrimmed(customer);
    TrimIsTrimmed(id);
    TrimIsTrimmed(parentUnit);
    TrimIsTrimmed(parentProduct);
  }

  lemma BlankIsNoUnit()
    ensures CanonicalUnitID("").None?
  {
  }

  lemma NoUnit(w: O.World, customerID: string, unit: string)
    requires CanonicalUnitID(unit).None?
    ensures O.RequireOwnedUnit(w, customerID, unit).Err?
  {
  }

  lemma SameUnit(w: O.World, customerID: string, trimmed: string, raw: string)
    requires trimmed == Trim(raw) && CanonicalUnitID(raw).Some?
    ensures IsCanonical(CanonicalUnitID(raw).value)
    ensures O.RequireOwnedUnit(w, customerID, trimmed) == O.RequireOwnedUnit(w, customerID, CanonicalUnitID(raw).value)
  {
    hide CanonicalUnitID, Trim, SplitUnitID, O.OwnedProduct;
    CanonicalTrims(raw);
    CanonicalIsFixed(raw);
  }

  /** A refused purchase leaves the table as it was, except when no transaction is
      used and no line names a parent: then the rows before the refused one stay. */
  lemma RefusedPurchaseKeepsTable(w: O.World, later: set<string>, t: Table, inTx: bool, customer: string, order: string, lines: seq<Line>)
    requires Record(w, later, t, inTx, customer, order, lines).0.Refuse?
    requires inTx || exists i :: 0 <= i < |lines| && NamesParent(lines[i])
    ensures Record(w, later, t, inTx, customer, order, lines).1 == t
  {
    hide CanonicalUnitID, UnitID, Trim, Apply, CheckLines, P.WriteAll, NamesParent, Writes, WritePrefix;
    LinesAre(lines, true);
  }

  /** Outside a transaction a refused purchase without parents keeps the table exactly when
      the child of the very first line already has a current row. */
  lemma RefusedAutocommitKeepsTable(w: O.World, later: set<string>, t: Table, customer: string, order: string, lines: seq<Line>)
    requires lines != [] && (forall i :: 0 <= i < |lines| ==> !NamesParent(lines[i]))
    requires FreshID(t, lines[0].unit.newID)
    requires Trim(order) != "" && CheckLines(w, Trim(customer), Trim(order), lines).Pass?
    requires Record(w, later, t, false, customer, order, lines).0.Refuse?
    ensures Record(w, later, t, false, customer, order, lines).1 == t
            <==> CurrentByChild(t, UnitID(Trim(order), lines[0].unit.variant)).Some?
  {
    hide CanonicalUnitID, UnitID, Trim, NamesParent, CheckLines, Apply, WriteOf, CurrentByChild, Record, WritePrefix;
    var orderID := Trim(order);
    AutocommitTable(w, later, t, customer, order, lines);
    FirstWrite(t, orderID, lines[0]);
    var writes := Writes(orderID, lines);
    assert writes[0] == WriteOf(orderID, lines[0]);
    if Apply(t, writes[0]).Ok? { InsertEffect(t, orderID, lines[0]); }
    PrefixKeeps(t, writes);
  }

  lemma AutocommitTable(w: O.World, later: set<string>, t: Table, customer: string, order: string, lines: seq<Line>)
    requires lines != [] && (forall i :: 0 <= i < |lines| ==> !NamesParent(lines[i]))
    requires Trim(order) != "" && CheckLines(w, Trim(customer), Trim(order), lines).Pass?
    requires Record(w, later, t, false, customer, order, lines).0.Refuse?
    ensures Record(w, later, t, false, customer, order, lines).1 == WritePrefix(t, Writes(Trim(order), lines))
    ensures UnitID(Trim(order), lines[0].unit.variant) != ""
  {
    hide CanonicalUnitID, UnitID, Trim, NamesParent, CheckLines, WritePrefix, Writes, P.WriteAll;
    LinesAre(lines, true);
    AllFree(lines);
    ChecksName(w, Trim(customer), Trim(order), lines);
    assert Lines(lines, false)[0] == lines[0];
  }

  /** A prefix of the writes keeps the table exactly when the first one is refused. */
  lemma PrefixKeeps(t: Table, writes: seq<Op>)
    requires writes != [] && (Apply(t, writes[0]).Ok? ==> |Apply(t, writes[0]).value| > |t|)
    ensures WritePrefix(t, writes) == t <==> Apply(t, writes[0]).Err?
  {
    hide Apply;
    if Apply(t, writes[0]).Ok? { PrefixGrows(Apply(t, writes[0]).value, writes[1..]); }
  }

  /** What id.New() gives. */
  predicate FreshID(t: Table, newID: string) {
    Trim(newID) != "" && IndexById(t, Trim(newID)) == |t|
  }

  lemma FirstWrite(t: Table, orderID: string, l: Line)
    requires !NamesParent(l) && UnitID(orderID, l.unit.variant) != "" && FreshID(t, l.unit.newID)
    ensures Apply(t, WriteOf(orderID, l)).Err? <==> CurrentByChild(t, UnitID(orderID, l.unit.variant)).Some?
  {
    hide CanonicalUnitID, UnitID, Trim;
  }

  lemma {:induction false} AllFree(lines: seq<Line>)
    requires forall i :: 0 <= i < |lines| ==> !NamesParent(lines[i])
    ensures Lines(lines, false) == lines
  {
    hide NamesParent;
    if lines != [] { AllFree(lines[..|lines| - 1]); }
  }

  lemma {:induction false} PrefixGrows(t: Table, writes: seq<Op>)
    ensures |WritePrefix(t, writes)| >= |t|
    decreases |writes|
  {
    if writes != [] && Apply(t, writes[0]).Ok? {
      ApplyGrows(t, writes[0]);
      PrefixGrows(Apply(t, writes[0]).value, writes[1..]);
    }
  }

  lemma ApplyGrows(t: Table, w: Op)
    requires Apply(t, w).Ok?
    ensures |Apply(t, w).value| >= |t|
  {
    hide IsUUID;
  }

  /** Such a purchase exists: two lines for one variant. The second insert is refused, the first row stays. */
  lemma PartialAutocommit(w: O.World, order: string, variant: string)
    requires Trim(order) != "" && Trim(variant) != ""
    ensures var l := Line(P.PurchaseLine(variant, "", "id1"), "", [], "");
            var (answer, t') := Record(w, {}, [], false, "", order, [l, l.(unit := P.PurchaseLine(variant, "", "id2"))]);
            answer.Refuse? && t' == [RowOf(Trim(order), l)]
  {
    hide CanonicalUnitID, O.RequireOwnedUnit, Apply, RowOf, WriteOf;
    var orderID := Trim(order);
    var l := Line(P.PurchaseLine(variant, "", "id1"), "", [], "");
    var m := l.(unit := P.PurchaseLine(variant, "", "id2"));
    var lines := [l, m];
    TrimIsTrimmed(order);
    assert CheckLine(w, Trim(""), orderID, l).Pass? && CheckLine(w, Trim(""), orderID, m).Pass?;
    assert lines[..1] == [l] && [l][..0] == [];
    assert CheckLines(w, Trim(""), orderID, [l]).Pass?;
    AllFree(lines);
    LinesAre(lines, true);
    var writes := Writes(orderID, lines);
    assert writes == [WriteOf(orderID, l), WriteOf(orderID, m)];
    SecondRefused(orderID, l, m);
    var t := [RowOf(orderID, l)];
    assert writes[1..] == [WriteOf(orderID, m)];
    assert P.WriteAll(t, writes[1..]).Err? && WritePrefix(t, writes[1..]) == t;
    assert P.WriteAll([], writes).Err? && WritePrefix([], writes) == t;
    assert CheckLines(w, Trim(""), orderID, lines).Pass?;
  }

  lemma SecondRefused(orderID: string, l: Line, m: Line)
    requires !NamesParent(l) && !NamesParent(m) && l.unit.variant == m.unit.variant && FreshID([], l.unit.newID)
    requires UnitID(orderID, l.unit.variant) != ""
    ensures Apply([], WriteOf(orderID, l)) == Ok([RowOf(orderID, l)])
    ensures Apply([RowOf(orderID, l)], WriteOf(orderID, m)).Err?
  {
    hide CanonicalUnitID, UnitID, Trim;
    var t := [RowOf(orderID, l)];
    assert t[0] in t;
    assert CurrentByChild(t, UnitID(orderID, m.unit.variant)).Some?;
    assert t == [RowOf(orderID, l)] + [];
  }

  // ---- The transaction of the concurrent protocol ----

  function UnitsOf(lines: seq<Line>): seq<P.PurchaseLine> {
    seq(|lines|, i requires 0 <= i < |lines| => lines[i].unit)
  }

  /** What Record writes and locks is what the purchase transaction of AssignmentProtocol
      writes and locks, so what holds of every interleaving there holds of purchases. */
  lemma {:induction false} PurchaseIsProtocolBind(orderID: string, lines: seq<Line>)
    ensures forall b :: Writes(orderID, Lines(lines, b)) == P.PurchaseWrites(orderID, UnitsOf(lines), b)
    ensures LockUnits(orderID, Lines(lines, true)) == P.PurchaseUnits(orderID, UnitsOf(lines))
  {
    hide CanonicalUnitID, Trim, UnitID;
    if lines != [] {
      var n := |lines| - 1;
      var l, head := lines[n], UnitsOf(lines[..n]);
      PurchaseIsProtocolBind(orderID, lines[..n]);
      assert UnitsOf(lines) == head + [l.unit];
      ProtocolAppends(orderID, head, l);
      forall b ensures Writes(orderID, Lines(lines, b)) == P.PurchaseWrites(orderID, UnitsOf(lines), b) {
        if NamesParent(l) == b {
          assert Writes(orderID, Lines(lines[..n], b) + [l]) == Writes(orderID, Lines(lines[..n], b)) + [WriteOf(orderID, l)];
        }
      }
      if NamesParent(l) {
        var bound := Lines(lines, true);
        assert bound[..|bound| - 1] == Lines(lines[..n], true);
      }
    }
  }

  lemma {:induction false} ProtocolAppends(orderID: string, units: seq<P.PurchaseLine>, l: Line)
    ensures forall b :: P.PurchaseWrites(orderID, units + [l.unit], b) ==
              P.PurchaseWrites(orderID, units, b) + (if NamesParent(l) == b then [WriteOf(orderID, l)] else [])
    ensures P.PurchaseUnits(orderID, units + [l.unit]) == P.PurchaseUnits(orderID, units) +
              (if NamesParent(l) then [CanonicalUnitID(Trim(l.unit.parentUnit)).GetOr(""), UnitID(orderID, l.unit.variant)] else [])
  {
    hide CanonicalUnitID, Trim, UnitID;
    CanonicalTrims(l.unit.parentUnit);
    if units == [] {
      assert [] + [l.unit] == [l.unit] && [l.unit][1..] == [];
    } else {
      ProtocolAppends(orderID, units[1..], l);
      assert (units + [l.unit])[1..] == units[1..] + [l.unit];
    }
  }

  lemma CanonicalTrims(raw: string)
    ensures CanonicalUnitID(Trim(raw)) == CanonicalUnitID(raw)
  {
    TrimIsTrimmed(raw);
  }

  // ---- The flow ----

  /** The part of assignment.Flow that records purchases, over the assignment service. */
  class Flow {
    const assignments: Service
    const world: O.World

    constructor (s: Service, w: O.World)
      ensures assignments == s && world == w
    {
      assignments := s;
      world := w;
    }

    /** Checks all lines, splitting them by whether they name a parent. */
    method CheckAll(customerID: string, orderID: string, lines: seq<Line>)
      returns (r: O.Check, bound: seq<Line>, free: seq<Line>)
      ensures r == CheckLines(world, customerID, orderID, lines)
      ensures r.Pass? ==> bound == Lines(lines, true) && free == Lines(lines, false)
    {
      hide CanonicalUnitID, Trim, UnitID, O.OnReturn, O.CheckPurchaseAll;
      bound, free := [], [];
      for i := 0 to |lines|
        invariant CheckLines(world, customerID, orderID, lines[..i]).Pass?
        invariant bound == Lines(lines[..i], true) && free == Lines(lines[..i], false)
      {
        assert lines[..i + 1][..i] == lines[..i];
        var line := lines[i];
        var childUnit := UnitID(orderID, line.unit.variant);
        r := CheckOne(customerID, orderID, line, childUnit);
        if r.Refuse? {
          ChecksFail(world, customerID, orderID, lines, i + 1);
          return;
        }
        if Trim(line.unit.parentUnit) != "" {
          bound := bound + [line];
          continue;
        }
        free := free + [line];
      }
      assert lines[..|lines|] == lines;
      r := O.Pass;
    }

    method CheckOne(customerID: string, orderID: string, line: Line, childUnit: string) returns (r: O.Check)
      requires childUnit == UnitID(orderID, line.unit.variant)
      ensures r == CheckLine(world, customerID, orderID, line)
    {
      hide CanonicalUnitID, Trim, UnitID, O.OnReturn, O.CheckPurchaseAll;
      if childUnit == "" { return O.Refuse(Validation); }
      r := O.RunCheckPurchaseAll(world, customerID, EligibilityIDs(line), O.Context(line.parentProductID, line.unit.parentUnit));
      if r.Refuse? { return; }
      var parentUnit := Trim(line.unit.parentUnit);
      if parentUnit != "" {
        match CanonicalUnitID(parentUnit) {
          case None => return O.Refuse(Validation);
          case Some(canonical) =>
            if O.OnReturn(world, canonical) || O.OnReturn(world, childUnit) { return O.Refuse(Validation); }
        }
      }
    }

    /** writeLines: one insert per line, stopping at the first refusal. */
    method WriteLines(orderID: string, lines: seq<Line>) returns (r: O.Check)
      requires forall i :: 0 <= i < |lines| ==> UnitID(orderID, lines[i].unit.variant) != ""
      modifies assignments
      ensures match P.WriteAll(old(assignments.rows), Writes(orderID, lines))
              case Ok(t) => r == O.Pass && assignments.rows == t
              case Err(e) => r == O.Refuse(e) && assignments.rows == WritePrefix(old(assignments.rows), Writes(orderID, lines))
    {
      hide CanonicalUnitID, Trim, UnitID, Apply, WriteOf;
      var writes := Writes(orderID, lines);
      for i := 0 to |lines|
        invariant P.WriteAll(old(assignments.rows), writes) == P.WriteAll(assignments.rows, writes[i..])
        invariant WritePrefix(old(assignments.rows), writes) == WritePrefix(assignments.rows, writes[i..])
      {
        assert writes[i..][0] == WriteOf(orderID, lines[i]) && writes[i..][1..] == writes[i + 1..];
        var w := WriteOne(orderID, lines[i]);
        if w.Err? { return O.Refuse(w.error); }
      }
      return O.Pass;
    }

    method WriteOne(orderID: string, line: Line) returns (r: Result<Row>)
      requires UnitID(orderID, line.unit.variant) != ""
      modifies assignments
      ensures match Apply(old(assignments.rows), WriteOf(orderID, line))
              case Ok(t) => r.Ok? && assignments.rows == t
              case Err(e) => r == Err(e) && assignments.rows == old(assignments.rows)
    {
      hide CanonicalUnitID, Trim, UnitID, Apply;
      var childUnit := UnitID(orderID, line.unit.variant);
      UnitIsTrimmed(orderID, line.unit.variant);
      if Trim(line.unit.parentUnit) != "" {
        ParentIsTrimmed(Trim(line.unit.parentUnit));
        var parent := CanonicalUnitID(Trim(line.unit.parentUnit)).GetOr("");
        r := assignments.CreateAssigned(line.unit.newID, parent, childUnit, "");
      } else {
        r := assignments.CreateUnassigned(line.unit.newID, childUnit);
      }
    }

    /** later is what is on a return once the locks are held. A failed transaction, the
        caller's or its own, puts the rows back. */
    method RecordPurchase(later: set<string>, inTx: bool, customer: string, order: string, lines: seq<Line>) returns (r: O.Check)
      modifies assignments
      ensures (r, assignments.rows) == Record(world, later, old(assignments.rows), inTx, customer, order, lines)
    {
      hide CanonicalUnitID, Trim, UnitID, Apply, CheckLines, P.WriteAll, Writes, WritePrefix, AnyOnReturn;
      var orderID := Trim(order);
      if orderID == "" { return O.Refuse(Validation); }
      var snapshot := assignments.rows;
      var bound, free;
      r, bound, free := CheckAll(Trim(customer), orderID, lines);
      if r.Refuse? { return; }
      ChecksName(world, Trim(customer), orderID, lines);
      if |bound| == 0 {
        r := WriteLines(orderID, free);
        if r.Refuse? && inTx { assignments.rows := snapshot; }
        return;
      }
      var blocked := AnyOnReturn(world.(onReturn := later), LockUnits(orderID, bound));
      if blocked { return O.Refuse(Validation); }
      r := WriteLines(orderID, bound + free);
      if r.Refuse? { assignments.rows := snapshot; }
    }
  }

  lemma {:induction false} ChecksFail(w: O.World, customerID: string, orderID: string, lines: seq<Line>, k: nat)
    requires k <= |lines| && CheckLines(w, customerID, orderID, lines[..k]).Refuse?
    ensures CheckLines(w, customerID, orderID, lines) == CheckLines(w, customerID, orderID, lines[..k])
    decreases |lines|
  {
    hide CheckLine;
    if k < |lines| {
      assert lines[..|lines| - 1][..k] == lines[..k];
      ChecksFail(w, customerID, orderID, lines[..|lines| - 1], k);
    } else {
      assert lines[..k] == lines;
    }
  }

  /** Lines that pass name a child unit. */
  lemma {:induction false} ChecksName(w: O.World, customerID: string, orderID: string, lines: seq<Line>)
    requires CheckLines(w, customerID, orderID, lines).Pass?
    ensures forall b, i :: 0 <= i < |Lines(lines, b)| ==> UnitID(orderID, Lines(lines, b)[i].unit.variant) != ""
  {
    hide UnitID, Trim, CanonicalUnitID, O.OnReturn, O.CheckPurchaseAll;
    if lines != [] { ChecksName(w, customerID, orderID, lines[..|lines| - 1]); }
  }

  lemma UnitIsTrimmed(orderID: string, variant: string)
    ensures Trim(UnitID(orderID, variant)) == UnitID(orderID, variant)
    ensures Trim("") == ""
  {
    TrimIsTrimmed(orderID);
    TrimIsTrimmed(variant);
    TrimIsTrimmed(UnitID(orderID, variant));
  }

  lemma ParentIsTrimmed(raw: string)
    ensures Trim(CanonicalUnitID(raw).GetOr("")) == CanonicalUnitID(raw).GetOr("")
  {
    hide CanonicalUnitID;
    TrimIsTrimmed("");
    if CanonicalUnitID(raw).Some? {
      CanonicalIsFixed(raw);
      CanonicalLocksItself(CanonicalUnitID(raw).value);
    }
  }
}

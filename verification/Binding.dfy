/** AssignOwned: a customer binds a child unit to a parent unit, and how far the listing
    of parents offers what can be bound. */
module Binding {
  import opened Text
  import opened Units
  import opened T = AssignmentTable
  import O = OwnedParents

  /** The bind after its checks: an unassigned row is assigned, a missing one is inserted. */
  function BindRow(t: Table, child: string, parent: string, newID: string): Result<Table> {
    match CurrentByChild(t, child)
    case Some(r) => if r.status == Assigned then Err(Conflict) else Apply(t, Op.Assign(r.id, parent, ""))
    case None => Apply(t, Op.CreateAssigned(Trim(newID), parent, child, ""))
  }

  predicate HasLive(t: Table, child: string) {
    CurrentByChild(t, child).Some? && CurrentByChild(t, child).value.status == Assigned
  }

  /** AssignOwned on canonical units, for a customer who is signed in. later is what is on a
      return once the locks are held. */
  function BindUnits(w: O.World, later: set<string>, t: Table, customerID: string, child: string, parent: string, newID: string): Result<Table> {
    match O.RequireOwnedUnit(w, customerID, child)
    case Err(e) => Err(e)
    case Ok(product) =>
      match O.RequireOwnedUnit(w, customerID, parent)
      case Err(e) => Err(e)
      case Ok(_) =>
        if O.OnReturn(w, child) || O.OnReturn(w, parent) then Err(Validation) else
          match O.CheckPurchaseAll(w, customerID, O.EligibilityIDs(w, product), O.Context("", parent))
          case Refuse(e) => Err(e)
          case Pass =>
            if HasLive(t, child) then Err(Conflict)
            else if O.OnReturn(w.(onReturn := later), child) || O.OnReturn(w.(onReturn := later), parent) then Err(Validation)
            else BindRow(t, child, parent, newID)
  }

  function Bind(w: O.World, later: set<string>, t: Table, customer: string, childID: string, parentID: string, newID: string): Result<Table> {
    if Trim(customer) == "" || CanonicalUnitID(childID).None? || CanonicalUnitID(parentID).None? then Err(Validation)
    else BindUnits(w, later, t, Trim(customer), CanonicalUnitID(childID).value, CanonicalUnitID(parentID).value, newID)
  }

  lemma UuidIsTrimmed(id: string)
    requires IsUUID(id)
    ensures Trim(id) == id != ""
  {
    assert IsHex(id[0]) && IsHex(id[35]);
    assert Trimmed(id);
    TrimIsTrimmed(id);
  }

  // ---- What a bind writes ----

  lemma CurrentIndex(t: Table, child: string) returns (i: nat)
    requires TableInv(t) && CurrentByChild(t, child).Some?
    ensures i < |t| && t[i] == CurrentByChild(t, child).value && IndexById(t, t[i].id) == i
  {
    var cur := CurrentByChild(t, child).value;
    i :| 0 <= i < |t| && t[i] == cur;
    IndexByIdIs(t, i);
  }

  predicate IsBound(r: Row, child: string, parent: string) {
    r.status == Assigned && r.child == child && r.parent == parent
  }

  /** t' binds the child to the parent: its row, unassigned or new, is now assigned to the
      parent, and no other row is touched. */
  predicate Binds(t: Table, t': Table, child: string, parent: string) {
    || (CurrentByChild(t, child).None? && |t'| == |t| + 1 && t'[1..] == t && IsBound(t'[0], child, parent))
    || (|t'| == |t| && exists i :: 0 <= i < |t| && t[i].child == child && t[i].status == Unassigned
                                   && IsBound(t'[i], child, parent) && t'[i].id == t[i].id && t' == t[i := t'[i]])
  }

  lemma BindRowBinds(t: Table, child: string, parent: string, newID: string)
    requires TableInv(t) && BindRow(t, child, parent, newID).Ok?
    ensures TableInv(BindRow(t, child, parent, newID).value) && Binds(t, BindRow(t, child, parent, newID).value, child, parent)
  {
    hide IsUUID, TableInv;
    match CurrentByChild(t, child) {
      case None =>
        var op := Op.CreateAssigned(Trim(newID), parent, child, "");
        ApplyKeeps(t, op);
        var r, i := ApplyWrites(t, op);
        assert ([r] + t)[1..] == t;
      case Some(cur) =>
        var op := Op.Assign(cur.id, parent, "");
        ApplyKeeps(t, op);
        var r, i := ApplyWrites(t, op);
        var j := CurrentIndex(t, child);
        assert t[i := r][i] == r && t[i].child == child;
    }
  }

  /** Success binds exactly this child to exactly this parent, in canonical spelling. */
  lemma BindBinds(w: O.World, later: set<string>, t: Table, customer: string, childID: string, parentID: string, newID: string)
    requires TableInv(t) && Bind(w, later, t, customer, childID, parentID, newID).Ok?
    ensures CanonicalUnitID(childID).Some? && CanonicalUnitID(parentID).Some?
    ensures var t' := Bind(w, later, t, customer, childID, parentID, newID).value;
            TableInv(t') && Binds(t, t', CanonicalUnitID(childID).value, CanonicalUnitID(parentID).value)
  {
    hide CanonicalUnitID, O.RequireOwnedUnit, O.OnReturn, O.CheckPurchaseAll, TableInv, Binds, BindRow, Trim;
    BindRowBinds(t, CanonicalUnitID(childID).value, CanonicalUnitID(parentID).value, newID);
  }

  // ---- What is offered is what can be bound ----

  /** The listing shows a unit exactly when it is the unit of an order line that passes the parent checks. */
  predicate Listed(parents: seq<O.OwnedParent>, unit: string) {
    exists i :: 0 <= i < |parents| && parents[i].unitID == unit
  }

  predicate UnitOfOrder(o: O.Order, k: nat, unit: string)
    requires k <= |o.items|
  {
    exists j :: 0 <= j < k && UnitID(o.id, o.items[j].variantID) == unit
  }

  lemma {:induction false} ListedInOrder(w: O.World, customerID: string, leaves: seq<string>, o: O.Order, k: nat, unit: string)
    requires k <= |o.items|
    ensures Listed(O.AcceptedItems(w, customerID, leaves, o, k), unit)
            <==> UnitOfOrder(o, k, unit) && O.CheckParent(w, customerID, leaves, unit).Pass?
  {
    hide O.CheckParent, UnitID;
    if k > 0 {
      ListedInOrder(w, customerID, leaves, o, k - 1, unit);
      var v := o.items[k - 1].variantID;
      var head := O.AcceptedItems(w, customerID, leaves, o, k - 1);
      var last := O.Describe(w, O.Line(o, o.items[k - 1]));
      assert UnitOfOrder(o, k, unit) <==> UnitOfOrder(o, k - 1, unit) || UnitID(o.id, v) == unit;
      if O.CheckParent(w, customerID, leaves, UnitID(o.id, v)).Pass? {
        ListedAppend(head, last, unit);
      } else {
        assert head + [] == head;
      }
    }
  }

  lemma ListedAppend(a: seq<O.OwnedParent>, p: O.OwnedParent, unit: string)
    ensures Listed(a + [p], unit) <==> Listed(a, unit) || p.unitID == unit
  {
    ListedConcat(a, [p], unit);
    if p.unitID == unit { assert [p][0].unitID == unit; }
  }

  lemma ListedConcat(a: seq<O.OwnedParent>, b: seq<O.OwnedParent>, unit: string)
    ensures Listed(a + b, unit) <==> Listed(a, unit) || Listed(b, unit)
  {
    var c := a + b;
    if Listed(a, unit) { var i :| 0 <= i < |a| && a[i].unitID == unit; assert c[i].unitID == unit; }
    if Listed(b, unit) { var i :| 0 <= i < |b| && b[i].unitID == unit; assert c[|a| + i].unitID == unit; }
    if Listed(c, unit) {
      var i :| 0 <= i < |c| && c[i].unitID == unit;
      if i < |a| { assert a[i].unitID == unit; } else { assert b[i - |a|].unitID == unit; }
    }
  }

  predicate UnitOfStore(orders: seq<O.Order>, unit: string) {
    exists i :: 0 <= i < |orders| && UnitOfOrder(orders[i], |orders[i].items|, unit)
  }

  lemma {:induction false} ListedInStore(w: O.World, customerID: string, leaves: seq<string>, orders: seq<O.Order>, unit: string)
    ensures Listed(O.Accepted(w, customerID, leaves, orders), unit)
            <==> UnitOfStore(orders, unit) && O.CheckParent(w, customerID, leaves, unit).Pass?
  {
    hide O.CheckParent, UnitOfOrder, O.AcceptedItems;
    if orders != [] {
      var n := |orders| - 1;
      var o := orders[n];
      ListedInStore(w, customerID, leaves, orders[..n], unit);
      ListedInOrder(w, customerID, leaves, o, |o.items|, unit);
      ListedConcat(O.Accepted(w, customerID, leaves, orders[..n]), O.AcceptedItems(w, customerID, leaves, o, |o.items|), unit);
      assert orders == orders[..n] + [o];
      StoreAppend(orders[..n], o, unit);
    }
  }

  lemma StoreAppend(orders: seq<O.Order>, o: O.Order, unit: string)
    ensures UnitOfStore(orders + [o], unit) <==> UnitOfStore(orders, unit) || UnitOfOrder(o, |o.items|, unit)
  {
    hide UnitOfOrder;
    var all := orders + [o];
    if UnitOfStore(orders, unit) {
      var i :| 0 <= i < |orders| && UnitOfOrder(orders[i], |orders[i].items|, unit);
      assert all[i] == orders[i];
    }
    if UnitOfOrder(o, |o.items|, unit) { assert all[|orders|] == o; }
    if UnitOfStore(all, unit) {
      var i :| 0 <= i < |all| && UnitOfOrder(all[i], |all[i].items|, unit);
      if i < |orders| { assert orders[i] == all[i]; }
    }
  }

  /** An owned unit is the unit of a stored order line. */
  lemma OwnedIsStored(w: O.World, customerID: string, unit: string)
    requires IsCanonical(unit) && O.RequireOwnedUnit(w, customerID, unit).Ok?
    ensures UnitOfStore(w.orders, unit)
  {
    hide IsUUID;
    var orderID, variantID := CanonicalParts(unit);
    assert SplitUnitID(unit) == Some((orderID, variantID)) by { MintedUnitIsCanonical(orderID, variantID); }
    var i := FoundOrder(w.orders, orderID);
    var o := w.orders[i];
    var j :| 0 <= j < |o.items| && o.items[j].variantID == variantID;
    assert UnitOfOrder(o, |o.items|, unit);
  }

  lemma {:induction false} FoundOrder(orders: seq<O.Order>, id: string) returns (i: nat)
    requires O.FindOrder(orders, id).Some?
    ensures i < |orders| && orders[i].id == id && O.FindOrder(orders, id) == Some(orders[i])
  {
    if orders[0].id == id {
      i := 0;
    } else {
      i := FoundOrder(orders[1..], id);
      i := i + 1;
    }
  }

  /** The write of a bind is refused only for a bad id: a new row needs an unused id. */
  lemma WriteSucceeds(t: Table, child: string, parent: string, newID: string)
    requires TableInv(t) && UuidRows(t) && !HasLive(t, child) && child != "" && parent != "" && child != parent
    requires Trim(newID) != "" && IndexById(t, Trim(newID)) == |t|
    ensures BindRow(t, child, parent, newID).Ok?
  {
    hide IsUUID, Trim;
    if CurrentByChild(t, child).Some? {
      var i := CurrentIndex(t, child);
      assert ValidRow(t[i]);
    }
  }

  /** For an owned child off every return and without a live row, the units that AssignOwned will
      bind it to, no return having come in between, are exactly the parents that ListOwnedParents
      offers, less the child itself. */
  lemma OfferedIffBindable(w: O.World, t: Table, customerID: string, child: string, parent: string, newID: string, product: string)
    requires Trim(customerID) == customerID != "" && IsCanonical(child) && IsCanonical(parent)
    requires O.RequireOwnedUnit(w, customerID, child) == Ok(product) && !O.OnReturn(w, child) && !HasLive(t, child)
    requires TableInv(t) && UuidRows(t) && Trim(newID) != "" && IndexById(t, Trim(newID)) == |t|
    ensures Bind(w, w.onReturn, t, customerID, child, parent, newID).Ok?
            <==> Listed(O.Accepted(w, customerID, O.EligibilityIDs(w, product), w.orders), parent) && child != parent
  {
    hide CanonicalUnitID, O.RequireOwnedUnit, O.OnReturn, O.CheckPurchaseAll, O.EligibilityIDs, O.Accepted, Listed, BindRow, Trim, TableInv, UnitOfStore, HasLive, UuidRows, IndexById;
    ListedInStore(w, customerID, O.EligibilityIDs(w, product), w.orders, parent);
    assert child != "" && parent != "" by { NotBlank(child); NotBlank(parent); }
    if child == parent {
      SelfBindRefused(w, w.onReturn, t, customerID, child, parent, newID);
    } else {
      WriteSucceeds(t, child, parent, newID);
    }
    if O.RequireOwnedUnit(w, customerID, parent).Ok? { OwnedIsStored(w, customerID, parent); }
    assert w.(onReturn := w.onReturn) == w;
  }

  /** An owned unit is the unit of an owned line, said of the stored rows, and the line's product is its product. */
  lemma OwnedIsLine(w: O.World, customerID: string, unit: string)
    requires O.WellFormed(w) && customerID != "" && Trimmed(customerID) && IsCanonical(unit)
    ensures O.RequireOwnedUnit(w, customerID, unit).Ok? <==> exists i: nat, k: nat :: O.OwnsLine(w, customerID, i, k, unit)
    ensures forall i: nat, k: nat :: O.OwnsLine(w, customerID, i, k, unit) ==>
              O.RequireOwnedUnit(w, customerID, unit) == Ok(w.variants[w.orders[i].items[k].variantID])
  {
    hide CanonicalUnitID, O.RequireOwnedUnit, O.WellFormed, UnitID, O.OwnedOrder, UnitOfOrder;
    forall i: nat, k: nat | O.OwnsLine(w, customerID, i, k, unit)
      ensures O.RequireOwnedUnit(w, customerID, unit) == Ok(w.variants[w.orders[i].items[k].variantID])
    {
      O.OwnedUnitOfLine(w, customerID, i, k);
    }
    if O.RequireOwnedUnit(w, customerID, unit).Ok? {
      TrimIsTrimmed(customerID);
      OwnedIsStored(w, customerID, unit);
      var i :| 0 <= i < |w.orders| && UnitOfOrder(w.orders[i], |w.orders[i].items|, unit);
      var k := ItemOf(w.orders[i], unit);
      O.OwnedUnitOfLine(w, customerID, i, k);
      assert O.OwnsLine(w, customerID, i, k, unit);
    }
  }

  lemma ItemOf(o: O.Order, unit: string) returns (k: nat)
    requires UnitOfOrder(o, |o.items|, unit)
    ensures k < |o.items| && UnitID(o.id, o.items[k].variantID) == unit
  {
    k :| 0 <= k < |o.items| && UnitID(o.id, o.items[k].variantID) == unit;
  }

  /** What a bind of this child to this parent takes, said of the stored rows. */
  ghost predicate Bindable(w: O.World, later: set<string>, t: Table, customerID: string, child: string, parent: string) {
    && child != parent && {child, parent} !! w.onReturn && {child, parent} !! later
    && (forall r :: r in t && r.child == child ==> r.status != Assigned)
    && exists i: nat, k: nat, j: nat, m: nat ::
         O.OwnsLine(w, customerID, i, k, child) && O.OwnsLine(w, customerID, j, m, parent)
         && O.AllFit(w, Trim(w.variants[w.orders[i].items[k].variantID]), Trim(w.variants[w.orders[j].items[m].variantID]))
  }

  /** Exactly when AssignOwned binds: both units are of paid or free, open orders of the customer,
      neither is on a return before or under the locks, every product that must fit is allowed under
      the parent's, the child has no live row, and it is not its own parent. */
  lemma BindsIff(w: O.World, later: set<string>, t: Table, customer: string, childID: string, parentID: string, newID: string)
    requires O.WellFormed(w) && TableInv(t) && UuidRows(t) && Trim(newID) != "" && IndexById(t, Trim(newID)) == |t|
    ensures Bind(w, later, t, customer, childID, parentID, newID).Ok? <==>
            Trim(customer) != "" && CanonicalUnitID(childID).Some? && CanonicalUnitID(parentID).Some?
            && Bindable(w, later, t, Trim(customer), CanonicalUnitID(childID).value, CanonicalUnitID(parentID).value)
  {
    hide CanonicalUnitID, BindUnits, Bindable, Trim, TableInv, UuidRows, O.WellFormed;
    if Trim(customer) != "" && CanonicalUnitID(childID).Some? && CanonicalUnitID(parentID).Some? {
      CanonicalIsFixed(childID);
      CanonicalIsFixed(parentID);
      TrimIsTrimmed(customer);
      BindsUnitsIff(w, later, t, Trim(customer), CanonicalUnitID(childID).value, CanonicalUnitID(parentID).value, newID);
    }
  }

  lemma BindsUnitsIff(w: O.World, later: set<string>, t: Table, customerID: string, child: string, parent: string, newID: string)
    requires O.WellFormed(w) && TableInv(t) && UuidRows(t) && Trim(newID) != "" && IndexById(t, Trim(newID)) == |t|
    requires customerID != "" && Trimmed(customerID) && Trim(customerID) == customerID && IsCanonical(child) && IsCanonical(parent)
    ensures BindUnits(w, later, t, customerID, child, parent, newID).Ok? <==> Bindable(w, later, t, customerID, child, parent)
  {
    hide CanonicalUnitID, O.RequireOwnedUnit, O.CheckPurchaseAll, O.EligibilityIDs, O.AllFit, BindRow, Trim, TableInv, UuidRows,
         O.WellFormed, O.OwnsLine, IndexById, CurrentByChild;
    OwnedIsLine(w, customerID, child);
    OwnedIsLine(w, customerID, parent);
    LiveIs(t, child);
    assert child != "" && parent != "" by { NotBlank(child); NotBlank(parent); }
    if child == parent { SelfRowRefused(t, child, newID); } else if !HasLive(t, child) { WriteSucceeds(t, child, parent, newID); }
    if O.RequireOwnedUnit(w, customerID, child).Ok? && O.RequireOwnedUnit(w, customerID, parent).Ok? && !O.OnReturn(w, parent) {
      ChecksAreFit(w, customerID, child, parent);
    }
  }

  lemma LiveIs(t: Table, child: string)
    requires TableInv(t)
    ensures HasLive(t, child) <==> exists r :: r in t && r.child == child && r.status == Assigned
  {
    if r :| r in t && r.child == child && r.status == Assigned {
      var i :| 0 <= i < |t| && t[i] == r;
      var c := CurrentByChild(t, child).value;
      var j :| 0 <= j < |t| && t[j] == c;
      assert i == j;
    }
  }

  lemma ChecksAreFit(w: O.World, customerID: string, child: string, parent: string)
    requires O.WellFormed(w) && Trim(customerID) == customerID != "" && Trimmed(customerID) && IsCanonical(child) && IsCanonical(parent)
    requires O.RequireOwnedUnit(w, customerID, child).Ok? && O.RequireOwnedUnit(w, customerID, parent).Ok? && !O.OnReturn(w, parent)
    ensures var product, other := O.RequireOwnedUnit(w, customerID, child).value, O.RequireOwnedUnit(w, customerID, parent).value;
            O.CheckPurchaseAll(w, customerID, O.EligibilityIDs(w, product), O.Context("", parent)).Pass? <==> O.AllFit(w, Trim(product), Trim(other))
  {
    hide CanonicalUnitID, O.RequireOwnedUnit, O.CheckPurchaseAll, O.EligibilityIDs, O.AllFit, O.OnReturn, Trim, O.WellFormed, O.OwnsLine, O.EligibleFor;
    OwnedIsLine(w, customerID, child);
    OwnedIsLine(w, customerID, parent);
    var i: nat, k: nat :| O.OwnsLine(w, customerID, i, k, child);
    var j: nat, m: nat :| O.OwnsLine(w, customerID, j, m, parent);
    OwnedProductKnown(w, customerID, i, k, child);
    OwnedProductKnown(w, customerID, j, m, parent);
    var product, other := w.variants[w.orders[i].items[k].variantID], w.variants[w.orders[j].items[m].variantID];
    TrimIsTrimmed(product);
    O.IDsOfTrimmed(w, product);
    NotBlank(parent);
    CanonicalLocksItself(parent);
    O.IDsStored(w, product);
    O.EligibilityAgrees(w, customerID, O.EligibilityIDs(w, product), parent);
    O.EligibleIsFit(w, Trim(product), other);
  }

  lemma OwnedProductKnown(w: O.World, customerID: string, i: nat, k: nat, unit: string)
    requires O.OwnsLine(w, customerID, i, k, unit)
    ensures i < |w.orders| && k < |w.orders[i].items| && w.orders[i].items[k].variantID in w.variants
    ensures Trim(w.variants[w.orders[i].items[k].variantID]) != ""
  {
  }

  /** No spelling of a unit can be bound to another spelling of itself. */
  lemma SelfBindRefused(w: O.World, later: set<string>, t: Table, customer: string, childID: string, parentID: string, newID: string)
    requires TableInv(t) && CanonicalUnitID(childID) == CanonicalUnitID(parentID)
    ensures Bind(w, later, t, customer, childID, parentID, newID).Err?
  {
    hide CanonicalUnitID, O.RequireOwnedUnit, O.OnReturn, O.CheckPurchaseAll, BindRow, Trim, TableInv;
    if CanonicalUnitID(childID).Some? { SelfRowRefused(t, CanonicalUnitID(childID).value, newID); }
  }

  lemma SelfRowRefused(t: Table, unit: string, newID: string)
    requires TableInv(t)
    ensures BindRow(t, unit, unit, newID).Err?
  {
    hide IsUUID, Trim;
    if CurrentByChild(t, unit).Some? {
      var i := CurrentIndex(t, unit);
      assert t[i].child == unit;
    }
  }

  /** A bundle that needs no linked parent itself, all of whose linked leaves are eligible under it. */
  predicate HostsItsLeaves(w: O.World, product: string) {
    product in w.products && !w.products[product].requiresLinkedParent && w.products[product].isBundle &&
    var leaves := O.LinkedLeaves(w, O.ComponentsOf(w, product));
    leaves != [] && forall i :: 0 <= i < |leaves| ==> Fold(leaves[i]) != Fold(product) && (leaves[i], product) in w.rules
  }

  /** Exactly for such a product the listing offers an owned unit as its own parent. */
  lemma SelfOfferedIff(w: O.World, customerID: string, unit: string, product: string)
    requires O.WellFormed(w) && Trim(customerID) == customerID != "" && IsCanonical(unit) && O.StoredID(product)
    requires O.RequireOwnedUnit(w, customerID, unit) == Ok(product) && !O.OnReturn(w, unit)
    ensures Listed(O.Accepted(w, customerID, O.EligibilityIDs(w, product), w.orders), unit) <==> HostsItsLeaves(w, product)
  {
    hide CanonicalUnitID, O.RequireOwnedUnit, O.OnReturn, O.CheckPurchaseAll, O.EligibilityIDs, O.Accepted, Listed, Trim,
         O.WellFormed, UnitOfStore, O.EligibleFor, HostsItsLeaves, O.AllStored;
    var ids := O.EligibilityIDs(w, product);
    assert Trim(product) == product != "" by { assert O.StoredID(product); TrimIsTrimmed(product); }
    CanonicalLocksItself(unit);
    NotBlank(unit);
    O.IDsStored(w, product);
    ListedInStore(w, customerID, ids, w.orders, unit);
    OwnedIsStored(w, customerID, unit);
    O.EligibilityAgrees(w, customerID, ids, unit);
    HostsIsEligible(w, product);
  }

  lemma HostsIsEligible(w: O.World, product: string)
    requires O.WellFormed(w) && Trim(product) == product != ""
    ensures O.EligibleFor(w, O.EligibilityIDs(w, product), product) == Ok(true) <==> HostsItsLeaves(w, product)
  {
    hide Trim, Fold, O.EligibleFor, O.LinkedLeaves, O.OrderWellFormed;
    O.IDsStored(w, product);
    var ids := O.EligibilityIDs(w, product);
    O.AllEligible(w, ids, product);
    assert forall i :: 0 <= i < |ids| ==> ids[i] in ids;
    if ids == [product] { assert ids[0] == product; }
    if product in w.products { assert w.products[product].id == product; }
  }

  /** For instance, a bundle with one required linked leaf and a rule that allows the leaf under it:
      its own unit is offered, and binding the unit to it is refused. */
  lemma BundleOffersItself(w: O.World, t: Table, customerID: string, unit: string, newID: string, bundle: string, leaf: string)
    requires O.WellFormed(w) && Trim(customerID) == customerID != "" && IsCanonical(unit) && O.StoredID(bundle)
    requires O.RequireOwnedUnit(w, customerID, unit) == Ok(bundle) && !O.OnReturn(w, unit) && TableInv(t)
    requires bundle in w.products && w.products[bundle] == O.Product(bundle, false, true)
    requires O.ComponentsOf(w, bundle) == [O.Component(leaf, true)]
    requires leaf in w.products && w.products[leaf].requiresLinkedParent
    requires Fold(leaf) != Fold(bundle) && (leaf, bundle) in w.rules
    ensures O.EligibilityIDs(w, bundle) == [leaf]
    ensures Listed(O.Accepted(w, customerID, [leaf], w.orders), unit)
    ensures Bind(w, w.onReturn, t, customerID, unit, unit, newID).Err?
  {
    hide CanonicalUnitID, O.RequireOwnedUnit, O.OnReturn, O.Accepted, Listed, Bind, Fold, O.WellFormed, TableInv;
    var rows := [O.Component(leaf, true)];
    assert rows[..0] == [] && O.LinkedLeaves(w, rows) == [leaf];
    assert Trim(bundle) == bundle by { TrimIsTrimmed(bundle); }
    SelfOfferedIff(w, customerID, unit, bundle);
    SelfBindRefused(w, w.onReturn, t, customerID, unit, unit, newID);
  }

  lemma NotBlank(unit: string)
    requires IsCanonical(unit)
    ensures unit != ""
  {
    var o, v := CanonicalParts(unit);
    MintedUnitIsCanonical(o, v);
  }

  // ---- The flow ----

  class Flow {
    const assignments: Service
    const world: O.World

    constructor (s: Service, w: O.World)
      ensures assignments == s && world == w
    {
      assignments := s;
      world := w;
    }

    /** The checks before anything is locked or written. */
    method CheckUnits(customerID: string, child: string, parent: string) returns (r: O.Check)
      ensures r.Refuse? ==> forall later, t, newID ::
                BindUnits(world, later, t, customerID, child, parent, newID) == Err(r.error)
      ensures r.Pass? ==> forall later, t, newID ::
                BindUnits(world, later, t, customerID, child, parent, newID) ==
                  if HasLive(t, child) then Err(Conflict)
                  else if O.OnReturn(world.(onReturn := later), child) || O.OnReturn(world.(onReturn := later), parent) then Err(Validation)
                  else BindRow(t, child, parent, newID)
    {
      hide CanonicalUnitID, O.RequireOwnedUnit, O.OnReturn, O.CheckPurchaseAll, O.EligibilityIDs, HasLive, BindRow;
      var owned := O.RequireOwnedUnit(world, customerID, child);
      if owned.Err? { return O.Refuse(owned.error); }
      var other := O.RequireOwnedUnit(world, customerID, parent);
      if other.Err? { return O.Refuse(other.error); }
      if O.OnReturn(world, child) || O.OnReturn(world, parent) { return O.Refuse(Validation); }
      var ids := O.ChildEligibilityIDs(world, owned.value);
      r := O.RunCheckPurchaseAll(world, customerID, ids, O.Context("", parent));
    }

    /** Reads the current row before locking and rechecks the returns under the locks; the write
        itself is one service operation. */
    method AssignOwned(later: set<string>, customer: string, childID: string, parentID: string, newID: string) returns (r: Result<Row>)
      requires TableInv(assignments.rows) && UuidRows(assignments.rows)
      modifies assignments
      ensures match Bind(world, later, old(assignments.rows), customer, childID, parentID, newID)
              case Err(e) => r == Err(e) && assignments.rows == old(assignments.rows)
              case Ok(t) => r.Ok? && assignments.rows == t
    {
      hide CanonicalUnitID, O.RequireOwnedUnit, O.OnReturn, O.CheckPurchaseAll, Trim, Apply, TableInv, IsUUID, BindUnits;
      var customerID := Trim(customer);
      if customerID == "" { return Err(Validation); }
      var child := CanonicalUnitID(childID);
      if child.None? { return Err(Validation); }
      var parent := CanonicalUnitID(parentID);
      if parent.None? { return Err(Validation); }
      var checked := CheckUnits(customerID, child.value, parent.value);
      if checked.Refuse? { return Err(checked.error); }
      var current := CurrentByChild(assignments.rows, child.value);
      if current.Some? && current.value.status == Assigned { return Err(Conflict); }
      var underLocks := world.(onReturn := later);
      if O.OnReturn(underLocks, child.value) || O.OnReturn(underLocks, parent.value) { return Err(Validation); }
      CanonicalTrims(childID);
      CanonicalTrims(parentID);
      match current {
        case Some(cur) =>
          ghost var i := CurrentIndex(assignments.rows, child.value);
          UuidIsTrimmed(cur.id);
          r := assignments.Assign(cur.id, parent.value, "");
        case None =>
          r := assignments.CreateAssigned(newID, parent.value, child.value, "");
      }
    }
  }

  lemma CanonicalTrims(raw: string)
    requires CanonicalUnitID(raw).Some?
    ensures Trim(CanonicalUnitID(raw).value) == CanonicalUnitID(raw).value && Trim("") == ""
  {
    hide CanonicalUnitID;
    TrimIsTrimmed("");
    CanonicalIsFixed(raw);
    CanonicalLocksItself(CanonicalUnitID(raw).value);
  }
}

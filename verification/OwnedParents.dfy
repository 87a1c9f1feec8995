/** Which order lines a customer may bind a child to: the checks AssignOwned
    makes on one parent unit, and the batched listing that must agree with them. */
module OwnedParents {
  import opened Text
  import opened Units
  import opened T = AssignmentTable

  datatype OrderStatus = Pending | Confirmed | Paid | Cancelled | Failed
  datatype PaymentStatus = PaymentPending | Completed | PaymentFailed | Refunded

  datatype Item = Item(variantID: string, name: string)
  datatype Order = Order(id: string, customerID: string, status: OrderStatus, items: seq<Item>, payable: int)
  datatype Product = Product(id: string, requiresLinkedParent: bool, isBundle: bool)
  datatype Component = Component(productID: string, required: bool)

  /** What the repositories hold while a request reads them. orders are newest
      first; onReturn are the units on a return that blocks them. */
  datatype World = World(
    orders: seq<Order>,
    payments: map<string, PaymentStatus>,    // by order id
    variants: map<string, string>,           // product id of each variant
    products: map<string, Product>,
    components: map<string, seq<Component>>, // by bundle product id
    rules: set<(string, string)>,            // (child product, parent product)
    onReturn: set<string>)

  /** Outcome of a check that yields nothing. */
  datatype Check = Pass | Refuse(error: Error)

  datatype OwnedParent = OwnedParent(unitID: string, orderID: string, variantID: string, productID: string, name: string)

  /** What the schema guarantees of stored ids. */
  predicate WellFormed(w: World) {
    && (forall i :: 0 <= i < |w.orders| ==> OrderWellFormed(w.orders[i]))
    && (forall i, j :: 0 <= i < j < |w.orders| ==> w.orders[i].id != w.orders[j].id)
    && (forall k :: k in w.products ==> w.products[k].id == k)
    && (forall b :: b in w.components ==> forall i :: 0 <= i < |w.components[b]| ==> StoredID(w.components[b][i].productID))
  }

  predicate OrderWellFormed(o: Order) {
    && IsUUID(o.id) && Fold(o.id) == o.id && Trimmed(o.customerID)
    && forall i :: 0 <= i < |o.items| ==> StoredID(o.items[i].variantID)
  }

  predicate StoredID(id: string) { id != "" && Trimmed(id) }

  predicate AllStored(ids: seq<string>) {
    forall i :: 0 <= i < |ids| ==> StoredID(ids[i])
  }

  // ---- The checks on one unit ----

  predicate Closed(o: Order) { o.status == Cancelled || o.status == Failed }

  /** orderOwnedWithPayment */
  predicate OwnedWith(o: Order, payment: Option<PaymentStatus>) {
    !Closed(o) && match payment case Some(p) => p == Completed case None => o.payable == 0
  }

  function PaymentOf(payments: map<string, PaymentStatus>, id: string): Option<PaymentStatus> {
    if id in payments then Some(payments[id]) else None
  }

  function FindOrder(orders: seq<Order>, id: string): Option<Order> {
    if orders == [] then None else if orders[0].id == id then Some(orders[0]) else FindOrder(orders[1..], id)
  }

  predicate HasVariant(items: seq<Item>, variantID: string) {
    exists i :: 0 <= i < |items| && items[i].variantID == variantID
  }

  /** requireOwnedUnit: the product of the unit, when the customer owns it. */
  function RequireOwnedUnit(w: World, customerID: string, unitID: string): Result<string> {
    match CanonicalUnitID(unitID)
    case None => Err(Validation)
    case Some(unit) =>
      match SplitUnitID(unit)
      case None => Err(Validation)
      case Some((orderID, variantID)) =>
        if Trim(customerID) == "" then Err(Validation) else
          match FindOrder(w.orders, orderID)
          case None => Err(Validation)
          case Some(o) => OwnedProduct(w, customerID, o, variantID)
  }

  function OwnedProduct(w: World, customerID: string, o: Order, variantID: string): Result<string> {
    if Trim(o.customerID) != customerID || !OwnedWith(o, PaymentOf(w.payments, o.id)) then Err(Validation)
    else if !HasVariant(o.items, variantID) || variantID !in w.variants || Trim(w.variants[variantID]) == "" then Err(Validation)
    else Ok(w.variants[variantID])
  }

  /** LinkedEligibilityService.IsEligible */
  function IsEligible(w: World, childID: string, parentID: string): Result<bool> {
    var c, p := Trim(childID), Trim(parentID);
    if c == "" || p == "" then Err(Validation)
    else Ok(Fold(c) != Fold(p) && (c, p) in w.rules)
  }

  /** assertUnitsNotOnOpenReturn */
  predicate OnReturn(w: World, unitID: string) {
    CanonicalUnitID(unitID).Some? && CanonicalUnitID(unitID).value in w.onReturn
  }

  /** What a purchase says about its parent: a catalog product, an owned unit, or both. */
  datatype Context = Context(parentProductID: string, parentUnitID: string)

  function TrimContext(ac: Context): Context {
    Context(Trim(ac.parentProductID), Trim(ac.parentUnitID))
  }

  /** resolveParentProduct, on a trimmed context. */
  function ParentProduct(w: World, customerID: string, ac: Context): Result<string> {
    if ac.parentUnitID == "" then Ok(ac.parentProductID)
    else if customerID == "" then Err(Validation)
    else
      match RequireOwnedUnit(w, customerID, ac.parentUnitID)
      case Err(e) => Err(e)
      case Ok(product) =>
        if ac.parentProductID != "" && ac.parentProductID != product then Err(Validation) else Ok(product)
  }

  function CheckPurchase(w: World, customerID: string, childProductID: string, context: Context): Check {
    var ac := TrimContext(context);
    if Trim(childProductID) == "" then Refuse(Validation)
    else if ac == Context("", "") then Pass
    else
      match ParentProduct(w, Trim(customerID), ac)
      case Err(e) => Refuse(e)
      case Ok(product) =>
        match IsEligible(w, Trim(childProductID), product)
        case Err(e) => Refuse(e)
        case Ok(ok) => if !ok || OnReturn(w, ac.parentUnitID) then Refuse(Validation) else Pass
  }

  /** Every non-blank child product must pass; the first failure is reported. */
  function CheckPurchaseAll(w: World, customerID: string, ids: seq<string>, ac: Context): Check {
    if ids == [] then Pass
    else
      var n := |ids| - 1;
      match CheckPurchaseAll(w, customerID, ids[..n], ac)
      case Refuse(e) => Refuse(e)
      case Pass => if Trim(ids[n]) == "" then Pass else CheckPurchase(w, customerID, ids[n], ac)
  }

  /** The loop of CheckPurchaseAll, which remembers the ids it has checked. */
  method RunCheckPurchaseAll(w: World, customerID: string, ids: seq<string>, ac: Context) returns (r: Check)
    ensures r == CheckPurchaseAll(w, customerID, ids, ac)
  {
    hide CheckPurchase, Trim;
    var seen: set<string> := {};
    for i := 0 to |ids|
      invariant CheckPurchaseAll(w, customerID, ids[..i], ac) == Pass
      invariant forall c :: c in seen ==> CheckPurchase(w, customerID, c, ac) == Pass
    {
      assert ids[..i + 1][..i] == ids[..i];
      var id := Trim(ids[i]);
      CheckTrims(w, customerID, ids[i], ac);
      if id == "" { continue; }
      if id in seen { continue; }
      seen := seen + {id};
      var c := CheckPurchase(w, customerID, id, ac);
      if c.Refuse? {
        CheckAllFails(w, customerID, ids, ac, i + 1);
        return c;
      }
    }
    assert ids[..|ids|] == ids;
    return Pass;
  }

  lemma CheckTrims(w: World, customerID: string, id: string, ac: Context)
    ensures CheckPurchase(w, customerID, Trim(id), ac) == CheckPurchase(w, customerID, id, ac)
  {
    hide ParentProduct, OnReturn, IsEligible;
    TrimIsTrimmed(id);
  }

  lemma {:induction false} CheckAllFails(w: World, customerID: string, ids: seq<string>, ac: Context, k: nat)
    requires k <= |ids| && CheckPurchaseAll(w, customerID, ids[..k], ac).Refuse?
    ensures CheckPurchaseAll(w, customerID, ids, ac) == CheckPurchaseAll(w, customerID, ids[..k], ac)
    decreases |ids|
  {
    hide CheckPurchase, Trim;
    if k < |ids| {
      assert ids[..|ids| - 1][..k] == ids[..k];
      CheckAllFails(w, customerID, ids[..|ids| - 1], ac, k);
    } else {
      assert ids[..k] == ids;
    }
  }

  /** AssignOwned's checks on the parent unit, for a child whose eligibility ids are leaves. */
  function CheckParent(w: World, customerID: string, leaves: seq<string>, parentUnitID: string): Check {
    if Trim(customerID) == "" then Refuse(Validation) else
      match CanonicalUnitID(parentUnitID)
      case None => Refuse(Validation)
      case Some(parentUnit) =>
        match RequireOwnedUnit(w, Trim(customerID), parentUnit)
        case Err(e) => Refuse(e)
        case Ok(_) =>
          if OnReturn(w, parentUnit) then Refuse(Validation)
          else CheckPurchaseAll(w, Trim(customerID), leaves, Context("", parentUnit))
  }

  // ---- Which products IsEligible must accept ----

  /** Required components whose product needs a linked parent, in component order. */
  function LinkedLeaves(w: World, rows: seq<Component>): seq<string> {
    if rows == [] then [] else
      var n := |rows| - 1;
      var c, rest := rows[n], LinkedLeaves(w, rows[..n]);
      if c.required && c.productID in w.products && w.products[c.productID].requiresLinkedParent
      then rest + [c.productID] else rest
  }

  function ComponentsOf(w: World, bundleID: string): seq<Component> {
    if bundleID in w.components then w.components[bundleID] else []
  }

  /** childEligibilityIDs: the product itself unless it is a bundle with linked leaves. */
  function EligibilityIDs(w: World, productID: string): (ids: seq<string>)
    ensures Trim(productID) != "" ==> ids != []
  {
    var id := Trim(productID);
    if id == "" then []
    else if id !in w.products then [id]
    else
      var p := w.products[id];
      var leaves := LinkedLeaves(w, ComponentsOf(w, p.id));
      if p.requiresLinkedParent then [p.id]
      else if !p.isBundle || leaves == [] then [id] else leaves
  }

  /** LinkedParentChildProductIDs on a bundle: one read of the required components, then a filter. */
  method LinkedChildren(w: World, p: Product) returns (ids: seq<string>)
    ensures p.requiresLinkedParent ==> ids == [p.id]
    ensures !p.requiresLinkedParent && !p.isBundle ==> ids == []
    ensures !p.requiresLinkedParent && p.isBundle ==> ids == LinkedLeaves(w, ComponentsOf(w, p.id))
  {
    if p.requiresLinkedParent { return [p.id]; }
    if !p.isBundle { return []; }
    var rows := ComponentsOf(w, p.id);
    var required: seq<string> := [];
    for i := 0 to |rows|
      invariant required == RequiredIDs(rows[..i])
    {
      assert rows[..i + 1][..i] == rows[..i];
      if rows[i].required { required := required + [rows[i].productID]; }
    }
    assert rows[..|rows|] == rows;
    RequiredThenLinked(w, rows);
    var byID := map id | id in required && id in w.products :: w.products[id];
    ids := [];
    for i := 0 to |required|
      invariant ids == LinkedIDs(w, required[..i])
    {
      assert required[..i + 1][..i] == required[..i];
      if required[i] in byID && byID[required[i]].requiresLinkedParent { ids := ids + [required[i]]; }
    }
    assert required[..|required|] == required;
  }

  method ChildEligibilityIDs(w: World, productID: string) returns (ids: seq<string>)
    ensures ids == EligibilityIDs(w, productID)
  {
    hide Trim, LinkedLeaves;
    var id := Trim(productID);
    if id == "" { return []; }
    if id !in w.products { return [id]; }
    ids := LinkedChildren(w, w.products[id]);
    if |ids| == 0 { return [id]; }
  }

  function RequiredIDs(rows: seq<Component>): seq<string> {
    if rows == [] then [] else
      var n := |rows| - 1;
      if rows[n].required then RequiredIDs(rows[..n]) + [rows[n].productID] else RequiredIDs(rows[..n])
  }

  function LinkedIDs(w: World, ids: seq<string>): seq<string> {
    if ids == [] then [] else
      var n := |ids| - 1;
      if ids[n] in w.products && w.products[ids[n]].requiresLinkedParent
      then LinkedIDs(w, ids[..n]) + [ids[n]] else LinkedIDs(w, ids[..n])
  }

  lemma {:induction false} RequiredThenLinked(w: World, rows: seq<Component>)
    ensures LinkedIDs(w, RequiredIDs(rows)) == LinkedLeaves(w, rows)
  {
    if rows != [] {
      var n := |rows| - 1;
      RequiredThenLinked(w, rows[..n]);
      var ids := RequiredIDs(rows);
      if rows[n].required { assert ids[..|ids| - 1] == RequiredIDs(rows[..n]); }
    }
  }

  lemma {:induction false} LeavesStored(w: World, rows: seq<Component>)
    requires forall i :: 0 <= i < |rows| ==> StoredID(rows[i].productID)
    ensures AllStored(LinkedLeaves(w, rows))
  {
    hide StoredID;
    if rows != [] { LeavesStored(w, rows[..|rows| - 1]); }
  }

  lemma IDsStored(w: World, productID: string)
    requires WellFormed(w) && Trim(productID) != ""
    ensures AllStored(EligibilityIDs(w, productID))
  {
    TrimIsTrimmed(productID);
    var id := Trim(productID);
    if id in w.products { LeavesStored(w, ComponentsOf(w, w.products[id].id)); }
  }

  lemma IDsOfTrimmed(w: World, productID: string)
    ensures EligibilityIDs(w, Trim(productID)) == EligibilityIDs(w, productID)
  {
    TrimIsTrimmed(productID);
  }

  // ---- The listing ----

  datatype Line = Line(order: Order, item: Item)

  function LinesOf(o: Order): seq<Line> {
    seq(|o.items|, i requires 0 <= i < |o.items| => Line(o, o.items[i]))
  }

  /** FindByCustomerID, keeping the order of the table. */
  function OrdersOf(orders: seq<Order>, customerID: string): seq<Order> {
    if orders == [] then [] else
      var n := |orders| - 1;
      OrdersOf(orders[..n], customerID) + (if orders[n].customerID == customerID then [orders[n]] else [])
  }

  predicate PendingOrder(customerID: string, o: Order) {
    Trim(o.customerID) == customerID && !Closed(o)
  }

  function PendingOrders(customerID: string, orders: seq<Order>): seq<Order> {
    if orders == [] then [] else
      var n := |orders| - 1;
      PendingOrders(customerID, orders[..n]) + (if PendingOrder(customerID, orders[n]) then [orders[n]] else [])
  }

  predicate OwnedOrder(w: World, customerID: string, o: Order) {
    Trim(o.customerID) == customerID && OwnedWith(o, PaymentOf(w.payments, o.id))
  }

  /** The lines of the orders the customer owns. */
  function OwnedLines(w: World, customerID: string, orders: seq<Order>): seq<Line> {
    if orders == [] then [] else
      var n := |orders| - 1;
      OwnedLines(w, customerID, orders[..n]) + (if OwnedOrder(w, customerID, orders[n]) then LinesOf(orders[n]) else [])
  }

  /** parentEligibleForLeaves: all non-blank leaves, and at least one. */
  function ParentEligible(w: World, leaves: seq<string>, productID: string): Result<bool> {
    if forall i :: 0 <= i < |leaves| ==> Trim(leaves[i]) == "" then Ok(false)
    else EligibleFor(w, leaves, productID)
  }

  function EligibleFor(w: World, leaves: seq<string>, productID: string): Result<bool> {
    if leaves == [] then Ok(true) else
      var n := |leaves| - 1;
      match EligibleFor(w, leaves[..n], productID)
      case Err(e) => Err(e)
      case Ok(ok) => if !ok || Trim(leaves[n]) == "" then Ok(ok) else IsEligible(w, leaves[n], productID)
  }

  method RunParentEligible(w: World, leaves: seq<string>, productID: string) returns (r: Result<bool>)
    ensures r == ParentEligible(w, leaves, productID)
  {
    hide IsEligible, Trim;
    var checked := false;
    for i := 0 to |leaves|
      invariant EligibleFor(w, leaves[..i], productID) == Ok(true)
      invariant !checked <==> forall j :: 0 <= j < i ==> Trim(leaves[j]) == ""
    {
      assert leaves[..i + 1][..i] == leaves[..i];
      var leaf := Trim(leaves[i]);
      if leaf == "" { continue; }
      checked := true;
      EligibleTrims(w, leaves[i], productID);
      var e := IsEligible(w, leaf, productID);
      if e != Ok(true) {
        EligibleStops(w, leaves, productID, i + 1);
        return e;
      }
    }
    assert leaves[..|leaves|] == leaves;
    if !checked { return Ok(false); }
    return Ok(true);
  }

  lemma EligibleTrims(w: World, leaf: string, productID: string)
    ensures IsEligible(w, Trim(leaf), productID) == IsEligible(w, leaf, productID)
  {
    TrimIsTrimmed(leaf);
  }

  lemma {:induction false} EligibleStops(w: World, leaves: seq<string>, productID: string, k: nat)
    requires k <= |leaves| && EligibleFor(w, leaves[..k], productID) != Ok(true)
    ensures EligibleFor(w, leaves, productID) == EligibleFor(w, leaves[..k], productID)
    decreases |leaves|
  {
    hide IsEligible, Trim;
    if k < |leaves| {
      assert leaves[..|leaves| - 1][..k] == leaves[..k];
      EligibleStops(w, leaves[..|leaves| - 1], productID, k);
    } else {
      assert leaves[..k] == leaves;
    }
  }

  function Describe(w: World, l: Line): OwnedParent {
    OwnedParent(UnitID(l.order.id, l.item.variantID), l.order.id, l.item.variantID,
                if l.item.variantID in w.variants then w.variants[l.item.variantID] else "", l.item.name)
  }

  predicate EligibleLine(w: World, leaves: seq<string>, l: Line) {
    l.item.variantID in w.variants && Trim(w.variants[l.item.variantID]) != ""
    && ParentEligible(w, leaves, w.variants[l.item.variantID]) == Ok(true)
  }

  function EligibleParents(w: World, leaves: seq<string>, lines: seq<Line>): seq<OwnedParent> {
    if lines == [] then [] else
      var n := |lines| - 1;
      EligibleParents(w, leaves, lines[..n]) + (if EligibleLine(w, leaves, lines[n]) then [Describe(w, lines[n])] else [])
  }

  function Unblocked(blocked: set<string>, parents: seq<OwnedParent>): seq<OwnedParent> {
    if parents == [] then [] else
      var n := |parents| - 1;
      Unblocked(blocked, parents[..n]) + (if parents[n].unitID in blocked then [] else [parents[n]])
  }

  // ---- The reference: one CheckParent per order line ----

  /** The lines of the first k items that AssignOwned would accept as a parent. */
  function AcceptedItems(w: World, customerID: string, leaves: seq<string>, o: Order, k: nat): seq<OwnedParent>
    requires k <= |o.items|
  {
    if k == 0 then [] else
      var l := Line(o, o.items[k - 1]);
      AcceptedItems(w, customerID, leaves, o, k - 1)
      + (if CheckParent(w, customerID, leaves, UnitID(o.id, l.item.variantID)).Pass? then [Describe(w, l)] else [])
  }

  /** Every order line in the store, whoever bought it, that AssignOwned would accept. */
  function Accepted(w: World, customerID: string, leaves: seq<string>, orders: seq<Order>): seq<OwnedParent> {
    if orders == [] then [] else
      var n := |orders| - 1;
      Accepted(w, customerID, leaves, orders[..n]) + AcceptedItems(w, customerID, leaves, orders[n], |orders[n].items|)
  }

  // ---- One line ----

  lemma {:induction false} FindOrderIs(orders: seq<Order>, i: nat)
    requires i < |orders| && forall a, b :: 0 <= a < b < |orders| ==> orders[a].id != orders[b].id
    ensures FindOrder(orders, orders[i].id) == Some(orders[i])
  {
    if i > 0 {
      assert orders[0].id != orders[i].id;
      FindOrderIs(orders[1..], i - 1);
    }
  }

  /** Ownership of the unit of a stored line is ownership of its order plus a known product. */
  lemma OwnedUnitOfLine(w: World, customerID: string, i: nat, k: nat)
    requires WellFormed(w) && i < |w.orders| && k < |w.orders[i].items| && customerID != "" && Trimmed(customerID)
    ensures var o, v := w.orders[i], w.orders[i].items[k].variantID;
            && CanonicalUnitID(UnitID(o.id, v)) == Some(UnitID(o.id, v))
            && Trim(UnitID(o.id, v)) == UnitID(o.id, v) != ""
            && (RequireOwnedUnit(w, customerID, UnitID(o.id, v)).Ok? <==>
                OwnedOrder(w, customerID, o) && v in w.variants && Trim(w.variants[v]) != "")
            && (RequireOwnedUnit(w, customerID, UnitID(o.id, v)).Ok? <==>
                o.customerID == customerID && o.status != Cancelled && o.status != Failed
                && (if o.id in w.payments then w.payments[o.id] == Completed else o.payable == 0)
                && v in w.variants && Trim(w.variants[v]) != "")
            && (RequireOwnedUnit(w, customerID, UnitID(o.id, v)).Ok? ==>
                RequireOwnedUnit(w, customerID, UnitID(o.id, v)).value == w.variants[v])
  {
    var o, v := w.orders[i], w.orders[i].items[k].variantID;
    assert OrderWellFormed(o) && StoredID(v);
    var u := UnitID(o.id, v);
    assert SplitUnitID(u) == Some((o.id, v)) && IsCanonical(u) && u != "" by { MintedUnitIsCanonical(o.id, v); }
    assert Trim(u) == u by { CanonicalLocksItself(u); }
    assert Trim(customerID) == customerID by { TrimIsTrimmed(customerID); }
    assert Trim(o.customerID) == o.customerID by { TrimIsTrimmed(o.customerID); }
    FindOrderIs(w.orders, i);
    assert HasVariant(o.items, v);
  }

  /** With the unit owned and off every return, the purchase checks say what IsEligible says. */
  lemma {:induction false} EligibilityAgrees(w: World, customerID: string, leaves: seq<string>, unit: string)
    requires Trim(customerID) == customerID != "" && Trim(unit) == unit != ""
    requires RequireOwnedUnit(w, customerID, unit).Ok? && Trim(RequireOwnedUnit(w, customerID, unit).value) != ""
    requires !OnReturn(w, unit)
    requires AllStored(leaves)
    ensures CheckPurchaseAll(w, customerID, leaves, Context("", unit)).Pass? <==>
            EligibleFor(w, leaves, RequireOwnedUnit(w, customerID, unit).value) == Ok(true)
    ensures EligibleFor(w, leaves, RequireOwnedUnit(w, customerID, unit).value).Ok?
  {
    hide RequireOwnedUnit, OnReturn;
    TrimIsTrimmed("");
    if leaves != [] {
      var n := |leaves| - 1;
      EligibilityAgrees(w, customerID, leaves[..n], unit);
      assert StoredID(leaves[n]);
      TrimIsTrimmed(leaves[n]);
    }
  }

  /** AssignOwned accepts the line exactly when each stage of the listing lets it through. */
  lemma LineAgrees(w: World, customerID: string, leaves: seq<string>, i: nat, k: nat)
    requires WellFormed(w) && i < |w.orders| && k < |w.orders[i].items| && customerID != "" && Trimmed(customerID)
    requires leaves != [] && AllStored(leaves)
    ensures var l := Line(w.orders[i], w.orders[i].items[k]);
            var u := UnitID(l.order.id, l.item.variantID);
            CheckParent(w, customerID, leaves, u).Pass? <==>
            OwnedOrder(w, customerID, l.order) && EligibleLine(w, leaves, l) && u !in w.onReturn
  {
    hide RequireOwnedUnit, CheckPurchaseAll, EligibleFor, CanonicalUnitID, Trim, WellFormed, OwnedOrder, UnitID;
    var l := Line(w.orders[i], w.orders[i].items[k]);
    var u := UnitID(l.order.id, l.item.variantID);
    OwnedUnitOfLine(w, customerID, i, k);
    assert Trim(customerID) == customerID by { TrimIsTrimmed(customerID); }
    assert Trim(leaves[0]) != "" by { assert StoredID(leaves[0]); TrimIsTrimmed(leaves[0]); }
    if RequireOwnedUnit(w, customerID, u).Ok? && !OnReturn(w, u) {
      EligibilityAgrees(w, customerID, leaves, u);
    }
  }

  // ---- All lines ----

  predicate Shown(w: World, leaves: seq<string>, l: Line) {
    EligibleLine(w, leaves, l) && UnitID(l.order.id, l.item.variantID) !in w.onReturn
  }

  function ShownParents(w: World, leaves: seq<string>, lines: seq<Line>): seq<OwnedParent> {
    if lines == [] then [] else
      var n := |lines| - 1;
      ShownParents(w, leaves, lines[..n]) + (if Shown(w, leaves, lines[n]) then [Describe(w, lines[n])] else [])
  }

  lemma {:induction false} UnblockedEligible(w: World, leaves: seq<string>, lines: seq<Line>)
    ensures Unblocked(w.onReturn, EligibleParents(w, leaves, lines)) == ShownParents(w, leaves, lines)
  {
    hide EligibleLine, UnitID;
    if lines != [] {
      var n := |lines| - 1;
      UnblockedEligible(w, leaves, lines[..n]);
      var parents := EligibleParents(w, leaves, lines);
      if EligibleLine(w, leaves, lines[n]) {
        assert parents[..|parents| - 1] == EligibleParents(w, leaves, lines[..n]);
      } else {
        assert parents == EligibleParents(w, leaves, lines[..n]);
      }
    }
  }

  lemma {:induction false} ShownConcat(w: World, leaves: seq<string>, a: seq<Line>, b: seq<Line>)
    ensures ShownParents(w, leaves, a + b) == ShownParents(w, leaves, a) + ShownParents(w, leaves, b)
  {
    hide Shown, Describe;
    if b == [] {
      assert a + b == a;
    } else {
      var n := |b| - 1;
      ShownConcat(w, leaves, a, b[..n]);
      assert a + b == (a + b[..n]) + [b[n]];
      ShownAppend(w, leaves, a + b[..n], b[n]);
    }
  }

  lemma ShownAppend(w: World, leaves: seq<string>, lines: seq<Line>, l: Line)
    ensures ShownParents(w, leaves, lines + [l]) ==
            ShownParents(w, leaves, lines) + (if Shown(w, leaves, l) then [Describe(w, l)] else [])
  {
    hide Shown, Describe;
    assert (lines + [l])[..|lines|] == lines;
  }

  lemma {:induction false} OrderAgrees(w: World, customerID: string, leaves: seq<string>, i: nat, k: nat)
    requires WellFormed(w) && i < |w.orders| && k <= |w.orders[i].items| && customerID != "" && Trimmed(customerID)
    requires leaves != [] && AllStored(leaves)
    ensures AcceptedItems(w, customerID, leaves, w.orders[i], k) ==
            if OwnedOrder(w, customerID, w.orders[i]) then ShownParents(w, leaves, LinesOf(w.orders[i])[..k]) else []
  {
    hide CheckParent, EligibleLine, WellFormed, OwnedOrder, AllStored, UnitID, Describe, Trimmed, ShownParents;
    var o := w.orders[i];
    if k == 0 {
      NoneShown(w, leaves);
    } else {
      OrderAgrees(w, customerID, leaves, i, k - 1);
      LineAgrees(w, customerID, leaves, i, k - 1);
      assert LinesOf(o)[..k] == LinesOf(o)[..k - 1] + [Line(o, o.items[k - 1])];
      ShownAppend(w, leaves, LinesOf(o)[..k - 1], Line(o, o.items[k - 1]));
    }
  }

  lemma NoneShown(w: World, leaves: seq<string>)
    ensures ShownParents(w, leaves, []) == []
  {
  }

  lemma {:induction false} LinesAgree(w: World, customerID: string, leaves: seq<string>, n: nat)
    requires WellFormed(w) && n <= |w.orders| && customerID != "" && Trimmed(customerID)
    requires leaves != [] && AllStored(leaves)
    ensures ShownParents(w, leaves, OwnedLines(w, customerID, w.orders[..n])) == Accepted(w, customerID, leaves, w.orders[..n])
  {
    hide CheckParent, ShownParents, AcceptedItems, WellFormed, OwnedOrder, AllStored;
    if n == 0 {
      NoneShown(w, leaves);
    } else {
      LinesAgree(w, customerID, leaves, n - 1);
      assert w.orders[..n][..n - 1] == w.orders[..n - 1];
      var o := w.orders[n - 1];
      OrderAgrees(w, customerID, leaves, n - 1, |o.items|);
      if OwnedOrder(w, customerID, o) {
        assert LinesOf(o)[..|o.items|] == LinesOf(o);
        ShownConcat(w, leaves, OwnedLines(w, customerID, w.orders[..n - 1]), LinesOf(o));
      } else {
        assert OwnedLines(w, customerID, w.orders[..n]) == OwnedLines(w, customerID, w.orders[..n - 1]);
      }
    }
  }

  lemma OwnedLinesAppend(w: World, customerID: string, orders: seq<Order>, o: Order)
    ensures OwnedLines(w, customerID, orders + [o]) ==
            OwnedLines(w, customerID, orders) + (if OwnedOrder(w, customerID, o) then LinesOf(o) else [])
  {
    assert (orders + [o])[..|orders|] == orders;
  }

  /** Dropping closed orders first loses no owned line. */
  lemma {:induction false} PendingSuffice(w: World, customerID: string, orders: seq<Order>)
    ensures OwnedLines(w, customerID, PendingOrders(customerID, orders)) == OwnedLines(w, customerID, orders)
  {
    hide Trim, LinesOf;
    if orders != [] {
      var n := |orders| - 1;
      PendingSuffice(w, customerID, orders[..n]);
      var head := PendingOrders(customerID, orders[..n]);
      if PendingOrder(customerID, orders[n]) {
        OwnedLinesAppend(w, customerID, head, orders[n]);
      } else {
        assert head + [] == head;
      }
    }
  }

  /** Neither does reading only the customer's orders. */
  lemma {:induction false} CustomerSuffices(w: World, customerID: string, orders: seq<Order>)
    requires forall i :: 0 <= i < |orders| ==> Trimmed(orders[i].customerID)
    ensures OwnedLines(w, customerID, OrdersOf(orders, customerID)) == OwnedLines(w, customerID, orders)
  {
    hide Trim, LinesOf, OwnedWith;
    if orders != [] {
      var n := |orders| - 1;
      CustomerSuffices(w, customerID, orders[..n]);
      TrimIsTrimmed(orders[n].customerID);
      var head := OrdersOf(orders[..n], customerID);
      if orders[n].customerID == customerID {
        OwnedLinesAppend(w, customerID, head, orders[n]);
      } else {
        assert head + [] == head;
      }
    }
  }

  // ---- What is listed, said of the stored rows ----

  /** A line of an order of this customer that is neither cancelled nor failed, whose payment is
      completed, or which has no payment and nothing to pay; the line's product is known. */
  predicate OwnsLine(w: World, customerID: string, i: nat, k: nat, unit: string) {
    i < |w.orders| && k < |w.orders[i].items| &&
    var o, v := w.orders[i], w.orders[i].items[k].variantID;
    && unit == UnitID(o.id, v) && o.customerID == customerID && o.status != Cancelled && o.status != Failed
    && (if o.id in w.payments then w.payments[o.id] == Completed else o.payable == 0)
    && v in w.variants && Trim(w.variants[v]) != ""
  }

  /** A required component of the bundle that needs a linked parent. */
  predicate LinkedLeaf(w: World, bundle: string, leaf: string) {
    leaf in w.products && w.products[leaf].requiresLinkedParent
    && exists i :: 0 <= i < |ComponentsOf(w, bundle)| && ComponentsOf(w, bundle)[i] == Component(leaf, true)
  }

  predicate HasLinkedLeaf(w: World, bundle: string) {
    exists i :: 0 <= i < |ComponentsOf(w, bundle)| && LinkedLeaf(w, bundle, ComponentsOf(w, bundle)[i].productID)
  }

  /** The products that a parent of this product must accept: its linked leaves for a bundle that
      needs no linked parent itself, else the product. */
  predicate MustFit(w: World, product: string, id: string) {
    if product in w.products && !w.products[product].requiresLinkedParent && w.products[product].isBundle && HasLinkedLeaf(w, product)
    then LinkedLeaf(w, product, id)
    else id == product
  }

  /** Every product that must fit has a rule that allows it under this one, and is another product. */
  ghost predicate AllFit(w: World, product: string, parentProduct: string) {
    forall id :: MustFit(w, product, id) ==> Fold(id) != Fold(parentProduct) && (id, parentProduct) in w.rules
  }

  lemma {:induction false} LeavesAre(w: World, rows: seq<Component>, id: string)
    ensures id in LinkedLeaves(w, rows) <==>
            id in w.products && w.products[id].requiresLinkedParent && exists i :: 0 <= i < |rows| && rows[i] == Component(id, true)
  {
    if rows != [] {
      var n := |rows| - 1;
      LeavesAre(w, rows[..n], id);
      assert rows == rows[..n] + [rows[n]];
      if i :| 0 <= i < |rows| && rows[i] == Component(id, true) { assert i < n ==> rows[..n][i] == rows[i]; }
    }
  }

  lemma IDsMustFit(w: World, product: string, id: string)
    requires WellFormed(w) && StoredID(product)
    ensures id in EligibilityIDs(w, product) <==> MustFit(w, product, id)
  {
    hide Trim, LinkedLeaves, OrderWellFormed, Trimmed, StoredID;
    StoredTrims(product);
    var rows := ComponentsOf(w, product);
    LeavesAre(w, rows, id);
    var leaves := LinkedLeaves(w, rows);
    if leaves != [] {
      LeavesAre(w, rows, leaves[0]);
      var i :| 0 <= i < |rows| && rows[i] == Component(leaves[0], true);
      assert LinkedLeaf(w, product, rows[i].productID);
    }
    if i :| 0 <= i < |rows| && LinkedLeaf(w, product, rows[i].productID) { LeavesAre(w, rows, rows[i].productID); }
  }

  lemma {:induction false} AllEligible(w: World, ids: seq<string>, product: string)
    requires AllStored(ids) && Trim(product) != ""
    ensures EligibleFor(w, ids, product) == Ok(true)
            <==> forall id :: id in ids ==> Fold(id) != Fold(Trim(product)) && (id, Trim(product)) in w.rules
  {
    hide Trim, Fold;
    if ids != [] {
      var n := |ids| - 1;
      AllEligible(w, ids[..n], product);
      assert StoredID(ids[n]);
      TrimIsTrimmed(ids[n]);
      assert ids == ids[..n] + [ids[n]];
    }
  }

  /** Eligibility of a parent product, said of rules and components. */
  lemma EligibleIsFit(w: World, product: string, parentProduct: string)
    requires WellFormed(w) && StoredID(product) && Trim(parentProduct) != ""
    ensures EligibleFor(w, EligibilityIDs(w, product), parentProduct) == Ok(true) <==> AllFit(w, product, Trim(parentProduct))
  {
    hide Trim, Fold, EligibilityIDs, MustFit, EligibleFor, WellFormed, StoredID;
    assert AllStored(EligibilityIDs(w, product)) by { StoredTrims(product); IDsStored(w, product); }
    AllEligible(w, EligibilityIDs(w, product), parentProduct);
    forall id ensures id in EligibilityIDs(w, product) <==> MustFit(w, product, id) { IDsMustFit(w, product, id); }
  }

  lemma StoredTrims(id: string)
    requires StoredID(id)
    ensures Trim(id) == id != ""
  {
    TrimIsTrimmed(id);
  }

  /** The line is a possible parent of the product. */
  ghost predicate OffersLine(w: World, customerID: string, product: string, i: nat, k: nat, p: OwnedParent) {
    OwnsLine(w, customerID, i, k, p.unitID) && p.unitID !in w.onReturn &&
    var o, item := w.orders[i], w.orders[i].items[k];
    && p == OwnedParent(UnitID(o.id, item.variantID), o.id, item.variantID, w.variants[item.variantID], item.name)
    && AllFit(w, product, Trim(w.variants[item.variantID]))
  }

  /** One line: accepted as a parent exactly when the stored rows allow it. */
  lemma LineOffered(w: World, customerID: string, product: string, i: nat, k: nat)
    requires WellFormed(w) && i < |w.orders| && k < |w.orders[i].items| && customerID != "" && Trimmed(customerID) && StoredID(product)
    ensures var l := Line(w.orders[i], w.orders[i].items[k]);
            CheckParent(w, customerID, EligibilityIDs(w, product), UnitID(l.order.id, l.item.variantID)).Pass?
            <==> OffersLine(w, customerID, product, i, k, Describe(w, l))
  {
    hide CheckParent, EligibilityIDs, EligibleFor, UnitID, AllFit, Trim, OwnedOrder, RequireOwnedUnit, CanonicalUnitID, OrderWellFormed;
    var l := Line(w.orders[i], w.orders[i].items[k]);
    StoredTrims(product);
    IDsStored(w, product);
    var ids := EligibilityIDs(w, product);
    LineAgrees(w, customerID, ids, i, k);
    OwnedUnitOfLine(w, customerID, i, k);
    if l.item.variantID in w.variants && Trim(w.variants[l.item.variantID]) != "" {
      EligibleIsFit(w, product, w.variants[l.item.variantID]);
      assert Trim(ids[0]) != "" by { assert StoredID(ids[0]); StoredTrims(ids[0]); }
    }
  }

  lemma {:induction false} ItemsOffered(w: World, customerID: string, product: string, i: nat, n: nat, p: OwnedParent)
    requires WellFormed(w) && i < |w.orders| && n <= |w.orders[i].items| && customerID != "" && Trimmed(customerID) && StoredID(product)
    ensures p in AcceptedItems(w, customerID, EligibilityIDs(w, product), w.orders[i], n)
            <==> exists k: nat :: k < n && OffersLine(w, customerID, product, i, k, p)
  {
    hide CheckParent, EligibilityIDs, WellFormed, OffersLine, UnitID;
    if n > 0 {
      ItemsOffered(w, customerID, product, i, n - 1, p);
      LineOffered(w, customerID, product, i, n - 1);
      if OffersLine(w, customerID, product, i, n - 1, p) { SameLine(w, customerID, product, i, n - 1, p); }
    }
  }

  lemma SameLine(w: World, customerID: string, product: string, i: nat, k: nat, p: OwnedParent)
    requires i < |w.orders| && k < |w.orders[i].items| && OffersLine(w, customerID, product, i, k, p)
    ensures p == Describe(w, Line(w.orders[i], w.orders[i].items[k]))
  {
  }

  /** What ListOwnedParents returns, said of the stored rows. */
  lemma {:induction false} AcceptedAreOffered(w: World, customerID: string, product: string, n: nat, p: OwnedParent)
    requires WellFormed(w) && n <= |w.orders| && customerID != "" && Trimmed(customerID) && StoredID(product)
    ensures p in Accepted(w, customerID, EligibilityIDs(w, product), w.orders[..n])
            <==> exists i: nat, k: nat :: i < n && OffersLine(w, customerID, product, i, k, p)
  {
    hide AcceptedItems, EligibilityIDs, WellFormed, OffersLine;
    if n > 0 {
      AcceptedAreOffered(w, customerID, product, n - 1, p);
      assert w.orders[..n][..n - 1] == w.orders[..n - 1];
      ItemsOffered(w, customerID, product, n - 1, |w.orders[n - 1].items|, p);
      var m := n - 1;
      forall k: nat ensures OffersLine(w, customerID, product, m, k, p) ==> k < |w.orders[m].items| {
        OfferedIndex(w, customerID, product, m, k, p);
      }
    }
  }

  lemma OfferedIndex(w: World, customerID: string, product: string, i: nat, k: nat, p: OwnedParent)
    ensures OffersLine(w, customerID, product, i, k, p) ==> i < |w.orders| && k < |w.orders[i].items|
  {
  }

  // ---- The batched, memoised listing ----

  /** uniqueNonEmpty */
  method UniqueNonEmpty(ids: seq<string>) returns (unique: seq<string>)
    ensures Distinct(unique)
    ensures forall x :: x in unique <==> x != "" && exists i :: 0 <= i < |ids| && Trim(ids[i]) == x
  {
    hide Trim;
    unique := [];
    var seen: set<string> := {};
    for n := 0 to |ids|
      invariant Distinct(unique)
      invariant forall x :: x in seen <==> x in unique
      invariant forall x :: x in unique <==> x != "" && exists i :: 0 <= i < n && Trim(ids[i]) == x
    {
      var id := Trim(ids[n]);
      if id == "" { continue; }
      if id in seen { continue; }
      seen := seen + {id};
      unique := unique + [id];
    }
  }

  method LookupPayments(w: World, ids: seq<string>) returns (found: map<string, PaymentStatus>)
    requires AllStored(ids)
    ensures forall i :: 0 <= i < |ids| ==> PaymentOf(found, ids[i]) == PaymentOf(w.payments, ids[i])
  {
    var unique := UniqueNonEmpty(ids);
    found := map id | id in unique && id in w.payments :: w.payments[id];
    forall i | 0 <= i < |ids| ensures ids[i] in unique { TrimIsTrimmed(ids[i]); }
  }

  method LookupVariants(w: World, ids: seq<string>) returns (found: map<string, string>)
    requires AllStored(ids)
    ensures forall i :: 0 <= i < |ids| ==> (ids[i] in found <==> ids[i] in w.variants)
    ensures forall i :: 0 <= i < |ids| && ids[i] in found ==> found[ids[i]] == w.variants[ids[i]]
  {
    var unique := UniqueNonEmpty(ids);
    found := map id | id in unique && id in w.variants :: w.variants[id];
    forall i | 0 <= i < |ids| ensures ids[i] in unique { TrimIsTrimmed(ids[i]); }
  }

  /** The orders that may hold a parent, in listing order. */
  method CollectPending(orders: seq<Order>, customerID: string) returns (pending: seq<Order>)
    ensures pending == PendingOrders(customerID, orders)
  {
    hide Trim;
    pending := [];
    for i := 0 to |orders|
      invariant pending == PendingOrders(customerID, orders[..i])
    {
      assert orders[..i + 1][..i] == orders[..i];
      if Trim(orders[i].customerID) != customerID { continue; }
      if orders[i].status == Cancelled || orders[i].status == Failed { continue; }
      pending := pending + [orders[i]];
    }
    assert orders[..|orders|] == orders;
  }

  /** The candidate lines, from one batched read of the payments. */
  method CollectCandidates(w: World, customerID: string, pending: seq<Order>) returns (candidates: seq<Line>)
    requires AllPending(customerID, pending)
    ensures candidates == OwnedLines(w, customerID, pending)
  {
    hide OrderWellFormed, Trim, StoredID;
    var orderIDs := seq(|pending|, i requires 0 <= i < |pending| => pending[i].id);
    forall i | 0 <= i < |pending| ensures StoredID(orderIDs[i]) { OrderIDStored(pending[i]); }
    var byPayment := LookupPayments(w, orderIDs);
    candidates := [];
    for i := 0 to |pending|
      invariant candidates == OwnedLines(w, customerID, pending[..i])
    {
      assert pending[..i + 1][..i] == pending[..i];
      var o := pending[i];
      assert PaymentOf(byPayment, orderIDs[i]) == PaymentOf(w.payments, o.id);
      if !OwnedWith(o, PaymentOf(byPayment, o.id)) { continue; }
      ghost var before := candidates;
      for k := 0 to |o.items|
        invariant candidates == before + LinesOf(o)[..k]
      {
        candidates := candidates + [Line(o, o.items[k])];
      }
      assert LinesOf(o)[..|o.items|] == LinesOf(o);
    }
    assert pending[..|pending|] == pending;
  }

  lemma OrderIDStored(o: Order)
    requires OrderWellFormed(o)
    ensures StoredID(o.id)
  {
    assert IsHex(o.id[0]) && IsHex(o.id[35]);
  }

  /** The eligible candidates: one batched variant read, each parent product judged once.
      Stored ids are not blank, so judging never fails. */
  method CollectEligible(w: World, leaves: seq<string>, candidates: seq<Line>) returns (found: seq<OwnedParent>)
    requires LinesStored(candidates)
    requires leaves != [] && AllStored(leaves)
    ensures found == EligibleParents(w, leaves, candidates)
  {
    hide ParentEligible, StoredID, Trim, UnitID;
    var variantIDs := seq(|candidates|, i requires 0 <= i < |candidates| => candidates[i].item.variantID);
    var byVariant := LookupVariants(w, variantIDs);
    var eligible: map<string, bool> := map[];
    found := [];
    for i := 0 to |candidates|
      invariant found == EligibleParents(w, leaves, candidates[..i])
      invariant forall p :: p in eligible ==> ParentEligible(w, leaves, p) == Ok(eligible[p])
    {
      assert candidates[..i + 1][..i] == candidates[..i];
      var cand := candidates[i];
      assert variantIDs[i] == cand.item.variantID;
      if cand.item.variantID !in byVariant || Trim(byVariant[cand.item.variantID]) == "" { continue; }
      var product := byVariant[cand.item.variantID];
      if product !in eligible {
        ParentEligibleSucceeds(w, leaves, product);
        var ok := RunParentEligible(w, leaves, product);
        eligible := eligible[product := ok.value];
      }
      if !eligible[product] { continue; }
      found := found + [OwnedParent(UnitID(cand.order.id, cand.item.variantID), cand.order.id,
                                    cand.item.variantID, product, cand.item.name)];
    }
    assert candidates[..|candidates|] == candidates;
  }

  lemma ParentEligibleSucceeds(w: World, leaves: seq<string>, product: string)
    requires Trim(product) != "" && AllStored(leaves)
    ensures ParentEligible(w, leaves, product).Ok?
  {
    EligibleForSucceeds(w, leaves, product);
  }

  lemma {:induction false} EligibleForSucceeds(w: World, leaves: seq<string>, product: string)
    requires Trim(product) != "" && AllStored(leaves)
    ensures EligibleFor(w, leaves, product).Ok?
  {
    hide Trim;
    if leaves != [] { EligibleForSucceeds(w, leaves[..|leaves| - 1], product); }
  }

  /** One filter over all units found; the checker answers for the units asked about. */
  method DropBlocked(w: World, found: seq<OwnedParent>) returns (shown: seq<OwnedParent>)
    ensures shown == Unblocked(w.onReturn, found)
  {
    var blocked := set i | 0 <= i < |found| && found[i].unitID in w.onReturn :: found[i].unitID;
    if |blocked| == 0 {
      forall i | 0 <= i < |found| ensures found[i].unitID !in w.onReturn { assert found[i].unitID !in blocked; }
      NothingBlocked(w.onReturn, found);
      return found;
    }
    shown := [];
    for i := 0 to |found|
      invariant shown == Unblocked(w.onReturn, found[..i])
    {
      assert found[..i + 1][..i] == found[..i];
      if found[i].unitID in blocked { continue; }
      shown := shown + [found[i]];
    }
    assert found[..|found|] == found;
  }

  lemma {:induction false} NothingBlocked(blocked: set<string>, parents: seq<OwnedParent>)
    requires forall i :: 0 <= i < |parents| ==> parents[i].unitID !in blocked
    ensures Unblocked(blocked, parents) == parents
  {
    if parents != [] { NothingBlocked(blocked, parents[..|parents| - 1]); }
  }

  /** ListOwnedParents returns, in order, exactly the order lines of the store that
      AssignOwned would accept as a parent of a child of this product. */
  method ListOwnedParents(w: World, customer: string, childProduct: string) returns (r: Result<seq<OwnedParent>>)
    requires WellFormed(w)
    ensures r.Err? <==> Trim(customer) == "" || Trim(childProduct) == ""
    ensures r.Ok? ==> r.value == Accepted(w, Trim(customer), EligibilityIDs(w, childProduct), w.orders)
    ensures r.Ok? ==> forall p :: p in r.value <==> exists i: nat, k: nat :: OffersLine(w, Trim(customer), Trim(childProduct), i, k, p)
  {
    hide Trim, OrderWellFormed, AllStored, EligibilityIDs, CheckParent, IsUUID, EligibleParents, OwnedLines;
    var customerID, childProductID := Trim(customer), Trim(childProduct);
    if customerID == "" || childProductID == "" { return Err(Validation); }
    IDsStored(w, childProduct);
    var leaves := ChildEligibilityIDs(w, childProduct);
    var orders := OrdersOf(w.orders, customerID);
    var pending := CollectPending(orders, customerID);
    PendingWellFormed(w, customerID);
    var candidates := CollectCandidates(w, customerID, pending);
    CandidatesStored(w, customerID, pending);
    var found := CollectEligible(w, leaves, candidates);
    var shown := DropBlocked(w, found);
    ListingIsAccepted(w, customer, leaves);
    ListingIsOffered(w, customer, childProduct);
    return Ok(shown);
  }

  lemma ListingIsOffered(w: World, customer: string, childProduct: string)
    requires WellFormed(w) && Trim(customer) != "" && Trim(childProduct) != ""
    ensures forall p :: p in Accepted(w, Trim(customer), EligibilityIDs(w, childProduct), w.orders)
                        <==> exists i: nat, k: nat :: OffersLine(w, Trim(customer), Trim(childProduct), i, k, p)
  {
    hide Trim, WellFormed, Accepted, OffersLine;
    TrimIsTrimmed(customer);
    TrimIsTrimmed(childProduct);
    var c, product := Trim(customer), Trim(childProduct);
    IDsOfTrimmed(w, childProduct);
    assert w.orders[..|w.orders|] == w.orders;
    forall p ensures p in Accepted(w, c, EligibilityIDs(w, product), w.orders) <==> exists i: nat, k: nat :: OffersLine(w, c, product, i, k, p) {
      AcceptedAreOffered(w, c, product, |w.orders|, p);
      forall i: nat, k: nat ensures OffersLine(w, c, product, i, k, p) ==> i < |w.orders| { OfferedIndex(w, c, product, i, k, p); }
    }
  }

  lemma ListingIsAccepted(w: World, customer: string, leaves: seq<string>)
    requires WellFormed(w) && Trim(customer) != ""
    requires leaves != [] && AllStored(leaves)
    ensures var c := Trim(customer);
            var lines := OwnedLines(w, c, PendingOrders(c, OrdersOf(w.orders, c)));
            Unblocked(w.onReturn, EligibleParents(w, leaves, lines)) == Accepted(w, c, leaves, w.orders)
  {
    hide CheckParent, AllStored, EligibleLine, OwnedOrder, Describe;
    var c := Trim(customer);
    assert Trimmed(c) by { TrimIsTrimmed(customer); }
    assert forall i :: 0 <= i < |w.orders| ==> Trimmed(w.orders[i].customerID) by {
      forall i | 0 <= i < |w.orders| ensures Trimmed(w.orders[i].customerID) { assert OrderWellFormed(w.orders[i]); }
    }
    PendingSuffice(w, c, OrdersOf(w.orders, c));
    CustomerSuffices(w, c, w.orders);
    assert w.orders[..|w.orders|] == w.orders;
    LinesAgree(w, c, leaves, |w.orders|);
    UnblockedEligible(w, leaves, OwnedLines(w, c, w.orders));
  }

  predicate AllPending(customerID: string, orders: seq<Order>) {
    forall i :: 0 <= i < |orders| ==> OrderWellFormed(orders[i]) && PendingOrder(customerID, orders[i])
  }

  lemma PendingWellFormed(w: World, customerID: string)
    requires WellFormed(w)
    ensures AllPending(customerID, PendingOrders(customerID, OrdersOf(w.orders, customerID)))
  {
    hide OrderWellFormed;
    OrdersOfKeeps(w.orders, customerID);
    PendingKeeps(customerID, OrdersOf(w.orders, customerID));
  }

  lemma {:induction false} OrdersOfKeeps(orders: seq<Order>, customerID: string)
    requires forall i :: 0 <= i < |orders| ==> OrderWellFormed(orders[i])
    ensures forall i :: 0 <= i < |OrdersOf(orders, customerID)| ==> OrderWellFormed(OrdersOf(orders, customerID)[i])
  {
    hide OrderWellFormed;
    if orders != [] { OrdersOfKeeps(orders[..|orders| - 1], customerID); }
  }

  lemma {:induction false} PendingKeeps(customerID: string, orders: seq<Order>)
    requires forall i :: 0 <= i < |orders| ==> OrderWellFormed(orders[i])
    ensures AllPending(customerID, PendingOrders(customerID, orders))
  {
    hide OrderWellFormed, PendingOrder;
    if orders != [] { PendingKeeps(customerID, orders[..|orders| - 1]); }
  }

  predicate LinesStored(lines: seq<Line>) {
    forall i :: 0 <= i < |lines| ==> StoredID(lines[i].item.variantID)
  }

  lemma {:induction false} CandidatesStored(w: World, customerID: string, orders: seq<Order>)
    requires forall i :: 0 <= i < |orders| ==> OrderWellFormed(orders[i])
    ensures LinesStored(OwnedLines(w, customerID, orders))
  {
    hide StoredID, OwnedOrder, IsUUID;
    if orders != [] {
      var n := |orders| - 1;
      CandidatesStored(w, customerID, orders[..n]);
      assert OrderWellFormed(orders[n]);
    }
  }
}

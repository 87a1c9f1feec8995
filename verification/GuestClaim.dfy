/** Claiming a guest cart: separately committed writes, any of which may be the last
    one that succeeds, and a MergedGuestID marker that makes a retry safe. */
module GuestClaim {
  import opened Text

  const MAX_INT := 0x7FFF_FFFF_FFFF_FFFF

  datatype Assignment = Assignment(parentProduct: string, parentUnit: string, deferred: bool)
  datatype Item = Item(variant: string, qty: int, price: int, assignment: Assignment)
  datatype Cart = Cart(id: string, customer: string, active: bool, currency: string, coupon: string,
                       mergedGuest: string, items: seq<Item>)

  /** An extension value of a cart line. */
  datatype ExtKey = ExtKey(cart: string, variant: string, field: string)
  type Extensions = map<ExtKey, string>

  datatype Store = Store(carts: map<string, Cart>, ext: Extensions)

  /** One persistence call that changes something; each commits on its own. The values of a line are
      copied in one batch and deleted one by one. */
  datatype Write =
    | CopyExt(from: string, into: string, variant: string)
    | SaveCart(cart: Cart)
    | DeleteExt(key: ExtKey)
    | DeleteCart(id: string)

  /** What a claim reads outside the carts: whether a line may be bought at a quantity,
      the price pipeline, coupon eligibility, and the order in which extension targets and the
      fields of one target are listed. */
  datatype Env = Env(
    purchasable: (string, Item, string, int) -> bool,
    price: (Cart, string) -> int,
    couponEligible: string -> bool,
    listed: set<string> -> seq<string>)

  /** A listing names each target or field it is asked for once, and no other. */
  ghost predicate Lists(env: Env) {
    forall s: set<string> :: Elements(env.listed(s)) == s && Distinct(env.listed(s))
  }

  function Elements<T(==)>(s: seq<T>): set<T> {
    set i | 0 <= i < |s| :: s[i]
  }

  // ---- Extension rows ----

  /** The rows that CopyTarget writes for these variants. */
  function CopiedKeys(e: Extensions, from: string, into: string, vs: set<string>): set<ExtKey> {
    set k | k in e && k.cart == from && k.variant in vs :: ExtKey(into, k.variant, k.field)
  }

  /** CopyTarget for each of the variants. */
  function CopyAll(e: Extensions, from: string, into: string, vs: set<string>): Extensions {
    map k | k in e.Keys + CopiedKeys(e, from, into, vs) ::
      if Overwrites(e, from, into, vs, k) then e[ExtKey(from, k.variant, k.field)] else if k in e then e[k] else ""
  }

  predicate Overwrites(e: Extensions, from: string, into: string, vs: set<string>, k: ExtKey) {
    k.cart == into && k.variant in vs && ExtKey(from, k.variant, k.field) in e
  }

  lemma CopiedKeysAre(e: Extensions, from: string, into: string, vs: set<string>, k: ExtKey)
    ensures k in CopiedKeys(e, from, into, vs) <==> Overwrites(e, from, into, vs, k)
  {
    if k in CopiedKeys(e, from, into, vs) {
      var o :| o in e && o.cart == from && o.variant in vs && k == ExtKey(into, o.variant, o.field);
      assert o == ExtKey(from, k.variant, k.field);
    }
    if Overwrites(e, from, into, vs, k) {
      var o := ExtKey(from, k.variant, k.field);
      assert o in e && k == ExtKey(into, o.variant, o.field);
    }
  }

  lemma CopyAt(e: Extensions, from: string, into: string, vs: set<string>, k: ExtKey)
    ensures var r := CopyAll(e, from, into, vs);
            && (k in r <==> k in e || Overwrites(e, from, into, vs, k))
            && (Overwrites(e, from, into, vs, k) ==> r[k] == e[ExtKey(from, k.variant, k.field)])
            && (k in r && !Overwrites(e, from, into, vs, k) ==> r[k] == e[k])
  {
    CopiedKeysAre(e, from, into, vs, k);
  }

  lemma CopyTwice(e: Extensions, from: string, into: string, a: set<string>, b: set<string>)
    requires from != into
    ensures CopyAll(CopyAll(e, from, into, a), from, into, b) == CopyAll(e, from, into, a + b)
    ensures CopyAll(e, from, into, {}) == e
  {
    var h, y, z := CopyAll(e, from, into, a), CopyAll(e, from, into, a + b), CopyAll(e, from, into, {});
    var x := CopyAll(h, from, into, b);
    forall k ensures (k in x <==> k in y) && (k in x ==> x[k] == y[k]) && (k in z <==> k in e) && (k in e ==> z[k] == e[k]) {
      hide CopyAll;
      CopyAt(h, from, into, b, k);
      CopyAt(e, from, into, a, k);
      CopyAt(e, from, into, a, ExtKey(from, k.variant, k.field));
      CopyAt(e, from, into, a + b, k);
      CopyAt(e, from, into, {}, k);
    }
  }

  lemma RemoveTwice(e: Extensions, a: set<ExtKey>, b: set<ExtKey>)
    ensures (e - a) - b == e - (a + b)
    ensures e - {} == e
  {
  }

  /** Copying into another cart adds and removes no row of this one. */
  lemma CopyKeepsRows(e: Extensions, from: string, into: string, vs: set<string>)
    requires from != into
    ensures RowsOf(CopyAll(e, from, into, vs), from) == RowsOf(e, from)
  {
    hide CopyAll;
    forall k: ExtKey | k.cart == from ensures k in CopyAll(e, from, into, vs) <==> k in e {
      CopyAt(e, from, into, vs, k);
    }
  }

  // ---- Deleting the rows of a target, one field at a time ----

  function RowsOf(e: Extensions, owner: string): set<ExtKey> {
    set k | k in e && k.cart == owner
  }

  function FieldsOf(rows: set<ExtKey>, v: string): set<string> {
    set k | k in rows && k.variant == v :: k.field
  }

  /** The rows that DeleteAllForTarget deletes, in order, when the owner has these rows. */
  function FieldKeys(env: Env, owner: string, rows: set<ExtKey>, v: string): seq<ExtKey> {
    var fields := env.listed(FieldsOf(rows, v));
    seq(|fields|, i requires 0 <= i < |fields| => ExtKey(owner, v, fields[i]))
  }

  /** The rows that DeleteAllForTarget deletes for one variant after another. */
  function TargetKeys(env: Env, owner: string, rows: set<ExtKey>, vs: seq<string>): seq<ExtKey> {
    if vs == [] then [] else
      var n := |vs| - 1;
      var head := TargetKeys(env, owner, rows, vs[..n]);
      head + FieldKeys(env, owner, rows - Elements(head), vs[n])
  }

  lemma {:induction false} TargetKeysOwned(env: Env, owner: string, rows: set<ExtKey>, vs: seq<string>)
    ensures forall k :: k in Elements(TargetKeys(env, owner, rows, vs)) ==> k.cart == owner
  {
    if vs != [] {
      var n := |vs| - 1;
      var head := TargetKeys(env, owner, rows, vs[..n]);
      TargetKeysOwned(env, owner, rows, vs[..n]);
      ElementsConcat(head, FieldKeys(env, owner, rows - Elements(head), vs[n]));
    }
  }

  lemma FieldKeysAre(env: Env, owner: string, rows: set<ExtKey>, v: string)
    requires Lists(env) && forall k :: k in rows ==> k.cart == owner
    ensures Elements(FieldKeys(env, owner, rows, v)) == set k | k in rows && k.variant == v
  {
    var fields, keys := env.listed(FieldsOf(rows, v)), FieldKeys(env, owner, rows, v);
    assert Elements(fields) == FieldsOf(rows, v);
    forall k ensures k in Elements(keys) <==> k in rows && k.variant == v {
      if k in Elements(keys) {
        var i :| 0 <= i < |keys| && keys[i] == k;
        assert fields[i] in Elements(fields);
        var o :| o in rows && o.variant == v && o.field == fields[i];
        assert o == k;
      }
      if k in rows && k.variant == v {
        assert k.field in Elements(fields);
        var i :| 0 <= i < |fields| && fields[i] == k.field;
        assert keys[i] == k;
      }
    }
  }

  /** All rows of the targets are deleted, whatever order the listing takes. */
  lemma {:induction false} TargetKeysAre(env: Env, owner: string, rows: set<ExtKey>, vs: seq<string>)
    requires Lists(env) && forall k :: k in rows ==> k.cart == owner
    ensures Elements(TargetKeys(env, owner, rows, vs)) == set k | k in rows && k.variant in Elements(vs)
  {
    hide Lists, FieldKeys;
    if vs != [] {
      var n := |vs| - 1;
      var head := TargetKeys(env, owner, rows, vs[..n]);
      TargetKeysAre(env, owner, rows, vs[..n]);
      FieldKeysAre(env, owner, rows - Elements(head), vs[n]);
      ElementsConcat(head, FieldKeys(env, owner, rows - Elements(head), vs[n]));
      ElementsSplit(vs);
    }
  }

  /** No delete meets a missing row, which the repository would report as an error. */
  lemma {:induction false} DeletesFindTheirRows(env: Env, owner: string, rows: set<ExtKey>, vs: seq<string>)
    requires Lists(env) && forall k :: k in rows ==> k.cart == owner
    ensures Distinct(TargetKeys(env, owner, rows, vs)) && Elements(TargetKeys(env, owner, rows, vs)) <= rows
  {
    hide Lists, FieldKeys;
    TargetKeysAre(env, owner, rows, vs);
    if vs != [] {
      var n := |vs| - 1;
      var head := TargetKeys(env, owner, rows, vs[..n]);
      var more := FieldKeys(env, owner, rows - Elements(head), vs[n]);
      DeletesFindTheirRows(env, owner, rows, vs[..n]);
      FieldKeysOnce(env, owner, rows - Elements(head), vs[n]);
      FieldKeysAre(env, owner, rows - Elements(head), vs[n]);
      forall i, j | 0 <= i < j < |head + more| ensures (head + more)[i] != (head + more)[j] {
        if i < |head| <= j {
          assert head[i] in Elements(head);
          assert more[j - |head|] in Elements(more);
        }
      }
    }
  }

  lemma FieldKeysOnce(env: Env, owner: string, rows: set<ExtKey>, v: string)
    requires Lists(env)
    ensures Distinct(FieldKeys(env, owner, rows, v))
  {
    var fields, keys := env.listed(FieldsOf(rows, v)), FieldKeys(env, owner, rows, v);
    assert Distinct(fields);
    forall i, j | 0 <= i < j < |keys| ensures keys[i] != keys[j] { assert fields[i] != fields[j]; }
  }

  lemma {:induction false} TargetKeysPrefix(env: Env, owner: string, rows: set<ExtKey>, vs: seq<string>, i: nat, n: nat)
    requires i <= n <= |vs|
    ensures TargetKeys(env, owner, rows, vs[..i]) <= TargetKeys(env, owner, rows, vs[..n])
  {
    hide FieldKeys, Elements;
    if i < n {
      TargetKeysPrefix(env, owner, rows, vs, i, n - 1);
      assert vs[..n][..n - 1] == vs[..n - 1];
    }
  }

  function Do(s: Store, w: Write): Store {
    match w
    case CopyExt(from, into, v) => s.(ext := CopyAll(s.ext, from, into, {v}))
    case SaveCart(c) => s.(carts := s.carts[c.id := c])
    case DeleteExt(key) => s.(ext := s.ext - {key})
    case DeleteCart(id) => s.(carts := s.carts - {id})
  }

  function DoAll(s: Store, ws: seq<Write>): Store {
    if ws == [] then s else Do(DoAll(s, ws[..|ws| - 1]), ws[|ws| - 1])
  }

  lemma {:induction false} DoConcat(s: Store, a: seq<Write>, b: seq<Write>)
    ensures DoAll(s, a + b) == DoAll(DoAll(s, a), b)
  {
    hide Do;
    if b == [] {
      assert a + b == a;
    } else {
      DoConcat(s, a, b[..|b| - 1]);
      assert (a + b)[..|a + b| - 1] == a + b[..|b| - 1];
    }
  }

  function Copies(from: string, into: string, vs: seq<string>): seq<Write> {
    seq(|vs|, i requires 0 <= i < |vs| => CopyExt(from, into, vs[i]))
  }

  function Deletes(keys: seq<ExtKey>): seq<Write> {
    seq(|keys|, i requires 0 <= i < |keys| => DeleteExt(keys[i]))
  }

  lemma {:induction false} DoCopies(s: Store, from: string, into: string, vs: seq<string>)
    requires from != into
    ensures DoAll(s, Copies(from, into, vs)) == s.(ext := CopyAll(s.ext, from, into, Elements(vs)))
  {
    hide CopyAll;
    if vs == [] {
      assert Elements(vs) == {};
      CopyTwice(s.ext, from, into, {}, {});
    } else {
      var n := |vs| - 1;
      DoCopies(s, from, into, vs[..n]);
      assert Copies(from, into, vs)[..n] == Copies(from, into, vs[..n]);
      ElementsSplit(vs);
      CopyTwice(s.ext, from, into, Elements(vs[..n]), {vs[n]});
    }
  }

  lemma {:induction false} DoDeletes(s: Store, keys: seq<ExtKey>)
    ensures DoAll(s, Deletes(keys)) == s.(ext := s.ext - Elements(keys))
  {
    if keys == [] {
      assert Elements(keys) == {};
      RemoveTwice(s.ext, {}, {});
    } else {
      var n := |keys| - 1;
      DoDeletes(s, keys[..n]);
      assert Deletes(keys)[..n] == Deletes(keys[..n]);
      ElementsSplit(keys);
      RemoveTwice(s.ext, Elements(keys[..n]), {keys[n]});
    }
  }

  lemma ElementsConcat<T>(a: seq<T>, b: seq<T>)
    ensures Elements(a + b) == Elements(a) + Elements(b)
  {
    forall x ensures x in Elements(a + b) <==> x in Elements(a) || x in Elements(b) {
      if x in Elements(a) { var i :| 0 <= i < |a| && a[i] == x; assert (a + b)[i] == x; }
      if x in Elements(b) { var i :| 0 <= i < |b| && b[i] == x; assert (a + b)[|a| + i] == x; }
    }
  }

  lemma ElementsSplit<T>(vs: seq<T>)
    requires vs != []
    ensures Elements(vs) == Elements(vs[..|vs| - 1]) + {vs[|vs| - 1]}
  {
    var n := |vs| - 1;
    ElementsConcat(vs[..n], [vs[n]]);
    assert vs == vs[..n] + [vs[n]];
    assert Elements([vs[n]]) == {vs[n]} by { assert [vs[n]][0] == vs[n]; }
  }

  lemma ElementsPrefix<T>(vs: seq<T>, k: nat)
    requires k <= |vs|
    ensures Elements(vs[..k]) <= Elements(vs)
  {
    forall x | x in Elements(vs[..k]) ensures x in Elements(vs) {
      var i :| 0 <= i < k && vs[..k][i] == x;
      assert vs[i] == x;
    }
  }

  // ---- Lines ----

  predicate Empty(a: Assignment) {
    !a.deferred && Trim(a.parentProduct) == "" && Trim(a.parentUnit) == ""
  }

  const NONE := Assignment("", "", false)

  /** assignmentsConflict */
  predicate Conflict(existing: Assignment, incoming: Assignment) {
    !Empty(existing) && !Empty(incoming) &&
    (existing.deferred != incoming.deferred || Trim(existing.parentProduct) != Trim(incoming.parentProduct)
     || Trim(existing.parentUnit) != Trim(incoming.parentUnit))
  }

  /** Position of the line of a variant, or |items|. */
  function LineOf(items: seq<Item>, v: string): (i: nat)
    ensures i <= |items|
    ensures i < |items| ==> items[i].variant == v
    ensures forall j :: 0 <= j < i ==> items[j].variant != v
  {
    if items == [] || items[0].variant == v then 0 else 1 + LineOf(items[1..], v)
  }

  function Qty(items: seq<Item>, v: string): int {
    if LineOf(items, v) < |items| then items[LineOf(items, v)].qty else 0
  }

  function AssignmentOf(items: seq<Item>, v: string): Assignment {
    if LineOf(items, v) < |items| then items[LineOf(items, v)].assignment else NONE
  }

  predicate DistinctLines(items: seq<Item>) {
    forall i, j :: 0 <= i < j < |items| ==> items[i].variant != items[j].variant
  }

  function Variants(items: seq<Item>): seq<string> {
    seq(|items|, i requires 0 <= i < |items| => items[i].variant)
  }

  /** Cart.AddItem followed by stampLineAssignment. */
  function AddLine(items: seq<Item>, g: Item): seq<Item> {
    var i := LineOf(items, g.variant);
    if i < |items| then
      var line := items[i];
      items[i := Item(line.variant, line.qty + g.qty, g.price,
                      if Empty(line.assignment) && !Empty(g.assignment) then g.assignment else line.assignment)]
    else items + [Item(g.variant, g.qty, g.price, if Empty(g.assignment) then NONE else g.assignment)]
  }

  function AddLines(items: seq<Item>, more: seq<Item>): seq<Item> {
    if more == [] then items else AddLine(AddLines(items, more[..|more| - 1]), more[|more| - 1])
  }

  /** The quantity a guest line would have after the claim; None when the code rejects it outright. */
  function ClaimedQty(into: Option<Cart>, g: Item): Option<int> {
    if g.qty < 1 then None
    else match into
      case None => Some(g.qty)
      case Some(c) => if Qty(c.items, g.variant) > MAX_INT - g.qty then None else Some(Qty(c.items, g.variant) + g.qty)
  }

  predicate Claimable(env: Env, customer: string, currency: string, into: Option<Cart>, g: Item) {
    ClaimedQty(into, g).Some? && env.purchasable(customer, g, currency, ClaimedQty(into, g).value)
  }

  /** The guest lines that are not dropped, in order. */
  function Kept(env: Env, customer: string, currency: string, into: Option<Cart>, items: seq<Item>): seq<Item> {
    if items == [] then [] else
      var n := |items| - 1;
      var head := Kept(env, customer, currency, into, items[..n]);
      if Claimable(env, customer, currency, into, items[n]) then head + [items[n]] else head
  }

  predicate AnyConflict(existing: seq<Item>, incoming: seq<Item>) {
    exists i :: 0 <= i < |incoming| && Conflict(AssignmentOf(existing, incoming[i].variant), incoming[i].assignment)
  }

  /** recalculate: only unit prices change, and an empty cart is left alone. */
  function Reprice(env: Env, c: Cart): Cart {
    c.(items := seq(|c.items|, i requires 0 <= i < |c.items| => c.items[i].(price := env.price(c, c.items[i].variant))))
  }

  function Merged(env: Env, guest: Cart, c: Cart, kept: seq<Item>): Cart {
    var coupon := if c.coupon == "" && guest.coupon != "" && env.couponEligible(guest.coupon) then guest.coupon else c.coupon;
    Reprice(env, c.(items := AddLines(c.items, kept), coupon := coupon, mergedGuest := guest.id))
  }

  // ---- The claim as a list of writes ----

  datatype Answer = Nothing | Claimed(cart: string) | Refused

  datatype Plan = Plan(writes: seq<Write>, answer: Answer)

  predicate ActiveFor(c: Cart, customer: string) {
    c.customer == customer && c.active
  }

  ghost function FindActive(s: Store, customer: string): Option<Cart> {
    if exists id :: id in s.carts && ActiveFor(s.carts[id], customer) then
      var id :| id in s.carts && ActiveFor(s.carts[id], customer);
      Some(s.carts[id])
    else None
  }

  /** Extension targets of the cart whose variant is not on it. */
  function Orphans(e: Extensions, cart: string, keep: set<string>): set<string> {
    set k | k in e && k.cart == cart && k.variant !in keep :: k.variant
  }

  /** The rows that DeleteOrphanCartItemExtensions deletes, in order. */
  function OrphanKeys(env: Env, e: Extensions, cart: Cart): seq<ExtKey> {
    TargetKeys(env, cart.id, RowsOf(e, cart.id), env.listed(Orphans(e, cart.id, Elements(Variants(cart.items)))))
  }

  /** finishAssignedGuestCleanup */
  function OrphanDeletes(env: Env, e: Extensions, cart: Cart): seq<Write> {
    Deletes(OrphanKeys(env, e, cart))
  }

  /** The rows of the guest's lines, in the order in which they are deleted. */
  function GuestKeys(env: Env, e: Extensions, guest: Cart): seq<ExtKey> {
    TargetKeys(env, guest.id, RowsOf(e, guest.id), Variants(guest.items))
  }

  /** finishMergedGuestCleanup */
  function Cleanup(env: Env, e: Extensions, guest: Cart): seq<Write> {
    Deletes(GuestKeys(env, e, guest)) + [DeleteCart(guest.id)]
  }

  function Assigned(env: Env, guest: Cart, customer: string): Cart {
    Reprice(env, guest.(items := Kept(env, customer, guest.currency, None, guest.items), customer := customer))
  }

  function AssignPlan(env: Env, e: Extensions, guest: Cart, customer: string): Plan {
    if !guest.active && |Kept(env, customer, guest.currency, None, guest.items)| < |guest.items| then Plan([], Refused)
    else
      var claimed := Assigned(env, guest, customer);
      Plan([SaveCart(claimed)] + OrphanDeletes(env, e, claimed), Claimed(guest.id))
  }

  /** The guest lines that a merge into the customer's cart keeps. */
  function KeptLines(env: Env, guest: Cart, c: Cart): seq<Item> {
    Kept(env, c.customer, guest.currency, Some(c), guest.items)
  }

  function MergePlan(env: Env, e: Extensions, guest: Cart, c: Cart): Plan {
    var kept := KeptLines(env, guest, c);
    if AnyConflict(c.items, kept) then Plan([], Refused)
    else Plan(Copies(guest.id, c.id, Variants(kept)) + [SaveCart(Merged(env, guest, c, kept))] + Cleanup(env, e, guest),
              Claimed(c.id))
  }

  /** The currencies differ: an empty cart gives way, two filled ones are refused. */
  function MismatchPlan(env: Env, e: Extensions, guest: Cart, c: Cart, customer: string): Plan {
    if c.items == [] then
      var p := AssignPlan(env, e, guest, customer);
      Plan([DeleteCart(c.id)] + p.writes, p.answer)
    else if guest.items == [] then Plan([DeleteCart(guest.id)], Claimed(c.id))
    else Plan([], Refused)
  }

  ghost function ClaimPlan(s: Store, env: Env, guestID: string, customer: string): Plan {
    if guestID == "" then Plan([], Nothing)
    else if customer == "" then Plan([], Refused)
    else if guestID !in s.carts then Plan([], Nothing)
    else
      var guest := s.carts[guestID];
      if guest.customer == customer then Plan(OrphanDeletes(env, s.ext, guest), Claimed(guestID))
      else if guest.customer != "" then Plan([], Nothing)
      else
        match FindActive(s, customer)
        case None => AssignPlan(env, s.ext, guest, customer)
        case Some(c) =>
          if c.mergedGuest == guestID then Plan(Cleanup(env, s.ext, guest), Claimed(c.id))
          else if c.currency == guest.currency then MergePlan(env, s.ext, guest, c)
          else MismatchPlan(env, s.ext, guest, c, customer)
  }

  /** A claim in which the first n writes succeed and the next one, if any, fails. */
  ghost function ClaimUpTo(s: Store, env: Env, guestID: string, customer: string, n: nat): Store {
    var ws := ClaimPlan(s, env, guestID, customer).writes;
    DoAll(s, if n < |ws| then ws[..n] else ws)
  }

  /** A claim in which nothing fails. */
  ghost function Claim(s: Store, env: Env, guestID: string, customer: string): Store {
    DoAll(s, ClaimPlan(s, env, guestID, customer).writes)
  }

  /** Carts are stored under their id, no variant is listed twice, and a customer has one active cart at most. */
  predicate Valid(s: Store) {
    && (forall id :: id in s.carts ==> s.carts[id].id == id && DistinctLines(s.carts[id].items))
    && (forall a, b :: a in s.carts && b in s.carts && SameActive(s.carts[a], s.carts[b]) ==> a == b)
  }

  /** Both are active carts of one customer. */
  predicate SameActive(a: Cart, b: Cart) {
    a.customer != "" && a.customer == b.customer && a.active && b.active
  }

  lemma ActiveIs(s: Store, customer: string, id: string)
    requires Valid(s) && customer != "" && id in s.carts && ActiveFor(s.carts[id], customer)
    ensures FindActive(s, customer) == Some(s.carts[id])
  {
  }

  // ---- Conservation of lines ----

  lemma LineOfIs(items: seq<Item>, i: nat)
    requires DistinctLines(items) && i < |items|
    ensures LineOf(items, items[i].variant) == i
  {
    assert !(LineOf(items, items[i].variant) < i);
    assert !(i < LineOf(items, items[i].variant));
  }

  lemma LineOfNone(items: seq<Item>, v: string)
    requires forall i :: 0 <= i < |items| ==> items[i].variant != v
    ensures LineOf(items, v) == |items|
  {
  }

  lemma LineFound(items: seq<Item>, v: string, i: nat)
    requires i <= |items| && (i < |items| ==> items[i].variant == v) && forall j :: 0 <= j < i ==> items[j].variant != v
    ensures LineOf(items, v) == i
  {
    assert !(LineOf(items, v) < i);
    assert !(i < LineOf(items, v));
  }

  /** One added line: its quantity goes to its own variant, no other line changes, and a
      stored assignment stays what it was. */
  lemma AddLineEffect(items: seq<Item>, g: Item, v: string)
    requires DistinctLines(items)
    ensures DistinctLines(AddLine(items, g))
    ensures Qty(AddLine(items, g), v) == Qty(items, v) + (if v == g.variant then g.qty else 0)
    ensures !Empty(AssignmentOf(items, v)) ==> AssignmentOf(AddLine(items, g), v) == AssignmentOf(items, v)
    ensures v != g.variant ==> AssignmentOf(AddLine(items, g), v) == AssignmentOf(items, v)
    ensures v == g.variant && Empty(AssignmentOf(items, v)) && !Empty(g.assignment) ==> AssignmentOf(AddLine(items, g), v) == g.assignment
  {
    hide Trim;
    assert Empty(NONE) by { TrimIsTrimmed(""); }
    var more := AddLine(items, g);
    var i, k := LineOf(items, g.variant), LineOf(items, v);
    if i < |items| {
      LineFound(more, v, k);
    } else if v == g.variant {
      LineFound(more, v, |items|);
    } else if k < |items| {
      LineFound(more, v, k);
    } else {
      LineFound(more, v, |items| + 1);
    }
  }

  /** Merging adds each kept quantity exactly once and never replaces a stored assignment. */
  lemma {:induction false} AddLinesEffect(items: seq<Item>, more: seq<Item>, v: string)
    requires DistinctLines(items) && DistinctLines(more)
    ensures DistinctLines(AddLines(items, more))
    ensures Qty(AddLines(items, more), v) == Qty(items, v) + Qty(more, v)
    ensures !Empty(AssignmentOf(items, v)) ==> AssignmentOf(AddLines(items, more), v) == AssignmentOf(items, v)
    ensures LineOf(more, v) == |more| ==> AssignmentOf(AddLines(items, more), v) == AssignmentOf(items, v)
    ensures Empty(AssignmentOf(items, v)) && !Empty(AssignmentOf(more, v)) ==> AssignmentOf(AddLines(items, more), v) == AssignmentOf(more, v)
  {
    hide Trim, AddLine, LineOf;
    assert Empty(NONE) by { TrimIsTrimmed(""); }
    if more == [] {
    } else {
      var n := |more| - 1;
      AddLinesEffect(items, more[..n], v);
      AddLineEffect(AddLines(items, more[..n]), more[n], v);
      QtyLast(more, v);
      LastLine(more, v);
      if v == more[n].variant { LineOfNone(more[..n], v); }
    }
  }

  lemma QtyLast(more: seq<Item>, v: string)
    requires more != [] && DistinctLines(more)
    ensures Qty(more, v) == Qty(more[..|more| - 1], v) + (if v == more[|more| - 1].variant then more[|more| - 1].qty else 0)
  {
    var n := |more| - 1;
    var k := LineOf(more, v);
    if k < n {
      LineFound(more[..n], v, k);
    } else {
      LineOfNone(more[..n], v);
    }
  }

  lemma RepriceKeepsLines(env: Env, c: Cart, v: string)
    ensures var r := Reprice(env, c);
            && Variants(r.items) == Variants(c.items) && Qty(r.items, v) == Qty(c.items, v)
            && AssignmentOf(r.items, v) == AssignmentOf(c.items, v)
            && (DistinctLines(c.items) ==> DistinctLines(r.items))
            && r == c.(items := r.items)
  {
    var r := Reprice(env, c);
    LineFound(r.items, v, LineOf(c.items, v));
  }

  lemma {:induction false} KeptShape(env: Env, customer: string, currency: string, into: Option<Cart>, items: seq<Item>, v: string)
    requires DistinctLines(items)
    ensures var kept := Kept(env, customer, currency, into, items);
            && DistinctLines(kept) && |kept| <= |items|
            && (LineOf(kept, v) < |kept| ==> LineOf(items, v) < |items| && kept[LineOf(kept, v)] == items[LineOf(items, v)])
  {
    hide Claimable, LineOf;
    if items != [] {
      var n := |items| - 1;
      var head := Kept(env, customer, currency, into, items[..n]);
      KeptShape(env, customer, currency, into, items[..n], v);
      LastLine(items, v);
      forall i | 0 <= i < |head| ensures head[i].variant != items[n].variant {
        KeptShape(env, customer, currency, into, items[..n], head[i].variant);
        LineOfIs(head, i);
      }
      AppendLine(head, items[n], v);
    }
  }

  lemma AppendLine(head: seq<Item>, item: Item, v: string)
    requires DistinctLines(head) && forall i :: 0 <= i < |head| ==> head[i].variant != item.variant
    ensures DistinctLines(head + [item])
    ensures LineOf(head + [item], v) ==
            if LineOf(head, v) < |head| then LineOf(head, v) else if item.variant == v then |head| else |head| + 1
  {
    hide LineOf;
    var all := head + [item];
    LastLine(all, v);
    assert all[..|head|] == head;
  }

  lemma LastLine(items: seq<Item>, v: string)
    requires items != []
    ensures var n := |items| - 1;
            LineOf(items, v) == if LineOf(items[..n], v) < n then LineOf(items[..n], v) else if items[n].variant == v then n else n + 1
  {
    hide LineOf;
    var n := |items| - 1;
    assert forall j :: 0 <= j < n ==> items[..n][j] == items[j];
    var k := LineOf(items[..n], v);
    LineFound(items, v, if k < n then k else if items[n].variant == v then n else n + 1);
  }

  // ---- Stores stay valid ----

  lemma MergedValid(env: Env, guest: Cart, c: Cart)
    requires DistinctLines(guest.items) && DistinctLines(c.items)
    ensures var m := Merged(env, guest, c, Kept(env, c.customer, guest.currency, Some(c), guest.items));
            m.id == c.id && m.customer == c.customer && m.active == c.active && m.currency == c.currency
            && m.mergedGuest == guest.id && DistinctLines(m.items)
  {
    hide Kept, AddLines, Reprice;
    var kept := Kept(env, c.customer, guest.currency, Some(c), guest.items);
    KeptShape(env, c.customer, guest.currency, Some(c), guest.items, "");
    AddLinesEffect(c.items, kept, "");
    var coupon := if c.coupon == "" && guest.coupon != "" && env.couponEligible(guest.coupon) then guest.coupon else c.coupon;
    RepriceKeepsLines(env, c.(items := AddLines(c.items, kept), coupon := coupon, mergedGuest := guest.id), "");
  }

  lemma AssignedValid(env: Env, guest: Cart, customer: string)
    requires DistinctLines(guest.items)
    ensures var a := Assigned(env, guest, customer);
            a.id == guest.id && a.customer == customer && a.active == guest.active && DistinctLines(a.items)
  {
    hide Kept, Reprice;
    KeptShape(env, customer, guest.currency, None, guest.items, "");
    RepriceKeepsLines(env, guest.(items := Kept(env, customer, guest.currency, None, guest.items), customer := customer), "");
  }

  // ---- A retry reaches what an uninterrupted claim reaches ----

  /** The merge branch is taken. */
  ghost predicate Merging(s: Store, g: string, c: string, customer: string) {
    && Valid(s) && g != "" && customer != "" && g in s.carts && c in s.carts
    && s.carts[g].customer == "" && ActiveFor(s.carts[c], customer)
    && s.carts[c].mergedGuest != g && s.carts[c].currency == s.carts[g].currency
  }

  function KeptBy(s: Store, env: Env, g: string, c: string): seq<Item>
    requires g in s.carts && c in s.carts
  {
    KeptLines(env, s.carts[g], s.carts[c])
  }

  /** The state after some of the copies. */
  function Copying(s: Store, g: string, c: string, vs: set<string>): Store {
    s.(ext := CopyAll(s.ext, g, c, vs))
  }

  /** The state after the merged cart is saved and some guest rows are deleted. */
  function Cleaning(s: Store, env: Env, g: string, c: string, gone: set<ExtKey>): Store
    requires g in s.carts && c in s.carts
  {
    Store(s.carts[c := Merged(env, s.carts[g], s.carts[c], KeptBy(s, env, g, c))],
          CopyAll(s.ext, g, c, Elements(Variants(KeptBy(s, env, g, c)))) - gone)
  }

  function Cleaned(s: Store, env: Env, g: string, c: string): Store
    requires g in s.carts && c in s.carts
  {
    var t := Cleaning(s, env, g, c, Elements(GuestKeys(env, s.ext, s.carts[g])));
    t.(carts := t.carts - {g})
  }

  lemma MergePlanIs(s: Store, env: Env, g: string, c: string, customer: string)
    requires Merging(s, g, c, customer)
    ensures g != c && ClaimPlan(s, env, g, customer) == MergePlan(env, s.ext, s.carts[g], s.carts[c])
    ensures forall vs :: Merging(Copying(s, g, c, vs), g, c, customer)
  {
    hide MergePlan;
    ActiveIs(s, customer, c);
  }

  /** A merge cut among its copies. */
  lemma CutCopying(s: Store, env: Env, g: string, c: string, customer: string, n: nat) returns (done: set<string>)
    requires g in s.carts && c in s.carts && Merging(s, g, c, customer) && !AnyConflict(s.carts[c].items, KeptBy(s, env, g, c))
    requires n <= |KeptBy(s, env, g, c)|
    ensures done <= Elements(Variants(KeptBy(s, env, g, c)))
    ensures ClaimUpTo(s, env, g, customer, n) == Copying(s, g, c, done)
  {
    hide CopyAll, Kept, Merged, AnyConflict, Merging, ClaimPlan, Elements, Cleanup, Do;
    MergePlanIs(s, env, g, c, customer);
    CartIDs(s, g, c, customer);
    var kv := Variants(KeptBy(s, env, g, c));
    var ws := MergePlan(env, s.ext, s.carts[g], s.carts[c]).writes;
    done := Elements(kv[..n]);
    assert ws[..n] == Copies(g, c, kv[..n]);
    DoCopies(s, g, c, kv[..n]);
    ElementsPrefix(kv, n);
  }

  /** The writes of a merge, and the state after the merged cart is saved and j guest rows are deleted. */
  lemma SavedAndDeleting(s: Store, env: Env, g: string, c: string, customer: string, j: nat) returns (head: seq<Write>)
    requires g in s.carts && c in s.carts && Merging(s, g, c, customer) && !AnyConflict(s.carts[c].items, KeptBy(s, env, g, c))
    requires j <= |GuestKeys(env, s.ext, s.carts[g])|
    ensures var ws := ClaimPlan(s, env, g, customer).writes;
            && |head| == |KeptBy(s, env, g, c)| + 1 + j < |ws| && ws[..|head|] == head
            && (j == |GuestKeys(env, s.ext, s.carts[g])| ==> ws == head + [DeleteCart(g)])
    ensures DoAll(s, head) == Cleaning(s, env, g, c, Elements(GuestKeys(env, s.ext, s.carts[g])[..j]))
  {
    hide CopyAll, Kept, Merged, AnyConflict, Merging, ClaimPlan, Elements, GuestKeys;
    MergePlanIs(s, env, g, c, customer);
    CartIDs(s, g, c, customer);
    var guest, cart, kept, keys := s.carts[g], s.carts[c], KeptBy(s, env, g, c), GuestKeys(env, s.ext, s.carts[g]);
    var kv := Variants(kept);
    var merged := Merged(env, guest, cart, kept);
    MergedID(env, guest, cart, kept);
    var copies, save, dels := Copies(g, c, kv), [SaveCart(merged)], Deletes(keys[..j]);
    head := copies + save + dels;
    var ws := MergePlan(env, s.ext, guest, cart).writes;
    assert ws == copies + save + (Deletes(keys) + [DeleteCart(g)]);
    assert Deletes(keys)[..j] == dels;
    assert j == |keys| ==> keys[..j] == keys;
    DoCopies(s, g, c, kv);
    DoConcat(s, copies, save);
    DoConcat(s, copies + save, dels);
    var t := Copying(s, g, c, Elements(kv)).(carts := s.carts[c := merged]);
    assert DoAll(s, copies + save) == t by { assert save[..0] == []; }
    DoDeletes(t, keys[..j]);
  }

  /** Where a cut merge stops: among the copies, among the deleted rows, or at the end. */
  lemma MergeCut(s: Store, env: Env, g: string, c: string, customer: string, n: nat)
    returns (done: set<string>, gone: set<ExtKey>)
    requires g in s.carts && c in s.carts && Merging(s, g, c, customer) && !AnyConflict(s.carts[c].items, KeptBy(s, env, g, c))
    ensures var t := ClaimUpTo(s, env, g, customer, n);
            var m := |KeptBy(s, env, g, c)|;
            var keys := GuestKeys(env, s.ext, s.carts[g]);
            && (n <= m ==> done <= Elements(Variants(KeptBy(s, env, g, c))) && t == Copying(s, g, c, done))
            && (m < n <= m + 1 + |keys| ==> gone <= Elements(keys) && t == Cleaning(s, env, g, c, gone))
            && (n > m + 1 + |keys| ==> t == Cleaned(s, env, g, c))
  {
    hide Copying, Cleaning, KeptBy, AnyConflict, Merging, ClaimPlan, Elements, Do, GuestKeys;
    var m, keys := |KeptBy(s, env, g, c)|, GuestKeys(env, s.ext, s.carts[g]);
    done, gone := {}, {};
    if n <= m {
      done := CutCopying(s, env, g, c, customer, n);
    } else {
      var j := if n - m - 1 < |keys| then n - m - 1 else |keys|;
      gone := Elements(keys[..j]);
      ElementsPrefix(keys, j);
      var head := SavedAndDeleting(s, env, g, c, customer, j);
      if n > m + 1 + |keys| {
        assert keys[..j] == keys;
        DoConcat(s, head, [DeleteCart(g)]);
        DeleteLast(DoAll(s, head), g);
      }
    }
  }

  lemma DeleteLast(s: Store, g: string)
    ensures DoAll(s, [DeleteCart(g)]) == s.(carts := s.carts - {g})
  {
    assert [DeleteCart(g)][..0] == [];
  }

  lemma CartIDs(s: Store, g: string, c: string, customer: string)
    requires Merging(s, g, c, customer)
    ensures s.carts[g].id == g && s.carts[c].id == c && g != c
  {
  }

  lemma MergedID(env: Env, guest: Cart, c: Cart, kept: seq<Item>)
    ensures Merged(env, guest, c, kept).id == c.id
  {
  }

  /** The claim after the marker was saved only cleans up. */
  lemma MarkedClaim(s: Store, env: Env, g: string, c: string, customer: string)
    requires Valid(s) && g != "" && customer != "" && g in s.carts && c in s.carts && s.carts[g].customer == ""
    requires ActiveFor(s.carts[c], customer) && s.carts[c].mergedGuest == g
    ensures ClaimPlan(s, env, g, customer) == Plan(Cleanup(env, s.ext, s.carts[g]), Claimed(c))
    ensures Claim(s, env, g, customer) ==
            Store(s.carts - {g}, s.ext - Elements(GuestKeys(env, s.ext, s.carts[g])))
  {
    hide Elements, DistinctLines, GuestKeys;
    ActiveIs(s, customer, c);
    var keys := GuestKeys(env, s.ext, s.carts[g]);
    var dels := Deletes(keys);
    DoDeletes(s, keys);
    DoConcat(s, dels, [DeleteCart(g)]);
    DeleteLast(DoAll(s, dels), g);
  }

  lemma GuestKeysOwned(env: Env, e: Extensions, guest: Cart)
    ensures forall k :: k in Elements(GuestKeys(env, e, guest)) ==> k.cart == guest.id
  {
    TargetKeysOwned(env, guest.id, RowsOf(e, guest.id), Variants(guest.items));
  }

  /** After some of the guest rows are deleted, exactly the others are still to be deleted. */
  lemma GuestKeysLeft(env: Env, e: Extensions, guest: Cart, gone: set<ExtKey>)
    requires Lists(env) && gone <= Elements(GuestKeys(env, e, guest))
    ensures gone + Elements(GuestKeys(env, e - gone, guest)) == Elements(GuestKeys(env, e, guest))
  {
    hide Lists, TargetKeys, Elements;
    TargetKeysAre(env, guest.id, RowsOf(e, guest.id), Variants(guest.items));
    TargetKeysAre(env, guest.id, RowsOf(e - gone, guest.id), Variants(guest.items));
  }

  lemma GuestKeysKept(s: Store, env: Env, g: string, c: string, customer: string, vs: set<string>)
    requires g in s.carts && Merging(s, g, c, customer)
    ensures GuestKeys(env, CopyAll(s.ext, g, c, vs), s.carts[g]) == GuestKeys(env, s.ext, s.carts[g])
  {
    hide CopyAll, Merging, TargetKeys, RowsOf;
    CartIDs(s, g, c, customer);
    CopyKeepsRows(s.ext, g, c, vs);
  }

  lemma CleaningValid(s: Store, env: Env, g: string, c: string, customer: string, gone: set<ExtKey>)
    requires Merging(s, g, c, customer)
    ensures var t := Cleaning(s, env, g, c, gone);
            && Valid(t) && g in t.carts && t.carts[g] == s.carts[g]
            && ActiveFor(t.carts[c], customer) && t.carts[c].mergedGuest == g
  {
    hide CopyAll, Kept, Merged, DistinctLines;
    MergedValid(env, s.carts[g], s.carts[c]);
  }

  lemma MergeRestarts(s: Store, env: Env, g: string, c: string, customer: string, n: nat)
    requires g in s.carts && c in s.carts && Merging(s, g, c, customer) && !AnyConflict(s.carts[c].items, KeptBy(s, env, g, c))
    requires Lists(env)
    ensures Claim(ClaimUpTo(s, env, g, customer, n), env, g, customer) == Claim(s, env, g, customer)
    ensures Claim(s, env, g, customer) == Cleaned(s, env, g, c)
  {
    hide Kept, Merged, AnyConflict, Merging, ClaimPlan, Elements, Cleaning, Copying, Cleaned, Valid, Lists, Claim, ClaimUpTo, GuestKeys;
    var m, k := |KeptBy(s, env, g, c)|, |GuestKeys(env, s.ext, s.carts[g])|;
    MergeEnds(s, env, g, c, customer);
    var done, gone := MergeCut(s, env, g, c, customer, n);
    if n <= m {
      MergeResumes(s, env, g, c, customer, done);
    } else if n <= m + 1 + k {
      CleaningResumes(s, env, g, c, customer, gone);
    } else {
      CleanedRests(s, env, g, c, customer);
    }
  }

  lemma MergeEnds(s: Store, env: Env, g: string, c: string, customer: string)
    requires g in s.carts && c in s.carts && Merging(s, g, c, customer) && !AnyConflict(s.carts[c].items, KeptBy(s, env, g, c))
    ensures Claim(s, env, g, customer) == Cleaned(s, env, g, c)
  {
    hide CopyAll, Kept, Merged, AnyConflict, Merging, Elements, Cleaning, Cleaned, KeptBy, GuestKeys;
    var big := |ClaimPlan(s, env, g, customer).writes| + |KeptBy(s, env, g, c)| + |GuestKeys(env, s.ext, s.carts[g])| + 2;
    var _, _ := MergeCut(s, env, g, c, customer, big);
  }

  lemma MergeResumes(s: Store, env: Env, g: string, c: string, customer: string, done: set<string>)
    requires g in s.carts && c in s.carts && Merging(s, g, c, customer) && !AnyConflict(s.carts[c].items, KeptBy(s, env, g, c))
    requires done <= Elements(Variants(KeptBy(s, env, g, c)))
    ensures Claim(Copying(s, g, c, done), env, g, customer) == Cleaned(s, env, g, c)
  {
    hide CopyAll, Kept, Merged, AnyConflict, Merging, ClaimPlan, Elements, GuestKeys, Claim;
    var t := Copying(s, g, c, done);
    MergePlanIs(s, env, g, c, customer);
    MergeEnds(t, env, g, c, customer);
    GuestKeysKept(s, env, g, c, customer, done);
    var all := Elements(Variants(KeptBy(s, env, g, c)));
    CopyTwice(s.ext, g, c, done, all);
    assert done + all == all;
  }

  lemma CleaningResumes(s: Store, env: Env, g: string, c: string, customer: string, gone: set<ExtKey>)
    requires g in s.carts && c in s.carts && Merging(s, g, c, customer)
    requires Lists(env) && gone <= Elements(GuestKeys(env, s.ext, s.carts[g]))
    ensures Claim(Cleaning(s, env, g, c, gone), env, g, customer) == Cleaned(s, env, g, c)
  {
    hide CopyAll, Kept, Merged, ClaimPlan, Elements, Claim, Valid, Lists, GuestKeys;
    var t := Cleaning(s, env, g, c, gone);
    CleaningValid(s, env, g, c, customer, gone);
    MarkedClaim(t, env, g, c, customer);
    var vs := Elements(Variants(KeptBy(s, env, g, c)));
    var e := CopyAll(s.ext, g, c, vs);
    GuestKeysKept(s, env, g, c, customer, vs);
    GuestKeysLeft(env, e, s.carts[g], gone);
    RemoveTwice(e, gone, Elements(GuestKeys(env, e - gone, s.carts[g])));
  }

  lemma CleanedRests(s: Store, env: Env, g: string, c: string, customer: string)
    requires g in s.carts && c in s.carts
    ensures Claim(Cleaned(s, env, g, c), env, g, customer) == Cleaned(s, env, g, c)
  {
    hide CopyAll, Kept, Merged, Elements;
  }

  /** A claim that was cut after the marker was saved is cut again. */
  lemma MarkedCut(s: Store, env: Env, g: string, c: string, customer: string, n: nat) returns (gone: set<ExtKey>)
    requires Valid(s) && g != "" && customer != "" && g in s.carts && c in s.carts && s.carts[g].customer == ""
    requires ActiveFor(s.carts[c], customer) && s.carts[c].mergedGuest == g
    ensures gone <= Elements(GuestKeys(env, s.ext, s.carts[g]))
    ensures var t := s.(ext := s.ext - gone);
            ClaimUpTo(s, env, g, customer, n) ==
            if n <= |GuestKeys(env, s.ext, s.carts[g])| then t else t.(carts := s.carts - {g})
    ensures n > |GuestKeys(env, s.ext, s.carts[g])| ==> gone == Elements(GuestKeys(env, s.ext, s.carts[g]))
  {
    hide Elements, Valid, Claim, ClaimPlan, GuestKeys;
    MarkedClaim(s, env, g, c, customer);
    GuestID(s, g);
    var keys := GuestKeys(env, s.ext, s.carts[g]);
    var ws := Cleanup(env, s.ext, s.carts[g]);
    var j := if n <= |keys| then n else |keys|;
    gone := Elements(keys[..j]);
    ElementsPrefix(keys, j);
    DoDeletes(s, keys[..j]);
    assert ws[..j] == Deletes(keys[..j]);
    if n > |keys| {
      assert keys[..j] == keys;
      DoConcat(s, Deletes(keys), [DeleteCart(g)]);
      DeleteLast(DoAll(s, Deletes(keys)), g);
    }
  }

  lemma GuestID(s: Store, g: string)
    requires Valid(s) && g in s.carts
    ensures s.carts[g].id == g
  {
  }

  // ---- The other branches ----

  /** What a claim of a cart that is already the customer's does: it purges orphan rows. */
  lemma OrphanCut(s: Store, env: Env, g: string, customer: string, n: nat) returns (gone: set<ExtKey>)
    requires Valid(s) && g != "" && customer != "" && g in s.carts && s.carts[g].customer == customer
    ensures gone <= Elements(OrphanKeys(env, s.ext, s.carts[g]))
    ensures ClaimUpTo(s, env, g, customer, n) == s.(ext := s.ext - gone)
    ensures Claim(s, env, g, customer) == s.(ext := s.ext - Elements(OrphanKeys(env, s.ext, s.carts[g])))
  {
    hide OrphanKeys, Elements;
    var keys := OrphanKeys(env, s.ext, s.carts[g]);
    var j := if n < |keys| then n else |keys|;
    gone := Elements(keys[..j]);
    ElementsPrefix(keys, j);
    assert keys[..|keys|] == keys;
    assert Deletes(keys)[..j] == Deletes(keys[..j]);
    DoDeletes(s, keys[..j]);
    DoDeletes(s, keys);
  }

  /** The purge is of the rows whose variant is not on the cart. */
  lemma OrphanKeysAre(env: Env, e: Extensions, cart: Cart)
    requires Lists(env)
    ensures Elements(OrphanKeys(env, e, cart)) ==
            set k | k in e && k.cart == cart.id && k.variant !in Elements(Variants(cart.items))
  {
    hide TargetKeys, Elements;
    var keep := Elements(Variants(cart.items));
    TargetKeysAre(env, cart.id, RowsOf(e, cart.id), env.listed(Orphans(e, cart.id, keep)));
    forall k | k in e && k.cart == cart.id ensures k.variant in Orphans(e, cart.id, keep) <==> k.variant !in keep {
    }
  }

  lemma OrphanKeysLeft(env: Env, e: Extensions, cart: Cart, gone: set<ExtKey>)
    requires Lists(env) && gone <= Elements(OrphanKeys(env, e, cart))
    ensures gone + Elements(OrphanKeys(env, e - gone, cart)) == Elements(OrphanKeys(env, e, cart))
  {
    hide Lists, OrphanKeys, Elements;
    OrphanKeysAre(env, e, cart);
    OrphanKeysAre(env, e - gone, cart);
  }

  lemma OrphansRestart(s: Store, env: Env, g: string, customer: string, n: nat)
    requires Valid(s) && Lists(env) && g != "" && customer != "" && g in s.carts && s.carts[g].customer == customer
    ensures Claim(ClaimUpTo(s, env, g, customer, n), env, g, customer) == Claim(s, env, g, customer)
    ensures Valid(ClaimUpTo(s, env, g, customer, n))
  {
    hide OrphanKeys, Elements, ClaimUpTo, Claim, DistinctLines, Lists;
    var gone := OrphanCut(s, env, g, customer, n);
    var t := s.(ext := s.ext - gone);
    var _ := OrphanCut(t, env, g, customer, 0);
    OrphanKeysLeft(env, s.ext, s.carts[g], gone);
    RemoveTwice(s.ext, gone, Elements(OrphanKeys(env, t.ext, s.carts[g])));
  }

  /** No active cart: the guest cart becomes the customer's. */
  ghost predicate Assigning(s: Store, g: string, customer: string) {
    && Valid(s) && g != "" && customer != "" && g in s.carts && s.carts[g].customer == ""
    && forall id :: id in s.carts ==> !ActiveFor(s.carts[id], customer)
  }

  lemma AssignRestarts(s: Store, env: Env, g: string, customer: string, n: nat)
    requires Assigning(s, g, customer) && Lists(env)
    ensures Claim(ClaimUpTo(s, env, g, customer, n), env, g, customer) == Claim(s, env, g, customer)
    ensures Valid(ClaimUpTo(s, env, g, customer, n))
  {
    hide Kept, Assigned, DistinctLines, OrphanDeletes;
    var guest := s.carts[g];
    var p := AssignPlan(env, s.ext, guest, customer);
    assert ClaimPlan(s, env, g, customer) == p;
    if p.writes == [] || n == 0 {
      assert p.writes != [] ==> p.writes[..0] == [];
    } else {
      AssignSaved(s, env, g, customer, n);
    }
  }

  lemma AssignPlans(s: Store, env: Env, g: string, customer: string) returns (t: Store, rest: seq<Write>)
    requires Assigning(s, g, customer) && AssignPlan(env, s.ext, s.carts[g], customer).writes != []
    ensures t == s.(carts := s.carts[g := Assigned(env, s.carts[g], customer)]) && Assigned(env, s.carts[g], customer).id == g
    ensures Valid(t) && g != "" && customer != "" && g in t.carts && t.carts[g].customer == customer
    ensures ClaimPlan(s, env, g, customer).writes == [SaveCart(Assigned(env, s.carts[g], customer))] + rest
    ensures ClaimPlan(t, env, g, customer).writes == rest
  {
    hide Kept, Assigned, DistinctLines, OrphanDeletes;
    var claimed := Assigned(env, s.carts[g], customer);
    AssignedValid(env, s.carts[g], customer);
    t, rest := s.(carts := s.carts[g := claimed]), OrphanDeletes(env, s.ext, claimed);
  }

  /** Once the claimed cart is saved, the rest of the claim is what a retry does. */
  lemma AssignSaved(s: Store, env: Env, g: string, customer: string, n: nat)
    requires Assigning(s, g, customer) && Lists(env) && n > 0 && AssignPlan(env, s.ext, s.carts[g], customer).writes != []
    ensures Claim(ClaimUpTo(s, env, g, customer, n), env, g, customer) == Claim(s, env, g, customer)
    ensures Valid(ClaimUpTo(s, env, g, customer, n))
  {
    hide Kept, Assigned, OrphanDeletes, Do, Valid, Lists, ClaimPlan, AssignPlan;
    var t, rest := AssignPlans(s, env, g, customer);
    var save := [SaveCart(Assigned(env, s.carts[g], customer))];
    var ws := save + rest;
    SaveOne(s, save[0].cart);
    DoConcat(s, save, rest);
    var m := if n < |ws| then n else |ws|;
    assert ws[..m] == save + rest[..m - 1];
    assert ws[..|ws|] == ws && rest[..|rest|] == rest;
    DoConcat(s, save, rest[..m - 1]);
    OrphansRestart(t, env, g, customer, m - 1);
  }

  lemma SaveOne(s: Store, c: Cart)
    ensures DoAll(s, [SaveCart(c)]) == s.(carts := s.carts[c.id := c])
  {
    assert [SaveCart(c)][..0] == [];
  }

  /** The customer's cart is empty and in another currency: it is deleted, then the guest cart is assigned. */
  ghost predicate Replacing(s: Store, g: string, c: string, customer: string) {
    && Valid(s) && g != "" && customer != "" && g in s.carts && s.carts[g].customer == ""
    && c in s.carts && ActiveFor(s.carts[c], customer) && s.carts[c].mergedGuest != g
    && s.carts[c].currency != s.carts[g].currency && s.carts[c].items == []
  }

  lemma ReplacePlans(s: Store, env: Env, g: string, c: string, customer: string) returns (t: Store, rest: seq<Write>)
    requires Replacing(s, g, c, customer)
    ensures Valid(s) && t == s.(carts := s.carts - {c}) && Assigning(t, g, customer)
    ensures ClaimPlan(s, env, g, customer).writes == [DeleteCart(c)] + rest
    ensures ClaimPlan(t, env, g, customer).writes == rest
  {
    hide AssignPlan, DistinctLines;
    ActiveIs(s, customer, c);
    t, rest := s.(carts := s.carts - {c}), AssignPlan(env, s.ext, s.carts[g], customer).writes;
  }

  lemma ReplaceRestarts(s: Store, env: Env, g: string, c: string, customer: string, n: nat)
    requires Replacing(s, g, c, customer) && Lists(env)
    ensures Claim(ClaimUpTo(s, env, g, customer, n), env, g, customer) == Claim(s, env, g, customer)
    ensures Valid(ClaimUpTo(s, env, g, customer, n))
  {
    hide Replacing, Assigning, Valid, Do, Lists, ClaimPlan;
    var t, rest := ReplacePlans(s, env, g, c, customer);
    var ws := [DeleteCart(c)] + rest;
    DeleteLast(s, c);
    DoConcat(s, [DeleteCart(c)], rest);
    if n == 0 {
      assert ws[..0] == [];
    } else {
      var m := if n < |ws| then n else |ws|;
      assert ws[..m] == [DeleteCart(c)] + rest[..m - 1];
      assert ws[..|ws|] == ws && rest[..|rest|] == rest;
      DoConcat(s, [DeleteCart(c)], rest[..m - 1]);
      AssignRestarts(t, env, g, customer, m - 1);
    }
  }

  lemma MarkedRestarts(s: Store, env: Env, g: string, c: string, customer: string, n: nat)
    requires Valid(s) && Lists(env) && g != "" && customer != "" && g in s.carts && c in s.carts && s.carts[g].customer == ""
    requires ActiveFor(s.carts[c], customer) && s.carts[c].mergedGuest == g
    ensures Claim(ClaimUpTo(s, env, g, customer, n), env, g, customer) == Claim(s, env, g, customer)
    ensures Valid(ClaimUpTo(s, env, g, customer, n))
  {
    hide Elements, ClaimUpTo, DistinctLines, Cleanup, GuestKeys, Lists;
    var gone := MarkedCut(s, env, g, c, customer, n);
    MarkedClaim(s, env, g, c, customer);
    var t := s.(ext := s.ext - gone);
    if n <= |GuestKeys(env, s.ext, s.carts[g])| {
      MarkedClaim(t, env, g, c, customer);
      GuestKeysLeft(env, s.ext, s.carts[g], gone);
      RemoveTwice(s.ext, gone, Elements(GuestKeys(env, t.ext, s.carts[g])));
    }
  }

  lemma MergeStaysValid(s: Store, env: Env, g: string, c: string, customer: string, n: nat)
    requires g in s.carts && c in s.carts && Merging(s, g, c, customer) && !AnyConflict(s.carts[c].items, KeptBy(s, env, g, c))
    ensures Valid(ClaimUpTo(s, env, g, customer, n))
  {
    hide CopyAll, Kept, Merged, AnyConflict, ClaimUpTo, DistinctLines, Cleaning, GuestKeys;
    var done, gone := MergeCut(s, env, g, c, customer, n);
    CleaningValid(s, env, g, c, customer, gone);
    CleaningValid(s, env, g, c, customer, Elements(GuestKeys(env, s.ext, s.carts[g])));
  }

  /** A claim cut at any write, then run again, ends in the state an uninterrupted
      claim would have reached, whichever branch it takes. */
  lemma RestartConverges(s: Store, env: Env, g: string, customer: string, n: nat)
    requires Valid(s) && Lists(env)
    ensures Claim(ClaimUpTo(s, env, g, customer, n), env, g, customer) == Claim(s, env, g, customer)
    ensures Valid(ClaimUpTo(s, env, g, customer, n))
  {
    hide Valid, Lists, MergePlan, AssignPlan, Cleanup, OrphanDeletes, Do, AnyConflict, KeptBy;
    var p := ClaimPlan(s, env, g, customer);
    if p.writes == [] {
    } else if s.carts[g].customer == customer {
      OrphansRestart(s, env, g, customer, n);
    } else {
      match FindActive(s, customer) {
        case None => AssignAgain(s, env, g, customer, n);
        case Some(cart) =>
          var c := ActiveFound(s, customer);
          if cart.mergedGuest == g {
            MarkedRestarts(s, env, g, c, customer, n);
          } else if cart.currency == s.carts[g].currency {
            MergeAgain(s, env, g, c, customer, n);
          } else if cart.items == [] {
            ReplaceRestarts(s, env, g, c, customer, n);
          } else {
            EmptyGuestGone(s, env, g, c, customer, n);
          }
      }
    }
  }

  lemma AssignAgain(s: Store, env: Env, g: string, customer: string, n: nat)
    requires Valid(s) && Lists(env) && g != "" && customer != "" && g in s.carts && s.carts[g].customer == ""
    requires FindActive(s, customer).None?
    ensures Claim(ClaimUpTo(s, env, g, customer, n), env, g, customer) == Claim(s, env, g, customer)
    ensures Valid(ClaimUpTo(s, env, g, customer, n))
  {
    hide Claim, ClaimUpTo, Valid, Lists;
    AssignRestarts(s, env, g, customer, n);
  }

  lemma ActiveFound(s: Store, customer: string) returns (c: string)
    requires FindActive(s, customer).Some?
    ensures c in s.carts && ActiveFor(s.carts[c], customer) && FindActive(s, customer) == Some(s.carts[c])
  {
    c :| c in s.carts && ActiveFor(s.carts[c], customer) && FindActive(s, customer) == Some(s.carts[c]);
  }

  lemma MergeAgain(s: Store, env: Env, g: string, c: string, customer: string, n: nat)
    requires g in s.carts && c in s.carts && Merging(s, g, c, customer) && Lists(env)
    ensures Claim(ClaimUpTo(s, env, g, customer, n), env, g, customer) == Claim(s, env, g, customer)
    ensures Valid(ClaimUpTo(s, env, g, customer, n))
  {
    hide AnyConflict, Kept, Copies, Merged, Cleanup, DistinctLines, Do, Lists;
    MergePlanIs(s, env, g, c, customer);
    if !AnyConflict(s.carts[c].items, KeptBy(s, env, g, c)) {
      MergeRestarts(s, env, g, c, customer, n);
      MergeStaysValid(s, env, g, c, customer, n);
    }
  }

  lemma EmptyGuestGone(s: Store, env: Env, g: string, c: string, customer: string, n: nat)
    requires Valid(s) && g != "" && customer != "" && g in s.carts && s.carts[g].customer == ""
    requires c in s.carts && ActiveFor(s.carts[c], customer) && s.carts[c].mergedGuest != g
    requires s.carts[c].currency != s.carts[g].currency && s.carts[c].items != [] && s.carts[g].items == []
    ensures Claim(ClaimUpTo(s, env, g, customer, n), env, g, customer) == Claim(s, env, g, customer)
    ensures Valid(ClaimUpTo(s, env, g, customer, n))
  {
    hide DistinctLines, Do;
    ActiveIs(s, customer, c);
    DeleteLast(s, g);
    var ws := [DeleteCart(g)];
    assert ws[..0] == [];
    assert ClaimPlan(s.(carts := s.carts - {g}), env, g, customer).writes == [];
  }

  /** Any number of cut claims. */
  ghost function CutClaims(s: Store, env: Env, g: string, customer: string, ns: seq<nat>): Store
    decreases |ns|
  {
    if ns == [] then s else ClaimUpTo(CutClaims(s, env, g, customer, ns[..|ns| - 1]), env, g, customer, ns[|ns| - 1])
  }

  /** However often and wherever a claim fails, an eventual success reaches the state of an uninterrupted claim. */
  lemma {:induction false} RetriesConverge(s: Store, env: Env, g: string, customer: string, ns: seq<nat>)
    requires Valid(s) && Lists(env)
    ensures Claim(CutClaims(s, env, g, customer, ns), env, g, customer) == Claim(s, env, g, customer)
    ensures Valid(CutClaims(s, env, g, customer, ns))
    decreases |ns|
  {
    hide Claim, ClaimUpTo, Valid, Lists;
    if ns != [] {
      var n := |ns| - 1;
      RetriesConverge(s, env, g, customer, ns[..n]);
      RestartConverges(CutClaims(s, env, g, customer, ns[..n]), env, g, customer, ns[n]);
    }
  }

  // ---- Safety at every cut, while prices, stock and coupons change between attempts ----

  datatype Attempt = Attempt(env: Env, writes: nat)

  ghost function Attempts(s: Store, tries: seq<Attempt>, g: string, customer: string): Store {
    if tries == [] then s else
      var last := tries[|tries| - 1];
      ClaimUpTo(Attempts(s, tries[..|tries| - 1], g, customer), last.env, g, customer, last.writes)
  }

  /** kept are lines of the guest cart, each once. */
  ghost predicate LinesFrom(kept: seq<Item>, guest: seq<Item>) {
    DistinctLines(kept) && forall i :: 0 <= i < |kept| ==> kept[i] in guest
  }

  /** m is the customer's cart with the kept lines added once: every quantity is accounted
      for, no stored assignment was replaced, an empty one took the guest's, and the marker is set. */
  ghost predicate MergeOf(c: Cart, guest: Cart, kept: seq<Item>, m: Cart) {
    && LinesFrom(kept, guest.items) && DistinctLines(m.items)
    && m.id == c.id && m.customer == c.customer && m.active == c.active && m.currency == c.currency && m.mergedGuest == guest.id
    && (forall v :: Qty(m.items, v) == Qty(c.items, v) + Qty(kept, v))
    && (forall v :: !Empty(AssignmentOf(c.items, v)) ==> AssignmentOf(m.items, v) == AssignmentOf(c.items, v))
    && (forall v :: Empty(AssignmentOf(c.items, v)) && !Empty(AssignmentOf(kept, v)) ==> AssignmentOf(m.items, v) == AssignmentOf(kept, v))
  }

  lemma MergedIsMergeOf(env: Env, guest: Cart, c: Cart, kept: seq<Item>)
    requires DistinctLines(guest.items) && DistinctLines(c.items)
    requires kept == Kept(env, c.customer, guest.currency, Some(c), guest.items)
    ensures MergeOf(c, guest, kept, Merged(env, guest, c, kept))
  {
    hide Kept, AddLines, Reprice, AssignmentOf, Qty, Empty;
    var m := Merged(env, guest, c, kept);
    var coupon := if c.coupon == "" && guest.coupon != "" && env.couponEligible(guest.coupon) then guest.coupon else c.coupon;
    var sum := c.(items := AddLines(c.items, kept), coupon := coupon, mergedGuest := guest.id);
    MergedValid(env, guest, c);
    forall v ensures Qty(m.items, v) == Qty(c.items, v) + Qty(kept, v)
              && (!Empty(AssignmentOf(c.items, v)) ==> AssignmentOf(m.items, v) == AssignmentOf(c.items, v))
              && (Empty(AssignmentOf(c.items, v)) && !Empty(AssignmentOf(kept, v)) ==> AssignmentOf(m.items, v) == AssignmentOf(kept, v))
    {
      KeptShape(env, c.customer, guest.currency, Some(c), guest.items, v);
      AddLinesEffect(c.items, kept, v);
      RepriceKeepsLines(env, sum, v);
    }
    forall i | 0 <= i < |kept| ensures kept[i] in guest.items {
      KeptShape(env, c.customer, guest.currency, Some(c), guest.items, kept[i].variant);
      LineOfIs(kept, i);
    }
    KeptShape(env, c.customer, guest.currency, Some(c), guest.items, "");
  }

  /** Where any sequence of attempts leaves the store: nothing merged and only copies made, or merged exactly once. */
  ghost predicate Unmerged(s0: Store, s: Store, g: string, c: string, copied: set<string>) {
    s == Copying(s0, g, c, copied)
  }

  ghost predicate MergedOnce(s0: Store, s: Store, g: string, c: string, kept: seq<Item>, m: Cart, copied: set<string>, gone: set<ExtKey>)
    requires g in s0.carts && c in s0.carts
  {
    && MergeOf(s0.carts[c], s0.carts[g], kept, m) && Elements(Variants(kept)) <= copied
    && s.ext == CopyAll(s0.ext, g, c, copied) - gone && (forall k :: k in gone ==> k.cart == g)
    && (s.carts == s0.carts[c := m] || s.carts == s0.carts[c := m] - {g})
  }

  lemma {:induction false} AttemptsShape(s0: Store, tries: seq<Attempt>, g: string, c: string, customer: string)
    returns (merged: bool, kept: seq<Item>, m: Cart, copied: set<string>, gone: set<ExtKey>)
    requires g in s0.carts && c in s0.carts && Merging(s0, g, c, customer)
    ensures var s := Attempts(s0, tries, g, customer);
            if merged then MergedOnce(s0, s, g, c, kept, m, copied, gone) else Unmerged(s0, s, g, c, copied)
    decreases |tries|
  {
    hide Merging, ClaimUpTo, MergedOnce, Copying, CopyAll, Elements;
    if tries == [] {
      merged, kept, m, copied, gone := false, [], s0.carts[c], {}, {};
      NothingCopied(s0, g, c, customer);
    } else {
      var last := tries[|tries| - 1];
      merged, kept, m, copied, gone := AttemptsShape(s0, tries[..|tries| - 1], g, c, customer);
      var s := Attempts(s0, tries[..|tries| - 1], g, customer);
      if merged {
        gone := MergedStays(s0, s, g, c, customer, kept, m, copied, gone, last);
      } else {
        merged, kept, m, copied, gone := UnmergedMoves(s0, g, c, customer, copied, last);
      }
    }
  }

  lemma NothingCopied(s0: Store, g: string, c: string, customer: string)
    requires g in s0.carts && c in s0.carts && Merging(s0, g, c, customer)
    ensures Copying(s0, g, c, {}) == s0
  {
    hide CopyAll;
    CartIDs(s0, g, c, customer);
    CopyTwice(s0.ext, g, c, {}, {});
  }

  lemma UnmergedMoves(s0: Store, g: string, c: string, customer: string, before: set<string>, a: Attempt)
    returns (merged: bool, kept: seq<Item>, m: Cart, copied: set<string>, gone: set<ExtKey>)
    requires g in s0.carts && c in s0.carts && Merging(s0, g, c, customer)
    ensures var s := ClaimUpTo(Copying(s0, g, c, before), a.env, g, customer, a.writes);
            if merged then MergedOnce(s0, s, g, c, kept, m, copied, gone) else Unmerged(s0, s, g, c, copied)
  {
    hide Kept, AnyConflict, Merged, CopyAll, ClaimPlan, MergeOf, Elements, Merging, GuestKeys;
    var s := Copying(s0, g, c, before);
    MergePlanIs(s0, a.env, g, c, customer);
    CartIDs(s0, g, c, customer);
    merged, kept, m, copied, gone := false, KeptBy(s, a.env, g, c), s0.carts[c], before, {};
    if AnyConflict(s.carts[c].items, kept) {
      ConflictRefused(s, a.env, g, c, customer);
    } else {
      var done, rows := MergeCut(s, a.env, g, c, customer, a.writes);
      var keys := GuestKeys(a.env, s.ext, s.carts[g]);
      if a.writes <= |kept| {
        copied := before + done;
        CopyTwice(s0.ext, g, c, before, done);
      } else {
        merged := true;
        m := Merged(a.env, s0.carts[g], s0.carts[c], kept);
        copied := before + Elements(Variants(kept));
        gone := if a.writes <= |kept| + 1 + |keys| then rows else Elements(keys);
        GuestKeysOwned(a.env, s.ext, s.carts[g]);
        CopyTwice(s0.ext, g, c, before, Elements(Variants(kept)));
        LinesDistinct(s0, g, c, customer);
        MergedIsMergeOf(a.env, s0.carts[g], s0.carts[c], kept);
      }
    }
  }

  lemma LinesDistinct(s: Store, g: string, c: string, customer: string)
    requires g in s.carts && c in s.carts && Merging(s, g, c, customer)
    ensures DistinctLines(s.carts[g].items) && DistinctLines(s.carts[c].items)
  {
  }

  lemma MergedStays(s0: Store, s: Store, g: string, c: string, customer: string, kept: seq<Item>, m: Cart,
                    copied: set<string>, before: set<ExtKey>, a: Attempt)
    returns (gone: set<ExtKey>)
    requires g in s0.carts && c in s0.carts && Merging(s0, g, c, customer) && MergedOnce(s0, s, g, c, kept, m, copied, before)
    ensures MergedOnce(s0, ClaimUpTo(s, a.env, g, customer, a.writes), g, c, kept, m, copied, gone)
  {
    hide CopyAll, Elements, Qty, AssignmentOf, Empty, LinesFrom, DistinctLines, Cleanup, Variants, GuestKeys;
    gone := before;
    if g in s.carts {
      assert s.carts == s0.carts[c := m];
      assert Valid(s);
      var done := MarkedCut(s, a.env, g, c, customer, a.writes);
      gone := before + done;
      GuestKeysOwned(a.env, s.ext, s.carts[g]);
      RemoveTwice(CopyAll(s0.ext, g, c, copied), before, done);
    }
  }

  /** For any attempts to claim one unedited guest cart, each failing wherever it may while
      stock, prices and coupons change: the guest quantities have been added at most once,
      the guest cart is gone only if they were, and the extension values of every kept line
      are still under the guest target or already under the customer's. */
  lemma ClaimedAtMostOnce(s0: Store, tries: seq<Attempt>, g: string, c: string, customer: string) returns (kept: seq<Item>)
    requires g in s0.carts && c in s0.carts && Merging(s0, g, c, customer)
    ensures var s := Attempts(s0, tries, g, customer);
            || (s.carts == s0.carts && forall k: ExtKey :: k.cart == g ==> SameRow(s0.ext, s.ext, k, k))
            || (&& c in s.carts && MergeOf(s0.carts[c], s0.carts[g], kept, s.carts[c])
                && forall i, f :: 0 <= i < |kept| && ExtKey(g, kept[i].variant, f) in s0.ext ==>
                     SameRow(s0.ext, s.ext, ExtKey(g, kept[i].variant, f), ExtKey(c, kept[i].variant, f)))
    ensures g !in Attempts(s0, tries, g, customer).carts ==>
              c in Attempts(s0, tries, g, customer).carts &&
              MergeOf(s0.carts[c], s0.carts[g], kept, Attempts(s0, tries, g, customer).carts[c])
  {
    hide Merging, CopyAll, MergeOf, Attempts, Elements, Variants;
    var merged, m, copied, gone;
    merged, kept, m, copied, gone := AttemptsShape(s0, tries, g, c, customer);
    var s := Attempts(s0, tries, g, customer);
    CartIDs(s0, g, c, customer);
    if merged {
      forall i, f | 0 <= i < |kept| && ExtKey(g, kept[i].variant, f) in s0.ext
        ensures SameRow(s0.ext, s.ext, ExtKey(g, kept[i].variant, f), ExtKey(c, kept[i].variant, f))
      {
        KeptRowMoved(s0.ext, g, c, kept, copied, gone, i, f);
      }
    } else {
      forall k: ExtKey | k.cart == g ensures SameRow(s0.ext, s.ext, k, k) { CopyAt(s0.ext, g, c, copied, k); }
    }
  }

  /** Row k of e and row l of f are both absent or hold the same value. */
  predicate SameRow(e: Extensions, f: Extensions, k: ExtKey, l: ExtKey) {
    (k in e <==> l in f) && (k in e ==> e[k] == f[l])
  }

  lemma KeptRowMoved(e: Extensions, g: string, c: string, kept: seq<Item>, copied: set<string>, gone: set<ExtKey>, i: nat, f: string)
    requires g != c && (forall k :: k in gone ==> k.cart == g) && i < |kept| && Elements(Variants(kept)) <= copied && ExtKey(g, kept[i].variant, f) in e
    ensures SameRow(e, CopyAll(e, g, c, copied) - gone, ExtKey(g, kept[i].variant, f), ExtKey(c, kept[i].variant, f))
  {
    hide CopyAll;
    assert Variants(kept)[i] == kept[i].variant;
    assert kept[i].variant in Elements(Variants(kept));
    CopyAt(e, g, c, copied, ExtKey(c, kept[i].variant, f));
  }

  // ---- What a claim does, said of lines, rows and carts ----

  lemma FromPrefix(items: seq<Item>, g: Item)
    requires items != []
    ensures g in items <==> g in items[..|items| - 1] || g == items[|items| - 1]
  {
    assert items == items[..|items| - 1] + [items[|items| - 1]];
  }

  /** A guest line is kept exactly when its quantity is positive, adding it to what the cart has does
      not overflow, and that many may be bought. */
  lemma {:induction false} KeptIff(env: Env, customer: string, currency: string, into: Option<Cart>, items: seq<Item>, g: Item)
    ensures g in Kept(env, customer, currency, into, items) <==>
            g in items && g.qty >= 1
            && match into
               case None => env.purchasable(customer, g, currency, g.qty)
               case Some(c) => Qty(c.items, g.variant) + g.qty <= MAX_INT
                               && env.purchasable(customer, g, currency, Qty(c.items, g.variant) + g.qty)
  {
    hide Qty;
    if items != [] {
      KeptIff(env, customer, currency, into, items[..|items| - 1], g);
      FromPrefix(items, g);
    }
  }

  /** The two lines are of one variant, both name a parent, and they differ in the deferred flag or
      in a trimmed parent id. */
  predicate Disagree(a: Item, b: Item) {
    && a.variant == b.variant
    && (a.assignment.deferred || Trim(a.assignment.parentProduct) != "" || Trim(a.assignment.parentUnit) != "")
    && (b.assignment.deferred || Trim(b.assignment.parentProduct) != "" || Trim(b.assignment.parentUnit) != "")
    && (a.assignment.deferred != b.assignment.deferred
        || Trim(a.assignment.parentProduct) != Trim(b.assignment.parentProduct)
        || Trim(a.assignment.parentUnit) != Trim(b.assignment.parentUnit))
  }

  lemma ConflictsAre(existing: seq<Item>, incoming: seq<Item>)
    requires DistinctLines(existing)
    ensures AnyConflict(existing, incoming) <==> exists a, b :: a in existing && b in incoming && Disagree(a, b)
  {
    hide Trim;
    assert Empty(NONE) by { TrimIsTrimmed(""); }
    if AnyConflict(existing, incoming) {
      var i :| 0 <= i < |incoming| && Conflict(AssignmentOf(existing, incoming[i].variant), incoming[i].assignment);
      var j := LineOf(existing, incoming[i].variant);
      assert Disagree(existing[j], incoming[i]);
    }
    if a, b :| a in existing && b in incoming && Disagree(a, b) {
      var j :| 0 <= j < |existing| && existing[j] == a;
      var i :| 0 <= i < |incoming| && incoming[i] == b;
      LineOfIs(existing, j);
      assert Conflict(AssignmentOf(existing, incoming[i].variant), incoming[i].assignment);
    }
  }

  /** An unmarked cart of the same currency refuses the guest cart, and nothing is written, exactly when
      a kept guest line and the customer's line of its variant name different parents. */
  lemma MergeRefusedIff(s: Store, env: Env, g: string, c: string, customer: string)
    requires g in s.carts && c in s.carts && Merging(s, g, c, customer)
    ensures ClaimPlan(s, env, g, customer).answer == Refused
            <==> exists a, b :: a in s.carts[c].items && b in KeptBy(s, env, g, c) && Disagree(a, b)
    ensures ClaimPlan(s, env, g, customer).answer == Refused ==> Claim(s, env, g, customer) == s
    ensures ClaimPlan(s, env, g, customer).answer != Refused ==> ClaimPlan(s, env, g, customer).answer == Claimed(c)
  {
    hide Merging, ClaimPlan, AnyConflict, Disagree, Kept, Merged, Cleanup;
    MergePlanIs(s, env, g, c, customer);
    CartIDs(s, g, c, customer);
    LinesDistinct(s, g, c, customer);
    ConflictsAre(s.carts[c].items, KeptBy(s, env, g, c));
    if AnyConflict(s.carts[c].items, KeptBy(s, env, g, c)) { ConflictRefused(s, env, g, c, customer); }
  }

  /** The same deferred flag and the same parent, up to white space. */
  predicate SameParent(a: Assignment, b: Assignment) {
    a.deferred == b.deferred && Trim(a.parentProduct) == Trim(b.parentProduct) && Trim(a.parentUnit) == Trim(b.parentUnit)
  }

  /** Wherever a merge stops after its save, every kept guest line that names a parent finds that
      parent on its variant in the customer's cart. */
  lemma MergedParentsAgree(s: Store, env: Env, g: string, c: string, customer: string, n: nat, i: nat)
    requires g in s.carts && c in s.carts && Merging(s, g, c, customer)
    requires c in ClaimUpTo(s, env, g, customer, n).carts && ClaimUpTo(s, env, g, customer, n).carts[c].mergedGuest == g
    requires i < |KeptBy(s, env, g, c)|
    requires var a := KeptBy(s, env, g, c)[i].assignment; a.deferred || Trim(a.parentProduct) != "" || Trim(a.parentUnit) != ""
    ensures var m, line := ClaimUpTo(s, env, g, customer, n).carts[c], KeptBy(s, env, g, c)[i];
            exists j :: 0 <= j < |m.items| && m.items[j].variant == line.variant && SameParent(m.items[j].assignment, line.assignment)
  {
    hide Merging, ClaimPlan, AnyConflict, Kept, Merged, Cleanup, CopyAll, GuestKeys, ClaimUpTo, Trim, MergeOf, Elements, Disagree;
    var kept, cart := KeptBy(s, env, g, c), s.carts[c];
    CartIDs(s, g, c, customer);
    LinesDistinct(s, g, c, customer);
    Unmarked(s, g, c, customer);
    MergePlanIs(s, env, g, c, customer);
    if AnyConflict(cart.items, kept) { NothingWritten(s, env, g, c, customer, n); }
    assert !AnyConflict(cart.items, kept);
    var _, _ := MergeCut(s, env, g, c, customer, n);
    var m := Merged(env, s.carts[g], cart, kept);
    assert ClaimUpTo(s, env, g, customer, n).carts[c] == m;
    MergedIsMergeOf(env, s.carts[g], cart, kept);
    ParentKept(cart, s.carts[g], kept, m, i);
  }

  lemma Unmarked(s: Store, g: string, c: string, customer: string)
    requires g in s.carts && c in s.carts && Merging(s, g, c, customer)
    ensures s.carts[c].mergedGuest != g
  {
  }

  lemma NothingWritten(s: Store, env: Env, g: string, c: string, customer: string, n: nat)
    requires g in s.carts && c in s.carts && Merging(s, g, c, customer) && AnyConflict(s.carts[c].items, KeptBy(s, env, g, c))
    ensures ClaimUpTo(s, env, g, customer, n) == s
  {
    hide ClaimPlan, AnyConflict, Kept, Merging;
    ConflictRefused(s, env, g, c, customer);
  }

  lemma ParentKept(c: Cart, guest: Cart, kept: seq<Item>, m: Cart, i: nat)
    requires MergeOf(c, guest, kept, m) && DistinctLines(c.items) && !AnyConflict(c.items, kept) && i < |kept| && !Empty(kept[i].assignment)
    ensures exists j :: 0 <= j < |m.items| && m.items[j].variant == kept[i].variant && SameParent(m.items[j].assignment, kept[i].assignment)
  {
    hide Trim, Qty;
    var v := kept[i].variant;
    LineOfIs(kept, i);
    assert Empty(NONE) by { TrimIsTrimmed(""); }
    assert !Conflict(AssignmentOf(c.items, v), kept[i].assignment);
    assert AssignmentOf(kept, v) == kept[i].assignment;
    var j := LineOf(m.items, v);
    assert SameParent(AssignmentOf(m.items, v), kept[i].assignment);
    assert !Empty(AssignmentOf(m.items, v));
  }

  /** What an uninterrupted merge leaves: the guest cart is gone, no other cart but the customer's
      changed, that one holds the kept lines at the prices of the pipeline and a coupon of its own or an
      eligible one of the guest's, and the rows of the guest's lines have moved to it if kept. */
  lemma MergeOutcome(s: Store, env: Env, g: string, c: string, customer: string)
    requires g in s.carts && c in s.carts && Merging(s, g, c, customer) && Lists(env)
    requires ClaimPlan(s, env, g, customer).answer != Refused
    ensures var t, kept, cart, guest := Claim(s, env, g, customer), KeptBy(s, env, g, c), s.carts[c], s.carts[g];
            && t.carts.Keys == s.carts.Keys - {g} && c in t.carts && (forall id :: id in t.carts && id != c ==> t.carts[id] == s.carts[id])
            && MergeOf(cart, guest, kept, t.carts[c])
            && t.carts[c].coupon == (if cart.coupon != "" then cart.coupon
                                     else if guest.coupon != "" && env.couponEligible(guest.coupon) then guest.coupon else "")
            && Priced(env, t.carts[c])
            && (forall k: ExtKey :: k.cart == g && k.variant in Variants(guest.items) ==> k !in t.ext)
            && (forall k: ExtKey :: k.cart == c && k.variant in Variants(kept) && ExtKey(g, k.variant, k.field) in s.ext ==>
                  SameRow(s.ext, t.ext, ExtKey(g, k.variant, k.field), k))
            && (forall k: ExtKey :: !(k.cart == g && k.variant in Variants(guest.items))
                                    && !(k.cart == c && k.variant in Variants(kept) && ExtKey(g, k.variant, k.field) in s.ext) ==>
                  SameRow(s.ext, t.ext, k, k))
  {
    hide Merging, ClaimPlan, AnyConflict, Kept, Merged, CopyAll, GuestKeys, Claim, MergeOf, Elements, Lists, Priced, Variants;
    var t, kept, cart, guest := Claim(s, env, g, customer), KeptBy(s, env, g, c), s.carts[c], s.carts[g];
    CartIDs(s, g, c, customer);
    LinesDistinct(s, g, c, customer);
    if AnyConflict(cart.items, kept) { ConflictRefused(s, env, g, c, customer); }
    MergeEnds(s, env, g, c, customer);
    MergedIsMergeOf(env, guest, cart, kept);
    MergedPriced(env, guest, cart, kept);
    forall k: ExtKey
      ensures k.cart == g && k.variant in Variants(guest.items) ==> k !in t.ext
      ensures k.cart == c && k.variant in Variants(kept) && ExtKey(g, k.variant, k.field) in s.ext ==>
                SameRow(s.ext, t.ext, ExtKey(g, k.variant, k.field), k)
      ensures !(k.cart == g && k.variant in Variants(guest.items)) ==>
                (k.cart == c && k.variant in Variants(kept) && ExtKey(g, k.variant, k.field) in s.ext) || SameRow(s.ext, t.ext, k, k)
    {
      CopyAt(s.ext, g, c, Elements(Variants(kept)), k);
      ElementsIn(Variants(kept), k.variant);
      ElementsIn(Variants(guest.items), k.variant);
      GuestKeysAre(env, s.ext, guest, k);
    }
  }

  lemma ElementsIn<T>(s: seq<T>, x: T)
    ensures x in Elements(s) <==> x in s
  {
  }

  lemma GuestKeysAre(env: Env, e: Extensions, guest: Cart, k: ExtKey)
    requires Lists(env)
    ensures k in Elements(GuestKeys(env, e, guest)) <==> k in e && k.cart == guest.id && k.variant in Elements(Variants(guest.items))
  {
    hide Lists, TargetKeys, Elements;
    TargetKeysAre(env, guest.id, RowsOf(e, guest.id), Variants(guest.items));
  }

  /** The prices are those of the pipeline on this cart as it stood before it was priced. */
  ghost predicate Priced(env: Env, c: Cart) {
    exists before: Cart :: c == before.(items := c.items) && |before.items| == |c.items|
      && forall i :: 0 <= i < |c.items| ==> c.items[i] == before.items[i].(price := env.price(before, c.items[i].variant))
  }

  lemma RepricedIsPriced(env: Env, c: Cart)
    ensures Priced(env, Reprice(env, c))
  {
    var r := Reprice(env, c);
    assert r == c.(items := r.items) && |c.items| == |r.items|;
  }

  lemma MergedPriced(env: Env, guest: Cart, c: Cart, kept: seq<Item>)
    ensures Priced(env, Merged(env, guest, c, kept))
    ensures Merged(env, guest, c, kept).coupon ==
            if c.coupon != "" then c.coupon else if guest.coupon != "" && env.couponEligible(guest.coupon) then guest.coupon else ""
  {
    hide Priced, AddLines;
    var coupon := if c.coupon == "" && guest.coupon != "" && env.couponEligible(guest.coupon) then guest.coupon else c.coupon;
    RepricedIsPriced(env, c.(items := AddLines(c.items, kept), coupon := coupon, mergedGuest := guest.id));
  }

  /** A customer without an active cart takes the guest cart over, less the lines that cannot be bought
      and their rows; it is refused exactly when it is no longer active and some line cannot be bought. */
  lemma AssignOutcome(s: Store, env: Env, g: string, customer: string)
    requires Assigning(s, g, customer) && Lists(env)
    ensures var guest, p := s.carts[g], ClaimPlan(s, env, g, customer);
            && (p.answer == Refused <==> !guest.active && exists i :: 0 <= i < |guest.items| && !Buyable(env, customer, guest, guest.items[i]))
            && (p.answer == Refused ==> Claim(s, env, g, customer) == s)
            && (p.answer != Refused ==> p.answer == Claimed(g) && Takes(s, Claim(s, env, g, customer), env, g, customer))
  {
    hide Kept, Assigned, OrphanKeys, Elements, DistinctLines, Takes, Buyable;
    var guest := s.carts[g];
    GuestID(s, g);
    LinesOf(s, g);
    AllKeptIff(env, customer, guest.currency, guest);
    var p := AssignPlan(env, s.ext, guest, customer);
    assert ClaimPlan(s, env, g, customer) == p;
    if p.answer != Refused { AssignTakes(s, env, g, customer); }
  }

  predicate Buyable(env: Env, customer: string, guest: Cart, line: Item) {
    line.qty >= 1 && env.purchasable(customer, line, guest.currency, line.qty)
  }

  /** The cart is the customer's, with the lines that can be bought and their assignments, priced;
      rows of other lines are gone and nothing else changed. */
  ghost predicate Takes(s: Store, t: Store, env: Env, g: string, customer: string)
    requires g in s.carts
  {
    && g in t.carts && t.carts == s.carts[g := t.carts[g]]
    && var guest, a := s.carts[g], t.carts[g];
    && a == guest.(customer := customer, items := a.items) && DistinctLines(a.items) && Priced(env, a)
    && (forall v :: v in Variants(a.items) <==> exists i :: 0 <= i < |guest.items| && guest.items[i].variant == v && Buyable(env, customer, guest, guest.items[i]))
    && (forall v :: v in Variants(a.items) ==> Qty(a.items, v) == Qty(guest.items, v) && AssignmentOf(a.items, v) == AssignmentOf(guest.items, v))
    && (forall k: ExtKey :: k.cart == g && k.variant !in Variants(a.items) ==> k !in t.ext)
    && (forall k: ExtKey :: !(k.cart == g && k.variant !in Variants(a.items)) ==> SameRow(s.ext, t.ext, k, k))
  }

  lemma LinesOf(s: Store, g: string)
    requires Valid(s) && g in s.carts
    ensures DistinctLines(s.carts[g].items)
  {
  }

  lemma {:induction false} AllKeptIff(env: Env, customer: string, currency: string, guest: Cart)
    requires currency == guest.currency
    ensures |Kept(env, customer, currency, None, guest.items)| < |guest.items|
            <==> exists i :: 0 <= i < |guest.items| && !Buyable(env, customer, guest, guest.items[i])
    decreases |guest.items|
  {
    if guest.items != [] {
      var n := |guest.items| - 1;
      var front := guest.(items := guest.items[..n]);
      AllKeptIff(env, customer, currency, front);
      KeptLength(env, customer, currency, None, guest.items[..n]);
      assert forall i :: 0 <= i < n ==> front.items[i] == guest.items[i];
      if i :| 0 <= i < n && !Buyable(env, customer, front, front.items[i]) { assert !Buyable(env, customer, guest, guest.items[i]); }
      if i :| 0 <= i < |guest.items| && !Buyable(env, customer, guest, guest.items[i]) {
        assert i < n ==> !Buyable(env, customer, front, front.items[i]);
      }
    }
  }

  lemma {:induction false} KeptLength(env: Env, customer: string, currency: string, into: Option<Cart>, items: seq<Item>)
    ensures |Kept(env, customer, currency, into, items)| <= |items|
  {
    if items != [] { KeptLength(env, customer, currency, into, items[..|items| - 1]); }
  }

  lemma AssignTakes(s: Store, env: Env, g: string, customer: string)
    requires Assigning(s, g, customer) && Lists(env) && AssignPlan(env, s.ext, s.carts[g], customer).answer != Refused
    ensures Takes(s, Claim(s, env, g, customer), env, g, customer)
  {
    hide Kept, Assigned, OrphanKeys, Elements, DistinctLines, Priced, Lists, Variants, Buyable, Qty, AssignmentOf, Assigning, ClaimPlan;
    AssigningHas(s, env, g, customer);
    var guest, a := s.carts[g], Assigned(env, s.carts[g], customer);
    var save, rest := [SaveCart(a)], OrphanDeletes(env, s.ext, a);
    AssignedValid(env, guest, customer);
    AssignedLines(env, guest, customer);
    SaveOne(s, a);
    DoConcat(s, save, rest);
    DoDeletes(DoAll(s, save), OrphanKeys(env, s.ext, a));
    OrphanKeysAre(env, s.ext, a);
    forall k: ExtKey { ElementsIn(Variants(a.items), k.variant); }
  }

  lemma AssigningHas(s: Store, env: Env, g: string, customer: string)
    requires Assigning(s, g, customer)
    ensures g in s.carts && s.carts[g].id == g && DistinctLines(s.carts[g].items)
    ensures ClaimPlan(s, env, g, customer) == AssignPlan(env, s.ext, s.carts[g], customer)
  {
  }

  lemma AssignedLines(env: Env, guest: Cart, customer: string)
    requires DistinctLines(guest.items)
    ensures var a := Assigned(env, guest, customer);
            && a == guest.(customer := customer, items := a.items) && Priced(env, a)
            && (forall v :: v in Variants(a.items) <==> exists i :: 0 <= i < |guest.items| && guest.items[i].variant == v && Buyable(env, customer, guest, guest.items[i]))
            && (forall v :: v in Variants(a.items) ==> Qty(a.items, v) == Qty(guest.items, v) && AssignmentOf(a.items, v) == AssignmentOf(guest.items, v))
  {
    hide Kept, Reprice, Priced;
    var kept := Kept(env, customer, guest.currency, None, guest.items);
    var before := guest.(items := kept, customer := customer);
    var a := Reprice(env, before);
    RepricedIsPriced(env, before);
    RepriceKeepsLines(env, before, "");
    forall v
      ensures v in Variants(a.items) <==> exists i :: 0 <= i < |guest.items| && guest.items[i].variant == v && Buyable(env, customer, guest, guest.items[i])
      ensures v in Variants(a.items) ==> Qty(a.items, v) == Qty(guest.items, v) && AssignmentOf(a.items, v) == AssignmentOf(guest.items, v)
    {
      RepriceKeepsLines(env, before, v);
      KeptVariant(env, customer, guest, v);
      KeptShape(env, customer, guest.currency, None, guest.items, v);
      if v in Variants(kept) { VariantHasLine(kept, v); }
    }
  }

  lemma VariantHasLine(items: seq<Item>, v: string)
    requires v in Variants(items)
    ensures LineOf(items, v) < |items|
  {
    var i :| 0 <= i < |items| && Variants(items)[i] == v;
    assert items[i].variant == v;
  }

  lemma KeptVariant(env: Env, customer: string, guest: Cart, v: string)
    ensures v in Variants(Kept(env, customer, guest.currency, None, guest.items))
            <==> exists i :: 0 <= i < |guest.items| && guest.items[i].variant == v && Buyable(env, customer, guest, guest.items[i])
  {
    hide Kept;
    var kept := Kept(env, customer, guest.currency, None, guest.items);
    if v in Variants(kept) {
      var j :| 0 <= j < |kept| && Variants(kept)[j] == v;
      KeptIff(env, customer, guest.currency, None, guest.items, kept[j]);
      var i :| 0 <= i < |guest.items| && guest.items[i] == kept[j];
    }
    if i :| 0 <= i < |guest.items| && guest.items[i].variant == v && Buyable(env, customer, guest, guest.items[i]) {
      KeptIff(env, customer, guest.currency, None, guest.items, guest.items[i]);
      var j :| 0 <= j < |kept| && kept[j] == guest.items[i];
      assert Variants(kept)[j] == v;
    }
  }

  /** Claiming a cart that is already the customer's purges the rows of lines it no longer has; a cart of
      somebody else, or none at all, is left alone, and nobody claims without signing in. */
  lemma OwnedOutcome(s: Store, env: Env, g: string, customer: string)
    requires Valid(s) && Lists(env)
    requires g == "" || customer == "" || g !in s.carts || s.carts[g].customer != ""
    ensures var t, answer := Claim(s, env, g, customer), ClaimPlan(s, env, g, customer).answer;
            if g == "" then answer == Nothing && t == s
            else if customer == "" then answer == Refused && t == s
            else if g !in s.carts || s.carts[g].customer != customer then answer == Nothing && t == s
            else
              && answer == Claimed(g) && t.carts == s.carts
              && forall k: ExtKey :: if k.cart == g && k.variant !in Variants(s.carts[g].items) then k !in t.ext else SameRow(s.ext, t.ext, k, k)
  {
    if g != "" && customer != "" && g in s.carts && s.carts[g].customer == customer {
      hide OrphanKeys, Elements, Lists, Claim, Variants;
      var guest := s.carts[g];
      var _ := OrphanCut(s, env, g, customer, 0);
      OrphanKeysAre(env, s.ext, guest);
      forall k: ExtKey { ElementsIn(Variants(guest.items), k.variant); }
    }
  }

  /** Across currencies: two filled carts are refused, an empty guest cart is deleted, and an empty cart
      of the customer's gives way to the guest cart. */
  lemma MismatchOutcome(s: Store, env: Env, g: string, c: string, customer: string)
    requires Valid(s) && Lists(env) && g != "" && customer != "" && g in s.carts && c in s.carts && s.carts[g].customer == ""
    requires ActiveFor(s.carts[c], customer) && s.carts[c].mergedGuest != g && s.carts[c].currency != s.carts[g].currency
    ensures var t, answer := Claim(s, env, g, customer), ClaimPlan(s, env, g, customer).answer;
            if s.carts[c].items != [] && s.carts[g].items != [] then answer == Refused && t == s
            else if s.carts[c].items != [] then answer == Claimed(c) && t == s.(carts := s.carts - {g})
            else var rest := s.(carts := s.carts - {c});
              Assigning(rest, g, customer) && t == Claim(rest, env, g, customer) && answer == ClaimPlan(rest, env, g, customer).answer
  {
    if s.carts[c].items == [] {
      hide AssignPlan, Do, Lists, DistinctLines;
      ActiveIs(s, customer, c);
      var rest := s.(carts := s.carts - {c});
      var writes := AssignPlan(env, s.ext, s.carts[g], customer).writes;
      DeleteLast(s, c);
      DoConcat(s, [DeleteCart(c)], writes);
    } else {
      hide Do, Lists, DistinctLines;
      ActiveIs(s, customer, c);
      DeleteLast(s, g);
    }
  }

  // ---- The marker remembers one guest cart only ----

  /** The customer's cart outlives a claim of an unowned guest cart unless it is empty, unmarked
      and in another currency. If it does, its quantities stay as they were exactly when the marker
      names this guest cart, the merge is refused, the currencies differ, or no line can be kept. */
  lemma MarkerDecides(s: Store, env: Env, g: string, c: string, customer: string)
    requires Valid(s) && g != "" && customer != "" && g in s.carts && c in s.carts
    requires s.carts[g].customer == "" && ActiveFor(s.carts[c], customer)
    ensures c in Claim(s, env, g, customer).carts <==>
            s.carts[c].mergedGuest == g || s.carts[c].currency == s.carts[g].currency || s.carts[c].items != []
    ensures c in Claim(s, env, g, customer).carts ==>
            ((forall v :: Qty(Claim(s, env, g, customer).carts[c].items, v) == Qty(s.carts[c].items, v))
             <==> s.carts[c].mergedGuest == g || s.carts[c].currency != s.carts[g].currency
                  || AnyConflict(s.carts[c].items, KeptBy(s, env, g, c)) || KeptBy(s, env, g, c) == [])
  {
    hide Kept, AnyConflict, Merged, CopyAll, Elements, Claim, ClaimPlan, DistinctLines, Qty, MergeOf, TargetKeys;
    assert g != c;
    if s.carts[c].mergedGuest == g {
      MarkedClaim(s, env, g, c, customer);
    } else if s.carts[c].currency != s.carts[g].currency {
      MismatchKeeps(s, env, g, c, customer);
    } else if AnyConflict(s.carts[c].items, KeptBy(s, env, g, c)) {
      ConflictRefused(s, env, g, c, customer);
    } else {
      MergeEnds(s, env, g, c, customer);
      MergeAdds(s, env, g, c, customer);
    }
  }

  lemma ConflictRefused(s: Store, env: Env, g: string, c: string, customer: string)
    requires g in s.carts && c in s.carts && Merging(s, g, c, customer) && AnyConflict(s.carts[c].items, KeptBy(s, env, g, c))
    ensures ClaimPlan(s, env, g, customer) == Plan([], Refused) && Claim(s, env, g, customer) == s
  {
    hide Kept, AnyConflict, Merged, TargetKeys;
    MergePlanIs(s, env, g, c, customer);
  }

  lemma MismatchKeeps(s: Store, env: Env, g: string, c: string, customer: string)
    requires Valid(s) && g != "" && customer != "" && g in s.carts && c in s.carts && g != c
    requires s.carts[g].customer == "" && ActiveFor(s.carts[c], customer)
    requires s.carts[c].mergedGuest != g && s.carts[c].currency != s.carts[g].currency
    ensures c in Claim(s, env, g, customer).carts <==> s.carts[c].items != []
    ensures s.carts[c].items != [] ==> Claim(s, env, g, customer).carts[c] == s.carts[c]
  {
    hide DistinctLines, Do, OrphanDeletes, Assigned;
    ActiveIs(s, customer, c);
    var guest := s.carts[g];
    if s.carts[c].items == [] {
      var t := s.(carts := s.carts - {c});
      var rest := AssignPlan(env, s.ext, guest, customer).writes;
      DeleteLast(s, c);
      DoConcat(s, [DeleteCart(c)], rest);
      AssignedID(env, guest, customer);
      AssignWritesOne(t, env, s.ext, guest, customer);
    } else {
      DeleteLast(s, g);
    }
  }

  lemma AssignedID(env: Env, guest: Cart, customer: string)
    ensures Assigned(env, guest, customer).id == guest.id
  {
  }

  lemma AssignWritesOne(s: Store, env: Env, e: Extensions, guest: Cart, customer: string)
    ensures forall id :: id in DoAll(s, AssignPlan(env, e, guest, customer).writes).carts ==> id in s.carts || id == guest.id
  {
    hide Kept, Assigned, OrphanKeys, Elements, Do;
    AssignedID(env, guest, customer);
    var claimed := Assigned(env, guest, customer);
    SaveOne(s, claimed);
    DoConcat(s, [SaveCart(claimed)], OrphanDeletes(env, e, claimed));
    DoDeletes(DoAll(s, [SaveCart(claimed)]), OrphanKeys(env, e, claimed));
  }

  lemma MergeAdds(s: Store, env: Env, g: string, c: string, customer: string)
    requires g in s.carts && c in s.carts && Merging(s, g, c, customer)
    ensures c in Cleaned(s, env, g, c).carts
    ensures forall v :: Qty(Cleaned(s, env, g, c).carts[c].items, v) == Qty(s.carts[c].items, v) + Qty(KeptBy(s, env, g, c), v)
    ensures (forall v :: Qty(KeptBy(s, env, g, c), v) == 0) <==> KeptBy(s, env, g, c) == []
  {
    hide Kept, Merged, CopyAll, Elements, Qty;
    CartIDs(s, g, c, customer);
    LinesDistinct(s, g, c, customer);
    var kept := KeptBy(s, env, g, c);
    MergedIsMergeOf(env, s.carts[g], s.carts[c], kept);
    KeptPositive(env, s.carts[c].customer, s.carts[g].currency, Some(s.carts[c]), s.carts[g].items);
    if kept == [] {
      NoLines();
    } else {
      FirstLine(kept);
    }
  }

  lemma {:induction false} KeptPositive(env: Env, customer: string, currency: string, into: Option<Cart>, items: seq<Item>)
    ensures forall i :: 0 <= i < |Kept(env, customer, currency, into, items)| ==> Kept(env, customer, currency, into, items)[i].qty > 0
  {
    if items != [] { KeptPositive(env, customer, currency, into, items[..|items| - 1]); }
  }

  lemma NoLines()
    ensures forall v :: Qty([], v) == 0
  {
  }

  lemma FirstLine(items: seq<Item>)
    requires items != []
    ensures Qty(items, items[0].variant) == items[0].qty
  {
  }

  /** So a guest cart can be merged twice: its merge is saved but not cleaned up, another guest
      cart is claimed, and the first is claimed again. Its kept lines are then counted twice. */
  lemma SecondGuestForgetsFirst(s: Store, env: Env, g: string, h: string, c: string, customer: string)
    requires g in s.carts && c in s.carts && h in s.carts && g != h && Merging(s, g, c, customer) && Merging(s, h, c, customer)
    requires !AnyConflict(s.carts[c].items, KeptBy(s, env, g, c))
    requires var s1 := Cleaning(s, env, g, c, {});
             !AnyConflict(s1.carts[c].items, KeptBy(s1, env, h, c))
    requires var s2 := Cleaned(Cleaning(s, env, g, c, {}), env, h, c);
             g in s2.carts && c in s2.carts && !AnyConflict(s2.carts[c].items, KeptBy(s2, env, g, c))
    ensures var s1 := ClaimUpTo(s, env, g, customer, |KeptBy(s, env, g, c)| + 1);
            var s2 := Claim(s1, env, h, customer);
            var s3 := Claim(s2, env, g, customer);
            && g in s1.carts && h in s1.carts && c in s1.carts && g in s2.carts && c in s2.carts && c in s3.carts
            && forall v :: Qty(s3.carts[c].items, v) == Qty(s.carts[c].items, v) + Qty(KeptBy(s, env, g, c), v)
                           + Qty(KeptBy(s1, env, h, c), v) + Qty(KeptBy(s2, env, g, c), v)
  {
    hide Kept, AnyConflict, Merged, CopyAll, Elements, Claim, ClaimUpTo, DistinctLines, Qty;
    var s1 := CutAfterSave(s, env, g, c, customer);
    CleaningValid(s, env, g, c, customer, {});
    LinesDistinct(s, g, c, customer);
    MergedIsMergeOf(env, s.carts[g], s.carts[c], KeptBy(s, env, g, c));
    SecondClaim(s, env, g, h, c, customer);
    MergeAdds(s1, env, h, c, customer);
    LinesDistinct(s1, h, c, customer);
    MergedIsMergeOf(env, s1.carts[h], s1.carts[c], KeptBy(s1, env, h, c));
    var s2 := Cleaned(s1, env, h, c);
    CleaningValid(s1, env, h, c, customer, Elements(GuestKeys(env, s1.ext, s1.carts[h])));
    assert Merging(s2, g, c, customer);
    MergeEnds(s2, env, g, c, customer);
    MergeAdds(s2, env, g, c, customer);
  }

  lemma CutAfterSave(s: Store, env: Env, g: string, c: string, customer: string) returns (s1: Store)
    requires g in s.carts && c in s.carts && Merging(s, g, c, customer) && !AnyConflict(s.carts[c].items, KeptBy(s, env, g, c))
    ensures s1 == ClaimUpTo(s, env, g, customer, |KeptBy(s, env, g, c)| + 1) == Cleaning(s, env, g, c, {})
  {
    hide Kept, AnyConflict, Cleaning, Merging, ClaimPlan;
    var head := SavedAndDeleting(s, env, g, c, customer, 0);
    assert Elements(GuestKeys(env, s.ext, s.carts[g])[..0]) == {};
    s1 := DoAll(s, head);
  }

  /** For instance, one line of one piece, claimed into an empty cart, ends up as two pieces. */
  lemma TwoPiecesFromOne(s: Store, env: Env, g: string, h: string, c: string, customer: string, line: Item)
    requires g in s.carts && c in s.carts && h in s.carts && g != h && Merging(s, g, c, customer) && Merging(s, h, c, customer)
    requires s.carts[g].items == [line] && s.carts[h].items == [] && s.carts[c].items == []
    requires line.qty == 1 && Empty(line.assignment)
    requires forall n: int :: env.purchasable(customer, line, s.carts[g].currency, n)
    ensures var t := Claim(Claim(ClaimUpTo(s, env, g, customer, 2), env, h, customer), env, g, customer);
            c in t.carts && Qty(t.carts[c].items, line.variant) == 2
  {
    hide Trim, Claim, ClaimUpTo, Merged, CopyAll, Merging, Kept;
    CartIDs(s, g, c, customer);
    CartIDs(s, h, c, customer);
    var v := line.variant;
    NoLines();
    FirstLine([line]);
    OneKept(env, customer, s.carts[g].currency, s.carts[c], line);
    CustomerOf(s, g, c, customer);
    LinesDistinct(s, g, c, customer);
    MergedIsMergeOf(env, s.carts[g], s.carts[c], [line]);
    var s1 := Cleaning(s, env, g, c, {});
    assert KeptBy(s1, env, h, c) == [] by { NoneKept(env, s1.carts[c].customer, s1.carts[h].currency, Some(s1.carts[c])); }
    MergedIsMergeOf(env, s1.carts[h], s1.carts[c], []);
    var s2 := Cleaned(s1, env, h, c);
    OneKept(env, customer, s.carts[g].currency, s2.carts[c], line);
    SecondGuestForgetsFirst(s, env, g, h, c, customer);
    assert s1 == ClaimUpTo(s, env, g, customer, 2) by { var _ := CutAfterSave(s, env, g, c, customer); }
    assert s2 == Claim(s1, env, h, customer) by { SecondClaim(s, env, g, h, c, customer); }
  }

  lemma CustomerOf(s: Store, g: string, c: string, customer: string)
    requires g in s.carts && c in s.carts && Merging(s, g, c, customer)
    ensures s.carts[c].customer == customer
  {
  }

  /** After the first claim is cut behind its save, the other guest cart is merged as usual. */
  lemma SecondClaim(s: Store, env: Env, g: string, h: string, c: string, customer: string)
    requires g in s.carts && c in s.carts && h in s.carts && g != h && Merging(s, g, c, customer) && Merging(s, h, c, customer)
    requires var s1 := Cleaning(s, env, g, c, {}); !AnyConflict(s1.carts[c].items, KeptBy(s1, env, h, c))
    ensures Claim(Cleaning(s, env, g, c, {}), env, h, customer) == Cleaned(Cleaning(s, env, g, c, {}), env, h, c)
  {
    hide Kept, AnyConflict, Merged, CopyAll, Elements, Claim, DistinctLines;
    CleaningValid(s, env, g, c, customer, {});
    LinesDistinct(s, g, c, customer);
    MergedIsMergeOf(env, s.carts[g], s.carts[c], KeptBy(s, env, g, c));
    MergeEnds(Cleaning(s, env, g, c, {}), env, h, c, customer);
  }

  lemma NoneKept(env: Env, customer: string, currency: string, into: Option<Cart>)
    ensures Kept(env, customer, currency, into, []) == []
  {
  }

  lemma OneKept(env: Env, customer: string, currency: string, c: Cart, line: Item)
    requires forall n: int :: env.purchasable(customer, line, currency, n)
    requires line.qty > 0 && Qty(c.items, line.variant) + line.qty <= MAX_INT
    ensures Kept(env, customer, currency, Some(c), [line]) == [line]
  {
    assert [line][..0] == [];
  }

  // ---- The service ----

  datatype Outcome = Done(answer: Answer) | Failed

  /** The claim over a store whose persistence calls fail once the budget of successful writes is
      used up. A failed lookup, coupon read or price run between two writes stops the claim where
      an exhausted budget does. */
  class CartService {
    var store: Store
    var budget: nat

    constructor (s: Store, n: nat)
      ensures store == s && budget == n
    {
      store, budget := s, n;
    }

    /** The first n writes of the plan have been made since the claim began. */
    ghost predicate At(s0: Store, b0: nat, plan: seq<Write>, n: nat)
      reads this
    {
      n <= |plan| && n <= b0 && budget == b0 - n && store == DoAll(s0, plan[..n])
    }

    method Persist(w: Write, ghost s0: Store, ghost b0: nat, ghost plan: seq<Write>, ghost n: nat) returns (ok: bool)
      requires At(s0, b0, plan, n) && n < |plan| && plan[n] == w
      modifies this
      ensures if ok then At(s0, b0, plan, n + 1) else n == b0 && At(s0, b0, plan, n)
    {
      if budget == 0 { return false; }
      assert plan[..n + 1][..n] == plan[..n];
      store, budget := Do(store, w), budget - 1;
      return true;
    }

    method FindActiveCart(customer: string) returns (c: Option<Cart>)
      requires Valid(store) && customer != ""
      ensures c == FindActive(store, customer)
    {
      if exists id :: id in store.carts && ActiveFor(store.carts[id], customer) {
        var id :| id in store.carts && ActiveFor(store.carts[id], customer);
        ActiveIs(store, customer, id);
        return Some(store.carts[id]);
      }
      return None;
    }

    /** unclaimableGuestLines */
    method UnclaimableLines(env: Env, customer: string, guest: Cart, into: Option<Cart>) returns (dropped: set<string>)
      ensures forall i :: 0 <= i < |guest.items| && DistinctLines(guest.items) ==>
                (guest.items[i].variant in dropped <==> !Claimable(env, customer, guest.currency, into, guest.items[i]))
    {
      dropped := {};
      for i := 0 to |guest.items|
        invariant DistinctLines(guest.items) ==> forall j :: 0 <= j < i ==>
                    (guest.items[j].variant in dropped <==> !Claimable(env, customer, guest.currency, into, guest.items[j]))
        invariant forall v :: v in dropped ==> exists j :: 0 <= j < i && guest.items[j].variant == v
      {
        if !Claimable(env, customer, guest.currency, into, guest.items[i]) {
          dropped := dropped + {guest.items[i].variant};
        }
      }
    }

    /** DeleteAllForTarget: lists the stored values of one line, then deletes them one by one. */
    method DeleteAllForTarget(env: Env, owner: string, v: string, ghost s0: Store, ghost b0: nat, ghost plan: seq<Write>, ghost n: nat)
      returns (ok: bool)
      requires At(s0, b0, plan, n) && Planned(plan, n, FieldKeys(env, owner, RowsOf(store.ext, owner), v))
      modifies this
      ensures var keys := FieldKeys(env, owner, RowsOf(old(store.ext), owner), v);
              if ok then At(s0, b0, plan, n + |keys|) && store == old(store).(ext := old(store.ext) - Elements(keys))
              else b0 < |plan| && At(s0, b0, plan, b0)
    {
      var fields := env.listed(FieldsOf(RowsOf(store.ext, owner), v));
      ghost var t, keys := store, FieldKeys(env, owner, RowsOf(store.ext, owner), v);
      hide Elements, Do, DoAll, Planned, FieldKeys, FieldsOf, RowsOf;
      FieldsListed(env, owner, RowsOf(store.ext, owner), v);
      RemoveTwice(store.ext, {}, {});
      for i := 0 to |fields|
        invariant At(s0, b0, plan, n + i)
        invariant store == t.(ext := t.ext - Elements(keys[..i]))
      {
        DeleteKeyStep(s0, plan, n, t, keys, i);
        ok := Persist(DeleteExt(ExtKey(owner, v, fields[i])), s0, b0, plan, n + i);
        if !ok { return; }
      }
      return true;
    }

    /** One target after another; each is listed when its turn comes. */
    method DeleteTargets(env: Env, owner: string, variants: seq<string>, ghost s0: Store, ghost b0: nat, ghost plan: seq<Write>, ghost n: nat)
      returns (ok: bool)
      requires At(s0, b0, plan, n) && Planned(plan, n, TargetKeys(env, owner, RowsOf(store.ext, owner), variants))
      modifies this
      ensures var keys := TargetKeys(env, owner, RowsOf(old(store.ext), owner), variants);
              if ok then At(s0, b0, plan, n + |keys|) else b0 < |plan| && At(s0, b0, plan, b0)
    {
      ghost var rows := RowsOf(store.ext, owner);
      ghost var m, left := n, rows;
      NoTargets(env, owner, rows, variants);
      hide *;
      for i := 0 to |variants|
        invariant m == n + |TargetKeys(env, owner, rows, variants[..i])|
        invariant At(s0, b0, plan, m)
        invariant RowsOf(store.ext, owner) == left == rows - Elements(TargetKeys(env, owner, rows, variants[..i]))
      {
        NextTarget(env, owner, rows, variants, i, plan, n);
        ghost var more := FieldKeys(env, owner, left, variants[i]);
        ghost var e := store.ext;
        ok := DeleteAllForTarget(env, owner, variants[i], s0, b0, plan, m);
        if !ok { return; }
        RowsRemoved(e, owner, Elements(more));
        m, left := m + |more|, left - Elements(more);
      }
      assert variants[..|variants|] == variants;
      return true;
    }

    method FinishMergedCleanup(env: Env, guestID: string, ghost s0: Store, ghost b0: nat, ghost plan: seq<Write>, ghost n: nat)
      returns (ok: bool)
      requires guestID in store.carts && store.carts[guestID].id == guestID && At(s0, b0, plan, n) && n <= |plan|
      requires plan[n..] == Cleanup(env, store.ext, store.carts[guestID])
      modifies this
      ensures if ok then At(s0, b0, plan, |plan|) else b0 < |plan| && At(s0, b0, plan, b0)
    {
      hide TargetKeys, RowsOf;
      var guest := store.carts[guestID];
      ghost var keys := GuestKeys(env, store.ext, guest);
      PlannedFirst(plan, n, keys, [DeleteCart(guestID)]);
      ok := DeleteTargets(env, guestID, Variants(guest.items), s0, b0, plan, n);
      if !ok { return; }
      ok := Persist(DeleteCart(guestID), s0, b0, plan, n + |keys|);
    }

    /** finishAssignedGuestCleanup: deletes extensions whose line is not on the cart. */
    method FinishAssignedCleanup(env: Env, cart: Cart, ghost s0: Store, ghost b0: nat, ghost plan: seq<Write>, ghost n: nat)
      returns (ok: bool)
      requires At(s0, b0, plan, n) && plan[n..] == OrphanDeletes(env, store.ext, cart)
      modifies this
      ensures if ok then At(s0, b0, plan, |plan|) else b0 < |plan| && At(s0, b0, plan, b0)
    {
      hide TargetKeys, RowsOf;
      var orphans := env.listed(Orphans(store.ext, cart.id, Elements(Variants(cart.items))));
      PlannedFirst(plan, n, OrphanKeys(env, store.ext, cart), []);
      ok := DeleteTargets(env, cart.id, orphans, s0, b0, plan, n);
    }

    method AssignGuestCart(env: Env, guest: Cart, customer: string, ghost s0: Store, ghost b0: nat, ghost plan: seq<Write>, ghost n: nat)
      returns (r: Outcome)
      requires DistinctLines(guest.items) && At(s0, b0, plan, n)
      requires plan[n..] == AssignPlan(env, store.ext, guest, customer).writes
      modifies this
      ensures if r.Done? then At(s0, b0, plan, |plan|) && r.answer == AssignPlan(env, old(store.ext), guest, customer).answer
              else b0 < |plan| && At(s0, b0, plan, b0)
    {
      hide Reprice, OrphanDeletes, Claimable;
      var dropped := UnclaimableLines(env, customer, guest, None);
      var items: seq<Item> := [];
      for i := 0 to |guest.items|
        invariant items == Kept(env, customer, guest.currency, None, guest.items[..i])
      {
        assert guest.items[..i + 1][..i] == guest.items[..i];
        if guest.items[i].variant in dropped { continue; }
        items := items + [guest.items[i]];
      }
      assert guest.items[..|guest.items|] == guest.items;
      if !guest.active && |items| < |guest.items| { return Done(Refused); }
      var claimed := Reprice(env, guest.(items := items, customer := customer));
      ghost var rest := OrphanDeletes(env, store.ext, claimed);
      assert plan[n] == plan[n..][0] && plan[n + 1..] == plan[n..][1..] == rest;
      var ok := Persist(SaveCart(claimed), s0, b0, plan, n);
      if !ok { return Failed; }
      ExtAfterSave(s0, plan, n, claimed);
      ok := FinishAssignedCleanup(env, claimed, s0, b0, plan, n + 1);
      if !ok { return Failed; }
      return Done(Claimed(guest.id));
    }

    /** Some kept guest line names another parent than the customer's line of that variant. */
    method FindConflict(env: Env, guest: Cart, c: Cart, dropped: set<string>) returns (conflict: bool)
      requires forall i :: 0 <= i < |guest.items| ==>
                 (guest.items[i].variant in dropped <==> !Claimable(env, c.customer, guest.currency, Some(c), guest.items[i]))
      ensures conflict == AnyConflict(c.items, Kept(env, c.customer, guest.currency, Some(c), guest.items))
    {
      hide Claimable, Conflict, AssignmentOf;
      for i := 0 to |guest.items|
        invariant !AnyConflict(c.items, Kept(env, c.customer, guest.currency, Some(c), guest.items[..i]))
      {
        assert guest.items[..i + 1][..i] == guest.items[..i];
        var item := guest.items[i];
        if item.variant in dropped { continue; }
        if Conflict(AssignmentOf(c.items, item.variant), item.assignment) {
          KeptConflict(env, c, guest, i);
          return true;
        }
      }
      assert guest.items[..|guest.items|] == guest.items;
      return false;
    }

    /** The first n writes have been made, and neither the carts nor the rows of this one have changed. */
    ghost predicate Copied(s0: Store, b0: nat, plan: seq<Write>, n: nat, from: string)
      reads this
    {
      At(s0, b0, plan, n) && store.carts == s0.carts && RowsOf(store.ext, from) == RowsOf(s0.ext, from)
    }

    /** copyCartItemExtensions */
    method CopyLine(from: string, into: string, v: string, ghost s0: Store, ghost b0: nat, ghost plan: seq<Write>, ghost n: nat)
      returns (ok: bool)
      requires Copied(s0, b0, plan, n, from) && n < |plan| && plan[n] == CopyExt(from, into, v) && from != into
      modifies this
      ensures if ok then Copied(s0, b0, plan, n + 1, from)
              else b0 < |plan| && At(s0, b0, plan, b0)
    {
      hide Do, DoAll, RowsOf;
      CopyStep(s0, plan, n, from, into, v);
      ok := Persist(CopyExt(from, into, v), s0, b0, plan, n);
    }

    /** Adds every kept line in memory and copies its extensions. */
    method CopyLines(env: Env, guest: Cart, c: Cart, dropped: set<string>, ghost s0: Store, ghost b0: nat, ghost plan: seq<Write>)
      returns (ok: bool, items: seq<Item>)
      requires forall i :: 0 <= i < |guest.items| ==>
                 (guest.items[i].variant in dropped <==> !Claimable(env, c.customer, guest.currency, Some(c), guest.items[i]))
      requires At(s0, b0, plan, 0) && guest.id != c.id
      requires Copies(guest.id, c.id, Variants(KeptLines(env, guest, c))) <= plan
      modifies this
      ensures if ok then Copied(s0, b0, plan, |KeptLines(env, guest, c)|, guest.id) && items == AddLines(c.items, KeptLines(env, guest, c))
              else b0 < |plan| && At(s0, b0, plan, b0)
    {
      assert store == s0 by { assert plan[..0] == []; }
      assert guest.items[..|guest.items|] == guest.items;
      NoneKeptYet(env, guest, c);
      hide Claimable, Kept, AddLine, AddLines, KeptLines, Copies, Variants, Do, DoAll, RowsOf;
      items := c.items;
      ghost var m: nat := 0;
      for i := 0 to |guest.items|
        invariant m == |Kept(env, c.customer, guest.currency, Some(c), guest.items[..i])|
        invariant items == AddLines(c.items, Kept(env, c.customer, guest.currency, Some(c), guest.items[..i]))
        invariant Copied(s0, b0, plan, m, guest.id)
      {
        NextKept(env, guest, c, i, plan);
        var item := guest.items[i];
        if item.variant in dropped { continue; }
        items := AddLine(items, item);
        ok := CopyLine(guest.id, c.id, item.variant, s0, b0, plan, m);
        if !ok { return; }
        m := m + 1;
      }
      ok := true;
    }

    method MergeIntoCustomerCart(env: Env, guest: Cart, c: Cart, ghost s0: Store, ghost b0: nat, ghost plan: seq<Write>)
      returns (r: Outcome)
      requires DistinctLines(guest.items) && guest.id in store.carts && store.carts[guest.id] == guest && guest.id != c.id
      requires At(s0, b0, plan, 0) && plan == MergePlan(env, store.ext, guest, c).writes
      modifies this
      ensures if r.Done? then At(s0, b0, plan, |plan|) && r.answer == MergePlan(env, old(store.ext), guest, c).answer
              else b0 < |plan| && At(s0, b0, plan, b0)
    {
      hide Reprice, Claimable, AnyConflict, Kept, AddLines, Do, DistinctLines, TargetKeys, RowsOf;
      assert plan[..0] == [];
      assert store == s0;
      var dropped := UnclaimableLines(env, c.customer, guest, Some(c));
      var conflict := FindConflict(env, guest, c, dropped);
      if conflict { return Done(Refused); }
      ghost var kept := KeptLines(env, guest, c);
      ghost var m := |kept|;
      var ok, items := CopyLines(env, guest, c, dropped, s0, b0, plan);
      if !ok { return Failed; }
      var coupon := c.coupon;
      if c.coupon == "" && guest.coupon != "" && env.couponEligible(guest.coupon) { coupon := guest.coupon; }
      var merged := Reprice(env, c.(items := items, coupon := coupon, mergedGuest := guest.id));
      MergedID(env, guest, c, kept);
      assert plan[m] == SaveCart(merged) && plan[m + 1..] == Cleanup(env, s0.ext, guest);
      SaveStep(s0, plan, m, merged);
      ok := Persist(SaveCart(merged), s0, b0, plan, m);
      if !ok { return Failed; }
      ok := FinishMergedCleanup(env, guest.id, s0, b0, plan, m + 1);
      if !ok { return Failed; }
      return Done(Claimed(c.id));
    }

    /** The carts differ in currency: an empty one gives way. */
    method ClaimAcrossCurrencies(env: Env, guest: Cart, c: Cart, customer: string, ghost s0: Store, ghost b0: nat, ghost plan: seq<Write>)
      returns (r: Outcome)
      requires DistinctLines(guest.items) && At(s0, b0, plan, 0) && plan == MismatchPlan(env, store.ext, guest, c, customer).writes
      modifies this
      ensures if r.Done? then At(s0, b0, plan, |plan|) && r.answer == MismatchPlan(env, old(store.ext), guest, c, customer).answer
              else b0 < |plan| && At(s0, b0, plan, b0)
    {
      hide AssignPlan, DistinctLines, Do;
      assert plan[..0] == [];
      if |c.items| == 0 {
        DeleteStep(s0, plan, 0, c.id);
        var gone := Persist(DeleteCart(c.id), s0, b0, plan, 0);
        if !gone { return Failed; }
        r := AssignGuestCart(env, guest, customer, s0, b0, plan, 1);
        return;
      }
      if |guest.items| == 0 {
        var removed := Persist(DeleteCart(guest.id), s0, b0, plan, 0);
        return if removed then Done(Claimed(c.id)) else Failed;
      }
      return Done(Refused);
    }

    /** A guest cart that nobody owns yet. */
    method ClaimUnowned(env: Env, guest: Cart, customer: string, ghost s0: Store, ghost b0: nat, ghost plan: seq<Write>)
      returns (r: Outcome)
      requires Valid(store) && guest.id != "" && customer != "" && guest.id in store.carts && store.carts[guest.id] == guest && guest.customer == ""
      requires At(s0, b0, plan, 0) && plan == ClaimPlan(store, env, guest.id, customer).writes
      modifies this
      ensures if r.Done? then At(s0, b0, plan, |plan|) && r.answer == ClaimPlan(old(store), env, guest.id, customer).answer
              else b0 < |plan| && At(s0, b0, plan, b0)
    {
      hide MergePlan, AssignPlan, MismatchPlan, Cleanup, DistinctLines, Do;
      assert plan[0..] == plan;
      var active := FindActiveCart(customer);
      if active.None? {
        r := AssignGuestCart(env, guest, customer, s0, b0, plan, 0);
        return;
      }
      var c := active.value;
      ghost var cid := ActiveFound(store, customer);
      if c.mergedGuest == guest.id {
        var cleaned := FinishMergedCleanup(env, guest.id, s0, b0, plan, 0);
        return if cleaned then Done(Claimed(c.id)) else Failed;
      }
      if c.currency != guest.currency {
        r := ClaimAcrossCurrencies(env, guest, c, customer, s0, b0, plan);
      } else {
        r := MergeIntoCustomerCart(env, guest, c, s0, b0, plan);
      }
    }

    /** The store afterwards is the one the plan reaches with as many writes as the budget
        allows, and the answer is the plan's unless the budget ran out first. */
    method ClaimGuestCart(env: Env, guestID: string, customer: string) returns (r: Outcome)
      requires Valid(store)
      modifies this
      ensures store == ClaimUpTo(old(store), env, guestID, customer, old(budget))
      ensures r == if |ClaimPlan(old(store), env, guestID, customer).writes| <= old(budget)
                   then Done(ClaimPlan(old(store), env, guestID, customer).answer) else Failed
    {
      hide MergePlan, AssignPlan, MismatchPlan, Cleanup, OrphanDeletes, DistinctLines, Do, FindActive;
      ghost var s0, b0 := store, budget;
      ghost var plan := ClaimPlan(store, env, guestID, customer).writes;
      assert plan[..0] == [] && plan[0..] == plan && plan[..|plan|] == plan;
      assert At(s0, b0, plan, 0);
      if guestID == "" { return Done(Nothing); }
      if customer == "" { return Done(Refused); }
      if guestID !in store.carts { return Done(Nothing); }
      var guest := store.carts[guestID];
      if guest.customer == "" {
        r := ClaimUnowned(env, guest, customer, s0, b0, plan);
        return;
      }
      if guest.customer != customer { return Done(Nothing); }
      var done := FinishAssignedCleanup(env, guest, s0, b0, plan, 0);
      return if done then Done(Claimed(guestID)) else Failed;
    }
  }

  /** The writes from position n on begin with the deletes of these rows. */
  ghost predicate Planned(plan: seq<Write>, n: nat, keys: seq<ExtKey>) {
    n + |keys| <= |plan| && forall i :: 0 <= i < |keys| ==> plan[n + i] == DeleteExt(keys[i])
  }

  lemma PlannedPart(plan: seq<Write>, n: nat, done: seq<ExtKey>, more: seq<ExtKey>, keys: seq<ExtKey>)
    requires Planned(plan, n, keys) && done + more <= keys
    ensures Planned(plan, n + |done|, more)
  {
    forall i | 0 <= i < |more| ensures plan[n + |done| + i] == DeleteExt(more[i]) {
      assert keys[|done| + i] == (done + more)[|done| + i] == more[i];
      assert plan[n + (|done| + i)] == DeleteExt(keys[|done| + i]);
    }
  }

  lemma FieldsListed(env: Env, owner: string, rows: set<ExtKey>, v: string)
    ensures var fields, keys := env.listed(FieldsOf(rows, v)), FieldKeys(env, owner, rows, v);
            && |keys| == |fields| && (forall i :: 0 <= i < |keys| ==> keys[i] == ExtKey(owner, v, fields[i]))
            && Elements(keys[..0]) == {} && keys[..|keys|] == keys
  {
  }

  lemma NoTargets(env: Env, owner: string, rows: set<ExtKey>, vs: seq<string>)
    ensures TargetKeys(env, owner, rows, vs[..0]) == [] && Elements(TargetKeys(env, owner, rows, vs[..0])) == {}
  {
  }

  lemma NextTarget(env: Env, owner: string, rows: set<ExtKey>, vs: seq<string>, i: nat, plan: seq<Write>, n: nat)
    requires i < |vs| && Planned(plan, n, TargetKeys(env, owner, rows, vs))
    ensures var done := TargetKeys(env, owner, rows, vs[..i]);
            var more := FieldKeys(env, owner, rows - Elements(done), vs[i]);
            var next := TargetKeys(env, owner, rows, vs[..i + 1]);
            && Planned(plan, n + |done|, more) && |next| == |done| + |more|
            && (rows - Elements(done)) - Elements(more) == rows - Elements(next)
  {
    hide FieldKeys, Elements, Planned;
    var done := TargetKeys(env, owner, rows, vs[..i]);
    var more := FieldKeys(env, owner, rows - Elements(done), vs[i]);
    assert vs[..i + 1][..i] == vs[..i];
    TargetKeysPrefix(env, owner, rows, vs, i + 1, |vs|);
    assert vs[..|vs|] == vs;
    PlannedPart(plan, n, done, more, TargetKeys(env, owner, rows, vs));
    ElementsConcat(done, more);
  }

  lemma PlannedFirst(plan: seq<Write>, n: nat, keys: seq<ExtKey>, rest: seq<Write>)
    requires n <= |plan| && plan[n..] == Deletes(keys) + rest
    ensures Planned(plan, n, keys) && n + |keys| + |rest| == |plan|
    ensures forall i :: 0 <= i < |rest| ==> plan[n + |keys| + i] == rest[i]
  {
    forall i | 0 <= i < |keys| ensures plan[n + i] == DeleteExt(keys[i]) { assert plan[n..][i] == plan[n + i]; }
    forall i | 0 <= i < |rest| ensures plan[n + |keys| + i] == rest[i] {
      assert plan[n..][|keys| + i] == plan[n + |keys| + i];
    }
  }

  lemma RowsRemoved(e: Extensions, owner: string, gone: set<ExtKey>)
    ensures RowsOf(e - gone, owner) == RowsOf(e, owner) - gone
  {
  }

  lemma DeleteKeyStep(s: Store, plan: seq<Write>, n: nat, t: Store, keys: seq<ExtKey>, i: nat)
    requires i < |keys| && Planned(plan, n, keys) && DoAll(s, plan[..n + i]) == t.(ext := t.ext - Elements(keys[..i]))
    ensures n + i < |plan| && plan[n + i] == DeleteExt(keys[i])
    ensures DoAll(s, plan[..n + i + 1]) == t.(ext := t.ext - Elements(keys[..i + 1]))
  {
    hide Elements;
    assert plan[..n + i + 1][..n + i] == plan[..n + i];
    assert keys[..i + 1][..i] == keys[..i];
    ElementsSplit(keys[..i + 1]);
    RemoveTwice(t.ext, Elements(keys[..i]), {keys[i]});
  }

  lemma ExtAfterSave(s: Store, plan: seq<Write>, n: nat, c: Cart)
    requires n < |plan| && plan[n] == SaveCart(c)
    ensures DoAll(s, plan[..n + 1]).ext == DoAll(s, plan[..n]).ext
  {
    assert plan[..n + 1][..n] == plan[..n];
  }

  lemma CopyStep(s: Store, plan: seq<Write>, n: nat, from: string, into: string, v: string)
    requires n < |plan| && plan[n] == CopyExt(from, into, v)
    ensures DoAll(s, plan[..n + 1]).carts == DoAll(s, plan[..n]).carts
    ensures from != into ==> RowsOf(DoAll(s, plan[..n + 1]).ext, from) == RowsOf(DoAll(s, plan[..n]).ext, from)
  {
    hide CopyAll, RowsOf;
    assert plan[..n + 1][..n] == plan[..n];
    if from != into { CopyKeepsRows(DoAll(s, plan[..n]).ext, from, into, {v}); }
  }

  lemma SaveStep(s: Store, plan: seq<Write>, n: nat, c: Cart)
    requires n < |plan| && plan[n] == SaveCart(c)
    ensures DoAll(s, plan[..n + 1]) == DoAll(s, plan[..n]).(carts := DoAll(s, plan[..n]).carts[c.id := c])
  {
    assert plan[..n + 1][..n] == plan[..n];
  }

  lemma DeleteStep(s: Store, plan: seq<Write>, n: nat, id: string)
    requires n < |plan| && plan[n] == DeleteCart(id)
    ensures DoAll(s, plan[..n + 1]).ext == DoAll(s, plan[..n]).ext
  {
    assert plan[..n + 1][..n] == plan[..n];
  }

  /** The line is kept, and it is the next one to be copied. */
  lemma KeptSplits(env: Env, c: Cart, guest: Cart, i: nat)
    requires i < |guest.items| && Claimable(env, c.customer, guest.currency, Some(c), guest.items[i])
    ensures var kept := Kept(env, c.customer, guest.currency, Some(c), guest.items);
            var head := Kept(env, c.customer, guest.currency, Some(c), guest.items[..i]);
            |head| < |kept| && kept[|head|] == guest.items[i]
  {
    hide Claimable;
    assert guest.items[..i + 1][..i] == guest.items[..i];
    KeptPrefix(env, c, guest, i + 1, |guest.items|);
    assert guest.items[..|guest.items|] == guest.items;
  }

  lemma NoneKeptYet(env: Env, guest: Cart, c: Cart)
    ensures Kept(env, c.customer, guest.currency, Some(c), guest.items[..0]) == [] && AddLines(c.items, []) == c.items
    ensures KeptLines(env, guest, c) == Kept(env, c.customer, guest.currency, Some(c), guest.items)
  {
  }

  /** What the next guest line does to the kept lines, to the cart in memory and to the writes. */
  lemma NextKept(env: Env, guest: Cart, c: Cart, i: nat, plan: seq<Write>)
    requires i < |guest.items| && Copies(guest.id, c.id, Variants(KeptLines(env, guest, c))) <= plan
    ensures var item := guest.items[i];
            var head := Kept(env, c.customer, guest.currency, Some(c), guest.items[..i]);
            var next := Kept(env, c.customer, guest.currency, Some(c), guest.items[..i + 1]);
            if Claimable(env, c.customer, guest.currency, Some(c), item) then
              && |next| == |head| + 1 && AddLines(c.items, next) == AddLine(AddLines(c.items, head), item)
              && |head| < |plan| && plan[|head|] == CopyExt(guest.id, c.id, item.variant)
            else next == head
  {
    hide Claimable, AddLine;
    assert guest.items[..i + 1][..i] == guest.items[..i];
    var item := guest.items[i];
    if Claimable(env, c.customer, guest.currency, Some(c), item) {
      KeptSplits(env, c, guest, i);
      var head := Kept(env, c.customer, guest.currency, Some(c), guest.items[..i]);
      assert (head + [item])[..|head|] == head;
      assert plan[|head|] == Copies(guest.id, c.id, Variants(KeptLines(env, guest, c)))[|head|];
    }
  }

  lemma {:induction false} KeptPrefix(env: Env, c: Cart, guest: Cart, i: nat, n: nat)
    requires i <= n <= |guest.items|
    ensures Kept(env, c.customer, guest.currency, Some(c), guest.items[..i]) <=
            Kept(env, c.customer, guest.currency, Some(c), guest.items[..n])
  {
    hide Claimable;
    if i < n {
      KeptPrefix(env, c, guest, i, n - 1);
      assert guest.items[..n][..n - 1] == guest.items[..n - 1];
    }
  }

  lemma KeptConflict(env: Env, c: Cart, guest: Cart, i: nat)
    requires i < |guest.items| && Claimable(env, c.customer, guest.currency, Some(c), guest.items[i])
    requires Conflict(AssignmentOf(c.items, guest.items[i].variant), guest.items[i].assignment)
    ensures AnyConflict(c.items, Kept(env, c.customer, guest.currency, Some(c), guest.items))
  {
    hide Claimable, Conflict, AssignmentOf, Kept;
    KeptSplits(env, c, guest, i);
  }
}

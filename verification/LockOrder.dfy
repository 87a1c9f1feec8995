/** Transactions that take locks one at a time and keep them to the end.

    Shared by the assignment flow (advisory locks on units) and the catalog
    services (row locks on products, then on media assets). */
module LockOrder {
  import opened Text
  import Units

  /** rank separates the lock families, in the order in which they are taken. */
  datatype Key = Key(rank: nat, id: string)

  predicate KeyLeq(a: Key, b: Key) {
    a.rank < b.rank || (a.rank == b.rank && Leq(a.id, b.id))
  }

  /** An unfinished transaction: the locks it takes, in order, and how many it has. */
  datatype Holder = Holder(want: seq<Key>, held: nat)

  /** The unfinished transactions. */
  type Locks = map<nat, Holder>

  datatype Event =
    | Begin(tx: nat, want: seq<Key>)
    | Acquire(tx: nat)
    | Finish(tx: nat)  // commit or rollback: releases every lock

  predicate Holds(h: Holder, k: Key) {
    h.held <= |h.want| && k in h.want[..h.held]
  }

  predicate Free(l: Locks, tx: nat, k: Key) {
    forall u :: u in l && u != tx ==> !Holds(l[u], k)
  }

  predicate CanAcquire(l: Locks, tx: nat) {
    tx in l && l[tx].held < |l[tx].want| && Free(l, tx, l[tx].want[l[tx].held])
  }

  function Step(l: Locks, e: Event): Locks {
    match e
    case Begin(t, want) => if t in l then l else l[t := Holder(want, 0)]
    case Acquire(t) => if CanAcquire(l, t) then l[t := l[t].(held := l[t].held + 1)] else l
    case Finish(t) => l - {t}
  }

  function Run(l: Locks, es: seq<Event>): Locks {
    if es == [] then l else Step(Run(l, es[..|es| - 1]), es[|es| - 1])
  }

  predicate Ascending(want: seq<Key>) {
    forall i, j :: 0 <= i < j < |want| ==> KeyLeq(want[i], want[j])
  }

  /** Every transaction of the run asks for its locks in ascending order. */
  predicate Disciplined(es: seq<Event>) {
    forall i :: 0 <= i < |es| && es[i].Begin? ==> Ascending(es[i].want)
  }

  predicate Valid(l: Locks) {
    forall t :: t in l ==> l[t].held <= |l[t].want|
  }

  /** No lock has two owners. */
  ghost predicate Exclusive(l: Locks) {
    forall t, u, k :: t in l && u in l && t != u && Holds(l[t], k) ==> !Holds(l[u], k)
  }

  predicate AllAscending(l: Locks) {
    forall t :: t in l ==> Ascending(l[t].want)
  }

  /** tx has all its locks, or the next one is free. */
  predicate CanStep(l: Locks, tx: nat) {
    tx in l && l[tx].held <= |l[tx].want| &&
    (l[tx].held == |l[tx].want| || Free(l, tx, l[tx].want[l[tx].held]))
  }

  /** Mutual exclusion in every reachable state, whatever the lock lists. */
  lemma {:induction false} RunIsExclusive(es: seq<Event>)
    ensures Valid(Run(map[], es)) && Exclusive(Run(map[], es))
    ensures Disciplined(es) ==> AllAscending(Run(map[], es))
  {
    if es != [] {
      var n := |es| - 1;
      RunIsExclusive(es[..n]);
      StepIsExclusive(Run(map[], es[..n]), es[n]);
      if Disciplined(es) {
        assert forall i :: 0 <= i < n ==> es[..n][i] == es[i];
        assert Disciplined(es[..n]);
      }
    }
  }

  lemma StepIsExclusive(l: Locks, e: Event)
    requires Valid(l) && Exclusive(l)
    ensures Valid(Step(l, e)) && Exclusive(Step(l, e))
  {
    if e.Acquire? && CanAcquire(l, e.tx) {
      var t := e.tx;
      var h, h' := l[t], Step(l, e)[t];
      assert h'.want[..h'.held] == h.want[..h.held] + [h.want[h.held]];
    }
  }

  /** The transaction whose next lock is the largest, among those still short of a lock. */
  lemma {:induction false} LargestNext(l: Locks, s: set<nat>) returns (m: nat)
    requires s != {} && s <= l.Keys
    requires forall t :: t in s ==> l[t].held < |l[t].want|
    ensures m in s
    ensures forall t :: t in s ==> KeyLeq(l[t].want[l[t].held], l[m].want[l[m].held])
  {
    m :| m in s;
    var rest := s - {m};
    if rest == {} {
      assert s == {m};
      LeqTotal(l[m].want[l[m].held].id, l[m].want[l[m].held].id);
    } else {
      var r := LargestNext(l, rest);
      var km, kr := l[m].want[l[m].held], l[r].want[l[r].held];
      LeqTotal(km.id, kr.id);
      LeqTotal(km.id, km.id);
      if KeyLeq(km, kr) {
        m := r;
      } else {
        forall t | t in rest ensures KeyLeq(l[t].want[l[t].held], km) {
          var kt := l[t].want[l[t].held];
          if kt.rank == km.rank { LeqTransitive(kt.id, kr.id, km.id); }
        }
      }
    }
  }

  /** Some unfinished transaction can always go on. */
  lemma SomeoneCanStep(l: Locks)
    requires l != map[] && Valid(l) && Exclusive(l) && AllAscending(l)
    ensures exists t :: CanStep(l, t)
  {
    if t :| t in l && l[t].held == |l[t].want| {
      assert CanStep(l, t);
    } else {
      var x :| x in l;
      assert x in l.Keys;
      var m := LargestNext(l, l.Keys);
      var k := l[m].want[l[m].held];
      if !CanStep(l, m) {
        var u :| u in l && u != m && Holds(l[u], k);
        var next := l[u].want[l[u].held];
        var i :| 0 <= i < l[u].held && l[u].want[i] == k;
        assert KeyLeq(k, next) && KeyLeq(next, k);
        LeqTotal(k.id, next.id);
        assert next == k;
        assert CanStep(l, u);
      }
    }
  }

  /** Deadlock freedom for any number of transactions and any interleaving. */
  lemma NoDeadlock(es: seq<Event>)
    requires Disciplined(es) && Run(map[], es) != map[]
    ensures exists t :: CanStep(Run(map[], es), t)
  {
    RunIsExclusive(es);
    SomeoneCanStep(Run(map[], es));
  }

  // ---- The lock lists of the code ----

  const UNIT_RANK: nat := 0
  const PRODUCT_RANK: nat := 1
  const ASSET_RANK: nat := 2

  function KeysOf(rank: nat, ids: seq<string>): seq<Key> {
    seq(|ids|, i requires 0 <= i < |ids| => Key(rank, ids[i]))
  }

  /** LockAssignmentUnits over one batch of unit ids. */
  function UnitLocks(unitIDs: seq<string>): seq<Key> {
    KeysOf(UNIT_RANK, Units.LockKeys(unitIDs))
  }

  /** A batch of units is locked in ascending order however the caller orders or spells the ids. */
  lemma UnitLocksAscend(unitIDs: seq<string>)
    ensures Ascending(UnitLocks(unitIDs))
  {
    Units.LockKeysCover(unitIDs);
  }

  /** A batch holds the lock of every unit it names. */
  lemma UnitLocksHold(unitIDs: seq<string>, u: string)
    requires u in unitIDs && Units.IsCanonical(u)
    ensures Key(UNIT_RANK, Units.UNIT_LOCK_PREFIX + u) in UnitLocks(unitIDs)
  {
    Units.LockKeyOfUnit(unitIDs, u);
    var keys := Units.LockKeys(unitIDs);
    var i :| 0 <= i < |keys| && keys[i] == Units.UNIT_LOCK_PREFIX + u;
    assert UnitLocks(unitIDs)[i] == Key(UNIT_RANK, keys[i]);
  }

  /** The row a product id locks: the column is a UUID, so case does not matter. */
  function ProductRow(id: string): Key {
    Key(PRODUCT_RANK, Fold(id))
  }

  /** The row an asset id locks: the column is text, so case does matter. */
  function AssetRow(id: string): Key {
    Key(ASSET_RANK, id)
  }

  function SortPair(a: string, b: string): (string, string) {
    if Leq(a, b) then (a, b) else (b, a)
  }

  /** BundleService.Add and GroupedService.Add: sorted as spelled. */
  function PairAddLocks(a: string, b: string): seq<Key> {
    var (x, y) := SortPair(a, b);
    [ProductRow(x), ProductRow(y)]
  }

  /** LinkedEligibilityService.AddParent: folded, then sorted. */
  function AddParentLocks(child: string, parent: string): seq<Key> {
    PairAddLocks(Fold(child), Fold(parent))
  }

  /** DownloadableFileService.Attach. */
  function AttachLocks(product: string, asset: string): seq<Key> {
    [ProductRow(product), AssetRow(asset)]
  }

  /** DownloadableFileService.Replace to a different asset. */
  function ReplaceLocks(product: string, oldAsset: string, newAsset: string): seq<Key> {
    var (x, y) := SortPair(oldAsset, newAsset);
    [ProductRow(product), AssetRow(x), AssetRow(y)]
  }

  /** The catalog lock lists follow "products by id, then assets by id". The pair
      lists that are sorted as spelled do so exactly when spelling order and row
      order agree, as they do for canonical (lower-case) ids. */
  lemma CatalogLocksAscend(a: string, b: string, asset: string, other: string)
    ensures Ascending(AddParentLocks(a, b))
    ensures Ascending(AttachLocks(a, asset))
    ensures Ascending(ReplaceLocks(a, asset, other))
    ensures Ascending(PairAddLocks(a, b)) <==>
            (if Leq(a, b) then Leq(Fold(a), Fold(b)) else Leq(Fold(b), Fold(a)))
    ensures Fold(a) == a && Fold(b) == b ==> Ascending(PairAddLocks(a, b))
  {
    PairAscends(a, b);
    assert Fold(Fold(a)) == Fold(a) && Fold(Fold(b)) == Fold(b);
    PairAscends(Fold(a), Fold(b));
    LeqTotal(Fold(a), Fold(b));
    LeqTotal(a, b);
    LeqTotal(asset, other);
  }

  lemma PairAscends(a: string, b: string)
    ensures Ascending(PairAddLocks(a, b)) <==>
            (if Leq(a, b) then Leq(Fold(a), Fold(b)) else Leq(Fold(b), Fold(a)))
  {
    var pair := PairAddLocks(a, b);
    assert Ascending(pair) <==> KeyLeq(pair[0], pair[1]);
  }

  /** One pair is added twice: spelled as given, and in canonical spelling. Each has its first row. */
  function TwoSpellings(a: string, b: string): seq<Event> {
    [Begin(0, PairAddLocks(a, b)), Begin(1, PairAddLocks(Fold(a), Fold(b))), Acquire(0), Acquire(1)]
  }

  /** Every pair whose spelling order differs from its row order can deadlock: each transaction
      then holds the row the other wants. */
  lemma UnorderedPairDeadlocks(a: string, b: string)
    requires !Ascending(PairAddLocks(a, b))
    ensures var l := Run(map[], TwoSpellings(a, b));
            l != map[] && forall t :: !CanStep(l, t)
  {
    hide Run, CanStep, Ascending;
    var want := PairAddLocks(a, b);
    FoldTwice(a);
    FoldTwice(b);
    CatalogLocksAscend(a, b, "", "");
    LeqTotal(a, b);
    LeqTotal(Fold(a), Fold(b));
    assert PairAddLocks(Fold(a), Fold(b)) == [want[1], want[0]] && want == [want[0], want[1]];
    OppositeOrderDeadlocks(want[0], want[1]);
  }

  lemma FoldTwice(a: string)
    ensures Fold(Fold(a)) == Fold(a)
  {
  }

  /** For instance, one caller spells the bundle in upper case and the other in lower case. */
  lemma MixedCasePairsDeadlock(tail: string)
    ensures var l := Run(map[], TwoSpellings("a" + tail, "B" + tail));
            l != map[] && forall t :: !CanStep(l, t)
  {
    hide Run, CanStep;
    var a, upper := "a" + tail, "B" + tail;
    assert a[0] == 'a' && upper[0] == 'B' && Fold(a)[0] == 'a' && Fold(upper)[0] == 'b';
    CatalogLocksAscend(a, upper, "", "");
    UnorderedPairDeadlocks(a, upper);
  }

  /** Two transactions that take the same two locks in opposite order. */
  lemma OppositeOrderDeadlocks(a: Key, b: Key)
    requires a != b
    ensures var l := Run(map[], [Begin(0, [a, b]), Begin(1, [b, a]), Acquire(0), Acquire(1)]);
            l != map[] && forall t :: !CanStep(l, t)
  {
    var w0, w1 := [a, b], [b, a];
    var e0, e1, e2, e3 := Begin(0, w0), Begin(1, w1), Acquire(0), Acquire(1);
    var es := [e0, e1, e2, e3];
    assert es[..3] == [e0, e1, e2] && [e0, e1, e2][..2] == [e0, e1] && [e0, e1][..1] == [e0];
    assert Run(map[], [e0]) == map[0 := Holder(w0, 0)] by { assert [e0][..0] == []; }
    assert Run(map[], [e0, e1]) == map[0 := Holder(w0, 0), 1 := Holder(w1, 0)];
    assert Run(map[], [e0, e1, e2]) == map[0 := Holder(w0, 1), 1 := Holder(w1, 0)];
    var l := Run(map[], es);
    assert w0[..1] == [a] && w1[..1] == [b];
    assert l == map[0 := Holder(w0, 1), 1 := Holder(w1, 1)];
    assert Holds(l[0], a) && Holds(l[1], b);
  }
}

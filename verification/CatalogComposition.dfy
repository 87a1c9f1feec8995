/** Downloadable files and bundle components, edited by transactions that lock
    product rows, then asset rows, check, write and commit.

    Product ids name rows by their folded spelling (the column is a UUID); types and
    statuses are fixed. A check reads under the locks; its writes appear at commit. */
module CatalogComposition {
  import opened Text
  import L = LockOrder

  const MAX_REQUIRED := 50
  const MAX_QUANTITY := 9999

  datatype Kind = Simple | Virtual | Downloadable | Bundle | Grouped

  datatype Product = Product(kind: Kind, active: bool, requiresLinkedParent: bool)

  predicate Leaf(k: Kind) {
    k == Simple || k == Virtual || k == Downloadable
  }

  /** What does not change: products by folded id, and whether an asset is stored privately. */
  datatype Fixed = Fixed(products: map<string, Product>, assets: map<string, bool>)

  /** files: assets attached to each product; components: required flag of each component of a bundle. */
  datatype Data = Data(files: map<string, set<string>>, components: map<string, map<string, bool>>)

  datatype Work =
    | Attach(product: string, asset: string)
    | Replace(product: string, oldAsset: string, asset: string, globalRetarget: bool)
    | Remove(product: string, asset: string)
    | AddComponent(bundle: string, component: string, quantity: int, required: bool)
    | LinkPair(a: string, b: string)   // LinkedEligibilityService.AddParent
    | GroupPair(a: string, b: string)  // GroupedService.Add
    | LockOne(product: string)         // LinkedEligibilityService.AddCategory

  /** operator callers also see products that are not active. */
  datatype Job = Job(work: Work, operator: bool, checked: bool)

  datatype State = State(data: Data, locks: L.Locks, jobs: map<nat, Job>)

  const EMPTY := State(Data(map[], map[]), map[], map[])

  datatype Action =
    | Begin(tx: nat, work: Work, operator: bool)
    | Acquire(tx: nat)
    | Check(tx: nat)
    | Commit(tx: nat)
    | Rollback(tx: nat)
    | RemoveComponent(bundle: string, component: string) // takes no lock

  /** The rows a transaction locks, in the order of the code. */
  function LocksOf(w: Work): seq<L.Key> {
    match w
    case Attach(p, a) => L.AttachLocks(p, a)
    case Replace(p, o, a, _) => if a == o then L.AttachLocks(p, a) else L.ReplaceLocks(p, o, a)
    case Remove(p, _) => [L.ProductRow(p)]
    case AddComponent(b, c, _, _) => L.PairAddLocks(b, c)
    case LinkPair(a, b) => L.AddParentLocks(a, b)
    case GroupPair(a, b) => L.PairAddLocks(a, b)
    case LockOne(p) => [L.ProductRow(p)]
  }

  // ---- What the transactions test and write ----

  function FilesOf(d: Data, p: string): set<string> {
    if p in d.files then d.files[p] else {}
  }

  function PutFiles(d: Data, p: string, assets: set<string>): Data {
    d.(files := d.files[p := assets])
  }

  /** CountByAssetID */
  function AttachCount(d: Data, asset: string): nat {
    |set p | p in d.files && asset in d.files[p]|
  }

  function ComponentsOf(d: Data, b: string): map<string, bool> {
    if b in d.components then d.components[b] else map[]
  }

  /** The required components of a bundle. */
  function Required(rows: map<string, bool>): set<string> {
    set c | c in rows && rows[c]
  }

  /** requireActiveCompositionProducts */
  predicate Visible(f: Fixed, id: string, operator: bool) {
    Fold(id) in f.products && (operator || f.products[Fold(id)].active)
  }

  predicate MayOwnFile(f: Fixed, p: string, asset: string, operator: bool) {
    p != "" && asset != "" && Visible(f, p, operator) && asset in f.assets && f.assets[asset]
    && f.products[Fold(p)].kind == Downloadable
  }

  /** An active downloadable product. */
  predicate SellsFiles(f: Fixed, p: string) {
    p in f.products && f.products[p].kind == Downloadable && f.products[p].active
  }

  /** The part of a check that other transactions could invalidate. */
  predicate Fresh(f: Fixed, d: Data, w: Work) {
    match w
    case Attach(_, _) => true
    case Replace(p, o, a, global) =>
      a == o || (o in FilesOf(d, Fold(p)) && (AttachCount(d, o) <= 1 || global))
    case Remove(p, a) =>
      a in FilesOf(d, Fold(p)) && !(SellsFiles(f, Fold(p)) && |FilesOf(d, Fold(p))| == 1)
    case AddComponent(b, c, _, required) =>
      |Required(ComponentsOf(d, Fold(b))[Fold(c) := required])| <= MAX_REQUIRED
    case LinkPair(_, _) => true
    case GroupPair(_, _) => true
    case LockOne(_) => true
  }

  /** Replacing an asset by itself is an Attach, after a look at the rows before any transaction. */
  predicate TurnedAway(d: Data, w: Work) {
    w.Replace? && w.asset == w.oldAsset && w.oldAsset !in FilesOf(d, Fold(w.product))
  }

  /** The part that depends on what is fixed. */
  predicate Settled(f: Fixed, w: Work, operator: bool) {
    match w
    case Attach(p, a) => MayOwnFile(f, p, a, operator)
    case Replace(p, o, a, _) => o != "" && o in f.assets && MayOwnFile(f, p, a, operator)
    case Remove(p, a) => p != "" && a != "" && Visible(f, p, operator)
    case AddComponent(b, c, quantity, required) =>
      && b != "" && c != "" && b != c && 1 <= quantity <= MAX_QUANTITY
      && Visible(f, b, operator) && Visible(f, c, operator)
      && f.products[Fold(b)].kind == Bundle && Leaf(f.products[Fold(c)].kind)
      && !(required && f.products[Fold(c)].requiresLinkedParent)
    case LinkPair(a, b) => Visible(f, a, operator) && Visible(f, b, operator)
    case GroupPair(a, b) => Visible(f, a, operator) && Visible(f, b, operator)
    case LockOne(p) => Visible(f, p, operator)
  }

  function Write(d: Data, w: Work): Data {
    match w
    case Attach(p, a) => PutFiles(d, Fold(p), FilesOf(d, Fold(p)) + {a})
    case Replace(p, o, a, _) =>
      if a == o then PutFiles(d, Fold(p), FilesOf(d, Fold(p)) + {a})
      else PutFiles(d, Fold(p), FilesOf(d, Fold(p)) + {a} - {o})
    case Remove(p, a) => PutFiles(d, Fold(p), FilesOf(d, Fold(p)) - {a})
    case AddComponent(b, c, _, required) =>
      d.(components := d.components[Fold(b) := ComponentsOf(d, Fold(b))[Fold(c) := required]])
    case LinkPair(_, _) => d
    case GroupPair(_, _) => d
    case LockOne(_) => d
  }

  function Unlink(d: Data, b: string, c: string): Data {
    if b in d.components then d.(components := d.components[b := d.components[b] - {c}]) else d
  }

  // ---- Steps ----

  predicate Holding(s: State, tx: nat) {
    tx in s.locks && s.locks[tx].held == |s.locks[tx].want|
  }

  function End(s: State, tx: nat): State {
    s.(jobs := s.jobs - {tx}, locks := L.Step(s.locks, L.Finish(tx)))
  }

  function Step(f: Fixed, s: State, a: Action): State {
    match a
    case Begin(tx, w, operator) =>
      if tx in s.jobs || TurnedAway(s.data, w) then s
      else s.(jobs := s.jobs[tx := Job(w, operator, false)], locks := L.Step(s.locks, L.Begin(tx, LocksOf(w))))
    case Acquire(tx) => s.(locks := L.Step(s.locks, L.Acquire(tx)))
    case Check(tx) =>
      if tx !in s.jobs || !Holding(s, tx) || s.jobs[tx].checked then s
      else if Settled(f, s.jobs[tx].work, s.jobs[tx].operator) && Fresh(f, s.data, s.jobs[tx].work)
      then s.(jobs := s.jobs[tx := s.jobs[tx].(checked := true)])
      else End(s, tx)
    case Commit(tx) =>
      if tx !in s.jobs || !s.jobs[tx].checked then s
      else End(s, tx).(data := Write(s.data, s.jobs[tx].work))
    case Rollback(tx) => End(s, tx)
    case RemoveComponent(b, c) => s.(data := Unlink(s.data, Fold(b), Fold(c)))
  }

  predicate IsRun(f: Fixed, trace: seq<State>, acts: seq<Action>) {
    |trace| == |acts| + 1 && trace[0] == EMPTY
    && forall i :: 0 <= i < |acts| ==> trace[i + 1] == Step(f, trace[i], acts[i])
  }

  // ---- Invariant ----

  ghost predicate LocksOk(l: L.Locks) {
    L.Valid(l) && L.Exclusive(l)
  }

  /** What is known of an unfinished transaction: once checked it holds its locks, and its check still holds. */
  ghost predicate Fits(f: Fixed, d: Data, h: L.Holder, j: Job) {
    && h.want == LocksOf(j.work)
    && (j.checked ==> h.held == |h.want| && Settled(f, j.work, j.operator) && Fresh(f, d, j.work))
  }

  ghost predicate Capped(d: Data) {
    forall b :: b in d.components ==> |Required(d.components[b])| <= MAX_REQUIRED
  }

  ghost predicate JobsOk(f: Fixed, s: State) {
    s.jobs.Keys == s.locks.Keys && forall tx :: tx in s.jobs ==> Fits(f, s.data, s.locks[tx], s.jobs[tx])
  }

  ghost predicate Inv(f: Fixed, s: State) {
    Capped(s.data) && LocksOk(s.locks) && JobsOk(f, s)
  }

  /** Two transactions that are through with locking have no row in common. */
  predicate Apart(a: Work, b: Work) {
    forall k :: k in LocksOf(a) ==> k !in LocksOf(b)
  }

  lemma CheckedApart(f: Fixed, s: State, a: nat, b: nat)
    requires Inv(f, s) && a in s.jobs && b in s.jobs && a != b && s.jobs[a].checked && s.jobs[b].checked
    ensures Apart(s.jobs[a].work, s.jobs[b].work)
  {
    hide Fresh, Settled, LocksOf, Capped;
    var h, i := s.locks[a], s.locks[b];
    assert Fits(f, s.data, h, s.jobs[a]) && Fits(f, s.data, i, s.jobs[b]);
    assert h.want[..h.held] == h.want && i.want[..i.held] == i.want;
    forall k | k in h.want ensures k !in i.want { assert L.Holds(h, k); assert !L.Holds(i, k); }
  }

  /** The product row is among the locks of any work on that product's files or components. */
  lemma LocksProduct(w: Work)
    ensures w.Attach? || w.Replace? || w.Remove? ==> L.ProductRow(w.product) in LocksOf(w)
    ensures w.AddComponent? ==> L.ProductRow(w.bundle) in LocksOf(w)
    ensures w.Attach? || w.Replace? ==> L.AssetRow(w.asset) in LocksOf(w)
    ensures w.Replace? ==> L.AssetRow(w.oldAsset) in LocksOf(w)
  {
    hide Fold, Leq;
    match w {
      case Attach(p, a) => assert L.AttachLocks(p, a)[0] == L.ProductRow(p) && L.AttachLocks(p, a)[1] == L.AssetRow(a);
      case Replace(p, o, a, _) =>
        if a == o {
          assert L.AttachLocks(p, a)[0] == L.ProductRow(p) && L.AttachLocks(p, a)[1] == L.AssetRow(a);
        } else {
          var l := L.ReplaceLocks(p, o, a);
          assert l[0] == L.ProductRow(p) && (l[1] == L.AssetRow(a) || l[2] == L.AssetRow(a)) && (l[1] == L.AssetRow(o) || l[2] == L.AssetRow(o));
        }
      case Remove(p, _) => assert LocksOf(w)[0] == L.ProductRow(p);
      case AddComponent(b, c, _, _) =>
        var l := L.PairAddLocks(b, c);
        assert l[0] == L.ProductRow(b) || l[1] == L.ProductRow(b);
      case LinkPair(_, _) =>
      case GroupPair(_, _) =>
      case LockOne(_) =>
    }
  }

  /** Works with no row in common are on different products and do not attach the same asset. */
  lemma ApartRows(a: Work, b: Work)
    requires Apart(a, b)
    ensures (a.Attach? || a.Replace? || a.Remove?) && (b.Attach? || b.Replace? || b.Remove?) ==> Fold(a.product) != Fold(b.product)
    ensures a.AddComponent? && b.AddComponent? ==> Fold(a.bundle) != Fold(b.bundle)
    ensures (a.Attach? || a.Replace?) && b.Replace? ==> a.asset != b.oldAsset
  {
    hide LocksOf;
    LocksProduct(a);
    LocksProduct(b);
  }

  // ---- A commit leaves the checks of the others valid ----

  /** Only the files of one product change, and the only asset that may be added is named. */
  lemma WriteFiles(d: Data, w: Work, q: string)
    ensures !(w.Attach? || w.Replace? || w.Remove?) || q != Fold(w.product) ==> FilesOf(Write(d, w), q) == FilesOf(d, q)
    ensures !w.AddComponent? || q != Fold(w.bundle) ==> ComponentsOf(Write(d, w), q) == ComponentsOf(d, q)
  {
    hide Fold;
  }

  predicate Attached(d: Data, p: string, asset: string) {
    p in d.files && asset in d.files[p]
  }

  lemma WriteAttaches(d: Data, w: Work, p: string, asset: string)
    requires Attached(Write(d, w), p, asset)
    ensures Attached(d, p, asset) || ((w.Attach? || w.Replace?) && w.asset == asset)
  {
    hide Fold;
  }

  lemma CountShrinks(d: Data, d': Data, asset: string)
    requires forall p :: Attached(d', p, asset) ==> Attached(d, p, asset)
    ensures AttachCount(d', asset) <= AttachCount(d, asset)
  {
    var a, b := set p | p in d.files && asset in d.files[p], set p | p in d'.files && asset in d'.files[p];
    forall p | p in b ensures p in a { assert Attached(d', p, asset); assert Attached(d, p, asset); }
    SubsetSize(b, a);
  }

  lemma StaysFresh(f: Fixed, d: Data, w: Work, other: Work)
    requires Apart(w, other) && Fresh(f, d, other)
    ensures Fresh(f, Write(d, w), other)
  {
    hide Fold, Write, Apart, FilesOf, ComponentsOf, Required, AttachCount;
    ApartRows(w, other);
    match other {
      case Replace(p, o, a, global) =>
        WriteFiles(d, w, Fold(p));
        forall q | Attached(Write(d, w), q, o) ensures Attached(d, q, o) { WriteAttaches(d, w, q, o); }
        CountShrinks(d, Write(d, w), o);
      case Remove(p, a) => WriteFiles(d, w, Fold(p));
      case AddComponent(b, c, _, _) => WriteFiles(d, w, Fold(b));
      case Attach(_, _) =>
      case LinkPair(_, _) =>
      case GroupPair(_, _) =>
      case LockOne(_) =>
    }
  }

  /** Removing a component without a lock only lowers the counts. */
  lemma UnlinkStaysFresh(f: Fixed, d: Data, b: string, c: string, w: Work)
    requires Fresh(f, d, w)
    ensures Fresh(f, Unlink(d, b, c), w)
  {
    hide Fold;
    if w.AddComponent? {
      var k, e := Fold(w.bundle), Fold(w.component);
      SubsetSize(Required(ComponentsOf(Unlink(d, b, c), k)[e := w.required]), Required(ComponentsOf(d, k)[e := w.required]));
    } else if w.Replace? {
      assert AttachCount(Unlink(d, b, c), w.oldAsset) == AttachCount(d, w.oldAsset);
    }
  }

  lemma UnlinkCapped(d: Data, b: string, c: string)
    requires Capped(d)
    ensures Capped(Unlink(d, b, c))
  {
    if b in d.components { SubsetSize(Required(d.components[b] - {c}), Required(d.components[b])); }
  }

  lemma WriteCapped(f: Fixed, d: Data, w: Work)
    requires Capped(d) && Fresh(f, d, w)
    ensures Capped(Write(d, w))
  {
    hide Fold, Required;
  }

  // ---- Every step keeps the invariant ----

  lemma EndKeeps(f: Fixed, s: State, tx: nat)
    requires Inv(f, s)
    ensures Inv(f, End(s, tx))
  {
    hide Fits, Capped;
    L.StepIsExclusive(s.locks, L.Finish(tx));
    forall t | t in End(s, tx).jobs ensures Fits(f, s.data, End(s, tx).locks[t], End(s, tx).jobs[t]) {
      assert Fits(f, s.data, s.locks[t], s.jobs[t]);
    }
  }

  lemma BeginKeeps(f: Fixed, s: State, tx: nat, w: Work, operator: bool)
    requires Inv(f, s)
    ensures Inv(f, Step(f, s, Begin(tx, w, operator)))
  {
    hide Settled, Fresh, LocksOf, Capped;
    L.StepIsExclusive(s.locks, L.Begin(tx, LocksOf(w)));
    var s' := Step(f, s, Begin(tx, w, operator));
    forall t | t in s'.jobs ensures Fits(f, s'.data, s'.locks[t], s'.jobs[t]) {
      if t in s.jobs { assert Fits(f, s.data, s.locks[t], s.jobs[t]); }
    }
  }

  lemma AcquireKeeps(f: Fixed, s: State, tx: nat)
    requires Inv(f, s)
    ensures Inv(f, Step(f, s, Acquire(tx)))
  {
    hide Settled, Fresh, LocksOf, Capped, L.Free;
    var s' := Step(f, s, Acquire(tx));
    assert LocksOk(s'.locks) by { L.StepIsExclusive(s.locks, L.Acquire(tx)); }
    forall t | t in s'.jobs ensures Fits(f, s'.data, s'.locks[t], s'.jobs[t]) {
      assert Fits(f, s.data, s.locks[t], s.jobs[t]);
    }
  }

  lemma CheckKeeps(f: Fixed, s: State, tx: nat)
    requires Inv(f, s)
    ensures Inv(f, Step(f, s, Check(tx)))
  {
    hide Settled, Fresh, LocksOf, Capped, LocksOk;
    EndKeeps(f, s, tx);
    var s' := Step(f, s, Check(tx));
    if tx in s.jobs && tx in s'.jobs {
      forall t | t in s'.jobs ensures Fits(f, s'.data, s'.locks[t], s'.jobs[t]) {
        assert Fits(f, s.data, s.locks[t], s.jobs[t]);
      }
    }
  }

  lemma CommitKeeps(f: Fixed, s: State, tx: nat)
    requires Inv(f, s)
    ensures Inv(f, Step(f, s, Commit(tx)))
  {
    hide Settled, Fresh, LocksOf, Capped, LocksOk, Write, Apart;
    EndKeeps(f, s, tx);
    if tx in s.jobs && s.jobs[tx].checked {
      var w, e := s.jobs[tx].work, End(s, tx);
      assert Fits(f, s.data, s.locks[tx], s.jobs[tx]);
      WriteCapped(f, s.data, w);
      forall t | t in e.jobs ensures Fits(f, Write(s.data, w), e.locks[t], e.jobs[t]) {
        assert Fits(f, s.data, s.locks[t], s.jobs[t]);
        if s.jobs[t].checked {
          CheckedApart(f, s, tx, t);
          StaysFresh(f, s.data, w, s.jobs[t].work);
        }
      }
    }
  }

  lemma UnlinkKeeps(f: Fixed, s: State, b: string, c: string)
    requires Inv(f, s)
    ensures Inv(f, Step(f, s, RemoveComponent(b, c)))
  {
    hide Settled, Fresh, LocksOf, Capped, LocksOk, Unlink;
    UnlinkCapped(s.data, Fold(b), Fold(c));
    var s' := Step(f, s, RemoveComponent(b, c));
    forall t | t in s'.jobs ensures Fits(f, s'.data, s'.locks[t], s'.jobs[t]) {
      assert Fits(f, s.data, s.locks[t], s.jobs[t]);
      if s.jobs[t].checked { UnlinkStaysFresh(f, s.data, Fold(b), Fold(c), s.jobs[t].work); }
    }
  }

  lemma StepKeeps(f: Fixed, s: State, a: Action)
    requires Inv(f, s)
    ensures Inv(f, Step(f, s, a))
  {
    hide Inv;
    match a {
      case Begin(tx, w, operator) => BeginKeeps(f, s, tx, w, operator);
      case Acquire(tx) => AcquireKeeps(f, s, tx);
      case Check(tx) => CheckKeeps(f, s, tx);
      case Commit(tx) => CommitKeeps(f, s, tx);
      case Rollback(tx) => EndKeeps(f, s, tx);
      case RemoveComponent(b, c) => UnlinkKeeps(f, s, b, c);
    }
  }

  lemma {:induction false} RunKeeps(f: Fixed, trace: seq<State>, acts: seq<Action>, n: nat)
    requires IsRun(f, trace, acts) && n < |trace|
    ensures Inv(f, trace[n])
  {
    hide Step, Fits;
    if n > 0 {
      RunKeeps(f, trace, acts, n - 1);
      assert trace[n - 1 + 1] == Step(f, trace[n - 1], acts[n - 1]);
      StepKeeps(f, trace[n - 1], acts[n - 1]);
    }
  }

  // ---- Theorems over every interleaving ----

  /** No bundle ever has more required components than the maximum. */
  lemma BundlesStayCapped(f: Fixed, trace: seq<State>, acts: seq<Action>, n: nat, b: string)
    requires IsRun(f, trace, acts) && n < |trace|
    ensures |Required(ComponentsOf(trace[n].data, b))| <= 50
  {
    RunKeeps(f, trace, acts, n);
    if b !in trace[n].data.components { assert Required(map[]) == {}; }
  }

  lemma OthersLeft(s: set<string>, a: string)
    requires a in s && |s| != 1
    ensures s - {a} != {}
  {
    assert s == (s - {a}) + {a};
    assert |s| == |s - {a}| + 1;
  }

  lemma WriteKeepsFile(f: Fixed, d: Data, w: Work, p: string)
    requires Fresh(f, d, w) && SellsFiles(f, p) && FilesOf(d, p) != {}
    ensures FilesOf(Write(d, w), p) != {}
  {
    hide Fold, Required;
    WriteFiles(d, w, p);
    if w.Remove? && Fold(w.product) == p {
      OthersLeft(FilesOf(d, p), w.asset);
    } else if (w.Attach? || w.Replace?) && Fold(w.product) == p {
      assert w.asset in FilesOf(Write(d, w), p);
    }
  }

  /** Once it has a file, an active downloadable product never reaches zero files. */
  lemma {:induction false} LastFileStays(f: Fixed, trace: seq<State>, acts: seq<Action>, m: nat, n: nat, p: string)
    requires IsRun(f, trace, acts) && m <= n < |trace| && SellsFiles(f, p) && FilesOf(trace[m].data, p) != {}
    ensures FilesOf(trace[n].data, p) != {}
    decreases n
  {
    hide FilesOf, SellsFiles, Settled, Write, Capped, LocksOk, L.Step, LocksOf, Unlink;
    if m < n {
      LastFileStays(f, trace, acts, m, n - 1, p);
      RunKeeps(f, trace, acts, n - 1);
      var s, a := trace[n - 1], acts[n - 1];
      assert trace[n - 1 + 1] == Step(f, s, a);
      if a.Commit? && a.tx in s.jobs && s.jobs[a.tx].checked {
        assert Fits(f, s.data, s.locks[a.tx], s.jobs[a.tx]);
        WriteKeepsFile(f, s.data, s.jobs[a.tx].work, p);
      } else if a.RemoveComponent? {
        UnlinkFiles(s.data, Fold(a.bundle), Fold(a.component), p);
      }
    }
  }

  lemma UnlinkFiles(d: Data, b: string, c: string, p: string)
    ensures FilesOf(Unlink(d, b, c), p) == FilesOf(d, p)
  {
  }

  /** The action commits a replacement of one asset by another. */
  predicate CommitsReplace(s: State, a: Action) {
    a.Commit? && a.tx in s.jobs && s.jobs[a.tx].checked && s.jobs[a.tx].work.Replace?
    && s.jobs[a.tx].work.asset != s.jobs[a.tx].work.oldAsset
  }

  /** A replacement swaps exactly the two assets on its own product, and without GlobalRetarget
      it commits only while no other product attaches the old asset, whatever ran in between. */
  lemma ReplaceIsAlone(f: Fixed, trace: seq<State>, acts: seq<Action>, n: nat)
    requires IsRun(f, trace, acts) && n < |acts| && CommitsReplace(trace[n], acts[n])
    ensures var w := trace[n].jobs[acts[n].tx].work;
            && w.oldAsset in FilesOf(trace[n].data, Fold(w.product))
            && FilesOf(trace[n + 1].data, Fold(w.product)) == FilesOf(trace[n].data, Fold(w.product)) - {w.oldAsset} + {w.asset}
            && (forall q :: q != Fold(w.product) ==> FilesOf(trace[n + 1].data, q) == FilesOf(trace[n].data, q))
            && (!w.globalRetarget ==> forall q :: w.oldAsset in FilesOf(trace[n].data, q) ==> q == Fold(w.product))
  {
    hide Fold, Settled, Capped, LocksOk, L.Step, LocksOf, AttachCount;
    RunKeeps(f, trace, acts, n);
    var s, w := trace[n], trace[n].jobs[acts[n].tx].work;
    assert Fits(f, s.data, s.locks[acts[n].tx], s.jobs[acts[n].tx]);
    assert trace[n + 1] == Step(f, s, acts[n]);
    forall q | !w.globalRetarget && w.oldAsset in FilesOf(s.data, q) ensures q == Fold(w.product) {
      OnlyOne(s.data, w.oldAsset, q, Fold(w.product));
    }
  }

  lemma OnlyOne(d: Data, asset: string, p: string, q: string)
    requires AttachCount(d, asset) <= 1 && asset in FilesOf(d, p) && asset in FilesOf(d, q)
    ensures p == q
  {
    var s := set r | r in d.files && asset in d.files[r];
    if p != q {
      assert {p, q} <= s;
      SubsetSize({p, q}, s);
    }
  }

  // ---- What is attached and composed ----

  /** Files are private assets on downloadable products. */
  ghost predicate FilesFit(f: Fixed, files: map<string, set<string>>) {
    forall p, a :: p in files && a in files[p] ==>
      a in f.assets && f.assets[a] && p in f.products && f.products[p].kind == Downloadable
  }

  /** Components are simple, virtual or downloadable products in bundles; a required one needs no
      linked parent. */
  ghost predicate ComponentsFit(f: Fixed, components: map<string, map<string, bool>>) {
    forall b :: b in components ==> forall c :: c in components[b] ==> MayCompose(f, b, c, components[b][c])
  }

  predicate MayCompose(f: Fixed, b: string, c: string, required: bool) {
    && b in f.products && f.products[b].kind == Bundle && c in f.products
    && (f.products[c].kind == Simple || f.products[c].kind == Virtual || f.products[c].kind == Downloadable)
    && !(required && f.products[c].requiresLinkedParent)
  }

  lemma WriteFits(f: Fixed, d: Data, w: Work, operator: bool)
    requires FilesFit(f, d.files) && ComponentsFit(f, d.components) && Settled(f, w, operator)
    ensures FilesFit(f, Write(d, w).files) && ComponentsFit(f, Write(d, w).components)
  {
    hide Fold, FilesFit, ComponentsFit;
    match w {
      case Attach(p, a) => FilesStayFit(f, d, Fold(p), FilesOf(d, Fold(p)) + {a}, a);
      case Replace(p, o, a, _) =>
        FilesStayFit(f, d, Fold(p), FilesOf(d, Fold(p)) + {a}, a);
        FilesStayFit(f, d, Fold(p), FilesOf(d, Fold(p)) + {a} - {o}, a);
      case Remove(p, a) => FewerFilesFit(f, d, Fold(p), FilesOf(d, Fold(p)) - {a});
      case AddComponent(b, c, _, required) => ComponentFits(f, d, Fold(b), Fold(c), required);
      case _ =>
    }
  }

  lemma FilesStayFit(f: Fixed, d: Data, p: string, assets: set<string>, a: string)
    requires FilesFit(f, d.files) && assets <= FilesOf(d, p) + {a}
    requires a in f.assets && f.assets[a] && p in f.products && f.products[p].kind == Downloadable
    ensures FilesFit(f, d.files[p := assets])
  {
  }

  lemma FewerFilesFit(f: Fixed, d: Data, p: string, assets: set<string>)
    requires FilesFit(f, d.files) && assets <= FilesOf(d, p)
    ensures FilesFit(f, d.files[p := assets])
  {
  }

  lemma ComponentFits(f: Fixed, d: Data, b: string, c: string, required: bool)
    requires ComponentsFit(f, d.components) && b in f.products && f.products[b].kind == Bundle && c in f.products && Leaf(f.products[c].kind)
    requires !(required && f.products[c].requiresLinkedParent)
    ensures ComponentsFit(f, d.components[b := ComponentsOf(d, b)[c := required]])
  {
    hide MayCompose;
    assert MayCompose(f, b, c, required) by { MayComposeIf(f, b, c, required); }
  }

  lemma MayComposeIf(f: Fixed, b: string, c: string, required: bool)
    requires b in f.products && f.products[b].kind == Bundle && c in f.products && Leaf(f.products[c].kind)
    requires !(required && f.products[c].requiresLinkedParent)
    ensures MayCompose(f, b, c, required)
  {
  }

  /** Over every interleaving only private assets are attached, to downloadable products only, and
      bundles are composed of sellable leaves. */
  lemma {:induction false} CompositionFits(f: Fixed, trace: seq<State>, acts: seq<Action>, n: nat)
    requires IsRun(f, trace, acts) && n < |trace|
    ensures FilesFit(f, trace[n].data.files) && ComponentsFit(f, trace[n].data.components)
  {
    hide FilesFit, ComponentsFit, Settled, Write, Capped, LocksOk, L.Step, LocksOf, Unlink, Fresh;
    if n == 0 {
      NothingFits(f);
    } else {
      CompositionFits(f, trace, acts, n - 1);
      RunKeeps(f, trace, acts, n - 1);
      var s, a := trace[n - 1], acts[n - 1];
      assert trace[n - 1 + 1] == Step(f, s, a);
      if a.Commit? && a.tx in s.jobs && s.jobs[a.tx].checked {
        assert Fits(f, s.data, s.locks[a.tx], s.jobs[a.tx]);
        WriteFits(f, s.data, s.jobs[a.tx].work, s.jobs[a.tx].operator);
      } else if a.RemoveComponent? {
        UnlinkFits(f, s.data, Fold(a.bundle), Fold(a.component));
      }
    }
  }

  lemma NothingFits(f: Fixed)
    ensures FilesFit(f, EMPTY.data.files) && ComponentsFit(f, EMPTY.data.components)
  {
  }

  lemma UnlinkFits(f: Fixed, d: Data, b: string, c: string)
    requires FilesFit(f, d.files) && ComponentsFit(f, d.components)
    ensures FilesFit(f, Unlink(d, b, c).files) && ComponentsFit(f, Unlink(d, b, c).components)
  {
    hide MayCompose;
  }

  /** The write of each work, said of the rows: what was asked, where it was asked, and nothing else. */
  ghost predicate Does(d: Data, d': Data, w: Work) {
    match w
    case Attach(p, a) => d'.components == d.components && OnlyFiles(d, d', Fold(p), FilesOf(d, Fold(p)) + {a})
    case Replace(p, o, a, _) =>
      d'.components == d.components && OnlyFiles(d, d', Fold(p), (if a == o then FilesOf(d, Fold(p)) else FilesOf(d, Fold(p)) - {o}) + {a})
    case Remove(p, a) => d'.components == d.components && OnlyFiles(d, d', Fold(p), FilesOf(d, Fold(p)) - {a})
    case AddComponent(b, c, _, required) =>
      && d'.files == d.files && ComponentsOf(d', Fold(b)) == ComponentsOf(d, Fold(b))[Fold(c) := required]
      && forall q :: q != Fold(b) ==> ComponentsOf(d', q) == ComponentsOf(d, q)
    case _ => d' == d
  }

  /** A commit does what was asked. */
  lemma CommitDoes(f: Fixed, trace: seq<State>, acts: seq<Action>, n: nat)
    requires IsRun(f, trace, acts) && n < |acts| && acts[n].Commit? && acts[n].tx in trace[n].jobs && trace[n].jobs[acts[n].tx].checked
    ensures Does(trace[n].data, trace[n + 1].data, trace[n].jobs[acts[n].tx].work)
  {
    hide Does, Write, L.Step;
    assert trace[n + 1] == Step(f, trace[n], acts[n]);
    WriteDoes(trace[n].data, trace[n].jobs[acts[n].tx].work);
  }

  lemma WriteDoes(d: Data, w: Work)
    ensures Does(d, Write(d, w), w)
  {
    hide Fold;
  }

  /** Removing a component removes that one and nothing else. */
  lemma UnlinkRemoves(d: Data, b: string, c: string)
    ensures ComponentsOf(Unlink(d, b, c), b) == ComponentsOf(d, b) - {c}
    ensures Unlink(d, b, c).files == d.files && forall q :: q != b ==> ComponentsOf(Unlink(d, b, c), q) == ComponentsOf(d, q)
  {
  }

  /** The product exists and the caller may see it. */
  predicate Seen(f: Fixed, id: string, operator: bool) {
    Fold(id) in f.products && (operator || f.products[Fold(id)].active)
  }

  /** What a transaction is allowed to do once it holds its locks, said of products, assets and rows. */
  ghost predicate Admissible(f: Fixed, d: Data, w: Work, operator: bool) {
    match w
    case Attach(p, a) =>
      p != "" && a != "" && Seen(f, p, operator) && f.products[Fold(p)].kind == Downloadable && a in f.assets && f.assets[a]
    case Replace(p, o, a, global) =>
      && p != "" && o != "" && a != "" && Seen(f, p, operator) && f.products[Fold(p)].kind == Downloadable
      && o in f.assets && a in f.assets && f.assets[a]
      && (a != o ==> o in FilesOf(d, Fold(p)) && (global || forall q :: o in FilesOf(d, q) ==> q == Fold(p)))
    case Remove(p, a) =>
      && p != "" && a != "" && Seen(f, p, operator) && a in FilesOf(d, Fold(p))
      && (f.products[Fold(p)].kind == Downloadable && f.products[Fold(p)].active ==> exists o :: o in FilesOf(d, Fold(p)) && o != a)
    case AddComponent(b, c, quantity, required) =>
      && b != "" && c != "" && b != c && 1 <= quantity <= 9999 && Seen(f, b, operator) && Seen(f, c, operator)
      && f.products[Fold(b)].kind == Bundle && f.products[Fold(c)].kind != Bundle && f.products[Fold(c)].kind != Grouped
      && !(required && f.products[Fold(c)].requiresLinkedParent)
      && |set x | x in ComponentsOf(d, Fold(b)) + map[Fold(c) := required] && (if x == Fold(c) then required else ComponentsOf(d, Fold(b))[x])| <= 50
    case LinkPair(a, b) => Seen(f, a, operator) && Seen(f, b, operator)
    case GroupPair(a, b) => Seen(f, a, operator) && Seen(f, b, operator)
    case LockOne(p) => Seen(f, p, operator)
  }

  /** The check under the locks passes exactly for what is admissible; otherwise the transaction is over. */
  lemma CheckIff(f: Fixed, s: State, tx: nat)
    requires tx in s.jobs && Holding(s, tx) && !s.jobs[tx].checked
    ensures var s' := Step(f, s, Check(tx));
            && s'.data == s.data
            && if Admissible(f, s.data, s.jobs[tx].work, s.jobs[tx].operator) then tx in s'.jobs && s'.jobs[tx].checked
               else tx !in s'.jobs && tx !in s'.locks
  {
    hide Admissible, Settled, Fresh;
    AdmissibleIff(f, s.data, s.jobs[tx].work, s.jobs[tx].operator);
  }

  lemma AdmissibleIff(f: Fixed, d: Data, w: Work, operator: bool)
    ensures Admissible(f, d, w, operator) <==> Settled(f, w, operator) && Fresh(f, d, w)
  {
    hide Fold;
    match w {
      case Replace(p, o, a, _) => if o in FilesOf(d, Fold(p)) { OnlyHere(d, o, Fold(p)); }
      case Remove(p, a) => if a in FilesOf(d, Fold(p)) { AnotherFile(FilesOf(d, Fold(p)), a); }
      case AddComponent(b, c, _, required) => RequiredAre(ComponentsOf(d, Fold(b)), Fold(c), required);
      case _ =>
    }
  }

  lemma OnlyHere(d: Data, asset: string, p: string)
    requires asset in FilesOf(d, p)
    ensures AttachCount(d, asset) <= 1 <==> forall q :: asset in FilesOf(d, q) ==> q == p
  {
    var s := set r | r in d.files && asset in d.files[r];
    if forall q :: asset in FilesOf(d, q) ==> q == p {
      forall r | r in s ensures r == p { assert asset in FilesOf(d, r); }
      SubsetSize(s, {p});
    }
    if q :| asset in FilesOf(d, q) && q != p { SubsetSize({p, q}, s); }
  }

  lemma AnotherFile(assets: set<string>, a: string)
    requires a in assets
    ensures |assets| != 1 <==> exists o :: o in assets && o != a
  {
    if |assets| != 1 {
      OthersLeft(assets, a);
      var o :| o in assets - {a};
    }
    if o :| o in assets && o != a { SubsetSize({a, o}, assets); }
  }

  lemma RequiredAre(rows: map<string, bool>, c: string, required: bool)
    ensures Required(rows[c := required]) == set x | x in rows + map[c := required] && (if x == c then required else rows[x])
  {
  }

  ghost predicate OnlyFiles(d: Data, d': Data, p: string, assets: set<string>) {
    FilesOf(d', p) == assets && forall q :: q != p ==> FilesOf(d', q) == FilesOf(d, q)
  }

  // ---- Progress ----

  /** Of a pair that is sorted as spelled, the spellings come in the order of the rows. */
  predicate SpelledInRowOrder(a: string, b: string) {
    if Leq(a, b) then Leq(Fold(a), Fold(b)) else Leq(Fold(b), Fold(a))
  }

  /** What a caller can check of a work before it asks for it. */
  predicate SpellingAgrees(w: Work) {
    match w
    case AddComponent(b, c, _, _) => SpelledInRowOrder(b, c)
    case GroupPair(a, b) => SpelledInRowOrder(a, b)
    case _ => true
  }

  /** The pair lists sorted as spelled name their products canonically. */
  predicate Canonical(w: Work) {
    match w
    case AddComponent(b, c, _, _) => Fold(b) == b && Fold(c) == c
    case GroupPair(a, b) => Fold(a) == a && Fold(b) == b
    case _ => true
  }

  lemma WorkAscendsIff(w: Work)
    ensures L.Ascending(LocksOf(w)) <==> SpellingAgrees(w)
    ensures Canonical(w) ==> SpellingAgrees(w)
  {
    hide Fold, Leq;
    match w {
      case Attach(p, a) => L.CatalogLocksAscend(p, p, a, a);
      case Replace(p, o, a, _) =>
        L.CatalogLocksAscend(p, p, o, a);
        L.CatalogLocksAscend(p, p, a, a);
      case Remove(_, _) =>
      case AddComponent(b, c, _, _) => L.CatalogLocksAscend(b, c, "", "");
      case LinkPair(a, b) => L.CatalogLocksAscend(a, b, "", "");
      case GroupPair(a, b) => L.CatalogLocksAscend(a, b, "", "");
      case LockOne(_) =>
    }
  }

  /** tx is unfinished and one of its own steps changes the state. */
  predicate CanAdvance(f: Fixed, s: State, tx: nat) {
    tx in s.jobs && (Step(f, s, Acquire(tx)) != s || Step(f, s, Check(tx)) != s || Step(f, s, Commit(tx)) != s)
  }

  /** Catalog transactions whose locks ascend never deadlock, however many there are. */
  lemma CatalogMakesProgress(f: Fixed, trace: seq<State>, acts: seq<Action>, n: nat)
    requires IsRun(f, trace, acts) && n < |trace| && trace[n].jobs != map[]
    requires forall tx :: tx in trace[n].jobs ==> L.Ascending(LocksOf(trace[n].jobs[tx].work))
    ensures exists tx :: CanAdvance(f, trace[n], tx)
  {
    hide LocksOf, Settled, Fresh, Capped, L.Ascending, L.CanStep, CanAdvance;
    RunKeeps(f, trace, acts, n);
    var s := trace[n];
    var x :| x in s.jobs;
    assert x in s.locks;
    forall t | t in s.locks ensures L.Ascending(s.locks[t].want) {
      assert t in s.locks.Keys && t in s.jobs;
      assert Fits(f, s.data, s.locks[t], s.jobs[t]);
    }
    L.SomeoneCanStep(s.locks);
    var tx :| L.CanStep(s.locks, tx);
    ReadyToStep(f, s, tx);
  }

  /** In particular with canonical product ids. */
  lemma CanonicalMakesProgress(f: Fixed, trace: seq<State>, acts: seq<Action>, n: nat)
    requires IsRun(f, trace, acts) && n < |trace| && trace[n].jobs != map[]
    requires forall tx :: tx in trace[n].jobs ==> Canonical(trace[n].jobs[tx].work)
    ensures exists tx :: CanAdvance(f, trace[n], tx)
  {
    hide IsRun, Canonical, SpellingAgrees, LocksOf, L.Ascending, CanAdvance;
    forall tx | tx in trace[n].jobs ensures L.Ascending(LocksOf(trace[n].jobs[tx].work)) {
      WorkAscendsIff(trace[n].jobs[tx].work);
    }
    CatalogMakesProgress(f, trace, acts, n);
  }

  /** The same addition, in canonical spelling. */
  function Respelled(w: Work): Work {
    match w
    case AddComponent(b, c, quantity, required) => AddComponent(Fold(b), Fold(c), quantity, required)
    case GroupPair(a, b) => GroupPair(Fold(a), Fold(b))
    case _ => w
  }

  /** The condition is exact: any other work, begun beside the same addition in canonical
      spelling, reaches a state in which neither can make a step. */
  lemma DisagreementDeadlocks(f: Fixed, w: Work, operator: bool, trace: seq<State>)
    requires !SpellingAgrees(w)
    requires IsRun(f, trace, [Begin(0, w, operator), Begin(1, Respelled(w), operator), Acquire(0), Acquire(1)])
    ensures trace[4].jobs == map[0 := Job(w, operator, false), 1 := Job(Respelled(w), operator, false)]
    ensures forall tx :: !CanAdvance(f, trace[4], tx)
  {
    assert |trace| == 5;
    hide IsRun, SpellingAgrees, CanAdvance, Respelled, L.Run, L.CanStep, LocksOf;
    LocksStalled(w);
    FourSteps(f, w, Respelled(w), operator, trace);
    forall tx ensures !CanAdvance(f, trace[4], tx) { NoStep(f, trace[4], tx); }
  }

  lemma FourSteps(f: Fixed, w: Work, v: Work, operator: bool, trace: seq<State>)
    requires IsRun(f, trace, [Begin(0, w, operator), Begin(1, v, operator), Acquire(0), Acquire(1)])
    requires !w.Replace? && !v.Replace?
    ensures trace[4].jobs == map[0 := Job(w, operator, false), 1 := Job(v, operator, false)]
    ensures trace[4].locks == L.Run(map[], [L.Begin(0, LocksOf(w)), L.Begin(1, LocksOf(v)), L.Acquire(0), L.Acquire(1)])
    ensures L.Valid(trace[4].locks) && trace[4].locks.Keys == trace[4].jobs.Keys
  {
    hide L.Run, L.CanAcquire, LocksOf;
    var es := [L.Begin(0, LocksOf(w)), L.Begin(1, LocksOf(v)), L.Acquire(0), L.Acquire(1)];
    var acts := [Begin(0, w, operator), Begin(1, v, operator), Acquire(0), Acquire(1)];
    RunOfFour(es);
    assert trace[0 + 1] == Step(f, trace[0], acts[0]);
    assert trace[1 + 1] == Step(f, trace[1], acts[1]);
    assert trace[2 + 1] == Step(f, trace[2], acts[2]);
    assert trace[3 + 1] == Step(f, trace[3], acts[3]);
    assert trace[1].jobs == map[0 := Job(w, operator, false)] && 1 !in trace[1].jobs;
    L.RunIsExclusive(es);
    assert trace[2].locks.Keys == {0, 1};
  }

  lemma LocksStalled(w: Work)
    requires !SpellingAgrees(w)
    ensures !w.Replace? && !Respelled(w).Replace?
    ensures var l := L.Run(map[], [L.Begin(0, LocksOf(w)), L.Begin(1, LocksOf(Respelled(w))), L.Acquire(0), L.Acquire(1)]);
            forall t :: !L.CanStep(l, t)
  {
    hide L.Run, L.CanStep, L.Ascending, SpelledInRowOrder, Fold;
    WorkAscendsIff(w);
    match w {
      case AddComponent(b, c, _, _) => L.UnorderedPairDeadlocks(b, c);
      case GroupPair(a, b) => L.UnorderedPairDeadlocks(a, b);
    }
  }

  lemma RunOfFour(es: seq<L.Event>)
    requires |es| == 4
    ensures L.Run(map[], es) == L.Step(L.Step(L.Step(L.Step(map[], es[0]), es[1]), es[2]), es[3])
  {
    hide L.Step;
    var one, two, three := es[..1], es[..2], es[..3];
    assert one[..0] == [] && two[..1] == one && three[..2] == two;
    assert L.Run(map[], one) == L.Step(L.Run(map[], one[..0]), es[0]);
    assert L.Run(map[], two) == L.Step(L.Run(map[], one), es[1]);
    assert L.Run(map[], three) == L.Step(L.Run(map[], two), es[2]);
    assert L.Run(map[], es) == L.Step(L.Run(map[], three), es[3]);
  }

  lemma NoStep(f: Fixed, s: State, tx: nat)
    requires !L.CanStep(s.locks, tx) && L.Valid(s.locks) && s.jobs.Keys == s.locks.Keys
    requires tx in s.jobs ==> !s.jobs[tx].checked
    ensures !CanAdvance(f, s, tx)
  {
    hide Settled, Fresh, Write;
    if tx in s.jobs { assert tx in s.locks.Keys; }
  }

  lemma ReadyToStep(f: Fixed, s: State, tx: nat)
    requires s.jobs.Keys == s.locks.Keys && L.CanStep(s.locks, tx)
    ensures CanAdvance(f, s, tx)
  {
    hide Settled, Fresh, Write;
    assert tx in s.locks.Keys;
    if s.locks[tx].held < |s.locks[tx].want| {
      assert Step(f, s, Acquire(tx)).locks[tx].held == s.locks[tx].held + 1;
    } else if !s.jobs[tx].checked {
      var s' := Step(f, s, Check(tx));
      assert tx !in s'.jobs || s'.jobs[tx].checked;
    } else {
      assert tx !in Step(f, s, Commit(tx)).jobs;
    }
  }

  // ---- The services ----

  datatype Answer = Done | NotFound | Invalid

  /** DownloadableFileService and BundleService between taking their locks and committing. A
      refusal rolls the transaction back. */
  class Services {
    const fixed: Fixed
    var data: Data

    constructor (f: Fixed)
      ensures fixed == f && data == Data(map[], map[])
    {
      fixed := f;
      data := Data(map[], map[]);
    }

    /** requireActiveCompositionProducts and the private-path and type checks. */
    method CheckFile(product: string, asset: string, operator: bool) returns (r: Answer)
      ensures r == Done <==> MayOwnFile(fixed, product, asset, operator)
    {
      if product == "" || asset == "" { return Invalid; }
      if Fold(product) !in fixed.products { return NotFound; }
      if asset !in fixed.assets { return NotFound; }
      if !fixed.assets[asset] { return Invalid; }
      if !operator && !fixed.products[Fold(product)].active { return NotFound; }
      if fixed.products[Fold(product)].kind != Downloadable { return Invalid; }
      return Done;
    }

    method AttachFile(product: string, asset: string, operator: bool) returns (r: Answer)
      modifies this
      ensures r == Done <==> Settled(fixed, Attach(product, asset), operator) && Fresh(fixed, old(data), Attach(product, asset))
      ensures data == if r == Done then Write(old(data), Attach(product, asset)) else old(data)
    {
      hide Fold;
      r := CheckFile(product, asset, operator);
      if r == Done { data := PutFiles(data, Fold(product), FilesOf(data, Fold(product)) + {asset}); }
    }

    method ReplaceFile(product: string, oldAsset: string, asset: string, globalRetarget: bool, operator: bool) returns (r: Answer)
      modifies this
      ensures var w := Replace(product, oldAsset, asset, globalRetarget);
              && (r == Done <==> !TurnedAway(old(data), w) && Settled(fixed, w, operator) && Fresh(fixed, old(data), w))
              && data == (if r == Done then Write(old(data), w) else old(data))
    {
      hide Fold, AttachCount;
      if product == "" || oldAsset == "" { return Invalid; }
      var p := Fold(product);
      if asset == oldAsset {
        if oldAsset !in FilesOf(data, p) { return NotFound; }
        r := AttachFile(product, asset, operator);
        return;
      }
      if oldAsset !in fixed.assets { return NotFound; }
      r := CheckFile(product, asset, operator);
      if r != Done { return; }
      if oldAsset !in FilesOf(data, p) { return NotFound; }
      if AttachCount(data, oldAsset) > 1 && !globalRetarget { return Invalid; }
      data := PutFiles(data, p, FilesOf(data, p) + {asset});
      data := PutFiles(data, p, FilesOf(data, p) - {oldAsset});
    }

    method RemoveFile(product: string, asset: string, operator: bool) returns (r: Answer)
      modifies this
      ensures r == Done <==> Settled(fixed, Remove(product, asset), operator) && Fresh(fixed, old(data), Remove(product, asset))
      ensures data == if r == Done then Write(old(data), Remove(product, asset)) else old(data)
    {
      hide Fold;
      if product == "" || asset == "" { return Invalid; }
      var p := Fold(product);
      if p !in fixed.products || (!operator && !fixed.products[p].active) { return NotFound; }
      var rows := FilesOf(data, p);
      if asset !in rows { return NotFound; }
      if fixed.products[p].kind == Downloadable && fixed.products[p].active && |rows| == 1 { return Invalid; }
      data := PutFiles(data, p, rows - {asset});
      return Done;
    }

    /** enforceRequiredComponentCap: counts the required rows one by one. */
    method CountRequired(rows: map<string, bool>) returns (n: nat)
      ensures n == |Required(rows)|
    {
      n := 0;
      var todo := rows.Keys;
      ghost var seen: set<string> := {};
      while todo != {}
        invariant todo <= rows.Keys && seen == (set c | c in rows && rows[c] && c !in todo) && n == |seen|
        decreases |todo|
      {
        var c :| c in todo;
        todo := todo - {c};
        if rows[c] {
          n := n + 1;
          seen := seen + {c};
        }
      }
      assert seen == Required(rows);
    }

    /** Writes the row, then counts; too many required rows roll the write back. */
    method AddBundleComponent(bundle: string, component: string, quantity: int, required: bool, operator: bool) returns (r: Answer)
      modifies this
      ensures var w := AddComponent(bundle, component, quantity, required);
              && (r == Done <==> Settled(fixed, w, operator) && Fresh(fixed, old(data), w))
              && data == (if r == Done then Write(old(data), w) else old(data))
    {
      hide Fold;
      if bundle == "" || component == "" || quantity < 1 || quantity > MAX_QUANTITY || bundle == component { return Invalid; }
      var b, c := Fold(bundle), Fold(component);
      if b !in fixed.products || c !in fixed.products { return NotFound; }
      if !operator && (!fixed.products[b].active || !fixed.products[c].active) { return NotFound; }
      if fixed.products[b].kind != Bundle || !Leaf(fixed.products[c].kind) { return Invalid; }
      if required && fixed.products[c].requiresLinkedParent { return Invalid; }
      var snapshot := data;
      data := data.(components := data.components[b := ComponentsOf(data, b)[c := required]]);
      var n := CountRequired(ComponentsOf(data, b));
      if n > MAX_REQUIRED {
        data := snapshot;
        return Invalid;
      }
      return Done;
    }

    /** Takes no lock. */
    method RemoveBundleComponent(bundle: string, component: string) returns (r: Answer)
      modifies this
      ensures data == if r == Done then Unlink(old(data), Fold(bundle), Fold(component)) else old(data)
      ensures r == Done <==> bundle != "" && component != "" && Fold(bundle) in fixed.products
                             && fixed.products[Fold(bundle)].kind == Bundle && Fold(component) in ComponentsOf(old(data), Fold(bundle))
    {
      hide Fold;
      if bundle == "" || component == "" { return Invalid; }
      var b := Fold(bundle);
      if b !in fixed.products { return NotFound; }
      if fixed.products[b].kind != Bundle { return Invalid; }
      if Fold(component) !in ComponentsOf(data, b) { return NotFound; }
      data := Unlink(data, b, Fold(component));
      return Done;
    }
  }
}

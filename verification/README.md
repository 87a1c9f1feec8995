# Shopanda protocols in Dafny

Shopanda is a commerce backend. Its difficult parts are a few stateful protocols that must survive
concurrency, crashes and retries. This project models them and proves what they promise.

`dafny verify dfyconfig.toml` checks everything.

| module | models |
|---|---|
| `Text` | trimming, byte order, ASCII case folding and sorting, as the Go code uses them |
| `Units` | unit ids (`orderID/variantID`), their canonical spelling, the advisory-lock keys |
| `LockOrder` | transactions that take locks one at a time; mutual exclusion and deadlock freedom |
| `AssignmentTable` | product-assignment rows and the service that moves them unassigned, assigned, revoked |
| `AssignmentProtocol` | binds, purchases, returns and revokes as interleaved transactions |
| `ParentScan` | the paged listing of a parent's bindings and the returnability scan over it |
| `OwnedParents` | the parent checks of AssignOwned and the batched listing that must agree with them |
| `Binding` | AssignOwned, and which of the parents on offer it will bind |
| `Purchase` | RecordPurchase: which rows a checkout writes, and when none |
| `GuestClaim` | claiming a guest cart, cut at any persistence call (a copied line, a saved cart, a single deleted row) and retried |
| `MissCoalescer` | the cache-miss leader/follower protocol |
| `AttemptStore` | the bounded, lazily swept counter store of failed logins |
| `LoginLockout` | reserve-before-check admission over that counter |
| `PageQuery`, `PageKeys` | query canonicalisation, cache keys, and purge by URL |
| `Idempotency` | the idempotency store and the interleavings of requests over it |
| `AttributeStore` | attribute and group definitions and their references |
| `CatalogComposition` | downloadable files and bundle components under row locks |

Protocols are transition systems: an `Action` datatype, a total `Step`, an invariant that every step
keeps, and theorems about every state of every run. Beside each model stand theorems that say the same of
stored rows, arrivals or lines, without the model's own definitions. Code that changes a store in place is a class whose
methods are proved against a specification function, about which the properties are then proved. A
transaction appears as steps (begin, acquire one lock, check under the locks, commit), and its writes
take effect at commit.

## What turned out not to hold

Each of these is proved, with the exact condition under which the promise does hold.

- `LoginLockout.ResetPreservesLater`, `SecondClearErases`: the store's documentation
  (`internal/application/auth/lockout.go:24-27`) says increments after the observation are preserved. A
  reset that takes effect leaves exactly those increments if and only if no other clear took effect since
  the observation.
- `CatalogComposition.CatalogMakesProgress`, `DisagreementDeadlocks`, `LockOrder.MixedCasePairsDeadlock`:
  BundleService.Add and GroupedService.Add sort ids as spelled
  (`internal/application/catalog/bundle_service.go:112-125`,
  `internal/application/catalog/grouped_service.go:101-114`) while Postgres locks the UUID row. Transactions
  whose spellings come in row order never deadlock, in any number and interleaving; every pair of which
  they do not deadlocks with the same pair in canonical spelling.
- `Binding.OfferedIffBindable`, `SelfOfferedIff`, `BundleOffersItself`: the listing of owned parents can offer
  a unit as its own parent, and AssignOwned then refuses it
  (`internal/domain/assignment/assignment.go:205-222`). It does so if and only if the product is a bundle
  that needs no linked parent itself, and it has linked leaves, all of them eligible under it; every other
  unit on offer can be bound.
- `GuestClaim.MarkerDecides`, `SecondGuestForgetsFirst`, `TwoPiecesFromOne`: MergedGuestID remembers one
  guest cart. A retry leaves the quantities alone if and only if the marker still names that cart, the
  merge is refused, or nothing can be kept; when another guest cart is claimed in between, the first is
  merged twice.
- `Purchase.RefusedAutocommitKeepsTable`, `PartialAutocommit`: outside a transaction a purchase without
  parents writes row by row; a refusal keeps the table if and only if the first child already had a
  current row. It takes a caller outside a transaction: checkout always binds one
  (`internal/application/checkout/create_order_step.go:320`).
- `Idempotency.HandlerRunsOnceIff`, `HandlerOvertakenIff`, `SlowHandlerRunsTwice`: a handler runs twice if and only if a request
  arrives while an uncompleted record is at least five minutes old.

## Assumptions

- Advisory-lock ids are hashes of the lock keys; the hash is taken to be injective on the keys in play.
- Locks are held to the end of the transaction, rollback restores the rows, clocks do not run backwards.
- Order ids are lower-case UUIDs, and stored ids are trimmed and not blank.
- A customer has at most one active cart. The database has no unique index for this.
- Case folding is ASCII, and request strings in `PageQuery` are bytes.
- `url.Parse` is foreign: `PurgeURLKeys` starts from the parsed path and raw query.

## Model

| member | source | states |
|---|---|---|
| Units.MintedUnitIsCanonical | internal/domain/assignment/unit.go:14-53 | a lower-case order UUID and a trimmed variant id mint a unit id that splits back into the same parts and is its own canonical form |
| Units.CanonicalIsFixed | internal/domain/assignment/unit.go:46-53 | canonicalisation is idempotent, so every spelling of a unit shares one row key and one lock |
| Units.LockKeysCover | internal/application/assignment/flow.go:111-138 | the lock keys of a batch are sorted, without repeats, and exactly those of the units named in any spelling |
| Units.CollectLockKeys | internal/application/assignment/flow.go:111-138 | the loop with its seen-map computes that key list |
| LockOrder.RunIsExclusive | internal/application/assignment/flow.go:111-138 | in every reachable state no lock has two owners |
| LockOrder.NoDeadlock | internal/application/assignment/flow.go:111-138 | for any number of transactions that ask in ascending order, some unfinished one can always go on |
| LockOrder.UnitLocksAscend | internal/application/assignment/flow.go:491-515 | a batch of units is locked in ascending order however the caller orders or spells the ids |
| LockOrder.CatalogLocksAscend | internal/application/catalog/linked_eligibility_service.go:156-167 | AddParent, Attach and Replace lock products by id, then assets by id; pairs sorted as spelled do so exactly when spelling order and row order agree |
| LockOrder.UnorderedPairDeadlocks | internal/application/catalog/bundle_service.go:112-125 | every pair whose spelling order differs from its row order, added beside the same pair in canonical spelling, reaches a state in which neither transaction can go on |
| LockOrder.MixedCasePairsDeadlock | internal/application/catalog/bundle_service.go:112-125 | an upper-case and a lower-case spelling of one bundle are such a pair |
| AssignmentTable.ApplyWrites | internal/application/assignment/service.go:34-128 | the one row an accepted operation writes, where it goes, and what it holds |
| AssignmentTable.AcceptedIff | internal/application/assignment/service.go:34-128 | exactly when an operation is accepted: ids, unused row id, no current row of the child, status, parent other than the child, a forced reason of at most 500 |
| AssignmentTable.RunKeepsRows | internal/application/assignment/service.go:34-128 | over every run of operations a child has at most one current row, ids stay unique, and a row only moves unassigned, assigned, revoked with its parent written once |
| AssignmentTable.AssignedBlocksBind | internal/application/assignment/service.go:276-288 | while a child has a live assigned row every further bind of it is refused |
| AssignmentTable.CurrentByChild | internal/infrastructure/postgres/product_assignment_repo.go:206-221 | finds a row of the child that is not revoked, and none exactly when every row of the child is revoked |
| AssignmentTable.Service.CreateUnassigned | internal/application/assignment/service.go:34-47 | the new table and answer are those of the specified operation; a refusal changes nothing |
| AssignmentTable.Service.CreateAssigned | internal/application/assignment/service.go:62-79 | the same for a bind of a child without a current row |
| AssignmentTable.Service.Assign | internal/application/assignment/service.go:92-108 | the same for the move of an unassigned row to assigned |
| AssignmentTable.Service.Revoke | internal/application/assignment/service.go:113-128 | the same for a revoke; idempotent is reported exactly when nothing was written |
| AssignmentProtocol.BindsAndReturnsAgree | internal/application/assignment/flow.go:970-1007 | in every interleaving no blocking return holds a parent with a live child outside that return, no unit of an approved return is bound again, and no child has two current rows |
| AssignmentProtocol.OpenedReturnBlocks | internal/application/returns/service.go:807-834 | from the commit of a newly opened return on, whatever runs, it holds exactly its units and each of them is blocked, until the return is rejected or cancelled |
| AssignmentProtocol.OpenedReturnStopsBinds | internal/application/returns/service.go:803-834 | from its opening until it is closed no bind, purchase or other step adds a live row whose parent or child is one of its units |
| AssignmentProtocol.BlockedIff | internal/application/returns/service.go:185-200 | a unit is blocked exactly by a return of it that is requested, approved, received or refunded |
| AssignmentProtocol.ClosedReturnStays | internal/domain/returns/return.go:164-182 | a rejected or cancelled return stays so for good, and blocks nothing |
| AssignmentProtocol.BegunBindBinds | internal/application/assignment/flow.go:660-710 | a bind begun for a child and a parent in any spelling, whose commit writes, has bound exactly that child to that parent and changed no other live row, whatever ran in between |
| AssignmentProtocol.SettlementSettles | internal/application/returns/service.go:858-922 | a committed approval or refund moves the return requested to approved or received to refunded and leaves every row of its units revoked |
| AssignmentProtocol.AloneBindBinds | internal/application/assignment/flow.go:660-710 | alone, a bind of a free child to a parent, both off every blocking return, binds |
| AssignmentProtocol.AloneReturnOpens | internal/application/returns/service.go:807-834 | alone, a return without a live child outside is opened and touches no row |
| AssignmentProtocol.AloneSettles | internal/application/returns/service.go:858-922 | alone, a requested return is approved and a received one refunded, and its units lose their rows |
| AssignmentProtocol.ReceiveMovesOn | internal/domain/returns/return.go:184-192 | receiving moves an approved return on and touches no row |
| AssignmentProtocol.RevokeRowRevokes | internal/application/assignment/service.go:113-128 | a revoke by id ends that row and keeps the others |
| AssignmentProtocol.TransactionsMakeProgress | internal/application/assignment/flow.go:111-138 | in every reachable state with an unfinished transaction some transaction can take a lock, check or commit |
| AssignmentProtocol.TwoBindsNeedRevoke | internal/application/assignment/flow.go:693-709 | when two binds of one child both commit, whatever they read before locking, the first binding was revoked in between |
| AssignmentProtocol.RevokeUnitsMoves | internal/application/returns/service.go:995-1011 | settling a return leaves no current row for any of its units and binds nothing |
| AssignmentProtocol.CommitSettleKeeps | internal/application/returns/service.go:858-922 | approving or refunding under the unit locks keeps the invariant |
| AssignmentProtocol.CommitOpenKeeps | internal/application/returns/service.go:807-834 | opening a return after the check under its locks keeps the invariant; what it opens is OpenedReturnBlocks |
| AssignmentProtocol.CommitBindKeeps | internal/application/assignment/flow.go:970-1007 | a bind that commits after its recheck keeps the invariant, for every other transaction in flight |
| AssignmentProtocol.BeginBindKeeps | internal/application/assignment/flow.go:660-710 | a bind that was decided on a read before locking stays covered by the units it locks |
| ParentScan.SelectedRows | internal/infrastructure/postgres/product_assignment_repo.go:259-303 | the listing selects exactly the rows of that parent that are assigned, or revoked, or all of them |
| ParentScan.ListingIs | internal/application/assignment/service.go:209-240 | a listing fails exactly on an invalid parent, an unknown status or a negative offset; else it is the cut at the offset of at most 100 or the limit asked for, and says whether rows follow |
| ParentScan.PageOfLive | internal/application/assignment/service.go:209-240 | consecutive pages cut the listing without gap or overlap, and hasMore is right |
| ParentScan.AssertParentReturnable | internal/application/assignment/flow.go:580-630 | over all pages: accepts exactly when every live child is skipped, else reports exactly the missing children, each once; fails exactly on an invalid parent id |
| ParentScan.ScanDecidesReturn | internal/application/returns/service.go:787-801 | in every reachable state, scanning each unit of a return with its own lines skipped accepts exactly when the protocol lets the return proceed |
| OwnedParents.RunCheckPurchaseAll | internal/application/assignment/flow.go:528-544 | the loop that remembers checked ids answers as if every id were checked |
| OwnedParents.OwnedUnitOfLine | internal/application/assignment/flow.go:1293-1371 | the unit of a stored line is owned exactly when its order is the customer's and neither cancelled nor failed, its payment is completed or there is none and nothing to pay, and its variant has a product |
| OwnedParents.EligibilityAgrees | internal/application/assignment/flow.go:1268-1291 | for an owned unit off every return the purchase checks accept exactly when every leaf is eligible |
| OwnedParents.EligibleIsFit | internal/application/assignment/flow.go:1240-1291 | eligibility said of rules and components: the product itself, or for a bundle that needs no linked parent all its linked leaves, each another product with a rule under the parent |
| OwnedParents.AcceptedAreOffered | internal/application/assignment/flow.go:1101-1207 | the listed parents are exactly the order lines that the stored orders, payments, rules and returns allow |
| OwnedParents.LinkedChildren | internal/application/catalog/required_leaf.go:255-298 | the two loops yield exactly the required components that need a linked parent, in component order |
| OwnedParents.ChildEligibilityIDs | internal/application/assignment/flow.go:1240-1266 | the products that IsEligible must accept for a child |
| OwnedParents.UniqueNonEmpty | internal/application/assignment/flow.go:1471-1486 | the trimmed non-blank ids, each once |
| OwnedParents.LineAgrees | internal/application/assignment/flow.go:660-692 | AssignOwned accepts a line as parent exactly when every stage of the listing lets it through |
| OwnedParents.ListOwnedParents | internal/application/assignment/flow.go:1101-1207 | with batched reads, memoised eligibility and one blocking filter, returns in order the lines that pass AssignOwned's parent checks: exactly the owned lines off every return under whose product every product that must fit is allowed |
| Binding.BindBinds | internal/application/assignment/flow.go:660-710 | success binds exactly this child to exactly this parent in canonical spelling: an unassigned row moves or a new row appears, and no other row is touched |
| Binding.OwnedIsLine | internal/application/assignment/flow.go:1293-1371 | a unit is owned exactly when it is the unit of an owned order line, whose product is its product |
| Binding.BindsIff | internal/application/assignment/flow.go:660-710 | exactly when AssignOwned binds, said of stored orders, payments, rules, returns and rows; in particular both units are of the customer's open orders that are paid or free |
| Binding.OfferedIffBindable | internal/application/assignment/flow.go:1101-1207 | for an owned child off every return without a live row, AssignOwned will bind it to exactly the parents that the listing offers, less the child itself |
| Binding.SelfBindRefused | internal/domain/assignment/assignment.go:205-222 | no spelling of a unit is ever bound to another spelling of itself |
| Binding.SelfOfferedIff | internal/application/assignment/flow.go:1240-1266 | the listing offers an owned unit as its own parent exactly when its product is a bundle, needs no linked parent, and has linked leaves, all eligible under it |
| Binding.BundleOffersItself | internal/application/assignment/flow.go:1240-1266 | a bundle with one required linked leaf allowed under it is offered its own unit, and the bind is refused |
| Binding.Flow.AssignOwned | internal/application/assignment/flow.go:660-710 | checks, read before locking, recheck and write give the specified answer and table; a refusal changes nothing |
| Purchase.PurchaseWritesEachLineOnce | internal/application/assignment/flow.go:428-499 | success adds exactly one row per line, assigned to the canonical parent exactly when the line names a parent unit, for pairwise distinct children without a current row, after every line passed |
| Purchase.CheckPurchaseIff | internal/application/assignment/flow.go:379-420 | what a purchase check accepts, said of stored rows: no parent, a catalog parent with a rule, or an owned unit off every return whose product has a rule and is the catalog parent if one is named |
| Purchase.PurchaseNeedsOwnedParent | internal/application/assignment/flow.go:428-499 | a line with a parent unit is recorded only for the owner of that unit, with rules for all its products and neither unit on a return before or under the locks |
| Purchase.RefusedPurchaseKeepsTable | internal/application/assignment/flow.go:487-499 | a refused purchase in a transaction, or with a parent in it, leaves the table unchanged |
| Purchase.RefusedAutocommitKeepsTable | internal/application/assignment/flow.go:487-489 | without a transaction and without parents a refusal keeps the table exactly when the first child had a current row |
| Purchase.PartialAutocommit | internal/application/assignment/flow.go:487-489 | two lines of one variant: refused, and yet the first row stays |
| Purchase.PurchaseIsProtocolBind | internal/application/assignment/flow.go:491-515 | what it writes and locks is what the purchase transaction of the protocol writes and locks |
| Purchase.Flow.RecordPurchase | internal/application/assignment/flow.go:428-499 | the imperative form, with snapshot and rollback, is the specified answer and table |
| GuestClaim.CopyTwice | internal/application/extension/value_service.go:236-269 | copying values again, or in parts, gives what one copy of all of them gives |
| GuestClaim.TargetKeysAre | internal/application/extension/value_service.go:143-161 | deleting target after target, field after field as each target is listed, deletes exactly the rows of those targets, in whatever order the listings come |
| GuestClaim.DeletesFindTheirRows | internal/infrastructure/postgres/extension_value_repo.go:171-187 | no row is deleted twice and every delete finds its row, so none is reported missing |
| GuestClaim.OrphanKeysAre | internal/application/extension/value_service.go:111-141 | the orphan purge deletes exactly the cart's rows whose variant is not on it |
| GuestClaim.AddLineEffect | internal/domain/cart/cart.go:117-148 | an added line raises only its own variant's quantity, and a stored assignment stays |
| GuestClaim.AddLinesEffect | internal/application/cart/service.go:1005-1020 | a merge adds each kept quantity once, never replaces a stored assignment, and fills an empty one from the guest |
| GuestClaim.KeptShape | internal/application/cart/service.go:316-350 | the kept lines are guest lines, unchanged, each once |
| GuestClaim.KeptIff | internal/application/cart/service.go:316-350 | a guest line is kept exactly when its quantity is positive, the sum with the customer's line does not overflow, and that sum may be bought |
| GuestClaim.MergeRefusedIff | internal/application/cart/service.go:444-451 | a merge in one currency into an unmarked cart is refused, and writes nothing, exactly when a kept guest line and the customer's line of its variant both name a parent and differ in deferred flag, trimmed product or trimmed unit |
| GuestClaim.MergedParentsAgree | internal/application/cart/service.go:444-472 | wherever a merge stops after its save, every kept guest line that names a parent finds the same deferred flag, parent product and parent unit on its variant |
| GuestClaim.MergeOutcome | internal/application/cart/service.go:431-483 | an uninterrupted merge: the guest cart gone, only the customer's cart changed, quantities added, pipeline prices, the coupon rule, and the rows of guest lines moved if kept and gone otherwise |
| GuestClaim.AssignOutcome | internal/application/cart/service.go:398-429 | without an active cart the guest cart becomes the customer's with the lines that can be bought, priced, other rows purged; refused exactly when it is inactive and some line cannot be bought |
| GuestClaim.OwnedOutcome | internal/application/cart/service.go:249-274 | a cart already the customer's is purged of orphan rows; a foreign or missing one is left alone; nobody claims unsigned |
| GuestClaim.MismatchOutcome | internal/application/cart/service.go:287-303 | across currencies two filled carts are refused, an empty guest cart is deleted, an empty customer cart gives way |
| GuestClaim.RestartConverges | internal/application/cart/service.go:249-305 | a claim cut at any write, be it between two fields of one line, and run again ends where an uninterrupted claim ends, in every branch |
| GuestClaim.RetriesConverge | internal/application/cart/service.go:249-305 | the same for any number of cut attempts |
| GuestClaim.ClaimedAtMostOnce | internal/application/cart/service.go:431-483 | over any attempts with changing stock, prices and coupons: guest quantities are added at most once, the guest cart is gone only if they were, and kept extension values are under the guest target or already under the customer's |
| GuestClaim.MergeCut | internal/application/cart/service.go:445-476 | the state a merge is in after any number of its writes, down to single deleted rows |
| GuestClaim.MarkerDecides | internal/application/cart/service.go:249-305 | with an active customer cart, in every branch: the cart is gone afterwards exactly if it was empty, unmarked and in another currency; otherwise its quantities stay exactly when the marker names this guest cart, the currencies differ, the assignments conflict, or no line can be kept |
| GuestClaim.SecondGuestForgetsFirst | internal/application/cart/service.go:469-469 | after another guest cart is merged in between, a retried claim counts its lines a second time |
| GuestClaim.TwoPiecesFromOne | internal/application/cart/service.go:469-469 | one piece claimed into an empty cart ends up as two |
| GuestClaim.CartService.UnclaimableLines | internal/application/cart/service.go:316-350 | a line is dropped exactly when it cannot be bought at its resulting quantity |
| GuestClaim.CartService.FindConflict | internal/application/cart/service.go:444-451 | finds a conflict exactly when a kept line and the customer's line name different parents |
| GuestClaim.CartService.MergeIntoCustomerCart | internal/application/cart/service.go:431-483 | makes the planned writes in order until one fails; a conflict makes none |
| GuestClaim.CartService.AssignGuestCart | internal/application/cart/service.go:398-429 | saves the claimed cart, then deletes orphan rows one by one, in that order until a write fails |
| GuestClaim.CartService.DeleteAllForTarget | internal/application/extension/value_service.go:143-161 | lists the stored fields, then deletes them one by one until a delete fails; on success exactly the listed rows are gone and nothing else changed |
| GuestClaim.CartService.FinishMergedCleanup | internal/application/cart/service.go:376-396 | deletes the rows of every guest line one by one and then the guest cart, until a write fails |
| GuestClaim.CartService.ClaimGuestCart | internal/application/cart/service.go:249-305 | with a budget of successful writes the store is the planned one after that many writes, and the answer is the plan's unless the budget ran out |
| MissCoalescer.OneLeaderPerKey | internal/application/cache/stampede.go:48-66 | at most one caller per key is between registering and deleting, and it is the registered one |
| MissCoalescer.ClosedExactlyOnce | internal/application/cache/stampede.go:68-82 | a done channel is never closed twice and is closed once its leader is through |
| MissCoalescer.LeaderDeletesOwnEntry | internal/application/cache/stampede.go:74-81 | the entry a leader deletes is its own |
| MissCoalescer.SharedResultIsLeaders | internal/application/cache/stampede.go:49-82 | a shared answer is the very value and error that one leader registered on arrival returned, and the leader returns the same; a panic is seen as an error without a value |
| MissCoalescer.OwnEnding | internal/application/cache/stampede.go:57-86 | whoever ran fn, as leader or after a timeout, returns with what its own fn ended with, and fn ended once |
| MissCoalescer.ArrivalsWait | internal/application/cache/stampede.go:48-60 | while a leader is registered, an arrival for its key follows it |
| MissCoalescer.CallersReturn | internal/application/cache/stampede.go:40-86 | every caller has a step of its own to make and returns after at most three of them |
| AttemptStore.LockoutKey | internal/application/auth/lockout.go:46-53 | the key is never blank |
| AttemptStore.LockoutKeyIdentifies | internal/application/auth/lockout.go:46-53 | two keys are equal exactly when trimmed client and account are, a blank client being "unknown" |
| AttemptStore.CountAfter | internal/application/auth/lockout.go:185-248 | an increment adds one and opens a window, a reset takes off what was expected if at least that much is there, nothing else changes a count, and it is gone when its window is over |
| AttemptStore.SweepIsInvisible | internal/application/auth/lockout.go:185-264 | unless a new key meets a store full of live keys, every answer of the bounded, lazily swept store is that of the unbounded, unswept expiring map |
| AttemptStore.EvictionShows | internal/application/auth/lockout.go:200-224 | that condition is exact: a call at capacity forgets a live key |
| AttemptStore.MemoryAttemptStore.EvictOne | internal/application/auth/lockout.go:266-280 | removes exactly one entry of minimal expiry |
| AttemptStore.MemoryAttemptStore.EvictExpired | internal/application/auth/lockout.go:258-264 | leaves exactly the live entries |
| AttemptStore.MemoryAttemptStore.CountFailures | internal/application/auth/lockout.go:185-198 | answers as the expiring map and stays within the bound |
| AttemptStore.MemoryAttemptStore.AddFailure | internal/application/auth/lockout.go:200-224 | counts as the expiring map, evicting only at capacity, and stays within the bound |
| AttemptStore.MemoryAttemptStore.Reset | internal/application/auth/lockout.go:226-248 | subtracts as the expiring map |
| LoginLockout.CounterBalances | internal/application/auth/service.go:622-673 | in every interleaving the counter is increments minus subtractions and never negative |
| LoginLockout.AdmittedBetween | internal/application/auth/service.go:622-638 | between any two points of a run, admissions number at most MaxFailures plus what clears subtracted between them |
| LoginLockout.AdmissionBound | internal/application/auth/service.go:622-638 | admissions number at most MaxFailures plus everything clears subtracted |
| LoginLockout.AdmissionExact | internal/application/auth/service.go:622-638 | without clears exactly the first MaxFailures attempts are admitted |
| LoginLockout.LastAttemptIsLimited | internal/application/auth/service.go:640-650 | a wrong password is answered as rate limited exactly when its attempt used up the budget |
| LoginLockout.ResetPreservesLater | internal/application/auth/lockout.go:226-248 | a reset that takes effect leaves exactly the increments since the observation if and only if no other clear took effect in between |
| LoginLockout.SecondClearErases | internal/application/auth/service.go:652-673 | two overlapping successful logins: the second clear erases two later attempts |
| LoginLockout.LockoutService.ReserveAttempt | internal/application/auth/service.go:622-638 | below capacity the slot is counted first and refused exactly beyond MaxFailures |
| LoginLockout.LockoutService.ClearBestEffort | internal/application/auth/service.go:652-673 | with nothing in between, a success leaves no live counter for its key and touches no other |
| PageQuery.EscapeRoundTrip | internal/application/cache/fpc.go:182-184 | unescaping undoes escaping on every byte string |
| PageQuery.RenderRoundTrip | internal/application/cache/fpc.go:165-187 | a rendered query parses back to the same pairs |
| PageQuery.SegmentForms | internal/application/cache/fpc.go:145-149 | a segment with a semicolon is dropped, a bare key has no value, the first equals sign separates |
| PageQuery.UnescapeForms | internal/application/cache/fpc.go:145-149 | an escape may be spelled in either case, and a plus is a space |
| PageQuery.FilterQuery | internal/application/cache/fpc.go:145-187 | the loop over a map in any order, with the sort, computes the filtered query that FilteredPairs describes |
| PageQuery.FilteredPairs | internal/application/cache/fpc.go:145-199 | the filtered query holds exactly the first pair of every key that the route reads (q, page, per_page, sort, view, category or an extra key on a listing), in key order |
| PageQuery.RepeatIgnored | internal/application/cache/fpc.go:173-184 | a later pair of a key that is there already changes nothing |
| PageQuery.FilterIdempotent | internal/application/cache/fpc.go:145-187 | filtering a filtered query changes nothing |
| PageQuery.FilterCanonical | internal/application/cache/fpc.go:145-199 | two queries filter to one string exactly when they show the same first pairs of the keys the route reads |
| PageQuery.OtherRoutesDropQuery | internal/application/cache/fpc.go:189-199 | pages outside the listings ignore the query |
| PageKeys.KeyIdentifiesPage | internal/application/cache/fpc.go:118-136 | on fields free of the separator two requests share a key exactly when they are the same page: route, path, first pairs of the keys it reads, store, language, currency, auth state and enforce flag |
| PageKeys.KeyOfFiltered | internal/application/cache/purge_url.go:175-182 | filtering before the key is built makes no difference |
| PageKeys.CollectAttrKeys | internal/application/cache/purge_url.go:72-85 | the attr_ keys of the query, sorted |
| PageKeys.QueryLanguageIs | internal/application/cache/purge_url.go:87-94 | the language asked for is the first lang of the query, trimmed, or none |
| PageKeys.RouteTable | internal/application/cache/purge_url.go:34-67 | the route of each storefront path; query, final slash and missing first slash make no difference |
| PageKeys.NeverCached | internal/application/cache/fpc.go:46-103 | carts, checkout, accounts, administration, fragments, API and setup, and anything under them, are never cacheable |
| PageKeys.PurgeableIff | internal/application/cache/purge_url.go:131-158 | a path is purged exactly when it is a storefront page, with or without a final slash |
| PageKeys.NoStorePurged | internal/application/cache/purge_url.go:158-192 | with no store configured a page is purged for one with blank id and currency |
| PageKeys.PurgeLanguages | internal/application/cache/purge_url.go:100-123 | every store language, the one asked for and "en", each once |
| PageKeys.PurgeURLKeys | internal/application/cache/purge_url.go:131-192 | distinct keys, exactly one for each store, language, auth state and enforce flag; an error exactly when the path is not cacheable |
| PageKeys.PurgeHitsStoredPage | internal/interfaces/http/storefront/full_page_cache.go:167-172 | the storefront's key for the URL is among them exactly when the page ignores its query or the URL's extra parameters are exactly its attr_ keys |
| PageKeys.Backend.PurgeURL | internal/application/cache/purge_url.go:200-253 | past failures every key reached is gone unless its own delete failed; the count is of confirmed deletions; an error exactly when something failed or the context was cancelled |
| Idempotency.ItemKeyInjective | pkg/integrationhttp/idempotency.go:222-224 | plugin and key share an item only if both are equal, as long as the plugin holds no NUL |
| Idempotency.Store.Begin | pkg/integrationhttp/idempotency.go:184-208 | answer and record are the specified ones |
| Idempotency.Store.Complete | pkg/integrationhttp/idempotency.go:210-220 | records status and body under the item's hash |
| Idempotency.HandlerRunsOnceIff | pkg/integrationhttp/idempotency.go:184-208 | over any interleaving a key's handler runs twice exactly when a request arrived at an uncompleted record older than the in-progress limit |
| Idempotency.HandlerOvertakenIff | pkg/integrationhttp/idempotency.go:184-208 | said of arrivals: a handler runs twice exactly when some arrival comes 300 seconds or more after the arrival that started the handler, which has not ended |
| Idempotency.BusyWhileRunning | pkg/integrationhttp/idempotency.go:184-208 | while the handler is at work and younger than 300 seconds an arrival is told so, and runs nothing |
| Idempotency.CompletedStays | pkg/integrationhttp/idempotency.go:210-220 | in prompt runs a completed record never changes |
| Idempotency.LaterRequestsReplay | pkg/integrationhttp/idempotency.go:79-139 | later requests get the recorded status and body when the hash matches and a conflict when it does not, and run nothing |
| Idempotency.SlowHandlerRunsTwice | pkg/integrationhttp/idempotency.go:184-220 | a slow handler is run again and its recorded response overwritten |
| Idempotency.Handle | pkg/integrationhttp/idempotency.go:63-140 | what one request answers, whether it runs the handler, and what it leaves in the store |
| Idempotency.RetryReplays | pkg/integrationhttp/idempotency.go:79-139 | sent again with the same body a request is answered from the record; with another body it conflicts |
| AttributeStore.SortKeepsMap | internal/application/admin/attributes.go:100-123 | sorting by code loses and adds nothing |
| AttributeStore.DeleteRemovesEverywhere | internal/application/admin/attributes.go:319-352 | deleting an attribute removes it from every group and takes nothing else |
| AttributeStore.AcceptedIff | internal/application/admin/attributes.go:130-469 | exactly when each operation is accepted: code, title, kind, an option for a select, no reserved code, registered references, new or existing code |
| AttributeStore.AcceptedWrites | internal/application/admin/attributes.go:267-469 | an accepted operation changes the named definition and nothing else |
| AttributeStore.RunKeeps | internal/application/admin/attributes.go:267-469 | over every run groups list only registered attributes without repeats, and every select attribute keeps a non-blank option |
| AttributeStore.Store.Create | internal/application/admin/attributes.go:267-287 | the lists stay sorted with unique codes and say what the specified operation says; a refusal or failed write changes nothing |
| AttributeStore.Store.Update | internal/application/admin/attributes.go:290-316 | the same for replacing a definition |
| AttributeStore.Store.Delete | internal/application/admin/attributes.go:319-352 | the same for a deletion, both lists in one write |
| AttributeStore.Store.AddGroup | internal/application/admin/attributes.go:382-412 | the same for a new group |
| AttributeStore.Store.ReplaceGroup | internal/application/admin/attributes.go:415-448 | the same for replacing a group |
| AttributeStore.Store.RemoveGroup | internal/application/admin/attributes.go:451-469 | the same for removing a group |
| AttributeStore.Store.ReferencesKnown | internal/application/admin/attributes.go:203-214 | accepts exactly the lists of registered codes |
| AttributeStore.Store.NormalizeCodes | internal/application/admin/attributes.go:162-183 | the trimmed non-blank codes in the order of first mention |
| CatalogComposition.BundlesStayCapped | internal/application/catalog/bundle_service.go:180-198 | over every interleaving no bundle has more than 50 required components |
| CatalogComposition.LastFileStays | internal/application/catalog/downloadable_file_service.go:446-516 | once it has a file, an active downloadable product never reaches zero files |
| CatalogComposition.ReplaceIsAlone | internal/application/catalog/downloadable_file_service.go:248-429 | a replacement swaps exactly its two assets on its own product, and without GlobalRetarget commits only while no other product attaches the old asset |
| CatalogComposition.CompositionFits | internal/application/catalog/downloadable_file_service.go:200-235 | over every interleaving only private assets are attached, to downloadable products, and bundles hold only leaves, required ones without a linked parent |
| CatalogComposition.CommitDoes | internal/application/catalog/downloadable_file_service.go:163-516 | a commit does what was asked on the named rows and nothing else |
| CatalogComposition.CheckIff | internal/application/catalog/bundle_service.go:84-149 | a check under the locks passes exactly for what is admissible, said of products, assets and rows; otherwise the transaction ends without a write |
| CatalogComposition.UnlinkRemoves | internal/application/catalog/bundle_service.go:155-175 | removing a component removes that one and nothing else |
| CatalogComposition.StaysFresh | internal/application/catalog/downloadable_file_service.go:321-345 | a commit leaves the checks of every other checked transaction valid, because they share no locked row |
| CatalogComposition.UnlinkStaysFresh | internal/application/catalog/bundle_service.go:155-175 | removing a component without a lock invalidates no check |
| CatalogComposition.WorkAscendsIff | internal/application/catalog/grouped_service.go:101-114 | a transaction asks for its locks in ascending order exactly when the spellings of a pair sorted as spelled come in row order, as canonical ones do |
| CatalogComposition.CatalogMakesProgress | internal/application/catalog/grouped_service.go:101-114 | no set of catalog transactions whose locks ascend deadlocks |
| CatalogComposition.CanonicalMakesProgress | internal/application/catalog/grouped_service.go:101-114 | in particular none with canonical product ids |
| CatalogComposition.DisagreementDeadlocks | internal/application/catalog/bundle_service.go:112-125 | any other addition, begun beside the same one in canonical spelling, reaches a state in which neither can make a step |
| CatalogComposition.Services.AttachFile | internal/application/catalog/downloadable_file_service.go:163-235 | attaches exactly when the transition allows it, else changes nothing |
| CatalogComposition.Services.ReplaceFile | internal/application/catalog/downloadable_file_service.go:248-429 | the same for a replacement, as an upsert followed by a removal; an asset replaced by itself is attached again if it was on the product |
| CatalogComposition.Services.RemoveFile | internal/application/catalog/downloadable_file_service.go:446-516 | the same for a removal |
| CatalogComposition.Services.CountRequired | internal/application/catalog/bundle_service.go:180-191 | the loop counts the required rows |
| CatalogComposition.Services.AddBundleComponent | internal/application/catalog/bundle_service.go:84-149 | writes, counts, and rolls back exactly when the cap or another check refuses |
| CatalogComposition.Services.RemoveBundleComponent | internal/application/catalog/bundle_service.go:155-175 | removes exactly the named component, without a lock |

## Left out

- AdminAssign: its order facts, force flag and linked-parent requirement only narrow which binds start; the protocol allows every bind that its locks and recheck allow.
- The non-transactional fallback of runAssignedWrite, which the code reserves for unit tests.
- Eligibility inside the concurrent protocol: a begin step may carry any units, so its theorems hold for fewer as well.
- The returns service beyond a return's units and status: quantities, mail, events, download grants.
- IsEligible: reads one set of (child, parent) pairs; explicit and category rules are not told apart.
- ListOwnedParents: requires ids as the schema stores them (lower-case order UUIDs, trimmed non-blank variant and component ids).
- AssignOwned: requires that stored row ids are UUIDs, the type of their column.
- ClaimGuestCart: leaves out the optimistic Version counter, timestamps, cart hooks and a currency on each line (lines carry the cart's currency). A failed lookup, coupon read or price run stops a claim where a failed write at that point would. Prices, purchasability and coupon eligibility are uninterpreted.
- AddItem, quantity changes and coupons outside a claim only repeat its cases.
- CallersReturn: assumes that fn ends; timeouts may fire at any moment. Do appears as the interleaved steps of its callers, because its behaviour is the interleaving.
- AddFailure: requires a key that is not blank, which LockoutKey guarantees; a blank oldest key could not be evicted.
- AdmissionBound: leaves out expiry, eviction and store failures (the code then admits without a slot).
- The cache-backed attempt store, MFA and tokens.
- PurgeURLKeys: starts from the path and raw query that url.Parse yields.
- Metrics, observers, page tags and TTLs of the page cache.
- Handle: leaves out reading and hashing the body and the replay headers; the Postgres store is not modelled.
- List filters and discovery flags of attributes, which no operation looks at.
- Positions, labels and grant retargeting of downloadable files; membership rows of groups and eligibility rules, of which only the locks matter to the others.
- ReplaceFile: reports a missing old asset and a missing new one alike, and takes grant retargeting to succeed.
- Codecs, HTTP, logging, audit, cryptography and SQL.

# PrintForge: a verified model

PrintForge is a multi-tenant shop. Its correctness rests on compare-and-set updates, row locks, unique
indexes and idempotent loops. This project models the transactions by which payments, checkouts,
reviews, invoices, domains, subscriptions, billing events and refresh tokens share rows with other
writers; the backfill scripts; the category tree; and the seed script's CRC and word wrap. It proves
what they keep over every run.

How the model reads the code:

- Every transaction is a function on a snapshot of the tables (`Commit(db, value)` or
  `Rollback(reason)`), and a method of a class performs it in place, statement by statement, with its
  rollbacks; the method's contract equates the two, for the whole state.
- Concurrent calls are a state machine over steps. Payments, domains, subscriptions and invoices step
  from transaction to transaction, with stale local copies and external calls in between. Checkout and
  reviews, where the locks are the point, step from statement to statement under READ COMMITTED: a
  transaction's own writes become visible at its commit, and until then it only holds locks.
- The outside world (provider answers, DNS, clocks, passwords, signatures, settings, the row an
  unordered query returns) is an arbitrary parameter of each step. A Razorpay payment belongs to one
  Razorpay order, and an order id carries the account that created it.
- The `Outcomes` modules and `PaymentCalls` say what each operation comes to on the columns of the
  tables, apart from the functions that compute it: when it is refused, and every row afterwards.

| files | what |
|---|---|
| `OrderLifecycle`, `Payments`, `PaymentInvariants`, `PaymentProtocol`, `PaymentTheorems`, `PaymentOutcomes`, `PaymentCalls` | payment capture across all writers |
| `CategoryGraph`, `CategoryTree` | the category tree over unchecked parent links |
| `Checkout`, `CheckoutOutcomes`, `CheckoutProtocol`, `CheckoutTheorems` | the checkout transaction and the coupon ledger |
| `Reviews`, `ReviewOutcomes`, `ReviewProtocol` | denormalised product ratings |
| `Backfill`, `BackfillScripts`, `BackfillOutcomes`, `CounterSeeding` | the W4 and W6 ownership backfills, and W4's counters |
| `InvoiceNumbers`, `Invoices`, `InvoiceOutcomes` | printed counters, their validation, gap-free invoices |
| `PlatformHostnames`, `DomainRows`, `DomainBackfill`, `DomainBackfillOutcomes` | the store-domain backfill and its reconciliation |
| `StoreDomains`, `StoreDomainProtocol`, `StoreDomainOutcomes` | merchant domain management |
| `Subscriptions`, `SubscriptionOutcomes`, `SubscriptionProtocol` | provider-first subscription changes |
| `BillingWebhooks`, `BillingOutcomes` | the billing webhook poller |
| `RefreshTokens`, `RefreshProtocol`, `SessionOutcomes` | refresh-token rotation, call by call and overlapping |
| `Crc32`, `WordWrap` | the seed script's CRC and word wrap |

Where the code does not do what it says, the code is modelled and the difference is a lemma:

- verifyPayment inserts ORDER_PAID even when its status compare-and-set lost
  (`PaidEventWithoutPaid`, exactly: `VerifyAnnouncesExactly`), and such an order stays unpaid
  (`CapturedUnpaidIsStuck`).
- The event key for PAYMENT_FAILED is unique per order, so a retried order can never fail or expire
  again (`FailsAtMostOnce`, exactly: `FailStaleExactly` and, for a webhook, `FailedDeliveryExactly`).
- reconcileCapturedPayment cannot recover a payment whose id was noted on an older attempt than a newer
  open one: it picks the newer one, and the unique index rolls it back every time (exactly:
  `ReconcileExactly`).
- The W4 backfill says it never overwrites a non-null value, but overwrites a storeId beside a NULL
  tenantId (exactly: `W4OverwritesStoreIff`, and `W4CouponUsageStore` for coupon_usages).
- Two invoice prefixes can print the same number (exactly: `CollisionIff` for the prefixes,
  `CollidesExactly` for the values), which is what makes a request fail (exactly: `CanFailIff`), and a
  taken number stops the tenant's invoicing while the prefix stays (`TakenNumberBlocks`).
- The store-domain backfill skips a store that has a platform row but no primary (exactly: `PassesIff`),
  and throws where a store's own custom row holds its derived hostname (exactly: `ThrowsIff`). Its
  classifier speaks of one level under the platform's domain but accepts any (`UnderPlatformExactly`).
- remove promises never to leave a store without a primary domain, but its plan can be overtaken by
  setPrimary (`RaceLeavesNoPrimary`, exactly: `RemovalLeavesNoPrimaryIff`).
- The billing poller's retry budget does not cover runs that fail before the row is read
  (`UnreadRowsNeverSettle`, exactly: `SettledWhateverHappensIff`).
- refresh rotates a row by its id without looking at it again, so overlapping refreshes can leave one
  login with two live tokens (`OverlapForks`, exactly: `OneLiveIff`).

## Model

| member | source | states |
|---|---|---|
| PaymentTheorems.CaptureIsForeverAndUnique | backend/src/payments/payments.service.ts:438-510 | Over every interleaving of initiations, verifications, webhooks, reconciliation, stale-failing and the order desk: a CAPTURED attempt keeps its whole row (payment id included) for ever, and no other attempt of its order is CAPTURED, then or later |
| PaymentTheorems.PaidAtMostOnce | backend/src/payments/payments.service.ts:996-1072 | Whoever moves it, an order enters PAID at most once, exactly when it is past payment; every PAID row of the payment flow comes with its unique ORDER_PAID event and a captured attempt |
| PaymentTheorems.AnnouncedIsCaptured | backend/src/payments/payments.service.ts:438-510 | In every reachable state an announced ORDER_PAID belongs to an order that has a captured attempt |
| PaymentTheorems.InitiationsAgree | backend/src/payments/payments.service.ts:197-315 | Any two finished initiations of one order, however they raced and whatever account each resolved, end with the same account and Razorpay order, created by that account; both their attempts and the order row carry them, for ever |
| PaymentTheorems.HistoryIsConserved | backend/src/payments/payments.service.ts:1384-1418 | For every order and status, history rows in minus rows out is 1 for the current status and 0 for every other (a retry's moved-but-unwritten row counted in), under all writers, and every row is an allowed transition |
| PaymentTheorems.FailsAtMostOnce | backend/src/payments/payments.service.ts:1324-1374 | The unique key ORDER_STATUS_CHANGED:<id>:PAYMENT_FAILED means an order enters PAYMENT_FAILED at most once in its life, whatever retries follow |
| PaymentTheorems.FailStaleExactly | backend/src/payments/payments.service.ts:1324-1374 | failStalePendingOrder has an effect exactly on a pending order without a capture that never failed before; a retried order is never failed again, against the method's own description |
| PaymentTheorems.FailedDeliveryExactly | backend/src/payments/payments.service.ts:1115-1152 | A payment.failed delivery for a known order whose payment has not ended takes effect exactly on a pending order that never failed before; on a retried order it rolls back whole (the attempt's FAILED mark included) on the unique event key, and on an order that is not pending it throws |
| PaymentTheorems.VerifyAnnouncesExactly | backend/src/payments/payments.service.ts:438-510 | A verify transaction that captures always announces ORDER_PAID, but moves the order to PAID exactly when nobody changed the status since the call read it |
| PaymentTheorems.PaidEventWithoutPaid | backend/src/payments/payments.service.ts:478-487 | For any Razorpay order and total, a run from the empty shop (an order, two checkout widgets, a verification overtaken by the other widget's payment.failed) ends with ORDER_PAID announced and the money captured while the order is PAYMENT_FAILED |
| PaymentTheorems.CapturedUnpaidIsStuck | backend/src/payments/payments.service.ts:996-1072 | From any reachable state, an order that is captured but not PAID is never moved to PAID by a later payment step |
| PaymentTheorems.RunPays | backend/src/payments/payments.service.ts:438-510 | Over any run, the payment flow moves to PAID only orders that had no capture when the run began |
| PaymentOutcomes.CapturedDeliveryExactly | backend/src/payments/payments.service.ts:996-1072 | A payment.captured delivery for a known order: rolled back on another sum or when another payment of the order was captured; without effect when repeated; otherwise the payment is captured on one attempt, and a pending order (and only that) becomes PAID with one history row and its ORDER_PAID event |
| PaymentOutcomes.DeliveryAttempt | backend/src/payments/payments.service.ts:724-763 | Which attempt a delivery is about: the one with the payment id, else the newest open one of the order, which gets that id, else a new one; finding it never fails |
| PaymentOutcomes.DeliveryIgnored | backend/src/payments/payments.service.ts:691-822 | Other events, unknown Razorpay orders, and accounts that are not the order's or no longer resolve are acknowledged without effect |
| PaymentOutcomes.VerifyExactly | backend/src/payments/payments.service.ts:438-510 | verifyPayment's transaction from a stale copy: when it commits, rolls back or throws, and the attempt, order, history and outbox afterwards |
| PaymentOutcomes.ReconcileExactly | backend/src/payments/payments.service.ts:1181-1308 | reconcileCapturedPayment: MISMATCH, ALREADY_TERMINAL or PAID exactly when; PAID means captured, PAID and announced, and it rolls back exactly when the payment id sits on an older attempt than the newest open one |
| PaymentOutcomes.FailStaleOutcome | backend/src/payments/payments.service.ts:1324-1374 | Where failStalePendingOrder has an effect: the order fails with its row and event, exactly its open attempts are abandoned, nothing else changes |
| PaymentOutcomes.DeskExactly | backend/src/orders/orders.service.ts:489-540 | A desk transition: refused, lost, rolled back on its event key, or status, row and event together |
| PaymentCalls.InitiatesExactly | backend/src/payments/payments.service.ts:146-330 | A whole initiation that runs alone: refused to anybody but the owner of a pending or failed order; a failed one goes back to pending with its row; the account is bound, the Razorpay order kept or created, one open attempt added |
| PaymentCalls.VerifiesExactly | backend/src/payments/payments.service.ts:372-510 | A whole verification that runs alone pays the order exactly when its owner confirms it with a valid signature, it is pending, neither it nor the payment is captured, and it has an attempt for it; otherwise nothing changes |
| PaymentCalls.ReconcilesExactly | backend/src/payments/payment-reconciliation.service.ts:141-215 | A whole reconciliation that runs alone: a captured payment the provider reports is reconciled, an order it reports none for is failed as stale, and without an answer nothing changes |
| PaymentCalls.CallsRunAlone | backend/src/payments/payments.service.ts:146-510 | In any reachable state any of these calls can begin, and run with nothing in between it does to the tables what the three lemmas above say |
| PaymentProtocol.StepInv | backend/src/payments/payments.service.ts:144-330 | Every step of every call keeps the table invariant, the history balance and what each call may believe about rows it read earlier |
| PaymentProtocol.RunGrows | backend/src/payments/payments.service.ts:694-775 | Over any run: set-once account and Razorpay order id stay, captured attempts stay, an order past payment never becomes unpaid, history and outbox only grow |
| PaymentInvariants.VerifyKeeps | backend/src/payments/payments.service.ts:438-510 | verifyPayment's transaction, committed or rolled back, from a stale copy of the order, keeps all of the above |
| PaymentInvariants.WebhookKeeps | backend/src/payments/payments.service.ts:694-1155 | So does any webhook delivery, global or per merchant, captured or failed, whose payment belongs to its Razorpay order |
| PaymentInvariants.ReconcileKeeps | backend/src/payments/payments.service.ts:1181-1308 | So does reconcileCapturedPayment |
| PaymentInvariants.FailStaleKeeps | backend/src/payments/payments.service.ts:1324-1374 | So does failStalePendingOrder, which abandons the open attempts |
| PaymentInvariants.DeskKeeps | backend/src/orders/orders.service.ts:489-540 | So does a customer or administrator transition |
| Payments.PaymentStore.VerifyInTransaction | backend/src/payments/payments.service.ts:438-510 | The transaction in place: its result and the whole database afterwards, with every rollback |
| Payments.PaymentStore.ApplyWebhookEvent | backend/src/payments/payments.service.ts:694-1155 | Both webhook entry points in place, with attempt look-up or creation, capture or failure, transition and event, all or nothing |
| Payments.PaymentStore.FindOrCreate | backend/src/payments/payments.service.ts:724-763 | The attempt is the one with this payment id, else the newest open one of the Razorpay order (stamped), else a new row, under the two unique indexes |
| Payments.PaymentStore.ReconcileCapturedPayment | backend/src/payments/payments.service.ts:1181-1308 | reconcileCapturedPayment in place, with its three outcomes and rollbacks |
| Payments.PaymentStore.FailStalePendingOrder | backend/src/payments/payments.service.ts:1324-1374 | failStalePendingOrder in place, with its rollback when the event key is taken |
| Payments.PaymentStore.TransitionOrderWithHistory | backend/src/orders/orders.service.ts:489-540 | The desk transition in place: compare-and-set, history row and event together or not at all |
| Payments.PaymentStore.Transition | backend/src/payments/payments.service.ts:1384-1418 | The compare-and-set with its history row; an illegal transition throws, a lost race changes nothing |
| Payments.PaymentStore.BindPaymentAccount | backend/src/payments/payments.service.ts:197-246 | The account is set only while it is NULL |
| Payments.PaymentStore.AssociateProviderOrder | backend/src/payments/payments.service.ts:283-297 | The Razorpay order id is set only while it is NULL and nobody else has it |
| Payments.PaymentStore.FindLatest | backend/src/payments/payments.service.ts:724-763 | The search from the newest row returns the newest attempt the query selects |
| CategoryTree.ShownIffWay | backend/src/products/products.service.ts:260-306 | The returned forest contains exactly the ways down from a root of the link graph, for every table of categories, cyclic or not |
| CategoryGraph.WayIffGrounded | backend/src/products/products.service.ts:285-297 | A category has a way down to it exactly when its parent chain ends or leaves the active set |
| CategoryGraph.GroundedIffNoCycleAbove | backend/src/products/products.service.ts:132-146 | A parent chain fails to end exactly when the category is on or below a cycle (which updateCategory lets be made) |
| CategoryGraph.WayIsUnique | backend/src/products/products.service.ts:283-297 | There is never a second way down to a category: it appears once, under its own parent |
| CategoryGraph.RootsAreShallow | backend/src/products/products.service.ts:299-305 | No category is as many levels below a root as there are categories, which is why sortRecursive ends on every input |
| CategoryTree.ShownListsAreSorted | backend/src/products/products.service.ts:299-305 | Every sibling list shown is sorted by name, lists no node twice, and keeps equal names in query order |
| CategoryTree.SiblingsByNameThenRow | backend/src/products/products.service.ts:299-305 | On the rows: of two siblings shown in one list the earlier one has the smaller name, or an equal one and the earlier row |
| CategoryTree.GetCategoryTree | backend/src/products/products.service.ts:260-306 | The two passes over mutable nodes and the in-place recursive sort end; a category is in the list of the row that its parentCategoryId names, in no other list, and among the roots exactly if it names none; lists are sorted exactly where the forest reaches |
| CategoryTree.LinkNodes | backend/src/products/products.service.ts:283-297 | The second pass leaves every children list and the roots as the kids of that parent in query order |
| CategoryTree.SortDescendants | backend/src/products/products.service.ts:299-305 | The recursive sort sorts the lists of everything at or below the given nodes and touches no other list |
| CheckoutTheorems.KeyNamesOneOrder | backend/src/checkout/checkout.service.ts:145-213 | Over every statement-by-statement interleaving of checkouts, cart edits and coupon edits: a committed key names one order for ever, only that order carries it, and every order is named by its own key |
| CheckoutTheorems.RepliesAgree | backend/src/checkout/checkout.service.ts:145-213 | All replies to one key, now or later, name one order and go to one user, and at most one says it created it |
| CheckoutTheorems.NoItemOrderedTwice | backend/src/checkout/checkout.service.ts:399-449 | No cart item becomes lines of two orders or two lines of one, even for different keys on the same cart |
| CheckoutTheorems.CouponLedger | backend/src/coupons/coupons.service.ts:364-437 | A coupon's usedCount equals its usage rows and the orders that carry it, never exceeds usageLimitTotal, and no user exceeds usageLimitPerUser |
| CheckoutTheorems.FirstOrderOnly | backend/src/coupons/coupons.service.ts:503-531 | An order that used a firstOrderOnly coupon is its user's first |
| CheckoutTheorems.BillsAddUp | backend/src/checkout/pricing/pricing.service.ts:50-65 | Every order ever placed has the sum of its lines as subtotal, and as total that less the discount of its coupon's terms (none without a coupon), plus shipping and tax |
| CheckoutOutcomes.CheckoutExactly | backend/src/checkout/checkout.service.ts:145-450 | A checkout that runs alone: when it is refused, when it answers for an earlier order, and every row a new order writes: lines, bill, key, emptied cart, usage and counter |
| CheckoutOutcomes.BillIsRead | backend/src/coupons/coupons.service.ts:538-565 | How the bill reads: lines added up, a percentage rounded towards zero, a flat amount capped at the total in scope, free shipping without discount, tax added only when exclusive and applied |
| CheckoutOutcomes.AcceptsIff | backend/src/coupons/coupons.service.ts:364-531 | A coupon is accepted exactly when it is active, in its dates, in scope, over its minimum, and within its first-order, per-user and total limits |
| CheckoutTheorems.NoDeadlock | backend/src/checkout/checkout.service.ts:156-160 | Cart, key and coupon are locked in one order: while some checkout is not over, one of them can go on |
| CheckoutTheorems.StepsCount | backend/src/checkout/checkout.service.ts:156-450 | A statement that need not wait brings its checkout nearer to its end and touches no other |
| CheckoutTheorems.CheckoutRuns | backend/src/checkout/checkout.service.ts:145-450 | In any reachable state where no other checkout is inside its transaction, a request from its beginning to its end has exactly the outcome of the transaction, and a known key is answered to its own user only |
| CheckoutTheorems.SoloIsAlone | backend/src/checkout/checkout.service.ts:156-450 | The statements of a checkout that nobody interrupts add up to the transaction that the in-place method performs |
| CheckoutProtocol.CommitSpares | backend/src/checkout/checkout.service.ts:156-160 | The cart lock, the key and the coupon row lock are what keeps every other checkout's beliefs true across a commit |
| CheckoutProtocol.StepInv | backend/src/checkout/checkout.service.ts:156-450 | Every statement, commit, abort and edit keeps the table invariants and the exclusion of the three locks |
| Checkout.CheckoutStore.Checkout | backend/src/checkout/checkout.service.ts:156-450 | The whole transaction in place: claim, replay or refusal, pricing, coupon, order, usage row, cleared cart, with every rollback |
| Checkout.CheckoutStore.ValidateAndClaim | backend/src/coupons/coupons.service.ts:364-531 | Succeeds exactly when every coupon rule and the usage limit allow it, and then adds one to usedCount and nothing else |
| Checkout.CheckoutStore.ClaimKey | backend/src/checkout/idempotency/idempotency.service.ts:38-59 | INSERT ... ON CONFLICT DO NOTHING: claims exactly an unknown key |
| Checkout.DiscountStaysInScope | backend/src/coupons/coupons.service.ts:538-565 | With fair prices and a sensible coupon the discount is between zero and the scoped subtotal, so the total is at least shipping plus tax |
| Checkout.ScopedTotal | backend/src/coupons/coupons.service.ts:480-493 | The loop sums the line totals in the coupon's scope |
| Checkout.PriceItem | backend/src/checkout/checkout.service.ts:608-627 | The surcharge loop gives (base + variant + surcharges) times quantity |
| ReviewProtocol.RatingsAgree | backend/src/reviews/reviews.service.ts:42-177 | In every interleaving of create, update, remove and moderate at statement level, each committed state stores for each product the number of its rows that are PUBLISHED and the rounded mean of their ratings, none without any, and there is one review per author |
| ReviewOutcomes.AggregateSummarises | backend/src/reviews/reviews.service.ts:255-277 | The aggregate is the number of rows that are PUBLISHED reviews of the product and the rounded mean of their ratings, none without any |
| ReviewOutcomes.CreateExactly | backend/src/reviews/reviews.service.ts:42-84 | Creating: refused without a delivered order or product, unique per product and author; else one published row, and the product summarised anew |
| ReviewOutcomes.UpdateExactly | backend/src/reviews/reviews.service.ts:88-108 | Updating: its author only; the rating if given, and the product summarised anew |
| ReviewOutcomes.RemoveExactly | backend/src/reviews/reviews.service.ts:118-133 | Removing: its author only; the row stays as REMOVED and no longer counts |
| ReviewOutcomes.ModerateExactly | backend/src/reviews/reviews.service.ts:138-177 | Moderating: within the tenant only; the status given, and the product summarised anew |
| ReviewProtocol.NoDeadlock | backend/src/reviews/reviews.service.ts:255-277 | Rows are locked before products: while some call is not over, one of them can go on |
| ReviewProtocol.OperationRuns | backend/src/reviews/reviews.service.ts:42-177 | In any reachable state where no other call holds a row, a call from its beginning to its end has exactly the outcome of the transaction |
| ReviewProtocol.CommitSpares | backend/src/reviews/reviews.service.ts:255-277 | The product lock taken before the aggregate is what keeps a computed aggregate right until its commit |
| ReviewProtocol.WritesCommute | backend/src/reviews/reviews.service.ts:255-277 | Two review writes of different rows commute: each can still be made after the other, and for every product the aggregate is the same in both orders |
| ReviewProtocol.StepInv | backend/src/reviews/reviews.service.ts:42-177 | Every statement keeps the agreement, the lock exclusion and every pending aggregate |
| ReviewProtocol.SoloIsAlone | backend/src/reviews/reviews.service.ts:42-177 | An uninterrupted call performs exactly the transaction of the in-place methods |
| Reviews.ReviewStore.RecomputeProductRating | backend/src/reviews/reviews.service.ts:255-277 | The stored columns become the aggregate over the published reviews, by a loop |
| Reviews.ReviewStore.CreateReview | backend/src/reviews/reviews.service.ts:42-84 | Refused without a delivered order or for a second review; otherwise one published row and the recomputed product |
| Reviews.ReviewStore.UpdateReview | backend/src/reviews/reviews.service.ts:88-108 | Only the author, only the rating given; then the product is recomputed |
| Reviews.ReviewStore.RemoveReview | backend/src/reviews/reviews.service.ts:118-133 | Only the author; the row becomes REMOVED, never deleted |
| Reviews.ReviewStore.AdminUpdateStatus | backend/src/reviews/reviews.service.ts:138-177 | Only within the tenant; any status to any status |
| Reviews.ReplaceReview | backend/src/reviews/reviews.service.ts:261-265 | Changing one row moves count and total by exactly that row's contribution |
| BackfillScripts.ScriptsAreResumable | backend/prisma/backfill/w4-backfill.ts:544-666 | For the UPDATE steps of W4 and for W6: committing any prefixes of the steps, any number of times, and then running all gives the tables of one uninterrupted run; a further run changes nothing and affects zero rows in every step |
| CounterSeeding.W4IsResumable | backend/prisma/backfill/w4-backfill.ts:598-666 | The whole W4 script, counter seeding included: however often it was stopped after any committed step, a complete run ends in the tables and counters of one uninterrupted run, and a further one changes nothing |
| CounterSeeding.SeedsExactly | backend/prisma/backfill/w4-backfill.ts:480-540 | A tenant's missing counter appears exactly when validation passes, with the old global value, so that no number printed for a later value repeats an issued one; existing counters and other tenants' are never touched |
| InvoiceOutcomes.SeedsBothCounters | backend/prisma/backfill/w4-backfill.ts:480-540 | Each of the two missing counters of the tenant appears exactly when every number issued under it can be read and the old counter is the largest, orders and invoices each from their own |
| CounterSeeding.CounterTable.SeedTenantCounters | backend/prisma/backfill/w4-backfill.ts:488-540 | The loop over the two counters in place: PASS exactly when the old counter is the maximum of the well-formed numbers, and one row inserted exactly on a PASS without an existing row |
| BackfillScripts.ScriptsOverwriteNothing | backend/prisma/backfill/w4-backfill.ts:146-256 | No non-null tenantId or customerId is overwritten by W4, no non-null storeId by W6 |
| BackfillScripts.W4OverwritesStoreIff | backend/prisma/backfill/w4-backfill.ts:146-158 | W4 does overwrite a non-null storeId in a directly assigned table, exactly when the row's tenantId is NULL and the storeId is another store's, against the header's claim |
| BackfillScripts.W4CouponUsageStore | backend/prisma/backfill/w4-backfill.ts:181-197 | In coupon_usages a row without a tenantId whose order exists ends with the order's final storeId, NULL included, whatever it had; any other row keeps its own |
| BackfillScripts.W4Completes | backend/prisma/backfill/w4-backfill.ts:544-594 | On one tenant's data with its mandatory references, every row ends with that tenant, and an outbox event exactly when it had it or belongs to an existing order |
| BackfillScripts.W6CompleteIff | backend/prisma/backfill/w6-storeid-backfill.ts:80-153 | W6's completeness check passes for a table exactly when every row without a storeId refers to a parent that ends with one |
| BackfillOutcomes.W4Customers | backend/prisma/backfill/w4-backfill.ts:209-256 | customerId after W4 in each of the seven tables with users: the row's own, else its user's customer, else none; every other table keeps it |
| BackfillOutcomes.W4Tenants | backend/prisma/backfill/w4-backfill.ts:544-594 | tenantId after W4, table by table: the row's own, else the constant or the tenant of the named parent row; keys without an order the constant, events only of orders |
| BackfillOutcomes.W4Stores | backend/prisma/backfill/w4-backfill.ts:146-158 | storeId after W4: the six tables assigned with their tenant, coupon_usages apart, and no other |
| BackfillOutcomes.W6Stores | backend/prisma/backfill/w6-storeid-backfill.ts:63-138 | storeId after W6 in each of the six tables: the row's own, else that of the named parent row; nothing else changes |
| BackfillOutcomes.AffectedCountsFilled | backend/prisma/backfill/w4-backfill.ts:146-256 | A step's reported count is the number of rows whose guarded column was NULL before it and is not after |
| BackfillScripts.W4IsWellOrdered | backend/prisma/backfill/w4-backfill.ts:544-594 | In the listed order no step writes what an earlier step copies from |
| BackfillScripts.W6IsWellOrdered | backend/prisma/backfill/w6-storeid-backfill.ts:63-70 | The same for COPY_STORE_SPECS |
| Backfill.InterruptionsDoNotMatter | backend/prisma/backfill/w4-backfill.ts:623-666 | For every well-ordered list of steps: interruptions, however many, do not change where a complete run ends |
| Backfill.RunSettles | backend/prisma/backfill/w4-backfill.ts:544-594 | One pass of a well-ordered list reaches a state where no step can fill another row |
| Backfill.FinalValue | backend/prisma/backfill/w4-backfill.ts:161-256 | The final tables in closed form: each value is the row's own or what the first step with something to offer takes from the final tables |
| Backfill.NeverOverwritten | backend/prisma/backfill/w4-backfill.ts:146-256 | A guarded column, once filled, keeps its value over any run |
| Backfill.Database.RunAllSteps | backend/prisma/backfill/w6-storeid-backfill.ts:128-138 | The loop over the steps, in place, leaves the folded tables and reports each step's affected rows |
| InvoiceNumbers.ParsePrinted | backend/prisma/backfill/w4-backfill.ts:376-380 | Parsing the trailing digits of a printed number gives at least the counter value, and exactly it iff the prefix ends in no digits or only zeros |
| InvoiceNumbers.TrailingIsLongest | backend/prisma/backfill/w4-backfill.ts:376-380 | The parsed run is a suffix of digits that cannot be extended |
| InvoiceNumbers.ValidateCounterAgainstMax | backend/prisma/backfill/w4-backfill.ts:429-473 | Each status exactly when its condition holds; PASS means the counter is the maximum of all issued numbers |
| InvoiceNumbers.SeededNumbersAreNew | backend/prisma/backfill/w4-backfill.ts:488-537 | After a PASS, a number printed for any later value under any prefix is none of those already issued |
| InvoiceNumbers.SamePrefixDistinct | backend/src/invoices/invoice-number.service.ts:36-48 | Under one prefix two values print alike exactly when they are equal |
| InvoiceOutcomes.PrintedIsDecimal | backend/src/invoices/invoice-number.service.ts:36-48 | Behind the prefix stand the decimal digits of the value, at least six, more only without a leading zero |
| InvoiceOutcomes.ParsedIsLast | backend/prisma/backfill/w4-backfill.ts:376-380 | What is read back is the decimal value of the longest run of final digits, and nothing without one |
| InvoiceNumbers.CollisionIff | backend/src/invoices/invoice-number.service.ts:36-48 | Two prefixes can print one number for different values exactly when one is the other followed by a number (digits, the first not a zero) |
| InvoiceNumbers.CollidesExactly | backend/src/invoices/invoice-number.service.ts:36-48 | Which values then collide: behind such a prefix every value collides with exactly one larger value of the shorter prefix, the one whose digits are the number followed by the padded value |
| InvoiceNumbers.PrefixesMeet | backend/src/invoices/invoice-number.service.ts:36-48 | With one digit more, a prefix meets the shorter one a million or more later, for every six-digit value |
| Invoices.GapFree | backend/src/invoices/invoices.service.ts:124-165 | However requests race and roll back, a tenant's committed invoices consumed consecutive counter values, without gap or repetition |
| Invoices.AnswersAgree | backend/src/invoices/invoices.service.ts:73-165 | All requests for an order that are answered, now or later, get the one invoice of that order |
| Invoices.NeverStuck | backend/src/invoices/invoices.service.ts:109-165 | From a table bounded by the tenant's counter, as long as none of the prefixes the tenant's requests read is another of them followed by a number, no request for one of its invoices fails, however requests race |
| Invoices.CanFailIff | backend/src/invoices/invoices.service.ts:109-165 | Exactly: some run of a tenant reading only the given prefixes ends with a failed request if and only if one of them is another followed by a number |
| Invoices.ApartWhen | backend/src/invoices/invoices.service.ts:115-121 | A single prefix, whatever it ends in, or prefixes that do not end in digits, meet that condition |
| Invoices.TakenNumberBlocks | backend/src/invoices/invoices.service.ts:124-165 | Once the next number is taken, the counter rolls back with every refused insert: while the prefix stays no further invoice of the tenant is created |
| Invoices.SeedBounds | backend/prisma/backfill/w4-backfill.ts:488-537 | A PASS seed of a tenant without a counter gives the bound that NeverStuck and CanFailIff start from |
| InvoiceOutcomes.CreateExactly | backend/src/invoices/invoices.service.ts:124-152 | Creation is refused exactly when the order has an invoice or the tenant the next number; otherwise the counter goes up by one and the invoice printed with it is the only new row |
| InvoiceOutcomes.RequestExactly | backend/src/invoices/invoices.service.ts:73-165 | A whole request that runs alone: the invoice that exists, a refusal of an order that is not invoiceable, a new invoice, or a failure for a taken number |
| Invoices.InvoiceStore.CreateInvoice | backend/src/invoices/invoices.service.ts:124-152 | Bump and insert commit together or leave nothing |
| Invoices.InvoiceStore.GetInvoiceForOrder | backend/src/invoices/invoices.service.ts:73-165 | From a possibly outdated read: the invoice seen, a refusal, a new invoice, the invoice that beat it, or the error |
| Invoices.InvoiceStore.Allocate | backend/src/invoices/invoice-number.service.ts:36-48 | The counter goes up by one, from one, and its padded value is printed behind the prefix |
| DomainBackfill.PassesIff | backend/prisma/backfill/phase9-w2-store-domain-backfill.ts:438-539 | A run that completes without anomalies passes all five verdicts exactly when no other store already had a platform row without having a primary |
| DomainBackfill.WriterMeetsChecker | backend/prisma/backfill/phase9-w2-store-domain-backfill.ts:438-539 | It passes them whenever every store that owns a domain has a primary and the named tenant has one store |
| DomainBackfill.SecondRunAffectsNothing | backend/prisma/backfill/phase9-w2-store-domain-backfill.ts:163-434 | After any completed run, with or without anomalies, a second run changes nothing |
| DomainBackfill.ThrowsIff | backend/prisma/backfill/phase9-w2-store-domain-backfill.ts:207-269 | The script throws exactly when, after B-1, some store has no platform row while one of its own rows holds the hostname it is to get |
| DomainBackfill.RestartsDoNotMatter | backend/prisma/backfill/phase9-w2-store-domain-backfill.ts:586-597 | Stopping after any of the four committed steps and starting over ends in the tables of one complete run, thrown clashes included: then only B-1 stays, and every further run throws again and changes nothing |
| DomainBackfillOutcomes.UnderPlatformExactly | backend/prisma/backfill/phase9-w2-store-domain-backfill.ts:140-146 | A hostname is read trimmed, in lower case and without a final dot; it is the platform's if that is the platform's domain or ends in a dot and it, at any depth |
| DomainBackfillOutcomes.DerivedExactly | backend/prisma/backfill/phase9-w2-store-domain-backfill.ts:148-153 | The derived hostname is the trimmed slug in lower case before a dot and the platform's domain |
| DomainBackfillOutcomes.ClassifiesExactly | backend/prisma/backfill/phase9-w2-store-domain-backfill.ts:163-193 | B-1 gives exactly the rows without a type one, by their hostnames, and counts them |
| DomainBackfillOutcomes.ProvisionsExactly | backend/prisma/backfill/phase9-w2-store-domain-backfill.ts:207-269 | B-2 keeps every row and inserts one, column by column, for each store without a platform row unless another store's row has the name; it counts both |
| DomainBackfillOutcomes.RegistersExactly | backend/prisma/backfill/phase9-w2-store-domain-backfill.ts:305-389 | B-3 column by column: anomaly, nothing to do, or the fixed hostname as the one primary row of the tenant's primary store |
| DomainBackfillOutcomes.RunsExactly | backend/prisma/backfill/phase9-w2-store-domain-backfill.ts:438-452 | A complete run is those steps in order and a mode that stays if set, and its report adds up theirs |
| DomainBackfillOutcomes.ThrowsExactly | backend/prisma/backfill/phase9-w2-store-domain-backfill.ts:207-269 | On the rows it starts from: the script throws exactly when a store without a row that is or will count as the platform's holds its own derived hostname |
| DomainBackfillOutcomes.PassesExactly | backend/prisma/backfill/phase9-w2-store-domain-backfill.ts:438-539 | On the rows it starts from: a run without anomalies passes exactly when every other store with such a row had a primary one |
| DomainBackfill.DomainTables.RunSteps | backend/prisma/backfill/phase9-w2-store-domain-backfill.ts:586-597 | The real run in place: four committed steps, of which only B-2 can throw, leaving B-1 |
| DomainBackfill.B2Keeps | backend/prisma/backfill/phase9-w2-store-domain-backfill.ts:207-269 | After B-2 without anomalies every store has a platform row, and gained a primary exactly where it had neither; both unique indexes hold |
| DomainBackfill.B3Keeps | backend/prisma/backfill/phase9-w2-store-domain-backfill.ts:305-389 | B-3 moves only the primary of the tenant's primary store, to the fixed hostname |
| DomainBackfill.DomainTables.BackfillDomainTypes | backend/prisma/backfill/phase9-w2-store-domain-backfill.ts:163-193 | The loop classifies exactly the unclassified rows and counts them |
| DomainBackfill.DomainTables.BackfillPlatformSubdomains | backend/prisma/backfill/phase9-w2-store-domain-backfill.ts:207-269 | The loop over stores in place; on a clash with the store's own custom row everything rolls back |
| DomainBackfill.DomainTables.BackfillTenant1CustomDomain | backend/prisma/backfill/phase9-w2-store-domain-backfill.ts:305-389 | B-3 in place, with its two anomalies |
| DomainBackfill.DomainTables.BackfillResolutionModeRow | backend/prisma/backfill/phase9-w2-store-domain-backfill.ts:399-434 | B-4 in place: an existing mode is never overwritten |
| DomainBackfill.DomainTables.Reconcile | backend/prisma/backfill/phase9-w2-store-domain-backfill.ts:456-539 | The counting loops make all five verdicts pass exactly when every domain is classified, every store has its platform row and one primary, and the tenant's primary and the mode are as expected |
| PlatformHostnames.DerivedIsUnderPlatform | backend/prisma/backfill/phase9-w2-store-domain-backfill.ts:140-153 | Whatever the slug, the hostname B-2 derives is one that B-1 classifies as the platform's |
| StoreDomainProtocol.SequentialCalls | backend/src/store-domains/store-domains.service.ts:137-606 | From any provisioned stores that each have their primary, revoked and never classified domains among their rows: every sequence of calls keeps hostnames unique, every platform row, exactly one primary per provisioned store, and FAILED neither entered nor left |
| StoreDomainProtocol.InterleavedCalls | backend/src/store-domains/store-domains.service.ts:471-569 | However their transactions interleave: hostnames unique, at most one primary per store, platform rows kept, FAILED neither entered nor left |
| StoreDomainProtocol.RaceLeavesNoPrimary | backend/src/store-domains/store-domains.service.ts:471-569 | In any shop, making a servable custom domain primary while its removal asks the provider leaves the store without a primary |
| StoreDomainOutcomes.ProvisionExactly | backend/src/store-domains/platform-subdomain.ts:86-149 | A new platform row is the store's primary exactly if it is its first; a known hostname or a store of another tenant changes nothing |
| StoreDomainOutcomes.VerifyExactly | backend/src/store-domains/store-domains.service.ts:220-322 | Only its owner's pending custom domain is verified, exactly if the check passes, and then gets the provider's certificate state |
| StoreDomainOutcomes.MakePrimaryExactly | backend/src/store-domains/store-domains.service.ts:394-452 | Its owner makes a domain primary exactly if it is not and is the platform's or verified with an issued certificate; then it is the one primary row of its store |
| StoreDomainOutcomes.RemoveExactly | backend/src/store-domains/store-domains.service.ts:471-569 | Its owner removes a custom domain exactly if the provider releases it; a primary one is replaced by a platform row of its store, which always exists |
| StoreDomainOutcomes.SoloIsWhole | backend/src/store-domains/store-domains.service.ts:220-606 | The steps of a removal, verification or refresh that nothing interrupts add up to the whole call |
| StoreDomains.RemovalLeavesNoPrimaryIff | backend/src/store-domains/store-domains.service.ts:526-545 | A committed removal leaves its store without a primary exactly when the row is primary at the commit and the earlier plan has no fallback |
| StoreDomains.SetPrimaryKeeps | backend/src/store-domains/store-domains.service.ts:394-452 | setPrimary keeps both unique indexes and leaves this domain primary |
| StoreDomains.EnsureKeeps | backend/src/store-domains/platform-subdomain.ts:86-149 | ensurePlatformSubdomain makes a new row primary exactly when the store has none, and keeps both indexes |
| StoreDomains.RemovalKeeps | backend/src/store-domains/store-domains.service.ts:526-545 | The second transaction of a removal keeps both indexes and every platform row |
| StoreDomains.DomainTable.EnsurePlatformSubdomain | backend/src/store-domains/platform-subdomain.ts:86-149 | In place: existing, collision, or a new verified row |
| StoreDomains.DomainTable.AddDomain | backend/src/store-domains/store-domains.service.ts:137-197 | In place: refused, already in use, or a pending non-primary row |
| StoreDomains.DomainTable.Verify | backend/src/store-domains/store-domains.service.ts:220-322 | In place: not found, platform, revoked, already verified, still pending, or now verified |
| StoreDomains.DomainTable.SetPrimaryDomain | backend/src/store-domains/store-domains.service.ts:394-452 | In place: the servable domain becomes primary and the previous one stops being it |
| StoreDomains.DomainTable.DeleteAndPromote | backend/src/store-domains/store-domains.service.ts:526-545 | In place: delete and promote under the unique index, or change nothing |
| StoreDomains.DomainTable.WriteTlsStatus | backend/src/store-domains/store-domains.service.ts:729-757 | In place: only the certificate state of an existing row changes |
| SubscriptionProtocol.OneRunPerKey | backend/src/subscriptions/subscription-orchestration.service.ts:723-762 | Over every interleaving, one idempotency key starts the mutation body at most once, and a call gets at most one change accepted and makes at most one local change |
| SubscriptionProtocol.LocalFollowsProvider | backend/src/subscriptions/subscription-orchestration.service.ts:159-304 | Every local planId, pendingPlanId, cancelAtPeriodEnd or status change by these calls follows the provider's word to that very call: acceptance, or for an upgrade a read that shows the plan |
| SubscriptionProtocol.ChangesAreLogged | backend/src/subscriptions/subscription.service.ts:466-555 | Nothing else these calls do changes a subscription, and a change touches only the mutation's own column of the row as it is then |
| SubscriptionProtocol.TimeoutIsNotAcceptance | backend/src/subscriptions/subscription-orchestration.service.ts:289-304 | A timed-out downgrade, cancellation or unscheduling is never persisted, whatever the provider made of it |
| SubscriptionProtocol.StepInv | backend/src/subscriptions/subscription-orchestration.service.ts:159-492 | Every step keeps these, with other writers and the provider changing rows at will |
| SubscriptionProtocol.SoloIsAlone | backend/src/subscriptions/subscription-orchestration.service.ts:159-492 | An uninterrupted call does exactly what the in-place method does |
| SubscriptionOutcomes.MutatesExactly | backend/src/subscriptions/subscription-orchestration.service.ts:159-492 | A whole change that runs alone: when the provider is asked, when its record changes and how, and when the local row follows and in which column |
| SubscriptionOutcomes.ConfirmsExactly | backend/src/subscriptions/subscription.service.ts:466-555 | The change is written exactly while status and changing column are as in the caller's copy and the plan exists; an upgrade takes effect, a downgrade waits |
| SubscriptionProtocol.MutationRuns | backend/src/subscriptions/subscription-orchestration.service.ts:723-762 | In any reachable state a call from its beginning to its end, with nothing in between, does exactly that |
| Subscriptions.Orchestrator.Mutate | backend/src/subscriptions/subscription-orchestration.service.ts:723-762 | A whole call in place, for every pattern of acceptance, rejection, failure and timeout: claimed keys, subscriptions and provider records afterwards |
| Subscriptions.Orchestrator.Confirm | backend/src/subscriptions/subscription.service.ts:466-555 | The compare-and-set on status and the changing column |
| Subscriptions.FakeBillingProvider.Change | backend/src/subscriptions/fake-billing-provider.ts:123-163 | The in-memory provider's mutating calls, each with any outcome |
| BillingWebhooks.SettledWhateverHappensIff | backend/src/subscriptions/billing-webhook-processor.service.ts:193-375 | Over runs: an event is terminal whatever its runs bring exactly when its row was read in six recorded runs with no recorded unread one in between |
| BillingWebhooks.DueCountsItsStreak | backend/src/subscriptions/billing-webhook-processor.service.ts:333-373 | Over every run of the poller: a due event's attempts are exactly its streak of read runs since the count last started over, at most five, and its delays are bounded by 6150 s for each start |
| BillingWebhooks.FailingStaysDue | backend/src/subscriptions/billing-webhook-processor.service.ts:333-373 | As long as that has not been reached and every run fails retryably, the event stays due |
| BillingWebhooks.NeverWaitsTwoHours | backend/src/subscriptions/billing-webhook-processor.service.ts:358-373 | Over any runs an event's scheduled delays grow by at most an hour for each recorded run of it: the two-hour entry of BACKOFF_MS is not used |
| BillingWebhooks.SixRunsSettle | backend/src/subscriptions/billing-webhook-processor.service.ts:193-375 | While its own row can be read, six recorded runs settle an event, whatever happens to other events, and its scheduled delays add up to at most 6150 s |
| BillingWebhooks.UnreadRowsNeverSettle | backend/src/subscriptions/billing-webhook-processor.service.ts:193-205 | Runs that cannot read the row start the attempts over at one: with nothing but them the event stays due for ever |
| BillingWebhooks.TerminalIsForever | backend/src/subscriptions/billing-webhook-processor.service.ts:193-375 | A terminal event never changes again and a waiting failed one has one to five attempts |
| BillingWebhooks.EffectAtMostOnce | backend/src/subscriptions/billing-webhook-processor.service.ts:284-307 | An event's effect on its subscription commits at most once, and only with PROCESSED |
| BillingOutcomes.ProcessesExactly | backend/src/subscriptions/billing-webhook-processor.service.ts:193-375 | One run on the columns: which subscription the event is about, when it is ignored as unknown or old, what a success commits and how it is routed, and what each kind of failure leaves: attempts, wait, dead letter |
| BillingWebhooks.EventStore.ProcessOneEvent | backend/src/subscriptions/billing-webhook-processor.service.ts:193-375 | One run in place: resolution, stale guard, routing, effect, and the retry or dead letter after a throw |
| BillingWebhooks.EventStore.Work | backend/src/subscriptions/billing-webhook-processor.service.ts:196-308 | The transaction in place, with its rollback |
| RefreshTokens.OneLivePerLogin | backend/src/auth/auth.service.ts:202-258 | After any sequence of calls, one at a time, of all the tokens one login led to at most one is live, and it is the last |
| RefreshTokens.ChainsAreDisjoint | backend/src/auth/auth.service.ts:242-258 | Two tokens that lead to a common one lie on one chain |
| RefreshTokens.FollowsToTail | backend/src/auth/auth.service.ts:242-258 | Chains go strictly forward, so they are acyclic and have one tail |
| RefreshTokens.RefreshKeepsCount | backend/src/auth/auth.service.ts:236-258 | A successful refresh keeps every user's live-token count; the old token is dead and its chain ends in the new one |
| RefreshTokens.ReuseEndsEverything | backend/src/auth/auth.service.ts:206-225 | Presenting any revoked token leaves its user with no live token and a larger tokenVersion, and no token of that time is ever live again |
| SessionOutcomes.RefreshesExactly | backend/src/auth/auth.service.ts:189-258 | Refreshing on the columns: unknown, reused (every session of the user ends), expired (revoked), inactive, or revoked and replaced by a new token of its user |
| SessionOutcomes.RegistersExactly | backend/src/auth/auth.service.ts:78-106 | Registering gives a new active user at version zero its first token; a known one is refused |
| SessionOutcomes.LogsInExactly | backend/src/auth/auth.service.ts:128-178 | Logging in takes a known, active user and the password, and adds one live token with the configured lifetime |
| SessionOutcomes.LogsOutExactly | backend/src/auth/auth.service.ts:269-282 | Logging out never fails and revokes the presented token exactly if it is the caller's |
| RefreshProtocol.OneLiveIff | backend/src/auth/auth.service.ts:189-258 | Refreshes interleaved with every other call, each reading its row before it rotates it: every login keeps at most one live token throughout if and only if no refresh rotates a row that stopped being live after it was read, while another token of that login is live |
| RefreshProtocol.OverlapForks | backend/src/auth/auth.service.ts:194-250 | Two refreshes that both read a user's first token before either rotates it leave two live tokens of one login |
| RefreshProtocol.SoloIsAlone | backend/src/auth/auth.service.ts:189-258 | A refresh that nobody interrupts does what the in-place method does |
| RefreshTokens.AuthStore.RefreshSession | backend/src/auth/auth.service.ts:189-258 | refresh in place: unknown, reused, expired, inactive, or rotated |
| RefreshTokens.AuthStore.RevokeSessions | backend/src/auth/auth.service.ts:284-296 | Exactly the user's tokens are revoked and the version goes up by one |
| RefreshTokens.AuthStore.RegisterUser | backend/src/auth/auth.service.ts:78-106 | A new user starts with one live token; a taken address changes nothing |
| RefreshTokens.AuthStore.LoginUser | backend/src/auth/auth.service.ts:128-178 | A correct password starts a new chain; otherwise nothing changes |
| RefreshTokens.AuthStore.LogoutSession | backend/src/auth/auth.service.ts:269-282 | Only the caller's own presented token is revoked |
| Crc32.Compute | backend/prisma/seed-production.ts:74-80 | For every byte sequence the table-driven loop computes the bit-by-bit CRC of section 3.4 of RFC 2083 |
| Crc32.PngChunk | backend/prisma/seed-production.ts:82-89 | Table and loop composed: the chunk is length, type, data and the CRC of type and data; a length beyond 32 bits throws |
| Crc32.ChunkReadsBack | backend/prisma/seed-production.ts:82-89 | A reader gets back length, type and data, and its CRC check passes |
| Crc32.EndChunk | backend/prisma/seed-production.ts:74-89 | The empty IEND chunk is the twelve known bytes that every PNG file ends with |
| Crc32.DamageShows | backend/prisma/seed-production.ts:82-89 | One changed byte of a chunk, anywhere behind the length, always makes the check fail |
| Crc32.MakeTable | backend/prisma/seed-production.ts:62-72 | Each of the 256 entries is eight division steps of its index |
| Crc32.TableIdentity | backend/prisma/seed-production.ts:77 | Eight division steps are a look-up of the low byte and a move of the rest |
| Crc32.ShiftsAreLinear | backend/prisma/seed-production.ts:66-68 | Division steps distribute over exclusive or |
| Crc32.FeedByte | backend/prisma/seed-production.ts:76-78 | One turn of the loop is eight turns of the bitwise definition |
| Crc32.ChangedByteIsDetected | backend/prisma/seed-production.ts:74-80 | Changing one byte always changes the CRC |
| WordWrap.WrapIsLossless | backend/prisma/seed-production.ts:117-132 | For single-spaced text, joining the lines with spaces gives the text back, and a line longer than the width is a single word |
| WordWrap.LosslessIff | backend/prisma/seed-production.ts:117-132 | For every text and width, joining the lines with spaces gives the text back exactly when no line of the greedy wrapping of its words, empty ones included, begins with a space (or the text is empty) |
| WordWrap.WrapKeepsWords | backend/prisma/seed-production.ts:117-132 | For every text and width, the lines hold exactly its words in order, no line is empty, and a line longer than the width is a single word |
| WordWrap.WrapIsOptimal | backend/prisma/seed-production.ts:117-132 | No other partition into fitting or single-word lines uses fewer lines |
| WordWrap.GreedyStaysAhead | backend/prisma/seed-production.ts:121-129 | After every word, greedy has no more lines than any other wrapping and, with as many, no more words in its last line |
| WordWrap.WrapWords | backend/prisma/seed-production.ts:117-132 | The loop computes the folded lines, for every text and width |

## Left out

- PaymentTheorems.PaidAtMostOnce: says nothing about events or captures of orders an administrator moves to PAID, because the targets an administrator may choose are decided in a request type that is not part of this model.
- Payments.PaymentStore.ReconcileCapturedPayment: is the transaction with its checks; the catch that answers a unique violation with ALREADY_TERMINAL (and false in failStalePendingOrder, the current status in verifyPayment) is left out, the tables being those of the rollback.
- Refund rows and refund webhooks: performRefundRecording and the refund bookkeeping of performCancellation are not modelled; their status moves are, as desk transitions.
- Outbox payloads, the payment webhook event table and its retries: only the unique event key matters to the properties.
- PaymentProtocol.StepInv: a transaction is one atomic step and a lost connection is a call that never moves again; createdAt ties between attempts are broken by insertion order.
- CategoryTree.GetCategoryTree: Array.sort is the stable insertion sort as a value, and localeCompare a ranking of names by real numbers, which any total preorder of strings is.
- CheckoutTheorems.CouponLedger: total, per-user and first-order limits of a coupon are held fixed, because an administrator who lowers one below what is used breaks the bound by intent.
- CheckoutProtocol.StepInv: the reads inside validateCouponCore are one statement; they are of rows that only the holder of the cart lock adds to.
- Checkout.CheckoutStore.Checkout: order numbers, shipping address, plan limits, tax arithmetic and customization rules are parameters; an order's status history belongs to the payment model.
- ReviewProtocol.RatingsAgree: the two-decimal rounding of the mean is any function of sum and count, because the double arithmetic of toFixed is not part of this model.
- ReviewProtocol.StepInv: the shared key lock a foreign key takes on the product row is not modelled; without it there are only more interleavings, and any call may abort.
- BackfillScripts.W4Completes: customerId is covered by W4Customers, not by a completeness statement; anomaly counts of the customer join and W6 are not modelled.
- CounterSeeding.W4IsResumable: the global counters and the issued numbers are held fixed from one interrupted run to the next (SeedsExactly says what any single run does); anomaly texts are left out.
- InvoiceNumbers.ParsePrinted: numbers are unbounded, parseInt's loss of precision beyond 2^53 is not modelled.
- Invoices.GapFree: rows older than the tenant's counter consumed no value of it; the invoice view, seller snapshot and amounts are left out.
- PlatformHostnames.DerivedIsUnderPlatform: trimming and lower-casing are those of ASCII.
- DomainBackfill.PassesIff: assumes a domain's tenant is its store's tenant; verifiedAt, method and token columns are left out.
- StoreDomainProtocol.SequentialCalls: adding a domain to a store that was never provisioned is refused here; hostname syntax and reserved hosts are one boolean; platform revocation and restoration, the cache and audit rows are left out.
- SubscriptionProtocol.LocalFollowsProvider: createSubscription, resume and reconcilePeriod are left out, except as arbitrary changes by other writers.
- BillingWebhooks.SettledWhateverHappensIff: ticks do not overlap, and which due rows a tick selects, by availableAt and batch size, is arbitrary; what a subscription method writes is an arbitrary parameter.
- RefreshProtocol.OneLiveIff: only the refresh is split in two steps, and an account is never deactivated; access tokens, password hashing and the request for a reset are left out.
- WordWrap.WrapIsOptimal: for single-spaced text only.
- Controllers, guards, DTO validation, mail, uploads, pagination, settings, entitlements and the frontend are not modelled.
- The seed script's PNG drawing, bitmap font, compression and API client are not modelled.

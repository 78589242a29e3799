# School photo sales — purchase lifecycle model

This project is a Dafny model of the core of a photo-sales service for school
photographers. Buyers browse an album, fill a cart and check out. The server
then does the following:

- It records a `pending` order with a snapshot of each line item.
- It hands the buyer to the payment processor (Mercado Pago).
- On a signed webhook notification, it settles the order as `paid`. Settling opens a
  seven-day download window and creates the order's `descargas` (download
  counter) row.
- It lets the buyer fetch the original of each purchased photo through a gate.

Photographers register with a 14-day trial and pay for a monthly subscription.
An auth middleware grants access only to a live trial or an active subscription.

The model keeps the source's own structure:

| module (file) | models |
|---|---|
| `Orders` (orders.dfy) | the database tables as values: orders, order items, `descargas`, photos; cart lines and the item snapshot |
| `Checkout` (checkout.dfy) | `createPaymentPreferenceHandler` in both server versions |
| `Webhook` (webhook.dfy) | `x-signature` parsing, the HMAC manifest, the replay cache and topic dispatch of the current webhook |
| `Reconcile` (reconcile.dfy) | `procesarOrden`, the settlement rule |
| `LegacyWebhook` (legacy_webhook.dfy) | the earlier, unsigned webhook of `server/server.js` |
| `Downloads` (downloads.dfy) | the download gate and the shadowed quota variant (`MAX_DESCARGAS = 3`) |
| `Store` (store.dfy) | the order tables as an object whose handlers update it in place |
| `Retry` (retry.dfy) | the bounded retry loops around the processor API |
| `Monitoring` (monitoring.dfy) | the log ring buffer, the response-time window, the metrics counters, `sanitizeMetadata`, `formatUptime` |
| `AuthMiddleware`, `Photographers` | `requireAuth`, `optionalAuth`, the photographer record |
| `Registration` (registration.dfy) | `/register` (validation, slug normalisation, unique slug loop, trial defaults) and `/login` (expiry rule) |
| `Subscriptions`, `CivilDate` | `/create`, `/cancel`, `/status` and the `/webhook` status machine; `Date.prototype.setMonth` on a UTC civil date |
| `GalleryCart`, `AlbumGallery`, `IndexCart` | the three client-side carts, with their different dedup rules, the album-id check and the carousel |
| `SuccessPage`, `UriCodec` | the success page: `getUrlParameter`, the polling loop, the once-per-order e-mail flag; `encodeURIComponent`/`decodeURIComponent` (RFC 3986 section 2.1 percent-encoding of UTF-8) |
| `JsText`, `Base` | the JavaScript string built-ins the code relies on (`trim`, `split`, `toLowerCase`, `includes`, `String(n)`); `Option` |

Foreign calls become inputs:

- the database and processor answers are values or functions passed in
  (`payments`, `merchantOrders`, `respond`, `getUser`);
- HMAC-SHA256 (RFC 2104) is an uninterpreted function `hmac(secret, message)`;
- URL signing is `sign: path -> Option<url>`;
- the clock is a `now` parameter;
- the outcome of these database calls is a boolean parameter: in checkout the photo lookup, the order insert, the items insert
  and the preference (`CheckoutCalls`); in settlement the order and item
  reads, the `paid` update, the counter lookup and the counter insert
  (`SettleCalls`); in registration each slug lookup (`slugFailures`) and the
  profile insert; in `/subscriptions/create` the processor call and the
  subscription insert; in `/subscriptions/cancel` the processor call; in the
  earlier webhook the order update; on the success page the e-mail send.
  Every other database call always answers in the model; "Left out" names
  each of them.

The state the source mutates in place is modelled as classes whose methods are
proved equal to pure specification functions. That state is the replay cache,
the order tables, the log buffer and metrics, the stored carts, the success
page's storage and the carousel. The properties are lemmas about those
functions.

## Model

| member | source | states |
|---|---|---|
| Orders.ItemsOf | server.js:949-954 | the order's item rows are exactly the rows of `order_items` carrying its id, in table order |
| Orders.ItemRowCount | server.js:1230-1235 | counts the rows for (order, photo); zero iff no such row exists |
| Orders.RecordsOf | server.js:981-989 | the `descargas` rows of an order are exactly those carrying its id |
| Orders.QtyOr1 | server.js:536 | `quantity || 1`: never zero, and the given quantity whenever it is non-zero |
| Orders.SnapshotItems | server.js:567-574 | one item per cart line, in order, with the new order id, `price_at_purchase = price` and `quantity = quantity || 1` |
| Orders.SnapshotPreservesTotal | server.js:536 | the snapshot's Σ price_at_purchase × quantity equals the cart total Σ price × (quantity or 1) |
| Orders.SnapshotItemsOf | server/server.js:303-310 | every snapshot row belongs to the new order, so reading the order's items back gives the snapshot |
| Checkout.ComputeTotal | server/server.js:290-291 | the `for` loop's accumulated total equals Σ price × (quantity or 1), the model's `CartTotal` |
| Checkout.InsertOrderItems | server.js:554-574 | after inserting a fresh order, its item rows are the snapshot and their total is the cart total |
| Checkout.InsertOrderConsistent | server.js:554-574 | inserting an order and its items keeps every item row pointing at an existing order |
| Checkout.CheckoutRejects | server.js:531-533 | `CheckoutSpec`, the handler as a function of the tables, the cart and the outcome of each database and processor call, answers 400 exactly when the cart is empty or the e-mail missing, and then writes nothing |
| Checkout.CheckoutPhotoNotFound | server.js:540-549 | the current server answers 404 iff the first cart photo is unknown or its lookup fails, writing nothing; the earlier server never does |
| Checkout.CheckoutWritesOrder | server.js:554-603 | a preference is attempted iff validation, the photo lookup and both inserts succeed, and created iff the processor accepts it; then a `pending` order with the buyer's e-mail, total = cart total, no payment id or expiry, items = snapshot, and the `BackUrl` success link; other orders, downloads and photos unchanged |
| Checkout.CheckoutInsertFailures | server.js:553-574 | 500 iff the order insert fails after validation, writing nothing; 500 iff the items insert fails after it, leaving the new `pending` order without items |
| Checkout.OrphanOrderNeverSettles | server.js:949-954 | the order left by a failed items insert never settles: `procesarOrden` stops at its empty item list |
| Checkout.VariantsAgree | server/server.js:284-335 | the earlier handler writes the same order and items as the current one, except for the photographer id |
| Store.OrderStore.CreatePaymentPreference | server.js:529-603 | the in-place handler ends in the state and answer of the checkout specification |
| Store.OrderStore.ProcesarOrden | server.js:904-1004 | the sequential guarded writes end in the state of the reconcile specification |
| Store.OrderStore.DownloadWithQuota | server.js:1542-1599 | the in-place quota handler ends in the state and answer of the quota specification |
| Reconcile.FirstPaymentId | server.js:959-960 | a payment id is recorded iff the merchant order has a payment and the first one's id is non-zero, and it is that id |
| Reconcile.ReconcileSkips | server.js:910-974 | `Reconcile` (the guards, then `Settle`) writes nothing when the order is unpaid and underpaid, has no external reference, is unknown, is already paid with a payment id, or has no items, nor when a read fails or the `paid` update fails |
| Reconcile.ReconcileSettles | server.js:959-1001 | when `Settles` holds and the reads and the update succeed: `paid`, the first payment id and expiry now + 7 days, e-mail and total kept, no other order touched; the counter table changes only by a successful insert, which leaves a `descargas` row |
| Reconcile.ReconcileInsertFailurePaidWithoutCounter | server.js:986-993 | a failed counter insert is only logged: the order is paid, its window open, and it has no `descargas` row |
| Reconcile.ReconcileKeepsSingleRecords | server.js:981-1001 | while the counter lookup answers, at most one `descargas` row per order is preserved; after a successful insert the settled order has exactly one, created with `contador = 0` |
| Reconcile.ReconcileFailedLookupDuplicates | server.js:981-989 | a failed counter lookup reads as no row, so an order holding one counter gets a second |
| Reconcile.ReconcileIdempotent | server.js:939-942 | once settled with a payment id by a successful update, a repeated notification changes nothing, whatever the database answers then |
| Reconcile.ReconcileUpdateFailureRetried | server.js:971-974 | a failed `paid` update writes nothing and leaves the order to be settled by a redelivery |
| Reconcile.ReconcileNoPaymentResettles | server.js:939-942 | a merchant order without payments settles with a null id, so a redelivery settles again and moves the expiry |
| Reconcile.ReconcileMonotone | server.js:904-1004 | no order appears or disappears, `paid` is never undone, and only the referenced order changes, to `paid` |
| Webhook.ParseSignature | server.js:777-791 | the loop leaves `ts` and `hash` equal to the value of the last well-formed `ts=` and `v1=` parts |
| Webhook.LastNamedIndex | server.js:777-786 | finds the last of the first n parts naming the key; no later one among them names it |
| Webhook.LastFieldIsLastNamed | server.js:777-786 | a later `ts`/`v1` overrides an earlier one: the value parsed from the first n parts is the last naming part's value |
| Webhook.ParseCanonical | server.js:777-791 | a header `ts=<t>,v1=<h>` parses back to exactly `t` and `h` |
| Webhook.ManifestPieces | server.js:793-796 | the manifest is `id:<dataId>;request-id:<reqId>;ts:<ts>;` field by field |
| Webhook.ManifestInjective | server.js:793-796 | for `;`-free fields, distinct (data id, request id, ts) give distinct manifests |
| Webhook.FirstTruthy | server.js:767 | `DataId`: the data id is the first non-empty of the query and body ids, if any |
| Webhook.IdempotencyKeyIsRequestId | server.js:765 | the `IdempotencyKey` is always the `RequestId` (defaulting to `no-request-id`), never the topic-data fallback |
| Webhook.CanonicalVerifies | server.js:793-801 | `CheckSignature` on a well-formed header verifies iff the HMAC of the manifest equals `v1` |
| Webhook.WebhookRejectsUnverified | server.js:772-801 | missing header, bad format and bad signature give their `…_ignored` statuses and change neither the cache nor the tables |
| Webhook.DispatchAnswersNoSignatureStatus | server.js:814-895 | whatever the topic and the processor's answers, `Dispatch` never answers with a signature status |
| Webhook.WebhookReplayIgnored | server.js:804-809 | a verified request whose key is cached answers `already_processed` and changes nothing |
| Webhook.WebhookCacheDiscipline | server.js:804-809 | the cache only grows, and only by the request id of a verified first delivery |
| Webhook.WebhookWritesOnlyByReconcile | server.js:814-895 | under `WebhookSpec`, the whole handler as a function, tables change only on a verified, uncached request with a fetched merchant order, and then exactly as `procesarOrden` says |
| Webhook.WebhookRedelivery | server.js:804-809 | delivering the same verified notification again is answered `already_processed` and changes nothing |
| Webhook.ReplayCache.constructor | server.js:751-752 | the cache starts empty |
| Webhook.ReplayCache.Mark | server.js:808 | marking adds exactly the key |
| Webhook.ReplayCache.Expire | server.js:809 | the TTL removal deletes exactly the key |
| Webhook.HandleWebhook | server.js:757-900 | the handler's cache, tables and answer equal the webhook specification's |
| Webhook.SettleWith | server.js:849-890 | settling on a fetched merchant order ends as the specification says (error statuses on failed fetches) |
| LegacyWebhook.LastSegment | server/server.js:512 | `resource.split("/").pop()` contains no `/` |
| LegacyWebhook.LastSegmentOfPath | server/server.js:512 | it is the last `/`-separated segment |
| LegacyWebhook.PaymentTopicNeverUpdates | server/server.js:491-508 | under `LegacyHandle`, a notification that is not a `merchant_order` never writes |
| LegacyWebhook.LegacySettleIff | server/server.js:526-537 | `LegacySettle` makes the order `paid` with the first payment id iff `order_status == paid` or paid ≥ total and the update succeeds, otherwise nothing changes; no expiry is set |
| LegacyWebhook.LegacyRepeatRewritesPaymentId | server/server.js:526-537 | a repeat delivery overwrites the payment id, where the current server keeps the first one |
| Downloads.GateSignsOnlyAfterChecks | server.js:1246-1255 | a URL is requested iff all three checks pass, for the photo's original path; a redirect carries the signed URL |
| Downloads.GateCheckOrder | server.js:1216-1243 | `DownloadGate` answers 403 iff no paid order for this id and e-mail; else 403 iff the photo is not one item of it; else 404 iff no original path |
| Downloads.GateIgnoresExpiry | server/server.js:652-721 | the gate's answer does not depend on `download_expires_at` |
| Downloads.QuotaRows | server.js:1547-1552 | the rows the quota reads are exactly those matching order and user id |
| Downloads.SetCounter | server.js:1587-1591 | the counter update rewrites exactly the matching rows |
| Downloads.QuotaLimit | server.js:1566-1569 | with `contador >= 3` the answer is 403 and nothing changes |
| Downloads.QuotaInsertsBeforeLookup | server.js:1558-1577 | a missing counter row is inserted with `contador = 0` before the photo lookup can fail |
| Downloads.QuotaPreparedRows | server.js:1546-1570 | after preparation exactly one row exists, holding the counter, within 0..3 |
| Downloads.QuotaStep | server.js:1546-1594 | one `QuotaDownload` request keeps the invariant; the counter grows by exactly 1 on a redirect and is unchanged otherwise |
| Downloads.QuotaBounded | server.js:1540-1599 | over any sequence of requests the counter equals start + redirects and never passes `MAX_DESCARGAS` |
| Retry.GetMerchantOrderWithRetry | server.js:176-207 | at most `retries` calls; earlier attempts failed or had no payments; a value before the last attempt has payments; an error escapes only on the last attempt |
| Retry.TryGetPaymentWithRetry | server/server.js:87-101 | at most `retries` calls; only a 404 is retried; any other error, or a 404 on the last attempt, is rethrown |
| Monitoring.LastN | server.js:87-90 | the window holds min(length, capacity) entries |
| Monitoring.LastNPush | server.js:87-90 | push-then-shift keeps the last `capacity` entries of the history |
| Monitoring.BoundedWindow.constructor | server.js:42 | the buffer starts empty with its capacity |
| Monitoring.BoundedWindow.Push | server.js:129-132 | the window stays the last `capacity` entries, never longer, and ends with the new one |
| Monitoring.ShouldLog | server.js:74 | with `ParseLevel` of the configured name, an unknown level logs everything, ERROR is always logged, DEBUG configured logs all |
| Monitoring.ShouldLogMonotone | server.js:74 | a more severe level than a logged one is logged too |
| Monitoring.SanitizeMetadata | server.js:105-118 | same keys; a key containing a sensitive word (case-insensitively) maps to `***REDACTED***`, the others are kept |
| Monitoring.SanitizeIdempotent | server.js:105-118 | sanitising twice is sanitising once |
| Monitoring.SensitiveExamples | server.js:112 | `Authorization` and `monkey` (contains `key`) are redacted, `id` is not |
| Monitoring.Logger.constructor | server.js:42 | the log buffer starts empty with capacity `MAX_LOGS` |
| Monitoring.Logger.Log | server.js:72-90 | a filtered-out level changes nothing; otherwise the sanitised entry is appended to the history and the buffer stays bounded |
| Monitoring.Metrics.constructor | server.js:121-125 | the total, the per-path and per-status counters and the response-time window all start empty |
| Monitoring.Metrics.OnRequest | server.js:124-125 | the total and the endpoint's counter grow by one; nothing else changes |
| Monitoring.Metrics.OnFinish | server.js:129-134 | the duration enters the 100-entry window and the status is counted |
| Monitoring.BreakdownAccurate | server.js:1825-1835 | the `Breakdown` that `FormatUptime` prints: days/hours/minutes/seconds in range, exact below a day, and at most a minute short above |
| AuthMiddleware.BearerToken | middleware/auth.js:18-26 | a token exists iff the header starts with `Bearer `, and it is the rest of the header |
| AuthMiddleware.BearerRoundTrip | middleware/auth.js:26 | `Bearer <t>` yields exactly `t` |
| AuthMiddleware.AccessDenials | middleware/auth.js:60-83 | `HasAccess` refuses other statuses, an ended or missing trial, and an active subscription already expired |
| AuthMiddleware.AccessAntitone | middleware/auth.js:65-76 | access at a later time implies access now |
| AuthMiddleware.RequireAuthNext | middleware/auth.js:15-91 | `RequireAuth`: `next` iff token, user, photographer and access all hold, with those user and photographer attached; 401 `MissingToken` iff no bearer token; 401 `InvalidToken` iff the provider refuses the token; 403 not found iff no profile; 403 inactive iff the profile lacks access, with its status |
| AuthMiddleware.OptionalAuthCovers | middleware/auth.js:96-123 | `OptionalAuth` never rejects; attaches what `requireAuth` would, also for inactive subscriptions, and nothing iff a lookup fails |
| Registration.StripDisallowed | routes/auth.js:53 | only `[a-z0-9]`, `-` and white space remain; slug text is untouched |
| Registration.StripDisallowedConcat | routes/auth.js:53 | stripping works character by character: a character is kept iff it is a slug character or white space |
| Registration.CollapseSpaces | routes/auth.js:54 | no white space remains, and text without white space is untouched (how a run is replaced: `CollapseSpaceRun`) |
| Registration.CollapseSpaceRun | routes/auth.js:54 | a white-space run between non-space text becomes exactly one `-`, each side collapsed on its own |
| Registration.CollapseConcat | routes/auth.js:54 | collapsing distributes over a cut after a character outside the runs |
| Registration.BaseSlug | routes/auth.js:51-55 | the base slug only holds `[a-z0-9-]` (its value on words: `BaseSlugOfWords`) |
| Registration.BaseSlugOfWords | routes/auth.js:51-55 | two slug words separated by white space give the words joined by one `-` |
| Registration.BaseSlugFixes | routes/auth.js:51-55 | a slug-text display name is its own base slug |
| Registration.BaseSlugIdempotent | routes/auth.js:51-55 | normalising twice is normalising once |
| Registration.CandidateInjective | routes/auth.js:71-72 | `base`, `base-1`, `base-2`, … are pairwise distinct |
| Registration.CandidateSlugText | routes/auth.js:71-72 | every candidate is slug text |
| Registration.UniqueSlug | routes/auth.js:57-74 | the loop returns the candidate numbered by its counter, the one it accepts: every earlier lookup answered with a row and this one did not |
| Registration.ChooseSlug | routes/auth.js:50-74 | the slug is slug text, the loop's accepted candidate for the display name's base slug, the base itself when free, and free when no lookup fails and slugs are unique |
| Registration.AcceptedSlug | routes/auth.js:57-74 | an accepted candidate is slug text, is the base when the base is free, and is free when no lookup fails |
| Registration.AcceptedUnique | routes/auth.js:60-73 | the loop can accept one candidate only |
| Registration.LookupFindsTaken | routes/auth.js:61-66 | with unique slugs, a lookup that does not fail answers with a row iff the slug is taken |
| Registration.AcceptedFirstFree | routes/auth.js:57-74 | with no failed lookup and unique slugs, a candidate is accepted iff it is free and every earlier one is taken |
| Registration.FailedLookupAcceptsTaken | routes/auth.js:61-68 | a failed lookup reads as a free slug, so a taken slug is accepted |
| Registration.SharedSlugAccepted | routes/auth.js:61-68 | a slug two photographers already share makes `.single()` fail, so it is accepted again |
| Registration.NewPhotographerInTrial | routes/auth.js:76-90 | `NewPhotographer`, the inserted profile: the user's id and slug, lower-cased e-mail, `pro` plan in a trial ending now + 14 days, passing the access gate |
| Registration.Utf16Length | routes/auth.js:25 | `password.length` counts UTF-16 units: between the code point count and twice it |
| Registration.AccessImpliesLogin | routes/auth.js:173-193 | whoever passes the middleware satisfies `LoginAllowed` |
| Registration.LoginLaxerThanGate | routes/auth.js:173-193 | an ended trial without subscription expiry may log in yet is refused by the middleware |
| Registration.Accounts.constructor | routes/auth.js:14-124 | the account tables start as given |
| Registration.Accounts.Register | routes/auth.js:14-124 | 400 iff a field is missing; 400 iff the password is shorter than 8 UTF-16 units; 400 iff the identity provider refuses; 500 iff the profile insert fails; these create nothing. Success adds the user and a `pro` trial ending now + 14 days whose slug is the loop's accepted candidate for the display name: the base slug when free, and a free one when no lookup fails |
| Registration.Accounts.CreateProfile | routes/auth.js:76-104 | the user is added; a failed insert deletes it again and writes no profile (500); otherwise the new profile is stored under the user id |
| Registration.Accounts.Login | routes/auth.js:160-199 | unknown profile; expired iff the login rule fails, marking `expired`; else `last_login_at` is set |
| Subscriptions.Newest | routes/subscriptions.js:50-58 | the newest matching row, or none iff no row matches |
| Subscriptions.Count | routes/subscriptions.js:309-313 | the number of rows a `.single()` lookup without a limit sees: at most the table size, and zero iff no row matches |
| Subscriptions.Single | routes/subscriptions.js:299-318 | `.single()` succeeds iff exactly one row matches, and returns it |
| Subscriptions.SimulatedId | routes/subscriptions.js:83-119 | a simulated preapproval id starts with `dev_preapproval_` |
| Subscriptions.RetireCancelled | routes/subscriptions.js:50-66 | retiring keeps the row count |
| Subscriptions.CreateRejectsInvalidPlan | routes/subscriptions.js:28-30 | `CreateSpec`, `/create` as a function, answers 400 with no write for a plan outside pro/premium |
| Subscriptions.CreateBlockedByOpen | routes/subscriptions.js:33-47 | 400 iff an `active`/`pending` row with no `cancelled_at` exists, writing nothing |
| Subscriptions.RetireCancelledRows | routes/subscriptions.js:50-66 | retiring expires the photographer's newest active-but-cancelled row and keeps every other row |
| Subscriptions.CreateKeepsRetired | routes/subscriptions.js:50-66 | past the guards, the rows `create` leaves start with the retired rows, whatever fails later |
| Subscriptions.CreateRetiresCancelled | routes/subscriptions.js:50-66 | the newest active cancelled row becomes `expired`; other rows are kept |
| Subscriptions.CreateInsertsNew | routes/subscriptions.js:121-148 | the new row: `active` iff simulated else `pending`, plan price, period end one calendar month later (28 to 31 days) |
| Subscriptions.CreateActivation | routes/subscriptions.js:150-161 | in simulation the photographer becomes `active` on the plan and passes the gate; otherwise photographers are untouched |
| Subscriptions.CancelMarksNewestActive | routes/subscriptions.js:182-233 | under `CancelSpec`, the newest active row becomes cancelled at period end, answering its period end; the photographer is untouched |
| Subscriptions.SimulatedNeverCallsProcessor | routes/subscriptions.js:201-209 | cancelling a simulated subscription never calls the processor |
| Subscriptions.CancelledNeverRetired | routes/subscriptions.js:212-219 | the row `/cancel` marks has status `cancelled` with a date, so it no longer blocks `create` and `create`'s retirement leaves it as it is |
| Subscriptions.PaymentsOf | routes/subscriptions.js:261-266 | the status view lists exactly the subscription's payments (their order: `PaymentsOfNewestFirst`) |
| Subscriptions.PositionsOrdered | routes/subscriptions.js:261-266 | the listed positions are rows of the subscription, strictly from newest to oldest, and miss none |
| Subscriptions.PaymentsOfNewestFirst | routes/subscriptions.js:261-266 | the listed payments are the table rows at those positions, so newest first |
| Subscriptions.StatusOf | routes/subscriptions.js:239-283 | no subscription iff none for the photographer, with the profile's status and trial end; otherwise their newest subscription row, no later row being theirs, with its payments and the profile's status, trial end and expiry |
| Subscriptions.PreapprovalRowStatus | routes/subscriptions.js:319-348 | authorized → active, cancelled → cancelled, paused → paused, anything else → no update |
| Subscriptions.UpdatePhotographer | routes/subscriptions.js:328-342 | the photographer update touches only that photographer, if present |
| Subscriptions.WebhookSpec | routes/subscriptions.js:289-423 | plans never change; other topics change nothing |
| Subscriptions.PreapprovalMapping | routes/subscriptions.js:299-350 | `PreapprovalSpec`: with one matching row, authorized → both active (expiry = next payment date), cancelled → both cancelled, paused → subscription only; otherwise nothing |
| Subscriptions.PaymentMapping | routes/subscriptions.js:351-419 | `PaymentSpec`: a record is appended, `approved` iff approved; approved extends the period a month and activates the photographer; rejected makes them `past_due` and gated; others only record |
| Subscriptions.PaymentNeedsSingleRow | routes/subscriptions.js:360-370 | without a payer id or a single active row the payment changes nothing |
| Subscriptions.SubscriptionStore.constructor | routes/subscriptions.js:22-176 | the store starts as given |
| Subscriptions.SubscriptionStore.Create | routes/subscriptions.js:22-176 | the handler's writes and answer equal the create specification's |
| Subscriptions.SubscriptionStore.Cancel | routes/subscriptions.js:182-233 | the handler's writes and answer equal the cancel specification's |
| Subscriptions.SubscriptionStore.Webhook | routes/subscriptions.js:289-423 | the handler's writes equal the webhook specification's |
| CivilDate.DaysInYear | routes/subscriptions.js:122-123 | 365 or 366, 366 iff leap |
| CivilDate.DaysInMonth | routes/subscriptions.js:122-123 | 28 to 31 days; February has 29 iff leap |
| CivilDate.FollowingMonth | routes/subscriptions.js:122-123 | December rolls into January of the next year |
| CivilDate.AddOneMonth | routes/subscriptions.js:122-123 | `setMonth(getMonth()+1)` keeps the time of day, and the date when it fits the next month |
| CivilDate.AddOneMonthDays | routes/subscriptions.js:122-123 | the day number grows by the days of the current month |
| CivilDate.AddOneMonthShift | routes/subscriptions.js:375 | the time value grows by 28 to 31 days |
| CivilDate.JanuaryThirtyFirstOverflows | routes/subscriptions.js:122-123 | 31 January 2024 plus one month is 2 March 2024 |
| GalleryCart.FirstIndex | public/js/gallery.js:84-86 | `find` gives the first entry for the photo, none iff absent |
| GalleryCart.Added | public/js/gallery.js:82-102 | the photo is in the cart; the length grows iff it was new; other entries unchanged |
| GalleryCart.AddedCount | public/js/gallery.js:82-102 | adding raises Σ quantity by one |
| GalleryCart.AddedTotal | public/js/gallery.js:82-102 | adding raises the total by the stored price of the existing entry, or the new price |
| GalleryCart.AddedWellFormed | public/js/gallery.js:82-102 | adding keeps one entry per photo with positive quantities |
| GalleryCart.Removed | public/js/gallery.js:104-110 | an entry survives iff it was there and is another photo |
| GalleryCart.RemovedConcat | public/js/gallery.js:104-107 | removal is a filter, so survivors keep their order |
| GalleryCart.RemoveUndoesAdd | public/js/gallery.js:82-110 | removing a newly added photo restores the cart |
| GalleryCart.RemovedDistinct | public/js/gallery.js:104-107 | removal keeps ids distinct |
| GalleryCart.RemovedWellFormed | public/js/gallery.js:104-107 | removal keeps the cart well formed and drops the photo |
| GalleryCart.CountAtLeastLength | public/js/gallery.js:70 | with positive quantities the count is at least the number of entries |
| GalleryCart.DisabledIffEmpty | public/js/gallery.js:79 | the checkout button is disabled iff the cart is empty |
| GalleryCart.ValidEmailCharacterised | public/js/gallery.js:453-457 | `IsValidEmail`, the pattern, holds iff no white space, exactly one `@` not first, and a `.` with text either side after it |
| GalleryCart.AsCartLines | public/js/gallery.js:268-277 | the posted cart keeps id, price and quantity of each entry |
| GalleryCart.ServerTotalAgrees | server.js:536 | for a well-formed cart, the server's total equals the page's total |
| GalleryCart.RequestPassesServerCheck | server.js:531-533 | a non-empty cart with a valid e-mail passes the server's 400 check |
| GalleryCart.StoredCart.constructor | public/js/gallery.js:65-66 | the stored cart starts as given |
| GalleryCart.StoredCart.AddToCart | public/js/gallery.js:82-102 | the loop-and-mutate implementation equals `Added` |
| GalleryCart.StoredCart.RemoveFromCart | public/js/gallery.js:104-110 | the cart becomes `Removed` |
| GalleryCart.StoredCart.ConfirmCartEmail | public/js/gallery.js:404-444 | a request iff the trimmed e-mail is valid, with the whole cart; the cart is cleared only on success |
| GalleryCart.StoredCart.BuyNow | public/js/gallery.js:260-310 | a request iff the trimmed e-mail is valid, with a one-entry cart of quantity 1; on success the whole stored cart is cleared |
| AlbumGallery.UuidGroups | public/gallery.js:47-50 | the UUID pattern accepts exactly 8-4-4-4-12 hex groups joined by dashes |
| AlbumGallery.UuidPassesServerCheck | public/gallery.js:47-50 | an accepted id passes the server's id check and has nothing to trim |
| AlbumGallery.FindPhoto | public/gallery.js:100-101 | finds a loaded photo with that id; none iff absent |
| AlbumGallery.AlbumPage.constructor | public/gallery.js:97-127 | no album loaded at first |
| AlbumGallery.AlbumPage.Search | public/gallery.js:40-94 | each outcome iff its cause: empty trimmed id, non-UUID id (both keep the album), photos found (the album becomes them), none found, HTTP error, connection error (the album is emptied) |
| AlbumGallery.AlbumPage.ClickAdd | public/gallery.js:97-127 | added iff the photo is in the loaded album, as `Added`; otherwise the cart is unchanged |
| AlbumGallery.AlbumPage.Checkout | public/gallery.js:130-176 | a request iff the cart is non-empty and the e-mail has an `@`; the cart and album are cleared only on success |
| IndexCart.AddedOnce | public/js/indexprueba.js:51-63 | the photo is present; a present id leaves the cart unchanged, otherwise it is appended |
| IndexCart.AddIdempotent | public/js/indexprueba.js:51-63 | adding twice is adding once |
| IndexCart.AddKeepsDistinct | public/js/indexprueba.js:51-63 | ids stay distinct |
| IndexCart.AddedCountAndTotal | public/js/indexprueba.js:24-46 | count and total grow by 1 and the price only for a new photo |
| IndexCart.Without | public/js/indexprueba.js:65-69 | an entry survives iff it was there and its id is not strictly equal (`===`, so a number never equals a string) to the given one |
| IndexCart.WithoutConcat | public/js/indexprueba.js:65-69 | removal is a filter, so survivors keep their order |
| IndexCart.RemoveUndoesAdd | public/js/indexprueba.js:51-69 | removing a newly added photo restores the cart |
| IndexCart.ButtonArgument | public/js/indexprueba.js:42 | the × button passes the id rendered as a string, never equal to a numeric id |
| IndexCart.NumericClickKeepsCart | public/js/indexprueba.js:42 | on a cart of numbered photos a × click removes nothing |
| IndexCart.StringClickRemoves | public/js/indexprueba.js:42 | on an entry with a string id the click removes exactly the photos with that id |
| IndexCart.OwnIdClickRemoves | public/js/indexprueba.js:65-69 | passing the entry's own id removes it and keeps every other photo |
| IndexCart.EmailChecksNested | public/js/indexprueba.js:80-90 | gallery pattern ⇒ `@` and `.` ⇒ `@`; `.@` passes this page but not the gallery |
| IndexCart.IndexPage.constructor | public/js/indexprueba.js:19-20 | the page starts with the stored cart |
| IndexCart.IndexPage.UpdateCartUI | public/js/indexprueba.js:22-49 | the badge shows the entry count; the loop's total is Σ price |
| IndexCart.IndexPage.AddToCart | public/js/indexprueba.js:51-63 | the cart becomes `AddedOnce`; the display is refreshed only when it changed |
| IndexCart.IndexPage.RemoveFromCart | public/js/indexprueba.js:65-69 | the cart becomes `Without` the given id and the display is refreshed |
| IndexCart.IndexPage.ClickRemove | public/js/indexprueba.js:42 | the cart becomes `Without` the button's string argument, so a cart of numbered photos is unchanged; the display is refreshed |
| IndexCart.IndexPage.CheckoutCart | public/js/indexprueba.js:71-78 | the prompt opens iff the cart is non-empty |
| IndexCart.IndexPage.ConfirmCartPurchase | public/js/indexprueba.js:80-92 | done iff the e-mail has `@` and `.`; then the cart is removed, otherwise unchanged |
| IndexCart.Step | public/js/indexprueba.js:261-265 | the next slide stays in range and wraps to 0 exactly after the last |
| IndexCart.ModIsStep | public/js/indexprueba.js:263 | `(i + 1) % total` is that step |
| IndexCart.Advance | public/js/indexprueba.js:261-265 | after any number of ticks the slide stays in range |
| IndexCart.AdvanceWithinRound | public/js/indexprueba.js:261-265 | up to a full round, k ticks move k slides, wrapping once |
| IndexCart.AdvanceRound | public/js/indexprueba.js:261-265 | a full round returns to the starting slide |
| IndexCart.Carousel.constructor | public/js/indexprueba.js:234 | the carousel starts on slide 0 |
| IndexCart.Carousel.NextSlide | public/js/indexprueba.js:261-265 | the slide advances by `Step` and stays in range |
| SuccessPage.FirstMatch | public/js/success.js:18-23 | the regex matches at the leftmost `?name=`/`&name=` |
| SuccessPage.ValueFrom | public/js/success.js:18-23 | the value is the longest run without `&` or `#` |
| SuccessPage.PlusToSpace | public/js/success.js:22 | every `+` becomes a space, nothing else changes |
| SuccessPage.BackUrlCarriesQuery | server.js:581-583 | the processor's return URL is the success page with `?orderId=…&customerEmail=<encoded>` |
| SuccessPage.OrderIdRaw | public/js/success.js:18-23 | the raw `orderId` match in a return URL is the id itself, for an id with nothing to escape |
| SuccessPage.EmailParameterFound | public/js/success.js:18-23 | the leftmost `[?&]customerEmail=` in a return URL is the one right after the order id |
| SuccessPage.EmailRaw | public/js/success.js:18-23 | the raw `customerEmail` match is the whole percent-encoded address |
| SuccessPage.ReadBackOrderId | public/js/success.js:18-23 | `GetUrlParameter` reading `orderId` from that query gives the id back |
| SuccessPage.ReadBackEmail | public/js/success.js:18-23 | reading `customerEmail` from that query gives the e-mail back, through encode and decode |
| SuccessPage.BackLinkStartsPolling | public/js/success.js:120-131 | `ReadParams` of the return URL starts polling for that order, unless the id or the e-mail is empty |
| SuccessPage.PollMeaning | public/js/success.js:53-118 | `Poll`: at most `maxRetries` fetches, all earlier replies still waiting; each outcome iff its reply: rendered, expired link, server error, connection error, time-out |
| SuccessPage.SentKey | public/js/success.js:27-28 | the flag key is the prefix followed by the order id |
| SuccessPage.SentKeyInjective | public/js/success.js:27-28 | different orders have different flags |
| SuccessPage.NotifyKeepsOnePerOrder | public/js/success.js:25-51 | at most one delivered mail per order, and only flagged orders have mail |
| SuccessPage.NotifyOnce | public/js/success.js:25-51 | after a successful send `Notify` leaves the order flagged and later calls change nothing |
| SuccessPage.FailedSendRetried | public/js/success.js:32-50 | a failed send leaves the order unflagged and delivers nothing |
| SuccessPage.MailLinkLeadsBack | public/js/success.js:30 | the mailed link carries the order and e-mail back to this page |
| SuccessPage.Page.constructor | public/js/success.js:120-131 | the page starts with the stored flags and no mail |
| SuccessPage.Page.SendEmailNotification | public/js/success.js:25-51 | the page's state becomes `Notify` of the old one |
| SuccessPage.Page.FetchOrderDetailsWithRetry | public/js/success.js:53-118 | the loop's outcome and fetch count equal `Poll`; mail is sent iff the photos are rendered |
| SuccessPage.Page.OnLoad | public/js/success.js:120-131 | polling runs iff both parameters are present, with 12 retries, and its outcome is `Poll`'s; the page then holds `Notify` of its old state iff the photos were rendered, and is otherwise unchanged |
| UriCodec.Utf8 | public/js/success.js:30 | a character encodes to 1 to 4 UTF-8 bytes |
| UriCodec.PercentBytes | public/js/success.js:30 | each byte becomes `%XY`: only unreserved characters and `%` |
| UriCodec.EncodeURIComponent | server.js:581-583 | the encoded text holds only unreserved characters and `%` |
| UriCodec.DecodeStep | public/js/success.js:22 | a decoding step consumes at least one character |
| UriCodec.DecodeStepOfEncoded | public/js/success.js:22 | decoding the encoding of one character gives it back |
| UriCodec.DecodeEncode | public/js/success.js:22 | `DecodeURIComponent(EncodeURIComponent(s)) == s` |
| UriCodec.DecodePlain | public/js/success.js:22 | text without `%` decodes to itself |
| JsText.Trim | public/js/gallery.js:261 | trimming leaves no leading or trailing white space and keeps space-free text |
| JsText.TrimSlice | public/js/gallery.js:261 | `trim` returns a slice of the input with only white space outside it |
| JsText.Split | server.js:777-780 | `split` gives separator-free parts that join back to the input |
| JsText.SplitJoin | server.js:777-780 | splitting a join of separator-free parts gives the parts |
| JsText.ToLowerAscii | routes/auth.js:33 | lower-casing maps each character, keeping the length |
| JsText.NatToString | routes/auth.js:72 | `String(n)` is a non-empty digit string (its value: `NatToStringValue`) |
| JsText.NatToStringValue | routes/auth.js:72 | the digits of `String(n)` read back as n |
| JsText.NatToStringInjective | routes/auth.js:71-72 | different counters print differently |
| JsText.IncludesFrom | public/gallery.js:139 | `includes` holds iff the text occurs at some index |

## Left out

- The database and the payment processor are not modelled as code. Their answers are inputs, and the failures listed at the top are input flags. Row order is table order.
- Checkout.CheckoutPhotoNotFound: a failed photo lookup is folded into the 404 of a missing photo, as the handler tests only `!photoData` and never reads the error.
- Reconcile.ReconcileSkips: the order read and the item read are one flag, `readsOk`; both end the call the same way.
- Registration.Accounts.CreateProfile: the identity provider's user deletion on rollback is a set removal that always succeeds.
- These database calls always answer in the model, so their error branches are not modelled:
  - `/subscriptions/create`: the open-subscription lookup (`routes/subscriptions.js:33-41`) and the cancelled-subscription lookup (`50-58`). In the source a failed lookup reads as no row, so a second open subscription can be created, or a cancelled one left unretired.
  - `/subscriptions/create`: the retiring update (`60-66`), the plan lookup whose error answers 404 (`69-77`), and the activation update.
  - `/subscriptions/cancel`: the lookup whose error answers 404 (`187-198`) and the cancellation update.
  - `/subscriptions/status`: the lookup whose error answers "no subscription" (`244-260`) and the payments read.
  - The subscription webhook's lookups, updates and payment insert.
  - Login: the profile lookup whose error answers 404 (`routes/auth.js:159-169`), and the updates at `179-182` and `196-199`.
  - The download gate's three lookups (`server.js:1216-1243`). An error there answers as a missing row does, so only the error itself is unmodelled.
  - The quota handler: its select, whose error other than `PGRST116` is thrown and answers 500 (`server.js:1547-1556`); the counter insert; the photo lookup; and the counter update.
- Image upload and watermarking (`server.js:609-748`, `server/server.js:341-473`) are not part of this model: they are foreign calls.
- HMAC-SHA256 is an uninterpreted function, and URL signing is a function parameter. `timingSafeEqual` is plain equality.
- The replay cache's `setTimeout` expiry is the explicit `Expire` operation. The 3- and 5-second delays and other timers are not modelled.
- Money is an integer in minor units, so JS floating-point prices, `toFixed` and `transaction_amount * 100` are not modelled.
- Dates are integer milliseconds. `setMonth` is modelled on a UTC civil date. Local time zones and date-string parsing, including `Invalid Date`/NaN, are not modelled.
- JsText.ToLowerAscii: lower-cases ASCII letters only, not the full Unicode case mapping of `toLowerCase`.
- JsText.Trim: uses the ECMAScript white-space and line-terminator set; nothing else.
- UriCodec.EncodeURIComponent: Dafny characters are Unicode scalar values, so the URIError that a lone surrogate raises is not modelled.
- SuccessPage.FirstMatch: the parameter name is matched literally, so regex metacharacters in a name are not escaped.
- Monitoring.SanitizeMetadata: models metadata that is a flat string map; the non-object pass-through and nested values are left out.
- Monitoring.BreakdownAccurate: covers the arithmetic of `formatUptime`, not the string it builds.
- Subscriptions.StatusOf: the join with the plans table in the status route is not modelled.
- Registration.Accounts.Login: the identity provider's password check (`routes/auth.js:138-157`) is an input.
- Rate limiters, CORS, helmet, static files, health, monitoring and testing endpoints are not modelled: they are Express plumbing.
- DOM rendering and event wiring are not modelled. `localStorage` is a field of the page classes, and a user clearing it is not modelled.
- On the success page, the e-mail is interpolated unencoded into the status URL. The model treats that request as an opaque reply.
- SuccessPage.ReadBackOrderId: assumes the order id has only unreserved characters, as a UUID does. The server interpolates it without encoding.
- The second `confirmBuyNowBtn` handler (`public/js/gallery.js:467-479`) only toggles the error message and logs. It is not modelled.
- Workshop data and carousel rendering (`public/js/indexprueba.js:225-268`) are display only. The model keeps the slide index.

## Behaviours the model keeps

These are places where the code does something a reader might not expect. The model follows the code, and a lemma states each behaviour:

- `server.js:765` defaults `x-request-id` to `no-request-id`, so the `topic-dataId` key fallback at line 804 is never used (`Webhook.IdempotencyKeyIsRequestId`). Every delivery without that header shares a single key.
- `procesarOrden` treats an order as settled only when it has a payment id. A merchant order with no payments settles with a null id, and a redelivery then extends the expiry again (`Reconcile.ReconcileNoPaymentResettles`).
- The download gate never looks at `download_expires_at` (`Downloads.GateIgnoresExpiry`).
- The quota handler is registered after a handler that always responds, so it never runs. It also reads `descargas` by `user_id`, while settlement writes `user_email`.
- The earlier webhook overwrites the payment id on every paid delivery (`LegacyWebhook.LegacyRepeatRewritesPaymentId`).
- Login lets an ended trial through when no subscription expiry is set, yet the middleware refuses it (`Registration.LoginLaxerThanGate`).
- `sanitizeMetadata` redacts any key that contains `key`, such as `monkey` (`Monitoring.SensitiveExamples`).
- `setMonth` on 31 January lands in March (`CivilDate.JanuaryThirtyFirstOverflows`).
- `/subscriptions/cancel` sets the status to `cancelled`, while `/subscriptions/create` retires only `active` rows with a cancellation date. A subscription cancelled through the route is therefore never expired by a later `create` (`Subscriptions.CancelledNeverRetired`).
- Buy-now clears the whole stored cart, not just the one photo it bought (`GalleryCart.StoredCart.BuyNow`).
- A failed items insert at checkout leaves a `pending` order without items, which settlement then never settles (`Checkout.OrphanOrderNeverSettles`).
- A failed counter lookup in settlement reads as no row, so a second `descargas` row is inserted (`Reconcile.ReconcileFailedLookupDuplicates`); a failed slug lookup at registration likewise accepts a taken slug (`Registration.FailedLookupAcceptsTaken`).

## Findings

| source | as written | input that shows it | evidently intended | confidence | as-written member | corrected member |
|---|---|---|---|---|---|---|
| public/js/indexprueba.js:42 | the × button calls `removeFromCart('${item.id}')`, a string, and the filter at line 66 compares with `!==` | a cart holding `{id: 1}`; clicking its × leaves the cart unchanged | the button removes its own entry | not executed | IndexCart.NumericClickKeepsCart | IndexCart.OwnIdClickRemoves |

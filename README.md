# RareHunter TCG collection: stock counters and collection import

This project models the core of a Django shop for trading-card collections. It has two parts.

**Stock counters.** Each `CollectionCard` row has a `quantity` and a `reserved` count.
- The checkout view reserves units under a row lock, then opens a Stripe checkout session.
- The Stripe webhook later *settles* the hold (the payment completed) or *releases* it (the session expired or the payment failed).
- A read-only status endpoint derives `available` and the sold-out and reserved flags from the two counters.
- A management command, the *sweeper*, asks Stripe to expire this shop's checkout sessions once they are more than ten minutes old.

**Collection import.** Collections arrive as JSON card records.
- The JSON importer (`run_import_batch`) resolves each record's card and set by a lookup chain, creating them when nothing matches.
- It then identifies an existing collection row or creates a new one. A matched row is updated by the batch's *merge* rules (fill only empty fields) or *replace* rules (overwrite).
- The admin's zip import deletes every collection row and recreates one row per record, with its own defaulting rules.

Modules:
- `Common`: `Option`.
- `Text`: Python's `strip`, ASCII lower-casing and `iexact` comparison.
- `Payload`: the JSON card records, with Python truthiness and the `or` defaults.
- `Models`: the entities, their defaults, `available`, the set label, the import mode and `Order` uniqueness.
- `Checkout`: the `StockCounter` class (one instance per locked row), the reserve, settle and release transitions, and the two views.
- `CardStatus`: the status endpoint.
- `Sweeper`: the expiry command.
- `Database`: a `Store` class whose fields are the card, set, row and batch tables (`seq`s, in primary-key order). It provides the ORM lookups (`.first()` is the lowest index) and the row insert, save and delete operations.
- `Importer`: the JSON importer.
- `Admin`: the zip import.

Inputs that are not code:
- Stripe's answers are parameters: the session-creation outcome, whether a webhook signature verifies, and the result of each expire call.
- The clock is a parameter `now`.
- Each `transaction.atomic` block is one step. The rollback of a failed checkout is an explicit `Restore` of the row.

## Model

| member | source | states |
|---|---|---|
| Models.Available | collection/models.py:78-80 | available plus reserved is quantity |
| Models.NewCollectionCard | collection/models.py:57-60 | a new row has 1 unit, 0 reserved, edition 'Unlimited' and a blank condition, so 1 unit is available |
| Models.CardSetLabel | collection/models.py:34-35 | the label starts with the name; it is exactly the name iff the code is empty or null; otherwise the rest is " (code)" |
| Models.ModeOf | collection/importer.py:113 | a batch behaves as replace iff its mode is exactly 'replace'; any other value behaves as merge |
| Models.NewImportBatch | collection/models.py:49 | a new batch's mode is among the choices and reads as merge |
| Models.ModeChoicesAreDistinct | collection/models.py:49 | the two choices read as merge and replace; a value outside the choices reads as merge |
| Models.CreatedRow | collection/importer.py:191-207 | a created row carries the given card, set, batch and column values, with 0 reserved, so all its units are available |
| Models.InsertOrder | collection/models.py:8 | an insert is refused iff the Stripe order id is already stored; otherwise it appends; uniqueness is preserved |
| Models.AtMostOneOrderPerId | collection/models.py:8 | under the unique constraint at most one order has a given Stripe id |
| Checkout.AfterReserve | collection/views.py:62-69 | a reservation is granted iff qty is at most the available units, with no positivity check; it raises reserved by qty, keeps quantity, and leaves available at least 0 |
| Checkout.AfterSettle | collection/views.py:141-142 | both counters drop by qty; available is unchanged |
| Checkout.AfterRelease | collection/views.py:153 | reserved drops by qty, quantity is unchanged, available rises by qty |
| Checkout.ReserveThenSettle | collection/views.py:68 | reserve(q) then settle(q) lowers quantity by q and returns reserved to its earlier value |
| Checkout.ReserveThenRelease | collection/views.py:68 | reserve(q) then release(q) restores the exact prior counters |
| Checkout.RepeatedReleaseOverReleases | collection/views.py:146-157 | a second delivery of the same expiry releases units nobody holds: reserved goes negative and available exceeds quantity |
| Checkout.RepeatedSettleSellsTwice | collection/views.py:134-143 | a second delivery of the same completion lowers quantity by 2q |
| Checkout.SerialReservationsNeverOversell | collection/views.py:57-69 | any serialised sequence of reservation attempts keeps quantity, adds exactly the granted units to reserved, never exceeds the units first available, and leaves available at least 0 |
| Checkout.StockCounter.Reserve | collection/views.py:63-69 | the row's counters become those of `AfterReserve`, or stay unchanged when refused; the result says which |
| Checkout.StockCounter.Restore | collection/views.py:57-58 | the rolled-back row holds exactly the saved counters |
| Checkout.StockCounter.Settle | collection/views.py:141-143 | the row's counters become those of `AfterSettle` |
| Checkout.StockCounter.Release | collection/views.py:153-154 | the row's counters become those of `AfterRelease` |
| Checkout.ParseCheckoutBody | collection/views.py:50-55 | the payload parses iff the card id is present and an integer and the quantity is absent or an integer; a missing quantity means 1 |
| Checkout.CreateCheckoutSession | collection/views.py:46-113 | 400 for a non-POST request or a malformed payload, before any lookup; 404 for an unknown card; 400 "Not enough stock" when the reservation is refused; 500 with the gateway's message after rolling the hold back; otherwise a redirect with the hold in place; no other row changes, and no row changes on any refusal |
| Checkout.VerifiedEvent | collection/views.py:122-131 | with a secret, an event is accepted iff the signature verifies and the body parses; without one, iff the body parses |
| Checkout.Dispatch | collection/views.py:134-157 | completed settles; expired or payment_failed releases; any other type is acknowledged; a handled type with unconvertible metadata raises |
| Checkout.StripeWebhook | collection/views.py:115-157 | 400 and no change on a failed check; 200 and no change for unhandled types; settle or release applied to the named row with 200; 500 for an unknown row or bad metadata; only the named row can change |
| Checkout.CheckoutAllUnits | collection/views.py:57-69 | on a card with five units, a checkout for five redirects and holds all five, leaving none available |
| Checkout.CheckoutWhenSoldOut | collection/views.py:53-65 | with all five held, a checkout with the default quantity of 1 is refused with 400 "Not enough stock" and changes nothing |
| Checkout.ExpiryReleasesHold | collection/views.py:146-157 | the expiry webhook for that hold returns 200 and makes the five units available again |
| Checkout.RepeatedExpiryOverReleases | collection/views.py:146-157 | a second delivery of the same expiry returns 200 and leaves Stock(5,-5), with 10 available |
| CardStatus.CardStatus | collection/api_views.py:6-19 | 405 unless GET; 404 iff the id is unknown; a GET on a known id always gives the status, with the stored counters with available + reserved == quantity, sold out iff available <= 0, reserved iff reserved > 0 and available > 0, never both, never reserved with 0 held; it reads only |
| Sweeper.Selected | management/commands/expire_stripe_sessions.py:21-26 | the selected sessions are exactly the listed ones that are tagged and strictly older than MaxAge |
| Sweeper.SelectedKeepsOrder | management/commands/expire_stripe_sessions.py:21-26 | the selected sessions are a subsequence of the listed ones: the walk keeps their order |
| Sweeper.SelectedCounts | management/commands/expire_stripe_sessions.py:21-26 | a stale session occurs in the selection exactly as often as in the listing, and any other session not at all |
| Sweeper.UntaggedNeverSelected | management/commands/expire_stripe_sessions.py:23-24 | a session without the "rarehunter_cart" source is never selected |
| Sweeper.AgeExactlyMaxIsKept | management/commands/expire_stripe_sessions.py:7 | a tagged session exactly 600 s old is kept; one second later it is selected |
| Sweeper.Succeeded | management/commands/expire_stripe_sessions.py:27-29 | the count is at most the number of calls, and equals it iff every call succeeded |
| Sweeper.Errors | management/commands/expire_stripe_sessions.py:30-31 | one logged message per failed call; failures plus successes equal the calls |
| Sweeper.Handle | management/commands/expire_stripe_sessions.py:12-33 | expiry is requested for exactly the selected sessions, all judged against one `now`; a failure does not stop the walk; the reported count is the number of successes |
| Text.Strip | collection/importer.py:9-10 | the result is the input with its leading and trailing whitespace removed: it is a slice of the input, every character before and after it is whitespace, and it has no surrounding whitespace itself; it is empty iff the input is all whitespace; a trimmed input is unchanged |
| Text.StripIdempotent | collection/importer.py:9-10 | stripping twice is stripping once |
| Text.Normalize | collection/importer.py:9-10 | None gives ''; a value is stripped; the result is trimmed |
| Text.NormalizeIdempotent | collection/importer.py:9-10 | normalising a normalised value changes nothing |
| Text.Lower | collection/importer.py:234-237 | lower-casing keeps the length and maps each character |
| Text.LowerIdempotent | collection/importer.py:234-237 | lower-casing twice is lower-casing once |
| Text.StripUnique | collection/importer.py:9-10 | a non-empty trimmed slice with only whitespace around it is what stripping gives |
| Text.StripOfPadded | collection/importer.py:9-10 | stripping a non-empty trimmed text padded with whitespace on both sides gives that text back |
| Text.StripLower | collection/importer.py:234-237 | stripping and lower-casing commute, so `.strip().lower()` folds case and surrounding whitespace in either order |
| Database.FirstIndex | collection/importer.py:38 | the index of the first element that passes the filter; None iff none does |
| Database.FindSet | collection/importer.py:36-40 | a non-empty code finds the first set with that code, case-insensitively; failing that, a non-empty name finds the first set with that name; otherwise nothing |
| Database.FindCard | collection/importer.py:60-64 | a non-zero Konami id finds the first card with that id; failing that, the first card whose name matches case-insensitively |
| Database.RowsOfBatches | collection/importer.py:224-226 | exactly the rows of the given batches, in table order: a subsequence of the table that holds every row of those batches and no other row; empty iff no row belongs to one |
| Database.WithoutRow | collection/importer.py:256-257 | a subsequence of the table holding exactly the rows whose id differs from the deleted one |
| Database.WithoutRowKeepsOrder | collection/importer.py:256-257 | deleting a row keeps the table in increasing primary-key order |
| Database.Store.FindOrCreateSet | collection/importer.py:36-55 | a found set is returned and the table is unchanged; otherwise one set is appended with the name, the code or null for an empty one, and the release date |
| Database.Store.FindOrCreateCard | collection/importer.py:60-66 | a found card is returned and the table is unchanged; otherwise one card is appended with the name and the Konami id |
| Database.Store.InsertRow | collection/importer.py:191-207 | the row is appended with the next id |
| Database.Store.SaveRow | collection/importer.py:183-184 | only the saved row changes |
| Database.Store.DeleteAllRows | collection/admin.py:92-93 | returns the number of rows, and none remain |
| Database.Store.DeleteRow | collection/importer.py:256-257 | the table becomes the rows without the deleted one, in order; ids stay increasing |
| Importer.MergeField | collection/importer.py:13-20 | a field that is null or '' takes a non-null new value; otherwise it is unchanged |
| Importer.MergeFieldIdempotent | collection/importer.py:17-20 | merging the same value twice is merging it once |
| Importer.MergeFieldFirstFillWins | collection/importer.py:17-20 | once a merge filled a field with a non-empty value, later merges cannot change it |
| Importer.ImporterValues | collection/importer.py:134-148 | edition defaults to 'Unlimited' when falsy; quantity defaults to 1 when falsy; misprint falls back to `misprints`; effective mid falls back to mid; the other columns are taken as given |
| Importer.ReplacedRow | collection/importer.py:151-164 | all 13 listed columns are overwritten, including set and exported id; id, card and reserved stay; the row takes the batch |
| Importer.ReplacedRowForgetsOldValues | collection/importer.py:23-24 | a replaced row does not depend on what the row held before |
| Importer.MergedRow | collection/importer.py:166-183 | edition and set stay; nine columns merge field by field; quantity is written only over 0; the exported id only when unset and the new one is non-zero; the row takes the batch |
| Importer.MergedRowIdempotent | collection/importer.py:166-183 | merging the same record into a row twice changes nothing the second time |
| Importer.FindOrCreateCardAndSet | collection/importer.py:31-68 | the set is resolved with the normalised code and name, and created when needed (a record without a set still gets one); the card with the Konami id and normalised name |
| Importer.ResolveCardAndSet | collection/importer.py:31-68 | the store stays valid; the set is the first one `FindSet` finds by the normalised code, then the name, with the table unchanged, or else a new set appended with the name, the code or null and the release date; the card likewise by `FindCard` (Konami id, then normalised name) or a new card appended; so both tables only grow and the returned set and card exist |
| Importer.PsaFilter | collection/importer.py:84-90 | a non-empty text psa is used as is, a non-zero number as its decimal text; an object's company, else its cert; only a non-empty value filters |
| Importer.IdentifyCollectionCard | collection/importer.py:75-102 | a non-zero exported id that some row carries selects the first such row; otherwise the first row matching card, set, edition (case-insensitive) and psa when given; None iff neither exists |
| Importer.ExportedIds | collection/importer.py:187-188 | exactly the non-zero exported ids of the records: every one is collected and nothing else is |
| Importer.SavedRow | collection/importer.py:150-184 | replace mode gives the replaced row and merge mode the merged row; either way id, card and reserved stay, and merge mode keeps edition, set, every non-empty merged column, a non-zero quantity and a non-zero exported id |
| Importer.ApplyRecord | collection/importer.py:132-211 | no identified row: exactly one new row with the record's values and the batch; otherwise exactly the identified row is saved by the mode's rules |
| Importer.ImportRecord | collection/importer.py:132-211 | the row `IdentifyCollectionCard` finds in the table as it stands (exported id first, then card, set, edition and psa) is saved by the mode's rules and no other row changes; a row is created, with the next id, exactly when it finds none; the returned position is that row |
| Importer.TrailResolves | collection/importer.py:130-131 | in an import's trail, record k's card and set are what its lookup chains find in the card and set tables as record k finds them, or new ones appended |
| Importer.TrailCreatesIff | collection/importer.py:130-211 | in an import's trail, record k creates a row iff, in the table as record k finds it, no row carries its non-zero exported id and no row matches it on card, set, edition and psa |
| Importer.TrailUpdatesExportedRow | collection/importer.py:75-184 | in an import's trail, a record whose exported id some row carries updates the first such row by the mode's rules and adds no row, so re-importing exported rows never duplicates them |
| Importer.ImportCards | collection/importer.py:130-211 | the import's trail: record k takes the tables from snapshot k to snapshot k + 1, its card and set resolved by the lookup chains and then the row `IdentifyCollectionCard` finds in snapshot k's table saved by the mode's rules, or one row created with the next id when it finds none; snapshot 0 is the store before and the last snapshot the store after; every record is counted once: created + updated == the number of records, and created is the number of records that created a row; the trace names, for each record, the row it was saved into or created as, which now carries the batch: a created row is the next new one, an updated row existed before the record; on an empty table at least the first record creates a row; rows only grow by the created ones; earlier rows either stay as they were or keep id, card and reserved and take the batch, and in merge mode also keep edition, set, every non-empty merged column, a non-zero quantity and a non-zero exported id; new rows carry the batch, a fresh id and 0 reserved; the card and set tables keep every earlier entry in place |
| Importer.RecordKey | collection/importer.py:230-238 | a non-zero id gives the exported-id key; without one, a non-empty object psa or a non-zero numeric psa raises; otherwise the key is the fallback tuple of name, set code, edition (default Unlimited) and psa, each folded: stripped and lower-cased |
| Importer.KeyPsa | collection/importer.py:237 | the psa as the key reads it: a text as is, a falsy value as ''; a truthy non-text value has no text and raises |
| Importer.FoldedIsFolded | collection/importer.py:234-237 | a folded field is trimmed and lower-case |
| Importer.FoldedIgnoresCase | collection/importer.py:234-237 | folding a lower-cased value gives the same as folding the value |
| Importer.FoldedIgnoresPadding | collection/importer.py:234-237 | folding a value padded with whitespace gives the same as folding the value |
| Importer.FallbackKeyIsFolded | collection/importer.py:234-238 | every field of a record's fallback key is trimmed and lower-case |
| Importer.RecordKeyIgnoresNameCaseAndPadding | collection/importer.py:234 | a record whose name differs only in case and surrounding whitespace has the same key |
| Importer.CollectAll | collection/importer.py:228-238 | the set of a key function's values over a list, built in order: missing iff the function fails on some element; otherwise it holds every element's value and only those |
| Importer.RecordKeys | collection/importer.py:228-238 | the key set holds exactly the records' keys: each record's key is in it and every key in it is some record's; it is missing iff some record raises |
| Importer.BuildKeyset | collection/importer.py:228-238 | the loop builds exactly the key set |
| Importer.PreviousBatchIds | collection/importer.py:220-222 | exactly the batches whose name matches case-insensitively, except the current one: every such batch is in the result and every id in it is such a batch's |
| Importer.DeletePreviousBatchRows | collection/importer.py:240-258 | deletes at most as many rows as belong to previous batches, and nothing with a 0 count when none do |
| Importer.RunImportBatch | collection/importer.py:109-260 | created + updated == the number of records and deleted == 0 whenever it returns, and created is the number of records that created a row. Merge mode always returns, and earlier rows keep id, edition, set and reserved. Replace mode deletes every row first: every remaining row is a new row of this batch, the row count equals created, a non-empty import creates at least one row, and it raises iff a record's key raises. In both modes every record's row carries the batch, and the card and set tables keep every earlier entry in place. The import's trail is that of `ImportCards`, starting from the store after the replace-mode wipe |
| Admin.AdminMisprint | collection/admin.py:131-136 | an object misprint becomes its non-empty description or None; any other misprint value becomes itself when non-empty, else None |
| Admin.AdminValues | collection/admin.py:128-147 | a missing edition gives 'Unlimited' but an explicit null stays null; a falsy condition gives '' and a falsy quantity 1; psa and notes become null when empty; prices as given, without the effective-mid fallback |
| Admin.EmptyEditionDiffers | collection/admin.py:128 | an edition given as '' is stored as '' by the zip import and as 'Unlimited' by the JSON importer |
| Admin.AdminCard | collection/admin.py:97-106 | a non-zero Konami id finds the first card with it; failing that, the first card whose exact (unstripped) name matches case-insensitively; a found card's id is returned and the table is unchanged; otherwise one card is appended with the name or '' and the Konami id; either way the card fits the record |
| Admin.AdminSet | collection/admin.py:108-125 | no set without a set object; otherwise the first set with the code, then the first with the name: its id is returned and the table is unchanged; else one set is appended with the name or '', the code or null, and the release date; either way the set fits the set object |
| Admin.ZipResolve | collection/admin.py:97-125 | the card is the one `AdminCard` chooses and the set the one `AdminSet` chooses, in the tables as they were; both fit the record; the tables only grow |
| Admin.CreateZipRow | collection/admin.py:96-167 | one new row with the record's values, the batch, 0 reserved and a fresh id; its card is the first card `FindCard` finds in the table as it was (Konami id, then exact name case-insensitively), or a new card appended; its set is none without a set object, else the first set `FindSet` finds (code, then name), or a new set appended; that card fits the record, the set (present iff the record has a set object) fits its set object; the card and set tables only grow |
| Admin.ImportZipData | collection/admin.py:71-189 | deleted == the row count before the wipe, and no earlier row survives; updated == 0; created == the number of records == the number of rows; row i carries record i's values, the batch, 0 reserved and the i-th fresh id, and refers to an existing card that fits record i and, iff record i has a set object, an existing set that fits it; the card and set tables keep every earlier entry in place; the ghost trail of card and set tables runs from the tables before to the tables after, and row i holds the card and set record i resolves to in the tables as record i finds them, by the rules of `CreateZipRow` |

## Left out

- Stripe (`Session.create`, `Webhook.construct_event`, `Session.list`, `Session.expire`, `auto_paging_iter`): foreign library calls. They are parameters: the gateway outcome, the signature verdict with the parsed body, and the expire result per session id.
- Row locks and transactions: concurrency is not modelled. Each locked block is one atomic step. `SerialReservationsNeverOversell` states what serialisation under the lock gives.
- Float pricing (`get_sell_price`, `int(price*100)`, the Stripe line item and its description, `api_products`, `index`): floating point and rendering. Note that `api_products` reports the raw `quantity` as `available_qty`, not `quantity - reserved`.
- Images, zip extraction, file removal, the `post_delete` file signal, admin messages and form handling: file I/O.
- `print` and `stdout`/`stderr` output: the sweeper's stderr lines are returned as `errors`, and its final count as `expired`.
- Date parsing: release dates are kept as text, and `exported_at` / `ImportBatch.save` in `run_import_batch` are not modelled.
- Python's `repr` of a dict saved into a text column: a psa or misprint object stays an object in a row, and matching and fallback keys read it as null.
- Case folding is ASCII only: `iexact` and `lower()` on non-ASCII letters are not modelled.
- An event body that is JSON but not an object is modelled like an unparsable body (400). In Python, `event.get` would raise (500).
- `payment_intent.payment_failed` carries a PaymentIntent, which has no checkout-session metadata. The handler then raises (500). The model shows this as metadata that is absent, so `Dispatch` gives `Raise`.
- The reservation metadata written by the checkout view has no `source` key. So `Sweeper.Handle` never selects this shop's own sessions. The model keeps the selection as written.
- No `Order` row is ever written by the views. `Models.InsertOrder` models only the table's unique constraint.
- The `UniqueConstraint` on `exported_id` is declared in a module-level `Meta`, so it is not in force. The model allows duplicate exported ids, and `IdentifyCollectionCard` takes the first.
- Database NOT NULL checks are not modelled: a null edition or condition is stored as given.
- The ORM's own `int()` coercion of ids is not modelled: payload ids are integers, and JSON values that are not integers are outside the model.
- A `set` object stored as `{}` is represented as no `set`. Python treats the two alike in both importers.
- Importer.DeletePreviousBatchRows: states only a bound on the number of deletions, not which rows go. In replace mode, which is the only mode that calls it, no row of a previous batch exists at that point.
- Column widths: `quantity`, `reserved` and `exported_id` are 32-bit `IntegerField`s (collection/models.py:59-60 and 72), and `konami_id` is a 64-bit `BigIntegerField`. An out-of-range value, such as a `quantity` of 3000000000, makes the insert or save fail on PostgreSQL or MySQL. The model's integers are unbounded, so it stores such a row. `max_length` limits on text columns are not modelled either.
- A psa that is a float or a boolean is not modelled. A numeric psa is an integer stored as its decimal text.

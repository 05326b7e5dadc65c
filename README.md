# Vendor ticket ledger: a Dafny model

This project models the server actions at the core of a bakery's vendor ticket ledger.
Every vendor has one ticket per day. A ticket has one line per product. A line records the
leftovers carried in (`leftoversPrev`), the quantity issued (`orderQty`), the leftovers at
the end of the day (`leftoversNow`), the sold quantity, the unit price used and the subtotal.
A closed ticket also records its battery surcharge snapshot, total, amount paid, balance,
payment status and any carry-over credit. Four groups of actions act on this ledger:

- **Historical entry** (`app/actions/historical-entry.ts`). `getHistoricalEntry` pre-fills
  the form for one vendor and day. `saveHistoricalEntry` does four things in order:
  - it creates the ticket, or gives it the lines it is missing;
  - it validates every active product's quantities;
  - it writes the lines and closes the ticket;
  - it carries the closing leftovers into the vendor's next open ticket. In deferred mode
    it also moves the money received there as a credit.
- **Prices** (`app/actions/prices.ts`). `setProductPrice` upserts a dated price row. It then
  reprices every line of that product on tickets of every date. Finally it recomputes each
  touched ticket's total, balance and payment status.
- **Initial leftovers** (`app/actions/init-leftovers.ts`). `saveInitialLeftovers` is guarded
  by a PIN. It seeds the `leftoversPrev` column of the 2026-01-01 ticket of every vendor
  named in the request.
- **Vendors** (`app/actions/vendors.ts`). `createVendor` normalises the code the user
  supplied, or generates the next free `V###` code. It then inserts the vendor.

The store is the class `Database.Db`. Its fields are the product table, the vendor table,
the price history, the settings singleton and the tickets keyed by (vendor, date). Each
action is a method that modifies only the fields the source writes. Each action's
postcondition ties the new state to specification functions: `Synced`, `CloseTicket`,
`Propagate`, `Cascade`, `SeedAll` and `ChosenCode`. Lemmas then prove what the ledger
promises about those functions. Money is held as integer cents. Dates are strings that
every action first checks against `YYYY-MM-DD`. They are compared character by character
(`Dates.Less`), which for strings of that shape is calendar order. The database is taken to
collate them in that same order.

Some helpers appear twice in the source: `ensureSettings` and `getPriceForDate` are
defined in both `historical-entry.ts` and `init-leftovers.ts`. Each is modelled once, as
`Database.EnsureSettings` and `Pricing.EffectivePrice`.

In two places the source and the specification disagree. In both, the model follows the source:

- `saveHistoricalEntry` commits the missing lines before it validates the quantities. A
  rejected save therefore leaves the synced ticket behind, not an untouched one.
- `setProductPrice` writes `soldQty * price` as the new subtotal. It does not clamp a
  negative sold quantity to zero.

## Model

| member | source | states |
|---|---|---|
| Database.EnsureSettings | app/actions/historical-entry.ts:27-38 | An existing settings row is returned and kept unchanged. When none exists, the default row (PER_DAY, 3.00, quantity 1) is created and returned. Afterwards the row always exists. |
| Pricing.EffectivePrice | app/actions/historical-entry.ts:40-46 | The result is the price of the row with the latest `validFrom` on or before the date, or 0 when the product has no such row. |
| Pricing.EffectivePriceUnique | app/actions/historical-entry.ts:40-46 | The effective price of a product on a date is unique, so the lookup is well defined. |
| Pricing.PricesForDate | app/actions/historical-entry.ts:70-76 | The table has exactly the given products' ids as keys, and maps each to its effective price on the date. |
| Pricing.Upsert | app/actions/prices.ts:20-29 | The (product, date) row holds the new price, and every other row is unchanged. |
| Pricing.UpsertIsEffectiveOnItsDate | app/actions/prices.ts:20-29 | After the upsert, the new price is the product's effective price on its own `validFrom` date. |
| Ledger.Balance | app/actions/historical-entry.ts:268 | The balance is never negative. It is zero exactly when the payment covers the total; otherwise payment plus balance equals the total. |
| Ledger.StatusFor | app/actions/historical-entry.ts:269 | PAID exactly when the balance is zero. CREDIT exactly when nothing was paid on a positive total. PARTIAL exactly when something, but less than the total, was paid. |
| Ledger.ActiveProducts | app/actions/historical-entry.ts:118-121 | Every returned product is active and in the table, and every active product is returned. Unique ids stay unique. |
| Ledger.ActiveProductsInOrder | app/actions/historical-entry.ts:118-121 | The active products come out as the table filtered in order. The i-th is the row at a strictly increasing position, and every active row's position is used, so each active product appears once, in table order. |
| Ledger.MissingProducts | app/actions/historical-entry.ts:176-177 | The result holds exactly the active products that have no line yet. |
| Ledger.SyncLinesCoversActive | app/actions/historical-entry.ts:175-195 | Existing lines are kept as they were. Afterwards every active product has exactly one line. An inserted line has zero quantities, except for the carried-in `leftoversPrev`, and its product's price. |
| Ledger.NewTicketCoversActive | app/actions/historical-entry.ts:146-173 | A created ticket is OPEN and CREDIT with zero totals. It takes its battery mode and unit price from the settings row, plus the given battery quantity and creator. It has exactly one fresh line per active product. |
| HistoricalEntry.EntryFor | app/actions/historical-entry.ts:138 | The lookup finds nothing exactly when no entry names the product. Otherwise it returns the last entry for that product. |
| HistoricalEntry.EntryOrZero | app/actions/historical-entry.ts:213-218 | A product without an entry gets all-zero quantities. Valid entries stay valid. |
| HistoricalEntry.CheckEntry | app/actions/historical-entry.ts:219-226 | An entry passes exactly when `leftoversNow <= leftoversPrev + orderQty`. The only error it can report is "leftovers exceed" for that product, because the negative-sold check cannot fire. |
| HistoricalEntry.BuildLineUpdates | app/actions/historical-entry.ts:202-238 | The loop succeeds exactly when every active product is within stock, and then yields the closing lines. Otherwise it names the first product in catalogue order that fails. |
| HistoricalEntry.ClosingLinesSound | app/actions/historical-entry.ts:219-237 | Every closing line is within stock, with `soldQty = prev + order - now >= 0`, `subtotal = soldQty * price`, and its product's price for the date. |
| HistoricalEntry.ApplyLineUpdates | app/actions/historical-entry.ts:240-254 | The line batch keeps the ticket's product column unchanged. |
| HistoricalEntry.ClosedLines | app/actions/historical-entry.ts:240-254 | After the batch, each active product's single line is exactly its closing line. Lines of inactive products are left as they were, and products stay unique. |
| HistoricalEntry.CloseTicketFacts | app/actions/historical-entry.ts:256-288 | The closed ticket is CLOSED with no carry-over stamp. The amount received is the payment when leftovers are reported, and the carry-over credit otherwise; never both. The total is the subtotals plus the battery surcharge. Balance and status follow the ledger rules. |
| HistoricalEntry.CarryMap | app/actions/historical-entry.ts:290-292 | The carry map has a key for exactly the products that have a closing line. |
| HistoricalEntry.CarryMapOfClosingLines | app/actions/historical-entry.ts:290-292 | The carry map of the closing lines gives each active product the `leftoversNow` that was entered for it. |
| HistoricalEntry.CarryLineFacts | app/actions/historical-entry.ts:301-314 | A carried line takes the closed leftovers as `leftoversPrev`, or keeps its own. Its `leftoversNow` is clamped into stock, and is unchanged when it already fits. Sold quantity and subtotal are re-derived from the line's own price. Order quantity and price are unchanged, and the floor at zero never bites. |
| HistoricalEntry.NextOpenUnique | app/actions/historical-entry.ts:293-297 | At most one ticket is the vendor's earliest open ticket after the date. |
| HistoricalEntry.FindNextOpen | app/actions/historical-entry.ts:293-297 | The result is the vendor's earliest OPEN ticket strictly after the date. It is None only when there is no such ticket. |
| HistoricalEntry.PropagateFacts | app/actions/historical-entry.ts:299-329 | Carry-over changes the next open ticket's lines, and its payment only when a credit moves. It stamps the closed ticket exactly when the credit moves. It changes no other ticket. |
| HistoricalEntry.GetHistoricalEntry | app/actions/historical-entry.ts:48-107 | A bad vendor id or date is rejected and changes nothing. Otherwise the settings row exists afterwards, the prices are the effective prices on the date, and the form is built from the day's ticket (or from defaults). |
| HistoricalEntry.SavedEntryReadsBack | app/actions/historical-entry.ts:82-106 | A saved entry reads back as typed. The form shows a closed ticket with the battery quantity, the reported flag and the amount received in either mode. Each active product shows the quantities entered (zero when left out) at the price the save used. |
| HistoricalEntry.SyncTicket | app/actions/historical-entry.ts:140-196 | The step creates the ticket, or adds the lines it is missing. Line uniqueness is kept and no other ticket changes. |
| HistoricalEntry.WriteClose | app/actions/historical-entry.ts:240-288 | The line batch and the closing update leave exactly the closed ticket in place. The returned summary is its total, balance and status. |
| HistoricalEntry.CarryOver | app/actions/historical-entry.ts:299-329 | The carry-over writes leave the ledger as `Propagate` describes, and keep line uniqueness. |
| HistoricalEntry.CloseAndCarry | app/actions/historical-entry.ts:240-329 | The ticket is closed, then carried into the vendor's earliest later open ticket, if any. |
| HistoricalEntry.SaveValidated | app/actions/historical-entry.ts:129-331 | After the request checks, the settings row exists and the lines are priced at the effective prices. A new ticket for a vendor missing from the vendor table cannot be inserted, and no ticket changes. Otherwise the ticket is synced, then either left open with the first failing product named, or closed and carried over. |
| HistoricalEntry.SaveHistoricalEntry | app/actions/historical-entry.ts:109-332 | An invalid payload or an unknown product is rejected, and then nothing changes. Otherwise the outcome is that of `SaveValidated`. Line uniqueness is kept throughout. |
| Prices.SetProductPrice | app/actions/prices.ts:15-88 | Invalid input is rejected and changes nothing. An upsert that would insert a row for a product missing from the product table fails with `ProductMissing` and changes nothing. Otherwise the price row is upserted and the ledger is the cascade of the price change. |
| Prices.RecomputeTickets | app/actions/prices.ts:52-85 | Exactly the touched tickets get their total, balance and status recomputed; every other ticket is unchanged. |
| Prices.RepricedValid | app/actions/prices.ts:40-50 | The line batch keeps every ticket's one-line-per-product invariant. |
| Prices.CascadeSplit | app/actions/prices.ts:39-86 | The cascade is the line batch followed by one recompute per touched ticket. With no line of the product, nothing changes. |
| Prices.CascadeFacts | app/actions/prices.ts:34-85 | A ticket without a line of the product is untouched. In a touched ticket, each line of the product takes the new price with `subtotal = soldQty * price`, and every other line stays. The ticket's total, balance and status then agree with its lines; its payment and other fields are kept. |
| Prices.RepriceLinesIdempotent | app/actions/prices.ts:34-50 | Repricing twice gives what repricing once gave, and the product column is kept. |
| Prices.CascadeIdempotent | app/actions/prices.ts:30-86 | Running the cascade again with the same price changes nothing. |
| Prices.SetProductPriceIdempotent | app/actions/prices.ts:15-88 | A second identical price change leaves both the price history and the ledger as the first left them. |
| Prices.PriceChangeReachesEveryLine | app/actions/prices.ts:20-50 | After the change, the new price is effective on its date, and every line of that product on every ticket carries it. |
| InitLeftovers.ConfiguredPinGate | app/actions/init-leftovers.ts:8-34 | With no `INIT_LEFTOVERS_PIN`, a PIN passes the gate exactly when it trims to "1617" and the schema accepts it. A configured value with surrounding whitespace makes every request fail. |
| InitLeftovers.ValidatePin | app/actions/init-leftovers.ts:24-34 | The PIN is checked after trimming. It is accepted exactly when the schema accepts it and it equals the configured PIN. It is "invalid" exactly when the schema rejects it, and "incorrect" exactly when it is well formed but different. |
| InitLeftovers.PinIgnoresSurroundingSpace | app/actions/init-leftovers.ts:24-26 | Whitespace around the PIN never changes the verdict. |
| InitLeftovers.PaddedPinNeverMatches | app/actions/init-leftovers.ts:25-32 | A configured PIN with surrounding whitespace can never be matched. |
| InitLeftovers.Distinct | app/actions/init-leftovers.ts:78 | The vendor list has the same members as the entries' vendor ids, without repetition. |
| InitLeftovers.VendorEntries | app/actions/init-leftovers.ts:114 | The result holds exactly the entries of the given vendor. |
| InitLeftovers.OverwriteLastWins | app/actions/init-leftovers.ts:180-189 | Applying the per-entry updates in order leaves each line with its product's last entered quantity. Lines of products without an entry are unchanged. |
| InitLeftovers.SeedTicketFacts | app/actions/init-leftovers.ts:119-189 | A created ticket is OPEN and CREDIT with zero totals, the settings row's battery mode, unit price and quantity, and the admin as creator. Its fresh lines carry the entered quantities. On an existing ticket only `leftoversPrev` changes: to the last entered quantity, to 0 for an active product without an entry, and not at all otherwise. Missing active products get a line. |
| InitLeftovers.SeedVendor | app/actions/init-leftovers.ts:114-189 | One iteration replaces exactly that vendor's target-date ticket with its seeded form, and keeps line uniqueness. |
| InitLeftovers.SeedVendors | app/actions/init-leftovers.ts:113-190 | The loop over the distinct vendors leaves the ledger equal to the seeding of every named vendor. |
| InitLeftovers.SeedAllStep | app/actions/init-leftovers.ts:113-190 | Seeding one more vendor changes only that vendor's target-date ticket. |
| InitLeftovers.DistinctVendorsCover | app/actions/init-leftovers.ts:78 | The distinct vendor list covers exactly the vendors named in the entries. |
| InitLeftovers.SeedChecked | app/actions/init-leftovers.ts:78-192 | The settings row exists afterwards. The save succeeds exactly when an admin exists and every named vendor and product exists (and is active, for products). A failure names the first failed check and writes no ticket. A success seeds every named vendor at the target-date prices. |
| InitLeftovers.SaveInitialLeftovers | app/actions/init-leftovers.ts:63-193 | Malformed data, a PIN that fails the gate against `ConfiguredPin` of the environment value, or an empty request is rejected, in that order, touching neither settings nor tickets. Otherwise the outcome is that of `SeedChecked`. |
| InitLeftovers.QtyMapAppend | app/actions/init-leftovers.ts:115-117 | Adding an entry to the quantity map overrides any earlier quantity for its product. |
| InitLeftovers.VendorQty | app/actions/init-leftovers.ts:114-117 | A vendor's quantity map holds, for each product, the quantity of the last entry for that (vendor, product) pair. |
| InitLeftovers.SeededVendor | app/actions/init-leftovers.ts:119-189 | A seeded ticket has exactly one line per active product. |
| InitLeftovers.SeedTicketQty | app/actions/init-leftovers.ts:139-188 | Every line of an entered product carries the entered quantity. |
| InitLeftovers.SeededVendorQty | app/actions/init-leftovers.ts:114-189 | In a vendor's seeded ticket, each entered product's line holds its last entered quantity. |
| InitLeftovers.SeededLeftovers | app/actions/init-leftovers.ts:113-190 | After seeding, only the target-date tickets of the named vendors differ from before. Each of them has one line per active product, and each entered line carries the last quantity entered for its vendor and product. |
| Vendors.NormalizeCode | app/actions/vendors.ts:24 | A missing code gives "". Otherwise the result is trimmed and upper-case, no longer than the input, and empty exactly when the input is all whitespace. |
| Vendors.NormalizeCodeIdempotent | app/actions/vendors.ts:24 | Normalising a normalised code changes nothing. |
| Vendors.NormalizeIgnoresPadding | app/actions/vendors.ts:24 | Whitespace around a code does not change its normal form. |
| Vendors.MaxOf | app/actions/vendors.ts:29-34 | The fold bounds every present suffix, and is 0 or one of them. |
| Vendors.MaxSuffix | app/actions/vendors.ts:29-34 | The result is the largest number in a `V<digits>` code (case-insensitive, trimmed), or 0 when there is none. |
| Vendors.PaddedDecimal | app/actions/vendors.ts:36-37 | The zero-padded number is at least three digits long and parses back to the number. |
| Vendors.VendorCodeRoundTrip | app/actions/vendors.ts:29-37 | A generated code is trimmed and upper-case, and the suffix pattern reads it back as the number it was made from. |
| Vendors.VendorCodeInjective | app/actions/vendors.ts:36-37 | Different numbers give different codes. |
| Vendors.UpperOfVendorCode | app/actions/vendors.ts:28-38 | A stored code whose upper-cased form equals a generated code carries that code's number as its suffix. |
| Vendors.FirstCandidateFree | app/actions/vendors.ts:26-41 | The first candidate, one past the largest suffix, is never among the existing codes, so the search loop never has to advance. |
| Vendors.NoVCodesGivesV001 | app/actions/vendors.ts:29-37 | Without any `V<digits>` code in the table, the first generated code is "V001". |
| Vendors.NextFreeCode | app/actions/vendors.ts:36-41 | The loop returns the first candidate from the start number on that is not an existing code. |
| Vendors.StopsAtFirstCandidate | app/actions/vendors.ts:36-41 | Because the first candidate is free, the search stops at the number one past the maximum. |
| Vendors.GenerateVendorCode | app/actions/vendors.ts:26-43 | The code is `V` followed by the largest suffix plus one, padded to three digits. It is not among the existing codes, whatever their case. |
| Vendors.ChosenCodeFacts | app/actions/vendors.ts:86-87 | The chosen code is non-empty, trimmed and upper-case. A supplied code with content is kept in its normalised form. Otherwise the generated code is used, and it collides with no existing code. |
| Vendors.AppendKeepsCodesUnique | app/actions/vendors.ts:88 | Inserting a vendor whose code is unused keeps codes unique. |
| Vendors.CreateVendor | app/actions/vendors.ts:81-96 | Invalid input is rejected. A code that is already taken is rejected. Otherwise a vendor with the chosen code is appended, active and not a favourite by default. The table's code uniqueness is preserved. |
| Text.Trim | app/actions/vendors.ts:24 | The result is the slice of the input between an all-whitespace prefix and an all-whitespace suffix. It neither starts nor ends with whitespace. |
| Text.SkipLeading | app/actions/vendors.ts:24 | The index returned is the first at or after the start that holds no whitespace, or the end of the string. Everything skipped is whitespace. |
| Text.SkipTrailing | app/actions/vendors.ts:24 | The index returned is just past the last non-whitespace character before the end, never below the start. Everything skipped is whitespace. |
| Text.TrimUnique | app/actions/vendors.ts:24 | Any slice with only whitespace around it and none at its own ends is exactly what `trim` returns. So the slice `Trim` returns is the only such slice. |
| Text.TrimIdempotent | app/actions/init-leftovers.ts:25 | Trimming twice gives what trimming once gave. |
| Text.TrimIgnoresPadding | app/actions/init-leftovers.ts:25 | Whitespace added around a string does not change its trimmed form. |
| Text.TrimEmpty | app/actions/vendors.ts:17 | A string trims to "" exactly when it is all whitespace. |
| Text.UpperIdempotent | app/actions/vendors.ts:24 | Upper-casing twice gives what upper-casing once gave. |
| Text.ParseDecimal | app/actions/vendors.ts:32-37 | Parsing the decimal rendering of a number gives the number back. |
| HistoricalEntry.ValidEntry | app/actions/historical-entry.ts:11-16 | Definition: an entry names a product and has non-negative whole quantities. |
| HistoricalEntry.ValidPayload | app/actions/historical-entry.ts:18-25 | Definition: the payload schema, a `YYYY-MM-DD` date, a vendor id, non-negative battery quantity and amount, and valid entries. |
| HistoricalEntry.EntriesKnown | app/actions/historical-entry.ts:123-127 | Definition: every entry names an active product. |
| HistoricalEntry.WithinStock | app/actions/historical-entry.ts:219-222 | Definition: the leftovers at close do not exceed carried-in leftovers plus the order. |
| HistoricalEntry.ClosingLine | app/actions/historical-entry.ts:223-237 | Definition: the line written for a product, with the entered quantities, the sold quantity, the date's price and the subtotal. |
| HistoricalEntry.ClosingLines | app/actions/historical-entry.ts:212-238 | Definition: `lineUpdates`, one closing line per active product in catalogue order, using zero quantities for a product without an entry. |
| HistoricalEntry.Synced | app/actions/historical-entry.ts:140-196 | Definition: the ticket after the create-or-sync step. |
| HistoricalEntry.CloseTicket | app/actions/historical-entry.ts:240-288 | Definition: the line batch plus the closing update of the ticket row. |
| HistoricalEntry.CarryLine | app/actions/historical-entry.ts:301-314 | Definition: one line of the next open ticket after carry-over. |
| HistoricalEntry.CarryLines | app/actions/historical-entry.ts:299-317 | Definition: every line of the next open ticket carried, in place. |
| HistoricalEntry.IsNextOpen | app/actions/historical-entry.ts:293-297 | Definition: the vendor's OPEN ticket with the smallest date strictly after the given one. |
| HistoricalEntry.Propagate | app/actions/historical-entry.ts:299-329 | Definition: the carry-over writes, including the credit moved to the next ticket and the stamp on the closed one. |
| HistoricalEntry.ViewLineOf | app/actions/historical-entry.ts:94-105 | Definition: one product row of the form, taken from the ticket's line or, without one, the date's price and zero quantities. |
| HistoricalEntry.ViewOf | app/actions/historical-entry.ts:82-106 | Definition: the form contents, from the day's ticket or from the settings defaults. Every active product has one row. |
| HistoricalEntry.Saved | app/actions/historical-entry.ts:129-331 | Definition: the outcome of a save once the request checks have passed. |
| Prices.InsertsOrphan | app/actions/prices.ts:20-29 | Definition: the upsert takes its insert branch, for a product id with no product row. |
| Prices.ValidPriceInput | app/actions/prices.ts:9-13 | Definition: the price schema, a product id, a positive price and a `YYYY-MM-DD` date. |
| Prices.RepriceLine | app/actions/prices.ts:34-49 | Definition: a line of the product takes the new price, with subtotal `soldQty * price`. |
| Prices.RepriceLines | app/actions/prices.ts:30-50 | Definition: the line batch applied to one ticket's lines. |
| Prices.Repriced | app/actions/prices.ts:30-50 | Definition: the line batch applied to every ticket. |
| Prices.Recompute | app/actions/prices.ts:58-84 | Definition: a ticket's total, balance and status recomputed from its lines and battery snapshot. |
| Prices.Cascade | app/actions/prices.ts:30-86 | Definition: the ledger after a price change. Touched tickets are repriced and recomputed, the rest kept, and no ticket is added or removed. |
| Prices.Consistent | app/actions/prices.ts:58-84 | Definition: a ticket whose stored total, balance and status agree with its own lines and snapshot. |
| InitLeftovers.ConfiguredPin | app/actions/init-leftovers.ts:8 | Definition: `INIT_LEFTOVERS_PIN`, or "1617" when it is not set. |
| InitLeftovers.ValidSeedEntry | app/actions/init-leftovers.ts:11-17 | Definition: the entry schema, a vendor id, a product id and a non-negative whole quantity. |
| InitLeftovers.RequestRejection | app/actions/init-leftovers.ts:67-76 | Definition: the first failing request check, in order: schema, PIN, non-empty entries. |
| InitLeftovers.StoreRejection | app/actions/init-leftovers.ts:91-103 | Definition: the first failing store check, in order: an administrator, every vendor, every product among the active ones. |
| InitLeftovers.QtyMap | app/actions/init-leftovers.ts:115-117 | Definition: `qtyByProductId`, built in entry order so the last entry wins. |
| InitLeftovers.ResetPrev | app/actions/init-leftovers.ts:175-178 | Definition: `leftoversPrev` set to 0 on the lines of active products. |
| InitLeftovers.SetPrev | app/actions/init-leftovers.ts:183-186 | Definition: one per-entry update of `leftoversPrev`. |
| InitLeftovers.OverwritePrev | app/actions/init-leftovers.ts:180-189 | Definition: the per-entry updates applied in entry order. |
| InitLeftovers.SeedTicket | app/actions/init-leftovers.ts:119-189 | Definition: one vendor's target-date ticket after seeding, created or synced, reset and overwritten. |
| InitLeftovers.SeedAll | app/actions/init-leftovers.ts:113-190 | Definition: the ledger after seeding a set of vendors. It gains exactly their target-date keys. |
| InitLeftovers.Seeded | app/actions/init-leftovers.ts:105-190 | Definition: the outcome of a successful seeding, with the prices for the target date and every named vendor seeded. |
| Vendors.VSuffix | app/actions/vendors.ts:30-33 | Definition: the number matched by `/^V(\d+)$/i` in the trimmed code, if it matches. |
| Vendors.ExistingCodes | app/actions/vendors.ts:28 | Definition: the set of every stored code, upper-cased. |
| Vendors.VendorCode | app/actions/vendors.ts:37 | Definition: `V` followed by the number zero-padded to three digits. |
| Vendors.SuppliedCode | app/actions/vendors.ts:16-18 | Definition: the schema's preprocess, where a code that is blank after trimming counts as absent. |
| Vendors.ValidVendorInput | app/actions/vendors.ts:14-22 | Definition: the create schema, a name of at least 2 characters and a supplied code of at least 2. |
| Vendors.ChosenCode | app/actions/vendors.ts:86-87 | Definition: the normalised code, or the generated code when that is empty. |
| Vendors.NewVendor | app/actions/vendors.ts:88 | Definition: the inserted row, active and not a favourite unless the request says otherwise. |
| Vendors.UniqueCodes | app/actions/vendors.ts:88 | Definition: no two vendors share a code (the table's unique index). |
| Ledger.SoldQty | app/actions/historical-entry.ts:223 | Definition: sold = carried-in leftovers + order - leftovers at close. |
| Ledger.Subtotal | app/actions/historical-entry.ts:228 | A non-positive sold quantity contributes 0. Otherwise the subtotal is sold quantity times price. |
| Ledger.BatteryTotal | app/actions/historical-entry.ts:256-260 | Definition: the PER_DAY surcharge, unit price times quantity. |
| Ledger.GrandTotal | app/actions/historical-entry.ts:261-264 | Definition: the sum of the line subtotals plus the battery surcharge. |
| Ledger.NewTicket | app/actions/historical-entry.ts:147-173 | Definition: a new OPEN ticket with zero totals and one fresh line per active product. |
| Ledger.SyncLines | app/actions/historical-entry.ts:175-195 | Definition: the lines plus one fresh line for each active product that had none. |
| Ledger.NewLines | app/actions/historical-entry.ts:180-193 | Each inserted line has zero quantities, except the carried-in `leftoversPrev`, and its product's price. |
| Ledger.VendorIdSet | app/actions/init-leftovers.ts:93-94 | Definition: the ids of the vendor table. |
| Dates.IsDate | app/actions/historical-entry.ts:9 | Definition: the pattern `^\d{4}-\d{2}-\d{2}$`. |
| Dates.Less | app/actions/historical-entry.ts:294 | Definition: the string order behind `gt` and `orderBy date`. |
| Dates.AtOrBefore | app/actions/historical-entry.ts:42 | Definition: the string order behind `lte`. |
| Dates.LessIrreflexive | app/actions/historical-entry.ts:294 | No date is strictly after itself. |
| Dates.LessTransitive | app/actions/historical-entry.ts:293-297 | The string order is transitive. |
| Dates.LessTotal | app/actions/historical-entry.ts:293-297 | Any two strings are equal or ordered one way, so `orderBy` has a first row. |
| Dates.LessAsymmetric | app/actions/historical-entry.ts:293-297 | Two strings are never each before the other. |
| Dates.AtOrBeforeTransitive | app/actions/historical-entry.ts:40-46 | The order behind `lte` is transitive. |
| Dates.AtOrBeforeAntisymmetric | app/actions/historical-entry.ts:40-46 | Two dates each on or before the other are equal, so the latest `validFrom` is unique. |

## Left out

- `listVendors`, `searchVendors`, `updateVendor` and `toggleVendorFavorite` (`app/actions/vendors.ts:45-123`) are not modelled. They are plain reads and single-row updates with no logic beyond the query.
- `verifyInitPin` (`app/actions/init-leftovers.ts:57-61`) is not modelled separately: it only returns the verdict of `validatePin`, which is `InitLeftovers.ValidatePin`.
- `lib/ticket.ts` is not part of this model. Its helpers are taken as: sold = prev + order - now; subtotal = sold * price when sold is positive, 0 otherwise; battery = unit price * quantity; total = sum of subtotals + battery.
- `lib/validators.ts` is not part of this model. The PIN schema is the parameter `accepts`, taken not to transform its input, so the schema's output is the trimmed PIN itself. The value of `INIT_LEFTOVERS_PIN` is the parameter `env` of `InitLeftovers.SaveInitialLeftovers`. `InitLeftovers.ConfiguredPin(env)` applies the `?? "1617"` default.
- Authentication (`requireAdmin`, the session) is not modelled. The acting user is a parameter, and so is the first administrator account that `saveInitialLeftovers` reads.
- The clock (`new Date()`) and the identifiers the database assigns are parameters (`now`, `freshId`).
- Storage I/O, concurrency and transactions are left out. Each action is one atomic method, and a `Promise.all` runs its parts in the source's textual order. Other sessions cannot observe a ticket between the line batch and the recompute of `setProductPrice`.
- `Prisma.Decimal`, `Number(...)` and `toFixed(2)` are modelled as exact integer cents. Floating-point rounding is not modelled.
- Product ordering (`displayOrder`, then `name`) is not computed. The product table is taken to be stored in that order already.
- The "No se pudo crear la boleta." branch of `saveHistoricalEntry` cannot be reached, because a ticket id always exists at that point. It is not modelled.
- The `if (!ticket) continue;` branch of `setProductPrice` is not modelled. Every ticket that owns a line exists.
- Vendors.NormalizeCode: only ASCII letters are upper-cased. JavaScript's full Unicode `toUpperCase` is not modelled.
- Vendors.ValidVendorInput: `min(2)` counts characters, not UTF-16 code units.
- Vendors.MaxSuffix: suffixes are exact natural numbers. The precision loss of `Number.parseInt` beyond 2^53, and the `Infinity` that `Number.isFinite` filters out, are not modelled.
- HistoricalEntry.SaveValidated: inserting a ticket for a vendor id missing from the vendor table breaks the ticket's foreign key. That is modelled as the error `VendorMissing` with no ticket written (the settings row is already ensured), not as a storage exception. The schema is not part of this model, so the relation is assumed.
- Prices.SetProductPrice: inserting a price row for a product id missing from the product table breaks the row's foreign key. That is modelled as the error `ProductMissing` with nothing written, not as a storage exception. The update branch of the upsert inserts nothing and is let through. The schema is not part of this model, so the relation is assumed.
- Vendors.CreateVendor: inserting a vendor whose code is already taken breaks the unique index on the code. That is modelled as the error `CodeTaken` and no change, not as a storage exception.
- Database defaults are taken from the schema, which is not part of this model. A new ticket has `leftoversReported` true. A new vendor is active and not a favourite unless the request says otherwise.

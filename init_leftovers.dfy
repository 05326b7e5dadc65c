/**
 * Initial-leftovers seeding: a PIN-gated bulk load that sets, for each vendor named in the
 * entries, the leftovers carried into the cut-over date's ticket. The ticket is created when
 * missing; otherwise its missing lines are inserted, the carried-in quantity of every active
 * product is reset to zero and then overwritten with the entered quantities.
 */
module InitLeftovers {
  import opened Common
  import opened Text
  import opened Ledger
  import opened Pricing
  import opened Database

  /** The cut-over date every seeded ticket is for. */
  const TargetDate: string := "2026-01-01"

  /** `INIT_LEFTOVERS_PIN ?? "1617"`: the configured PIN, given the environment's value. */
  function ConfiguredPin(env: Option<string>): string
  {
    match env
    case Some(v) => v
    case None => "1617"
  }

  // ---------------------------------------------------------------- the PIN

  datatype PinCheck = PinOk | PinInvalid | PinIncorrect

  /**
   * `validatePin`: the trimmed PIN must first pass the PIN schema (`accepts`), then equal the
   * configured PIN.
   */
  function ValidatePin(pin: string, configured: string, accepts: string -> bool): (r: PinCheck)
    ensures r == PinOk <==> accepts(Trim(pin)) && Trim(pin) == configured
    ensures r == PinInvalid <==> !accepts(Trim(pin))
    ensures r == PinIncorrect <==> accepts(Trim(pin)) && Trim(pin) != configured
  {
    var normalized := Trim(pin);
    if !accepts(normalized) then PinInvalid
    else if normalized != configured then PinIncorrect
    else PinOk
  }

  /** Whitespace around the typed PIN never changes the verdict. */
  lemma PinIgnoresSurroundingSpace(w1: string, pin: string, w2: string, configured: string, accepts: string -> bool)
    requires AllSpace(w1) && AllSpace(w2)
    ensures ValidatePin(w1 + pin + w2, configured, accepts) == ValidatePin(pin, configured, accepts)
  {
    TrimIgnoresPadding(w1, pin, w2);
  }

  /** A configured PIN that starts or ends with whitespace can never be matched. */
  lemma PaddedPinNeverMatches(pin: string, configured: string, accepts: string -> bool)
    requires !Trimmed(configured)
    ensures ValidatePin(pin, configured, accepts) != PinOk
  {
  }

  /**
   * The gate with the configured PIN: without `INIT_LEFTOVERS_PIN` exactly a PIN that trims to
   * "1617" (and passes the schema) gets through; a configured value with surrounding whitespace
   * rejects every request.
   */
  lemma ConfiguredPinGate(p: InitPayload, env: Option<string>, accepts: string -> bool)
    ensures env.None? ==>
      (ValidatePin(p.pin, ConfiguredPin(env), accepts) == PinOk <==> accepts(Trim(p.pin)) && Trim(p.pin) == "1617")
    ensures env.Some? && !Trimmed(env.value) ==> RequestRejection(p, ConfiguredPin(env), accepts).Some?
  {
    if env.Some? && !Trimmed(env.value) {
      PaddedPinNeverMatches(p.pin, ConfiguredPin(env), accepts);
    }
  }

  // ---------------------------------------------------------------- the payload

  datatype SeedEntry = SeedEntry(vendorId: VendorId, productId: ProductId, qty: int)

  datatype InitPayload = InitPayload(pin: string, entries: seq<SeedEntry>)

  datatype InitError =
    | InvalidData          // "Datos invalidos."
    | BadPin(pin: PinCheck) // "PIN invalido." / "PIN incorrecto."
    | NoData               // "No hay datos."
    | NoAdmin              // "No hay usuario admin."
    | VendorNotFound       // "Vendedor no encontrado."
    | ProductNotFound      // "Producto no encontrado."

  predicate ValidSeedEntry(e: SeedEntry)
  {
    |e.vendorId| >= 1 && |e.productId| >= 1 && e.qty >= 0
  }

  /** The checks made on the request alone: the payload schema, the PIN, a non-empty entry list. */
  function RequestRejection(p: InitPayload, configured: string, accepts: string -> bool): Option<InitError>
  {
    if !(forall i | 0 <= i < |p.entries| :: ValidSeedEntry(p.entries[i])) then Some(InvalidData)
    else if ValidatePin(p.pin, configured, accepts) != PinOk then Some(BadPin(ValidatePin(p.pin, configured, accepts)))
    else if |p.entries| == 0 then Some(NoData)
    else None
  }

  /**
   * The checks made against the store once the settings row exists: an administrator to act
   * as creator, then every vendor and every product named must exist (the products among the
   * active ones).
   */
  function StoreRejection(entries: seq<SeedEntry>, admin: Option<UserId>, vendors: seq<Vendor>, products: seq<Product>): Option<InitError>
  {
    if admin.None? then Some(NoAdmin)
    else if !(forall i | 0 <= i < |entries| :: entries[i].vendorId in VendorIdSet(vendors)) then Some(VendorNotFound)
    else if !(forall i | 0 <= i < |entries| :: entries[i].productId in Ids(ActiveProducts(products))) then Some(ProductNotFound)
    else None
  }

  // ---------------------------------------------------------------- grouping the entries

  /** `[...new Set(xs)]`: the distinct values in order of first occurrence. */
  function Distinct(xs: seq<VendorId>): (r: seq<VendorId>)
    ensures forall x :: x in r <==> x in xs
    ensures forall i, j | 0 <= i < j < |r| :: r[i] != r[j]
    ensures |r| <= |xs|
  {
    if xs == [] then []
    else
      var front := Distinct(xs[..|xs| - 1]);
      var last := xs[|xs| - 1];
      assert forall x :: x in xs <==> x in xs[..|xs| - 1] || x == last;
      if last in front then front else front + [last]
  }

  function VendorIdsOf(entries: seq<SeedEntry>): (r: seq<VendorId>)
    ensures |r| == |entries| && forall i | 0 <= i < |entries| :: r[i] == entries[i].vendorId
  {
    seq(|entries|, i requires 0 <= i < |entries| => entries[i].vendorId)
  }

  /** `entries.filter(e => e.vendorId === v)` */
  function VendorEntries(entries: seq<SeedEntry>, v: VendorId): (r: seq<SeedEntry>)
    ensures forall e :: e in r <==> e in entries && e.vendorId == v
  {
    if entries == [] then []
    else
      var front := VendorEntries(entries[..|entries| - 1], v);
      var last := entries[|entries| - 1];
      assert forall e :: e in entries <==> e in entries[..|entries| - 1] || e == last;
      if last.vendorId == v then front + [last] else front
  }

  /** `qtyByProductId`: a `Map` built in entry order, so for a repeated product the last entry wins. */
  function QtyMap(es: seq<SeedEntry>): map<ProductId, int>
  {
    if es == [] then map[] else map[es[0].productId := es[0].qty] + QtyMap(es[1..])
  }

  // ---------------------------------------------------------------- writing one vendor's ticket

  /** `updateMany({ productId in active }, { leftoversPrev: 0 })` */
  function ResetPrev(lines: seq<Line>, activeIds: set<ProductId>): (r: seq<Line>)
    ensures |r| == |lines|
    ensures forall i | 0 <= i < |lines| ::
      r[i] == if lines[i].productId in activeIds then lines[i].(leftoversPrev := 0) else lines[i]
  {
    seq(|lines|, i requires 0 <= i < |lines| =>
      if lines[i].productId in activeIds then lines[i].(leftoversPrev := 0) else lines[i])
  }

  /** One `ticketLine.update({ leftoversPrev: qty })` on the line of product `p`. */
  function SetPrev(lines: seq<Line>, p: ProductId, qty: int): (r: seq<Line>)
    ensures |r| == |lines|
    ensures forall i | 0 <= i < |lines| ::
      r[i] == if lines[i].productId == p then lines[i].(leftoversPrev := qty) else lines[i]
  {
    seq(|lines|, i requires 0 <= i < |lines| =>
      if lines[i].productId == p then lines[i].(leftoversPrev := qty) else lines[i])
  }

  /** The per-entry updates, applied in entry order. */
  function OverwritePrev(lines: seq<Line>, es: seq<SeedEntry>): seq<Line>
    decreases |es|
  {
    if es == [] then lines else OverwritePrev(SetPrev(lines, es[0].productId, es[0].qty), es[1..])
  }

  /**
   * Overwriting in entry order leaves each line with the quantity of the last entry for its
   * product, and lines of products without an entry as they were.
   */
  lemma {:induction false} OverwriteLastWins(lines: seq<Line>, es: seq<SeedEntry>)
    ensures var r := OverwritePrev(lines, es);
      && |r| == |lines|
      && forall i | 0 <= i < |lines| ::
           r[i] == if lines[i].productId in QtyMap(es) then lines[i].(leftoversPrev := QtyMap(es)[lines[i].productId])
                   else lines[i]
    decreases |es|
  {
    if es != [] {
      var next := SetPrev(lines, es[0].productId, es[0].qty);
      OverwriteLastWins(next, es[1..]);
    }
  }

  function TicketAt(tickets: map<TicketKey, Ticket>, key: TicketKey): Option<Ticket>
  {
    if key in tickets then Some(tickets[key]) else None
  }

  /** The target-date ticket of one vendor after seeding with that vendor's entries `es`. */
  function SeedTicket(existing: Option<Ticket>, s: Settings, actor: UserId, active: seq<Product>,
                      priceFor: map<ProductId, int>, es: seq<SeedEntry>): Ticket
  {
    var qty := QtyMap(es);
    match existing
    case None => NewTicket(s, s.batteryQty, actor, active, qty, priceFor)
    case Some(t) => t.(lines := OverwritePrev(ResetPrev(SyncLines(t.lines, active, qty, priceFor), Ids(active)), es))
  }

  /**
   * The seeded ticket. A new one is OPEN, CREDIT, with zero totals, the default battery
   * quantity and one fresh line per active product carrying the entered quantity (0 when not
   * entered). On an existing ticket only lines change: missing active products get such a
   * line, and on the lines it had, only `leftoversPrev` changes — to the last entered
   * quantity, to 0 for an active product without an entry, and not at all otherwise.
   * Either way every active product has exactly one line.
   */
  lemma SeedTicketFacts(existing: Option<Ticket>, s: Settings, actor: UserId, active: seq<Product>,
                        priceFor: map<ProductId, int>, es: seq<SeedEntry>)
    requires UniqueIds(active)
    requires existing.Some? ==> UniqueProducts(existing.value.lines)
    requires forall i | 0 <= i < |es| :: es[i].productId in Ids(active)
    ensures var r := SeedTicket(existing, s, actor, active, priceFor, es);
      var qty := QtyMap(es);
      && UniqueProducts(r.lines)
      && (forall q | q in active :: HasLine(r.lines, q.id))
      && (existing.None? ==>
            && r.status == Open && r.paymentStatus == Credit && r.total == 0 && r.paidAmount == 0 && r.balance == 0
            && r.batteryMode == s.batteryMode && r.batteryUnitPrice == s.batteryUnitPrice
            && r.batteryQty == s.batteryQty && r.createdBy == actor
            && forall i | 0 <= i < |r.lines| :: IsNewLineFor(r.lines[i], active, qty, priceFor))
      && (existing.Some? ==>
            var t := existing.value;
            && r == t.(lines := r.lines)
            && |t.lines| <= |r.lines|
            && (forall i | 0 <= i < |t.lines| ::
                  r.lines[i] == t.lines[i].(leftoversPrev :=
                    if t.lines[i].productId in qty then qty[t.lines[i].productId]
                    else if t.lines[i].productId in Ids(active) then 0
                    else t.lines[i].leftoversPrev))
            && (forall i | |t.lines| <= i < |r.lines| :: IsNewLineFor(r.lines[i], active, qty, priceFor)))
  {
    var qty := QtyMap(es);
    match existing
    case None =>
      NewTicketCoversActive(s, s.batteryQty, actor, active, qty, priceFor);
    case Some(t) =>
      var synced := SyncLines(t.lines, active, qty, priceFor);
      SyncLinesCoversActive(t.lines, active, qty, priceFor);
      var reset := ResetPrev(synced, Ids(active));
      OverwriteLastWins(reset, es);
      var r := OverwritePrev(reset, es);
      assert forall i | 0 <= i < |r| :: r[i].productId == synced[i].productId;
      forall q | q in active ensures HasLine(r, q.id) {
        var i :| 0 <= i < |synced| && synced[i].productId == q.id;
        assert r[i].productId == q.id;
      }
      forall i | |t.lines| <= i < |r| ensures IsNewLineFor(r[i], active, qty, priceFor) {
        assert IsNewLineFor(synced[i], active, qty, priceFor);
        var q :| q in active && synced[i] == NewLine(q.id, GetOr(qty, q.id, 0), GetOr(priceFor, q.id, 0));
        assert q.id in Ids(active);
        assert r[i] == NewLine(q.id, GetOr(qty, q.id, 0), GetOr(priceFor, q.id, 0));
      }
  }

  // ---------------------------------------------------------------- all vendors

  /** The target-date ticket keys of the vendors in `vendors`. */
  function TargetKeys(vendors: set<VendorId>): (r: set<TicketKey>)
    ensures forall k :: k in r <==> k.date == TargetDate && k.vendorId in vendors
  {
    var r := set v | v in vendors :: TicketKey(v, TargetDate);
    assert forall k: TicketKey | k.date == TargetDate && k.vendorId in vendors :: k == TicketKey(k.vendorId, TargetDate);
    r
  }

  /** `tickets` with the entry at every key in `keys` set to what `seed` makes for that key. */
  function Overlay(tickets: map<TicketKey, Ticket>, keys: set<TicketKey>, seed: TicketKey -> Ticket): (r: map<TicketKey, Ticket>)
    ensures r.Keys == tickets.Keys + keys
  {
    map k | k in tickets.Keys + keys :: if k in keys then seed(k) else tickets[k]
  }

  /** Overlaying one more key is one more write. */
  lemma OverlayStep(tickets: map<TicketKey, Ticket>, keys: set<TicketKey>, key: TicketKey, seed: TicketKey -> Ticket)
    requires key !in keys
    ensures Overlay(tickets, keys + {key}, seed) == Overlay(tickets, keys, seed)[key := seed(key)]
  {
    var after := Overlay(tickets, keys + {key}, seed);
    var expected := Overlay(tickets, keys, seed)[key := seed(key)];
    forall k | k in after ensures k in expected && after[k] == expected[k] {
    }
    assert after.Keys == expected.Keys;
  }

  /** The ticket seeding writes at key `k`, computed from the ledger as it was. */
  function SeedFn(tickets: map<TicketKey, Ticket>, s: Settings, actor: UserId, active: seq<Product>,
                  priceFor: map<ProductId, int>, entries: seq<SeedEntry>): TicketKey -> Ticket
  {
    k => SeedTicket(TicketAt(tickets, k), s, actor, active, priceFor, VendorEntries(entries, k.vendorId))
  }

  /** The ledger once the vendors in `done` have been seeded; every other ticket is as it was. */
  function SeedAll(tickets: map<TicketKey, Ticket>, done: set<VendorId>, s: Settings, actor: UserId,
                   active: seq<Product>, priceFor: map<ProductId, int>, entries: seq<SeedEntry>): (r: map<TicketKey, Ticket>)
    ensures r.Keys == tickets.Keys + TargetKeys(done)
  {
    Overlay(tickets, TargetKeys(done), SeedFn(tickets, s, actor, active, priceFor, entries))
  }

  /** Before vendor `v` is seeded, its target-date ticket is the one the ledger started with. */
  lemma SeedAllBefore(tickets: map<TicketKey, Ticket>, done: set<VendorId>, v: VendorId, s: Settings, actor: UserId,
                      active: seq<Product>, priceFor: map<ProductId, int>, entries: seq<SeedEntry>)
    requires v !in done
    ensures TicketAt(SeedAll(tickets, done, s, actor, active, priceFor, entries), TicketKey(v, TargetDate))
         == TicketAt(tickets, TicketKey(v, TargetDate))
  {
    assert TicketKey(v, TargetDate) !in TargetKeys(done);
  }

  /** Seeding one more vendor is one more write of its target-date ticket. */
  lemma SeedAllStep(tickets: map<TicketKey, Ticket>, done: set<VendorId>, v: VendorId, s: Settings, actor: UserId,
                    active: seq<Product>, priceFor: map<ProductId, int>, entries: seq<SeedEntry>)
    requires v !in done
    ensures var key := TicketKey(v, TargetDate);
      SeedAll(tickets, done + {v}, s, actor, active, priceFor, entries) ==
        SeedAll(tickets, done, s, actor, active, priceFor, entries)[key :=
          SeedTicket(TicketAt(tickets, key), s, actor, active, priceFor, VendorEntries(entries, v))]
  {
    var key := TicketKey(v, TargetDate);
    assert TargetKeys(done + {v}) == TargetKeys(done) + {key};
    assert key !in TargetKeys(done);
    OverlayStep(tickets, TargetKeys(done), key, SeedFn(tickets, s, actor, active, priceFor, entries));
  }

  /** A seeded ticket keeps one line per product. */
  lemma SeedTicketUnique(existing: Option<Ticket>, s: Settings, actor: UserId, active: seq<Product>,
                         priceFor: map<ProductId, int>, es: seq<SeedEntry>)
    requires UniqueIds(active)
    requires existing.Some? ==> UniqueProducts(existing.value.lines)
    requires forall i | 0 <= i < |es| :: es[i].productId in Ids(active)
    ensures UniqueProducts(SeedTicket(existing, s, actor, active, priceFor, es).lines)
  {
    SeedTicketFacts(existing, s, actor, active, priceFor, es);
  }

  /** Writes vendor `v`'s target-date ticket. */
  method SeedVendor(db: Db, v: VendorId, es: seq<SeedEntry>, s: Settings, actor: UserId,
                    active: seq<Product>, priceFor: map<ProductId, int>)
    requires db.Valid() && UniqueIds(active)
    requires forall i | 0 <= i < |es| :: es[i].productId in Ids(active)
    modifies db`tickets
    ensures db.Valid()
    ensures var key := TicketKey(v, TargetDate);
      db.tickets == old(db.tickets)[key := SeedTicket(TicketAt(old(db.tickets), key), s, actor, active, priceFor, es)]
  {
    var key := TicketKey(v, TargetDate);
    var qty := QtyMap(es);
    SeedTicketUnique(TicketAt(db.tickets, key), s, actor, active, priceFor, es);
    if key !in db.tickets {
      db.tickets := db.tickets[key := NewTicket(s, s.batteryQty, actor, active, qty, priceFor)];
      return;
    }
    var t := db.tickets[key];
    var missing := MissingProducts(t.lines, active);
    if |missing| > 0 {
      t := t.(lines := t.lines + NewLines(missing, qty, priceFor));
    } else {
      assert t.lines + NewLines(missing, qty, priceFor) == t.lines;
    }
    t := t.(lines := ResetPrev(t.lines, Ids(active)));
    if |es| > 0 {
      t := t.(lines := OverwritePrev(t.lines, es));
    }
    db.tickets := db.tickets[key := t];
  }

  /** The loop over the distinct vendors of the entries. */
  method SeedVendors(db: Db, entries: seq<SeedEntry>, s: Settings, actor: UserId,
                     active: seq<Product>, priceFor: map<ProductId, int>)
    requires db.Valid() && UniqueIds(active)
    requires forall i | 0 <= i < |entries| :: entries[i].productId in Ids(active)
    modifies db`tickets
    ensures db.Valid()
    ensures db.tickets ==
      SeedAll(old(db.tickets), set i | 0 <= i < |entries| :: entries[i].vendorId, s, actor, active, priceFor, entries)
  {
    var vendorIds := Distinct(VendorIdsOf(entries));
    ghost var done: set<VendorId> := {};
    for i := 0 to |vendorIds|
      invariant done == set j | 0 <= j < i :: vendorIds[j]
      invariant db.Valid()
      invariant db.tickets == SeedAll(old(db.tickets), done, s, actor, active, priceFor, entries)
    {
      var v := vendorIds[i];
      assert v !in done;
      SeedNext(db, old(db.tickets), done, v, entries, s, actor, active, priceFor);
      done := done + {v};
    }
    DistinctVendorsCover(entries, vendorIds);
  }

  /** One iteration of the vendor loop: seeds vendor `v` from its entries. */
  method SeedNext(db: Db, ghost tickets: map<TicketKey, Ticket>, ghost done: set<VendorId>, v: VendorId,
                  entries: seq<SeedEntry>, s: Settings, actor: UserId, active: seq<Product>, priceFor: map<ProductId, int>)
    requires db.Valid() && UniqueIds(active) && v !in done
    requires forall i | 0 <= i < |entries| :: entries[i].productId in Ids(active)
    requires db.tickets == SeedAll(tickets, done, s, actor, active, priceFor, entries)
    modifies db`tickets
    ensures db.Valid()
    ensures db.tickets == SeedAll(tickets, done + {v}, s, actor, active, priceFor, entries)
  {
    var es := VendorEntries(entries, v);
    forall j | 0 <= j < |es| ensures es[j].productId in Ids(active) {
      assert es[j] in entries;
    }
    SeedAllBefore(tickets, done, v, s, actor, active, priceFor, entries);
    SeedAllStep(tickets, done, v, s, actor, active, priceFor, entries);
    SeedVendor(db, v, es, s, actor, active, priceFor);
  }

  lemma DistinctVendorsCover(entries: seq<SeedEntry>, vendorIds: seq<VendorId>)
    requires vendorIds == Distinct(VendorIdsOf(entries))
    ensures (set j | 0 <= j < |vendorIds| :: vendorIds[j]) == set i | 0 <= i < |entries| :: entries[i].vendorId
  {
    var ids := VendorIdsOf(entries);
    var seen := set j | 0 <= j < |vendorIds| :: vendorIds[j];
    var named := set i | 0 <= i < |entries| :: entries[i].vendorId;
    forall x | x in seen ensures x in named {
      var j :| 0 <= j < |vendorIds| && vendorIds[j] == x;
      assert x in ids;
      var i :| 0 <= i < |ids| && ids[i] == x;
      assert entries[i].vendorId == x;
    }
    forall x | x in named ensures x in seen {
      var i :| 0 <= i < |entries| && entries[i].vendorId == x;
      assert ids[i] == x;
      assert x in vendorIds;
      var j :| 0 <= j < |vendorIds| && vendorIds[j] == x;
    }
  }

  // ---------------------------------------------------------------- the action

  /**
   * What a successful seeding leaves behind: the prices effective on the target date for every
   * active product, and the target-date ticket of every vendor named in `entries` seeded from
   * the ledger as it was (every other ticket untouched).
   */
  ghost predicate Seeded(tickets0: map<TicketKey, Ticket>, settings0: Option<Settings>, products: seq<Product>,
                         prices: map<PriceKey, int>, entries: seq<SeedEntry>, actor: UserId,
                         priceFor: map<ProductId, int>, tickets: map<TicketKey, Ticket>)
  {
    var active := ActiveProducts(products);
    && priceFor.Keys == Ids(active)
    && (forall q | q in priceFor :: IsEffectivePrice(prices, q, TargetDate, priceFor[q]))
    && tickets == SeedAll(tickets0, set i | 0 <= i < |entries| :: entries[i].vendorId,
                          EnsuredSettings(settings0), actor, active, priceFor, entries)
  }

  /**
   * The part of `saveInitialLeftovers` after the request checks: the settings row is read (and
   * created when missing), the store checks run, and then every named vendor is seeded.
   */
  method SeedChecked(db: Db, entries: seq<SeedEntry>, admin: Option<UserId>)
    returns (r: Result<string, InitError>, priceFor: map<ProductId, int>)
    requires db.Valid()
    modifies db`settings, db`tickets
    ensures db.Valid()
    ensures db.settings == Some(EnsuredSettings(old(db.settings)))
    ensures var rejection := StoreRejection(entries, admin, db.vendors, db.products);
      && (r.Success? <==> rejection.None?)
      && (r.Failure? ==> r.error == rejection.value && db.tickets == old(db.tickets))
    ensures r.Success? ==>
      && r.value == TargetDate
      && Seeded(old(db.tickets), old(db.settings), db.products, db.prices, entries, admin.value, priceFor, db.tickets)
  {
    priceFor := map[];
    var settings := EnsureSettings(db);
    var rejection := StoreRejection(entries, admin, db.vendors, db.products);
    if rejection.Some? {
      return Failure(rejection.value), priceFor;
    }
    var active := ActiveProducts(db.products);
    priceFor := PricesForDate(db.prices, active, TargetDate);
    SeedVendors(db, entries, settings, admin.value, active, priceFor);
    r := Success(TargetDate);
  }

  /**
   * `saveInitialLeftovers`. `env` is the value of `INIT_LEFTOVERS_PIN`, `accepts` the PIN schema and
   * `admin` the first administrator account, if any; `priceFor` exposes the prices used.
   * A rejected request writes no ticket; the settings row is only touched once the request
   * checks have passed.
   */
  method SaveInitialLeftovers(db: Db, p: InitPayload, env: Option<string>, accepts: string -> bool, admin: Option<UserId>)
    returns (r: Result<string, InitError>, priceFor: map<ProductId, int>)
    requires db.Valid()
    modifies db`settings, db`tickets
    ensures db.Valid()
    ensures RequestRejection(p, ConfiguredPin(env), accepts).Some? ==>
      r == Failure(RequestRejection(p, ConfiguredPin(env), accepts).value)
      && db.settings == old(db.settings) && db.tickets == old(db.tickets)
    ensures RequestRejection(p, ConfiguredPin(env), accepts).None? ==>
      var rejection := StoreRejection(p.entries, admin, db.vendors, db.products);
      && db.settings == Some(EnsuredSettings(old(db.settings)))
      && (r.Success? <==> rejection.None?)
      && (r.Failure? ==> r.error == rejection.value && db.tickets == old(db.tickets))
    ensures r.Success? ==>
      && r.value == TargetDate
      && Seeded(old(db.tickets), old(db.settings), db.products, db.prices, p.entries, admin.value, priceFor, db.tickets)
  {
    priceFor := map[];
    if !(forall i | 0 <= i < |p.entries| :: ValidSeedEntry(p.entries[i])) {
      return Failure(InvalidData), priceFor;
    }
    var pinCheck := ValidatePin(p.pin, ConfiguredPin(env), accepts);
    if pinCheck != PinOk {
      return Failure(BadPin(pinCheck)), priceFor;
    }
    if |p.entries| == 0 {
      return Failure(NoData), priceFor;
    }
    r, priceFor := SeedChecked(db, p.entries, admin);
  }

  /** `entries[i]` is the last entry for its (vendor, product) pair. */
  predicate LastOfPair(entries: seq<SeedEntry>, i: int)
    requires 0 <= i < |entries|
  {
    forall j | i < j < |entries| ::
      !(entries[j].vendorId == entries[i].vendorId && entries[j].productId == entries[i].productId)
  }

  lemma {:induction false} QtyMapAppend(es: seq<SeedEntry>, e: SeedEntry)
    ensures QtyMap(es + [e]) == QtyMap(es)[e.productId := e.qty]
  {
    if es != [] {
      assert (es + [e])[1..] == es[1..] + [e];
      QtyMapAppend(es[1..], e);
    }
  }

  /** The quantity a vendor's ticket gets for a product is that of the last entry for the pair. */
  lemma {:induction false} VendorQty(entries: seq<SeedEntry>, i: int)
    requires 0 <= i < |entries| && LastOfPair(entries, i)
    ensures var qty := QtyMap(VendorEntries(entries, entries[i].vendorId));
      entries[i].productId in qty && qty[entries[i].productId] == entries[i].qty
  {
    var v := entries[i].vendorId;
    var front := entries[..|entries| - 1];
    var last := entries[|entries| - 1];
    if last.vendorId == v {
      QtyMapAppend(VendorEntries(front, v), last);
    }
    if i < |entries| - 1 {
      VendorQty(front, i);
    }
  }

  /** One vendor's seeded ticket carries, for each entered product, the last quantity entered. */
  lemma SeededVendor(tickets: map<TicketKey, Ticket>, v: VendorId, s: Settings, actor: UserId, active: seq<Product>,
                     priceFor: map<ProductId, int>, entries: seq<SeedEntry>)
    requires UniqueIds(active)
    requires forall k | k in tickets :: UniqueProducts(tickets[k].lines)
    requires forall i | 0 <= i < |entries| :: entries[i].productId in Ids(active)
    ensures var t := SeedTicket(TicketAt(tickets, TicketKey(v, TargetDate)), s, actor, active, priceFor, VendorEntries(entries, v));
      && UniqueProducts(t.lines)
      && (forall q | q in active :: HasLine(t.lines, q.id))
  {
    var es := VendorEntries(entries, v);
    forall j | 0 <= j < |es| ensures es[j].productId in Ids(active) {
      assert es[j] in entries;
    }
    SeedTicketFacts(TicketAt(tickets, TicketKey(v, TargetDate)), s, actor, active, priceFor, es);
  }

  /** Every line of a seeded ticket whose product was entered carries the entered quantity. */
  lemma SeedTicketQty(existing: Option<Ticket>, s: Settings, actor: UserId, active: seq<Product>,
                      priceFor: map<ProductId, int>, es: seq<SeedEntry>)
    requires UniqueIds(active)
    requires existing.Some? ==> UniqueProducts(existing.value.lines)
    requires forall i | 0 <= i < |es| :: es[i].productId in Ids(active)
    ensures var r := SeedTicket(existing, s, actor, active, priceFor, es);
      var qty := QtyMap(es);
      forall j | 0 <= j < |r.lines| && r.lines[j].productId in qty :: r.lines[j].leftoversPrev == qty[r.lines[j].productId]
  {
    SeedTicketFacts(existing, s, actor, active, priceFor, es);
    var r := SeedTicket(existing, s, actor, active, priceFor, es);
    var qty := QtyMap(es);
    forall j | 0 <= j < |r.lines| && r.lines[j].productId in qty
      ensures r.lines[j].leftoversPrev == qty[r.lines[j].productId]
    {
      if existing.Some? && j < |existing.value.lines| {
      } else {
        var q :| q in active && r.lines[j] == NewLine(q.id, GetOr(qty, q.id, 0), GetOr(priceFor, q.id, 0));
      }
    }
  }

  /** In vendor `v`'s seeded ticket, each entered product's line holds its last entered quantity. */
  lemma SeededVendorQty(tickets: map<TicketKey, Ticket>, v: VendorId, s: Settings, actor: UserId, active: seq<Product>,
                        priceFor: map<ProductId, int>, entries: seq<SeedEntry>)
    requires UniqueIds(active)
    requires forall k | k in tickets :: UniqueProducts(tickets[k].lines)
    requires forall i | 0 <= i < |entries| :: entries[i].productId in Ids(active)
    ensures var t := SeedTicket(TicketAt(tickets, TicketKey(v, TargetDate)), s, actor, active, priceFor, VendorEntries(entries, v));
      forall i, j | 0 <= i < |entries| && entries[i].vendorId == v && LastOfPair(entries, i) &&
                    0 <= j < |t.lines| && t.lines[j].productId == entries[i].productId ::
        t.lines[j].leftoversPrev == entries[i].qty
  {
    var es := VendorEntries(entries, v);
    forall j | 0 <= j < |es| ensures es[j].productId in Ids(active) {
      assert es[j] in entries;
    }
    SeedTicketQty(TicketAt(tickets, TicketKey(v, TargetDate)), s, actor, active, priceFor, es);
    forall i | 0 <= i < |entries| && entries[i].vendorId == v && LastOfPair(entries, i)
      ensures var qty := QtyMap(es); entries[i].productId in qty && qty[entries[i].productId] == entries[i].qty
    {
      VendorQty(entries, i);
    }
  }

  /**
   * After seeding, only the target-date tickets of the vendors named in the entries differ;
   * each of those has exactly one line per active product, and the line of each entered
   * product carries the quantity of the last entry for that vendor and product.
   */
  lemma SeededLeftovers(tickets: map<TicketKey, Ticket>, s: Settings, actor: UserId, active: seq<Product>,
                        priceFor: map<ProductId, int>, entries: seq<SeedEntry>)
    requires UniqueIds(active)
    requires forall k | k in tickets :: UniqueProducts(tickets[k].lines)
    requires forall i | 0 <= i < |entries| :: entries[i].productId in Ids(active)
    ensures var vendors := set i | 0 <= i < |entries| :: entries[i].vendorId;
      var r := SeedAll(tickets, vendors, s, actor, active, priceFor, entries);
      && (forall k | k in tickets && !(k.date == TargetDate && k.vendorId in vendors) :: r[k] == tickets[k])
      && (forall k | k in r :: UniqueProducts(r[k].lines))
      && (forall i, q | 0 <= i < |entries| && q in active :: HasLine(r[TicketKey(entries[i].vendorId, TargetDate)].lines, q.id))
      && (forall i, j | 0 <= i < |entries| && LastOfPair(entries, i) &&
                        0 <= j < |r[TicketKey(entries[i].vendorId, TargetDate)].lines| &&
                        r[TicketKey(entries[i].vendorId, TargetDate)].lines[j].productId == entries[i].productId ::
            r[TicketKey(entries[i].vendorId, TargetDate)].lines[j].leftoversPrev == entries[i].qty)
  {
    var vendors := set i | 0 <= i < |entries| :: entries[i].vendorId;
    var r := SeedAll(tickets, vendors, s, actor, active, priceFor, entries);
    forall k | k in r ensures UniqueProducts(r[k].lines) {
      if k in TargetKeys(vendors) {
        SeededVendor(tickets, k.vendorId, s, actor, active, priceFor, entries);
        assert k == TicketKey(k.vendorId, TargetDate);
      }
    }
    forall i | 0 <= i < |entries|
      ensures var t := r[TicketKey(entries[i].vendorId, TargetDate)];
        && (forall q | q in active :: HasLine(t.lines, q.id))
        && (forall j | LastOfPair(entries, i) && 0 <= j < |t.lines| && t.lines[j].productId == entries[i].productId ::
              t.lines[j].leftoversPrev == entries[i].qty)
    {
      SeededVendor(tickets, entries[i].vendorId, s, actor, active, priceFor, entries);
      SeededVendorQty(tickets, entries[i].vendorId, s, actor, active, priceFor, entries);
    }
  }
}

/**
 * Historical entry: an administrator types a whole day's ticket for a vendor (quantities
 * per product and the money received); saving it syncs the ticket's lines, validates and
 * writes every line, closes the ticket, and pushes its leftovers (and, in deferred mode,
 * the money received) into the vendor's next open ticket.
 */
module HistoricalEntry {
  import opened Common
  import opened Dates
  import opened Ledger
  import opened Pricing
  import opened Database

  /** One product's quantities as entered. */
  datatype Entry = Entry(productId: ProductId, leftoversPrev: int, orderQty: int, leftoversNow: int)

  datatype Payload = Payload(
    date: string,
    vendorId: VendorId,
    batteryQty: int,
    paidAmount: int,
    leftoversReported: Option<bool>,
    entries: seq<Entry>)

  datatype SaveError =
    | InvalidData                      // "Datos invalidos."
    | ProductNotFound                  // "Producto no encontrado."
    | LeftoversExceed(product: string) // "Sobras > maximo en <name>."
    | NegativeSold(product: string)    // "Venta negativa en <name>."
    | VendorMissing                    // the ticket insert fails: no vendor row with that id

  datatype CloseSummary = CloseSummary(total: int, balance: int, paymentStatus: PaymentStatus)

  // ---------------------------------------------------------------- payload

  predicate ValidEntry(e: Entry)
  {
    |e.productId| >= 1 && e.leftoversPrev >= 0 && e.orderQty >= 0 && e.leftoversNow >= 0
  }

  /** The payload schema: a `YYYY-MM-DD` date, a vendor id, non-negative numbers. */
  predicate ValidPayload(p: Payload)
  {
    && IsDate(p.date)
    && |p.vendorId| >= 1
    && p.batteryQty >= 0
    && p.paidAmount >= 0
    && forall i | 0 <= i < |p.entries| :: ValidEntry(p.entries[i])
  }

  /** Every entry names an active product. */
  predicate EntriesKnown(entries: seq<Entry>, active: seq<Product>)
  {
    forall i | 0 <= i < |entries| :: entries[i].productId in Ids(active)
  }

  /** `entryByProductId.get(p)`: a `Map` built from the entries, so the last one wins. */
  function EntryFor(entries: seq<Entry>, p: ProductId): (r: Option<Entry>)
    ensures r.None? <==> forall i | 0 <= i < |entries| :: entries[i].productId != p
    ensures r.Some? ==> exists i | 0 <= i < |entries| :: entries[i] == r.value && LastFor(entries, p, i)
  {
    if entries == [] then None
    else if entries[|entries| - 1].productId == p then Some(entries[|entries| - 1])
    else
      var r := EntryFor(entries[..|entries| - 1], p);
      assert r.Some? ==> exists i | 0 <= i < |entries| :: entries[i] == r.value && LastFor(entries, p, i) by {
        if r.Some? {
          var i :| 0 <= i < |entries| - 1 && entries[..|entries| - 1][i] == r.value && LastFor(entries[..|entries| - 1], p, i);
          assert LastFor(entries, p, i);
        }
      }
      r
  }

  /** `entries[i]` is the last entry for product `p`. */
  predicate LastFor(entries: seq<Entry>, p: ProductId, i: int)
    requires 0 <= i < |entries|
  {
    entries[i].productId == p && forall j | i < j < |entries| :: entries[j].productId != p
  }

  /** The entry for `p`, or all-zero quantities when the product was not entered. */
  function EntryOrZero(entries: seq<Entry>, p: ProductId): (e: Entry)
    ensures e.productId == p
    ensures (forall i | 0 <= i < |entries| :: entries[i].productId != p) ==> e == Entry(p, 0, 0, 0)
    ensures (forall i | 0 <= i < |entries| :: ValidEntry(entries[i])) && |p| >= 1 ==> ValidEntry(e)
  {
    match EntryFor(entries, p)
    case Some(e) => e
    case None => Entry(p, 0, 0, 0)
  }

  // ---------------------------------------------------------------- line validation

  /** The stock bound `leftoversNow <= leftoversPrev + orderQty`. */
  predicate WithinStock(e: Entry)
  {
    e.leftoversNow <= e.leftoversPrev + e.orderQty
  }

  /**
   * The two checks of the validation loop, in order. The negative-sold check can never
   * fire: once leftovers are within stock, the sold quantity is non-negative.
   */
  function CheckEntry(name: string, e: Entry): (r: Option<SaveError>)
    ensures r.None? <==> WithinStock(e)
    ensures r.Some? ==> r.value == LeftoversExceed(name)
  {
    if e.leftoversNow > e.leftoversPrev + e.orderQty then Some(LeftoversExceed(name))
    else if SoldQty(e.orderQty, e.leftoversPrev, e.leftoversNow) < 0 then Some(NegativeSold(name))
    else None
  }

  /** The line written for product `p` from its entry, priced at `price`. */
  function ClosingLine(p: ProductId, e: Entry, price: int): Line
  {
    var sold := SoldQty(e.orderQty, e.leftoversPrev, e.leftoversNow);
    Line(p, e.leftoversPrev, e.orderQty, e.leftoversNow, sold, price, Subtotal(sold, price))
  }

  /** `lineUpdates`: one closing line per active product, in catalogue order. */
  function ClosingLines(active: seq<Product>, entries: seq<Entry>, priceFor: map<ProductId, int>): (r: seq<Line>)
    ensures |r| == |active|
    ensures forall i | 0 <= i < |active| ::
      r[i] == ClosingLine(active[i].id, EntryOrZero(entries, active[i].id), GetOr(priceFor, active[i].id, 0))
  {
    seq(|active|, i requires 0 <= i < |active| =>
      ClosingLine(active[i].id, EntryOrZero(entries, active[i].id), GetOr(priceFor, active[i].id, 0)))
  }

  predicate AllWithinStock(active: seq<Product>, entries: seq<Entry>)
  {
    forall i | 0 <= i < |active| :: WithinStock(EntryOrZero(entries, active[i].id))
  }

  /** `active[i]` is the first product whose entry exceeds its stock. */
  predicate FirstOverStock(active: seq<Product>, entries: seq<Entry>, i: int)
  {
    && 0 <= i < |active|
    && !WithinStock(EntryOrZero(entries, active[i].id))
    && forall j | 0 <= j < i :: WithinStock(EntryOrZero(entries, active[j].id))
  }

  /**
   * The validation loop of the save: builds `lineUpdates` product by product and stops at
   * the first product whose entry fails, naming it.
   */
  method BuildLineUpdates(active: seq<Product>, entries: seq<Entry>, priceFor: map<ProductId, int>)
    returns (r: Result<seq<Line>, SaveError>)
    ensures r.Success? <==> AllWithinStock(active, entries)
    ensures r.Success? ==> r.value == ClosingLines(active, entries, priceFor)
    ensures r.Failure? ==> exists i :: FirstOverStock(active, entries, i) && r.error == LeftoversExceed(active[i].name)
  {
    var updates: seq<Line> := [];
    for i := 0 to |active|
      invariant |updates| == i
      invariant forall j | 0 <= j < i ::
        updates[j] == ClosingLine(active[j].id, EntryOrZero(entries, active[j].id), GetOr(priceFor, active[j].id, 0))
      invariant forall j | 0 <= j < i :: WithinStock(EntryOrZero(entries, active[j].id))
    {
      var product := active[i];
      var entry := EntryOrZero(entries, product.id);
      var failure := CheckEntry(product.name, entry);
      if failure.Some? {
        assert FirstOverStock(active, entries, i);
        return Failure(failure.value);
      }
      var sold := SoldQty(entry.orderQty, entry.leftoversPrev, entry.leftoversNow);
      var price := GetOr(priceFor, product.id, 0);
      updates := updates + [Line(product.id, entry.leftoversPrev, entry.orderQty, entry.leftoversNow,
                                 sold, price, Subtotal(sold, price))];
    }
    return Success(updates);
  }

  /**
   * Every closing line keeps the ledger's line invariants: leftovers within stock,
   * `soldQty = leftoversPrev + orderQty - leftoversNow >= 0`, `subtotal = soldQty * price`.
   */
  lemma ClosingLinesSound(active: seq<Product>, entries: seq<Entry>, priceFor: map<ProductId, int>)
    requires AllWithinStock(active, entries)
    ensures forall i | 0 <= i < |active| :: var l := ClosingLines(active, entries, priceFor)[i];
      && l.productId == active[i].id
      && l.unitPriceUsed == GetOr(priceFor, active[i].id, 0)
      && l.leftoversNow <= l.leftoversPrev + l.orderQty
      && l.soldQty == l.leftoversPrev + l.orderQty - l.leftoversNow >= 0
      && l.subtotal == l.soldQty * l.unitPriceUsed
  {
  }

  // ---------------------------------------------------------------- writing the ticket

  /** The ticket after the create-or-sync step: created with one line per active product, or given its missing lines. */
  function Synced(tickets: map<TicketKey, Ticket>, key: TicketKey, s: Settings, batteryQty: int, user: UserId,
                  active: seq<Product>, priceFor: map<ProductId, int>): Ticket
  {
    if key in tickets then tickets[key].(lines := SyncLines(tickets[key].lines, active, map[], priceFor))
    else NewTicket(s, batteryQty, user, active, map[], priceFor)
  }

  /** The batch of `ticketLine.update` calls keyed by (ticket, product). */
  function ApplyLineUpdates(lines: seq<Line>, updates: seq<Line>): (r: seq<Line>)
    ensures LineProducts(r) == LineProducts(lines)
  {
    seq(|lines|, i requires 0 <= i < |lines| =>
      match FindLine(updates, lines[i].productId)
      case Some(j) => updates[j]
      case None => lines[i])
  }

  /** The closing update of the ticket row. */
  function CloseTicket(t: Ticket, s: Settings, batteryQty: int, amount: int, reported: bool,
                       updates: seq<Line>, closer: UserId, now: Stamp): Ticket
  {
    var total := GrandTotal(updates, BatteryTotal(s.batteryMode, s.batteryUnitPrice, batteryQty));
    var paid := if reported then amount else 0;
    var credit := if reported then 0 else amount;
    t.(status := Closed,
       batteryMode := s.batteryMode,
       batteryUnitPrice := s.batteryUnitPrice,
       batteryQty := batteryQty,
       total := total,
       paidAmount := paid,
       balance := Balance(total, paid),
       paymentStatus := StatusFor(total, paid),
       leftoversReported := reported,
       carryoverCredit := credit,
       carryoverAppliedAt := None,
       closedAt := Some(now),
       closedBy := Some(closer),
       lines := ApplyLineUpdates(t.lines, updates))
  }

  /**
   * The closed ticket: CLOSED with no carry-over stamp; the money received is either the
   * payment (leftovers reported) or the carry-over credit (deferred), never both; total,
   * balance and payment status follow the ledger rules.
   */
  lemma CloseTicketFacts(t: Ticket, s: Settings, batteryQty: int, amount: int, reported: bool,
                         updates: seq<Line>, closer: UserId, now: Stamp)
    requires amount >= 0
    ensures var c := CloseTicket(t, s, batteryQty, amount, reported, updates, closer, now);
      && c.status == Closed && c.carryoverAppliedAt.None? && c.closedAt == Some(now)
      && c.leftoversReported == reported
      && (reported ==> c.paidAmount == amount && c.carryoverCredit == 0)
      && (!reported ==> c.paidAmount == 0 && c.carryoverCredit == amount)
      && c.paidAmount + c.carryoverCredit == amount
      && (c.paidAmount == 0 || c.carryoverCredit == 0)
      && c.total == Sum(Subtotals(updates)) + s.batteryUnitPrice * batteryQty
      && c.balance == Balance(c.total, c.paidAmount)
      && (c.paymentStatus == Paid <==> c.paidAmount >= c.total)
      && (c.paymentStatus == Credit <==> c.paidAmount == 0 && c.total > 0)
      && (c.paymentStatus == Partial <==> 0 < c.paidAmount < c.total)
  {
  }

  /**
   * After the line batch, each active product's single line is exactly its closing line;
   * lines of products that are no longer active are left as they were.
   */
  lemma {:induction false} ClosedLines(lines: seq<Line>, active: seq<Product>, entries: seq<Entry>, priceFor: map<ProductId, int>)
    requires UniqueProducts(lines) && UniqueIds(active)
    ensures var r := ApplyLineUpdates(lines, ClosingLines(active, entries, priceFor));
      && UniqueProducts(r)
      && (forall i | 0 <= i < |lines| && lines[i].productId !in Ids(active) :: r[i] == lines[i])
      && (forall i, j | 0 <= i < |lines| && 0 <= j < |active| && lines[i].productId == active[j].id ::
            r[i] == ClosingLines(active, entries, priceFor)[j])
  {
    var updates := ClosingLines(active, entries, priceFor);
    var r := ApplyLineUpdates(lines, updates);
    assert LineProducts(r) == LineProducts(lines);
    forall i, j | 0 <= i < j < |r| ensures r[i].productId != r[j].productId {
      assert LineProducts(r)[i] == lines[i].productId && LineProducts(r)[j] == lines[j].productId;
    }
    forall i | 0 <= i < |lines| && lines[i].productId !in Ids(active) ensures r[i] == lines[i] {
      assert !HasLine(updates, lines[i].productId) by {
        forall j | 0 <= j < |updates| ensures updates[j].productId != lines[i].productId {
          assert updates[j].productId == active[j].id;
        }
      }
    }
    forall i, j | 0 <= i < |lines| && 0 <= j < |active| && lines[i].productId == active[j].id
      ensures r[i] == updates[j]
    {
      assert HasLine(updates, lines[i].productId) by { assert updates[j].productId == lines[i].productId; }
      var k := FindLine(updates, lines[i].productId).value;
      assert active[k].id == active[j].id;
    }
  }

  // ---------------------------------------------------------------- carry-over

  /** `carryoverByProductId`: product → leftovers at close (a `Map`, so the last line wins). */
  function CarryMap(updates: seq<Line>): (m: map<ProductId, int>)
    ensures forall p :: p in m <==> HasLine(updates, p)
  {
    if updates == [] then map[]
    else
      var last := updates[|updates| - 1];
      var m := CarryMap(updates[..|updates| - 1])[last.productId := last.leftoversNow];
      assert forall p :: HasLine(updates, p) <==> HasLine(updates[..|updates| - 1], p) || p == last.productId by {
        forall p | HasLine(updates, p) ensures HasLine(updates[..|updates| - 1], p) || p == last.productId {
          var i :| 0 <= i < |updates| && updates[i].productId == p;
          if i < |updates| - 1 { assert updates[..|updates| - 1][i].productId == p; }
        }
        forall p | HasLine(updates[..|updates| - 1], p) ensures HasLine(updates, p) {
          var i :| 0 <= i < |updates| - 1 && updates[..|updates| - 1][i].productId == p;
          assert updates[i].productId == p;
        }
      }
      m
  }

  /** The carry map of the closing lines gives each active product its entered `leftoversNow`. */
  lemma {:induction false} CarryMapOfClosingLines(active: seq<Product>, entries: seq<Entry>, priceFor: map<ProductId, int>)
    ensures var m := CarryMap(ClosingLines(active, entries, priceFor));
      && m.Keys == Ids(active)
      && forall p | p in m :: m[p] == EntryOrZero(entries, p).leftoversNow
    decreases |active|
  {
    var lines := ClosingLines(active, entries, priceFor);
    var m := CarryMap(lines);
    forall p | p in Ids(active) ensures p in m {
      var i :| 0 <= i < |active| && active[i].id == p;
      assert lines[i].productId == p;
    }
    forall p | p in m ensures p in Ids(active) {
      var i :| 0 <= i < |lines| && lines[i].productId == p;
    }
    if active != [] {
      var front := active[..|active| - 1];
      CarryMapOfClosingLines(front, entries, priceFor);
      assert lines[..|lines| - 1] == ClosingLines(front, entries, priceFor);
    }
  }

  /** One line of the next open ticket after carry-over. */
  function CarryLine(l: Line, carry: map<ProductId, int>): Line
  {
    var prev := GetOr(carry, l.productId, l.leftoversPrev);
    var max := prev + l.orderQty;
    var now := if l.leftoversNow < max then l.leftoversNow else max;
    var sold := SoldQty(l.orderQty, prev, now);
    var sold := if sold > 0 then sold else 0;
    l.(leftoversPrev := prev, leftoversNow := now, soldQty := sold, subtotal := Subtotal(sold, l.unitPriceUsed))
  }

  function CarryLines(lines: seq<Line>, carry: map<ProductId, int>): (r: seq<Line>)
    ensures |r| == |lines| && forall i | 0 <= i < |lines| :: r[i] == CarryLine(lines[i], carry)
    ensures LineProducts(r) == LineProducts(lines)
  {
    seq(|lines|, i requires 0 <= i < |lines| => CarryLine(lines[i], carry))
  }

  /**
   * A carried line takes the closed quantity as `leftoversPrev` (or keeps its own), has its
   * `leftoversNow` clamped into stock, and re-derives sold and subtotal from its own price;
   * `orderQty` and `unitPriceUsed` do not change. The floor at zero never bites after the clamp.
   */
  lemma CarryLineFacts(l: Line, carry: map<ProductId, int>)
    requires l.leftoversNow >= 0 && l.orderQty >= 0 && l.leftoversPrev >= 0
    requires forall p | p in carry :: carry[p] >= 0
    ensures var c := CarryLine(l, carry);
      && c.productId == l.productId && c.orderQty == l.orderQty && c.unitPriceUsed == l.unitPriceUsed
      && c.leftoversPrev == (if l.productId in carry then carry[l.productId] else l.leftoversPrev)
      && 0 <= c.leftoversNow <= c.leftoversPrev + c.orderQty
      && c.leftoversNow <= l.leftoversNow
      && (l.leftoversNow <= c.leftoversPrev + c.orderQty ==> c.leftoversNow == l.leftoversNow)
      && c.soldQty == c.leftoversPrev + c.orderQty - c.leftoversNow >= 0
      && c.subtotal == c.soldQty * c.unitPriceUsed
  {
  }

  // ---------------------------------------------------------------- the next open ticket

  ghost predicate IsOpenAfter(tickets: map<TicketKey, Ticket>, vendor: VendorId, date: string, k: TicketKey)
  {
    k in tickets && k.vendorId == vendor && tickets[k].status == Open && Less(date, k.date)
  }

  /** `k` is the earliest OPEN ticket of `vendor` strictly after `date`. */
  ghost predicate IsNextOpen(tickets: map<TicketKey, Ticket>, vendor: VendorId, date: string, k: TicketKey)
  {
    IsOpenAfter(tickets, vendor, date, k) &&
    forall k2 | IsOpenAfter(tickets, vendor, date, k2) :: AtOrBefore(k.date, k2.date)
  }

  lemma NextOpenUnique(tickets: map<TicketKey, Ticket>, vendor: VendorId, date: string, k1: TicketKey, k2: TicketKey)
    requires IsNextOpen(tickets, vendor, date, k1) && IsNextOpen(tickets, vendor, date, k2)
    ensures k1 == k2
  {
    AtOrBeforeAntisymmetric(k1.date, k2.date);
  }

  /** `findFirst({ vendorId, status: OPEN, date > date }, orderBy date asc)` */
  method FindNextOpen(tickets: map<TicketKey, Ticket>, vendor: VendorId, date: string) returns (next: Option<TicketKey>)
    ensures next.Some? ==> IsNextOpen(tickets, vendor, date, next.value)
    ensures next.None? ==> forall k | k in tickets :: !IsOpenAfter(tickets, vendor, date, k)
  {
    var pending := tickets.Keys;
    next := None;
    while pending != {}
      invariant pending <= tickets.Keys
      invariant next.Some? ==> IsOpenAfter(tickets, vendor, date, next.value)
      invariant next.Some? ==>
        forall k | k in tickets.Keys - pending && IsOpenAfter(tickets, vendor, date, k) :: AtOrBefore(next.value.date, k.date)
      invariant next.None? ==> forall k | k in tickets.Keys - pending :: !IsOpenAfter(tickets, vendor, date, k)
      decreases |pending|
    {
      var k :| k in pending;
      if k.vendorId == vendor && tickets[k].status == Open && Less(date, k.date) {
        if next.None? {
          next := Some(k);
        } else if Less(k.date, next.value.date) {
          forall k' | k' in tickets.Keys - pending && IsOpenAfter(tickets, vendor, date, k')
            ensures AtOrBefore(k.date, k'.date)
          {
            AtOrBeforeTransitive(k.date, next.value.date, k'.date);
          }
          next := Some(k);
        } else {
          LessTotal(k.date, next.value.date);
        }
      }
      pending := pending - {k};
    }
  }

  /**
   * The carry-over write: every line of the next open ticket is carried; when the leftovers
   * were not reported and a credit is due, the next ticket's payment is overwritten with the
   * credit and the closed ticket is stamped.
   */
  function Propagate(tickets: map<TicketKey, Ticket>, closedKey: TicketKey, next: Option<TicketKey>,
                     carry: map<ProductId, int>, reported: bool, credit: int, now: Stamp): map<TicketKey, Ticket>
    requires closedKey in tickets && (next.Some? ==> next.value in tickets)
  {
    match next
    case None => tickets
    case Some(k) =>
      var carried := tickets[k].(lines := CarryLines(tickets[k].lines, carry));
      if !reported && credit > 0 then
        tickets[k := carried.(paidAmount := credit)][closedKey := tickets[closedKey].(carryoverAppliedAt := Some(now))]
      else tickets[k := carried]
  }

  /**
   * What carry-over changes: only the next open ticket's lines (and payment, when the credit
   * moves) and the closed ticket's stamp; the stamp is set exactly when the credit moves.
   */
  lemma PropagateFacts(tickets: map<TicketKey, Ticket>, closedKey: TicketKey, next: Option<TicketKey>,
                       carry: map<ProductId, int>, reported: bool, credit: int, now: Stamp)
    requires closedKey in tickets && (next.Some? ==> next.value in tickets && next.value != closedKey)
    ensures var r := Propagate(tickets, closedKey, next, carry, reported, credit, now);
      var moves := next.Some? && !reported && credit > 0;
      && r.Keys == tickets.Keys
      && (forall k | k in tickets && k != closedKey && (next.None? || k != next.value) :: r[k] == tickets[k])
      && r[closedKey] == tickets[closedKey].(carryoverAppliedAt := if moves then Some(now) else tickets[closedKey].carryoverAppliedAt)
      && (next.Some? ==>
            && r[next.value].lines == CarryLines(tickets[next.value].lines, carry)
            && r[next.value].paidAmount == (if moves then credit else tickets[next.value].paidAmount)
            && r[next.value] == tickets[next.value].(lines := r[next.value].lines, paidAmount := r[next.value].paidAmount))
  {
  }

  // ---------------------------------------------------------------- reading an entry back

  /** One product row of the entry form. */
  datatype ViewLine = ViewLine(productId: ProductId, name: string, unitPriceUsed: int,
                               leftoversPrev: int, orderQty: int, leftoversNow: int)

  /** What `getHistoricalEntry` returns to pre-fill the form. */
  datatype EntryView = EntryView(
    targetDate: string,
    status: Status,
    batteryQty: int,
    batteryUnitPrice: int,
    paidAmount: int,
    leftoversReported: bool,
    lines: seq<ViewLine>)

  datatype ViewError = InvalidDate  // "Fecha invalida."

  function ViewLineOf(p: Product, t: Option<Ticket>, priceFor: map<ProductId, int>): ViewLine
  {
    var found := if t.Some? then FindLine(t.value.lines, p.id) else None;
    match found
    case Some(j) =>
      var l := t.value.lines[j];
      ViewLine(p.id, p.name, l.unitPriceUsed, l.leftoversPrev, l.orderQty, l.leftoversNow)
    case None => ViewLine(p.id, p.name, GetOr(priceFor, p.id, 0), 0, 0, 0)
  }

  /** The form contents for `date`: the ticket's own values, or defaults when there is none. */
  function ViewOf(date: string, t: Option<Ticket>, s: Settings, active: seq<Product>, priceFor: map<ProductId, int>): (v: EntryView)
    ensures |v.lines| == |active|
  {
    EntryView(
      date,
      if t.Some? then t.value.status else Open,
      if t.Some? then t.value.batteryQty else s.batteryQty,
      s.batteryUnitPrice,
      if t.None? then 0 else if t.value.leftoversReported then t.value.paidAmount else t.value.carryoverCredit,
      if t.Some? then t.value.leftoversReported else true,
      seq(|active|, i requires 0 <= i < |active| => ViewLineOf(active[i], t, priceFor)))
  }

  /**
   * `getHistoricalEntry`: ensures the settings row exists, then reads the active products,
   * their prices on `date` and the vendor's ticket for that day.
   */
  method GetHistoricalEntry(db: Db, vendorId: VendorId, date: string)
    returns (r: Result<EntryView, ViewError>, priceFor: map<ProductId, int>)
    requires db.Valid()
    modifies db`settings
    ensures db.Valid()
    ensures !(|vendorId| >= 1 && IsDate(date)) ==> r == Failure(InvalidDate) && db.settings == old(db.settings)
    ensures |vendorId| >= 1 && IsDate(date) ==>
      var active := ActiveProducts(db.products);
      var key := TicketKey(vendorId, date);
      && db.settings == Some(EnsuredSettings(old(db.settings)))
      && priceFor.Keys == Ids(active)
      && (forall p | p in priceFor :: IsEffectivePrice(db.prices, p, date, priceFor[p]))
      && r == Success(ViewOf(date, if key in db.tickets then Some(db.tickets[key]) else None,
                             EnsuredSettings(old(db.settings)), active, priceFor))
  {
    priceFor := map[];
    if !(|vendorId| >= 1 && IsDate(date)) {
      return Failure(InvalidDate), priceFor;
    }
    var settings := EnsureSettings(db);
    var active := ActiveProducts(db.products);
    priceFor := PricesForDate(db.prices, active, date);
    var key := TicketKey(vendorId, date);
    var ticket := if key in db.tickets then Some(db.tickets[key]) else None;
    r := Success(ViewOf(date, ticket, settings, active, priceFor));
  }

  /**
   * A saved entry reads back as it was typed: the form shows the closed ticket, the battery
   * quantity, the reported flag, the amount received in either mode, and for each active
   * product the quantities entered (zero when left out) at the price the save used. The
   * carry-over stamp the save may set afterwards does not change the view.
   */
  lemma SavedEntryReadsBack(tickets: map<TicketKey, Ticket>, key: TicketKey, s: Settings, batteryQty: int,
                            amount: int, reported: bool, user: UserId, now: Stamp, active: seq<Product>,
                            entries: seq<Entry>, priceFor: map<ProductId, int>,
                            applied: Option<Stamp>, s2: Settings, priceFor2: map<ProductId, int>)
    requires key in tickets ==> UniqueProducts(tickets[key].lines)
    requires UniqueIds(active)
    ensures var synced := Synced(tickets, key, s, batteryQty, user, active, priceFor);
      var closed := CloseTicket(synced, s, batteryQty, amount, reported, ClosingLines(active, entries, priceFor), user, now);
      var v := ViewOf(key.date, Some(closed.(carryoverAppliedAt := applied)), s2, active, priceFor2);
      && v.status == Closed
      && v.batteryQty == batteryQty
      && v.leftoversReported == reported
      && v.paidAmount == amount
      && forall i | 0 <= i < |active| ::
           var e := EntryOrZero(entries, active[i].id);
           v.lines[i] == ViewLine(active[i].id, active[i].name, GetOr(priceFor, active[i].id, 0),
                                  e.leftoversPrev, e.orderQty, e.leftoversNow)
  {
    var synced := Synced(tickets, key, s, batteryQty, user, active, priceFor);
    if key in tickets {
      SyncLinesCoversActive(tickets[key].lines, active, map[], priceFor);
    } else {
      NewTicketCoversActive(s, batteryQty, user, active, map[], priceFor);
    }
    var updates := ClosingLines(active, entries, priceFor);
    var closed := CloseTicket(synced, s, batteryQty, amount, reported, updates, user, now);
    var t := closed.(carryoverAppliedAt := applied);
    ClosedLines(synced.lines, active, entries, priceFor);
    var v := ViewOf(key.date, Some(t), s2, active, priceFor2);
    forall i | 0 <= i < |active|
      ensures v.lines[i] == ViewLine(active[i].id, active[i].name, GetOr(priceFor, active[i].id, 0),
                                     EntryOrZero(entries, active[i].id).leftoversPrev,
                                     EntryOrZero(entries, active[i].id).orderQty,
                                     EntryOrZero(entries, active[i].id).leftoversNow)
    {
      assert active[i] in active;
      assert HasLine(t.lines, active[i].id) by {
        assert LineProducts(t.lines) == LineProducts(synced.lines);
        var k :| 0 <= k < |synced.lines| && synced.lines[k].productId == active[i].id;
        assert LineProducts(t.lines)[k] == active[i].id;
      }
      var j := FindLine(t.lines, active[i].id).value;
      assert synced.lines[j].productId == active[i].id by {
        assert LineProducts(t.lines)[j] == LineProducts(synced.lines)[j];
      }
      assert t.lines[j] == updates[i];
    }
  }

  // ---------------------------------------------------------------- the action

  lemma UpdateTwice(m: map<TicketKey, Ticket>, k: TicketKey, a: Ticket, b: Ticket)
    ensures m[k := a][k := b] == m[k := b]
  {
  }

  lemma SameProductsUnique(a: seq<Line>, b: seq<Line>)
    requires UniqueProducts(a) && LineProducts(a) == LineProducts(b)
    ensures UniqueProducts(b)
  {
    forall i, j | 0 <= i < j < |b| ensures b[i].productId != b[j].productId {
      assert LineProducts(a)[i] == LineProducts(b)[i] && LineProducts(a)[j] == LineProducts(b)[j];
    }
  }

  /** The create-or-sync step of the save. */
  method SyncTicket(db: Db, key: TicketKey, s: Settings, batteryQty: int, user: UserId,
                    active: seq<Product>, priceFor: map<ProductId, int>)
    requires db.Valid() && UniqueIds(active)
    modifies db`tickets
    ensures db.Valid()
    ensures db.tickets == old(db.tickets)[key := Synced(old(db.tickets), key, s, batteryQty, user, active, priceFor)]
  {
    if key !in db.tickets {
      NewTicketCoversActive(s, batteryQty, user, active, map[], priceFor);
      db.tickets := db.tickets[key := NewTicket(s, batteryQty, user, active, map[], priceFor)];
    } else {
      var t := db.tickets[key];
      SyncLinesCoversActive(t.lines, active, map[], priceFor);
      var missing := MissingProducts(t.lines, active);
      if |missing| > 0 {
        db.tickets := db.tickets[key := t.(lines := t.lines + NewLines(missing, map[], priceFor))];
      } else {
        assert t.lines + NewLines(missing, map[], priceFor) == t.lines;
      }
    }
  }

  /** The line batch and the closing update of the ticket row. */
  method WriteClose(db: Db, key: TicketKey, s: Settings, batteryQty: int, amount: int, reported: bool,
                    updates: seq<Line>, user: UserId, now: Stamp) returns (summary: CloseSummary)
    requires db.Valid() && key in db.tickets
    modifies db`tickets
    ensures db.Valid()
    ensures var closed := CloseTicket(old(db.tickets)[key], s, batteryQty, amount, reported, updates, user, now);
      && db.tickets == old(db.tickets)[key := closed]
      && summary == CloseSummary(closed.total, closed.balance, closed.paymentStatus)
  {
    var t := db.tickets[key];
    SameProductsUnique(t.lines, ApplyLineUpdates(t.lines, updates));
    db.tickets := db.tickets[key := t.(lines := ApplyLineUpdates(t.lines, updates))];
    var batteryTotal := BatteryTotal(s.batteryMode, s.batteryUnitPrice, batteryQty);
    var total := GrandTotal(updates, batteryTotal);
    var paid := if reported then amount else 0;
    var credit := if reported then 0 else amount;
    var balance := Balance(total, paid);
    var paymentStatus := StatusFor(total, paid);
    t := db.tickets[key];
    db.tickets := db.tickets[key := t.(
      status := Closed,
      batteryMode := s.batteryMode,
      batteryUnitPrice := s.batteryUnitPrice,
      batteryQty := batteryQty,
      total := total,
      paidAmount := paid,
      balance := balance,
      paymentStatus := paymentStatus,
      leftoversReported := reported,
      carryoverCredit := credit,
      carryoverAppliedAt := None,
      closedAt := Some(now),
      closedBy := Some(user))];
    summary := CloseSummary(total, balance, paymentStatus);
  }

  /** The carry-over into the next open ticket, when there is one. */
  method CarryOver(db: Db, closedKey: TicketKey, next: Option<TicketKey>, carry: map<ProductId, int>,
                   reported: bool, credit: int, now: Stamp)
    requires db.Valid() && closedKey in db.tickets
    requires next.Some? ==> next.value in db.tickets && next.value != closedKey
    modifies db`tickets
    ensures db.Valid()
    ensures db.tickets == Propagate(old(db.tickets), closedKey, next, carry, reported, credit, now)
  {
    if next.Some? {
      var k := next.value;
      var n := db.tickets[k];
      SameProductsUnique(n.lines, CarryLines(n.lines, carry));
      db.tickets := db.tickets[k := n.(lines := CarryLines(n.lines, carry))];
      if !reported && credit > 0 {
        n := db.tickets[k];
        db.tickets := db.tickets[k := n.(paidAmount := credit)];
        var c := db.tickets[closedKey];
        db.tickets := db.tickets[closedKey := c.(carryoverAppliedAt := Some(now))];
      }
    }
  }

  /**
   * Closes the synced ticket with its closing lines and carries it over into the vendor's
   * next open ticket, returning that ticket's key.
   */
  method CloseAndCarry(db: Db, ghost base: map<TicketKey, Ticket>, ghost synced: Ticket, key: TicketKey, s: Settings, batteryQty: int, amount: int, reported: bool,
                       updates: seq<Line>, user: UserId, now: Stamp)
    returns (summary: CloseSummary, next: Option<TicketKey>)
    requires db.Valid() && db.tickets == base[key := synced]
    modifies db`tickets
    ensures db.Valid()
    ensures var closed := CloseTicket(synced, s, batteryQty, amount, reported, updates, user, now);
      var stage := base[key := closed];
      && (next.Some? ==> IsNextOpen(stage, key.vendorId, key.date, next.value))
      && (next.None? ==> forall k | k in stage :: !IsOpenAfter(stage, key.vendorId, key.date, k))
      && db.tickets == Propagate(stage, key, next, CarryMap(updates), reported, closed.carryoverCredit, now)
      && summary == CloseSummary(closed.total, closed.balance, closed.paymentStatus)
  {
    summary := WriteClose(db, key, s, batteryQty, amount, reported, updates, user, now);
    UpdateTwice(base, key, synced, db.tickets[key]);
    var credit := if reported then 0 else amount;
    next := FindNextOpen(db.tickets, key.vendorId, key.date);
    if next.Some? {
      LessIrreflexive(key.date);
    }
    CarryOver(db, key, next, CarryMap(updates), reported, credit, now);
  }

  /**
   * What the save guarantees once the payload has passed validation: the settings exist and
   * the lines are priced at the effective prices. A new ticket for a vendor that is not in the
   * vendor table cannot be inserted, and nothing is written. Otherwise the ticket is synced and
   * then either left open (a line failed) or closed and carried over into the next open ticket.
   */
  ghost predicate Saved(tickets0: map<TicketKey, Ticket>, settings0: Option<Settings>, products: seq<Product>,
                        vendors: seq<Vendor>, prices: PriceList, payload: Payload, user: UserId, now: Stamp,
                        r: Result<CloseSummary, SaveError>, priceFor: map<ProductId, int>, next: Option<TicketKey>,
                        settings: Option<Settings>, tickets: map<TicketKey, Ticket>)
  {
    var active := ActiveProducts(products);
    var key := TicketKey(payload.vendorId, payload.date);
    var s := EnsuredSettings(settings0);
    var synced := Synced(tickets0, key, s, payload.batteryQty, user, active, priceFor);
    var reported := if payload.leftoversReported.Some? then payload.leftoversReported.value else true;
    var updates := ClosingLines(active, payload.entries, priceFor);
    var closed := CloseTicket(synced, s, payload.batteryQty, payload.paidAmount, reported, updates, user, now);
    var stage := tickets0[key := closed];
    var orphan := key !in tickets0 && payload.vendorId !in VendorIdSet(vendors);
    && settings == Some(s)
    && priceFor.Keys == Ids(active)
    && (forall p | p in priceFor :: IsEffectivePrice(prices, p, payload.date, priceFor[p]))
    && (orphan ==> r == Failure(VendorMissing) && tickets == tickets0)
    && (!orphan ==> (r.Success? <==> AllWithinStock(active, payload.entries)))
    && (!orphan && r.Failure? ==>
          && (exists i :: FirstOverStock(active, payload.entries, i) && r.error == LeftoversExceed(active[i].name))
          && tickets == tickets0[key := synced])
    && (r.Success? ==>
          && (next.Some? ==> IsNextOpen(stage, payload.vendorId, payload.date, next.value))
          && (next.None? ==> forall k | k in stage :: !IsOpenAfter(stage, payload.vendorId, payload.date, k))
          && tickets == Propagate(stage, key, next, CarryMap(updates), reported, closed.carryoverCredit, now)
          && r.value == CloseSummary(closed.total, closed.balance, closed.paymentStatus))
  }

  /** The save after the payload and its products have been validated. */
  method SaveValidated(db: Db, payload: Payload, user: UserId, now: Stamp)
    returns (r: Result<CloseSummary, SaveError>, priceFor: map<ProductId, int>, next: Option<TicketKey>)
    requires db.Valid()
    modifies db`settings, db`tickets
    ensures db.Valid()
    ensures Saved(old(db.tickets), old(db.settings), db.products, db.vendors, db.prices, payload, user, now,
                  r, priceFor, next, db.settings, db.tickets)
  {
    next := None;
    var reported := if payload.leftoversReported.Some? then payload.leftoversReported.value else true;
    var active := ActiveProducts(db.products);
    var settings := EnsureSettings(db);
    priceFor := PricesForDate(db.prices, active, payload.date);
    var key := TicketKey(payload.vendorId, payload.date);
    if key !in db.tickets && payload.vendorId !in VendorIdSet(db.vendors) {
      return Failure(VendorMissing), priceFor, next;
    }
    SyncTicket(db, key, settings, payload.batteryQty, user, active, priceFor);

    var built := BuildLineUpdates(active, payload.entries, priceFor);
    if built.Failure? {
      return Failure(built.error), priceFor, next;
    }
    ghost var synced := Synced(old(db.tickets), key, settings, payload.batteryQty, user, active, priceFor);
    var summary;
    summary, next := CloseAndCarry(db, old(db.tickets), synced, key, settings, payload.batteryQty, payload.paidAmount,
                                   reported, built.value, user, now);
    r := Success(summary);
  }

  /**
   * `saveHistoricalEntry`. `user` is the session's user and `now` the clock; `priceFor` and
   * `next` expose the prices the lines were given and the ticket the carry-over went to.
   */
  method SaveHistoricalEntry(db: Db, payload: Payload, user: UserId, now: Stamp)
    returns (r: Result<CloseSummary, SaveError>, priceFor: map<ProductId, int>, next: Option<TicketKey>)
    requires db.Valid()
    modifies db`settings, db`tickets
    ensures db.Valid()
    ensures !ValidPayload(payload) ==>
      r == Failure(InvalidData) && db.settings == old(db.settings) && db.tickets == old(db.tickets)
    ensures ValidPayload(payload) && !EntriesKnown(payload.entries, ActiveProducts(db.products)) ==>
      r == Failure(ProductNotFound) && db.settings == old(db.settings) && db.tickets == old(db.tickets)
    ensures ValidPayload(payload) && EntriesKnown(payload.entries, ActiveProducts(db.products)) ==>
      Saved(old(db.tickets), old(db.settings), db.products, db.vendors, db.prices, payload, user, now,
            r, priceFor, next, db.settings, db.tickets)
  {
    priceFor, next := map[], None;
    if !ValidPayload(payload) {
      return Failure(InvalidData), priceFor, next;
    }
    if !EntriesKnown(payload.entries, ActiveProducts(db.products)) {
      return Failure(ProductNotFound), priceFor, next;
    }
    r, priceFor, next := SaveValidated(db, payload, user, now);
  }
}

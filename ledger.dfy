/**
 * The ticket ledger's entities and the arithmetic every action shares: sold quantity,
 * line subtotal, battery surcharge, grand total, balance and payment status. Money is in
 * integer cents, so the source's two-decimal rounding is exact here.
 */
module Ledger {
  import opened Common

  type ProductId = string
  type VendorId = string
  type UserId = string
  /** A wall-clock reading, supplied by the caller (`new Date()` in the source). */
  type Stamp = int

  datatype Status = Open | Closed
  datatype PaymentStatus = Credit | Partial | Paid
  /** The surcharge mode; "PER_DAY" is the only one the application creates. */
  datatype BatteryMode = PerDay

  datatype Settings = Settings(batteryMode: BatteryMode, batteryUnitPrice: int, batteryQty: int)

  /** The row `ensureSettings` creates when none exists: PER_DAY, 3.00, quantity 1. */
  const DefaultSettings := Settings(PerDay, 300, 1)

  datatype Product = Product(id: ProductId, name: string, active: bool)

  datatype Vendor = Vendor(id: VendorId, name: string, code: string, active: bool, isFavorite: bool)

  /** One product row of a ticket, unique per (ticket, product). */
  datatype Line = Line(
    productId: ProductId,
    leftoversPrev: int,
    orderQty: int,
    leftoversNow: int,
    soldQty: int,
    unitPriceUsed: int,
    subtotal: int)

  /** A vendor's ticket for one day; the pair (vendorId, date) identifies it. */
  datatype TicketKey = TicketKey(vendorId: VendorId, date: string)

  datatype Ticket = Ticket(
    status: Status,
    batteryMode: BatteryMode,
    batteryUnitPrice: int,
    batteryQty: int,
    total: int,
    paidAmount: int,
    balance: int,
    paymentStatus: PaymentStatus,
    leftoversReported: bool,
    carryoverCredit: int,
    carryoverAppliedAt: Option<Stamp>,
    createdBy: UserId,
    closedBy: Option<UserId>,
    closedAt: Option<Stamp>,
    lines: seq<Line>)

  /** A price-history row is identified by (productId, validFrom). */
  datatype PriceKey = PriceKey(productId: ProductId, validFrom: string)

  // ---------------------------------------------------------------- arithmetic

  /** `calcSoldQty(order, prev, now)` */
  function SoldQty(orderQty: int, leftoversPrev: int, leftoversNow: int): int
  {
    leftoversPrev + orderQty - leftoversNow
  }

  /** `calcSubtotal(sold, price)`: a non-positive sold quantity contributes nothing. */
  function Subtotal(soldQty: int, unitPrice: int): (r: int)
    ensures soldQty <= 0 ==> r == 0
    ensures soldQty >= 0 ==> r == soldQty * unitPrice
  {
    if soldQty > 0 then soldQty * unitPrice else 0
  }

  /** `calcBatteryTotal(mode, unitPrice, qty)` */
  function BatteryTotal(mode: BatteryMode, unitPrice: int, qty: int): int
  {
    match mode
    case PerDay => unitPrice * qty
  }

  /** `reduce` summing from the left. */
  function Sum(xs: seq<int>): int
  {
    if xs == [] then 0 else Sum(xs[..|xs| - 1]) + xs[|xs| - 1]
  }

  lemma {:induction false} SumNonNegative(xs: seq<int>)
    requires forall i | 0 <= i < |xs| :: xs[i] >= 0
    ensures Sum(xs) >= 0
  {
    if xs != [] {
      SumNonNegative(xs[..|xs| - 1]);
    }
  }

  function Subtotals(lines: seq<Line>): (r: seq<int>)
    ensures |r| == |lines| && forall i | 0 <= i < |lines| :: r[i] == lines[i].subtotal
  {
    seq(|lines|, i requires 0 <= i < |lines| => lines[i].subtotal)
  }

  /** `sumTotals(subtotals, battery)` over the subtotals of `lines`. */
  function GrandTotal(lines: seq<Line>, batteryTotal: int): int
  {
    Sum(Subtotals(lines)) + batteryTotal
  }

  /** `max(0, total - paid)`: what is still owed, never negative. */
  function Balance(total: int, paid: int): (b: int)
    ensures b >= 0
    ensures b == 0 <==> paid >= total
    ensures b > 0 ==> paid + b == total
  {
    if total - paid > 0 then total - paid else 0
  }

  /** PAID once the payment covers the total, CREDIT when nothing was paid, PARTIAL otherwise. */
  function StatusFor(total: int, paid: int): (s: PaymentStatus)
    ensures s == Paid <==> Balance(total, paid) == 0
    ensures s == Credit <==> paid == 0 && total > 0
    ensures s == Partial <==> paid != 0 && paid < total
  {
    if paid >= total then Paid else if paid == 0 then Credit else Partial
  }

  // ---------------------------------------------------------------- lines of a ticket

  function LineProducts(lines: seq<Line>): (r: seq<ProductId>)
    ensures |r| == |lines| && forall i | 0 <= i < |lines| :: r[i] == lines[i].productId
  {
    seq(|lines|, i requires 0 <= i < |lines| => lines[i].productId)
  }

  /** The (ticket, product) uniqueness of ticket lines. */
  predicate UniqueProducts(lines: seq<Line>)
  {
    forall i, j | 0 <= i < j < |lines| :: lines[i].productId != lines[j].productId
  }

  predicate HasLine(lines: seq<Line>, p: ProductId)
  {
    exists i | 0 <= i < |lines| :: lines[i].productId == p
  }

  /** Product ids are the primary key of the product table. */
  predicate UniqueIds(products: seq<Product>)
  {
    forall i, j | 0 <= i < j < |products| :: products[i].id != products[j].id
  }

  function Ids(products: seq<Product>): (r: set<ProductId>)
    ensures forall p :: p in r <==> exists i | 0 <= i < |products| :: products[i].id == p
  {
    set i | 0 <= i < |products| :: products[i].id
  }

  /** The primary keys of the vendor table. */
  function VendorIdSet(vendors: seq<Vendor>): set<VendorId>
  {
    set i | 0 <= i < |vendors| :: vendors[i].id
  }

  /** The position of the line for product `p`. */
  function FindLine(lines: seq<Line>, p: ProductId): (r: Option<nat>)
    ensures r.Some? ==> r.value < |lines| && lines[r.value].productId == p
    ensures r.None? <==> !HasLine(lines, p)
  {
    if lines == [] then None
    else if lines[0].productId == p then Some(0)
    else match FindLine(lines[1..], p)
      case None => None
      case Some(i) => Some(i + 1)
  }

  /** `findMany({ where: { active: true } })` over the product table (kept in display order). */
  function ActiveProducts(products: seq<Product>): (r: seq<Product>)
    ensures forall i | 0 <= i < |r| :: r[i].active && r[i] in products
    ensures forall q | q in products && q.active :: q in r
    ensures UniqueIds(products) ==> UniqueIds(r)
  {
    if products == [] then []
    else
      var rest := ActiveProducts(products[..|products| - 1]);
      var last := products[|products| - 1];
      assert forall q | q in products :: q in products[..|products| - 1] || q == last;
      if last.active then
        assert UniqueIds(products) ==> forall i | 0 <= i < |rest| :: rest[i].id != last.id by {
          if UniqueIds(products) {
            forall i | 0 <= i < |rest| ensures rest[i].id != last.id {
              var j :| 0 <= j < |products| - 1 && products[j] == rest[i];
            }
          }
        }
        rest + [last]
      else rest
  }

  /** The table positions of the active products, in increasing order. */
  function ActivePositions(products: seq<Product>): seq<int>
  {
    if products == [] then []
    else ActivePositions(products[..|products| - 1]) + (if products[|products| - 1].active then [|products| - 1] else [])
  }

  /**
   * `ActiveProducts` is the table filtered in order: its i-th product is the table row at
   * position `pos[i]`, the positions strictly increase, and every active row's position is
   * among them, so each active product appears once, in table order.
   */
  lemma {:induction false} ActiveProductsInOrder(products: seq<Product>)
    ensures var r := ActiveProducts(products);
      var pos := ActivePositions(products);
      && |pos| == |r|
      && (forall i | 0 <= i < |pos| :: 0 <= pos[i] < |products| && r[i] == products[pos[i]])
      && (forall i, j | 0 <= i < j < |pos| :: pos[i] < pos[j])
      && (forall k | 0 <= k < |products| && products[k].active :: k in pos)
  {
    if products != [] {
      var front := products[..|products| - 1];
      ActiveProductsInOrder(front);
      ActivePositionsSplit(products);
      ActiveStepRows(products);
      ActiveStepIncreasing(products);
      ActiveStepCovers(products);
    }
  }

  /** One step of both filters: the last row is appended exactly when it is active. */
  lemma ActivePositionsSplit(products: seq<Product>)
    requires products != []
    ensures var n := |products|;
      var tail := if products[n - 1].active then [n - 1] else [];
      && ActivePositions(products) == ActivePositions(products[..n - 1]) + tail
      && ActiveProducts(products) == ActiveProducts(products[..n - 1]) + (if products[n - 1].active then [products[n - 1]] else [])
  {
  }

  lemma ActiveStepRows(products: seq<Product>)
    requires products != []
    requires var front := products[..|products| - 1];
      && |ActivePositions(front)| == |ActiveProducts(front)|
      && forall i | 0 <= i < |ActivePositions(front)| ::
           0 <= ActivePositions(front)[i] < |front| && ActiveProducts(front)[i] == front[ActivePositions(front)[i]]
    ensures var r := ActiveProducts(products);
      var pos := ActivePositions(products);
      && |pos| == |r|
      && forall i | 0 <= i < |pos| :: 0 <= pos[i] < |products| && r[i] == products[pos[i]]
  {
    var n := |products|;
    var front := products[..n - 1];
    var posF := ActivePositions(front);
    var rF := ActiveProducts(front);
    ActivePositionsSplit(products);
    var pos := ActivePositions(products);
    var r := ActiveProducts(products);
    forall i | 0 <= i < |pos| ensures 0 <= pos[i] < n && r[i] == products[pos[i]] {
      if i < |posF| {
        assert pos[i] == posF[i] && r[i] == rF[i] && front[posF[i]] == products[posF[i]];
      }
    }
  }

  lemma ActiveStepIncreasing(products: seq<Product>)
    requires products != []
    requires var front := products[..|products| - 1];
      var posF := ActivePositions(front);
      && (forall i | 0 <= i < |posF| :: 0 <= posF[i] < |front|)
      && (forall i, j | 0 <= i < j < |posF| :: posF[i] < posF[j])
    ensures var pos := ActivePositions(products);
      forall i, j | 0 <= i < j < |pos| :: pos[i] < pos[j]
  {
    var n := |products|;
    var posF := ActivePositions(products[..n - 1]);
    ActivePositionsSplit(products);
    var pos := ActivePositions(products);
    forall i, j | 0 <= i < j < |pos| ensures pos[i] < pos[j] {
      if j < |posF| {
        assert pos[i] == posF[i] && pos[j] == posF[j];
      } else {
        assert pos[i] == posF[i] < n - 1;
      }
    }
  }

  lemma ActiveStepCovers(products: seq<Product>)
    requires products != []
    requires var front := products[..|products| - 1];
      forall k | 0 <= k < |front| && front[k].active :: k in ActivePositions(front)
    ensures forall k | 0 <= k < |products| && products[k].active :: k in ActivePositions(products)
  {
    var n := |products|;
    var front := products[..n - 1];
    var posF := ActivePositions(front);
    ActivePositionsSplit(products);
    var pos := ActivePositions(products);
    assert |posF| <= |pos| && forall i | 0 <= i < |posF| :: pos[i] == posF[i];
    forall k | 0 <= k < n && products[k].active ensures k in pos {
      if k < n - 1 {
        assert front[k] == products[k];
        var i :| 0 <= i < |posF| && posF[i] == k;
        assert pos[i] == k;
      } else {
        assert pos[|pos| - 1] == k;
      }
    }
  }

  // ---------------------------------------------------------------- line synchronisation

  /** The active products that have no line yet, in catalogue order. */
  function MissingProducts(lines: seq<Line>, active: seq<Product>): (r: seq<Product>)
    ensures forall i | 0 <= i < |r| :: r[i] in active && !HasLine(lines, r[i].id)
    ensures forall q | q in active && !HasLine(lines, q.id) :: q in r
    ensures UniqueIds(active) ==> UniqueIds(r)
  {
    if active == [] then []
    else
      var rest := MissingProducts(lines, active[..|active| - 1]);
      var last := active[|active| - 1];
      assert forall q | q in active :: q in active[..|active| - 1] || q == last;
      if !HasLine(lines, last.id) then
        assert UniqueIds(active) ==> forall i | 0 <= i < |rest| :: rest[i].id != last.id by {
          if UniqueIds(active) {
            forall i | 0 <= i < |rest| ensures rest[i].id != last.id {
              var j :| 0 <= j < |active| - 1 && active[j] == rest[i];
            }
          }
        }
        rest + [last]
      else rest
  }

  /** A freshly inserted line: only `leftoversPrev` may be non-zero, priced at `price`. */
  function NewLine(p: ProductId, leftoversPrev: int, price: int): Line
  {
    Line(p, leftoversPrev, 0, 0, 0, price, 0)
  }

  /** The lines inserted for `missing`, each with its carried-in quantity and its price. */
  function NewLines(missing: seq<Product>, prevFor: map<ProductId, int>, priceFor: map<ProductId, int>): (r: seq<Line>)
    ensures |r| == |missing|
    ensures forall i | 0 <= i < |r| ::
      r[i] == NewLine(missing[i].id, GetOr(prevFor, missing[i].id, 0), GetOr(priceFor, missing[i].id, 0))
  {
    seq(|missing|, i requires 0 <= i < |missing| =>
      NewLine(missing[i].id, GetOr(prevFor, missing[i].id, 0), GetOr(priceFor, missing[i].id, 0)))
  }

  /** `l` is the line inserted for one of `products`. */
  predicate IsNewLineFor(l: Line, products: seq<Product>, prevFor: map<ProductId, int>, priceFor: map<ProductId, int>)
  {
    exists q | q in products :: l == NewLine(q.id, GetOr(prevFor, q.id, 0), GetOr(priceFor, q.id, 0))
  }

  /** Lines after inserting one for every active product that had none. */
  function SyncLines(lines: seq<Line>, active: seq<Product>, prevFor: map<ProductId, int>, priceFor: map<ProductId, int>): seq<Line>
  {
    lines + NewLines(MissingProducts(lines, active), prevFor, priceFor)
  }

  /**
   * Line synchronisation: existing lines are kept as they are, and afterwards every active
   * product has exactly one line; an inserted line has zero quantities except the carried-in
   * `leftoversPrev`, and the price given for its product.
   */
  lemma SyncLinesCoversActive(lines: seq<Line>, active: seq<Product>, prevFor: map<ProductId, int>, priceFor: map<ProductId, int>)
    requires UniqueProducts(lines) && UniqueIds(active)
    ensures var r := SyncLines(lines, active, prevFor, priceFor);
      && UniqueProducts(r)
      && r[..|lines|] == lines
      && (forall q | q in active :: HasLine(r, q.id))
      && (forall i | |lines| <= i < |r| :: !HasLine(lines, r[i].productId) && IsNewLineFor(r[i], active, prevFor, priceFor))
  {
    var missing := MissingProducts(lines, active);
    var added := NewLines(missing, prevFor, priceFor);
    var r := lines + added;
    forall i, j | 0 <= i < j < |r| ensures r[i].productId != r[j].productId {
      if j >= |lines| && i < |lines| {
        assert r[j].productId == missing[j - |lines|].id;
        assert !HasLine(lines, missing[j - |lines|].id);
      } else if i >= |lines| {
        assert r[i].productId == missing[i - |lines|].id;
      }
    }
    forall q | q in active ensures HasLine(r, q.id) {
      if !HasLine(lines, q.id) {
        var k :| 0 <= k < |missing| && missing[k] == q;
        assert r[|lines| + k].productId == q.id;
      } else {
        var k :| 0 <= k < |lines| && lines[k].productId == q.id;
        assert r[k].productId == q.id;
      }
    }
    forall i | |lines| <= i < |r| ensures !HasLine(lines, r[i].productId) && IsNewLineFor(r[i], active, prevFor, priceFor) {
      var q := missing[i - |lines|];
      assert q in active && r[i] == NewLine(q.id, GetOr(prevFor, q.id, 0), GetOr(priceFor, q.id, 0));
    }
  }

  /** A new OPEN ticket with one line per active product and zero totals (CREDIT). */
  function NewTicket(s: Settings, batteryQty: int, creator: UserId, active: seq<Product>,
                     prevFor: map<ProductId, int>, priceFor: map<ProductId, int>): Ticket
  {
    Ticket(Open, s.batteryMode, s.batteryUnitPrice, batteryQty, 0, 0, 0, Credit,
           true, 0, None, creator, None, None, NewLines(active, prevFor, priceFor))
  }

  lemma NewTicketCoversActive(s: Settings, batteryQty: int, creator: UserId, active: seq<Product>,
                              prevFor: map<ProductId, int>, priceFor: map<ProductId, int>)
    requires UniqueIds(active)
    ensures var t := NewTicket(s, batteryQty, creator, active, prevFor, priceFor);
      && t.batteryMode == s.batteryMode && t.batteryUnitPrice == s.batteryUnitPrice
      && t.batteryQty == batteryQty && t.createdBy == creator
      && t.status == Open && t.total == 0 && t.paidAmount == 0 && t.balance == 0 && t.paymentStatus == Credit
      && UniqueProducts(t.lines)
      && (forall q | q in active :: HasLine(t.lines, q.id))
      && (forall i | 0 <= i < |t.lines| :: IsNewLineFor(t.lines[i], active, prevFor, priceFor))
  {
    var t := NewTicket(s, batteryQty, creator, active, prevFor, priceFor);
    forall q | q in active ensures HasLine(t.lines, q.id) {
      var k :| 0 <= k < |active| && active[k] == q;
      assert t.lines[k].productId == q.id;
    }
    forall i | 0 <= i < |t.lines| ensures IsNewLineFor(t.lines[i], active, prevFor, priceFor) {
      var q := active[i];
      assert q in active;
      assert t.lines[i] == NewLine(q.id, GetOr(prevFor, q.id, 0), GetOr(priceFor, q.id, 0));
    }
  }
}

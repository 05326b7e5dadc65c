/**
 * Setting a product's price: the (product, date) price row is upserted, then every line of
 * that product, on tickets of every date, is repriced, and every ticket holding such a line
 * has its total, balance and payment status recomputed.
 */
module Prices {
  import opened Common
  import opened Dates
  import opened Ledger
  import opened Pricing
  import opened Database

  /** A price in cents, effective from `validFrom`. */
  datatype PriceInput = PriceInput(productId: ProductId, price: int, validFrom: string)

  datatype PriceError =
    | Invalid         // thrown as "INVALID"
    | ProductMissing  // the price insert fails: no product row with that id

  /**
   * The upsert takes its insert branch, and the inserted row's product key has no product
   * row to refer to.
   */
  predicate InsertsOrphan(prices: PriceList, products: seq<Product>, d: PriceInput)
  {
    PriceKey(d.productId, d.validFrom) !in prices && d.productId !in Ids(products)
  }

  /** The price schema: a product id, a positive price, a `YYYY-MM-DD` date. */
  predicate ValidPriceInput(d: PriceInput)
  {
    |d.productId| >= 1 && d.price > 0 && IsDate(d.validFrom)
  }

  /** A line of product `p` takes the new price; its subtotal is `soldQty * price`, unclamped. */
  function RepriceLine(l: Line, p: ProductId, price: int): Line
  {
    if l.productId == p then l.(unitPriceUsed := price, subtotal := l.soldQty * price) else l
  }

  function RepriceLines(lines: seq<Line>, p: ProductId, price: int): (r: seq<Line>)
    ensures |r| == |lines| && forall i | 0 <= i < |lines| :: r[i] == RepriceLine(lines[i], p, price)
  {
    seq(|lines|, i requires 0 <= i < |lines| => RepriceLine(lines[i], p, price))
  }

  /** The per-ticket recompute: total over all of the ticket's lines plus its battery snapshot. */
  function Recompute(t: Ticket): Ticket
  {
    var total := GrandTotal(t.lines, BatteryTotal(t.batteryMode, t.batteryUnitPrice, t.batteryQty));
    t.(total := total, balance := Balance(total, t.paidAmount), paymentStatus := StatusFor(total, t.paidAmount))
  }

  /** The ledger after the price change of `p`: touched tickets repriced and recomputed, the rest as they were. */
  function Cascade(tickets: map<TicketKey, Ticket>, p: ProductId, price: int): (r: map<TicketKey, Ticket>)
    ensures r.Keys == tickets.Keys
  {
    map k | k in tickets ::
      if HasLine(tickets[k].lines, p) then Recompute(tickets[k].(lines := RepriceLines(tickets[k].lines, p, price)))
      else tickets[k]
  }

  /** Ticket `k`'s lines after the line batch (before its totals are recomputed). */
  function Repriced(tickets: map<TicketKey, Ticket>, p: ProductId, price: int): (r: map<TicketKey, Ticket>)
    ensures r.Keys == tickets.Keys
  {
    map k | k in tickets :: tickets[k].(lines := RepriceLines(tickets[k].lines, p, price))
  }

  /**
   * `setProductPrice`: validation, the price upsert (which fails when it would insert a row
   * for a product the product table does not hold), the line batch, then one recompute per
   * touched ticket.
   */
  method SetProductPrice(db: Db, d: PriceInput) returns (r: Result<(), PriceError>)
    requires db.Valid()
    modifies db`prices, db`tickets
    ensures db.Valid()
    ensures !ValidPriceInput(d) ==> r == Failure(Invalid) && db.prices == old(db.prices) && db.tickets == old(db.tickets)
    ensures ValidPriceInput(d) && InsertsOrphan(old(db.prices), db.products, d) ==>
      r == Failure(ProductMissing) && db.prices == old(db.prices) && db.tickets == old(db.tickets)
    ensures ValidPriceInput(d) && !InsertsOrphan(old(db.prices), db.products, d) ==>
      && r == Success(())
      && db.prices == Upsert(old(db.prices), d.productId, d.validFrom, d.price)
      && db.tickets == Cascade(old(db.tickets), d.productId, d.price)
  {
    if !ValidPriceInput(d) {
      return Failure(Invalid);
    }
    if InsertsOrphan(db.prices, db.products, d) {
      return Failure(ProductMissing);
    }
    db.prices := Upsert(db.prices, d.productId, d.validFrom, d.price);
    var touched := set k | k in db.tickets && HasLine(db.tickets[k].lines, d.productId);
    CascadeSplit(db.tickets, d.productId, d.price, touched);
    if touched != {} {
      var repriced := Repriced(db.tickets, d.productId, d.price);
      RepricedValid(db.tickets, d.productId, d.price);
      db.tickets := repriced;
      RecomputeTickets(db, touched);
      assert db.tickets == Cascade(old(db.tickets), d.productId, d.price);
    }
    r := Success(());
  }

  /** The loop over the touched tickets: each one's total, balance and status are recomputed. */
  method RecomputeTickets(db: Db, touched: set<TicketKey>)
    requires touched <= db.tickets.Keys
    modifies db`tickets
    ensures db.tickets.Keys == old(db.tickets).Keys
    ensures forall k | k in old(db.tickets) ::
      db.tickets[k] == if k in touched then Recompute(old(db.tickets)[k]) else old(db.tickets)[k]
  {
    ghost var start := db.tickets;
    var pending := touched;
    while pending != {}
      invariant pending <= touched
      invariant db.tickets.Keys == start.Keys
      invariant forall k | k in start ::
        db.tickets[k] == if k in touched - pending then Recompute(start[k]) else start[k]
      decreases |pending|
    {
      var k :| k in pending;
      db.tickets := db.tickets[k := Recompute(db.tickets[k])];
      pending := pending - {k};
    }
  }

  /** The line batch keeps every ticket's one-line-per-product invariant. */
  lemma RepricedValid(tickets: map<TicketKey, Ticket>, p: ProductId, price: int)
    requires forall k | k in tickets :: UniqueProducts(tickets[k].lines)
    ensures forall k | k in tickets :: UniqueProducts(Repriced(tickets, p, price)[k].lines)
  {
    forall k | k in tickets ensures UniqueProducts(Repriced(tickets, p, price)[k].lines) {
      var a := Repriced(tickets, p, price)[k].lines;
      assert forall i | 0 <= i < |a| :: a[i].productId == tickets[k].lines[i].productId;
    }
  }

  /**
   * The cascade is the line batch followed by one recompute per touched ticket; a ticket
   * without a line for `p` is left as it was, so with no such ticket nothing changes.
   */
  lemma CascadeSplit(tickets: map<TicketKey, Ticket>, p: ProductId, price: int, touched: set<TicketKey>)
    requires touched == set k | k in tickets && HasLine(tickets[k].lines, p)
    ensures touched == {} ==> Cascade(tickets, p, price) == tickets
    ensures forall k | k in tickets ::
      Cascade(tickets, p, price)[k] ==
        (if k in touched then Recompute(Repriced(tickets, p, price)[k]) else Repriced(tickets, p, price)[k])
  {
    forall k | k in tickets && k !in touched ensures Repriced(tickets, p, price)[k] == tickets[k] {
      assert RepriceLines(tickets[k].lines, p, price) == tickets[k].lines;
    }
    if touched == {} {
      assert forall k | k in tickets :: k !in touched;
    }
  }

  /** A ticket whose stored total, balance and status agree with its own lines and snapshot. */
  predicate Consistent(t: Ticket)
  {
    var total := Sum(Subtotals(t.lines)) + t.batteryUnitPrice * t.batteryQty;
    t.total == total && t.balance == Balance(total, t.paidAmount) && t.paymentStatus == StatusFor(total, t.paidAmount)
  }

  /**
   * What the cascade does to ticket `k`. Without a line for `p` it is untouched. With one,
   * each line of `p` takes the new price with `subtotal = soldQty * price` and every other
   * line stays as it was; the ticket becomes consistent with its lines; payment, status,
   * battery snapshot and all other fields are kept.
   */
  lemma CascadeFacts(tickets: map<TicketKey, Ticket>, p: ProductId, price: int, k: TicketKey)
    requires k in tickets
    ensures var t := tickets[k];
      var c := Cascade(tickets, p, price)[k];
      && (!HasLine(t.lines, p) ==> c == t)
      && (HasLine(t.lines, p) ==>
            && |c.lines| == |t.lines|
            && (forall i | 0 <= i < |t.lines| && t.lines[i].productId == p ::
                  c.lines[i] == t.lines[i].(unitPriceUsed := price, subtotal := t.lines[i].soldQty * price))
            && (forall i | 0 <= i < |t.lines| && t.lines[i].productId != p :: c.lines[i] == t.lines[i])
            && Consistent(c)
            && c == t.(lines := c.lines, total := c.total, balance := c.balance, paymentStatus := c.paymentStatus))
  {
    var t := tickets[k];
    if !HasLine(t.lines, p) {
      assert RepriceLines(t.lines, p, price) == t.lines;
    }
  }

  /** Repricing the same lines twice gives what repricing once gave. */
  lemma RepriceLinesIdempotent(lines: seq<Line>, p: ProductId, price: int)
    ensures RepriceLines(RepriceLines(lines, p, price), p, price) == RepriceLines(lines, p, price)
    ensures LineProducts(RepriceLines(lines, p, price)) == LineProducts(lines)
  {
    var once := RepriceLines(lines, p, price);
    assert forall i | 0 <= i < |once| :: RepriceLine(once[i], p, price) == once[i];
    assert forall i | 0 <= i < |once| :: LineProducts(once)[i] == LineProducts(lines)[i];
  }

  /** Running the cascade again with the same price changes nothing. */
  lemma CascadeIdempotent(tickets: map<TicketKey, Ticket>, p: ProductId, price: int)
    ensures Cascade(Cascade(tickets, p, price), p, price) == Cascade(tickets, p, price)
  {
    var once := Cascade(tickets, p, price);
    forall k | k in tickets ensures Cascade(once, p, price)[k] == once[k] {
      var t := tickets[k];
      if HasLine(t.lines, p) {
        RepriceLinesIdempotent(t.lines, p, price);
        var j :| 0 <= j < |t.lines| && t.lines[j].productId == p;
        assert once[k].lines[j].productId == p;
        assert HasLine(once[k].lines, p);
      } else {
        assert RepriceLines(t.lines, p, price) == t.lines;
      }
    }
  }

  /** `setProductPrice` run twice with the same input leaves the state it left after one run. */
  lemma SetProductPriceIdempotent(prices: PriceList, tickets: map<TicketKey, Ticket>, d: PriceInput)
    ensures var prices1 := Upsert(prices, d.productId, d.validFrom, d.price);
      var tickets1 := Cascade(tickets, d.productId, d.price);
      && Upsert(prices1, d.productId, d.validFrom, d.price) == prices1
      && Cascade(tickets1, d.productId, d.price) == tickets1
  {
    CascadeIdempotent(tickets, d.productId, d.price);
  }

  /**
   * After the price change, the new price is the effective price of `p` on `validFrom`, and
   * every line of `p` on every ticket carries it.
   */
  lemma PriceChangeReachesEveryLine(prices: PriceList, tickets: map<TicketKey, Ticket>, d: PriceInput)
    ensures IsEffectivePrice(Upsert(prices, d.productId, d.validFrom, d.price), d.productId, d.validFrom, d.price)
    ensures var after := Cascade(tickets, d.productId, d.price);
      forall k, i | k in after && 0 <= i < |after[k].lines| && after[k].lines[i].productId == d.productId ::
        after[k].lines[i].unitPriceUsed == d.price
  {
    UpsertIsEffectiveOnItsDate(prices, d.productId, d.validFrom, d.price);
    var after := Cascade(tickets, d.productId, d.price);
    forall k, i | k in after && 0 <= i < |after[k].lines| && after[k].lines[i].productId == d.productId
      ensures after[k].lines[i].unitPriceUsed == d.price
    {
      CascadeFacts(tickets, d.productId, d.price, k);
    }
  }
}

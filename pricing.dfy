/**
 * The versioned price list: the price of a product on a date is the row with the latest
 * `validFrom` on or before that date, or zero when there is none.
 */
module Pricing {
  import opened Common
  import opened Dates
  import opened Ledger

  type PriceList = map<PriceKey, int>

  /** `d` is the latest `validFrom` of product `p` that is on or before `date`. */
  ghost predicate IsLatest(prices: PriceList, p: ProductId, date: string, d: string)
  {
    && PriceKey(p, d) in prices
    && AtOrBefore(d, date)
    && forall k | k in prices && k.productId == p && AtOrBefore(k.validFrom, date) :: AtOrBefore(k.validFrom, d)
  }

  ghost predicate HasPriceBy(prices: PriceList, p: ProductId, date: string)
  {
    exists k | k in prices :: k.productId == p && AtOrBefore(k.validFrom, date)
  }

  /** `r` is the effective price of `p` on `date`. */
  ghost predicate IsEffectivePrice(prices: PriceList, p: ProductId, date: string, r: int)
  {
    if HasPriceBy(prices, p, date) then exists d :: IsLatest(prices, p, date, d) && r == prices[PriceKey(p, d)]
    else r == 0
  }

  /** The effective price is unique: at most one `validFrom` can be the latest. */
  lemma EffectivePriceUnique(prices: PriceList, p: ProductId, date: string, r1: int, r2: int)
    requires IsEffectivePrice(prices, p, date, r1) && IsEffectivePrice(prices, p, date, r2)
    ensures r1 == r2
  {
    if HasPriceBy(prices, p, date) {
      var d1 :| IsLatest(prices, p, date, d1) && r1 == prices[PriceKey(p, d1)];
      var d2 :| IsLatest(prices, p, date, d2) && r2 == prices[PriceKey(p, d2)];
      assert PriceKey(p, d1) in prices && PriceKey(p, d2) in prices;
      AtOrBeforeAntisymmetric(d1, d2);
    }
  }

  /** `getPriceForDate(productId, date)`: `findFirst` with `validFrom <= date`, newest first. */
  method EffectivePrice(prices: PriceList, p: ProductId, date: string) returns (r: int)
    ensures IsEffectivePrice(prices, p, date, r)
  {
    var pending := prices.Keys;
    var best: Option<string> := None;
    r := 0;
    while pending != {}
      invariant pending <= prices.Keys
      invariant best.Some? ==> IsLatestAmong(prices, prices.Keys - pending, p, date, best.value) && r == prices[PriceKey(p, best.value)]
      invariant best.None? ==> r == 0 && forall k | k in prices.Keys - pending :: !(k.productId == p && AtOrBefore(k.validFrom, date))
      decreases |pending|
    {
      var k :| k in pending;
      if k.productId == p && AtOrBefore(k.validFrom, date) {
        if best.None? {
          best, r := Some(k.validFrom), prices[k];
        } else if Less(best.value, k.validFrom) {
          forall k' | k' in prices.Keys - pending && k'.productId == p && AtOrBefore(k'.validFrom, date)
            ensures AtOrBefore(k'.validFrom, k.validFrom)
          {
            AtOrBeforeTransitive(k'.validFrom, best.value, k.validFrom);
          }
          best, r := Some(k.validFrom), prices[k];
        } else {
          LessTotal(best.value, k.validFrom);
        }
      }
      pending := pending - {k};
    }
    if best.Some? {
      assert IsLatest(prices, p, date, best.value);
    } else {
      assert !HasPriceBy(prices, p, date);
    }
  }

  /** `d` is the latest `validFrom` of `p` on or before `date` among the rows `seen`. */
  ghost predicate IsLatestAmong(prices: PriceList, seen: set<PriceKey>, p: ProductId, date: string, d: string)
  {
    && PriceKey(p, d) in seen && PriceKey(p, d) in prices
    && AtOrBefore(d, date)
    && forall k | k in seen && k.productId == p && AtOrBefore(k.validFrom, date) :: AtOrBefore(k.validFrom, d)
  }

  /** The per-product price table `priceByProductId` the actions build for one date. */
  method PricesForDate(prices: PriceList, products: seq<Product>, date: string) returns (m: map<ProductId, int>)
    ensures m.Keys == Ids(products)
    ensures forall p | p in m :: IsEffectivePrice(prices, p, date, m[p])
  {
    m := map[];
    var i := 0;
    while i < |products|
      invariant 0 <= i <= |products|
      invariant m.Keys == Ids(products[..i])
      invariant forall p | p in m :: IsEffectivePrice(prices, p, date, m[p])
    {
      var price := EffectivePrice(prices, products[i].id, date);
      assert products[..i + 1] == products[..i] + [products[i]];
      m := m[products[i].id := price];
      i := i + 1;
    }
    assert products[..i] == products;
  }

  /** `upsert` on (productId, validFrom). */
  function Upsert(prices: PriceList, p: ProductId, validFrom: string, price: int): (r: PriceList)
    ensures r.Keys == prices.Keys + {PriceKey(p, validFrom)}
    ensures r[PriceKey(p, validFrom)] == price
    ensures forall k | k in prices && k != PriceKey(p, validFrom) :: r[k] == prices[k]
  {
    prices[PriceKey(p, validFrom) := price]
  }

  /** After an upsert, the new price is the effective price on its own date. */
  lemma UpsertIsEffectiveOnItsDate(prices: PriceList, p: ProductId, validFrom: string, price: int)
    ensures IsEffectivePrice(Upsert(prices, p, validFrom, price), p, validFrom, price)
  {
    var r := Upsert(prices, p, validFrom, price);
    assert PriceKey(p, validFrom) in r;
    assert IsLatest(r, p, validFrom, validFrom);
  }
}

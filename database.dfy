/**
 * The relational store the server actions read and write, held in memory: products,
 * vendors, the price history, the settings singleton and the tickets with their lines.
 * Every `prisma.$transaction` of the source is one assignment to a field here.
 */
module Database {
  import opened Common
  import opened Ledger
  import opened Pricing

  class Db {
    /** The product table, in display order. */
    var products: seq<Product>
    var vendors: seq<Vendor>
    var prices: PriceList
    /** The settings row with id "global", absent until first used. */
    var settings: Option<Settings>
    var tickets: map<TicketKey, Ticket>

    /** Primary keys of products, and (ticket, product) uniqueness of lines. */
    ghost predicate Valid()
      reads this
    {
      && UniqueIds(products)
      && forall k | k in tickets :: UniqueProducts(tickets[k].lines)
    }

    constructor (products: seq<Product>, vendors: seq<Vendor>)
      requires UniqueIds(products)
      ensures Valid()
      ensures this.products == products && this.vendors == vendors
      ensures prices == map[] && settings == None && tickets == map[]
    {
      this.products := products;
      this.vendors := vendors;
      prices := map[];
      settings := None;
      tickets := map[];
    }
  }

  /** `ensureSettings`: the existing row, or the default row created on first use. */
  function EnsuredSettings(s: Option<Settings>): Settings
  {
    match s
    case Some(existing) => existing
    case None => DefaultSettings
  }

  /** `ensureSettings()`: get-or-create of the settings singleton. */
  method EnsureSettings(db: Db) returns (s: Settings)
    requires db.Valid()
    modifies db`settings
    ensures db.Valid()
    ensures s == EnsuredSettings(old(db.settings)) && db.settings == Some(s)
    ensures old(db.settings).Some? ==> db.settings == old(db.settings)
  {
    if db.settings.Some? {
      s := db.settings.value;
    } else {
      s := DefaultSettings;
      db.settings := Some(s);
    }
  }
}

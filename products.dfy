/** `saveProductsToDatabase` (src/db/products.ts) with the `Product` entity it writes
    (src/db/product.entity.ts) and the connection it opens (src/db/connection.ts). The
    database is abstract: whether connecting and `productRepo.save` succeed is given. */
module ProductsDb {
  import opened Records

  /** A `Product` row as `productRepo.create` builds it. The generated `id` is not
      modelled; `lastUpdated` is a timestamp column, so only the instant survives. */
  datatype ProductEntity = ProductEntity(
    name: string,
    price: Num,
    oldPrice: Option<Num>,
    imageUrl: Option<string>,
    store: string,
    category: string,
    categoryUrl: Option<string>,
    lastUpdated: Instant,
    productUrl: string)

  /** The mapping of one scraped record: `categoryUrl` is not copied, and a string
      `lastUpdated` is turned back into a `Date` at the same instant. */
  function ToEntity(p: ScrapedProduct): (e: ProductEntity)
    ensures e.categoryUrl.None?
    ensures e.lastUpdated == p.lastUpdated.at
  {
    ProductEntity(p.name, p.price, p.oldPrice, p.imageUrl, p.store, p.category, None,
                  p.lastUpdated.at, p.productUrl)
  }

  /** `products.map(p => productRepo.create({...}))` */
  function ToEntities(products: seq<ScrapedProduct>): (r: seq<ProductEntity>)
    ensures |r| == |products|
    ensures forall i :: 0 <= i < |r| ==> r[i] == ToEntity(products[i])
  {
    seq(|products|, i requires 0 <= i < |products| => ToEntity(products[i]))
  }

  /** Two records that differ only in what the mapping drops: the category URL and whether
      the time was a `Date` or its ISO string. */
  predicate SameRow(p: ScrapedProduct, q: ScrapedProduct)
  {
    p.(categoryUrl := q.categoryUrl, lastUpdated := q.lastUpdated) == q
    && p.lastUpdated.at == q.lastUpdated.at
  }

  /** The mapping loses exactly the category URL and the kind of timestamp: two records
      give the same row if and only if they agree on everything else. */
  lemma ToEntityKernel(p: ScrapedProduct, q: ScrapedProduct)
    ensures ToEntity(p) == ToEntity(q) <==> SameRow(p, q)
  {
    if ToEntity(p) == ToEntity(q) {
      var r := p.(categoryUrl := q.categoryUrl, lastUpdated := q.lastUpdated);
      assert r.name == q.name && r.price == q.price && r.oldPrice == q.oldPrice;
      assert r.imageUrl == q.imageUrl && r.store == q.store && r.category == q.category;
      assert r.productUrl == q.productUrl;
    }
  }

  /** Reading a row back as a record with an ISO timestamp and no category URL. */
  function FromEntity(e: ProductEntity): (p: ScrapedProduct)
    ensures p.categoryUrl.None? && p.lastUpdated == IsoStamp(e.lastUpdated)
  {
    ScrapedProduct(e.name, e.price, e.oldPrice, e.imageUrl, e.store, e.category,
                   IsoStamp(e.lastUpdated), e.productUrl, None)
  }

  /** Every row the mapping can build is recovered from its record, and a record comes
      back from its row up to the category URL and the kind of timestamp. */
  lemma EntityRoundTrip(e: ProductEntity, p: ScrapedProduct)
    ensures e.categoryUrl.None? ==> ToEntity(FromEntity(e)) == e
    ensures SameRow(p, FromEntity(ToEntity(p)))
  {
  }

  /** How the returned promise settles: it rejects only when no connection exists yet and
      creating one fails (that `await` is outside the `try`); a failed save is caught. */
  datatype SaveResult = Done | Failed

  /** The database's behaviour on one call: connecting (when needed) and the save. */
  datatype DbEnv = DbEnv(connection: Step, save: Step)

  /** The Postgres database the TypeORM connection writes to. */
  class Database {
    var rows: seq<ProductEntity>
    var connected: bool
    ghost var saveCalls: nat

    constructor ()
      ensures rows == [] && !connected && saveCalls == 0
    {
      rows, connected, saveCalls := [], false, 0;
    }
  }

  /** Whether `getOrCreateConnection()` yields a connection: the existing one, or a newly
      created one. */
  function Connects(connected: bool, env: DbEnv): (r: bool)
    ensures connected ==> r
    ensures !connected ==> (r <==> env.connection.Ok?)
  {
    connected || env.connection.Ok?
  }

  /** What `saveProductsToDatabase(products)` settles to. */
  function SaveOutcome(products: seq<ScrapedProduct>, connected: bool, env: DbEnv): (r: SaveResult)
    ensures r.Failed? <==> products != [] && !connected && env.connection.Fails?
  {
    if products == [] then Done
    else if !Connects(connected, env) then Failed
    else Done
  }

  /** The rows one call adds: all of the batch or none of it (TypeORM saves an array in
      one transaction). */
  function StoredRows(products: seq<ScrapedProduct>, connected: bool, env: DbEnv): (r: seq<ProductEntity>)
    ensures r == [] || r == ToEntities(products)
    ensures r != [] <==> products != [] && Connects(connected, env) && env.save.Ok?
  {
    if products == [] || !Connects(connected, env) || env.save.Fails? then []
    else ToEntities(products)
  }

  /** `saveProductsToDatabase` */
  method SaveProductsToDatabase(db: Database, products: seq<ScrapedProduct>, env: DbEnv)
      returns (result: SaveResult)
    modifies db
    ensures result == SaveOutcome(products, old(db.connected), env)
    ensures db.rows == old(db.rows) + StoredRows(products, old(db.connected), env)
    ensures db.connected == (old(db.connected) || (products != [] && env.connection.Ok?))
    ensures db.saveCalls == old(db.saveCalls) +
              (if products != [] && Connects(old(db.connected), env) then 1 else 0)
  {
    if |products| == 0 {
      return Done;
    }
    // await getOrCreateConnection()
    if !db.connected {
      if env.connection.Fails? {
        return Failed;
      }
      db.connected := true;
    }
    // try { create; save } catch { log }
    var productEntities := ToEntities(products);
    db.saveCalls := db.saveCalls + 1;
    if env.save.Ok? {
      db.rows := db.rows + productEntities;
    }
    return Done;
  }

  /** An empty batch returns before connecting: nothing is written and the call resolves. */
  lemma EmptyBatchIsNoOp(connected: bool, env: DbEnv)
    ensures SaveOutcome([], connected, env) == Done && StoredRows([], connected, env) == []
  {
  }

  /** Once connected, a call never rejects, and the rows it adds are the batch in order. */
  lemma ConnectedSaveStoresBatch(products: seq<ScrapedProduct>, env: DbEnv)
    requires env.save.Ok?
    ensures SaveOutcome(products, true, env) == Done
    ensures |StoredRows(products, true, env)| == |products|
    ensures forall i :: 0 <= i < |products| ==>
              FromEntity(StoredRows(products, true, env)[i]).name == products[i].name
              && StoredRows(products, true, env)[i].lastUpdated == products[i].lastUpdated.at
  {
    if products == [] {
    } else {
      assert StoredRows(products, true, env) == ToEntities(products);
    }
  }
}

/** services/db.ts: the catalog store and the transaction log, kept in two
    independent storage slots, plus the export document and the import of
    one. Each slot is `None` until something has been written under its
    key; parsing and serialising are not modelled (see `Parsed`). */
module Db {
  import opened Wrappers
  import opened PosTypes
  import Seqs

  /** The two storage keys, `smartpos_products` and
      `smartpos_transactions`. */
  datatype Store = Store(products: Option<seq<Product>>, transactions: Option<seq<Transaction>>)

  /** The six example products written on the first catalog read. */
  const DefaultProducts: seq<Product> := [
    Product("1", "拿铁咖啡", 2800, 800, "咖啡", Some("#78350f")),
    Product("2", "卡布奇诺", 2600, 750, "咖啡", Some("#92400e")),
    Product("3", "意式浓缩", 1800, 500, "咖啡", Some("#451a03")),
    Product("4", "羊角面包", 1500, 600, "食品", Some("#d97706")),
    Product("5", "蓝莓松饼", 1800, 700, "食品", Some("#2563eb")),
    Product("6", "冰柠檬茶", 2000, 300, "饮品", Some("#059669"))
  ]

  /** No id occurs twice in the catalog. */
  predicate UniqueIds(ps: seq<Product>)
  {
    Seqs.NoDuplicates(ProductIds(ps))
  }

  /** Result of a catalog read: the store after the read (which may have
      been seeded) and the catalog returned. */
  datatype CatalogRead = CatalogRead(store: Store, products: seq<Product>)

  /** `getProducts`: with nothing stored the defaults are written and
      returned; once anything is stored, even an empty list, it is returned
      as is. The transaction log is never touched. */
  function GetProducts(s: Store): (r: CatalogRead)
    ensures s.products.None? ==> r.products == DefaultProducts && r.store == s.(products := Some(DefaultProducts))
    ensures s.products.Some? ==> r.products == s.products.value && r.store == s
    ensures r.store.products == Some(r.products)
    ensures r.store.transactions == s.transactions
  {
    match s.products
    case None => CatalogRead(s.(products := Some(DefaultProducts)), DefaultProducts)
    case Some(ps) => CatalogRead(s, ps)
  }

  /** Seeding happens at most once: reading again after a read changes
      nothing and returns the same catalog, even when that catalog is
      empty. */
  lemma SeedOnce(s: Store)
    ensures GetProducts(GetProducts(s).store) == GetProducts(s)
    ensures s.products == Some([]) ==> GetProducts(s).products == []
  {
  }

  /** The default catalog has unique ids. */
  lemma DefaultsUnique()
    ensures UniqueIds(DefaultProducts)
  {
    var ids := ProductIds(DefaultProducts);
    assert ids == ["1", "2", "3", "4", "5", "6"];
  }

  /** The position of the first catalog entry whose id is `id`, or -1 when
      no entry has it (the lookup `saveProduct` does). */
  function FindIndex(ps: seq<Product>, id: string): (r: int)
    ensures -1 <= r < |ps|
    ensures r >= 0 ==> ps[r].id == id && forall j :: 0 <= j < r ==> ps[j].id != id
    ensures r == -1 <==> forall j :: 0 <= j < |ps| ==> ps[j].id != id
  {
    if |ps| == 0 then -1
    else if ps[0].id == id then 0
    else
      var k := FindIndex(ps[1..], id);
      if k == -1 then -1 else k + 1
  }

  /** The catalog update of `saveProduct`: replace the first entry with the
      same id in place, or append at the end when the id is new. */
  function Upsert(ps: seq<Product>, p: Product): (r: seq<Product>)
    ensures p in r
    ensures p.id in ProductIds(ps) ==> |r| == |ps|
    ensures p.id in ProductIds(ps) ==>
      exists k :: 0 <= k < |ps| && ps[k].id == p.id && r[k] == p
        && (forall j :: 0 <= j < k ==> ps[j].id != p.id)
        && (forall j :: 0 <= j < |ps| && j != k ==> r[j] == ps[j])
    ensures p.id !in ProductIds(ps) ==> r == ps + [p]
  {
    var k := FindIndex(ps, p.id);
    if k >= 0 then assert ps[k := p][k] == p; ps[k := p] else ps + [p]
  }

  /** Upserting keeps every id unique when they were unique before. */
  lemma UpsertPreservesUniqueIds(ps: seq<Product>, p: Product)
    requires UniqueIds(ps)
    ensures UniqueIds(Upsert(ps, p))
    ensures ProductIds(Upsert(ps, p)) == if p.id in ProductIds(ps) then ProductIds(ps) else ProductIds(ps) + [p.id]
  {
    var r := Upsert(ps, p);
    if p.id in ProductIds(ps) {
      assert ProductIds(r) == ProductIds(ps);
    } else {
      assert ProductIds(r) == ProductIds(ps) + [p.id];
    }
  }

  /** Saving a product that is already stored, unchanged, leaves a catalog
      with unique ids exactly as it was. */
  lemma UpsertSameIsIdentity(ps: seq<Product>, p: Product)
    requires UniqueIds(ps)
    requires p in ps
    ensures Upsert(ps, p) == ps
  {
    var i :| 0 <= i < |ps| && ps[i] == p;
    assert ProductIds(ps)[i] == p.id;
    assert FindIndex(ps, p.id) == i;
  }

  /** `saveProduct`: read the catalog (seeding it if need be), upsert, and
      write the whole catalog back. */
  function SaveProduct(s: Store, p: Product): (r: Store)
    ensures r.transactions == s.transactions
    ensures r.products == Some(Upsert(GetProducts(s).products, p))
  {
    var read := GetProducts(s);
    read.store.(products := Some(Upsert(read.products, p)))
  }

  /** The catalog seen after `saveProduct` holds the product, keeps its
      length when the id was known and grows by one otherwise, and keeps
      ids unique. */
  lemma SaveProductCatalog(s: Store, p: Product)
    requires UniqueIds(GetProducts(s).products)
    ensures var before := GetProducts(s).products;
            var after := GetProducts(SaveProduct(s, p)).products;
            && p in after
            && UniqueIds(after)
            && |after| == (if p.id in ProductIds(before) then |before| else |before| + 1)
  {
    UpsertPreservesUniqueIds(GetProducts(s).products, p);
  }

  /** The predicate of `deleteProduct`'s filter. */
  function KeepOtherIds(id: string): Product -> bool
  {
    (p: Product) => p.id != id
  }

  /** `deleteProduct`: keep every entry whose id differs, in order, and
      write the result back (seeding first if nothing was stored). */
  function DeleteProduct(s: Store, id: string): (r: Store)
    ensures r.transactions == s.transactions
    ensures r.products.Some?
  {
    var read := GetProducts(s);
    read.store.(products := Some(Seqs.Filter(read.products, KeepOtherIds(id))))
  }

  /** After `deleteProduct` no entry carries the id and every other entry
      is still there, as many times as before, in its original relative
      order. */
  lemma DeleteProductCatalog(s: Store, id: string)
    ensures var before := GetProducts(s).products;
            var after := DeleteProduct(s, id).products.value;
            && id !in ProductIds(after)
            && (forall p :: p in after <==> p in before && p.id != id)
            && (forall p :: multiset(after)[p] == if p.id != id then multiset(before)[p] else 0)
            && Seqs.IsSubsequence(after, before)
  {
    RemoveIdFacts(GetProducts(s).products, id);
  }

  /** The catalog-level facts behind `DeleteProductCatalog`. */
  lemma RemoveIdFacts(before: seq<Product>, id: string)
    ensures var after := Seqs.Filter(before, KeepOtherIds(id));
            && id !in ProductIds(after)
            && (forall p :: p in after <==> p in before && p.id != id)
            && (forall p :: multiset(after)[p] == if p.id != id then multiset(before)[p] else 0)
            && Seqs.IsSubsequence(after, before)
  {
    var after := Seqs.Filter(before, KeepOtherIds(id));
    var ids := ProductIds(after);
    forall j | 0 <= j < |ids|
      ensures ids[j] != id
    {
      assert after[j] in after;
    }
  }

  /** Deleting an id that is not in the catalog changes nothing beyond the
      seeding read. */
  lemma DeleteAbsentIsNoop(s: Store, id: string)
    requires id !in ProductIds(GetProducts(s).products)
    ensures DeleteProduct(s, id) == GetProducts(s).store
  {
    var before := GetProducts(s).products;
    forall p | p in before
      ensures KeepOtherIds(id)(p)
    {
      var j :| 0 <= j < |before| && before[j] == p;
      assert ProductIds(before)[j] == p.id;
    }
    Seqs.FilterKeepsAll(before, KeepOtherIds(id));
  }

  /** `getTransactions`: the stored log, or the empty log when nothing has
      been stored. */
  function GetTransactions(s: Store): (r: seq<Transaction>)
    ensures s.transactions.None? ==> r == []
    ensures s.transactions.Some? ==> r == s.transactions.value
  {
    s.transactions.GetOr([])
  }

  /** `addTransaction`: the new transaction goes in front (newest first);
      the catalog slot is not touched. */
  function AddTransaction(s: Store, t: Transaction): (r: Store)
    ensures GetTransactions(r) == [t] + GetTransactions(s)
    ensures r.products == s.products
  {
    s.(transactions := Some([t] + GetTransactions(s)))
  }

  // --------------------------------------------------------- export/import

  /** The document `exportData` serialises. */
  datatype ExportDocument = ExportDocument(
    products: seq<Product>,
    transactions: seq<Transaction>,
    exportedAt: string)

  /** Export result: the store after reading (the catalog read may seed) and
      the document. */
  datatype Exported = Exported(store: Store, document: ExportDocument)

  /** `exportData` without the download: a full snapshot of both
      collections, stamped with the given ISO-8601 time. */
  function ExportData(s: Store, now: string): (r: Exported)
    ensures r.document.products == GetProducts(s).products
    ensures r.document.transactions == GetTransactions(s)
    ensures r.document.exportedAt == now
    ensures r.store == GetProducts(s).store
  {
    var read := GetProducts(s);
    Exported(read.store, ExportDocument(read.products, GetTransactions(read.store), now))
  }

  /** One field of a parsed import document. `Absent` covers every value
      `data.x &&` finds falsy; `NonArray` every truthy non-array. */
  datatype Section<T> = Absent | NonArray | Array(items: seq<T>)

  /** What `JSON.parse` made of the import text. `Unparseable`: parsing
      threw. `JsonNull`: the text was `null`, whose property access throws.
      `Value`: any other value; a number, string or boolean has neither
      field, so it is `Value(Absent, Absent)`. */
  datatype Parsed =
    | Unparseable
    | JsonNull
    | Value(products: Section<Product>, transactions: Section<Transaction>)

  /** The result of `importData`: the new store and the returned flag. */
  datatype ImportResult = ImportResult(store: Store, ok: bool)

  /** `importData`: false, with storage untouched, when parsing or field
      access throws; otherwise true, each section replacing its store
      wholesale exactly when it is an array and leaving it alone otherwise. */
  function ImportData(s: Store, doc: Parsed): (r: ImportResult)
    ensures r.ok <==> doc.Value?
    ensures !r.ok ==> r.store == s
    ensures doc.Value? ==>
      (if doc.products.Array? then r.store.products == Some(doc.products.items) else r.store.products == s.products)
    ensures doc.Value? ==>
      (if doc.transactions.Array? then r.store.transactions == Some(doc.transactions.items) else r.store.transactions == s.transactions)
  {
    match doc
    case Unparseable => ImportResult(s, false)
    case JsonNull => ImportResult(s, false)
    case Value(ps, ts) =>
      var s1 := if ps.Array? then s.(products := Some(ps.items)) else s;
      var s2 := if ts.Array? then s1.(transactions := Some(ts.items)) else s1;
      ImportResult(s2, true)
  }

  /** What parsing the serialised export document yields: both fields are
      arrays holding the exported records in order. */
  function Reparse(d: ExportDocument): Parsed
  {
    Value(Array(d.products), Array(d.transactions))
  }

  /** Exporting and importing the document, into the same store or any
      other, reproduces the exported catalog and log, in order. */
  lemma ExportImportRoundTrip(s: Store, now: string, target: Store)
    ensures var exported := ExportData(s, now);
            var imported := ImportData(target, Reparse(exported.document));
            && imported.ok
            && GetProducts(imported.store).products == GetProducts(s).products
            && GetTransactions(imported.store) == GetTransactions(s)
  {
  }

  /** A document without a `transactions` array leaves the log as it was
      while still applying a `products` array, and vice versa. */
  lemma ImportSectionsIndependent(s: Store, ps: Section<Product>, ts: Section<Transaction>)
    ensures !ts.Array? ==> GetTransactions(ImportData(s, Value(ps, ts)).store) == GetTransactions(s)
    ensures !ps.Array? ==> GetProducts(ImportData(s, Value(ps, ts)).store).products == GetProducts(s).products
    ensures ps.Array? ==> GetProducts(ImportData(s, Value(ps, ts)).store).products == ps.items
  {
  }
}

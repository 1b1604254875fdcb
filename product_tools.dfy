/**
 * The product catalogue of the order demo (tools.py): seeding an empty catalogue,
 * listing it, the stock check, the price lookup and the payment stand-in. The products
 * table is a Store table; SQL sessions are not modelled.
 */
module ProductTools {
  import opened Wrappers
  import opened Store
  import opened OrderModels

  /** One row of the products table (ProductDB) without its key; the price is in cents. */
  datatype ProductRow = ProductRow(name: string, price: int, stock: int)

  /** The catalogue an empty database is seeded with. */
  const SeedRows: seq<ProductRow> :=
    [ProductRow("Widget", 999, 10), ProductRow("Gadget", 1999, 5), ProductRow("Thingamajig", 1499, 0)]

  /**
   * `_seed_products`: the three products are added only when the table is empty, so a
   * catalogue that already has rows is left exactly as it is.
   */
  method SeedProducts(t: Table<ProductRow>) returns (ids: seq<int>)
    requires t.Valid()
    modifies t
    ensures t.Valid()
    ensures old(t.rows) != map[] ==> ids == [] && t.rows == old(t.rows)
    ensures old(t.rows) == map[] ==>
              |ids| == 3 && ids[0] != ids[1] && ids[0] != ids[2] && ids[1] != ids[2] &&
              t.rows == map[ids[0] := SeedRows[0], ids[1] := SeedRows[1], ids[2] := SeedRows[2]]
  {
    ids := [];
    if t.rows == map[] {
      var a := t.Add(SeedRows[0]);
      var b := t.Add(SeedRows[1]);
      var c := t.Add(SeedRows[2]);
      ids := [a, b, c];
    }
  }

  /**
   * Building the tool twice over the same database (as every agent does) seeds once:
   * the second seeding finds the three products and adds nothing.
   */
  method SeedTwice(t: Table<ProductRow>)
    requires t.Valid() && t.rows == map[]
    modifies t
    ensures t.Valid() && |t.rows| == 3
    ensures forall id :: id in t.rows ==> t.rows[id] in SeedRows
  {
    var first := SeedProducts(t);
    assert first[0] in t.rows;
    var second := SeedProducts(t);
    assert second == [];
    assert t.rows.Keys == {first[0], first[1], first[2]};
  }

  /** The product handed out for a stored row. */
  function ToProduct(id: int, row: ProductRow): Product {
    Product(id, row.name, row.price, row.stock)
  }

  /** `ps` lists the rows of `rows`: each once, in key order, with the stored name, price and stock. */
  ghost predicate IsListing(rows: map<int, ProductRow>, ps: seq<Product>) {
    |ps| == |rows| &&
    (forall k :: 0 <= k < |ps| ==> ps[k].id in rows && ps[k] == ToProduct(ps[k].id, rows[ps[k].id])) &&
    (forall id :: id in rows ==> exists k :: 0 <= k < |ps| && ps[k].id == id) &&
    (forall j, k :: 0 <= j < k < |ps| ==> ps[j].id < ps[k].id)
  }

  /** `list_products`: one Product per stored row, with the row's key, name, price and stock. */
  method ListProducts(t: Table<ProductRow>) returns (ps: seq<Product>)
    requires t.Valid()
    ensures IsListing(t.rows, ps)
  {
    var all := t.All();
    ps := seq(|all|, k requires 0 <= k < |all| => ToProduct(all[k].0, all[k].1));
    ListingOfRecords(t.rows, all, ps);
  }

  /** Turning every record of a key-ordered listing into a Product gives a listing of products. */
  lemma ListingOfRecords(rows: map<int, ProductRow>, all: seq<(int, ProductRow)>, ps: seq<Product>)
    requires forall k :: 0 <= k < |all| ==> all[k].0 in rows && rows[all[k].0] == all[k].1
    requires forall id :: id in rows ==> exists k :: 0 <= k < |all| && all[k].0 == id
    requires forall j, k :: 0 <= j < k < |all| ==> all[j].0 < all[k].0
    requires |all| == |rows|
    requires |ps| == |all| && forall k :: 0 <= k < |all| ==> ps[k] == ToProduct(all[k].0, all[k].1)
    ensures IsListing(rows, ps)
  {
    forall id | id in rows
      ensures exists k :: 0 <= k < |ps| && ps[k].id == id
    {
      var k :| 0 <= k < |all| && all[k].0 == id;
      assert ps[k].id == id;
    }
  }

  /** `check_stock`: the product is still stored and has at least `quantity` in stock. */
  predicate CheckStock(rows: map<int, ProductRow>, p: Product, quantity: int) {
    p.id in rows && rows[p.id].stock >= quantity
  }

  /** `get_price`: the stored price, or 0 when the product is gone. */
  function GetPrice(rows: map<int, ProductRow>, p: Product): int {
    if p.id in rows then rows[p.id].price else 0
  }

  /** A product picked from a listing is checked and priced against the row it was listed from. */
  lemma ListedProductLookups(rows: map<int, ProductRow>, ps: seq<Product>, k: nat, quantity: int)
    requires IsListing(rows, ps) && k < |ps|
    ensures GetPrice(rows, ps[k]) == ps[k].price
    ensures CheckStock(rows, ps[k], quantity) <==> ps[k].stock >= quantity
  {
  }

  /** `process_payment`: the stand-in accepts every payment. */
  function ProcessPayment(paymentMethod: string): (ok: bool)
    ensures ok
  {
    true
  }
}

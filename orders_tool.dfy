/**
 * The orders table and the two writes the order flows make through the orders tool:
 * taking an order's quantity off its product's stock and storing the order. The tool's
 * own source is not part of this model; the row holds the fields the flows store and
 * read back (product, quantity, total, recipient, address, delivery time, payment).
 */
module OrdersTool {
  import opened Wrappers
  import opened Store
  import opened ProductTools
  import opened OrderModels

  /** One stored order (OrderDB) without its key; the total is in cents. */
  datatype OrderRow = OrderRow(
    productId: int,
    productName: string,
    quantity: int,
    totalPrice: int,
    recipientName: string,
    recipientEmail: string,
    recipientPhone: string,
    address: string,
    deliveryTime: string,
    paymentMethod: string)

  /** The catalogue with `quantity` taken off one product's stock; an absent product changes nothing. */
  function Decremented(rows: map<int, ProductRow>, pid: int, quantity: int): (r: map<int, ProductRow>)
    ensures r.Keys == rows.Keys
    ensures forall id :: id in rows && id != pid ==> r[id] == rows[id]
    ensures pid in rows ==> r[pid] == rows[pid].(stock := rows[pid].stock - quantity)
  {
    if pid in rows then rows[pid := rows[pid].(stock := rows[pid].stock - quantity)] else rows
  }

  /** The catalogue with `quantity` given back to one product's stock; an absent product changes nothing. */
  function Restocked(rows: map<int, ProductRow>, pid: int, quantity: int): (r: map<int, ProductRow>)
    ensures r.Keys == rows.Keys
    ensures forall id :: id in rows && id != pid ==> r[id] == rows[id]
    ensures pid in rows ==> r[pid] == rows[pid].(stock := rows[pid].stock + quantity)
  {
    if pid in rows then rows[pid := rows[pid].(stock := rows[pid].stock + quantity)] else rows
  }

  /** Giving back what was taken restores the catalogue. */
  lemma RestockUndoesDecrement(rows: map<int, ProductRow>, pid: int, quantity: int)
    ensures Restocked(Decremented(rows, pid, quantity), pid, quantity) == rows
  {
    var r := Restocked(Decremented(rows, pid, quantity), pid, quantity);
    assert forall id :: id in rows ==> r[id] == rows[id];
  }

  /** An order of at least one item that passed the stock check leaves its product with less stock, never below zero. */
  lemma CheckedDecrementKeepsStock(rows: map<int, ProductRow>, p: Product, quantity: int)
    requires CheckStock(rows, p, quantity) && quantity >= 1
    ensures p.id in Decremented(rows, p.id, quantity)
    ensures 0 <= Decremented(rows, p.id, quantity)[p.id].stock < rows[p.id].stock
  {
  }

  /** `decrement_stock(product_id, quantity)`. */
  method DecrementStock(products: Table<ProductRow>, pid: int, quantity: int)
    requires products.Valid()
    modifies products
    ensures products.Valid()
    ensures products.rows == Decremented(old(products.rows), pid, quantity)
  {
    var row := products.Get(pid);
    if row.Some? {
      var ok := products.Put(pid, row.value.(stock := row.value.stock - quantity));
    }
  }

  /** `save_order(order, payment_method)`: the order is stored under a fresh key, which is returned. */
  method SaveOrder(orders: Table<OrderRow>, o: OrderRow) returns (id: int)
    requires orders.Valid()
    modifies orders
    ensures orders.Valid()
    ensures id !in old(orders.rows) && orders.rows == old(orders.rows)[id := o]
  {
    id := orders.Add(o);
  }
}

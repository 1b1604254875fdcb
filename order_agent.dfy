/**
 * The tool-calling order agent (agents/llm_agent.py): the tools the language model may
 * call to place and cancel orders and to list products, stock and orders, with the
 * agent's memory of the last order it placed. The model that chooses the calls is
 * not modelled; each tool is an operation on the two tables.
 */
module OrderAssistant {
  import opened Wrappers
  import opened Text
  import opened Store
  import opened OrderModels
  import opened ProductTools
  import opened OrdersTool

  /** What a tool answers: a plain text, or a table for the interface to lay out. */
  datatype ToolResult =
    | TextResult(text: string)
    | TableResult(title: string, columns: seq<string>, rows: seq<seq<string>>, message: string)

  /** The product names are compared case-insensitively. */
  predicate SameName(a: string, b: string) {
    Lower(a) == Lower(b)
  }

  /** No stored product has the name asked for. */
  predicate NoMatch(rows: map<int, ProductRow>, name: string) {
    forall id :: id in rows ==> !SameName(rows[id].name, name)
  }

  /** `pid` is the product with the name asked for that comes first in key order. */
  predicate FirstMatch(rows: map<int, ProductRow>, name: string, pid: int) {
    pid in rows && SameName(rows[pid].name, name) &&
    forall id :: id in rows && id < pid ==> !SameName(rows[id].name, name)
  }

  /** At most one product comes first. */
  lemma FirstMatchUnique(rows: map<int, ProductRow>, name: string, a: int, b: int)
    requires FirstMatch(rows, name, a) && FirstMatch(rows, name, b)
    ensures a == b
  {
  }

  /** `next((p for p in products if p.name.lower() == name.lower()), None)`, as a position. */
  function FindByName(ps: seq<Product>, name: string): (r: Option<nat>)
    ensures r.None? <==> forall k :: 0 <= k < |ps| ==> !SameName(ps[k].name, name)
    ensures r.Some? ==> r.value < |ps| && SameName(ps[r.value].name, name)
    ensures r.Some? ==> forall k :: 0 <= k < r.value ==> !SameName(ps[k].name, name)
  {
    if ps == [] then None
    else if SameName(ps[0].name, name) then Some(0)
    else
      var r := FindByName(ps[1..], name);
      if r.Some? then Some(r.value + 1) else None
  }

  /** A name no listed product has is the name of no stored product. */
  lemma UnlistedNameIsMissing(rows: map<int, ProductRow>, ps: seq<Product>, name: string)
    requires IsListing(rows, ps)
    requires forall k :: 0 <= k < |ps| ==> !SameName(ps[k].name, name)
    ensures NoMatch(rows, name)
  {
    forall id | id in rows
      ensures !SameName(rows[id].name, name)
    {
      var k :| 0 <= k < |ps| && ps[k].id == id;
      assert ps[k].name == rows[id].name;
    }
  }

  /** The first listed product with the name has the least key among those stored with it. */
  lemma FirstListedIsFirstStored(rows: map<int, ProductRow>, ps: seq<Product>, name: string, r: nat)
    requires IsListing(rows, ps)
    requires r < |ps| && SameName(ps[r].name, name)
    requires forall k :: 0 <= k < r ==> !SameName(ps[k].name, name)
    ensures FirstMatch(rows, name, ps[r].id)
  {
    var p := ps[r];
    assert rows[p.id].name == p.name;
    forall id | id in rows && id < p.id
      ensures !SameName(rows[id].name, name)
    {
      var k :| 0 <= k < |ps| && ps[k].id == id;
      assert k < r;
      assert ps[k].name == rows[id].name;
    }
  }

  /** The first listed product with the name is the first stored one in key order. */
  lemma FoundIsFirstMatch(rows: map<int, ProductRow>, ps: seq<Product>, name: string)
    requires IsListing(rows, ps)
    ensures FindByName(ps, name).None? <==> NoMatch(rows, name)
    ensures FindByName(ps, name).Some? ==> FirstMatch(rows, name, ps[FindByName(ps, name).value].id)
  {
    var r := FindByName(ps, name);
    if r.None? {
      UnlistedNameIsMissing(rows, ps, name);
    } else {
      FirstListedIsFirstStored(rows, ps, name, r.value);
      assert !NoMatch(rows, name) by {
        var p := ps[r.value];
        assert rows[p.id].name == p.name;
      }
    }
  }

  function ProductNotFoundReply(productName: string): string {
    "Error: Product '" + productName + "' not found."
  }

  const QuantityReply := "Error: Quantity must be at least 1."

  function StockReply(productName: string, stock: int): string {
    "Error: Not enough stock for '" + productName + "'. Only " + IntToString(stock) + " left."
  }

  function RecipientReply(error: string): string {
    "Validation error in recipient info: " + error
  }

  /** The confirmation `place_order` answers with: every given value, and the total with two decimals. */
  function PlacedReply(productName: string, quantity: int, name: string, phone: string, email: string,
                       address: string, deliveryTime: string, paymentMethod: string, total: int): string {
    "Order placed successfully!\n" +
    "  Product: " + productName + "\n" +
    "  Quantity: " + IntToString(quantity) + "\n" +
    "  Name: " + name + "\n" +
    "  Phone: " + phone + "\n" +
    "  Email: " + email + "\n" +
    "  Address: " + address + "\n" +
    "  Delivery Time: " + deliveryTime + "\n" +
    "  Payment Method: " + paymentMethod + "\n" +
    "  Total Price: $" + TwoDecimals(total) + "\n" +
    "Thank you for your order!"
  }

  function OrderNotFoundReply(orderId: int): string {
    "Order with ID " + IntToString(orderId) + " not found."
  }

  function CancelledReply(orderId: int): string {
    "Order " + IntToString(orderId) + " cancelled and removed from the database."
  }

  const NoProductsText := "No products are currently available."
  const NoOrdersText := "No orders found."
  const CancelRow: seq<string> := ["0", "Cancel", "", ""]

  /** `str(stock) if stock > 0 else "OUT OF STOCK"`. */
  function StockText(stock: int): string {
    if stock > 0 then IntToString(stock) else "OUT OF STOCK"
  }

  /** A product reads as out of stock exactly when it has none left; otherwise its count reads back. */
  lemma StockTextReadsBack(stock: int)
    ensures StockText(stock) == "OUT OF STOCK" <==> stock <= 0
    ensures stock > 0 ==> ParseInt(StockText(stock)) == Some(stock)
  {
    if stock > 0 {
      var s := NatToString(stock);
      assert IsDigit(s[0]);
      assert "OUT OF STOCK"[0] == 'O';
      ParseIntOfNat(stock);
    }
  }

  /** The row of the product listing for the product numbered `n`. */
  function ProductLine(n: int, p: Product): seq<string> {
    [IntToString(n), p.name, "$" + TwoDecimals(p.price), StockText(p.stock)]
  }

  /** The row of the stock listing for the product numbered `n`. */
  function StockLine(n: int, p: Product): seq<string> {
    [IntToString(n), p.name, StockText(p.stock)]
  }

  /** The row of the order listing: key, product, quantity, total, recipient, address, time, payment. */
  function OrderLine(id: int, o: OrderRow): seq<string> {
    [IntToString(id), o.productName, IntToString(o.quantity), "$" + TwoDecimals(o.totalPrice),
     o.recipientName + " (" + o.recipientEmail + ", " + o.recipientPhone + ")",
     o.address, o.deliveryTime, o.paymentMethod]
  }

  /** The product table: one row per product numbered from 1, then the row that cancels. */
  method ProductTable(ps: seq<Product>) returns (rows: seq<seq<string>>)
    ensures |rows| == |ps| + 1
    ensures forall k :: 0 <= k < |ps| ==> rows[k] == ProductLine(k + 1, ps[k])
    ensures rows[|ps|] == CancelRow
  {
    rows := [];
    var i := 0;
    while i < |ps|
      invariant 0 <= i <= |ps| && |rows| == i
      invariant forall k :: 0 <= k < i ==> rows[k] == ProductLine(k + 1, ps[k])
    {
      rows := rows + [ProductLine(i + 1, ps[i])];
      i := i + 1;
    }
    rows := rows + [CancelRow];
  }

  /** The stock table: one row per product numbered from 1. */
  method StockTable(ps: seq<Product>) returns (rows: seq<seq<string>>)
    ensures |rows| == |ps|
    ensures forall k :: 0 <= k < |ps| ==> rows[k] == StockLine(k + 1, ps[k])
  {
    rows := [];
    var i := 0;
    while i < |ps|
      invariant 0 <= i <= |ps| && |rows| == i
      invariant forall k :: 0 <= k < i ==> rows[k] == StockLine(k + 1, ps[k])
    {
      rows := rows + [StockLine(i + 1, ps[i])];
      i := i + 1;
    }
  }

  /** The order table: one row per stored order, in the order given. */
  method OrderTable(all: seq<(int, OrderRow)>) returns (rows: seq<seq<string>>)
    ensures |rows| == |all|
    ensures forall k :: 0 <= k < |all| ==> rows[k] == OrderLine(all[k].0, all[k].1)
  {
    rows := [];
    var i := 0;
    while i < |all|
      invariant 0 <= i <= |all| && |rows| == i
      invariant forall k :: 0 <= k < i ==> rows[k] == OrderLine(all[k].0, all[k].1)
    {
      rows := rows + [OrderLine(all[i].0, all[i].1)];
      i := i + 1;
    }
  }

  /** `" | ".join(row)` for every row. */
  function JoinCells(rows: seq<seq<string>>): (lines: seq<string>)
    ensures |lines| == |rows| && forall k :: 0 <= k < |rows| ==> lines[k] == Join(rows[k], " | ")
  {
    seq(|rows|, k requires 0 <= k < |rows| => Join(rows[k], " | "))
  }

  /** Joining pieces that hold no `c` with a separator that holds no `c` gives a text without `c`. */
  lemma {:induction false} JoinAvoids(xs: seq<string>, sep: string, c: char)
    requires c !in sep && forall k :: 0 <= k < |xs| ==> c !in xs[k]
    ensures c !in Join(xs, sep)
  {
    if |xs| >= 2 {
      JoinAvoids(xs[1..], sep, c);
    }
  }

  /**
   * The text `show_orders` returns for a table splits back on line breaks into one line
   * per row, as long as no cell holds a line break.
   */
  lemma ShownLinesSplit(rows: seq<seq<string>>)
    requires rows != []
    requires forall k, j :: 0 <= k < |rows| && 0 <= j < |rows[k]| ==> '\n' !in rows[k][j]
    ensures Split(Join(JoinCells(rows), "\n"), '\n') == JoinCells(rows)
  {
    var lines := JoinCells(rows);
    forall k | 0 <= k < |lines|
      ensures '\n' !in lines[k]
    {
      JoinAvoids(rows[k], " | ", '\n');
    }
    assert "\n" == ['\n'];
    SplitJoin(lines, '\n');
  }

  /**
   * `OrderService.save_order`: the ordered product's stock goes down by the order's
   * quantity, then the order is stored under a fresh key (which the service does not return).
   */
  method ServiceSaveOrder(products: Table<ProductRow>, orders: Table<OrderRow>, o: OrderRow)
    requires products.Valid() && orders.Valid()
    modifies products, orders
    ensures products.Valid() && orders.Valid()
    ensures products.rows == Decremented(old(products.rows), o.productId, o.quantity)
    ensures exists id :: id !in old(orders.rows) && orders.rows == old(orders.rows)[id := o]
  {
    DecrementStock(products, o.productId, o.quantity);
    var id := SaveOrder(orders, o);
  }

  /** The agent's state: the two tables behind its tools and the key of the last order it placed. */
  class OrderAgent {
    const products: Table<ProductRow>
    const orders: Table<OrderRow>
    var lastOrderId: Option<int>

    /** Both tables are well formed, and the last order placed, if remembered, is still stored. */
    ghost predicate Valid()
      reads this, products, orders
    {
      products.Valid() && orders.Valid() &&
      (lastOrderId.Some? ==> lastOrderId.value in orders.rows)
    }

    /** What a tool call can change. */
    ghost function State(): (map<int, ProductRow>, map<int, OrderRow>, Option<int>)
      reads this, products, orders
    {
      (products.rows, orders.rows, lastOrderId)
    }

    /** `LLMAgent.__init__`: the catalogue is seeded if empty and no order is remembered. */
    constructor (products: Table<ProductRow>, orders: Table<OrderRow>)
      requires products.Valid() && orders.Valid()
      modifies products
      ensures Valid() && this.products == products && this.orders == orders && lastOrderId.None?
      ensures old(products.rows) != map[] ==> products.rows == old(products.rows)
      ensures old(products.rows) == map[] ==>
                exists ids: seq<int> :: |ids| == 3 && ids[0] != ids[1] && ids[0] != ids[2] && ids[1] != ids[2] &&
                  products.rows == map[ids[0] := SeedRows[0], ids[1] := SeedRows[1], ids[2] := SeedRows[2]]
    {
      this.products := products;
      this.orders := orders;
      lastOrderId := None;
      new;
      var ids := SeedProducts(products);
    }

    /**
     * `place_order`: the product is found by case-insensitive name, the quantity must be
     * at least 1, the stock must cover it and the recipient's e-mail must validate, in
     * that order, and the first failing check answers with its error and changes
     * nothing. Otherwise the stock drops by the quantity, one order is stored under a
     * fresh key, and that key becomes the last order.
     */
    method PlaceOrder(productName: string, quantity: int, name: string, phone: string, email: string,
                      address: string, deliveryTime: string, paymentMethod: string, check: EmailCheck)
      returns (reply: string, ghost found: Option<int>)
      requires Valid()
      modifies this, products, orders
      ensures Valid()
      ensures found.None? <==> NoMatch(old(products.rows), productName)
      ensures found.Some? ==> FirstMatch(old(products.rows), productName, found.value)
      ensures found.None? ==> reply == ProductNotFoundReply(productName) && State() == old(State())
      ensures found.Some? && quantity < 1 ==> reply == QuantityReply && State() == old(State())
      ensures found.Some? && quantity >= 1 ==>
                var row := old(products.rows)[found.value];
                (row.stock < quantity ==> reply == StockReply(row.name, row.stock) && State() == old(State())) &&
                (row.stock >= quantity && check(email).Err? ==>
                   reply == RecipientReply(check(email).error) && State() == old(State())) &&
                (row.stock >= quantity && check(email).Ok? ==>
                   lastOrderId.Some? && lastOrderId.value !in old(orders.rows) &&
                   orders.rows == old(orders.rows)[lastOrderId.value :=
                     OrderRow(found.value, row.name, quantity, row.price * quantity, name, check(email).value,
                              phone, address, deliveryTime, paymentMethod)] &&
                   products.rows == Decremented(old(products.rows), found.value, quantity) &&
                   reply == PlacedReply(row.name, quantity, name, phone, email, address, deliveryTime,
                                        paymentMethod, row.price * quantity))
    {
      var ps := ListProducts(products);
      FoundIsFirstMatch(products.rows, ps, productName);
      var k := FindByName(ps, productName);
      if k.None? {
        found := None;
        return ProductNotFoundReply(productName), found;
      }
      var product := ps[k.value];
      found := Some(product.id);
      if quantity < 1 {
        return QuantityReply, found;
      }
      if !CheckStock(products.rows, product, quantity) {
        return StockReply(product.name, product.stock), found;
      }
      var recipient := check(email);
      if recipient.Err? {
        return RecipientReply(recipient.error), found;
      }
      var unitPrice := GetPrice(products.rows, product);
      var total := unitPrice * quantity;
      var id := RecordOrder(product.id, quantity, OrderRow(product.id, product.name, quantity, total, name,
                                                           recipient.value, phone, address, deliveryTime, paymentMethod));
      reply := PlacedReply(product.name, quantity, name, phone, email, address, deliveryTime, paymentMethod, total);
    }

    /** The write `place_order` ends with: the stock drops, the order is stored under a fresh key, and that key is remembered. */
    method RecordOrder(pid: int, quantity: int, o: OrderRow) returns (id: int)
      requires Valid()
      modifies this, products, orders
      ensures Valid()
      ensures id !in old(orders.rows) && lastOrderId == Some(id)
      ensures orders.rows == old(orders.rows)[id := o]
      ensures products.rows == Decremented(old(products.rows), pid, quantity)
    {
      DecrementStock(products, pid, quantity);
      id := SaveOrder(orders, o);
      lastOrderId := Some(id);
    }

    /**
     * `cancel_order`: an unknown key answers not-found and changes nothing. Otherwise the
     * order's quantity goes back to its product (if that product is still stored), the
     * order is deleted, and the last order is forgotten only if it was this one.
     */
    method CancelOrder(orderId: int) returns (reply: string)
      requires Valid()
      modifies this, products, orders
      ensures Valid()
      ensures orderId !in old(orders.rows) ==> reply == OrderNotFoundReply(orderId) && State() == old(State())
      ensures orderId in old(orders.rows) ==>
                var o := old(orders.rows)[orderId];
                orders.rows == old(orders.rows) - {orderId} &&
                products.rows == Restocked(old(products.rows), o.productId, o.quantity) &&
                lastOrderId == (if old(lastOrderId) == Some(orderId) then None else old(lastOrderId)) &&
                reply == CancelledReply(orderId)
    {
      var o := orders.Get(orderId);
      if o.None? {
        return OrderNotFoundReply(orderId);
      }
      var order := o.value;
      var p := products.Get(order.productId);
      if p.Some? {
        var ok := products.Put(order.productId, p.value.(stock := p.value.stock + order.quantity));
      }
      var removed := orders.Remove(orderId);
      if lastOrderId == Some(orderId) {
        lastOrderId := None;
      }
      reply := CancelledReply(orderId);
    }

    /**
     * Placing an order and cancelling the order just placed leaves both tables as they
     * were; the agent then remembers no last order. A placement that fails is not
     * followed by a cancellation and changes nothing.
     */
    method PlaceThenCancel(productName: string, quantity: int, name: string, phone: string, email: string,
                           address: string, deliveryTime: string, paymentMethod: string, check: EmailCheck)
      returns (placed: bool)
      requires Valid()
      modifies this, products, orders
      ensures Valid()
      ensures products.rows == old(products.rows) && orders.rows == old(orders.rows)
      ensures placed ==> lastOrderId.None?
      ensures !placed ==> lastOrderId == old(lastOrderId)
    {
      var remembered := lastOrderId;
      var placeReply, found := PlaceOrder(productName, quantity, name, phone, email, address,
                                          deliveryTime, paymentMethod, check);
      placed := lastOrderId != remembered;
      if placed {
        var id := lastOrderId.value;
        ghost var pid := found.value;
        assert id !in old(orders.rows) && orders.rows == old(orders.rows)[id := orders.rows[id]];
        assert products.rows == Decremented(old(products.rows), pid, quantity);
        assert orders.rows[id].productId == pid && orders.rows[id].quantity == quantity;
        RemoveAfterInsert(old(orders.rows), id, orders.rows[id]);
        var cancelReply := CancelOrder(id);
        RestockUndoesDecrement(old(products.rows), pid, quantity);
      }
    }

    /**
     * The `list_products` tool: no products gives the text that says so; otherwise the
     * table numbers the products from 1 in key order and ends with the cancel row.
     */
    method ListProductsTool() returns (r: ToolResult, listed: seq<Product>)
      requires Valid()
      ensures IsListing(products.rows, listed)
      ensures r.TextResult? <==> products.rows == map[]
      ensures r.TextResult? ==> r.text == NoProductsText
      ensures r.TableResult? ==>
                r.title == "Available Products" && r.message == "Please select a product by number." &&
                r.columns == ["#", "Name", "Price", "Stock"] && |r.rows| == |products.rows| + 1 &&
                (forall k :: 0 <= k < |listed| ==> r.rows[k] == ProductLine(k + 1, listed[k])) &&
                r.rows[|listed|] == CancelRow
    {
      listed := ListProducts(products);
      if listed == [] {
        return TextResult(NoProductsText), listed;
      }
      var rows := ProductTable(listed);
      r := TableResult("Available Products", ["#", "Name", "Price", "Stock"], rows, "Please select a product by number.");
    }

    /** The `stock_info` tool: the same numbering, without prices and without the cancel row. */
    method StockInfoTool() returns (r: ToolResult, listed: seq<Product>)
      requires Valid()
      ensures IsListing(products.rows, listed)
      ensures r.TextResult? <==> products.rows == map[]
      ensures r.TextResult? ==> r.text == NoProductsText
      ensures r.TableResult? ==>
                r.title == "Product Stock Information" &&
                r.message == "Here is the stock information for available products." &&
                r.columns == ["#", "Name", "Stock"] && |r.rows| == |products.rows| &&
                forall k :: 0 <= k < |listed| ==> r.rows[k] == StockLine(k + 1, listed[k])
    {
      listed := ListProducts(products);
      if listed == [] {
        return TextResult(NoProductsText), listed;
      }
      var rows := StockTable(listed);
      r := TableResult("Product Stock Information", ["#", "Name", "Stock"], rows,
                       "Here is the stock information for available products.");
    }

    /** The `show_orders` tool: no orders gives the text that says so; otherwise one row per order in key order. */
    method ShowOrdersTool() returns (r: ToolResult, listed: seq<(int, OrderRow)>)
      requires Valid()
      ensures forall k :: 0 <= k < |listed| ==> listed[k].0 in orders.rows && orders.rows[listed[k].0] == listed[k].1
      ensures forall id :: id in orders.rows ==> exists k :: 0 <= k < |listed| && listed[k].0 == id
      ensures forall j, k :: 0 <= j < k < |listed| ==> listed[j].0 < listed[k].0
      ensures |listed| == |orders.rows|
      ensures r.TextResult? <==> orders.rows == map[]
      ensures r.TextResult? ==> r.text == NoOrdersText
      ensures r.TableResult? ==>
                r.title == "Orders" && r.message == "Here are your orders." &&
                r.columns == ["ID", "Product", "Qty", "Total", "Recipient", "Address", "Delivery Time", "Payment"] &&
                |r.rows| == |listed| &&
                forall k :: 0 <= k < |listed| ==> r.rows[k] == OrderLine(listed[k].0, listed[k].1)
    {
      listed := orders.All();
      if listed == [] {
        return TextResult(NoOrdersText), listed;
      }
      var rows := OrderTable(listed);
      r := TableResult("Orders", ["ID", "Product", "Qty", "Total", "Recipient", "Address", "Delivery Time", "Payment"],
                       rows, "Here are your orders.");
    }

    /**
     * The `show_orders` method: a table comes back as its rows, cells joined by " | "
     * and rows by line breaks; a text comes back as it is.
     */
    method ShowOrders() returns (text: string, listed: seq<(int, OrderRow)>)
      requires Valid()
      ensures forall k :: 0 <= k < |listed| ==> listed[k].0 in orders.rows && orders.rows[listed[k].0] == listed[k].1
      ensures forall id :: id in orders.rows ==> exists k :: 0 <= k < |listed| && listed[k].0 == id
      ensures forall j, k :: 0 <= j < k < |listed| ==> listed[j].0 < listed[k].0
      ensures orders.rows == map[] ==> text == NoOrdersText
      ensures orders.rows != map[] ==>
                |listed| == |orders.rows| &&
                text == Join(JoinCells(seq(|listed|, k requires 0 <= k < |listed| => OrderLine(listed[k].0, listed[k].1))), "\n")
    {
      var r;
      r, listed := ShowOrdersTool();
      if r.TextResult? {
        return r.text, listed;
      }
      var lines: seq<string> := [];
      var i := 0;
      while i < |r.rows|
        invariant 0 <= i <= |r.rows| && |lines| == i
        invariant forall k :: 0 <= k < i ==> lines[k] == Join(r.rows[k], " | ")
      {
        lines := lines + [Join(r.rows[i], " | ")];
        i := i + 1;
      }
      assert r.rows == seq(|listed|, k requires 0 <= k < |listed| => OrderLine(listed[k].0, listed[k].1));
      assert lines == JoinCells(r.rows);
      text := Join(lines, "\n");
    }
  }
}

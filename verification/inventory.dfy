/** `getInventory`: every product, loaded with its category, unit and stock
    records, becomes one `InventoryItem` carrying its total stock, its stock
    status and one line per stock record. */
module Inventory {
  import opened Js
  import opened Calendar

  datatype Category = Category(name: string)
  datatype Unit = Unit(symbol: string)
  datatype Warehouse = Warehouse(name: string)
  datatype Batch = Batch(batchNumber: string, expiryDate: Option<ValidDate>)

  /** One stock record of a product: a quantity held in a warehouse, perhaps
      tied to a batch. */
  datatype Stock = Stock(quantity: int, warehouse: Warehouse, batch: Option<Batch>)

  /** A product as the query loads it, relations included. */
  datatype Product = Product(
    id: string,
    sku: string,
    name: string,
    category: Option<Category>,
    unit: Option<Unit>,
    minStock: int,
    hasExpiry: bool,
    stocks: seq<Stock>)

  datatype Status = InStock | LowStock | OutOfStock

  /** One entry of an item's `batches`. */
  datatype BatchView = BatchView(batchNumber: string, expiryDate: Option<ValidDate>, quantity: int, warehouse: string)

  datatype InventoryItem = InventoryItem(
    id: string,
    sku: string,
    name: string,
    category: string,
    unit: string,
    minStock: int,
    totalStock: int,
    status: Status,
    hasExpiry: bool,
    batches: seq<BatchView>)

  /** Shown for a missing category, unit or batch number. */
  const Placeholder := "N/A"

  /** `stocks.reduce((acc, stock) => acc + stock.quantity, 0)`, a fold from the
      left: it adds up exactly the quantities of the records. */
  function TotalStock(stocks: seq<Stock>): (total: int)
    ensures total == SumOfQuantities(stocks)
    decreases |stocks|
  {
    if stocks == [] then 0
    else
      SumOfQuantitiesLast(stocks);
      TotalStock(stocks[..|stocks| - 1]) + stocks[|stocks| - 1].quantity
  }

  /** The sum of the quantities, taken from the first record on: the reference
      `TotalStock` is checked against. */
  function SumOfQuantities(stocks: seq<Stock>): int
  {
    if stocks == [] then 0 else stocks[0].quantity + SumOfQuantities(stocks[1..])
  }

  /** The total of a concatenation is the sum of the totals. */
  lemma {:induction false} TotalStockAppend(a: seq<Stock>, b: seq<Stock>)
    ensures TotalStock(a + b) == TotalStock(a) + TotalStock(b)
    decreases |b|
  {
    if b == [] {
      assert a + b == a;
    } else {
      var last := |b| - 1;
      assert (a + b)[..|a + b| - 1] == a + b[..last];
      TotalStockAppend(a, b[..last]);
    }
  }

  /** The sum can equally be taken last record first. */
  lemma {:induction false} SumOfQuantitiesLast(stocks: seq<Stock>)
    requires stocks != []
    ensures SumOfQuantities(stocks) == SumOfQuantities(stocks[..|stocks| - 1]) + stocks[|stocks| - 1].quantity
    decreases |stocks|
  {
    if |stocks| > 1 {
      SumOfQuantitiesLast(stocks[1..]);
      assert stocks[1..][..|stocks| - 2] == stocks[..|stocks| - 1][1..];
    }
  }

  /** With no negative quantity, the total is never negative, and it is zero
      exactly when every record is empty. */
  lemma {:induction false} TotalStockZero(stocks: seq<Stock>)
    requires forall k :: 0 <= k < |stocks| ==> stocks[k].quantity >= 0
    ensures TotalStock(stocks) >= 0
    ensures TotalStock(stocks) == 0 <==> forall k :: 0 <= k < |stocks| ==> stocks[k].quantity == 0
    decreases |stocks|
  {
    if stocks != [] {
      var init := stocks[..|stocks| - 1];
      TotalStockZero(init);
      assert forall k :: 0 <= k < |init| ==> init[k] == stocks[k];
    }
  }

  /** The status of a product whose total stock is `total`: the zero test is
      made first, so a threshold of 0 never hides an empty product. */
  function Classify(total: int, minStock: int): (s: Status)
    ensures s == OutOfStock <==> total == 0
    ensures s == LowStock <==> total != 0 && total <= minStock
    ensures s == InStock <==> total != 0 && total > minStock
  {
    if total == 0 then OutOfStock
    else if total <= minStock then LowStock
    else InStock
  }

  /** The `batches` entry of one stock record. */
  function ViewOf(stock: Stock): (b: BatchView)
    ensures b.quantity == stock.quantity && b.warehouse == stock.warehouse.name
    ensures b.batchNumber == Placeholder
            <==> stock.batch.None? || stock.batch.value.batchNumber in {"", Placeholder}
    ensures b.batchNumber != Placeholder ==> b.batchNumber == stock.batch.value.batchNumber
    ensures b.expiryDate.Some? <==> stock.batch.Some? && stock.batch.value.expiryDate.Some?
    ensures b.expiryDate.Some? ==> b.expiryDate == stock.batch.value.expiryDate
  {
    match stock.batch
    case None => BatchView(Placeholder, None, stock.quantity, stock.warehouse.name)
    case Some(batch) => BatchView(StringOr(Some(batch.batchNumber), Placeholder), batch.expiryDate,
                                  stock.quantity, stock.warehouse.name)
  }

  /** The item `getInventory` builds for one product. */
  function ToItem(p: Product): (item: InventoryItem)
    ensures item.id == p.id && item.sku == p.sku && item.name == p.name
    ensures item.minStock == p.minStock && item.hasExpiry == p.hasExpiry
    ensures item.totalStock == SumOfQuantities(p.stocks)
    ensures item.status == OutOfStock <==> item.totalStock == 0
    ensures item.status == LowStock <==> item.totalStock != 0 && item.totalStock <= p.minStock
    ensures item.category == Placeholder
            <==> p.category.None? || p.category.value.name in {"", Placeholder}
    ensures item.category != Placeholder ==> item.category == p.category.value.name
    ensures item.unit == Placeholder
            <==> p.unit.None? || p.unit.value.symbol in {"", Placeholder}
    ensures item.unit != Placeholder ==> item.unit == p.unit.value.symbol
    ensures |item.batches| == |p.stocks|
    ensures forall k :: 0 <= k < |p.stocks| ==> item.batches[k] == ViewOf(p.stocks[k])
  {
    var total := TotalStock(p.stocks);
    InventoryItem(
      p.id, p.sku, p.name,
      StringOr(if p.category.Some? then Some(p.category.value.name) else None, Placeholder),
      StringOr(if p.unit.Some? then Some(p.unit.value.symbol) else None, Placeholder),
      p.minStock, total, Classify(total, p.minStock), p.hasExpiry,
      seq(|p.stocks|, k requires 0 <= k < |p.stocks| => ViewOf(p.stocks[k])))
  }

  /** `getInventory` once the products are loaded: one item per product, in
      the order the products come. */
  function GetInventory(products: seq<Product>): (items: seq<InventoryItem>)
    ensures |items| == |products|
    ensures forall k :: 0 <= k < |products| ==> items[k] == ToItem(products[k])
    decreases |products|
  {
    if products == [] then []
    else [ToItem(products[0])] + GetInventory(products[1..])
  }

  /** The inventory of a concatenation is the concatenation of the inventories:
      no item depends on another product. */
  lemma InventoryAppend(a: seq<Product>, b: seq<Product>)
    ensures GetInventory(a + b) == GetInventory(a) + GetInventory(b)
  {
  }

  /** With no negative quantity, a product is out of stock exactly when every
      one of its stock records is empty, whatever its threshold. */
  lemma OutOfStockIffAllEmpty(p: Product)
    requires forall k :: 0 <= k < |p.stocks| ==> p.stocks[k].quantity >= 0
    ensures ToItem(p).status == OutOfStock <==> forall k :: 0 <= k < |p.stocks| ==> p.stocks[k].quantity == 0
  {
    TotalStockZero(p.stocks);
  }
}

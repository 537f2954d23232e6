/** The view logic of the inventory table: which rows are expanded, the
    name/SKU search, the status badge's label and the expiry warning on a lot. */
module InventoryTable {
  import opened Js
  import opened Calendar
  import opened Inventory

  /** The status as the item carries it to the page. */
  function StatusName(s: Status): string
  {
    match s
    case InStock => "IN_STOCK"
    case LowStock => "LOW_STOCK"
    case OutOfStock => "OUT_OF_STOCK"
  }

  /** The label `StatusBadge` shows for a status string. */
  function StatusLabel(status: string): (text: string)
    ensures text == "En stock" <==> status == "IN_STOCK"
    ensures text == "Stock faible" <==> status == "LOW_STOCK"
    ensures text == "Rupture" <==> status != "IN_STOCK" && status != "LOW_STOCK"
  {
    if status == "IN_STOCK" then "En stock"
    else if status == "LOW_STOCK" then "Stock faible"
    else "Rupture"
  }

  /** The badge of an inventory item follows its total stock and threshold. */
  lemma BadgeOfItem(p: Product)
    ensures var item := ToItem(p);
      && (StatusLabel(StatusName(item.status)) == "Rupture" <==> item.totalStock == 0)
      && (StatusLabel(StatusName(item.status)) == "Stock faible"
          <==> item.totalStock != 0 && item.totalStock <= p.minStock)
      && (StatusLabel(StatusName(item.status)) == "En stock" <==> item.totalStock > p.minStock && item.totalStock != 0)
  {
  }

  /** The search predicate: the lower-cased search text occurs, at some
      position, in the lower-cased name or SKU. */
  predicate ItemMatches(item: InventoryItem, search: string)
    ensures ItemMatches(item, search)
            <==> (exists i: nat :: OccursAt(Lower(item.name), Lower(search), i))
                 || (exists i: nat :: OccursAt(Lower(item.sku), Lower(search), i))
  {
    IncludesIffOccurs(Lower(item.name), Lower(search));
    IncludesIffOccurs(Lower(item.sku), Lower(search));
    Includes(Lower(item.name), Lower(search)) || Includes(Lower(item.sku), Lower(search))
  }

  /** `filteredData`: the items the search keeps, in their order, each
      matching item with all its copies. */
  function FilteredItems(items: seq<InventoryItem>, search: string): (r: seq<InventoryItem>)
    ensures |r| <= |items| && IsSubsequence(r, items)
    ensures forall item :: item in r <==> item in items && ItemMatches(item, search)
    ensures forall item :: multiset(r)[item] == if ItemMatches(item, search) then multiset(items)[item] else 0
  {
    var keep := (item: InventoryItem) => ItemMatches(item, search);
    FilterIsSubsequence(items, keep);
    FilterMembership(items, keep);
    FilterMultiset(items, keep);
    Filter(items, keep)
  }

  /** An empty search keeps every item. */
  lemma EmptySearchKeepsAllItems(items: seq<InventoryItem>)
    ensures FilteredItems(items, "") == items
  {
    FilterKeepsAll(items, (item: InventoryItem) => ItemMatches(item, ""));
  }

  /** The test of `prev.filter(rowId => rowId !== id)`. */
  function Other(id: string): string -> bool
  {
    rowId => rowId != id
  }

  /** `toggleRow(id)` on the list of expanded rows: a present id is removed,
      every copy of it, and an absent one is appended. */
  function ToggleRow(rows: seq<string>, id: string): (r: seq<string>)
    ensures id in r <==> id !in rows
    ensures forall x :: x != id ==> multiset(r)[x] == multiset(rows)[x]
    ensures id in rows ==> IsSubsequence(r, rows) && multiset(r)[id] == 0
    ensures id !in rows ==> |r| == |rows| + 1 && r[..|rows|] == rows && r[|rows|] == id
  {
    if id in rows then
      FilterIsSubsequence(rows, Other(id));
      FilterMembership(rows, Other(id));
      FilterMultiset(rows, Other(id));
      Filter(rows, Other(id))
    else
      rows + [id]
  }

  /** Toggling an id that is not expanded twice gives the list back. */
  lemma ToggleTwiceRestores(rows: seq<string>, id: string)
    requires id !in rows
    ensures ToggleRow(ToggleRow(rows, id), id) == rows
  {
    FilterAppend(rows, [id], Other(id));
    FilterKeepsAll(rows, Other(id));
    assert Filter([id], Other(id)) == [];
  }

  /** Toggling an expanded id twice moves it to the end, once. */
  lemma ToggleTwiceMovesToEnd(rows: seq<string>, id: string)
    requires id in rows
    ensures ToggleRow(ToggleRow(rows, id), id) == Filter(rows, Other(id)) + [id]
  {
  }

  /** `isApproachingExpiry(date)` at the instant `now`: the date is before the
      horizon `ThreeMonthsFrom(now)`. Every date in a month before the third
      month from now is flagged, none from the fifth month on; in the third
      month, when it has the day of `now`, exactly the dates before the same day
      and time are flagged. */
  predicate IsApproachingExpiry(date: ValidDate, now: ValidDate)
    ensures MonthIndex(date) < MonthIndex(now) + 3 ==> IsApproachingExpiry(date, now)
    ensures MonthIndex(date) > MonthIndex(now) + 3 && now.day <= HorizonMonthLength(now)
            ==> !IsApproachingExpiry(date, now)
    ensures MonthIndex(date) > MonthIndex(now) + 4 ==> !IsApproachingExpiry(date, now)
    ensures MonthIndex(date) == MonthIndex(now) + 3 && now.day <= HorizonMonthLength(now)
            ==> (IsApproachingExpiry(date, now)
                 <==> date.day < now.day || (date.day == now.day && date.ms < now.ms))
  {
    Before(date, ThreeMonthsFrom(now))
  }

  /** A date that is already past, or is now, is flagged. */
  lemma ExpiredIsFlagged(date: ValidDate, now: ValidDate)
    requires !Before(now, date)
    ensures IsApproachingExpiry(date, now)
  {
  }

  /** The expiry warning of one lot: none when the lot has no expiry date, red
      (true) or green (false) otherwise. */
  function ExpiryFlag(lot: BatchView, now: ValidDate): (flag: Option<bool>)
    ensures flag.Some? <==> lot.expiryDate.Some?
    ensures flag.Some? ==> flag.value == IsApproachingExpiry(lot.expiryDate.value, now)
  {
    match lot.expiryDate
    case None => None
    case Some(date) => Some(IsApproachingExpiry(date, now))
  }

  /** A lot without a batch never shows an expiry warning. */
  lemma NoBatchNoWarning(stock: Stock, now: ValidDate)
    requires stock.batch.None?
    ensures ExpiryFlag(ViewOf(stock), now) == None
  {
  }
}

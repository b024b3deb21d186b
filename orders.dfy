/** Orders: how /place-order derives the location, how it prices the
    items, and how /api/sales selects from the ledger (server.js). */
module Orders {
  import opened Common
  import opened Catalog

  /** What the guest sends for one item name; the server stores it as sent
      but prices the order from the catalog, not from `price`. */
  datatype ItemEntry = ItemEntry(quantity: int, price: int)

  datatype LocationType = Room | Table

  datatype Order = Order(
    id: int,
    location: string,
    locationType: LocationType,
    items: map<string, ItemEntry>,
    total: int,
    timestamp: string)

  /** `room || table`: the room when it is truthy, else the table when it is
      truthy; no location at all is the validation failure. */
  function OrderLocation(room: Option<string>, table: Option<string>): (r: Option<string>)
    ensures r.None? <==> !Truthy(room) && !Truthy(table)
    ensures r.Some? ==> r.value != ""
    ensures Truthy(room) ==> r == room
    ensures !Truthy(room) && Truthy(table) ==> r == table
  {
    if Truthy(room) then room else if Truthy(table) then table else None
  }

  /** `room ? "Room" : "Table"` */
  function LocationTypeOf(room: Option<string>): (t: LocationType)
    ensures t == Room <==> Truthy(room)
  {
    if Truthy(room) then Room else Table
  }

  /** What one item name adds to the total: catalog price times the
      requested quantity, or nothing when no menu record has that name. */
  function LineAmount(menu: seq<MenuItem>, name: string, entry: ItemEntry): int {
    match FindByName(menu, name)
    case Some(item) => item.price * entry.quantity
    case None => 0
  }

  ghost function Amounts(menu: seq<MenuItem>, items: map<string, ItemEntry>): map<string, int> {
    map name | name in items :: LineAmount(menu, name, items[name])
  }

  /** The order total: the sum of the line amounts over all item names. */
  ghost function OrderTotal(menu: seq<MenuItem>, items: map<string, ItemEntry>): int {
    SumOver(Amounts(menu, items), items.Keys)
  }

  /** The `for (const key in items)` loop of /place-order. */
  method ComputeTotal(menu: seq<MenuItem>, items: map<string, ItemEntry>) returns (total: int)
    ensures total == OrderTotal(menu, items)
  {
    ghost var amounts := Amounts(menu, items);
    total := 0;
    var rest := items.Keys;
    while rest != {}
      invariant rest <= items.Keys
      invariant total + SumOver(amounts, rest) == OrderTotal(menu, items)
      decreases rest
    {
      var key :| key in rest;
      var menuItem := FindByName(menu, key);
      if menuItem.Some? {
        total := total + menuItem.value.price * items[key].quantity;
      }
      SumOverRemove(amounts, rest, key);
      rest := rest - {key};
    }
  }

  /** An order with no items costs nothing. */
  lemma NoItemsNoTotal(menu: seq<MenuItem>)
    ensures OrderTotal(menu, map[]) == 0
  {
  }

  /** Taking one item name out of an order lowers the total by exactly that
      line's amount. */
  lemma {:induction false} TotalSplits(menu: seq<MenuItem>, items: map<string, ItemEntry>, name: string)
    requires name in items
    ensures OrderTotal(menu, items) == LineAmount(menu, name, items[name]) + OrderTotal(menu, items - {name})
  {
    var rest := items - {name};
    SumOverRemove(Amounts(menu, items), items.Keys, name);
    assert items.Keys - {name} == rest.Keys;
    SumOverAgree(Amounts(menu, items), Amounts(menu, rest), rest.Keys);
  }

  /** A name that is not on the menu contributes nothing and is not an
      error: the total is that of the order without it. */
  lemma UnknownItemIgnored(menu: seq<MenuItem>, items: map<string, ItemEntry>, name: string)
    requires name in items
    requires forall item :: item in menu ==> item.name != name
    ensures OrderTotal(menu, items) == OrderTotal(menu, items - {name})
  {
    TotalSplits(menu, items, name);
  }

  /** A name on the menu contributes the price of its first record times the
      requested quantity. */
  lemma KnownItemPriced(menu: seq<MenuItem>, items: map<string, ItemEntry>, name: string, i: nat)
    requires name in items
    requires i < |menu| && menu[i].name == name
    requires forall j :: 0 <= j < i ==> menu[j].name != name
    ensures OrderTotal(menu, items) == menu[i].price * items[name].quantity + OrderTotal(menu, items - {name})
  {
    TotalSplits(menu, items, name);
    var found := FindByName(menu, name);
    var k :| 0 <= k < |menu| && menu[k] == found.value && forall j :: 0 <= j < k ==> menu[j].name != name;
    assert k == i;
  }

  /** The prefix of the order timestamp a sales period selects on:
      the whole date for "day", `date.substring(0, 7)` for "month",
      `date.substring(0, 4)` for "year"; any other period selects nothing. */
  function PeriodPrefix(period: string, date: string): (r: Option<string>)
    ensures r.Some? <==> period in {"day", "month", "year"}
    ensures period == "day" ==> r == Some(date)
    ensures period == "month" ==> r == Some(Prefix(date, 7))
    ensures period == "year" ==> r == Some(Prefix(date, 4))
  {
    if period == "month" then Some(Prefix(date, 7))
    else if period == "year" then Some(Prefix(date, 4))
    else if period == "day" then Some(date)
    else None
  }

  /** The orders /api/sales returns from the ledger. */
  function SalesFor(ledger: seq<Order>, period: string, date: string): (r: seq<Order>)
    ensures |r| <= |ledger|
    ensures PeriodPrefix(period, date).None? ==> r == ledger
    ensures PeriodPrefix(period, date).Some? ==>
      forall o :: o in r <==> o in ledger && StartsWith(o.timestamp, PeriodPrefix(period, date).value)
    ensures PeriodPrefix(period, date).Some? ==>
      forall o :: multiset(r)[o] ==
        if StartsWith(o.timestamp, PeriodPrefix(period, date).value) then multiset(ledger)[o] else 0
  {
    match PeriodPrefix(period, date)
    case None => ledger
    case Some(prefix) => Filter(ledger, (o: Order) => StartsWith(o.timestamp, prefix))
  }

  /** A sales query returns an order-preserving subsequence of the ledger
      holding exactly the orders whose timestamp starts with the period's
      prefix of the date, and the whole ledger for any other period. */
  lemma SalesQuery(ledger: seq<Order>, period: string, date: string)
    ensures IsSubsequence(SalesFor(ledger, period, date), ledger)
    ensures period == "day" ==>
      forall o :: o in SalesFor(ledger, period, date) <==> o in ledger && StartsWith(o.timestamp, date)
    ensures period == "month" ==>
      forall o :: o in SalesFor(ledger, period, date) <==> o in ledger && StartsWith(o.timestamp, Prefix(date, 7))
    ensures period == "year" ==>
      forall o :: o in SalesFor(ledger, period, date) <==> o in ledger && StartsWith(o.timestamp, Prefix(date, 4))
    ensures period !in {"day", "month", "year"} ==> SalesFor(ledger, period, date) == ledger
  {
    match PeriodPrefix(period, date)
    case None =>
      assert Embedding(seq(|ledger|, i requires 0 <= i < |ledger| => i as nat), ledger, ledger);
    case Some(prefix) =>
      FilterIsSubsequence(ledger, (o: Order) => StartsWith(o.timestamp, prefix));
  }

  /** A period query keeps every copy of a matching order: each order
      occurs in the answer as often as in the ledger when its timestamp
      starts with the period's prefix, and not at all otherwise. */
  lemma SalesKeepMultiplicity(ledger: seq<Order>, period: string, date: string)
    ensures period == "day" ==>
      forall o :: multiset(SalesFor(ledger, period, date))[o] ==
        if StartsWith(o.timestamp, date) then multiset(ledger)[o] else 0
    ensures period == "month" ==>
      forall o :: multiset(SalesFor(ledger, period, date))[o] ==
        if StartsWith(o.timestamp, Prefix(date, 7)) then multiset(ledger)[o] else 0
    ensures period == "year" ==>
      forall o :: multiset(SalesFor(ledger, period, date))[o] ==
        if StartsWith(o.timestamp, Prefix(date, 4)) then multiset(ledger)[o] else 0
  {
  }

  /** An empty ledger gives an empty answer for every period. */
  lemma NoSalesAfterClear(period: string, date: string)
    ensures SalesFor([], period, date) == []
  {
  }
}

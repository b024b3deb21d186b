/** The guest menu page (public/js/menu-client.js) without its DOM: where
    the page says it is, what search keeps, which category headings the
    menu shows, and the cart with its total and its submission. */
module MenuClient {
  import opened Common
  import opened Catalog
  import opened Orders

  /** The location shown and sent: the `room` query parameter, else the
      `table` one, else "N/A". */
  function PageLocation(room: Option<string>, table: Option<string>): (loc: string)
    ensures loc != ""
    ensures Truthy(room) ==> loc == room.value
    ensures !Truthy(room) && Truthy(table) ==> loc == table.value
    ensures !Truthy(room) && !Truthy(table) ==> loc == "N/A"
  {
    if Truthy(room) then room.value else if Truthy(table) then table.value else "N/A"
  }

  /** "room" exactly when the `room` parameter is truthy, else "table". */
  function PageLocationType(room: Option<string>): (t: string)
    ensures t == "room" <==> Truthy(room)
    ensures t != "room" ==> t == "table"
  {
    if Truthy(room) then "room" else "table"
  }

  /** The body the page posts to /place-order: `orderData[locationType] = location`. */
  datatype OrderRequest = OrderRequest(room: Option<string>, table: Option<string>, items: map<string, ItemEntry>)

  function RequestFor(pageRoom: Option<string>, pageTable: Option<string>,
                      items: map<string, ItemEntry>): (r: OrderRequest)
    ensures r.items == items
    ensures Truthy(pageRoom) ==> r.room == pageRoom && r.table.None?
    ensures !Truthy(pageRoom) ==> r.room.None? && r.table == Some(PageLocation(pageRoom, pageTable))
  {
    var loc := PageLocation(pageRoom, pageTable);
    if PageLocationType(pageRoom) == "room" then OrderRequest(Some(loc), None, items)
    else OrderRequest(None, Some(loc), items)
  }

  /** The page and the server agree on where an order is for: the server's
      `room || table` on the posted body is the page's location, it never
      refuses it for a missing location (a page with neither parameter
      orders for table "N/A"), and it files it as a Room exactly when the
      page is a room page. */
  lemma LocationsAgree(pageRoom: Option<string>, pageTable: Option<string>, items: map<string, ItemEntry>)
    ensures var req := RequestFor(pageRoom, pageTable, items);
      && OrderLocation(req.room, req.table) == Some(PageLocation(pageRoom, pageTable))
      && (LocationTypeOf(req.room) == Room <==> PageLocationType(pageRoom) == "room")
  {
  }

  /** One item of the search: its lower-cased name contains the (already
      lower-cased) term, or its Amharic name contains it as typed; a
      missing or empty name never matches. */
  predicate MatchesSearch(item: MenuItem, term: string) {
    || (item.name != "" && Contains(Lower(item.name), term))
    || (item.nameAm != "" && Contains(item.nameAm, term))
  }

  /** The search box handler: the term is lower-cased once and the loaded
      menu filtered by it. */
  function Search(allMenuItems: seq<MenuItem>, input: string): (r: seq<MenuItem>)
    ensures |r| <= |allMenuItems|
    ensures forall i :: i in r <==> i in allMenuItems && MatchesSearch(i, Lower(input))
    ensures forall i :: multiset(r)[i] == if MatchesSearch(i, Lower(input)) then multiset(allMenuItems)[i] else 0
  {
    Filter(allMenuItems, (i: MenuItem) => MatchesSearch(i, Lower(input)))
  }

  /** Search keeps the menu's order and keeps exactly the matching items. */
  lemma SearchKeepsMatches(allMenuItems: seq<MenuItem>, input: string)
    ensures IsSubsequence(Search(allMenuItems, input), allMenuItems)
    ensures forall i :: i in Search(allMenuItems, input) <==>
      i in allMenuItems &&
      ((i.name != "" && Contains(Lower(i.name), Lower(input))) ||
       (i.nameAm != "" && Contains(i.nameAm, Lower(input))))
    ensures forall i :: multiset(Search(allMenuItems, input))[i] ==
                        if MatchesSearch(i, Lower(input)) then multiset(allMenuItems)[i] else 0
  {
    FilterIsSubsequence(allMenuItems, (i: MenuItem) => MatchesSearch(i, Lower(input)));
  }

  function Categories(items: seq<MenuItem>): (cats: seq<string>)
    ensures |cats| == |items| && forall i :: 0 <= i < |items| ==> cats[i] == items[i].category
  {
    seq(|items|, i requires 0 <= i < |items| => items[i].category)
  }

  /** The category of each maximal run of equal neighbouring categories. */
  function RunCategories(cats: seq<string>): (r: seq<string>)
    ensures |r| <= |cats|
    ensures |cats| > 0 ==> |r| > 0 && r[0] == cats[0] && r[|r| - 1] == cats[|cats| - 1]
    decreases |cats|
  {
    if |cats| <= 1 then cats
    else
      var init := cats[..|cats| - 1];
      if cats[|cats| - 1] == cats[|cats| - 2] then RunCategories(init)
      else RunCategories(init) + [cats[|cats| - 1]]
  }

  /** No two neighbours are equal. */
  ghost predicate NoRepeats(r: seq<string>) {
    forall i :: 0 < i < |r| ==> r[i] != r[i - 1]
  }

  lemma NoRepeatsSnoc(r: seq<string>, c: string)
    requires NoRepeats(r) && |r| > 0 && r[|r| - 1] != c
    ensures NoRepeats(r + [c])
  {
  }

  /** No two neighbouring run categories are equal. */
  lemma {:induction false} RunCategoriesNoRepeats(cats: seq<string>)
    ensures NoRepeats(RunCategories(cats))
    decreases |cats|
  {
    if |cats| > 1 {
      var init := cats[..|cats| - 1];
      RunCategoriesNoRepeats(init);
      if cats[|cats| - 1] != cats[|cats| - 2] {
        NoRepeatsSnoc(RunCategories(init), cats[|cats| - 1]);
      }
    }
  }

  /** Each run category is a category of the input. */
  lemma {:induction false} RunCategoriesFromInput(cats: seq<string>)
    ensures forall c :: c in RunCategories(cats) ==> c in cats
    decreases |cats|
  {
    if |cats| > 1 {
      var init := cats[..|cats| - 1];
      RunCategoriesFromInput(init);
      assert forall c :: c in init ==> c in cats;
    }
  }

  /** The headings `renderMenu` shows for `cats`: one per run, except that
      a first run whose category is "" gets none. */
  ghost function Shown(cats: seq<string>): seq<string> {
    var runs := RunCategories(cats);
    if |cats| > 0 && cats[0] == "" then runs[1..] else runs
  }

  /** Position `i` begins a maximal run of equal categories. */
  predicate StartsRun(cats: seq<string>, i: nat)
    requires i < |cats|
  {
    i == 0 || cats[i] != cats[i - 1]
  }

  /** The positions where a maximal run of equal categories begins. */
  ghost function RunStarts(cats: seq<string>): set<nat> {
    set i: nat | i < |cats| && StartsRun(cats, i)
  }

  /** One more category extends the runs by one exactly when it differs
      from its predecessor. */
  lemma RunCategoriesGrow(cats: seq<string>, i: nat)
    requires 0 < i < |cats|
    ensures RunCategories(cats[..i + 1]) ==
      if cats[i] != cats[i - 1] then RunCategories(cats[..i]) + [cats[i]] else RunCategories(cats[..i])
  {
    assert cats[..i + 1][..i] == cats[..i];
  }

  /** The shown headings grow by one exactly when a new run begins. */
  lemma ShownGrow(cats: seq<string>, i: nat)
    requires 0 < i < |cats|
    ensures Shown(cats[..i + 1]) == if cats[i] != cats[i - 1] then Shown(cats[..i]) + [cats[i]] else Shown(cats[..i])
  {
    RunCategoriesGrow(cats, i);
    var before := RunCategories(cats[..i]);
    assert |before| > 0;
    if cats[0] == "" && cats[i] != cats[i - 1] {
      assert (before + [cats[i]])[1..] == before[1..] + [cats[i]];
    }
  }

  /** There is one run category per maximal run. */
  lemma {:induction false} RunCategoriesCount(cats: seq<string>)
    ensures |RunCategories(cats)| == |RunStarts(cats)|
    decreases |cats|
  {
    if |cats| == 0 {
      assert RunStarts(cats) == {};
    } else if |cats| == 1 {
      assert RunStarts(cats) == {0};
    } else {
      var n := |cats| - 1;
      var init := cats[..n];
      RunCategoriesCount(init);
      assert forall i :: 0 <= i < n ==> (StartsRun(cats, i) <==> StartsRun(init, i));
      if cats[n] == cats[n - 1] {
        assert RunStarts(cats) == RunStarts(init);
      } else {
        assert RunStarts(cats) == RunStarts(init) + {n};
      }
    }
  }

  /** The headings `renderMenu` emits, in order. `currentCategory` starts as
      "", so a first run whose category is "" gets no heading; every other
      run gets exactly one. */
  method RenderHeadings(items: seq<MenuItem>) returns (headings: seq<string>)
    ensures var runs := RunCategories(Categories(items));
      headings == if |items| > 0 && items[0].category == "" then runs[1..] else runs
  {
    ghost var cats := Categories(items);
    headings := [];
    if |items| == 0 {
      return;
    }
    var currentCategory := "";
    var i := 0;
    while i < |items|
      invariant 0 <= i <= |items|
      invariant currentCategory == if i == 0 then "" else items[i - 1].category
      invariant headings == Shown(cats[..i])
    {
      if i == 0 {
        assert cats[..1] == [cats[0]];
      } else {
        ShownGrow(cats, i);
      }
      if items[i].category != currentCategory {
        currentCategory := items[i].category;
        headings := headings + [currentCategory];
      }
      i := i + 1;
    }
    assert cats[..i] == cats;
  }

  /** The number of headings is the number of maximal category runs, less
      one when the first run's category is "". */
  lemma HeadingCount(items: seq<MenuItem>)
    ensures var runs := RunCategories(Categories(items));
      |if |items| > 0 && items[0].category == "" then runs[1..] else runs| ==
      |RunStarts(Categories(items))| - if |items| > 0 && items[0].category == "" then 1 else 0
  {
    RunCategoriesCount(Categories(items));
  }

  /** One cart line, keyed by the English item name. */
  datatype CartEntry = CartEntry(nameAm: string, quantity: int, price: int)

  /** The add-to-cart handler on a cart value: an item already present gains
      one in quantity, a new one comes in with quantity 1 and the card's
      price; nothing else changes. The presence test is `if (cart[name])`,
      which an inherited object member passes, so an item named after one
      ("constructor", "toString", ...) never enters the cart. */
  function WithAdded(cart: map<string, CartEntry>, name: string, nameAm: string, price: int)
    : (r: map<string, CartEntry>)
    ensures r.Keys == if HasProperty(cart, name) then cart.Keys else cart.Keys + {name}
    ensures name in cart ==> r[name] == cart[name].(quantity := cart[name].quantity + 1)
    ensures !HasProperty(cart, name) ==> r[name] == CartEntry(nameAm, 1, price)
    ensures forall k :: k in cart && k != name ==> r[k] == cart[k]
  {
    if name in cart then cart[name := cart[name].(quantity := cart[name].quantity + 1)]
    else if name in INHERITED_KEYS then cart
    else cart[name := CartEntry(nameAm, 1, price)]
  }

  ghost function LineTotals(cart: map<string, CartEntry>): map<string, int> {
    map name | name in cart :: cart[name].quantity * cart[name].price
  }

  /** The cart total: the sum of quantity times price over its entries. */
  ghost function CartTotal(cart: map<string, CartEntry>): int {
    SumOver(LineTotals(cart), cart.Keys)
  }

  lemma EmptyCartTotal()
    ensures CartTotal(map[]) == 0
  {
  }

  /** Adding an item raises the total by exactly one unit of its price: the
      price already in the cart for a known name, the card's for a new one,
      and nothing for a name the cart inherits. */
  lemma {:induction false} AddRaisesTotal(cart: map<string, CartEntry>, name: string, nameAm: string, price: int)
    ensures CartTotal(WithAdded(cart, name, nameAm, price)) ==
      CartTotal(cart) + if name in cart then cart[name].price else if name in INHERITED_KEYS then 0 else price
  {
    if name !in cart && name in INHERITED_KEYS {
      return;
    }
    var after := WithAdded(cart, name, nameAm, price);
    var linesAfter, lines := LineTotals(after), LineTotals(cart);
    var others := cart.Keys - {name};
    SumOverRemove(linesAfter, after.Keys, name);
    assert after.Keys - {name} == others;
    forall k | k in others ensures linesAfter[k] == lines[k] {
      assert after[k] == cart[k];
    }
    SumOverAgree(linesAfter, lines, others);
    if name in cart {
      SumOverRemove(lines, cart.Keys, name);
      UnitMore(cart[name].quantity, cart[name].price);
    } else {
      assert cart.Keys == others;
    }
  }

  /** The one non-linear step of `AddRaisesTotal`, kept apart so the
      solver meets it on its own. */
  lemma UnitMore(q: int, p: int)
    ensures (q + 1) * p == q * p + p
  {
  }

  /** What the page sends for its cart: the same names, quantity and price
      copied, the Amharic name dropped. */
  function Projection(cart: map<string, CartEntry>): (items: map<string, ItemEntry>)
    ensures items.Keys == cart.Keys
    ensures forall k :: k in items ==> items[k] == ItemEntry(cart[k].quantity, cart[k].price)
  {
    map name | name in cart :: ItemEntry(cart[name].quantity, cart[name].price)
  }

  /** When every cart line carries the price of the first menu record with
      its name (the card it was added from), the total the server computes
      for the posted items equals the total the page showed. */
  lemma ServerTotalMatchesCart(menu: seq<MenuItem>, cart: map<string, CartEntry>)
    requires forall k :: k in cart ==> FindByName(menu, k).Some? && FindByName(menu, k).value.price == cart[k].price
    ensures OrderTotal(menu, Projection(cart)) == CartTotal(cart)
  {
    var items := Projection(cart);
    forall k | k in items.Keys ensures Amounts(menu, items)[k] == LineTotals(cart)[k] {
    }
    SumOverAgree(Amounts(menu, items), LineTotals(cart), items.Keys);
  }

  /** What came back from posting the order: a reply whose `success` is
      true or false, or no reply at all. */
  datatype Reply = Accepted | Refused | Unreachable

  class Cart {
    const room: Option<string>
    const table: Option<string>
    var entries: map<string, CartEntry>

    /** Page load: the query parameters are read once and the cart is empty. */
    constructor (room: Option<string>, table: Option<string>)
      ensures this.room == room && this.table == table && entries == map[]
    {
      this.room := room;
      this.table := table;
      entries := map[];
    }

    /** The click handler of an "add order" button. */
    method Add(name: string, nameAm: string, price: int)
      modifies this
      ensures entries == WithAdded(old(entries), name, nameAm, price)
    {
      if name in entries {
        entries := entries[name := entries[name].(quantity := entries[name].quantity + 1)];
      } else if name !in INHERITED_KEYS {
        entries := entries[name := CartEntry(nameAm, 1, price)];
      }
    }

    /** The total loop of `updateCartDisplay`. */
    method Total() returns (total: int)
      ensures total == CartTotal(entries)
    {
      ghost var lines := LineTotals(entries);
      total := 0;
      var rest := entries.Keys;
      while rest != {}
        invariant rest <= entries.Keys
        invariant total + SumOver(lines, rest) == CartTotal(entries)
        decreases rest
      {
        var name :| name in rest;
        total := total + entries[name].quantity * entries[name].price;
        SumOverRemove(lines, rest, name);
        rest := rest - {name};
      }
    }

    /** The loop that builds `itemsForServer`. */
    method ItemsForServer() returns (items: map<string, ItemEntry>)
      ensures items.Keys == entries.Keys
      ensures forall k :: k in items ==> items[k] == ItemEntry(entries[k].quantity, entries[k].price)
    {
      items := map[];
      var rest := entries.Keys;
      while rest != {}
        invariant rest <= entries.Keys
        invariant items.Keys == entries.Keys - rest
        invariant forall k :: k in items ==> items[k] == ItemEntry(entries[k].quantity, entries[k].price)
        decreases rest
      {
        var name :| name in rest;
        items := items[name := ItemEntry(entries[name].quantity, entries[name].price)];
        rest := rest - {name};
      }
    }

    /** The order form's submit handler. An empty cart is refused before
        anything is sent; otherwise the request is posted and the cart is
        emptied only when the reply reports success. */
    method Submit(reply: Reply) returns (sent: Option<OrderRequest>)
      modifies this
      ensures old(entries) == map[] ==> sent == None && entries == old(entries)
      ensures old(entries) != map[] ==> sent == Some(RequestFor(room, table, Projection(old(entries))))
      ensures old(entries) != map[] && reply == Accepted ==> entries == map[]
      ensures reply != Accepted ==> entries == old(entries)
    {
      if |entries| == 0 {
        return None;
      }
      var items := ItemsForServer();
      assert items == Projection(entries);
      sent := Some(RequestFor(room, table, items));
      if reply == Accepted {
        entries := map[];
      }
    }
  }
}

/** The order-and-request state of server.js, taken out of its HTTP and
    Socket.IO handlers: one object owns the pending maps, the two stored
    documents and the log of broadcast events, and each handler is a method.
    Clock readings (`Date.now()`, `toISOString()`) are parameters, and so is
    whether each file write succeeds. */
module Server {
  import opened Common
  import opened Storage
  import opened Catalog
  import opened Orders

  datatype ServiceRequest = ServiceRequest(
    id: int,
    room: string,
    request: string,
    requestAm: string,
    timestamp: string)

  /** Broadcasts sent to every connected dashboard. */
  datatype Event =
    | NewOrder(order: Order)
    | NewServiceRequest(request: ServiceRequest)
    | NewWaiterCall(table: string, timestamp: string)

  /** The outcome a handler reports: 200, 400, 404, 429 or 500. */
  datatype Status = Ok | BadRequest | NotFound | Conflict | ServerError

  class HotelState {
    var pendingOrders: map<string, Order>
    var pendingRequests: map<int, ServiceRequest>
    var menuFile: StoredFile<MenuItem>
    var ordersFile: StoredFile<Order>
    var events: seq<Event>

    /** Each pending order is filed under its own, non-empty location that
        is not an inherited object member, and each pending request under
        its own id. */
    ghost predicate Valid()
      reads this
    {
      && (forall loc :: loc in pendingOrders ==>
            loc != "" && loc !in INHERITED_KEYS && pendingOrders[loc].location == loc)
      && (forall id :: id in pendingRequests ==> pendingRequests[id].id == id)
    }

    /** The menu as the handlers read it. */
    function Menu(): seq<MenuItem>
      reads this
    {
      ReadFileSafely(menuFile)
    }

    /** The settled orders as the handlers read them. */
    function Ledger(): seq<Order>
      reads this
    {
      ReadFileSafely(ordersFile)
    }

    /** Process start: nothing pending, nothing broadcast, the documents as
        found on disk. */
    constructor (menuFile: StoredFile<MenuItem>, ordersFile: StoredFile<Order>)
      ensures Valid()
      ensures pendingOrders == map[] && pendingRequests == map[] && events == []
      ensures this.menuFile == menuFile && this.ordersFile == ordersFile
    {
      pendingOrders := map[];
      pendingRequests := map[];
      this.menuFile := menuFile;
      this.ordersFile := ordersFile;
      events := [];
    }

    /** POST /api/menu/add: refused without an uploaded image; otherwise the
        new record is appended to the menu and the whole menu written back. */
    method AddMenuItem(name: string, nameAm: string, category: string, price: int,
                       upload: Option<string>, now: int, writeSucceeds: bool)
      returns (status: Status)
      requires Valid()
      modifies this
      ensures Valid()
      ensures pendingOrders == old(pendingOrders) && pendingRequests == old(pendingRequests)
      ensures ordersFile == old(ordersFile) && events == old(events)
      ensures upload.None? ==> status == BadRequest && menuFile == old(menuFile)
      ensures upload.Some? && !writeSucceeds ==> status == ServerError && menuFile == old(menuFile)
      ensures upload.Some? && writeSucceeds ==>
        status == Ok &&
        menuFile == Json(old(Menu()) + [NewMenuItem(now, name, nameAm, category, price, upload.value)])
    {
      if upload.None? {
        return BadRequest;
      }
      var m := Menu();
      m := m + [NewMenuItem(now, name, nameAm, category, price, upload.value)];
      if !writeSucceeds {
        return ServerError;
      }
      menuFile := Json(m);
      status := Ok;
    }

    /** POST /api/menu/edit: 404 without a write when no record has `id`. */
    method EditMenuItem(id: int, name: string, nameAm: string, category: string, price: int,
                        writeSucceeds: bool)
      returns (status: Status)
      requires Valid()
      modifies this
      ensures Valid()
      ensures pendingOrders == old(pendingOrders) && pendingRequests == old(pendingRequests)
      ensures ordersFile == old(ordersFile) && events == old(events)
      ensures IndexOfId(old(Menu()), id).None? ==> status == NotFound && menuFile == old(menuFile)
      ensures IndexOfId(old(Menu()), id).Some? && !writeSucceeds ==>
        status == ServerError && menuFile == old(menuFile)
      ensures IndexOfId(old(Menu()), id).Some? && writeSucceeds ==>
        status == Ok && menuFile == Json(EditMenu(old(Menu()), id, name, nameAm, category, price).value)
    {
      var m := Menu();
      var edited := EditMenu(m, id, name, nameAm, category, price);
      if edited.None? {
        return NotFound;
      }
      if !writeSucceeds {
        return ServerError;
      }
      menuFile := Json(edited.value);
      status := Ok;
    }

    /** POST /api/menu/availability: 404 without a write when no record has `id`. */
    method SetMenuAvailability(id: int, available: bool, writeSucceeds: bool)
      returns (status: Status)
      requires Valid()
      modifies this
      ensures Valid()
      ensures pendingOrders == old(pendingOrders) && pendingRequests == old(pendingRequests)
      ensures ordersFile == old(ordersFile) && events == old(events)
      ensures IndexOfId(old(Menu()), id).None? ==> status == NotFound && menuFile == old(menuFile)
      ensures IndexOfId(old(Menu()), id).Some? && !writeSucceeds ==>
        status == ServerError && menuFile == old(menuFile)
      ensures IndexOfId(old(Menu()), id).Some? && writeSucceeds ==>
        status == Ok && menuFile == Json(SetAvailability(old(Menu()), id, available).value)
    {
      var m := Menu();
      var updated := SetAvailability(m, id, available);
      if updated.None? {
        return NotFound;
      }
      if !writeSucceeds {
        return ServerError;
      }
      menuFile := Json(updated.value);
      status := Ok;
    }

    /** POST /api/menu/delete: always writes the filtered menu, so an id
        that matches nothing still succeeds. */
    method DeleteMenuItem(id: int, writeSucceeds: bool) returns (status: Status)
      requires Valid()
      modifies this
      ensures Valid()
      ensures pendingOrders == old(pendingOrders) && pendingRequests == old(pendingRequests)
      ensures ordersFile == old(ordersFile) && events == old(events)
      ensures !writeSucceeds ==> status == ServerError && menuFile == old(menuFile)
      ensures writeSucceeds ==> status == Ok && menuFile == Json(DeleteById(old(Menu()), id))
    {
      var m := Menu();
      if !writeSucceeds {
        return ServerError;
      }
      menuFile := Json(DeleteById(m, id));
      status := Ok;
    }

    /** POST /service-request: the request is filed under the creation time
        (replacing any request made at the same instant) and broadcast. */
    method SubmitServiceRequest(room: string, request: string, requestAm: string,
                                now: int, timestamp: string)
      returns (status: Status)
      requires Valid()
      modifies this
      ensures Valid()
      ensures status == Ok
      ensures pendingRequests == old(pendingRequests)[now := ServiceRequest(now, room, request, requestAm, timestamp)]
      ensures events == old(events) + [NewServiceRequest(ServiceRequest(now, room, request, requestAm, timestamp))]
      ensures pendingOrders == old(pendingOrders)
      ensures menuFile == old(menuFile) && ordersFile == old(ordersFile)
    {
      var requestData := ServiceRequest(now, room, request, requestAm, timestamp);
      pendingRequests := pendingRequests[now := requestData];
      events := events + [NewServiceRequest(requestData)];
      status := Ok;
    }

    /** POST /acknowledge-service: removes `id` if it is pending; an absent
        id is a harmless no-op that still succeeds. */
    method AcknowledgeService(id: int) returns (status: Status)
      requires Valid()
      modifies this
      ensures Valid()
      ensures status == Ok
      ensures pendingRequests == old(pendingRequests) - {id}
      ensures id !in old(pendingRequests) ==> pendingRequests == old(pendingRequests)
      ensures pendingOrders == old(pendingOrders) && events == old(events)
      ensures menuFile == old(menuFile) && ordersFile == old(ordersFile)
    {
      if id in pendingRequests {
        pendingRequests := pendingRequests - {id};
      }
      status := Ok;
    }

    /** POST /call-waiter: nothing is stored; the call is only broadcast. */
    method CallWaiter(table: string, timestamp: string) returns (status: Status)
      requires Valid()
      modifies this
      ensures Valid()
      ensures status == Ok
      ensures events == old(events) + [NewWaiterCall(table, timestamp)]
      ensures pendingOrders == old(pendingOrders) && pendingRequests == old(pendingRequests)
      ensures menuFile == old(menuFile) && ordersFile == old(ordersFile)
    {
      events := events + [NewWaiterCall(table, timestamp)];
      status := Ok;
    }

    /** POST /place-order. Without a location: 400. With a location that
        already has a pending order: 429, so a location never holds two.
        The same 429 answers a location named after an inherited object
        member ("toString", "constructor", ...), because `pendingOrders[location]`
        is truthy for it. Otherwise the order is priced from the menu, filed
        under its location and broadcast; no other location's entry changes. */
    method PlaceOrder(room: Option<string>, table: Option<string>, items: map<string, ItemEntry>,
                      now: int, timestamp: string)
      returns (status: Status)
      requires Valid()
      modifies this
      ensures Valid()
      ensures menuFile == old(menuFile) && ordersFile == old(ordersFile)
      ensures pendingRequests == old(pendingRequests)
      ensures OrderLocation(room, table).None? ==> status == BadRequest
      ensures OrderLocation(room, table).Some? && HasProperty(old(pendingOrders), OrderLocation(room, table).value) ==>
        status == Conflict
      ensures status != Ok ==> pendingOrders == old(pendingOrders) && events == old(events)
      ensures status == Ok <==>
        OrderLocation(room, table).Some? && !HasProperty(old(pendingOrders), OrderLocation(room, table).value)
      ensures status == Ok ==>
        var loc := OrderLocation(room, table).value;
        var order := Order(now, loc, LocationTypeOf(room), items, OrderTotal(old(Menu()), items), timestamp);
        && pendingOrders == old(pendingOrders)[loc := order]
        && events == old(events) + [NewOrder(order)]
      ensures forall loc :: loc in old(pendingOrders) ==>
        loc in pendingOrders && pendingOrders[loc] == old(pendingOrders)[loc]
    {
      var location := OrderLocation(room, table);
      var locationType := LocationTypeOf(room);
      if location.None? {
        return BadRequest;
      }
      if HasProperty(pendingOrders, location.value) {
        return Conflict;
      }
      var menu := Menu();
      var total := ComputeTotal(menu, items);
      var orderData := Order(now, location.value, locationType, items, total, timestamp);
      pendingOrders := pendingOrders[location.value := orderData];
      events := events + [NewOrder(orderData)];
      status := Ok;
    }

    /** POST /acknowledge-order, with the pending check made on own entries
        only (`AcknowledgeAsWritten` is the check as written). A pending
        order is appended to the ledger and, once that write has succeeded,
        removed from the pending map; a failed write leaves it pending and
        the ledger as it was. A location with nothing pending, inherited
        object members included, is 404 and changes nothing. */
    method AcknowledgeOrder(location: string, writeSucceeds: bool) returns (status: Status)
      requires Valid()
      modifies this
      ensures Valid()
      ensures menuFile == old(menuFile) && pendingRequests == old(pendingRequests) && events == old(events)
      ensures location !in old(pendingOrders) ==>
        status == NotFound && pendingOrders == old(pendingOrders) && ordersFile == old(ordersFile)
      ensures location in old(pendingOrders) && !writeSucceeds ==>
        status == ServerError && pendingOrders == old(pendingOrders) && ordersFile == old(ordersFile)
      ensures location in old(pendingOrders) && writeSucceeds ==>
        && status == Ok
        && ordersFile == Json(old(Ledger()) + [old(pendingOrders)[location]])
        && Ledger() == old(Ledger()) + [old(pendingOrders)[location]]
        && pendingOrders == old(pendingOrders) - {location}
        && location !in pendingOrders
    {
      if location in pendingOrders {
        var orderToSave := pendingOrders[location];
        var orders := Ledger();
        orders := orders + [orderToSave];
        if !writeSucceeds {
          return ServerError;
        }
        ordersFile := Json(orders);
        pendingOrders := pendingOrders - {location};
        status := Ok;
      } else {
        status := NotFound;
      }
    }

    /** GET /api/sales: reads the ledger and filters it by period. */
    method QuerySales(period: string, date: string) returns (orders: seq<Order>)
      ensures IsSubsequence(orders, Ledger())
      ensures orders == SalesFor(Ledger(), period, date)
    {
      var allOrders := Ledger();
      orders := SalesFor(allOrders, period, date);
      SalesQuery(allOrders, period, date);
    }

    /** POST /api/sales/clear: overwrites the ledger with an empty array. */
    method ClearSales(writeSucceeds: bool) returns (status: Status)
      requires Valid()
      modifies this
      ensures Valid()
      ensures pendingOrders == old(pendingOrders) && pendingRequests == old(pendingRequests)
      ensures menuFile == old(menuFile) && events == old(events)
      ensures !writeSucceeds ==> status == ServerError && ordersFile == old(ordersFile)
      ensures writeSucceeds ==> status == Ok && ordersFile == Json([]) && Ledger() == []
    {
      if !writeSucceeds {
        return ServerError;
      }
      ordersFile := Json([]);
      status := Ok;
    }
  }

  /** A ledger element as the stored document holds it after
      JSON.stringify: an order, `null` (what a function such as the
      inherited `constructor` serialises to inside an array), or `{}` (what
      Object.prototype, the value of `__proto__`, serialises to). */
  datatype LedgerEntry = Saved(order: Order) | NullEntry | EmptyObject

  /** The same orders as ledger elements. */
  function Saves(orders: seq<Order>): (r: seq<LedgerEntry>)
    ensures |r| == |orders|
    ensures forall i :: 0 <= i < |orders| ==> r[i] == Saved(orders[i])
  {
    seq(|orders|, i requires 0 <= i < |orders| => Saved(orders[i]))
  }

  /** The value `pendingOrders[location]` reads on a plain object whose own
      entries are `pending`, as it will be stored; None when it is undefined. */
  function PropertyRead(pending: map<string, Order>, location: string): (r: Option<LedgerEntry>)
    ensures r.Some? <==> HasProperty(pending, location)
    ensures location in pending ==> r == Some(Saved(pending[location]))
    ensures location !in pending && r.Some? ==> !r.value.Saved?
  {
    if location in pending then Some(Saved(pending[location]))
    else if location == "__proto__" then Some(EmptyObject)
    else if location in INHERITED_KEYS then Some(NullEntry)
    else None
  }

  datatype AckOutcome = AckOutcome(status: Status, pending: map<string, Order>, ledger: seq<LedgerEntry>)

  /** POST /acknowledge-order exactly as written: the pending check is
      `if (pendingOrders[location])`, which an inherited member passes, and
      `delete` of a property the object does not own changes nothing. */
  function AcknowledgeAsWritten(pending: map<string, Order>, ledger: seq<LedgerEntry>,
                                location: string, writeSucceeds: bool): (r: AckOutcome)
    ensures !HasProperty(pending, location) ==> r == AckOutcome(NotFound, pending, ledger)
    ensures HasProperty(pending, location) && !writeSucceeds ==> r == AckOutcome(ServerError, pending, ledger)
    ensures HasProperty(pending, location) && writeSucceeds ==>
      && r.status == Ok
      && r.ledger == ledger + [PropertyRead(pending, location).value]
      && r.pending == pending - {location}
  {
    match PropertyRead(pending, location)
    case None => AckOutcome(NotFound, pending, ledger)
    case Some(entry) =>
      if !writeSucceeds then AckOutcome(ServerError, pending, ledger)
      else AckOutcome(Ok, pending - {location}, ledger + [entry])
  }

  /** GET /api/sales as written, over a stored ledger: a period filter reads
      `o.timestamp.startsWith` on every element, which throws (500, None
      here) on a `null` or `{}` element; on a ledger of orders it is
      `SalesFor`. */
  function SalesAsWritten(ledger: seq<LedgerEntry>, period: string, date: string): (r: Option<seq<LedgerEntry>>)
    ensures r.None? <==>
      period in {"day", "month", "year"} && exists i :: 0 <= i < |ledger| && !ledger[i].Saved?
    ensures PeriodPrefix(period, date).None? ==> r == Some(ledger)
  {
    if PeriodPrefix(period, date).None? then Some(ledger)
    else if exists i :: 0 <= i < |ledger| && !ledger[i].Saved? then None
    else Some(Saves(SalesFor(seq(|ledger|, i requires 0 <= i < |ledger| => ledger[i].order), period, date)))
  }

  /** The acknowledgment as written answers 200 for a location named after
      any inherited member when nothing is pending there, stores a non-order
      in the ledger, and from then on every day, month or year sales query
      fails. */
  lemma InheritedAcknowledgeCorruptsLedger(pending: map<string, Order>, orders: seq<Order>,
                                           location: string, period: string, date: string)
    requires location in INHERITED_KEYS && location !in pending
    requires period in {"day", "month", "year"}
    ensures AcknowledgeAsWritten(pending, Saves(orders), location, true).status == Ok
    ensures AcknowledgeAsWritten(pending, Saves(orders), location, true).pending == pending
    ensures SalesAsWritten(AcknowledgeAsWritten(pending, Saves(orders), location, true).ledger, period, date).None?
  {
    var r := AcknowledgeAsWritten(pending, Saves(orders), location, true);
    assert !r.ledger[|orders|].Saved?;
  }

  /** Away from inherited member names the check as written is the
      corrected one: on a location pending in its own right, the handler as
      written does what `HotelState.AcknowledgeOrder` promises. */
  lemma AsWrittenAgreesOnPendingOrders(pending: map<string, Order>, orders: seq<Order>,
                                       location: string, writeSucceeds: bool)
    requires location in pending
    ensures AcknowledgeAsWritten(pending, Saves(orders), location, writeSucceeds) ==
      if writeSucceeds then AckOutcome(Ok, pending - {location}, Saves(orders + [pending[location]]))
      else AckOutcome(ServerError, pending, Saves(orders))
  {
    if writeSucceeds {
      assert Saves(orders) + [Saved(pending[location])] == Saves(orders + [pending[location]]);
    }
  }

  /** The concrete case: `{location: "constructor"}` with nothing pending and
      an empty ledger is answered 200, the ledger becomes `[null]`, and the
      next day query for that date is a 500; `AcknowledgeOrder` answers 404
      and leaves the ledger empty. */
  lemma ConstructorAcknowledged()
    ensures AcknowledgeAsWritten(map[], [], "constructor", true) == AckOutcome(Ok, map[], [NullEntry])
    ensures SalesAsWritten([NullEntry], "day", "2024-03-05") == None
  {
    var stored: seq<LedgerEntry> := [NullEntry];
    assert !stored[0].Saved?;
  }

  /** An example session: Tea at 250 on the menu; table 3 orders two teas
      (total 500), a second order for table 3 is a conflict, and the
      acknowledgment settles the first one into the ledger. */
  method TeaForTableThree() {
    var tea := MenuItem(1, "Tea", "ሻይ", "Drinks", 250, "uploads/tea.png", true);
    var hotel := new HotelState(Json([tea]), Json([]));
    var items := map["Tea" := ItemEntry(2, 250)];
    TotalSplits([tea], items, "Tea");
    assert items - {"Tea"} == map[];
    assert OrderLocation(None, Some("3")) == Some("3");
    var s1 := hotel.PlaceOrder(None, Some("3"), items, 1000, "2024-03-05T10:00:00.000Z");
    assert s1 == Ok;
    var placed := hotel.pendingOrders["3"];
    assert placed.total == 500 && placed.locationType == Table;
    var s2 := hotel.PlaceOrder(None, Some("3"), map["Tea" := ItemEntry(1, 250)], 1001, "2024-03-05T10:01:00.000Z");
    assert s2 == Conflict;
    var s3 := hotel.AcknowledgeOrder("3", true);
    assert s3 == Ok && hotel.Ledger() == [placed] && hotel.pendingOrders == map[];
  }
}

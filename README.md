# Armah hotel ordering: order and request state, and the guest cart

This project models the core of a small hotel/restaurant ordering service.
Guests open a menu page for a room or a table, fill a cart, and post an
order. The server keeps at most one pending order per location until staff
acknowledge it. Acknowledging moves the order into a ledger of settled
orders, which is stored as a JSON document. Staff can query and clear that
ledger, edit the menu catalog, and receive service requests.

Modules, one per part of the source:

- `Common` (common.dfy): helpers shared by both sides. It holds the option
  type, JavaScript truthiness of an optional string, `startsWith`,
  `substring(0, n)`, `includes` and ASCII `toLowerCase`. It also holds
  `filter` and `findIndex`, order-preserving subsequences, and an
  order-independent sum over the keys of a map.
- `Storage` (storage.dfy): a stored document as found by a read. It can be
  missing, blank, malformed or a JSON array. `readFileSafely` turns every
  case except the last into the empty collection.
- `Catalog` (catalog.dfy): menu records and the pure part of the admin
  menu endpoints (add, edit, availability, delete).
- `Orders` (orders.dfy): the order record, the `room || table` location
  rule, the catalog-priced total, and the period filter of the sales query.
- `Server` (server.dfy): class `HotelState`. Its fields are the pending
  order map, the pending service-request map, the stored menu and ledger
  documents, and a log of broadcast events. Each HTTP handler is a method.
  The clock readings (`Date.now()`, `toISOString()`) are parameters. So is
  the success of each file write: a failed write reports 500 and changes
  nothing. In particular `AcknowledgeOrder` keeps the order pending when
  the ledger write fails. Because the ledger is re-read leniently on every
  acknowledgment, a ledger file that has become malformed is replaced by a
  one-order ledger: `Ledger() == old(Ledger()) + [order]` holds with
  `old(Ledger()) == []`.
- `MenuClient` (menu_client.dfy): the guest page without its DOM. It
  covers the page's location, the search filter and the category headings
  of `renderMenu`. Class `Cart` holds the cart map, its add handler, its
  total loop, the projection posted to the server, and clear-on-success.
  The server's reply is a parameter.

`Server.TeaForTableThree` is an example session written against the `HotelState` contracts. It
places two teas for table 3 (total 500 minor units), is refused a second
order for the same table, and then acknowledges the first order into the
ledger.

Menu editing is a partial merge only in part. The code always
overwrites `name`, `name_am`, `category` and `price` with what the request
carries, and keeps only the other fields (server.js:144-150). `EditMenu`
states this for a request that carries all four fields. A request that
leaves one out is listed under "Left out".

The pending-order map and the cart are plain JavaScript objects, and the
code tests membership with `if (obj[key])`. That test also passes for the
member names every object inherits, such as "constructor" and "toString".
`Common.INHERITED_KEYS` lists them, and `Common.HasProperty` is the test
as written. `PlaceOrder` answers 429 for such a location. `WithAdded`
leaves the cart unchanged for such a name. The acknowledgment handler's
use of the same test is a finding, below.

## Model

| member | source | states |
|---|---|---|
| `Common.Prefix` | server.js:270 | `substring(0, n)` is clamped to the string's length and is always a prefix of it (`Common.StartsWith` is `startsWith`) |
| `Common.ContainsIffOccurs` | public/js/menu-client.js:97-98 | `includes` (`Common.Contains`) holds exactly when the term occurs at some position; the empty term occurs everywhere |
| `Common.Filter` | server.js:269-277 | a filter keeps an element exactly when it is in the input and satisfies the predicate, with its multiplicity, and never grows the sequence |
| `Common.FilterIsSubsequence` | public/js/menu-client.js:95-100 | a filter's result is an order-preserving subsequence of its input |
| `Common.FindIndex` | server.js:142 | `findIndex` returns the first position satisfying the predicate; it returns none exactly when no position does |
| `Common.SumOverRemove` | server.js:227-230 | a sum over the keys of an object does not depend on the order in which the loop visits them |
| `Common.SumOverAgree` | public/js/menu-client.js:122-124 | two per-key amount maps that agree on the keys have the same sum |
| `Storage.ReadFileSafely` | server.js:90-97 | a missing, empty or malformed document reads as the empty collection; only a well-formed one yields its records |
| `Catalog.FindByName` | server.js:228 | `menu.find` by name gives the first record with that name, and none exactly when no record has it |
| `Catalog.IndexOfId` | server.js:142 | the first position holding the id, none exactly when the id is absent |
| `Catalog.NewMenuItem` | server.js:123-131 | an added record takes the creation time as id, the upload under `uploads/` as image, and starts available |
| `Catalog.EditMenu` | server.js:142-150 | an unknown id gives 404 with no menu; otherwise only the matching record gets the new name, Amharic name, category and price; its id, image and availability are kept; every other record and the length are unchanged |
| `Catalog.SetAvailability` | server.js:161-163 | only `isAvailable` of the matching record changes; an unknown id gives no menu |
| `Catalog.DeleteById` | server.js:176 | delete removes every record carrying the id and keeps every other record with its multiplicity |
| `Catalog.DeleteKeepsOrder` | server.js:176 | the records left after a delete are in their original order |
| `Orders.OrderLocation` | server.js:211 | the location is the room when truthy, else the table when truthy; it is missing exactly when neither is truthy, and never empty (`Common.Truthy`: absent and "" are falsy) |
| `Orders.LocationTypeOf` | server.js:212 | the order is a Room order exactly when `room` is truthy |
| `Orders.ComputeTotal` | server.js:226-230 | the accumulating loop computes the order total: the sum over item names of catalog price times quantity |
| `Orders.NoItemsNoTotal` | server.js:226 | an order with no items totals 0 |
| `Orders.TotalSplits` | server.js:227-230 | taking any one item name out lowers the total by exactly that line's amount (`Orders.LineAmount`) |
| `Orders.UnknownItemIgnored` | server.js:228-229 | a name that is not on the menu contributes 0 and is not an error |
| `Orders.KnownItemPriced` | server.js:228-229 | a name on the menu contributes its first record's price times the requested quantity as its `Orders.LineAmount`; the price the guest sent is not used |
| `Orders.PeriodPrefix` | server.js:268-277 | "day" selects on the whole date, "month" on its first 7 characters, "year" on its first 4; any other period selects nothing |
| `Orders.SalesFor` | server.js:267-277 | the sales answer never has more orders than the ledger; for day, month and year it holds exactly the ledger orders whose timestamp starts with the period's prefix, each with its multiplicity; for any other period it is the whole ledger |
| `Orders.SalesQuery` | server.js:267-277 | the sales answer is an order-preserving subsequence of the ledger; for day, month and year it holds exactly the orders whose timestamp starts with the period's prefix; for other periods it is the whole ledger |
| `Orders.SalesKeepMultiplicity` | server.js:268-277 | for day, month and year each order occurs in the answer as often as in the ledger when its timestamp starts with the period's prefix, and not at all otherwise |
| `Orders.NoSalesAfterClear` | server.js:285 | after the ledger is cleared, every sales query is empty |
| `Server.HotelState.constructor` | server.js:71-72 | at start nothing is pending and nothing has been broadcast |
| `Server.HotelState.AddMenuItem` | server.js:115-137 | no upload gives 400; a failed write gives 500 and no change; otherwise the new record is appended to the menu as read |
| `Server.HotelState.EditMenuItem` | server.js:138-156 | an unknown id gives 404 with no write; a failed write gives 500 and no change; otherwise the edited menu is stored |
| `Server.HotelState.SetMenuAvailability` | server.js:157-169 | the same outcomes as edit, for the availability flag alone |
| `Server.HotelState.DeleteMenuItem` | server.js:170-182 | the filtered menu is always written, so an id that matches nothing still succeeds; a failed write gives 500 and no change |
| `Server.HotelState.SubmitServiceRequest` | server.js:183-195 | the request is filed under its creation time and broadcast once; nothing else changes |
| `Server.HotelState.AcknowledgeService` | server.js:196-202 | the id is removed if present; an absent id changes nothing; the result is success either way |
| `Server.HotelState.CallWaiter` | server.js:203-207 | a waiter call is only broadcast; no stored state changes |
| `Server.HotelState.PlaceOrder` | server.js:208-245 | no location gives 400; a location already pending, or named after an inherited object member (`Common.HasProperty`, the truthy test of server.js:218), gives 429; both leave the pending map and the events unchanged. Otherwise the order (location, type, items as sent, catalog total) is filed under its location and broadcast. No existing pending entry is ever overwritten, and every pending order stays filed under its own location |
| `Server.HotelState.AcknowledgeOrder` | server.js:246-262 | corrected: a location with nothing pending, an inherited member name included, gives 404 and changes nothing. A failed ledger write gives 500 and leaves the order pending and the ledger unchanged. Otherwise the ledger becomes the old ledger plus that order, and exactly that location leaves the pending map |
| `Server.HotelState.QuerySales` | server.js:263-282 | the answer is the period filter of the ledger as read, hence a subsequence of it |
| `Server.PropertyRead` | server.js:249-250 | `pendingOrders[location]` is defined exactly when `Common.HasProperty` holds: the location is pending or an inherited member; an inherited member reads as something other than an order |
| `Server.AcknowledgeAsWritten` | server.js:246-262 | as written: nothing readable at the location gives 404; a failed write gives 500 and no change; otherwise 200, the value read is appended to the ledger and the location is deleted |
| `Server.SalesAsWritten` | server.js:263-282 | as written over the stored ledger: a day, month or year query fails exactly when the ledger holds a non-order; any other period returns the whole ledger |
| `Server.InheritedAcknowledgeCorruptsLedger` | server.js:249-255 | as written, acknowledging an inherited member name with nothing pending there answers 200, leaves the pending map as it was, and makes every later day, month or year sales query fail |
| `Server.AsWrittenAgreesOnPendingOrders` | server.js:246-262 | on a location that has a pending order of its own, the handler as written and `AcknowledgeOrder` produce the same status, pending map and ledger |
| `Server.ConstructorAcknowledged` | server.js:249-255 | as written, `{location: "constructor"}` on an empty state answers 200 and stores `[null]`, and then a day query fails |
| `Server.HotelState.ClearSales` | server.js:283-292 | a successful clear leaves an empty ledger; a failed write changes nothing |
| `MenuClient.PageLocation` | public/js/menu-client.js:6 | the page's location is `room`, else `table`, else "N/A"; it is never empty |
| `MenuClient.PageLocationType` | public/js/menu-client.js:7 | the type is "room" exactly when `room` is truthy, else "table" |
| `MenuClient.RequestFor` | public/js/menu-client.js:142-143 | the posted body carries the items and the page's location under `room` when the room parameter is truthy, else under `table` |
| `MenuClient.LocationsAgree` | public/js/menu-client.js:142-143 | on the body the page posts, the server's room-or-table choice is the page's location, so the page never draws a 400; the server files it as a Room exactly when the page is a room page |
| `MenuClient.Search` | public/js/menu-client.js:93-100 | the search result never grows the menu and holds exactly the menu items that `MenuClient.MatchesSearch` accepts for the lower-cased input (`Common.Lower`), each with its multiplicity |
| `MenuClient.SearchKeepsMatches` | public/js/menu-client.js:92-101 | search keeps the menu's order and keeps an item exactly when its lower-cased name contains the lower-cased term or its Amharic name contains that term, with its multiplicity; an empty name never matches |
| `MenuClient.Categories` | public/js/menu-client.js:45 | the category of each item, in order |
| `MenuClient.RunCategories` | public/js/menu-client.js:44-50 | there are never more run categories than items; a non-empty menu has at least one, starting with the first item's category and ending with the last's |
| `MenuClient.RunCategoriesNoRepeats` | public/js/menu-client.js:45 | no two neighbouring run categories are equal |
| `MenuClient.RunCategoriesFromInput` | public/js/menu-client.js:46-48 | every run category is the category of some item |
| `MenuClient.RunCategoriesGrow` | public/js/menu-client.js:45-46 | one more item opens a new run exactly when its category differs from the previous one |
| `MenuClient.RunCategoriesCount` | public/js/menu-client.js:44-50 | there is one run category per position where a maximal run begins |
| `MenuClient.ShownGrow` | public/js/menu-client.js:45-50 | one more item adds its category as a heading exactly when it differs from the previous item's |
| `MenuClient.RenderHeadings` | public/js/menu-client.js:38-50 | the headings are the run categories in order, except that a first run whose category is "" gets none, because `currentCategory` starts as "" |
| `MenuClient.HeadingCount` | public/js/menu-client.js:38-50 | the number of headings is the number of maximal category runs, less one when the first run's category is "" |
| `MenuClient.WithAdded` | public/js/menu-client.js:79-87 | adding a name already in the cart raises its quantity by exactly 1 and keeps the rest of its entry; a new name enters with quantity 1 and the card's price, unless it is an inherited object member name (`Common.HasProperty`, the truthy test of line 79), which never enters; no other entry changes |
| `MenuClient.EmptyCartTotal` | public/js/menu-client.js:121 | an empty cart totals 0 |
| `MenuClient.AddRaisesTotal` | public/js/menu-client.js:79-87 | each add raises the cart total by exactly one unit price: the price already in the cart for a known name, the card's price for a new one, nothing for an inherited member name |
| `MenuClient.Projection` | public/js/menu-client.js:134-141 | the posted items have the cart's names, with quantity and price copied and the Amharic name dropped |
| `MenuClient.ServerTotalMatchesCart` | server.js:226-230 | when every cart price is the catalog price of its name, the total the server computes for the posted items equals the page's cart total |
| `MenuClient.Cart.constructor` | public/js/menu-client.js:4-8 | the page reads its query parameters once and starts with an empty cart |
| `MenuClient.Cart.Add` | public/js/menu-client.js:74-90 | the add handler updates the cart, as stated for `WithAdded` |
| `MenuClient.Cart.Total` | public/js/menu-client.js:121-124 | the accumulating loop computes the sum over entries of quantity times price |
| `MenuClient.Cart.ItemsForServer` | public/js/menu-client.js:134-141 | the loop builds a map with exactly the cart's names, each with its quantity and price |
| `MenuClient.Cart.Submit` | public/js/menu-client.js:128-159 | an empty cart sends nothing and is unchanged; otherwise the page's location and the projected items are posted; the cart is emptied only when the reply reports success, and is unchanged after a refusal or a connection error |

## Left out

- HTTP plumbing is not modelled: Express routing, response bodies and messages, `express.static` and `server.listen`. Only the status outcome is kept (200, 400, 404, 429, 500).
- Socket.IO is kept only as the `events` log of broadcasts. The replay of pending orders and requests to a dashboard on `kitchen_dashboard_ready` / `maintenance_dashboard_ready` is not modelled, since it is transport only.
- `GET /api/menu` and `GET /api/services` are not modelled: each only returns `readFileSafely` of its document. The services document is not modelled at all.
- The admin credential check (`/admin-login`) is not modelled: it is a fixed equality test.
- The multer upload is not modelled. The uploaded file's name is a parameter, and its absence is the 400 case.
- `roomCodes` / `tableCodes` are not modelled: `codeList` is computed from them but never used.
- Concurrency is not modelled. Handlers can interleave between a file read and its write, and the last writer wins; each handler here runs as one step.
- JSON encoding is not modelled, except for the `null` and `{}` elements of `Server.LedgerEntry`. A document that parses to something other than an array of records is not modelled either. That includes an array with a `null` or non-record element. A write that fails partway is modelled as leaving the file as it was.
- `Catalog.EditMenu`: takes the four edited fields as given values. In the source, a field the request leaves out becomes `undefined`, and `JSON.stringify` then drops it from the stored record. A missing price gives `NaN`, which is stored as `null`.
- Prices, quantities and totals are integers (minor units). `parseFloat`, `parseInt`, floating-point rounding and `toFixed` formatting are not modelled. Neither are `NaN` totals from a missing quantity.
- Request ids are integers for edit, availability and delete alike. The source parses the id with `parseInt` for edit and availability, but compares the raw body value with `!==` for delete. A string id therefore deletes nothing there, and the model does not capture that.
- `Server.HotelState.PlaceOrder`: the 500 path is not modelled. In the source it is reached in two ways. One is an item entry that is `null` while its name is on the menu, so `items[key].quantity` throws (server.js:229). The other is a `null` element in the menu document that `find` reaches, so `m.name` throws (server.js:228). `QuerySales` likewise assumes `date` is present.
- The `__proto__` name is modelled only as an inherited member that the presence tests pass. In the source, `cart["__proto__"].quantity++` also writes `quantity` onto Object.prototype.
- Object key order is not modelled. Loops over an object's keys pick any remaining key, and the sums are proved independent of the order.
- `toLowerCase` is modelled on ASCII letters only. Unicode case mapping is not modelled.
- The DOM is not modelled: rendering, alerts, `confirm` and the waiter-call button. `fetch` is reduced to its reply (success, refusal, or no connection).

## Findings

| source | as written | input that shows it | evidently intended | confidence | as-written member | corrected member |
|---|---|---|---|---|---|---|
| server.js:249-255 | `if (pendingOrders[location])` also passes for a member name that every object inherits. The inherited function is then pushed onto the ledger and written as `null`, and the answer is 200. The `delete` changes nothing. | POST /acknowledge-order with `{"location": "constructor"}` while nothing is pending. The ledger becomes `[null]`, and the next `GET /api/sales?period=day&date=…` answers 500. | 404 for a location with no pending order of its own, and the ledger unchanged | not executed | `Server.InheritedAcknowledgeCorruptsLedger` | `Server.HotelState.AcknowledgeOrder` |

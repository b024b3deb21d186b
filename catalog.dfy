/** The menu catalog: its records and the pure parts of the admin
    endpoints that change it (server.js, /api/menu/add|edit|availability|delete). */
module Catalog {
  import opened Common

  /** A menu record; `price` is in minor currency units. */
  datatype MenuItem = MenuItem(
    id: int,
    name: string,
    nameAm: string,
    category: string,
    price: int,
    image: string,
    isAvailable: bool)

  /** `menu.find(m => m.name === name)`: the first record with that name. */
  function FindByName(menu: seq<MenuItem>, name: string): (r: Option<MenuItem>)
    ensures r.None? <==> forall item :: item in menu ==> item.name != name
    ensures r.Some? ==> r.value.name == name
    ensures r.Some? ==> exists i :: 0 <= i < |menu| && menu[i] == r.value &&
                                    forall j :: 0 <= j < i ==> menu[j].name != name
  {
    match FindIndex(menu, (m: MenuItem) => m.name == name)
    case None => None
    case Some(i) => Some(menu[i])
  }

  /** `m.findIndex(x => x.id === id)`: the first position holding that id. */
  function IndexOfId(menu: seq<MenuItem>, id: int): (r: Option<nat>)
    ensures r.Some? ==> r.value < |menu| && menu[r.value].id == id
    ensures r.Some? ==> forall j :: 0 <= j < r.value ==> menu[j].id != id
    ensures r.None? <==> forall j :: 0 <= j < |menu| ==> menu[j].id != id
  {
    FindIndex(menu, (x: MenuItem) => x.id == id)
  }

  /** The record /api/menu/add appends: its id is the creation time, its
      image the uploaded file's name under `uploads/`, and it starts out
      available. */
  function NewMenuItem(now: int, name: string, nameAm: string, category: string,
                       price: int, fileName: string): (item: MenuItem)
    ensures item.id == now && item.isAvailable
    ensures item.name == name && item.nameAm == nameAm && item.category == category
    ensures item.price == price && item.image == "uploads/" + fileName
  {
    MenuItem(now, name, nameAm, category, price, "uploads/" + fileName, true)
  }

  /** /api/menu/edit: the first record with `id` gets the new name, Amharic
      name, category and price and keeps its id, image and availability;
      every other record is left as it was. An unknown id gives no menu. */
  function EditMenu(menu: seq<MenuItem>, id: int, name: string, nameAm: string,
                    category: string, price: int): (r: Option<seq<MenuItem>>)
    ensures r.None? <==> forall j :: 0 <= j < |menu| ==> menu[j].id != id
    ensures r.Some? ==> |r.value| == |menu|
    ensures r.Some? ==>
      var i := IndexOfId(menu, id).value;
      && r.value[i].name == name && r.value[i].nameAm == nameAm
      && r.value[i].category == category && r.value[i].price == price
      && r.value[i].id == menu[i].id && r.value[i].image == menu[i].image
      && r.value[i].isAvailable == menu[i].isAvailable
      && forall j :: 0 <= j < |menu| && j != i ==> r.value[j] == menu[j]
  {
    match IndexOfId(menu, id)
    case None => None
    case Some(i) =>
      Some(menu[i := menu[i].(name := name, nameAm := nameAm, category := category, price := price)])
  }

  /** /api/menu/availability: only `isAvailable` of the first record with
      `id` changes. An unknown id gives no menu. */
  function SetAvailability(menu: seq<MenuItem>, id: int, available: bool): (r: Option<seq<MenuItem>>)
    ensures r.None? <==> forall j :: 0 <= j < |menu| ==> menu[j].id != id
    ensures r.Some? ==> |r.value| == |menu|
    ensures r.Some? ==>
      var i := IndexOfId(menu, id).value;
      && r.value[i] == menu[i].(isAvailable := available)
      && forall j :: 0 <= j < |menu| && j != i ==> r.value[j] == menu[j]
  {
    match IndexOfId(menu, id)
    case None => None
    case Some(i) => Some(menu[i := menu[i].(isAvailable := available)])
  }

  /** /api/menu/delete: `m.filter(item => item.id !== id)`. */
  function DeleteById(menu: seq<MenuItem>, id: int): (r: seq<MenuItem>)
    ensures forall x :: x in r <==> x in menu && x.id != id
    ensures forall x :: multiset(r)[x] == if x.id == id then 0 else multiset(menu)[x]
  {
    Filter(menu, (x: MenuItem) => x.id != id)
  }

  /** Deleting keeps the remaining records in their original order. */
  lemma DeleteKeepsOrder(menu: seq<MenuItem>, id: int)
    ensures IsSubsequence(DeleteById(menu, id), menu)
  {
    FilterIsSubsequence(menu, (x: MenuItem) => x.id != id);
  }
}

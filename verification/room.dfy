/** The room's in-memory state (server/src/index.ts): connections, users,
    per-user credits and inventories, placed objects, and the fixed catalog. */
module RoomState {

  import opened Wrappers
  import opened Protocol
  import opened Grid

  const GUEST_NAME: string := "Guest"
  const WHITE: int := 0xFFFFFF
  const START_X: int := 5
  const START_Y: int := 5
  const START_CREDITS: int := 100
  const FALLBACK_ITEM_NAME: string := "Item"

  /** The purchasable item types, in lookup order. */
  const Catalog: seq<CatalogItem> := [
    CatalogItem("chair_red", "Red Chair", 5, 0xff4444),
    CatalogItem("chair_blue", "Blue Chair", 5, 0x4444ff),
    CatalogItem("table_wood", "Wooden Table", 15, 0xaa8866),
    CatalogItem("plant_green", "Small Plant", 10, 0x44aa44)
  ]

  /** Everything the server keeps: the keys of the `conns` map, `users`,
      `userCredits`, `userInventories` and `roomObjects`. */
  datatype Room = Room(
    conns: set<Id>,
    users: map<Id, UserState>,
    credits: map<Id, int>,
    inventories: map<Id, seq<Item>>,
    objects: seq<RoomObject>)

  /** The state before any connection. */
  const EmptyRoom: Room := Room({}, map[], map[], map[], [])

  /** `userCredits.get(id) ?? 0` */
  function CreditsOf(s: Room, id: Id): int {
    if id in s.credits then s.credits[id] else 0
  }

  /** `userInventories.get(id) || []` */
  function InventoryOf(s: Room, id: Id): seq<Item> {
    if id in s.inventories then s.inventories[id] else []
  }

  /** `findIndex`: the first position whose element satisfies `p`. */
  function FirstIndex<T>(s: seq<T>, p: T -> bool): (r: Option<nat>)
    ensures r.Some? ==> r.value < |s| && p(s[r.value])
    ensures r.Some? ==> forall j :: 0 <= j < r.value ==> !p(s[j])
    ensures r.None? <==> forall j :: 0 <= j < |s| ==> !p(s[j])
  {
    if s == [] then None
    else if p(s[0]) then Some(0)
    else match FirstIndex(s[1..], p)
      case None => None
      case Some(i) => Some(i + 1)
  }

  /** Position of the first inventory item with id `id`. */
  function ItemIndex(inv: seq<Item>, id: Id): Option<nat> {
    FirstIndex(inv, (it: Item) => it.id == id)
  }

  /** Position of the first room object with instance id `id`. */
  function ObjectIndex(objs: seq<RoomObject>, id: Id): Option<nat> {
    FirstIndex(objs, (o: RoomObject) => o.instanceId == id)
  }

  /** `catalog.find(c => c.id === id)` */
  function FindCatalog(id: string): (r: Option<CatalogItem>)
    ensures r.Some? ==> r.value in Catalog && r.value.id == id
    ensures r.None? <==> forall c :: c in Catalog ==> c.id != id
  {
    match FirstIndex(Catalog, (c: CatalogItem) => c.id == id)
    case None => None
    case Some(i) => Some(Catalog[i])
  }

  /** `catalog.find(c => c.id === typeId)?.name || "Item"` */
  function CatalogName(typeId: string): (name: string)
    ensures name != []
    ensures FindCatalog(typeId).None? ==> name == FALLBACK_ITEM_NAME
    ensures FindCatalog(typeId).Some? && FindCatalog(typeId).value.name != [] ==> name == FindCatalog(typeId).value.name
  {
    match FindCatalog(typeId)
    case Some(c) => if c.name != [] then c.name else FALLBACK_ITEM_NAME
    case None => FALLBACK_ITEM_NAME
  }

  /** The ids of a sequence of inventory items, in order. */
  function ItemIds(inv: seq<Item>): seq<Id> {
    seq(|inv|, i requires 0 <= i < |inv| => inv[i].id)
  }

  /** The instance ids of a sequence of room objects, in order. */
  function ObjectIds(objs: seq<RoomObject>): seq<Id> {
    seq(|objs|, i requires 0 <= i < |objs| => objs[i].instanceId)
  }

  /** What every reachable state satisfies: each connection has exactly one
      user record, filed under its own id and standing on the map, and a
      stored balance and inventory; no balance is negative; every placed
      object stands on the map. */
  predicate Inv(s: Room) {
    && s.users.Keys == s.conns
    && s.users.Keys <= s.credits.Keys
    && s.users.Keys <= s.inventories.Keys
    && (forall id :: id in s.users ==> s.users[id].id == id)
    && (forall id :: id in s.users ==> OnGrid(s.users[id].x, s.users[id].y))
    && (forall id :: id in s.credits ==> s.credits[id] >= 0)
    && (forall i :: 0 <= i < |s.objects| ==> OnGrid(s.objects[i].x, s.objects[i].y))
  }

  lemma EmptyRoomInv()
    ensures Inv(EmptyRoom)
  {
  }

  /** Every catalog entry is found under its own id, at a positive cost. */
  lemma CatalogLookup()
    ensures forall c :: c in Catalog ==> FindCatalog(c.id) == Some(c) && c.cost > 0
  {
    forall c | c in Catalog
      ensures FindCatalog(c.id) == Some(c)
    {
      assert FirstIndex(Catalog, (e: CatalogItem) => e.id == c.id).Some?;
    }
  }
}

/** The message vocabulary and records shared by server and clients
    (server/src/protocol.ts). Ids are opaque strings; coordinates sent by a
    client are arbitrary numbers (`real`), coordinates sent by the server are
    tile integers; colours and timestamps are integers. */
module Protocol {

  type Id = string

  datatype UserState = UserState(id: Id, name: string, color: int, x: int, y: int)

  /** An inventory entry: an object held by a user. */
  datatype Item = Item(id: Id, typeId: string, name: string)

  /** An object placed in the room; `instanceId` is the id it had (and will
      have again) as an inventory item. */
  datatype RoomObject = RoomObject(instanceId: Id, typeId: string, x: int, y: int)

  datatype CatalogItem = CatalogItem(id: string, name: string, cost: int, color: int)

  /** Commands a client sends. */
  datatype ClientMsg =
    | Join(name: string, color: int)
    | Move(x: real, y: real)
    | Chat(text: string)
    | BuyItem(catalogId: string)
    | PlaceItem(itemId: Id, x: real, y: real)
    | MoveFurni(instanceId: Id, x: real, y: real)
    | PickupFurni(instanceId: Id)

  /** Messages the server sends. */
  datatype ServerMsg =
    | Welcome(id: Id, users: map<Id, UserState>, credits: int, inventory: seq<Item>, roomObjects: seq<RoomObject>)
    | UserJoined(id: Id, user: UserState)
    | UserLeft(id: Id)
    | UserMoved(id: Id, x: int, y: int)
    | ChatLine(id: Id, name: string, text: string, ts: int)
    | UpdateCredits(credits: int)
    | SyncInventory(items: seq<Item>)
    | FurniPlaced(object: RoomObject)
    | FurniMoved(instanceId: Id, x: int, y: int)
    | FurniPickedUp(instanceId: Id)
}

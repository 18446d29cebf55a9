/** The room server's event handlers (server/src/index.ts) as one pure
    transition: a state, the id of the connection an event concerns and the
    event give the next state and the ordered outbox of addressed messages.
    The ids `uid()` would draw and the clock `Date.now()` are parameters. */
module Server {

  import opened Wrappers
  import opened Protocol
  import opened Grid
  import opened Text
  import opened RoomState
  import opened Router

  const MAX_NAME: nat := 24
  const MAX_CHAT: nat := 200

  /** An inbound frame: a well-formed command, or anything the handler drops
      (unparseable JSON, a missing or unknown `type`, fields of the wrong
      type that throw before any state is touched). */
  datatype Payload = Command(msg: ClientMsg) | Unreadable

  datatype Event = Connect | Receive(payload: Payload) | Disconnect

  datatype Transition = Transition(next: Room, outbox: seq<Envelope>)

  /** The name `join` stores: the trimmed input cut to 24 characters, or
      "Guest" when nothing is left. */
  function DisplayName(raw: string): (name: string)
    ensures 0 < |name| <= MAX_NAME
    ensures AllSpace(raw) ==> name == GUEST_NAME
    ensures !AllSpace(raw) ==> |name| == if |Trim(raw)| <= MAX_NAME then |Trim(raw)| else MAX_NAME
    ensures !AllSpace(raw) ==> name == Trim(raw)[..|name|] && !IsSpace(name[0])
  {
    var t := Take(Trim(raw), MAX_NAME);
    if t != [] then t else GUEST_NAME
  }

  /** `msg.color || 0xFFFFFF` */
  function JoinColor(color: int): (c: int)
    ensures c != 0
    ensures color != 0 ==> c == color
    ensures color == 0 ==> c == WHITE
  {
    if color != 0 then color else WHITE
  }

  /** The chat text broadcast: trimmed, cut to 200 characters. */
  function ChatText(raw: string): (text: string)
    ensures |text| <= MAX_CHAT
    ensures text == [] <==> AllSpace(raw)
    ensures |text| == if |Trim(raw)| <= MAX_CHAT then |Trim(raw)| else MAX_CHAT
    ensures text == Trim(raw)[..|text|]
  {
    Take(Trim(raw), MAX_CHAT)
  }

  /** Connection open: a default user, 100 credits, an empty inventory, and a
      `welcome` with the snapshot of the room for the newcomer alone. */
  function OnConnect(s: Room, id: Id): Transition {
    var user := UserState(id, GUEST_NAME, WHITE, START_X, START_Y);
    var s' := s.(conns := s.conns + {id},
                 users := s.users[id := user],
                 credits := s.credits[id := START_CREDITS],
                 inventories := s.inventories[id := []]);
    Transition(s', [Envelope(ToSender, Welcome(id, s'.users, CreditsOf(s', id), InventoryOf(s', id), s'.objects))])
  }

  function OnJoin(s: Room, id: Id, me: UserState, name: string, color: int): Transition {
    var me' := me.(name := DisplayName(name), color := JoinColor(color));
    Transition(s.(users := s.users[id := me']), [Envelope(ToOthers, UserJoined(id, me'))])
  }

  function OnMove(s: Room, id: Id, me: UserState, x: real, y: real): Transition {
    var t := ClampGrid(x, y);
    Transition(s.(users := s.users[id := me.(x := t.x, y := t.y)]),
               [Envelope(ToEveryone, UserMoved(id, t.x, t.y))])
  }

  function OnChat(s: Room, id: Id, me: UserState, raw: string, now: int): Transition {
    var text := ChatText(raw);
    if text == [] then Transition(s, [])
    else Transition(s, [Envelope(ToEveryone, ChatLine(id, me.name, text, now))])
  }

  function OnBuy(s: Room, id: Id, catalogId: string, newItemId: Id): Transition {
    match FindCatalog(catalogId)
    case None => Transition(s, [])
    case Some(def) =>
      var credits := CreditsOf(s, id);
      if credits >= def.cost then
        var inv := InventoryOf(s, id) + [Item(newItemId, def.id, def.name)];
        Transition(s.(credits := s.credits[id := credits - def.cost],
                      inventories := s.inventories[id := inv]),
                   [Envelope(ToSender, UpdateCredits(credits - def.cost)),
                    Envelope(ToSender, SyncInventory(inv))])
      else
        Transition(s, [])
  }

  function OnPlace(s: Room, id: Id, itemId: Id, x: real, y: real): Transition {
    var inv := InventoryOf(s, id);
    match ItemIndex(inv, itemId)
    case None => Transition(s, [])
    case Some(i) =>
      var item := inv[i];
      var inv' := inv[..i] + inv[i + 1..];
      var t := ClampGrid(x, y);
      var obj := RoomObject(item.id, item.typeId, t.x, t.y);
      Transition(s.(inventories := s.inventories[id := inv'], objects := s.objects + [obj]),
                 [Envelope(ToSender, SyncInventory(inv')), Envelope(ToEveryone, FurniPlaced(obj))])
  }

  function OnMoveFurni(s: Room, instanceId: Id, x: real, y: real): Transition {
    match ObjectIndex(s.objects, instanceId)
    case None => Transition(s, [])
    case Some(i) =>
      var t := ClampGrid(x, y);
      var obj := s.objects[i].(x := t.x, y := t.y);
      Transition(s.(objects := s.objects[i := obj]),
                 [Envelope(ToEveryone, FurniMoved(obj.instanceId, t.x, t.y))])
  }

  /** The picked-up item is pushed onto the stored inventory array; when the
      user has none stored, the pushed-to fallback array is discarded. */
  function OnPickup(s: Room, id: Id, instanceId: Id): Transition {
    match ObjectIndex(s.objects, instanceId)
    case None => Transition(s, [])
    case Some(i) =>
      var obj := s.objects[i];
      var inv := InventoryOf(s, id) + [Item(obj.instanceId, obj.typeId, CatalogName(obj.typeId))];
      var invs := if id in s.inventories then s.inventories[id := inv] else s.inventories;
      Transition(s.(inventories := invs, objects := s.objects[..i] + s.objects[i + 1..]),
                 [Envelope(ToSender, SyncInventory(inv)), Envelope(ToEveryone, FurniPickedUp(obj.instanceId))])
  }

  /** The `message` handler: unreadable frames and frames from a connection
      without a user record are dropped. */
  function OnMessage(s: Room, id: Id, p: Payload, newItemId: Id, now: int): Transition {
    if p.Unreadable? || id !in s.users then Transition(s, [])
    else
      var me := s.users[id];
      match p.msg
      case Join(name, color) => OnJoin(s, id, me, name, color)
      case Move(x, y) => OnMove(s, id, me, x, y)
      case Chat(text) => OnChat(s, id, me, text, now)
      case BuyItem(catalogId) => OnBuy(s, id, catalogId, newItemId)
      case PlaceItem(itemId, x, y) => OnPlace(s, id, itemId, x, y)
      case MoveFurni(instanceId, x, y) => OnMoveFurni(s, instanceId, x, y)
      case PickupFurni(instanceId) => OnPickup(s, id, instanceId)
  }

  /** The `close` handler: forget the connection and its user, then tell the
      connections that remain. Credits and inventory stay stored. */
  function OnClose(s: Room, id: Id): Transition {
    var s' := s.(conns := s.conns - {id}, users := s.users - {id});
    Transition(s', [Envelope(ToEveryone, UserLeft(id))])
  }

  /** One event, handled to completion. `newItemId` is the id `uid()` would
      return for a purchase; `now` is `Date.now()`. */
  function Step(s: Room, sender: Id, ev: Event, newItemId: Id, now: int): Transition {
    match ev
    case Connect => OnConnect(s, sender)
    case Receive(p) => OnMessage(s, sender, p, newItemId, now)
    case Disconnect => OnClose(s, sender)
  }

  /** The messages connection `who` receives from one step; every envelope
      is addressed against the connections open after the step, which are
      the ones open when the source sends it. */
  function Inbox(s: Room, sender: Id, ev: Event, newItemId: Id, now: int, who: Id): seq<ServerMsg> {
    var t := Step(s, sender, ev, newItemId, now);
    Delivered(t.outbox, sender, t.next.conns, who)
  }
}

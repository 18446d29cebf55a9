/** What each user-facing command does to the room and whom it tells:
    `join`, `move`, `chat` and `buy_item`. */
module CommandProps {

  import opened Wrappers
  import opened Protocol
  import opened Grid
  import opened Text
  import opened RoomState
  import opened Router
  import opened Server

  function Cmd(m: ClientMsg): Event {
    Receive(Command(m))
  }

  /** A step that emits one envelope delivers its message once to each
      connection the envelope addresses, and nothing to anyone else. */
  lemma InboxOfOne(s: Room, id: Id, ev: Event, n: Id, now: int, e: Envelope)
    requires Step(s, id, ev, n, now).outbox == [e]
    ensures forall who :: (Inbox(s, id, ev, n, now, who) ==
      if who in Recipients(e.to, id, Step(s, id, ev, n, now).next.conns) then [e.msg] else [])
  {
    var t := Step(s, id, ev, n, now);
    forall who ensures Inbox(s, id, ev, n, now, who) ==
      if who in Recipients(e.to, id, t.next.conns) then [e.msg] else []
    {
      DeliveredSingle(e, id, t.next.conns, who);
    }
  }

  /** A step that keeps the connections and emits one envelope to everyone
      but the sender delivers it once to each other open connection, and to
      the sender too when the sender's id is empty. */
  lemma InboxOfOthers(s: Room, id: Id, ev: Event, n: Id, now: int, m: ServerMsg)
    requires Step(s, id, ev, n, now).outbox == [Envelope(ToOthers, m)]
    requires Step(s, id, ev, n, now).next.conns == s.conns
    ensures forall who :: (Inbox(s, id, ev, n, now, who) ==
      if who in s.conns && (who != id || id == "") then [m] else [])
  {
    InboxOfOne(s, id, ev, n, now, Envelope(ToOthers, m));
  }

  /** A step that emits two envelopes to the sender delivers both to the
      sender, in order, and nothing to anyone else. */
  lemma InboxOfTwoToSender(s: Room, id: Id, ev: Event, n: Id, now: int, m1: ServerMsg, m2: ServerMsg)
    requires Step(s, id, ev, n, now).outbox == [Envelope(ToSender, m1), Envelope(ToSender, m2)]
    ensures forall who :: Inbox(s, id, ev, n, now, who) == if who == id then [m1, m2] else []
  {
    var t := Step(s, id, ev, n, now);
    var e1, e2 := Envelope(ToSender, m1), Envelope(ToSender, m2);
    assert t.outbox == [e1] + [e2];
    forall who ensures Inbox(s, id, ev, n, now, who) == if who == id then [m1, m2] else [] {
      DeliveredAppend([e1], [e2], id, t.next.conns, who);
      DeliveredSingle(e1, id, t.next.conns, who);
      DeliveredSingle(e2, id, t.next.conns, who);
    }
  }

  /** A step that emits one envelope to the sender and then one to everyone
      delivers the first to the sender alone and the second to every open
      connection, the sender's two in that order. */
  lemma InboxOfSenderThenEveryone(s: Room, id: Id, ev: Event, n: Id, now: int, m1: ServerMsg, m2: ServerMsg)
    requires Step(s, id, ev, n, now).outbox == [Envelope(ToSender, m1), Envelope(ToEveryone, m2)]
    ensures forall who :: (Inbox(s, id, ev, n, now, who) ==
      (if who == id then [m1] else []) + (if who in Step(s, id, ev, n, now).next.conns then [m2] else []))
  {
    var t := Step(s, id, ev, n, now);
    var e1, e2 := Envelope(ToSender, m1), Envelope(ToEveryone, m2);
    assert t.outbox == [e1] + [e2];
    forall who ensures Inbox(s, id, ev, n, now, who) ==
      (if who == id then [m1] else []) + (if who in t.next.conns then [m2] else [])
    {
      DeliveredAppend([e1], [e2], id, t.next.conns, who);
      DeliveredSingle(e1, id, t.next.conns, who);
      DeliveredSingle(e2, id, t.next.conns, who);
    }
  }

  /** `join` sets the sender's name (trimmed, at most 24 characters, "Guest"
      when blank) and colour (white when 0), keeps its position, changes
      nothing else, and announces the updated record to every other
      connection. */
  lemma JoinSpec(s: Room, id: Id, name: string, color: int, n: Id, now: int)
    requires id in s.users
    ensures var t := Step(s, id, Cmd(Join(name, color)), n, now);
      var u := s.users[id];
      && t.next == s.(users := t.next.users)
      && t.next.users.Keys == s.users.Keys
      && (forall k :: k in s.users && k != id ==> t.next.users[k] == s.users[k])
      && t.next.users[id].name == DisplayName(name)
      && t.next.users[id].color == JoinColor(color)
      && t.next.users[id].id == u.id && t.next.users[id].x == u.x && t.next.users[id].y == u.y
      && t.outbox == [Envelope(ToOthers, UserJoined(id, t.next.users[id]))]
  {
    var t := Step(s, id, Cmd(Join(name, color)), n, now);
    assert t == OnJoin(s, id, s.users[id], name, color);
  }

  /** The updated record reaches every connection except the sender; a
      sender whose id is empty is not excluded. */
  lemma JoinDelivery(s: Room, id: Id, name: string, color: int, n: Id, now: int)
    requires id in s.users
    ensures var m := UserJoined(id, Step(s, id, Cmd(Join(name, color)), n, now).next.users[id]);
      forall who :: Inbox(s, id, Cmd(Join(name, color)), n, now, who) ==
                    if who in s.conns && (who != id || id == "") then [m] else []
  {
    JoinSpec(s, id, name, color, n, now);
    var t := Step(s, id, Cmd(Join(name, color)), n, now);
    InboxOfOthers(s, id, Cmd(Join(name, color)), n, now, UserJoined(id, t.next.users[id]));
  }

  /** `move` puts the sender on the clamped tile, which is on the map, and
      tells every connection, the sender included. */
  lemma MoveSpec(s: Room, id: Id, x: real, y: real, n: Id, now: int)
    requires id in s.users
    ensures var t := Step(s, id, Cmd(Move(x, y)), n, now);
      var u := s.users[id];
      var tile := ClampGrid(x, y);
      && t.next == s.(users := s.users[id := u.(x := tile.x, y := tile.y)])
      && OnGrid(t.next.users[id].x, t.next.users[id].y)
      && t.outbox == [Envelope(ToEveryone, UserMoved(id, tile.x, tile.y))]
  {
    var t := Step(s, id, Cmd(Move(x, y)), n, now);
    assert t == OnMove(s, id, s.users[id], x, y);
  }

  /** Every connection, the sender included, hears of the move. */
  lemma MoveDelivery(s: Room, id: Id, x: real, y: real, n: Id, now: int)
    requires id in s.users
    ensures var m := UserMoved(id, ClampGrid(x, y).x, ClampGrid(x, y).y);
      forall who :: Inbox(s, id, Cmd(Move(x, y)), n, now, who) == if who in s.conns then [m] else []
  {
    MoveSpec(s, id, x, y, n, now);
    var t := Step(s, id, Cmd(Move(x, y)), n, now);
    InboxOfOne(s, id, Cmd(Move(x, y)), n, now, t.outbox[0]);
  }

  /** `chat` never changes the room. A blank text sends nothing; any other
      text goes to every connection with the sender's current name and the
      trimmed text cut to 200 characters. */
  lemma ChatSpec(s: Room, id: Id, text: string, n: Id, now: int)
    requires id in s.users
    ensures var t := Step(s, id, Cmd(Chat(text)), n, now);
      && t.next == s
      && (t.outbox == [] <==> AllSpace(text))
      && (!AllSpace(text) ==> t.outbox == [Envelope(ToEveryone, ChatLine(id, s.users[id].name, ChatText(text), now))])
  {
    var t := Step(s, id, Cmd(Chat(text)), n, now);
    assert t == OnChat(s, id, s.users[id], text, now);
  }

  /** A non-blank line reaches every connection, the sender included. */
  lemma ChatDelivery(s: Room, id: Id, text: string, n: Id, now: int)
    requires id in s.users && !AllSpace(text)
    ensures var m := ChatLine(id, s.users[id].name, ChatText(text), now);
      forall who :: Inbox(s, id, Cmd(Chat(text)), n, now, who) == if who in s.conns then [m] else []
  {
    ChatSpec(s, id, text, n, now);
    var t := Step(s, id, Cmd(Chat(text)), n, now);
    InboxOfOne(s, id, Cmd(Chat(text)), n, now, t.outbox[0]);
  }

  /** Whether `buy_item` with `catalogId` goes through: the id names a
      catalog entry and the sender can afford it. */
  predicate CanBuy(s: Room, id: Id, catalogId: string) {
    FindCatalog(catalogId).Some? && CreditsOf(s, id) >= FindCatalog(catalogId).value.cost
  }

  /** A `buy_item` for an unknown catalog id, or one the sender cannot
      afford, changes nothing and sends nothing. */
  lemma BuyRejects(s: Room, id: Id, catalogId: string, n: Id, now: int)
    requires id in s.users && !CanBuy(s, id, catalogId)
    ensures Step(s, id, Cmd(BuyItem(catalogId)), n, now) == Transition(s, [])
  {
    assert Step(s, id, Cmd(BuyItem(catalogId)), n, now) == OnBuy(s, id, catalogId, n);
  }

  /** A `buy_item` the sender can afford debits the entry's cost (leaving a
      non-negative balance), appends one item with the entry's type and name
      and the fresh id, changes nothing else, and sends the new balance and
      then the new inventory to the sender. */
  lemma BuySpec(s: Room, id: Id, catalogId: string, n: Id, now: int)
    requires id in s.users && CanBuy(s, id, catalogId)
    ensures var t := Step(s, id, Cmd(BuyItem(catalogId)), n, now);
      var def := FindCatalog(catalogId).value;
      var inv := InventoryOf(s, id) + [Item(n, def.id, def.name)];
      && def.id == catalogId
      && CreditsOf(t.next, id) == CreditsOf(s, id) - def.cost >= 0
      && InventoryOf(t.next, id) == inv
      && t.next.conns == s.conns && t.next.users == s.users && t.next.objects == s.objects
      && (forall k :: k != id ==> CreditsOf(t.next, k) == CreditsOf(s, k))
      && (forall k :: k != id ==> InventoryOf(t.next, k) == InventoryOf(s, k))
      && t.outbox == [Envelope(ToSender, UpdateCredits(CreditsOf(t.next, id))), Envelope(ToSender, SyncInventory(inv))]
  {
    var t := Step(s, id, Cmd(BuyItem(catalogId)), n, now);
    assert t == OnBuy(s, id, catalogId, n);
    var def := FindCatalog(catalogId).value;
    var c := CreditsOf(s, id) - def.cost;
    var inv := InventoryOf(s, id) + [Item(n, def.id, def.name)];
    assert t.next == s.(credits := s.credits[id := c], inventories := s.inventories[id := inv]);
    assert t.outbox == [Envelope(ToSender, UpdateCredits(c)), Envelope(ToSender, SyncInventory(inv))];
  }

  /** After a purchase the sender alone receives the new balance and then
      the new inventory. */
  lemma BuyDelivery(s: Room, id: Id, catalogId: string, n: Id, now: int)
    requires id in s.users && CanBuy(s, id, catalogId)
    ensures var def := FindCatalog(catalogId).value;
      var msgs := [UpdateCredits(CreditsOf(s, id) - def.cost), SyncInventory(InventoryOf(s, id) + [Item(n, def.id, def.name)])];
      forall who :: Inbox(s, id, Cmd(BuyItem(catalogId)), n, now, who) == if who == id then msgs else []
  {
    BuySpec(s, id, catalogId, n, now);
    var t := Step(s, id, Cmd(BuyItem(catalogId)), n, now);
    InboxOfTwoToSender(s, id, Cmd(BuyItem(catalogId)), n, now, t.outbox[0].msg, t.outbox[1].msg);
  }

  /** Buying a red chair with the starting 100 credits leaves 95 and one
      red chair in the inventory. */
  lemma BuyRedChairExample(s: Room, id: Id, n: Id, now: int)
    requires id in s.users && CreditsOf(s, id) == START_CREDITS && InventoryOf(s, id) == []
    ensures var t := Step(s, id, Cmd(BuyItem("chair_red")), n, now);
      CreditsOf(t.next, id) == 95 && InventoryOf(t.next, id) == [Item(n, "chair_red", "Red Chair")]
  {
    CatalogLookup();
    assert Catalog[0] in Catalog;
    BuySpec(s, id, "chair_red", n, now);
  }
}

/** What the furniture commands do: `place_item`, `move_furni` and
    `pickup_furni`, and how they combine. */
module FurniProps {

  import opened Wrappers
  import opened Protocol
  import opened Grid
  import opened RoomState
  import opened Router
  import opened Server
  import opened CommandProps

  /** Removing the element at `i` takes exactly that element out of the
      multiset. */
  lemma RemoveAt<T>(s: seq<T>, i: nat)
    requires i < |s|
    ensures multiset(s[..i] + s[i + 1..]) + multiset{s[i]} == multiset(s)
  {
    assert s == s[..i] + [s[i]] + s[i + 1..];
  }

  lemma ItemIdsRemoveAt(inv: seq<Item>, i: nat)
    requires i < |inv|
    ensures ItemIds(inv[..i] + inv[i + 1..]) == ItemIds(inv)[..i] + ItemIds(inv)[i + 1..]
  {
  }

  lemma ObjectIdsRemoveAt(objs: seq<RoomObject>, i: nat)
    requires i < |objs|
    ensures ObjectIds(objs[..i] + objs[i + 1..]) == ObjectIds(objs)[..i] + ObjectIds(objs)[i + 1..]
  {
  }

  /** Moving the element at `i` of `b` to the end of `a` keeps the two
      sequences' combined multiset. */
  lemma MoveBetween<T>(a: seq<T>, b: seq<T>, i: nat)
    requires i < |b|
    ensures multiset(a + [b[i]]) + multiset(b[..i] + b[i + 1..]) == multiset(a) + multiset(b)
  {
    RemoveAt(b, i);
  }

  /** Moving the element at `i` of `a` to the end of `b` keeps the two
      sequences' combined multiset. */
  lemma MoveOut<T>(a: seq<T>, b: seq<T>, i: nat)
    requires i < |a|
    ensures multiset(a[..i] + a[i + 1..]) + multiset(b + [a[i]]) == multiset(a) + multiset(b)
  {
    RemoveAt(a, i);
  }

  /** The ids a user holds together with the ids standing in the room. */
  function HeldAndPlaced(s: Room, id: Id): multiset<Id> {
    multiset(ItemIds(InventoryOf(s, id))) + multiset(ObjectIds(s.objects))
  }

  /** `place_item` with an id the sender does not hold changes nothing and
      sends nothing. */
  lemma PlaceUnknownIgnored(s: Room, id: Id, itemId: Id, x: real, y: real, n: Id, now: int)
    requires id in s.users && ItemIndex(InventoryOf(s, id), itemId).None?
    ensures Step(s, id, Cmd(PlaceItem(itemId, x, y)), n, now) == Transition(s, [])
  {
    assert Step(s, id, Cmd(PlaceItem(itemId, x, y)), n, now) == OnPlace(s, id, itemId, x, y);
  }

  /** `place_item` with an id the sender holds takes exactly the first item
      with that id out of the inventory and adds one object with the same id
      and type on the clamped tile, changing nothing else. The new inventory
      goes to the sender, then the object to every connection. */
  lemma PlaceSpec(s: Room, id: Id, itemId: Id, x: real, y: real, n: Id, now: int)
    requires id in s.users && ItemIndex(InventoryOf(s, id), itemId).Some?
    ensures var t := Step(s, id, Cmd(PlaceItem(itemId, x, y)), n, now);
      var inv := InventoryOf(s, id);
      var i := ItemIndex(inv, itemId).value;
      var tile := ClampGrid(x, y);
      var obj := RoomObject(itemId, inv[i].typeId, tile.x, tile.y);
      && i < |inv| && inv[i].id == itemId
      && (forall j :: 0 <= j < i ==> inv[j].id != itemId)
      && id in t.next.inventories
      && InventoryOf(t.next, id) == inv[..i] + inv[i + 1..]
      && multiset(InventoryOf(t.next, id)) + multiset{inv[i]} == multiset(inv)
      && t.next.objects == s.objects + [obj]
      && OnGrid(obj.x, obj.y)
      && t.next.conns == s.conns && t.next.users == s.users && t.next.credits == s.credits
      && (forall k :: k != id ==> InventoryOf(t.next, k) == InventoryOf(s, k))
      && t.outbox == [Envelope(ToSender, SyncInventory(InventoryOf(t.next, id))), Envelope(ToEveryone, FurniPlaced(obj))]
  {
    var t := Step(s, id, Cmd(PlaceItem(itemId, x, y)), n, now);
    assert t == OnPlace(s, id, itemId, x, y);
    var inv := InventoryOf(s, id);
    var i := ItemIndex(inv, itemId).value;
    var tile := ClampGrid(x, y);
    var obj := RoomObject(itemId, inv[i].typeId, tile.x, tile.y);
    var inv' := inv[..i] + inv[i + 1..];
    assert t.next == s.(inventories := s.inventories[id := inv'], objects := s.objects + [obj]);
    RemoveAt(inv, i);
  }

  /** Placing moves an id from the sender's hands into the room: the ids
      held plus the ids placed, and so the inventory length plus the object
      count, are unchanged. */
  lemma PlaceConservesIds(s: Room, id: Id, itemId: Id, x: real, y: real, n: Id, now: int)
    requires id in s.users && ItemIndex(InventoryOf(s, id), itemId).Some?
    ensures var t := Step(s, id, Cmd(PlaceItem(itemId, x, y)), n, now);
      && HeldAndPlaced(t.next, id) == HeldAndPlaced(s, id)
      && |InventoryOf(t.next, id)| + |t.next.objects| == |InventoryOf(s, id)| + |s.objects|
  {
    PlaceSpec(s, id, itemId, x, y, n, now);
    var t := Step(s, id, Cmd(PlaceItem(itemId, x, y)), n, now);
    var inv := InventoryOf(s, id);
    var i := ItemIndex(inv, itemId).value;
    var held := ItemIds(inv);
    var placed := ObjectIds(s.objects);
    ItemIdsRemoveAt(inv, i);
    assert ItemIds(InventoryOf(t.next, id)) == held[..i] + held[i + 1..];
    assert ObjectIds(t.next.objects) == placed + [held[i]];
    MoveOut(held, placed, i);
  }

  /** A successful `place_item` sends the new inventory to the sender alone
      and the new object to every connection; the sender gets the inventory
      first. */
  lemma PlaceDelivery(s: Room, id: Id, itemId: Id, x: real, y: real, n: Id, now: int)
    requires id in s.users && ItemIndex(InventoryOf(s, id), itemId).Some?
    ensures var t := Step(s, id, Cmd(PlaceItem(itemId, x, y)), n, now);
      var obj := t.next.objects[|t.next.objects| - 1];
      forall who :: (Inbox(s, id, Cmd(PlaceItem(itemId, x, y)), n, now, who) ==
        (if who == id then [SyncInventory(InventoryOf(t.next, id))] else [])
        + (if who in s.conns then [FurniPlaced(obj)] else []))
  {
    PlaceSpec(s, id, itemId, x, y, n, now);
    var t := Step(s, id, Cmd(PlaceItem(itemId, x, y)), n, now);
    InboxOfSenderThenEveryone(s, id, Cmd(PlaceItem(itemId, x, y)), n, now, t.outbox[0].msg, t.outbox[1].msg);
  }

  /** `move_furni` with an id not in the room changes nothing and sends
      nothing. */
  lemma MoveFurniUnknownIgnored(s: Room, id: Id, iid: Id, x: real, y: real, n: Id, now: int)
    requires id in s.users && ObjectIndex(s.objects, iid).None?
    ensures Step(s, id, Cmd(MoveFurni(iid, x, y)), n, now) == Transition(s, [])
  {
    assert Step(s, id, Cmd(MoveFurni(iid, x, y)), n, now) == OnMoveFurni(s, iid, x, y);
  }

  /** `move_furni` on a placed id moves the first object with that id to the
      clamped tile and changes nothing else; every connection hears of it. */
  lemma MoveFurniSpec(s: Room, id: Id, iid: Id, x: real, y: real, n: Id, now: int)
    requires id in s.users && ObjectIndex(s.objects, iid).Some?
    ensures var t := Step(s, id, Cmd(MoveFurni(iid, x, y)), n, now);
      var i := ObjectIndex(s.objects, iid).value;
      var tile := ClampGrid(x, y);
      && i < |s.objects| && s.objects[i].instanceId == iid
      && t.next == s.(objects := t.next.objects)
      && |t.next.objects| == |s.objects|
      && (forall j :: 0 <= j < |s.objects| && j != i ==> t.next.objects[j] == s.objects[j])
      && t.next.objects[i] == s.objects[i].(x := tile.x, y := tile.y)
      && OnGrid(t.next.objects[i].x, t.next.objects[i].y)
      && t.outbox == [Envelope(ToEveryone, FurniMoved(iid, tile.x, tile.y))]
  {
    var t := Step(s, id, Cmd(MoveFurni(iid, x, y)), n, now);
    assert t == OnMoveFurni(s, iid, x, y);
  }

  /** `pickup_furni` with an id not in the room changes nothing and sends
      nothing. */
  lemma PickupUnknownIgnored(s: Room, id: Id, iid: Id, n: Id, now: int)
    requires id in s.users && ObjectIndex(s.objects, iid).None?
    ensures Step(s, id, Cmd(PickupFurni(iid)), n, now) == Transition(s, [])
  {
    assert Step(s, id, Cmd(PickupFurni(iid)), n, now) == OnPickup(s, id, iid);
  }

  /** `pickup_furni` on a placed id removes the first object with that id
      and appends to the sender's stored inventory an item with the object's
      id and type, named from the catalog ("Item" for an unknown type). The
      inventory goes to the sender, then the removal to every connection. A
      sender with no stored inventory gets the one-item list but nothing is
      stored. */
  lemma PickupSpec(s: Room, id: Id, iid: Id, n: Id, now: int)
    requires id in s.users && ObjectIndex(s.objects, iid).Some?
    ensures var t := Step(s, id, Cmd(PickupFurni(iid)), n, now);
      var i := ObjectIndex(s.objects, iid).value;
      var obj := s.objects[i];
      var inv := InventoryOf(s, id) + [Item(iid, obj.typeId, CatalogName(obj.typeId))];
      && obj.instanceId == iid
      && t.next.objects == s.objects[..i] + s.objects[i + 1..]
      && (id in s.inventories ==> t.next.inventories == s.inventories[id := inv])
      && (id !in s.inventories ==> t.next.inventories == s.inventories)
      && t.next.conns == s.conns && t.next.users == s.users && t.next.credits == s.credits
      && t.outbox == [Envelope(ToSender, SyncInventory(inv)), Envelope(ToEveryone, FurniPickedUp(iid))]
  {
    var t := Step(s, id, Cmd(PickupFurni(iid)), n, now);
    assert t == OnPickup(s, id, iid);
  }

  /** Picking up moves an id from the room into the sender's stored
      inventory: the ids held plus the ids placed are unchanged. */
  lemma PickupConservesIds(s: Room, id: Id, iid: Id, n: Id, now: int)
    requires id in s.users && id in s.inventories && ObjectIndex(s.objects, iid).Some?
    ensures var t := Step(s, id, Cmd(PickupFurni(iid)), n, now);
      HeldAndPlaced(t.next, id) == HeldAndPlaced(s, id)
  {
    PickupSpec(s, id, iid, n, now);
    var t := Step(s, id, Cmd(PickupFurni(iid)), n, now);
    var i := ObjectIndex(s.objects, iid).value;
    var obj := s.objects[i];
    var it := Item(iid, obj.typeId, CatalogName(obj.typeId));
    assert InventoryOf(t.next, id) == InventoryOf(s, id) + [it];
    ObjectToItem(InventoryOf(s, id), s.objects, i, it);
  }

  /** Removing the object at `i` and appending an item with its id keeps the
      multiset of held and placed ids. */
  lemma ObjectToItem(inv: seq<Item>, objs: seq<RoomObject>, i: nat, it: Item)
    requires i < |objs| && it.id == objs[i].instanceId
    ensures multiset(ItemIds(inv + [it])) + multiset(ObjectIds(objs[..i] + objs[i + 1..]))
         == multiset(ItemIds(inv)) + multiset(ObjectIds(objs))
  {
    var held := ItemIds(inv);
    var placed := ObjectIds(objs);
    assert ItemIds(inv + [it]) == held + [placed[i]];
    ObjectIdsRemoveAt(objs, i);
    MoveBetween(held, placed, i);
  }

  /** A successful `pickup_furni` sends the new inventory to the sender
      alone and the removal to every connection; the sender gets the
      inventory first. */
  lemma PickupDelivery(s: Room, id: Id, iid: Id, n: Id, now: int)
    requires id in s.users && ObjectIndex(s.objects, iid).Some?
    ensures var t := Step(s, id, Cmd(PickupFurni(iid)), n, now);
      var obj := s.objects[ObjectIndex(s.objects, iid).value];
      var inv := InventoryOf(s, id) + [Item(iid, obj.typeId, CatalogName(obj.typeId))];
      forall who :: (Inbox(s, id, Cmd(PickupFurni(iid)), n, now, who) ==
        (if who == id then [SyncInventory(inv)] else [])
        + (if who in s.conns then [FurniPickedUp(iid)] else []))
  {
    PickupSpec(s, id, iid, n, now);
    var t := Step(s, id, Cmd(PickupFurni(iid)), n, now);
    InboxOfSenderThenEveryone(s, id, Cmd(PickupFurni(iid)), n, now, t.outbox[0].msg, t.outbox[1].msg);
  }

  /** An object appended to a room that does not yet hold its id is the
      first object with that id. */
  lemma AppendedIsFound(objs: seq<RoomObject>, obj: RoomObject)
    requires ObjectIndex(objs, obj.instanceId).None?
    ensures ObjectIndex(objs + [obj], obj.instanceId) == Some(|objs|)
  {
    assert forall j :: 0 <= j < |objs| ==> (objs + [obj])[j] == objs[j];
    assert (objs + [obj])[|objs|] == obj;
  }

  /** Placing an item whose id is not already in the room and picking it up
      again restores the room objects and gives back an item with the same
      id and type, named from the catalog; when the item already carried its
      catalog name the inventory holds the same items as before. */
  lemma PlaceThenPickup(s: Room, id: Id, itemId: Id, x: real, y: real, n: Id, now: int)
    requires id in s.users
    requires ItemIndex(InventoryOf(s, id), itemId).Some?
    requires ObjectIndex(s.objects, itemId).None?
    ensures var inv := InventoryOf(s, id);
      var i := ItemIndex(inv, itemId).value;
      var s1 := Step(s, id, Cmd(PlaceItem(itemId, x, y)), n, now).next;
      var s2 := Step(s1, id, Cmd(PickupFurni(itemId)), n, now).next;
      && i < |inv|
      && s2.objects == s.objects
      && InventoryOf(s2, id) == inv[..i] + inv[i + 1..] + [Item(itemId, inv[i].typeId, CatalogName(inv[i].typeId))]
      && s2.conns == s.conns && s2.users == s.users && s2.credits == s.credits
      && (inv[i].name == CatalogName(inv[i].typeId) ==> multiset(InventoryOf(s2, id)) == multiset(inv))
  {
    var inv := InventoryOf(s, id);
    var i := ItemIndex(inv, itemId).value;
    PlaceSpec(s, id, itemId, x, y, n, now);
    var s1 := Step(s, id, Cmd(PlaceItem(itemId, x, y)), n, now).next;
    var tile := ClampGrid(x, y);
    var obj := RoomObject(itemId, inv[i].typeId, tile.x, tile.y);
    AppendedIsFound(s.objects, obj);
    PickupSpec(s1, id, itemId, n, now);
    var s2 := Step(s1, id, Cmd(PickupFurni(itemId)), n, now).next;
    assert s1.objects[..|s.objects|] == s.objects;
    assert s2.objects == s.objects;
    var back := Item(itemId, inv[i].typeId, CatalogName(inv[i].typeId));
    assert InventoryOf(s2, id) == inv[..i] + inv[i + 1..] + [back];
    if inv[i].name == CatalogName(inv[i].typeId) {
      assert inv[i] == back;
      RemoveAt(inv, i);
    }
  }

  /** Two `move_furni` commands on the same object, from any two users, leave
      it where the later one puts it, as if the earlier had never happened. */
  lemma MoveFurniLastWriterWins(s: Room, a: Id, b: Id, iid: Id, x1: real, y1: real, x2: real, y2: real, n: Id, now: int)
    requires a in s.users && b in s.users
    ensures var s1 := Step(s, a, Cmd(MoveFurni(iid, x1, y1)), n, now).next;
      Step(s1, b, Cmd(MoveFurni(iid, x2, y2)), n, now).next == Step(s, b, Cmd(MoveFurni(iid, x2, y2)), n, now).next
  {
    match ObjectIndex(s.objects, iid)
    case None =>
      MoveFurniUnknownIgnored(s, a, iid, x1, y1, n, now);
    case Some(i) =>
      MoveFurniSpec(s, a, iid, x1, y1, n, now);
      var s1 := Step(s, a, Cmd(MoveFurni(iid, x1, y1)), n, now).next;
      assert ObjectIndex(s1.objects, iid) == Some(i) by {
        assert forall j :: 0 <= j < |s.objects| ==> s1.objects[j].instanceId == s.objects[j].instanceId;
      }
      MoveFurniSpec(s1, b, iid, x2, y2, n, now);
      MoveFurniSpec(s, b, iid, x2, y2, n, now);
  }
}

/** Properties of the connection lifecycle and of the room as a whole:
    connection open, close, dropped frames, and the invariant every step keeps. */
module SessionProps {

  import opened Protocol
  import opened Grid
  import opened RoomState
  import opened Router
  import opened Server
  import opened CommandProps
  import opened FurniProps

  /** The user record a fresh connection gets. */
  function Newcomer(id: Id): UserState {
    UserState(id, GUEST_NAME, WHITE, START_X, START_Y)
  }

  /** Connection open adds a default user with 100 credits and an empty
      inventory, touches no other user's record, and sends exactly one
      `welcome` to the newcomer alone, listing every user (the newcomer
      included) and the current room objects. */
  lemma ConnectWelcomes(s: Room, id: Id, n: Id, now: int)
    ensures var t := Step(s, id, Connect, n, now);
      && t.next.conns == s.conns + {id}
      && t.next.users == s.users[id := Newcomer(id)]
      && CreditsOf(t.next, id) == START_CREDITS && InventoryOf(t.next, id) == []
      && t.next.objects == s.objects
      && (forall k :: k != id ==> CreditsOf(t.next, k) == CreditsOf(s, k))
      && (forall k :: k != id ==> InventoryOf(t.next, k) == InventoryOf(s, k))
      && t.outbox == [Envelope(ToSender, Welcome(id, t.next.users, START_CREDITS, [], s.objects))]
    ensures var w := Welcome(id, s.users[id := Newcomer(id)], START_CREDITS, [], s.objects);
      && id in w.users && w.users[id] == Newcomer(id)
      && (forall k :: k in s.users && k != id ==> k in w.users && w.users[k] == s.users[k])
      && Inbox(s, id, Connect, n, now, id) == [w]
      && (forall who :: who != id ==> Inbox(s, id, Connect, n, now, who) == [])
  {
    var t := Step(s, id, Connect, n, now);
    forall who ensures Inbox(s, id, Connect, n, now, who) == (if who == id then [t.outbox[0].msg] else []) {
      DeliveredSingle(t.outbox[0], id, t.next.conns, who);
    }
  }

  /** Close forgets the connection and its user but keeps the stored credits
      and inventory, leaves the room objects alone, and sends `user_left`
      exactly once to each connection that remains, and to no one else. */
  lemma CloseNotifiesRemaining(s: Room, id: Id, n: Id, now: int)
    ensures var t := Step(s, id, Disconnect, n, now);
      && t.next.conns == s.conns - {id}
      && t.next.users == s.users - {id}
      && t.next.credits == s.credits && t.next.inventories == s.inventories
      && t.next.objects == s.objects
      && t.outbox == [Envelope(ToEveryone, UserLeft(id))]
    ensures forall who :: Inbox(s, id, Disconnect, n, now, who) == if who in s.conns && who != id then [UserLeft(id)] else []
  {
    var t := Step(s, id, Disconnect, n, now);
    forall who ensures Inbox(s, id, Disconnect, n, now, who) == if who in s.conns && who != id then [UserLeft(id)] else [] {
      DeliveredSingle(t.outbox[0], id, t.next.conns, who);
    }
  }

  /** A frame from a connection whose user is gone changes nothing and
      sends nothing. */
  lemma ClosedSenderIgnored(s: Room, id: Id, p: Payload, n: Id, now: int)
    requires id !in s.users
    ensures Step(s, id, Receive(p), n, now) == Transition(s, [])
  {
  }

  /** An unreadable frame changes nothing and sends nothing. */
  lemma UnreadableIgnored(s: Room, id: Id, n: Id, now: int)
    ensures Step(s, id, Receive(Unreadable), n, now) == Transition(s, [])
  {
  }

  /** Whether a message names user `u` (as its subject, or in a user list). */
  predicate Mentions(m: ServerMsg, u: Id) {
    match m
    case Welcome(id, users, _, _, _) => id == u || u in users || exists k :: k in users && users[k].id == u
    case UserJoined(id, user) => id == u || user.id == u
    case UserLeft(id) => id == u
    case UserMoved(id, _, _) => id == u
    case ChatLine(id, _, _, _) => id == u
    case _ => false
  }

  /** A transition that keeps `d` out of the users and out of every message. */
  predicate Quiet(t: Transition, d: Id) {
    d !in t.next.users && forall e :: e in t.outbox ==> !Mentions(e.msg, d)
  }

  /** Once user `d` has left, no event from another connection brings it
      back or mentions it in any message. With `ClosedSenderIgnored`, only a
      new connection that reuses the id `d` could. */
  lemma NoMentionAfterLeave(s: Room, d: Id, sender: Id, ev: Event, n: Id, now: int)
    requires Inv(s) && d !in s.users && sender != d
    ensures Quiet(Step(s, sender, ev, n, now), d)
  {
    match ev
    case Connect =>
      var t := OnConnect(s, sender);
      var users := s.users[sender := Newcomer(sender)];
      assert t.outbox == [Envelope(ToSender, Welcome(sender, users, START_CREDITS, [], s.objects))];
      assert d !in users;
      forall k | k in users ensures users[k].id != d {
        if k != sender {
          assert users[k] == s.users[k];
        }
      }
      assert !Mentions(t.outbox[0].msg, d);
    case Disconnect =>
    case Receive(p) =>
      ReceiveNeverMentionsOthers(s, d, sender, p, n, now);
  }

  lemma ReceiveNeverMentionsOthers(s: Room, d: Id, sender: Id, p: Payload, n: Id, now: int)
    requires Inv(s) && d !in s.users && sender != d
    ensures Quiet(OnMessage(s, sender, p, n, now), d)
  {
    if p.Command? && sender in s.users {
      CommandNeverMentionsOthers(s, d, sender, p.msg, n, now);
    }
  }

  lemma CommandNeverMentionsOthers(s: Room, d: Id, id: Id, m: ClientMsg, n: Id, now: int)
    requires Inv(s) && d !in s.users && id != d && id in s.users
    ensures Quiet(Step(s, id, Cmd(m), n, now), d)
  {
    match m {
      case Join(name, color) => JoinQuiet(s, d, id, name, color, n, now);
      case Move(x, y) => MoveQuiet(s, d, id, x, y, n, now);
      case Chat(text) => ChatQuiet(s, d, id, text, n, now);
      case BuyItem(c) => BuyQuiet(s, d, id, c, n, now);
      case PlaceItem(i, x, y) => PlaceQuiet(s, d, id, i, x, y, n, now);
      case MoveFurni(i, x, y) => MoveFurniQuiet(s, d, id, i, x, y, n, now);
      case PickupFurni(i) => PickupQuiet(s, d, id, i, n, now);
    }
  }

  lemma JoinQuiet(s: Room, d: Id, id: Id, name: string, color: int, n: Id, now: int)
    requires d !in s.users && id != d && id in s.users && s.users[id].id == id
    ensures Quiet(Step(s, id, Cmd(Join(name, color)), n, now), d)
  {
    JoinSpec(s, id, name, color, n, now);
    var t := Step(s, id, Cmd(Join(name, color)), n, now);
    assert t.next.users.Keys == s.users.Keys;
    assert t.next.users[id].id == id;
    var m := UserJoined(id, t.next.users[id]);
    assert t.outbox == [Envelope(ToOthers, m)];
    assert !Mentions(m, d);
  }

  lemma MoveQuiet(s: Room, d: Id, id: Id, x: real, y: real, n: Id, now: int)
    requires Inv(s) && d !in s.users && id != d && id in s.users
    ensures Quiet(Step(s, id, Cmd(Move(x, y)), n, now), d)
  {
    MoveSpec(s, id, x, y, n, now);
  }

  lemma ChatQuiet(s: Room, d: Id, id: Id, text: string, n: Id, now: int)
    requires Inv(s) && d !in s.users && id != d && id in s.users
    ensures Quiet(Step(s, id, Cmd(Chat(text)), n, now), d)
  {
    ChatSpec(s, id, text, n, now);
  }

  lemma BuyQuiet(s: Room, d: Id, id: Id, c: string, n: Id, now: int)
    requires Inv(s) && d !in s.users && id != d && id in s.users
    ensures Quiet(Step(s, id, Cmd(BuyItem(c)), n, now), d)
  {
    if CanBuy(s, id, c) {
      BuySpec(s, id, c, n, now);
    } else {
      BuyRejects(s, id, c, n, now);
    }
  }

  lemma MoveFurniQuiet(s: Room, d: Id, id: Id, iid: Id, x: real, y: real, n: Id, now: int)
    requires Inv(s) && d !in s.users && id != d && id in s.users
    ensures Quiet(Step(s, id, Cmd(MoveFurni(iid, x, y)), n, now), d)
  {
    if ObjectIndex(s.objects, iid).Some? {
      MoveFurniSpec(s, id, iid, x, y, n, now);
    } else {
      MoveFurniUnknownIgnored(s, id, iid, x, y, n, now);
    }
  }

  lemma PlaceQuiet(s: Room, d: Id, id: Id, itemId: Id, x: real, y: real, n: Id, now: int)
    requires Inv(s) && d !in s.users && id != d && id in s.users
    ensures Quiet(Step(s, id, Cmd(PlaceItem(itemId, x, y)), n, now), d)
  {
    if ItemIndex(InventoryOf(s, id), itemId).Some? {
      PlaceSpec(s, id, itemId, x, y, n, now);
    } else {
      PlaceUnknownIgnored(s, id, itemId, x, y, n, now);
    }
  }

  lemma PickupQuiet(s: Room, d: Id, id: Id, iid: Id, n: Id, now: int)
    requires Inv(s) && d !in s.users && id != d && id in s.users
    ensures Quiet(Step(s, id, Cmd(PickupFurni(iid)), n, now), d)
  {
    if ObjectIndex(s.objects, iid).Some? {
      PickupSpec(s, id, iid, n, now);
    } else {
      PickupUnknownIgnored(s, id, iid, n, now);
    }
  }

  /** Every step keeps the room invariant: users and connections match, ids
      agree, all positions are on the map, no balance is negative. */
  lemma StepPreservesInv(s: Room, sender: Id, ev: Event, n: Id, now: int)
    requires Inv(s)
    ensures Inv(Step(s, sender, ev, n, now).next)
  {
    match ev
    case Connect =>
    case Disconnect =>
    case Receive(p) => MessagePreservesInv(s, sender, p, n, now);
  }

  lemma MessagePreservesInv(s: Room, id: Id, p: Payload, n: Id, now: int)
    requires Inv(s)
    ensures Inv(OnMessage(s, id, p, n, now).next)
  {
    if p.Command? && id in s.users {
      CommandPreservesInv(s, id, p.msg, n, now);
    }
  }

  lemma CommandPreservesInv(s: Room, id: Id, m: ClientMsg, n: Id, now: int)
    requires Inv(s) && id in s.users
    ensures Inv(OnMessage(s, id, Command(m), n, now).next)
  {
    match m {
      case Join(name, color) => JoinInv(s, id, name, color, n, now);
      case Move(x, y) => MoveInv(s, id, x, y, n, now);
      case Chat(text) => ChatInv(s, id, text, n, now);
      case BuyItem(c) => BuyInv(s, id, c, n, now);
      case PlaceItem(i, x, y) => PlaceInv(s, id, i, x, y, n, now);
      case MoveFurni(i, x, y) => MoveFurniInv(s, id, i, x, y, n, now);
      case PickupFurni(i) => PickupInv(s, id, i, n, now);
    }
  }

  lemma JoinInv(s: Room, id: Id, name: string, color: int, n: Id, now: int)
    requires Inv(s) && id in s.users
    ensures Inv(OnMessage(s, id, Command(Join(name, color)), n, now).next)
  {
    var t := OnJoin(s, id, s.users[id], name, color);
    UserUpdatePreservesInv(s, id, t.next);
  }
  lemma MoveInv(s: Room, id: Id, x: real, y: real, n: Id, now: int)
    requires Inv(s) && id in s.users
    ensures Inv(OnMessage(s, id, Command(Move(x, y)), n, now).next)
  {
    var t := OnMove(s, id, s.users[id], x, y);
    UserUpdatePreservesInv(s, id, t.next);
  }
  lemma ChatInv(s: Room, id: Id, text: string, n: Id, now: int)
    requires Inv(s) && id in s.users
    ensures Inv(OnMessage(s, id, Command(Chat(text)), n, now).next)
  {
  }
  lemma BuyInv(s: Room, id: Id, c: string, n: Id, now: int)
    requires Inv(s) && id in s.users
    ensures Inv(OnMessage(s, id, Command(BuyItem(c)), n, now).next)
  {
    CatalogLookup();
  }
  lemma PlaceInv(s: Room, id: Id, i: Id, x: real, y: real, n: Id, now: int)
    requires Inv(s) && id in s.users
    ensures Inv(OnMessage(s, id, Command(PlaceItem(i, x, y)), n, now).next)
  {
  }
  lemma MoveFurniInv(s: Room, id: Id, i: Id, x: real, y: real, n: Id, now: int)
    requires Inv(s) && id in s.users
    ensures Inv(OnMessage(s, id, Command(MoveFurni(i, x, y)), n, now).next)
  {
  }
  lemma PickupInv(s: Room, id: Id, i: Id, n: Id, now: int)
    requires Inv(s) && id in s.users
    ensures Inv(OnMessage(s, id, Command(PickupFurni(i)), n, now).next)
  {
    var t := Step(s, id, Cmd(PickupFurni(i)), n, now);
    match ObjectIndex(s.objects, i)
    case None =>
      PickupUnknownIgnored(s, id, i, n, now);
    case Some(k) =>
      PickupSpec(s, id, i, n, now);
      assert t.next == s.(inventories := t.next.inventories, objects := t.next.objects);
      assert forall j :: 0 <= j < |t.next.objects| ==> t.next.objects[j] == if j < k then s.objects[j] else s.objects[j + 1];
      FurniUpdatePreservesInv(s, t.next);
  }

  /** Rewriting one existing user's record, keeping its id and a position on
      the map, keeps the invariant. */
  lemma UserUpdatePreservesInv(s: Room, id: Id, s': Room)
    requires Inv(s) && id in s.users
    requires s' == s.(users := s'.users)
    requires s'.users.Keys == s.users.Keys
    requires forall k :: k in s.users && k != id ==> s'.users[k] == s.users[k]
    requires s'.users[id].id == id && OnGrid(s'.users[id].x, s'.users[id].y)
    ensures Inv(s')
  {
  }

  /** Rewriting the stored inventories and the room objects, dropping no
      inventory and keeping every object on the map, keeps the invariant. */
  lemma FurniUpdatePreservesInv(s: Room, s': Room)
    requires Inv(s)
    requires s' == s.(inventories := s'.inventories, objects := s'.objects)
    requires s.inventories.Keys <= s'.inventories.Keys
    requires forall j :: 0 <= j < |s'.objects| ==> OnGrid(s'.objects[j].x, s'.objects[j].y)
    ensures Inv(s')
  {
  }

  /** One event with the values the environment supplies for it. */
  datatype Input = Input(sender: Id, ev: Event, newItemId: Id, now: int)

  /** The state after a sequence of events. */
  function Run(s: Room, inputs: seq<Input>): Room
    decreases |inputs|
  {
    if inputs == [] then s
    else
      var i := inputs[0];
      Run(Step(s, i.sender, i.ev, i.newItemId, i.now).next, inputs[1..])
  }

  /** Whatever happens from an empty room, every user and every placed object
      stays on the 12 x 12 map and no credit balance goes negative. */
  lemma {:induction false} RunKeepsInv(s: Room, inputs: seq<Input>)
    requires Inv(s)
    ensures var r := Run(s, inputs);
      && Inv(r)
      && (forall id :: id in r.users ==> OnGrid(r.users[id].x, r.users[id].y))
      && (forall i :: 0 <= i < |r.objects| ==> OnGrid(r.objects[i].x, r.objects[i].y))
      && (forall id :: id in r.credits ==> r.credits[id] >= 0)
    decreases |inputs|
  {
    if inputs != [] {
      var i := inputs[0];
      StepPreservesInv(s, i.sender, i.ev, i.newItemId, i.now);
      RunKeepsInv(Step(s, i.sender, i.ev, i.newItemId, i.now).next, inputs[1..]);
    }
  }

  /** Every reachable state satisfies the invariant. */
  lemma ReachableInv(inputs: seq<Input>)
    ensures Inv(Run(EmptyRoom, inputs))
  {
    EmptyRoomInv();
    RunKeepsInv(EmptyRoom, inputs);
  }
}

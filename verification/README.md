# VibeHotel room server, modelled in Dafny

VibeHotel is a small multiplayer "hotel room": clients connect over a
WebSocket, walk avatars around a 12 x 12 isometric tile map, chat, buy
furniture from a fixed catalog with credits, and place, move and pick up that
furniture. The server (`server/src/index.ts`) holds the whole room in memory
and handles each event to completion before the next one.

This project models that server as one pure transition,

    Server.Step(room, sender, event, newItemId, now) -> Transition(next, outbox)

where `event` is a connection opening, an inbound frame, or the connection
closing, and `outbox` is the ordered list of messages the handler sends, each
addressed to the sender alone (`send`), to every connection but the sender
(`broadcast(msg, id)`) or to every open connection (`broadcast(msg)`).

Files:

- `wrappers.dfy`: `Option`.
- `text.dfy`: `trim` and `slice(0, n)` on strings.
- `grid.dfy`: map bounds, `Math.round` on finite numbers, `clampGrid`.
- `protocol.dfy`: `ClientMsg`, `ServerMsg`, `UserState`, `Item`, `RoomObject` and `CatalogItem` from `server/src/protocol.ts`.
- `room.dfy`: the room state (`conns` keys, `users`, `userCredits`, `userInventories`, `roomObjects`), the catalog, the `find`/`findIndex` lookups, and the room invariant.
- `router.dfy`: the three audiences and the per-connection message stream.
- `server.dfy`: one function per handler branch, and `Step`.
- `command_props.dfy`, `furni_props.dfy`, `session_props.dfy`: the properties.

Modelling choices:

- Values that `uid()` and `Date.now()` would produce are parameters of `Step`: the connection's own id is `sender` on a `Connect` event, and a purchase uses `newItemId`.
- Coordinates a client sends are `real`s. `Math.round(v)` is `Floor(v + 1/2)`. Coordinates the server stores and sends are integers.
- A colour is an integer; "falsy" means 0.
- A frame the handler drops without touching state is the `Unreadable` payload. This covers unparseable JSON, a missing or unknown `type`, and a field of the wrong type that throws before any update.
- Every envelope is resolved against the connections open after the step. In every branch of the source, these are exactly the connections open when the message is sent: connection open adds the connection before its `welcome` is sent, and close removes it before `user_left` is sent.
- `broadcast(msg, exceptId)` skips `exceptId` only when it is truthy, so a sender whose id is the empty string is not excluded. This is modelled as written.

Three behaviours of the source that a reader might not expect, all modelled
as written:

- Closing a connection removes the connection and its user record. It leaves the user's credits and inventory stored.
- The close handler does not check whether its id is still connected. The model accepts `Disconnect` for any id and always broadcasts `user_left`.
- `pickup_furni` pushes onto the stored inventory array. When the sender has no stored inventory, the object is still removed and the one-item list is still sent, but nothing is stored. The room invariant rules this case out.

## Model

| member | source | states |
|---|---|---|
| Grid.ClampGrid | server/src/index.ts:50-54 | The clamped tile is always on the 12 x 12 map. It is the rounded point whenever that is on the map, and otherwise the map tile nearest to the rounded point along each axis. The client's identical copy at client/src/main.ts:8-12 has the same contract. |
| Grid.Round | server/src/index.ts:51-52 | `Math.round` gives the integer within one half of the input, with halves rounding up. |
| Grid.ClampAxis | server/src/index.ts:51-52 | `Math.max(0, Math.min(size - 1, n))` lies in `[0, size - 1]`, keeps any in-range `n`, and is the in-range value closest to `n`. |
| Grid.ClampGridKeepsTiles | server/src/index.ts:50-54 | Every integer pair already on the map is returned unchanged. |
| Grid.ClampGridIdempotent | server/src/index.ts:50-54 | Clamping an already clamped position changes nothing. |
| Grid.ClampGridExample | server/src/index.ts:50-54 | `(-5, 99.7)` clamps to `(0, 11)`. |
| Text.TrimStart | server/src/index.ts:97 | The leading part of `trim`: keeps a suffix, drops only white space, and the result does not start with white space. |
| Text.TrimEnd | server/src/index.ts:97 | The trailing part of `trim`: keeps a prefix, drops only white space, and the result does not end with white space. |
| Text.Trim | server/src/index.ts:111 | A trimmed string has no white space at either end, and it is empty exactly when the input is all white space. |
| Text.TrimIsInfix | server/src/index.ts:111 | A trimmed string is a contiguous run of the input, with only white space before and after it. |
| Text.TrimIdempotent | server/src/index.ts:97 | Trimming twice is the same as trimming once. |
| Text.Take | server/src/index.ts:111 | `slice(0, n)` is the prefix of length `min(n, length)`. |
| Server.DisplayName | server/src/index.ts:97 | The joined name is 1 to 24 characters long. It is "Guest" when the input is blank. Otherwise it is the first `min(24, length)` characters of the trimmed input, and it does not start with white space. |
| Server.JoinColor | server/src/index.ts:98 | The stored colour is never 0. It is the sent colour whenever that is non-zero, and white (0xFFFFFF) when the sent colour is 0. |
| Server.ChatText | server/src/index.ts:111-112 | The chat text is at most 200 characters. It is a prefix of the trimmed input, and it is empty exactly when the input is all white space. |
| RoomState.CreditsOf | server/src/index.ts:120 | `userCredits.get(id) ?? 0`; specified through `CommandProps.BuySpec` and `CommandProps.BuyRejects`. |
| RoomState.InventoryOf | server/src/index.ts:124 | `userInventories.get(id)`, falling back to `[]`; specified through `CommandProps.BuySpec`, `FurniProps.PlaceSpec` and `FurniProps.PickupSpec`. |
| Server.OnConnect | server/src/index.ts:68-86 | The connection-open handler; specified by `SessionProps.ConnectWelcomes`. |
| Server.OnMessage | server/src/index.ts:88-95 | The message handler's guard and dispatch; specified by `SessionProps.UnreadableIgnored` and `SessionProps.ClosedSenderIgnored`, and by the per-command lemmas below. |
| Server.OnJoin | server/src/index.ts:96-101 | The `join` branch; specified by `CommandProps.JoinSpec` and `CommandProps.JoinDelivery`. |
| Server.OnMove | server/src/index.ts:103-108 | The `move` branch; specified by `CommandProps.MoveSpec` and `CommandProps.MoveDelivery`. |
| Server.OnChat | server/src/index.ts:110-115 | The `chat` branch; specified by `CommandProps.ChatSpec` and `CommandProps.ChatDelivery`. |
| Server.OnBuy | server/src/index.ts:118-131 | The `buy_item` branch; specified by `CommandProps.BuySpec`, `CommandProps.BuyRejects` and `CommandProps.BuyDelivery`. |
| Server.OnPlace | server/src/index.ts:134-148 | The `place_item` branch; specified by `FurniProps.PlaceSpec`, `FurniProps.PlaceUnknownIgnored`, `FurniProps.PlaceConservesIds` and `FurniProps.PlaceDelivery`. |
| Server.OnMoveFurni | server/src/index.ts:150-158 | The `move_furni` branch; specified by `FurniProps.MoveFurniSpec` and `FurniProps.MoveFurniUnknownIgnored`. |
| Server.OnPickup | server/src/index.ts:160-174 | The `pickup_furni` branch; specified by `FurniProps.PickupSpec`, `FurniProps.PickupUnknownIgnored`, `FurniProps.PickupConservesIds` and `FurniProps.PickupDelivery`. |
| Server.OnClose | server/src/index.ts:181-185 | The close handler; specified by `SessionProps.CloseNotifiesRemaining`. |
| Server.Step | server/src/index.ts:68-185 | One event handled to completion; every event keeps the room invariant (`SessionProps.StepPreservesInv`) and no event from another connection brings back or mentions a departed user (`SessionProps.NoMentionAfterLeave`). |
| RoomState.FirstIndex | server/src/index.ts:136 | `findIndex` returns the first position that satisfies the predicate. It returns nothing exactly when no position does. |
| RoomState.FindCatalog | server/src/index.ts:119 | `catalog.find` returns a catalog entry with the requested id. It returns nothing exactly when no entry has that id. |
| RoomState.CatalogName | server/src/index.ts:167-168 | An item name resolved from the catalog is never empty. It is the catalog entry's name for a known type whose entry has a non-empty name, and "Item" otherwise. |
| RoomState.CatalogLookup | server/src/index.ts:39-44 | Each of the four catalog entries is found under its own id and has a positive cost. |
| RoomState.EmptyRoomInv | server/src/index.ts:10-48 | The empty room at startup satisfies the room invariant. |
| Router.Recipients | server/src/index.ts:17-27 | Who `send`, `broadcast(m)` and `broadcast(m, id)` reach (an empty `id` excludes nobody); specified through `Router.DeliveredSingle`, `Router.DeliveredNothing` and the per-command Delivery lemmas. |
| Router.Delivered | server/src/index.ts:17-27 | A connection never receives more messages than the outbox holds. Which messages it receives, and in what order, is fixed by `DeliveredSingle`, `DeliveredAppend`, `DeliveredOnlyAddressed` and `DeliveredNothing`. |
| Router.DeliveredNothing | server/src/index.ts:17-27 | A connection receives nothing exactly when no envelope in the outbox is addressed to it. |
| Router.DeliveredOnlyAddressed | server/src/index.ts:17-27 | A connection receives only the messages of envelopes addressed to it. |
| Router.DeliveredAppend | server/src/index.ts:17-27 | Each connection receives messages in the order the handler sends them. |
| Router.DeliveredSingle | server/src/index.ts:17-27 | A single envelope reaches each addressed connection exactly once, and no other connection. |
| SessionProps.ConnectWelcomes | server/src/index.ts:68-86 | Opening a connection adds the user `{Guest, 0xFFFFFF, 5, 5}` with 100 credits and an empty inventory. No other user's record, balance or inventory changes, and the room objects stay as they were. Exactly one `welcome` is sent, to the newcomer only. It lists every user, the newcomer included, together with the current room objects. |
| SessionProps.CloseNotifiesRemaining | server/src/index.ts:181-185 | Closing a connection removes it from the connections and the users, and keeps its credits, its inventory and the room objects. `user_left` reaches each remaining connection exactly once, and no other connection. |
| SessionProps.ClosedSenderIgnored | server/src/index.ts:93-94 | A frame from a connection that has no user record changes nothing and sends nothing. |
| SessionProps.UnreadableIgnored | server/src/index.ts:89-91 | A malformed frame changes nothing and sends nothing. |
| SessionProps.NoMentionAfterLeave | server/src/index.ts:181-185 | After a user leaves, no event from another connection brings that user back or names it in any message. |
| SessionProps.StepPreservesInv | server/src/index.ts:68-185 | Every event preserves the room invariant. Users and connections correspond one to one, each record carries its own id, every user and object is on the map, every user has a stored balance and inventory, and no balance is negative. |
| SessionProps.RunKeepsInv | server/src/index.ts:68-185 | Over any sequence of events, every stored user and object coordinate stays on the map and credits never go negative. |
| SessionProps.ReachableInv | server/src/index.ts:10-48 | Every state reachable from the empty room satisfies the invariant. |
| CommandProps.JoinSpec | server/src/index.ts:96-101 | `join` sets only the sender's name and colour, keeping its id, position, credits, inventory and the objects. The outbox is one `user_joined` with the updated record, addressed to everyone but the sender. |
| CommandProps.JoinDelivery | server/src/index.ts:99 | The updated record reaches every other connection exactly once and does not reach the sender, unless the sender's id is empty, in which case it reaches the sender too. |
| CommandProps.MoveSpec | server/src/index.ts:103-108 | `move` puts the sender on the clamped tile, which is on the map, and changes nothing else. The outbox is one `user_moved` with that tile, addressed to everyone. |
| CommandProps.MoveDelivery | server/src/index.ts:106 | Every connection receives `user_moved`, the sender included. |
| CommandProps.ChatSpec | server/src/index.ts:110-115 | `chat` never changes state. A blank text sends nothing. Any other text sends one `chat` to everyone, with the sender's current name and the trimmed text cut to 200 characters. |
| CommandProps.ChatDelivery | server/src/index.ts:113 | A non-blank line reaches every connection, the sender included. |
| CommandProps.BuyRejects | server/src/index.ts:118-131 | A purchase with an unknown catalog id, or one whose cost exceeds the balance, changes nothing and sends nothing. |
| CommandProps.BuySpec | server/src/index.ts:118-131 | A purchase the balance covers lowers the balance by exactly the cost, and the balance stays non-negative. The inventory gains one item at its end with the fresh id and the entry's type and name. Nothing else changes, and the outbox is `update_credits` followed by `sync_inventory`, both to the sender. |
| CommandProps.BuyDelivery | server/src/index.ts:128-129 | After a purchase the sender alone receives the new balance and then the new inventory. |
| CommandProps.BuyRedChairExample | server/src/index.ts:118-131 | Buying `chair_red` with 100 credits leaves 95 credits and one red chair. |
| FurniProps.PlaceUnknownIgnored | server/src/index.ts:134-137 | Placing an id the sender does not hold changes nothing and sends nothing. |
| FurniProps.PlaceSpec | server/src/index.ts:134-148 | Placing an item the sender holds takes exactly the first item with that id out of the inventory. It appends one object with the item's id and type on the clamped tile, and changes nothing else. The outbox is `sync_inventory` to the sender, then `furni_placed` to everyone. |
| FurniProps.PlaceConservesIds | server/src/index.ts:138-142 | Placing moves one id from the sender's inventory into the room: the multiset of held and placed ids, and the inventory length plus the object count, are unchanged. |
| FurniProps.PlaceDelivery | server/src/index.ts:144-145 | After a successful placement the sender receives its new inventory first. Every connection receives `furni_placed`. |
| FurniProps.MoveFurniUnknownIgnored | server/src/index.ts:150-152 | Moving an id that is not in the room changes nothing and sends nothing. |
| FurniProps.MoveFurniSpec | server/src/index.ts:150-158 | `move_furni` changes only the position of the first object with that id, to the clamped tile, and tells every connection. |
| FurniProps.PickupUnknownIgnored | server/src/index.ts:160-162 | Picking up an id that is not in the room changes nothing and sends nothing. |
| FurniProps.PickupSpec | server/src/index.ts:160-174 | Picking up removes the first object with that id. It appends an item with the object's id and type, named from the catalog, to the sender's stored inventory, and changes nothing else. The outbox is `sync_inventory` to the sender, then `furni_picked_up` to everyone. |
| FurniProps.PickupConservesIds | server/src/index.ts:163-168 | Picking up moves one id from the room into the sender's inventory: the multiset of held and placed ids is unchanged. |
| FurniProps.PickupDelivery | server/src/index.ts:170-171 | After a pickup the sender receives its new inventory first. Every connection receives `furni_picked_up`. |
| FurniProps.PlaceThenPickup | server/src/index.ts:134-174 | Placing an item and then picking it up restores the room objects. It gives back an item with the same id and type, named from the catalog. When the item already carried its catalog name, the inventory holds the same items as before. |
| FurniProps.MoveFurniLastWriterWins | server/src/index.ts:150-158 | When two users move the same object one after the other, the object ends where the later move puts it, as if the earlier move had not happened. |

## Left out

- The HTTP server, the `/health` route, the WebSocket server, `ws.send`, and JSON encoding and decoding are transport. Their errors appear only as the `Unreadable` payload.
- Random ids from `uid()` and `Date.now()` are inputs. Id freshness is assumed only where a property needs it: `PlaceThenPickup` assumes the placed id is not already in the room.
- JavaScript number edge cases (NaN, infinities, `-0`, non-numeric fields reaching `Math.round`, floating-point rounding) are not modelled. Inputs are exact reals.
- Text.IsSpace: covers the ASCII white space, the no-break space, the byte-order mark and the two Unicode line terminators. It leaves out the other Unicode space separators that `String.prototype.trim` also strips.
- Text.Take: counts characters, not UTF-16 code units as `slice` does.
- Connections are a set, so the order in which `broadcast` walks the connection map is not modelled. What is modelled is the order of the messages each connection receives.
- Transport failures on individual sends are not modelled.
- The client (`client/src/main.ts` rendering and panels, `client/src/audio.ts`, `client/src/net.ts`, `client/src/iso.ts`) is presentation. Only its `clampGrid` matters here, and it is the same function as the server's.

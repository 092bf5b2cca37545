# Mumbler, verified

Mumbler is a relay server with a local client and a web map. People move tokens on a shared map; every
client keeps a copy of what the others show, and the server only passes messages on. This project models
the parts of it that must agree with each other, and proves that they do. Where one of the agreements does
not hold on every input, the project states exactly when it does.

## What is modelled

**Relay and replica.** `Server` gives every step of the relay as a function on its state: peers, rooms, the
poll set, and for every connection the list of all messages ever queued to it. `ServerLoop.Relay` is the
same server changed in place, with the loops of the source; each of its methods is proved to do what the
function of the same name says. `Protocol` holds the client's reaction to each message. The main results are
in `Runs` and `Sharing`: in every state that some history of accepts, event batches and disconnects ends in,
folding what was queued to a client gives the server's own record of every other client. `Membership` says when
a room's list is exact, `Strays` and `Sharing` that clients know each other's local objects exactly within a room,
`Exceptions` under exactly which condition each of these survives the event that can break it, and `Witnesses`
histories that reach the failing cases. `Deliveries` says what each event puts into whose queue, and `Connections` what
a connection's own events determine: whether it goes on, which key it gets, what it is answered and what is kept of it.
`Wakeups` shows that no connection with pending output is ever left unscheduled.

**Transport.** `Framing` is the frame format and the parser as functions, with a link that writes and delivers
any number of bytes at a time. `Transport` holds the two-cursor buffer, the write loop and the reader, and
which frames the receive capacity lets through.

**Unsent changes.** `LocalState` is a client's own state with its sets of changes, `ClientState` the class whose
methods change and drain it, `DirtySets` the proof that a drain makes the server's copy equal exactly when the
copy differs where that is marked, and `Sessions` whole sessions with reconnects. `LocalReadings` says what is read
after each edit, and that a client's secret is never sent. `ServerCopy` ties the copy to what the relay really stores
and what the other clients then see.

**Order of objects.** `Sorting` makes fractional sort keys. `Order` and `OrderRef` are the sorted index over the
table of objects, `Walk` and `Walker` the traversal, `DragOver` and `Placement` where a dragged object lands,
`ObjectTree` what is inherited along the chain of groups, `DragEnd` the drop itself.

**Identifiers.** `ModInverse` and `Hash` are the invertible mixer, `Identifiers` the recycling allocator, `NewIds`
the drawing of fresh identifiers, `WebPeers` the two-way table of peers and public keys.

## Assumptions

- A signature check is a Boolean that comes with the message; the zero key is never accepted.
- Encoding succeeds, and a connection delivers its bytes in order.
- The order in which a hash map or hash set is iterated is a parameter (`Orders`, `DrainOrder`); every theorem
  holds for every order.
- Words of 32 bits are integers below 2^32 with wrapping written out; bytes are integers below 256.
- The zero remote identifier, which stands for the root, is not an object.

## What does not hold, and when it does

Each of these comes with its exact condition and, where it is a matter of history, with a history that
reaches a failing state.

- A global object that is re-created under a non-global type stays in the views of those who are not in the
  owner's room: `Exceptions.RecreationExact`, `Witnesses.RecreationReached`.
- Opening a room tells nobody about anybody's objects. Those who had chosen it share their local objects exactly when
  no two of them had any; of a peer that opens a room by connecting only the others matter:
  `Exceptions.RoomOpensExact`, `Witnesses.OpeningReached`.
- Removing a room sends nobody away, so what its peers know of each other goes stale, unless no two of them had
  anything to show: `Exceptions.RoomClosesExact`, `Witnesses.ClosingReached`.
- A peer that connects again with another room stays in the list of the first one, unless that is gone or made anew on
  the way: `Membership.ConnectingExact`, `Witnesses.ReconnectReached`.
- A disconnect does not take a peer out of the lists, and freed identifiers are issued again, so a new connection can be
  listed where it has never been. It is exactly when its identifier is still listed: `Membership.AcceptExact`,
  `Witnesses.ReissueReached`.
- `leave_room` schedules the peer that leaves, not those it writes to; it loses no wake-up exactly when they are
  scheduled already, as they are after the broadcast of its only caller: `Wakeups.LeaveWakesExactly`.
- An object or image created under an identifier that still waits to be removed is removed again by the drain:
  `Sessions.CreateObjectExact`, `Sessions.InsertImageExact`, `Sessions.LostObjectReached`, `Sessions.LostImageReached`.
- Inserting an object that is already in the order, at another place, leaves its old key behind:
  `OrderRef.OrderRef.Insert`. Retaining by peer can empty a group that a kept object sits in: `Order.IndexRetained`.
- A midpoint is not always between: `Sorting.MidpointBetween`; nor is `before` always below: `Sorting.BeforeBelow`.
- Dropping a group into its own descendant is not refused and takes it out of the walk:
  `DragEnd.CyclicDropAccepted`, `DragEnd.MovedStaysReachable`.
- A frame whose length is accepted is delivered under every way of cutting it up exactly when it ends early enough in the
  buffer: `Transport.DeliveredExactly`. Past the capacity it never is: `Transport.FrameNeverCompletes`.

## Model

| member | source | states |
|---|---|---|
| Runs.PeersReplicated | crates/mumbler/src/remote/server.rs:431-746 | after any run, folding all messages queued to an authenticated peer gives exactly the connected authenticated peers' keys and properties, and nobody else |
| Runs.GlobalsReplicated | crates/mumbler/src/remote/server.rs:683-740 | and exactly their global objects, across identifier reuse and repeated connects, if no global object comes back as a local one while somebody is outside the owner's room |
| Runs.LocalsReplicated | crates/mumbler/src/remote/server.rs:748-843 | two authenticated peers in one room, the zero room or a created one, have all of each other's local objects, unchanged; a created room must have opened when no two that had chosen it had local objects |
| Runs.MembersEnrolled | crates/mumbler/src/remote/server.rs:654-673 | an authenticated peer whose room exists is in its list, lists have no duplicates, the zero room always exists |
| Runs.IdsConserved | crates/mumbler/src/remote/server.rs:281-323 | over whole runs live and freed identifiers partition those issued, zero is never live, and allocation fails exactly when all are live |
| Runs.KeysNeverShared | crates/mumbler/src/remote/server.rs:468-476 | no two authenticated peers ever have the same public key |
| Runs.ReachableSound | crates/mumbler/src/remote/server.rs:202-328 | every reachable state satisfies the whole invariant, whatever clients send |
| Connections.LoginsAnswerChallenges | crates/mumbler/src/remote/server.rs:446-477 | on every run a connection's key is that of its last connect, and every connect was signed and answers a challenge of its own, queued to this connection with no hello or connect in between |
| Connections.RecordedAsSent | crates/mumbler/src/remote/server.rs:431-621 | the record of a client is what it has sent on this connection adds up to, every event of which the protocol admits; pings and hellos are answered once each and in order |
| Connections.SeenAsSent | crates/mumbler/src/remote/server.rs:431-746 | so what another client's folded view holds of it is what it has sent |
| Connections.HellosAnswered | crates/mumbler/src/client.rs:35-79 | a client that has read its queue has answered the challenge of each of its hellos once, in order |
| Connections.HandledExactly | crates/mumbler/src/remote/server.rs:431-650 | which events are refused: a second hello before a connect, a connect without challenge, signature or a key of its own, updates before it, and whatever is unsupported |
| Connections.HandledIfAdmissible | crates/mumbler/src/remote/server.rs:431-650 | whether an event is refused depends on what the connection has sent, and for a connect on the keys in use, alone |
| Connections.ConnectUsesChallenge | crates/mumbler/src/remote/server.rs:459-477 | a connect is accepted exactly with an open challenge, a signature and a non-zero key that nobody has; then the challenge is gone |
| Connections.StaysExactly | crates/mumbler/src/remote/server.rs:291-325 | a connection stays exactly if nothing in its batch is refused and no read fails |
| Connections.HandleTells | crates/mumbler/src/remote/server.rs:748-863 | an event tells others of nothing but the peer that sent it, and shows local objects to those listed in its room alone |
| Connections.LocalsStayInRoom | crates/mumbler/src/remote/server.rs:748-863 | while the lists are exact, no message to a peer outside the owner's room carries a local object |
| Deliveries.EarlyObjectsAre | crates/mumbler/src/remote/server.rs:496-510 | before the introductions a connecting peer is sent exactly the global objects of all others |
| Sharing.NoStrays | crates/mumbler/src/remote/server.rs:748-843 | a client knows no local object of a peer that the peer does not have now, and none of a peer outside its room, on runs that keep lists exact and remove no room with something to show |
| Sharing.LocalsMirrored | crates/mumbler/src/remote/server.rs:748-843 | on such runs two peers in one room have exactly each other's local objects |
| Sharing.HandleTidy | crates/mumbler/src/remote/server.rs:431-650 | every event that closes no shared room keeps every view free of stray local objects |
| Exceptions.RecreationExact | crates/mumbler/src/remote/server.rs:545-568 | a global object re-created as local leaves everybody right exactly when every other authenticated peer is in the owner's room |
| Exceptions.RoomOpensExact | crates/mumbler/src/remote/server.rs:654-673 | when a creation or a connect opens a room, those in it share their local objects if and only if no two that had chosen it had any |
| Exceptions.RoomClosesExact | crates/mumbler/src/remote/server.rs:594-621 | removing a shared room leaves no stale object behind if and only if no two of its peers had any to show |
| Membership.MembersAreHolders | crates/mumbler/src/remote/server.rs:748-819 | as long as no listed identifier is reissued and every connect keeps its place, a room's live members are exactly the authenticated peers in it |
| Membership.AcceptExact | crates/mumbler/src/remote/server.rs:281-290 | accepting keeps the lists exact if and only if the identifier it issues is listed nowhere |
| Witnesses.SharedRoomReached | crates/mumbler/src/remote/server.rs:459-521 | a history ends with two peers in a created room that meets every condition, one of them with a local object |
| Witnesses.ReissueReached | crates/mumbler/src/remote/server.rs:675-681 | connect, disconnect and accept reach a state in which a new connection is listed in a room |
| Witnesses.ReconnectReached | crates/mumbler/src/remote/server.rs:447-477 | a second connect reaches a state with a peer listed in two rooms |
| Witnesses.RecreationReached | crates/mumbler/src/remote/server.rs:545-568 | a state is reached in which a view keeps a global object its owner no longer has as such |
| Witnesses.OpeningReached | crates/mumbler/src/remote/server.rs:654-673 | a state is reached in which two members of a room do not share |
| Witnesses.ClosingReached | crates/mumbler/src/remote/server.rs:609-612 | a state is reached in which a view holds an object of a room that is gone |
| Membership.ConnectingExact | crates/mumbler/src/remote/server.rs:459-521 | a connect keeps the lists exact if and only if it is the first, has the same room, or leaves only a room that is gone or made anew |
| Replica.HandleAgrees | crates/mumbler/src/remote/server.rs:431-650 | every event keeps what every pair of peers knows of each other, for each of the three aspects |
| Rooms.HandleKeepsRooms | crates/mumbler/src/remote/server.rs:431-650 | every event keeps the lists distinct, everybody else enrolled, and the handled peer enrolled where it belongs |
| Protocol.FoldLooks | crates/mumbler/src/client.rs:33-292 | a client's view of a peer depends on the messages about that peer alone |
| Protocol.Client.HandlePeer | crates/mumbler/src/client.rs:26-292 | the handler loop computes the fold of its messages, on the view of others and on the client's own room, and answers exactly the challenges, in order |
| Protocol.RoomKept | crates/mumbler/src/client.rs:242-276 | the client stays in its room exactly until a known peer removes the object that the room is |
| Protocol.UnsentExactly | crates/mumbler/src/client.rs:242-276 | that it left has yet to be sent exactly if something had to be before, or a message removed the room's object |
| Protocol.ChallengesAnswered | crates/mumbler/src/client.rs:35-79 | every challenge is answered, once and in order, and nothing else is |
| ServerLoop.Relay.Handle | crates/mumbler/src/remote/server.rs:431-650 | one event, changed in place, does what the specification of the step says, and fails exactly when it does |
| ServerLoop.Relay.Connect | crates/mumbler/src/remote/server.rs:459-521 | accepted exactly with an open challenge, a valid signature and a non-zero key that no other connected peer has; then objects, rooms, introductions and the room are as specified |
| ServerLoop.Relay.Connected | crates/mumbler/src/remote/server.rs:683-740 | announces the peer to all and all to the peer |
| ServerLoop.Relay.CreateRoom | crates/mumbler/src/remote/server.rs:654-673 | the new list holds whoever had chosen the room |
| ServerLoop.Relay.JoinRoom | crates/mumbler/src/remote/server.rs:748-791 | every member and the joining peer tell each other of their local objects |
| ServerLoop.Relay.LeaveRoom | crates/mumbler/src/remote/server.rs:793-819 | the peer leaves the list, and members and peer are told of it |
| ServerLoop.Relay.SendToRoom | crates/mumbler/src/remote/server.rs:822-843 | one message to every other member that is connected |
| ServerLoop.Relay.SendToAll | crates/mumbler/src/remote/server.rs:846-863 | one message to every other peer, all of them scheduled |
| ServerLoop.Relay.AcceptPeer | crates/mumbler/src/remote/server.rs:281-290 | a fresh peer under the next identifier, or a rejected connection |
| ServerLoop.Relay.RemovePeer | crates/mumbler/src/remote/server.rs:675-681 | the identifier is freed and the others are told; room lists stay as they are |
| ServerLoop.Relay.DispatchPeer | crates/mumbler/src/remote/server.rs:291-325 | a peer is taken out, its events are handled until one fails, and it is put back or dropped |
| Wakeups.HandleWakes | crates/mumbler/src/remote/server.rs:431-650 | every peer an event writes to is in the poll set afterwards |
| Wakeups.LeaveWakesExactly | crates/mumbler/src/remote/server.rs:793-819 | leaving a room by itself loses no wake-up if and only if every connected member is scheduled already |
| Wakeups.HandleAllWakes | crates/mumbler/src/remote/server.rs:291-325 | the same for whole dispatches, and a peer that is put back is scheduled |
| Wakeups.TurnAttended | crates/mumbler/src/remote/server.rs:908-946 | each turn of the polling loop leaves every connection scheduled, woken, or watched with nothing it could write |
| Wakeups.AlwaysAttended | crates/mumbler/src/remote/server.rs:908-946 | the same after any run of accepts, wake-ups, refreshes and polls |
| Wakeups.QuietMeansWatched | crates/mumbler/src/remote/server.rs:894-946 | when nothing is scheduled and no waker has fired, every connection's waker is registered |
| Framing.ReceivedIsPrefix | crates/mumbler/src/remote/peer.rs:61-120 | under any partial writes and deliveries the received bodies are an initial part of the sent ones, and all of them once everything is delivered |
| Framing.ReadPending | crates/mumbler/src/remote/peer.rs:61-120 | a read yields the next sent body exactly when all of its bytes are there, and refuses exactly the oversized |
| Framing.BigEndianRoundTrip | crates/mumbler/src/remote/client.rs:82-91 | the length prefix can be read back |
| Framing.BigEndianGrows | crates/mumbler/src/remote/client.rs:82-91 | greater lengths have greater bytes: the first one counts most |
| Transport.ReadWindowBytes | crates/mumbler/src/remote/client.rs:95-120 | where the cursors stand makes no difference to what is read |
| Transport.DeliveredExactly | crates/mumbler/src/remote/client.rs:246-291 | a frame of accepted length is delivered under every cutting into socket reads if and only if it ends by one position past the last at which a whole read fits, a one-byte body being let off by one more |
| Transport.FrameCompletes | crates/mumbler/src/remote/client.rs:246-291 | the sufficient half, for chunks of any size |
| Transport.FrameMayComplete | crates/mumbler/src/remote/client.rs:246-291 | up to the capacity some cutting delivers the frame |
| Transport.FrameNeverCompletes | crates/mumbler/src/remote/client.rs:246-291 | a body that would end past the capacity is never delivered, however the stream goes on |
| Transport.Buf.WriteMessage | crates/mumbler/src/remote/client.rs:82-91 | appends one frame, or leaves a message that is too long where it is |
| Transport.Buf.ReadArray | crates/mumbler/src/remote/client.rs:95-108 | takes exactly the next bytes, or nothing |
| Transport.Buf.ReadSlice | crates/mumbler/src/remote/client.rs:112-120 | the same for a length known at run time |
| Transport.Buf.WriteBytes | crates/mumbler/src/remote/client.rs:130-143 | appends to what is unread, wherever the cursors are |
| Transport.Buf.AdvanceRead | crates/mumbler/src/remote/client.rs:187-194 | drops from the front and goes back to the start when nothing is left |
| Transport.Buf.PollRead | crates/mumbler/src/remote/client.rs:246-291 | appends what the socket had, unless a whole read might not fit or the peer has closed |
| Transport.Buf.PollWrite | crates/mumbler/src/remote/client.rs:294-341 | what goes to the socket is what leaves the buffer, in order, and it is done only when all is written and flushed |
| Transport.Peer.Read | crates/mumbler/src/remote/peer.rs:61-120 | the reader's loop computes the reading of its window |
| Transport.Peer.Send | crates/mumbler/src/remote/peer.rs:124-130 | sending appends one frame and touches nothing that is unread; a message that is too long stays in the scratch, before whatever is sent next |
| DirtySets.DrainExact | crates/mumbler/src/client.rs:338-390 | one pass of the drain makes the server's copy equal exactly when the two differed only where marked and nothing present waits to be removed |
| DirtySets.DrainEffect | crates/mumbler/src/client.rs:338-390 | what a drain does to any copy, property by property, object by object, image by image |
| Sessions.AlwaysDrains | crates/mumbler/src/client.rs:35-79 | in every session, while connected, draining in any order gives exactly the local objects, images and remote properties, snapshots under stale marks included |
| Sessions.RunSound | crates/mumbler/src/backend.rs:429-777 | the invariant behind that, over any mix of edits, removals, connects, losses and drains |
| Sessions.StepSound | crates/mumbler/src/client.rs:338-390 | each step keeps it, and right after a drain the copies are equal |
| Sessions.CreateObjectExact | crates/mumbler/src/backend.rs:612-655 | a created object arrives if and only if its identifier does not wait to be removed |
| Sessions.InsertImageExact | crates/mumbler/src/backend.rs:687-730 | the same for an image |
| Sessions.LostObjectReached | crates/mumbler/src/backend.rs:658-685 | a session reaches a state in which a drain loses an object |
| Sessions.LostImageReached | crates/mumbler/src/backend.rs:733-777 | and one in which it loses an image |
| Sessions.SnapshotMatches | crates/mumbler/src/client.rs:35-79 | what connecting hands over is the local state |
| Sessions.RemoveImageMarks | crates/mumbler/src/backend.rs:733-777 | removing an image marks every object it takes a property from |
| Sessions.RemoveObjectMarks | crates/mumbler/src/backend.rs:658-685 | removing an object keeps the marks right, the room it may have been included |
| Sessions.UpdateMarks | crates/mumbler/src/backend.rs:429-491 | so does updating one |
| Sessions.PropertiesMark | crates/mumbler/src/backend.rs:525-608 | and setting the client's own properties, of which only the remote ones are marked |
| Sessions.NewObjectLast | crates/mumbler/src/backend.rs:627-641 | a new object that is not global sorts strictly above all others |
| LocalReadings.UpdateReads | crates/mumbler/src/backend.rs:429-491 | after an update each key reads as it was last assigned and every other as before, the marks grow by exactly the assigned keys, and no other object changes |
| LocalReadings.PropertiesRead | crates/mumbler/src/backend.rs:525-608 | likewise for the client's own properties; a secret brings its derived key unless it is empty, and only name and room are marked |
| LocalReadings.CreatedReads | crates/mumbler/src/backend.rs:612-655 | a created object has the properties it was given, its own sort key apart |
| LocalReadings.RemovedReads | crates/mumbler/src/backend.rs:658-685 | a removed object is gone and the client in no room if it was that; every other property reads as before |
| LocalReadings.ImageAddedReads | crates/mumbler/src/backend.rs:687-730 | an inserted image is there as it is |
| LocalReadings.WithoutImageReads | crates/mumbler/src/backend.rs:733-777 | an object loses exactly the properties that name a removed image, and those are marked |
| LocalReadings.ImageRemovedReads | crates/mumbler/src/backend.rs:733-777 | a removed image is gone from all objects, and exactly those that had it are marked |
| LocalReadings.OnlyNameAndRoomShown | crates/mumbler/src/client.rs:35-79 | of its own properties a client hands over and sends its name and its room, and no other |
| LocalReadings.SecretNeverSent | crates/mumbler/src/client.rs:338-390 | in no session is the secret ever due to be sent |
| ServerCopy.ServerApplies | crates/mumbler/src/remote/server.rs:522-621 | the relay takes in each change exactly as the copy is meant to |
| ServerCopy.ServerTakes | crates/mumbler/src/remote/server.rs:459-521 | after connecting the relay holds what was handed over, on top of what an earlier connect left |
| ServerCopy.DrainArrives | crates/mumbler/src/client.rs:338-390 | a whole drain, handled by the relay in one batch, leaves it with exactly the client's objects and remote properties |
| ServerCopy.DrainSeen | crates/mumbler/src/client.rs:338-390 | and then the other clients' folded views hold them too |
| ClientState.ClientState.ObjectUpdate | crates/mumbler/src/backend.rs:429-491 | each key reads as last assigned, every other as before, and exactly the assigned keys are marked |
| ClientState.ClientState.Updates | crates/mumbler/src/backend.rs:525-608 | likewise for the client's own properties, an empty secret being passed over |
| ClientState.ClientState.LastSort | crates/mumbler/src/backend.rs:628-632 | the greatest sort key of all objects, if there are any |
| ClientState.ClientState.CreateObject | crates/mumbler/src/backend.rs:612-655 | the object is entered, sorted after all others, and marked as added |
| ClientState.ClientState.RemoveObject | crates/mumbler/src/backend.rs:658-685 | it is taken out of everything but the removals, and the client leaves its room if it was that |
| ClientState.ClientState.InsertImage | crates/mumbler/src/backend.rs:687-730 | the image is entered and marked |
| ClientState.ClientState.RemoveImage | crates/mumbler/src/backend.rs:733-777 | the image goes, and so does every reference to it |
| ClientState.ClientState.Hand | crates/mumbler/src/client.rs:35-79 | the lists handed over hold each object and image once, and the remote properties |
| ClientState.ClientState.Drain | crates/mumbler/src/client.rs:338-390 | what is sent is a drain in some order, leaves nothing marked, and brings any copy that was near to equality |
| OrderRef.OrderRef.Update | crates/web/src/order.rs:154-181 | the index stays right, a group of the object's own peer or a sort key is entered and nothing else changes, and the result says whether it did |
| OrderRef.OrderRef.Reorder | crates/web/src/order.rs:184-196 | the object moves to its new group and key |
| OrderRef.OrderRef.Remove | crates/web/src/order.rs:251-257 | the object leaves table and index |
| OrderRef.OrderRef.Insert | crates/web/src/order.rs:260-278 | the index stays right if and only if the object is new, global, or does not move |
| OrderRef.OrderRef.Retain | crates/web/src/order.rs:287-298 | the index stays right if and only if no kept object sits in a dropped group |
| OrderRef.OrderRef.DataInsert | crates/web/src/order.rs:77-90 | one key more in its group, and whether it was new |
| OrderRef.OrderRef.DataRemove | crates/web/src/order.rs:93-116 | one key less, and an emptied group is gone |
| OrderRef.OrderRef.DataReorder | crates/web/src/order.rs:119-143 | a key that is there moves to its new group, one that is not changes nothing, and an index that was right stays right |
| OrderRef.OrderRef.IsEmpty | crates/web/src/order.rs:200-207 | true exactly when no object names the group |
| OrderRef.OrderRef.ChildCount | crates/web/src/order.rs:210-217 | the number of objects that name the group |
| OrderRef.IterIsListing | crates/web/src/order.rs:220-229 | iteration is the one list that holds the group's objects in ascending order |
| OrderRef.RetainsOwned | crates/web/src/order.rs:287-298 | a filter that the zero peer passes is safe over groups owned by their objects' peers |
| Order.AlwaysOwned | crates/web/src/components/map.rs:1640-1835 | whatever happens to the map, every group stays one of its objects' own peer, or the root |
| Order.UpdatedAsReentered | crates/web/src/order.rs:154-181 | updating an entry is entering the object anew with the property changed |
| Order.IndexReplaced | crates/web/src/order.rs:260-278 | a second entry for an object keeps the index right exactly when it does not move |
| Order.IndexRetained | crates/web/src/order.rs:287-298 | filtering by peer does exactly when kept objects are in kept groups |
| Order.SortedUnique | crates/web/src/order.rs:220-229 | a set has one ascending list |
| DragOver.UpdateMoves | crates/web/src/order.rs:154-181 | a change of group moves an object to the list of its peer's new group under its old key, a change of key keeps it in its list, and all others keep their order |
| DragOver.ListingOrder | crates/web/src/order.rs:220-229 | a group is listed by sort key, then by peer, then by identifier |
| Walk.WholeIs | crates/web/src/order.rs:232-249 | the walk yields every object whose chain of groups ends in the root, once, and no other, cycles elsewhere or not |
| Walk.WholeBackIs | crates/web/src/order.rs:338-357 | so does the reverse walk |
| Walk.WalksParentFirst | crates/web/src/order.rs:309-357 | in both directions an object comes after its group |
| Walk.LeavesReversed | crates/web/src/order.rs:338-357 | leaves come in exactly opposite orders |
| Walk.FirstHitDrawnLast | crates/web/src/components/map.rs:1893-1896 | the leaf that a click hits first is the one drawn last |
| Walk.DepthBound | crates/web/src/order.rs:309-336 | no chain to the root is longer than there are objects, which bounds the stack |
| Walker.Walker.Next | crates/web/src/order.rs:317-336 | terminates and yields the next object of the walk; the set of visited objects never suppresses one |
| Walker.Walker.NextBack | crates/web/src/order.rs:338-357 | the same for the reverse walk |
| Walker.FirstHit | crates/web/src/components/map.rs:1893-1896 | finds the first accepted object in walk order, if any |
| Walker.DrawingOrder | crates/web/src/components/map.rs:2621 | goes through the whole reverse walk |
| DragOver.InsertedExactly | crates/web/src/order.rs:184-229 | an object appears at a place in its group exactly when its key fits between the neighbours there |
| DragOver.OtherGroups | crates/web/src/order.rs:184-229 | other groups only lose the moved object |
| DragOver.LandsRightExactly | crates/web/src/drag_over.rs:56-105 | a drop lands where it was aimed exactly when the new key fits there |
| Placement.AbovePlaced | crates/web/src/drag_over.rs:73-88 | dropped above, an object lands right before the target if and only if the neighbours' sort keys leave room, the others keeping their order; equal keys and the object as its own neighbour included |
| Placement.BelowPlaced | crates/web/src/drag_over.rs:89-102 | dropped below, right after it, likewise |
| Placement.IntoPlaced | crates/web/src/drag_over.rs:60-72 | dropped into a group, an object always becomes its last child |
| DragEnd.Map.End | crates/web/src/components/map.rs:2418-2465 | exactly which drops are refused, and that the others put the object where the placement results say |
| DragEnd.MovedStaysReachable | crates/web/src/components/map.rs:2438-2444 | after a drop an object is still in the walk exactly when it is not above its new group |
| DragEnd.CyclicDropAccepted | crates/web/src/components/map.rs:2438-2444 | a drop into a descendant is accepted and makes a cycle |
| DragEnd.SortIsForOrder | crates/web/src/drag_over.rs:56-105 | the key computed from the objects is the one for the order |
| ObjectTree.VisibilityOf | crates/web/src/objects.rs:149-163 | terminates on an acyclic chain with the greatest visibility on it: hidden if anything there is hidden locally, remote if nothing there is hidden at all |
| ObjectTree.IsLocked | crates/web/src/objects.rs:167-183 | whether anything on the chain is locked; a lock also ends the loop on a cycle |
| ObjectTree.ReparentExact | crates/web/src/objects.rs:535-537 | moving an object keeps all chains acyclic exactly when it is not on its new group's chain |
| Sorting.MidpointImpl | crates/sorting/src/lib.rs:41-78 | the loop computes the specified string |
| Sorting.MidpointBetween | crates/sorting/src/lib.rs:12-21 | for ordered strings the midpoint lies strictly between, except exactly in two named cases |
| Sorting.MidpointOutside | crates/sorting/src/lib.rs:41-78 | and on which side it lies in those |
| Sorting.MidpointOfFailure | crates/sorting/src/lib.rs:41-78 | what the midpoint is where it fails: the lower string grown, or zeros and half of a byte |
| Sorting.MidpointSymmetric | crates/sorting/src/lib.rs:12-21 | the order of the arguments does not matter |
| Sorting.BeforeBelow | crates/sorting/src/lib.rs:28-30 | before sorts below exactly the strings with a byte of at least two |
| Sorting.AfterAbove | crates/sorting/src/lib.rs:37-39 | after always sorts strictly above |
| Sorting.AfterPotential | crates/sorting/src/lib.rs:41-78 | each step spends one of the halvings left in the bytes, or adds a byte with seven |
| Sorting.AfterNLength | crates/sorting/src/lib.rs:37-39 | the exact length after any number of steps, at most one byte for eight |
| Sorting.AfterNIncreasing | crates/sorting/src/lib.rs:37-39 | every later string sorts strictly above every earlier one |
| ModInverse.Compute | crates/api/src/hash.rs:7-17 | the loop computes five steps of the iteration |
| ModInverse.StepDoublesBits | crates/api/src/hash.rs:7-17 | each step doubles the number of correct low bits |
| ModInverse.OddInverse | crates/api/src/hash.rs:7-17 | the result is the inverse of any odd word |
| Hash.Mix | crates/api/src/hash.rs:41-51 | the in-place mixer computes its specification |
| Hash.Unmix | crates/api/src/hash.rs:21-38 | so does the in-place inverse |
| Hash.UnmixMix | crates/api/src/hash.rs:21-51 | unmixing undoes mixing, for all words and seeds |
| Hash.MixUnmix | crates/api/src/hash.rs:21-51 | and the other way round |
| Hash.SeedActs | crates/api/src/hash.rs:41-51 | two words mix alike under two seeds exactly if they differ as the seeds do |
| Hash.SeedsDiffer | crates/api/src/hash.rs:41-51 | different seeds mix a word differently |
| Hash.MapBijective | crates/api/src/hash.rs:56-64 | map and unmap are inverse bijections |
| Hash.MapFixesZero | crates/api/src/hash.rs:56-64 | only zero is mapped to zero |
| Hash.MapSplits | crates/api/src/hash.rs:62-64 | mapping a counter under a seed splits into mapping one part of it under the seed with the other part taken in, and that part by itself |
| Identifiers.NextPartition | crates/api/src/ids.rs:33-41 | an identifier handed out is not zero and not live |
| Identifiers.NextFails | crates/api/src/ids.rs:33-41 | there is none exactly when all are live |
| Identifiers.FreePartition | crates/api/src/ids.rs:45-49 | a freed identifier waits to be handed out again |
| Identifiers.PartitionCounts | crates/api/src/ids.rs:11-49 | live and freed identifiers are as many as were ever counted |
| Identifiers.FirstFreedFirstIssued | crates/api/src/ids.rs:33-49 | what is freed first is issued first |
| Identifiers.Ids.Next | crates/api/src/ids.rs:33-41 | freed ones first, then the counter, until it wraps |
| Identifiers.Ids.Free | crates/api/src/ids.rs:45-49 | zero is not taken back |
| NewIds.AtomicIds.Next | crates/api/src/ids.rs:70-75 | draws at the counter, nothing where it wraps |
| NewIds.NewId | crates/mumbler/src/backend.rs:332-342 | a fresh identifier is never zero or used, and comes after at most as many rejections as there are used ones, or not at all when the counter wraps |
| NewIds.RejectionsBounded | crates/mumbler/src/backend.rs:332-342 | no more draws in a row can be taken than identifiers are used |
| WebPeers.RoundTrips | crates/web/src/peers.rs:115-138 | the two conversions undo each other exactly for local and known, distinct peers |
| WebPeers.MutualDetermines | crates/web/src/peers.rs:63-109 | mutually inverse tables determine each other, and keys are distinct |
| WebPeers.Peers.Insert | crates/web/src/peers.rs:92-109 | the tables stay inverse through identifier reuse, key change and key takeover |
| WebPeers.Peers.Remove | crates/web/src/peers.rs:80-84 | and through removal |
| WebPeers.Peers.Clear | crates/web/src/peers.rs:63-66 | and clearing |
| WebPeers.Peers.ByPublicKey | crates/web/src/peers.rs:74-77 | finds the holder of a key exactly when there is one |
| Values.PropertyMap.Insert | crates/api/src/properties.rs:57-67 | an empty value removes its key |
| Values.PropertyMap.Update | crates/api/src/properties.rs:76-111 | changes, and says so, only when there is something to change |
| Values.PropertyMap.Remove | crates/api/src/properties.rs:115-121 | yields what was there |
| Values.EmptyReadsAsAbsent | crates/api/src/value.rs:289-299 | a value is empty exactly when no reader can tell it from an absent one |
| Values.UnchangedNear | crates/api/src/properties.rs:88-95 | to count as unchanged goes both ways, and for floats means less than the epsilon apart |
| Values.EpsilonIsLastDigit | crates/api/src/properties.rs:91 | the epsilon is two to the minus 52 |
| Values.IdBytesDigits | crates/api/src/id.rs:57 | the bytes of an identifier are its digits, the least first |

## Left out

- Sockets, TLS, timers, pings timing out, HTTP and websocket routing: only what the socket answers enters the model, as a parameter.
- Signatures, key derivation and the encoding of bodies: the check is a Boolean, derivation a function parameter, a body is a byte string, and one that cannot be decoded is the event `Unsupported`.
- Images on the relay and in a client's view: the relay's image messages are sent beside those that are modelled and change no property or object. The unsent changes do include images.
- Aliasing of peer records: a handled peer is a value that is taken out of the table and put back, as the source moves its box; two references to one record do not occur.
- Freshness of wakers: a registered waker is a flag, and a socket wakes by the step `Woke`.
- Broadcasts to the web page: output only.
- The database, the mumble link, notifications and the image cache of the backend: writes beside the state that is modelled.
- The version counters and shared references around the order, the objects and the peers of the web page.
- Rendering, geometry and interpolation, and all properties of objects other than group, order, visibility and lock.
- Protocol.Client.HandlePeer: images and broadcasts, which change nothing the model holds; the answer to a challenge is recorded by its nonce, and what it hands over is `ClientState.ClientState.Hand`.
- ServerLoop.Relay.Handle: image events, which keep a table beside the objects and are sent to everybody, and timeouts.
- ServerLoop.Relay.Connect: the images taken in and sent early.
- ServerLoop.Relay.Connected: the images announced.
- Connections.LoginsAnswerChallenges: of connections that are still there; one that has been dropped has no record to speak of.
- Runs.GlobalsReplicated: on runs that re-create no global object as a local one while somebody is outside the owner's room; `Exceptions.RecreationExact` is the exact condition for each event.
- Runs.LocalsReplicated: for created rooms, on runs that open them for peers of which no two have local objects; `Exceptions.RoomOpensExact` is the exact condition for each event.
- Sharing.NoStrays: on runs that keep the lists exact and remove no room whose peers have something to show each other; `Membership.AcceptExact`, `Membership.ConnectingExact` and `Exceptions.RoomClosesExact` are the exact conditions.
- Membership.MembersAreHolders: on runs that reissue no listed identifier and keep every peer's place; `Membership.AcceptExact` and `Membership.ConnectingExact` are the exact conditions.
- Sessions.AlwaysDrains: on sessions that remove only what was created; `Sessions.CreateObjectExact` and `Sessions.InsertImageExact` are the exact conditions for each creation.
- ObjectTree.VisibilityOf: requires a chain that ends, since the source does not come back from one that does not.
- Values.Unchanged: floats are reals, so rounding is not modelled.

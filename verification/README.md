# libicq2000 in Dafny

libicq2000 is a client library for ICQ2000 (OSCAR). This project models the parts of it that keep state over
time or turn values into bytes and back, and proves what they promise (the names in parentheses are files):

- **Message delivery** (`Delivery`, `DeliveryEffects`, `DeliveryRuns`, `DeliveryTruth`, `DeliveryAddress`,
  `DeliveryContacts`, `MessageClient`). An outgoing event waits in the queue of a
  direct connection, in that connection's cache of unacknowledged messages, or in the cookie cache of messages
  sent via the server, until it is acknowledged, expires or cannot be sent; then it is freed.
- **Direct connections** (`DirectConn`, `DirectClient`, `DirectOrder`, `DirectVersions`, `Handshake`, `Cipher`,
  `CipherFormat`). The handshake of two peers over two FIFO channels, its two versions, the numbering of messages, and
  the scrambler.
- **File transfer** (`FileTransfer`, `FileTransferRuns`, `FileTransferResume`, `FileTransferClient`), **mail** (`Smtp`,
  `SmtpSession`, `SmtpClient`) and the **state of the server connection** (`Connection`, `ConnectionLogin`,
  `ConnectionClient`).
- **Codecs**: `Buffer`, `BufferEnds`, `Framing`, `ServerLink` and `FileLink` for packets and streams, `IcqText`,
  `IcqCodec`, `IcqRoundTrip`, `IcqWire` and `IcqSubTypes` for ICQ messages, `XmlEscape`, `XmlParser`, `XmlRoundTrip` and
  `XmlReader`, `Crlf`.
- **Cache**: the expiry list under all the caches.

Each protocol is a set of functions on values, one a handler, which say what the next state is. The classes and
loop methods have the fields and control flow of the source and are proved to compute these functions; the lemmas
prove the properties of whole runs about the functions. Where an operation may fail, its success is an argument,
so that a run ranges over every pattern of failures. Clocks, random numbers and the results of system calls are
arguments too. Signals are traces of what was emitted, or direct calls. `dafny verify dfyconfig.toml` checks
everything.

What the proofs show about the code besides:

- A refreshed cache item is filed again under the expiry time it already had (src/Cache.h:159-166), and inserting
  under a key already present hides the new item exactly behind one that expires earlier
  (`Cache.DuplicateInsertIsFoundIff`, with an input in `Cache.DuplicateInsertIsHidden`).
- Acks of contact lists are not recognised (src/Client.cpp:406-442). An ack of an event's own type settles it exactly
  when it is not a contact list (`DeliveryContacts.OwnAckSettlesIff`); with such acks a contact list sent the advanced
  way stops waiting only when its cookie expires, and is then sent a second time (`DeliveryContacts.ListIsSentOnExpiry`,
  with a run in `DeliveryContacts.ListIsSentTwice`).
- A send that fails while a connection acknowledgement or the rate information is handled leaves a state with no socket
  behind it (src/Client.cpp:1371-1405, 1407-1470). `Connection.StaysBackedIff` says on which runs this never happens,
  `Connection.LostLogin` gives a run on which it does, and `Connection.UnbackedEndsIff` says which calls end such a
  state: whatever sends, such as the ping of the next poll, going offline, and the events of the socket, but not going
  online again.
- An away message request that goes unanswered for half a minute while the server is connected is sent once more as a
  normal message and then counts as delivered (src/Client.cpp:943-959, `DeliveryEffects.ExpireCookieFinishes`), although
  one that cannot ask for an ack counts as not delivered (`DeliveryEffects.SendViaServerTells`).
- The text of a CDATA section is unquoted like any other, and a single ] in it moves behind what follows
  (`XmlReader.CDataLeaf`, `XmlReader.CDataReadsIff`).
- Only the first quarter of a direct packet is scrambled (`CipherFormat.EncryptedBytes`).
- The initiator of a direct connection can complete the handshake exactly when it had recorded version 7 for its peer,
  called the right UIN and is confirmed by the acceptor (`Handshake.ConnectsIff`).
- A FLAP with a bad start byte empties the receive buffer. Chunking shows in exactly those streams which have a byte 42
  after their first bad start byte (`Framing.InvisibleIff`, with a stream in `Framing.BadStartByteIsVisible`).
- A receiver of files is complete when the announced total is reached (src/FileTransferClient.cpp:707-711). So an empty
  file at the end of several never arrives and the sender does not complete; in exactly the other cases a transfer can be
  finished (`FileTransferRuns.DeliversIff`).
- When a recipient, DATA or a text is refused and another message waits, the mailer says MAIL again without RSET, inside
  the mail transaction that is still open (src/SMTPClient.cpp:98-117; RFC 5321, section 4.1.4). `Smtp.InOrderIff` says
  exactly when, and `Smtp.RefusedRecipientNests` gives a run.
- Which leaf values and which ICQ fields survive their round trips is stated as an exact condition
  (`XmlRoundTrip.LeafSurvivesIff`, `IcqRoundTrip.ParseInvertsOutputIff`).

## Model

| member | source | states |
|---|---|---|
| `DeliveryRuns.ExactlyOnce` | src/Client.cpp:2052-2196 | On every run of sends, acks, polls, packets, teardowns and disconnects: an event held by the library has exactly one owner among the direct queues, the direct ack caches and the cookie cache and has had no finished messageack; an event it no longer holds has none; a freed one was freed once, directly after its one finished messageack, and never mentioned again. |
| `DeliveryRuns.InvExactlyOnce` | src/Client.cpp:473-494 | What the ownership invariant says of one event: one owner while live, none after, and one finished messageack directly before its only delete. |
| `DeliveryRuns.RunDescends` | src/Client.cpp:473-494 | Over any run an event only moves down: direct queue, direct ack cache, cookie cache, finished. It never moves back up and never from one connection to another. |
| `DeliveryRuns.PerformDescends` | src/Client.cpp:406-494 | Every single call moves events only downwards. |
| `DeliveryRuns.NeverLost` | src/Client.cpp:2052-2196 | A live event is, after any run, still live or finished and freed; none drops out of the caches unnoticed. |
| `DeliveryRuns.SubmittedSettles` | src/Client.cpp:1981-2050 | Whatever is submitted in the course of a run is at its end held by exactly one owner with no finished messageack yet, or was freed once, directly after its one finished messageack: nothing is dropped on its way in. |
| `DeliveryRuns.EverythingSettles` | src/Client.cpp:274-291 | After the server connection is lost, one poll later than every cookie deadline leaves no live event: each has had its final messageack. |
| `DeliveryRuns.PollsSettle` | src/Client.cpp:1737-1753 | While the server stays connected two late polls settle everything too: the first later than every connection deadline, the second later than every cookie deadline then left. |
| `DeliveryRuns.SendViaServerLowers` | src/Client.cpp:2052-2131 | An event in hand that goes via the server ends up under a cookie or freed, and nothing that was so before stops being so. |
| `DeliveryRuns.GiveUpAllLowers` | src/Client.cpp:473-494 | Giving up any number of events in hand leaves each under a cookie or freed. |
| `DeliveryRuns.TeardownDescends` | src/DirectClient.cpp:76-87 | Deleting a connection moves what it holds to the cookie cache or finishes it, and moves nothing else. |
| `DeliveryRuns.PollDescends` | src/Client.cpp:1737-1753 | A poll moves events only downwards. |
| `DeliveryTruth.DeliveryIsTruthful` | src/Client.cpp:406-442 | Whatever the call, a messageack says delivered only for an event whose ack has just arrived with a favourable status, or for one just handed to the connected server to be sent without an ack; losing the server, or word that a contact is offline, reports nothing as delivered. |
| `DeliveryTruth.ServerAckEntitled` | src/Client.cpp:406-442 | An ack from the server reports delivery of the event of its cookie only, and only when its status says so. |
| `DeliveryTruth.DirectAckEntitled` | src/DirectClient.cpp:479-494 | The same for an ack on a connection. |
| `DeliveryTruth.GiveUpAllTruthful` | src/DirectClient.cpp:131-136 | Giving events up reports delivery only while the server is connected. |
| `DeliveryTruth.AckTellsStatus` | src/MessageHandler.cpp:232-286 | An ack tells of the event it is for, once, and of no other: with the status online, away, taken in occupied or not available as delivered, with denied, occupied or do not disturb as not delivered, with any other as the flag was; an away message request as delivered whatever the status. |
| `Delivery.Teardown` | src/DirectClient.cpp:76-87 | A deleted connection is gone from the list, the invariant holds again and whether the server is connected is unchanged: the destructor gives up every cached and queued event. |
| `Delivery.TeardownAll` | src/DCCache.h:45-54 | No connection is left and the invariant holds. |
| `Delivery.ServerDisconnect` | src/Client.cpp:274-291 | Afterwards the client is offline with no connections, and the invariant holds. |
| `Delivery.PollCookies` | src/Cache.h:181-185 | Exactly the overdue cookies are taken off the front, and the invariant holds. |
| `Delivery.PollConnections` | src/DCCache.h:56-63 | The connections left are the old ones without the overdue front, and the invariant holds. |
| `Delivery.Submit` | src/Client.cpp:1981-2050 | A new event is live or freed afterwards, and the invariant gives it one owner while it is live; where it goes is stated by DeliveryAddress.SubmitGoesTo. |
| `Delivery.SendViaServerKeepsInv` | src/Client.cpp:2052-2131 | An event in hand that goes via the server is no longer in hand, and ownership is whole: cookies stay distinct and a delete follows its finished messageack. |
| `Delivery.GiveUpAllKeepsInv` | src/Client.cpp:473-494 | Giving up any number of events in hand keeps ownership whole, with none of them in hand afterwards. |
| `Delivery.CookieKeepsInv` | src/ICBMCookieCache.h:53-58 | A fresh cookie keeps cookies distinct and gives the event its one owner. |
| `Delivery.CookieIsUnique` | src/ICBMCookieCache.h:53-58 | A stored cookie names one event only. |
| `Delivery.FlushOwns` | src/DirectClient.cpp:815-820 | Flushing moves the queue to the ack cache and loses nothing. |
| `Delivery.PacketOwns` | src/DirectClient.cpp:177-242 | A handshake packet changes which list an event is on, not who owns it. |
| `DeliveryEffects.ExpireCookieFinishes` | src/Client.cpp:943-959 | An overdue cookie: its event gets one finished messageack, delivered exactly when the server is connected, and is freed directly afterwards; the other events, cookies and connections are untouched and the contact loses the advanced route. |
| `DeliveryEffects.ServerAckFinishes` | src/Client.cpp:406-442 | An ack from the server finishes and frees exactly the event waiting under its cookie, delivered as its status says; an unknown cookie or type changes nothing at all. |
| `DeliveryEffects.DirectAckFinishes` | src/DirectClient.cpp:479-494 | An ack on a connected connection finishes and frees exactly the event sent under its number and takes it out of the ack cache; any other ack changes nothing. |
| `DeliveryEffects.RemoveContactLeavesOthers` | src/DCCache.h:65-83 | Deleting the connections of a contact while iterating removes exactly these and keeps the others in order. |
| `DeliveryEffects.ExpireMessagesDrops` | src/DirectClient.cpp:126-136 | Exactly the overdue messages leave the ack cache of the connection, and each is then under a cookie or freed. |
| `DeliveryEffects.PollLeaves` | src/Client.cpp:1737-1753 | A poll deletes the overdue connections at the front of the list and drops exactly the overdue messages from the ack caches of those that stay. |
| `DeliveryEffects.AcceptAdds` | src/Client.cpp:1814-1828 | An accepted connection is listed with nothing in it, beside all the old ones, and nothing else changes. |
| `DeliveryEffects.PacketEffect` | src/DirectClient.cpp:155-245 | A packet that fails deletes the connection, with each of its events under a cookie or freed; otherwise the connection is replaced by what the packet made of it, under the longer timeout once connected, and no event is signalled. |
| `DeliveryEffects.SendViaServerTells` | src/Client.cpp:2052-2196 | A message that goes via the server waits under a new cookie for half a minute if it asks for an ack and the server is connected; otherwise it is finished and freed, delivered exactly if the server is connected and it is no away message request. Authorisation messages never ask for an ack, others do if the contact takes advanced messages. |
| `DeliveryEffects.TeardownTells` | src/DirectClient.cpp:76-87 | A deleted connection signals each message it held once, as unfinished, the ack cache in expiry order and then the queue, and the contacts of these messages lose the direct route, no others. |
| `DeliveryEffects.ExpireMessagesTells` | src/DirectClient.cpp:126-136 | The same for the overdue messages of one connection. |
| `DeliveryEffects.OfflineUserTells` | src/Client.cpp:444-471 | Word from the server that a contact is offline is passed on as one unfinished signal, and the event waits on. |
| `DeliveryAddress.NothingGoesAstray` | src/Client.cpp:2002-2050 | On every run whatever is queued on a connection, waits there for an ack or was ever sent on it was submitted for the contact at its other end; what is queued or waits is live and still names that contact. |
| `DeliveryAddress.SubmitGoesTo` | src/Client.cpp:1981-2050 | Exactly when a submitted event goes direct; then it is put on the first connection of its contact, or on a new one to it when there is none, every other connection staying as it was; otherwise it goes via the server and no connection is touched. |
| `DeliveryAddress.RunPosted` | src/Client.cpp:2002-2050 | Every run keeps each connection to events for its contact. |
| `DeliveryAddress.PacketKeepsRight` | src/DirectClient.cpp:155-245 | A handshake packet keeps this, an acceptor learning its contact only when it connects, with nothing to send before. |
| `DeliveryAddress.ByContactIsFirst` | src/DCCache.h:85-104 | The connection looked up is the first one of the contact, and none is found exactly when there is none. |
| `DeliveryContacts.OwnAckSettlesIff` | src/Client.cpp:406-442 | An ack carrying the type byte of the event that waits under its cookie finishes and frees that event if and only if it is not a contact list; for a contact list nothing changes. |
| `DeliveryContacts.ListLeavesIff` | src/Client.cpp:406-442 | Whatever the call, a contact list waiting under a cookie stops waiting if and only if the call is a poll that finds its cookie overdue; then it is sent again, signalled finished and freed. |
| `DeliveryContacts.ListIsSentOnExpiry` | src/Client.cpp:943-959 | On every run whose acks are of the types of their events a contact list is at the end still waiting, or a poll has sent it a second time when its cookie expired; no ack settles it. |
| `DeliveryContacts.ListIsSentTwice` | src/MessageHandler.cpp:472-541 | A concrete run: a submitted contact list, an ack of its own type that changes nothing, and the second sending. |
| `DeliveryContacts.RunKinds` | src/Client.cpp:2052-2131 | On every run only normal, URL, away and contact-list messages wait under a cookie. |
| `DeliveryContacts.PollTakesOverdue` | src/Client.cpp:1737-1753 | A poll ends the wait of exactly the events whose cookies are overdue, by sending them again. |
| `MessageClient.Client.constructor` | src/Client.cpp:66-84 | A new client holds nothing. |
| `MessageClient.Client.Signal` | src/Client.cpp:473-494 | Sets the flags of the event and emits it; nothing else changes. |
| `MessageClient.Client.SendViaServerNormal` | src/Client.cpp:2164-2196 | Emits a finished messageack, delivered exactly when the server is connected. |
| `MessageClient.Client.SendViaServerAdvanced` | src/Client.cpp:2133-2162 | Stores the event under a fresh cookie, or finishes and frees it when offline. |
| `MessageClient.Client.SendViaServer` | src/Client.cpp:2052-2131 | The new state is that of the specification for each kind of event and each contact. |
| `MessageClient.Client.MessageExpired` | src/DirectClient.cpp:131-136 | An event given up by a connection is signalled unfinished, its contact loses the direct route, and it goes via the server. |
| `MessageClient.Client.DeleteConnection` | src/DirectClient.cpp:76-87 | The destructor loop over the cache and then the queue has the effect of Teardown, and just that connection leaves the list. |
| `MessageClient.Client.DeleteAllConnections` | src/Cache.h:126-130 | The loop deletes every connection with the effect of TeardownAll. |
| `MessageClient.Client.DeleteContactConnections` | src/DCCache.h:65-83 | Deleting while iterating has the effect of TeardownContact. |
| `MessageClient.Client.DisconnectBos` | src/Client.cpp:274-291 | Losing the server has the effect of ServerDisconnect. |
| `MessageClient.Client.DisconnectAuthorizer` | src/Client.cpp:246-250 | Goes offline and keeps the direct connections. |
| `MessageClient.Client.ExpireFirstCookie` | src/Client.cpp:943-959 | Expiring the front cookie has the effect of ExpireCookie. |
| `MessageClient.Client.PollCookieCache` | src/Cache.h:181-185 | The loop expires exactly the overdue cookies. |
| `MessageClient.Client.PollDcCache` | src/DCCache.h:56-63 | The loop deletes exactly the overdue connections. |
| `MessageClient.Client.ClearoutMessages` | src/DirectClient.cpp:126-129 | The loop gives up exactly the overdue messages of one connection. |
| `MessageClient.Client.PollClient` | src/Client.cpp:1737-1753 | A poll has the effect of the specification, cookies, connections and messages in that order. |
| `MessageClient.Client.HandleAck` | src/MessageHandler.cpp:232-286 | Whether the event was delivered follows from its kind and the status of the ack; the messageack is finished. |
| `MessageClient.Client.SignalMessageAck` | src/Client.cpp:406-442 | Has the effect of ServerAck, also for unknown cookies and types. |
| `MessageClient.Client.SignalOfflineUser` | src/Client.cpp:444-471 | Emits an unfinished signal for the event of the cookie and keeps it. |
| `MessageClient.Client.DirectAckReceived` | src/DirectClient.cpp:479-494 | Has the effect of DirectAck. |
| `MessageClient.Client.GetByContact` | src/DCCache.h:85-104 | Finds the first connection of the contact, or none. |
| `MessageClient.Client.OpenConnection` | src/Client.cpp:2011-2050 | A new connection is entered in expiry order, or nothing changes when the peer is too old. |
| `MessageClient.Client.AcceptConnection` | src/Client.cpp:1814-1828 | An accepted connection is entered in expiry order. |
| `MessageClient.Client.SendEvent` | src/Client.cpp:1981-2000 | Has the effect of Submit. |
| `MessageClient.Client.SendDirect` | src/Client.cpp:2002-2050 | Says exactly when the direct route is taken, and what taking it does. |
| `MessageClient.Client.PacketReceived` | src/DirectClient.cpp:155-245 | Has the effect of Packet, with the teardown on an exception. |
| `MessageClient.Client.RaiseTimeout` | src/Client.cpp:988-993 | A connected connection gets the long timeout and its new place in the list. |
| `Handshake.HandshakeIsSafe` | src/DirectClient.cpp:155-245 | For every interleaving over two FIFO channels no packet meets a state that does not expect it and nothing is thrown; when both ends are connected they agree on session id, version 7 and each other, and both queues are empty. |
| `Handshake.NoEarlyMessage` | src/DirectClient.cpp:155-245 | A message packet is only ever read by an end that is connected. |
| `Handshake.HandshakeProgresses` | src/DirectClient.cpp:96-124 | While an end is not connected some handshake step is possible and brings the end nearer: no deadlock. |
| `Handshake.HandshakeCompletes` | src/DirectClient.cpp:155-245 | From every state that keeps the invariant, so from every reachable one, at most the handshake packets still to be taken connect both ends. |
| `Handshake.RunCompletes` | src/DirectClient.cpp:155-245 | After any run, however messages and packets were interleaved, some continuation connects both ends. |
| `Handshake.NothingRaisesRemaining` | src/DirectClient.cpp:155-245 | No enabled step, submitting a message included, raises the number of handshake packets still to be taken. |
| `Handshake.ConnectsIff` | src/DirectClient.cpp:303-418 | Some run connects both ends if and only if the initiator recorded version 7, called the right UIN, and is a contact the acceptor confirms. |
| `Handshake.ConnectedOnlyIfAgreeable` | src/DirectClient.cpp:303-418 | On no run do both ends connect unless these hold. |
| `DirectOrder.WireOrder` | src/DirectClient.cpp:694-729 | On every run the messages on the wire followed by the queue are the submitted events in order, numbered 0xFFFF downwards modulo 2^16; once connected all of them are on the wire. |
| `DirectOrder.AckSettlesItsSend` | src/DirectClient.cpp:479-489 | While the outstanding sends lie within 65536 consecutive ones, an ack takes out exactly the event sent with its number and no other. |
| `DirectOrder.OutstandingDistinct` | src/DirectClient.cpp:822-824 | Within such a window no two outstanding messages share a number. |
| `DirectOrder.SameNumberIff` | src/DirectClient.cpp:822-824 | Two sends get the same number exactly when their positions agree modulo 65536. |
| `DirectOrder.ShortRunWithin` | src/DirectClient.cpp:802-824 | On a run of at most 65536 sends the window condition always holds. |
| `DirectConn.InitPacketFields` | src/DirectClient.cpp:270-301 | The fields of an init packet lie where the reader looks for them. |
| `DirectConn.AcceptInitPacket` | src/DirectClient.cpp:303-369 | An acceptor takes an init packet exactly when it is addressed to its UIN, and learns version, UIN and session. |
| `DirectConn.CheckInitPacket` | src/DirectClient.cpp:303-369 | An initiator accepts the reply exactly when version, both UINs and session agree. |
| `DirectConn.ReadAcks` | src/DirectClient.cpp:371-418 | The ack and the second init packet, of either role, pass their readers. |
| `DirectVersions.InitiatorOfVersion6` | src/DirectClient.cpp:155-245 | An initiator that recorded version 6 is connected once it has taken the ack and an init packet that passes its checks, with everything submitted meanwhile on the wire in order, after its own ack. |
| `DirectVersions.AcceptorOfVersion6` | src/DirectClient.cpp:155-245 | An acceptor that gets an init packet of version 6 for it and then the ack is connected exactly if it knows the peer, whose contact is recorded. |
| `DirectVersions.Version6HasOneExchange` | src/DirectClient.cpp:397-418 | On no run does a connection whose version is not 7 write a packet of the second exchange, in either role. |
| `DirectVersions.InitiatorTakesInit` | src/DirectClient.cpp:176-193 | With a version 6 peer the init packet that passes ends the handshake and the queue goes out; with a later one the second exchange begins and the queue stays. |
| `DirectVersions.InitiatorTakesInit2` | src/DirectClient.cpp:214-226 | The second init packet connects an initiator, with the queue on the wire. |
| `DirectVersions.AcceptorTakesInit` | src/DirectClient.cpp:176-193 | An acceptor answers with an ack and its own init packet. |
| `DirectVersions.AcceptorTakesAck` | src/DirectClient.cpp:195-212 | With a version 6 peer the ack ends the handshake if the peer is known; with a later one the second exchange begins. |
| `DirectVersions.AcceptorTakesInit2` | src/DirectClient.cpp:214-226 | The second init packet is answered, and connects an acceptor exactly if it knows the peer. |
| `DirectVersions.AcceptsVersions` | src/DirectClient.cpp:303-369 | An acceptor takes init packets of any version from 6 on that are addressed to it, and talks version 6 to version 6 and version 7 to the rest. |
| `DirectVersions.ChecksVersion` | src/DirectClient.cpp:303-369 | An initiator takes an init packet of exactly the version it recorded, if UINs and session agree. |
| `DirectVersions.DialSettlesVersion` | src/DirectClient.cpp:96-119 | Dialling fails below version 6 and otherwise settles the version of the connection. |
| `DirectVersions.FlushSendsQueue` | src/DirectClient.cpp:815-820 | Flushing puts the queue on the wire in order, numbered downwards. |
| `DirectVersions.HandshakeLengths` | src/DirectClient.cpp:270-301 | Every handshake packet begins with its own length. |
| `DirectVersions.AckBytes` | src/DirectClient.cpp:397-418 | The ack and the second init packet of each role, byte by byte. |
| `DirectVersions.AcksRead` | src/DirectClient.cpp:371-395 | Exactly which packets pass as an ack and as a second init packet. |
| `DirectVersions.InitPacketLayout` | src/DirectClient.cpp:270-301 | Where an init packet holds its length, ports, addresses and constants. |
| `DirectClients.DirectClient.Incoming` | src/DirectClient.cpp:50-59 | A new acceptor. |
| `DirectClients.DirectClient.Outgoing` | src/DirectClient.cpp:64-74 | A new initiator. |
| `DirectClients.DirectClient.Dial` | src/DirectClient.cpp:96-119 | Picks the effective version, refuses versions below 6, keeps the session id. |
| `DirectClients.DirectClient.SendInitPacket` | src/DirectClient.cpp:270-301 | The bytes sent, with both length markers filled, are those of the specification. |
| `DirectClients.DirectClient.SendInitAck` | src/DirectClient.cpp:665-673 | The bytes of the ack. |
| `DirectClients.DirectClient.SendInit2` | src/DirectClient.cpp:397-418 | The bytes of the second init packet for each role. |
| `DirectClients.DirectClient.ReadInitVersion` | src/DirectClient.cpp:303-323 | Which versions are accepted and what is recorded. |
| `DirectClients.DirectClient.ReadInitPeer` | src/DirectClient.cpp:325-369 | Which UINs and session ids are accepted and what is recorded. |
| `DirectClients.DirectClient.ReadInitAck` | src/DirectClient.cpp:371-379 | Accepted exactly when the length is 4. |
| `DirectClients.DirectClient.ReadInit2` | src/DirectClient.cpp:381-395 | Accepted exactly when length and start byte are right. |
| `DirectClients.DirectClient.Confirm` | src/DirectClient.cpp:247-268 | Succeeds exactly for a known contact, which is recorded. |
| `DirectClients.DirectClient.NextSeqNum` | src/DirectClient.cpp:822-824 | Numbers count down modulo 2^16. |
| `DirectClients.DirectClient.SendPacketEvent` | src/DirectClient.cpp:694-729 | The message goes on the wire and into the ack cache under its number. |
| `DirectClients.DirectClient.SendEvent` | src/DirectClient.cpp:802-813 | Sent when connected, queued otherwise. |
| `DirectClients.DirectClient.FlushQueue` | src/DirectClient.cpp:815-820 | The loop sends the queue in order and empties it. |
| `DirectClients.DirectClient.TakePacket` | src/DirectClient.cpp:155-245 | One packet has the effect of the specification in every state and role; the result says whether an exception was thrown. |
| `DirectClients.DirectClient.TakeAck` | src/DirectClient.cpp:479-494 | An ack removes the entry with its number and returns its event, or nothing. |
| `CipherFormat.EncryptedBytes` | src/DirectClient.cpp:602-663 | A scrambled packet begins with its length; each byte of its first quarter from the check word on is the plaintext byte against a key byte made of the size, the check word and the table, and the rest is plain. |
| `CipherFormat.DecryptIff` | src/DirectClient.cpp:526-600 | A packet is given out unscrambled if the position, byte and table byte its check word claims are true of it, and refused if not. |
| `CipherFormat.AcceptsIff` | src/DirectClient.cpp:576-592 | The three tests as a condition on what the check word claims. |
| `CipherFormat.ChangedByteIsRefused` | src/DirectClient.cpp:576-592 | A packet whose hidden byte was changed on the way is refused. |
| `CipherFormat.PicksAnyPosition` | src/DirectClient.cpp:627-639 | Exactly the positions from 10 on, inside the packet and below 255, may be hidden. |
| `Cipher.DecryptInvertsEncrypt` | src/DirectClient.cpp:526-663 | For both versions, every plaintext of more than ten bytes and every random choice, Decrypt accepts what Encrypt made and yields header, check word and the plaintext from byte 4 on. |
| `Cipher.ScrambleTwice` | src/DirectClient.cpp:641-659 | The XOR loop undoes itself. |
| `Cipher.VerificationOfCheckWord` | src/DirectClient.cpp:627-639 | The check word gives back the hidden position, byte and table index. |
| `Cipher.Unscrambles` | src/DirectClient.cpp:526-574 | Before the verification bytes are looked at, the unscrambled packet is already the plaintext. |
| `Cipher.XorFour` | src/DirectClient.cpp:649-652 | Four bytes are read and written against the key, in range. |
| `Cipher.XorLoop` | src/DirectClient.cpp:641-659 | The loop never runs past the end and computes the scrambled bytes. |
| `Cipher.EncryptMethod` | src/DirectClient.cpp:602-663 | The packet written is the specified one for the random numbers drawn. |
| `Cipher.DecryptHead` | src/DirectClient.cpp:541-556 | Header and check word are copied byte for byte. |
| `Cipher.Validate` | src/DirectClient.cpp:576-592 | Accepts exactly the packets whose verification bytes match. |
| `Cipher.DecryptMethod` | src/DirectClient.cpp:526-600 | Accepts or rejects, and yields, as specified. |
| `FileTransferRuns.TransferIsSafe` | src/FileTransferClient.cpp:499-712 | On every interleaving of write-ready events and packet arrivals: what is written is a file-by-file prefix of the files offered, the total positions are the bytes sent and written, the receiver is never ahead, nothing fails, a complete sender has sent every file whole, and, if the last file is not empty, each side is complete exactly when all files are sent or written. |
| `FileTransferRuns.CountersAgree` | src/FileTransferClient.cpp:645-681 | When a resume packet is handled it names the file the sender has open, at position 0. |
| `FileTransferRuns.DeliversIff` | src/FileTransferClient.cpp:691-712 | Some run leaves both sides complete with every file whole if and only if the last file is not empty or is the only one. |
| `FileTransferRuns.NoDeadlock` | src/FileTransferClient.cpp:137-165 | For such a list a useful step is possible until both sides are complete, and it uses up work. |
| `FileTransferRuns.TransferCompletes` | src/FileTransferClient.cpp:137-165 | For such a list both sides can complete from every reachable state, with every file whole. |
| `FileTransferRuns.EmptyLastFileIsLost` | src/FileTransferClient.cpp:691-712 | If the last of several files is empty, on no run does it arrive or does the sender complete: the receiver finds the total reached and completes before the announcement. |
| `FileTransferRuns.WorkBoundsRuns` | src/FileTransferClient.cpp:899-941 | No run has more effective steps than the work it starts with. |
| `FileTransferRuns.StepKeeps` | src/FileTransferClient.cpp:499-532 | Every step keeps the invariant and changes nothing or uses up work. |
| `FileTransferRuns.SendP2Keeps` | src/FileTransferClient.cpp:749-863 | Announcing a file advances the counter by one and starts it at 0. |
| `FileTransferRuns.SendP6Keeps` | src/FileTransferClient.cpp:899-941 | A chunk extends what was sent by exactly the next bytes of the open file; an empty file goes as one empty chunk; the transfer completes with the last byte of the last file. |
| `FileTransferRuns.ResumeKeeps` | src/FileTransferClient.cpp:645-681 | A resume packet at 0 restarts sending at the open file. |
| `FileTransferRuns.ReceiverReadsKeeps` | src/FileTransferClient.cpp:534-712 | Each packet read keeps the receiver in step with what was sent so far. |
| `FileTransferResume.ResumeSendsRest` | src/FileTransferClient.cpp:645-712 | A resume packet for any position up to the end of the open file, and the write-ready events that follow as long as there is more, send chunks that are together exactly the rest of the file from that position on. |
| `FileTransferResume.ResumeSendsChunk` | src/FileTransferClient.cpp:645-681 | The reply is the chunk that begins there; a position behind the end is an error, and nothing is sent. |
| `FileTransferResume.SpoiledStreamFails` | src/FileTransferClient.cpp:899-912 | A file that has been read to its end cannot be resumed. |
| `FileTransferResume.GoAheadOpens` | src/FileTransferClient.cpp:749-863 | The go-ahead opens and announces the next file, or fails when there is none. |
| `FileTransferResume.NothingLeftCompletes` | src/FileTransferClient.cpp:137-165 | With all files sent a write-ready event completes the transfer. |
| `FileTransferResume.SpeedIsTakenOver` | src/FileTransferClient.cpp:534-643 | The speed the sender opens with is the one all replies name. |
| `FileTransferClients.FileTransferClient.Sender` | src/FileTransferClient.cpp:1032-1075 | A new sender for any list of files, with counters of 32 bits; for a list in range it is the start of the runs. |
| `FileTransferClients.FileTransferClient.Receiver` | src/FileTransferClient.cpp:51-60 | A new receiver. |
| `FileTransferClients.FileTransferClient.SendFile` | src/FileTransferClient.cpp:137-165 | The write-ready handler has the specified effect. |
| `FileTransferClients.FileTransferClient.OpenNextFile` | src/FileTransferClient.cpp:785-792 | The next file is taken off the list and opened. |
| `FileTransferClients.FileTransferClient.SendPacket0x02` | src/FileTransferClient.cpp:749-863 | Announces the next file, or fails when there is none. |
| `FileTransferClients.FileTransferClient.ReadChunk` | src/FileTransferClient.cpp:913-914 | Reads up to 2048 bytes from where it was; a short read happens only at the end and spoils the stream. |
| `FileTransferClients.FileTransferClient.SendPacket0x06` | src/FileTransferClient.cpp:899-941 | Sends the next chunk and decides between more, next file and complete. |
| `FileTransferClients.FileTransferClient.ParsePacket0x02` | src/FileTransferClient.cpp:564-643 | A new output file and fresh counters. |
| `FileTransferClients.FileTransferClient.ParsePacket0x03` | src/FileTransferClient.cpp:645-681 | Positions and counter as announced; an offset beyond the file is an error. |
| `FileTransferClients.FileTransferClient.WriteData` | src/FileTransferClient.cpp:699-705 | Writing in pieces of at most 4096 bytes appends exactly the data. |
| `FileTransferClients.FileTransferClient.ParsePacket0x06` | src/FileTransferClient.cpp:691-712 | The data is appended and the transfer completes when the total is reached. |
| `FileTransferClients.FileTransferClient.ParsePacket` | src/FileTransferClient.cpp:499-532 | Each packet type has the specified effect, replies included. |
| `Framing.ChunkingIsInvisible` | src/Client.cpp:1286-1369 | For any framing whose cuts are stable, however a stream is split into chunks the same packets come out in order and the same bytes stay. |
| `Framing.SplitPackets` | src/Client.cpp:1286-1369 | Whole packets followed by an unfinished one are cut into exactly these packets and that rest. |
| `Framing.FlapStream` | src/Client.cpp:1286-1369 | Whole FLAPs and the start of another, in any chunks: each dispatched once, in order, exactly the start stays buffered. |
| `Framing.FlapIsPacketIff` | src/Client.cpp:1065-1078 | A written FLAP is one packet exactly when its body fits in 65535 bytes. |
| `Framing.FlapPrefixWaits` | src/Client.cpp:1286-1369 | A proper prefix of a FLAP is waited for. |
| `Framing.InvisibleIff` | src/Client.cpp:1286-1302 | Every way of splitting a stream into chunks gives the packets and rest of the stream parsed whole if and only if the stream has no bad start byte or no byte 42 comes after the first bad one. |
| `Framing.BadStartByteIsVisible` | src/Client.cpp:1286-1302 | The shortest stream on which chunking shows. |
| `Framing.FileStream` | src/FileTransferClient.cpp:200-218 | The same for file transfer packets of length at least 1. |
| `Framing.DirectChopInRangeIff` | src/DirectClient.cpp:160-170 | The direct framing stays in range exactly when the buffer is not down to one byte. |
| `Framing.DirectChopTakes` | src/DirectClient.cpp:160-170 | A whole packet at the front of the buffer is taken, and exactly it. |
| `Framing.DirectChopWaits` | src/DirectClient.cpp:160-170 | A packet of which at least the length has come is waited for; of a lone first byte two are taken. |
| `FileLink.PacketsAreReceived` | src/FileTransferClient.cpp:200-218 | File packets with bodies that are not empty, received in any chunks, come out once each and in order. |
| `FileLink.PacketIffNotEmpty` | src/FileTransferClient.cpp:200-218 | A written packet is read as one if and only if its body is not empty. |
| `FileLink.Link.constructor` | src/FileTransferClient.cpp:51-60 | A new link. |
| `FileLink.Link.ParseOne` | src/FileTransferClient.cpp:206-218 | One turn of the loop waits or takes one packet, as specified. |
| `FileLink.Link.Parse` | src/FileTransferClient.cpp:200-218 | The loop hands on every whole packet and keeps the rest. |
| `FileLink.Link.Recv` | src/FileTransferClient.cpp:176-184 | A chunk is appended and parsed. |
| `ServerLink.WrappedIsReceived` | src/Client.cpp:1065-1086 | Any number of wrapped bodies of at most 65535 bytes, received in any chunks, come out one packet a body, in order, on channel 2, numbered consecutively modulo 2^15. |
| `ServerLink.WrappedAt` | src/Client.cpp:194-197 | The i-th packet carries the number s + 1 + i modulo 2^15. |
| `ServerLink.Link.constructor` | src/Client.cpp:66-84 | A new link. |
| `ServerLink.Link.NextSeqNum` | src/Client.cpp:194-197 | The number counts up modulo 2^15. |
| `ServerLink.Link.FlapHeader` | src/Client.cpp:1065-1073 | The header bytes and the reserved length field. |
| `ServerLink.Link.FlapWrapSnac` | src/Client.cpp:1081-1086 | Appends one FLAP with the right length, whatever byte order the body leaves set. |
| `ServerLink.Link.FlapWrapAll` | src/Client.cpp:2206-2247 | Several SNACs in one buffer are several FLAPs. |
| `ServerLink.Link.ParseOne` | src/Client.cpp:1296-1327 | One turn of the loop waits, rejects or takes one packet, as specified. |
| `ServerLink.Link.Parse` | src/Client.cpp:1286-1369 | The loop dispatches every whole packet and keeps the rest. |
| `ServerLink.Link.Recv` | src/Client.cpp:1271-1284 | A chunk is appended and parsed. |
| `Buffers.Pack32Bytes` | src/buffer.cpp:247-264 | The four bytes in either byte order are the shifted-out ones. |
| `Buffers.Unpack16InvertsPack16` | src/buffer.cpp:283-299 | A 16-bit value comes back in either byte order. |
| `Buffers.Unpack32InvertsPack32` | src/buffer.cpp:301-327 | A 32-bit value comes back in either byte order. |
| `Buffers.ReadInvertsWriteString` | src/buffer.cpp:75-129 | A length-prefixed, zero-terminated string of at most 65534 bytes comes back anywhere in a buffer, and exactly it is consumed. |
| `Buffers.ReadInvertsWrite16` | src/buffer.cpp:283-299 | A 16-bit value is read back anywhere in a buffer. |
| `Buffers.ReadInvertsWrite32` | src/buffer.cpp:301-327 | A 32-bit value is read back anywhere in a buffer. |
| `Buffers.Buffer.constructor` | src/buffer.cpp:34-36 | An empty big-endian buffer. |
| `Buffers.Buffer.Clear` | src/buffer.cpp:52-56 | Empties the buffer. |
| `Buffers.Buffer.ChopOff` | src/buffer.cpp:63-68 | The first bytes move to the end of the other buffer, and reading starts afresh. |
| `Buffers.Buffer.PutString16` | src/buffer.cpp:75-80 | Appends length, bytes and zero; a longer string is announced modulo 2^16. |
| `Buffers.Buffer.Put16` | src/buffer.cpp:232-245 | Appends the two bytes in the current order. |
| `Buffers.Buffer.Put32` | src/buffer.cpp:247-264 | Appends the four bytes in the current order. |
| `Buffers.Buffer.Get8` | src/buffer.cpp:276-281 | Reads a byte, or 0 without moving at the end. |
| `Buffers.Buffer.Get16` | src/buffer.cpp:283-299 | Reads two bytes, or 0, and moves on by two even past the end. |
| `Buffers.Buffer.Get32` | src/buffer.cpp:301-327 | Reads four bytes, or 0, and moves on by four even past the end. |
| `Buffers.Buffer.GetBytes` | src/buffer.cpp:138-156 | Reads as much as there is of what is asked for. |
| `Buffers.Buffer.GetString16` | src/buffer.cpp:120-129 | Reads a string as the specification does, also when it is cut short. |
| `Buffers.Buffer.AutoSizeShortMarker` | src/buffer.cpp:164-174 | Reserves two bytes and remembers where and in which order. |
| `Buffers.Buffer.SetAutoSizeMarker` | src/buffer.cpp:188-220 | Changes only the reserved bytes, to the number of bytes after them modulo 2^16. |
| `BufferEnds.ShortNumbers` | src/buffer.cpp:276-328 | A number that is not all there is read as 0. |
| `BufferEnds.ShortString` | src/buffer.cpp:120-156 | Of a string cut off as much is read as there is; a length of zero is no string. |
| `IcqRoundTrip.ParseInvertsOutputIff` | src/ICQ.cpp:39-116 | ParseICQSubType on what Output wrote consumes exactly that and gives the same subtype back if and only if no field holds the separator, it is not both urgent and to the contact list, and it is sent the advanced way if it has status, priority or colours. |
| `IcqRoundTrip.AckIsConsumedIff` | src/ICQ.cpp:222-283 | An acknowledgement gives its away message and flags back; it is consumed to its end if and only if it is advanced or not for a normal message. The library reads and writes acknowledgements of advanced messages only, so all of them are consumed. |
| `IcqRoundTrip.FileTransferAckInverts` | src/ICQ.cpp:798-829 | The ack of a file transfer offer carries the same fields. |
| `IcqRoundTrip.PriorityInverts` | src/ICQ.cpp:178-220 | The priority field gives urgent and to-contact-list back if and only if not both are set. |
| `IcqRoundTrip.UrlText` | src/ICQ.cpp:315-346 | URL and message come back if and only if the message has no separator. |
| `IcqRoundTrip.AuthReqText` | src/ICQ.cpp:558-594 | The six fields come back if and only if none has a separator. |
| `IcqRoundTrip.UserAddText` | src/ICQ.cpp:733-768 | The five fields come back if and only if none has a separator. |
| `IcqRoundTrip.ContactsText` | src/ICQ.cpp:897-935 | A contact list of any length, with UINs below 2^31, comes back if and only if no alias has a separator. |
| `IcqRoundTrip.NormalInverts` | src/ICQ.cpp:248-267 | A message comes back, its colours exactly when sent the advanced way or the defaults. |
| `IcqRoundTrip.FileTransferInverts` | src/ICQ.cpp:787-818 | All fields of a file transfer offer come back. |
| `IcqRoundTrip.HeadInverts` | src/ICQ.cpp:39-116 | Type, flags, status and priority lie where the reader looks. |
| `IcqWire.HeadOnWire` | src/ICQ.cpp:199-215 | The type byte of each subtype, and where flags, status and priority stand. |
| `IcqWire.UrlOnWire` | src/ICQ.cpp:315-346 | Message and URL with the byte 0xFE between them, behind their length. |
| `IcqWire.FieldsOnWire` | src/ICQ.cpp:558-594 | The six fields of an authorisation request with that byte between them. |
| `IcqWire.AckReads` | src/ICQ.cpp:39-201 | All that is read from an acknowledgement: type, flags, status, away message, no priority, and an empty body. |
| `IcqWire.PrioritiesRead` | src/ICQ.cpp:177-191 | What any priority word, from other clients too, is taken for. |
| `IcqWire.NoSeparator` | src/ICQ.cpp:897-964 | Without a separator there is no URL and there are no contacts. |
| `IcqWire.MissingFields` | src/ICQ.cpp:943-964 | Fields that are not there are read as empty. |
| `IcqText.SplitInvertsJoin` | src/ICQ.cpp:943-964 | string_split of joined separator-free fields with their count gives them back, empty and trailing-empty ones included. |
| `IcqText.SplitInvertsTerminated` | src/ICQ.cpp:943-964 | The same for fields each followed by the separator. |
| `IcqText.JoinBroken` | src/ICQ.cpp:943-964 | If a field has a separator in it, some such field comes back changed. |
| `IcqText.TerminatedBroken` | src/ICQ.cpp:943-964 | The same for terminated fields, none of which goes missing. |
| `IcqText.AtoiInvertsDecimal` | src/ICQ.cpp:897-935 | A printed number reads back as itself and has no separator. |
| `IcqText.Find` | src/ICQ.cpp:947-949 | The first separator at or after a position. |
| `IcqText.SplitFields` | src/ICQ.cpp:943-955 | The loop computes the split. |
| `IcqText.StringSplit` | src/ICQ.cpp:943-964 | The loops compute the split padded with blank fields. |
| `IcqSubTypes.OutputFileTransfer` | src/ICQ.cpp:809-818 | Appends the fields in order. |
| `IcqSubTypes.OutputContacts` | src/ICQ.cpp:923-935 | The loop prints count, numbers and aliases. |
| `IcqSubTypes.OutputBodyUIN` | src/ICQ.cpp:260-267 | Appends the specified body of each subtype. |
| `IcqSubTypes.OutputBodyUINACK` | src/ICQ.cpp:222-225 | Appends the specified ack body. |
| `IcqSubTypes.OutputSubType` | src/ICQ.cpp:111-116 | Appends the specified bytes. |
| `IcqSubTypes.FillPairs` | src/ICQ.cpp:907-919 | The loop pairs fields up and drops a lone last one. |
| `IcqSubTypes.ParseTextMethod` | src/ICQ.cpp:315-346 | Splits the text into the fields of the subtype. |
| `IcqSubTypes.ParseFileTransferMethod` | src/ICQ.cpp:787-796 | Reads the fields in order. |
| `IcqSubTypes.ParseBodyUINMethod` | src/ICQ.cpp:248-258 | Reads the specified body of each subtype. |
| `IcqSubTypes.ParseBodyUINACKMethod` | src/ICQ.cpp:227-232 | Reads the specified ack body. |
| `IcqSubTypes.ParseSubType` | src/ICQ.cpp:39-109 | Reads type and flags, dispatches, and reads as specified. |
| `XmlEscape.UnquoteInvertsQuote` | src/Xml.cpp:49-79 | unquote(quote(s)) == s for every string: none of the seven passes makes or eats an entity of another. |
| `XmlEscape.QuoteIsEntities` | src/Xml.cpp:49-61 | The five passes together replace each special character by its entity and nothing else. |
| `XmlEscape.PassOnEntities` | src/Xml.cpp:63-79 | Each unquoting pass peels off exactly its own kind of entity. |
| `XmlEscape.Find` | src/Xml.cpp:41 | The first occurrence at or after a position, or none. |
| `XmlEscape.ReplaceAllInPlace` | src/Xml.cpp:39-47 | The loop replaces every occurrence, left to right without overlap. |
| `XmlParser.ParseMethod` | src/Xml.cpp:81-180 | Terminates on every string, with the cursor between where it was and the end, and reads what the specification reads. |
| `XmlParser.ParseChildrenMethod` | src/Xml.cpp:125-155 | The child loop terminates, also when a child fails and is left out, and reads as specified. |
| `XmlParser.ParseElementMethod` | src/Xml.cpp:81-180 | What follows an opening tag, a self-closing one included. |
| `XmlParser.ParseTextMethod` | src/Xml.cpp:156-176 | A leaf value and its closing tag. |
| `XmlParser.ParseCDataMethod` | src/Xml.cpp:105-123 | The CDATA loop, with its partial end tags. |
| `XmlParser.ParseTagMethod` | src/Xml.cpp:182-193 | The text of a tag, or nothing when it is not closed. |
| `XmlParser.SkipWSMethod` | src/Xml.cpp:195-197 | Skips exactly the leading blanks. |
| `XmlParser.TakeUntilMethod` | src/Xml.cpp:182-193 | Collects characters up to the first stopping one. |
| `XmlParser.ParseQuotedMethod` | src/Xml.cpp:227-239 | A quoted string and the position after it. |
| `XmlParser.ParseAttributeMethod` | src/Xml.cpp:213-241 | One name and value, always moving on. |
| `XmlParser.ParseAttrMethod` | src/Xml.cpp:199-243 | Tag name and attributes; the loop terminates. |
| `XmlRoundTrip.ParseInvertsToString` | src/Xml.cpp:81-360 | parse(toString(t)) rebuilds every well-formed tree, whatever follows it, and stops right after its closing tag. |
| `XmlRoundTrip.LeafSurvivesIff` | src/Xml.cpp:343-360 | A leaf with a good tag comes back if and only if its value starts with no blank and unquotes to itself. |
| `XmlRoundTrip.ParseAnyLeaf` | src/Xml.cpp:343-344 | What comes back for a leaf with any value: no blanks in front, unquoted once more. |
| `XmlRoundTrip.ChildlessBranchIsLeaf` | src/Xml.cpp:131-141 | A branch without children comes back as an empty leaf. |
| `XmlRoundTrip.Print` | src/Xml.cpp:316-360 | The loop prints the specified text. |
| `XmlReader.CDataReadsIff` | src/Xml.cpp:105-122 | A CDATA section gives back its text, and stops right behind it, if and only if every ] in it is followed by > or by two more. |
| `XmlReader.CDataLeaf` | src/Xml.cpp:105-180 | An element that holds such a section is a leaf, with the text unquoted twice. |
| `XmlReader.LeafWithAttributes` | src/Xml.cpp:156-236 | Name, attributes in either kind of quotes, and value are read back. |
| `XmlReader.BranchWithAttributes` | src/Xml.cpp:124-154 | The same for an element with a child. |
| `XmlReader.SelfClosing` | src/Xml.cpp:96-98 | An element that closes itself is an empty leaf with its attributes. |
| `XmlReader.PrologueIsSkipped` | src/Xml.cpp:85-94 | Prologues and comments are skipped. |
| `XmlReader.WrongClosing` | src/Xml.cpp:156-180 | An element that is closed by another name leaves nothing. |
| `XmlReader.EmptyElement` | src/Xml.cpp:130-141 | An element without content is an empty leaf exactly if it is closed by its own name. |
| `XmlReader.UnclosedElement` | src/Xml.cpp:156-166 | Text that ends inside an element leaves nothing. |
| `XmlReader.TextAfterChild` | src/Xml.cpp:149-153 | Text after a child leaves nothing. |
| `XmlReader.BadChildIsLeftOut` | src/Xml.cpp:142-149 | A child that cannot be read is left out, and the reader goes on after it. |
| `XmlReader.EntitiesUnquote` | src/Xml.cpp:63-81 | What each of the seven entities stands for. |
| `Crlf.ToClientInvertsToServer` | src/Translator.cpp:78-130 | server_to_client(client_to_server(s)) == s for every string. |
| `Crlf.ToServerInvertsToClientIff` | src/Translator.cpp:78-130 | client_to_server(server_to_client(t)) == t if and only if every line feed follows a carriage return. |
| `Crlf.ClientToServer` | src/Translator.cpp:78-100 | The loop computes the translation. |
| `Crlf.ServerToClient` | src/Translator.cpp:102-130 | The loop computes the translation. |
| `Cache.CacheRefinesMap` | src/Cache.h:70-185 | After any run in which insert gets only absent keys, the list is in expiry order and lookup gives what a plain map with deadlines gives. |
| `Cache.RunSorted` | src/Cache.h:70-185 | Every run keeps the list in expiry order, duplicate keys or not. |
| `Cache.ApplyRepresents` | src/Cache.h:70-185 | One operation on the list is the same operation on the map. |
| `Cache.DuplicateInsertIsFoundIff` | src/Cache.h:137-149 | After inserting under a key already there, lookup finds the new item if and only if no item of that key expires earlier. |
| `Cache.DuplicateInsertIsHidden` | src/Cache.h:137-149 | Two items for which it does not: lookup gives the old value. |
| `Cache.Cache.constructor` | src/Cache.h:219-222 | An empty cache with the default timeout of 60. |
| `Cache.Cache.Lookup` | src/Cache.h:70-86 | The first item with the key, or the end. |
| `Cache.Cache.Exists` | src/Cache.h:92-95 | Whether some item has the key. |
| `Cache.Cache.InsertItem` | src/Cache.h:137-149 | The loop from the back inserts just after the last item that expires earlier. |
| `Cache.Cache.InsertValue` | src/Cache.h:132-135 | Inserts with the default timeout. |
| `Cache.Cache.Get` | src/Cache.h:97-104 | operator[] enters a default for an absent key and returns the value. |
| `Cache.Cache.RemoveKey` | src/Cache.h:106-109 | Removes the first item with the key. |
| `Cache.Cache.SetItemTimeout` | src/Cache.h:171-179 | Files the item again under its new expiry. |
| `Cache.Cache.RefreshItem` | src/Cache.h:159-166 | Files the item again under the expiry it had. |
| `Cache.Cache.ClearoutPoll` | src/Cache.h:181-185 | Expires exactly the overdue items, in expiry order, and terminates. |
| `Smtp.MailerIsSafe` | src/SMTPClient.cpp:78-195 | For every sequence of replies, failures, timeouts and reconnects: the queue is not empty while a session is open and not being closed; acknowledged then queued messages are the offered ones in order; delivered acks are exactly the messages whose text was answered 250; every command follows, in the same session, the replies that call for it. |
| `Smtp.InOrderIff` | src/SMTPClient.cpp:98-117 | The commands of a run keep the order of RFC 5321, section 4.1.4, with no MAIL inside a mail transaction, if and only if no message is refused at RCPT, DATA or its text while another one waits and its MAIL goes out. |
| `Smtp.RefusedRecipientNests` | src/SMTPClient.cpp:98-117 | A concrete run on which it does not: the recipient of the first of two messages is refused. |
| `Smtp.AcksFollowQueue` | src/SMTPClient.cpp:211-308 | Acks follow the queue: each message at most once, in order, none lost. |
| `Smtp.StepKeeps` | src/SMTPClient.cpp:82-177 | Every step keeps the session invariant. |
| `Smtp.RcptKeeps` | src/SMTPClient.cpp:149-156 | DATA is sent only after MAIL and RCPT for the head were both answered 250. |
| `Smtp.TextKeeps` | src/SMTPClient.cpp:161-175 | A message is acknowledged as delivered exactly on the 250 after its text. |
| `SmtpSession.MailsEverything` | src/SMTPClient.cpp:51-195 | From a new client: any number of messages offered, whatever the server makes of each, are mailed over one session in order; each is acknowledged as delivered exactly if its text was taken, and the traffic is that of each fate, one after the other, with QUIT after a last one taken. |
| `SmtpSession.SessionMailsAll` | src/SMTPClient.cpp:82-177 | The same from any point at which MAIL has been said for the head of the queue. |
| `SmtpSession.OneMessage` | src/SMTPClient.cpp:122-177 | One message, taken or refused at one of the four commands: the exchange, the ack and what is said next. |
| `SmtpSession.SessionOpens` | src/SMTPClient.cpp:122-148 | A session opens with the greeting and says MAIL for the head of the queue. |
| `SmtpSession.LostSessionIsMadeUp` | src/SMTPClient.cpp:179-187 | A session lost on the way costs no message: the next one mails the head again from MAIL on. |
| `SmtpSession.PollDecides` | src/SMTPClient.cpp:179-187 | When a poll dials, when it gives a session up, and when it does nothing. |
| `SmtpSession.FailedSendDrops` | src/SMTPClient.cpp:197-209 | A command that cannot be sent drops the session, with queue and acks as the reply left them. |
| `SmtpSession.RefusedGreetingDrops` | src/SMTPClient.cpp:122-148 | A refused greeting drops the session and keeps the queue. |
| `SmtpSession.GoodbyeIsIgnored` | src/SMTPClient.cpp:122-177 | Replies after QUIT change nothing. |
| `SmtpClients.SmtpClient.SendEvent` | src/SMTPClient.cpp:189-195 | Queues the message and connects if there is no session. |
| `SmtpClients.SmtpClient.ClearoutMessagesPoll` | src/SMTPClient.cpp:179-187 | Reconnects or times out when something is queued. |
| `SmtpClients.SmtpClient.Send` | src/SMTPClient.cpp:197-209 | A failed send leaves the client unconnected and throws. |
| `SmtpClients.SmtpClient.Deliver` | src/SMTPClient.cpp:162-174 | Acks and pops the head, then says QUIT or goes on with the next. |
| `SmtpClients.SmtpClient.Parse` | src/SMTPClient.cpp:122-177 | Which command or exception follows each reply in each state. |
| `SmtpClients.SmtpClient.Receive` | src/SMTPClient.cpp:82-120 | What each exception does to state, queue and acks. |
| `Connection.IsConnectedTellsEvents` | src/Client.cpp:1952-1954 | After every run, sends failing anywhere, isConnected() holds if and only if the latest of the emitted Connected and Disconnected events is Connected; and while not connected the socket is closed. |
| `Connection.RunKeeps` | src/Client.cpp:204-285 | Every run keeps this. |
| `Connection.StaysBackedIff` | src/Client.cpp:1371-1405 | On a run every state but NotConnected has a socket behind it, after every frame and every call, if and only if no handler sets the state after one of its sends was lost. |
| `Connection.BackedIff` | src/Client.cpp:1371-1405 | A frame leaves a state with no socket behind it if and only if its handler sets the state after a lost send. |
| `Connection.ThrowsIff` | src/Client.cpp:1175-1193 | The handler of the rate frame throws exactly when connections are to be accepted and the listening socket cannot be had or is in use already, unless a lost send has closed it; all of this is known before the call. |
| `Connection.UnbackedEndsIff` | src/Client.cpp:2330-2381 | A state with no socket behind it ends, with a Disconnected event, at exactly these calls: one that sends, the ping of a poll included, going offline, and an event of the socket. Going online when not logged in, registering, and changing whether connections are accepted leave it as it is. |
| `Connection.LostLogin` | src/Client.cpp:1371-1384 | A concrete run into such a state: the first packet of a login is lost, and going online again changes nothing. |
| `Connection.SendAllOutcome` | src/Client.cpp:1255-1269 | After several sends nothing changed exactly when all got through. |
| `ConnectionLogin.LoginSucceeds` | src/Client.cpp:1371-1405 | Going online, with nothing failing, whatever the two connects answer: the client waits for the authorizer, its reply, the server and its login reply in that order and is then logged in, with one Connected event. |
| `ConnectionLogin.RegistrationSucceeds` | src/Client.cpp:1942-1945 | Registering goes through the states of its own to the same end. |
| `ConnectionLogin.TalkLogsIn` | src/Client.cpp:1371-1405 | The states between, one by one. |
| `ConnectionLogin.RedirectionAdvances` | src/Client.cpp:1624-1660 | A redirection with a cookie leads to waiting for the other server. |
| `ConnectionLogin.RefusalEnds` | src/Client.cpp:1660-1723 | An answer without a cookie, or a frame on channel 4 in any other state, ends the attempt and is told of. |
| `ConnectionLogin.RatesLogIn` | src/Client.cpp:1175-1221 | The rate frame logs in, with one Connected event and the listening socket open if it is wanted. |
| `ConnectionLogin.FailureEnds` | src/Client.cpp:1255-1284 | Every failure, and going offline, closes the socket and is told of once. |
| `ConnectionLogin.DialFails` | src/Client.cpp:204-235 | A connect that fails is told of and leaves the client as it was. |
| `ConnectionLogin.ListeningFails` | src/Client.cpp:1175-1193 | A listening socket that cannot be had ends the login. |
| `ConnectionLogin.NothingHappens` | src/Client.cpp:2330-2381 | Which calls change nothing. |
| `ConnectionLogin.FramesAreHandled` | src/Client.cpp:1286-1369 | The frames of a chunk are all handled in order, up to one that throws. |
| `ConnectionLogin.SnacArrives` | src/Client.cpp:1407-1470 | Any other frame changes nothing unless a send is lost. |
| `ConnectionLogin.AcceptingIsSet` | src/Client.cpp:3174-3180 | What setting whether connections are accepted does. |
| `ConnectionClients.Client.Dialled` | src/Client.cpp:204-272 | The new state waits for the connection, or the failure is told. |
| `ConnectionClients.Client.Disconnect` | src/Client.cpp:2804-2817 | Tells of the disconnection exactly when there was a connection. |
| `ConnectionClients.Client.Send` | src/Client.cpp:1255-1269 | A failing send disconnects. |
| `ConnectionClients.Client.SendEach` | src/Client.cpp:1407-1470 | Several sends in a row. |
| `ConnectionClients.Client.StartListening` | src/Client.cpp:1175-1193 | When the listening socket throws. |
| `ConnectionClients.Client.Login` | src/Client.cpp:1175-1221 | The login ends in the logged-in state unless listening throws. |
| `ConnectionClients.Client.ParseCh1` | src/Client.cpp:1371-1405 | The state after a connection ack, whatever became of the sends. |
| `ConnectionClients.Client.ParseCh4` | src/Client.cpp:1624-1723 | Redirection, refusal, or disconnection. |
| `ConnectionClients.Client.Parse` | src/Client.cpp:1286-1369 | The loop over the frames goes on after a disconnection and stops at an exception. |
| `ConnectionClients.Client.RecvFromServer` | src/Client.cpp:1271-1284 | The loop reads while connected. |
| `ConnectionClients.Client.SetStatus` | src/Client.cpp:2330-2381 | Disconnects, sends, connects or does nothing. |
| `ConnectionClients.Client.RegisterUIN` | src/Client.cpp:1942-1945 | Connects to register when there is no connection, and does nothing else. |
| `ConnectionClients.Client.SetAcceptInDC` | src/Client.cpp:3174-3180 | Stops listening when connections are no longer to be accepted. |
| `ConnectionClients.Client.SocketCb` | src/Client.cpp:1767-1818 | What a ready server socket leads to. |
| `ConnectionClients.Client.IsConnected` | src/Client.cpp:1952-1954 | Tells, in every state a client can reach, whether the latest of the Connected and Disconnected events was Connected. |

## Left out

- Sockets, DNS, select loops, PipeExec and the example shell: a socket is a FIFO channel or a trace, and what a system
  call answers is an argument.
- SNAC contents other than as bytes, TLV lists, search and contact-list replies, server-based lists, status and
  capability tables, logging: they would add easy members only.
- SMS, email and file transfer events in message delivery: they take other routes (the mail queue is modelled by itself).
- A send that fails inside message delivery and so disconnects in the middle of a cache operation: sends there succeed
  and losing a connection is a step of its own. In `Connection`, where only the state and the events are followed, sends
  may fail anywhere.
- User callbacks that call back into the library, and the destructor of Client, which gives up events with no one told.
- The heap of MessageEvent objects is a map from events to their flags with the set of freed ones beside it, so that a
  use after free would be a failed precondition; aliasing of event objects by the application is not captured.
- Cookie generation: a fresh cookie is some cookie not in the cache; that the loop which draws it ends is not claimed.
- The byte layout of message packets on a direct connection: the wire in `DirectConn` holds the number and the event,
  while the scrambler and the subtype codec are proved by themselves.
- Peer acks of a plain message with the file transfer subtype, which would remove the entry without freeing the event
  (src/DirectClient.cpp:486-487).
- Cipher.DecryptMethod: only for packets with at least seven bytes after the header, because on shorter ones the source
  indexes past the end of its output buffer.
- Cipher.DecryptHead: the same packets.
- IcqSubTypes.ParseSubType: a subtype that is not modelled is answered as such, where the source parses it.
- Framing.DirectChopInRangeIff: the residue of one byte in the direct framing (src/DirectClient.cpp:160-170) is stated as
  an exact condition, and chunking is not claimed invisible there.
- Link positions and buffer sizes: `ServerLink.Link.Parse` assumes fewer than 2^32 bytes buffered, as the 32-bit
  arithmetic of remains() does.
- Attributes when printing: XmlLeaf::toString does not return on a leaf with attributes (src/Xml.cpp:354-357), so
  printing is defined on trees whose leaves have none.
- The read at the end of the text after CDATA (src/Xml.cpp:125) counts as a character other than '<'.
- File names, paths, directories, the byte layout of file transfer packets and their handshake: a file is its bytes.
- File lists that are empty, have 2^32 files or hold 2^32 bytes: the runs start from lists below that, the class from any.
- SMTP command texts, addresses and message bodies beyond the event they come from, and how a reply line becomes a code: a
  reply is the code the client reads, which is 0 for a line that is not complete. The source keeps unread lines of a former
  session in its buffer; a session here is what the client believes it to be.
- A connect to the mail server that completes at once instead of later: the source then waits for an event that has passed.
- The authorisation flag of an authorisation request or user-added ack, which the source leaves unset; here it is false.
- ICQ subtypes other than normal, URL, authorisation request, user added, file transfer and contact list, and the multi-party
  flag of a normal message.
- IcqRoundTrip.ContactsText: UINs below 2^31 only, because the source reads them back with atoi.
- Calendar conversion (src/time_extra.cpp): no claim is made.

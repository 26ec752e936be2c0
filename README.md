# Routing core of MySQL Router, modelled in Dafny

MySQL Router is a connection-routing proxy. A routing endpoint listens on a bind address and port. For each client it picks a backend MySQL server from its destination list and relays the classic MySQL protocol between the two. While relaying it watches the handshake: it checks packet sequence numbers and notices a server error packet. It also answers a client on its own with an error packet when no backend can be reached. For a blocked client host it sends the backend a fake handshake response, so that the server does not count a connection error.

This project models that core and proves properties of it:

- `utils.dfy` (module `Utils`): `split_string`, its two-argument overload, `get_in_addr` and `in_addr_to_array`.
- `sockets.dfy` (module `SocketOps`): the socket-operations boundary the router depends on. The class `SocketOperations` answers each read, write and backend connect with the next scripted result and logs every call in order. This is the substitutable socket layer the router's tests rely on. `WriteAll` is the reference definition of "write until everything is sent or a write fails".
- `packet.dfy` (module `Packet`): the 4-byte classic-protocol header (3-byte little-endian payload length, then the sequence id), the ERR_Packet and the fake handshake-response packet.
- `protocol.dfy` (module `Protocol`): `ClassicProtocol::copy_packets`, `send_error` and `on_block_client_host`. `CopyPacketsSpec` is the whole effect of one `copy_packets` call, stated as a function. The method `CopyPackets` is proved to produce exactly that effect over a `Connection` object (handshake flag, packet counter, shared buffer array).
- `routing.dfy` (module `Routing`): first-available destination selection and `MySQLRouting::routing_select_thread` up to the start of the relay. That includes the "can't connect" error path taken when no backend answers.
- `wrappers.dfy` (module `Wrappers`): `Option`, the `byte` type and `Min`.

Behaviour that the router's tests pin down, modelled from them:

- `copy_packets`:
  - A sender that is not readable is not read. The call returns 0 and reports 0 bytes.
  - A readable sender is read once, at the buffer's full capacity. A read of -1 returns -1.
  - After the handshake, the bytes read are written on unexamined. The result is 0 with their count reported, or -1 when a write fails.
  - During the handshake, a read shorter than a header returns -1.
  - During the handshake, a packet whose sequence id is not the counter plus one returns -1, and nothing is written.
  - During the handshake, an in-order server error packet is forwarded. The result is 0 and the counter becomes 2.
- `send_error` writes the error packet, with sequence id 0, until all of it is sent. It returns false as soon as a write fails.
- `on_block_client_host` makes one write of the fake handshake response (sequence id 1, user `ROUTER`, database `fake_router_login`) to the backend server's descriptor. It returns whether that write succeeded.
- `routing_select_thread`, when no destination accepts: the client gets error 2003, SQL state `HY000`, with the message "Can't connect to remote MySQL server for client '<bind address>:<bind port>'". Then the client and the (invalid) server descriptor are shut down, and the client is closed.

The implementations of `ClassicProtocol`, `MySQLRouting`, the destination classes and the packet classes are not modelled from their code. Their behaviour is inferred from the router's unit tests, under these decisions:

- `copy_packets`:
  - A read of 0 bytes is treated like a failed read: the result is -1.
  - The sequence check applies only once the counter is above 0, because the server greeting arrives with sequence id 0 while the counter is still 0.
  - A forwarded server error packet gives 0 whatever its write returns, and it marks the handshake done.
  - Otherwise a forwarded packet's sequence id becomes the counter, and a sequence id of 2 marks the handshake done.
  - Counter and handshake flag are updated when the packet is inspected, before it is written. A forwarding write that fails during the handshake therefore returns -1 with counter and flag already moved on.
  - The reported byte count is written only when the call returns 0.
  - During the handshake only the first header of each read is checked. Further packets in the same read are forwarded with it unchecked.
  - The packet counter is left unchanged when the sender is not readable, when the read fails or is short, when the packet is out of order, and after the handshake. The tests of those paths check only the result, the handshake flag and the reported count.
- A short handshake read returns -1, as `CopyPacketsHandshakePacketTooSmall` expects.
- Write loop: a write reporting more than what is left ends the loop successfully. `SendErrorOKMultipleWrites` answers 8 and then 10000 for a 26-byte packet and expects success.
- First-available selection tries the destinations in order, starting at a cursor. The cursor is kept at the destination that last accepted, or moved past the end when none did. Each connect is a scripted result, negative meaning failure.
- `routing_select_thread` treats the connection as failed unless both the server and the client descriptors are positive. It shuts down both descriptors unconditionally and closes only the positive ones. This matches the test, which expects `shutdown(-1)` but no `close(-1)`.
- ERR_Packet payload: 0xff, the 2-byte little-endian code, `#`, the SQL state, then the message. This is the 4.1 layout.
- Handshake-response payload: only the user name, the auth response and the database are laid out.
- In the tests the test body fills the buffer, and the mocked read only returns a count. The model's scripted read carries the bytes and copies them into the buffer, which amounts to the same.
- An exhausted script answers -1, and an exhausted connect script fails.

## Model

| member | source | states |
|---|---|---|
| Utils.SplitProperties | src/routing/src/utils.cc:77-100 | The results of `split_string`: no token contains the delimiter; empty input yields no tokens for either flag; without `allow_empty` no token is empty, and the result equals the `allow_empty` result with empty tokens removed, in order; with `allow_empty` on non-empty input, the token count is the number of delimiters plus one, joining the tokens with the delimiter gives the input back, and a trailing delimiter gives a final empty token |
| Utils.SplitString | src/routing/src/utils.cc:77-100 | The `getline` loop, with empty tokens skipped unless allowed and an empty token appended after a trailing delimiter, returns exactly `Split(data, delimiter, allowEmpty)`; its properties are proved in `SplitProperties` |
| Utils.SplitFinish | src/routing/src/utils.cc:94-97 | Once `getline` has consumed the whole input, the tokens taken so far are the result, plus one empty token when the input ends in the delimiter and empty tokens are allowed |
| Utils.SplitStringDefault | src/routing/src/utils.cc:102-104 | The two-argument overload returns the three-argument result with `allow_empty` true |
| Utils.GetLine | src/routing/src/utils.cc:86 | `std::getline` fails exactly when the cursor is at the end; otherwise the token is the delimiter-free text up to the next delimiter, and the cursor moves past that delimiter |
| Utils.FindDelimiter | src/routing/src/utils.cc:86 | The position of the first delimiter at or after the cursor, or the end of the string when there is none |
| Utils.JoinFields | src/routing/src/utils.cc:86-97 | Joining the delimiter-separated fields with the delimiter reproduces the string |
| Utils.FieldsCount | src/routing/src/utils.cc:86-97 | There is one field more than there are delimiters |
| Utils.FieldsTrailing | src/routing/src/utils.cc:94-97 | A string ending in the delimiter has an empty last field |
| Utils.FieldsFree | src/routing/src/utils.cc:86 | No field contains the delimiter |
| Utils.FieldsUnique | src/routing/src/utils.cc:86-97 | Any delimiter-free tokens that join to the string are its fields, so the split is the only such cut |
| Utils.NonEmptyKeeps | src/routing/src/utils.cc:87-91 | Dropping empty tokens leaves no empty token and keeps every non-empty one |
| Utils.GetInAddr | src/routing/src/utils.cc:42-48 | The IPv4 address field is chosen exactly for AF_INET; every other family gets the IPv6 field; the chosen field lies inside the storage |
| Utils.MemCopy | src/routing/src/utils.cc:113 | `memcpy` writes the source into the front of the array and leaves the rest unchanged |
| Utils.InAddrToArray | src/routing/src/utils.cc:106-124 | The result is 16 bytes; for AF_INET6 they are the IPv6 address bytes; for any other family bytes 0-3 are the IPv4 address and bytes 4-15 are zero |
| SocketOps.WriteAllSound | src/routing/tests/test_classic_protocol.cc:229-250 | When the write loop succeeds, some prefix of the write results is all non-negative and adds up to at least the number of pending bytes, and the script after that prefix is left unused |
| SocketOps.WriteAllComplete | src/routing/tests/test_classic_protocol.cc:229-250 | Conversely, a non-negative prefix adding up to the number of pending bytes makes the write loop succeed |
| SocketOps.WriteAllOffersSuffixes | src/routing/tests/test_classic_protocol.cc:229-239 | Every write of the loop goes to the same descriptor and offers a non-empty remainder of the data |
| SocketOps.WriteAllOneShot | src/routing/tests/test_classic_protocol.cc:131-148 | A first write that takes everything gives exactly one write call and success |
| SocketOps.WriteAllShortThenRest | src/routing/tests/test_classic_protocol.cc:229-239 | A short write followed by one that covers the rest gives two calls, the second offering what was left, and success |
| SocketOps.WriteAllFirstFails | src/routing/tests/test_classic_protocol.cc:241-250 | A first write of -1 gives exactly one call and failure |
| SocketOps.SocketOperations.Read | src/routing/tests/test_classic_protocol.cc:122 | A read returns the next scripted count, copies that many bytes to the front of the buffer, consumes one read and logs the call |
| SocketOps.SocketOperations.Write | src/routing/tests/test_classic_protocol.cc:84 | A write returns the next scripted count, consumes one write and logs the call with the bytes offered |
| SocketOps.SocketOperations.WriteAllOf | src/routing/tests/test_classic_protocol.cc:229-250 | The write loop succeeds and makes exactly the calls that `WriteAll` prescribes |
| SocketOps.SocketOperations.Shutdown | src/routing/tests/test_classic_protocol.cc:288-289 | Logs one shutdown of the descriptor and changes no script |
| SocketOps.SocketOperations.Close | src/routing/tests/test_classic_protocol.cc:290 | Logs one close of the descriptor and changes no script |
| SocketOps.SocketOperations.GetMysqlSocket | src/routing/tests/test_classic_protocol.cc:280 | A backend connect returns the next scripted descriptor (negative when it fails) and logs the attempt |
| Packet.DecodeHeader | src/routing/tests/test_classic_protocol.cc:169-182 | A header is read exactly when at least 4 bytes are present; its length fits in 24 bits and its sequence id is byte 3 |
| Packet.HeaderRoundTrip | src/routing/tests/test_classic_protocol.cc:184-202 | Decoding an encoded header, whatever follows it, gives the header back |
| Packet.HeaderBytesRoundTrip | src/routing/tests/test_classic_protocol.cc:184-202 | Re-encoding a decoded header reproduces the first four bytes |
| Packet.FrameHeader | src/routing/tests/test_classic_protocol.cc:55-64 | A framed packet's header carries its payload length and sequence id, and the payload follows it |
| Packet.ErrorPacketFraming | src/routing/tests/test_classic_protocol.cc:191 | An error packet is recognised as one, and its header carries its sequence id and payload length |
| Packet.FakeHandshakeResponseFraming | src/routing/tests/test_classic_protocol.cc:82 | The fake handshake response is a framed packet with sequence id 1 whose header gives its payload length |
| Protocol.VerdictOfFrame | src/routing/tests/test_classic_protocol.cc:184-227 | During the handshake a framed packet is rejected exactly when its sequence id is out of order, and treated as a server error exactly when it is in order and its payload starts with 0xff; otherwise its own sequence id is taken |
| Protocol.FailureKeepsState | src/routing/tests/test_classic_protocol.cc:116-129 | `copy_packets` returns only 0 or -1; a -1 leaves the reported count unchanged, and a -1 before any write also leaves the handshake flag and the packet counter unchanged |
| Protocol.HandshakeWriteFailureAdvances | src/routing/tests/test_classic_protocol.cc:185-227 | During the handshake an in-order packet that is not an error packet sets the counter to its sequence id, and id 2 ends the handshake, even when its forwarding write then fails with -1 and the reported count is kept |
| Protocol.HandshakeDoneIsStable | src/routing/tests/test_classic_protocol.cc:131-167 | Once the handshake is done it stays done, and the packet counter is not touched |
| Protocol.OnlyReadBytesForwarded | src/routing/tests/test_classic_protocol.cc:131-148 | A readable sender is read exactly once, at full buffer capacity; after a read of n bytes the buffer starts with them and every further call writes to the receiver a remainder of those bytes; after a failed read nothing else happens |
| Protocol.NotReadableDoesNothing | src/routing/tests/test_classic_protocol.cc:102-114 | A sender that is not readable gives result 0 and 0 reported bytes; no socket call is made and no state changes |
| Protocol.ReadFailureAborts | src/routing/tests/test_classic_protocol.cc:116-129 | A failed read gives -1 after that one read; nothing is written and the handshake flag and counter are unchanged |
| Protocol.RelayAfterHandshake | src/routing/tests/test_classic_protocol.cc:131-167 | After the handshake, one full-capacity read is followed by one write of exactly the bytes read; the result is 0 with that count reported iff the write succeeds, otherwise -1; the handshake stays done |
| Protocol.ShortHandshakeReadAborts | src/routing/tests/test_classic_protocol.cc:169-182 | During the handshake a read of fewer than 4 bytes gives -1; nothing is written and the handshake stays not done |
| Protocol.OutOfOrderAborts | src/routing/tests/test_classic_protocol.cc:184-202 | During the handshake, with the counter above 0, a sequence id other than counter plus one gives -1; nothing is written, and the handshake flag and counter are unchanged |
| Protocol.InvalidPacketNumberScenario | src/routing/tests/test_classic_protocol.cc:184-202 | The error packet with sequence id 3, read while the counter is 1, gives -1 with no write |
| Protocol.ServerErrorForwarded | src/routing/tests/test_classic_protocol.cc:205-227 | During the handshake an in-order error packet is forwarded in one write of everything read; the result is 0, the counter becomes 2 and the handshake is done |
| Protocol.ServerSendsErrorScenario | src/routing/tests/test_classic_protocol.cc:205-227 | The error packet with sequence id 2 and code 0xaabb, read while the counter is 1, is written on in one piece; the counter becomes 2 and the result is 0 |
| Protocol.SendErrorMultipleWritesScenario | src/routing/tests/test_classic_protocol.cc:229-239 | For the 26-byte error packet, writes answering 8 and then 10000 succeed after two calls, the second offering the last 18 bytes |
| Protocol.SendErrorWriteFailScenario | src/routing/tests/test_classic_protocol.cc:241-250 | A first write of -1 makes sending the error packet fail after one call |
| Protocol.ClassicProtocol.CopyPackets | src/routing/tests/test_classic_protocol.cc:102-227 | One call changes the connection's handshake flag, packet counter and buffer, the reported count and the socket layer exactly as `CopyPacketsSpec` prescribes, and returns its result |
| Protocol.ClassicProtocol.Relay | src/routing/tests/test_classic_protocol.cc:131-227 | After a read of n > 0 bytes, the handshake checks and the forwarding write change the handshake flag, the packet counter, the reported count and the socket layer exactly as `RelaySpec` prescribes; counter and flag are set on inspection, before the write |
| Protocol.ClassicProtocol.SendError | src/routing/tests/test_classic_protocol.cc:229-250 | Sends the error packet with sequence id 0 through the write loop; returns true exactly when the loop succeeds |
| Protocol.ClassicProtocol.OnBlockClientHost | src/routing/tests/test_classic_protocol.cc:78-100 | Makes exactly one write, of the whole fake handshake response, and returns true exactly when that write does not fail |
| Routing.NatToString | src/routing/tests/test_classic_protocol.cc:281 | The decimal rendering of the port is a non-empty string of digits with no leading zero |
| Routing.DecimalRoundTrip | src/routing/tests/test_classic_protocol.cc:281 | Reading the rendered digits back gives the number |
| Routing.CantConnectMessageExample | src/routing/tests/test_classic_protocol.cc:265-281 | For the endpoint bound to 127.0.0.1:7001 the message is "Can't connect to remote MySQL server for client '127.0.0.1:7001'" |
| Routing.ConnectCallsAt | src/routing/tests/test_classic_protocol.cc:280 | The i-th connect attempt of a traversal goes to the i-th destination, with the endpoint's connect timeout |
| Routing.ConnectCallsOnly | src/routing/tests/test_classic_protocol.cc:280-293 | A traversal's attempts are all connects |
| Routing.TraverseFailover | src/routing/tests/test_classic_protocol.cc:280-293 | When the first K remaining destinations fail and the next accepts, exactly K+1 connects are made, to those destinations in list order; the descriptor of the last is returned, its position becomes the cursor, and exactly K+1 connect results are used |
| Routing.TraverseExhausted | src/routing/tests/test_classic_protocol.cc:280-293 | When every remaining destination fails, each is tried once in order, -1 is returned and the cursor moves past the end |
| Routing.TraverseMakesOnlyConnects | src/routing/tests/test_classic_protocol.cc:280-293 | The cursor only moves forward and stays within the list; the connects made are exactly those to the destinations from the start up to the one selected, or to all remaining ones when none accepts |
| Routing.UnreachableDestinations | src/routing/tests/test_classic_protocol.cc:263-294 | With every destination unreachable, the client gets exactly one write, of error 2003 with sequence id 0 and SQL state HY000; then shutdown of the client and of -1, and close of the client; no read happens and nothing is written to any other descriptor |
| Routing.ConnectedMakesOnlyConnects | src/routing/tests/test_classic_protocol.cc:263-294 | The connection goes on to the relay exactly when both the selected backend and the client descriptor are positive, and in that case only connects have been made and nothing was written |
| Routing.NoValidDestinationsScenario | src/routing/tests/test_classic_protocol.cc:263-294 | The test's setting gives exactly a connect to 127.0.0.1:7004, the write of the 2003 error packet to descriptor 1, shutdown(1), shutdown(-1) and close(1) |
| Routing.MySQLRouting.GetServerSocket | src/routing/tests/test_classic_protocol.cc:280-293 | The selection loop makes exactly the connects, returns the descriptor and moves the cursor as the traversal `Traverse` prescribes; `TraverseFailover` and `TraverseExhausted` say what that is in terms of the first connect that succeeds |
| Routing.MySQLRouting.DropConnection | src/routing/tests/test_classic_protocol.cc:284-290 | The error path sends the "can't connect" packet through the write loop, shuts both descriptors down and closes the positive ones |
| Routing.MySQLRouting.RoutingSelectThread | src/routing/tests/test_classic_protocol.cc:263-294 | One client connection makes exactly the calls, and leaves the cursor and scripts exactly as, `SelectThreadSpec` prescribes |

## Left out

- `get_peer_name` (src/routing/src/utils.cc:50-75) wraps the `getpeername` and `inet_ntop` system calls. It is left out as operating-system I/O.
- `get_message_error` (src/routing/src/utils.cc:127-151) formats platform error text (`strerror`, `FormatMessage`). It is left out.
- The `select` readiness set, the per-connection thread and the connect timeout's effect are left out. Readability is a boolean input, and a connect's outcome is a scripted result; the timeout is only recorded.
- Logging has no effect on control flow and is not modelled. That includes the `log_prefix` arguments and `routing_select_thread`'s warning.
- `set_destinations_from_csv` is not modelled. The destination list is given to the `MySQLRouting` constructor already parsed.
- The blocked-host registry and the error counters behind `on_block_client_host` are left out. They are shared state under a lock, and their code is not part of this model.
- `routing_select_thread` after a successful connect is left out. The relay loop and the blocking of a client whose handshake fails are not modelled, so the model stops when both descriptors are valid. The client address argument is left out with them, since only that path uses it.
- The SSL-request branch of `copy_packets` during the handshake (client packet 1 with the SSL capability) is left out.
- Packet contents beyond the header and the error marker are not checked by the tests. In the handshake response, the capability flags, maximum packet size, character set and filler are not laid out.
- Packet.FakeHandshakeResponseFraming: does not state that the fake response is not an error packet, because its leading capability flags are not laid out.
- Protocol.HandshakeVerdict: a read that holds several packets is checked by its first header only, so `Protocol.CopyPacketsSpec` forwards an out-of-order packet that follows an in-order one in the same read. Splitting a read into packets is not modelled.
- Packet.Bytes: strings placed in packets (user and database names, error messages, the bind host) are assumed to be ASCII. Each character becomes its code modulo 256, which is the `std::string` byte only for ASCII text.
- Round-robin selection and its rotation cursor shared between connections are left out. Every access mode selects first-available in the model, including the `kReadOnly` mode that `NoValidDestinations` constructs; with its single destination, whose connect fails, the test's expectations do not tell the two policies apart.
- `Protocol.ClassicProtocol.CopyPackets`: the other `copy_packets` arguments (`from_server`) do not change any outcome the tests check and are not modelled.
- Integer widths are not modelled: descriptors, counts and ports are unbounded integers, and `size_t` wrap-around cannot occur in the modelled paths.
- tests/helpers/process_launcher.h, plugins/logger/include/logger.h and the test's gmock matchers and `main` are not part of this model.

# Point-cloud push server and its clients — a Dafny model

This project models the sequential core of a small WebSocket system. A server
hands out point-cloud snapshots and echoes chat. A Qt client window shows the
point cloud and the chat. It covers:

- **The session registry** of the two-endpoint server (`/binary`, `/text`).
  It maps each client uuid to a `ClientSession` holding one handle per channel,
  and keeps a user-number counter. `join` inserts a session or re-attaches a
  channel. Closing a socket clears its handles and erases sessions left with none.
  Module `Registry` holds the state as a value, with functions and lemmas.
  Module `RegistryServer` holds the class that updates it in place.
- **The snapshot frame.** The server's encoder writes a `size_t` vertex count N,
  then 12N coordinate bytes, 3N colour bytes, 12N normal bytes and two 12-byte
  bounds. The client's decoder reads the same ranges back at an advancing
  offset. This is module `Snapshot`; floats are opaque 4-byte groups.
- **The chunk splitter** of the single-endpoint server. A 500 MiB generated
  payload goes out in BINARY sends of at most 10 MiB. This is module `ChunkedServer`.
- **The chunk-header reader** of the test window. It reads a 4/4/8-byte
  little-endian header. This is module `MainWindow`, with a corrected reader
  and an encoder as its partner.
- **Dispatch decisions.** Each server turns a parsed control message into a
  `Decision`: join, curUsers, request, chat, ignore, or an exception from the
  JSON library. Each client checks its guards before it sends: are the sockets
  connected, is the trimmed text non-empty. Modules `RegistryServer`,
  `ChunkedServer`, `Client`, `MainWindow`.

Module `Qt` holds what both client windows take from Qt: a socket's observed
state and validity (`Qt.Socket`) and `QString::trimmed` (`Qt.Trim`).
Sockets are opaque ids (`Protocol.SocketId`); a null pointer is `None`. A sent
message is a `Protocol.Send` value added to a log. A received JSON text is the
record of the members the code looks at (`Protocol.ControlMessage`). Each member
is missing, a string, or some other JSON value.
`OnRequest` and `OnChat` use `Client.Client.AreSocketsConnected` as their guard.

Behaviours of the code a reader might not expect:

- A join naming a channel other than "binary" or "text" still files a new
  session with both handles null, and uses up a user number
  (`Registry.UnknownChannelJoin`). So "a session exists iff it holds a handle"
  does not hold after every join. It does hold after every close, because
  `onClose` erases every session with no handle, not only those that held the
  closing socket (`Registry.Detach`).
- A join without a string `uuid` or `channel`, or a message whose `type` is not
  a string, is not ignored: the JSON library throws and nothing catches it
  (`RegistryServer.Decide`, `ChunkedServer.Decide`).
- The chunked server sends raw payload slices with no header, and keeps no send
  queue, message counter or backpressure state. The test window's header reader
  therefore reads the first 16 payload bytes as a header
  (`MainWindow.RawChunkMisread`).
- Chat is echoed only to the sender, on the socket it came in on. curUsers
  only writes to the log.

## Model

| member | source | states |
|---|---|---|
| `Registry.Join` | Server/Server.cpp:95-114 | an unseen uuid gets a new session with that uuid, user number = old counter, not operator, only the named channel's handle set, and the counter goes up by one; a known uuid only has the named channel's handle overwritten and the counter stays; no other session changes |
| `Registry.Attach` | Server/Server.cpp:110-111 | "binary" sets only the binary handle, "text" only the text handle, any other name sets nothing; uuid, user number and operator flag are kept |
| `Registry.Cleared` | Server/Server.cpp:69-71 | after clearing, neither handle equals the closing socket, a handle not equal to it is kept unchanged, and uuid, user number and operator flag are kept |
| `Registry.Detach` | Server/Server.cpp:65-83 | a session survives a close iff it holds a handle other than the closing socket; survivors hold no handle to it and are not handle-less; each handle equal to the socket becomes null and every other handle, uuid, user number and the counter are unchanged |
| `Registry.DefaultSessionIsEmpty` | Server/Server.h:16-23 | a default session has both handles null, user number -1, empty uuid and is not an operator |
| `Registry.UnknownChannelJoin` | Server/Server.cpp:99-111 | a channel other than "binary"/"text" leaves a known session unchanged; for an unseen uuid it files a handle-less session and uses up a user number |
| `Registry.JoinPreservesInv` | Server/Server.h:33-35 | join keeps the registry invariant: each session filed under its own uuid, user numbers in [0, counter) and pairwise distinct |
| `Registry.DetachPreservesInv` | Server/Server.cpp:73-81 | a close keeps the same invariant |
| `Registry.JoinIdempotent` | Server/Server.cpp:107-113 | repeating a join on the same channel from the same socket changes nothing more |
| `Registry.DetachIdempotent` | Server/Server.cpp:67-82 | closing the same socket a second time changes nothing |
| `Registry.FirstJoinGetsZero` | Server/Server.h:35 | the first uuid registered in a fresh registry gets user number 0 and the counter becomes 1 |
| `Registry.RosterSize` | Server/Server.cpp:116-124 | in a well-formed registry the (userNumber, session uuid) lines listed for curUsers are one per session, every session appears under its own uuid, and no user number appears on two lines |
| `Registry.TwoChannelLifecycle` | Server/Server.cpp:65-115 | join on binary then text gives one session with both handles and one user number; closing the binary socket keeps it with the text handle only; closing the text socket erases it |
| `RegistryServer.Decide` | Server/Server.cpp:85-182 | every branch is pinned by an if-and-only-if: join iff type is "join" with string uuid and channel; snapshot iff type is "request"; roster listing iff type is "curUsers"; echo iff type is "chat" with a string chat_message, and a warning iff chat_message is not a string; throws iff the text is not JSON, a join lacks a string uuid or channel, or type is a non-string; nothing happens iff the value is not an object, has no type, or has a string type other than those four |
| `RegistryServer.DecideClientMessages` | Server/Server.cpp:90-171 | the join, request, chat and curUsers messages the client builds each take their own branch, with the same uuid, channel and text |
| `RegistryServer.Server.constructor` | Server/Server.h:33-35 | a new server has an empty user map and counter 0 |
| `RegistryServer.Server.Join` | Server/Server.cpp:90-115 | the in-place update leaves exactly the state `Registry.Join` describes and keeps the invariant |
| `RegistryServer.Server.OnClose` | Server/Server.cpp:65-83 | the loop that visits every session once leaves exactly the state `Registry.Detach` describes and keeps the invariant |
| `RegistryServer.Server.OnMessage` | Server/Server.cpp:85-182 | join updates the registry as `Registry.Join` and sends nothing; request sends one BINARY frame holding the snapshot layout on the same socket; chat with a string message sends one TEXT chat message with the same text on the same socket; every other branch sends nothing; only join changes the registry; `thrown` is set exactly for the throwing cases |
| `Snapshot.TotalSize` | Server/Server.cpp:141-147 | the buffer size is 27N + 32 bytes |
| `Snapshot.Layout` | Server/Server.cpp:149-162 | the frame is TotalSize(N) bytes long |
| `Snapshot.Memcpy` | Server/Server.cpp:150-160 | `std::memcpy` into the buffer at an offset: the copied range holds the source bytes, every other byte is unchanged, and the buffer up to the copy's end is its old prefix followed by the source |
| `Snapshot.Encode` | Server/Server.cpp:141-166 | the buffer filled by successive copies is count, coords, colours, normals, min bound, max bound in that order, and the write offset ends at its length, TotalSize(N) |
| `Snapshot.Parse` | Client/Client.cpp:254-285 | the decoder's count is the first eight bytes read little-endian, and its five ranges have 12N, 3N, 12N, 12 and 12 bytes |
| `Snapshot.Decode` | Client/Client.cpp:251-285 | the offset-advancing reads return `Parse` of the message, and the offset ends at TotalSize(N), within the message |
| `Snapshot.ParseLayout` | Client/Client.cpp:255-285 | decoding the server's frame returns the same count and the same coordinate, colour, normal and bound bytes |
| `Snapshot.LayoutParse` | Server/Server.cpp:149-162 | a message of exactly the layout's length is the encoding of what it decodes to |
| `Snapshot.ParseIgnoresTrailing` | Client/Client.cpp:254-285 | bytes after the layout do not change what is decoded |
| `ChunkedServer.ChunksReassemble` | Server/Server/Server.cpp:43-46 | the chunks concatenated in send order are the data, with no gap, overlap or reordering |
| `ChunkedServer.ChunkSizes` | Server/Server/Server.cpp:40-46 | every chunk is non-empty and at most the chunk size; every chunk but the last is exactly the chunk size |
| `ChunkedServer.ChunkCount` | Server/Server/Server.cpp:43-44 | the number of chunks k is ceil(len / size): (k-1)·size < len <= k·size, and k = 0 iff the data is empty |
| `ChunkedServer.LastChunkLength` | Server/Server/Server.cpp:44 | the last chunk holds what the full chunks before it leave over |
| `ChunkedServer.BinarySends` | Server/Server/Server.cpp:45 | one BINARY send on the socket per chunk, in chunk order |
| `ChunkedServer.SendBinaryInChunks` | Server/Server/Server.cpp:39-48 | the loop that advances `offset` by min(10 MiB, remaining) sends exactly the chunks of the data, in order, and stops at the end of the data |
| `ChunkedServer.GenerateRequestPayload` | Server/Server/Server.cpp:68-70 | the buffer filled in place has 500 MiB and byte i equal to i mod 256 |
| `ChunkedServer.RequestIsFiftyChunks` | Server/Server/Server.cpp:68-73 | the request payload goes out as exactly 50 chunks of exactly 10 MiB that reassemble to it |
| `ChunkedServer.Decide` | Server/Server/Server.cpp:60-89 | the request branch is taken iff type is "request"; chat is echoed iff type is "chat" with a string chat_message; it throws iff the text is not JSON or type is a non-string |
| `ChunkedServer.OnMessage` | Server/Server/Server.cpp:60-89 | a request sends the 10 MiB chunks of the generated payload on the same socket; a chat with a string message sends one TEXT chat message with the same text; nothing else sends anything |
| `Qt.TrimStart` | Client/Client.cpp:165 | the result is a suffix of the input that does not start with white space, and everything removed is white space |
| `Qt.TrimEnd` | Client/Client.cpp:165 | the result is a prefix of the input that does not end with white space, and everything removed is white space |
| `Qt.TrimEmpty` | Client/Client.cpp:165-166 | trimmed text is empty exactly when the input is all white space |
| `Qt.TrimEnds` | Client/Client.cpp:165 | non-empty trimmed text starts and ends with a character that is not white space |
| `Qt.TrimIsInfix` | Client/Client.cpp:165 | trimmed text is a contiguous part of the input |
| `Client.ChatLine` | Client/Client.cpp:238-248 | a line is shown iff the text is a JSON object whose type is the string "chat"; it is the chat_message string, or empty when that is not a string |
| `Client.ChatEchoShown` | Client/Client.cpp:244-247 | the server's echo of a chat message shows exactly the text that was sent |
| `Client.Client.AreSocketsConnected` | Client/Client.cpp:57-62 | true exactly when both sockets exist and both report the connected state; when it holds, both pointers are non-null, so the guarded sends never dereference null. It is false after a connect with a non-blank address (both sockets start connecting) and after a disconnect (`OnConnect`, `OnDisconnect`) |
| `Client.Client.constructor` | Client/Client.cpp:4-14 | a new window has no sockets and no registered object |
| `Client.Client.UpdateButtons` | Client/Client.cpp:47-55 | disconnect is enabled iff some socket exists and is valid, connect otherwise, so exactly one is enabled |
| `Client.Client.OnConnect` | Client/Client.cpp:93-120 | a blank trimmed address changes nothing; otherwise both sockets are replaced by new connecting ones, so `AreSocketsConnected` is false until both report connected |
| `Client.Client.OnDisconnect` | Client/Client.cpp:122-145 | each existing valid socket is closed, in binary-then-text order, and both pointers end null, so `AreSocketsConnected` is false afterwards |
| `Client.Client.OnRequest` | Client/Client.cpp:147-159 | one request message goes out on the binary socket iff both sockets are connected |
| `Client.Client.OnChat` | Client/Client.cpp:161-177 | only when both sockets are connected and the trimmed input is non-empty, one chat message with the trimmed text goes out on the text socket and the input is cleared; otherwise nothing is sent and the input stays |
| `Client.Client.OnDebug` | Client/Client.cpp:179-188 | one curUsers message goes out on the text socket when it exists; no check guards the null case |
| `Client.Client.BinaryWebsocketConnected` | Client/Client.cpp:190-204 | the existing binary socket keeps its identity and takes the reported state and validity; a join for the binary channel with the window's uuid goes out on that same socket, then the buttons are updated; with a null pointer nothing is sent and the buttons stay |
| `Client.Client.TextWebsocketConnected` | Client/Client.cpp:212-226 | the existing text socket keeps its identity and takes the reported state and validity; a join for the text channel with the window's uuid goes out on that same socket, then the buttons are updated; with a null pointer nothing is sent and the buttons stay |
| `Client.Client.WebsocketTextMessageReceived` | Client/Client.cpp:234-249 | the chat view grows by the `ChatLine` of the message when there is one, and by nothing otherwise |
| `Client.Client.WebsocketBinaryMessageReceived` | Client/Client.cpp:251-309 | the snapshot is decoded as `Parse`; while the id pair is (-1, -1) the object is registered and the pair becomes the scene's ids; afterwards it replaces the registered object and the pair stays |
| `MainWindow.ReadHeader` | Client/mainwindow.cpp:96-118 | under 12 bytes is rejected before any read; 16 bytes or more logs messageId, chunkIndex and payloadSize read little-endian from offsets 0, 4 and 8, and the size after the 16-byte header; 12 to 15 bytes read past the end and the logged size wraps modulo 2^64 |
| `MainWindow.TwelveBytesReadPastEnd` | Client/mainwindow.cpp:99-116 | a 12-byte message passes the check, is read past its end, and its logged size is 2^64 - 4 |
| `MainWindow.DeclaredSizeNotCompared` | Client/mainwindow.cpp:113-116 | a header declaring one payload byte with none following is logged as is |
| `MainWindow.EncodeChunk` | Client/mainwindow.cpp:105-111 | the header the reader expects followed by the payload is 16 + payload bytes long |
| `MainWindow.DecodeChunk` | Client/mainwindow.cpp:96-118 | the corrected reader accepts a frame iff it holds the whole 16-byte header and the declared payload size equals the bytes after it; the payload is those bytes |
| `MainWindow.DecodeEncode` | Client/mainwindow.cpp:105-111 | decoding an encoded chunk returns its id, index and payload |
| `MainWindow.EncodeDecode` | Client/mainwindow.cpp:105-111 | a frame that decodes is exactly the encoding of the decoded chunk |
| `MainWindow.DecodeAgreesWithReadHeader` | Client/mainwindow.cpp:105-116 | where the corrected reader accepts, the handler as written logs the same header and size |
| `MainWindow.RawChunkMisread` | Server/Server/Server.cpp:43-46 | the chunked server's first send, which has no header, is logged as message 0x03020100, chunk 0x07060504 |
| `MainWindow.MainWindow.constructor` | Client/mainwindow.cpp:4-11 | a new window has no socket |
| `MainWindow.MainWindow.OnConnect` | Client/mainwindow.cpp:29-46 | a blank trimmed address changes nothing; otherwise a new connecting socket replaces the pointer |
| `MainWindow.MainWindow.OnDisconnect` | Client/mainwindow.cpp:48-60 | a valid socket is closed; the pointer always ends null, so a second call closes nothing |
| `MainWindow.MainWindow.OnRequest` | Client/mainwindow.cpp:62-74 | one request message goes out iff the socket exists and is connected |
| `MainWindow.MainWindow.WebsocketConnected` | Client/mainwindow.cpp:76-82 | connect is disabled and disconnect enabled |
| `MainWindow.MainWindow.WebsocketDisconnected` | Client/mainwindow.cpp:84-88 | connect is enabled and disconnect disabled |

## Left out

- The send queue, message-id counter, `sendNext`, `onDrain` and `onDropped` of the chunked server: declared in Server/Server/Server.h:14-15 and 32-34, but never defined. The chunked server's drain callback is empty (Server/Server/Server.cpp:21-23); only the two-endpoint server's drain callbacks do anything, and they only log the buffered amount (Server/Server.cpp:22-25, 42-45).
- Point-cloud generation (Server/Server.cpp:127-139) is floating-point work in a foreign library. Its output comes in as the `cloud` parameter of `RegistryServer.Server.OnMessage`, and `Snapshot.WellFormed` states what is assumed of it.
- Rendering: camera transforms, renderer setup and scene calls (Client/Client.cpp:64-91, 288-299). What the scene returns on registration comes in as `sceneIds`.
- Socket lifecycle and I/O: `listen(...).run()`, creating and opening `QWebSocket`s, signal wiring, `deleteLater`, destructors, and WebSocket framing. Socket states reported by Qt come in as parameters. A socket's `isValid()` is an observed flag, not derived from its state.
- Delivery: both servers ignore the status that `ws->send` returns (Server/Server/Server.cpp:45; Server/Server.cpp:166, 177). `sent` is a log of the calls to `send`, so `ChunkedServer.ChunksReassemble`, `ChunkedServer.RequestIsFiftyChunks` and the send clauses of the server methods describe what is handed to the socket, not what reaches the peer.
- JSON parsing and serialisation. Messages are abstract records. An exception from the JSON library is reported as `Throws`/`thrown`; the process termination that follows is not modelled.
- Logging (`std::cout`, `qDebug`, `qInfo`, `qWarning`), which has no effect on the protocol. Also the error slots and `MainWindow::websocketTextMessageReceived`, which only log.
- The chunked server's `onOpen` and `onClose`: they only log, and that server keeps no state between callbacks.
- `MainWindow::onChat`: declared in Client/mainwindow.h but not defined.
- `binaryWebsocketDisconnected`/`textWebsocketDisconnected` only call `updateButtons`, which is `Client.Client.UpdateButtons`. The `if (!ui) return` check in it is not modelled, because `ui` is null only after the window is destroyed.
- The null-pointer dereferences in `onDebug` and in the connected slots are undefined behaviour. They are modelled as `ok == false` with nothing sent. `MainWindow::websocketConnected` dereferences the socket only to build a log string, which is not modelled.
- Registry.Join: the user-number counter is an unbounded integer; the source's `int` would overflow after 2^31 new users, which is not modelled.
- Snapshot.Decode: requires the message to hold the count and the whole layout, because the source has no length check and reads out of bounds otherwise (undefined behaviour). Wrap-around of `12·N` in `size_t` for huge N is not modelled either.
- Snapshot.Encode: requires `total_size` to fit in a `size_t`; the overflow of that sum for a vertex count near 2^64/27 is not modelled.
- Qt.TrimStart: Qt's white space is every character in Unicode categories Zs, Zl and Zp plus the ASCII controls tab to carriage return and U+0085. The model lists those characters explicitly.

## Findings

| source | as written | input that shows it | evidently intended | confidence | as-written member | corrected member |
|---|---|---|---|---|---|---|
| Client/mainwindow.cpp:99 | the length check compares against `sizeof(uint32_t) + sizeof(uint64_t)` = 12 bytes, but lines 109-111 read 16 bytes, and the size logged at line 116 is computed in unsigned arithmetic | any 12- to 15-byte message: a 12-byte one passes the check, is read 4 bytes past its end, and logs a size of 2^64 - 4 | reject anything shorter than the 16-byte header | high (not executed) | `MainWindow.ReadHeader`, `MainWindow.TwelveBytesReadPastEnd` | `MainWindow.DecodeChunk` |
| Client/mainwindow.cpp:113-116 | the declared `payloadSize` is logged next to the real payload length but never compared with it | a 16-byte message whose payloadSize field is 1: logged with payload size 1 and actual size 0 | reject a frame whose declared payload length differs from what follows the header | medium (not executed) | `MainWindow.ReadHeader`, `MainWindow.DeclaredSizeNotCompared` | `MainWindow.DecodeChunk` |

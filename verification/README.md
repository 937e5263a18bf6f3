# Verified model of luwu

luwu is a C++ server framework: an HTTP/1.1 request parser that works on whatever pieces of the input
arrive, fibers scheduled over several threads and parked on sockets and timers, and the codecs of a web
server. This project models that code in Dafny 4.11 and proves properties of the model. `dafny verify
dfyconfig.toml` checks all of it. The files stand by themselves; they use no library.

## What is modelled

**The request parser** (`luwu/http/http-parser/http_parser.c`, strict mode, requests).
`HttpMachine` specifies it as a machine that consumes one byte at a time and has no buffers. `HttpParser`
is the parser itself: an object with its fields, marks into the current buffer, and loops that scan header
names, header values and bodies in blocks; each group of cases of `http_parser_execute` is a method, and
its assertions are assertions here, or preconditions where a callback is made. `Execute` is proved to
refine the machine. What the machine does is then stated by itself: independence of the cuts (`HttpSplit`),
the invariant behind the assertions (`HttpInvariant`), the errors (`HttpErrors`), the order of callbacks and
the messages they render (`HttpGrammar`, `HttpMessages`), exact lengths (`HttpLengths`), exact keywords
(`HttpKeywords`), the options of a Connection header (`HttpList`, `HttpConnection`), and reading as the inverse
of writing: ordinary header fields (`HttpFields`), the fields the parser looks for (`HttpSpecials`), chunked
bodies (`HttpChunked`), and whole requests, one after another and cut anywhere, with what becomes of the
connection (`HttpRequests`). A trace is the list of callbacks with adjacent fragments of one data callback
joined.

**The URL splitter** of the same file. `UrlOutline` and `UrlHost` give the two state machines and two
grammars, and prove that each machine accepts exactly the strings of its grammar and finds the parts.
`UrlSplit` has the loops that fill in the fields, proved against the grammars. `ByteClasses` spells the
character classes out, and `UrlBytes` says on the bytes alone which URLs are accepted and what their fields are.

**The fiber runtime** (`scheduler`, `reactor`, `fiber`, `hook`). `Runtime` is a step system: a state with
fibers, task queue, threads, channels, the kernel's interest sets and timers, and one action for each
critical section. A program is any sequence of actions of the fibers: spawn, watch or delete an event,
wait for a socket, sleep, yield to the queue, set and cancel timers, return. `RuntimeBooks` counts what
is conserved, `RuntimeFibers` and `RuntimeLedgers` prove that every action keeps the counts, and
`RuntimeRuns` states what holds in every run; `RuntimeTimeouts` follows a timer from its expiry to the wake of
the call that waits. `Scheduling` has the scheduler and the reactor as objects,
whose methods are proved to do what the steps say.

**Timers and codecs.** `Clocks` is the ordered set of timers; `ByteArray` the growing and compacting
buffer; `WebSocket` and `WebSocketFrames` framing over a stream cut at any points (sections 5.2 to 5.4 of
RFC 6455); `FormCoding` URL coding and parameters; `Base64`. `ByteOrder`, `Counting`, `Options` are shared.

## How the runtime is modelled

- `yield` is one step. The code sets READY before it saves the context (`luwu/fiber.cpp:99-104`), and the
  search for tasks relies on the state alone.
- A dispatch reports only events that are still registered; otherwise `luwu/reactor.cpp:38` aborts.
- An expiry pass takes any part of the timers, so the order of times is irrelevant to the runs; that the
  part is the right one is proved in `Clocks`.
- The stop test is that of `Scheduler::stopping`, which runs under one lock. The test of the reactor reads
  two more things before it, at other moments, so its exits are among those of the model.
- `close` of a descriptor a fiber waits for deletes its registration without a trigger. That loses the
  wake, so the theorem about wake tokens names exactly these fibers; `LostBy` says exactly when it happens,
  and `CloseLosesWake` shows a run.
- `epoll_ctl` fails only where the state of the descriptor makes it fail.

## Where the code and its documentation differ

Each difference comes with the exact condition under which the code does what is promised.

- The table of hexadecimal digits ends after 128 entries, so bytes above US-ASCII are zeros in a chunk size;
  section 4.1 of RFC 7230 does not allow them. A size that is read conforms exactly when all its bytes are
  US-ASCII (`HttpLengths.UnhexExact`, `SizeConforms`, `HighByteRead`).
- A connection is kept by default when both digits of the version are nonzero. That is from version 1.1 on, as
  section 6.3 of RFC 7230 has it, but for versions such as 2.0 (`HttpRequests.VersionExact`).
- A path, a query and a fragment may contain eleven bytes that RFC 3986 does not allow, and a host name none of
  the marks that it allows but the dot and the hyphen (`ByteClasses.UrlCharExact`, `HostCharExact`).
- A request for CONNECT may have an empty query and an empty fragment; the comment at
  `luwu/http/http-parser/http_parser.c:2433` says host and port only, which holds exactly when there is no
  `?` (`UrlSplit.ConnectExact`, `ConnectTail`).
- In a Connection header a comma behind the mere beginning of a keyword, as in `c,close`, or behind an empty
  first element, as in `,close`, is taken for a byte of that option, so the element behind it is not looked at.
  A later element that is empty, or begins with a tab or another byte that begins no token, takes the rest of
  the value with it. A tab behind a keyword makes it another option. Sections 6.1 and 7 of RFC 7230 make
  every comma a separator and allow spaces and tabs around elements. The flags noted are those of that list
  exactly when every keyword in it, whose flag was not set before, is an element in front of which the comma
  was none of these, with no tab around it (`HttpList.ListExact`, `HttpConnection.ConnectionConforms`; inputs in
  `CloseAfterComma`, `CloseAfterTab`, `CloseBeforeTab`). Over folded lines, `HttpConnection.LinesRun`.
- A recurring timer adds its last time to the current one, not its period: it is set again one period later
  exactly when it was added at time zero (`Clocks.RecurringPeriod`, `RecurOnce`, `RecurLate`).
- Cancelling a timer that has fired and does not recur erases the end of the set, which is undefined; it is
  defined exactly when the timer is in the set or was cancelled before (`Clocks.ClockManager.Cancel`,
  `CancelExpired`).
- The end of a WebSocket stream is not noticed in every place: a message that is cut short is delivered
  exactly when a byte of its last payload has arrived (`WebSocketFrames.CutShort`).
- The size limit of a WebSocket message is compared with a sum of 64 bits, so it holds exactly when the sum
  does not wrap (`WebSocket.LimitExact`, `WebSocketFrames.LimitMissed`).
- `sendMessage` is documented to return the length of the message sent. The result is the number of bytes sent
  exactly when there is a payload and it is shorter than 126 bytes (`WebSocket.SendMessage`, `SentExtended`).
- `=` is not encoded, so a name with `=` does not survive a form (`FormCoding.PairRoundTrip`).
- Reading a string of which the length is there, but not all the bytes, fails and loses the length. A list of
  operations hands over every byte exactly when none of its reads is such a one
  (`ByteArrays.HistoryDelivered`, `TornLost`).

## Model

| member | source | states |
|---|---|---|
| `HttpParser.Parser.Execute` | luwu/http/http-parser/http_parser.c:638-2084 | One buffer, in any valid state: the final fields, the callbacks after joining fragments, the number of bytes consumed and the error are those of the byte-at-a-time machine; after an error, the code, the bytes consumed and the callbacks up to a last fragment; when the machine overflows the header limit the parser reports an error too, and its callbacks are those of the machine at a byte before, but for the length of the last fragment; end of input and a parser already in error are the two early exits |
| `HttpParser.Parser.HandleByte` | luwu/http/http-parser/http_parser.c:706-2063 | Every byte, or block of bytes, is counted and handled as the machine says, and the block scans consume exactly the bytes the machine would |
| `HttpParser.Parser.Notify` | luwu/http/http-parser/http_parser.c:79-95 | A callback is made only while there is no error, as the assertion in it says, and adds itself to the trace |
| `HttpParser.Parser.CallbackData` | luwu/http/http-parser/http_parser.c:103-142 | A data callback is made only while there is no error; it reports exactly the open fragment, and all marks are cleared |
| `HttpParser.Parser.CountHeaderSize` | luwu/http/http-parser/http_parser.c:154-161 | The header byte count grows by the given number, in 32 bits, and an error is set exactly when it is then beyond the limit |
| `HttpParser.Parser.FieldBlock` | luwu/http/http-parser/http_parser.c:1248-1382 | Scanning header name bytes, skipping ahead when no keyword can match, equals handling them one by one, up to the end of the name or of the buffer |
| `HttpParser.Parser.ValueBlock` | luwu/http/http-parser/http_parser.c:1469-1668 | Scanning header value bytes, with its look-ahead for CR and LF in values nothing is looked for in, equals handling them one by one |
| `HttpParser.Parser.FieldNameByte` | luwu/http/http-parser/http_parser.c:1257-1362 | The header name matcher moves as the machine says and its index stays inside its keyword |
| `HttpParser.Parser.ValueCharByte` | luwu/http/http-parser/http_parser.c:1490-1666 | The value matchers, the connection options and the length move as the machine says |
| `HttpParser.Parser.LengthDigit` | luwu/http/http-parser/http_parser.c:1529-1557 | A decimal digit is added, or refused, as the machine says, in 64-bit arithmetic that does not wrap |
| `HttpParser.Parser.ChunkDigit` | luwu/http/http-parser/http_parser.c:1945-1975 | A hexadecimal digit is added, or refused, as the machine says, in 64-bit arithmetic that does not wrap |
| `HttpParser.Parser.BodyBlock` | luwu/http/http-parser/http_parser.c:1873-1907 | As many body bytes as the buffer and the length left allow are one callback, and the count that is left is exact |
| `HttpParser.Parser.ChunkBlock` | luwu/http/http-parser/http_parser.c:2007-2028 | As many chunk bytes as the buffer and the size left allow are reported, and the count that is left is exact; the assertions on the flag and the length hold |
| `HttpParser.Parser.HeadersDoneByte` | luwu/http/http-parser/http_parser.c:1826-1871 | After the headers: upgrade, chunked body, body by length or no body, as the machine says, without the assertion on the byte count failing |
| `HttpParser.Parser.TrailerEnd` | luwu/http/http-parser/http_parser.c:1761-1767 | The end of a trailer completes the chunk and the message, as the machine says |
| `HttpParser.Parser.HeadersAlmostDoneByte` | luwu/http/http-parser/http_parser.c:1757-1824 | The LF that ends a header section: trailer, conflict of chunked and length, upgrade, the callback and what follows it, as the machine says |
| `HttpParser.Parser.MethodByte` | luwu/http/http-parser/http_parser.c:963-1014 | A byte of the method moves the guess or is refused as the machine says |
| `HttpParser.Parser.UrlByte` | luwu/http/http-parser/http_parser.c:1034-1087 | A byte of the request target is collected, ends it or is refused as the machine says |
| `HttpMachine.RunConcat` | luwu/http/http-parser/http_parser.c:638-2084 | Consuming two strings one after the other is consuming their concatenation, in state, trace and number of bytes, whatever the error |
| `HttpInvariant.InitInv` | luwu/http/http-parser/http_parser.c:2147-2157 | A new parser satisfies the invariant |
| `HttpInvariant.StepInv` | luwu/http/http-parser/http_parser.c:714-2063 | Every byte without an error keeps the invariant: byte count within the limit, matcher index inside its keyword, header state legal for the state, chunk states only with the chunked flag, lengths below the value that means none, open data callback last in the trace |
| `HttpInvariant.RunInv` | luwu/http/http-parser/http_parser.c:1248-2076 | Every run without an error keeps that invariant, from which the assertions in the methods of `HttpParser` are proved |
| `HttpInvariant.NoOverflow` | luwu/http/http-parser/http_parser.c:714-2063 | No byte that is already counted meets the header limit: it is met where bytes are counted only |
| `HttpErrors.HeaderLimit` | luwu/http/http-parser/http_parser.c:154-161 | A byte outside a body overflows the header exactly when 81920 bytes have been counted, and no byte of a body does |
| `HttpErrors.ErrorPlace` | luwu/http/http-parser/http_parser.c:714-2063 | A byte that is refused is refused with an error of the part it stands in; the internal error of the switch never comes up |
| `ByteClasses.TokenExact` | luwu/http/http-parser/http_parser.c:189-221 | A header name may consist of exactly the bytes that section 3.2.6 of RFC 7230 lists for tokens |
| `ByteClasses.HeaderCharExact` | luwu/http/http-parser/http_parser.c:442-447 | A header value may contain exactly the visible bytes, the space, those above US-ASCII, the tab and the ends of lines |
| `ByteClasses.LowerExact` | luwu/http/http-parser/http_parser.c:416-417 | A capital letter is compared as the small letter at its place in the alphabet |
| `ByteClasses.OtherExact` | luwu/http/http-parser/http_parser.c:189-221 | Any other byte of a name is compared as it is, and no other byte is taken for a letter |
| `ByteClasses.DigitExact` | luwu/http/http-parser/http_parser.c:418-418 | A decimal digit is taken for one and has the value of its place |
| `ByteClasses.UrlCharExact` | luwu/http/http-parser/http_parser.c:243-276 | A path, a query and a fragment may contain exactly the bytes of pchar of section 3.3 of RFC 3986, the slash, and eleven bytes the standard does not allow |
| `ByteClasses.UserinfoExact` | luwu/http/http-parser/http_parser.c:419-426 | User information may contain exactly the bytes of section 3.2.1 of RFC 3986 |
| `ByteClasses.HostCharExact` | luwu/http/http-parser/http_parser.c:433-433 | A host name may contain letters, digits, dots and hyphens only |
| `ByteClasses.ZoneCharExact` | luwu/http/http-parser/http_parser.c:2236-2241 | A zone may contain exactly the unreserved bytes and the percent sign, as RFC 6874 says |
| `HttpScan.ScanCounts` | luwu/http/http-parser/http_parser.c:1364-1374 | Counting a scanned block as a whole gives the state of counting byte by byte, and overflows exactly when that does |
| `HttpScan.BodyRun` | luwu/http/http-parser/http_parser.c:1873-1907 | A stretch of body bytes is one data callback; the length left plus the bytes delivered is constant, and the message ends exactly when nothing is left |
| `HttpScan.ChunkRun` | luwu/http/http-parser/http_parser.c:2007-2028 | The same for a stretch of chunk data |
| `HttpSplit.SplitIndependence` | luwu/http/http-parser/http_parser.c:638-2084 | For every state and every way to cut the input, piece by piece and all at once end in the same state with the same trace and the same error |
| `HttpSplit.Feed` | luwu/http/http-parser/http_parser.c:638-2084 | A parser fed any nonempty pieces ends as if it had been given one buffer: state, joined callbacks, bytes consumed, error, to the extent `Execute` gives them |
| `HttpGrammar.StepOrder` | luwu/http/http-parser/http_parser.c:714-2063 | Every byte keeps the callbacks in the order of messages and the parser state in agreement with it |
| `HttpGrammar.RunOrder` | luwu/http/http-parser/http_parser.c:707-2076 | So the callbacks of every run are in order, from any state in order, with any error |
| `HttpGrammar.DeadIsSilent` | luwu/http/http-parser/http_parser.c:716-724 | After the last message of a connection nothing is reported, and there is an error exactly when a byte other than CR and LF follows, up to the header limit |
| `HttpGrammar.DeadStays` | luwu/http/http-parser/http_parser.c:716-724 | Nothing is reported then whatever follows, beyond the limit too |
| `HttpGrammar.PhaseCanon` | luwu/http/http-parser/http_parser.c:707-2076 | Joining fragments does not change where in a message the callbacks end |
| `HttpMessages.WholeMessages` | luwu/http/http-parser/http_parser.c:707-2076 | Callbacks in order are a prefix of a list of rendered whole messages, and such a list when they end between two messages |
| `HttpMessages.WholeExact` | luwu/http/http-parser/http_parser.c:707-2076 | They are such a list exactly when they end between two messages |
| `HttpMessages.ReportedMessages` | luwu/http/http-parser/http_parser.c:707-2076 | What a parser reports for any input, with any error and beyond the header limit too, is a prefix of rendered whole messages, and all of them when it waits for the next one |
| `HttpLengths.ContentLengthExact` | luwu/http/http-parser/http_parser.c:1423-1557 | A Content-Length of any number of digits is accepted exactly when it is the first and denotes at most 18446744073709551609, and then the length is the number denoted, below the value that means none |
| `HttpLengths.ChunkSizeExact` | luwu/http/http-parser/http_parser.c:1925-1976 | A chunk size of any number of digits is accepted exactly when it denotes at most 2^64 - 17, and then it is the number denoted |
| `HttpLengths.UnhexPlace` | luwu/http/http-parser/http_parser.c:224-233 | A hexadecimal digit in either case has the value of its place in the alphabet |
| `HttpLengths.UnhexExact` | luwu/http/http-parser/http_parser.c:224-233 | The table of digits takes for digits exactly the hexadecimal digits and, since only 128 entries are written out, the bytes above US-ASCII, which are zero |
| `HttpLengths.SizeAccepted` | luwu/http/http-parser/http_parser.c:1925-1976 | A byte string is read as a chunk size exactly when the table takes all of it for digits and its number is at most 2^64 - 17 |
| `HttpLengths.SizeConforms` | luwu/http/http-parser/http_parser.c:1925-1976 | A chunk size that is read is a string of hexadecimal digits exactly when all its bytes are US-ASCII |
| `HttpLengths.HighByteRead` | luwu/http/http-parser/http_parser.c:224-233 | The digit 1 and a byte above US-ASCII are read as sixteen |
| `HttpKeywords.MethodExact` | luwu/http/http-parser/http_parser.c:920-1014 | A token followed by a space is accepted exactly when it is one of the 34 method names, which are written out, and the method is the one of that name |
| `HttpKeywords.MethodPrefix` | luwu/http/http-parser/http_parser.c:963-1014 | The bytes of a method accepted so far are always the beginning of the name guessed, as long as the index |
| `HttpKeywords.MethodComplete` | luwu/http/http-parser/http_parser.c:920-1014 | Every name is accepted byte by byte, through the guesses the matcher makes on the way |
| `HttpKeywords.NameExact` | luwu/http/http-parser/http_parser.c:1198-1364 | A header name leads to the state of a special header exactly when it is the name of that header, ignoring case, and to a matching state exactly when it is the beginning of one |
| `HttpKeywords.ChunkedExact` | luwu/http/http-parser/http_parser.c:1566-1635 | A Transfer-Encoding value is taken for chunked exactly when it is that word, ignoring case, followed by nothing but spaces |
| `HttpConnection.ConnectionExact` | luwu/http/http-parser/http_parser.c:1384-1755 | A whole Connection header, blanks, any value or none, on one line or several, and end of line: it sets the flags of exactly those keywords that are among the options the value is taken for |
| `HttpConnection.LinesRun` | luwu/http/http-parser/http_parser.c:1681-1699 | Over folded lines: a line that ends with the comma of an option is gone on with; otherwise its last option is forgotten and the lines behind it are passed over |
| `HttpConnection.ConnectionConforms` | luwu/http/http-parser/http_parser.c:1384-1715 | A header on one line sets the flags of the list that RFC 7230 makes of its value exactly when no keyword of the list is missed |
| `HttpList.ListExact` | luwu/http/http-parser/http_parser.c:1576-1664 | The flags noted are those of the list, split at commas and trimmed of spaces and tabs, exactly when every keyword of it whose flag was not set is an element with no tab around it, behind a comma that was neither swallowed nor passed over |
| `HttpList.VisibleExact` | luwu/http/http-parser/http_parser.c:1576-1664 | A keyword is found exactly when it is such an element, and it is then in the list |
| `HttpConnection.OptionExact` | luwu/http/http-parser/http_parser.c:1444-1666 | An option, the first or a later one, is recognised exactly when it is keep-alive, close or upgrade, ignoring case, followed by nothing but spaces |
| `HttpConnection.CommaExact` | luwu/http/http-parser/http_parser.c:1595-1664 | A comma behind an option separates it from the next exactly when the option is not passed over and not the mere beginning of keep-alive, close or upgrade; it sets the flag of a recognised option and no other |
| `HttpConnection.BlanksExact` | luwu/http/http-parser/http_parser.c:1576-1593 | Blanks before a later option are skipped exactly when all are spaces; a tab makes the rest of the value be passed over |
| `HttpConnection.PassedOver` | luwu/http/http-parser/http_parser.c:1500-1517 | An option that is passed over takes the rest of the value with it |
| `HttpConnection.CloseSet` | luwu/http/http-parser/http_parser.c:1384-1715 | `Connection: close` sets the flag of close |
| `HttpConnection.CloseAfterComma` | luwu/http/http-parser/http_parser.c:1616-1664 | `Connection: c,close` does not |
| `HttpConnection.CloseAfterTab` | luwu/http/http-parser/http_parser.c:1576-1593 | Nor does `x,`, a tab and `close` |
| `HttpConnection.CloseBeforeTab` | luwu/http/http-parser/http_parser.c:1637-1664 | Nor does `close` and a tab |
| `HttpChunked.ChunkReads` | luwu/http/http-parser/http_parser.c:1925-2045 | One encoded chunk, with any case, leading zeros and extensions, is reported as one chunk with its data and leaves the parser ready for the next |
| `HttpChunked.ChunksRead` | luwu/http/http-parser/http_parser.c:1925-2045 | So is any list of chunks |
| `HttpFields.FieldReads` | luwu/http/http-parser/http_parser.c:1198-1755 | A header field of an ordinary name, with any blanks and any value or none, is reported as its name and its value |
| `HttpFields.FieldsRead` | luwu/http/http-parser/http_parser.c:1198-1755 | So is any list of fields, in order |
| `HttpChunked.ChunkedRoundTrip` | luwu/http/http-parser/http_parser.c:1757-2045 | An encoded chunked body with trailer fields is reported chunk by chunk with its data, then field by field, then complete once, and every byte is consumed |
| `HttpChunked.ChunksDelivered` | luwu/http/http-parser/http_parser.c:2007-2028 | The data handed to the body callback is the concatenation of the chunks |
| `HttpSpecials.NamedRun` | luwu/http/http-parser/http_parser.c:1198-1382 | A name in front of a colon and a space is reported and leads to the header state of the name, ignoring case |
| `HttpSpecials.LengthReads` | luwu/http/http-parser/http_parser.c:1423-1557 | A Content-Length field as it is sent is reported, sets its flag and the length its digits denote |
| `HttpSpecials.CodingReads` | luwu/http/http-parser/http_parser.c:1414-1421 | `Transfer-Encoding: chunked` is reported and sets its flag |
| `HttpSpecials.UpgradeReads` | luwu/http/http-parser/http_parser.c:1409-1412 | An Upgrade field with any value is reported and sets its flag |
| `HttpSpecials.ConnectionReads` | luwu/http/http-parser/http_parser.c:1444-1666 | A Connection field with any value on one line is reported and sets exactly the flags of the options that the value is taken for |
| `HttpSpecials.ProxyName` | luwu/http/http-parser/http_parser.c:1307-1318 | Proxy-Connection is read like Connection |
| `HttpRequests.RequestRoundTrip` | luwu/http/http-parser/http_parser.c:920-2045 | A written request of any method, target and version, with any ordinary fields, perhaps an Upgrade and a Connection field with any values, and no payload, one with a length or a chunked one, is reported as the message it is, once, in order and in full; then the parser is ready for another request exactly when, with both digits of the version nonzero, close is not named in the Connection field, or otherwise keep-alive is named; it hands the connection over exactly when the method is CONNECT or there is an Upgrade field and upgrade is named |
| `HttpRequests.NamesListed` | luwu/http/http-parser/http_parser.c:1576-1664 | Where no keyword of the Connection field is missed, close, keep-alive and upgrade are named exactly when they are in its list |
| `HttpRequests.VersionExact` | luwu/http/http-parser/http_parser.c:2112-2127 | The versions for which a connection is kept by default are those from 1.1 on, as section 6.3 of RFC 7230 has it, exactly but for 2.0, 3.0 and so on |
| `HttpRequests.Closed` | luwu/http/http-parser/http_parser.c:716-725 | Behind a request that closes the connection any byte but CR and LF is refused with CLOSED_CONNECTION, and nothing more is reported |
| `HttpRequests.HandedOver` | luwu/http/http-parser/http_parser.c:1826-1871 | Behind a request that hands the connection over nothing is consumed and nothing more is reported, whatever follows |
| `HttpRequests.BothFramings` | luwu/http/http-parser/http_parser.c:1768-1774 | A request with a Content-Length and a chunked Transfer-Encoding is refused at the end of its head |
| `HttpRequests.CloseEnds` | luwu/http/http-parser/http_parser.c:2112-2127 | `GET / HTTP/1.1` with `Connection: close` closes the connection, and what follows is refused |
| `HttpRequests.KeepGoesOn` | luwu/http/http-parser/http_parser.c:2112-2127 | With `Connection: keep-alive` another request may follow |
| `HttpRequests.UpgradeHands` | luwu/http/http-parser/http_parser.c:1779-1790 | With `Upgrade: websocket` and `Connection: Upgrade` it hands the connection over |
| `HttpRequests.OldRequest` | luwu/http/http-parser/http_parser.c:1057-1082 | A request without a version, and without fields, is of version 0.9 and closes the connection |
| `HttpRequests.IceRun` | luwu/http/http-parser/http_parser.c:1088-1131 | ICE in place of HTTP is read for the method SOURCE and refused for every other one |
| `HttpRequests.RequestsRoundTrip` | luwu/http/http-parser/http_parser.c:638-2084 | So is any list of requests on one connection of which all but the last keep it open; the last one decides what becomes of it |
| `HttpRequests.ParseRequests` | luwu/http/http-parser/http_parser.c:638-2084 | The parser itself, fed the bytes of such a list cut into any buffers, reports these messages, consumes every byte, and ends open, closed or handed over as the last request says |
| `HttpRequests.Smallest` | luwu/http/http-parser/http_parser.c:920-1014 | Two GET requests in the shortest form are such a list |
| `UrlOutline.WalkExact` | luwu/http/http-parser/http_parser.c:490-636 | The state machine of the request target accepts exactly the outlines of the grammar, and finds their components; an outline is unique |
| `UrlOutline.StepShape` | luwu/http/http-parser/http_parser.c:490-636 | Each byte extends the outline by itself and keeps the shape of its state |
| `UrlOutline.ShapeWalks` | luwu/http/http-parser/http_parser.c:490-636 | Every outline of the grammar is accepted and found again |
| `UrlHost.WalkExact` | luwu/http/http-parser/http_parser.c:2176-2256 | The state machine of the authority ends well exactly on the authorities of the grammar, and finds their parts |
| `UrlHost.StepShape` | luwu/http/http-parser/http_parser.c:2176-2256 | Each byte extends the parts of the authority and keeps the shape of its state |
| `UrlHost.ShapeWalks` | luwu/http/http-parser/http_parser.c:2176-2256 | All parts of the grammar are accepted and found again |
| `UrlSplit.Url.ParseUrl` | luwu/http/http-parser/http_parser.c:2345-2466 | A URL of at most 65535 bytes is accepted exactly when the grammar divides it, and then the fields set, their offsets and lengths and the port are those of the division |
| `UrlSplit.Url.ParseOutline` | luwu/http/http-parser/http_parser.c:2362-2418 | The loop over the URL finds the components of its outline, and whether the authority has an @ |
| `UrlSplit.Url.ParseHost` | luwu/http/http-parser/http_parser.c:2258-2338 | The loop over the authority finds its user information, host and port, and fails exactly when the authority is none of the grammar |
| `UrlSplit.Url.ParsePort` | luwu/http/http-parser/http_parser.c:2438-2463 | The port is the decimal value of its digits, refused exactly above 65535 |
| `UrlSplit.FieldBytes` | luwu/http/http-parser/http_parser.c:2345-2466 | Every field of a division lies inside the URL, is not empty, and holds the bytes of its part |
| `UrlSplit.Delimiters` | luwu/http/http-parser/http_parser.c:2345-2466 | Every byte of the URL inside no field is one of the delimiters : / ? # @ [ ] |
| `UrlSplit.FieldsApart` | luwu/http/http-parser/http_parser.c:2345-2466 | The fields follow one another without overlap in the order schema, user information, host, port, path, query, fragment |
| `UrlSplit.SchemaHost` | luwu/http/http-parser/http_parser.c:2420-2425 | A URL with a schema has a host that is not empty |
| `UrlSplit.ConnectExact` | luwu/http/http-parser/http_parser.c:2433-2436 | What is accepted for CONNECT is a host and a port, then perhaps an empty query and empty fragments; it is a host and a port only, as the comment says, exactly when it contains no question mark |
| `UrlSplit.ConnectTail` | luwu/http/http-parser/http_parser.c:2433-2436 | A string with an empty query and fragment is accepted for CONNECT |
| `UrlBytes.TargetExact` | luwu/http/http-parser/http_parser.c:2345-2466 | A URL divided at its marks, a path, a whole URL with user information, name or bracketed address with zone, and port, or a site for CONNECT, is accepted exactly when each part has the bytes that are listed for it and the port is a number of 16 bits; the lists are spelled out byte by byte |
| `UrlBytes.ParseTarget` | luwu/http/http-parser/http_parser.c:2345-2466 | So it is by the splitter, whose fields are then exactly the parts that are not empty, where they are, and whose port is that number |
| `UrlBytes.TargetUnique` | luwu/http/http-parser/http_parser.c:490-636 | The parts of bytes divided at their marks are the only ones the grammar can find |
| `UrlBytes.RequestTarget` | luwu/http/http-parser/http_parser.c:1034-1087 | A request target that begins with a slash or a star is accepted by the request parser exactly when its path, query and fragment have these bytes |
| `UrlBytes.EscapedOk` | luwu/http/http-parser/http_parser.c:243-276 | Percent escapes in a path and in a query are accepted |
| `RuntimeRuns.WakeTokens` | luwu/scheduler.cpp:105-173 | In every reachable state, with any number of threads: a suspended unfinished fiber has exactly one wake token, or none if its registration was deleted without being triggered; a running fiber has at most one and only when it is about to yield; a finished one has none |
| `RuntimeRuns.OneThread` | luwu/scheduler.cpp:157-171 | No fiber is inside two threads, and a fiber inside a thread is running |
| `RuntimeRuns.ResumeMeetsReady` | luwu/fiber.cpp:116-131 | Every resume of a scheduled fiber meets its assertion that the fiber is READY |
| `RuntimeRuns.LostBy` | luwu/hook.cpp:278-291 | A wake is lost exactly when the registration of the parked fiber is deleted without triggering it, as close does, and it stays lost |
| `RuntimeRuns.LostNeverRuns` | luwu/hook.cpp:278-291 | A fiber that lost its wake is never resumed again and never finishes |
| `RuntimeRuns.NotDestroyed` | luwu/fiber.cpp:66-78 | A fiber that has not finished and has not lost its wake is held by a task, a thread, a registration or a timer, so it is not destroyed before it has finished |
| `RuntimeRuns.CloseLosesWake` | luwu/hook.cpp:278-291 | There is a run in which that happens |
| `RuntimeRuns.TasksConserved` | luwu/scheduler.cpp:105-173 | An accepted task is at one place only: queued, held by one thread, or done; the active counter is the number of holding threads; a pinned task is held by its thread only |
| `RuntimeRuns.OneWakeEach` | luwu/reactor.cpp:37-47 | A registration is pending in one slot, or its callback was queued once, or it was deleted once, however dispatch, timeout and deletion interleave |
| `RuntimeRuns.EventRemoved` | luwu/reactor.cpp:140-178 | A registration ends exactly by a report, a deletion or a timeout of its event; a deletion without trigger drops it, and every other way queues its callback once |
| `RuntimeTimeouts.TimeoutCalled` | luwu/hook.cpp:114-121 | In every run, a thread that has come further with the task of a timeout than its call, or is done with it, has called the timeout of that event before, in that task |
| `RuntimeTimeouts.TimeoutDone` | luwu/hook.cpp:114-121 | In every run, a timeout task that was accepted at any time and is done at some state has made its call before |
| `RuntimeTimeouts.QueuedTimeout` | luwu/hook.cpp:114-121 | When the task of a queued timeout is done, the call lies between; unless the waiting call had returned, an event that was still registered was removed by it and its callback queued |
| `RuntimeTimeouts.ExpiredTimeout` | luwu/reactor.cpp:211-216 | From the expiry of such a timer on: the callback is queued before the thread does anything else, and when the task that it became is done the event has been removed with its wake |
| `RuntimeTimeouts.ExpiredQueued` | luwu/reactor.cpp:211-216 | Before a thread does anything else it queues the callbacks of all timers it found expired, one task for each, in their order |
| `RuntimeTimeouts.TimerStep` | luwu/clock.cpp:114-141 | A timer is set by the two actions that set one and ends when it is cancelled, or is due and does not recur; no other action changes the timers |
| `RuntimeTimeouts.SameTask` | luwu/scheduler.cpp:105-173 | The number of a task names one task in the whole run: what it runs and where it is pinned never change |
| `RuntimeTimeouts.SpawnQueues` | luwu/scheduler.h:55-68 | A new fiber or function is queued behind all other tasks with the pin that was asked for |
| `RuntimeTimeouts.UserRuns` | luwu/scheduler.cpp:157-166 | A scheduled fiber and a function of a user, once resumed, may go on with anything |
| `RuntimeTimeouts.StopLeaves` | luwu/scheduler.cpp:168-182 | A thread with nothing to do, when the scheduler may stop, leaves it in two steps |
| `RuntimeRuns.ReactorBooks` | luwu/reactor.cpp:90-178 | The pending count is the number of event bits, a callback slot is filled exactly when its bit is set, and the interest set of the kernel is the set of bits |
| `RuntimeRuns.OpsLegal` | luwu/reactor.cpp:108-178 | Every ADD, MOD and DEL chosen is accepted by the kernel, except the DEL for a report handled when no event is left; the slot that addEvent fills is empty, as it asserts |
| `RuntimeRuns.Quiescence` | luwu/scheduler.cpp:99-182 | In every run, with events and timers too: a thread has left run only after a stop test of its own, at which every accepted task had been run exactly once, the queue was empty and no thread held a task; and this stays so until a task is added from outside, by an expired timer or by a report |
| `RuntimeRuns.StopKept` | luwu/scheduler.cpp:99-103 | When nothing is left to do, that ends exactly with a task added from outside, by an expired timer or by a report |
| `RuntimeRuns.StopTest` | luwu/scheduler.cpp:99-103 | The stop test holds exactly when stop has been called and every accepted task has been run exactly once |
| `RuntimeRuns.PlainQuiescence` | luwu/scheduler.cpp:99-182 | In runs of the scheduler alone, without events and timers and with no task added from outside after stop: once a thread has left run nothing is left to do forever, and every fiber has finished |
| `RuntimeRuns.DrainedForever` | luwu/scheduler.cpp:99-103 | Once the stop test of the scheduler holds and no event, timer or expired callback is left, both stay so, in runs of the reactor too |
| `RuntimeFibers.FibersStep` | luwu/scheduler.cpp:105-173 | Every critical section keeps the account of the wake tokens of every fiber |
| `RuntimeFibers.FiberStep` | luwu/hook.cpp:97-172 | The account of one fiber, action by action: spawning, parking, sleeping, yielding, timeouts, picking, resuming, dispatch |
| `RuntimeFibers.EligibleReady` | luwu/scheduler.cpp:129-147 | A task the search accepts belongs to a suspended fiber that has not finished |
| `RuntimeLedgers.LedgersStep` | luwu/reactor.cpp:90-178 | Every critical section keeps the accounts of tasks, registrations, event bits and active threads |
| `RuntimeLedgers.TaskStep` | luwu/scheduler.cpp:105-173 | The account of one task, action by action |
| `RuntimeLedgers.EventStep` | luwu/reactor.cpp:140-253 | The account of one registration and the pending count, action by action |
| `Runtime.FirstEligible` | luwu/scheduler.cpp:122-147 | The search returns the first task that is not pinned elsewhere and whose fiber does not run, or the end of the queue |
| `Scheduling.Scheduler.AddTask` | luwu/scheduler.h:55-68 | The task goes to the end of the queue; idle threads are woken exactly when the queue was empty |
| `Scheduling.Scheduler.Pick` | luwu/scheduler.cpp:122-151 | The loop takes the first eligible task and counts the thread as active, or takes none; others are woken exactly when tasks are left behind it or a task pinned elsewhere was passed over |
| `Scheduling.Scheduler.Stopping` | luwu/scheduler.cpp:99-103 | In a reachable state the answer is yes exactly when stop has been called and every accepted task has been run exactly once |
| `Scheduling.Reactor.TriggerEvent` | luwu/reactor.cpp:37-47 | The bit is cleared, the callback queued once and the slot emptied |
| `Scheduling.Reactor.AddEvent` | luwu/reactor.cpp:90-138 | The kernel, the bit, the slot and the pending count change together, or nothing does |
| `Scheduling.Reactor.DelEvent` | luwu/reactor.cpp:140-178 | Deleting succeeds exactly when the event is registered, and does what the step system says, with and without trigger |
| `Scheduling.Reactor.DispatchReports` | luwu/reactor.cpp:219-253 | Handling a list of reports changes the reactor as handling them one by one in the step system |
| `Clocks.ClockManager.Add` | luwu/clock.cpp:143-152 | The set stays strictly sorted without duplicates and gains exactly the clock; onClockInsertAtFront is called when the clock came first or a call was already due |
| `Clocks.ClockManager.AddClock` | luwu/clock.cpp:85-90 | The set gains exactly one clock, due one period from now; onClockInsertAtFront is called exactly when this clock comes first or a call was already due |
| `Clocks.ClockManager.Cancel` | luwu/clock.cpp:29-38 | A clock in the set is taken out, its callback with it, and nothing else; one that was cancelled before is refused; one that has its callback but is not in the set, as after it has fired, is the undefined case |
| `Clocks.CancelExpired` | luwu/clock.cpp:29-38 | Cancelling a clock that has fired and does not recur is that case |
| `Clocks.ClockManager.Refresh` | luwu/clock.cpp:40-54 | The clock, if it is set, is due one period from now; everything else stays and the order is kept |
| `Clocks.ClockManager.Reset` | luwu/clock.cpp:56-72 | The clock, if it is set, gets the new period and, if asked for, a new time; everything else stays and the order is kept |
| `Clocks.ClockManager.GetNextTime` | luwu/clock.cpp:102-116 | The result is the time to the earliest clock, zero when it is due, and the largest number when there is none |
| `Clocks.ClockManager.ListExpired` | luwu/clock.cpp:118-141 | The callbacks are those of the due clocks in time order; the clocks that stay are the others and the recurring ones, set again; the set stays strictly sorted |
| `Clocks.DuePrefix` | luwu/clock.cpp:129-131 | Every clock whose time is past is due and none whose time is still to come |
| `Clocks.DueUpperBound` | luwu/clock.cpp:126-131 | They are the clocks in front of the upper bound of a clock made for the current time |
| `Clocks.LessTotal` | luwu/clock.cpp:10-27 | The comparator is a strict total order on time and address |
| `Clocks.RecurringPeriod` | luwu/clock.cpp:136-138 | A recurring clock is set again one period later exactly when its old time equals its period, because the old time is added |
| `Clocks.RecurOnce` | luwu/clock.cpp:85-141 | A recurring clock that is added and then expires is set again one period later exactly when it was added at time zero |
| `Clocks.RecurLate` | luwu/clock.cpp:136-138 | A clock of period 10 that is added at 5 and expires at 16 is due at 31 |
| `Clocks.Inserted` | luwu/clock.cpp:10-27 | Insertion by the comparator keeps the set strictly sorted and adds exactly the clock |
| `ByteArrays.ByteArray.EnsureCapacity` | luwu/byte_array.cpp:63-81 | Growing or compacting makes the room asked for and leaves the readable bytes as they are |
| `ByteArrays.ByteArray.MoveToFront` | luwu/byte_array.cpp:72-80 | The overlapping copy in place moves the readable bytes to the front unchanged |
| `ByteArrays.ByteArray.Write` | luwu/byte_array.cpp:28-34 | The bytes written come behind the readable ones |
| `ByteArrays.ByteArray.Read` | luwu/byte_array.cpp:51-61 | The oldest readable bytes are returned and, unless peeking, consumed; asking for more than there are changes nothing |
| `ByteArrays.ByteArray.WriteInt` | luwu/byte_array.h:33-39 | The integer is written most significant byte first |
| `ByteArrays.ByteArray.ReadInt` | luwu/byte_array.h:65-73 | The next bytes are returned as the integer they are most significant byte first |
| `ByteArrays.ByteArray.WriteString` | luwu/byte_array.cpp:22-26 | The length in eight bytes, then the string |
| `ByteArrays.ByteArray.ReadString` | luwu/byte_array.cpp:43-49 | The string of the length in front of it; when it is not all there the length has been consumed nevertheless |
| `ByteArrays.ReadBack` | luwu/byte_array.cpp:22-61 | Any list of integers of 1, 2, 4 and 8 bytes and strings, whatever is written behind it, is read back equal and in order |
| `ByteArrays.PerformAll` | luwu/byte_array.cpp:22-81 | Any list of writes, reads and peeks, of bytes, integers and strings, in any order: the answers are those of a queue, the bytes taken and then the readable ones are those there were and those written, and the bytes handed over are exactly when no read is torn |
| `ByteArrays.History` | luwu/byte_array.cpp:22-61 | First in, first out, for the queue |
| `ByteArrays.HistoryDelivered` | luwu/byte_array.cpp:22-61 | Every byte is handed over once and in order exactly when no operation of the list is a string read of which the length is there, but not all the bytes |
| `ByteArrays.DeliversTaken` | luwu/byte_array.cpp:43-61 | An operation hands over the bytes it takes away exactly when it is no such read |
| `ByteArrays.TornLost` | luwu/byte_array.cpp:43-49 | A length of one with no byte behind it is lost |
| `ByteOrder.SwappedMemory` | luwu/utils/endian.h:13-35 | Swapping and copying from little-endian memory gives the bytes most significant first |
| `ByteOrder.SwapLoads` | luwu/utils/endian.h:48-51 | Bytes that arrive most significant first are, once swapped, the number sent |
| `ByteOrder.SwapTwice` | luwu/utils/endian.h:13-35 | Swapping twice gives the integer back |
| `ByteOrder.XorAt` | luwu/http/ws_connection.cpp:140-142 | Exclusive or, for all bytes and each of the eight places: a bit is set exactly when it is set in one of the two bytes and not in both |
| `ByteOrder.XorSum` | luwu/http/ws_connection.cpp:140-142 | Exclusive or as the sum of its bits |
| `WebSocket.HeadRound` | luwu/http/ws_connection.cpp:18-39 | What generate writes, init reads |
| `WebSocket.Connection.ReadFixSize` | luwu/http/connection.cpp:28-39 | However the stream is cut into reads, the buffer receives the next bytes in order, as far as the stream goes |
| `WebSocket.Connection.WriteFixSize` | luwu/http/connection.cpp:72-83 | However the sends are cut, all bytes are sent once and in order |
| `WebSocket.RecvMessage` | luwu/http/ws_connection.cpp:88-157 | The loop over frames returns the message, or none, and consumes the bytes that the frame grammar of the stream says |
| `WebSocket.RecvFrame` | luwu/http/ws_connection.cpp:103-151 | One data frame: length forms, size limit, mask, unmasking in place, opcode of the first frame, FIN |
| `WebSocket.LimitExact` | luwu/http/ws_connection.cpp:131-133 | A frame that takes the data to the limit is refused exactly when the sum of 64 bits does not wrap, and a shorter one never is |
| `WebSocket.HeadCases` | luwu/http/ws_connection.cpp:95-151 | Opcodes 8, 9 and 10 end the call, 0, 1 and 2 are read on exactly when the frame is masked, and of any other frame the head is skipped |
| `WebSocket.MessageSize` | luwu/http/ws_connection.cpp:131-148 | A message that is delivered is shorter than 33554432 bytes |
| `WebSocket.Unmask` | luwu/http/ws_connection.cpp:140-142 | The loop unmasks the new bytes in place and leaves the older ones alone |
| `WebSocket.SendMessage` | luwu/http/ws_connection.cpp:159-190 | One unmasked frame with the right length form is sent, and the result is the one the original returns: it is the number of bytes sent exactly when there is a payload shorter than 126 bytes |
| `WebSocket.SentExtended` | luwu/http/ws_connection.cpp:159-190 | For a payload of 126 bytes it is 128, and 130 bytes are sent |
| `WebSocketFrames.FrameReads` | luwu/http/ws_connection.cpp:103-151 | Reading inverts writing one masked frame, in any of the three length forms, in the middle of any stream |
| `WebSocketFrames.Reassembly` | luwu/http/ws_connection.cpp:88-157 | A fragmented message of masked frames is read as the opcode of its first frame and the concatenated unmasked payloads, and exactly its bytes are consumed |
| `WebSocketFrames.ReceiveFragments` | luwu/http/ws_connection.cpp:88-157 | The same for the connection, however the stream is cut into reads |
| `WebSocketFrames.CutShort` | luwu/http/ws_connection.cpp:88-157 | When a fragmented message is cut short a message is delivered exactly when at least one byte of its last payload has arrived, with bytes of the key in place of the missing ones; a cut anywhere else delivers none |
| `WebSocketFrames.LimitMissed` | luwu/http/ws_connection.cpp:131-133 | Behind one byte of data a length of all ones passes the size limit |
| `WebSocketFrames.ServerFrameReads` | luwu/http/ws_connection.cpp:159-190 | A frame the server sends is read back by an independent reader |
| `WebSocketFrames.HelloReads` | luwu/http/ws_connection.cpp:88-157 | The masked text frame of section 5.7 of RFC 6455 is read as Hello |
| `WebSocketFrames.ReceiveHello` | luwu/http/ws_connection.cpp:88-157 | So it is by the connection, however its eleven bytes are cut |
| `WebSocketFrames.SentExamples` | luwu/http/ws_connection.cpp:159-190 | The frames sent for Hello, for 256 and for 65536 bytes are those of section 5.7 of RFC 6455 |
| `FormCoding.UrlEncode` | luwu/utils/util.cpp:126-155 | The loop with its lazily created buffer computes the code of the string byte by byte |
| `FormCoding.UrlDecode` | luwu/utils/util.cpp:157-186 | The loop decodes plus signs and complete escapes and copies everything else |
| `FormCoding.UrlRoundTrip` | luwu/utils/util.cpp:126-186 | Decoding inverts encoding for every byte string and either treatment of spaces |
| `FormCoding.DecodeEscape` | luwu/utils/util.cpp:107-173 | A percent sign and two hexadecimal digits, each at its place in either alphabet, decode to the byte they denote, in front of any tail |
| `FormCoding.DecodePercent` | luwu/utils/util.cpp:157-186 | A percent sign that two hexadecimal digits do not follow is kept |
| `FormCoding.DecodeKept` | luwu/utils/util.cpp:157-186 | Every other byte is kept, but for a plus sign that stands for a space |
| `FormCoding.EncodeExact` | luwu/utils/util.cpp:84-155 | Letters, digits and - . _ ~ = are sent as they are, a space perhaps as a plus sign, any other byte as a percent sign and two digits, letters being capital |
| `FormCoding.Trim` | luwu/utils/util.cpp:188-195 | The loop finds the string without the blanks at its ends |
| `FormCoding.TrimExact` | luwu/utils/util.cpp:188-195 | What is cut off are spaces, tabs, CR and LF, and what is left neither begins nor ends with one |
| `FormCoding.ParseParam` | luwu/http/message.cpp:106-121 | The loop ends on every string with the parameters the string says, later ones replacing earlier ones |
| `FormCoding.FormRoundTrip` | luwu/http/message.cpp:106-121 | A list of encoded pairs, joined by the separator, whose names contain no = is read back as the map with later pairs winning |
| `FormCoding.CookieRoundTrip` | luwu/http/message.cpp:106-121 | A list of cookies joined with a semicolon and a space is read back, the space belonging to no name |
| `FormCoding.PairRoundTrip` | luwu/http/message.cpp:106-121 | A pair is read back exactly when its name contains no = |
| `FormCoding.EqualsName` | luwu/http/message.cpp:106-121 | Of a name with an = the part behind it is read as part of the value |
| `FormCoding.Request.InitQueryParam` | luwu/http/message.cpp:123-129 | The query is parsed once |
| `FormCoding.Request.InitBodyParam` | luwu/http/message.cpp:131-141 | The body is parsed once, and only when it is a form |
| `FormCoding.Request.InitCookies` | luwu/http/message.cpp:143-154 | The cookie header is parsed once, with ; as the separator |
| `Base64.Encode` | luwu/utils/util.cpp:197-235 | The loops over groups of three bytes compute the encoding, padding included |
| `Base64.RoundTrip` | luwu/utils/util.cpp:197-235 | Decoding inverts encoding for every byte string (section 4 of RFC 4648) |
| `Base64.SymbolExact` | luwu/utils/util.cpp:198-199 | The symbols are those of the alphabet of section 4 of RFC 4648, in its order |
| `Base64.GroupExact` | luwu/utils/util.cpp:207-231 | Three bytes are four symbols of six bits each, in order; two bytes are three symbols and a pad, one byte is two and two pads |
| `Base64.SlashAndPad` | luwu/utils/util.cpp:197-235 | The bytes fb ff ff ff are +////w== |

## Left out

- HttpParser.Parser.Execute: buffers of 4 GiB or more, for which the 32-bit header byte count would wrap, because the caller's buffers are far smaller. After an error the fields other than the error code are not described, and after a header overflow neither are the code and the number of bytes consumed, because the blocks notice the limit late; the callbacks are those of some byte before it, but for the length of the last fragment.
- HttpKeywords.NameExact: names longer than the header limit, which overflow before they are matched.
- HttpChunked.ChunkedRoundTrip: trailer fields of the five names the parser looks for, because they change what it knows of the message.
- HttpRequests.RequestRoundTrip: a second field of the five names, or one in front of ordinary fields; an empty or folded value of one of them; a payload behind CONNECT, whose message ends at its head. A keyword in the Connection field is named where the parser finds it, which is where the list has it unless it is missed (`HttpRequests.NamesListed`).
- HttpRequests.OldRequest: fields behind a request line without a version.
- UrlBytes.TargetExact: bytes that are not divided at their marks in one of the three forms, such as a schema without `://`; the grammars of `UrlOutline` and `UrlHost` cover all bytes.
- UrlSplit.Url.ParseUrl: URLs longer than 65535 bytes, because offsets and lengths are 16 bits wide.
- HttpConnection.ConnectionExact: a value whose first line is empty and that goes on in the next.
- WebSocket.RecvMessage: what follows a head of which only one byte arrives, because the second one is then indeterminate; what follows a length whose sum with the data so far wraps, because the original then writes behind its string; and the bytes `pong` sends.
- WebSocketFrames.Reassembly: frames with an empty payload and control frames between fragments, at which the code gives the message up.
- ByteArrays.ByteArray.WriteInt: signed integers and doubles, which are the same bytes as the unsigned integers of their width.
- ByteArrays.ByteArray.ReadString: for a length no string can have, resizing throws before the bytes are looked for, another exception than that for missing bytes; the model has one failure for both.
- Clocks.ClockManager.ListExpired: times beyond 64 bits; a clock whose time is the current time is due or not by the address of a temporary object, which is a parameter.
- Clocks.ClockManager.Cancel: the set after an undefined erasure. Clocks are values with an address rather than shared objects; which of them have their callback is a set of addresses.
- RuntimeRuns.Quiescence: the reactor's own stop test, which reads timers and events before, at other moments; what it has read by then is not described.
- Scheduling.Reactor.AddEvent: enlarging the table of channels; the table here covers all descriptors.
- Fiber objects: `resume`, `yield`, `reset` and `MainFunc` of `luwu/fiber.cpp` are the state changes of the actions `Resume`, `Yield` and `Finish`, not methods of a class; stacks and contexts are not modelled.
- The retry loop of hooked calls and their results: a program of the step system may do anything between its actions, and the loop is one such program.
- Two fibers waiting for the same event of one descriptor, and a bare `yield` with nothing to wake it: `addEvent` asserts against the first, and the second is not in the programs considered.
- Fairness and progress of the runtime: the theorems are about all states of all runs.
- The response side of the parser, lenient and non-strict modes, pausing, callbacks that return nonzero and `F_SKIPBODY`.
- `parser.cpp`, servers, servlets, connections beyond the buffer overloads of fixed-size reads and writes, logging, addresses, configuration, threads and locks.
- Errors of `recv` and `send` other than the end of the stream.

# A model of ebisu, verified in Dafny

ebisu is a C client for the Internet of Things, made of small hand-written state machines and
parsers. This project models four of them that work together and proves what each promises and what
they promise together.

* **JSON** (`Jsmn`, `JsonComma`, `JsonTree`, `JsonBroken`, `JsonBrackets`, `JkiiLookup`, `JkiiPath`,
  `JkiiPrimitive`, `JkiiEscape`). The tokeniser jsmn, default build, as a class over a token array, and its two passes as
  functions; documents as trees with arbitrary white space; jkii's lookups on the flat token array
  against lookup in the tree; the types of primitives; the escaping of texts.
* **The HTTP client khc** (`KhcText`, `KhcScan`, `KhcMachine`, `KhcClient`, `KhcRun`, `KhcBlame`,
  `KhcSend`, `KhcHeaders`, `KhcChunk`, `KhcResponse`, `KhcDelivery`, `KhcLook`, `KhcRoom`, `KhcWalk`,
  `KhcBounds`, `KhcSizeLine`, `KhcWork`, `KhcEnds`, `KhcLive`, `KhcMistake`, `KhcSuccess`, `KhcNumeral`,
  `KhcAnnounce`, `KhcReceive`, `KhcWire`, `KhcList`).
  `KhcMachine` is the object as a value, the call that each state makes and the handler of each state
  given the answer; `KhcClient` is the object with its two buffers as arrays, proved to take these steps;
  the others prove what every run does, for every way in which sends and receives are cut short and
  repeated. `KhcWire` reads the request off the wire as its receiver does, and `KhcNumeral`,
  `KhcAnnounce` and `KhcReceive` say of the text of a response what is made of it.
* **The body buffer of kii** (`KiiBuffer`, `KiiRequest`, `KiiApi`), which holds the request while that is
  sent and the response afterwards, and **command handling** (`TioScript`, `TioParse`, `TioResult`,
  `TioCommand`, `TioRequest`, `TioDelivery`): actions are taken out of a command, called, answered, and
  the answers sent to the place that the command names.
* **The MQTT task** (`MqttCodec`, `MqttPacket`, `MqttTask`, `MqttSession`, `MqttClient`): the remaining-length
  codec, packets put together in place, the connection's states, the bytes that move it from one to the
  next, and the keep-alive estimate.

Callbacks, the allocator and the network are parameters: a run is driven by any sequence of answers
that fit the calls, and a ghost world records what the socket has accepted, what it still has to
deliver and what the callbacks have been given. Texts are strings of one-byte characters, MQTT packets
sequences of bytes.

Some things the model brings out:

* The stream buffer has to hold as much as the header buffer can hold behind a blank line, that is
  three bytes less than its size; `KhcRoom.RoomDecides` shows that this is exactly what is needed
  (`ebisu/khc/src/khc_state_impl.c:859-867`). The defaults of 256 and 1024 bytes are far from it.
* After a CR LF that was cut in two a line feed may stand in front of the next chunk size line. It does
  no harm because `strtol` skips white space; the size line then has to fit the buffer together with it.
* In four states a handler would access bytes outside its buffers (`KhcMachine.Defined`):
  * a header line is being skipped and nothing of it is buffered: the code looks at the byte in front of
    the buffer. `KhcBounds.SafetyDecided` says for which responses and sockets this happens, exactly: behind
    lines that can be passed there is a line longer than the buffer, which does not announce the framing of
    the body, and either the socket answers AGAIN at a byte of it that is no CR, or the response ends in
    that line with a byte that is no CR. The second needs no AGAIN (`KhcBounds.BlockingEscapes`); a
    response with a complete header is harmless over a socket that never has to be asked again
    (`KhcDelivery.BlockingIsSafe`);
  * the digits of the status are looked for behind a header buffer of the caller's that is too small for
    them (`KhcBounds.SmallBufferEscapes`); the default of 256 bytes is far from that;
  * the size line of a chunk has a terminator in it, which `strstr` does not get past
    (`KhcSizeLine.TerminatorHides`);
  * `strtol`, to which white space and digits are no end, reads through to the end of the stream buffer,
    which has no terminator (`KhcSizeLine.StopsIff`, `KhcSizeLine.StrToLRunsOn`).

  The last two need a response that is no well-formed chunked body (`KhcChunk.ChunkDefined`).
* Each time more of an over-long line has come, what is buffered is looked at as if a line began there.
  So such a line ends a run in KHC_ERR_HEADER_CALLBACK not only when it announces the framing of the body,
  which ends every run (`KhcLive.DeliveryDecided`), but also when a receive happens to begin with
  `Content-Length:` in its middle. `KhcMistake.MistakeDecided` says exactly which responses can meet that;
  all others that are as promised are delivered however they are cut (`KhcMistake.EveryCutDelivers`).
* A response that stops in its header in the middle of a line is read for ever if that line still fits the
  buffer, or if it does not and the last byte is a CR; the handler calls of all others are bounded
  (`KhcEnds.EndsDecided`).
* A stream buffer of no bytes loses the request body and takes no response; the client does not refuse it.
* When a run of the MQTT task ends behind connecting, by a request to stop or by a buffer too small for
  CONNECT, the connection stays open (`MqttTask.LeftOpen`).
* jsmn reads in front of its token array on a comma that no container holds, as in `[],`
  (`JsonComma.CrashIff`), and jkii's lookup by name takes the elements of a root array for keys and values
  and can go on behind them (`JkiiPath.RunsOutIff`).
* Of an action that is an empty object tokens are read that were never filled (`TioParse.FilledIff`).
* When a command fails other than by appending to the body, the header lines of its request stay in
  the list and are sent twice with the next one (`TioDelivery.LinesRepeated`).
* `jkii_escape_str` puts a backslash in front of a control character and leaves the character itself,
  which no JSON reader takes; results of commands re-tokenise exactly when no message holds one.
* `_start_result_request` returns the code of the step before when its append fails; that append
  cannot fail (`KiiBuffer.OpeningFits`).
* A header line need not spell out its name to announce a chunked body: any beginning of it will do, so
  `Tr: chunked` does as well (`KhcAnnounce.AnnouncesIff`).
* The scanner for doubles does not ask where it has stopped: `-` and `2e+` are doubles
  (`JkiiPrimitive.DoubleIff`).
* A SUBSCRIBE packet is written without a check of the buffer; the one made before CONNECT covers it.
* Packets other than PUBLISH and PINGRESP do not count in the keep-alive estimate.

`dafny verify dfyconfig.toml` checks everything.

## Model

| member | source | states |
|---|---|---|
| `Jsmn.Parser.Parse` | ebisu/jkii/libs/jsmn/jsmn.c:153-300 | The main loop over a parser object and a token array changed in place computes `Count` (no array) or `Fill` (an array) of the text: return value, tokens, `toknext` and `toksuper` alike; what these accept is said of the text itself by `JsonTree.ParsePrinted`, `JsonBroken.AcceptedIff` and `JsonBrackets` |
| `Jsmn.Parser.Turn` | ebisu/jkii/libs/jsmn/jsmn.c:160-290 | One turn of the loop is one step of the pass that is being made |
| `Jsmn.Parser.Scalar` | ebisu/jkii/libs/jsmn/jsmn.c:230-282 | A string or a primitive adds a token and counts for its superior; an error is handed on |
| `Jsmn.Parser.ParsePrimitive` | ebisu/jkii/libs/jsmn/jsmn.c:37-81 | A primitive runs up to the byte that ends it; a byte it may not hold, or a full array, is an error that leaves position and tokens as they were |
| `Jsmn.Parser.ParseString` | ebisu/jkii/libs/jsmn/jsmn.c:86-148 | A string runs up to its closing quote, past the known escapes; the position is put back on every error |
| `Jsmn.Parser.SkipHex` | ebisu/jkii/libs/jsmn/jsmn.c:125-138 | Up to four hexadecimal digits are passed over, or the first other byte is reported |
| `Jsmn.Parser.OpenBracket` | ebisu/jkii/libs/jsmn/jsmn.c:166-183 | A container token is opened, counts for its superior and becomes the superior |
| `Jsmn.Parser.CloseBracket` | ebisu/jkii/libs/jsmn/jsmn.c:184-229 | The last open token is closed if it is of the bracket's kind; the superior is then the last open one before it |
| `Jsmn.Parser.Comma` | ebisu/jkii/libs/jsmn/jsmn.c:242-259 | A comma after a key's value makes the last open container the superior again |
| `Jsmn.PassesAgree` | ebisu/jkii/libs/jsmn/jsmn.c:153-300 | Success of the filling pass with n tokens means that the counting pass returns n; running out of room means that it returns more, or an error |
| `Jsmn.RoomDecides` | ebisu/jkii/libs/jsmn/jsmn.c:66-71 | Capacity matters only through the number of tokens: enough room changes nothing, less reports JSMN_ERROR_NOMEM |
| `Jsmn.CountIsExact` | ebisu/jkii/libs/jsmn/jsmn.c:153-300 | The counting pass returns exactly the room the filling pass needs: no shortage from there on, a shortage below it on every text that is accepted with some room |
| `Jsmn.AcceptedSizes` | ebisu/jkii/libs/jsmn/jsmn.c:153-300 | Of any accepted text, valid JSON or not, each token's size counts later tokens only, and the sizes add up to the number of tokens less those created with no superior |
| `Jsmn.StepKeepsSizes` | ebisu/jkii/libs/jsmn/jsmn.c:160-290 | Every step keeps that |
| `JsonBrackets.AcceptedBrackets` | ebisu/jkii/libs/jsmn/jsmn.c:153-300 | Of every accepted text, JSON or not, each token lies inside the text, and each container begins with the opening bracket of its kind and ends with the closing one: none is left open |
| `JsonBrackets.CutDocument` | ebisu/jkii/libs/jsmn/jsmn.c:292-297 | A document whose root is a container, cut anywhere, is rejected as JSMN_ERROR_PART, white space in front or not |
| `JsonBrackets.CutIsPart` | ebisu/jkii/libs/jsmn/jsmn.c:292-297 | So is any accepted text, JSON or not, that is cut while a container is open |
| `JsonBrackets.WrongInDocument` | ebisu/jkii/libs/jsmn/jsmn.c:184-229 | A document in which the bracket that closes any of its containers, at any depth, is of the other kind is rejected as JSMN_ERROR_INVAL, whatever follows |
| `JsonBrackets.WrongBracket` | ebisu/jkii/libs/jsmn/jsmn.c:184-229 | The same for any accepted text, JSON or not |
| `JsonComma.CrashIff` | ebisu/jkii/libs/jsmn/jsmn.c:242-259 | The texts on which the tokeniser would read in front of its token array, exactly, for every room: those in which a comma comes outside strings and primitives while no container is open and no colon has come behind a token since the last one was closed |
| `JsonComma.CommaCrashes` | ebisu/jkii/libs/jsmn/jsmn.c:242-259 | A comma alone is such a text |
| `JsonComma.TrailingCommaCrashes` | ebisu/jkii/libs/jsmn/jsmn.c:242-259 | So is a whole document with a comma behind it |
| `JsonTree.ParsePrinted` | ebisu/jkii/libs/jsmn/jsmn.c:153-300 | Tokenising a printed tree, white space as it may be, hands out its preorder tokens, each with kind, offsets and number of children |
| `JsonTree.ReadValue` | ebisu/jkii/libs/jsmn/jsmn.c:153-300 | Reading one printed value from any parser state adds its tokens, credits it to the superior and leaves the right superior behind |
| `JsonTree.ReadElems` | ebisu/jkii/libs/jsmn/jsmn.c:184-259 | Reading elements up to the closing bracket adds their tokens in order, their number to the array's size, and ends it there |
| `JsonTree.ReadMembers` | ebisu/jkii/libs/jsmn/jsmn.c:184-259 | The same for members: a key has size 1 and its value follows it |
| `JsonTree.StringEnds` | ebisu/jkii/libs/jsmn/jsmn.c:86-148 | The scan of a well-formed string body ends at its closing quote |
| `JsonTree.PrimEnds` | ebisu/jkii/libs/jsmn/jsmn.c:37-81 | The scan of a primitive ends where it does |
| `JsonBroken.AcceptedIff` | ebisu/jkii/libs/jsmn/jsmn.c:37-148 | A document that is well formed but for the insides of strings and primitives is accepted if and only if those are well formed; otherwise, that is with an escape that there is not, with `\u` and fewer than four digits, or with a byte in a primitive that is no printable ASCII, it is rejected as JSMN_ERROR_INVAL |
| `JsonBroken.ScanBreaks` | ebisu/jkii/libs/jsmn/jsmn.c:115-143 | Such an escape anywhere in a string makes its scan fail |
| `JsonBroken.PrimBreaks` | ebisu/jkii/libs/jsmn/jsmn.c:53-57 | Such a byte anywhere in a primitive makes its scan fail |
| `JkiiLookup.CountContained` | ebisu/jkii/src/jkii.c:47-58 | The do-while loop counts as `Walk` does, and reads no token outside the array |
| `JkiiLookup.CountingIsSafe` | ebisu/jkii/src/jkii.c:47-58 | Among the tokens of any accepted text the count can start at any token and stays inside the array |
| `JkiiLookup.CountedValue` | ebisu/jkii/src/jkii.c:47-58 | From the token of a value of a printed tree the count is the number of tokens of its subtree |
| `JkiiLookup.IsSameKey` | ebisu/jkii/src/jkii.c:539-578 | The comparing loop decides whether a stretch of the path, escapes included, names the key |
| `JkiiLookup.FindComponentEnd` | ebisu/jkii/src/jkii.c:493-506 | The loop finds the next slash that no backslash precedes |
| `JkiiLookup.TakeTarget` | ebisu/jkii/src/jkii.c:473-537 | The next component as name or index, and where to go on; malformed components leave the zeroed target |
| `JkiiLookup.GetMember` | ebisu/jkii/src/jkii.c:599-620 | The object branch: the value of the first member whose key the target names, or -1 exactly when there is none |
| `JkiiLookup.GetElement` | ebisu/jkii/src/jkii.c:621-632 | The array branch: the element at the index, or -1 exactly when the array is shorter |
| `JkiiLookup.GetValueByPath` | ebisu/jkii/src/jkii.c:580-640 | On the tokens of a printed document the lookup returns the token of the subtree that the path leads to, or -1 exactly when there is none |
| `JkiiPath.SameKeyIff` | ebisu/jkii/src/jkii.c:539-578 | An escaped name matches exactly the key it was written for |
| `JkiiPath.TargetRead` | ebisu/jkii/src/jkii.c:473-537 | The first component of a rendered path is read back as the step it was written for |
| `JkiiPath.IndexRead` | ebisu/jkii/src/jkii.c:336-385 | The decimal digits of an index are read back as that index |
| `JkiiPath.PathFindsSubtree` | ebisu/jkii/src/jkii.c:580-640 | Following a rendered path through the text is following its steps through the tree: the same subtree, and none exactly when the tree has none |
| `JkiiPath.GetSubtree` | ebisu/jkii/src/jkii.c:580-640 | The lookup loop with a rendered path on the tokens of a printed document returns the token of the subtree that the steps lead to in the tree, and -1 exactly when there is none |
| `JkiiPath.GetValueByName` | ebisu/jkii/src/jkii.c:99-146 | The lookup by name finds the value that `ValueNamed` says, or -1 exactly when there is none: of an object the first member of that name; of an array of two or more elements, which the code takes in turn for keys and values, the element behind the first that is the name |
| `JkiiPath.NamedInObject` | ebisu/jkii/src/jkii.c:99-146 | Of an object that is the member which the path of one step finds |
| `JkiiPath.RunsOutIff` | ebisu/jkii/src/jkii.c:115-141 | In an array the lookup goes on behind the elements, where no token was filled, if and only if all elements at even places are strings and none of them but a last one is the name |
| `JkiiPath.NameRunsOut` | ebisu/jkii/src/jkii.c:115-141 | An array of two strings, neither of them the name, is one |
| `JkiiEscape.EscapeStr` | ebisu/jkii/src/jkii.c:989-1019 | -1 exactly when the escaped text and its terminator do not fit; otherwise they are what is in the buffer, and nothing behind them has changed; what a reader makes of the escaped text says `JkiiEscape.DecodedIff` |
| `JkiiEscape.EscapeInverts` | ebisu/jkii/src/jkii.c:989-1019 | Removing the added backslashes gives back the text |
| `JkiiEscape.DecodedIff` | ebisu/jkii/src/jkii.c:989-1019 | A reader that takes the escapes of section 7 of RFC 8259 for what they stand for gets the text back, exactly if it holds none of the five control characters that are escaped; otherwise it gets nothing |
| `JkiiEscape.EscapedIsGood` | ebisu/jkii/src/jkii.c:989-1019 | The escaped text is a JSON string body if and only if the text holds none of the five escaped control characters and no terminator |
| `JkiiEscape.QuotedScansWhole` | ebisu/jkii/libs/jsmn/jsmn.c:86-148 | Such a text, quoted, is scanned as one string that spans exactly the escaped text |
| `JkiiPrimitive.FindType` | ebisu/jkii/src/jkii.c:282-299 | The type of a primitive: a beginning of null, true or false, digits within two lengths, what the number scanner takes, or none |
| `JkiiPrimitive.ScanInteger` | ebisu/jkii/src/jkii.c:148-183 | Digits only, behind a sign that may be there, within the size |
| `JkiiPrimitive.ScanDouble` | ebisu/jkii/src/jkii.c:197-280 | The loop over seven states accepts what can be gone on to a number |
| `JkiiPrimitive.NumberKnown` | ebisu/jkii/src/jkii.c:282-299 | Every JSON number of up to 311 characters (section 6 of RFC 8259) has the type that it looks like: with a fraction or an exponent a double, without an int, a long or a double by its length |
| `JkiiPrimitive.WordsKnown` | ebisu/jkii/src/jkii.c:282-299 | So have null, true and false |
| `JkiiPrimitive.DoubleIff` | ebisu/jkii/src/jkii.c:197-280 | The texts that the scanner takes, exactly: numbers of which any part may have stopped before its digits, as `1.` and `-` and `2e+` |
| `KhcScan.FindChunked` | ebisu/khc/src/khc_impl.c:13-30 | The nested loops find the word in upper, lower or mixed case anywhere in the text |
| `KhcScan.ScanEncoding` | ebisu/khc/src/khc_impl.c:32-62 | The three-state loop decides as `IsChunkedEncoding` does, key not checked to its end included; `KhcAnnounce.AnnouncesIff` says of the text of the line what that is |
| `KhcScan.ScanKey` | ebisu/khc/src/khc_impl.c:115-131 | True exactly when the whole key stands in front of the first colon, in either case |
| `KhcAnnounce.AnnouncesIff` | ebisu/khc/src/khc_impl.c:13-62 | A header line is taken for one that announces a chunked body if and only if its text up to the first colon is, in any mixture of cases, a beginning of `transfer-encoding`, and `chunked`, in any mixture of cases, stands behind it |
| `KhcAnnounce.RequiredIff` | ebisu/khc/src/khc_state_impl.c:596-600 | An over-long line is not skipped if and only if what is buffered of it begins with `content-length` or `transfer-encoding`, in any mixture of cases, and a colon |
| `KhcNumeral.WrittenSize` | ebisu/khc/src/khc_impl.c:97-113 | A hexadecimal numeral of n, its letters in either case, with zeros in front and an extension behind or not, has the value n for the size test and for `strtol` |
| `KhcNumeral.HexWrites` | ebisu/khc/src/khc_state_impl.c:378-384 | `%lx` writes such a numeral |
| `KhcScan.StrToL` | ebisu/khc/src/khc_impl.c:109-111 | `strtol` as a loop whose every access is inside the buffer, if the bytes are such that it stops there; it computes the saturating value, which on a written number is that number (`KhcNumeral.WrittenSize`) |
| `KhcScan.ReadChunkSize` | ebisu/khc/src/khc_impl.c:97-113 | A size exactly when CR LF stands among the buffered bytes; its value is what `strtol` makes of the buffer, which has to stop inside it |
| `KhcRun.StepValid` | ebisu/khc/src/khc_state_impl.c:114-944 | Every handler that is called in a state other than the four left open (`KhcMachine.Defined`), whatever it is answered and however small the caller's buffers are, leaves the object such that its sizes, lengths and terminators are those the next one relies on |
| `KhcBlame.StepBlame` | ebisu/khc/src/khc_state_impl.c:114-944 | The result changes in a step if and only if the answer, or the state itself, is a cause of failure, and then to the code of that cause: KHC_ERR_SOCK_SEND only when a send has failed, KHC_ERR_WRITE_CALLBACK only when the callback has taken less, and so on for every code |
| `KhcBlame.ResultIsLastBlame` | ebisu/khc/src/khc.c:18-28 | The result of a run is the last of its causes, and what it was when there is none |
| `KhcClient.Khc.constructor` | ebisu/khc/src/khc.c:30-57 | A new client is the initial one, field by field, without buffers |
| `KhcClient.Khc.ResetExceptCb` | ebisu/khc/src/khc.c:59-94 | Everything a run depends on is put back, the caller's buffers are forgotten, settings of callbacks and security stay |
| `KhcClient.Khc.SetTarget` | ebisu/khc/src/khc_state_impl.c:79-107 | Host, path and method, each unless it is too long with its terminator |
| `KhcClient.Khc.HandleIdle` | ebisu/khc/src/khc_state_impl.c:114-147 | Defaults for host and method, allocation of missing buffers, and the states after success and failure |
| `KhcClient.Khc.HandleSend` | ebisu/khc/src/khc_state_impl.c:185-471 | The eight sending handlers: a part accepted advances `_sent_length`, all accepted resets it and goes on, AGAIN stays, failure closes |
| `KhcClient.Khc.Transmit` | ebisu/khc/src/khc_state_impl.c:203-222 | What the sending handlers have in common |
| `KhcClient.Khc.HandleBodyRead` | ebisu/khc/src/khc_state_impl.c:369-376 | The read callback fills the stream buffer; nothing read ends the body |
| `KhcClient.Khc.HandleStatusRead` | ebisu/khc/src/khc_state_impl.c:473-501 | The bytes received are terminated; a status line without its end is KHC_ERR_TOO_LARGE_DATA |
| `KhcClient.Khc.HandleStatusParse` | ebisu/khc/src/khc_state_impl.c:503-520 | Three digits at their place, or KHC_ERR_FAIL |
| `KhcClient.Khc.HandleHeaderCallback` | ebisu/khc/src/khc_state_impl.c:522-568 | The next line is told and dropped in place, an incomplete one is read on or skipped, the blank line ends the header |
| `KhcClient.Khc.HandleHeaderRead` | ebisu/khc/src/khc_state_impl.c:570-592 | More of the header behind what is buffered |
| `KhcClient.Khc.HandleHeaderSkip` | ebisu/khc/src/khc_state_impl.c:594-647 | An over-long line is dropped but for a trailing CR, up to its end; one that announces the body's framing is an error |
| `KhcClient.Khc.HandleMoveHeader` | ebisu/khc/src/khc_state_impl.c:669-704 | As many leftover bytes as there is room for move from the header buffer to the stream buffer |
| `KhcClient.Khc.HandleBodyRecv` | ebisu/khc/src/khc_state_impl.c:706-728 | A piece of a plain body, or its end |
| `KhcClient.Khc.HandleParseSize` | ebisu/khc/src/khc_state_impl.c:745-767 | A complete size line is read and dropped; otherwise more is fetched, from the header buffer first |
| `KhcClient.Khc.HandleReadSize` | ebisu/khc/src/khc_state_impl.c:769-800 | More of a size line, if there is room |
| `KhcClient.Khc.HandleParseBody` | ebisu/khc/src/khc_state_impl.c:802-829 | What is buffered of the chunk is written; the chunk is over, or more is fetched |
| `KhcClient.Khc.HandleReadBody` | ebisu/khc/src/khc_state_impl.c:831-856 | More of a chunk |
| `KhcClient.Khc.HandleSkipCrlf` | ebisu/khc/src/khc_state_impl.c:858-892 | Two buffered bytes are dropped, or the socket is asked for what is missing |
| `KhcClient.Khc.HandleSkipTrailers` | ebisu/khc/src/khc_state_impl.c:894-916 | Everything after the last chunk is thrown away |
| `KhcClient.Khc.HandleClose` | ebisu/khc/src/khc_state_impl.c:918-944 | The client's own buffers are freed, then the socket is closed |
| `KhcClient.Khc.HandlePlain` | ebisu/khc/src/khc_state_impl.c:114-944 | The handlers outside sending, header and chunks, those without work on a buffer among them (connecting, choosing the next header, writing a piece of a plain body), take the step of the machine |
| `KhcClient.Khc.DataToWrite` | ebisu/khc/src/khc_state_impl.c:649-663 | The bytes handed to the write callback are those that the machine says, in the three states that call it |
| `KhcClient.Khc.LineToTell` | ebisu/khc/src/khc_state_impl.c:535-545 | So is the line handed to the header callback |
| `KhcClient.Khc.Handle` | ebisu/khc/src/khc_state_impl.c:114-944 | Every handler on the object, its buffers moved in place, takes exactly the step of the machine |
| `KhcClient.Khc.Perform` | ebisu/khc/src/khc.c:18-28 | The driver loop takes the steps of the run, returns its result and resets state and result |
| `KhcSend.StepKeepsSendInv` | ebisu/khc/src/khc_state_impl.c:185-471 | After every step, what has been accepted and what is pending make up the request text |
| `KhcSend.WireIsRequest` | ebisu/khc/src/khc_state_impl.c:185-471 | For every schedule of short sends and AGAINs: once the request is over, the accepted bytes are the head, line by line as the handlers send it, and the chunks of the pieces read, nothing lost, doubled or out of order; what a receiver reads in them says `KhcWire.RequestOnWire` |
| `KhcWire.RequestOnWire` | ebisu/khc/src/khc_state_impl.c:185-471 | In every run that comes to the response: the first line on the wire, split at its blanks, is the method, the target and HTTP/1.1; the target is `http` or `https`, the host between `://` and the next slash, and the path; the lines behind it are the host, each non-empty header of the caller in order, `Transfer-Encoding: chunked` if and only if there is a body and `Content-Length: 0` otherwise, and `Connection: Close`; behind the blank line stand the chunks, or nothing |
| `KhcWire.HeadRead` | ebisu/khc/src/khc_state_impl.c:185-367 | The same of the head with anything behind it |
| `KhcSend.SizeLineWhole` | ebisu/khc/src/khc_state_impl.c:378-384 | The size line of any piece below 2^48 bytes fits its buffer of 15 |
| `KhcHeaders.HeaderStep` | ebisu/khc/src/khc_state_impl.c:473-647 | A step in the header tells the next line of the response, passes an over-long one up to its CR LF, or ends the header where the response ends it; or the run closes with KHC_ERR_SOCK_RECV, KHC_ERR_HEADER_CALLBACK or KHC_ERR_TOO_LARGE_DATA |
| `KhcHeaders.LineTold` | ebisu/khc/src/khc_state_impl.c:535-568 | A complete line that fits is the next of the response's lines |
| `KhcHeaders.BlankLine` | ebisu/khc/src/khc_state_impl.c:552-567 | The blank line ends the header, or leads to the next status line after an informational one |
| `KhcHeaders.SkippedAhead` | ebisu/khc/src/khc_state_impl.c:604-610 | Dropping all but a trailing CR leaves the line's end ahead, even when CR and LF come apart |
| `KhcHeaders.SkipRecv` | ebisu/khc/src/khc_state_impl.c:612-636 | Skipping goes on behind the line's CR LF, wherever the bytes are cut |
| `KhcChunk.ChunkStep` | ebisu/khc/src/khc_state_impl.c:669-892 | Written ++ decode(stream buffer ++ header leftover ++ unread socket) is the body, after every step; nothing but the socket or the write callback makes it fail |
| `KhcChunk.ChunkDefined` | ebisu/khc/src/khc_state_impl.c:745-757 | While a well-formed body is decoded, `strstr` and the size test agree and `strtol` stops inside the stream buffer |
| `KhcChunk.SizeLineFound` | ebisu/khc/src/khc_state_impl.c:745-757 | The size line ahead is found as soon as it is buffered, and its value does not depend on the stale bytes behind it |
| `KhcChunk.CrlfSkipped` | ebisu/khc/src/khc_state_impl.c:858-892 | After the chunk's CR LF, or its CR alone, the same size line is ahead |
| `KhcChunk.DecodeOne` | ebisu/khc/src/khc_state_impl.c:378-471 | A chunk written with any size line of its length decodes to its data |
| `KhcResponse.RespStep` | ebisu/khc/src/khc_state_impl.c:473-944 | Every step keeps: what has been told and written and what is still to come make up the expected lines and body |
| `KhcResponse.RespRun` | ebisu/khc/src/khc.c:18-28 | So does every run |
| `KhcReceive.ChunkedReceived` | ebisu/khc/src/khc_state_impl.c:473-916 | A response written line by line, with informational headers in front or not, one line of which announces it, and chunks with their sizes in hexadecimal: every run that ends with KHC_ERR_OK has told the lines that fit and written the data of the chunks |
| `KhcReceive.PlainReceived` | ebisu/khc/src/khc_state_impl.c:473-728 | If no line announces it, the body has been written as it is |
| `KhcReceive.HelloReceived` | ebisu/khc/src/khc_state_impl.c:473-916 | For one: `HTTP/1.1 200 OK`, `Transfer-Encoding: chunked`, a chunk `hello`; `hello` is what is written |
| `KhcReceive.AnswerOfText` | ebisu/khc/src/khc_state_impl.c:473-568 | The header of a response that is written so is read as its lines, but those too long for the buffer, up to the first blank line behind a status that is not informational |
| `KhcDelivery.ResponseDelivered` | ebisu/khc/src/khc_state_impl.c:473-944 | For every way the socket cuts the response: a finished run is KHC_ERR_OK with all lines and all of the body delivered if and only if it has met no cause of failure, and a beginning of them before that; the causes left open are failures of socket and allocator, refusals by callbacks, a status line in pieces, a piece of the request without a size line, and an over-long line that in one of its buffers looks like a framing header |
| `KhcLive.DeliveryDecided` | ebisu/khc/src/khc_state_impl.c:473-944 | Of the responses that are as promised exactly those can be delivered at all, by some run that ends with KHC_ERR_OK, in which no over-long line announces the framing of the body |
| `KhcLive.ThrivingStep` | ebisu/khc/src/khc_state_impl.c:114-944 | In every state of such a run there is an answer that is no cause of failure, does some of the remaining work and keeps this so |
| `KhcMistake.MistakeDecided` | ebisu/khc/src/khc_state_impl.c:594-610 | For which responses, complete or not, no run ends with KHC_ERR_HEADER_CALLBACK unless the callback has refused something, exactly: those in which no over-long line has a framing key with its colon at its start, or at an offset of at least the header buffer's size less one that no CR precedes |
| `KhcMistake.EveryCutDelivers` | ebisu/khc/src/khc_state_impl.c:473-944 | Of these, every response that is as promised is delivered however it is cut and however often the socket has to be asked again, as long as socket, allocator and callbacks do not fail and the status lines come whole |
| `KhcMistake.MistakenExample` | ebisu/khc/src/khc_state_impl.c:594-610 | A response for every header buffer of 16 bytes or more that some runs deliver and others end in an error on: its over-long line announces nothing, and a framing key stands in its middle |
| `KhcMistake.StatusFramingIsMistaken` | ebisu/khc/src/khc_state_impl.c:594-610 | A response that no run delivers is one that not every cut delivers |
| `KhcDelivery.ResponseDefined` | ebisu/khc/src/khc_state_impl.c:594-610 | On such a response the next handler stays inside its buffers if and only if it is not one that skips a line of which nothing is buffered |
| `KhcDelivery.EmptiesExactly` | ebisu/khc/src/khc_state_impl.c:594-647 | A step leads there exactly when AGAIN is the answer while a line that may be skipped is being skipped and the last byte of it that is buffered is no CR |
| `KhcDelivery.BlockingIsSafe` | ebisu/khc/src/khc_state_impl.c:594-647 | Over a socket that never has to be asked again no run with a response that is as promised, and so is complete, leaves the buffers |
| `KhcWalk.ViewStep` | ebisu/khc/src/khc_state_impl.c:473-647 | In any response header, complete or not, a step leads on to the next line, to the bytes of an over-long line that are not dropped, behind its end, to the next status line or to the body, wherever the bytes are cut; or the run has failed |
| `KhcBounds.HeaderDecided` | ebisu/khc/src/khc_state_impl.c:594-647 | For every response, complete or not, and whatever its body: some run empties the buffer of an over-long line if and only if, behind lines that can be passed, there is a line too long for the buffer that is no framing header and in it, where the socket may have to be asked again, a byte from the last one that fills the buffer on that is no CR; where it has not, when the response ends in that line and its last byte is no CR |
| `KhcBounds.SafetyDecided` | ebisu/khc/src/khc_state_impl.c:473-647 | All runs stay inside the buffers if and only if there is no such line, for every response that is as promised and every one that stops in its header |
| `KhcBounds.BlockingEscapes` | ebisu/khc/src/khc_state_impl.c:594-647 | A response that stops in such a line takes a run outside the buffer over a socket that never has to be asked again, for every header buffer of 15 bytes or more |
| `KhcBounds.SmallBufferEscapes` | ebisu/khc/src/khc_state_impl.c:503-520 | With a header buffer of the caller's of three to nine bytes a blank status line is enough |
| `KhcBounds.RiskyExample` | ebisu/khc/src/khc_state_impl.c:594-647 | A response as promised with such a line, for every size of the header buffer: dangerous where the socket may have to be asked again, harmless where it has not |
| `KhcSizeLine.StopsIff` | ebisu/khc/src/khc_impl.c:109-111 | `strtol` stops inside the bytes it is given, exactly if they are not white space, a sign and 0x or none, and nothing but hexadecimal digits to the end |
| `KhcSizeLine.SizeLineIff` | ebisu/khc/src/khc_state_impl.c:745-757 | With a line end among the buffered bytes the handler of a size line stays inside the stream buffer if and only if no terminator comes before it and the bytes are not of that kind |
| `KhcSizeLine.TerminatorHides` | ebisu/khc/src/khc_state_impl.c:745-757 | With a terminator and a line end where the first size line should be, a run comes to the point where `strstr` finds nothing, for all sizes of the buffers |
| `KhcSizeLine.StrToLRunsOn` | ebisu/khc/src/khc_state_impl.c:745-757 | With an empty line and blanks that fill the stream buffer where the first size line should be, a run comes to the point where `strtol` leaves the buffer, for all sizes of the buffers |
| `KhcRoom.RoomDecides` | ebisu/khc/src/khc_state_impl.c:858-867 | Buffers of these sizes lose nothing of any response they can take if and only if the stream buffer has room for all that the header buffer can hold behind the blank line (`scap + 3 >= hcap`) |
| `KhcRoom.ChunkLost` | ebisu/khc/src/khc_state_impl.c:858-867 | With a smaller one, a run that ends with KHC_ERR_OK has lost a chunk: the skipped CR LF is read from the socket instead of the leftover |
| `KhcWork.StepWorks` | ebisu/khc/src/khc_state_impl.c:114-944 | Every handler call does some of the remaining work: retries, unsent bytes, unread bytes, buffered bytes, phases |
| `KhcWork.PerformEnds` | ebisu/khc/src/khc.c:18-28 | If the response has a complete header, no run makes more handler calls than the work at its start, which retries, supply, request and response bound |
| `KhcEnds.EndsDecided` | ebisu/khc/src/khc.c:18-28 | For every response, complete or not, and whatever its body: the number of handler calls is bounded if and only if the header does not stop, behind lines that can be passed, in a line that still fits the buffer, or behind a CR in one that does not |
| `KhcEnds.NeverEnds` | ebisu/khc/src/khc_state_impl.c:522-647 | On such a response there are runs of any length |
| `KhcWork.NeverStuck` | ebisu/khc/src/khc_state_impl.c:114-944 | Before its end every run can go on, except in the four states that are left open |
| `KhcSuccess.SuccessMeans` | ebisu/khc/src/khc.c:18-28 | KHC_ERR_OK only if the whole request was accepted, a header that is not informational ended, every callback took its bytes and, of a chunked body, the chunk of size 0 was read |
| `KhcSuccess.RunLeads` | ebisu/khc/src/khc_state_impl.c:503-944 | A run past the header or past the last chunk has seen the blank line or the size 0; a refusal by a callback fails it for good |
| `KhcSuccess.SocketDiscipline` | ebisu/khc/src/khc_state_impl.c:114-165 | In every state of every run: one connection at most, sending and receiving only while it is open, closing last however often it is repeated; each buffer is allocated once at most, never freed more often than that, and once if the run has connected |
| `KhcList.Append` | ebisu/khc/src/khc_slist.c:31-53 | The new node comes last, all others stay in order; without memory nothing changes |
| `KhcList.FreeAll` | ebisu/khc/src/khc_slist.c:59-70 | Every node is freed once, in order, and not read after that |
| `KiiBuffer.Kii.SetHeader` | ebisu/kii/kii_req_impl.c:151-165 | The line is formatted in the body buffer, copied to the list, and refused when it does not fit |
| `KiiBuffer.Kii.ApiCallStart` | ebisu/kii/kii_api_call.c:6-45 | The body is empty and the header lines are set in order, or none is left and the code is that of the first failure |
| `KiiBuffer.Kii.AppendBody` | ebisu/kii/kii_api_call.c:47-62 | The chunk stands behind the body, terminated; too large exactly when it and the terminator do not fit, and then the body is as before and the headers are freed |
| `KiiBuffer.Kii.CbReadBuff` | ebisu/kii/kii.c:28-40 | The next bytes of the body, as many as fit, and the rest of the caller's buffer untouched |
| `KiiBuffer.Kii.CbWriteBuff` | ebisu/kii/kii.c:10-26 | The response grows by the piece, the first one clears the buffer; 0 when it does not fit |
| `KiiBuffer.Kii.ResetBuff` | ebisu/kii/kii.c:280-285 | Nothing is left of a request or a response |
| `KiiBuffer.OpeningFits` | ebisu/kii/kii_req_impl.c:151-158 | The Content-Type line needed a larger buffer than an opening of up to 29 characters does |
| `KiiRequest.ChunksInvert` | ebisu/khc/src/khc_state_impl.c:369-471 | The chunks as they are written decode, by the client's own decoder, to the pieces put together |
| `KiiRequest.PiecesDecode` | ebisu/khc/src/khc_state_impl.c:378-471 | The same for the chunks of any pieces in front of any decodable rest |
| `KiiRequest.BodyRoundTrip` | ebisu/kii/kii.c:28-40 | In any run in which the read callback hands out a body, what goes over the wire is chunks that decode to it, unless the caller has set a stream buffer of no bytes |
| `KiiRequest.WriteAfterEnd` | ebisu/kii/kii.c:10-26 | The write callback, which clears the shared buffer, is called only after the read callback has said that the body is over |
| `KiiApi.Respond` | ebisu/kii/kii.c:10-46 | The callbacks of kii, called with what the current state of the client hands them, answer as the functions of what they have done so far say |
| `KiiApi.Perform` | ebisu/khc/src/khc.c:18-28 | The loop of the client with the callbacks of kii: the run, its result, the response in the shared buffer, and what that buffer holds before each handler call |
| `KiiApi.ApiCallStart` | ebisu/kii/kii_api_call.c:6-45 | Client and buffer are reset, host, method and path set, and the header lines added, or freed at the first failure |
| `KiiApi.ApiCallRun` | ebisu/kii/kii_api_call.c:86-92 | On success the wire holds the head of the request and chunks that decode to the body as it was in the shared buffer (unless the stream buffer has no bytes), which then holds the body of the response; until the read callback has returned 0 the shared buffer is untouched; the header list is empty afterwards |
| `TioScript.EveryActionCalled` | ebisu/tio/command_parser.c:372-431 | Of a well-formed command every action is in the script once: those of the i-th alias behind those of all aliases before it, in their own order, each with its alias, name and value |
| `TioParse.Tokenise` | ebisu/jkii/src/jkii.c:60-97 | With a fixed array or one of the counted size: the tokens of the document, or a failure exactly when there is no room |
| `TioParse.GetObjectInArray` | ebisu/tio/command_parser.c:8-47 | The text of the object at that index; the end of the array where there is nothing or something else; a failure on a primitive without a type |
| `TioParse.ParseFirstKv` | ebisu/tio/command_parser.c:49-82 | Key, value text and kind of the first member; a failure exactly above 64 tokens |
| `TioParse.FilledIff` | ebisu/tio/command_parser.c:49-82 | The tokens that are looked at, the second and the third, are filled if and only if the object has a member |
| `TioParse.EmptyActionUnfilled` | ebisu/tio/command_parser.c:49-82 | The command {"commandID":"c","actions":[{}]} is one on which the code goes on with tokens that were never filled |
| `TioParse.TakeField` | ebisu/jkii/src/jkii.c:812-857 | The text of the root's first member of that name, exactly when it has the kind asked for |
| `TioCommand.ParseAlias` | ebisu/tio/command_parser.c:84-118 | Name and value of the alias at that index, or how the array ends there |
| `TioCommand.ParseAction` | ebisu/tio/command_parser.c:165-231 | The action at that index with alias, name, kind and value, or how the array ends there |
| `TioCommand.ParseHeader` | ebisu/tio/command_parser.c:345-361 | Identifier and array of actions, exactly when both are there, of their kinds, and the identifier fits 64 bytes |
| `TioCommand.AppendActionResult` | ebisu/tio/command_parser.c:267-328 | The entry is appended exactly when message, entry and body fit; otherwise the body is as before, and the header lines are freed exactly when it was the body |
| `TioCommand.HandleAlias` | ebisu/tio/command_parser.c:388-420 | The inner loop calls the actions of one alias and appends their results, as far as there is room; the header lines are kept unless an append has failed |
| `TioCommand.HandleAliases` | ebisu/tio/command_parser.c:372-431 | The outer loop does so for all aliases and closes the body |
| `TioCommand.CommandSucceeds` | ebisu/tio/command_parser.c:372-437 | A command is answered if and only if it is well formed and all results fit; then every action has been called and the body is the text of all results |
| `TioCommand.CommandAnswered` | ebisu/tio/command_parser.c:340-437 | Every action called once in document order; the body sent tokenises, if and only if the messages are clean, as one object with one entry per action in that order, with name, outcome and message |
| `TioResult.BodyPrints` | ebisu/tio/command_parser.c:245-328 | The text put together piece by piece is the printed document |
| `TioResult.BodyTokenises` | ebisu/tio/command_parser.c:267-328 | It is accepted if and only if no message holds an escaped control character, with the document's tokens; otherwise rejected as invalid |
| `TioResult.ResultsFound` | ebisu/tio/command_parser.c:267-328 | In that document, `actionResults` is an array as long as the calls, and its k-th entry has the k-th name and outcome |
| `TioResult.MessageFound` | ebisu/tio/command_parser.c:267-328 | The k-th entry has a message exactly if the k-th action has failed with one; a reader that takes the escapes for what they stand for gets that message out of it, if it holds no control character that is escaped |
| `TioRequest.PathParts` | ebisu/tio/command_parser.c:233-245 | Split at its slashes the path names the application, the thing and the command, each at its place |
| `TioRequest.ResultRead` | ebisu/tio/command_parser.c:233-265 | Read off the wire: PUT, the scheme, the host, and a path that splits so |
| `TioRequest.FieldsRead` | ebisu/kii/kii_api_call.c:6-45 | And, with no lines left over from before, fields with the application's name and key, the type, the token if there is one, and the chunked framing |
| `TioDelivery.SentReads` | ebisu/tio/command_parser.c:233-265 | What any run with these settings has conveyed reads so |
| `TioDelivery.StartResultRequest` | ebisu/tio/command_parser.c:233-265 | The code of the first thing that fails, the failing append of the opening not among them, and the header lines then left; on success the target, which `TioRequest.PathParts` reads |
| `TioDelivery.PrepareResults` | ebisu/tio/command_parser.c:340-431 | Code, actions called, body and header lines left, for each way the preparation can go |
| `TioDelivery.HandleCommand` | ebisu/tio/command_parser.c:340-437 | The same to the end of the run with the callbacks of kii: on TIO_ERR_OK every action of the script has been called, chunks that decode to the text of all results have gone over the wire, to the place named by the value of the command's own `commandID` as a receiver reads it, and the response is in the shared buffer |
| `TioDelivery.ResultsOnTheWire` | ebisu/tio/command_parser.c:340-437 | Of a well-formed command that has been answered: the target on the wire names the value of its `commandID`, and the text that the peer decodes from the chunks tokenises, if and only if the messages are clean, as one object with one entry per action of its `actions` in document order, with the outcome and the message of each |
| `TioDelivery.LinesRepeated` | ebisu/tio/command_parser.c:383-431 | After a failure that was not one of appending to the body the header lines of the request are still in the list, and the next request sends them twice |
| `MqttCodec.Encode` | ebisu/kii/kii_mqtt_task.c:12-27 | The bytes of `Encoded`, five at most, stand in the buffer, all others as before |
| `MqttCodec.Decode` | ebisu/kii/kii_mqtt_task.c:29-46 | How many bytes the length takes and its value, or -1 with the sum of four |
| `MqttCodec.RoundTrip` | ebisu/kii/kii_mqtt_task.c:12-46 | Up to 268435455 a length takes one to four bytes and decodes to itself, whatever follows |
| `MqttCodec.LengthBytesAre` | ebisu/kii/kii_mqtt_task.c:12-27 | Byte for byte: seven bits each, the lowest first, one to four by the size of the length (table 2.4 of MQTT 3.1.1) |
| `MqttCodec.LengthRead` | ebisu/kii/kii_mqtt_task.c:29-46 | And four bytes stand for the sum of their low seven bits with weights 1, 128, 16384 and 2097152, up to the first below 128 |
| `MqttCodec.ShortestForm` | ebisu/kii/kii_mqtt_task.c:12-27 | No other bytes for the same length are fewer |
| `MqttCodec.RecvFixedHeader` | ebisu/kii/kii_mqtt_task.c:178-215 | Byte by byte: type byte and length, or a failure; AGAIN is one, the end of the stream reads as 0 |
| `MqttCodec.HeaderRead` | ebisu/kii/kii_mqtt_task.c:178-215 | From a stream that begins with a type byte and an encoded length just these bytes are read |
| `MqttPacket.AssembleConnect` | ebisu/kii/kii_mqtt_task.c:48-98 | All writes, the last terminator at its place included, stay inside under the caller's check, and the overlapping forward copy leaves exactly type byte, length and payload |
| `MqttPacket.AssembleSubscribe` | ebisu/kii/kii_mqtt_task.c:115-141 | The same for SUBSCRIBE, which needs less |
| `MqttPacket.Finish` | ebisu/kii/kii_mqtt_task.c:88-98 | The payload moved down in place is whole |
| `MqttPacket.CheckIsTight` | ebisu/kii/kii_mqtt_task.c:352-357 | The check is passed if and only if the place where the last terminator is written is inside the buffer |
| `MqttPacket.ConnectRead` | ebisu/kii/kii_mqtt_task.c:48-98 | Keep-alive time, client identifier, user name and password can be read back |
| `MqttPacket.SubscribeRead` | ebisu/kii/kii_mqtt_task.c:115-141 | Identifier 1, topic and quality of service can be read back |
| `MqttPacket.SendAll` | ebisu/kii/kii_mqtt_task.c:100-112 | What has gone out is a beginning of the packet, and all of it exactly on success |
| `MqttTask.RunIsSafe` | ebisu/kii/kii_mqtt_task.c:280-585 | In every run: no connect while connected; push only after a CONNACK with return code 0 and a SUBACK for identifier 1 without failure, by their bytes, on the current connection; an error exactly in ERR_EXIT; SUBSCRIBE covered by the earlier check |
| `MqttSession.PushNeedsAcks` | ebisu/kii/kii_mqtt_task.c:318-527 | Before each push, in any run, five turns in a row have made a connection, had all of CONNECT accepted, received a CONNACK with return code 0, had all of SUBSCRIBE accepted and received a SUBACK for identifier 1 that reports no failure, and since then the connection has been in use without a break |
| `MqttSession.PushNeedsPublish` | ebisu/kii/kii_mqtt_task.c:456-527 | And the turn just before has received the header of a PUBLISH whose message fits the buffer |
| `MqttSession.PacketsRead` | ebisu/kii/kii_mqtt_task.c:48-141 | What the peer reads in the packets that have been sent: client identifier, keep-alive time, credentials, and the client's own topic |
| `MqttTask.AcksDecide` | ebisu/kii/kii_mqtt_task.c:366-446 | RECV_CONNACK goes on exactly on a header with high nibble 2 and a body with second byte 0, RECV_SUBACK exactly on high nibble 9 and a body 0, 1 and a byte other than 0x80; every other answer leads to RECONNECT |
| `MqttTask.ReadyDecides` | ebisu/kii/kii_mqtt_task.c:456-491 | RECV_READY goes to SEND_PINGREQ exactly when the estimate is above the threshold, to RECV_MSG exactly on high nibble 3, with the length of the header, to RECONNECT exactly on another packet that cannot be read to its end, 13 excepted, and else stays |
| `MqttTask.ErrorsDecide` | ebisu/kii/kii_mqtt_task.c:280-365 | ERR_EXIT is reached exactly on an answer of the server, while push is being set up, that is neither 5xx nor 429, and on a buffer without a place for CONNECT |
| `MqttTask.StepKeepsInv` | ebisu/kii/kii_mqtt_task.c:280-549 | Every handler keeps that, whatever it is answered |
| `MqttTask.LeftOpen` | ebisu/kii/kii_mqtt_task.c:565-585 | When a run has ended the connection is closed if and only if the last turn of the loop was in a state up to connecting; so stopping behind that, or a buffer too small for CONNECT, leaves it open |
| `MqttTask.KeepAliveBound` | ebisu/kii/kii_mqtt_task.c:456-542 | The estimate is at most 1000 K + 1500 in every state, and 0 while connecting |
| `MqttTask.PingSpacing` | ebisu/kii/kii_mqtt_task.c:456-542 | While only PUBLISH and PINGRESP come, at most 2 (K - T) receives separate two PINGREQs |
| `MqttTask.PingInTime` | ebisu/kii/kii_mqtt_task.c:456-542 | While only PUBLISH and PINGRESP come, as long as no turn lasts longer than it is taken to, in every state there has been a PINGREQ within the last 1000 K + 1500 milliseconds |
| `MqttTask.OthersDoNotCount` | ebisu/kii/kii_mqtt_task.c:477-486 | Packets of other types do not count: any number of them leaves the machine where it was |
| `MqttClient.Mqtt.constructor` | ebisu/kii/kii_mqtt_task.c:270-278 | The initial state |
| `MqttClient.Mqtt.HandleSendConnect` | ebisu/kii/kii_mqtt_task.c:342-365 | The check, the packet, and the state after success and failure |
| `MqttClient.Mqtt.HandleSendSubscribe` | ebisu/kii/kii_mqtt_task.c:405-417 | No check of its own is needed |
| `MqttClient.Mqtt.HandleReady` | ebisu/kii/kii_mqtt_task.c:456-491 | PINGREQ when the estimate is above the threshold, otherwise one receive and its share of the estimate |
| `MqttClient.Mqtt.HandleMessage` | ebisu/kii/kii_mqtt_task.c:493-527 | A message that fits is pushed, one that does not is thrown away |
| `MqttClient.Mqtt.HandlePingreq` | ebisu/kii/kii_mqtt_task.c:529-542 | The estimate starts anew |
| `MqttClient.Mqtt.HandleState` | ebisu/kii/kii_mqtt_task.c:551-563 | Every handler, those that only look at an answer among them (CONNACK, SUBACK, installation, endpoint, connecting), takes exactly the step of the machine, and what it does is seen as the bytes received say (`MqttTask.AcksDecide`) |
| `MqttClient.Mqtt.Run` | ebisu/kii/kii_mqtt_task.c:565-585 | The loop takes the steps of the run and ends only in ERR_EXIT (exactly with an error) or discontinued; the exit callback, if there is one, is the last event and occurs once |

## Left out

- KhcSend.WireIsRequest: for stream buffers below 2^48 bytes only; above, the size line would be cut to 14 characters.
- KhcWire.RequestOnWire: for methods, hosts and paths without blanks, line ends and terminators, hosts without a slash, paths that begin with one and header lines without line ends; others cannot be told apart on the wire, as the code does not check them. For stream buffers below 2^48 bytes.
- KhcAnnounce.AnnouncesIff: for lines without a terminator, behind which `_contains_chunked` could look past the line.
- KhcReceive.ChunkedReceived: for chunk size lines of a numeral and an extension or none; `KhcDelivery.ResponseDelivered` is about all that the code takes.
- TioRequest.ResultRead: for hosts and identifiers without blanks, slashes, line ends and terminators, and a host that fits its buffer.
- TioDelivery.ResultsOnTheWire: the target likewise; the entries without that.
- JkiiEscape.DecodedIff: the reader takes `\u` with four digits for one character, and none for a half of a surrogate pair; escaped texts have no such escape.
- KhcDelivery.ResponseDelivered: about responses with a complete header whose status lines fit the header buffer, and chunked bodies whose size lines fit the stream buffer with a line feed in front; what comes of others is not stated.
- KhcRun.StepValid: the four states in which the code would access bytes outside its buffers (`KhcMachine.Defined`) are left without a successor, and a header buffer of the caller's of no bytes is left out.
- KhcWork.PerformEnds: for responses with a complete header; `KhcEnds.EndsDecided` is about the others.
- KhcLive.DeliveryDecided: for stream buffers below 2^48 bytes.
- KhcBounds.SafetyDecided: of responses with a complete header those that are as `KhcDelivery.ResponseDelivered` has them, as the body decides about the rest (`KhcSizeLine`).
- KhcBounds.HeaderDecided: for responses in whose headers no status line has fewer than eight bytes, where the digits would be looked for behind it among bytes of other lines or of earlier ones, and which do not stop in a header line with a terminator in it (`KhcWalk.StatusClear`).
- KhcEnds.EndsDecided: likewise, and for stream buffers below 2^48 bytes.
- KhcMistake.MistakeDecided: likewise for any stream buffer.
- KhcMistake.EveryCutDelivers: for stream buffers below 2^48 bytes.
- KhcRoom.RoomDecides: for header buffers of 15 bytes or more and stream buffers of 4 or more, below which no chunked response can be taken at all.
- JkiiLookup.GetValueByPath: on the tokens of printed documents; on those of accepted texts that are no JSON documents only the counting is shown to stay inside the array.
- JkiiPath.PathFindsSubtree: for names and keys without backslashes and for names that are not empty; the lookup is ambiguous for others.
- JkiiPath.GetValueByName: for documents on which the lookup does not go on behind the elements of a root array (`JkiiPath.RunsOutIff`), to tokens that were never filled.
- Jsmn.Parser.Parse: for texts in which no comma comes while no token is the superior, where the code would read in front of its array; `JsonComma.CrashIff` says which texts these are.
- TioDelivery.HandleCommand: for documents in which no empty object and no string as an alias's value is met; of the one the code reads tokens that were never filled (`ebisu/tio/command_parser.c:60-75`, `TioParse.FilledIff`, `TioParse.EmptyActionUnfilled`), of the other it parses the inside as if it were an array.
- TioDelivery.PrepareResults: likewise.
- TioCommand.HandleAliases: likewise.
- TioCommand.HandleAlias: likewise.
- TioCommand.ParseAlias: likewise for an empty object.
- TioCommand.ParseAction: likewise for an empty object; a string as the alias's value is not taken.
- TioParse.ParseFirstKv: likewise for an empty object, where what is read has no defined value (`TioParse.FilledIff`).
- KiiApi.ApiCallRun: for runs that come to their end with the given answers of the socket and the allocator; the header callback takes every line, and the ETag that it looks for is not modelled.
- JkiiPrimitive.FindType: the lengths are those of gcc on a 64-bit machine; another way of writing LONG_MAX in limits.h moves one of them by one.
- TioParse.GetObjectInArray: for texts below 2^31 bytes, as token offsets are of type `int`; the index text then always fits its buffer of 32 bytes.
- MqttTask.KeepAliveBound: for a receive timeout below the keep-alive interval and an interval of at most 2,000,000 seconds, so that nothing wraps.
- MqttTask.ReadyDecides: receiving the rest of a packet that is thrown away either fails or takes it whole.
- MqttTask.RunIsSafe: receiving the rest of a packet either fails or takes it whole; how it is received in pieces is not modelled, nor is the payload that the push callback is given.
- The value of a primitive action (`_parse_primitive`) and the numeric fields of `jkii_parse`: the text is kept, its conversion, floating point included, is not modelled.
- `strict` mode and parent links of jsmn, and platforms whose `long` is not 64 bits wide.
- Content-Length is taken out of the header by the code but steers nothing; it is not modelled.
- Real sockets, TLS, tasks and delays: answers of callbacks are parameters.
- The requests of `kii_object`, `kii_push`, `kii_thing`, `kii_ti` and `kii_server_code`: straight-line use of what is modelled here; installing push and getting the endpoint are answers.
- Setters other than those of host, path, method and headers, ETag parsing and the wiring of `tio.c`.

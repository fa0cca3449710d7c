# CEventLoop: the HTTP parser, the event loop, the poller and the request reader

A model, in Dafny, of four parts of CEventLoop, and proofs about it.

**The HTTP/1.x parser llhttp** (`CEventLoop/ThirdParty/llhttp`), in the loose build that is its
default. It is a resumable state machine that is handed a stream in slices.

- `Bytes`, `Graph`: octets, character tables, words; the state graph, one node per labelled block,
  with the shape of each block and its edges. Nodes are numbered so that an edge that reads nothing
  leads to a lower number, which is the measure by which the generated code terminates.
- `Machine`, `Soundness`: the reference, one byte at a time, and what every step of it keeps.
- `Parser`: the parser itself, a class with the fields of the original, changed in place by a loop
  over the blocks, with resumable matchers, bulk consumption, fast scans (`Scan`), spans, callbacks
  and pauses. `Strides` and `Effects` show that its large steps are many small ones.
- `Session`: a connection that delivers chunks and resumes after pauses.
- `Grammar`, `Messages`: which traces of callbacks there are, as an automaton and as messages.
- `Walk`, `Numbers`, `Chunked`, `FixedLength`, `Framing`: numbers and bodies; `Reached`: what every run
  knows when it chooses a body.
- `Starts`, `StatusLine`: how a message begins, and which type a parser of both types takes it for.
- `HeaderNames`, `HeaderValues`, `OddValues`, `ContentLength`, `TransferEncoding`, `Connection`, `Words`:
  header lines of each kind; `HeaderBlock`: any number of them, with those that are refused.
- `Answers`: what the user's answers to the callbacks come to.
- `Requests`, `Server`: runs and connections that go through request lines, for every reader of such
  lines that does not change its mind when more bytes arrive (`Requests.TakeLineIsSteady` shows one).
- `Pipeline`, `Likeness`, `Sequence`: what a message leaves to the next one, and messages one after another.
- `EndOfStream`: what `llhttp_finish` makes of parsers that stand between messages.
- `MessageEnd`, `Response`, `Request`: the whole way of messages, from the bytes on the wire to the callbacks.

**The functor queue of `EventLoop`** (`EventLoop`): the atomic steps of the loop thread and of any
number of other threads, under every interleaving.

**The poller** (`Poller`): a dense array with swap-with-last removal, the map beside it, and the
index kept in each channel.

**The request reader of the server** (`Buffer`, `HttpContext`): a two-index byte buffer and the
loop that takes lines from it.

The user of the parser is a function from the callbacks made so far to an answer, so it may depend
on anything it has seen. A policy says the same of the glued callbacks; the results that need no
refusals say so (`Walk.Accepts`).

## What the code does that one might not expect

- A body that `on_headers_complete` skips, or a Content-Length trailer, leaves its length in
  `content_length`, and the digits of the next Content-Length are put behind it
  (`Pipeline.SkippedBodyLeaves`, `Pipeline.TrailerLeaves`, `Pipeline.LeftoverMisread`).
- A 1xx, 204 or 304 response that names a coding or a length is given a body, against section
  3.3.3 of RFC 7230 (`Framing.DecidesAsStandard`). The comment at
  `CEventLoop/ThirdParty/llhttp/src/http.c:113` says no content, but that function is only asked
  when neither a coding nor a length was named.
- After a pause in `on_message_complete` and a resume, `llhttp_finish` reports an unfinished
  message until the parser has been executed once more (`EndOfStream.FinishAfterPause`), and so it does
  after an upgrade and `llhttp_resume_after_upgrade` (`EndOfStream.FinishAfterUpgrade`). Right after an
  execution without an error it is exact (`EndOfStream.FinishAfterExecute`).
- A length that is left over also loses an upgrade: the request ends without a stop, and the other
  protocol is read as a message (`Framing.UpgradeLost`). A CONNECT that announces a body is never
  given it, and leaves its length (`Framing.UpgradeExit`).
- A functor that the loop thread queues before `loop()` is not announced, and poll sleeps on it
  until its timeout (`EventLoop.EarlyFunctorSleeps`).
- `parseRequest` never returns when the header block is not complete, or when it is called again
  after the request was read (`HttpContext.EndsExactly`).
- A parser of both types keeps the type of its first message for all that follow
  (`Sequence.PipelinedGuessed`).
- Behind a carriage return any byte counts as the line feed in a status line, in a line without a
  value, in the empty line and in the lines of chunks (`StatusLine.LineRead`, `HeaderValues.BlankLine`,
  `HeaderBlock.BlockRead`, `Chunked.SizeLineExactly`); behind a value it does not (`HeaderValues.LfExpected`).
- A Content-Length that is folded is refused as a second one (`HeaderBlock.FoldedLength`).
- `findCRLF2` looks for the same two bytes as `findCRLF`, and the size handed to the constructor of
  `Buffer` is not used.

## Model

| member | source | states |
|---|---|---|
| Parser.Parser.constructor | CEventLoop/ThirdParty/llhttp/src/api.c:18-24 | a parser is set up at the start of a message with nothing reported |
| Parser.Parser.Execute | CEventLoop/ThirdParty/llhttp/src/llhttp.c:14689-14721 | without an error the parser stands where the byte-at-a-time machine stands after the same bytes, with the same glued callbacks; with one, it stands at the reported position, and either the machine stopped there with that error, or the user did and a resume has the run of the machine before it; no refusal of the user is passed over; callbacks that fit the grammar go on to; a lingering error changes nothing |
| Parser.Parser.InternalRun | CEventLoop/ThirdParty/llhttp/src/llhttp.c:8484-14687 | the loop over the blocks returns on every input, and comes to the state of the machine; its measure is the bytes left and the number of the node |
| Parser.Parser.Block | CEventLoop/ThirdParty/llhttp/src/llhttp.c:8484-14687 | one block, whatever its kind, leads to a sound state further on with the same run |
| Parser.Parser.MatchBlock | CEventLoop/ThirdParty/llhttp/src/llhttp.c:7734-7828 | the resumable matcher, over as much of a word as is at hand, is the byte-at-a-time comparison: the word goes on from the saved place, is whole, or breaks off at the mismatch |
| Parser.Parser.ConsumeBlock | CEventLoop/ThirdParty/llhttp/src/llhttp.c:8553-8570 | consuming all that is there, or all that is needed, is consuming byte by byte |
| Parser.Parser.WindowBlock | CEventLoop/ThirdParty/llhttp/src/llhttp.c:9440-9476 | a 16-byte window of the fast paths of header_value and header_field_general leads where the table loop leads |
| Parser.Parser.CloseBlock | CEventLoop/ThirdParty/llhttp/src/llhttp.c:13094-13110 | a span end reports the bytes since the span start, once, and hands on the error of the callback |
| Parser.Parser.CallBlock | CEventLoop/ThirdParty/llhttp/src/llhttp.c:13283-13298 | a callback without data leads where its answer says; a pause stores the place to go on from |
| Parser.Parser.Finish | CEventLoop/ThirdParty/llhttp/src/api.c:37-59 | for a parser whose callbacks fit the grammar: inside a message the end of the stream completes it, in a body that lasts until then, and is an invalid state otherwise; when all messages are whole, it is an invalid state exactly while the last of them has not been left behind; an error state is left alone, and no value of `finish` but 0, 1 and 2 is met |
| EndOfStream.FinishAfterExecute | CEventLoop/ThirdParty/llhttp/src/api.c:37-59 | right after an execution without an error the end of the stream is told exactly: nothing between messages, the end of a body that lasts until here, and an invalid state inside any other message |
| EndOfStream.FinishAfterPause | CEventLoop/ThirdParty/llhttp/src/api.c:37-59 | after every pause at the end of a message and a resume, all messages are whole, and the end of the stream is an invalid state all the same |
| EndOfStream.ResponsePaused | CEventLoop/ThirdParty/llhttp/src/llhttp.c:12968-12984 | and this happens: with every response, to a user who pauses at the end of messages |
| EndOfStream.FinishAfterUpgrade | CEventLoop/ThirdParty/llhttp/src/api.c:81-87 | so it is after every upgrade and `llhttp_resume_after_upgrade` |
| EndOfStream.ConnectUpgraded | CEventLoop/ThirdParty/llhttp/src/llhttp.c:8499-8529 | and this happens: with every CONNECT without headers |
| EndOfStream.FinishTwice | CEventLoop/ThirdParty/llhttp/src/api.c:45-51 | at the end of a body that lasts until the end of the stream, a second call reports the end of the message once more, which is outside the grammar |
| EndOfStream.ExecuteAfterFinish | CEventLoop/ThirdParty/llhttp/src/llhttp.c:8930-8952 | and bytes that are given after the first call are reported as a body without a message |
| Parser.Parser.Pause | CEventLoop/ThirdParty/llhttp/src/api.c:62-69 | sets the pause code unless there is an error |
| Parser.Parser.Resume | CEventLoop/ThirdParty/llhttp/src/api.c:72-78 | clears the pause code and no other error |
| Parser.Parser.ResumeAfterUpgrade | CEventLoop/ThirdParty/llhttp/src/api.c:81-87 | clears the upgrade code and no other error |
| Parser.Parser.SetLenientHeaders | CEventLoop/ThirdParty/llhttp/src/api.c:130-136 | only that flag changes |
| Parser.Parser.SetLenientChunkedLength | CEventLoop/ThirdParty/llhttp/src/api.c:138-144 | only that flag changes |
| Parser.Parser.RequestLine | CEventLoop/ThirdParty/llhttp/src/llhttp.c:9926-12470 | what the unmodelled states between the start of a request and its headers come to, taken as inputs |
| Parser.Parser.RequestFault | CEventLoop/ThirdParty/llhttp/src/llhttp.c:9926-12470 | the same for a request line that is an error |
| Machine.Run | CEventLoop/ThirdParty/llhttp/src/llhttp.c:8484-14687 | the machine halts: it stops in an error, or waits for a byte that is not there, or for a request line |
| Machine.TickDescends | CEventLoop/ThirdParty/llhttp/src/llhttp.c:8484-14687 | every block that reads nothing leads to a lower node, so there is a measure |
| Machine.RunSplit | CEventLoop/ThirdParty/llhttp/src/llhttp.c:14689-14721 | split invariance: reading a and then b is reading a + b, from any state and for any answers |
| Machine.RunLeavesSuffix | CEventLoop/ThirdParty/llhttp/src/llhttp.c:14689-14721 | what is unread is the end of what was given |
| Soundness.TickSound | CEventLoop/ThirdParty/llhttp/src/llhttp.c:8484-14687 | every step keeps: the place in a word is inside the word and 0 elsewhere, a span is open exactly at the nodes inside it, `finish` is 0 at the start of a message, 1 in a body until the end of the stream and 2 elsewhere, and content_length fits 64 bits |
| Strides.Spell | CEventLoop/ThirdParty/llhttp/src/llhttp.c:7734-7828 | a word is matched from any place, through any cut |
| Strides.Bulk | CEventLoop/ThirdParty/llhttp/src/llhttp.c:8902-8918 | content_length counts the bytes of a body down one by one, whatever part is at hand |
| Session.Feed | CEventLoop/ThirdParty/llhttp/src/api.c:27-29 | split invariance and pause transparency: however the stream is cut and however often the user pauses and resumes, the state and the glued callbacks are those of one run over the whole stream, and what is unread is what that run leaves |
| Session.CutsAgree | CEventLoop/ThirdParty/llhttp/src/api.c:27-29 | two ways of cutting and pausing one stream end in the same state, or in the same error at the same place, with and without the fast paths |
| Scan.ValueWindow | CEventLoop/ThirdParty/llhttp/src/llhttp.c:9441-9463 | the range scan of a window stops at the first byte outside the table of header values |
| Scan.NameWindow | CEventLoop/ThirdParty/llhttp/src/llhttp.c:9628-9661 | so does the scan of names, with its second set of ranges |
| Scan.ScanPath | CEventLoop/ThirdParty/llhttp/src/llhttp.c:10383-10441 | the scan of paths, fast or not and with any tail, stops where the table loop stops |
| Grammar.TickFits | CEventLoop/ThirdParty/llhttp/src/llhttp.c:8484-14687 | every step keeps the callbacks inside the grammar, at the place that the node stands for; the bytes reported of a chunk and content_length make up its size |
| Grammar.RunFits | CEventLoop/ThirdParty/llhttp/src/llhttp.c:8484-14687 | so does every run, whatever the user answers |
| Messages.WholeMessages | CEventLoop/ThirdParty/llhttp/src/llhttp.c:13004-13336 | a trace is in the grammar and between two messages exactly when it shows a list of messages |
| Messages.Prefixes | CEventLoop/ThirdParty/llhttp/src/llhttp.c:13004-13336 | a trace is in the grammar exactly when it can be completed to one that shows messages |
| Messages.RunShows | CEventLoop/ThirdParty/llhttp/src/llhttp.c:12926-14687 | from a fresh parser, on every stream, the callbacks are the beginning of well-formed messages, and whole messages when a new one may start |
| Messages.RequestLineFits | CEventLoop/ThirdParty/llhttp/src/llhttp.c:9926-12470 | a request line in between keeps this |
| Requests.ServedShows | CEventLoop/ThirdParty/llhttp/src/llhttp.c:8484-14687 | the same for streams with any number of request lines, read or refused: parsers of requests, of responses and of both, for every reader of request lines |
| Requests.ServedFits | CEventLoop/ThirdParty/llhttp/src/llhttp.c:8484-14687 | so does every such run from any state that fits |
| Requests.ServedSplit | CEventLoop/ThirdParty/llhttp/src/llhttp.c:14689-14721 | split invariance through request lines |
| Server.Serve | CEventLoop/ThirdParty/llhttp/src/api.c:27-29 | split invariance and pause transparency of the parser itself on a connection of requests: however the stream is cut and however often the user pauses, the state and the glued callbacks are those of one run through all request lines |
| Server.Advance | CEventLoop/ThirdParty/llhttp/src/api.c:27-29 | the same for one chunk, in which any number of requests may begin |
| Answers.Refusal | CEventLoop/ThirdParty/llhttp/src/llhttp.c:12977-13298 | a callback that is refused stops the parser there, with the error of that callback; on_headers_complete is not refused by 1 and 2 |
| Answers.Told | CEventLoop/ThirdParty/llhttp/src/llhttp.c:12470-12478 | the end of a status line, of a name and of a value are told, whatever the answer |
| Numbers.MulAdd16Exact | CEventLoop/ThirdParty/llhttp/src/llhttp.c:8157-8181 | the overflow checks of the chunk size let a digit pass exactly when the number stays below 2^64 |
| Numbers.MulAdd10Exact | CEventLoop/ThirdParty/llhttp/src/llhttp.c:8332-8356 | so do those of Content-Length, and of the status code |
| Numbers.FittingIsLongest | CEventLoop/ThirdParty/llhttp/src/llhttp.c:8157-8181 | the digits that fit are all, or all before the first prefix that is too large |
| Numbers.HexRun | CEventLoop/ThirdParty/llhttp/src/llhttp.c:8646-8891 | a chunk size is stored as its value when that fits, and otherwise is an error at the first digit too many |
| Numbers.LengthRun | CEventLoop/ThirdParty/llhttp/src/llhttp.c:9312-9373 | the same for a Content-Length, from any number begun before |
| Numbers.StatusRun | CEventLoop/ThirdParty/llhttp/src/llhttp.c:12564-12625 | the same for a status code, up to 999 |
| Chunked.BodyDecodes | CEventLoop/ThirdParty/llhttp/src/llhttp.c:8533-8899 | round trip of section 4.1 of RFC 7230: any chunks with any spelling of their sizes and any extensions, closed by an empty chunk, are decoded to exactly those chunks, each with its header and end, and one end of the message; the rest of the stream is not read |
| Chunked.SizeLine | CEventLoop/ThirdParty/llhttp/src/llhttp.c:8594-8899 | a size line leads to the chunk header callback, which shows the size of the data |
| Chunked.SizeLineExactly | CEventLoop/ThirdParty/llhttp/src/llhttp.c:8594-8899 | a size line is read exactly when it is hexadecimal digits that fit 64 bits, alone or before a space or semicolon; any other is HPE_INVALID_CHUNK_SIZE |
| Chunked.DataLines | CEventLoop/ThirdParty/llhttp/src/llhttp.c:8533-8580 | the data of a chunk is reported whole, in order and once |
| Chunked.TrailersEnd | CEventLoop/ThirdParty/llhttp/src/llhttp.c:13327-13336 | the empty line after the trailers ends the last chunk and the message |
| Chunked.PrintHexValue | CEventLoop/ThirdParty/llhttp/src/llhttp.c:8646-8891 | every size has digits that are read back as that size |
| Chunked.PlainBodyDecodes | CEventLoop/ThirdParty/llhttp/src/llhttp.c:8533-8899 | the round trip for data as it is printed: any pieces, each of at least one byte |
| FixedLength.BodyGoesOn | CEventLoop/ThirdParty/llhttp/src/llhttp.c:8902-8918 | bytes delivered and content_length keep their sum, for any part of the body |
| FixedLength.BodyPrefix | CEventLoop/ThirdParty/llhttp/src/llhttp.c:8902-8929 | after every proper prefix of a body, that prefix has been delivered and the rest is owed |
| FixedLength.BodyEnds | CEventLoop/ThirdParty/llhttp/src/llhttp.c:13177-13193 | with nothing owed the message is complete, and later bytes are left to the next |
| FixedLength.BodyDecodes | CEventLoop/ThirdParty/llhttp/src/llhttp.c:8901-8929 | a body of N bytes is delivered whole, and the message ends right behind it |
| Framing.DecidesAsStandard | CEventLoop/ThirdParty/llhttp/src/http.c:37-92 | the choice of the body is that of section 3.3.3 of RFC 7230 exactly when the message is not a 1xx, 204 or 304 response that names a coding or a length |
| Framing.HeadersAnswered | CEventLoop/ThirdParty/llhttp/src/http.c:18-34 | the end of a header block, for every answer to on_headers_complete: the callback, the upgrade decision, and the choice of the body |
| Framing.LengthsRefused | CEventLoop/ThirdParty/llhttp/src/llhttp.c:13306-13325 | at the end of a header block with both flags, without lenience: HPE_UNEXPECTED_CONTENT_LENGTH, nothing reported, and nothing more read |
| Framing.BodilessEnds | CEventLoop/ThirdParty/llhttp/src/http.c:11-92 | a header that names no body: HPE_PAUSED_UPGRADE with nothing more read exactly when it asks for another protocol, for a response with status 101 only; else the message is complete, or the body of a response lasts until the end of the stream |
| Framing.BodyUntilEnd | CEventLoop/ThirdParty/llhttp/src/llhttp.c:8930-8952 | such a body is reported whole |
| Framing.NeedsEof | CEventLoop/ThirdParty/llhttp/src/http.c:108-132 | the messages that `llhttp_message_needs_eof` tells are those whose body lasts until the end of the stream by section 3.3.3 of RFC 7230 |
| Framing.CodedEnds | CEventLoop/ThirdParty/llhttp/src/http.c:53-66 | a header with a coding that is not chunked: a request is HPE_INVALID_TRANSFER_ENCODING behind headers complete, with nothing more read, and the body of a response lasts until the end of the stream |
| Framing.UpgradeExit | CEventLoop/ThirdParty/llhttp/src/llhttp.c:8499-8529 | the exit for an upgrade: the message ends with its header, HPE_PAUSED_UPGRADE, no later byte is read; resumed, the parser stands at the start of a message with the length of this one still in content_length |
| Framing.UpgradeLost | CEventLoop/ThirdParty/llhttp/src/http.c:43-74 | a request without a body that asks for an upgrade while a length is left over ends without a stop, and the bytes of the other protocol are read as the next message |
| Reached.HeaderEndIsDone | CEventLoop/ThirdParty/llhttp/src/llhttp.c:9375-9539 | wherever a run chooses the body of a message, it knows its type, and F_CHUNKED comes with F_TRANSFER_ENCODING: on any stream, for any request lines and answers |
| Reached.RunsDecideAsStandard | CEventLoop/ThirdParty/llhttp/src/http.c:37-92 | so every such choice without an upgrade is that of section 3.3.3 of RFC 7230 exactly when the message is not in that family |
| Reached.RunsUpgradeAsStandard | CEventLoop/ThirdParty/llhttp/src/http.c:43-74 | and with an upgrade exactly when a CONNECT announces no body, another request has a length only if it announced one and a coding only if it is chunked, and a response takes the exit exactly when it has no body |
| HeaderNames.FieldName | CEventLoop/ThirdParty/llhttp/src/llhttp.c:9605-9925 | a name is accepted exactly when it is made of token characters and spaces; header_state is then the code of a known header exactly when the name equals it whatever the case, followed by spaces, and 0 for any other |
| HeaderValues.BlankLine | CEventLoop/ThirdParty/llhttp/src/llhttp.c:13415-13424 | a line without a value is the error HPE_INVALID_CONTENT_LENGTH for Content-Length; for any other name it is reported as an empty piece, without an end, and sets no flag but the option in header_state |
| ContentLength.LengthValue | CEventLoop/ThirdParty/llhttp/src/llhttp.c:9289-9373 | a Content-Length is accepted exactly when it is one or more digits, then spaces, and fits; its number is then stored; the empty value would pass here, and is caught before |
| ContentLength.LengthLine | CEventLoop/ThirdParty/llhttp/src/llhttp.c:9541-9580 | the same for the whole line, blank or not: an accepted line has at least one digit |
| ContentLength.LengthTwice | CEventLoop/ThirdParty/llhttp/src/llhttp.c:13723-13732 | a second Content-Length line is refused |
| TransferEncoding.Coding | CEventLoop/ThirdParty/llhttp/src/llhttp.c:9375-9539 | the value of Transfer-Encoding, element by element |
| TransferEncoding.CodingLine | CEventLoop/ThirdParty/llhttp/src/llhttp.c:9375-9539 | F_CHUNKED is set exactly when the last element is one or more words chunked, whatever the case, each followed by any spaces; F_TRANSFER_ENCODING unless the line has no value |
| Connection.ConnectionLine | CEventLoop/ThirdParty/llhttp/src/llhttp.c:9098-9267 | the flags of close, keep-alive and upgrade are set exactly when some element is that word, whatever the case, after blanks in front and spaces behind are removed |
| Connection.Element | CEventLoop/ThirdParty/llhttp/src/llhttp.c:9137-9267 | what one element comes to |
| HeaderValues.ValueEnds | CEventLoop/ThirdParty/llhttp/src/llhttp.c:13477-13535 | the end of a line that is not folded: the option still in header_state becomes a flag |
| HeaderBlock.HeadersRead | CEventLoop/ThirdParty/llhttp/src/llhttp.c:8992-9925 | any number of header lines of any kind: the error of the first that is refused, or all of them shown in order, with the flags, the length and the coding that they tell |
| HeaderBlock.HeaderRead | CEventLoop/ThirdParty/llhttp/src/llhttp.c:8992-9925 | one header line: a name that is no token, a second, empty or malformed Content-Length, and a value with a byte that no value may hold are refused, each with its error; any other line is shown |
| HeaderBlock.BlockRead | CEventLoop/ThirdParty/llhttp/src/llhttp.c:13283-13336 | the empty line behind header lines that are not refused: HPE_UNEXPECTED_CONTENT_LENGTH when they tell both a length and a coding, and else headers complete and the choice of the body |
| HeaderBlock.FoldedValue | CEventLoop/ThirdParty/llhttp/src/llhttp.c:9023-9041 | a value of a name without a meaning on any number of lines is reported as one value, without the line ends in between |
| HeaderBlock.FoldedLength | CEventLoop/ThirdParty/llhttp/src/llhttp.c:13723-13732 | a Content-Length that goes on in the next line is refused as a second one |
| HeaderValues.BlankFold | CEventLoop/ThirdParty/llhttp/src/llhttp.c:8992-9012 | a blank line that the next one goes on with begins the value there |
| HeaderValues.LfExpected | CEventLoop/ThirdParty/llhttp/src/llhttp.c:9042-9058 | a carriage return behind a value that no line feed follows is HPE_LF_EXPECTED |
| OddValues.OddValueFails | CEventLoop/ThirdParty/llhttp/src/llhttp.c:13564-13573 | a byte that no value may hold is HPE_INVALID_HEADER_TOKEN in every value of Connection, Transfer-Encoding and names without a meaning, unless the parser is lenient |
| HeaderValues.OddBytesPass | CEventLoop/ThirdParty/llhttp/src/llhttp.c:9059-9078 | a lenient parser takes such bytes up to the end of the line |
| Words.KnownNames | CEventLoop/ThirdParty/llhttp/src/llhttp.c:9605-9925 | the names with a meaning, as text: these words in any case, with any spaces behind |
| Pipeline.StartIsClean | CEventLoop/ThirdParty/llhttp/src/http.c:95-105 | whenever a message may start there are no flags, `finish` is safe, the place in a word is 0 and no span is open |
| Pipeline.TidyRun | CEventLoop/ThirdParty/llhttp/src/llhttp.c:8893-8918 | content_length is 0 whenever a message may start, when the user never skips a body, no upgrade exit is taken and no trailer is a Content-Length |
| Pipeline.SkippedBodyLeaves | CEventLoop/ThirdParty/llhttp/src/llhttp.c:13241-13248 | a skipped body leaves its length to the next message |
| Pipeline.TrailerLeaves | CEventLoop/ThirdParty/llhttp/src/llhttp.c:13679-13696 | a Content-Length trailer leaves its number to the next message |
| Pipeline.LeftoverMisread | CEventLoop/ThirdParty/llhttp/src/llhttp.c:9312-9373 | the next Content-Length is stored as its own number exactly when nothing was left over |
| Sequence.ServedKeeps | CEventLoop/ThirdParty/llhttp/src/http.c:95-105 | the start of a message is clean through any number of request lines |
| Sequence.ServedTidy | CEventLoop/ThirdParty/llhttp/src/llhttp.c:8893-8918 | and so content_length is 0 there, under the same conditions |
| Sequence.ServedFollows | CEventLoop/ThirdParty/llhttp/src/llhttp.c:8484-14687 | two parsers that differ only in what a message cannot see of the one before it, the method of a request included, report the same through any request lines |
| Sequence.Concatenated | CEventLoop/ThirdParty/llhttp/src/llhttp.c:12926-12967 | what follows complete messages is read as if it came first, by a parser of their type; this holds for a parser of both types too |
| Sequence.Pipelined | CEventLoop/ThirdParty/llhttp/src/llhttp.c:12926-12967 | the trace of complete messages of one type one after another is that of each, one after another |
| Sequence.PipelinedGuessed | CEventLoop/ThirdParty/llhttp/src/llhttp.c:12897-12967 | the same for a parser of both types, which keeps the type that the first message gave it |
| Sequence.ResponsesNeedNoReader | CEventLoop/ThirdParty/llhttp/src/llhttp.c:12926-12967 | for responses these runs are those of the machine alone |
| Likeness.RunFollows | CEventLoop/ThirdParty/llhttp/src/llhttp.c:8484-14687 | two parsers that differ only in what a message cannot see of the one before it report the same on every stream |
| Likeness.RequestLineFollows | CEventLoop/ThirdParty/llhttp/src/llhttp.c:9926-12470 | request lines in between keep this |
| StatusLine.LineRead | CEventLoop/ThirdParty/llhttp/src/llhttp.c:12470-12860 | a status line is read to its version, code and reason, with a reason or without, and with either end of line |
| StatusLine.Protocol | CEventLoop/ThirdParty/llhttp/src/llhttp.c:12786-12809 | a response begins with HTTP/ in these letters, and anything else is HPE_INVALID_CONSTANT |
| StatusLine.Version | CEventLoop/ThirdParty/llhttp/src/llhttp.c:12627-12785 | a version is a digit, a dot, a digit and a space, and anything else is HPE_INVALID_VERSION |
| StatusLine.Code | CEventLoop/ThirdParty/llhttp/src/llhttp.c:12540-12625 | the digits of a code are stored as its value exactly when that is at most 999 and a space or the end of the line follows; anything else is HPE_INVALID_STATUS |
| Starts.BlankLines | CEventLoop/ThirdParty/llhttp/src/llhttp.c:12926-12943 | line ends in front of a message are stepped over, and nothing is reported |
| Starts.Begins | CEventLoop/ThirdParty/llhttp/src/llhttp.c:12911-12943 | any other byte begins a message, which is then read as the type of the parser says |
| Starts.GuessesRequest | CEventLoop/ThirdParty/llhttp/src/llhttp.c:12897-12909 | a parser of both types takes a message whose first byte is no H for a request: it waits for the request line, with no byte read |
| Starts.GuessesWord | CEventLoop/ThirdParty/llhttp/src/llhttp.c:12810-12909 | and with an H: HTTP/ leads where a parser of responses is led, HEAD is a request with that method, the beginning of one of the two is waited for, and any other word is HPE_INVALID_CONSTANT |
| Starts.ReadsResponse | CEventLoop/ThirdParty/llhttp/src/llhttp.c:12835-12858 | behind HTTP/ a parser of both types does what a parser of responses does |
| Starts.ReadsRequest | CEventLoop/ThirdParty/llhttp/src/llhttp.c:12897-12909 | behind a first byte that is no H it does what a parser of requests does |
| Response.ResponseRead | CEventLoop/ThirdParty/llhttp/src/llhttp.c:8484-14687 | round trip of a whole response, for a parser of responses and one of both types: any status line, any header lines that are not refused, no body, a body of a length, or chunks with trailers; its bytes make exactly the callbacks that show it, and the parser is ready for the next message with nothing left behind |
| Response.ResponsesRead | CEventLoop/ThirdParty/llhttp/src/llhttp.c:8484-14687 | the same for any number of responses |
| Response.Receive | CEventLoop/ThirdParty/llhttp/src/api.c:27-29 | the same for the parser itself, under any cut of the stream and any pauses |
| Response.SwitchRead | CEventLoop/ThirdParty/llhttp/src/http.c:11-46 | a response that names no body: with both upgrade headers and status 101, and only then, the parser stops with HPE_PAUSED_UPGRADE and reads no later byte; otherwise it is complete when its status has no body, and else all that follows is its body |
| Response.CodedRead | CEventLoop/ThirdParty/llhttp/src/http.c:53-66 | after such a header of a response all that follows is its body, even for a status that has none |
| Response.LengthsRefused | CEventLoop/ThirdParty/llhttp/src/llhttp.c:13306-13325 | a response with both a Content-Length and a Transfer-Encoding, in either order and among any other lines, is HPE_UNEXPECTED_CONTENT_LENGTH at the end of its header, which is not reported, and no byte of a body is read |
| EndOfStream.ResponseToEnd | CEventLoop/ThirdParty/llhttp/src/api.c:37-59 | a response that names no body or a coding that is not chunked, so that its body lasts until the end of the stream: under any cut and any pauses, and once the end has been told, the callbacks show exactly this response |
| Response.NoContentHasBody | CEventLoop/ThirdParty/llhttp/src/http.c:110-122 | a concrete 204 response with Content-Length: 1 is shown with a body of one byte |
| Request.RequestRead | CEventLoop/ThirdParty/llhttp/src/llhttp.c:8484-14687 | round trip of a whole request, behind a line that the reader takes, for a parser of requests and one of both types: any header lines that are not refused, no body, a body of a length, or chunks with trailers; its bytes make exactly the callbacks that show it, and the parser is ready for the next message |
| Request.SwitchRead | CEventLoop/ThirdParty/llhttp/src/http.c:11-46 | a request that names no body: with both upgrade headers, or with the method CONNECT, and only then, the parser stops with HPE_PAUSED_UPGRADE and reads no later byte; otherwise it is complete |
| Request.CodingRefused | CEventLoop/ThirdParty/llhttp/src/http.c:53-66 | a request with a coding that is not chunked is refused so, whatever its other lines are |
| Request.LengthsRefused | CEventLoop/ThirdParty/llhttp/src/llhttp.c:13306-13325 | a request with both a Content-Length and a Transfer-Encoding, in either order and among any other lines, is HPE_UNEXPECTED_CONTENT_LENGTH at the end of its header, which is not reported, and no byte of a body is read |
| Request.RequestsRead | CEventLoop/ThirdParty/llhttp/src/llhttp.c:8484-14687 | the same for any number of requests |
| Request.Receive | CEventLoop/ThirdParty/llhttp/src/api.c:27-29 | the same for the parser itself, under any cut of the stream and any pauses |
| EventLoop.Reachable | CEventLoop/EventLoop.cc:46-158 | every interleaving of the loop thread and any number of other threads keeps the invariant: mutual exclusion, order, wakeups, quit |
| EventLoop.NoLostWakeup | CEventLoop/EventLoop.cc:46-67 | when the loop thread would sleep in poll with functors pending, the thread that pushed is about to write to the eventfd, or the loop thread had queued before loop() |
| EventLoop.WakerWakes | CEventLoop/EventLoop.cc:134-151 | that write is always possible, and poll does not sleep after it |
| EventLoop.EarlyFunctorSleeps | CEventLoop/EventLoop.cc:134-140 | the exception for the loop thread is real |
| EventLoop.PushedNotWritten | CEventLoop/EventLoop.cc:134-151 | and so is the window between a push and its write |
| EventLoop.FirstInFirstOut | CEventLoop/EventLoop.cc:107-120 | functors that ran, the rest of the batch, and the pending ones are together what was pushed, in order |
| EventLoop.NotInThisBatch | CEventLoop/EventLoop.cc:134-140 | a functor pushed while a batch runs is not in that batch: whatever the threads do until the next swap, it has not run |
| EventLoop.QuitDoesNotSleep | CEventLoop/EventLoop.cc:153-158 | once a quit() of another thread has returned, poll does not sleep again |
| EventLoop.LastIteration | CEventLoop/EventLoop.cc:52-64 | once quit_ is set, poll is not entered again, under every interleaving |
| EventLoop.QuitLeaves | CEventLoop/EventLoop.cc:52-64 | left alone once quit_ is set, the loop thread leaves from wherever it is, within the iteration at hand |
| EventLoop.NeverStuck | CEventLoop/EventLoop.cc:46-158 | no deadlock, under every interleaving: until it has left the loop thread can go on, or the thread that holds the mutex can |
| EventLoop.HandlerQueues | CEventLoop/EventLoop.cc:107-140 | a functor that a handler queues is not announced, and runs in the same iteration behind all that is pending |
| EventLoop.FunctorQueues | CEventLoop/EventLoop.cc:134-140 | one that a functor queues is pending behind all others, and the eventfd is written |
| EventLoop.QuitWakes | CEventLoop/EventLoop.cc:153-158 | a quit() of another thread can write to the eventfd and return, and poll does not sleep after that; one of the loop thread only sets the flag |
| EventLoop.QuitEndsPolling | CEventLoop/EventLoop.cc:153-158 | a quit() of any thread, the loop thread included: poll is not entered again, whatever the threads do |
| EventLoop.QuitIsHeard | CEventLoop/EventLoop.cc:153-158 | and left alone the loop thread then leaves |
| EventLoop.ReadForgets | CEventLoop/EventLoop.cc:77-85 | a wakeup that was read is over: with nothing pending the loop thread sleeps in poll again |
| EventLoop.Drains | CEventLoop/EventLoop.cc:77-120 | left alone with the wakeup noticed, the loop thread runs everything that was pushed |
| Poller.Poller.UpdateChannel | CEventLoop/Poller.cc:54-76 | array, map and indices stay in step, and what is polled is the old map with this descriptor and its events |
| Poller.Poller.RemoveChannel | CEventLoop/Poller.cc:78-104 | swap with the last entry: what is polled is the old map without this descriptor, and one index moves |
| Poller.Poller.FillActiveChannels | CEventLoop/Poller.cc:36-52 | the channels of the first ready entries, in array order; these are told their events, and no others |
| Poller.Poller.Poll | CEventLoop/Poller.cc:14-34 | with the count that poll returns, exactly the ready channels, in array order |
| Poller.ReadyIsReady | CEventLoop/Poller.cc:40-50 | a channel is among them exactly when an entry of its descriptor has events |
| Buffer.Buffer.Append | CEventLoop/Buffer.h:44-48 | the bytes are behind the readable ones |
| Buffer.Buffer.FindCrlf | CEventLoop/Buffer.h:60-64 | the first line end of the readable bytes, or none |
| Buffer.Buffer.Retrieve | CEventLoop/Buffer.h:84-91 | the first bytes are dropped, and all of the array is writable again when nothing is left |
| Buffer.Buffer.RetrieveUntil | CEventLoop/Buffer.h:72-76 | what is before a place is dropped |
| Buffer.Buffer.RetrieveAll | CEventLoop/Buffer.h:78-82 | nothing is left |
| Buffer.Buffer.RetrieveAsString | CEventLoop/Buffer.h:98-104 | the string and what is left are what there was |
| Buffer.Buffer.RetrieveAllAsString | CEventLoop/Buffer.h:93-96 | the string is what there was |
| HttpContext.HttpContext.ParseRequest | CEventLoop/Http/HttpContext.cc:20-70 | where it ends, the loop comes to the state, the buffer, the headers and the answer that its iterations come to |
| HttpContext.EndsExactly | CEventLoop/Http/HttpContext.cc:24-68 | the loop ends exactly when a request line is missing or refused, or the header block is complete |
| HttpContext.Spins | CEventLoop/Http/HttpContext.cc:48-66 | otherwise it goes on for ever: there is no exit for a missing line end |
| HttpContext.PrintedParses | CEventLoop/Http/HttpContext.cc:48-66 | parsing undoes printing: the lines make the header map in order, the line without a colon ends it, and exactly the rest is readable |
| HttpContext.RequestParses | CEventLoop/Http/HttpContext.cc:20-70 | a whole request, from an accepted line: the answer is true, the headers are the fold of the lines, and exactly the rest is readable |
| HttpContext.RefusedParses | CEventLoop/Http/HttpContext.cc:31-41 | a refused line: the answer is false, and state, headers and buffer are as they were |
| HttpContext.UnfinishedParses | CEventLoop/Http/HttpContext.cc:43-46 | a line that is not whole: the answer is true, and all is as it was |
| HttpContext.AnswerIsVerdict | CEventLoop/Http/HttpContext.cc:20-70 | the answer is false exactly when a request line is there and refused, wherever the loop begins |
| HttpContext.FoldLast | CEventLoop/Http/HttpContext.cc:56 | of two equal names the last stays |

## Left out

- Parser.Parser.RequestLine: the request methods, the target and the version of a request line (`CEventLoop/ThirdParty/llhttp/src/llhttp.c:9926-12470`) are inputs, since those states are many and bring few new ideas; the scan of paths is in `Scan`.
- Parser.Parser.Execute: the data is a sequence, so handing over a null pointer, which would close an open span, is not an input; callbacks do not call the parser's own functions.
- Session.Feed: the answers to callbacks without data follow one policy but for pauses, so that runs can be compared; the answers to data are free.
- Response.ResponseRead: no folded header lines, which `HeaderBlock.FoldedValue` reads on their own, and no lenience; the same goes for `Request.RequestRead`. A trailer may tell no length, since `Pipeline.TrailerLeaves` shows what comes of one.
- Sequence.Pipelined: for a parser that is told its type; `Sequence.PipelinedGuessed` has the other.
- Server.Serve: the bytes of a request line that is not whole count as unread, and the user's answers to the pieces of its target are not looked at.
- Connection.ConnectionLine: for a line that is not folded, like `TransferEncoding.CodingLine` and `ContentLength.LengthLine`.
- EventLoop.NoLostWakeup: a write to the eventfd always succeeds and its counter does not saturate; physical memory ordering of the plain fields is not modelled, each access is one step.
- Poller.Poller.UpdateChannel: a channel is registered here or new, and descriptors are not negative, as the original relies on.
- Buffer.Buffer.Append: the bytes fit, since the original never grows its buffer; `readFd` is not part of this model.
- HttpContext.HttpContext.ParseRequest: what `processRequestLine` says of a line is an input, and the method, path, query and version it stores are not part of this model.
- Straight chains of blocks that read nothing and call nobody are one node, and the two halves of a digit are one block; no callback can be seen in between.
- The strict build (`CEventLoop/ThirdParty/llhttp/src/llhttp.c:1-7497`), which is compiled out by default and repeats the other half.
- Reason strings, error names, debug output, `llhttp_should_keep_alive`, and the name tables: they decide nothing in this build.
- System calls: poll and the eventfd are choices and a counter; read, write, accept and connect are not part of this model.
- Timers, timestamps, TCP connections, servers, clients and thread pools: mostly sockets, with several empty handlers.

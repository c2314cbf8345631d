# A verified model of libwyoming

libwyoming speaks the Wyoming voice protocol: a client and a server exchange *events* over one TCP
connection. An event is a JSON header line, an optional JSON data block and an optional binary payload.
This project models the library in three layers and proves each against a simple specification.

* **The JSON codec** (`src/cJSON/cJSON.c`). `Nodes.dfy` is the heap structure: nodes in doubly linked sibling lists
  whose head keeps the tail in `prev`; each node carries the value it stands for as a ghost `model`. `Parser.dfy` and
  `Printer.dfy` are the two imperative halves over `ParseBuffer` and `PrintBuffer`; they are proved equal to the
  functions of `JsonParse.dfy`, `JsonString.dfy`, `JsonNumber.dfy`, `Unicode.dfy` and `Json.dfy`. About these
  functions the theorems are proved: the parser accepts every text of the grammar of RFC 8259 with its meaning
  (`JsonGrammar.dfy`, numbers in `JsonNumeral.dfy`), it accepts nothing that lacks the brackets, commas, colons and
  quotes of the tree it gives (`JsonSoundness.dfy`), and parsing undoes printing exactly up to the nesting limit
  (`JsonRoundTrip.dfy`). `SiblingList.dfy` holds append, insert, detach and replace, `Comparison.dfy` and
  `JsonCompare.dfy` Duplicate and Compare, `Minify.dfy`, `MinifyTokens.dfy` and `MinifyPrint.dfy` the in-place
  minifier.
* **The framing** (`src/event.c`). `Stream.dfy` has a descriptor with a schedule of interruptions, short transfers and
  failures, and the 8192-byte buffer over it; `EventIo.dfy` reads and writes one event with the codec,
  `EventRelay.dfy` whole streams of them; `Wire.dfy` is the specification on byte sequences with the round trips,
  `Arrival.dfy` what a reader makes of a stream of which only a part has arrived, `WireFormat.dfy` every text on the
  wire name by name, and what a reader makes of the headers of others. Framing is sound because an unformatted print
  never contains a newline, so the event theorems rest on the codec theorems.
* **The session** (`src/server.c`, `src/client.c`). `ServerMachine.dfy` is the server as a state machine over what it
  observes, with arbitrary engine callbacks that carry their own state; `Server.dfy` is the loop of `handle_client`,
  proved to do what the machine does. `ClientMachine.dfy` and `Client.dfy` are the same for the client functions.
  `ServerLaws.dfy` and `ClientLaws.dfy` say, with all names and defaults written out and without the functions by
  which the machines read fields, what a server does with the events of any client and what a client makes of the
  replies of any server. `Fidelity.dfy` proves one operation at a time, `Carriage.dfy` which requests and replies the
  printer takes, `Session.dfy` every interleaving of both sides over two byte streams, `Service.dfy` and
  `ServedAnswers.dfy` the loops of each side on the actual bytes. `Catalog.dfy` and `Registry.dfy` hold registration
  and the describe round trip, `Audio.dfy` the PCM chunks and the growing buffers, `StopProtocol.dfy` the stop flag
  and the self-pipe.

The main results, in the terms of the system:

1. *Sessions refine direct calls.* Both directions of the connection are byte streams; sends and writes move any
   part of the outstanding bytes, a read completes as soon as its event has arrived, and a drain may time out
   while nothing has. For any sequence of describe, synthesize, batch and streaming transcribe operations with
   callbacks that are registered and succeed, under every interleaving, no read ever sees a broken event, no
   schedule goes on for ever, and operation i returns exactly what calling the callback directly with its
   arguments returns. All operations complete, with both byte streams empty, *if and only if* every answer fits
   the printer; otherwise the client gets the results before the first one that does not, and waits
   (`Session.SessionRefinesDirectCalls`, `Session.EveryRunIsAligned`; `Session.LongAnswerIsLost` is the
   counterexample: a transcript of INT_MAX bytes).
2. *Events survive the wire* for every schedule of short reads, short writes and interruptions, and come back
   exactly when their data nests within 1000 containers (`Wire.ReadUndoesFrameIffReadable`).
3. *Streams live by the rules* in every run of the server loop, read errors and shutdown included
   (`ServerMachine.StreamsLiveByTheRules`).
4. *Stop is never lost*: at most two clients are accepted after it returned, at most one when run had set its flag
   before, and the loop ends after at most 30 more steps and two for each signal
   (`StopProtocol.AtMostTwoLateClients`, `StopProtocol.AtMostOneLateClient`, `StopProtocol.RunEnds`). Before it is
   called only a wait that failed ends the loop (`StopProtocol.OnlyAFailedWaitEndsRun`).
5. *The codec*: completeness for RFC 8259 (`JsonGrammar.ParserIsComplete`), the shape of every accepted text
   (`JsonSoundness.AcceptedTextStands`), exact round trip, exact bounds of the printer, totality of the parser, the
   size estimate of the unescaper, and what minifying keeps of every text (`MinifyTokens.EveryTextHasTokens`).
6. *Properties that hold under a condition*, with the exact condition and an input that violates it: the session
   theorem (an answer that does not fit the printer is dropped by the server), minifying a formatted print
   (`MinifyPrint.MinifyKeepsMeaningIffClean`: a string or key that ends in a backslash misleads the minifier) and
   comparing (`JsonCompare.CompareDecides`: members that share a key without meaning the same).

Where the code and its comments disagree, the model follows the code. The transmitted `transcribe-stop`
that the server drains is read with a short timeout; the model lets this read fail at any event boundary. The
loops and lemmas open with `hide` where the bodies of some definitions play no part, which keeps every proof far
from the solver's limits.

## Model

| member | source | states |
|---|---|---|
| Bytes.CString | src/cJSON/cJSON.c:1184-1187 | what C string functions see of a buffer: the longest NUL-free prefix |
| Unicode.Utf8RoundTrip | src/cJSON/cJSON.c:718-772 | decoding the RFC 3629 form of a code point gives it back exactly when it is a scalar value |
| Unicode.LiteralIsScalarUtf8 | src/cJSON/cJSON.c:660-778 | an accepted escape or surrogate pair always yields the RFC 3629 form of a scalar value, never an encoded surrogate |
| Parser.ParseHex4 | src/cJSON/cJSON.c:623-656 | four hex digits have their value, anything else counts as 0 |
| Parser.Utf16LiteralToUtf8 | src/cJSON/cJSON.c:660-778 | writes exactly the bytes of the escape, advances the output by their number, and reports how much input it took, or 0 |
| Parser.EncodeUtf8 | src/cJSON/cJSON.c:752-772 | the shifting loop writes the RFC 3629 table's encoding and touches nothing else |
| Parser.MaskByte | src/cJSON/cJSON.c:759 | the mask in the loop, or 0x80 and 0xBF, keeps the low six bits and marks a continuation byte |
| Parser.MarkByte | src/cJSON/cJSON.c:762-770 | or-ing the mark of a first byte adds it to what is left of the code point |
| Parser.ContinuationByte | src/cJSON/cJSON.c:759 | the masked low byte is the continuation byte of the RFC 3629 table |
| Parser.FirstByte | src/cJSON/cJSON.c:762-770 | the mark and the bits that are left, put together bit by bit |
| Parser.ChooseLength | src/cJSON/cJSON.c:724-753 | the length of the encoding and the mark of its first byte |
| JsonString.CountMatchesEscaped | src/cJSON/cJSON.c:938-973 | the counting pass of the printer equals the growth of the writing pass, for every string |
| JsonString.StepKeepsRoom | src/cJSON/cJSON.c:833-885 | one step of the second pass keeps the output within what the first pass measured, however the passes split escapes |
| JsonString.UnescapeFits | src/cJSON/cJSON.c:794-885 | for every input the unescaped bytes fit the size the first pass computed |
| JsonRoundTrip.ParseUndoesQuote | src/cJSON/cJSON.c:781-908 | reading the printed form of any NUL-free string gives the string back and stops behind its quote |
| Parser.ParseBuffer.MeasureString | src/cJSON/cJSON.c:794-825 | finds the closing quote and counts the skipped bytes of escapes |
| Parser.ParseBuffer.UnescapeString | src/cJSON/cJSON.c:827-885 | the second pass writes the meaning of the literal and a NUL into a buffer of the estimated size, without overrunning it |
| Parser.ParseBuffer.UnescapeNext | src/cJSON/cJSON.c:833-882 | one byte or escape appended behind those already written; failure only when the literal has no meaning |
| Parser.ParseBuffer.ParseString | src/cJSON/cJSON.c:781-908 | a string leaf and the offset behind its quote, or failure, exactly as the literal says |
| Printer.PrintBuffer.CountEscapes | src/cJSON/cJSON.c:932-957 | the number of additional bytes of the escapes |
| Printer.PrintBuffer.WriteEscaped | src/cJSON/cJSON.c:981-1022 | the writing pass appends exactly the escaped string |
| Printer.PrintBuffer.PrintStringPtr | src/cJSON/cJSON.c:911-1030 | the quoted string at the offset, exactly when it and its NUL fit |
| JsonNumber.IntegersAreInt32 | src/cJSON/cJSON.c:565-577 | every 32-bit integer takes the `%d` branch with its own value |
| JsonNumber.DecimalIsShort | src/cJSON/cJSON.c:558-577 | the `%d` text of a 32-bit integer has at most 11 bytes, so it fits the number buffer |
| JsonNumber.IntegerLiteralIsShort | src/cJSON/cJSON.c:307-345 | a 32-bit integer literal fits the 63 bytes that are copied for strtod |
| JsonNumeral.NumeralIsRead | src/cJSON/cJSON.c:307-381 | every number of RFC 8259 that fits the buffer, with fraction and exponent, is read back as its exact value, with the offset behind it, whatever follows; so is one with zeros in front or nothing before the point |
| JsonNumeral.StrtodOfNumeral | src/cJSON/cJSON.c:355-359 | the value is all digits as one integer, the point moved left over the fraction and the exponent applied; nothing of the text is left |
| JsonNumeral.LongNumberIsCut | src/cJSON/cJSON.c:322-353 | of a longer run of digits exactly the first 63 are read |
| JsonNumber.SaturateIsCast | src/cJSON/cJSON.c:363-375 | the integer of a node is the number cut towards zero, or the nearest int when it lies outside their range |
| JsonNumber.DigitsValueOfDigits | src/cJSON/cJSON.c:571-577 | the decimal digits of a number denote it |
| Parser.ParseBuffer.CopyNumber | src/cJSON/cJSON.c:316-345 | the run of number bytes at the offset, at most 63 |
| Parser.ParseBuffer.ParseNumber | src/cJSON/cJSON.c:307-381 | a number leaf with the double and the saturated integer, or failure when strtod takes nothing |
| JsonParse.ParseValue | src/cJSON/cJSON.c:1325-1377 | a parsed value ends strictly behind its start and inside the buffer |
| JsonParse.ArrayByParts | src/cJSON/cJSON.c:1454-1549 | an array by what follows its bracket and the blanks |
| JsonParse.ObjectByParts | src/cJSON/cJSON.c:1614-1729 | an object by what follows its brace and the blanks |
| JsonParse.ParsedTreeIsBounded | src/cJSON/cJSON.c:1325-1377 | every parsed tree holds C strings only and nests within what is left of the limit of 1000 |
| JsonSoundness.AcceptedTextStands | src/cJSON/cJSON.c:1104-1187 | whatever cJSON_Parse accepts is, behind a byte order mark and blanks, a text of the tree it gives: the words, numerals that start with a minus or a digit, quoted strings, children in brackets with a comma between any two, keys in quotes with a colon behind them |
| JsonSoundness.AcceptedValueStands | src/cJSON/cJSON.c:1325-1377 | the same at any place of a buffer |
| JsonSoundness.BadFirstByte | src/cJSON/cJSON.c:1332-1377 | a value that begins with any other byte, such as a plus, is refused |
| JsonSoundness.BadEscapeIsRefused | src/cJSON/cJSON.c:833-880 | a string whose first deviation from the grammar is an unknown escape or a lone surrogate is refused, whatever follows |
| JsonSoundness.OpenStringIsRefused | src/cJSON/cJSON.c:794-817 | a string that is not closed is refused |
| JsonGrammar.ParserIsComplete | src/cJSON/cJSON.c:1104-1181 | every RFC 8259 text with blanks anywhere, escapes of every kind, numbers of at most 63 bytes and at most 1000 levels parses to the tree it denotes |
| JsonGrammar.TextHasNoNul | src/cJSON/cJSON.c:1184-1187 | such a text contains no NUL, so a C string can carry it |
| JsonGrammar.CodeTextIsRead | src/cJSON/cJSON.c:623-656 | the four digits of a code unit, each in either case, are read as the code unit |
| JsonGrammar.PairIsRead | src/cJSON/cJSON.c:704-714 | the two surrogates of a code point are put together to the code point |
| JsonGrammar.MarkIsPassedOver | src/cJSON/cJSON.c:1073-1086 | a byte order mark in front changes nothing |
| JsonGrammar.StrictParse | src/cJSON/cJSON.c:1135-1143 | a parse that insists on the end of the text accepts a document that is all of it and none with more behind |
| JsonGrammar.ParseText | src/cJSON/cJSON.c:1325-1377 | the same at any place of a buffer, with the offset behind the text |
| JsonGrammar.ParseFields | src/cJSON/cJSON.c:1614-1729 | the same for the members of an object |
| JsonGrammar.ParseElements | src/cJSON/cJSON.c:1454-1549 | the same for the elements of an array |
| JsonGrammar.ParseStringText | src/cJSON/cJSON.c:781-908 | the same for a string literal made of plain bytes, short escapes, code escapes and surrogate pairs |
| Parser.ParseBuffer.SkipWhitespace | src/cJSON/cJSON.c:1047-1070 | the offset moves over blanks and steps back from the end of the buffer |
| Parser.ParseBuffer.ParseValue | src/cJSON/cJSON.c:1325-1377 | total for every buffer: succeeds exactly when the specification does, with a well-formed fresh tree, the offset advanced and the depth restored |
| Parser.ParseBuffer.ParseArray | src/cJSON/cJSON.c:1454-1549 | the same for arrays; the children are a complete sibling list |
| Parser.ParseBuffer.ParseElements | src/cJSON/cJSON.c:1479-1524 | the loop builds a chain that stands for exactly the parsed values, in order |
| Parser.ParseBuffer.ParseObject | src/cJSON/cJSON.c:1614-1729 | the same for objects |
| Parser.ParseBuffer.ParseFields | src/cJSON/cJSON.c:1639-1704 | the loop builds a chain that stands for exactly the parsed members, in order |
| Parser.ParseBuffer.ParseKey | src/cJSON/cJSON.c:1668-1682 | the name of a member becomes the key of its node |
| Parser.ParseWithLength | src/cJSON/cJSON.c:1104-1181 | for every buffer and length, a fresh well-formed tree for the value the buffer denotes, or null when it denotes none |
| Parser.Parse | src/cJSON/cJSON.c:1184-1187 | the same for a C string |
| Nodes.Node.Adopt | src/cJSON/cJSON.c:1530-1541 | a finished chain becomes the sibling list of its parent, with the head's `prev` on the last node |
| Json.RenderHasNoNul | src/cJSON/cJSON.c:1380-1451 | no printed text contains a NUL |
| Json.UnformattedHasNoControl | src/cJSON/cJSON.c:938-1029 | an unformatted print contains no byte below 32, hence no newline |
| Printer.PrintBuffer.Ensure | src/cJSON/cJSON.c:447-530 | room for the needed bytes exactly when the limit allows it; what was printed is kept |
| Printer.PrintBuffer.UpdateOffset | src/cJSON/cJSON.c:533-543 | the offset moves to the NUL |
| Printer.PrintBuffer.PrintNumber | src/cJSON/cJSON.c:553-620 | the `%d` text at the offset, exactly when it fits |
| Printer.PrintBuffer.PrintValue | src/cJSON/cJSON.c:1380-1451 | the rendering of the tree at the offset, succeeding exactly when it and two more bytes fit the limit |
| Printer.PrintBuffer.PrintArray | src/cJSON/cJSON.c:1552-1611 | the same for an array |
| Printer.PrintBuffer.PrintObject | src/cJSON/cJSON.c:1732-1843 | the same for an object |
| Printer.PrintTree | src/cJSON/cJSON.c:1196-1272 | the whole text, unless it needs more than an int of bytes |
| Printer.PrintPreallocated | src/cJSON/cJSON.c:1305-1322 | succeeds if and only if the length is at least the text plus two, and then holds the text and a NUL |
| JsonRoundTrip.ParseUndoesPrint | src/cJSON/cJSON.c:1325-1377 | parsing a print, formatted or not, gives the tree back with its children in order |
| JsonRoundTrip.RoundTripIffNested | src/cJSON/cJSON.c:1460-1463 | the round trip holds exactly for trees of at most 1000 levels |
| JsonRoundTrip.PrintIsInjective | src/cJSON/cJSON.c:1196-1272 | two trees with the same text, in whichever format, are the same tree |
| JsonRoundTrip.ParsedTextNests | src/cJSON/cJSON.c:1184-1187 | whatever parses is a tree of C strings within the nesting limit |
| Json.LookupIsFirst | src/cJSON/cJSON.c:1898-1928 | of several members with the same key the first counts |
| SiblingList.GetArrayItem | src/cJSON/cJSON.c:1869-1886 | the child at the index, or null behind the end |
| SiblingList.GetObjectItem | src/cJSON/cJSON.c:1898-1928 | the first child with the key, or null when there is none |
| SiblingList.LinkLast | src/cJSON/cJSON.c:1974-2005 | one more node at the end of the list; links and tail pointer stay exact |
| SiblingList.LinkBefore | src/cJSON/cJSON.c:2300-2312 | one more node before any position |
| SiblingList.Unlink | src/cJSON/cJSON.c:2212-2236 | the list without the node at any position, which ends up without neighbours |
| SiblingList.Relink | src/cJSON/cJSON.c:2327-2359 | another node in the place of the node at any position |
| SiblingList.AddItemToArray | src/cJSON/cJSON.c:1974-2005 | the tree with one more child at the end, and a well-formed list |
| SiblingList.AddItemToObject | src/cJSON/cJSON.c:2029-2063 | the object with one more member at the end |
| SiblingList.InsertItemInArray | src/cJSON/cJSON.c:2281-2312 | the tree with the child inserted at the index, or at the end when the list is shorter |
| SiblingList.InsertBefore | src/cJSON/cJSON.c:2300-2312 | the insertion before a child, whatever the new child was linked to |
| SiblingList.DetachItemViaPointer | src/cJSON/cJSON.c:2205-2239 | the tree without the child, and the child as a tree of its own that shares no node with it |
| SiblingList.ReplaceItemViaPointer | src/cJSON/cJSON.c:2315-2362 | the tree with another child in the same place |
| Comparison.Duplicate | src/cJSON/cJSON.c:2729-2810 | a copy of the same tree made of fresh nodes only, or of the node alone |
| Comparison.Compare | src/cJSON/cJSON.c:3009-3132 | one node, or trees the specification calls equal |
| Comparison.CompareWithCopy | src/cJSON/cJSON.c:2729-3132 | Compare accepts a Duplicate exactly when members with the same key mean the same |
| JsonCompare.CompareIntegers | src/cJSON/cJSON.c:546-550 | on 32-bit integers the tolerant comparison is equality |
| JsonCompare.CompareIsRelative | src/cJSON/cJSON.c:546-550 | two numbers are taken for equal exactly when they differ by at most one part in 2^52 of the larger magnitude |
| JsonCompare.CompareDecides | src/cJSON/cJSON.c:3009-3132 | true exactly when both trees mean the same (arrays in order, objects as finite maps) and neither has members that share a key without meaning the same |
| JsonCompare.CompareDecidesEquality | src/cJSON/cJSON.c:3009-3132 | with unique keys it decides whether the trees mean the same |
| JsonCompare.DuplicateKeysFoolCompare | src/cJSON/cJSON.c:3085-3125 | a tree with a key twice that does not equal its own copy |
| Minify.Minify | src/cJSON/cJSON.c:2861-2907 | in place, the buffer holds the minified text and a NUL; the write position never passes the read position and nothing behind the text changes |
| Minify.MinifyString | src/cJSON/cJSON.c:2839-2859 | a string is copied up to the quote that ends it for the minifier |
| Minify.SkipOnelineComment | src/cJSON/cJSON.c:2812-2823 | behind the newline of a line comment |
| Minify.SkipMultilineComment | src/cJSON/cJSON.c:2825-2837 | behind the end of a block comment |
| MinifyTokens.MinifyKeepsTokens | src/cJSON/cJSON.c:2861-2907 | of a text taken apart into blanks, comments, lone slashes, literals and other bytes, exactly the literals and the other bytes are kept, in order; unclosed comments vanish and an unclosed literal stays |
| MinifyTokens.EveryTextHasTokens | src/cJSON/cJSON.c:2861-2907 | every text can be taken apart in this way, so this says what minifying does to every input |
| MinifyPrint.MinifyKeepsMeaningIffClean | src/cJSON/cJSON.c:2839-2907 | minifying the formatted print gives the unformatted print if and only if no string or key ends in a backslash, but for a last string followed by closing brackets only |
| MinifyPrint.MinifyKeepsCleanTrees | src/cJSON/cJSON.c:2839-2907 | it does for every tree without such a string or key |
| MinifyPrint.BackslashFoolsMinify | src/cJSON/cJSON.c:2853-2857 | a concrete tree for which it does not |
| MinifyPrint.MinifyPrinted | src/cJSON/cJSON.c:2861-2907 | the in-place algorithm on a buffer that holds a formatted print, with the exact condition |
| Trees.Import | src/cJSON/cJSON.c:2408-2566 | the Create and Add calls build a fresh well-formed tree for any value |
| Trees.Export | src/cJSON/cJSON.c:1869-1886 | the walk along `child` and `next` recovers the value |
| Stream.Socket.Read | src/event.c:72-86 | a read moves some bytes off the front of the stream, finds its end, is interrupted or fails |
| Stream.WriteAll | src/event.c:228-242 | the whole text goes out for every schedule that does not break; otherwise a prefix of it |
| Stream.IoBuf.Refill | src/event.c:69-86 | the buffer holds the next bytes of the stream, unless it ended or broke |
| Stream.IoBuf.ReadLine | src/event.c:19-88 | for every schedule and every buffer boundary the line is everything before the first newline, and the rest is what follows it |
| Stream.IoBuf.ReadExact | src/event.c:90-117 | exactly the next bytes, or the end of the stream when there are fewer |
| Wire.HeaderIsOneLine | src/event.c:262-287 | the header text contains no newline before the one the writer appends |
| Wire.HeaderFields | src/event.c:172-182 | the reader takes out of a header the type and the lengths the writer put in |
| WireFormat.FrameIsText | src/event.c:244-296 | a frame byte for byte: the header with type, version and the length of each block that is not empty, by their names, a newline, the data, the payload |
| WireFormat.AnyHeader | src/event.c:150-224 | behind any header line with a type string come blocks of the lengths it gives; short blocks and data that is no JSON are errors |
| WireFormat.NoHeader | src/event.c:150-164 | any other line is an error, and without a newline there is no line |
| WireFormat.StartIsText | src/server.c:475-486 | the data of an audio-start, field by field, with a timestamp from the server |
| WireFormat.ChunkIsText | src/server.c:493-512 | the data of an audio-chunk, and its samples low byte first in two's complement |
| WireFormat.TranscriptIsText | src/server.c:713-723 | the data of a transcript: the text, and the mark of a partial one |
| WireFormat.SynthesizeIsText | src/client.c:79-106 | the data of a synthesize: the text, and an object with the name of the voice if one is given |
| WireFormat.OpeningIsText | src/client.c:457-473 | type and data of the opening of a transcription: the language if a non-empty one is given |
| WireFormat.InfoIsText | src/server.c:306-386 | the data of an info event, with the names of all its fields, for every offer |
| WireFormat.FormattedMember | src/cJSON/cJSON.c:1770-1820 | in a formatted print a member stands on its own line behind as many tabs as there are containers around it |
| WireFormat.SomeNumbers | src/cJSON/cJSON.c:571-577 | decimal numbers are written with the first digit first and a minus in front |
| Wire.ReadUndoesFrame | src/event.c:142-296 | a written event is read back whatever follows it, and what follows is left |
| Wire.ReadUndoesFrameIffReadable | src/event.c:200-205 | it is read back if and only if its data nests within the parser's limit |
| Wire.ReadingUndoesWriting | src/event.c:142-296 | reading as many events as were written gives them all in order and leaves nothing of them |
| Wire.FramesYield | src/event.c:142-296 | the same, as reads one after the other |
| Wire.FramesAreUnambiguous | src/event.c:244-296 | two lists of events with the same bytes are the same list |
| EventIo.ReadEvent | src/event.c:142-224 | with the heap trees of the codec, reading gives what the specification gives for the pending bytes, error cases included |
| EventIo.WriteEvent | src/event.c:244-296 | the frame of the event; a prefix of it when the descriptor breaks; nothing when a text does not fit the printer |
| EventRelay.WriteEvents | src/event.c:244-296 | events written one after the other leave exactly their frames, for every schedule of short writes and interruptions |
| EventRelay.ReadEvents | src/event.c:142-224 | as many reads give them all back, for every schedule and every place of the buffer boundary, and leave what follows |
| EventRelay.Relay | src/event.c:142-296 | what one side writes the other reads, under arbitrary unbroken schedules of both descriptors |
| Arrival.ReadThenMore | src/event.c:142-224 | what has arrived is read in the same way whatever arrives behind it |
| Arrival.ReaderTakesFirst | src/event.c:142-224 | from the part of a stream of frames that has arrived a reader gets the first event whole or waits; it never sees a broken one |
| Arrival.WholeQueueHasArrived | src/event.c:142-224 | once everything has been sent a reader need not wait |
| EventIo.BuildHeader | src/event.c:260-272 | the header object, with a length member only for a block that is not empty |
| Audio.SamplesSurvive | src/server.c:584-602 | samples survive the payload, and an odd last byte is dropped |
| Audio.ChunksConserve | src/server.c:488-515 | cutting PCM loses nothing, and every chunk is not empty and within the limit |
| Audio.ChunkCount | src/client.c:492-529 | there are ceil(N / k) chunks |
| Audio.ChunkAt | src/client.c:492-529 | piece i are the samples from k * i on, k of them or all that are left |
| Audio.Collector.Append | src/server.c:585-602 | the collected samples grow by exactly the chunk, whatever the buffer's capacity was |
| Audio.Collector.Grow | src/client.c:166-177 | the new capacity is twice the need or the least capacity, and the samples are kept |
| Audio.GrowthsAreLogarithmic | src/client.c:164-181 | collecting N samples reallocates at most 1 + log2(max(N, h) / h) times, h half the least capacity |
| Protocol.KindOfType | src/server.c:415-726 | the type strings are told apart by the comparison chains |
| Protocol.FormatComesBack | src/server.c:558-565 | the format of an audio-start is read back, with or without the timestamp |
| Protocol.TranscriptComesBack | src/client.c:675-691 | text and partial mark of a transcript are read back |
| Catalog.DescribeRoundTrip | src/server.c:306-386 | what a client reads out of the info data is exactly what was registered, in order, with an engine exactly when its callback is set |
| Catalog.DescribeIsFaithful | src/client.c:301-393 | two servers that look the same to a client offer the same |
| Catalog.InfoTravels | src/server.c:306-386 | the info data is within the codec's limits whatever was registered |
| Catalog.StringsMoveToTheFront | src/client.c:372-385 | in a model's languages each string moves to the place its number among the strings gives it, and behind them there is nothing |
| Registry.Server.AddVoice | src/server.c:155-180 | one more voice with at most eight languages while fewer than 64 are registered; otherwise nothing changes |
| Registry.Server.AddSpeaker | src/server.c:182-197 | one more speaker of the last voice, at most 32; otherwise nothing changes |
| Registry.Server.AddAsrModel | src/server.c:214-239 | one more model, at most 16; otherwise nothing changes |
| Registry.Server.SetTts | src/server.c:140-153 | callback, name and version are replaced, everything else stays |
| Registry.Server.SetAsr | src/server.c:199-212 | the same for speech recognition |
| Registry.Server.BuildInfoData | src/server.c:306-386 | the loops over the tables build the info value of everything registered |
| Registry.Server.LanguageItems | src/server.c:330-333 | the loop over the languages of a voice or a model builds the array of their strings |
| Registry.Server.SpeakerItems | src/server.c:335-340 | the loop over the speakers builds an object with a name for each |
| Client.ReadInfo | src/client.c:301-393 | the loops that fill the client's tables read exactly the engines of the info data |
| Client.ReadVoices | src/client.c:208-268 | slot by slot the voices of an engine |
| Client.ReadTexts | src/client.c:230-246 | a voice's languages, with an empty slot for an item that is no string |
| Client.ReadNames | src/client.c:248-266 | the names of a voice's speakers |
| Client.ReadLanguages | src/client.c:372-385 | a model's languages with the strings moved to the front and the count of all items |
| ServerMachine.AnsweredExactlyWhen | src/server.c:415-528 | a request is answered at once exactly when it is a describe, or a synthesize whose text, callback and result are there |
| ServerLaws.SynthesizeCall | src/server.c:430-528 | the engine gets the text, the voice and the speaker of the request, each a string under its name; what it says is sent, and nothing when it fails |
| ServerLaws.IdleIsIgnored | src/server.c:454-457 | requests without an engine, a synthesize without a text and unknown events change nothing |
| ServerLaws.DescribeIsAnswered | src/server.c:415-427 | a describe is answered with the info event |
| ServerLaws.SpeechShape | src/server.c:473-524 | a stamped audio-start, ceil(N / 4096) chunks in order, 4096 samples each but for the last, an audio-stop |
| ServerLaws.AnyBatch | src/server.c:531-642 | a batch of any client, with foreign events in between: language, format (16000, 2 and 1 by default) and all samples reach the engine and its text comes back; without samples nothing happens |
| ServerLaws.AnyStream | src/server.c:644-772 | a stream of any client, ended by either stop: the same block by block, with the partial transcripts of the calls that went well, then the final text |
| ServerLaws.MissingStart | src/server.c:549-557 | anything but an audio-start behind the opening ends the connection |
| ServerLaws.StreamOpened | src/server.c:682-687 | a stream whose context is null ends at once, without a reply |
| ServerLaws.CutOff | src/server.c:401-772 | what a stopped server or a failed read leaves of each state: where the flag is tested, where the connection ends, and that an open stream is finished, answered and destroyed |
| ServerMachine.AbortedBatchIsSilent | src/server.c:575-614 | a batch cut off before its audio-stop makes no call and no reply |
| ServerMachine.StepFollows | src/server.c:644-772 | every input keeps the rules of a stream's life |
| ServerMachine.StreamsLiveByTheRules | src/server.c:644-772 | in every run each stream gets calls that are not final, one final call, one final transcript and one destroy, in this order |
| ServerMachine.ClosedLeavesNoStream | src/server.c:401-777 | when the connection closes every stream has come to its end |
| ServerMachine.RunAppend | src/server.c:401-777 | a run over two lists of inputs is the run over the first and then the second |
| Server.Handler.HandleClient | src/server.c:392-777 | engines, replies and calls are exactly those the machine makes of the observed inputs, up to the closed state, and the streams lived by the rules |
| Server.Handler.SendSpeech | src/server.c:473-524 | audio-start, the chunks of at most 4096 samples, audio-stop |
| Server.Handler.CollectAudio | src/server.c:569-608 | the concatenation of the payloads' samples up to audio-stop, or back to the top |
| Server.Handler.StreamAudio | src/server.c:691-748 | calls and partial transcripts chunk by chunk, then the final call and transcript |
| Server.Handler.Drain | src/server.c:751-769 | whatever the drained read gives, the stream is destroyed and the loop goes on |
| Service.ServeWritten | src/server.c:392-777 | on the bytes of written events, for every schedule, the loop ends with the engines' state and writes exactly the frames of those replies that fit the printer |
| Service.WrittenEventsAreRead | src/event.c:142-224 | the inputs observed on such bytes are the events, one by one, and then the end of the stream |
| ClientMachine.ServeIsRun | src/server.c:401-777 | serving a list of events is the run over reads that deliver them |
| Fidelity.SpeechComesBack | src/client.c:134-203 | the client rebuilds the PCM and the format of the speech the server cut into chunks |
| Fidelity.GatherChunks | src/server.c:575-608 | the server rebuilds the concatenation of any chunks |
| Fidelity.FeedChunks | src/server.c:693-731 | the chunks of a stream reach the engine one by one, and exactly the texts of the calls that went well and are not empty go out, in order, as partial transcripts |
| Fidelity.PartialsPass | src/client.c:663-705 | a client passes over partial transcripts and returns the text of the final one |
| Fidelity.SynthesizeFaithful | src/client.c:109-204 | a synthesize operation returns the direct call's PCM and format and leaves nothing unread |
| Fidelity.TranscribeFaithful | src/client.c:444-571 | a batch operation returns the direct call's text |
| Fidelity.StreamFaithful | src/client.c:575-705 | a stream returns the text of the direct final call, and its transcribe-stop is drained |
| Fidelity.EveryOpIsFaithful | src/client.c:109-705 | every operation brings the server back to the top with the direct call's state and result |
| Fidelity.LanguageIsHandedOn | src/client.c:464-465 | the language goes out exactly as the caller gave it; none and an empty one do not go out |
| Fidelity.BatchCall | src/server.c:616-637 | the text the callback gives for the caller's samples, format and language is what the server replies and what the client returns, and nothing when it gives none |
| Fidelity.StreamCalls | src/server.c:688-740 | the same for a stream, with its partial transcripts |
| Session.EveryRunIsAligned | src/server.c:401-776 | in every run over the two byte streams the results so far are those of the direct calls, and the bytes under way will complete the current operation or leave it waiting, as its answer fits or not |
| Session.LateStopIsIgnored | src/server.c:751-765 | a transcribe-stop that arrives after its drain gave up has the same effect as one that was drained |
| Session.NeverStuck | src/client.c:444-705 | unless everything is done, or the client waits for an answer that did not fit, some step is possible |
| Session.NextGoesDown | src/server.c:401-776 | every step, also the transfer of part of the bytes, makes a well-founded rank smaller |
| Session.EverySchedule | src/server.c:751-765 | any number of the bytes under way may arrive next, and a drain may give up whenever nothing has arrived |
| Session.SessionRefinesDirectCalls | src/server.c:401-776 | under every schedule all operations complete with the direct calls' results and both byte streams end up empty, if and only if every answer fits the printer; otherwise the client waits at the first that does not |
| Session.LongAnswerIsLost | src/server.c:616-640 | an engine whose text is too long for the printer makes the client wait for ever |
| Session.DescribeInSession | src/client.c:270-397 | a describe that completes in a session tells exactly what the server offers |
| Client.Conn.SynthesizePcm | src/client.c:109-204 | the request goes out, and the result is what the replies heard mean, or the error of the read |
| Client.Conn.ReceiveSpeech | src/client.c:128-203 | exactly the replies that complete the operation are read, with at most 1 + log2(max(N, 2048) / 2048) reallocations |
| Client.Conn.Describe | src/client.c:270-397 | one reply, read as the server's info |
| Client.Conn.TranscribePcm | src/client.c:444-571 | empty audio is refused; otherwise all requests go out in order and the result follows from the replies |
| Client.Conn.TranscribeStart | src/client.c:575-606 | both opening events, the second only when the first went out |
| Client.Conn.TranscribeChunk | src/client.c:608-636 | one chunk event with all the samples |
| Client.Conn.TranscribeStop | src/client.c:638-705 | both stop events, then the replies up to a transcript that is not partial |
| Client.Conn.TranscribeStreamed | src/client.c:575-705 | start, one call per chunk and stop together write the requests of one streaming operation and conclude as it does |
| ClientLaws.ErrorEndsOperation | src/client.c:191-195 | an error event ends every operation with a protocol error, however far its replies have come |
| ClientLaws.ForeignReplyIsPassedOver | src/client.c:197-198 | replies that do not belong to the operation are passed over, wherever they come |
| ClientLaws.DescribeReply | src/client.c:295-299 | only an info event completes a describe well |
| ClientLaws.AnyInfo | src/client.c:208-393 | what a client reads out of any info data: an engine for each item under its name, with what it says about itself, and nothing where a value has another type |
| ClientLaws.BeforeStart | src/client.c:158-189 | audio before its format is a protocol error, a stop before it ends an empty speech |
| ClientLaws.AnotherStart | src/client.c:144-156 | another audio-start replaces the fields of the format it gives and keeps what has been heard |
| ClientLaws.AnySpeech | src/client.c:134-203 | the speech of any server: the format of its start and all samples up to its stop |
| ClientLaws.AnyTranscript | src/client.c:544-556 | in a batch the first transcript decides, and one without a text is an error |
| ClientLaws.AnyTranscripts | src/client.c:672-691 | a stream ends with the first transcript that has data and is not partial, and the last text among all counts |
| ClientLaws.BatchShape | src/client.c:457-540 | a batch goes out as its opening, an audio-start, ceil(N / 1024) chunks in order and an audio-stop |
| ClientLaws.StreamShape | src/client.c:575-660 | a stream goes out as its opening, an audio-start, its chunks as they are and both stops |
| ServedAnswers.RepliesDetermineReturn | src/client.c:109-705 | on the bytes of replies that complete an operation a client that keeps its connection returns their meaning and stops reading right behind them |
| ServedAnswers.OperationOnBytes | src/client.c:109-705 | the bytes the server writes for an operation whose answer fits make the client return the direct call's result |
| Carriage.RequestsTravel | src/client.c:79-705 | everything a client sends for an operation can be written and read, exactly when its first request fits the printer |
| Carriage.RepliesTravel | src/server.c:415-748 | whatever the engines answer, what the server writes is within the writer's and the reader's limits |
| Carriage.HeardExactlyWhenAudible | src/server.c:415-748 | of the replies to an operation the client hears those that fit; they give it the direct call's result exactly when the last one fits, and otherwise leave it waiting |
| Carriage.ConclusionTravels | src/event.c:244-296 | the reply that completes an operation can be written exactly when its data fits the printer; that of a synthesize always can |
| Carriage.TranscriptFits | src/event.c:250-272 | for a transcript this means that its escaped text has at most INT_MAX - 13 bytes |
| StopProtocol.InvIsInductive | src/server.c:806-840 | every step of either thread keeps the bound on what can still be accepted |
| StopProtocol.AtMostTwoLateClients | src/server.c:259-265 | in every interleaving at most two clients are accepted after stop has returned, even when its cleared flag is overwritten |
| StopProtocol.AtMostOneLateClient | src/server.c:259-265 | at most one when run has set the flag before stop is called, because the cleared flag then stays down |
| StopProtocol.EveryStepComesNearer | src/server.c:806-840 | after that every step of run that no signal caused brings it nearer to its end |
| StopProtocol.RunIsNeverBlocked | src/server.c:806-840 | until it has ended run can always take such a step |
| StopProtocol.RunEnds | src/server.c:806-840 | every trace behind stop has at most 30 steps and two for each signal, and only at its end is run without a step |
| StopProtocol.AnInterruptedWaitIsResumed | src/server.c:812-814 | a signal does not end the loop: unless the flag was cleared meanwhile the next step takes it back to the very wait |
| StopProtocol.OnlyAFailedWaitEndsRun | src/server.c:806-840 | as long as stop has not been called, in every interleaving, the flag stays set and the loop has ended only behind a wait that failed; otherwise it can go on |
| StopProtocol.TwoLateClientsArePossible | src/server.c:806-840 | the bound is sharp: a run in which two clients get in |

## Left out

- Doubles: numbers are exact reals, so rounding, overflow to infinity, NaN and the locale's decimal point are not modelled; strtod is modelled as the exact value of the longest decimal prefix.
- Printer.PrintBuffer.PrintNumber: numbers that are not 32-bit integers take the `%1.15g` branch, whose text is floating point formatting.
- Printer.PrintBuffer.PrintValue: no tree with such a number, for the same reason.
- Printer.PrintBuffer.PrintArray: no array with such a number.
- Printer.PrintBuffer.PrintObject: no object with such a number.
- Printer.PrintTree: no tree with such a number; `cJSON_PrintBuffered` and hooks without realloc are left out too.
- Printer.PrintPreallocated: no tree with such a number.
- JsonGrammar.ParserIsComplete: no numbers of more than 63 bytes, of which the code reads only the first 63 (JsonNumeral.LongNumberIsCut).
- JsonSoundness.AcceptedTextStands: inside strings and numerals the shape is what parse_string and parse_number make of them; which odd escapes and numerals they tolerate beyond the grammar is not spelled out.
- Comparison.CompareWithCopy: no tree with such a number, because the comparison of doubles is tolerant there.
- cJSON kinds: `cJSON_Raw`, references, constant keys and nodes without strings are left out, and so are null arguments.
- Memory: allocation always succeeds; `free`, leaks and reuse of freed nodes are not modelled.
- Case-insensitive lookup and comparison: they would repeat the case-sensitive ones with another string comparison.
- SiblingList.GetObjectItem: only objects and lists whose nodes carry no key, because the children of an array keep a key they were given elsewhere and the specification by value does not show it.
- SiblingList.LinkLast: the item's `next` must be null; with another `next` the source would hang the rest of a foreign list below the container.
- SiblingList.AddItemToArray: the same.
- SiblingList.AddItemToObject: the same.
- SiblingList.InsertItemInArray: the same, but only when the index lies behind the end.
- Comparison.Compare: two different nodes that share nodes are not compared, because the shortcut for identical nodes below the roots would matter then.
- Stream.IoBuf.ReadLine: the temporary line is a sequence; the doubling of its allocation is not modelled.
- EventIo.WriteEvent: a missing type, and data or payloads of more than 2^31 - 1 bytes, are not modelled.
- Client.Conn.TranscribeChunk: chunks of 2^30 samples or more, whose length would not print with `%d`.
- Client.Conn.TranscribeStreamed: the same for each chunk.
- Trees between the layers: server and client handle data as values, which Import and Export turn into heap trees and back; the calls that build each event's tree node by node are represented by Import.
- ServerMachine.AnsweredExactlyWhen: engines are deterministic functions of a state they carry along; a callback that consults the outside world is covered by putting what it sees into that state.
- Format fields outside the range of an int: the conversion is undefined in C; the model uses the nearest bound.
- Real time: the 30 second receive timeout is a read that fails, the one second drain timeout an optional failure at an event boundary.
- Session.SessionRefinesDirectCalls: the operations' requests must be C strings that fit the printer, because a client function whose request cannot be written returns an error and is no completed operation; socket buffers are unbounded, so a full one that blocks a writer is not modelled; a drain that times out in the middle of an event, a server that is stopped and a connection that fails are covered by the lifecycle results only.
- Server writes: `handle_client` ignores whether a reply could be written, and so does the model.
- StopProtocol.RunEnds: the handling of an accepted client is one step, which is to say that it returns.
- StopProtocol.AtMostTwoLateClients: the poll() variant of the loop, several calls of stop and a second call of run are not modelled.
- Sockets, `setsockopt`, signals, logging, configuration files, the Piper and sherpa wrappers and the command line tools.

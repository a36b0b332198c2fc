# ESP32 connector and fare ledger, modelled in Dafny

This project models the two pieces of logic in the ticket-machine web client.

**`ESP32Connector`** (`script.js`) is the browser-side connector to an ESP32 board over Web Serial.
- Outbound, `sendCommand` refuses to run without a connection and a writer. Otherwise it writes one frame `CMD:<name>|DATA:<payload>|END\n`. Ten typed wrappers fix the name and build the payload.
- Inbound, `processIncomingData` splits each chunk the reader yields on `'\n'` and skips lines that `trim()` empties.
  - It classifies each remaining line by the first of the prefixes `NFC:`, `STATUS:`, `TICKET:` and `ERROR:` that it carries.
  - It passes the line to that prefix's handler, then echoes it to `updateUI`.
  - The NFC handler calls the optional NFC callback with the body. A body `UID:<uid>` records the UID and raises `nfcDetected`.
  - The STATUS handler raises `statusUpdate`.

**The fare page** (`js/script.js`) keeps today's amount and transaction count and one bucket per weekday. `selectFare` adds a fare to today's figures and to today's bucket, then shows the week's total as the sum of the buckets.

The model has six modules.
- `Wrappers`: `Option` and `Result`.
- `Text`: the JavaScript string operations the connector uses, over `seq<char>`. These are `startsWith`, `substring`, `trim`, `split('\n')`/`join('\n')` and integer rendering.
- `Outbound`: the frame, and the command each wrapper sends. It also defines the inverse readings that a receiver would apply: `ParseFrame`, `DecodeCommand` and `ReadCommandFrame`.
- `Inbound`: the specification of one chunk, line by line.
- `Connector`: the class `Esp32Connector`. Its methods change the connection flags, the log of written frames, the log of inbound observations and the last-seen card UID. The sending and inbound methods are proved against the `Outbound` and `Inbound` functions; `Connect` and `Disconnect` state the flags they leave.
- `FareLedger`: the class `Ledger`, with the weekly map and its total.

**Members the class never defines.** The per-line callback calls four members that the class does not provide. They are `nfcCallback` (null after construction), `handleTicketMessage`, `handleErrorMessage` and `updateUI`.
- `Inbound.Hooks` records which of the four a page has attached.
- `Inbound.AsWritten` is the class on its own, with none of them.
- Calling a missing method throws a TypeError. The throw leaves the `forEach` over the chunk and ends in `readData`'s catch, which stops the read loop.
- The model keeps this behaviour. Such a line aborts the chunk: what its handler already did stays done, the line is not echoed, no later line is handled, and the read loop stops.
- A member the page does attach is taken to return normally (see "## Left out").

Browser outcomes become parameters:
- whether `connect` gets a port and opens it (`PortOutcome`);
- whether a write succeeds (`writeOk`);
- what each `reader.read()` yields (`ReadResult`);
- the weekday `Date.getDay()` returns (`day`, 0 = Sunday).

## Model

| member | source | states |
|---|---|---|
| Text.SplitLines | script.js:99 | `split('\n')` always yields at least one piece, no piece holds a newline, and joining the pieces with newlines gives back the chunk |
| Text.SplitFirstLine | script.js:99 | splitting a text that opens with a newline-free line gives that line, then the pieces of the rest |
| Text.SplitJoin | script.js:99 | splitting the newline-join of newline-free pieces gives back exactly those pieces |
| Text.TrimEmptyIff | script.js:102 | `line.trim() === ''` holds exactly when every character of the line is ECMAScript whitespace |
| Text.IntDecimalRoundTrip | script.js:161 | the decimal text a template literal gives an integer below 10^21 in magnitude reads back as that integer |
| Outbound.ParseFrameOfFrame | script.js:68 | a command frame whose name holds no bar character is read back as exactly that name and payload |
| Outbound.FrameIsOneLine | script.js:68 | a frame's only newline is its final character, when name and payload hold none |
| Outbound.IssuePayloadRoundTrip | script.js:161 | the payload `type,quantity` of `issueTicket` gives back both the type (even one holding commas) and the quantity |
| Outbound.DecodeCommandRoundTrip | script.js:147-187 | each typed command is recovered from the fixed name and payload its wrapper sends, so no two typed commands share a wire form |
| Outbound.CommandFrameRoundTrip | script.js:147-187 | every command's frame reads back as that command |
| Inbound.ClassifyIff | script.js:102-115 | a line is blank, NFC, STATUS, TICKET or ERROR exactly when it is all whitespace or carries that prefix: the order of the tests never decides |
| Inbound.PrefixesExclusive | script.js:107-115 | no line carries two of the four prefixes, and no blank line carries any |
| Inbound.NfcUid | script.js:129-130 | an NFC body names a UID exactly when it starts with `UID:`, and the UID is the rest of the body |
| Inbound.HandleLineThrows | script.js:101-119 | a line throws exactly when it is non-blank and `updateUI` is missing, or it is a TICKET/ERROR line whose handler is missing (attached members taken to return normally); a blank line causes nothing |
| Inbound.LineEchoes | script.js:102-118 | a line is echoed exactly when it is non-blank and does not throw, then exactly once and as the last thing it causes |
| Inbound.FirstAbort | script.js:101-119 | the index of the first line that throws: every line before it does not throw |
| Inbound.AbortIsFinal | script.js:101-119 | once a line has thrown, the later lines of the chunk change nothing |
| Inbound.RunLinesStopsAtFirstAbort | script.js:101-119 | a chunk is abandoned exactly when some line throws; the lines before the first such line are handled in full, that line is handled up to its throw, and nothing after it is handled |
| Inbound.ProcessChunkEmpty | script.js:99-102 | an empty chunk is one blank line and changes nothing |
| Inbound.EchoesAreNonBlankLines | script.js:99-118 | the echoes of a chunk are its non-blank lines before the first line that throws, each once and in input order |
| Inbound.BlankLinesHaveNoEffect | script.js:102 | handling a chunk without its blank lines gives the same observations, UID and outcome |
| Inbound.WithoutUpdateUI | script.js:118 | without `updateUI` nothing is ever echoed, and a chunk is abandoned exactly when it has a non-blank line |
| Inbound.AsWrittenChunk | script.js:98-120 | with the class as written, no chunk is echoed, and any chunk with a non-blank line is abandoned |
| Inbound.FullHooksEchoEveryLine | script.js:98-120 | with all three methods present (and returning normally), no chunk is abandoned, and the echoes are exactly the non-blank lines, in order |
| Inbound.StatusChunkWithoutUpdateUI | script.js:109-118 | without `updateUI`, a one-line STATUS chunk raises its `statusUpdate` and is then abandoned |
| Inbound.TicketChunkWithoutHandler | script.js:111-112 | without `handleTicketMessage`, a chunk of any length opening with a TICKET line causes nothing, and none of its later lines is handled |
| Inbound.AsWrittenStatusChunk | script.js:118 | the class as written, given `STATUS:READY\n`, raises `statusUpdate("READY")`, echoes nothing and abandons the chunk |
| Inbound.MissingTicketHandlerChunk | script.js:112 | with `updateUI` but no ticket handler, `TICKET:T1\nSTATUS:OK` causes nothing, and the STATUS line is never handled |
| Inbound.NfcLine | script.js:122-134 | an `NFC:<body>` line gives the callback (if any) the body; a `UID:<uid>` body sets the last-seen UID and raises one `nfcDetected(uid)`; any other body leaves the UID alone and raises none; then the echo, or a throw without `updateUI` |
| Inbound.StatusLine | script.js:136-139 | a `STATUS:<s>` line raises exactly one `statusUpdate(s)`, no `nfcDetected`, leaves the UID alone, then the echo |
| Inbound.TicketLine | script.js:111-112 | a `TICKET:` line throws at once without `handleTicketMessage`, causing nothing; with it, the handler runs before the echo; the UID is untouched |
| Inbound.ErrorLine | script.js:113-114 | an `ERROR:` line throws at once without `handleErrorMessage`, causing nothing; with it, the handler runs before the echo; the UID is untouched |
| Inbound.LastDetectedOfNfcEvents | script.js:124-133 | an NFC body moves the last-seen UID exactly to the UID it names, if any |
| Inbound.LastDetectedOfLine | script.js:101-119 | one line moves the last-seen UID exactly as its own `nfcDetected` event says, whether or not it throws |
| Inbound.UidIsLastDetected | script.js:129-133 | after a chunk, `lastCardUID` is the UID of the last `nfcDetected` raised, or the earlier one when none was |
| Connector.StoppedIsFinal | script.js:82-92 | once the read loop has ended, no later read result changes anything |
| Connector.RunningMeansNoEnd | script.js:83-87 | a read loop still running saw neither the end of the stream nor a failed read |
| Connector.Esp32Connector.constructor | script.js:3-12 | a new connector is disconnected, holds no port, reader or writer, has baud rate 115200 and no callback, and has written and observed nothing |
| Connector.Esp32Connector.Connect | script.js:14-42 | a refused port changes nothing; a port that fails to open stays assigned but the connector otherwise stays as it was; an opened port gives reader and writer, sets the connection and starts the read loop; the reply is success with "Connected successfully" or failure with the error's message |
| Connector.Esp32Connector.Disconnect | script.js:44-61 | afterwards the connector is disconnected, holds no port, and the read loop has ended |
| Connector.Esp32Connector.SendCommand | script.js:63-78 | without a connection and a writer it fails with "Not connected to ESP32" and writes nothing; otherwise it appends exactly the one frame of the name and payload (payload defaulting to "") when the write succeeds and replies whether it did, leaving the connection flag alone |
| Connector.Esp32Connector.StartNfcSearch | script.js:147-149 | sends `NFC_START` with an empty payload, under the guard of `sendCommand` |
| Connector.Esp32Connector.StopNfcSearch | script.js:151-153 | sends `NFC_STOP` with an empty payload |
| Connector.Esp32Connector.ReadNfcCard | script.js:155-157 | sends `NFC_READ` with an empty payload |
| Connector.Esp32Connector.IssueTicket | script.js:160-162 | sends `TICKET_ISSUE` with payload `type,quantity`, defaulting to `single` and 1 |
| Connector.Esp32Connector.ReprintTicket | script.js:164-166 | sends `TICKET_REPRINT` with the ticket id as payload |
| Connector.Esp32Connector.CancelTicket | script.js:168-170 | sends `TICKET_CANCEL` with the ticket id as payload |
| Connector.Esp32Connector.OpenCashDrawer | script.js:173-175 | sends `DRAWER_OPEN` with an empty payload |
| Connector.Esp32Connector.PrintTestPage | script.js:177-179 | sends `PRINT_TEST` with an empty payload |
| Connector.Esp32Connector.RebootSystem | script.js:181-183 | sends `SYSTEM_REBOOT` with an empty payload |
| Connector.Esp32Connector.GetSystemInfo | script.js:185-187 | sends `GET_INFO` with an empty payload |
| Connector.Esp32Connector.HandleNfcMessage | script.js:122-134 | the callback, if set, receives the text after `NFC:`; a `UID:` body sets `lastCardUID` and raises `nfcDetected`, and any other body leaves both alone |
| Connector.Esp32Connector.HandleStatusMessage | script.js:136-139 | raises exactly one `statusUpdate` with the text after `STATUS:` |
| Connector.Esp32Connector.HandleTicketMessage | script.js:112 | throws exactly when the page has not attached the method, and then records nothing |
| Connector.Esp32Connector.HandleErrorMessage | script.js:114 | throws exactly when the page has not attached the method, and then records nothing |
| Connector.Esp32Connector.UpdateUI | script.js:118 | echoes the line, or throws exactly when the page has not attached the method |
| Connector.Esp32Connector.ProcessLine | script.js:101-119 | the per-line callback causes exactly `HandleLine`'s observations, throws exactly when it does, and moves `lastCardUID` as `UidAfter` says |
| Connector.Esp32Connector.ForEachLine | script.js:101-119 | the loop over the lines causes exactly what `RunLines` specifies and stops at the first line that throws |
| Connector.Esp32Connector.ProcessIncomingData | script.js:98-120 | one chunk causes exactly what `ProcessChunk` specifies, leaves `lastCardUID` at its result, and reports whether it was abandoned |
| Connector.Esp32Connector.ReadStep | script.js:83-91 | the end of the stream or a failed read stops the loop and changes nothing else; an empty chunk is skipped; any other chunk is processed, and the loop stops exactly when the chunk is abandoned |
| Connector.Esp32Connector.ReadData | script.js:80-96 | the read loop reaches exactly the state `ReadLoop` specifies for the results read, and never changes the connection flag |
| FareLedger.InitialWeekly | js/script.js:3-5 | with nothing stored, the weekly map has exactly the seven day keys, all at zero |
| FareLedger.InitialTotal | js/script.js:3-5 | with nothing stored, the week's total is zero |
| FareLedger.AddFare | js/script.js:16-18 | a fare grows only today's bucket, by the fare; every other bucket is unchanged and the keys stay the seven days |
| FareLedger.SumOverUpdate | js/script.js:25 | changing one bucket moves the sum over distinct keys by exactly the change |
| FareLedger.AddFareTotal | js/script.js:24-25 | one fare grows the week's total by exactly the fare, whichever day it falls on |
| FareLedger.Ledger.constructor | js/script.js:1-5 | the page starts with today's amount and count at zero and the initial weekly map |
| FareLedger.Ledger.RecordFare | js/script.js:13-25 | today's amount grows by the fare and the count by one; only today's bucket changes; the shown total is the bucket sum, grown by exactly the fare; the shown texts are `₹<amount>`, `<count> transactions` and `₹<total>` |

## Left out

- `connect`'s serial plumbing is not modelled: `requestPort`, `open`, the text encoder/decoder pipes and `getReader`/`getWriter` (script.js:17-30). Its outcome is the parameter `PortOutcome`, and the port, reader and writer are presence flags.
- `disconnect`'s awaited `cancel`/`close` calls are not modelled, and neither are their failures (script.js:45-57). The model takes the path on which they succeed.
- `Connector.Esp32Connector.Disconnect`: the reader and writer fields are not cleared, as in the source, so a later `sendCommand` is refused only because the connection flag is false.
- Concurrency is not modelled. That covers the interleaving of `readData` with other calls, the concurrent `sendCommand` calls, and the unused `commandQueue`/`isProcessing` fields (script.js:9-10). `readData` is modelled as a sequential loop over the read results it is given.
- `console.log`/`console.error`, the timestamp of `nfcDetected`, and `CustomEvent`/`document.dispatchEvent` are not modelled; each dispatch is an entry in the `events` log (script.js:72, 104, 132, 141-144).
- Text is modelled as `seq<char>`, one element per character. The source's UTF-16 code units are not modelled, and neither is the decoding of bytes into text.
- Cross-chunk reassembly is not modelled, because the code does not do it: a line cut by a chunk boundary is handled as two lines.
- `service-worker.js` is not part of this model. It only caches files and intercepts fetches.
- On the fare page, the DOM writes, the `status` texts, `localStorage` persistence, the 800 ms `setTimeout`, page navigation (`openWeekly`, `goBack`) and the weekly page rendering are not modelled (js/script.js:8-9, 12, 20, 27, 31-43).
- The weekday is a parameter 0..6, not `new Date().getDay()`.
- Connector.Esp32Connector.IssueTicket: the quantity is an integer, and its text is exact only below 10^21 in magnitude. JavaScript renders larger numbers in exponent form (`1e+21`). Non-integer and string quantities are not modelled either, so two string quantities that produce the same payload (`issueTicket('a', '1,2')` and `issueTicket('a,1', '2')`) cannot arise in the model.
- Inbound.HandleLineThrows: a callback or method the page attaches (`nfcCallback`, `updateUI`, `handleTicketMessage`, `handleErrorMessage`) is assumed to return normally. One that throws would abandon the chunk and stop the read loop just as a missing one does (script.js:93-95, 108-118, 125); the model does not capture that.
- Inbound.FullHooksEchoEveryLine: "no chunk is abandoned" holds under the same assumption that the attached members return normally.
- `FareLedger.Ledger.RecordFare`: fares are integers, not JavaScript floating-point numbers, so rounding in the sums is not modelled.
- `FareLedger.WeeklyTotal`: a stored weekly map lacking some day keys is not modelled; the map always has exactly the seven keys.
- The code and its intended design differ in two places, and the model follows the code in both:
  - A failure in handling one line is not isolated to that line. It abandons the rest of the chunk and stops the read loop.
  - TICKET and ERROR lines are passed to page-supplied methods, not raised as events of their own.
- `Connector.Esp32Connector.ReadData`: after the loop ends, the connection flag is left as it was, as in the source; nothing reconciles it with the stopped loop.

## Findings

| source | as written | input that shows it | evidently intended | confidence | as-written member | corrected member |
|---|---|---|---|---|---|---|
| script.js:118 | every non-blank line is passed to `this.updateUI`, which the class never defines, so the first non-blank line of every chunk throws, nothing is echoed, and the read loop stops | the chunk `STATUS:READY\n` read by a connector built with `new ESP32Connector()` | every non-blank line echoed once, in order, and the read loop kept running | medium (a page could attach `updateUI` to the instance); not executed | Inbound.AsWrittenStatusChunk | Inbound.FullHooksEchoEveryLine |
| script.js:111-114 | `TICKET:` and `ERROR:` lines go to `handleTicketMessage` and `handleErrorMessage`, which the class never defines, so such a line throws before its echo and the rest of the chunk is lost | the chunk `TICKET:T1\nSTATUS:OK` with `updateUI` attached but no ticket handler: the STATUS line is never handled | TICKET and ERROR lines handled and echoed like the others, with the later lines of the chunk still handled | high; not executed | Inbound.MissingTicketHandlerChunk | Inbound.FullHooksEchoEveryLine |

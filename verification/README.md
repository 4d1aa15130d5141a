# A model of the Jev gateway

This project models the parts of the Jev gateway and its companions that keep state or transform data,
and proves what they promise. The gateway sits between a client and a language model: it rewrites live
Server-Sent-Event streams, remembers routing decisions between calls, edits requests in place, and keeps
bounded logs and tables about what it did.

`dafny verify dfyconfig.toml` checks the whole project.

## What is modelled

**The stream rewriter.** `MarkerSpec` gives its meaning: one step per event block (`Step`), one step per
character (`Feed`). `SummaryMarker` is the object with its buffer, current block, held event, header sets
and remembered response id; each of its methods is proved equal to that meaning. `MarkerOrder` replaces
the held event by a reference that looks one block ahead and shows that nothing is lost, reordered or
changed beyond decorated texts and the terminal id. `MarkerText` carries this to texts, `Assembler` and
`CommutingSquare` compare assembling the relayed stream with rewriting the assembled one,
`SummaryAgreement` and `HeaderAgreement` compare the streamed deltas with every later full copy
(`Insertions` is the combinatorics of marks in a text they share, `HeaderMemory` shows that the memory of a
message is a function of the stream's events, `HeaderStreams` holds concrete streams that disagree),
`NamedEvents` says what becomes of streams of events by their names, `Signatures` shows what comes back from
replayed history (`SignaturePatterns` gives its two patterns as the texts they match), and `ChunkedRelay` puts the relay loop on the
wire and says what a client reads from it. `UsageCounts` is the allowlist of reported token counters.

**Routing memory.** `CacheKeys` is what the two session tables share. `RouteLease` and `CacheAffinity` are the
two locked tables as classes, with histories of arbitrary interleaved operations; `Classify` is what tells a lease that a step is clean.

**Requests.** `RoutePayload` edits a request object in place and undoes the previous attempt by object
identity.

**Companions.** `Observations` (the bounded dashboard table), `SwitchAccounting` (the usage reports; `ReportLaws` reads them off the log's entries),
`OptimisticValues` (the settings hook of the Control Center), `LogRotation` (the private log and its
reader), `GitParsers` and `CodeSpan` (the maintainer script), `RoutingPolicy` (probability validation).

## Conventions

- JSON values are `Json`: objects are maps keyed by the fields the code uses and all others. Numbers are
  integers. `Codec` is the JSON printer and parser as a pair of functions; `Codec.Lawful` says that
  parsing inverts printing on objects, that printed objects stand between braces and contain no line
  break or carriage return, and that the end-of-stream marker is not JSON. Text is already decoded.
- A value of the wrong shape reads as a value without fields (a `part` or `item` that is a non-empty
  string, an unhashable item id); the Python code raises there. It also raises on an added message without an
  `id` key when a message without one has a header part (`HeaderMemory.AddedMessageRaises`); the model goes on
  there as if the id were null, so its theorems describe the streams in which that does not occur.
- Lines end with a line feed. The rewriter's own framing drops one carriage return before it, the reader
  of its output does not.
- The assembler cuts the text with `splitlines`, on carriage returns and other separators too; the model cuts
  at line feeds only. A carriage return before one is stripped with the white space around the JSON text.
- A message is known by its item id or, without one, by its output position. A client appends text deltas to
  a part and starts it anew with an added part or item that has text for it.
- The rewriter adds blank lines behind each block and reprints the JSON of the blocks it edits, so
  its pass-through is exact on events, not on bytes. The theorems compare sequences of non-empty blocks, as
  section 9.2.6 of the WHATWG HTML standard reads them.
- The commuting square is about streams that end on a block boundary, because `flush` emits an unfinished
  block unprocessed while the assembler reads it, and whose blocks have at most one data field, written
  `data: ` and without white space around the JSON text, because the assembler reads more spellings than
  the rewriter.
- A fingerprint or scope is the value that the code hashes. Regular expressions for errors are a function
  parameter; the two patterns for route annotations are written out.
- Times, percentages, probabilities and credits are exact rationals.

## Where the code differs from its own description

- Reasoning content is said never to receive the header (server/jev_server.py:1016), but a finished text gets
  it whatever its part is, unless the header of its message went to another part:
  `HeaderAgreement.FinishedTextHeaded`, with a concrete event in `HeaderStreams.ReasoningContentHeaded`. No
  other event heads anything but output text: `HeaderAgreement.OnlyOutputTextHeaded`.
- Done events and full items are said to carry the same prefix as the stream (server/jev_server.py:1013-1015).
  For every part of every message `HeaderAgreement.MessageTextsAgree` says exactly when a copy equals what was
  shown, from three facts about any stream: a delta is headed when nothing of its message was streamed before
  (`HeaderAgreement.DeltaLeavesSigned`), a finished text when no other part has the header
  (`HeaderAgreement.FinishedTextHeaded`), a text in an item when it is the first of the item. They disagree
  when a text begins with the header while its first delta does not (`HeaderStreams.HeaderAcrossDeltas`), when
  the part streamed first is not the first of the item (`HeaderStreams.PartsOutOfOrder`), when another part's
  text came finished before (`HeaderStreams.FinishedBeforeStreamed`), and when a message begins with text in
  its item and goes on with deltas that do not name the item (`HeaderAgreement.AddedTextThenDelta`,
  `HeaderStreams.HeadedTwice`).
- The tag is said to reach the last delta and the matching done events alike (server/jev_server.py:1009-1010).
  `SummaryAgreement.SummaryTextsAgree` says for any stream when a copy equals the concatenated deltas: a text
  that is empty or holds the marker, when no delta of it is tagged; any other, when exactly one is and the tag
  ends up behind the text. So they disagree when the last delta is empty or not directly followed by its
  closing event (`SummaryAgreement.EmptyLastDelta`), when the marker is spread over deltas
  (`SummaryAgreement.MarkerAcrossDeltas`), and when a part is closed and goes on
  (`SummaryAgreement.ClosedTwice`).
- Route annotations are said to be removed before forwarding (server/jev_server.py:890), but a message without
  a role is headed and never cleaned: `Signatures.ReplayedMessage`, concretely `Signatures.RolelessKeepsHeader`.
  A header that shows an effort outside the five known ones (a request relayed in shadow mode or with the
  router off may carry one) is not recognized either: `Signatures.HeaderRecognized`,
  `Signatures.WordRecognized`, `Signatures.MinimalStays`.
- A stream that ends early is meant to end with an error event, but one that ends inside a line has that event
  glued to the line: `ChunkedRelay.ErrorEventRead`, concretely `ChunkedRelay.ErrorEventLost`. (The client ends
  lines at line feeds. One that also ends them at a lone carriage return, as section 9.2.6 of the WHATWG HTML
  standard has it, does read the event of a stream that ends with a line feed and a carriage return.)

## Limits of the printed forms

- A code span shows the escaped text unless that is empty or made of spaces only
  (`CodeSpan.CodeSpanRoundTrip`), and the text itself only when nothing in it is escaped
  (`CodeSpan.CodeSpanShowsText`). The escaped form determines the text exactly when the text neither holds an
  escaped character nor spells out an escape (`CodeSpan.EscapeDetermines`, concretely `CodeSpan.EscapeCollides`).

## Model

| member | source | states |
|---|---|---|
| Transducer.RunChunksConcat | server/jev_server.py:1257-1271 | a machine that reads characters writes the same for every way of cutting its input into chunks |
| MarkerSpec.ChunkingInvariance | server/jev_server.py:1257-1271 | feeding the chunks of a stream gives the output and the final state of one feed of the whole, wherever the cuts are, also between CR and LF |
| MarkerSpec.FeedLine | server/jev_server.py:1257-1271 | one turn of the line loop is the character-wise reading of a line and its line feed |
| SummaryMarker.SummaryMarker.constructor | server/jev_server.py:1027-1038 | a new rewriter starts in the initial state |
| SummaryMarker.SummaryMarker.TagSummary | server/jev_server.py:1131-1139 | the loop tags every summary part of a reasoning item and changes nothing else |
| SummaryMarker.SummaryMarker.SignMessageItem | server/jev_server.py:1096-1106 | the loop heads the first part with text of an assistant message, and notes its index for the message unless one is noted |
| SummaryMarker.SummaryMarker.SignDoneEvent | server/jev_server.py:1083-1094 | a finished text is headed exactly when its part is the noted header part of the message |
| SummaryMarker.SummaryMarker.TagEvent | server/jev_server.py:1131-1149 | item and response of an event are rewritten item by item, threading the noted header parts |
| SummaryMarker.SummaryMarker.ReleaseHeld | server/jev_server.py:1200-1220 | the held block leaves tagged exactly when the event in hand closes its summary part |
| SummaryMarker.SummaryMarker.ProcessTerminal | server/jev_server.py:1236-1252 | a terminal event releases the held block, records type and usage, and leaves with the announced id and rewritten items |
| SummaryMarker.SummaryMarker.ProcessBlock | server/jev_server.py:1151-1255 | the whole dispatch on one block is the reference step: same new state, same emitted text |
| SummaryMarker.SummaryMarker.Feed | server/jev_server.py:1257-1271 | the buffering loop is the character-wise reference: same state, same output |
| SummaryMarker.SummaryMarker.Flush | server/jev_server.py:1273-1281 | held block, unfinished block and partial line leave in this order, unprocessed |
| MarkerOrder.WrittenThenHeld | server/jev_server.py:1151-1255 | after any run the written blocks followed by the held one are the input blocks in order, each rewritten as a one-block look-ahead says |
| MarkerOrder.RewrittenAt | server/jev_server.py:1151-1255 | an output block depends on its own block, the next block and the context before it only |
| MarkerOrder.RewriteOneKeepsShape | server/jev_server.py:1062-1149 | a block keeps its number of lines, its non-data lines and its event type; every data line of an edited block carries the new event; only texts gain the tag behind them or, where a header may be, the header before them, and a terminal response its id |
| MarkerOrder.FirstDataLine | server/jev_server.py:1052-1060 | the event of a block is the object on its first data line, and there is none when that line holds something else |
| MarkerOrder.TerminalRepeatsCreatedId | server/jev_server.py:1158-1161 | every terminal event with a response carries the id of the last response.created before it |
| UsageCounts.CountUsage | server/jev_server.py:918-940 | the two loops compute the known counters |
| UsageCounts.Reports | server/jev_server.py:918-940 | each of the six counters is reported when it is known, a detailed one before the flat one of the same name; no other name, no negative count, and null rather than zeros when none is known |
| MarkerOrder.LastTerminalRecorded | server/jev_server.py:1236-1240 | the terminal type and the usage counters reported after a stream are those of its last terminal event |
| NamedEvents.EndRecorded | server/jev_server.py:1236-1240 | for each of response.completed, response.incomplete and response.failed, behind a response.created and however the stream is cut: that name and the usage of its response are recorded, and no error event follows |
| NamedEvents.EndRead | server/jev_server.py:1151-1252 | the client reads the announcement as it came and then the end under its own name, whose response has the announced id and every output item rewritten, and is otherwise the one received |
| NamedEvents.EndAssembled | server/jev_server.py:1284-1312 | assembling that stream gives the response of its last event as it came, and assembling what the client reads gives it with the announced id and rewritten items |
| NamedEvents.ErrorEventAssembled | server/jev_server.py:1826-1828 | a stream that ends without one of the three events: whoever assembles what the client reads is told the error that the relay appended, whatever came before |
| NamedEvents.FirstDeltaHeaded | server/jev_server.py:1079-1181 | of any two text deltas the first takes the header, and the second does unless it is of the same message: of the same item or, when neither names one, of the same output index, where a missing one is 0 |
| NamedEvents.FinishedBehindDelta | server/jev_server.py:1083-1186 | a finished text behind a delta of its message takes the header exactly when it is of the same content part, where a missing index is 0 |
| NamedEvents.AddedPartHeaded | server/jev_server.py:1187-1194 | a response.content_part.added with output text takes the header of its message, and the following delta of the message passes unchanged |
| NamedEvents.SummaryTextClosed | server/jev_server.py:1195-1220 | a delta and the end of its summary text both leave with the tag once behind, unless they are empty or hold it |
| NamedEvents.SummaryPartClosed | server/jev_server.py:1195-1220 | a delta and the response.reasoning_summary_part.done behind it both leave with the tag once behind, unless they are empty or hold it |
| NamedEvents.SummaryItemClosed | server/jev_server.py:1195-1231 | a delta and the finished reasoning item behind it leave with the tag once behind the delta and every summary text |
| NamedEvents.OtherPartClosed | server/jev_server.py:1195-1231 | the end of another summary part, or of another item, leaves the delta before it as it came |
| NamedEvents.OtherItemPasses | server/jev_server.py:1096-1139 | an item that is neither reasoning nor a message of the assistant or of nobody is never rewritten |
| MarkerText.ReadEmit | server/jev_server.py:1040-1042 | reading an emitted block back gives the block |
| MarkerText.FeedBlocks | server/jev_server.py:1257-1271 | framing and rewriting a text is reading its blocks and stepping through them, and the output reads back as the blocks of the steps |
| MarkerText.RelayedStream | server/jev_server.py:1257-1281 | for any stream and any chunks of it, reading outputs and flush gives exactly the rewritten blocks, then an unfinished block and a partial line as they came |
| Assembler.Assemble | server/jev_server.py:1284-1312 | the loop over the lines gives the answer that is stated of the events in the following rows |
| Assembler.Sorted | server/jev_server.py:1308-1308 | the collected indices in strictly increasing order, all of them and no other |
| Assembler.LastTerminalWins | server/jev_server.py:1302-1303 | the response collected is that of the last response.completed, response.incomplete or response.failed |
| Assembler.LastItemWins | server/jev_server.py:1300-1301 | of each output index the last finished item is kept |
| Assembler.LastErrorWins | server/jev_server.py:1304-1305 | the error event kept is the last one |
| Assembler.OnlyCollected | server/jev_server.py:1284-1303 | no item, no response and no error is kept that no event brought |
| Assembler.ResponseAsItCame | server/jev_server.py:1306-1309 | a last terminal response that has output, or a stream without finished items: the answer is that response as it came |
| Assembler.ResponseFilled | server/jev_server.py:1306-1309 | a last terminal response whose output is empty or missing, and some finished items: only its output is changed, to one element for each distinct index in increasing order, the last finished item of that index |
| Assembler.NoResponse | server/jev_server.py:1310-1312 | without a terminal response the last error event is the answer, and without one there is none |
| Assembler.WrongResponseRaises | server/jev_server.py:1306-1308 | a terminal response that is neither null nor an object raises |
| Assembler.CollectCommutes | server/jev_server.py:1284-1303 | collecting the rewritten events is rewriting what is collected from the raw ones |
| Assembler.FinishCommutes | server/jev_server.py:1306-1309 | filling an empty terminal output from the finished items commutes with tagging, heading and setting the id |
| CommutingSquare.LinesAreBlocks | server/jev_server.py:1284-1303 | assembling line by line sees exactly one event per canonical block, with or without carriage returns |
| CommutingSquare.StreamedResponse | server/jev_server.py:1221-1312 | assembling what the relay wrote is assembling what it received and then tagging, heading and setting the created id |
| SummaryAgreement.StreamedAfter | server/jev_server.py:1190-1220 | in any stream the concatenated deltas are the text if and only if no delta is tagged, and the text plus one tag if and only if exactly one is and the tag commutes with what is streamed behind it |
| SummaryAgreement.CopiesTagged | server/jev_server.py:1120-1149 | each full copy of a summary text (done, part, item, terminal response) is tagged where it stands |
| SummaryAgreement.SummaryTextsAgree | server/jev_server.py:1068-1071 | in any stream a full copy carries the tag unless its text is empty or holds the marker; it equals the streamed deltas if and only if such a text was streamed without a tag, and any other with a single one behind it |
| SummaryAgreement.ClosedOnceAgrees | server/jev_server.py:1190-1231 | in a stream that closes the part once, behind its deltas, they agree if and only if a text that carries the tag was streamed untagged, or the last delta of any other is not empty and directly closed |
| SummaryAgreement.EmptyLastDelta | server/jev_server.py:1195-1210 | a concrete stream with an empty last delta, whose deltas lack the tag of the full copy |
| SummaryAgreement.MarkerAcrossDeltas | server/jev_server.py:1068-1071 | a concrete stream whose deltas hold the marker only together: streamed twice, copied once |
| SummaryAgreement.ClosedTwice | server/jev_server.py:1195-1219 | a concrete stream that closes a part, goes on and closes it again: tagged twice, copied once |
| HeaderMemory.NoteStep | server/jev_server.py:1151-1194 | what one event does to the header state of any message: which part it gives the header to if none has it, and when the message counts as headed |
| HeaderMemory.StaysFresh | server/jev_server.py:1151-1194 | a message's header state is untouched by events that carry no text of it |
| HeaderMemory.StaysHeaded | server/jev_server.py:1151-1194 | a header once given stays on its part through every event |
| HeaderMemory.FirstTextHeads | server/jev_server.py:1163-1194 | with the first text of a message, be it a delta, an added part or an added item, the message is headed on that part |
| HeaderMemory.ContextKnowsHeaderPart | server/jev_server.py:1034-1035 | after any stream the noted header part of any message is the one the events gave it first, and the message counts as headed if and only if text of it was streamed |
| HeaderMemory.AddedMessageRaises | server/jev_server.py:1163-1170 | an added message ends the relay with a key error if and only if it has no id and carries text itself or an earlier item without an id did |
| HeaderAgreement.DeltaLeavesSigned | server/jev_server.py:1171-1181 | a delta of any stream gets the header if and only if nothing of its message was streamed before it |
| HeaderAgreement.BroughtAfter | server/jev_server.py:1163-1194 | every block of any stream brings for every part the text it brought, with the header exactly when it is the first delta of the message, an added part while no other part has the header, or the first part with text of an added item |
| HeaderAgreement.ShownAfter | server/jev_server.py:1163-1194 | in any stream what a client shows of any part is the text as it came if and only if no header is shown in it, and header and text if and only if a single one is and it commutes with what is shown before it |
| HeaderAgreement.CopiesSigned | server/jev_server.py:1083-1106 | every copy of every part is signed as it stands: a finished text when no other part has the header, a text in an item when it is the first of the item |
| HeaderAgreement.MessageTextsAgree | server/jev_server.py:1073-1106 | for every part, stream and full copy of it: the copy equals the shown text if and only if both have the header in front or neither has one |
| HeaderAgreement.IdentifiedTextsAgree | server/jev_server.py:1073-1106 | for a message streamed under its id: if and only if the block that opened the shown text put the header there exactly when the copy gained it |
| HeaderAgreement.OpensWithFirst | server/jev_server.py:1163-1194 | in a stream whose first text of a message is streamed, for a part that is started once, the header is shown in that part only, unless its first piece begins with it |
| HeaderAgreement.InOrderTextsAgree | server/jev_server.py:1073-1106 | there a copy of any part equals the shown text if and only if the part streamed first and the part signed in the copy agree on the header |
| HeaderStreams.HeaderAcrossDeltas | server/jev_server.py:1171-1181 | a concrete stream whose first delta is only the beginning of the header: shown twice, copied once |
| HeaderStreams.FinishedBeforeStreamed | server/jev_server.py:1171-1186 | a concrete stream in which one part comes finished before another is streamed: the delta is headed, its full copy is not |
| HeaderStreams.PartsOutOfOrder | server/jev_server.py:1096-1106 | a concrete stream that streams part 1 before part 0: both parts of the finished item differ from what was shown |
| HeaderAgreement.AddedTextThenDelta | server/jev_server.py:1163-1181 | after an added item with text, anywhere in a stream, a delta that names the item by its id passes as it came, and any other is headed unless its message was opened |
| HeaderStreams.HeadedTwice | server/jev_server.py:1163-1181 | a concrete message that is headed in its item and again in its first delta |
| HeaderAgreement.OtherPartsUnsigned | server/jev_server.py:1083-1094 | finished texts of the other parts of a headed message are not changed |
| HeaderAgreement.OneHeaderPerItem | server/jev_server.py:1096-1106 | in a full item exactly the first part with text is headed, also on the non-streaming path |
| HeaderAgreement.FinishedTextHeaded | server/jev_server.py:1083-1094 | a finished text, whatever the type of its part, leaves with the header if and only if no earlier event of the stream gave its message's header to another part; nothing else of the event changes |
| HeaderAgreement.OnlyOutputTextHeaded | server/jev_server.py:1013-1016 | no other event puts the header on anything but an output text part or the streamed delta of one, and events of no interest pass unchanged |
| HeaderStreams.ReasoningContentHeaded | server/jev_server.py:1183-1186 | a concrete finished reasoning part leaves with the header, by either of the two done events |
| SignaturePatterns.HeaderReads | server/jev_server.py:859-865 | the header of a decision reads: stars, the mark and name of the model, the effort, stars, two line feeds |
| SignaturePatterns.HeaderIs | server/jev_server.py:881-883 | the leading pattern matches exactly the texts that begin with a mark, a name, one of the six efforts and two line breaks in this form, and leaves what is behind |
| SignaturePatterns.TailIs | server/jev_server.py:884-886 | the trailing pattern matches exactly the texts made of a dash, a mark, a name and maybe an effort behind a dot, with white space between and around them |
| Signatures.HeaderMatches | server/jev_server.py:859-884 | the header of every policy model and effort is matched whole by the header pattern, whatever text follows |
| Signatures.HeaderRecognized | server/jev_server.py:859-884 | a header is recognized if and only if what stands in the place of the effort, up to the end of the header, begins with one of the six labels, the stars and two line breaks |
| Signatures.WordRecognized | server/jev_server.py:859-884 | for a word without stars: if and only if it is one of the five efforts or the word for none |
| Signatures.MinimalStays | server/jev_server.py:859-884 | the header of a call with effort "minimal" is not recognized |
| Signatures.StripTail | server/jev_server.py:885-887 | the text is cut at its leftmost trailing signature, and stays whole without one |
| Signatures.SignThenStrip | server/jev_server.py:1073-1077 | stripping a signed text gives the text if and only if it neither begins with this header nor ends with a legacy signature |
| Signatures.StripOne | server/jev_server.py:895-914 | an assistant item is cleaned text by text, and the changed texts are counted |
| Signatures.StripSignatures | server/jev_server.py:889-915 | all items are cleaned in place, only assistant items change, and the count is the number of changed texts |
| Signatures.TextsCounted | server/jev_server.py:889-915 | what is counted are the texts that changed, and no item changes that is not counted |
| Signatures.ReplayedMessage | server/jev_server.py:889-915 | a headed message replayed as history is the original message if and only if it has the role assistant and plain texts, or no role and begins with the header |
| Signatures.RolelessKeepsHeader | server/jev_server.py:894-896 | for every header, a concrete message without a role that comes back with it |
| ChunkedRelay.DecodeChunks | server/jev_server.py:1818-1825 | decoding written chunks by section 7.1 of RFC 9112 gives their payloads in order |
| ChunkedRelay.ZeroChunkEndsTheStream | server/jev_server.py:1819-1824 | a zero chunk ends the body for a decoder, so empty pieces must be skipped |
| ChunkedRelay.Relay | server/jev_server.py:1805-1830 | the body decodes to the encoded outputs of the rewriter and its flush, plus the error event when no terminal event was seen |
| ChunkedRelay.ErrorEventExactly | server/jev_server.py:1826-1828 | the error event is sent if and only if no complete block of the stream is a response.completed, response.incomplete or response.failed |
| ChunkedRelay.ClientReads | server/jev_server.py:1805-1830 | decoded and read as events, the body is the rewritten blocks, the unfinished block and the partial line, which the error event of a stream that ended early continues |
| ChunkedRelay.ErrorEventRead | server/jev_server.py:1273-1281 | the client reads the error event as an event of its own if and only if the stream did not end inside a line |
| ChunkedRelay.ErrorEventLost | server/jev_server.py:1826-1828 | a concrete stream cut inside a line, whose client reads no error event |
| RouteLease.TurnFingerprint | server/jev_server.py:713-730 | the loops compute the turn that the next rows describe |
| RouteLease.TurnIsLastUserItem | server/jev_server.py:713-730 | the turn of a list is the number of its user items with the text of the last one; there is none without a user item or when that one has no text |
| RouteLease.TextIsOneTurn | server/jev_server.py:713-730 | a plain text is a turn of one user item unless it is empty |
| RouteLease.SameTurn | server/jev_server.py:713-730 | two requests are in one turn if and only if they have as many user items and the same last user text |
| RouteLease.TurnEndsWithUserItem | server/jev_server.py:713-730 | items that are not from the user keep the turn, a user item always changes it |
| RouteLease.RouteLeases.RouteLease | server/jev_server.py:733-765 | one locked lookup: answer and new table |
| RouteLease.RouteLeases.RememberRouteLease | server/jev_server.py:768-804 | one locked store: removal, no change, or a new entry |
| RouteLease.LeaseSafety | server/jev_server.py:733-804 | over any interleaving a lookup returns a decision if and only if it was the scope's last effective store, by a completed call with a cache key and a longer lease, and every lookup since was a clean tool step of the same turn in time, for a tool chain with one constant tool |
| RouteLease.NeverOneCall | server/jev_server.py:750-753 | no table entry ever holds a one-call lease, so that branch of the lookup is dead |
| Classify.Classify | server/jev_server.py:454-512 | a step is errored if and only if a result of its whole contiguous batch is; its tool is that of the nearest call it answers |
| Classify.ToolIs | server/jev_server.py:472-478 | the tool of a result is the nearest call with its id, by the first 160 characters of its name, and there is none exactly when no call has it |
| Classify.ErrorsCounted | server/jev_server.py:494-510 | the errors of a batch are the number of its results whose stripped last 4000 characters match the error pattern |
| Classify.LookupClassified | server/jev_server.py:1566-1578 | a lease is only reused on a tool step none of whose results is an error |
| CacheAffinity.EvidenceOf | server/jev_server.py:682-709 | only a positive measured cached count is a hit, unknown usage has no percentage, and a percentage lies between 0 and 100 |
| CacheAffinity.CacheTable.CacheAffinity | server/jev_server.py:618-667 | one locked query: expired evidence is dropped, an empty scope removed, the rest answered |
| CacheAffinity.CacheTable.RememberCacheModel | server/jev_server.py:670-710 | one locked store: only successful calls of known models with a cache key count |
| CacheAffinity.AffinityIsFullLog | server/jev_server.py:618-710 | with one time to live per session and time not going back, the pruned table answers every query as a scan of all past successful calls would |
| CacheAffinity.ReportedModels | server/jev_server.py:618-667 | a query reports exactly the models whose last successful call is not older than the time to live, and as the last model that of the last successful call of all; it answers nothing exactly when every model is too old |
| CacheAffinity.ReportedEvidence | server/jev_server.py:656-709 | what is reported of a model is what its last successful call measured: hot exactly with a cached count above zero and within the input, warming with a count of zero, unknown otherwise, with its percentage, effort and age in whole seconds |
| CacheAffinity.ReportedContext | server/jev_server.py:651-654 | the context size is the input of the last successful call in thousands, or the estimate when that is unknown or below a thousand |
| CacheKeys.HasKeyIs | server/jev_server.py:624-626 | a key is usable exactly when it has a character other than white space |
| CacheAffinity.FallbackNeverTaken | server/jev_server.py:645-648 | while any model is fresh the stored last model is, so the lookup never has to choose one |
| RoutePayload.Payload.Apply | server/jev_server.py:959-1003 | one attempt: the previous update is gone, the new one is a fresh item just before the last user item or the effort stands in the request, all other items are kept |
| RoutePayload.Payload.Attempts | server/jev_server.py:1653-1665 | after any sequence of attempts the request is what the last attempt alone makes of the original, without the injected item it is the original, its reasoning keeps the other settings and is the original one exactly when an update was used, no effort was asked for, or it has that effort already |
| RoutePayload.UpdatePosition | server/jev_server.py:988-996 | exactly one update, directly before the last user item, between the original items in their order |
| RoutePayload.UpdateSent | server/jev_server.py:943-990 | an update is sent exactly to gpt-6-astra, to change one of the five efforts into another, in a request with a user item that is neither truncated nor context-managed nor holds an update or a compaction |
| RoutePayload.ReasoningRouted | server/jev_server.py:968-1002 | the other reasoning settings stay in every case; the reasoning is the original one exactly when an update is sent, no effort is asked for or it has that effort, and holds the effort otherwise |
| RoutePayload.OneTransport | server/jev_server.py:980-1000 | a requested effort is carried by exactly one of update item and request field |
| Observations.Store.Observe | server/dashboard.py:195-199 | an observation is inserted or replaces a row that is not newer, and the newest 1000 rows remain |
| Observations.StepNewest | server/dashboard.py:195-199 | trimming after inserting into the trimmed table is trimming after inserting into the full one |
| Observations.BoundedIsNewestOfFull | server/dashboard.py:195-199 | after any observations, re-sent and stale ones included, the table is a choice of the newest rows of the full history |
| Observations.ExactlyTheNewest | server/dashboard.py:195-199 | with distinct stamps an id is in the table, with its newest body, if and only if fewer than the limit are newer |
| Observations.FullKeepsNewest | server/dashboard.py:196-198 | the full history keeps of each id the newest observation, the later one of equal stamps |
| SwitchAccounting.PromptCacheUsage | server/report_routing.py:157-325 | the counters, session sets and shares of the loop are the tallies that the following rows describe, per model and in total |
| ReportLaws.SwitchesCounted | server/report_routing.py:178-192 | a switch is an entry on another model than the last routed call of its session, a revisit one whose session was on that model before; their numbers are those of such entries |
| ReportLaws.SwitchCounted | server/report_routing.py:194-270 | a switch adds the tokens of the first attempt on its model when they were measured, and else one unknown; any other entry adds nothing |
| ReportLaws.SessionsAt | server/report_routing.py:172-235 | the tracked sessions are those of the entries that have one, and those of a model the ones with a measured attempt on it |
| ReportLaws.TalliesAdd | server/report_routing.py:199-233 | the tallies of two logs add up |
| ReportLaws.AttemptCounted | server/report_routing.py:199-235 | what one attempt adds: observed with its tokens and its hit when they were measured, unknown otherwise, in the row of its model and in the total |
| SwitchAccounting.SwitchesMinusRevisits | server/report_routing.py:178-187 | switches minus revisits is the sum over sessions of distinct models minus one |
| SwitchAccounting.SwitchesSplit | server/report_routing.py:189-263 | switches, and revisits, are each observed or unknown, exactly |
| SwitchAccounting.RowsSum | server/report_routing.py:199-233 | the per-model rows add up to the totals in every column |
| SwitchAccounting.TalliesSane | server/report_routing.py:211-233 | hits stay within observed attempts and cached tokens within input tokens, in every row and total |
| SwitchAccounting.SharesAre | server/report_routing.py:241-325 | a rate is the part in percent of its whole, hits of the observed attempts and cached tokens of the input, and unknown exactly without a whole |
| SwitchAccounting.SharesSane | server/report_routing.py:248-325 | every rate, of a model, in total, of switches and of revisits, lies between 0 and 100 percent, or is unknown without a whole |
| SwitchAccounting.SessionsTracked | server/report_routing.py:178-246 | the sessions counted for a model, and those that routed, are among the tracked ones |
| SwitchAccounting.MeasuredUsage | server/report_routing.py:128-154 | native, priced and unknown attempts and the three credit sums are those over the default-speed attempts with a price; priced attempts are observed by the cache report, and the routed credits never exceed the all-Astra credits |
| SwitchAccounting.ReportsAgree | server/report_routing.py:128-272 | observed plus unknown attempts of the cache report are the native attempts of the usage report |
| SwitchAccounting.CreditsOrdered | server/report_routing.py:108-125 | the same usage never costs less on a larger model that has a rate |
| ReportLaws.PublishedRates | server/report_routing.py:110-126 | the credits of a million tokens of fresh input, cached input and output on each model; Terra has no rate |
| ReportLaws.HasPrice | server/report_routing.py:114-123 | a usage has a price exactly when its three counts are there and fit and no cache tokens were written |
| ReportLaws.CreditsAdd | server/report_routing.py:128-154 | the credits and counts of two logs add up |
| ReportLaws.LegacyCounted | server/report_routing.py:134-137 | the legacy calls are the entries without a list of attempts |
| ReportLaws.AttemptPriced | server/report_routing.py:128-154 | an attempt costs nothing unless it ran at default speed with a usage its model prices, and then the credits on its own model, on Sol or on Astra |
| OptimisticValues.Hook.MutateMany | router/apps/control-center/src/useOptimisticValues.ts:49-64 | a click gives its keys their next revisions, queues its write behind the last one and asks for the override |
| OptimisticValues.Hook.FinishAction | router/apps/control-center/src/useOptimisticValues.ts:65-85 | a write that was not saved asks for a rollback of its keys by revision |
| OptimisticValues.BatchingIsInvisible | router/apps/control-center/src/useOptimisticValues.ts:29-41 | rendering late or in batches gives the overrides that applying each update at once would |
| OptimisticValues.RolledBack | router/apps/control-center/src/useOptimisticValues.ts:75-84 | a failed write removes exactly the overrides of its keys that no later click changed, and leaves the other values |
| OptimisticValues.Refreshed | router/apps/control-center/src/useOptimisticValues.ts:29-41 | a refresh removes exactly the overrides that the authoritative values have caught up with |
| OptimisticValues.EveryRun | router/apps/control-center/src/useOptimisticValues.ts:25-88 | over every interleaving writes settle in click order, revisions count clicks, and overrides are current |
| OptimisticValues.OneAtATime | router/apps/control-center/src/useOptimisticValues.ts:64-86 | no two writes run at once, and a waiting one can start exactly when all earlier ones have ended, saved or failed |
| OptimisticValues.RenderedOverrides | router/apps/control-center/src/useOptimisticValues.ts:43-63 | at every moment a rendered override is the newest value among the clicks rendered so far, and of all clicks once none waits |
| OptimisticValues.Overrides | router/apps/control-center/src/useOptimisticValues.ts:25-88 | a rendered override is the newest requested value, an older failure never removes it, and when all writes have ended only keys whose newest write was saved have one |
| LogRotation.Clipped | server/local_runtime.py:50-52 | an oversized text is cut to the longest prefix within the limit that does not end inside a character, others stay whole |
| LogRotation.PrivateLog.AppendPrivate | server/local_runtime.py:48-68 | one locked append: either the current file grows or it becomes the backup and a new file starts |
| LogRotation.RetainsSuffix | server/local_runtime.py:48-68 | backup followed by current is a suffix of everything written, cut between records and with the newest record |
| LogRotation.RetainedSize | server/local_runtime.py:48-68 | both files stay within the limit; once rotated the two together exceed it and at most double it |
| LogRotation.ReaderSeesWriteOrder | server/report_routing.py:459-467 | from any log of whole lines on, the reader visits the lines of the retained records in the order they were written, cut records included |
| LogRotation.RecordIsItsLine | server/report_routing.py:467-470 | a record that fits is read as its line, one that was cut as what is left of it |
| LogRotation.EncodedLinesAreLined | server/local_runtime.py:50-52 | cutting encoded text loses at most three bytes, so that no line of at least four bytes fits behind a cut one |
| GitParsers.ParseNameStatus | router/.agents/skills/repo-maintainer/scripts/repo_maintainer.py:216-240 | the index loop is the record-wise reading of the fields, errors included |
| GitParsers.ParseNumstat | router/.agents/skills/repo-maintainer/scripts/repo_maintainer.py:243-266 | the index loop is the record-wise reading of the fields, errors included |
| GitParsers.ParseRawModes | router/.agents/skills/repo-maintainer/scripts/repo_maintainer.py:269-296 | the index loop is the record-wise reading of the fields, errors included |
| GitParsers.ParsersInvertGit | router/.agents/skills/repo-maintainer/scripts/repo_maintainer.py:216-296 | for every list of possible changes each parser recovers what git printed, with moves, tabs and line breaks in paths |
| GitParsers.CutIsRefused | router/.agents/skills/repo-maintainer/scripts/repo_maintainer.py:216-240 | a name-status output without its last field is an error, never a shorter list |
| GitParsers.StatusRefused | router/.agents/skills/repo-maintainer/scripts/repo_maintainer.py:216-240 | behind any changes an empty status, a change without its path and a move without both are refused, each with its error |
| GitParsers.NumstatRefused | router/.agents/skills/repo-maintainer/scripts/repo_maintainer.py:243-266 | behind any changes a record with less than two tabs, a move without its paths and a count that is neither digits nor a dash are refused, each with its error |
| GitParsers.RawRefused | router/.agents/skills/repo-maintainer/scripts/repo_maintainer.py:269-296 | behind any changes a header without its colon or with other than five words and a change without its path or paths are refused, each with its error |
| GitParsers.PathMapAt | router/.agents/skills/repo-maintainer/scripts/repo_maintainer.py:243-296 | with distinct paths the parsed maps have exactly the listed paths, each with its own value |
| GitParsers.Join | router/.agents/skills/repo-maintainer/scripts/repo_maintainer.py:402-417 | each change takes the counts and modes of its path, and warnings name exactly the paths without counts |
| GitParsers.CollectDiffLayer | router/.agents/skills/repo-maintainer/scripts/repo_maintainer.py:387-418 | on git's own outputs the join never misses: no warning, each change carries its own counts and modes, and is a symbolic or git link exactly when one of its modes says so |
| CodeSpan.EscapedIsPlain | router/.agents/skills/repo-maintainer/scripts/repo_maintainer.py:1171-1185 | no control or bidirectional character survives escaping |
| CodeSpan.EscapeReads | router/.agents/skills/repo-maintainer/scripts/repo_maintainer.py:1171-1185 | an escaped character prints as a backslash and its letter, or as its code in four hexadecimal digits |
| CodeSpan.EscapeDetermines | router/.agents/skills/repo-maintainer/scripts/repo_maintainer.py:1171-1185 | the escaped form belongs to one text only if and only if the text holds no escaped character and spells out no escape |
| CodeSpan.EscapeCollides | router/.agents/skills/repo-maintainer/scripts/repo_maintainer.py:1171-1185 | two different texts with the same escaped form |
| CodeSpan.FenceFound | router/.agents/skills/repo-maintainer/scripts/repo_maintainer.py:1190-1191 | the closing fence is the first run of its length, since inner runs are shorter |
| CodeSpan.PaddedBody | router/.agents/skills/repo-maintainer/scripts/repo_maintainer.py:1192-1193 | padding keeps inner runs from touching the fences and lengthens none |
| CodeSpan.CodeSpanRoundTrip | router/.agents/skills/repo-maintainer/scripts/repo_maintainer.py:1188-1193 | reading the span by section 6.1 of the CommonMark specification returns the escaped text if and only if it has a character other than a space |
| CodeSpan.CodeSpanShowsText | router/.agents/skills/repo-maintainer/scripts/repo_maintainer.py:1188-1193 | reading the span returns the text itself if and only if nothing in it is escaped and it is not blank |
| RoutingPolicy.AcceptedChoice | server/routing_policy.py:68-90 | the chosen answer of an accepted distribution over at most six choices has at least (0.98 - 0.000005)/6 |
| RoutingPolicy.AcceptedExactly | server/routing_policy.py:68-97 | a distribution is accepted exactly when it gives each choice of the question and nothing else a probability, they add up to 1 within 0.02, and none is more than 0.000001 above that of the chosen one; a confidence is kept exactly when it is a probability |
| RoutingPolicy.ChosenProbabilityIsLeast | server/routing_policy.py:103-119 | the reported probability is the smallest of the choices made, over all questions answered with a distribution, and there is none exactly without such a question |
| RoutingPolicy.ChosenProbabilityBound | server/routing_policy.py:103-119 | the chosen probability of any accepted answers lies between that floor and 1 |
| RoutingPolicy.FloorIsReached | server/routing_policy.py:103-119 | a full set of accepted answers whose chosen probability is the floor, so the bound cannot be raised |

## Left out

- Sockets, HTTP handlers, SQLite, file permissions, environment and keys: input and output; only the state they leave behind is modelled.
- UTF-8 decoding with its replacement of malformed bytes, JSON text, key order inside objects and numbers that are not integers: texts arrive decoded, and printing and parsing are an assumed inverse pair.
- Exceptions on values of the wrong JSON shape: the model reads such a value as one without fields.
- Assembler.Collect: an `output_index` that is not an integer counts as 0, because such events do not occur and Python's sort would raise on mixtures.
- SummaryMarker.SummaryMarker.ProcessBlock: the key error for an added message without an `id` key is not raised; `HeaderMemory.AddedMessageRaises` says when it would be.
- RouteLease and CacheAffinity: the time to live is read off the request by the caller; parsing its text form adds nothing to the histories.
- Classify.Classify: inputs that are not lists (a plain text is a user turn), and the excerpts of results kept for the decision dossier, which no modelled code reads.
- Observations.Store.Observe: the shape checks of an observation and the row order of equal stamps; SQL's delete is modelled as dropping the oldest row until the limit is met.
- SwitchAccounting.PromptCacheUsage and MeasuredUsage: the rounding of rates and credits.
- LogRotation.ReaderSeesWriteOrder: the JSON parsing and date window of the reader; a line that would fit behind a cut record, which encoded log lines never do.
- OptimisticValues: React itself; a pending state update is an element of a list that is rendered one by one, at any time.
- RoutingPolicy.ValidatedChoice: model selection and route fixtures, finite tables that need no proof.
- The Jev provider call, envelope stripping, task clipping, the decision dossier and the all-Sol experiment: calls into other services, or text shaping.
- The panel, Control Center pages, tray application, installers, packaging, proof-of-concept scripts and the maintainer script's risk rules: interface, plumbing and keyword tables.

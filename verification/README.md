# Verification of the MCP native guard

This project models the parts of the guard that decide which bytes pass between an MCP client and
a downstream server, and proves what they guarantee. A message is a sequence of bytes. A JSON text
is a lossless tree (`Json.Value`): it keeps the raw contents of strings, the spelling of numbers
and all whitespace, and `Json.Text` gives its bytes back. Every hand-written scanning loop is a
method over an offset, proved against functions or predicates on these trees.

The layers, from the bottom up:

- `Bytes`, `Json`, `Sorting`: byte strings, the grammar of RFC 8259 sections 2 to 7 as trees with a
  height, and sorting by a byte-string key.
- `Scanner`, `ScannerGrammar`, `Documents`, `Objects`, `OpenForm`: the scanners accept exactly the
  grammar; what a member loop and an array loop have in common; the open-ended form (an object that
  ends right after a member comma), which four top-level loops take although it is not JSON.
- `JsonRpc`, `ToolCall`: the envelope classifier and the `tools/call` extractor.
- `Policy`: the rule table, its binary search and the bytes its fingerprint hashes.
- `Rewriter`, `RewriterMeaning`, `RewriterShape`: the byte splice that filters a `tools/list` response,
  the proof that it filters `result.tools` in order and changes nothing else, and what decides whether
  a response is rewritten at all.
- `Filter`, `FilterRuns`, `Visibility`: the stateful filter with its bounded table of pending ids, what
  holds over every sequence of calls, and which tools a client gets to see.
- `Framer`, `ErrorResponses`, `ErrorJson`, `RelayStreams`: line framing, the size of error responses and
  their reading as JSON-RPC responses, and what the relay owes each side.
- `RelayMachine`, `RelayProgress`, `Relay`: the event loop as a machine on values over arbitrary outcomes
  of its system calls, what every pass of it achieves and where runs of passes end, and the loop with
  its queues and framers, which does in every pass what the machine does.
- `PlainCall`, `Transparency`: the plain `tools/call` request followed through the extractor and the
  filter, and exactly when the relay hands on both streams unchanged.
- `CanonicalForm`, `Canonicalizer`, `Escape`, `Inventory`, `InventoryText`, `InventoryMeaning`: the
  canonical form of JSON values, and parsing and emitting the tool inventory.
- `Nesting`, `Generator`, `Loader`, `DepthScan`, `Pipeline`: the nesting scan, the policy generator, the
  policy loader, and the whole way from a response to a policy table.

Where the code and its own comments disagree, the model follows the code:

- The comment on the extracted tool name says it is not empty on success; `extract` takes
  `"params":{"name":""}` (`PlainCall.EmptyNameExtracted`), and the name is empty exactly if the
  `name` member is `""` (`ToolCall.ExtractedName`). The policy decision that follows refuses it.
- The fingerprint's prefix is written with a trailing NUL, but it is passed as a C string, so the
  NUL is not hashed.
- The comment on the relay says that it relays transparently; that holds exactly if every client
  message is forwarded and every server message is delivered or replaced by itself
  (`Transparency.TransparentExactly`; `Transparency.ClientPasses` and `Transparency.ServerPasses` say
  when that is). A call that the policy denies breaks it (`Transparency.DeniedCall`).
- The classifier, the extractor, the inventory parser and the generator take the open-ended form.
  `OpenForm.ClosedExactly` says when a taken message is JSON; `OpenForm.AcceptedNotJson` shows a
  message that is not.

Error kinds are collapsed: an operation succeeds or not, because which error is reported first may
depend on the order of members and on chunking. `requires` clauses on offsets (`begin <= |message|`)
are the invariants that every caller of the scanners keeps.

## Model

| member | source | states |
|---|---|---|
| Scanner.SkipWhitespace | src/json_scanner.hpp:24-28 | stops at the first byte that is not space, newline, return or tab |
| Scanner.ScanString | src/json_scanner.hpp:38-82 | succeeds exactly on a string token of the grammar, ends after its closing quote, hands out the raw contents and whether they hold a backslash |
| Scanner.ScanNumber | src/json_scanner.hpp:85-128 | succeeds exactly on the longest sign, integer, fraction and exponent that can be read |
| Scanner.ScanLiteral | src/json_scanner.hpp:131-141 | succeeds exactly if the literal stands there, and moves past it only then |
| Scanner.SkipObject | src/json_scanner.hpp:160-194 | takes exactly an object of the grammar whose members stay within the depth limit |
| Scanner.SkipArray | src/json_scanner.hpp:195-220 | takes exactly an array of the grammar whose items stay within the depth limit |
| Scanner.SkipValue | src/json_scanner.hpp:147-231 | takes exactly one value of the grammar whose depth plus height stays within the limit |
| Scanner.ScanKey | src/json_rpc_envelope.cpp:56-64 | the statements that every member loop uses for a key, a colon and the whitespace around it |
| ScannerGrammar.StringSound | src/json_scanner.hpp:38-82 | what is taken as a string is a quoted body of the grammar |
| ScannerGrammar.StringComplete | src/json_scanner.hpp:38-82 | every quoted body of the grammar is taken whole |
| ScannerGrammar.NumberSound | src/json_scanner.hpp:85-128 | what is taken as a number is a number of the grammar |
| ScannerGrammar.NumberComplete | src/json_scanner.hpp:85-128 | every number of the grammar before a delimiter or the end is taken whole |
| ScannerGrammar.ValueSound | src/json_scanner.hpp:147-231 | what is taken as a value is the text of a well-formed tree |
| ScannerGrammar.ValueComplete | src/json_scanner.hpp:147-231 | the text of every well-formed tree is taken whole wherever it stands, and gives the tree back |
| ScannerGrammar.SkipSound | src/json_scanner.hpp:143-231 | a skipped slice is one JSON value with start depth plus height minus 1 within the limit |
| ScannerGrammar.NumberExactly | src/json_scanner.hpp:85-128 | a number is taken to its end if and only if the byte after it does not continue it |
| ScannerGrammar.SkipComplete | src/json_scanner.hpp:143-231 | a value, if a number then before a delimiter or the end, is skipped exactly if it is within the limit, and then to its end |
| ScannerGrammar.SkipNumberExactly | src/json_scanner.hpp:143-231 | a number is skipped to its end if and only if it is within the limit and the byte after it does not continue it |
| ScannerGrammar.NumberNeedsDelimiter | src/json_scanner.hpp:104-113 | without a delimiter a value may be refused: `1` before a point |
| ScannerGrammar.TextInjective | src/json_scanner.hpp:147-231 | the text of a tree determines the tree |
| Documents.StrictIsLax | src/json_rpc_envelope.cpp:55-146 | a closed member list is read the same by the strict loop and by both lax ones |
| Documents.DocClosedTwice | src/tool_call_filter.cpp:202-253 | a message taken by a loop that tolerates the end after a comma and by one that tolerates a brace there is closed JSON |
| Documents.DocSound | src/policy_loader.cpp:308-390 | a message taken by the strict loop is one well-formed object with whitespace around it |
| Documents.DocComplete | src/policy_loader.cpp:308-390 | every such message is taken, with its members |
| OpenForm.ClosedExactly | src/json_rpc_envelope.cpp:51-152 | a message that a lax loop takes is JSON exactly if its last byte that is not whitespace is the closing brace |
| OpenForm.OpenTaken | src/json_rpc_envelope.cpp:55-146 | every opened, non-empty member list with a comma after it is taken in the open-ended form |
| OpenForm.AcceptedIsJson | src/json_rpc_envelope.cpp:28-158 | the classifier's accepted messages are JSON exactly under that condition |
| OpenForm.AcceptedNotJson | src/json_rpc_envelope.cpp:55-146 | a concrete accepted message that is not JSON |
| JsonRpc.ClassifyMessage | src/json_rpc_envelope.cpp:28-158 | computes the fold over the members read before the first unacceptable one; the following rows say what that is for accepted and for rejected messages |
| JsonRpc.GatherMeaning | src/json_rpc_envelope.cpp:66-132 | the fold accepts exactly good members without repetition and keeps the method and the raw id |
| JsonRpc.ClassifyAccepts | src/json_rpc_envelope.cpp:28-158 | a message is accepted exactly if it is within the limits and a well-shaped request, notification or response, and its id, method and kind are reported; only an oversized message is told apart among the rejected |
| JsonRpc.RejectedKeeps | src/json_rpc_envelope.cpp:47-146 | whatever makes the classifier reject a message after complete, acceptable members, the envelope keeps the id and the method among them |
| JsonRpc.RejectedReads | src/json_rpc_envelope.cpp:47-146 | an id or a method stands in a rejected envelope only if such members at the start of the message say so |
| JsonRpc.IdIsValue | src/json_rpc_envelope.cpp:89-113 | every id in an envelope is the text of a string, a number or null |
| ToolCall.ParseParams | src/tool_call_extractor.cpp:27-117 | succeeds on a closed object exactly if its members describe a call, and returns the name and raw arguments |
| ToolCall.ExtractCall | src/tool_call_extractor.cpp:125-207 | returns the call that the message's only `params` member describes |
| ToolCall.ParamsMeaning | src/tool_call_extractor.cpp:27-117 | `params` describes a call exactly if it is an object with one escape-free string `name`, at most one `arguments` and no escaped key, within the depth limit |
| ToolCall.ExtractMeaning | src/tool_call_extractor.cpp:125-207 | a message yields a call exactly if it has one `params` member that yields it and its other members are acceptable |
| ToolCall.ExtractedName | src/tool_call_extractor.cpp:58-81 | the extracted name is the contents of the only `name` in `params`, and empty exactly if that member is `""` |
| PlainCall.CallAccepted | src/json_rpc_envelope.cpp:28-158 | the plain call message for any name is accepted as a `tools/call` request |
| PlainCall.CallExtracts | src/tool_call_extractor.cpp:125-207 | extraction from it gives that name, whatever it is |
| PlainCall.EmptyNameExtracted | src/tool_call_extractor.cpp:58-81 | a concrete message from which the empty name is extracted |
| Policy.Build | src/policy.cpp:11-37 | succeeds exactly on non-empty distinct names; the table holds the same rules in strictly ascending order and answers every lookup like the given list |
| Policy.FindRule | src/policy.cpp:79-89 | the lower-bound search finds what looking at every rule finds, for every name |
| Policy.QueryVisibility | src/policy.cpp:39-42 | the rule's visibility, or the default |
| Policy.QueryInvocation | src/policy.cpp:44-47 | the rule's invocation access, or the default |
| Policy.AccessMeaning | src/policy.cpp:39-47 | without repeated names a rule decides with its own visibility and its own invocation access, and a name without a rule gets the two defaults |
| Policy.SameLookup | src/policy.cpp:79-89 | with distinct names the order of rules does not matter for a lookup |
| Policy.BuildIgnoresOrder | src/policy.cpp:11-37 | two tables with the same defaults are equal exactly if they hold the same rules |
| Policy.Consume | src/policy.cpp:49-69 | the bytes fed to the hash, which the next rows describe |
| Policy.PreImageStart | src/policy.cpp:57-60 | the version first, then two bytes for the defaults, 0 for deny and 1 for allow |
| Policy.PreImageAt | src/policy.cpp:61-69 | for every rule, right after the bytes of the rules before it, the decimal length of its name, a colon, the name and its two access bytes |
| Policy.DecimalRoundTrip | src/policy.cpp:62-64 | the decimal length in front of a name can be read back |
| Policy.PreImageFaithful | src/policy.cpp:57-69 | the hashed bytes of two tables are equal exactly if defaults and rules are equal |
| Rewriter.ParseTool | src/tool_call_filter.cpp:28-78 | succeeds exactly on an object with one non-empty escape-free name, good keys and parts within the limit |
| Rewriter.ParseToolsArray | src/tool_call_filter.cpp:80-128 | on an array of such tools, writes the prefix and the visible tools, and collects the names of the others in order; `Visibility.RewriteShows` says which those are |
| Rewriter.ParseResult | src/tool_call_filter.cpp:130-185 | succeeds exactly on an object with one such `tools` array, and reports where the array closes |
| Rewriter.RewriteToolsListResponse | src/tool_call_filter.cpp:187-259 | decides between rewritten, passed through and malformed, and splices the kept tools between the unchanged bytes; `RewriterMeaning.RewriteMeaning` and `Visibility.RewriteShows` say what that does to the document |
| RewriterMeaning.RewriteFilters | src/tool_call_filter.cpp:187-259 | on a closed document the output is the text of the tree with `result.tools` filtered, and is no longer than the input |
| RewriterMeaning.RewriteTwice | src/tool_call_filter.cpp:187-259 | rewriting the output gives the same bytes and removes nothing |
| RewriterMeaning.DepthAgrees | src/tool_call_filter.cpp:61-63 | after the classifier accepted a response at a limit of at least 4, no depth check of the rewriter decides anything |
| RewriterMeaning.FilteredEnvelope | src/tool_call_filter.cpp:257-258 | filtering keeps the envelope well shaped, with the same id |
| RewriterMeaning.RewriteMeaning | src/tool_call_filter.cpp:187-259 | an accepted response that is rewritten was well-formed JSON; the output is the same tree filtered to the visible tools in order, the removed names are the others in order, the output is no longer, is accepted with the same id, and is left alone by a second rewriting |
| RewriterShape.ToolNameShape | src/tool_call_filter.cpp:28-78 | within the depth limit a tool is acceptable exactly if it is an object without escaped keys and with one escape-free non-empty name, which is the one reported |
| RewriterShape.ResultToolsShape | src/tool_call_filter.cpp:80-185 | within the depth limit a result is acceptable exactly if it has unescaped keys and one `tools`, an array of such tools |
| RewriterShape.ShapeDecides | src/tool_call_filter.cpp:187-259 | an accepted response passes through exactly if it is a closed error response, is rewritten exactly if it is closed and its result has the shape, and is refused otherwise, at every depth limit of at least 4 |
| Visibility.ShownExactly | src/tool_call_filter.cpp:104-116 | the shown tools are exactly those whose rule or, without one, whose default has visibility allow, and shown and hidden ones are all |
| Visibility.HiddenExactly | src/tool_call_filter.cpp:104-116 | the reported names are exactly those of the tools that are not shown |
| Visibility.RewriteShows | src/tool_call_filter.cpp:80-259 | the rewritten response lists the shown tools unchanged and in order, and the report names the others in order, told by rules and defaults and by each tool's `name` |
| Visibility.ShownToClient | src/tool_call_filter.cpp:403-448 | over any run, the first answer to a pending list request is withheld only if malformed, passed only if it is an error response, and otherwise reaches the client with exactly the tools whose rule or default makes them visible |
| Filter.ToolCallFilter.constructor | src/tool_call_filter.cpp:268-277 | starts with an empty table of the configured size |
| Filter.ToolCallFilter.AddPending | src/tool_call_filter.cpp:450-471 | adds a new id with room, reports a duplicate or lack of room otherwise, and keeps count and byte total |
| Filter.ToolCallFilter.RemovePending | src/tool_call_filter.cpp:489-504 | the swap with the last slot removes the id if it is there, and keeps count and byte total |
| Filter.ToolCallFilter.Inspect | src/tool_call_filter.cpp:279-401 | the decision on a client message and the table after it; `FilterRuns.AnsweredExactly` and `FilterRuns.ForwardedExactly` say when which decision is taken |
| Filter.ToolCallFilter.InspectServer | src/tool_call_filter.cpp:403-448 | the decision on a server message, its replacement text and the table after it |
| Filter.ToolCallFilter.ConnectionClosed | src/tool_call_filter.cpp:506-513 | empties the table and the replacement text |
| Filter.AddingKeeps | src/tool_call_filter.cpp:450-471 | adding keeps ids distinct, non-empty and within the limits, and adds exactly one id |
| Filter.RoomExactly | src/tool_call_filter.cpp:461-470 | there is room for a new id exactly if the table with it keeps all bounds |
| Filter.RemovingKeeps | src/tool_call_filter.cpp:489-504 | removing keeps the same and deletes exactly the requested id |
| FilterRuns.RunKeeps | src/tool_call_filter.cpp:450-513 | the table satisfies its bounds after every sequence of calls |
| FilterRuns.PendingExactly | src/tool_call_filter.cpp:306-349 | an id is pending exactly if some call forwarded a list request with it and no later call was a response with it, a rejected server message carrying it, or the end of the connection |
| FilterRuns.PassthroughIsError | src/tool_call_filter.cpp:251-256 | a response passed through has an error and no result |
| FilterRuns.NoListLeaks | src/tool_call_filter.cpp:403-448 | after any calls, the first answer with the same raw id to a forwarded list request is dropped, an error response, or a valid response in which every tool is visible by its rule or the default |
| FilterRuns.FilteredExactly | src/tool_call_filter.cpp:403-448 | after any calls, a response is delivered as it is exactly if nothing waits for its raw id or it is an error response |
| FilterRuns.SecondAnswer | src/tool_call_filter.cpp:403-448 | the same response a second time is delivered as it is |
| FilterRuns.AuthorizedIsForwarded | src/tool_call_filter.cpp:352-391 | a forwarded call has one method, one params object and one name in it, escape-free throughout, and the policy allows that name |
| FilterRuns.RepliesMeaning | src/tool_call_filter.cpp:279-401 | error responses answer the message's own id, accepted messages get one only if they are requests, and each code stands for one cause |
| FilterRuns.AnsweredExactly | src/tool_call_filter.cpp:279-401 | the filter answers with this id, code and text exactly if the id is the message's and one of three cases holds: -32001 for a request for an empty or denied name, -32602 for a call request that cannot be read or a rejected call with an id, -32002 for a list request with a new id and no room |
| FilterRuns.ForwardedExactly | src/tool_call_filter.cpp:279-401 | which client messages are forwarded |
| FilterRuns.RejectedCallAnswered | src/tool_call_filter.cpp:296-303 | a rejected message whose members read so far hold an id and the method `tools/call` is answered with that id and -32602 |
| FilterRuns.RejectedFrees | src/tool_call_filter.cpp:405-410 | over any run, a rejected server message whose members read so far hold an id frees that id |
| Framer.LineFramer.Append | src/line_framer.cpp:18-27 | keeps the unfinished line within the limit or fails for good |
| Framer.LineFramer.Feed | include/mcp_native_guard/io/line_framer.hpp:31-76 | the new state and the emitted messages of one call |
| Framer.LineFramer.Finish | src/line_framer.cpp:29-37 | fails exactly on an unfinished line |
| Framer.LineFramer.Reset | src/line_framer.cpp:39-44 | forgets the line and the failure |
| Framer.LineFramer.Fail | src/line_framer.cpp:46-55 | the first failure stays |
| Framer.FeedTwice | include/mcp_native_guard/io/line_framer.hpp:31-76 | two calls do what one call with both chunks does |
| Framer.ChunkingIndependence | include/mcp_native_guard/io/line_framer.hpp:31-76 | two ways of cutting a stream give the same messages, status and result of `finish` |
| Framer.LinesCover | include/mcp_native_guard/io/line_framer.hpp:42-75 | the lines with their newlines and the rest are the whole stream |
| Framer.FeedMeaning | include/mcp_native_guard/io/line_framer.hpp:42-75 | the messages are the trimmed lines up to the first oversized one; the framer fails exactly if a line or the rest is oversized, and otherwise holds the rest |
| Framer.TrimMeaning | include/mcp_native_guard/io/line_framer.hpp:90-95 | exactly one return at the very end of a line is dropped, and only with the option |
| Framer.FeedBounded | src/line_framer.cpp:18-27 | no message and no buffer exceeds the limit |
| ErrorResponses.EnvelopeSize | src/json_rpc_envelope.cpp:28-158 | a message with an id and a method is at least 17 bytes longer than the two |
| ErrorResponses.ErrorExpansion | src/linux_stdio_relay.cpp:291-309 | an error response is at most four times its message line and at most 512 bytes longer than the message |
| ErrorJson.ErrorIsResponse | src/linux_stdio_relay.cpp:291-309 | for every id value, code and plain text what is written is one JSON document and a newline, with the version, the id and an error object that holds the code as a number of that value and the text as a string; the classifier accepts it, within its limits, as a response with that id |
| ErrorJson.ErrorOneLine | src/linux_stdio_relay.cpp:301-308 | the newline at the end is its only control character |
| ErrorJson.ReplyIsResponse | src/linux_stdio_relay.cpp:466-476 | that holds of every answer the filter asks for, with the id of the message it answers |
| RelayStreams.Grows | src/linux_stdio_relay.cpp:460-530 | what either side is owed only grows at its end |
| RelayStreams.SubstituteShrinks | src/tool_call_filter.cpp:416-440 | a replacement is never longer than the message |
| RelayStreams.ChunkBound | src/linux_stdio_relay.cpp:328-375 | one client chunk adds at most buffer plus chunk to the child's queue, and buffer plus four times the chunk plus 512 to the client's |
| RelayStreams.ServerChunkBound | src/linux_stdio_relay.cpp:502-534 | one server chunk adds at most buffer plus chunk to the client's queue |
| Transparency.TransparentExactly | src/linux_stdio_relay.cpp:460-530 | over any run, each side is owed exactly the lines of the other if and only if every client message is forwarded and every server message is delivered or replaced by itself |
| Transparency.RewriteSame | src/tool_call_filter.cpp:187-259 | a rewritten response is the same bytes exactly if all its tools are visible and no whitespace surrounds them |
| Transparency.ClientPasses | src/tool_call_filter.cpp:279-401 | a client message passes exactly if it is accepted and, if a call, names an allowed tool, and, if a list request, has a fresh id and room for it |
| Transparency.ServerPasses | src/tool_call_filter.cpp:403-448 | which server messages reach the client unchanged |
| Transparency.PlainCallForwarded | src/tool_call_filter.cpp:352-391 | a plain call passes exactly if its name is not empty and allowed |
| Transparency.DeniedCall | src/linux_stdio_relay.cpp:460-476 | a concrete run that is not transparent: a denied call, of which the child is owed nothing |
| RelayProgress.ReachedSound | src/linux_stdio_relay.cpp:392-571 | the conditions of the following rows hold in every state that passes without a failure reach |
| RelayProgress.PassWrites | src/linux_stdio_relay.cpp:435-441 | a pass writes exactly the next bytes owed to the client, as many as its write takes, and the same for the child while its input stays open |
| RelayProgress.PassReads | src/linux_stdio_relay.cpp:428-434 | data of the client is read exactly if the child's input stays open and nothing waits for either side, data of the child exactly if nothing waits for the client |
| RelayProgress.PassCloses | src/linux_stdio_relay.cpp:393-426 | exactly when the child's input is closed and both ends of file are noticed; after the client's end of file the input is closed as soon as all was sent |
| RelayProgress.PassInspects | src/linux_stdio_relay.cpp:453-545 | the lines that the client's bytes complete are inspected, then those that the child's bytes complete |
| RelayProgress.Drained | src/linux_stdio_relay.cpp:392-571 | from every such state, as many passes as bytes wait for the client, each of which takes something, write all of them, and nothing is read before |
| RelayProgress.Fed | src/linux_stdio_relay.cpp:392-571 | the same for the child as long as it stays |
| RelayProgress.Finishes | src/linux_stdio_relay.cpp:392-426 | once the child is gone and its output has ended such passes cannot fail, and after them all is written |
| Relay.FlushTo | src/linux_stdio_relay.cpp:252-277 | a write moves a prefix of the queue, whatever part the system takes, and loses nothing |
| Relay.AppendBytes | src/linux_stdio_relay.cpp:279-285 | appends exactly if the capacity allows it |
| Relay.AppendMessage | src/linux_stdio_relay.cpp:287-289 | appends the message and a newline exactly if both fit |
| Relay.AppendJsonRpcError | src/linux_stdio_relay.cpp:291-309 | appends the whole error response exactly if it fits; `ErrorJson.ErrorIsResponse` says what it is |
| Relay.Relay.constructor | src/linux_stdio_relay.cpp:370-391 | empty queues with the computed capacities |
| Relay.Relay.TakeClient | src/linux_stdio_relay.cpp:466-476 | one inspected client message adds its forward or its answer, or reports overflow |
| Relay.Relay.TakeServer | src/linux_stdio_relay.cpp:508-519 | one inspected server message adds its line or its replacement, or reports overflow |
| Relay.Relay.ReadClient | src/linux_stdio_relay.cpp:460-490 | a client chunk never overflows; the messages inspected are the framed lines of all bytes read, and the queues hold what is owed |
| Relay.Relay.ReadServer | src/linux_stdio_relay.cpp:502-534 | a server chunk overflows exactly if the framer stays open and queue plus delivered text exceed the capacity, which needs answers queued in the same pass |
| Relay.Relay.EndOfClient | src/linux_stdio_relay.cpp:491-497 | the end of stdin is an error exactly with an unfinished line |
| Relay.Relay.EndOfServer | src/linux_stdio_relay.cpp:535-542 | the same for the child's output |
| Relay.Relay.CloseChildInput | src/linux_stdio_relay.cpp:395-413 | closes the child's stdin and drops its queue |
| Relay.Relay.WriteChild | src/linux_stdio_relay.cpp:547-558 | moves the written prefix from queue to child; exactly a broken pipe closes the input, ends stdin and drops the queue |
| Relay.Relay.WriteClient | src/linux_stdio_relay.cpp:559-569 | moves bytes from queue to client |
| Relay.Relay.Settle | src/linux_stdio_relay.cpp:393-426 | when the child counts as reaped, as terminated and its input as closed, and when the loop ends |
| Relay.Relay.Register | src/linux_stdio_relay.cpp:393-441 | which descriptors are polled: those of the machine, in its state before the pass; fails exactly if the child cannot be observed, and ends the loop exactly if the child is gone, its output has ended and nothing waits |
| Relay.Relay.Dispatch | src/linux_stdio_relay.cpp:428-570 | the reported descriptors in order, each guarded as registered; without a failure each stream grows by exactly what its system call moved |
| Relay.Relay.Perform | src/linux_stdio_relay.cpp:453-570 | the polled descriptors change traffic, log and flags exactly as in the machine, unless one fails |
| Relay.Relay.Step | src/linux_stdio_relay.cpp:392-571 | one pass keeps all invariants; without a failure it is exactly one pass of the machine, traffic and state; with one, each part of its traffic is the machine's or nothing; it fails exactly if a call it makes fails or a stream breaks its framing, except that data from both sides may overflow a queue |
| Relay.Relay.Serve | src/linux_stdio_relay.cpp:392-571 | over every schedule of system calls the traffic of every pass but a failing last one, and the state after them, are those of the machine; the inspected messages are the framed lines of the bytes read, the child has received a prefix of the forwarded messages and the client a prefix of what it is due; at a normal end all of the child's lines were inspected, all due bytes were written, and nothing forwarded is missing unless input was dropped; it fails only in a pass in which something fails; once the child is gone and its output has ended, it finishes after at most as many passes in which the client takes something as bytes wait |
| Relay.Relay.AllWritten | src/linux_stdio_relay.cpp:392-426 | at a normal end written bytes equal due bytes, and the child's output is exactly the inspected lines |
| Relay.Relay.Disconnect | src/linux_stdio_relay.cpp:110-121 | the end of the connection clears the pending ids and owes nothing new |
| Bytes.AppendLimited | src/tool_inventory.cpp:20-29 | appends exactly if the result stays within the limit |
| Bytes.BelowMeaning | src/policy.cpp:20-22 | names are ordered by their first differing byte, and a proper prefix stands before its extensions |
| CanonicalForm.CanonicalExactly | src/tool_inventory.cpp:232-446 | canonical bytes of well-formed values without repeated keys are equal exactly if the values are equal up to member order and whitespace |
| CanonicalForm.CanonicalParsesBack | src/tool_inventory.cpp:232-446 | canonical bytes are one value, equivalent to the original, of the same height, and canonical already |
| CanonicalForm.CanonicalUnique | src/tool_inventory.cpp:232-446 | the canonical form is the only equivalent value without whitespace in which the members of every object ascend by raw key |
| Canonicalizer.CanonicalizeArray | src/tool_inventory.cpp:331-380 | on an array, succeeds exactly if depth, keys and final size allow it, and appends the canonical text |
| Canonicalizer.CanonicalizeObject | src/tool_inventory.cpp:240-329 | the same on an object, with members sorted by raw key |
| Canonicalizer.EmitObject | src/tool_inventory.cpp:308-328 | the collected members are written sorted, exactly if they fit |
| Canonicalizer.CanonicalizeValue | src/tool_inventory.cpp:382-446 | on a well-formed value, succeeds exactly if depth, keys and final size allow it, and appends its canonical text |
| Canonicalizer.CaptureCanonicalValue | src/tool_inventory.cpp:448-468 | the same after optional whitespace, with nothing stored on failure |
| Canonicalizer.LimitsIgnoreOrder | src/tool_inventory.cpp:221-446 | equivalent values pass the incremental checks together |
| Escape.AppendJsonString | src/tool_inventory.cpp:31-77 | writes the quoted escaped string exactly if it fits |
| Escape.AppendJsonEscapedString | src/policy_generator.cpp:57-91 | writes the same text without a limit |
| Escape.EscapeRoundTrip | src/tool_inventory.cpp:31-77 | for every byte string the escaped text is taken whole by the string scanner and decodes to the original |
| Escape.EscapedInjective | src/tool_inventory.cpp:31-77 | different byte strings have different escaped texts |
| Escape.UnitShortest | src/tool_inventory.cpp:44-72 | no string character for the same byte is shorter than what is written, and of the short ones it is the only one |
| Escape.UnitLowerCase | src/tool_inventory.cpp:35-37 | long escapes use small hex digits |
| Escape.EscapedSame | src/policy_generator.cpp:57-91 | escaping is the identity exactly if no byte needs it |
| Escape.EscapeFreeUnchanged | src/policy_generator.cpp:52-56 | a name that passed the no-escape check is written unchanged |
| Inventory.ParseName | src/tool_inventory.cpp:501-523 | takes exactly an escape-free, non-empty name within the limit |
| Inventory.ParseDescription | src/tool_inventory.cpp:524-541 | takes exactly a string within the limit and keeps its JSON text |
| Inventory.ParseToolObject | src/tool_inventory.cpp:470-589 | succeeds exactly on a tool: one name, at most one description, schema and annotations, all within the limits; keeps canonical schemas |
| Inventory.ParseToolsArray | src/tool_inventory.cpp:591-635 | succeeds exactly on an array of at most the allowed number of tools with distinct names |
| Inventory.ParseResultObject | src/tool_inventory.cpp:637-694 | succeeds exactly on an object with one such `tools` array |
| Inventory.ParseToolsListResponse | src/tool_inventory.cpp:721-892 | accepts exactly the complete responses to the expected id with one result and no error; the inventory is the tools sorted by name |
| InventoryText.EmitInventoryJson | src/tool_inventory.cpp:894-940 | writes the inventory text exactly if it fits |
| InventoryText.InventoryTextIs | src/tool_inventory.cpp:894-940 | the emitted bytes are the text of a JSON tree |
| InventoryText.InventoryWellFormed | src/tool_inventory.cpp:894-940 | that tree is well formed, whatever the executable's bytes |
| InventoryMeaning.InventoryInjective | src/tool_inventory.cpp:894-940 | equal bytes mean the same executable and the same entries |
| InventoryMeaning.InventorySays | src/tool_inventory.cpp:894-940 | read as JSON, the emitted bytes hold the version, the executable and, in order, each tool's name, description, canonical schema and canonical annotations |
| InventoryMeaning.SameToolExactly | src/tool_inventory.cpp:470-589 | kept entries are equal exactly if the tools are the same up to member order and whitespace |
| InventoryMeaning.InventoryDeterminism | src/tool_inventory.cpp:721-940 | two accepted responses emit the same bytes exactly if they name the same executable and the same set of tools |
| Nesting.ExceedsNesting | src/policy_generator.cpp:28-50 | the bracket scan, with its early stop at a bad string |
| Nesting.ValueScan | src/policy_loader.cpp:26-48 | over one value the scan stops exactly if its brackets nest too deep, and otherwise continues after it at the same depth |
| Nesting.DocScan | src/policy_loader.cpp:26-48 | a document that parses is refused exactly if its brackets nest deeper than the limit |
| Nesting.HeightWithin | src/policy_generator.cpp:24-27 | bracket nesting bounds the depth the recursive scanners count |
| DepthScan.GeneratorDepth | src/policy_generator.cpp:24-311 | after the scan the generator's parse accepts the same documents at the limit as at any larger one |
| DepthScan.LoaderDepth | src/policy_loader.cpp:26-261 | the same for the loader, with its own depth checks |
| DepthScan.ScanThenParse | src/policy_generator.cpp:315-331 | scan and parse accept exactly the documents that parse without a depth limit and whose brackets nest within it |
| Generator.ParseToolName | src/policy_generator.cpp:93-163 | succeeds exactly on an object with one good name and parts within the limit |
| Generator.ParseToolsArray | src/policy_generator.cpp:165-212 | succeeds exactly on an array of allowed length with distinct names |
| Generator.ParseInventoryDocument | src/policy_generator.cpp:214-311 | succeeds exactly on a document with version 1, a server object and such a tools array, each once |
| Generator.HasRepeats | src/policy_generator.cpp:333-343 | finds a repeated requested name |
| Generator.PrintPolicy | src/policy_generator.cpp:372-386 | the policy text for the rules |
| Generator.GeneratePolicyFromInventory | src/policy_generator.cpp:315-391 | succeeds exactly for a small, shallow, well-formed inventory and an allow list drawn from its names without repetition; the text lists those names sorted |
| Loader.ParseAccess | src/policy_loader.cpp:50-67 | takes exactly `allow` and `deny` |
| Loader.ParseDefaults | src/policy_loader.cpp:69-135 | succeeds exactly on an object with both defaults, each once |
| Loader.ParseTool | src/policy_loader.cpp:137-222 | succeeds exactly on an object with a good name and both accesses, each once |
| Loader.ParseTools | src/policy_loader.cpp:224-261 | succeeds exactly on an array of such rules |
| Loader.SortRules | src/policy_loader.cpp:391-399 | sorts by name and finds a repeated name |
| Loader.Parse | src/policy_loader.cpp:297-404 | succeeds exactly on a small, shallow, closed policy document with version 1, defaults and distinct rules, and returns them sorted |
| Loader.LoadedExactly | src/policy_loader.cpp:69-404 | the loaded defaults are the document's two words, and the loaded rules are, in name order, exactly those that its tools write down with name, visibility and invocation |
| Loader.ApplyDenyOverrides | src/policy_loader.cpp:406-430 | edits the found rule or appends a new one, name by name |
| Loader.OverridesMeaning | src/policy_loader.cpp:406-430 | exactly the named tools become denied, every other lookup is unchanged, and names stay distinct |
| Pipeline.InventoryGenerates | src/policy_generator.cpp:315-391 | the generator accepts every emitted inventory within its size limit, for every allow list drawn from its names |
| Pipeline.GeneratedLoads | src/policy_loader.cpp:297-404 | the default loader accepts every generated policy and reads its rules |
| Pipeline.EndToEnd | src/policy_generator.cpp:315-391 | for every accepted response whose inventory fits, generation succeeds exactly if the allow list is drawn from the inventory's names, and the loaded policy allows exactly the listed names |
| Pipeline.CreatePolicyTable | src/policy.cpp:11-47 | the five stages in sequence succeed exactly under those conditions, and in the resulting table a name is visible and callable exactly if it is listed |

## Left out

- Relay.Relay.Serve: the joint bound on the client's queue, when error responses and server output
  fall into one pass, is not claimed; the code stops with an overflow there.
- Canonicalizer.CanonicalizeObject: for an object that breaks off at the end of input the contract
  only says that success ends at the end of input; every caller refuses that.
- ToolCall.ParseParams: the same for a `params` object that breaks off at the end of input.
- Policy.Consume: collects the hashed bytes; the FNV-1a arithmetic and collisions are not modelled.
- Kinds of errors and their priority (`ClassificationError`, `ExtractionError`, `InventoryError`,
  `PolicyGenerateError`, `PolicyLoadError`): collapsed to success or failure, except that an oversized
  message is told apart by the classifier; offending names in reports are left out.
- `IdKind` of an envelope: no decision depends on it.
- Audit records, counters and the `message_too_large` callback: they decide nothing.
- A relay without a message handler: it forwards everything.
- Processes, pipes, signals, `poll` timing, grace periods and exit codes: the relay's system calls are
  arbitrary inputs of each pass.
- `load_file`, command-line tools, `src/inspect.cpp`, `src/doctor.cpp` and the atomic file writer: file
  and process plumbing.
- `validate_initialize_response` (src/tool_inventory.cpp:86-219): a simpler copy of the response loop.
- Allocation failure and the `catch` branches; capacities other than those `append_bytes` checks.
- The contents of the replacement buffer after a malformed response: they are never sent.
- `std::sort` and `std::lower_bound` themselves: sorting is a function with its order and permutation
  proved; the search loop is written out. Rules and collected members are values, not arrays.
- UTF-8: strings are bytes of 0x20 and above, as in the code.

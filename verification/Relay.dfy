/** The event loop of `run_stdio_child` (src/linux_stdio_relay.cpp) between the client's
    stdin/stdout and the child's.

    Every system call is a parameter: `Round` carries what `waitpid`, `poll`, `read` and `write`
    did in one pass of the loop, so a sequence of rounds stands for any schedule of partial
    reads, partial writes, ends of file and failures. `sent` and `written` are ghost records of
    the bytes the two `write`s took; `log` is the messages inspected so far, in order. The loop
    is proved to do what `RelayMachine` does. */
module Relay {
  import opened Bytes
  import opened Filter
  import opened FilterRuns
  import opened ErrorResponses
  import opened RelayStreams
  import opened RelayMachine
  import opened RelayProgress
  import F = Framer

  datatype WriteStatus = Moved | Retry | BrokenPipe | Error

  /** Why the loop stopped, `Running` if the rounds ended first. */
  datatype Exit = Running | Finished | FramingError | QueueOverflow | SystemError

  // ---- queues ----

  function StatusOf(attempt: WriteResult): WriteStatus {
    if Progress(attempt) then Moved
    else if attempt.WriteRetry? then Retry
    else if attempt.PipeBroken? then BrokenPipe
    else Error
  }

  /** The stream grew by `part`, or perhaps, if it need not, by nothing. */
  predicate Grew(before: Bytes, part: Bytes, after: Bytes, must: bool) {
    after == before + part || (!must && after == before)
  }

  /** Offers the rest of the queue to one `write`. */
  method FlushTo(buffer: Bytes, begin: nat, attempt: WriteResult)
    returns (status: WriteStatus, buffer': Bytes, begin': nat, ghost moved: Bytes)
    requires begin <= |buffer|
    ensures begin' <= |buffer'| <= |buffer| && moved + buffer'[begin'..] == buffer[begin..]
    ensures moved == Taken(attempt, buffer[begin..])
    ensures status == Moved ==> if buffer' == [] then begin' == 0 else begin' < |buffer'|
    ensures status != Moved ==> buffer' == buffer && begin' == begin
    ensures status == if begin == |buffer| then Moved else StatusOf(attempt)
  {
    moved := [];
    if begin == |buffer| {
      return Moved, [], 0, [];
    }
    var result := Capped(attempt, |buffer| - begin);
    if result.Wrote? && result.count > 0 {
      begin' := begin + result.count;
      moved := buffer[begin..begin'];
      if begin' == |buffer| {
        return Moved, [], 0, moved;
      }
      return Moved, buffer, begin', moved;
    }
    status := if result.WriteRetry? then Retry else if result.PipeBroken? then BrokenPipe else Error;
    return status, buffer, begin, [];
  }

  method AppendBytes(output: Bytes, capacity: nat, value: Bytes) returns (ok: bool, output': Bytes)
    requires |output| <= capacity
    ensures ok <==> |output| + |value| <= capacity
    ensures output' == if ok then output + value else output
  {
    if |value| > capacity - |output| {
      return false, output;
    }
    return true, output + value;
  }

  /** A message that does not fit whole still may leave its bytes without the newline. */
  method AppendMessage(output: Bytes, capacity: nat, message: Bytes) returns (ok: bool, output': Bytes)
    requires |output| <= capacity
    ensures ok <==> |output| + |message| + 1 <= capacity
    ensures ok ==> output' == output + (message + "\n")
    ensures output <= output' && |output'| <= capacity
  {
    ok, output' := AppendBytes(output, capacity, message);
    if ok {
      ok, output' := AppendBytes(output', capacity, "\n");
      assert ok ==> output + message + "\n" == output + (message + "\n");
    }
  }

  method AppendJsonRpcError(output: Bytes, capacity: nat, id: Bytes, code: int, text: Bytes)
    returns (ok: bool, output': Bytes)
    requires |output| <= capacity
    ensures ok <==> |output| + |ErrorText(id, code, text)| <= capacity
    ensures ok ==> output' == output + ErrorText(id, code, text)
    ensures output <= output' && |output'| <= capacity
  {
    hide CodeText;
    var codeText := CodeText(code);
    ok, output' := AppendBytes(output, capacity, ERROR_HEAD);
    if !ok { return; }
    ok, output' := AppendBytes(output', capacity, id);
    if !ok { return; }
    Associate(output, ERROR_HEAD, id);
    ok, output' := AppendBytes(output', capacity, ERROR_CODE);
    if !ok { return; }
    Associate(output, ERROR_HEAD + id, ERROR_CODE);
    ok, output' := AppendBytes(output', capacity, codeText);
    if !ok { return; }
    Associate(output, ERROR_HEAD + id + ERROR_CODE, codeText);
    ok, output' := AppendBytes(output', capacity, ERROR_MESSAGE);
    if !ok { return; }
    Associate(output, ERROR_HEAD + id + ERROR_CODE + codeText, ERROR_MESSAGE);
    ok, output' := AppendBytes(output', capacity, text);
    if !ok { return; }
    Associate(output, ERROR_HEAD + id + ERROR_CODE + codeText + ERROR_MESSAGE, text);
    ok, output' := AppendBytes(output', capacity, ERROR_TAIL);
    Associate(output, ERROR_HEAD + id + ERROR_CODE + codeText + ERROR_MESSAGE + text, ERROR_TAIL);
  }

  // ---- the loop's state ----

  class Relay {
    const handler: ToolCallFilter
    const clientFramer: F.LineFramer
    const serverFramer: F.LineFramer
    const maxMessageBytes: nat
    const childCapacity: nat
    const clientCapacity: nat
    var toChild: Bytes
    var childBegin: nat
    var toClient: Bytes
    var clientBegin: nat
    var inputEof: bool
    var outputEof: bool
    var childReaped: bool
    var sentTermination: bool
    var childInputOpen: bool
    var childOutputOpen: bool
    ghost var log: seq<Event>
    ghost var clientIn: Bytes
    ghost var serverIn: Bytes
    ghost var sent: Bytes
    ghost var written: Bytes
    ghost var dropped: bool

    ghost predicate Parts()
      reads this`log, handler, handler.pending, clientFramer, serverFramer
    {
      && handler.Valid() && clientFramer.Valid() && serverFramer.Valid() && clientFramer != serverFramer
      && clientFramer.config == serverFramer.config == F.Config(maxMessageBytes, false)
      && childCapacity >= maxMessageBytes + READ_CHUNK + 1
      && clientCapacity >= maxMessageBytes + RESPONSE_EXPANSION
      && handler.Live() == Run(log, handler.config)
    }

    ghost function Owed(): Bytes
      reads this`log
    {
      ToChild(log, handler.config, handler.policy)
    }

    ghost function Due(): Bytes
      reads this`log
    {
      ToClient(log, handler.config, handler.policy)
    }

    /** Holds in every state, also after a failure. */
    ghost predicate Safe()
      reads this`log, this`sent, this`written
    {
      sent <= Owed() && written <= Due()
    }

    /** What was sent and what is queued is what the child is owed; its queue may have been
        dropped, but only together with its input. */
    ghost predicate ChildQueue()
      reads this`log, this`sent, this`toChild, this`childBegin, this`childInputOpen, this`childReaped, this`dropped
    {
      && |toChild| <= childCapacity
      && (if toChild == [] then childBegin == 0 else childBegin < |toChild|)
      && (!dropped ==> sent + toChild[childBegin..] == Owed())
      && (childInputOpen ==> !dropped && !childReaped) && (!childInputOpen ==> toChild == [])
    }

    ghost predicate ClientQueue()
      reads this`log, this`written, this`toClient, this`clientBegin
    {
      && |toClient| <= clientCapacity
      && (if toClient == [] then clientBegin == 0 else clientBegin < |toClient|)
      && written + toClient[clientBegin..] == Due()
    }

    ghost predicate Queues()
      reads this`log, this`sent, this`toChild, this`childBegin, this`childInputOpen, this`childReaped, this`dropped
      reads this`written, this`toClient, this`clientBegin
    {
      ChildQueue() && ClientQueue()
    }

    /** The log holds exactly the messages the framers have cut from the bytes read. */
    ghost predicate Inputs()
      reads this`log, this`clientIn, this`serverIn, this`outputEof, this`childOutputOpen, clientFramer, serverFramer
    {
      ClientInput() && ServerInput()
    }

    ghost predicate ClientInput()
      reads this`log, this`clientIn, clientFramer
    {
      && (clientFramer.Abstract(), ClientMessages(log)) == F.Feeding(F.Open([]), clientIn, clientFramer.config)
      && clientFramer.Abstract().Open?
    }

    ghost predicate ServerInput()
      reads this`log, this`serverIn, this`outputEof, this`childOutputOpen, serverFramer
    {
      && (serverFramer.Abstract(), ServerMessages(log)) == F.Feeding(F.Open([]), serverIn, serverFramer.config)
      && serverFramer.Abstract().Open?
      && (outputEof <==> !childOutputOpen)
      && (outputEof ==> serverFramer.Abstract() == F.Open([]))
    }

    /** Holds in every state, also after a failure: the messages inspected are exactly the lines
        that framing the bytes read gives. */
    ghost predicate Heard()
      reads this`log, this`clientIn, this`serverIn
    {
      && ClientMessages(log) == F.Feeding(F.Open([]), clientIn, clientFramer.config).1
      && ServerMessages(log) == F.Feeding(F.Open([]), serverIn, serverFramer.config).1
    }

    /** What is still queued. */
    ghost function ChildRest(): Bytes
      reads this`toChild, this`childBegin
    {
      if childBegin <= |toChild| then toChild[childBegin..] else []
    }

    ghost function ClientRest(): Bytes
      reads this`toClient, this`clientBegin
    {
      if clientBegin <= |toClient| then toClient[clientBegin..] else []
    }

    ghost function Streams(): Traffic
      reads this`clientIn, this`serverIn, this`sent, this`written
    {
      Traffic(clientIn, serverIn, sent, written)
    }

    /** The relay as a state of the machine, and what never changes. */
    ghost function View(): State
      reads this`clientIn, this`serverIn, this`sent, this`written, this`log
      reads this`inputEof, this`childOutputOpen, this`childInputOpen, this`childReaped, this`sentTermination
    {
      State(Streams(), log, inputEof, childOutputOpen, childInputOpen, childReaped, sentTermination)
    }

    ghost function Laws(): Rules {
      Rules(handler.config, handler.policy, clientFramer.config)
    }

    ghost predicate Valid()
      reads this`log, this`sent, this`toChild, this`childBegin, this`childInputOpen, this`childReaped, this`dropped
      reads this`written, this`toClient, this`clientBegin
      reads this`clientIn, this`serverIn, this`outputEof, this`childOutputOpen
      reads handler, handler.pending, clientFramer, serverFramer
    {
      Parts() && Safe() && Queues() && Inputs()
    }

    constructor (handler: ToolCallFilter, maxMessageBytes: nat, relayBufferBytes: nat,
                 childCapacity: nat, clientCapacity: nat)
      requires handler.Valid() && handler.Live() == [] && maxMessageBytes > 0
      requires childCapacity >= relayBufferBytes && childCapacity >= maxMessageBytes + READ_CHUNK + 1
      requires clientCapacity >= relayBufferBytes && clientCapacity >= maxMessageBytes + RESPONSE_EXPANSION
      ensures Valid() && this.handler == handler && fresh(clientFramer) && fresh(serverFramer)
      ensures log == [] && clientIn == [] && serverIn == [] && sent == [] && written == []
      ensures childInputOpen && childOutputOpen && !dropped && View() == START
    {
      hide Run, ToChild, ToClient, ToolCallFilter.Valid, ToolCallFilter.Live;
      NothingOwed(handler.config, handler.policy);
      this.handler := handler;
      this.maxMessageBytes := maxMessageBytes;
      this.childCapacity, this.clientCapacity := childCapacity, clientCapacity;
      toChild, childBegin, toClient, clientBegin := [], 0, [], 0;
      clientFramer := new F.LineFramer(F.Config(maxMessageBytes, false));
      serverFramer := new F.LineFramer(F.Config(maxMessageBytes, false));
      inputEof, outputEof, childReaped, sentTermination := false, false, false, false;
      childInputOpen, childOutputOpen := true, true;
      log, clientIn, serverIn, sent, written, dropped := [], [], [], [], [], false;
    }

    /** The sink of the client framer. */
    method TakeClient(message: Bytes) returns (overflow: bool)
      requires Parts() && |toChild| <= childCapacity && |toClient| <= clientCapacity
      modifies this`toChild, this`toClient, this`log, handler`pendingCount, handler`pendingIdBytes, handler.pending
      ensures Parts() && |toChild| <= childCapacity && |toClient| <= clientCapacity
      ensures log == old(log) + [FromClient(message)]
      ensures var ids := Run(old(log), handler.config);
              var forward := ForwardText(message, ids, handler.config, handler.policy);
              var reply := ReplyText(message, ids, handler.config, handler.policy);
              && (overflow <==> |old(toChild)| + |forward| > childCapacity || |old(toClient)| + |reply| > clientCapacity)
              && (!overflow ==> toChild == old(toChild) + forward && toClient == old(toClient) + reply)
    {
      hide DecideClient, AfterClient, ErrorText, Run, ToChild, ToClient, ClientMessages, ServerMessages;
      hide ToolCallFilter.Valid, ToolCallFilter.Live, F.LineFramer.Valid;
      overflow := false;
      ClientStep(log, message, handler.config, handler.policy);
      log := log + [FromClient(message)];
      var decision := handler.Inspect(message);
      var ok;
      if decision.Forward? {
        ok, toChild := AppendMessage(toChild, childCapacity, message);
        overflow := !ok;
      } else if decision.Respond? {
        ok, toClient := AppendJsonRpcError(toClient, clientCapacity, decision.id, decision.code, decision.text);
        overflow := !ok;
      }
    }

    /** The sink of the server framer. */
    method TakeServer(message: Bytes) returns (overflow: bool)
      requires Parts() && |toClient| <= clientCapacity
      modifies this`toClient, this`log
      modifies handler`pendingCount, handler`pendingIdBytes, handler`rewrittenResponse, handler.pending
      ensures Parts() && |toClient| <= clientCapacity
      ensures log == old(log) + [FromServer(message)]
      ensures var text := DeliveredText(message, Run(old(log), handler.config), handler.config, handler.policy);
              && (overflow <==> |old(toClient)| + |text| > clientCapacity)
              && (!overflow ==> toClient == old(toClient) + text)
    {
      hide DecideServer, AfterServer, Run, ToChild, ToClient, ClientMessages, ServerMessages;
      hide ToolCallFilter.Valid, ToolCallFilter.Live, F.LineFramer.Valid;
      overflow := false;
      ServerStep(log, message, handler.config, handler.policy);
      log := log + [FromServer(message)];
      var decision := handler.InspectServer(message);
      var ok;
      if decision.Deliver? {
        ok, toClient := AppendMessage(toClient, clientCapacity, message);
        overflow := !ok;
      } else if decision.Substitute? {
        ok, toClient := AppendMessage(toClient, clientCapacity, decision.text);
        overflow := !ok;
      }
    }

    /** The calls of the client framer's sink for one chunk, both queues empty before. */
    method InspectClients(messages: seq<Bytes>) returns (queueOverflow: bool)
      requires Parts() && Safe() && Queues() && toChild == [] && toClient == [] && childInputOpen
      modifies this`toChild, this`toClient, this`log
      modifies handler`pendingCount, handler`pendingIdBytes, handler.pending
      ensures Parts() && Safe() && log == old(log) + FromClients(messages)
      ensures ClientMessages(log) == ClientMessages(old(log)) + messages
      ensures ServerMessages(log) == ServerMessages(old(log))
      ensures !queueOverflow ==> Queues()
      ensures queueOverflow <==> |Owed()| > |old(Owed())| + childCapacity || |Due()| > |old(Due())| + clientCapacity
    {
      hide Run, ToChild, ToClient, AfterClient, ForwardText, ReplyText, FromClients, ClientMessages, ServerMessages;
      hide Relay.Parts, Relay.Inputs, Relay.ClientInput, Relay.ServerInput, Relay.Valid;
      ghost var log0, config, policy := log, handler.config, handler.policy;
      queueOverflow := false;
      assert sent == Owed() && written == Due();
      NoneYet(log0, messages);
      for k := 0 to |messages|
        invariant Parts() && Safe() && log == log0 + FromClients(messages[..k])
        invariant |toChild| <= childCapacity && |toClient| <= clientCapacity
        invariant !queueOverflow ==> sent + toChild == Owed() && written + toClient == Due()
        invariant queueOverflow ==> |Owed()| > |old(Owed())| + childCapacity || |Due()| > |old(Due())| + clientCapacity
        invariant ClientMessages(log) == ClientMessages(log0) + messages[..k]
        invariant ServerMessages(log) == ServerMessages(log0)
      {
        ghost var before := log;
        var overflow := TakeClient(messages[k]);
        ClientStep(before, messages[k], config, policy);
        OneMore(log0, messages, k);
        queueOverflow := overflow || queueOverflow;
      }
    }

    /** A chunk from the client. Both queues are empty when stdin is polled, so it always fits. */
    method ReadClient(bytes: Bytes) returns (exit: Exit)
      requires Valid() && childInputOpen && toChild == [] && toClient == []
      requires 0 < |bytes| <= READ_CHUNK
      modifies this`toChild, this`toClient, this`log, this`clientIn, clientFramer
      modifies handler`pendingCount, handler`pendingIdBytes, handler.pending
      ensures Parts() && Safe() && (exit == Running ==> Valid())
      ensures exit == Running || exit == FramingError
      ensures var (state, messages) := F.Feeding(old(clientFramer.Abstract()), bytes, clientFramer.config);
              log == old(log) + FromClients(messages) && (exit == Running <==> state.Open?)
      ensures clientIn == old(clientIn) + bytes && Heard()
    {
      hide Run, ToChild, ToClient, ClientMessages, ServerMessages, FromClients, F.Feeding;
      hide ToolCallFilter.Valid, ToolCallFilter.Live;
      ghost var buffer := clientFramer.buffer;
      var status, messages := clientFramer.Feed(bytes);
      ChunkBound(log, buffer, bytes, clientFramer.config, handler.config, handler.policy);
      F.FeedTwice(F.Open([]), clientIn, bytes, clientFramer.config);
      clientIn := clientIn + bytes;
      var queueOverflow := InspectClients(messages);
      if status != F.Ok {
        return FramingError;
      }
      if queueOverflow {
        return QueueOverflow;
      }
      return Running;
    }

    /** The calls of the server framer's sink for one chunk. */
    method InspectServers(messages: seq<Bytes>) returns (queueOverflow: bool)
      requires Parts() && Safe() && Queues()
      modifies this`toClient, this`log
      modifies handler`pendingCount, handler`pendingIdBytes, handler`rewrittenResponse, handler.pending
      ensures Parts() && Safe() && log == old(log) + FromServers(messages)
      ensures ClientMessages(log) == ClientMessages(old(log))
      ensures ServerMessages(log) == ServerMessages(old(log)) + messages
      ensures !queueOverflow ==> Queues()
      ensures queueOverflow <==> |old(toClient)| + |Due()| > |old(Due())| + clientCapacity
    {
      hide Run, ToChild, ToClient, AfterServer, DeliveredText, FromServers, ClientMessages, ServerMessages;
      hide Relay.Parts, Relay.Inputs, Relay.ClientInput, Relay.ServerInput, Relay.Valid;
      ghost var log0, config, policy := log, handler.config, handler.policy;
      queueOverflow := false;
      NoneYet(log0, messages);
      for k := 0 to |messages|
        invariant Parts() && Safe() && log == log0 + FromServers(messages[..k])
        invariant |toClient| <= clientCapacity
        invariant !queueOverflow ==> Queues()
        invariant !queueOverflow ==> |toClient| + |old(Due())| == |old(toClient)| + |Due()|
        invariant queueOverflow ==> |old(toClient)| + |Due()| > |old(Due())| + clientCapacity
        invariant ServerMessages(log) == ServerMessages(log0) + messages[..k]
        invariant ClientMessages(log) == ClientMessages(log0)
      {
        ghost var before, queue := log, toClient;
        var overflow := TakeServer(messages[k]);
        ServerStep(before, messages[k], config, policy);
        OneMore(log0, messages, k);
        if !queueOverflow {
          AppendKeepsRest(written, queue, clientBegin, DeliveredText(messages[k], Run(before, config), config, policy));
        }
        queueOverflow := overflow || queueOverflow;
      }
    }

    /** A chunk from the child. It always fits if the client's queue is empty; after error
        responses of the same round it may not. */
    method ReadServer(bytes: Bytes) returns (exit: Exit)
      requires Valid() && childOutputOpen && 0 < |bytes| <= READ_CHUNK
      modifies this`toClient, this`log, this`serverIn, serverFramer
      modifies handler`pendingCount, handler`pendingIdBytes, handler`rewrittenResponse, handler.pending
      ensures Parts() && Safe() && (exit == Running ==> Valid())
      ensures exit == Running || exit == FramingError || (exit == QueueOverflow && old(toClient) != [])
      ensures var (state, messages) := F.Feeding(old(serverFramer.Abstract()), bytes, serverFramer.config);
              && log == old(log) + FromServers(messages) && (exit == FramingError <==> state.Failed?)
              && (exit == QueueOverflow <==> state.Open? && |old(toClient)| + |Due()| > |old(Due())| + clientCapacity)
      ensures serverIn == old(serverIn) + bytes && Heard()
    {
      hide Run, ToChild, ToClient, ClientMessages, ServerMessages, FromServers, F.Feeding;
      hide ToolCallFilter.Valid, ToolCallFilter.Live;
      ghost var buffer := serverFramer.buffer;
      var status, messages := serverFramer.Feed(bytes);
      ServerChunkBound(log, buffer, bytes, serverFramer.config, handler.config, handler.policy);
      F.FeedTwice(F.Open([]), serverIn, bytes, serverFramer.config);
      serverIn := serverIn + bytes;
      var queueOverflow := InspectServers(messages);
      if status != F.Ok {
        return FramingError;
      }
      if queueOverflow {
        return QueueOverflow;
      }
      return Running;
    }

    method EndOfClient() returns (exit: Exit)
      requires Valid() && childInputOpen
      modifies this`inputEof, clientFramer
      ensures Parts() && Safe() && Heard()
      ensures exit == Running ==> Valid() && inputEof && clientFramer.Abstract() == F.Open([])
      ensures exit == Running || exit == FramingError
      ensures exit == Running <==> old(clientFramer.Abstract()) == F.Open([])
    {
      hide Run, ToChild, ToClient, F.Feeding, ToolCallFilter.Valid, ToolCallFilter.Live;
      var status := clientFramer.Finish();
      if status != F.Ok {
        return FramingError;
      }
      inputEof := true;
      return Running;
    }

    method EndOfServer() returns (exit: Exit)
      requires Valid() && childOutputOpen
      modifies this`outputEof, this`childOutputOpen, serverFramer
      ensures Parts() && Safe() && Heard() && (exit == Running ==> Valid() && outputEof && !childOutputOpen)
      ensures exit == Running || exit == FramingError
      ensures exit == Running <==> old(serverFramer.Abstract()) == F.Open([])
    {
      hide Run, ToChild, ToClient, F.Feeding, ToolCallFilter.Valid, ToolCallFilter.Live;
      var status := serverFramer.Finish();
      if status != F.Ok {
        return FramingError;
      }
      childOutputOpen := false;
      outputEof := true;
      return Running;
    }

    /** Closes the child's stdin and gives up what is still queued for it. */
    method CloseChildInput()
      requires Valid()
      modifies this`childInputOpen, this`toChild, this`childBegin, this`dropped
      ensures Valid() && !childInputOpen && toChild == [] && childBegin == 0
      ensures dropped == (old(dropped) || old(toChild) != [])
    {
      hide Run, ToChild, ToClient, Relay.Parts, Relay.Safe, Relay.Inputs, Relay.ClientQueue, Relay.Owed;
      dropped := dropped || toChild != [];
      childInputOpen := false;
      toChild, childBegin := [], 0;
    }

    /** Closes the child's stdin once there is nothing left to send. */
    method CloseIdleInput()
      requires Valid() && toChild == []
      modifies this`childInputOpen
      ensures Valid() && !childInputOpen
    {
      hide Run, ToChild, ToClient, Relay.Parts, Relay.Safe, Relay.Inputs, Relay.ClientQueue, Relay.Owed;
      childInputOpen := false;
    }

    method MarkReaped()
      requires Valid() && !childInputOpen
      modifies this`childReaped
      ensures Valid() && childReaped
    {
      hide Run, ToChild, ToClient, Relay.Parts, Relay.Safe, Relay.Inputs, Relay.ClientQueue, Relay.Owed;
      childReaped := true;
    }

    method FlushChild(attempt: WriteResult) returns (status: WriteStatus)
      requires Valid() && childInputOpen && toChild != []
      modifies this`toChild, this`childBegin, this`sent
      ensures Valid() && sent == old(sent + Taken(attempt, ChildRest()))
      ensures status == StatusOf(attempt)
    {
      hide Run, ToChild, ToClient, Taken, Capped, Progress, Relay.Parts, Relay.Inputs, Relay.ClientQueue, Relay.Owed, Relay.Due;
      ghost var moved;
      ghost var done, rest := sent, ChildRest();
      status, toChild, childBegin, moved := FlushTo(toChild, childBegin, attempt);
      MoveKeeps(done, moved, ChildRest(), rest);
      sent := sent + moved;
    }

    method WriteChild(attempt: WriteResult) returns (exit: Exit)
      requires Valid() && childInputOpen && toChild != []
      modifies this`toChild, this`childBegin, this`sent, this`childInputOpen, this`inputEof, this`dropped
      ensures Safe() && Parts() && (exit == Running ==> Valid())
      ensures exit == if Progress(attempt) || attempt.WriteRetry? || attempt.PipeBroken? then Running else SystemError
      ensures sent == old(sent + Taken(attempt, ChildRest()))
      ensures childInputOpen <==> !attempt.PipeBroken?
      ensures inputEof == (old(inputEof) || attempt.PipeBroken?)
      ensures dropped == old(dropped) || attempt.PipeBroken?
    {
      hide Taken, Relay.Valid, Relay.Parts, Relay.Safe, Relay.ChildRest;
      var status := FlushChild(attempt);
      if status == BrokenPipe {
        CloseChildInput();
        inputEof := true;
      } else if status == Error {
        ValidHears();
        return SystemError;
      }
      ValidHears();
      return Running;
    }

    method FlushClient(attempt: WriteResult) returns (status: WriteStatus)
      requires Valid() && toClient != []
      modifies this`toClient, this`clientBegin, this`written
      ensures Valid() && written == old(written + Taken(attempt, ClientRest()))
      ensures status == StatusOf(attempt)
    {
      hide Run, ToChild, ToClient, Taken, Capped, Progress, Relay.Parts, Relay.Inputs, Relay.ChildQueue, Relay.Owed, Relay.Due;
      ghost var moved;
      ghost var done, rest := written, ClientRest();
      status, toClient, clientBegin, moved := FlushTo(toClient, clientBegin, attempt);
      MoveKeeps(done, moved, ClientRest(), rest);
      written := written + moved;
    }

    method WriteClient(attempt: WriteResult) returns (exit: Exit)
      requires Valid() && toClient != []
      modifies this`toClient, this`clientBegin, this`written
      ensures Safe() && Parts() && (exit == Running ==> Valid())
      ensures exit == if Progress(attempt) || attempt.WriteRetry? then Running else SystemError
      ensures written == old(written + Taken(attempt, ClientRest()))
    {
      hide Taken, Relay.Valid, Relay.Parts, Relay.Safe, Relay.ClientRest;
      var status := FlushClient(attempt);
      ValidHears();
      if status == BrokenPipe || status == Error {
        return SystemError;
      }
      return Running;
    }

    /** What the client's descriptor brought. */
    method DispatchStdin(result: ReadResult, polled: bool) returns (exit: Exit)
      requires Valid() && PossibleRead(result)
      requires polled ==> childInputOpen && toChild == [] && toClient == []
      modifies this`log, this`toChild, this`toClient, this`clientIn, this`inputEof
      modifies clientFramer, handler`pendingCount, handler`pendingIdBytes, handler.pending
      ensures Parts() && Safe() && Heard() && (exit == Running ==> Valid())
      ensures exit == Running || exit == FramingError || exit == SystemError
      ensures exit == Running <==> !(polled && Breaks(old(clientIn), result, clientFramer.config))
      ensures old(log) <= log
      ensures exit == Running ==>
                && log == old(log) + FromClients(NewLines(old(clientIn), ReadPart(polled, result), clientFramer.config))
                && inputEof == (old(inputEof) || (polled && result.Eof?))
      ensures Grew(old(clientIn), ReadPart(polled, result), clientIn, exit == Running)
      ensures !polled ==> toChild == old(toChild) && ChildRest() == old(ChildRest())
      ensures !polled || !result.Data? ==> toClient == old(toClient) && ClientRest() == old(ClientRest())
    {
      hide Run, ToChild, ToClient, F.Feeding, F.Finishing, FromClients, TakenIf, Taken;
      hide Relay.Valid, Relay.Parts, Relay.Safe, Relay.Queues, Relay.Inputs, Relay.Heard, Relay.Owed, Relay.Due;
      hide F.LineFramer.Abstract, F.LineFramer.Valid, ToolCallFilter.Valid;
      ValidHears();
      FramersAre();
      LoggedNothing(log, clientIn, clientFramer.config);
      Nothing(clientIn);
      exit := Running;
      if polled {
        match result {
          case Data(bytes) =>
            FedIsOpen(clientIn, bytes, clientFramer.config);
            exit := ReadClient(bytes);
          case Eof => exit := EndOfClient();
          case ReadFailed => exit := SystemError;
          case _ =>
        }
      }
    }

    /** What the child's descriptor brought. */
    method DispatchOutput(result: ReadResult, polled: bool) returns (exit: Exit)
      requires Valid() && PossibleRead(result) && (polled ==> childOutputOpen)
      modifies this`log, this`toClient, this`serverIn, this`outputEof, this`childOutputOpen
      modifies serverFramer, handler`pendingCount, handler`pendingIdBytes, handler`rewrittenResponse, handler.pending
      ensures Parts() && Safe() && Heard() && (exit == Running ==> Valid())
      ensures exit != Finished && (exit == QueueOverflow ==> polled && result.Data? && old(toClient) != [])
      ensures exit != QueueOverflow ==>
                (exit == Running <==> !(polled && Breaks(old(serverIn), result, clientFramer.config)))
      ensures old(log) <= log
      ensures exit == Running ==>
                && log == old(log) + FromServers(NewLines(old(serverIn), ReadPart(polled, result), clientFramer.config))
                && childOutputOpen == (old(childOutputOpen) && !(polled && result.Eof?))
      ensures Grew(old(serverIn), ReadPart(polled, result), serverIn, exit == Running)
      ensures !polled ==> toClient == old(toClient) && ClientRest() == old(ClientRest())
    {
      hide Run, ToChild, ToClient, F.Feeding, F.Finishing, FromServers, TakenIf, Taken;
      hide Relay.Valid, Relay.Parts, Relay.Safe, Relay.Queues, Relay.Inputs, Relay.Heard, Relay.Owed, Relay.Due;
      hide F.LineFramer.Abstract, F.LineFramer.Valid, ToolCallFilter.Valid;
      ValidHears();
      FramersAre();
      LoggedNothing(log, serverIn, clientFramer.config);
      Nothing(serverIn);
      exit := Running;
      if polled {
        match result {
          case Data(bytes) =>
            FedIsOpen(serverIn, bytes, clientFramer.config);
            exit := ReadServer(bytes);
          case Eof => exit := EndOfServer();
          case ReadFailed => exit := SystemError;
          case _ =>
        }
      }
    }

    method DispatchReads(round: Round, pollStdin: bool, pollOutput: bool) returns (exit: Exit)
      requires Valid() && PossibleRead(round.stdin) && PossibleRead(round.childOutput)
      requires pollStdin ==> childInputOpen && toChild == [] && toClient == []
      requires pollOutput ==> childOutputOpen && toClient == []
      modifies this`log, this`toChild, this`toClient, this`clientIn, this`serverIn
      modifies this`inputEof, this`outputEof, this`childOutputOpen
      modifies clientFramer, serverFramer, handler, handler.pending
      ensures Parts() && Safe() && Heard() && (exit == Running ==> Valid())
      ensures exit != Finished
      ensures exit == QueueOverflow ==> pollStdin && round.stdin.Data? && pollOutput && round.childOutput.Data?
      ensures exit != QueueOverflow ==>
                (exit == Running <==>
                  && !(pollStdin && Breaks(old(clientIn), round.stdin, clientFramer.config))
                  && !(pollOutput && Breaks(old(serverIn), round.childOutput, clientFramer.config)))
      ensures old(log) <= log
      ensures exit == Running ==>
                && log == Logged(old(log), old(clientIn), ReadPart(pollStdin, round.stdin),
                                 old(serverIn), ReadPart(pollOutput, round.childOutput), clientFramer.config)
                && inputEof == (old(inputEof) || (pollStdin && round.stdin.Eof?))
                && childOutputOpen == (old(childOutputOpen) && !(pollOutput && round.childOutput.Eof?))
      ensures Grew(old(clientIn), ReadPart(pollStdin, round.stdin), clientIn, exit == Running)
      ensures Grew(old(serverIn), ReadPart(pollOutput, round.childOutput), serverIn, exit == Running)
      ensures !pollStdin ==> toChild == old(toChild) && ChildRest() == old(ChildRest())
      ensures old(toClient) != [] && !pollStdin && !pollOutput ==>
                toClient == old(toClient) && ClientRest() == old(ClientRest())
    {
      hide Run, ToChild, ToClient, F.Feeding, FromClients, FromServers, NewLines, ReadPart, Grew, PossibleRead;
      hide Relay.Valid, Relay.Parts, Relay.Safe, Relay.Heard, Relay.ChildRest, Relay.ClientRest;
      GrewNothing(serverIn, ReadPart(pollOutput, round.childOutput));
      GrewAnyway(clientIn, ReadPart(pollStdin, round.stdin));
      exit := DispatchStdin(round.stdin, pollStdin);
      if exit == Running {
        exit := DispatchOutput(round.childOutput, pollOutput);
      }
    }

    method DispatchWrites(round: Round, pollInput: bool, pollStdout: bool) returns (exit: Exit)
      requires Valid()
      requires pollInput ==> childInputOpen && toChild != []
      requires pollStdout ==> toClient != []
      modifies this`toChild, this`childBegin, this`sent, this`childInputOpen, this`inputEof, this`dropped
      modifies this`toClient, this`clientBegin, this`written
      ensures Parts() && Safe() && (exit == Running ==> Valid())
      ensures exit == Running || exit == SystemError
      ensures exit == Running <==>
                && !(pollInput && Stuck(round.childInput) && !round.childInput.PipeBroken?)
                && !(pollStdout && Stuck(round.stdout))
      ensures exit == Running ==>
                var broken := pollInput && round.childInput.PipeBroken?;
                childInputOpen == (old(childInputOpen) && !broken) && inputEof == (old(inputEof) || broken)
      ensures Grew(old(sent), TakenIf(pollInput, round.childInput, old(ChildRest())), sent, exit == Running)
      ensures Grew(old(written), TakenIf(pollStdout, round.stdout, old(ClientRest())), written, exit == Running)
    {
      Nothing(sent);
      Nothing(written);
      NotTaken(pollInput, round.childInput);
      NotTaken(pollStdout, round.stdout);
      hide Run, ToChild, ToClient, Taken;
      hide Relay.Parts, Relay.Safe, Relay.Queues, Relay.Inputs;
      exit := Running;
      if pollInput && round.childInput != NotReady {
        exit := WriteChild(round.childInput);
      }
      if exit == Running && pollStdout && round.stdout != NotReady {
        exit := WriteClient(round.stdout);
      }
    }

    /** The descriptors that `poll` reported, in the order they were registered. */
    method Dispatch(round: Round, pollStdin: bool, pollOutput: bool, pollInput: bool, pollStdout: bool)
      returns (exit: Exit)
      requires Valid() && PossibleRead(round.stdin) && PossibleRead(round.childOutput)
      requires pollStdin ==> childInputOpen && toChild == [] && toClient == []
      requires pollOutput ==> childOutputOpen && toClient == []
      requires pollInput ==> childInputOpen && toChild != []
      requires pollStdout ==> toClient != []
      modifies this, clientFramer, serverFramer, handler, handler.pending
      ensures Parts() && Safe() && Heard() && (exit == Running ==> Valid())
      ensures exit != Finished
      ensures exit == QueueOverflow ==> pollStdin && round.stdin.Data? && pollOutput && round.childOutput.Data?
      ensures exit != QueueOverflow ==>
                var p := Polled(pollStdin, pollOutput, pollInput, pollStdout);
                exit == Running <==> !Faulty(round, p, old(clientIn), old(serverIn), clientFramer.config)
      ensures old(log) <= log && childReaped == old(childReaped) && sentTermination == old(sentTermination)
      ensures exit == Running ==>
                var broken := pollInput && round.childInput.PipeBroken?;
                && log == Logged(old(log), old(clientIn), ReadPart(pollStdin, round.stdin),
                                 old(serverIn), ReadPart(pollOutput, round.childOutput), clientFramer.config)
                && inputEof == (old(inputEof) || (pollStdin && round.stdin.Eof?) || broken)
                && childOutputOpen == (old(childOutputOpen) && !(pollOutput && round.childOutput.Eof?))
                && childInputOpen == (old(childInputOpen) && !broken)
      ensures Grew(old(clientIn), ReadPart(pollStdin, round.stdin), clientIn, exit == Running)
      ensures Grew(old(serverIn), ReadPart(pollOutput, round.childOutput), serverIn, exit == Running)
      ensures Grew(old(sent), TakenIf(pollInput, round.childInput, old(ChildRest())), sent, exit == Running)
      ensures Grew(old(written), TakenIf(pollStdout, round.stdout, old(ClientRest())), written, exit == Running)
    {
      hide *;
      GrewNothing(sent, TakenIf(pollInput, round.childInput, ChildRest()));
      GrewNothing(written, TakenIf(pollStdout, round.stdout, ClientRest()));
      GrewAnyway(clientIn, ReadPart(pollStdin, round.stdin));
      GrewAnyway(serverIn, ReadPart(pollOutput, round.childOutput));
      NotTaken(pollInput, round.childInput);
      NotTaken(pollStdout, round.stdout);
      FaultyParts(round, Polled(pollStdin, pollOutput, pollInput, pollStdout), clientIn, serverIn, clientFramer.config);
      exit := DispatchReads(round, pollStdin, pollOutput);
      if exit == Running {
        exit := DispatchWrites(round, pollInput, pollStdout);
      }
    }

    /** The same, as what the machine does with the polled descriptors. */
    method Perform(round: Round, pollStdin: bool, pollOutput: bool, pollInput: bool, pollStdout: bool)
      returns (exit: Exit, ghost moved: Traffic)
      requires Valid() && PossibleRead(round.stdin) && PossibleRead(round.childOutput)
      requires pollStdin ==> childInputOpen && toChild == [] && toClient == []
      requires pollOutput ==> childOutputOpen && toClient == []
      requires pollInput ==> childInputOpen && toChild != []
      requires pollStdout ==> toClient != []
      modifies this, clientFramer, serverFramer, handler, handler.pending
      ensures Parts() && Safe() && Heard() && (exit == Running ==> Valid())
      ensures exit != Finished
      ensures exit == QueueOverflow ==> pollStdin && round.stdin.Data? && pollOutput && round.childOutput.Data?
      ensures exit != QueueOverflow ==>
                var p := Polled(pollStdin, pollOutput, pollInput, pollStdout);
                exit == Running <==> !Faulty(round, p, old(clientIn), old(serverIn), clientFramer.config)
      ensures old(log) <= log && Streams() == Plus(old(Streams()), moved)
      ensures var p := Polled(pollStdin, pollOutput, pollInput, pollStdout);
              var all := Transfer(round, p, old(ChildRest()), old(ClientRest()));
              && PartsOf(moved, all)
              && (exit == Running ==>
                   moved == all && View() == Dispatched(old(View()), round, p, all, clientFramer.config))
    {
      hide Run, ToChild, ToClient, Taken, TakenIf, ReadPart, Plus, Grew, PartsOf, Logged;
      hide Relay.Valid, Relay.Parts, Relay.Safe, Relay.Heard, Relay.ChildRest, Relay.ClientRest;
      ghost var streams := Streams();
      ghost var all := Transfer(round, Polled(pollStdin, pollOutput, pollInput, pollStdout), ChildRest(), ClientRest());
      GrewAnyway(clientIn, all.clientIn);
      GrewAnyway(serverIn, all.serverIn);
      GrewAnyway(sent, all.sent);
      GrewAnyway(written, all.written);
      exit := Dispatch(round, pollStdin, pollOutput, pollInput, pollStdout);
      moved := Difference(streams, Streams(), all);
    }

    /** The start of a pass: reaping, termination, closing. */
    method Settle(round: Round) returns (exit: Exit)
      requires Valid()
      modifies this`childReaped, this`sentTermination
      modifies this`childInputOpen, this`toChild, this`childBegin, this`dropped
      ensures Valid()
      ensures exit == SystemError <==> old(!childReaped && round.reap.ReapFailed?)
      ensures exit == Finished <==> outputEof && toClient == [] && childReaped && exit != SystemError
      ensures exit == Running || exit == SystemError || exit == Finished
      ensures exit == SystemError ==> unchanged(`childReaped) && unchanged(`sentTermination)
      ensures exit == SystemError ==> unchanged(`childInputOpen) && unchanged(`toChild) && unchanged(`dropped)
      ensures exit != SystemError ==>
                var was := old(View());
                var closes := Reaps(was, round) || Terminates(was, round);
                && childReaped == (was.reaped || Reaps(was, round))
                && sentTermination == (was.terminated || Terminates(was, round))
                && childInputOpen == KeepsInput(was, round, Laws())
                && (if closes then toChild == [] && childBegin == 0
                    else unchanged(`toChild) && unchanged(`childBegin) && this.ChildRest() == old(this.ChildRest()))
                && dropped == (old(dropped) || (closes && old(toChild) != []))
    {
      hide Run, ToChild, ToClient, Relay.Valid, RelayMachine.ChildRest;
      RestsAre();
      if !childReaped {
        if round.reap == Reaped {
          CloseChildInput();
          MarkReaped();
        } else if round.reap == ReapFailed {
          return SystemError;
        }
      }
      if round.terminate && !sentTermination && !childReaped {
        CloseChildInput();
        sentTermination := true;
      }
      if inputEof && toChild == [] {
        CloseIdleInput();
      }
      if outputEof && toClient == [] && childReaped {
        return Finished;
      }
      return Running;
    }

    /** The pass up to `poll`: which descriptors are registered. */
    method Register(round: Round)
      returns (exit: Exit, pollStdin: bool, pollOutput: bool, pollInput: bool, pollStdout: bool)
      requires Valid()
      modifies this`childReaped, this`sentTermination
      modifies this`childInputOpen, this`toChild, this`childBegin, this`dropped
      ensures Valid()
      ensures exit == Running || exit == SystemError || (exit == Finished && childReaped && outputEof && toClient == [])
      ensures exit == SystemError <==> old(!childReaped && round.reap.ReapFailed?)
      ensures exit == Finished <==> Ends(old(View()), round, Laws())
      ensures pollStdin ==> childInputOpen && toChild == [] && toClient == []
      ensures pollOutput ==> childOutputOpen && toClient == []
      ensures pollInput ==> childInputOpen && toChild != []
      ensures pollStdout ==> toClient != []
      ensures exit == Running ==>
                var was := old(View());
                && Polled(pollStdin, pollOutput, pollInput, pollStdout) == Polls(was, round, Laws())
                && childReaped == (was.reaped || Reaps(was, round))
                && sentTermination == (was.terminated || Terminates(was, round))
                && childInputOpen == KeepsInput(was, round, Laws())
                && (pollInput ==> this.ChildRest() == RelayMachine.ChildRest(was, Laws()))
                && this.ClientRest() == RelayMachine.ClientRest(was, Laws())
    {
      hide Run, ToChild, ToClient, Relay.Valid, Relay.ChildRest, Relay.ClientRest;
      hide RelayMachine.ChildRest, RelayMachine.ClientRest;
      RestsAre();
      FramersAre();
      pollStdin, pollOutput, pollInput, pollStdout := false, false, false, false;
      exit := Settle(round);
      if exit == Running {
        pollStdin := !inputEof && childInputOpen && toChild == [] && toClient == [];
        pollOutput := childOutputOpen && toClient == [];
        pollInput := childInputOpen && toChild != [];
        pollStdout := toClient != [];
      }
    }

    /** One pass of the loop. Without a failure it is one pass of the machine; with one, each part
        of its traffic is what the machine moves or nothing. */
    method Step(round: Round) returns (exit: Exit, ghost moved: Traffic)
      requires Valid() && PossibleRead(round.stdin) && PossibleRead(round.childOutput)
      modifies this, clientFramer, serverFramer, handler, handler.pending
      ensures Parts() && Safe() && Heard() && (exit == Running || exit == Finished ==> Valid())
      ensures exit == Finished ==> childReaped && outputEof && toClient == []
      ensures exit == Finished <==> Ends(old(View()), round, Laws())
      ensures exit == QueueOverflow ==> BothRead(old(View()), round, Laws())
      ensures exit == Running ==> !Faults(old(View()), round, Laws())
      ensures exit == FramingError || exit == SystemError ==> Faults(old(View()), round, Laws())
      ensures old(log) <= log
      ensures Streams() == Plus(old(Streams()), moved) && Possible(round, moved)
      ensures PartsOf(moved, Moves(old(View()), round, Laws()))
      ensures exit == Running ==>
                moved == Moves(old(View()), round, Laws()) && View() == Next(old(View()), round, Laws())
    {
      hide Run, ToChild, ToClient, Possible, Plus, PartsOf, Transfer, Dispatched;
      hide Relay.Valid, Relay.Parts, Relay.Safe, Relay.Heard, Relay.ChildRest, Relay.ClientRest;
      hide RelayMachine.ChildRest, RelayMachine.ClientRest, Polls, KeepsInput, Reaps, Terminates;
      ghost var was, laws := View(), Laws();
      MovesNothing(was, round, laws);
      MovesPossible(was, round, laws);
      PlusNothing(was.traffic);
      moved := NO_TRAFFIC;
      var pollStdin, pollOutput, pollInput, pollStdout;
      exit, pollStdin, pollOutput, pollInput, pollStdout := Register(round);
      ValidHears();
      if exit != Running {
        return;
      }
      match round.poll {
        case PollFailed => return SystemError, moved;
        case Ready =>
          TransferSame(round, Polls(was, round, laws), ChildRest(), RelayMachine.ChildRest(was, laws), ClientRest());
          exit, moved := Perform(round, pollStdin, pollOutput, pollInput, pollStdout);
        case _ => return Running, moved;
      }
    }

    /** Both reads of one pass returned data. */
    static predicate BothSides(rounds: seq<Round>) {
      exists k :: 0 <= k < |rounds| && rounds[k].stdin.Data? && rounds[k].childOutput.Data?
    }

    /** The whole loop over any schedule of system calls. Whatever happens, the messages inspected
        are the framed lines of the bytes read, the child has received a prefix of the forwarded
        ones and the client a prefix of what it is due. `steps` is what each round moved; the
        streams are their sum, and the passes follow the machine. If the loop ends by itself, every
        line the child wrote has been inspected and everything due to the client has been written;
        unless input was dropped because the child or its stdin went away first, the child has
        received everything too. Only input from both sides in one pass can overflow a queue, and
        the loop fails only in a pass in which something fails. Once the child is gone and its output has ended, it ends
        after at most as many passes in which the client takes something as bytes wait for it. */
    method Serve(rounds: seq<Round>) returns (exit: Exit, ghost steps: seq<Traffic>)
      requires Valid()
      requires forall k :: 0 <= k < |rounds| ==> PossibleRead(rounds[k].stdin) && PossibleRead(rounds[k].childOutput)
      modifies this, clientFramer, serverFramer, handler, handler.pending
      ensures Parts() && Safe() && Heard() && (exit == Running ==> Valid())
      ensures |steps| <= |rounds| && forall k :: 0 <= k < |steps| ==> Possible(rounds[k], steps[k])
      ensures Streams() == Plus(old(Streams()), Total(steps))
      ensures Follows(old(View()), rounds, steps, exit == Running, Laws())
      ensures exit == Running ==> |steps| == |rounds| && View() == AfterPasses(old(View()), rounds, Laws())
      ensures exit == Finished ==> written == Due() && serverIn == F.Joined(ServerMessages(log))
      ensures exit == Finished ==> dropped || sent == Owed()
      ensures exit == QueueOverflow ==> BothSides(rounds)
      ensures StopsWith(old(View()), rounds, |steps|, exit, Laws())
      ensures exit == Running ==> !(Over(View()) && Waiting(View(), Laws()) == 0)
      ensures Over(old(View())) && AllDrain(rounds) && |rounds| >= Waiting(old(View()), Laws()) ==> exit == Finished
      ensures exit != Running ==> handler.Live() == []
      ensures old(log) <= log
    {
      hide *;
      ghost var streams, was, laws := Streams(), View(), Laws();
      ValidHears();
      ViewSound();
      PlusNothing(streams);
      StopsNormally(was, rounds, 0, laws);
      FollowsNothing(was, rounds, laws);
      exit, steps := Running, [];
      var i := 0;
      while exit == Running && (!childReaped || childOutputOpen || toClient != []) && i < |rounds|
        invariant 0 <= i <= |rounds| && Parts() && Safe() && Heard()
        invariant |steps| == i && forall k :: 0 <= k < i ==> Possible(rounds[k], steps[k])
        invariant Streams() == Plus(streams, Total(steps))
        invariant Follows(was, rounds, steps, exit == Running, laws)
        invariant exit == Running ==> View() == AfterPasses(was, rounds[..i], laws)
        invariant exit == Running || exit == Finished ==> Valid()
        invariant exit == Finished ==> childReaped && outputEof && toClient == []
        invariant StopsWith(was, rounds, i, exit, laws)
        invariant old(log) <= log
        decreases |rounds| - i
      {
        ghost var moved;
        exit, moved := Step(rounds[i]);
        StopsHere(was, rounds, i, exit, laws);
        TotalStep(streams, steps, moved);
        FollowsStep(was, rounds, steps, moved, exit == Running, laws);
        steps := steps + [moved];
        i := i + 1;
      }
      if exit == Running && childReaped && !childOutputOpen && toClient == [] {
        OutputEnded();
        FollowsAnyway(was, rounds, steps, laws);
        StopsNormally(was, rounds, i, laws);
        exit := Finished;
      }
      assert exit == Running ==> rounds[..i] == rounds;
      if exit == Running { NotOver(); }
      StopsBoth(was, rounds, i, exit, laws);
      CannotFail(was, rounds, i, exit, laws);
      if exit == Finished {
        AllWritten();
      }
      if exit != Running {
        Disconnect();
      }
    }

    lemma ValidHears()
      requires Valid()
      ensures Parts() && Safe() && Heard()
    {
      hide Relay.Parts, Relay.Safe, Relay.Queues, F.Feeding, ClientMessages, ServerMessages;
    }

    /** The queues hold what the machine says waits. */
    lemma RestsAre()
      requires Valid()
      ensures this.ChildRest() == RelayMachine.ChildRest(View(), Laws())
      ensures this.ClientRest() == RelayMachine.ClientRest(View(), Laws())
      ensures (toChild == [] <==> this.ChildRest() == []) && (toClient == [] <==> this.ClientRest() == [])
    {
      hide Run, ToChild, ToClient, Relay.Parts, Relay.Inputs;
      RestFrom(sent, this.ChildRest(), Owed());
      RestFrom(written, this.ClientRest(), Due());
    }

    /** The framers are where framing the bytes read leaves them. */
    lemma FramersAre()
      requires Valid()
      ensures clientFramer != serverFramer && clientFramer.config == serverFramer.config
      ensures clientFramer.Abstract() == F.Feeding(F.Open([]), clientIn, clientFramer.config).0
      ensures serverFramer.Abstract() == F.Feeding(F.Open([]), serverIn, clientFramer.config).0
      ensures outputEof == !childOutputOpen
    {
      hide Run, F.Feeding, F.LineFramer.Abstract, Relay.Safe, Relay.Queues, ToolCallFilter.Valid;
    }

    /** The relay is where the statements about the machine's passes apply. */
    lemma ViewSound()
      requires Valid()
      ensures Sound(View(), Laws())
    {
      hide Run, ToChild, ToClient, Relay.Parts, Relay.Inputs;
    }

    lemma NotOver()
      requires Valid() && !(childReaped && !childOutputOpen && toClient == [])
      ensures !(Over(View()) && Waiting(View(), Laws()) == 0)
    {
      hide Run, ToChild, ToClient, Relay.Parts, Relay.Inputs, Relay.Safe, Relay.ChildQueue;
    }

    lemma OutputEnded()
      requires Valid() && !childOutputOpen
      ensures outputEof
    {
    }

    /** What a finished loop has achieved. */
    lemma AllWritten()
      requires Valid() && outputEof && toClient == [] && childReaped
      ensures written == Due() && serverIn == F.Joined(ServerMessages(log))
      ensures dropped || sent == Owed()
    {
      hide Run, ToChild, ToClient, F.Feeding;
      F.FeedMeaning(serverIn, serverFramer.config);
      F.LinesCover(serverIn);
      NoTrim(F.Lines(serverIn), serverFramer.config);
    }

    /** The end of the handler's connection scope. */
    method Disconnect()
      requires Parts() && Safe()
      modifies this`log, handler, handler.pending
      ensures Parts() && Safe() && handler.Live() == []
      ensures log == old(log) + [Closed] && Owed() == old(Owed()) && Due() == old(Due())
      ensures ServerMessages(log) == ServerMessages(old(log)) && (old(Heard()) ==> Heard())
    {
      hide Run, ToChild, ToClient, ClientMessages, ServerMessages, F.Feeding, ToolCallFilter.Valid, ToolCallFilter.Live;
      ClosedStep(log, handler.config, handler.policy);
      log := log + [Closed];
      handler.ConnectionClosed();
    }
  }

  /** Why the loop stopped after `n` rounds. */
  ghost predicate StopsWith(s: State, rounds: seq<Round>, n: nat, exit: Exit, rules: Rules)
    requires n <= |rounds|
  {
    match exit
    case Running => true
    case Finished => true
    case QueueOverflow => n > 0 && BothRead(AfterPasses(s, rounds[..n - 1], rules), rounds[n - 1], rules)
    case _ => n > 0 && Faults(AfterPasses(s, rounds[..n - 1], rules), rounds[n - 1], rules)
  }

  lemma StopsNormally(s: State, rounds: seq<Round>, n: nat, rules: Rules)
    requires n <= |rounds|
    ensures StopsWith(s, rounds, n, Running, rules) && StopsWith(s, rounds, n, Finished, rules)
  {
  }

  lemma StopsBoth(s: State, rounds: seq<Round>, n: nat, exit: Exit, rules: Rules)
    requires n <= |rounds| && StopsWith(s, rounds, n, exit, rules)
    ensures exit == QueueOverflow ==> Relay.BothSides(rounds)
  {
    hide AfterPasses, Polls;
  }

  lemma StopsHere(s: State, rounds: seq<Round>, i: nat, exit: Exit, rules: Rules)
    requires i < |rounds|
    requires var t := AfterPasses(s, rounds[..i], rules);
             && (exit == QueueOverflow ==> BothRead(t, rounds[i], rules))
             && (exit == FramingError || exit == SystemError ==> Faults(t, rounds[i], rules))
    ensures StopsWith(s, rounds, i + 1, exit, rules)
  {
    hide AfterPasses, BothRead, Faults;
  }

  lemma CannotFail(s: State, rounds: seq<Round>, n: nat, exit: Exit, rules: Rules)
    requires Sound(s, rules) && n <= |rounds| && StopsWith(s, rounds, n, exit, rules)
    requires exit == Running ==> var end := AfterPasses(s, rounds, rules); !(Over(end) && Waiting(end, rules) == 0)
    ensures Over(s) && AllDrain(rounds) && |rounds| >= Waiting(s, rules) ==> exit == Finished
  {
    hide AfterPasses, BothRead, Faults, Sound, ToClient;
    if Over(s) && AllDrain(rounds) { Finishes(s, rounds, rules); }
  }

  lemma Nothing(done: Bytes)
    ensures done + [] == done
  {
  }

  lemma FedIsOpen(stream: Bytes, bytes: Bytes, framing: F.Config)
    ensures F.Feeding(F.Feeding(F.Open([]), stream, framing).0, bytes, framing).0 ==
            F.Feeding(F.Open([]), stream + bytes, framing).0
  {
    hide F.Feeding;
    F.FeedTwice(F.Open([]), stream, bytes, framing);
  }

  lemma FaultyParts(round: Round, p: Polled, clientIn: Bytes, serverIn: Bytes, framing: F.Config)
    ensures Faulty(round, p, clientIn, serverIn, framing) <==>
              || (p.stdin && Breaks(clientIn, round.stdin, framing))
              || (p.childOutput && Breaks(serverIn, round.childOutput, framing))
              || (p.childInput && Stuck(round.childInput) && !round.childInput.PipeBroken?)
              || (p.stdout && Stuck(round.stdout))
  {
    hide Breaks, Stuck;
  }

  lemma RestFrom(done: Bytes, rest: Bytes, stream: Bytes)
    ensures done + rest == stream ==> From(stream, |done|) == rest
  {
  }

  /** Nothing read completes no line. */
  lemma LoggedNothing(log: seq<Event>, stream: Bytes, framing: F.Config)
    ensures log + FromClients(NewLines(stream, [], framing)) == log == log + FromServers(NewLines(stream, [], framing))
  {
    hide F.NewlineAt;
  }

  /** What waits for the child matters only if its descriptor is polled. */
  lemma TransferSame(round: Round, p: Polled, childRest: Bytes, other: Bytes, clientRest: Bytes)
    requires p.childInput ==> childRest == other
    ensures Transfer(round, p, childRest, clientRest) == Transfer(round, p, other, clientRest)
  {
    hide Taken, ReadPart;
  }

  lemma NotTaken(polled: bool, attempt: WriteResult)
    ensures !polled ==> forall rest :: TakenIf(polled, attempt, rest) == []
    ensures attempt == NotReady ==> forall rest :: TakenIf(polled, attempt, rest) == []
  {
  }

  lemma GrewNothing(before: Bytes, part: Bytes)
    ensures Grew(before, part, before, false) && Grew(before, [], before, true)
  {
    Nothing(before);
  }

  lemma GrewAnyway(before: Bytes, part: Bytes)
    ensures forall after :: Grew(before, part, after, true) ==> Grew(before, part, after, false)
  {
  }

  /** What was added, if each stream grew by that part of `all` or not at all. */
  ghost function Difference(before: Traffic, after: Traffic, all: Traffic): (moved: Traffic)
    requires Grew(before.clientIn, all.clientIn, after.clientIn, false)
    requires Grew(before.serverIn, all.serverIn, after.serverIn, false)
    requires Grew(before.sent, all.sent, after.sent, false)
    requires Grew(before.written, all.written, after.written, false)
    ensures PartsOf(moved, all) && after == Plus(before, moved)
    ensures Grew(before.clientIn, all.clientIn, after.clientIn, true) ==> moved.clientIn == all.clientIn
    ensures Grew(before.serverIn, all.serverIn, after.serverIn, true) ==> moved.serverIn == all.serverIn
    ensures Grew(before.sent, all.sent, after.sent, true) ==> moved.sent == all.sent
    ensures Grew(before.written, all.written, after.written, true) ==> moved.written == all.written
  {
    Traffic(
      Added(before.clientIn, all.clientIn, after.clientIn), Added(before.serverIn, all.serverIn, after.serverIn),
      Added(before.sent, all.sent, after.sent), Added(before.written, all.written, after.written))
  }

  ghost function Added(before: Bytes, part: Bytes, after: Bytes): (added: Bytes)
    requires Grew(before, part, after, false)
    ensures (added == [] || added == part) && after == before + added
    ensures Grew(before, part, after, true) ==> added == part
  {
    Nothing(before);
    if after == before + part then part else []
  }

  lemma {:induction false} NoTrim(lines: seq<Bytes>, config: F.Config)
    requires !config.trimCarriageReturn
    ensures F.TrimAll(lines, config) == lines
    decreases |lines|
  {
    if lines != [] {
      NoTrim(lines[1..], config);
      assert lines == [lines[0]] + lines[1..];
    }
  }

  lemma AppendKeepsRest(done: Bytes, queue: Bytes, begin: nat, more: Bytes)
    requires begin <= |queue|
    ensures done + (queue + more)[begin..] == done + queue[begin..] + more
  {
  }

  lemma MoveKeeps(done: Bytes, moved: Bytes, left: Bytes, rest: Bytes)
    requires moved + left == rest
    ensures done + moved + left == done + rest && done + moved <= done + rest
  {
  }
}

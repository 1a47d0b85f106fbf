/** What the relay owes each side, as functions of the messages it has inspected so far, and
    how much one read can add to a queue (src/linux_stdio_relay.cpp). */
module RelayStreams {
  import opened Bytes
  import opened JsonRpc
  import opened Policy
  import opened Rewriter
  import opened RewriterMeaning
  import opened Filter
  import opened FilterRuns
  import opened ErrorResponses
  import F = Framer

  /** The most one `read` returns. */
  const READ_CHUNK: nat := 65536

  /** Room for the error responses to one chunk of client messages. */
  const RESPONSE_EXPANSION: nat := 4 * READ_CHUNK + 512

  // ---- what one message adds to a queue ----

  function ForwardText(message: Bytes, ids: seq<Bytes>, config: Config, policy: PolicyTable): Bytes {
    if DecideClient(message, ids, config, policy).Forward? then message + "\n" else []
  }

  function ReplyText(message: Bytes, ids: seq<Bytes>, config: Config, policy: PolicyTable): Bytes {
    match DecideClient(message, ids, config, policy)
    case Respond(id, code, text) => ErrorText(id, code, text)
    case _ => []
  }

  ghost function DeliveredText(message: Bytes, ids: seq<Bytes>, config: Config, policy: PolicyTable): Bytes {
    match DecideServer(message, ids, config, policy)
    case Deliver => message + "\n"
    case Withhold => []
    case Substitute(text) => text + "\n"
  }

  function ChildPart(e: Event, ids: seq<Bytes>, config: Config, policy: PolicyTable): Bytes {
    if e.FromClient? then ForwardText(e.message, ids, config, policy) else []
  }

  ghost function ClientPart(e: Event, ids: seq<Bytes>, config: Config, policy: PolicyTable): Bytes {
    match e
    case FromClient(message) => ReplyText(message, ids, config, policy)
    case FromServer(message) => DeliveredText(message, ids, config, policy)
    case Closed => []
  }

  // ---- what a whole run owes ----

  /** Everything the child is owed: the forwarded messages in order, a newline after each. */
  function ToChild(log: seq<Event>, config: Config, policy: PolicyTable): Bytes
    decreases |log|
  {
    if log == [] then []
    else
      var before := log[..|log| - 1];
      ToChild(before, config, policy) + ChildPart(log[|log| - 1], Run(before, config), config, policy)
  }

  /** Everything the client is owed: error responses, delivered and rewritten messages. */
  ghost function ToClient(log: seq<Event>, config: Config, policy: PolicyTable): Bytes
    decreases |log|
  {
    if log == [] then []
    else
      var before := log[..|log| - 1];
      ToClient(before, config, policy) + ClientPart(log[|log| - 1], Run(before, config), config, policy)
  }

  function ClientMessages(log: seq<Event>): seq<Bytes>
    decreases |log|
  {
    if log == [] then []
    else
      var e := log[|log| - 1];
      ClientMessages(log[..|log| - 1]) + (if e.FromClient? then [e.message] else [])
  }

  function ServerMessages(log: seq<Event>): seq<Bytes>
    decreases |log|
  {
    if log == [] then []
    else
      var e := log[|log| - 1];
      ServerMessages(log[..|log| - 1]) + (if e.FromServer? then [e.message] else [])
  }

  function FromClients(messages: seq<Bytes>): seq<Event> {
    seq(|messages|, i requires 0 <= i < |messages| => FromClient(messages[i]))
  }

  function FromServers(messages: seq<Bytes>): seq<Event> {
    seq(|messages|, i requires 0 <= i < |messages| => FromServer(messages[i]))
  }

  /** The log after one more of the messages. */
  lemma OneMore(log: seq<Event>, messages: seq<Bytes>, k: nat)
    requires k < |messages|
    ensures log + FromClients(messages[..k]) + [FromClient(messages[k])] == log + FromClients(messages[..k + 1])
    ensures log + FromServers(messages[..k]) + [FromServer(messages[k])] == log + FromServers(messages[..k + 1])
    ensures messages[..k] + [messages[k]] == messages[..k + 1]
  {
  }

  lemma NothingOwed(config: Config, policy: PolicyTable)
    ensures Run([], config) == [] && ToChild([], config, policy) == [] && ToClient([], config, policy) == []
    ensures ClientMessages([]) == [] && ServerMessages([]) == []
  {
  }

  lemma NoneYet(log: seq<Event>, messages: seq<Bytes>)
    ensures log + FromClients(messages[..0]) == log == log + FromServers(messages[..0])
    ensures messages[..|messages|] == messages && messages[..0] == []
  {
  }

  lemma LogStep(log: seq<Event>, e: Event, config: Config, policy: PolicyTable)
    ensures Run(log + [e], config) == After(Run(log, config), e, config)
    ensures ToChild(log + [e], config, policy) == ToChild(log, config, policy) + ChildPart(e, Run(log, config), config, policy)
    ensures ToClient(log + [e], config, policy) == ToClient(log, config, policy) + ClientPart(e, Run(log, config), config, policy)
    ensures ClientMessages(log + [e]) == ClientMessages(log) + (if e.FromClient? then [e.message] else [])
    ensures ServerMessages(log + [e]) == ServerMessages(log) + (if e.FromServer? then [e.message] else [])
  {
    hide ChildPart, ClientPart, After;
    assert (log + [e])[..|log|] == log;
  }

  lemma ClientStep(log: seq<Event>, message: Bytes, config: Config, policy: PolicyTable)
    ensures var ids, after := Run(log, config), log + [FromClient(message)];
            && Run(after, config) == AfterClient(message, ids, config)
            && ToChild(after, config, policy) == ToChild(log, config, policy) + ForwardText(message, ids, config, policy)
            && ToClient(after, config, policy) == ToClient(log, config, policy) + ReplyText(message, ids, config, policy)
            && ClientMessages(after) == ClientMessages(log) + [message] && ServerMessages(after) == ServerMessages(log)
  {
    hide Run, ToChild, ToClient, ClientMessages, ServerMessages, AfterClient, ForwardText, ReplyText;
    LogStep(log, FromClient(message), config, policy);
    assert ServerMessages(log) + [] == ServerMessages(log);
  }

  lemma ServerStep(log: seq<Event>, message: Bytes, config: Config, policy: PolicyTable)
    ensures var ids, after := Run(log, config), log + [FromServer(message)];
            && Run(after, config) == AfterServer(message, ids, config)
            && ToChild(after, config, policy) == ToChild(log, config, policy)
            && ToClient(after, config, policy) == ToClient(log, config, policy) + DeliveredText(message, ids, config, policy)
            && ServerMessages(after) == ServerMessages(log) + [message] && ClientMessages(after) == ClientMessages(log)
  {
    hide Run, ToChild, ToClient, ClientMessages, ServerMessages, AfterServer, DeliveredText;
    LogStep(log, FromServer(message), config, policy);
    assert ClientMessages(log) + [] == ClientMessages(log);
    assert ToChild(log, config, policy) + [] == ToChild(log, config, policy);
  }

  lemma ClosedStep(log: seq<Event>, config: Config, policy: PolicyTable)
    ensures var after := log + [Closed];
            && Run(after, config) == []
            && ToChild(after, config, policy) == ToChild(log, config, policy)
            && ToClient(after, config, policy) == ToClient(log, config, policy)
            && ClientMessages(after) == ClientMessages(log) && ServerMessages(after) == ServerMessages(log)
  {
    hide Run, ToChild, ToClient, ClientMessages, ServerMessages;
    LogStep(log, Closed, config, policy);
    assert ClientMessages(log) + [] == ClientMessages(log) && ServerMessages(log) + [] == ServerMessages(log);
    assert ToChild(log, config, policy) + [] == ToChild(log, config, policy);
    assert ToClient(log, config, policy) + [] == ToClient(log, config, policy);
  }

  /** What has been owed stays owed: a longer run only appends. */
  lemma {:induction false} Grows(log: seq<Event>, more: seq<Event>, config: Config, policy: PolicyTable)
    ensures ToChild(log, config, policy) <= ToChild(log + more, config, policy)
    ensures ToClient(log, config, policy) <= ToClient(log + more, config, policy)
    decreases |more|
  {
    hide ChildPart, ClientPart, Run, ToChild, ToClient;
    if more == [] {
      assert log + more == log;
    } else {
      var last := |more| - 1;
      Grows(log, more[..last], config, policy);
      LogStep(log + more[..last], more[last], config, policy);
      assert log + more == log + more[..last] + [more[last]];
    }
  }

  // ---- joined lines ----

  lemma JoinedAppend(messages: seq<Bytes>, message: Bytes)
    ensures F.Joined(messages + [message]) == F.Joined(messages) + (message + "\n")
    decreases |messages|
  {
    if messages == [] {
      assert messages + [message] == [message] && [message][1..] == [];
    } else {
      assert (messages + [message])[1..] == messages[1..] + [message];
      JoinedAppend(messages[1..], message);
    }
  }

  lemma JoinedNothing()
    ensures F.Joined([]) == []
  {
  }

  // ---- how much one read can add ----

  lemma PartSizes(message: Bytes, ids: seq<Bytes>, config: Config, policy: PolicyTable)
    ensures |ForwardText(message, ids, config, policy)| <= |message| + 1
    ensures |ReplyText(message, ids, config, policy)| <= 4 * (|message| + 1)
    ensures |ReplyText(message, ids, config, policy)| <= |message| + 512
    ensures |DeliveredText(message, ids, config, policy)| <= |message| + 1
  {
    hide DecideClient, DecideServer, ErrorText;
    if DecideClient(message, ids, config, policy).Respond? {
      ErrorExpansion(message, ids, config, policy);
    }
    if DecideServer(message, ids, config, policy).Substitute? {
      SubstituteShrinks(message, ids, config, policy);
    }
  }

  /** A rewritten response is never longer than the original. */
  lemma SubstituteShrinks(message: Bytes, ids: seq<Bytes>, config: Config, policy: PolicyTable)
    requires DecideServer(message, ids, config, policy).Substitute?
    ensures |DecideServer(message, ids, config, policy).text| <= |message|
  {
    hide Classify, Rewrite, FilterResponse;
    var pre, post, tools := RewriteMeaning(message, config.runtime, policy);
  }

  lemma JoinedLast(messages: seq<Bytes>)
    requires messages != []
    ensures var last := |messages| - 1;
            |F.Joined(messages)| == |F.Joined(messages[..last])| + |messages[last]| + 1
    decreases |messages|
  {
    hide F.Joined;
    var last := |messages| - 1;
    assert messages == [messages[0]] + messages[1..];
    F.JoinedFirst(messages[0], messages[1..]);
    JoinedNothing();
    if last == 0 {
      assert messages[..last] == [];
    } else {
      var middle := messages[1..][..last - 1];
      JoinedLast(messages[1..]);
      assert messages[..last] == [messages[0]] + middle;
      F.JoinedFirst(messages[0], middle);
    }
  }

  /** Each inspected client message forwards at most its own line and answers with at most four
      times its line. */
  lemma {:induction false} ClientGrowth(log: seq<Event>, messages: seq<Bytes>, config: Config, policy: PolicyTable)
    ensures var after := log + FromClients(messages);
            && |ToChild(after, config, policy)| <= |ToChild(log, config, policy)| + |F.Joined(messages)|
            && |ToClient(after, config, policy)| <= |ToClient(log, config, policy)| + 4 * |F.Joined(messages)|
    decreases |messages|
  {
    hide Run, ToChild, ToClient, F.Joined, After, ForwardText, ReplyText, DeliveredText;
    if messages == [] {
      assert log + FromClients(messages) == log;
    } else {
      var last := |messages| - 1;
      ClientGrowth(log, messages[..last], config, policy);
      JoinedLast(messages);
      var before := log + FromClients(messages[..last]);
      assert log + FromClients(messages) == before + [FromClient(messages[last])];
      LogStep(before, FromClient(messages[last]), config, policy);
      PartSizes(messages[last], Run(before, config), config, policy);
    }
  }

  lemma {:induction false} ServerGrowth(log: seq<Event>, messages: seq<Bytes>, config: Config, policy: PolicyTable)
    ensures var after := log + FromServers(messages);
            && ToChild(after, config, policy) == ToChild(log, config, policy)
            && |ToClient(after, config, policy)| <= |ToClient(log, config, policy)| + |F.Joined(messages)|
    decreases |messages|
  {
    hide Run, ToChild, ToClient, F.Joined, After, ForwardText, ReplyText, DeliveredText;
    if messages == [] {
      assert log + FromServers(messages) == log;
    } else {
      var last := |messages| - 1;
      ServerGrowth(log, messages[..last], config, policy);
      JoinedLast(messages);
      var before := log + FromServers(messages[..last]);
      assert log + FromServers(messages) == before + [FromServer(messages[last])];
      LogStep(before, FromServer(messages[last]), config, policy);
      PartSizes(messages[last], Run(before, config), config, policy);
    }
  }

  /** The lines one chunk completes: together with what stays buffered they are the old buffer
      and the chunk, and only the first of them starts in the old buffer. */
  lemma {:induction false} ChunkLines(buffer: Bytes, bytes: Bytes, config: F.Config)
    requires !config.trimCarriageReturn
    ensures var messages := F.Feeding(F.Open(buffer), bytes, config).1;
            && |F.Joined(messages)| <= |buffer| + |bytes|
            && (messages != [] ==> |messages[0]| >= |buffer|)
            && (messages == [] ==> F.Joined(messages) == [])
    decreases |bytes|
  {
    hide F.NewlineAt;
    if bytes != [] {
      var n := F.NewlineAt(bytes);
      if |buffer| + n <= config.maxMessageBytes && n < |bytes| {
        ChunkLines([], bytes[n + 1..], config);
        F.FeedLine(F.Open(buffer), bytes, config);
        F.JoinedFirst(buffer + bytes[..n], F.Feeding(F.Open([]), bytes[n + 1..], config).1);
      }
    }
  }

  /** CHUNK BOUND: with `buffer` left over from earlier reads, one chunk of client bytes adds at
      most the two together to the child's queue and at most the buffer, four times the chunk
      and 512 bytes to the client's queue. Only the message that starts in the buffer may get an
      answer of more than four times the bytes it took from the chunk; it is charged by length. */
  lemma ChunkBound(log: seq<Event>, buffer: Bytes, bytes: Bytes, limits: F.Config, config: Config, policy: PolicyTable)
    requires !limits.trimCarriageReturn
    ensures var after := log + FromClients(F.Feeding(F.Open(buffer), bytes, limits).1);
            && |ToChild(after, config, policy)| <= |ToChild(log, config, policy)| + |buffer| + |bytes|
            && |ToClient(after, config, policy)| <= |ToClient(log, config, policy)| + |buffer| + 4 * |bytes| + 512
  {
    hide Run, ToChild, ToClient, F.Joined, F.Feeding, After, ForwardText, ReplyText, DeliveredText;
    var messages := F.Feeding(F.Open(buffer), bytes, limits).1;
    ChunkLines(buffer, bytes, limits);
    ClientGrowth(log, messages, config, policy);
    if messages == [] {
      assert log + FromClients(messages) == log;
    } else {
      var first, rest := messages[0], messages[1..];
      assert messages == [first] + rest;
      F.JoinedFirst(first, rest);
      LogStep(log, FromClient(first), config, policy);
      PartSizes(first, Run(log, config), config, policy);
      ClientGrowth(log + [FromClient(first)], rest, config, policy);
      assert log + FromClients(messages) == log + [FromClient(first)] + FromClients(rest);
    }
  }

  /** A chunk of server bytes adds at most the buffer and itself to the client's queue. */
  lemma ServerChunkBound(log: seq<Event>, buffer: Bytes, bytes: Bytes, limits: F.Config, config: Config, policy: PolicyTable)
    requires !limits.trimCarriageReturn
    ensures var after := log + FromServers(F.Feeding(F.Open(buffer), bytes, limits).1);
            |ToClient(after, config, policy)| <= |ToClient(log, config, policy)| + |buffer| + |bytes|
  {
    hide Run, ToChild, ToClient, F.Joined, F.Feeding, After;
    ChunkLines(buffer, bytes, limits);
    ServerGrowth(log, F.Feeding(F.Open(buffer), bytes, limits).1, config, policy);
  }
}

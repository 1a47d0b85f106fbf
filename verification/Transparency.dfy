/** When the relay is the transparent transport that its header calls it
    (src/linux_stdio_relay.cpp): both sides are owed exactly the lines of the other side. */
module Transparency {
  import opened Bytes
  import opened Json
  import opened Scanner
  import opened Documents
  import opened JsonRpc
  import opened Policy
  import opened Rewriter
  import opened RewriterMeaning
  import opened Filter
  import opened FilterRuns
  import opened RelayStreams
  import opened Escape
  import PlainCall
  import ToolCall
  import F = Framer

  /** The filter has no objection: a client message is forwarded, a server message is delivered or
      replaced by itself. */
  ghost predicate Passes(e: Event, ids: seq<Bytes>, config: Config, policy: PolicyTable) {
    match e
    case FromClient(message) => DecideClient(message, ids, config, policy).Forward?
    case FromServer(message) =>
      (match DecideServer(message, ids, config, policy)
       case Deliver => true
       case Withhold => false
       case Substitute(text) => text == message)
    case Closed => true
  }

  ghost predicate ClientsPass(log: seq<Event>, config: Config, policy: PolicyTable) {
    forall k :: 0 <= k < |log| && log[k].FromClient? ==> Passes(log[k], Run(log[..k], config), config, policy)
  }

  ghost predicate ServersPass(log: seq<Event>, config: Config, policy: PolicyTable) {
    forall k :: 0 <= k < |log| && log[k].FromServer? ==> Passes(log[k], Run(log[..k], config), config, policy)
  }

  lemma PassStep(log: seq<Event>, e: Event, config: Config, policy: PolicyTable)
    ensures ClientsPass(log + [e], config, policy) <==>
              ClientsPass(log, config, policy) && (e.FromClient? ==> Passes(e, Run(log, config), config, policy))
    ensures ServersPass(log + [e], config, policy) <==>
              ServersPass(log, config, policy) && (e.FromServer? ==> Passes(e, Run(log, config), config, policy))
  {
    hide Passes, Run;
    var all := log + [e];
    assert all[..|log|] == log && all[|log|] == e;
    assert forall k :: 0 <= k < |log| ==> all[..k] == log[..k] && all[k] == log[k];
  }

  /** Two concatenations of parts that only get shorter are equal exactly if the parts are. */
  lemma PartsEqual(a: Bytes, b: Bytes, c: Bytes, d: Bytes)
    requires |a| <= |c| && |b| <= |d|
    ensures |a + b| <= |c + d|
    ensures a + b == c + d <==> a == c && b == d
  {
    if a + b == c + d {
      assert (a + b)[..|a|] == a && (c + d)[..|c|] == c;
      assert (a + b)[|a|..] == b && (c + d)[|c|..] == d;
    }
  }

  lemma ClientParts(message: Bytes, ids: seq<Bytes>, config: Config, policy: PolicyTable)
    ensures var e := FromClient(message);
            && |ChildPart(e, ids, config, policy)| <= |message| + 1
            && (ChildPart(e, ids, config, policy) == message + "\n" <==> Passes(e, ids, config, policy))
            && (Passes(e, ids, config, policy) ==> ClientPart(e, ids, config, policy) == [])
  {
    hide DecideClient;
  }

  lemma ServerParts(message: Bytes, ids: seq<Bytes>, config: Config, policy: PolicyTable)
    ensures var e := FromServer(message);
            && ChildPart(e, ids, config, policy) == []
            && |ClientPart(e, ids, config, policy)| <= |message| + 1
            && (ClientPart(e, ids, config, policy) == message + "\n" <==> Passes(e, ids, config, policy))
  {
    hide DecideServer;
    var decision := DecideServer(message, ids, config, policy);
    if decision.Substitute? {
      SubstituteShrinks(message, ids, config, policy);
      PartsEqual(decision.text, "\n", message, "\n");
    }
  }

  lemma LinesStep(log: seq<Event>, e: Event)
    ensures F.Joined(ClientMessages(log + [e])) ==
            F.Joined(ClientMessages(log)) + (if e.FromClient? then e.message + "\n" else [])
    ensures F.Joined(ServerMessages(log + [e])) ==
            F.Joined(ServerMessages(log)) + (if e.FromServer? then e.message + "\n" else [])
  {
    hide F.Joined;
    var mine, theirs := ClientMessages(log), ServerMessages(log);
    assert (log + [e])[..|log|] == log;
    assert mine + [] == mine && F.Joined(mine) + [] == F.Joined(mine);
    assert theirs + [] == theirs && F.Joined(theirs) + [] == F.Joined(theirs);
    hide ClientMessages, ServerMessages;
    if e.FromClient? { JoinedAppend(mine, e.message); }
    if e.FromServer? { JoinedAppend(theirs, e.message); }
  }

  /** The child is owed the client's lines exactly if every client message was forwarded. */
  lemma {:induction false} ChildSide(log: seq<Event>, config: Config, policy: PolicyTable)
    ensures |ToChild(log, config, policy)| <= |F.Joined(ClientMessages(log))|
    ensures ToChild(log, config, policy) == F.Joined(ClientMessages(log)) <==> ClientsPass(log, config, policy)
    decreases |log|
  {
    hide Run, Passes, ChildPart, ClientPart, F.Joined, ToChild, ToClient, ClientMessages, ServerMessages, After;
    if log == [] {
      NothingOwed(config, policy);
      JoinedNothing();
    } else {
      hide ClientsPass, ServersPass;
      var before, e := log[..|log| - 1], log[|log| - 1];
      assert log == before + [e];
      ChildSide(before, config, policy);
      SideStep(before, e, config, policy);
      PartsEqual(ToChild(before, config, policy), ChildPart(e, Run(before, config), config, policy),
                 F.Joined(ClientMessages(before)), if e.FromClient? then e.message + "\n" else []);
    }
  }

  /** What one more event adds to the streams, to the lines and to the conditions. */
  lemma SideStep(log: seq<Event>, e: Event, config: Config, policy: PolicyTable)
    ensures var ids := Run(log, config);
            var child, client := ChildPart(e, ids, config, policy), ClientPart(e, ids, config, policy);
            var mine := if e.FromClient? then e.message + "\n" else [];
            var theirs := if e.FromServer? then e.message + "\n" else [];
            && ToChild(log + [e], config, policy) == ToChild(log, config, policy) + child
            && ToClient(log + [e], config, policy) == ToClient(log, config, policy) + client
            && F.Joined(ClientMessages(log + [e])) == F.Joined(ClientMessages(log)) + mine
            && F.Joined(ServerMessages(log + [e])) == F.Joined(ServerMessages(log)) + theirs
            && |child| <= |mine|
            && (ClientsPass(log + [e], config, policy) <==> ClientsPass(log, config, policy) && child == mine)
            && (ClientsPass(log + [e], config, policy) ==>
                 && |client| <= |theirs|
                 && (ServersPass(log + [e], config, policy) <==> ServersPass(log, config, policy) && client == theirs))
  {
    hide Run, Passes, F.Joined, ToChild, ToClient, ClientMessages, ServerMessages, After, ClientsPass, ServersPass;
    LogStep(log, e, config, policy);
    LinesStep(log, e);
    PassStep(log, e, config, policy);
    match e {
      case FromClient(message) => ClientParts(message, Run(log, config), config, policy);
      case FromServer(message) => ServerParts(message, Run(log, config), config, policy);
      case Closed =>
    }
  }

  /** Without error responses in between, the client is owed the server's lines exactly if every
      server message passed unchanged. */
  lemma {:induction false} ClientSide(log: seq<Event>, config: Config, policy: PolicyTable)
    requires ClientsPass(log, config, policy)
    ensures |ToClient(log, config, policy)| <= |F.Joined(ServerMessages(log))|
    ensures ToClient(log, config, policy) == F.Joined(ServerMessages(log)) <==> ServersPass(log, config, policy)
    decreases |log|
  {
    hide Run, Passes, ChildPart, ClientPart, F.Joined, ToChild, ToClient, ClientMessages, ServerMessages, After;
    if log == [] {
      NothingOwed(config, policy);
      JoinedNothing();
    } else {
      hide ClientsPass, ServersPass;
      var before, e := log[..|log| - 1], log[|log| - 1];
      assert log == before + [e];
      SideStep(before, e, config, policy);
      ClientSide(before, config, policy);
      PartsEqual(ToClient(before, config, policy), ClientPart(e, Run(before, config), config, policy),
                 F.Joined(ServerMessages(before)), if e.FromServer? then e.message + "\n" else []);
    }
  }

  /** TRANSPARENCY: over any run, both sides are owed exactly the lines of the other side if and
      only if every client message is forwarded and every server message is delivered or
      replaced by itself. */
  lemma TransparentExactly(log: seq<Event>, config: Config, policy: PolicyTable)
    ensures ToChild(log, config, policy) == F.Joined(ClientMessages(log))
            && ToClient(log, config, policy) == F.Joined(ServerMessages(log))
            <==> ClientsPass(log, config, policy) && ServersPass(log, config, policy)
  {
    hide *;
    ChildSide(log, config, policy);
    if ClientsPass(log, config, policy) { ClientSide(log, config, policy); }
  }

  // ---- when a message passes ----

  /** A client message passes exactly if it is accepted and, should it be a call, carries an
      extractable, non-empty, allowed name, and, should it ask for the list, finds room to be
      remembered under an id that is not pending. */
  lemma ClientPasses(message: Bytes, ids: seq<Bytes>, config: Config, policy: PolicyTable)
    ensures var envelope := Classify(message, config.runtime);
            var call := ToolCall.Extract(message, config.runtime);
            Passes(FromClient(message), ids, config, policy) <==>
              && envelope.outcome == Accepted
              && (envelope.methodName == "tools/call" ==>
                   call.Some? && call.value.name != [] && InvocationFor(policy, call.value.name) == Allow)
              && (envelope.methodName == "tools/list" ==>
                   if envelope.kind == Request then envelope.id !in ids && HasRoom(ids, envelope.id, config)
                   else |ids| < config.runtime.maxPendingToolsList)
  {
    hide Classify, ToolCall.Extract, HasRoom, InvocationFor, DecideClient;
    ForwardedExactly(message, ids, config, policy);
  }

  /** All tools are visible, and no whitespace stands between the brackets and the tools. */
  ghost predicate Compact(tools: Value, policy: PolicyTable, limit: nat)
    requires tools.Arr?
  {
    tools.pad == [] && CompactItems(tools.items, policy, limit)
  }

  ghost predicate CompactItems(items: seq<Item>, policy: PolicyTable, limit: nat) {
    forall k :: 0 <= k < |items| ==>
      items[k].pre == [] && items[k].post == [] && Visible(policy, OrEmpty(ToolName(items[k].value, limit)))
  }

  lemma CompactFirst(item: Item, rest: seq<Item>, policy: PolicyTable, limit: nat)
    ensures CompactItems([item] + rest, policy, limit) <==>
              && item.pre == [] && item.post == [] && Visible(policy, OrEmpty(ToolName(item.value, limit)))
              && CompactItems(rest, policy, limit)
    ensures CompactItems([], policy, limit)
  {
    hide Visible, ToolName;
    var all := [item] + rest;
    assert all[0] == item && forall k :: 0 <= k < |rest| ==> all[k + 1] == rest[k];
  }

  lemma {:induction false} KeptSame(items: seq<Item>, policy: PolicyTable, limit: nat)
    requires ToolsOk(items, limit)
    ensures |Kept(items, policy, limit)| <= |items|
    ensures Kept(items, policy, limit) == items <==> CompactItems(items, policy, limit)
    decreases |items|
  {
    hide ToolName, Visible, CompactItems;
    if items == [] {
      CompactFirst(Item([], Str([]), []), [], policy, limit);
    } else {
      var item, rest := items[0], items[1..];
      assert items == [item] + rest;
      KeptSame(rest, policy, limit);
      CompactFirst(item, rest, policy, limit);
      assert ToolName(item.value, limit).Some?;
      assert ([Item([], item.value, [])] + Kept(rest, policy, limit))[1..] == Kept(rest, policy, limit);
    }
  }

  /** UNTOUCHED: rewriting an accepted response gives the same bytes exactly if all its tools are
      visible and no whitespace surrounds them. */
  lemma RewriteSame(s: Bytes, limits: RuntimeLimits, policy: PolicyTable) returns (tools: Value)
    requires Classify(s, limits).outcome == Accepted
    requires Rewrite(s, limits.maxNestingDepth, policy).Rewritten?
    ensures DocMembers(s, Strict).Some?
    ensures var members := DocMembers(s, Strict).value;
            && Find(members, "result").Some? && Find(members, "result").value.Obj?
            && Find(Find(members, "result").value.members, "tools") == Some(tools) && tools.Arr?
    ensures Rewrite(s, limits.maxNestingDepth, policy).text == s <==> Compact(tools, policy, limits.maxNestingDepth)
  {
    hide Classify, Rewrite, DocMembers, FilterResponse, Find, Kept, ToolsOk, CompactItems, DocText, FilterResult;
    var limit := limits.maxNestingDepth;
    var pre, post;
    pre, post, tools := RewriteMeaning(s, limits, policy);
    var members := DocMembers(s, Strict).value;
    var result := Find(members, "result").value;
    FilterTwice(members, result, tools, policy, limit);
    KeptSame(tools.items, policy, limit);
    if Compact(tools, policy, limit) { FilterSame(members, result, tools, policy, limit); }
  }

  lemma FilterSame(members: seq<Member>, result: Value, tools: Value, policy: PolicyTable, limit: nat)
    requires Find(members, "result") == Some(result) && result.Obj?
    requires Find(result.members, "tools") == Some(tools) && tools.Arr?
    requires FilterTools(tools, policy, limit) == tools
    ensures FilterResponse(members, policy, limit) == members
  {
    hide Replace, Kept, Count, FilterTools;
    FilterIs(members, result, tools, policy, limit);
    ReplaceSame(result.members, "tools");
    ReplaceSame(members, "result");
  }

  /** The tools array of a response, if it has one. */
  ghost function ListedTools(s: Bytes): Option<Value> {
    match DocMembers(s, Strict)
    case None => None
    case Some(members) =>
      match Find(members, "result")
      case None => None
      case Some(result) => if result.Obj? then Find(result.members, "tools") else None
  }

  /** A server message passes exactly if it is accepted and, should it answer a pending request,
      is an error response or lists visible tools only, without whitespace around them. */
  lemma ServerPasses(message: Bytes, ids: seq<Bytes>, config: Config, policy: PolicyTable)
    ensures var envelope := Classify(message, config.runtime);
            var limit := config.runtime.maxNestingDepth;
            var rewriting := Rewrite(message, limit, policy);
            var tools := ListedTools(message);
            Passes(FromServer(message), ids, config, policy) <==>
              && envelope.outcome == Accepted
              && (envelope.kind == Response && envelope.id in ids ==>
                   || rewriting.Passthrough?
                   || (rewriting.Rewritten? && tools.Some? && tools.value.Arr? && Compact(tools.value, policy, limit)))
  {
    hide Classify, Rewrite, DocMembers, Find, Compact;
    if Classify(message, config.runtime).outcome == Accepted
       && Rewrite(message, config.runtime.maxNestingDepth, policy).Rewritten? {
      var tools := RewriteSame(message, config.runtime, policy);
    }
  }

  // ---- where it is not transparent ----

  /** A plain call is forwarded exactly if its name is not empty and allowed. */
  lemma PlainCallForwarded(name: Bytes, ids: seq<Bytes>, config: Config, policy: PolicyTable)
    requires Plain(name) && config.runtime.maxNestingDepth >= 2
    requires |PlainCall.CallText(name)| <= config.runtime.maxMessageBytes
    ensures Passes(FromClient(PlainCall.CallText(name)), ids, config, policy) <==>
              name != [] && InvocationFor(policy, name) == Allow
  {
    hide Classify, ToolCall.Extract, InvocationFor, PlainCall.CallText;
    PlainCall.CallAccepted(name, config.runtime);
    PlainCall.CallExtracts(name, config.runtime);
  }

  /** NOT TRANSPARENT: a call that the policy denies reaches the child in no form. */
  lemma DeniedCall(name: Bytes, config: Config, policy: PolicyTable)
    requires Plain(name) && config.runtime.maxNestingDepth >= 2
    requires |PlainCall.CallText(name)| <= config.runtime.maxMessageBytes
    requires InvocationFor(policy, name) == Deny
    ensures var log := [FromClient(PlainCall.CallText(name))];
            ToChild(log, config, policy) == [] && F.Joined(ClientMessages(log)) == PlainCall.CallText(name) + "\n"
  {
    var message := PlainCall.CallText(name);
    PlainCallForwarded(name, [], config, policy);
    hide PlainCall.CallText, DecideClient, InvocationFor;
    LogStep([], FromClient(message), config, policy);
    LinesStep([], FromClient(message));
    NothingOwed(config, policy);
    JoinedNothing();
    assert [] + [FromClient(message)] == [FromClient(message)];
  }
}

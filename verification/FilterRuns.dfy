/** What the filter guarantees over every sequence of calls. */
module FilterRuns {
  import opened Bytes
  import opened Json
  import opened Scanner
  import opened ScannerGrammar
  import opened Documents
  import opened JsonRpc
  import ToolCall
  import opened Policy
  import opened Rewriter
  import opened RewriterMeaning
  import opened Filter
  import opened ErrorResponses

  datatype Event = FromClient(message: Bytes) | FromServer(message: Bytes) | Closed

  function After(ids: seq<Bytes>, e: Event, config: Config): seq<Bytes> {
    match e
    case FromClient(message) => AfterClient(message, ids, config)
    case FromServer(message) => AfterServer(message, ids, config)
    case Closed => []
  }

  /** The table after a whole sequence of calls, starting empty. */
  function Run(events: seq<Event>, config: Config): seq<Bytes>
    decreases |events|
  {
    if events == [] then []
    else After(Run(events[..|events| - 1], config), events[|events| - 1], config)
  }

  /** The call forwards a `tools/list` request with this id and records the id. */
  predicate Opens(ids: seq<Bytes>, e: Event, id: Bytes, config: Config) {
    && e.FromClient?
    && var envelope := Classify(e.message, config.runtime);
    && envelope.outcome == Accepted && envelope.methodName == "tools/list" && envelope.kind == Request
    && envelope.id == id && AddStatus(ids, id, config) == Added
  }

  /** The call ends the wait for this id: a response with it, a rejected server message that
      carries it, or the end of the connection. */
  predicate Clears(e: Event, id: Bytes, config: Config) {
    e.Closed? ||
    (e.FromServer?
     && var envelope := Classify(e.message, config.runtime);
     envelope.id == id && (envelope.outcome != Accepted || envelope.kind == Response))
  }

  // ---- what the policy's rules say about a name ----

  /** The name's rule makes it visible or, without a rule, the default does. */
  ghost predicate Shown(policy: PolicyTable, name: Bytes) {
    match Lookup(policy.rules, name)
    case Some(rule) => rule.visible == Allow
    case None => policy.defaults.visible == Allow
  }

  /** No tool has the empty name; any other is denied by its rule or, without one, by default. */
  ghost predicate Uncallable(policy: PolicyTable, name: Bytes) {
    name == [] ||
    match Lookup(policy.rules, name)
    case Some(rule) => rule.callable == Deny
    case None => policy.defaults.callable == Deny
  }

  // ---- the table over a run ----

  lemma AfterKeeps(ids: seq<Bytes>, e: Event, id: Bytes, config: Config)
    requires GoodTable(ids, config)
    ensures GoodTable(After(ids, e, config), config)
    ensures id in After(ids, e, config) <==>
              Opens(ids, e, id, config) || (id in ids && !Clears(e, id, config))
  {
    hide Classify, Adding, Removing, AddStatus, GoodTable;
    match e {
      case FromClient(message) =>
        AddingKeeps(ids, Classify(message, config.runtime).id, config);
        Duplicates(ids, id, config);
      case FromServer(message) =>
        RemovingKeeps(ids, Classify(message, config.runtime).id, config);
        RemovingNothing(ids, config);
      case Closed =>
        EmptyTable(config);
    }
  }

  lemma Duplicates(ids: seq<Bytes>, id: Bytes, config: Config)
    ensures id in ids ==> AddStatus(ids, id, config) == Duplicate
  {
  }

  lemma EmptyTable(config: Config)
    ensures GoodTable([], config)
  {
  }

  /** The table invariant holds after every sequence of calls. */
  lemma {:induction false} RunKeeps(events: seq<Event>, config: Config)
    ensures GoodTable(Run(events, config), config)
    decreases |events|
  {
    if events == [] {
      EmptyTable(config);
    } else {
      RunKeeps(events[..|events| - 1], config);
      AfterKeeps(Run(events[..|events| - 1], config), events[|events| - 1], [], config);
    }
  }

  /** The request with this id was forwarded at call `k` and nothing since then ended the wait. */
  ghost predicate WaitingSince(events: seq<Event>, k: nat, id: Bytes, config: Config) {
    && k < |events|
    && Opens(Run(events[..k], config), events[k], id, config)
    && forall j :: k < j < |events| ==> !Clears(events[j], id, config)
  }

  lemma WaitingStep(events: seq<Event>, k: nat, id: Bytes, config: Config)
    requires events != []
    ensures var last := |events| - 1;
            WaitingSince(events, k, id, config) <==>
              if k < last then WaitingSince(events[..last], k, id, config) && !Clears(events[last], id, config)
              else k == last && Opens(Run(events[..last], config), events[last], id, config)
  {
    hide Opens, Clears;
    var last := |events| - 1;
    if k < last {
      assert events[..last][..k] == events[..k];
    }
  }

  /** CORRELATION OVER RUNS: an id is pending after a run exactly when some call opened it and no
      later call ended the wait. */
  lemma {:induction false} PendingExactly(events: seq<Event>, id: Bytes, config: Config)
    ensures id in Run(events, config) <==> exists k :: WaitingSince(events, k, id, config)
    decreases |events|
  {
    hide After, Opens, Clears, WaitingSince, GoodTable;
    if events == [] {
      NeverWaiting(id, config);
    } else {
      var last := |events| - 1;
      var before := events[..last];
      RunKeeps(before, config);
      PendingExactly(before, id, config);
      AfterKeeps(Run(before, config), events[last], id, config);
      if id in Run(events, config) {
        if Opens(Run(before, config), events[last], id, config) {
          WaitingStep(events, last, id, config);
        } else {
          var k :| WaitingSince(before, k, id, config);
          WaitingBound(before, k, id, config);
          WaitingStep(events, k, id, config);
        }
      }
      if exists k :: WaitingSince(events, k, id, config) {
        var k :| WaitingSince(events, k, id, config);
        WaitingStep(events, k, id, config);
      }
    }
  }

  lemma NeverWaiting(id: Bytes, config: Config)
    ensures forall k :: !WaitingSince([], k, id, config)
  {
  }

  lemma WaitingBound(events: seq<Event>, k: nat, id: Bytes, config: Config)
    requires WaitingSince(events, k, id, config)
    ensures k < |events|
  {
  }

  // ---- what reaches the client ----

  /** Every tool the response lists may be seen. */
  ghost predicate OnlyVisibleTools(members: seq<Member>, policy: PolicyTable, limit: nat) {
    && Find(members, "result").Some? && Find(members, "result").value.Obj?
    && var tools := Find(Find(members, "result").value.members, "tools");
    && tools.Some? && tools.value.Arr?
    && forall k :: 0 <= k < |tools.value.items| ==>
         Shown(policy, OrEmpty(ToolName(tools.value.items[k].value, limit)))
  }

  lemma FilteredIsVisible(members: seq<Member>, result: Value, tools: Value, policy: PolicyTable, limit: nat)
    requires Find(members, "result") == Some(result) && result.Obj?
    requires Find(result.members, "tools") == Some(tools) && tools.Arr?
    ensures OnlyVisibleTools(FilterResponse(members, policy, limit), policy, limit)
  {
    hide FilterResponse, FilterResult, Lookup, ToolName, Before, Kept;
    FilterTwice(members, result, tools, policy, limit);
    KeptTwice(tools.items, policy, limit);
  }

  lemma PassthroughIsError(s: Bytes, limit: nat, policy: PolicyTable)
    requires Rewrite(s, limit, policy) == Passthrough
    ensures DocMembers(s, CommaClose).Some?
    ensures Count(DocMembers(s, CommaClose).value, "result") == 0
    ensures Count(DocMembers(s, CommaClose).value, "error") == 1
  {
    hide TakeResponse;
    var members := DocMembers(s, CommaClose).value;
    TakeResponseMeaning(Outline(None, false), members, BodyStart(s).value, limit);
    TakeResponseErrors(Outline(None, false), members, BodyStart(s).value, limit);
  }

  lemma {:induction false} TakeResponseErrors(r: Outline, members: seq<Member>, b: nat, limit: nat)
    ensures var end := TakeResponse(r, members, b, limit);
            end.Some? ==> Once(end.value.error) == Once(r.error) + Count(members, "error")
    decreases |members|
  {
    hide MemberText, MemberHead, ResultTools, Fits, EscapeFree;
    if members != [] {
      var m, rest := members[0], members[1..];
      assert members == [m] + rest;
      TakeResponseFirst(r, m, rest, b, limit);
      CountFirst(m, rest, "error");
      var next := TakeResponseMember(r, m, b, limit);
      if next.Some? { TakeResponseErrors(next.value, rest, b + |MemberText(m)| + 1, limit); }
    }
  }

  /** NO LIST LEAKS: after any run, a server message that answers a forwarded `tools/list`
      request reaches the client only as an error response or with every listed tool visible. */
  lemma NoListLeaks(events: seq<Event>, k: nat, message: Bytes, config: Config, policy: PolicyTable)
    requires Classify(message, config.runtime).outcome == Accepted
    requires Classify(message, config.runtime).kind == Response
    requires WaitingSince(events, k, Classify(message, config.runtime).id, config)
    ensures match DecideServer(message, Run(events, config), config, policy)
            case Withhold => true
            case Deliver =>
              && DocMembers(message, Strict).Some?
              && Count(DocMembers(message, Strict).value, "error") == 1
              && Count(DocMembers(message, Strict).value, "result") == 0
            case Substitute(text) =>
              && DocMembers(text, Strict).Some?
              && OnlyVisibleTools(DocMembers(text, Strict).value, policy, config.runtime.maxNestingDepth)
              && Classify(text, config.runtime).outcome == Accepted
              && Classify(text, config.runtime).id == Classify(message, config.runtime).id
              && |text| <= |message|
  {
    hide Classify, Rewrite, WaitingSince, OnlyVisibleTools, DocMembers, FilterResponse, Run, Count, DocText, GoodEnvelope;
    var limit := config.runtime.maxNestingDepth;
    PendingExactly(events, Classify(message, config.runtime).id, config);
    match Rewrite(message, limit, policy) {
      case Malformed =>
      case Passthrough =>
        PassthroughIsError(message, limit, policy);
        ClassifyAccepts(message, config.runtime);
        DocClosedTwice(message);
      case Rewritten(_, _) =>
        var pre, post, tools := RewriteMeaning(message, config.runtime, policy);
        var members := DocMembers(message, Strict).value;
        FilteredIsVisible(members, Find(members, "result").value, tools, policy, limit);
    }
  }

  /** ONLY WAITING IDS ARE FILTERED: ids are compared by their raw text, and a response that no
      forwarded request with that text waits for is delivered as it is; one that is waited for
      is delivered as it is exactly if it is an error response. */
  lemma FilteredExactly(events: seq<Event>, message: Bytes, config: Config, policy: PolicyTable)
    requires Classify(message, config.runtime).outcome == Accepted
    requires Classify(message, config.runtime).kind == Response
    ensures DecideServer(message, Run(events, config), config, policy).Deliver? <==>
              || !(exists k :: WaitingSince(events, k, Classify(message, config.runtime).id, config))
              || Rewrite(message, config.runtime.maxNestingDepth, policy).Passthrough?
  {
    hide Classify, Rewrite, WaitingSince, Run;
    PendingExactly(events, Classify(message, config.runtime).id, config);
  }

  /** THE SECOND ANSWER: only the first response with an id is filtered; the same response again
      is delivered as it is, whatever came before. */
  lemma SecondAnswer(events: seq<Event>, answer: Bytes, config: Config, policy: PolicyTable)
    requires Classify(answer, config.runtime).outcome == Accepted
    requires Classify(answer, config.runtime).kind == Response
    ensures DecideServer(answer, Run(events + [FromServer(answer)], config), config, policy) == Deliver
  {
    hide Classify, Rewrite, GoodTable, After;
    var id := Classify(answer, config.runtime).id;
    var all := events + [FromServer(answer)];
    assert all[..|all| - 1] == events;
    RunKeeps(events, config);
    AfterKeeps(Run(events, config), FromServer(answer), id, config);
  }

  // ---- what reaches the server ----

  /** AUTHORIZED IS FORWARDED: a forwarded `tools/call` message has one method, one params object
      and one name in it; no key at those levels and neither value contains an escape, so every
      JSON reader sees the same fields; and the policy allows that name. */
  lemma AuthorizedIsForwarded(message: Bytes, ids: seq<Bytes>, config: Config, policy: PolicyTable)
    returns (members: seq<Member>, params: seq<Member>, name: Bytes)
    requires DecideClient(message, ids, config, policy) == Forward
    requires Classify(message, config.runtime).methodName == "tools/call"
    ensures DocMembers(message, OpenEnd) == Some(members)
    ensures Count(members, "method") == 1 && Find(members, "method") == Some(Str("tools/call"))
    ensures EscapeFreeKeys(members)
    ensures Count(members, "params") == 1 && Find(members, "params").value.Obj?
    ensures params == Find(members, "params").value.members && EscapeFreeKeys(params)
    ensures Count(params, "name") == 1 && Find(params, "name") == Some(Str(name))
    ensures EscapeFree(name) && name != [] && InvocationFor(policy, name) == Allow
  {
    hide Classify, ToolCall.Extract, DocMembers, EscapeFree, Fits, ToolCall.ParamsOf, Count, InvocationFor;
    ClassifyAccepts(message, config.runtime);
    ToolCall.ExtractMeaning(message, config.runtime);
    members := DocMembers(message, OpenEnd).value;
    var v := Find(members, "params").value;
    ToolCall.ParamsMeaning(v, config.runtime.maxNestingDepth);
    params := v.members;
    name := ToolCall.Extract(message, config.runtime).value.name;
    MethodIs(members, "tools/call");
  }

  lemma MethodIs(members: seq<Member>, name: Bytes)
    requires OrEmpty(MethodOf(members)) == name && name != []
    ensures Find(members, "method") == Some(Str(name)) && Count(members, "method") > 0
  {
    hide Count;
  }

  /** REPLIES: an error response answers the id of the message, an accepted message gets one only
      if it is a request, and the code tells the cause. */
  lemma RepliesMeaning(message: Bytes, ids: seq<Bytes>, config: Config, policy: PolicyTable)
    requires DecideClient(message, ids, config, policy).Respond?
    ensures var Respond(id, code, _) := DecideClient(message, ids, config, policy);
            var envelope := Classify(message, config.runtime);
            && id == envelope.id && id != []
            && (envelope.outcome == Accepted ==> envelope.kind == Request)
            && (code == DENIED_TOOL_CODE <==>
                 && envelope.outcome == Accepted && envelope.methodName == "tools/call"
                 && ToolCall.Extract(message, config.runtime).Some?)
            && (code == INVALID_PARAMS_CODE <==>
                 && envelope.methodName == "tools/call"
                 && (envelope.outcome == Accepted ==> ToolCall.Extract(message, config.runtime).None?))
            && (code == CORRELATION_CAPACITY_CODE <==> envelope.methodName == "tools/list")
  {
    hide Classify, ToolCall.Extract, AddStatus, Callable;
    RespondCases(message, ids, config, policy);
  }

  /** ANSWERED EXACTLY: the three replies and when each is due. A request for a call whose name is
      empty or denied, a call that cannot be read or stands in a rejected message with an id, and a
      list request with a new id for which there is no room. */
  lemma AnsweredExactly(message: Bytes, ids: seq<Bytes>, config: Config, policy: PolicyTable, id: Bytes, code: int,
                        text: Bytes)
    ensures var envelope := Classify(message, config.runtime);
            var request := envelope.outcome == Accepted && envelope.kind == Request;
            var call := ToolCall.Extract(message, config.runtime);
            DecideClient(message, ids, config, policy) == Respond(id, code, text) <==>
              id == envelope.id &&
              (|| (&& code == -32001 && text == "Tool call denied by policy"
                   && request && envelope.methodName == "tools/call"
                   && call.Some? && Uncallable(policy, call.value.name))
               || (&& code == -32602 && text == "Invalid tools/call parameters"
                   && envelope.methodName == "tools/call"
                   && (if envelope.outcome == Accepted then request && call.None? else id != []))
               || (&& code == -32002 && text == "tools/list correlation capacity exhausted"
                   && request && envelope.methodName == "tools/list"
                   && id !in ids && !HasRoom(ids, id, config)))
  {
    hide Classify, ToolCall.Extract, HasRoom, Lookup;
    AcceptedFits(message, config.runtime);
    RequestHasId(message, config.runtime);
  }

  /** A call in a message that is rejected after its id and its method were read is answered, whatever broke. */
  lemma RejectedCallAnswered(pre: Bytes, members: seq<Member>, rest: Bytes, ids: seq<Bytes>, config: Config,
                             policy: PolicyTable)
    requires Blank(pre) && Readable(members, config.runtime.maxNestingDepth)
    requires members != [] && EndsBefore(members[|members| - 1], rest)
    requires Find(members, "id").Some? && Find(members, "method") == Some(Str("tools/call"))
    requires |Opened(pre, members, rest)| <= config.runtime.maxMessageBytes
    requires Classify(Opened(pre, members, rest), config.runtime).outcome != Accepted
    ensures DecideClient(Opened(pre, members, rest), ids, config, policy) ==
            Respond(Text(Find(members, "id").value), -32602, "Invalid tools/call parameters")
  {
    hide Classify, Opened, Text, WellFormedMembers, GoodMembers;
    RejectedKeeps(pre, members, rest, config.runtime);
    hide Find;
    var s := Opened(pre, members, rest);
    var id := Find(members, "id").value;
    IdTextNotEmpty(members);
    AnsweredExactly(s, ids, config, policy, Text(id), -32602, "Invalid tools/call parameters");
  }

  lemma IdTextNotEmpty(members: seq<Member>)
    requires WellFormedMembers(members) && Find(members, "id").Some?
    ensures Text(Find(members, "id").value) != []
  {
    hide Text, WellFormed, WellFormedMembers, Find;
    FindWellFormed(members, "id");
    TextStart(Find(members, "id").value);
  }

  /** A server message that is rejected after its id was read frees that id, whatever broke. */
  lemma RejectedFrees(events: seq<Event>, pre: Bytes, members: seq<Member>, rest: Bytes, config: Config)
    requires Blank(pre) && Readable(members, config.runtime.maxNestingDepth)
    requires members != [] && EndsBefore(members[|members| - 1], rest)
    requires Find(members, "id").Some?
    requires |Opened(pre, members, rest)| <= config.runtime.maxMessageBytes
    requires Classify(Opened(pre, members, rest), config.runtime).outcome != Accepted
    ensures var s := Opened(pre, members, rest);
            Text(Find(members, "id").value) !in Run(events + [FromServer(s)], config)
  {
    hide Classify, Opened, Text, WellFormedMembers, GoodMembers, GoodTable;
    RejectedKeeps(pre, members, rest, config.runtime);
    hide Find;
    var s := Opened(pre, members, rest);
    var all := events + [FromServer(s)];
    assert all[..|all| - 1] == events;
    RunKeeps(events, config);
    AfterKeeps(Run(events, config), FromServer(s), Text(Find(members, "id").value), config);
  }

  /** FORWARDED EXACTLY: which accepted messages reach the child. A call needs an extractable,
      non-empty, allowed name; a list request a fresh id and room for it; a list notification a
      free slot; everything else passes. Rejected messages never do. */
  lemma ForwardedExactly(message: Bytes, ids: seq<Bytes>, config: Config, policy: PolicyTable)
    ensures var envelope := Classify(message, config.runtime);
            var call := ToolCall.Extract(message, config.runtime);
            DecideClient(message, ids, config, policy).Forward? <==>
              && envelope.outcome == Accepted
              && (envelope.methodName == "tools/call" ==>
                   call.Some? && call.value.name != [] && InvocationFor(policy, call.value.name) == Allow)
              && (envelope.methodName == "tools/list" ==>
                   if envelope.kind == Request then envelope.id !in ids && HasRoom(ids, envelope.id, config)
                   else |ids| < config.runtime.maxPendingToolsList)
  {
    hide Classify, ToolCall.Extract, HasRoom, InvocationFor;
    AcceptedFits(message, config.runtime);
  }

  lemma AcceptedFits(message: Bytes, limits: RuntimeLimits)
    ensures Classify(message, limits).outcome == Accepted ==> |message| <= limits.maxMessageBytes
  {
    hide Classify, DocMembers, GoodEnvelope;
    ClassifyAccepts(message, limits);
  }
}

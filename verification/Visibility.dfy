/** Which tools a client gets to see (src/tool_call_filter.cpp, src/proxy_core.cpp): the filter's
    effect on `tools/list`, told by the rules of the policy and by the tools as JSON values. */
module Visibility {
  import opened Bytes
  import opened Json
  import opened Scanner
  import opened Documents
  import opened JsonRpc
  import opened Policy
  import opened Rewriter
  import opened RewriterMeaning
  import opened RewriterShape
  import opened Filter
  import opened FilterRuns

  // ---- the tools of a message, without the rewriter ----

  /** The name that a tool definition carries. */
  function NameOf(tool: Value): Bytes {
    if tool.Obj? && Find(tool.members, "name").Some? && Find(tool.members, "name").value.Str?
    then Find(tool.members, "name").value.raw else []
  }

  /** The tool definitions that a message lists in `result.tools`. */
  function ToolsOf(s: Bytes): Option<seq<Value>> {
    match DocMembers(s, Strict)
    case None => None
    case Some(members) =>
      match Find(members, "result")
      case None => None
      case Some(result) =>
        if !result.Obj? then None
        else match Find(result.members, "tools")
          case None => None
          case Some(tools) => if tools.Arr? then Some(Values(tools.items)) else None
  }

  function Values(items: seq<Item>): seq<Value> {
    seq(|items|, i requires 0 <= i < |items| => items[i].value)
  }

  /** The shown tools, in order. */
  ghost function ShownOf(tools: seq<Value>, policy: PolicyTable): seq<Value>
    decreases |tools|
  {
    if tools == [] then []
    else (if Shown(policy, NameOf(tools[0])) then [tools[0]] else []) + ShownOf(tools[1..], policy)
  }

  /** The names of the other tools, in order. */
  ghost function HiddenOf(tools: seq<Value>, policy: PolicyTable): seq<Bytes>
    decreases |tools|
  {
    if tools == [] then []
    else (if Shown(policy, NameOf(tools[0])) then [] else [NameOf(tools[0])]) + HiddenOf(tools[1..], policy)
  }

  lemma {:induction false} ShownExactly(tools: seq<Value>, policy: PolicyTable)
    ensures forall tool :: tool in ShownOf(tools, policy) <==> tool in tools && Shown(policy, NameOf(tool))
    ensures |ShownOf(tools, policy)| + |HiddenOf(tools, policy)| == |tools|
    decreases |tools|
  {
    hide Shown, NameOf;
    if tools != [] {
      ShownExactly(tools[1..], policy);
      assert tools == [tools[0]] + tools[1..];
    }
  }

  lemma {:induction false} HiddenExactly(tools: seq<Value>, policy: PolicyTable)
    ensures forall name :: name in HiddenOf(tools, policy) <==>
              exists k :: 0 <= k < |tools| && NameOf(tools[k]) == name && !Shown(policy, name)
    decreases |tools|
  {
    hide Shown, NameOf;
    if tools != [] {
      var rest := tools[1..];
      HiddenExactly(rest, policy);
      forall name ensures name in HiddenOf(tools, policy) <==>
          exists k :: 0 <= k < |tools| && NameOf(tools[k]) == name && !Shown(policy, name) {
        if k :| 0 <= k < |rest| && NameOf(rest[k]) == name && !Shown(policy, name) {
          assert tools[k + 1] == rest[k];
        }
        if k :| 0 < k < |tools| && NameOf(tools[k]) == name && !Shown(policy, name) {
          assert rest[k - 1] == tools[k];
        }
      }
    }
  }

  // ---- what the rewriter's loops do with it ----

  /** The name that decides is the contents of the tool's `name`. */
  lemma {:induction false} TakeToolName(name: Option<Bytes>, members: seq<Member>, limit: nat)
    requires TakeTool(name, members, limit).Some? && (name.Some? ==> name.value != [])
    ensures TakeTool(name, members, limit).value != []
    ensures if name.Some? then TakeTool(name, members, limit) == name
            else Find(members, "name") == Some(Str(TakeTool(name, members, limit).value))
    decreases |members|
  {
    hide EscapeFree, Fits, Count;
    if members != [] {
      TakeToolName(TakeToolMember(name, members[0], limit).value, members[1..], limit);
    }
  }

  lemma ToolNameIs(tool: Value, limit: nat)
    requires ToolName(tool, limit).Some?
    ensures NameOf(tool) == ToolName(tool, limit).value != []
  {
    hide TakeTool, Count, Find;
    TakeToolName(None, tool.members, limit);
  }

  lemma {:induction false} KeptIsShown(items: seq<Item>, policy: PolicyTable, limit: nat)
    requires ToolsOk(items, limit)
    ensures Values(Kept(items, policy, limit)) == ShownOf(Values(items), policy)
    ensures Dropped(items, policy, limit) == HiddenOf(Values(items), policy)
    decreases |items|
  {
    hide ToolName, NameOf, Lookup;
    if items != [] {
      var rest := items[1..];
      assert items == [items[0]] + rest;
      ToolsOkFirst(items[0], rest, limit);
      KeptIsShown(rest, policy, limit);
      ToolNameIs(items[0].value, limit);
      assert Values(items)[1..] == Values(rest) && Values(items)[0] == items[0].value;
      ValuesFirst(Item([], items[0].value, []), Kept(rest, policy, limit));
    }
  }

  lemma ValuesFirst(item: Item, rest: seq<Item>)
    ensures Values([item] + rest) == [item.value] + Values(rest)
  {
  }

  lemma ListedBoth(s: Bytes, members: seq<Member>, result: Value, tools: Value)
    requires DocMembers(s, Strict) == Some(members)
    requires Find(members, "result") == Some(result) && result.Obj?
    requires Find(result.members, "tools") == Some(tools) && tools.Arr?
    ensures ToolsOf(s) == Some(Values(tools.items))
  {
    hide DocMembers, Find, Values;
  }

  /** A rewritten response lists the shown tools of the original, unchanged and in order, and the
      report names the others in order. */
  lemma RewriteShows(s: Bytes, limits: RuntimeLimits, policy: PolicyTable)
    requires Classify(s, limits).outcome == Accepted
    requires Rewrite(s, limits.maxNestingDepth, policy).Rewritten?
    ensures var Rewritten(out, removed) := Rewrite(s, limits.maxNestingDepth, policy);
            && ToolsOf(s).Some?
            && ToolsOf(out) == Some(ShownOf(ToolsOf(s).value, policy))
            && removed == HiddenOf(ToolsOf(s).value, policy)
  {
    hide Classify, Rewrite, DocMembers, FilterResponse, FilterResult, Find, Kept, Dropped, ToolsOk, DocText, ToolsOf;
    var limit := limits.maxNestingDepth;
    var pre, post, tools := RewriteMeaning(s, limits, policy);
    var members := DocMembers(s, Strict).value;
    var result := Find(members, "result").value;
    FilterTwice(members, result, tools, policy, limit);
    KeptIsShown(tools.items, policy, limit);
    ListedBoth(s, members, result, tools);
    ListedBoth(Rewrite(s, limit, policy).text, FilterResponse(members, policy, limit),
      FilterResult(result, policy, limit), FilterTools(tools, policy, limit));
  }

  /** SHOWN EXACTLY: over any run, what the client gets for the first answer to a pending list
      request is nothing, because the answer is malformed; or an error response as it is; or a list
      in which a tool of the answer stands exactly if its rule or, without one, the default makes
      it visible. The tools are unchanged and in order, and the report of removed tools names
      exactly the others, in order. */
  lemma ShownToClient(events: seq<Event>, k: nat, message: Bytes, config: Config, policy: PolicyTable)
    requires Classify(message, config.runtime).outcome == Accepted
    requires Classify(message, config.runtime).kind == Response
    requires WaitingSince(events, k, Classify(message, config.runtime).id, config)
    ensures match DecideServer(message, Run(events, config), config, policy)
            case Withhold =>
              config.runtime.maxNestingDepth >= 4 && DocMembers(message, Strict).Some? ==>
                var members := DocMembers(message, Strict).value;
                Count(members, "result") == 1 && !ResultShape(Find(members, "result").value)
            case Deliver => ToolsOf(message).None?
            case Substitute(text) =>
              && ToolsOf(message).Some? && ToolsOf(text).Some?
              && var before, after := ToolsOf(message).value, ToolsOf(text).value;
              && after == ShownOf(before, policy)
              && (forall tool :: tool in after <==>
                   && tool in before
                   && match Lookup(policy.rules, NameOf(tool))
                      case Some(rule) => rule.visible == Allow
                      case None => policy.defaults.visible == Allow)
              && Rewrite(message, config.runtime.maxNestingDepth, policy) == Rewritten(text, HiddenOf(before, policy))
  {
    hide Classify, Rewrite, WaitingSince, Run, ToolsOf, ShownOf, HiddenOf, Lookup, NameOf;
    hide DocMembers, Count, Find, ResultShape;
    var limit := config.runtime.maxNestingDepth;
    PendingExactly(events, Classify(message, config.runtime).id, config);
    match Rewrite(message, limit, policy) {
      case Malformed =>
        if limit >= 4 && DocMembers(message, Strict).Some? { Refused(message, config.runtime, policy); }
      case Passthrough =>
        NoListLeaks(events, k, message, config, policy);
        NoResultNoTools(message);
      case Rewritten(_, _) =>
        RewriteShows(message, config.runtime, policy);
        ShownExactly(ToolsOf(message).value, policy);
    }
  }

  lemma Refused(s: Bytes, limits: RuntimeLimits, policy: PolicyTable)
    requires Classify(s, limits).outcome == Accepted && Classify(s, limits).kind == Response
    requires limits.maxNestingDepth >= 4 && Rewrite(s, limits.maxNestingDepth, policy).Malformed?
    requires DocMembers(s, Strict).Some?
    ensures var members := DocMembers(s, Strict).value;
            Count(members, "result") == 1 && !ResultShape(Find(members, "result").value)
  {
    hide Classify, Rewrite, DocMembers, Count, Find, ResultShape, GoodMembers;
    ShapeDecides(s, limits, policy);
    ClassifyAccepts(s, limits);
    DocStrictIsLax(s, OpenEnd);
  }

  lemma NoResultNoTools(s: Bytes)
    requires DocMembers(s, Strict).Some? && Count(DocMembers(s, Strict).value, "result") == 0
    ensures ToolsOf(s) == None
  {
    hide DocMembers;
  }
}

/** What decides whether a response is rewritten, passed through or refused
    (src/tool_call_filter.cpp): after the classifier has accepted it, only the shape of `result`,
    of its `tools`, of each tool's keys and of each tool's name. */
module RewriterShape {
  import opened Bytes
  import opened Json
  import opened Scanner
  import opened Documents
  import opened JsonRpc
  import opened Policy
  import opened Rewriter
  import opened RewriterMeaning

  // ---- shapes without any depth ----

  predicate NameShape(v: Option<Value>) {
    v.Some? && v.value.Str? && EscapeFree(v.value.raw) && v.value.raw != []
  }

  /** An object without escaped keys and with exactly one name, an escape-free non-empty string. */
  ghost predicate ToolShape(v: Value) {
    v.Obj? && EscapeFreeKeys(v.members) && Count(v.members, "name") == 1 && NameShape(Find(v.members, "name"))
  }

  /** An object without escaped keys and with exactly one `tools`, an array of such objects. */
  ghost predicate ResultShape(v: Value) {
    && v.Obj? && EscapeFreeKeys(v.members) && Count(v.members, "tools") == 1
    && var tools := Find(v.members, "tools").value;
    && tools.Arr? && forall k :: 0 <= k < |tools.items| ==> ToolShape(tools.items[k].value)
  }

  lemma PlainFirst(m: Member, rest: seq<Member>)
    ensures EscapeFreeKeys([m] + rest) <==> EscapeFree(m.key) && EscapeFreeKeys(rest)
  {
    hide EscapeFree;
    var all := [m] + rest;
    assert all[0] == m && forall k :: 0 <= k < |rest| ==> all[k + 1] == rest[k];
  }

  lemma NoneIsPlain()
    ensures EscapeFreeKeys([])
  {
  }

  // ---- one tool ----

  lemma {:induction false} TakeToolShape(name: Option<Bytes>, members: seq<Member>, limit: nat)
    requires 4 + MembersHeight(members) <= limit + 1
    ensures TakeTool(name, members, limit).Some? <==>
              && EscapeFreeKeys(members) && Once(name.Some?) + Count(members, "name") == 1
              && (name.None? ==> NameShape(Find(members, "name")))
    ensures TakeTool(name, members, limit).Some? ==>
              if name.Some? then TakeTool(name, members, limit) == name
              else Find(members, "name") == Some(Str(TakeTool(name, members, limit).value))
    decreases |members|
  {
    hide EscapeFree, Height, EscapeFreeKeys;
    if members == [] {
      NoneIsPlain();
    } else {
      var m, rest := members[0], members[1..];
      assert members == [m] + rest;
      TakeToolFirst(name, m, rest, limit);
      PlainFirst(m, rest);
      CountFirst(m, rest, "name");
      var next := TakeToolMember(name, m, limit);
      if next.Some? { TakeToolShape(next.value, rest, limit); }
    }
  }

  /** A tool within the depth limit is acceptable exactly if it has the shape. */
  lemma ToolNameShape(v: Value, limit: nat)
    requires limit >= 4 && 3 + Height(v) <= limit + 1
    ensures ToolName(v, limit).Some? <==> ToolShape(v)
    ensures ToolName(v, limit).Some? ==> Find(v.members, "name") == Some(Str(ToolName(v, limit).value))
  {
    hide Count, Find, EscapeFreeKeys, EscapeFree, TakeTool;
    if v.Obj? { TakeToolShape(None, v.members, limit); }
  }

  // ---- the result ----

  lemma ToolsShape(v: Value, limit: nat)
    requires limit >= 4 && 2 + Height(v) <= limit + 1
    ensures ToolsArray(v, limit) <==> v.Arr? && forall k :: 0 <= k < |v.items| ==> ToolShape(v.items[k].value)
  {
    hide ToolName, ToolShape, Height;
    if v.Arr? {
      forall k | 0 <= k < |v.items| ensures ToolName(v.items[k].value, limit).Some? <==> ToolShape(v.items[k].value) {
        ItemShorter(v, k);
        ToolNameShape(v.items[k].value, limit);
      }
    }
  }

  lemma ItemShorter(v: Value, k: nat)
    requires v.Arr? && k < |v.items|
    ensures Height(v.items[k].value) + 1 <= Height(v)
  {
    ItemInHeight(v.items, k);
  }

  lemma {:induction false} ItemInHeight(items: seq<Item>, k: nat)
    requires k < |items|
    ensures Height(items[k].value) <= ItemsHeight(items)
    decreases |items|
  {
    hide Height;
    if k > 0 { ItemInHeight(items[1..], k - 1); }
  }

  lemma {:induction false} TakeResultShape(found: Option<Found>, members: seq<Member>, b: nat, limit: nat)
    requires limit >= 4 && 2 + MembersHeight(members) <= limit + 1
    ensures TakeResult(found, members, b, limit).Some? <==>
              && EscapeFreeKeys(members) && Once(found.Some?) + Count(members, "tools") == 1
              && (found.None? ==> ToolsArray(Find(members, "tools").value, limit))
    decreases |members|
  {
    hide EscapeFree, Height, EscapeFreeKeys, ToolsArray, MemberText, MemberHead;
    if members == [] {
      NoneIsPlain();
    } else {
      var m, rest := members[0], members[1..];
      assert members == [m] + rest;
      TakeResultFirst(found, m, rest, b, limit);
      PlainFirst(m, rest);
      CountFirst(m, rest, "tools");
      var next := TakeResultMember(found, m, b, limit);
      if next.Some? { TakeResultShape(next.value, rest, b + |MemberText(m)| + 1, limit); }
    }
  }

  lemma ResultToolsShape(v: Value, at: nat, limit: nat)
    requires limit >= 4 && 1 + Height(v) <= limit + 1
    ensures ResultTools(v, at, limit).Some? <==> ResultShape(v)
  {
    hide Count, Find, EscapeFreeKeys, TakeResult, ToolShape;
    if v.Obj? {
      TakeResultShape(None, v.members, at + 1, limit);
      hide Height;
      if Count(v.members, "tools") == 1 {
        FindHeight(v.members, "tools");
        ObjHeight(v);
        ToolsShape(Find(v.members, "tools").value, limit);
      }
    }
  }

  lemma ObjHeight(v: Value)
    requires v.Obj?
    ensures Height(v) == 1 + MembersHeight(v.members)
  {
  }

  // ---- the response ----

  lemma {:induction false} TakeResponseShape(r: Outline, members: seq<Member>, b: nat, limit: nat)
    requires limit >= 4 && 1 + MembersHeight(members) <= limit + 1
    requires Once(r.result.Some?) + Count(members, "result") <= 1 && Once(r.error) + Count(members, "error") <= 1
    requires EscapeFreeKeys(members)
    ensures TakeResponse(r, members, b, limit).Some? <==>
              (Count(members, "result") == 1 ==> ResultShape(Find(members, "result").value))
    ensures TakeResponse(r, members, b, limit).Some? ==>
              var end := TakeResponse(r, members, b, limit).value;
              && (end.result.Some? <==> r.result.Some? || Count(members, "result") == 1)
              && (end.error <==> r.error || Count(members, "error") == 1)
    decreases |members|
  {
    hide EscapeFree, Height, EscapeFreeKeys, ResultShape, ResultTools, MemberText, MemberHead;
    if members != [] {
      var m, rest := members[0], members[1..];
      assert members == [m] + rest;
      TakeResponseFirst(r, m, rest, b, limit);
      PlainFirst(m, rest);
      CountFirst(m, rest, "result");
      CountFirst(m, rest, "error");
      if m.key == "result" { ResultToolsShape(m.value, b + |MemberHead(m)|, limit); }
      var next := TakeResponseMember(r, m, b, limit);
      if next.Some? { TakeResponseShape(next.value, rest, b + |MemberText(m)| + 1, limit); }
    }
  }

  /** The splice has room whenever the response has the shape. */
  lemma SpliceWorks(s: Bytes, limit: nat, policy: PolicyTable)
    requires DocMembers(s, Strict).Some? && BodyStart(s).Some?
    requires var r := TakeResponse(Outline(None, false), DocMembers(s, Strict).value, BodyStart(s).value, limit);
             r.Some? && r.value.result.Some?
    ensures var r := TakeResponse(Outline(None, false), DocMembers(s, Strict).value, BodyStart(s).value, limit);
            Splice(s, r.value.result.value, policy, limit).Rewritten?
  {
    hide DocText, MembersText, Text, WellFormed, WellFormedMembers, FilterResponse, Count, Find, Before, TakeResponse,
      ToolsArray, Dropped, Kept, ItemsText, DocMembers, Splice;
    var pre, pad, post := DocSound(s);
    var members := DocMembers(s, Strict).value;
    FoundMeaning(members, BodyStart(s).value, limit);
    var result := Find(members, "result").value;
    var tools := Find(result.members, "tools").value;
    ToolsArrayIs(tools, limit);
    NotEmpty(pad, members);
    FindWellFormed(members, "result");
    FilterText(members, result, tools, policy, limit);
    BracesText(pre, members, post);
    SpliceText(s, pre, post, MembersText(members), MembersText(FilterResponse(members, policy, limit)),
      Before(members, "result") + 1 + Before(result.members, "tools"), tools, policy, limit);
  }

  /** SHAPE DECIDES: an accepted response that is closed JSON passes through exactly if it is an
      error response, is rewritten exactly if its result has the shape, and is refused otherwise;
      one that is not closed is refused. No depth limit of at least 4 changes that. */
  lemma ShapeDecides(s: Bytes, limits: RuntimeLimits, policy: PolicyTable)
    requires Classify(s, limits).outcome == Accepted && Classify(s, limits).kind == Response
    requires limits.maxNestingDepth >= 4
    ensures DocMembers(s, Strict).None? ==> Rewrite(s, limits.maxNestingDepth, policy) == Malformed
    ensures DocMembers(s, Strict).Some? ==>
              var members := DocMembers(s, Strict).value;
              var outcome := Rewrite(s, limits.maxNestingDepth, policy);
              && (outcome.Passthrough? <==> Count(members, "error") == 1)
              && (outcome.Rewritten? <==> Count(members, "result") == 1 && ResultShape(Find(members, "result").value))
  {
    hide Classify, DocMembers, Count, Find, TakeResponse, Splice, ResultShape, GoodEnvelope, EscapeFreeKeys;
    var limit := limits.maxNestingDepth;
    ClassifyAccepts(s, limits);
    if DocMembers(s, CommaClose).Some? { DocClosedTwice(s); }
    if DocMembers(s, Strict).Some? {
      var members := DocMembers(s, Strict).value;
      DocStrictIsLax(s, CommaClose);
      DocStrictIsLax(s, OpenEnd);
      EnvelopeShape(members, limit);
      HasBody(s);
      TakeResponseShape(Outline(None, false), members, BodyStart(s).value, limit);
      var r := TakeResponse(Outline(None, false), members, BodyStart(s).value, limit);
      if r.Some? && r.value.result.Some? { SpliceWorks(s, limit, policy); }
    }
  }

  lemma HasBody(s: Bytes)
    ensures DocMembers(s, Strict).Some? ==> BodyStart(s).Some?
  {
  }

  lemma EnvelopeShape(members: seq<Member>, limit: nat)
    requires GoodEnvelope(members, limit)
    ensures EscapeFreeKeys(members) && (limit >= 1 ==> MembersHeight(members) <= limit)
    ensures Count(members, "result") <= 1 && Count(members, "error") <= 1
    ensures Count(members, "method") == 0 ==> Count(members, "result") + Count(members, "error") == 1
  {
    hide Count, EscapeFree;
    if limit >= 1 { GoodMembersHeight(members, limit); }
  }
}

/** `ToolCallExtractor` (src/tool_call_extractor.cpp): the tool name and the raw arguments of a
    `tools/call` message.

    On success the name is escape-free; contrary to the comment on `ToolCallParams::name` it
    may be empty (the policy decision that follows refuses the empty name). */
module ToolCall {
  import opened Bytes
  import opened Json
  import opened Scanner
  import opened ScannerGrammar
  import opened Documents
  import opened JsonRpc

  datatype ToolCall = ToolCall(name: Bytes, arguments: Bytes)

  datatype Params = Params(name: Option<Bytes>, arguments: Option<Bytes>)

  function TakeParam(p: Params, m: Member, limit: nat): Option<Params> {
    if !EscapeFree(m.key) then None
    else if m.key == "name" then
      if p.name.Some? || !m.value.Str? || !EscapeFree(m.value.raw) then None
      else Some(p.(name := Some(m.value.raw)))
    else if m.key == "arguments" then
      if p.arguments.Some? || !Fits(m.value, 2, limit) then None
      else Some(p.(arguments := Some(Text(m.value))))
    else if Fits(m.value, 2, limit) then Some(p)
    else None
  }

  function TakeParams(p: Params, members: seq<Member>, limit: nat): Option<Params>
    decreases |members|
  {
    if members == [] then Some(p)
    else match TakeParam(p, members[0], limit)
      case None => None
      case Some(q) => TakeParams(q, members[1..], limit)
  }

  function Complete(p: Params): Option<ToolCall> {
    if p.name.Some? then Some(ToolCall(p.name.value, OrEmpty(p.arguments))) else None
  }

  /** The call that a `params` value describes. */
  function ParamsOf(v: Value, limit: nat): Option<ToolCall> {
    if !v.Obj? then None
    else match TakeParams(Params(None, None), v.members, limit)
      case None => None
      case Some(p) => Complete(p)
  }

  function TakeTop(call: Option<ToolCall>, m: Member, limit: nat): Option<Option<ToolCall>> {
    if !EscapeFree(m.key) then None
    else if m.key == "params" then
      if call.Some? || ParamsOf(m.value, limit).None? then None else Some(ParamsOf(m.value, limit))
    else if Fits(m.value, 1, limit) then Some(call)
    else None
  }

  function TakeTops(call: Option<ToolCall>, members: seq<Member>, limit: nat): Option<ToolCall>
    decreases |members|
  {
    if members == [] then call
    else match TakeTop(call, members[0], limit)
      case None => None
      case Some(next) => TakeTops(next, members[1..], limit)
  }

  function Extract(s: Bytes, limits: RuntimeLimits): Option<ToolCall> {
    if |s| > limits.maxMessageBytes then None
    else match DocMembers(s, OpenEnd)
      case None => None
      case Some(members) => TakeTops(None, members, limits.maxNestingDepth)
  }

  // ---- the params object ----

  function ParamsFrom(s: Bytes, b: nat, p: Params, limit: nat): (r: Option<(Params, nat)>)
    requires b <= |s|
  {
    match ParseMembers(s, b, OpenEnd)
    case NoMembers => None
    case Members(ms, e) =>
      match TakeParams(p, ms, limit)
      case None => None
      case Some(q) => Some((q, e))
  }

  lemma ParamsStep(s: Bytes, b: nat, p: Params, limit: nat)
    requires b <= |s|
    ensures ParamsFrom(s, b, p, limit) ==
            if WsEnd(s, b) == |s| then Some((p, |s|))
            else
              match ParseMember(s, b)
              case NoMember => None
              case AMember(m, e) =>
                match TakeParam(p, m, limit)
                case None => None
                case Some(q) =>
                  if e == |s| then None
                  else if s[e] == '}' then Some((q, e + 1))
                  else if s[e] == ',' then ParamsFrom(s, e + 1, q, limit)
                  else None
  {
    hide ParseMember, ParseMembers, TakeParam, TakeParams, WsEnd;
    TakeParamsFirst(p, Member([], [], [], [], Str([]), []), [], limit);
    MembersUnfold(s, b, OpenEnd);
    if WsEnd(s, b) < |s| && ParseMember(s, b).AMember? {
      var AMember(m, e) := ParseMember(s, b);
      if e < |s| && s[e] == '}' {
        assert ParseMembers(s, b, OpenEnd) == Members([m], e + 1);
        TakeParamsFirst(p, m, [], limit);
      } else if e < |s| && s[e] == ',' && ParseMembers(s, e + 1, OpenEnd).Members? {
        var Members(rest, end) := ParseMembers(s, e + 1, OpenEnd);
        assert ParseMembers(s, b, OpenEnd) == Members([m] + rest, end);
        TakeParamsFirst(p, m, rest, limit);
      }
    }
  }

  lemma TakeParamsFirst(p: Params, m: Member, rest: seq<Member>, limit: nat)
    ensures TakeParams(p, [m] + rest, limit) ==
            match TakeParam(p, m, limit) case None => None case Some(q) => TakeParams(q, rest, limit)
    ensures TakeParams(p, [], limit) == Some(p) && TakeParams(p, [m], limit) == TakeParam(p, m, limit)
  {
    hide TakeParam;
    assert ([m] + rest)[1..] == rest;
  }

  lemma TakeTopsFirst(call: Option<ToolCall>, m: Member, rest: seq<Member>, limit: nat)
    ensures TakeTops(call, [m] + rest, limit) ==
            match TakeTop(call, m, limit) case None => None case Some(next) => TakeTops(next, rest, limit)
    ensures TakeTops(call, [], limit) == call
    ensures TakeTops(call, [m], limit) == match TakeTop(call, m, limit) case None => None case Some(next) => next
  {
    hide TakeTop;
    assert ([m] + rest)[1..] == rest;
  }

  /** `ok` with the offset at the end of input is the open-ended form; every caller refuses it. */
  method ParseParams(message: Bytes, begin: nat, limit: nat)
    returns (ok: bool, offset: nat, call: ToolCall)
    requires begin < |message| && message[begin] == '{'
    ensures ok ==> begin < offset <= |message|
    ensures ParseValue(message, begin).Fail? ==> !ok || offset == |message|
    ensures var r := ParseValue(message, begin);
            r.Got? ==> (ok <==> ParamsOf(r.value, limit).Some?)
                       && (ok ==> offset == r.end && ParamsOf(r.value, limit) == Some(call))
  {
    hide Text, TakeParam, TakeParams, ParseMember, ParseMembers, ParseValue, ParseKey, WsEnd, ParamsFrom;
    ok, offset, call := false, begin, ToolCall([], []);
    ParseObject(message, begin);
    ParamsWhole(message, begin, limit);
    ghost var b := begin + 1;
    var p := Params(None, None);
    offset := SkipWhitespace(message, begin + 1);
    if offset < |message| && message[offset] == '}' {
      return;
    }
    while offset < |message|
      invariant begin < b <= |message| && offset == WsEnd(message, b)
      invariant ParamsFrom(message, begin + 1, Params(None, None), limit) == ParamsFrom(message, b, p, limit)
      decreases |message| - b
    {
      ParamsStep(message, b, p, limit);
      MemberUnfold(message, b);
      var key, hasEscape, q;
      ok, offset, key, hasEscape := ScanKey(message, offset, b);
      if !ok || hasEscape {
        ParamEscaped(message, b, p, limit);
        return false, offset, call;
      }
      ok, offset, q := ParseParam(message, offset, key, p, limit, b);
      if !ok {
        return;
      }
      p := q;
      offset := SkipWhitespace(message, offset);
      if offset >= |message| {
        return false, offset, call;
      }
      if message[offset] == '}' {
        if p.name.None? {
          return false, offset, call;
        }
        return true, offset + 1, Complete(p).value;
      }
      if message[offset] != ',' {
        return false, offset, call;
      }
      b := offset + 1;
      offset := SkipWhitespace(message, offset + 1);
    }
    ParamsStep(message, b, p, limit);
    if p.name.None? {
      return false, offset, call;
    }
    return true, offset, Complete(p).value;
  }

  lemma ParamEscaped(s: Bytes, b: nat, p: Params, limit: nat)
    requires b <= |s| && (ParseKey(s, b).NoKey? || !EscapeFree(ParseKey(s, b).key))
    ensures ParseMember(s, b).NoMember? || TakeParam(p, ParseMember(s, b).member, limit).None?
  {
    hide ParseKey, ParseValue, WsEnd, Text;
  }

  lemma ParamsWhole(s: Bytes, i: nat, limit: nat)
    requires i < |s| && s[i] == '{'
    ensures var r := ParseValue(s, i);
            var j := WsEnd(s, i + 1);
            var p := ParamsFrom(s, i + 1, Params(None, None), limit);
            if j < |s| && s[j] == '}' then r.Got? && ParamsOf(r.value, limit).None?
            else
              && (r.Got? ==> ParamsOf(r.value, limit) == (if p.None? then None else Complete(p.value.0)))
              && (r.Got? && p.Some? ==> p.value.1 == r.end)
              && (r.Fail? && p.Some? ==> p.value.1 == |s|)
  {
    hide ParseMembers, ParseValue, WsEnd, TakeParam;
    ParseObject(s, i);
    if ParseMembers(s, i + 1, Strict).Members? {
      StrictIsLax(s, i + 1, OpenEnd);
    } else if ParseMembers(s, i + 1, OpenEnd).Members? {
      OpenOnlyAtEnd(s, i + 1);
    }
  }

  method ParseParam(message: Bytes, begin: nat, key: Bytes, p: Params, limit: nat, ghost b: nat)
    returns (ok: bool, offset: nat, q: Params)
    requires b <= |message| && ParseKey(message, b).AKey? && EscapeFree(key)
    requires key == ParseKey(message, b).key && begin == ParseKey(message, b).end
    ensures ok ==>
              var r := ParseValue(message, begin);
              r.Got? && offset == r.end && TakeParam(p, ParseMember(message, b).member, limit) == Some(q)
    ensures !ok ==>
              ParseValue(message, begin).Fail? || TakeParam(p, ParseMember(message, b).member, limit).None?
  {
    hide ParseValue, ParseKey, WsEnd, StringEnd, ParseMember;
    ok, offset, q := false, begin, p;
    MemberUnfold(message, b);
    ValueKinds(message, begin);
    if key == "name" {
      if p.name.Some? {
        return;
      }
      if offset >= |message| || message[offset] != '"' {
        ok, offset := SkipValue(message, offset, 2, limit);
        return false, offset, q;
      }
      var contents, hasEscape;
      ok, offset, contents, hasEscape := ScanString(message, offset);
      if !ok || hasEscape {
        return false, offset, q;
      }
      q := p.(name := Some(contents));
    } else if key == "arguments" {
      if p.arguments.Some? {
        return;
      }
      ok, offset := SkipValue(message, offset, 2, limit);
      if ok {
        ValueSound(message, begin);
        q := p.(arguments := Some(message[begin..offset]));
      }
    } else {
      ok, offset := SkipValue(message, offset, 2, limit);
    }
  }

  // ---- the message ----

  function ExtractFrom(s: Bytes, b: nat, call: Option<ToolCall>, limit: nat): Option<ToolCall>
    requires b <= |s|
  {
    match ParseMembers(s, b, OpenEnd)
    case NoMembers => None
    case Members(ms, e) => if WsEnd(s, e) == |s| then TakeTops(call, ms, limit) else None
  }

  lemma ExtractStep(s: Bytes, b: nat, call: Option<ToolCall>, limit: nat)
    requires b <= |s|
    ensures ExtractFrom(s, b, call, limit) ==
            if WsEnd(s, b) == |s| then call
            else
              match ParseMember(s, b)
              case NoMember => None
              case AMember(m, e) =>
                match TakeTop(call, m, limit)
                case None => None
                case Some(next) =>
                  if e == |s| then None
                  else if s[e] == '}' then (if WsEnd(s, e + 1) == |s| then next else None)
                  else if s[e] == ',' then ExtractFrom(s, e + 1, next, limit)
                  else None
  {
    hide ParseMember, ParseMembers, TakeTop, TakeTops, WsEnd;
    TakeTopsFirst(call, Member([], [], [], [], Str([]), []), [], limit);
    MembersUnfold(s, b, OpenEnd);
    if WsEnd(s, b) < |s| && ParseMember(s, b).AMember? {
      var AMember(m, e) := ParseMember(s, b);
      if e < |s| && s[e] == '}' {
        assert ParseMembers(s, b, OpenEnd) == Members([m], e + 1);
        TakeTopsFirst(call, m, [], limit);
      } else if e < |s| && s[e] == ',' && ParseMembers(s, e + 1, OpenEnd).Members? {
        var Members(rest, end) := ParseMembers(s, e + 1, OpenEnd);
        assert ParseMembers(s, b, OpenEnd) == Members([m] + rest, end);
        TakeTopsFirst(call, m, rest, limit);
      }
    }
  }

  lemma ExtractStops(s: Bytes, b: nat, call: Option<ToolCall>, limit: nat)
    requires b <= |s| && WsEnd(s, b) < |s|
    requires ParseMember(s, b).NoMember? || TakeTop(call, ParseMember(s, b).member, limit).None?
    ensures ExtractFrom(s, b, call, limit).None?
  {
    hide ParseMember, TakeTop, ExtractFrom, WsEnd;
    ExtractStep(s, b, call, limit);
  }

  lemma ExtractNext(s: Bytes, b: nat, call: Option<ToolCall>, next: Option<ToolCall>, limit: nat)
    requires b <= |s| && WsEnd(s, b) < |s|
    requires ParseMember(s, b).AMember? && TakeTop(call, ParseMember(s, b).member, limit) == Some(next)
    ensures var e := ParseMember(s, b).end;
            ExtractFrom(s, b, call, limit) ==
            if e == |s| then None
            else if s[e] == '}' then (if WsEnd(s, e + 1) == |s| then next else None)
            else if s[e] == ',' then ExtractFrom(s, e + 1, next, limit)
            else None
  {
    hide ParseMember, TakeTop, ExtractFrom, WsEnd;
    ExtractStep(s, b, call, limit);
  }

  /** The value of one member; a `params` object that breaks off leaves the offset at the end of
      input, where the message is refused. */
  method ExtractMember(message: Bytes, begin: nat, key: Bytes, limit: nat, call: Option<ToolCall>, ghost b: nat)
    returns (ok: bool, offset: nat, next: Option<ToolCall>)
    requires b <= |message| && ParseKey(message, b).AKey? && EscapeFree(key)
    requires key == ParseKey(message, b).key && begin == ParseKey(message, b).end
    ensures ok ==> offset <= |message|
    ensures ok && ParseMember(message, b).AMember? ==>
              && ParseMember(message, b).end == WsEnd(message, offset)
              && TakeTop(call, ParseMember(message, b).member, limit) == Some(next)
    ensures ok && ParseMember(message, b).NoMember? ==> offset == |message|
    ensures !ok ==>
              ParseMember(message, b).NoMember? || TakeTop(call, ParseMember(message, b).member, limit).None?
  {
    hide Text, ParseMember, ParseValue, ParseKey, WsEnd, EscapeFree, ParamsOf, Fits;
    ok, offset, next := false, begin, call;
    MemberUnfold(message, b);
    if key == "params" {
      if call.Some? {
        return;
      }
      ValueKinds(message, begin);
      if offset >= |message| || message[offset] != '{' {
        OnlyObjects(message, begin, limit);
        return;
      }
      var found;
      ok, offset, found := ParseParams(message, offset, limit);
      next := Some(found);
    } else {
      ok, offset := SkipValue(message, offset, 1, limit);
    }
  }

  lemma OnlyObjects(s: Bytes, i: nat, limit: nat)
    requires i <= |s| && (i < |s| ==> s[i] != '{')
    ensures ParseValue(s, i).Got? ==> ParamsOf(ParseValue(s, i).value, limit).None?
  {
    hide ParseValue, StringEnd, NumberEnd, TakeParams;
    ValueKinds(s, i);
  }

  method ExtractCall(message: Bytes, limits: RuntimeLimits) returns (result: Option<ToolCall>)
    ensures result == Extract(message, limits)
  {
    hide TakeTops, ParseMember, ParseMembers, ParseValue, ParseKey, WsEnd, ExtractFrom, TakeTop, EscapeFree;
    if |message| > limits.maxMessageBytes {
      return None;
    }
    var offset := SkipWhitespace(message, 0);
    if offset >= |message| || message[offset] != '{' {
      return None;
    }
    var limit := limits.maxNestingDepth;
    ghost var b := offset + 1;
    ExtractWhole(message, limits);
    result := None;
    offset := SkipWhitespace(message, offset + 1);
    if offset < |message| && message[offset] == '}' {
      return None;
    }
    while offset < |message|
      invariant b <= |message| && offset == WsEnd(message, b)
      invariant Extract(message, limits) == ExtractFrom(message, b, result, limit)
      decreases |message| - b
    {
      var ok, key, hasEscape, next;
      ok, offset, key, hasEscape := ScanKey(message, offset, b);
      if !ok || hasEscape {
        TopEscaped(message, b, result, limit);
        ExtractStops(message, b, result, limit);
        return None;
      }
      ok, offset, next := ExtractMember(message, offset, key, limit, result, b);
      if !ok || ParseMember(message, b).NoMember? {
        ExtractStops(message, b, result, limit);
      } else {
        ExtractNext(message, b, result, next, limit);
      }
      if !ok {
        return None;
      }
      result := next;
      offset := SkipWhitespace(message, offset);
      if offset >= |message| {
        return None;
      }
      if message[offset] == '}' {
        offset := SkipWhitespace(message, offset + 1);
        return if offset == |message| then result else None;
      }
      if message[offset] != ',' {
        return None;
      }
      b := offset + 1;
      offset := SkipWhitespace(message, offset + 1);
    }
    ExtractStep(message, b, result, limit);
  }

  lemma TopEscaped(s: Bytes, b: nat, call: Option<ToolCall>, limit: nat)
    requires b <= |s| && (ParseKey(s, b).NoKey? || !EscapeFree(ParseKey(s, b).key))
    ensures ParseMember(s, b).NoMember? || TakeTop(call, ParseMember(s, b).member, limit).None?
  {
    hide ParseKey, ParseValue, WsEnd, ParamsOf;
  }

  lemma ExtractWhole(s: Bytes, limits: RuntimeLimits)
    requires |s| <= limits.maxMessageBytes && BodyStart(s).Some?
    ensures var b := BodyStart(s).value;
            var j := WsEnd(s, b);
            Extract(s, limits) ==
            if j < |s| && s[j] == '}' then None
            else ExtractFrom(s, b, None, limits.maxNestingDepth)
  {
    hide ParseMembers, WsEnd, TakeTop;
  }

  // ---- which messages yield a call ----

  ghost predicate GoodParam(m: Member, limit: nat) {
    && EscapeFree(m.key)
    && (m.key == "name" ==> m.value.Str? && EscapeFree(m.value.raw))
    && (m.key != "name" ==> Fits(m.value, 2, limit))
  }

  ghost predicate GoodParams(members: seq<Member>, limit: nat) {
    forall k :: 0 <= k < |members| ==> GoodParam(members[k], limit)
  }

  ghost predicate GoodTop(m: Member, limit: nat) {
    EscapeFree(m.key) && (m.key != "params" ==> Fits(m.value, 1, limit))
  }

  ghost predicate GoodTops(members: seq<Member>, limit: nat) {
    forall k :: 0 <= k < |members| ==> GoodTop(members[k], limit)
  }

  lemma GoodFirst(m: Member, rest: seq<Member>, limit: nat)
    ensures GoodParams([m] + rest, limit) <==> GoodParam(m, limit) && GoodParams(rest, limit)
    ensures GoodTops([m] + rest, limit) <==> GoodTop(m, limit) && GoodTops(rest, limit)
  {
    hide GoodParam, GoodTop;
    var all := [m] + rest;
    assert all[0] == m;
    assert forall k :: 0 <= k < |rest| ==> all[k + 1] == rest[k];
  }

  ghost function MaybeRaw(v: Option<Value>): Option<Bytes> {
    match v case Some(value) => if value.Str? then Some(value.raw) else None case None => None
  }

  ghost function MaybeText(v: Option<Value>): Option<Bytes> {
    match v case Some(value) => Some(Text(value)) case None => None
  }

  lemma {:induction false} TakeParamsMeaning(p: Params, members: seq<Member>, limit: nat)
    ensures var r := TakeParams(p, members, limit);
            && (r.Some? <==>
                 && GoodParams(members, limit)
                 && Once(p.name.Some?) + Count(members, "name") <= 1
                 && Once(p.arguments.Some?) + Count(members, "arguments") <= 1)
            && (r.Some? ==>
                 && r.value.name == (if p.name.Some? then p.name else MaybeRaw(Find(members, "name")))
                 && r.value.arguments == (if p.arguments.Some? then p.arguments else MaybeText(Find(members, "arguments"))))
    decreases |members|
  {
    hide Fits, Text, EscapeFree, GoodParams;
    if members == [] {
      assert GoodParams([], limit) by { NothingIsGood(limit); }
    } else {
      var m, rest := members[0], members[1..];
      assert members == [m] + rest;
      TakeParamsFirst(p, m, rest, limit);
      GoodFirst(m, rest, limit);
      CountFirst(m, rest, "name");
      CountFirst(m, rest, "arguments");
      if TakeParam(p, m, limit).Some? {
        TakeParamsMeaning(TakeParam(p, m, limit).value, rest, limit);
      }
    }
  }

  lemma NothingIsGood(limit: nat)
    ensures GoodParams([], limit) && GoodTops([], limit)
  {
  }

  /** `params` yields a call exactly when it is an object with one string `name`, at most one
      `arguments`, no escaped keys and no escape in the name, all within the depth limit. */
  lemma ParamsMeaning(v: Value, limit: nat)
    ensures ParamsOf(v, limit).Some? <==>
              && v.Obj? && GoodParams(v.members, limit)
              && Count(v.members, "name") == 1 && Count(v.members, "arguments") <= 1
    ensures ParamsOf(v, limit).Some? ==>
              var call := ParamsOf(v, limit).value;
              && Find(v.members, "name") == Some(Str(call.name)) && EscapeFree(call.name)
              && call.arguments == OrEmpty(MaybeText(Find(v.members, "arguments")))
  {
    hide Fits, Text, EscapeFree, GoodParams, TakeParams, Count, Find;
    if v.Obj? {
      TakeParamsMeaning(Params(None, None), v.members, limit);
      if GoodParams(v.members, limit) { FindGoodName(v.members, limit); }
    }
  }

  lemma {:induction false} FindGoodName(members: seq<Member>, limit: nat)
    requires GoodParams(members, limit)
    ensures var name := Find(members, "name"); name.Some? ==> name.value.Str? && EscapeFree(name.value.raw)
    decreases |members|
  {
    if members != [] {
      var m, rest := members[0], members[1..];
      assert members == [m] + rest;
      GoodFirst(m, rest, limit);
      if m.key != "name" { FindGoodName(rest, limit); }
    }
  }

  lemma {:induction false} TakeTopsMeaning(call: Option<ToolCall>, members: seq<Member>, limit: nat)
    ensures var r := TakeTops(call, members, limit);
            var params := Find(members, "params");
            && (r.Some? <==>
                 && GoodTops(members, limit)
                 && Once(call.Some?) + Count(members, "params") == 1
                 && (params.Some? ==> ParamsOf(params.value, limit).Some?))
            && (r.Some? ==> r == if call.Some? then call else ParamsOf(params.value, limit))
    decreases |members|
  {
    hide Fits, EscapeFree, GoodTops, ParamsOf;
    if members == [] {
      assert GoodTops([], limit) by { NothingIsGood(limit); }
    } else {
      var m, rest := members[0], members[1..];
      assert members == [m] + rest;
      TakeTopsFirst(call, m, rest, limit);
      GoodFirst(m, rest, limit);
      CountFirst(m, rest, "params");
      if TakeTop(call, m, limit).Some? {
        TakeTopsMeaning(TakeTop(call, m, limit).value, rest, limit);
      }
    }
  }

  /** A message yields a call exactly when it is one object (closed or open-ended) with exactly
      one `params` member, and that member yields the call. */
  lemma ExtractMeaning(s: Bytes, limits: RuntimeLimits)
    ensures var members := DocMembers(s, OpenEnd);
            && (Extract(s, limits).Some? <==>
                 && |s| <= limits.maxMessageBytes && members.Some?
                 && GoodTops(members.value, limits.maxNestingDepth)
                 && Count(members.value, "params") == 1
                 && ParamsOf(Find(members.value, "params").value, limits.maxNestingDepth).Some?)
            && (Extract(s, limits).Some? ==>
                 Extract(s, limits) == ParamsOf(Find(members.value, "params").value, limits.maxNestingDepth))
  {
    hide GoodTops, ParamsOf, DocMembers, TakeTops;
    var members := DocMembers(s, OpenEnd);
    if members.Some? { TakeTopsMeaning(None, members.value, limits.maxNestingDepth); }
  }

  /** WHEN THE NAME IS EMPTY: a successful extraction reports the contents of the only `name` in
      `params`; they are empty exactly if that member's value is `""`. */
  lemma ExtractedName(s: Bytes, limits: RuntimeLimits)
    requires Extract(s, limits).Some?
    ensures var name := Extract(s, limits).value.name;
            && DocMembers(s, OpenEnd).Some?
            && var params := Find(DocMembers(s, OpenEnd).value, "params");
            && params.Some? && params.value.Obj? && Count(params.value.members, "name") == 1
            && var value := Find(params.value.members, "name").value;
            && Text(value) == Quoted(name)
            && (name == [] <==> Text(value) == "\"\"")
  {
    hide Extract, DocMembers, ParamsOf, GoodTops, GoodParams, Count, Find;
    ExtractMeaning(s, limits);
    var params := Find(DocMembers(s, OpenEnd).value, "params").value;
    ParamsMeaning(params, limits.maxNestingDepth);
  }
}

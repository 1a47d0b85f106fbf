/** The `tools/list` response rewriter (src/tool_call_filter.cpp): `parse_tool`,
    `parse_tools_array`, `parse_result`, `rewrite_tools_list_response`.

    The functions say, for the parsed members, which tools a response lists, where its tools
    array stands and what is left after filtering. The methods are the splicing loops.
    `RewriterMeaning` proves what the splice does to the document. */
module Rewriter {
  import opened Bytes
  import opened Json
  import opened Scanner
  import opened ScannerGrammar
  import opened Documents
  import opened Policy
  import Objects

  /** `ProxyCore::authorize_tool_visibility`. */
  predicate Visible(policy: PolicyTable, name: Bytes) {
    name != [] && VisibilityFor(policy, name).Allow?
  }

  // ---- one tool ----

  function TakeToolMember(name: Option<Bytes>, m: Member, limit: nat): Option<Option<Bytes>> {
    if !EscapeFree(m.key) then None
    else if m.key == "name" then
      if name.Some? || !m.value.Str? || !EscapeFree(m.value.raw) || m.value.raw == [] then None
      else Some(Some(m.value.raw))
    else if Fits(m.value, 4, limit) then Some(name)
    else None
  }

  function TakeTool(name: Option<Bytes>, members: seq<Member>, limit: nat): Option<Bytes>
    decreases |members|
  {
    if members == [] then name
    else match TakeToolMember(name, members[0], limit)
      case None => None
      case Some(next) => TakeTool(next, members[1..], limit)
  }

  /** The name of an acceptable tool definition. */
  function ToolName(v: Value, limit: nat): Option<Bytes> {
    if limit < 4 || !v.Obj? then None else TakeTool(None, v.members, limit)
  }

  // ---- the tools array ----

  ghost predicate ToolsOk(items: seq<Item>, limit: nat) {
    forall k :: 0 <= k < |items| ==> ToolName(items[k].value, limit).Some?
  }

  /** The tools that stay, in order, without the whitespace around them. */
  function Kept(items: seq<Item>, policy: PolicyTable, limit: nat): seq<Item> {
    if items == [] then []
    else
      var rest := Kept(items[1..], policy, limit);
      match ToolName(items[0].value, limit)
      case None => rest
      case Some(name) => if Visible(policy, name) then [Item([], items[0].value, [])] + rest else rest
  }

  /** The names of the tools that go, in order. */
  function Dropped(items: seq<Item>, policy: PolicyTable, limit: nat): seq<Bytes> {
    if items == [] then []
    else
      var rest := Dropped(items[1..], policy, limit);
      match ToolName(items[0].value, limit)
      case None => rest
      case Some(name) => if Visible(policy, name) then rest else [name] + rest
  }

  ghost predicate ToolsArray(v: Value, limit: nat) {
    limit >= 3 && v.Arr? && ToolsOk(v.items, limit)
  }

  // ---- the result object and the response ----

  /** A tools array and the offset where it stands. */
  datatype Found = Found(at: nat, tools: Value)

  ghost function TakeResultMember(found: Option<Found>, m: Member, b: nat, limit: nat): Option<Option<Found>> {
    if !EscapeFree(m.key) then None
    else if m.key == "tools" then
      if found.Some? || !ToolsArray(m.value, limit) then None
      else Some(Some(Found(b + |MemberHead(m)|, m.value)))
    else if Fits(m.value, 2, limit) then Some(found)
    else None
  }

  /** The tools array among the members whose text starts at offset `b`. */
  ghost function TakeResult(found: Option<Found>, members: seq<Member>, b: nat, limit: nat): Option<Found>
    decreases |members|
  {
    if members == [] then found
    else match TakeResultMember(found, members[0], b, limit)
      case None => None
      case Some(next) => TakeResult(next, members[1..], b + |MemberText(members[0])| + 1, limit)
  }

  /** The tools array of a result value that stands at offset `at`. */
  ghost function ResultTools(v: Value, at: nat, limit: nat): Option<Found> {
    if limit < 2 || !v.Obj? then None else TakeResult(None, v.members, at + 1, limit)
  }

  datatype Outline = Outline(result: Option<Found>, error: bool)

  ghost function TakeResponseMember(r: Outline, m: Member, b: nat, limit: nat): Option<Outline> {
    if !EscapeFree(m.key) then None
    else if m.key == "result" then
      var found := ResultTools(m.value, b + |MemberHead(m)|, limit);
      if r.result.Some? || found.None? then None else Some(r.(result := found))
    else if m.key == "error" && r.error then None
    else if Fits(m.value, 1, limit) then Some(if m.key == "error" then r.(error := true) else r)
    else None
  }

  ghost function TakeResponse(r: Outline, members: seq<Member>, b: nat, limit: nat): Option<Outline>
    decreases |members|
  {
    if members == [] then Some(r)
    else match TakeResponseMember(r, members[0], b, limit)
      case None => None
      case Some(next) => TakeResponse(next, members[1..], b + |MemberText(members[0])| + 1, limit)
  }

  datatype Rewriting = Malformed | Passthrough | Rewritten(text: Bytes, removed: seq<Bytes>)

  ghost function Close(found: Found): int {
    found.at + |Text(found.tools)| - 1
  }

  /** Everything up to and including the array's bracket, the kept tools, and everything from
      the closing bracket on. */
  ghost function Splice(s: Bytes, found: Found, policy: PolicyTable, limit: nat): Rewriting {
    if found.tools.Arr? && found.at + 1 <= Close(found) <= |s| then
      Rewritten(s[..found.at + 1] + ItemsText(Kept(found.tools.items, policy, limit)) + s[Close(found)..],
                Dropped(found.tools.items, policy, limit))
    else Malformed
  }

  ghost function Conclude(s: Bytes, r: Outline, policy: PolicyTable, limit: nat): Rewriting {
    if r.result.Some? == r.error then Malformed
    else if r.error then Passthrough
    else Splice(s, r.result.value, policy, limit)
  }

  ghost function Rewrite(s: Bytes, limit: nat, policy: PolicyTable): Rewriting {
    match DocMembers(s, CommaClose)
    case None => Malformed
    case Some(members) =>
      match TakeResponse(Outline(None, false), members, BodyStart(s).value, limit)
      case None => Malformed
      case Some(r) => Conclude(s, r, policy, limit)
  }

  // ---- parse_tool ----

  function ToolFrom(s: Bytes, b: nat, name: Option<Bytes>, limit: nat): Option<(Bytes, nat)>
    requires b <= |s|
  {
    match ParseMembers(s, b, Strict)
    case NoMembers => None
    case Members(ms, e) =>
      match TakeTool(name, ms, limit) case None => None case Some(n) => Some((n, e))
  }

  lemma TakeToolFirst(name: Option<Bytes>, m: Member, rest: seq<Member>, limit: nat)
    ensures TakeTool(name, [m] + rest, limit) ==
            match TakeToolMember(name, m, limit) case None => None case Some(next) => TakeTool(next, rest, limit)
    ensures TakeTool(name, [], limit) == name
    ensures TakeTool(name, [m], limit) ==
            match TakeToolMember(name, m, limit) case None => None case Some(next) => next
  {
    hide TakeToolMember;
    assert ([m] + rest)[1..] == rest;
  }

  lemma ToolStep(s: Bytes, b: nat, name: Option<Bytes>, limit: nat)
    requires b <= |s|
    ensures ToolFrom(s, b, name, limit) ==
            match ParseMember(s, b)
            case NoMember => None
            case AMember(m, e) =>
              match TakeToolMember(name, m, limit)
              case None => None
              case Some(next) =>
                if e == |s| then None
                else if s[e] == '}' then (match next case None => None case Some(n) => Some((n, e + 1)))
                else if s[e] == ',' then ToolFrom(s, e + 1, next, limit)
                else None
  {
    hide ParseMember, ParseMembers, TakeToolMember, TakeTool, WsEnd;
    MembersUnfold(s, b, Strict);
    if ParseMember(s, b).AMember? {
      var AMember(m, e) := ParseMember(s, b);
      if e < |s| && s[e] == '}' {
        assert ParseMembers(s, b, Strict) == Members([m], e + 1);
        TakeToolFirst(name, m, [], limit);
      } else if e < |s| && s[e] == ',' && ParseMembers(s, e + 1, Strict).Members? {
        var Members(rest, end) := ParseMembers(s, e + 1, Strict);
        assert ParseMembers(s, b, Strict) == Members([m] + rest, end);
        TakeToolFirst(name, m, rest, limit);
      }
    }
  }

  lemma ToolWhole(s: Bytes, i: nat, limit: nat)
    requires i < |s| && s[i] == '{' && limit >= 4
    ensures var r := ParseValue(s, i);
            var j := WsEnd(s, i + 1);
            if j < |s| && s[j] == '}' then r.Got? && ToolName(r.value, limit).None?
            else ToolFrom(s, i + 1, None, limit) ==
                 if r.Fail? then None
                 else match ToolName(r.value, limit) case None => None case Some(n) => Some((n, r.end))
  {
    hide ParseMembers, ParseValue, WsEnd, TakeToolMember;
    ParseObject(s, i);
  }

  lemma ToolEscaped(s: Bytes, b: nat, name: Option<Bytes>, limit: nat)
    requires b <= |s| && (ParseKey(s, b).NoKey? || !EscapeFree(ParseKey(s, b).key))
    ensures ParseMember(s, b).NoMember? || TakeToolMember(name, ParseMember(s, b).member, limit).None?
  {
    hide ParseKey, ParseValue, WsEnd;
  }

  lemma ToolStops(s: Bytes, b: nat, name: Option<Bytes>, limit: nat)
    requires b <= |s|
    requires ParseMember(s, b).NoMember? || TakeToolMember(name, ParseMember(s, b).member, limit).None?
    ensures ToolFrom(s, b, name, limit).None?
  {
    hide ParseMember, TakeToolMember, ToolFrom;
    ToolStep(s, b, name, limit);
  }

  lemma ToolNext(s: Bytes, b: nat, name: Option<Bytes>, next: Option<Bytes>, limit: nat)
    requires b <= |s|
    requires ParseMember(s, b).AMember? && TakeToolMember(name, ParseMember(s, b).member, limit) == Some(next)
    ensures var e := ParseMember(s, b).end;
            && (e == |s| || (s[e] != '}' && s[e] != ',') ==> ToolFrom(s, b, name, limit).None?)
            && (e < |s| && s[e] == '}' ==>
                 ToolFrom(s, b, name, limit) == (match next case None => None case Some(n) => Some((n, e + 1))))
            && (e < |s| && s[e] == ',' ==> ToolFrom(s, b, name, limit) == ToolFrom(s, e + 1, next, limit))
  {
    hide ParseMember, TakeToolMember, ToolFrom;
    ToolStep(s, b, name, limit);
  }

  /** The value of one member and what it does to the name. */
  method ParseToolMember(message: Bytes, begin: nat, key: Bytes, seen: Option<Bytes>, limit: nat, ghost b: nat)
    returns (ok: bool, offset: nat, next: Option<Bytes>)
    requires b <= |message| && ParseKey(message, b).AKey? && EscapeFree(key)
    requires key == ParseKey(message, b).key && begin == ParseKey(message, b).end
    ensures ok ==>
              && ParseMember(message, b).AMember? && offset <= |message|
              && ParseMember(message, b).end == WsEnd(message, offset)
              && TakeToolMember(seen, ParseMember(message, b).member, limit) == Some(next)
    ensures !ok ==>
              ParseMember(message, b).NoMember? || TakeToolMember(seen, ParseMember(message, b).member, limit).None?
  {
    hide ParseMember, ParseValue, ParseKey, WsEnd, StringEnd, EscapeFree, Fits;
    ok, offset, next := false, begin, seen;
    MemberUnfold(message, b);
    ValueKinds(message, begin);
    if key == "name" {
      if seen.Some? {
        return;
      }
      var contents, escaped;
      ok, offset, contents, escaped := ScanString(message, offset);
      if !ok || escaped || contents == [] {
        return false, offset, next;
      }
      next := Some(contents);
    } else {
      ok, offset := SkipValue(message, offset, 4, limit);
    }
  }

  method ParseTool(message: Bytes, begin: nat, limit: nat) returns (ok: bool, offset: nat, name: Bytes)
    requires begin <= |message|
    ensures ok <==> ParseValue(message, begin).Got? && ToolName(ParseValue(message, begin).value, limit).Some?
    ensures ok ==>
              && offset == ParseValue(message, begin).end
              && ToolName(ParseValue(message, begin).value, limit) == Some(name)
  {
    hide ParseMember, ParseMembers, ParseValue, ParseKey, WsEnd, ToolFrom, TakeTool, TakeToolMember, EscapeFree;
    ok, offset, name := false, begin, [];
    ValueKinds(message, begin);
    if limit < 4 || offset >= |message| || message[offset] != '{' {
      return;
    }
    ToolWhole(message, begin, limit);
    ghost var b := begin + 1;
    var seen: Option<Bytes> := None;
    offset := SkipWhitespace(message, begin + 1);
    if offset < |message| && message[offset] == '}' {
      return;
    }
    while offset < |message|
      invariant begin < b <= |message| && offset == WsEnd(message, b)
      invariant ToolFrom(message, begin + 1, None, limit) == ToolFrom(message, b, seen, limit)
      decreases |message| - b
    {
      var key, hasEscape, next;
      ok, offset, key, hasEscape := ScanKey(message, offset, b);
      if !ok || hasEscape {
        ToolEscaped(message, b, seen, limit);
        ToolStops(message, b, seen, limit);
        return false, offset, name;
      }
      ok, offset, next := ParseToolMember(message, offset, key, seen, limit, b);
      if !ok {
        ToolStops(message, b, seen, limit);
        return;
      }
      ToolNext(message, b, seen, next, limit);
      seen := next;
      offset := SkipWhitespace(message, offset);
      if offset >= |message| {
        return false, offset, name;
      }
      if message[offset] == '}' {
        if seen.None? {
          return false, offset, name;
        }
        return true, offset + 1, seen.value;
      }
      if message[offset] != ',' {
        return false, offset, name;
      }
      b := offset + 1;
      offset := SkipWhitespace(message, offset + 1);
    }
    ToolStep(message, b, seen, limit);
    NoMemberAtEnd(message, b);
    return false, offset, name;
  }

  // ---- parse_tools_array ----

  /** What the array loop still has to do: the text written, the names removed, the end. */
  ghost function ArrayFrom(s: Bytes, b: nat, text: Bytes, wrote: bool, removed: seq<Bytes>,
                           policy: PolicyTable, limit: nat): Option<(Bytes, seq<Bytes>, nat)>
    requires b <= |s|
  {
    match ParseItems(s, b)
    case NoItems => None
    case Items(items, e) =>
      if !ToolsOk(items, limit) then None
      else Some((Written(text, wrote, Kept(items, policy, limit)), removed + Dropped(items, policy, limit), e))
  }

  /** `text` with more tools after it; a comma only between tools. */
  function Written(text: Bytes, wrote: bool, tools: seq<Item>): Bytes {
    if tools == [] then text else text + (if wrote then "," else "") + ItemsText(tools)
  }

  lemma WrittenStep(text: Bytes, wrote: bool, tool: Item, rest: seq<Item>)
    ensures Written(text, wrote, [tool] + rest) ==
            Written(text + (if wrote then "," else "") + ItemText(tool), true, rest)
  {
    hide ItemText;
    assert ([tool] + rest)[1..] == rest;
    var start := text + (if wrote then "," else "");
    if rest != [] {
      assert ItemsText([tool] + rest) == ItemText(tool) + "," + ItemsText(rest);
      assert start + (ItemText(tool) + "," + ItemsText(rest)) == start + ItemText(tool) + "," + ItemsText(rest);
    }
  }

  lemma ToolsOkFirst(item: Item, rest: seq<Item>, limit: nat)
    ensures ToolsOk([item] + rest, limit) <==> ToolName(item.value, limit).Some? && ToolsOk(rest, limit)
    ensures ToolsOk([], limit)
  {
    hide ToolName;
    var all := [item] + rest;
    assert all[0] == item;
    assert forall k :: 0 <= k < |rest| ==> all[k + 1] == rest[k];
  }

  lemma KeptFirst(item: Item, rest: seq<Item>, policy: PolicyTable, limit: nat)
    requires ToolName(item.value, limit).Some?
    ensures var visible := Visible(policy, ToolName(item.value, limit).value);
            && Kept([item] + rest, policy, limit) ==
                 (if visible then [Item([], item.value, [])] else []) + Kept(rest, policy, limit)
            && Dropped([item] + rest, policy, limit) ==
                 (if visible then [] else [ToolName(item.value, limit).value]) + Dropped(rest, policy, limit)
    ensures Kept([], policy, limit) == [] && Dropped([], policy, limit) == []
  {
    hide ToolName, Visible;
    assert ([item] + rest)[1..] == rest;
  }

  /** The state after one tool has been handled. */
  function WriteTool(text: Bytes, wrote: bool, tool: Bytes, visible: bool): Bytes {
    if visible then text + (if wrote then "," else "") + tool else text
  }

  lemma ArrayStep(s: Bytes, b: nat, text: Bytes, wrote: bool, removed: seq<Bytes>, policy: PolicyTable, limit: nat)
    requires b <= |s|
    ensures ArrayFrom(s, b, text, wrote, removed, policy, limit) ==
            match ParseItem(s, b)
            case NoItem => None
            case AnItem(item, e) =>
              match ToolName(item.value, limit)
              case None => None
              case Some(name) =>
                var visible := Visible(policy, name);
                var next := WriteTool(text, wrote, Text(item.value), visible);
                var gone := if visible then removed else removed + [name];
                if e == |s| then None
                else if s[e] == ']' then Some((next, gone, e + 1))
                else if s[e] == ',' then ArrayFrom(s, e + 1, next, wrote || visible, gone, policy, limit)
                else None
  {
    hide ParseItem, ToolName, Visible, ToolsOk, Kept, Dropped, WsEnd, Text, Written, ItemsText;
    if ParseItem(s, b).AnItem? {
      var AnItem(item, e) := ParseItem(s, b);
      if e < |s| && s[e] == ']' {
        assert ParseItems(s, b) == Items([item] + [], e + 1);
        OneTool(item, [], text, wrote, removed, policy, limit);
        ToolsOkFirst(item, [], limit);
        if ToolName(item.value, limit).Some? {
          var name := ToolName(item.value, limit).value;
          var visible := Visible(policy, name);
          var gone := if visible then removed else removed + [name];
          KeptFirst(item, [], policy, limit);
          WrittenNothing(WriteTool(text, wrote, Text(item.value), visible), wrote || visible);
          assert gone + [] == gone;
        }
      } else if e < |s| && s[e] == ',' {
        if ParseItems(s, e + 1).Items? {
          var Items(rest, end) := ParseItems(s, e + 1);
          assert ParseItems(s, b) == Items([item] + rest, end);
          OneTool(item, rest, text, wrote, removed, policy, limit);
          ToolsOkFirst(item, rest, limit);
        } else {
          assert ParseItems(s, b) == NoItems;
        }
      } else {
        assert ParseItems(s, b) == NoItems;
      }
    } else {
      assert ParseItems(s, b) == NoItems;
    }
  }

  lemma WrittenNothing(text: Bytes, wrote: bool)
    ensures Written(text, wrote, []) == text
  {
  }

  lemma OneTool(item: Item, rest: seq<Item>, text: Bytes, wrote: bool, removed: seq<Bytes>,
                policy: PolicyTable, limit: nat)
    ensures ToolName(item.value, limit).Some? ==>
              var name := ToolName(item.value, limit).value;
              var visible := Visible(policy, name);
              var next := WriteTool(text, wrote, Text(item.value), visible);
              var gone := if visible then removed else removed + [name];
              && Written(text, wrote, Kept([item] + rest, policy, limit))
                 == Written(next, wrote || visible, Kept(rest, policy, limit))
              && removed + Dropped([item] + rest, policy, limit) == gone + Dropped(rest, policy, limit)
  {
    hide ToolName, Visible, Kept, Dropped, Text, Written;
    if ToolName(item.value, limit).Some? {
      var name := ToolName(item.value, limit).value;
      KeptFirst(item, rest, policy, limit);
      if Visible(policy, name) {
        var tool := Item([], item.value, []);
        assert ItemText(tool) == Text(item.value);
        WrittenStep(text, wrote, tool, Kept(rest, policy, limit));
        assert removed + ([] + Dropped(rest, policy, limit)) == removed + Dropped(rest, policy, limit);
      } else {
        assert [] + Kept(rest, policy, limit) == Kept(rest, policy, limit);
        assert removed + ([name] + Dropped(rest, policy, limit)) == removed + [name] + Dropped(rest, policy, limit);
      }
    }
  }

  lemma ArrayWhole(s: Bytes, i: nat, policy: PolicyTable, limit: nat)
    requires i < |s| && s[i] == '[' && limit >= 3
    ensures var r := ParseValue(s, i);
            var j := WsEnd(s, i + 1);
            if j < |s| && s[j] == ']' then
              r.Got? && ToolsArray(r.value, limit) && r.end == j + 1 && r.value.items == []
            else ArrayFrom(s, i + 1, s[..i + 1], false, [], policy, limit) ==
                 if r.Fail? || !ToolsArray(r.value, limit) then None
                 else Some((s[..i + 1] + ItemsText(Kept(r.value.items, policy, limit)),
                            Dropped(r.value.items, policy, limit), r.end))
  {
    hide ParseItems, ParseValue, WsEnd, ToolName, Kept, Dropped;
    ParseArray(s, i);
    if ParseItems(s, i + 1).Items? {
      var items := ParseItems(s, i + 1).items;
      WrittenFirst(s[..i + 1], Kept(items, policy, limit));
      assert [] + Dropped(items, policy, limit) == Dropped(items, policy, limit);
    }
  }

  lemma WrittenFirst(text: Bytes, tools: seq<Item>)
    ensures Written(text, false, tools) == text + ItemsText(tools)
  {
    assert text + "" == text;
  }

  lemma ArrayStops(s: Bytes, b: nat, text: Bytes, wrote: bool, removed: seq<Bytes>, policy: PolicyTable, limit: nat)
    requires b <= |s|
    requires ParseItem(s, b).NoItem? || ToolName(ParseItem(s, b).item.value, limit).None?
    ensures ArrayFrom(s, b, text, wrote, removed, policy, limit).None?
  {
    hide ParseItem, ToolName, ArrayFrom;
    ArrayStep(s, b, text, wrote, removed, policy, limit);
  }

  /** The splice after the tool that starts at `b`. */
  lemma ArrayNext(s: Bytes, b: nat, text: Bytes, wrote: bool, removed: seq<Bytes>,
                  text': Bytes, wrote': bool, removed': seq<Bytes>, policy: PolicyTable, limit: nat)
    requires b <= |s|
    requires ParseItem(s, b).AnItem? && ToolName(ParseItem(s, b).item.value, limit).Some?
    requires TookTool(ParseItem(s, b).item.value, text, wrote, removed, text', wrote', removed', policy, limit)
    ensures var e := ParseItem(s, b).end;
            ArrayFrom(s, b, text, wrote, removed, policy, limit) ==
            if e == |s| then None
            else if s[e] == ']' then Some((text', removed', e + 1))
            else if s[e] == ',' then ArrayFrom(s, e + 1, text', wrote', removed', policy, limit)
            else None
  {
    hide ParseItem, ToolName, ArrayFrom, WriteTool, Visible, Text;
    ArrayStep(s, b, text, wrote, removed, policy, limit);
  }

  /** What the loop does with one acceptable tool: it is written if visible, or else named. */
  predicate TookTool(v: Value, text: Bytes, wrote: bool, removed: seq<Bytes>,
                     text': Bytes, wrote': bool, removed': seq<Bytes>, policy: PolicyTable, limit: nat)
    requires ToolName(v, limit).Some?
  {
    var name := ToolName(v, limit).value;
    var visible := Visible(policy, name);
    && text' == WriteTool(text, wrote, Text(v), visible)
    && wrote' == (wrote || visible)
    && removed' == if visible then removed else removed + [name]
  }

  method ParseListedTool(message: Bytes, begin: nat, limit: nat, policy: PolicyTable,
                         removed: seq<Bytes>, rewritten: Bytes, wroteTool: bool, ghost b: nat)
    returns (ok: bool, offset: nat, removed': seq<Bytes>, rewritten': Bytes, wroteTool': bool)
    requires b <= |message| && begin == WsEnd(message, b) && policy.Valid()
    ensures ok ==>
              && ParseItem(message, b).AnItem? && offset <= |message|
              && ParseItem(message, b).end == WsEnd(message, offset)
              && ToolName(ParseItem(message, b).item.value, limit).Some?
              && TookTool(ParseItem(message, b).item.value, rewritten, wroteTool, removed,
                          rewritten', wroteTool', removed', policy, limit)
    ensures !ok ==> ParseItem(message, b).NoItem? || ToolName(ParseItem(message, b).item.value, limit).None?
  {
    hide ParseItem, ParseValue, WsEnd, ToolName, Text, VisibilityFor;
    removed', rewritten', wroteTool' := removed, rewritten, wroteTool;
    Objects.ItemUnfold(message, b);
    var name;
    ok, offset, name := ParseTool(message, begin, limit);
    if !ok {
      return;
    }
    ValueSound(message, begin);
    var visible := false;
    if name != [] {
      var access := QueryVisibility(policy, name);
      visible := access.Allow?;
    }
    if visible {
      if wroteTool {
        rewritten' := rewritten' + ",";
      }
      rewritten' := rewritten' + message[begin..offset];
      wroteTool' := true;
    } else {
      removed' := removed' + [name];
    }
    assert rewritten + "" == rewritten;
  }

  method ParseToolsArray(message: Bytes, begin: nat, limit: nat, policy: PolicyTable)
    returns (ok: bool, offset: nat, removed: seq<Bytes>, rewritten: Bytes, arrayClose: nat)
    requires begin <= |message| && policy.Valid()
    ensures var r := ParseValue(message, begin);
            && (ok <==> r.Got? && ToolsArray(r.value, limit))
            && (ok ==>
                 && offset == r.end && arrayClose == r.end - 1
                 && rewritten == message[..begin + 1] + ItemsText(Kept(r.value.items, policy, limit))
                 && removed == Dropped(r.value.items, policy, limit))
  {
    hide ParseItem, ParseItems, ParseValue, WsEnd, ArrayFrom, ToolName, ToolsOk, Kept, Dropped, ItemsText, TookTool;
    ok, offset, removed, rewritten, arrayClose := false, begin, [], [], 0;
    ValueKinds(message, begin);
    if limit < 3 || offset >= |message| || message[offset] != '[' {
      return;
    }
    ArrayWhole(message, begin, policy, limit);
    rewritten := message[..begin + 1];
    var wroteTool := false;
    ghost var b := begin + 1;
    offset := SkipWhitespace(message, begin + 1);
    if offset < |message| && message[offset] == ']' {
      NothingKept(policy, limit);
      return true, offset + 1, removed, rewritten, offset;
    }
    while offset < |message|
      invariant begin < b <= |message| && offset == WsEnd(message, b)
      invariant ArrayFrom(message, begin + 1, message[..begin + 1], false, [], policy, limit)
             == ArrayFrom(message, b, rewritten, wroteTool, removed, policy, limit)
      decreases |message| - b
    {
      ghost var text, wrote, gone := rewritten, wroteTool, removed;
      ok, offset, removed, rewritten, wroteTool := ParseListedTool(
        message, offset, limit, policy, removed, rewritten, wroteTool, b);
      if !ok {
        ArrayStops(message, b, text, wrote, gone, policy, limit);
        return;
      }
      ArrayNext(message, b, text, wrote, gone, rewritten, wroteTool, removed, policy, limit);
      offset := SkipWhitespace(message, offset);
      if offset >= |message| {
        return false, offset, removed, rewritten, arrayClose;
      }
      if message[offset] == ']' {
        return true, offset + 1, removed, rewritten, offset;
      }
      if message[offset] != ',' {
        return false, offset, removed, rewritten, arrayClose;
      }
      b := offset + 1;
      offset := SkipWhitespace(message, offset + 1);
    }
    Objects.NoItemAtEnd(message, b);
    ArrayStops(message, b, rewritten, wroteTool, removed, policy, limit);
    return false, offset, removed, rewritten, arrayClose;
  }

  lemma NothingKept(policy: PolicyTable, limit: nat)
    ensures Kept([], policy, limit) == [] && Dropped([], policy, limit) == [] && ItemsText([]) == []
  {
  }

  // ---- parse_result ----

  ghost function ResultFrom(s: Bytes, b: nat, found: Option<Found>, limit: nat): Option<(Found, nat)>
    requires b <= |s|
  {
    match ParseMembers(s, b, Strict)
    case NoMembers => None
    case Members(ms, e) =>
      match TakeResult(found, ms, b, limit) case None => None case Some(f) => Some((f, e))
  }

  lemma TakeResultFirst(found: Option<Found>, m: Member, rest: seq<Member>, b: nat, limit: nat)
    ensures TakeResult(found, [m] + rest, b, limit) ==
            match TakeResultMember(found, m, b, limit)
            case None => None
            case Some(next) => TakeResult(next, rest, b + |MemberText(m)| + 1, limit)
    ensures TakeResult(found, [m], b, limit) ==
            match TakeResultMember(found, m, b, limit) case None => None case Some(next) => next
  {
    hide TakeResultMember, MemberText;
    assert ([m] + rest)[1..] == rest;
  }

  /** A member's text is exactly what lies between its offset and the next separator. */
  lemma MemberLength(s: Bytes, b: nat)
    requires b <= |s| && ParseMember(s, b).AMember?
    ensures ParseMember(s, b).end == b + |MemberText(ParseMember(s, b).member)|
  {
    hide ParseMember, MemberText;
    MemberSound(s, b);
  }

  /** The result of the loop when a member was read up to offset `e`. */
  ghost function AfterResultMember(s: Bytes, next: Option<Option<Found>>, e: nat, limit: nat): Option<(Found, nat)>
    requires e <= |s|
  {
    if next.None? || e == |s| then None
    else if s[e] == '}' then (match next.value case None => None case Some(f) => Some((f, e + 1)))
    else if s[e] == ',' then ResultFrom(s, e + 1, next.value, limit)
    else None
  }

  lemma ResultStep(s: Bytes, b: nat, found: Option<Found>, limit: nat)
    requires b <= |s|
    ensures ResultFrom(s, b, found, limit) ==
            var r := ParseMember(s, b);
            if r.NoMember? then None
            else AfterResultMember(s, TakeResultMember(found, r.member, b, limit), r.end, limit)
  {
    hide ParseMember, ParseMembers, TakeResultMember, TakeResult, WsEnd, MemberText;
    MembersUnfold(s, b, Strict);
    if ParseMember(s, b).AMember? {
      MemberLength(s, b);
      var AMember(m, e) := ParseMember(s, b);
      if e < |s| && s[e] == '}' {
        assert ParseMembers(s, b, Strict) == Members([m], e + 1);
        TakeResultFirst(found, m, [], b, limit);
      } else if e < |s| && s[e] == ',' && ParseMembers(s, e + 1, Strict).Members? {
        var Members(rest, end) := ParseMembers(s, e + 1, Strict);
        assert ParseMembers(s, b, Strict) == Members([m] + rest, end);
        TakeResultFirst(found, m, rest, b, limit);
      }
    }
  }

  lemma ResultWhole(s: Bytes, i: nat, limit: nat)
    requires i < |s| && s[i] == '{' && limit >= 2
    ensures var r := ParseValue(s, i);
            var j := WsEnd(s, i + 1);
            if j < |s| && s[j] == '}' then r.Got? && ResultTools(r.value, i, limit).None?
            else ResultFrom(s, i + 1, None, limit) ==
                 if r.Fail? then None
                 else match ResultTools(r.value, i, limit) case None => None case Some(f) => Some((f, r.end))
  {
    hide ParseMembers, ParseValue, WsEnd, TakeResultMember, MemberText;
    ParseObject(s, i);
  }

  lemma ResultEscaped(s: Bytes, b: nat, found: Option<Found>, limit: nat)
    requires b <= |s| && (ParseKey(s, b).NoKey? || !EscapeFree(ParseKey(s, b).key))
    ensures ParseMember(s, b).NoMember? || TakeResultMember(found, ParseMember(s, b).member, b, limit).None?
  {
    hide ParseKey, ParseValue, WsEnd;
  }

  /** The state of a splice: what `ParseToolsArray` leaves behind when it succeeds. */
  ghost predicate Spliced(s: Bytes, found: Found, policy: PolicyTable, limit: nat,
                          rewritten: Bytes, removed: seq<Bytes>, arrayClose: nat)
  {
    && found.tools.Arr? && found.at + 1 <= Close(found) == arrayClose < |s|
    && rewritten == s[..found.at + 1] + ItemsText(Kept(found.tools.items, policy, limit))
    && removed == Dropped(found.tools.items, policy, limit)
  }

  lemma ToolsSpliced(s: Bytes, b: nat, policy: PolicyTable, limit: nat,
                     rewritten: Bytes, removed: seq<Bytes>, arrayClose: nat)
    requires b <= |s| && ParseMember(s, b).AMember? && ParseMember(s, b).member.value.Arr?
    requires var v := ParseKey(s, b).end;
             var r := ParseValue(s, v);
             && r.Got? && arrayClose == r.end - 1
             && rewritten == s[..v + 1] + ItemsText(Kept(r.value.items, policy, limit))
             && removed == Dropped(r.value.items, policy, limit)
    ensures var m := ParseMember(s, b).member;
            Spliced(s, Found(b + |MemberHead(m)|, m.value), policy, limit, rewritten, removed, arrayClose)
  {
    hide ParseKey, ParseValue, WsEnd, Kept, Dropped, ItemsText, MemberText;
    KeySound(s, b);
    var v := ParseKey(s, b).end;
    ValueSound(s, v);
    assert |s[b..v]| == v - b;
    ArrayText(ParseMember(s, b).member.value);
  }

  lemma ArrayText(v: Value)
    requires v.Arr?
    ensures |Text(v)| == |v.pad| + |ItemsText(v.items)| + 2
  {
  }

  lemma ResultStops(s: Bytes, b: nat, found: Option<Found>, limit: nat)
    requires b <= |s|
    requires ParseMember(s, b).NoMember? || TakeResultMember(found, ParseMember(s, b).member, b, limit).None?
    ensures ResultFrom(s, b, found, limit).None?
  {
    hide ParseMember, TakeResultMember, ResultFrom;
    ResultStep(s, b, found, limit);
  }

  lemma ResultNext(s: Bytes, b: nat, found: Option<Found>, next: Option<Found>, limit: nat)
    requires b <= |s|
    requires ParseMember(s, b).AMember? && TakeResultMember(found, ParseMember(s, b).member, b, limit) == Some(next)
    ensures ResultFrom(s, b, found, limit) == AfterResultMember(s, Some(next), ParseMember(s, b).end, limit)
  {
    hide ParseMember, TakeResultMember, ResultFrom, AfterResultMember;
    ResultStep(s, b, found, limit);
  }

  /** The value of one member and what it does to the splice. */
  method ParseResultMember(message: Bytes, begin: nat, key: Bytes, limit: nat, policy: PolicyTable,
                           removed: seq<Bytes>, rewritten: Bytes, arrayClose: nat, sawTools: bool,
                           ghost b: nat, ghost found: Option<Found>)
    returns (ok: bool, offset: nat, removed': seq<Bytes>, rewritten': Bytes, arrayClose': nat, sawTools': bool,
             ghost found': Option<Found>)
    requires b <= |message| && ParseKey(message, b).AKey? && EscapeFree(key) && policy.Valid()
    requires key == ParseKey(message, b).key && begin == ParseKey(message, b).end
    requires sawTools == found.Some?
    requires found.Some? ==> Spliced(message, found.value, policy, limit, rewritten, removed, arrayClose)
    ensures ok ==>
              && ParseMember(message, b).AMember? && offset <= |message|
              && ParseMember(message, b).end == WsEnd(message, offset)
              && TakeResultMember(found, ParseMember(message, b).member, b, limit) == Some(found')
              && sawTools' == found'.Some?
              && (found'.Some? ==> Spliced(message, found'.value, policy, limit, rewritten', removed', arrayClose'))
    ensures !ok ==>
              ParseMember(message, b).NoMember?
              || TakeResultMember(found, ParseMember(message, b).member, b, limit).None?
  {
    hide ParseMember, ParseValue, ParseKey, WsEnd, EscapeFree, ItemsText, Kept, Dropped, ToolsArray, MemberHead, Spliced,
      Fits;
    ok, offset, removed', rewritten', arrayClose', sawTools' := false, begin, removed, rewritten, arrayClose, sawTools;
    found' := found;
    MemberUnfold(message, b);
    if key == "tools" {
      if sawTools {
        return;
      }
      ok, offset, removed', rewritten', arrayClose' := ParseToolsArray(message, offset, limit, policy);
      if ok {
        ToolsArrayIsArray(message, b, limit);
        ToolsSpliced(message, b, policy, limit, rewritten', removed', arrayClose');
        found' := Some(Found(b + |MemberHead(ParseMember(message, b).member)|, ParseMember(message, b).member.value));
        sawTools' := true;
      }
    } else {
      ok, offset := SkipValue(message, offset, 2, limit);
    }
  }

  method ParseResult(message: Bytes, begin: nat, limit: nat, policy: PolicyTable)
    returns (ok: bool, offset: nat, removed: seq<Bytes>, rewritten: Bytes, arrayClose: nat)
    requires begin <= |message| && policy.Valid()
    ensures var r := ParseValue(message, begin);
            && (ok <==> r.Got? && ResultTools(r.value, begin, limit).Some?)
            && (ok ==>
                 && offset == r.end
                 && Spliced(message, ResultTools(r.value, begin, limit).value, policy, limit, rewritten, removed, arrayClose))
  {
    hide ParseMember, ParseMembers, ParseValue, ParseKey, WsEnd, ResultFrom, TakeResultMember, EscapeFree, Spliced,
      TakeResult;
    ok, offset, removed, rewritten, arrayClose := false, begin, [], [], 0;
    ValueKinds(message, begin);
    if limit < 2 || offset >= |message| || message[offset] != '{' {
      return;
    }
    ResultWhole(message, begin, limit);
    ghost var b := begin + 1;
    ghost var found: Option<Found> := None;
    var sawTools := false;
    offset := SkipWhitespace(message, begin + 1);
    if offset < |message| && message[offset] == '}' {
      return;
    }
    while offset < |message|
      invariant begin < b <= |message| && offset == WsEnd(message, b)
      invariant ResultFrom(message, begin + 1, None, limit) == ResultFrom(message, b, found, limit)
      invariant sawTools == found.Some?
      invariant found.Some? ==> Spliced(message, found.value, policy, limit, rewritten, removed, arrayClose)
      decreases |message| - b
    {
      var key, hasEscape;
      ghost var next;
      ok, offset, key, hasEscape := ScanKey(message, offset, b);
      if !ok || hasEscape {
        ResultEscaped(message, b, found, limit);
        ResultStops(message, b, found, limit);
        return false, offset, removed, rewritten, arrayClose;
      }
      ok, offset, removed, rewritten, arrayClose, sawTools, next := ParseResultMember(
        message, offset, key, limit, policy, removed, rewritten, arrayClose, sawTools, b, found);
      if !ok {
        ResultStops(message, b, found, limit);
        return;
      }
      ResultNext(message, b, found, next, limit);
      found := next;
      offset := SkipWhitespace(message, offset);
      if offset >= |message| {
        return false, offset, removed, rewritten, arrayClose;
      }
      if message[offset] == '}' {
        return sawTools, offset + 1, removed, rewritten, arrayClose;
      }
      if message[offset] != ',' {
        return false, offset, removed, rewritten, arrayClose;
      }
      b := offset + 1;
      offset := SkipWhitespace(message, offset + 1);
    }
    ResultStep(message, b, found, limit);
    NoMemberAtEnd(message, b);
    return false, offset, removed, rewritten, arrayClose;
  }

  lemma ToolsArrayIsArray(s: Bytes, b: nat, limit: nat)
    requires b <= |s| && ParseMember(s, b).AMember? && ToolsArray(ParseMember(s, b).member.value, limit)
    ensures ParseMember(s, b).member.value.Arr?
  {
    hide ParseMember;
  }

  // ---- rewrite_tools_list_response ----

  ghost function ResponseFrom(s: Bytes, b: nat, r: Outline, limit: nat): Option<Outline>
    requires b <= |s|
  {
    match ParseMembers(s, b, CommaClose)
    case NoMembers => None
    case Members(ms, e) => if WsEnd(s, e) == |s| then TakeResponse(r, ms, b, limit) else None
  }

  lemma TakeResponseFirst(r: Outline, m: Member, rest: seq<Member>, b: nat, limit: nat)
    ensures TakeResponse(r, [m] + rest, b, limit) ==
            match TakeResponseMember(r, m, b, limit)
            case None => None
            case Some(next) => TakeResponse(next, rest, b + |MemberText(m)| + 1, limit)
    ensures TakeResponse(r, [m], b, limit) == TakeResponseMember(r, m, b, limit)
    ensures TakeResponse(r, [], b, limit) == Some(r)
  {
    hide TakeResponseMember, MemberText;
    assert ([m] + rest)[1..] == rest;
  }

  ghost function AfterMember(s: Bytes, next: Option<Outline>, e: nat, limit: nat): Option<Outline>
    requires e <= |s|
  {
    if next.None? || e == |s| then None
    else if s[e] == '}' then (if WsEnd(s, e + 1) == |s| then next else None)
    else if s[e] == ',' then ResponseFrom(s, e + 1, next.value, limit)
    else None
  }

  lemma ResponseStep(s: Bytes, b: nat, r: Outline, limit: nat)
    requires b <= |s|
    ensures var i := WsEnd(s, b);
            ResponseFrom(s, b, r, limit) ==
            if i < |s| && s[i] == '}' then (if WsEnd(s, i + 1) == |s| then Some(r) else None)
            else
              var p := ParseMember(s, b);
              if p.NoMember? then None
              else AfterMember(s, TakeResponseMember(r, p.member, b, limit), p.end, limit)
  {
    hide ParseMember, ParseMembers, TakeResponseMember, TakeResponse, WsEnd, MemberText;
    MembersUnfold(s, b, CommaClose);
    TakeResponseFirst(r, Member([], [], [], [], Str([]), []), [], b, limit);
    var i := WsEnd(s, b);
    if !(i < |s| && s[i] == '}') && ParseMember(s, b).AMember? {
      MemberLength(s, b);
      var AMember(m, e) := ParseMember(s, b);
      if e < |s| && s[e] == '}' {
        assert ParseMembers(s, b, CommaClose) == Members([m], e + 1);
        TakeResponseFirst(r, m, [], b, limit);
      } else if e < |s| && s[e] == ',' && ParseMembers(s, e + 1, CommaClose).Members? {
        var Members(rest, end) := ParseMembers(s, e + 1, CommaClose);
        assert ParseMembers(s, b, CommaClose) == Members([m] + rest, end);
        TakeResponseFirst(r, m, rest, b, limit);
      }
    }
  }

  lemma ResponseEscaped(s: Bytes, b: nat, r: Outline, limit: nat)
    requires b <= |s| && (ParseKey(s, b).NoKey? || !EscapeFree(ParseKey(s, b).key))
    ensures ParseMember(s, b).NoMember? || TakeResponseMember(r, ParseMember(s, b).member, b, limit).None?
  {
    hide ParseKey, ParseValue, WsEnd, ResultTools;
  }

  lemma ResponseWhole(s: Bytes, limit: nat, policy: PolicyTable)
    requires BodyStart(s).Some?
    ensures Rewrite(s, limit, policy) ==
            match ResponseFrom(s, BodyStart(s).value, Outline(None, false), limit)
            case None => Malformed
            case Some(r) => Conclude(s, r, policy, limit)
  {
    hide ParseMembers, WsEnd, TakeResponseMember, Conclude;
    MembersUnfold(s, BodyStart(s).value, CommaClose);
  }

  lemma ResultAt(s: Bytes, b: nat)
    requires b <= |s| && ParseMember(s, b).AMember?
    ensures b + |MemberHead(ParseMember(s, b).member)| == ParseKey(s, b).end
  {
    hide ParseKey, ParseValue, WsEnd;
    KeySound(s, b);
    assert |s[b..ParseKey(s, b).end]| == ParseKey(s, b).end - b;
  }

  lemma ResponseStops(s: Bytes, b: nat, r: Outline, limit: nat)
    requires b <= |s| && !(WsEnd(s, b) < |s| && s[WsEnd(s, b)] == '}')
    requires ParseMember(s, b).NoMember? || TakeResponseMember(r, ParseMember(s, b).member, b, limit).None?
    ensures ResponseFrom(s, b, r, limit).None?
  {
    hide ParseMember, WsEnd, TakeResponseMember, ResponseFrom;
    ResponseStep(s, b, r, limit);
  }

  lemma ResponseNext(s: Bytes, b: nat, r: Outline, next: Outline, limit: nat)
    requires b <= |s| && !(WsEnd(s, b) < |s| && s[WsEnd(s, b)] == '}')
    requires ParseMember(s, b).AMember? && TakeResponseMember(r, ParseMember(s, b).member, b, limit) == Some(next)
    ensures ResponseFrom(s, b, r, limit) == AfterMember(s, Some(next), ParseMember(s, b).end, limit)
  {
    hide ParseMember, WsEnd, TakeResponseMember, ResponseFrom, AfterMember;
    ResponseStep(s, b, r, limit);
  }

  lemma ResponseEnds(s: Bytes, b: nat, r: Outline, limit: nat)
    requires b <= |s| && (WsEnd(s, b) == |s| || s[WsEnd(s, b)] == '}')
    ensures ResponseFrom(s, b, r, limit) ==
            if WsEnd(s, b) < |s| && WsEnd(s, WsEnd(s, b) + 1) == |s| then Some(r) else None
  {
    hide ParseMember, WsEnd, TakeResponseMember, ResponseFrom, AfterMember;
    ResponseStep(s, b, r, limit);
    if WsEnd(s, b) == |s| { NoMemberAtEnd(s, b); }
  }

  /** The value of one member and what it does to the outline. */
  method ParseResponseMember(message: Bytes, begin: nat, key: Bytes, limit: nat, policy: PolicyTable,
                             removed: seq<Bytes>, rewritten: Bytes, arrayClose: nat, sawResult: bool, sawError: bool,
                             ghost b: nat, ghost r: Outline)
    returns (ok: bool, offset: nat, removed': seq<Bytes>, rewritten': Bytes, arrayClose': nat,
             sawResult': bool, sawError': bool, ghost r': Outline)
    requires b <= |message| && ParseKey(message, b).AKey? && EscapeFree(key) && policy.Valid()
    requires key == ParseKey(message, b).key && begin == ParseKey(message, b).end
    requires sawResult == r.result.Some? && sawError == r.error
    requires r.result.Some? ==> Spliced(message, r.result.value, policy, limit, rewritten, removed, arrayClose)
    ensures ok ==>
              && ParseMember(message, b).AMember? && offset <= |message|
              && ParseMember(message, b).end == WsEnd(message, offset)
              && TakeResponseMember(r, ParseMember(message, b).member, b, limit) == Some(r')
              && sawResult' == r'.result.Some? && sawError' == r'.error
              && (r'.result.Some? ==> Spliced(message, r'.result.value, policy, limit, rewritten', removed', arrayClose'))
    ensures !ok ==>
              ParseMember(message, b).NoMember?
              || TakeResponseMember(r, ParseMember(message, b).member, b, limit).None?
  {
    hide ParseMember, ParseValue, ParseKey, WsEnd, EscapeFree, ResultTools, MemberHead, Spliced, Fits;
    ok, offset, removed', rewritten', arrayClose' := false, begin, removed, rewritten, arrayClose;
    sawResult', sawError', r' := sawResult, sawError, r;
    MemberUnfold(message, b);
    if ParseMember(message, b).AMember? { ResultAt(message, b); }
    if key == "result" {
      if sawResult {
        return;
      }
      ok, offset, removed', rewritten', arrayClose' := ParseResult(message, offset, limit, policy);
      if ok {
        r' := r.(result := ResultTools(ParseValue(message, begin).value, begin, limit));
        sawResult' := true;
      }
    } else {
      if key == "error" {
        if sawError {
          return;
        }
        sawError' := true;
        r' := r.(error := true);
      }
      ok, offset := SkipValue(message, offset, 1, limit);
    }
  }

  method RewriteToolsListResponse(message: Bytes, limit: nat, policy: PolicyTable) returns (status: Rewriting)
    requires policy.Valid()
    ensures status == Rewrite(message, limit, policy)
  {
    hide ParseMember, ParseMembers, ParseValue, ParseKey, WsEnd, ResponseFrom, TakeResponse, TakeResponseMember, EscapeFree,
      Spliced, Splice, Rewrite;
    var offset := SkipWhitespace(message, 0);
    if offset >= |message| || message[offset] != '{' {
      NoBody(message, limit, policy);
      return Malformed;
    }
    ResponseWhole(message, limit, policy);
    ghost var b := offset + 1;
    ghost var r := Outline(None, false);
    var sawResult, sawError := false, false;
    var removed: seq<Bytes>, rewritten: Bytes, arrayClose: nat := [], [], 0;
    offset := SkipWhitespace(message, offset + 1);
    while offset < |message| && message[offset] != '}'
      invariant b <= |message| && offset == WsEnd(message, b)
      invariant ResponseFrom(message, BodyStart(message).value, Outline(None, false), limit)
             == ResponseFrom(message, b, r, limit)
      invariant sawResult == r.result.Some? && sawError == r.error
      invariant r.result.Some? ==> Spliced(message, r.result.value, policy, limit, rewritten, removed, arrayClose)
      decreases |message| - b
    {
      var ok, key, hasEscape;
      ghost var next;
      ok, offset, key, hasEscape := ScanKey(message, offset, b);
      if !ok || hasEscape {
        ResponseEscaped(message, b, r, limit);
        ResponseStops(message, b, r, limit);
        return Malformed;
      }
      ok, offset, removed, rewritten, arrayClose, sawResult, sawError, next := ParseResponseMember(
        message, offset, key, limit, policy, removed, rewritten, arrayClose, sawResult, sawError, b, r);
      if !ok {
        ResponseStops(message, b, r, limit);
        return Malformed;
      }
      ResponseNext(message, b, r, next, limit);
      r := next;
      offset := SkipWhitespace(message, offset);
      if offset >= |message| {
        return Malformed;
      }
      if message[offset] == '}' {
        break;
      }
      if message[offset] != ',' {
        return Malformed;
      }
      b := offset + 1;
      offset := SkipWhitespace(message, offset + 1);
    }
    if offset == WsEnd(message, b) { ResponseEnds(message, b, r, limit); }
    if offset >= |message| {
      return Malformed;
    }
    offset := SkipWhitespace(message, offset + 1);
    if offset != |message| || sawResult == sawError {
      return Malformed;
    }
    if sawError {
      return Passthrough;
    }
    SplicedIs(message, r.result.value, policy, limit, rewritten, removed, arrayClose);
    return Rewritten(rewritten + message[arrayClose..], removed);
  }

  lemma NoBody(s: Bytes, limit: nat, policy: PolicyTable)
    requires BodyStart(s).None?
    ensures Rewrite(s, limit, policy) == Malformed
  {
  }

  lemma SplicedIs(s: Bytes, found: Found, policy: PolicyTable, limit: nat,
                  rewritten: Bytes, removed: seq<Bytes>, arrayClose: nat)
    requires Spliced(s, found, policy, limit, rewritten, removed, arrayClose)
    ensures arrayClose <= |s| && Splice(s, found, policy, limit) == Rewritten(rewritten + s[arrayClose..], removed)
  {
  }
}

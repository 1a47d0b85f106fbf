/** `generate_policy_from_inventory` (src/policy_generator.cpp): an allow-list policy from an
    inventory document. */
module Generator {
  import opened Bytes
  import opened Json
  import opened Scanner
  import opened Documents
  import opened Sorting
  import opened Objects
  import opened Escape
  import opened Nesting
  import opened Policy
  import Inventory

  datatype GeneratorLimits = GeneratorLimits(
    maxInventoryBytes: nat, maxNestingDepth: nat, maxTools: nat, maxToolNameBytes: nat)

  // ---- a tool ----

  const TOOL_KEYS: set<Bytes> := {"name"}

  predicate GoodToolMember(m: Member, limits: GeneratorLimits) {
    && EscapeFree(m.key)
    && if m.key == "name" then Inventory.IsToolName(m.value, limits.maxToolNameBytes)
       else Fits(m.value, 3, limits.maxNestingDepth)
  }

  function ToolMember(limits: GeneratorLimits): Member -> bool {
    m => GoodToolMember(m, limits)
  }

  ghost predicate IsTool(v: Value, limits: GeneratorLimits) {
    AdmissibleObject(v, ToolMember(limits), TOOL_KEYS) && Count(v.members, "name") == 1
  }

  function NameOf(v: Value): Bytes {
    if v.Obj? then NameIn(v.members) else []
  }

  function NameIn(members: seq<Member>): Bytes {
    Inventory.RawOf(Find(members, "name"))
  }

  method ParseNameMember(json: Bytes, begin: nat, key: Bytes, limits: GeneratorLimits,
                         sawName: bool, name: Bytes, ghost b: nat, ghost done: seq<Member>)
    returns (ok: bool, offset: nat, sawName': bool, name': Bytes)
    requires b <= |json| && ParseKey(json, b).AKey? && EscapeFree(key)
    requires key == ParseKey(json, b).key && begin == ParseKey(json, b).end
    requires sawName == (Count(done, "name") > 0) && name == NameIn(done)
    ensures !ok ==> Refused(json, b, done, ToolMember(limits), TOOL_KEYS)
    ensures ok ==> Passed(json, b, done, ToolMember(limits), TOOL_KEYS, offset)
    ensures ok && ParseMember(json, b).AMember? ==>
              var after := done + [ParseMember(json, b).member];
              sawName' == (Count(after, "name") > 0) && name' == NameIn(after)
  {
    hide ParseValue, ParseKey, ParseMember, WsEnd, Fits, EscapeFree, Count, NameIn;
    ok, offset, sawName', name' := false, begin, sawName, name;
    MemberUnfold(json, b);
    ghost var r := ParseMember(json, b);
    if r.AMember? { NameMore(done, r.member); }
    if key == "name" {
      if sawName {
        return;
      }
      sawName' := true;
      ok, offset, name' := Inventory.ParseName(json, offset, limits.maxToolNameBytes);
    } else {
      ok, offset := SkipValue(json, offset, 3, limits.maxNestingDepth);
    }
  }

  method ParseToolName(json: Bytes, begin: nat, limits: GeneratorLimits)
    returns (ok: bool, offset: nat, name: Bytes)
    requires begin <= |json|
    ensures ok <==> ParseValue(json, begin).Got? && IsTool(ParseValue(json, begin).value, limits)
    ensures ok ==> offset == ParseValue(json, begin).end && name == NameOf(ParseValue(json, begin).value)
  {
    hide ParseValue, ParseMembers, ParseMember, ParseKey, WsEnd, Admissible, EscapeFree, Reading, Fits, Count, NameIn;
    hide Stuck, Passed, Refused;
    ok, offset, name := false, begin, [];
    if offset >= |json| || json[offset] != '{' {
      NoObjectHere(json, begin);
      return;
    }
    ghost var good := ToolMember(limits);
    ObjectStarts(json, begin);
    NothingRead(good, TOOL_KEYS);
    NoNameYet();
    var sawName := false;
    offset := SkipWhitespace(json, begin + 1);
    if offset < |json| && json[offset] == '}' {
      return false, offset + 1, name;
    }
    ghost var b, done: seq<Member> := begin + 1, [];
    while offset < |json|
      invariant begin < b <= |json| && offset == WsEnd(json, b)
      invariant Reading(json, begin, b, Strict, done) && Admissible(done, good, TOOL_KEYS)
      invariant sawName == (Count(done, "name") > 0) && name == NameIn(done)
      decreases |json| - b
    {
      var key, hasEscape;
      ok, offset, key, hasEscape := ScanKey(json, offset, b);
      if !ok || hasEscape {
        BadKeyRefused(json, b, done, good, TOOL_KEYS);
        RefusedIsStuck(json, b, done, good, TOOL_KEYS);
        StuckRefuses(json, begin, b, Strict, done, good, TOOL_KEYS);
        return false, offset, name;
      }
      ok, offset, sawName, name := ParseNameMember(json, offset, key, limits, sawName, name, b, done);
      if !ok {
        RefusedIsStuck(json, b, done, good, TOOL_KEYS);
        StuckRefuses(json, begin, b, Strict, done, good, TOOL_KEYS);
        return;
      }
      PassedThen(json, b, done, good, TOOL_KEYS, offset);
      offset := SkipWhitespace(json, offset);
      if offset == |json| {
        StuckRefuses(json, begin, b, Strict, done, good, TOOL_KEYS);
        return false, offset, name;
      }
      if json[offset] != '}' && json[offset] != ',' {
        StuckRefuses(json, begin, b, Strict, done, good, TOOL_KEYS);
        return false, offset, name;
      }
      MemberPasses(json, begin, b, Strict, done, good, TOOL_KEYS);
      done := done + [ParseMember(json, b).member];
      if json[offset] == '}' {
        AtMostOnce(done, good, TOOL_KEYS, "name");
        return sawName, offset + 1, name;
      }
      b := offset + 1;
      offset := SkipWhitespace(json, offset + 1);
      if offset < |json| && json[offset] == '}' {
        CommaThenBrace(json, b, done, good, TOOL_KEYS);
        StuckRefuses(json, begin, b, Strict, done, good, TOOL_KEYS);
        return false, offset, name;
      }
    }
    NoMemberLeft(json, b, done, good, TOOL_KEYS);
    StuckRefuses(json, begin, b, Strict, done, good, TOOL_KEYS);
    return false, offset, name;
  }

  lemma NoNameYet()
    ensures NameIn([]) == [] && Count([], "name") == 0
  {
  }

  lemma NameMore(done: seq<Member>, m: Member)
    ensures Count(done + [m], "name") == Count(done, "name") + One(m, "name")
    ensures NameIn(done + [m]) == if Count(done, "name") == 0 && m.key == "name" then Inventory.RawOf(Some(m.value)) else NameIn(done)
  {
    hide Count, Find;
    CountLast(done, m, "name");
  }

  lemma CommaThenBrace(s: Bytes, b: nat, done: seq<Member>, good: Member -> bool, keys: set<Bytes>)
    requires b <= |s| && WsEnd(s, b) < |s| && s[WsEnd(s, b)] == '}'
    ensures Stuck(s, b, done, good, keys)
  {
    hide ParseMember, WsEnd;
    NoMemberAtBrace(s, b);
  }

  // ---- the tools ----

  function ItemName(item: Item): Bytes {
    NameOf(item.value)
  }

  ghost predicate AreTools(items: seq<Item>, limits: GeneratorLimits) {
    && |items| <= limits.maxTools
    && (forall k :: 0 <= k < |items| ==> IsTool(items[k].value, limits))
    && Distinct(items, ItemName)
  }

  ghost predicate IsToolsArray(v: Value, limits: GeneratorLimits) {
    v.Arr? && AreTools(v.items, limits)
  }

  lemma ToolsMore(done: seq<Item>, item: Item, limits: GeneratorLimits)
    requires AreTools(done, limits)
    ensures AreTools(done + [item], limits) <==>
              && |done| < limits.maxTools && IsTool(item.value, limits)
              && NameOf(item.value) !in Map(ItemName, done)
    ensures Map(ItemName, done + [item]) == Map(ItemName, done) + [NameOf(item.value)]
  {
    hide IsTool, NameOf, Distinct, Fresh, Map;
    var all := done + [item];
    assert all[|done|] == item && forall k :: 0 <= k < |done| ==> all[k] == done[k];
    DistinctLast(done, item, ItemName);
    FreshIsNotIn(item, done, ItemName);
    MapLast(ItemName, done, item);
    assert ItemName(item) == NameOf(item.value);
  }

  lemma ToolsPart(done: seq<Item>, rest: seq<Item>, limits: GeneratorLimits)
    requires AreTools(done + rest, limits)
    ensures AreTools(done, limits)
  {
    hide IsTool, NameOf;
    var all := done + rest;
    assert forall k :: 0 <= k < |done| ==> all[k] == done[k];
  }

  lemma ToolsRefused(s: Bytes, begin: nat, b: nat, done: seq<Item>, limits: GeneratorLimits)
    requires begin < |s| && s[begin] == '[' && ReadingItems(s, begin, b, done) && AreTools(done, limits)
    requires WsEnd(s, begin + 1) < |s| ==> s[WsEnd(s, begin + 1)] != ']'
    requires match ParseItem(s, b)
             case NoItem => true
             case AnItem(item, e) =>
               !AreTools(done + [item], limits) || e == |s| || (s[e] != ',' && s[e] != ']')
    ensures ParseValue(s, begin).Got? ==> !IsToolsArray(ParseValue(s, begin).value, limits)
  {
    hide ParseValue, ParseItem, ParseItems, WsEnd, AreTools;
    ArrayStarts(s, begin);
    if ParseItems(s, begin + 1).Items? {
      var rest := ItemsSplit(s, begin, b, done);
      var item := ParseItem(s, b).item;
      if AreTools(done + [item] + rest, limits) { ToolsPart(done + [item], rest, limits); }
    }
  }

  method ParseToolsArray(json: Bytes, begin: nat, limits: GeneratorLimits)
    returns (ok: bool, offset: nat, names: seq<Bytes>)
    requires begin <= |json|
    ensures ok <==> ParseValue(json, begin).Got? && IsToolsArray(ParseValue(json, begin).value, limits)
    ensures ok ==> offset == ParseValue(json, begin).end && names == Map(ItemName, ParseValue(json, begin).value.items)
  {
    hide ParseValue, ParseItems, ParseItem, WsEnd, AreTools, IsTool, ReadingItems, NameOf, Map;
    ok, offset, names := false, begin, [];
    if offset >= |json| || json[offset] != '[' {
      NoArrayHere(json, begin);
      return;
    }
    ArrayStarts(json, begin);
    NoToolsYet(limits);
    offset := SkipWhitespace(json, begin + 1);
    if offset < |json| && json[offset] == ']' {
      return true, offset + 1, names;
    }
    ghost var b, done: seq<Item> := begin + 1, [];
    while offset < |json|
      invariant begin < b <= |json| && offset == WsEnd(json, b)
      invariant ReadingItems(json, begin, b, done) && AreTools(done, limits)
      invariant names == Map(ItemName, done)
      decreases |json| - b
    {
      ItemUnfold(json, b);
      if ParseItem(json, b).AnItem? { ToolsMore(done, ParseItem(json, b).item, limits); }
      if |names| >= limits.maxTools {
        ToolsRefused(json, begin, b, done, limits);
        return false, offset, names;
      }
      var name;
      ok, offset, name := ParseToolName(json, offset, limits);
      if !ok || name in names {
        ToolsRefused(json, begin, b, done, limits);
        return false, offset, names;
      }
      ghost var item := ParseItem(json, b).item;
      ItemPasses(json, begin, b, done);
      names := names + [name];
      offset := SkipWhitespace(json, offset);
      if offset == |json| {
        ToolsRefused(json, begin, b, done, limits);
        return false, offset, names;
      }
      if json[offset] == ']' {
        return true, offset + 1, names;
      }
      if json[offset] != ',' {
        ToolsRefused(json, begin, b, done, limits);
        return false, offset, names;
      }
      done := done + [item];
      b := offset + 1;
      offset := SkipWhitespace(json, offset + 1);
      if offset < |json| && json[offset] == ']' {
        NoItemAtBracket(json, b);
        ToolsRefused(json, begin, b, done, limits);
        return false, offset, names;
      }
    }
    NoItemAtEnd(json, b);
    ToolsRefused(json, begin, b, done, limits);
    return false, offset, names;
  }

  lemma NoToolsYet(limits: GeneratorLimits)
    ensures AreTools([], limits) && Map(ItemName, []) == []
  {
  }

  lemma NoItemAtBracket(s: Bytes, b: nat)
    requires b <= |s| && WsEnd(s, b) < |s| && s[WsEnd(s, b)] == ']'
    ensures ParseItem(s, b) == NoItem
  {
    hide WsEnd, StringEnd, ParseItems, ParseMembers, FractionEnd, ExponentEnd;
  }

  // ---- the document ----

  const DOCUMENT_KEYS: set<Bytes> := {"inventory_version", "server", "tools"}

  ghost predicate GoodDocumentMember(m: Member, limits: GeneratorLimits) {
    && EscapeFree(m.key)
    && if m.key == "inventory_version" then m.value == Num("1")
       else if m.key == "server" then m.value.Obj? && Fits(m.value, 1, limits.maxNestingDepth)
       else if m.key == "tools" then IsToolsArray(m.value, limits)
       else Fits(m.value, 1, limits.maxNestingDepth)
  }

  ghost function DocumentMember(limits: GeneratorLimits): Member -> bool {
    m => GoodDocumentMember(m, limits)
  }

  ghost predicate IsInventory(members: seq<Member>, limits: GeneratorLimits) {
    && Admissible(members, DocumentMember(limits), DOCUMENT_KEYS)
    && Count(members, "inventory_version") == 1 && Count(members, "server") == 1 && Count(members, "tools") == 1
  }

  /** The tool names that the document lists. */
  function NamesIn(members: seq<Member>): seq<Bytes> {
    var v := Find(members, "tools");
    if v.Some? && v.value.Arr? then Map(ItemName, v.value.items) else []
  }

  /** The structured parse succeeds; an object that ends after a member comma is taken too. */
  ghost predicate Parses(json: Bytes, limits: GeneratorLimits) {
    DocMembers(json, OpenEnd).Some? && IsInventory(DocMembers(json, OpenEnd).value, limits)
  }

  datatype Document = Document(version: bool, server: bool, tools: bool, names: seq<Bytes>)

  function DocumentIn(members: seq<Member>): Document {
    Document(Count(members, "inventory_version") > 0, Count(members, "server") > 0, Count(members, "tools") > 0, NamesIn(members))
  }

  lemma DocumentMore(done: seq<Member>, m: Member)
    ensures var now, was := DocumentIn(done + [m]), DocumentIn(done);
            && now.version == (was.version || m.key == "inventory_version")
            && now.server == (was.server || m.key == "server") && now.tools == (was.tools || m.key == "tools")
            && now.names == (if !was.tools && m.key == "tools" && m.value.Arr? then Map(ItemName, m.value.items) else was.names)
  {
    hide Count, Find, Map;
    CountLast(done, m, "inventory_version");
    CountLast(done, m, "server");
    CountLast(done, m, "tools");
  }

  method ParseDocumentMember(json: Bytes, begin: nat, key: Bytes, limits: GeneratorLimits,
                             document: Document, ghost b: nat, ghost done: seq<Member>)
    returns (ok: bool, offset: nat, document': Document)
    requires b <= |json| && ParseKey(json, b).AKey? && EscapeFree(key)
    requires key == ParseKey(json, b).key && begin == ParseKey(json, b).end
    requires document == DocumentIn(done)
    ensures !ok ==> Refused(json, b, done, DocumentMember(limits), DOCUMENT_KEYS)
    ensures ok ==> Passed(json, b, done, DocumentMember(limits), DOCUMENT_KEYS, offset)
    ensures ok && ParseMember(json, b).AMember? ==>
              document' == DocumentIn(done + [ParseMember(json, b).member])
  {
    hide ParseValue, ParseKey, ParseMember, WsEnd, Fits, EscapeFree, Count, AreTools, Map;
    ok, offset, document' := false, begin, document;
    MemberUnfold(json, b);
    ghost var r := ParseMember(json, b);
    if r.AMember? { DocumentMore(done, r.member); }
    if key == "inventory_version" {
      if document.version {
        return;
      }
      document' := document.(version := true);
      ok, offset := ScanVersion(json, offset);
    } else if key == "server" {
      if document.server {
        return;
      }
      document' := document.(server := true);
      if offset >= |json| || json[offset] != '{' {
        NoObjectHere(json, offset);
        return;
      }
      ObjectHere(json, offset);
      ok, offset := SkipValue(json, offset, 1, limits.maxNestingDepth);
    } else if key == "tools" {
      if document.tools {
        return;
      }
      document' := document.(tools := true);
      if offset >= |json| || json[offset] != '[' {
        NoArrayHere(json, offset);
        return;
      }
      var names;
      ok, offset, names := ParseToolsArray(json, offset, limits);
      document' := document'.(names := names);
    } else {
      ok, offset := SkipValue(json, offset, 1, limits.maxNestingDepth);
    }
  }

  lemma ObjectHere(s: Bytes, i: nat)
    requires i < |s| && s[i] == '{'
    ensures ParseValue(s, i).Got? ==> ParseValue(s, i).value.Obj?
  {
    hide ParseValue, ParseMembers, WsEnd;
    ParseObject(s, i);
  }

  /** The statements that take a version, which has to be the number `1`. */
  method ScanVersion(json: Bytes, begin: nat) returns (ok: bool, offset: nat)
    requires begin <= |json|
    ensures ok <==> ParseValue(json, begin).Got? && ParseValue(json, begin).value == Num("1")
    ensures ok ==> offset == ParseValue(json, begin).end
  {
    hide ParseValue, NumberEnd;
    ValueKinds(json, begin);
    ok, offset := ScanNumber(json, begin);
    if !ok || json[begin..offset] != "1" {
      return false, offset;
    }
  }

  method ParseInventoryDocument(json: Bytes, limits: GeneratorLimits) returns (ok: bool, names: seq<Bytes>)
    ensures ok <==> Parses(json, limits)
    ensures ok ==> names == NamesIn(DocMembers(json, OpenEnd).value)
  {
    hide ParseValue, ParseMembers, ParseMember, ParseKey, WsEnd, Admissible, EscapeFree, Reading, DocumentIn, Count, Find;
    hide Stuck, Passed, Refused;
    hide IsInventory, DocMembers, NamesIn;
    names := [];
    ghost var good := DocumentMember(limits);
    var offset := SkipWhitespace(json, 0);
    NoDocument(json, OpenEnd);
    if offset >= |json| || json[offset] != '{' {
      return false, names;
    }
    ghost var begin := offset;
    DocStarts(json, OpenEnd);
    NothingRead(good, DOCUMENT_KEYS);
    NoDocumentYet();
    var document := Document(false, false, false, []);
    ghost var b, done: seq<Member> := begin + 1, [];
    offset := SkipWhitespace(json, offset + 1);
    if offset < |json| && json[offset] == '}' {
      offset := offset + 1;
    } else {
      ghost var closed := false;
      while offset < |json|
        invariant begin < b <= |json| && offset == WsEnd(json, b) && !closed
        invariant Reading(json, begin, b, OpenEnd, done) && Admissible(done, good, DOCUMENT_KEYS)
        invariant document == DocumentIn(done)
        decreases |json| - b
      {
        var key, hasEscape;
        ok, offset, key, hasEscape := ScanKey(json, offset, b);
        if !ok || hasEscape {
          BadKeyRefused(json, b, done, good, DOCUMENT_KEYS);
          RefusedIsStuck(json, b, done, good, DOCUMENT_KEYS);
          DocumentRefused(json, begin, b, done, limits);
          return false, names;
        }
        ok, offset, document := ParseDocumentMember(json, offset, key, limits, document, b, done);
        if !ok {
          RefusedIsStuck(json, b, done, good, DOCUMENT_KEYS);
          DocumentRefused(json, begin, b, done, limits);
          return false, names;
        }
        PassedThen(json, b, done, good, DOCUMENT_KEYS, offset);
        offset := SkipWhitespace(json, offset);
        if offset == |json| || (json[offset] != '}' && json[offset] != ',') {
          DocumentRefused(json, begin, b, done, limits);
          return false, names;
        }
        MemberPasses(json, begin, b, OpenEnd, done, good, DOCUMENT_KEYS);
        done := done + [ParseMember(json, b).member];
        if json[offset] == '}' {
          closed := true;
          offset := offset + 1;
          break;
        }
        b := offset + 1;
        offset := SkipWhitespace(json, offset + 1);
        if offset < |json| && json[offset] == '}' {
          CommaThenBrace(json, b, done, good, DOCUMENT_KEYS);
          DocumentRefused(json, begin, b, done, limits);
          return false, names;
        }
      }
      if !closed { DocOpenEnds(json, begin, b, OpenEnd, done); }
      assert ParseMembers(json, begin + 1, OpenEnd) == Members(done, offset);
    }
    offset := SkipWhitespace(json, offset);
    if offset != |json| {
      return false, names;
    }
    assert DocMembers(json, OpenEnd) == Some(done);
    DocumentDecides(done, limits);
    if !document.version || !document.server || !document.tools {
      return false, names;
    }
    return true, document.names;
  }

  lemma NoDocumentYet()
    ensures DocumentIn([]) == Document(false, false, false, [])
  {
  }

  lemma DocumentRefused(s: Bytes, begin: nat, b: nat, done: seq<Member>, limits: GeneratorLimits)
    requires begin < |s| && BodyStart(s) == Some(begin + 1) && Reading(s, begin, b, OpenEnd, done)
    requires WsEnd(s, begin + 1) < |s| ==> s[WsEnd(s, begin + 1)] != '}'
    requires Admissible(done, DocumentMember(limits), DOCUMENT_KEYS) && WsEnd(s, b) < |s|
    requires Stuck(s, b, done, DocumentMember(limits), DOCUMENT_KEYS)
    ensures !Parses(s, limits)
  {
    hide ParseMembers, ParseMember, WsEnd, Admissible, DocMembers;
    DocStarts(s, OpenEnd);
    StuckRefuses(s, begin, b, OpenEnd, done, DocumentMember(limits), DOCUMENT_KEYS);
  }

  lemma DocumentDecides(done: seq<Member>, limits: GeneratorLimits)
    requires Admissible(done, DocumentMember(limits), DOCUMENT_KEYS)
    ensures var d := DocumentIn(done);
            (IsInventory(done, limits) <==> d.version && d.server && d.tools) && d.names == NamesIn(done)
  {
    hide Count, Find, Admissible;
    AtMostOnce(done, DocumentMember(limits), DOCUMENT_KEYS, "inventory_version");
    AtMostOnce(done, DocumentMember(limits), DOCUMENT_KEYS, "server");
    AtMostOnce(done, DocumentMember(limits), DOCUMENT_KEYS, "tools");
  }

  // ---- the policy ----

  const POLICY_HEAD: Bytes :=
    "{\"version\":1,\"defaults\":" + "{\"visibility\":\"deny\",\"invocation\":\"deny\"}" + ",\"tools\":["
  const RULE_HEAD: Bytes := "{\"name\":"
  const RULE_TAIL: Bytes := ",\"visibility\":\"allow\",\"invocation\":\"allow\"}"

  function AllowRule(name: Bytes): ToolRule {
    ToolRule(name, Allow, Allow)
  }

  function RuleJson(rule: ToolRule): Bytes {
    RULE_HEAD + Quoted(Escaped(rule.name)) + RULE_TAIL
  }

  function RulesJson(rules: seq<ToolRule>): Bytes {
    if rules == [] then []
    else if |rules| == 1 then RuleJson(rules[0])
    else RuleJson(rules[0]) + "," + RulesJson(rules[1..])
  }

  function PolicyJson(rules: seq<ToolRule>): Bytes {
    POLICY_HEAD + RulesJson(rules) + "]}"
  }

  ghost predicate NoRepeats(names: seq<Bytes>) {
    forall i, j :: 0 <= i < j < |names| ==> names[i] != names[j]
  }

  /** When a policy is generated: the inventory is small, shallow and well formed, and the allow
      list names listed tools, each once. */
  ghost predicate Generates(json: Bytes, allow: seq<Bytes>, limits: GeneratorLimits) {
    && |json| <= limits.maxInventoryBytes && !Exceeds(json, 0, 0, limits.maxNestingDepth)
    && Parses(json, limits)
    && NoRepeats(allow) && forall k :: 0 <= k < |allow| ==> allow[k] in NamesIn(DocMembers(json, OpenEnd).value)
  }

  method HasRepeats(names: seq<Bytes>) returns (repeats: bool)
    ensures repeats <==> !NoRepeats(names)
  {
    for left := 0 to |names|
      invariant forall i, j :: 0 <= i < left && i < j < |names| ==> names[i] != names[j]
    {
      for right := left + 1 to |names|
        invariant forall j :: left < j < right ==> names[left] != names[j]
      {
        if names[left] == names[right] {
          return true;
        }
      }
    }
    return false;
  }

  /** The rules for the requested names, or none if a name is unknown. */
  method AllowRules(allow: seq<Bytes>, names: seq<Bytes>) returns (rules: Option<seq<ToolRule>>)
    ensures rules.Some? <==> forall k :: 0 <= k < |allow| ==> allow[k] in names
    ensures rules.Some? ==> rules.value == Map(AllowRule, allow)
  {
    var collected: seq<ToolRule> := [];
    for index := 0 to |allow|
      invariant forall k :: 0 <= k < index ==> allow[k] in names
      invariant collected == Map(AllowRule, allow[..index])
    {
      if allow[index] !in names {
        return None;
      }
      MapLast(AllowRule, allow[..index], allow[index]);
      assert allow[..index] + [allow[index]] == allow[..index + 1];
      collected := collected + [AllowRule(allow[index])];
    }
    assert allow[..|allow|] == allow;
    return Some(collected);
  }

  lemma {:induction false} RulesLast(rules: seq<ToolRule>, k: nat)
    requires k < |rules|
    ensures RulesJson(rules[..k + 1]) == (if k == 0 then [] else RulesJson(rules[..k]) + ",") + RuleJson(rules[k])
    decreases k
  {
    hide RuleJson;
    if k == 0 {
      assert rules[..1] == [rules[0]];
    } else {
      RulesLast(rules[1..], k - 1);
      assert rules[..k + 1][1..] == rules[1..][..k] && rules[..k][1..] == rules[1..][..k - 1];
    }
  }

  method PrintPolicy(rules: seq<ToolRule>) returns (json: Bytes)
    ensures json == PolicyJson(rules)
  {
    hide Escaped, RulesJson;
    json := POLICY_HEAD;
    NoRulesJson();
    assert rules[..0] == [] && POLICY_HEAD + [] == POLICY_HEAD;
    for index := 0 to |rules|
      invariant json == POLICY_HEAD + RulesJson(rules[..index])
    {
      RulesLast(rules, index);
      ghost var written := RulesJson(rules[..index]);
      ghost var lead := if index == 0 then [] else written + ",";
      if index != 0 {
        json := json + ",";
      }
      assert json == POLICY_HEAD + lead;
      json := json + RULE_HEAD;
      json := AppendJsonEscapedString(json, rules[index].name);
      json := json + RULE_TAIL;
      Rejoin(POLICY_HEAD, lead, RULE_HEAD, Quoted(Escaped(rules[index].name)), RULE_TAIL);
    }
    assert rules[..|rules|] == rules;
    json := json + "]}";
  }

  lemma Rejoin(a: Bytes, b: Bytes, c: Bytes, d: Bytes, e: Bytes)
    ensures a + b + c + d + e == a + (b + (c + d + e))
  {
  }

  lemma NoRulesJson()
    ensures RulesJson([]) == []
  {
  }

  lemma RulesDistinct(allow: seq<Bytes>)
    requires NoRepeats(allow)
    ensures Distinct(Map(AllowRule, allow), RuleName)
  {
  }

  lemma ListedNamesNonEmpty(members: seq<Member>, limits: GeneratorLimits, name: Bytes)
    requires IsInventory(members, limits) && name in NamesIn(members)
    ensures name != []
  {
    hide Find, Count;
    AdmissibleFind(members, DocumentMember(limits), DOCUMENT_KEYS, "tools");
    var items := Find(members, "tools").value.items;
    var k := InIndex(name, Map(ItemName, items));
    ToolNameNonEmpty(items[k].value, limits);
  }

  lemma ToolNameNonEmpty(v: Value, limits: GeneratorLimits)
    requires IsTool(v, limits)
    ensures 0 < |NameOf(v)| <= limits.maxToolNameBytes && EscapeFree(NameOf(v))
  {
    hide Find, Count;
    AdmissibleFind(v.members, ToolMember(limits), TOOL_KEYS, "name");
  }

  method GeneratePolicyFromInventory(inventoryJson: Bytes, allowToolNames: seq<Bytes>, limits: GeneratorLimits)
    returns (policyJson: Option<Bytes>)
    ensures policyJson.Some? <==> Generates(inventoryJson, allowToolNames, limits)
    ensures policyJson.Some? ==> policyJson.value == PolicyJson(Sort(Map(AllowRule, allowToolNames), RuleName))
  {
    hide Exceeds, Parses, NoRepeats, Sort, Map, PolicyJson, IsInventory, DocMembers, NamesIn, Distinct;
    if |inventoryJson| > limits.maxInventoryBytes {
      return None;
    }
    var exceeds := ExceedsNesting(inventoryJson, limits.maxNestingDepth);
    if exceeds {
      return None;
    }
    var ok, names := ParseInventoryDocument(inventoryJson, limits);
    if !ok {
      return None;
    }
    var repeats := HasRepeats(allowToolNames);
    if repeats {
      return None;
    }
    var rules := AllowRules(allowToolNames, names);
    if rules.None? {
      return None;
    }
    RulesDistinct(allowToolNames);
    AllowedNonEmpty(inventoryJson, allowToolNames, limits);
    var built, table := Build(rules.value, PolicyDefaults(Deny, Deny));
    if !built {
      return None;
    }
    var json := PrintPolicy(table.rules);
    return Some(json);
  }

  lemma AllowedNonEmpty(json: Bytes, allow: seq<Bytes>, limits: GeneratorLimits)
    requires Generates(json, allow, limits)
    ensures forall k :: 0 <= k < |Map(AllowRule, allow)| ==> Map(AllowRule, allow)[k].name != []
  {
    hide DocMembers, NamesIn, Exceeds, IsInventory;
    forall k | 0 <= k < |allow| ensures allow[k] != [] {
      ListedNamesNonEmpty(DocMembers(json, OpenEnd).value, limits, allow[k]);
    }
  }
}

/** `PolicyLoader::parse` and `apply_deny_overrides` (src/policy_loader.cpp). */
module Loader {
  import opened Bytes
  import opened Json
  import opened Scanner
  import opened Documents
  import opened Sorting
  import opened Objects
  import opened Nesting
  import opened Policy
  import Inventory
  import Generator

  datatype Config = Config(maxFileBytes: nat, maxNestingDepth: nat)

  datatype PolicyDefinition = PolicyDefinition(defaults: PolicyDefaults, rules: seq<ToolRule>)

  // ---- access ----

  predicate IsAccess(v: Value) {
    v == Str("allow") || v == Str("deny")
  }

  function AccessOf(v: Option<Value>): Access {
    if v == Some(Str("allow")) then Allow else Deny
  }

  method ParseAccess(json: Bytes, begin: nat) returns (ok: bool, offset: nat, access: Access)
    requires begin <= |json|
    ensures ok <==> ParseValue(json, begin).Got? && IsAccess(ParseValue(json, begin).value)
    ensures ok ==> offset == ParseValue(json, begin).end && access == AccessOf(Some(ParseValue(json, begin).value))
  {
    hide ParseValue, StringEnd;
    ValueKinds(json, begin);
    access := Deny;
    var contents, hasEscape;
    ok, offset, contents, hasEscape := ScanString(json, begin);
    if !ok || hasEscape {
      return false, offset, access;
    }
    if contents == "allow" {
      return true, offset, Allow;
    }
    if contents == "deny" {
      return true, offset, Deny;
    }
    return false, offset, access;
  }

  // ---- defaults ----

  const DEFAULTS_KEYS: set<Bytes> := {"visibility", "invocation"}

  predicate GoodDefaultsMember(m: Member, limit: nat) {
    && EscapeFree(m.key)
    && if m.key == "visibility" || m.key == "invocation" then IsAccess(m.value) else Fits(m.value, 2, limit)
  }

  function DefaultsMember(limit: nat): Member -> bool {
    m => GoodDefaultsMember(m, limit)
  }

  ghost predicate AreDefaults(v: Value, limit: nat) {
    && limit >= 2 && AdmissibleObject(v, DefaultsMember(limit), DEFAULTS_KEYS)
    && Count(v.members, "visibility") == 1 && Count(v.members, "invocation") == 1
  }

  function DefaultsIn(members: seq<Member>): PolicyDefaults {
    PolicyDefaults(AccessOf(Find(members, "visibility")), AccessOf(Find(members, "invocation")))
  }

  lemma DefaultsMore(done: seq<Member>, m: Member)
    ensures Count(done + [m], "visibility") == Count(done, "visibility") + One(m, "visibility")
    ensures Count(done + [m], "invocation") == Count(done, "invocation") + One(m, "invocation")
    ensures var now, was := DefaultsIn(done + [m]), DefaultsIn(done);
            && now.visible ==
               (if Count(done, "visibility") == 0 && m.key == "visibility" then AccessOf(Some(m.value)) else was.visible)
            && now.callable ==
               (if Count(done, "invocation") == 0 && m.key == "invocation" then AccessOf(Some(m.value)) else was.callable)
  {
    hide Count, Find, AccessOf;
    CountLast(done, m, "visibility");
    CountLast(done, m, "invocation");
  }

  lemma NoDefaultsYet()
    ensures DefaultsIn([]) == PolicyDefaults(Deny, Deny) && Count([], "visibility") == 0 && Count([], "invocation") == 0
  {
  }

  datatype DefaultsSeen = DefaultsSeen(visibility: bool, invocation: bool)

  function DefaultsSeenIn(members: seq<Member>): DefaultsSeen {
    DefaultsSeen(Count(members, "visibility") > 0, Count(members, "invocation") > 0)
  }

  method ParseDefaultsMember(json: Bytes, begin: nat, key: Bytes, limit: nat,
                             seen: DefaultsSeen, defaults: PolicyDefaults, ghost b: nat, ghost done: seq<Member>)
    returns (ok: bool, offset: nat, seen': DefaultsSeen, defaults': PolicyDefaults)
    requires b <= |json| && ParseKey(json, b).AKey? && EscapeFree(key)
    requires key == ParseKey(json, b).key && begin == ParseKey(json, b).end
    requires seen == DefaultsSeenIn(done) && defaults == DefaultsIn(done)
    ensures !ok ==> Refused(json, b, done, DefaultsMember(limit), DEFAULTS_KEYS)
    ensures ok ==> Passed(json, b, done, DefaultsMember(limit), DEFAULTS_KEYS, offset)
    ensures ok && ParseMember(json, b).AMember? ==>
              var after := done + [ParseMember(json, b).member];
              seen' == DefaultsSeenIn(after) && defaults' == DefaultsIn(after)
  {
    hide ParseValue, ParseKey, ParseMember, WsEnd, DefaultsIn, Fits, EscapeFree, Count, IsAccess, AccessOf;
    ok, offset, seen', defaults' := false, begin, seen, defaults;
    MemberUnfold(json, b);
    ghost var r := ParseMember(json, b);
    if r.AMember? { DefaultsMore(done, r.member); }
    var access;
    if key == "visibility" {
      if seen.visibility {
        return;
      }
      seen' := seen.(visibility := true);
      ok, offset, access := ParseAccess(json, offset);
      defaults' := defaults.(visible := access);
    } else if key == "invocation" {
      if seen.invocation {
        return;
      }
      seen' := seen.(invocation := true);
      ok, offset, access := ParseAccess(json, offset);
      defaults' := defaults.(callable := access);
    } else {
      ok, offset := SkipValue(json, offset, 2, limit);
    }
  }

  method ParseDefaults(json: Bytes, begin: nat, limit: nat)
    returns (ok: bool, offset: nat, defaults: PolicyDefaults)
    requires begin <= |json|
    ensures ok <==> ParseValue(json, begin).Got? && AreDefaults(ParseValue(json, begin).value, limit)
    ensures ok ==> offset == ParseValue(json, begin).end && defaults == DefaultsIn(ParseValue(json, begin).value.members)
  {
    hide ParseValue, ParseMembers, ParseMember, ParseKey, WsEnd, Admissible, EscapeFree, Reading, Count, DefaultsIn, Stuck,
      Passed, Refused;
    ok, offset, defaults := false, begin, PolicyDefaults(Deny, Deny);
    if limit < 2 || offset >= |json| || json[offset] != '{' {
      if limit >= 2 { NoObjectHere(json, begin); }
      return;
    }
    ghost var good := DefaultsMember(limit);
    ObjectStarts(json, begin);
    NothingRead(good, DEFAULTS_KEYS);
    NoDefaultsYet();
    offset := SkipWhitespace(json, begin + 1);
    if offset < |json| && json[offset] == '}' {
      return false, offset + 1, defaults;
    }
    var seen := DefaultsSeen(false, false);
    ghost var b, done: seq<Member> := begin + 1, [];
    while offset < |json|
      invariant begin < b <= |json| && offset == WsEnd(json, b)
      invariant Reading(json, begin, b, Strict, done) && Admissible(done, good, DEFAULTS_KEYS)
      invariant seen == DefaultsSeenIn(done) && defaults == DefaultsIn(done)
      decreases |json| - b
    {
      var key, hasEscape;
      ok, offset, key, hasEscape := ScanKey(json, offset, b);
      if !ok || hasEscape {
        BadKeyRefused(json, b, done, good, DEFAULTS_KEYS);
        RefusedIsStuck(json, b, done, good, DEFAULTS_KEYS);
        StuckRefuses(json, begin, b, Strict, done, good, DEFAULTS_KEYS);
        return false, offset, defaults;
      }
      ok, offset, seen, defaults := ParseDefaultsMember(json, offset, key, limit, seen, defaults, b, done);
      if !ok {
        RefusedIsStuck(json, b, done, good, DEFAULTS_KEYS);
        StuckRefuses(json, begin, b, Strict, done, good, DEFAULTS_KEYS);
        return;
      }
      PassedThen(json, b, done, good, DEFAULTS_KEYS, offset);
      offset := SkipWhitespace(json, offset);
      if offset == |json| {
        StuckRefuses(json, begin, b, Strict, done, good, DEFAULTS_KEYS);
        return false, offset, defaults;
      }
      if json[offset] != '}' && json[offset] != ',' {
        StuckRefuses(json, begin, b, Strict, done, good, DEFAULTS_KEYS);
        return false, offset, defaults;
      }
      MemberPasses(json, begin, b, Strict, done, good, DEFAULTS_KEYS);
      done := done + [ParseMember(json, b).member];
      if json[offset] == '}' {
        AtMostOnce(done, good, DEFAULTS_KEYS, "visibility");
        AtMostOnce(done, good, DEFAULTS_KEYS, "invocation");
        return seen.visibility && seen.invocation, offset + 1, defaults;
      }
      b := offset + 1;
      offset := SkipWhitespace(json, offset + 1);
      if offset < |json| && json[offset] == '}' {
        Generator.CommaThenBrace(json, b, done, good, DEFAULTS_KEYS);
        StuckRefuses(json, begin, b, Strict, done, good, DEFAULTS_KEYS);
        return false, offset, defaults;
      }
    }
    NoMemberLeft(json, b, done, good, DEFAULTS_KEYS);
    StuckRefuses(json, begin, b, Strict, done, good, DEFAULTS_KEYS);
    return false, offset, defaults;
  }

  // ---- a tool ----

  const TOOL_KEYS: set<Bytes> := {"name", "visibility", "invocation"}

  predicate IsRuleName(v: Value) {
    v.Str? && EscapeFree(v.raw) && v.raw != []
  }

  predicate GoodToolMember(m: Member, limit: nat) {
    && EscapeFree(m.key)
    && if m.key == "name" then IsRuleName(m.value)
       else if m.key == "visibility" || m.key == "invocation" then IsAccess(m.value)
       else Fits(m.value, 3, limit)
  }

  function ToolMember(limit: nat): Member -> bool {
    m => GoodToolMember(m, limit)
  }

  ghost predicate IsRule(v: Value, limit: nat) {
    && limit >= 3 && AdmissibleObject(v, ToolMember(limit), TOOL_KEYS)
    && Count(v.members, "name") == 1 && Count(v.members, "visibility") == 1 && Count(v.members, "invocation") == 1
  }

  datatype ToolSeen = ToolSeen(name: bool, visibility: bool, invocation: bool)

  function RuleIn(members: seq<Member>): ToolRule {
    ToolRule(Inventory.RawOf(Find(members, "name")), AccessOf(Find(members, "visibility")), AccessOf(Find(members, "invocation")))
  }

  function SeenIn(members: seq<Member>): ToolSeen {
    ToolSeen(Count(members, "name") > 0, Count(members, "visibility") > 0, Count(members, "invocation") > 0)
  }

  function RuleOf(item: Item): ToolRule {
    RuleIn(if item.value.Obj? then item.value.members else [])
  }

  lemma RuleMore(done: seq<Member>, m: Member)
    ensures var now, was := SeenIn(done + [m]), SeenIn(done);
            && now.name == (was.name || m.key == "name")
            && now.visibility == (was.visibility || m.key == "visibility")
            && now.invocation == (was.invocation || m.key == "invocation")
    ensures var now, was := RuleIn(done + [m]), RuleIn(done);
            && now.name == (if !SeenIn(done).name && m.key == "name" then Inventory.RawOf(Some(m.value)) else was.name)
            && now.visible ==
               (if !SeenIn(done).visibility && m.key == "visibility" then AccessOf(Some(m.value)) else was.visible)
            && now.callable ==
               (if !SeenIn(done).invocation && m.key == "invocation" then AccessOf(Some(m.value)) else was.callable)
  {
    hide Count, Find;
    CountLast(done, m, "name");
    CountLast(done, m, "visibility");
    CountLast(done, m, "invocation");
  }

  method ParseRuleName(json: Bytes, begin: nat) returns (ok: bool, offset: nat, name: Bytes)
    requires begin <= |json|
    ensures ok <==> ParseValue(json, begin).Got? && IsRuleName(ParseValue(json, begin).value)
    ensures ok ==> offset == ParseValue(json, begin).end && name == ParseValue(json, begin).value.raw
  {
    hide ParseValue, StringEnd, EscapeFree;
    ValueKinds(json, begin);
    var hasEscape;
    ok, offset, name, hasEscape := ScanString(json, begin);
    if !ok || hasEscape || name == [] {
      return false, offset, name;
    }
  }

  method ParseToolMember(json: Bytes, begin: nat, key: Bytes, limit: nat,
                         seen: ToolSeen, tool: ToolRule, ghost b: nat, ghost done: seq<Member>)
    returns (ok: bool, offset: nat, seen': ToolSeen, tool': ToolRule)
    requires b <= |json| && ParseKey(json, b).AKey? && EscapeFree(key)
    requires key == ParseKey(json, b).key && begin == ParseKey(json, b).end
    requires seen == SeenIn(done) && tool == RuleIn(done)
    ensures !ok ==> Refused(json, b, done, ToolMember(limit), TOOL_KEYS)
    ensures ok ==> Passed(json, b, done, ToolMember(limit), TOOL_KEYS, offset)
    ensures ok && ParseMember(json, b).AMember? ==>
              var after := done + [ParseMember(json, b).member];
              seen' == SeenIn(after) && tool' == RuleIn(after)
  {
    hide ParseValue, ParseKey, ParseMember, WsEnd, RuleIn, Fits, EscapeFree, Count, IsAccess;
    ok, offset, seen', tool' := false, begin, seen, tool;
    MemberUnfold(json, b);
    ghost var r := ParseMember(json, b);
    if r.AMember? { RuleMore(done, r.member); }
    var access;
    if key == "name" {
      if seen.name {
        return;
      }
      seen' := seen.(name := true);
      var name;
      ok, offset, name := ParseRuleName(json, offset);
      tool' := tool.(name := name);
    } else if key == "visibility" {
      if seen.visibility {
        return;
      }
      seen' := seen.(visibility := true);
      ok, offset, access := ParseAccess(json, offset);
      tool' := tool.(visible := access);
    } else if key == "invocation" {
      if seen.invocation {
        return;
      }
      seen' := seen.(invocation := true);
      ok, offset, access := ParseAccess(json, offset);
      tool' := tool.(callable := access);
    } else {
      ok, offset := SkipValue(json, offset, 3, limit);
    }
  }

  method ParseTool(json: Bytes, begin: nat, limit: nat) returns (ok: bool, offset: nat, tool: ToolRule)
    requires begin <= |json|
    ensures ok <==> ParseValue(json, begin).Got? && IsRule(ParseValue(json, begin).value, limit)
    ensures ok ==> offset == ParseValue(json, begin).end && tool == RuleIn(ParseValue(json, begin).value.members)
  {
    hide ParseValue, ParseMembers, ParseMember, ParseKey, WsEnd, Admissible, EscapeFree, Reading, RuleIn;
    hide Stuck, Passed, Refused;
    ok, offset, tool := false, begin, ToolRule([], Deny, Deny);
    if limit < 3 || offset >= |json| || json[offset] != '{' {
      if limit >= 3 { NoObjectHere(json, begin); }
      return;
    }
    ghost var good := ToolMember(limit);
    ObjectStarts(json, begin);
    NothingRead(good, TOOL_KEYS);
    NoRuleYet();
    offset := SkipWhitespace(json, begin + 1);
    if offset < |json| && json[offset] == '}' {
      return false, offset + 1, tool;
    }
    var seen := ToolSeen(false, false, false);
    ghost var b, done: seq<Member> := begin + 1, [];
    while offset < |json|
      invariant begin < b <= |json| && offset == WsEnd(json, b)
      invariant Reading(json, begin, b, Strict, done) && Admissible(done, good, TOOL_KEYS)
      invariant seen == SeenIn(done) && tool == RuleIn(done)
      decreases |json| - b
    {
      var key, hasEscape;
      ok, offset, key, hasEscape := ScanKey(json, offset, b);
      if !ok || hasEscape {
        BadKeyRefused(json, b, done, good, TOOL_KEYS);
        RefusedIsStuck(json, b, done, good, TOOL_KEYS);
        StuckRefuses(json, begin, b, Strict, done, good, TOOL_KEYS);
        return false, offset, tool;
      }
      ok, offset, seen, tool := ParseToolMember(json, offset, key, limit, seen, tool, b, done);
      if !ok {
        RefusedIsStuck(json, b, done, good, TOOL_KEYS);
        StuckRefuses(json, begin, b, Strict, done, good, TOOL_KEYS);
        return;
      }
      PassedThen(json, b, done, good, TOOL_KEYS, offset);
      offset := SkipWhitespace(json, offset);
      if offset == |json| {
        StuckRefuses(json, begin, b, Strict, done, good, TOOL_KEYS);
        return false, offset, tool;
      }
      if json[offset] != '}' && json[offset] != ',' {
        StuckRefuses(json, begin, b, Strict, done, good, TOOL_KEYS);
        return false, offset, tool;
      }
      MemberPasses(json, begin, b, Strict, done, good, TOOL_KEYS);
      done := done + [ParseMember(json, b).member];
      if json[offset] == '}' {
        AtMostOnce(done, good, TOOL_KEYS, "name");
        AtMostOnce(done, good, TOOL_KEYS, "visibility");
        AtMostOnce(done, good, TOOL_KEYS, "invocation");
        return seen.name && seen.visibility && seen.invocation, offset + 1, tool;
      }
      b := offset + 1;
      offset := SkipWhitespace(json, offset + 1);
      if offset < |json| && json[offset] == '}' {
        Generator.CommaThenBrace(json, b, done, good, TOOL_KEYS);
        StuckRefuses(json, begin, b, Strict, done, good, TOOL_KEYS);
        return false, offset, tool;
      }
    }
    NoMemberLeft(json, b, done, good, TOOL_KEYS);
    StuckRefuses(json, begin, b, Strict, done, good, TOOL_KEYS);
    return false, offset, tool;
  }

  lemma NoRuleYet()
    ensures RuleIn([]) == ToolRule([], Deny, Deny) && SeenIn([]) == ToolSeen(false, false, false)
  {
  }

  // ---- the tools ----

  ghost predicate AreRules(items: seq<Item>, limit: nat) {
    forall k :: 0 <= k < |items| ==> IsRule(items[k].value, limit)
  }

  ghost predicate IsRulesArray(v: Value, limit: nat) {
    limit >= 2 && v.Arr? && AreRules(v.items, limit)
  }

  lemma RulesMore(done: seq<Item>, item: Item, limit: nat)
    ensures AreRules(done + [item], limit) <==> AreRules(done, limit) && IsRule(item.value, limit)
    ensures Map(RuleOf, done + [item]) == Map(RuleOf, done) + [RuleOf(item)]
  {
    hide IsRule, RuleOf;
    var all := done + [item];
    assert all[|done|] == item && forall k :: 0 <= k < |done| ==> all[k] == done[k];
    MapLast(RuleOf, done, item);
  }

  lemma RulesPart(done: seq<Item>, rest: seq<Item>, limit: nat)
    requires AreRules(done + rest, limit)
    ensures AreRules(done, limit)
  {
    hide IsRule;
    var all := done + rest;
    assert forall k :: 0 <= k < |done| ==> all[k] == done[k];
  }

  lemma RulesRefused(s: Bytes, begin: nat, b: nat, done: seq<Item>, limit: nat)
    requires begin < |s| && s[begin] == '[' && ReadingItems(s, begin, b, done) && AreRules(done, limit)
    requires WsEnd(s, begin + 1) < |s| ==> s[WsEnd(s, begin + 1)] != ']'
    requires match ParseItem(s, b)
             case NoItem => true
             case AnItem(item, e) =>
               !IsRule(item.value, limit) || e == |s| || (s[e] != ',' && s[e] != ']')
    ensures ParseValue(s, begin).Got? ==> !IsRulesArray(ParseValue(s, begin).value, limit)
  {
    hide ParseValue, ParseItem, ParseItems, WsEnd, AreRules, IsRule;
    ArrayStarts(s, begin);
    if ParseItems(s, begin + 1).Items? {
      var rest := ItemsSplit(s, begin, b, done);
      var item := ParseItem(s, b).item;
      RulesMore(done, item, limit);
      if AreRules(done + [item] + rest, limit) { RulesPart(done + [item], rest, limit); }
    }
  }

  method ParseTools(json: Bytes, begin: nat, limit: nat) returns (ok: bool, offset: nat, tools: seq<ToolRule>)
    requires begin <= |json|
    ensures ok <==> ParseValue(json, begin).Got? && IsRulesArray(ParseValue(json, begin).value, limit)
    ensures ok ==> offset == ParseValue(json, begin).end && tools == Map(RuleOf, ParseValue(json, begin).value.items)
  {
    hide ParseValue, ParseItems, ParseItem, WsEnd, AreRules, IsRule, ReadingItems, RuleIn, Map;
    ok, offset, tools := false, begin, [];
    if limit < 2 || offset >= |json| || json[offset] != '[' {
      if limit >= 2 { NoArrayHere(json, begin); }
      return;
    }
    ArrayStarts(json, begin);
    NoRulesYet(limit);
    offset := SkipWhitespace(json, begin + 1);
    if offset < |json| && json[offset] == ']' {
      return true, offset + 1, tools;
    }
    ghost var b, done: seq<Item> := begin + 1, [];
    while offset < |json|
      invariant begin < b <= |json| && offset == WsEnd(json, b)
      invariant ReadingItems(json, begin, b, done) && AreRules(done, limit)
      invariant tools == Map(RuleOf, done)
      decreases |json| - b
    {
      ItemUnfold(json, b);
      var tool;
      ok, offset, tool := ParseTool(json, offset, limit);
      if !ok {
        RulesRefused(json, begin, b, done, limit);
        return;
      }
      ghost var item := ParseItem(json, b).item;
      RuleIsObject(item, limit);
      RulesMore(done, item, limit);
      ItemPasses(json, begin, b, done);
      tools := tools + [tool];
      offset := SkipWhitespace(json, offset);
      if offset == |json| {
        RulesRefused(json, begin, b, done, limit);
        return false, offset, tools;
      }
      if json[offset] == ']' {
        return true, offset + 1, tools;
      }
      if json[offset] != ',' {
        RulesRefused(json, begin, b, done, limit);
        return false, offset, tools;
      }
      done := done + [item];
      b := offset + 1;
      offset := SkipWhitespace(json, offset + 1);
      if offset < |json| && json[offset] == ']' {
        Generator.NoItemAtBracket(json, b);
        RulesRefused(json, begin, b, done, limit);
        return false, offset, tools;
      }
    }
    NoItemAtEnd(json, b);
    RulesRefused(json, begin, b, done, limit);
    return false, offset, tools;
  }

  lemma NoRulesYet(limit: nat)
    ensures AreRules([], limit) && Map(RuleOf, []) == []
  {
  }

  lemma RuleIsObject(item: Item, limit: nat)
    requires IsRule(item.value, limit)
    ensures item.value.Obj? && RuleOf(item) == RuleIn(item.value.members)
  {
  }

  // ---- the document ----

  const DOCUMENT_KEYS: set<Bytes> := {"version", "defaults", "tools"}

  ghost predicate GoodDocumentMember(m: Member, limit: nat) {
    && EscapeFree(m.key)
    && if m.key == "version" then m.value == Num("1")
       else if m.key == "defaults" then AreDefaults(m.value, limit)
       else if m.key == "tools" then IsRulesArray(m.value, limit)
       else Fits(m.value, 1, limit)
  }

  ghost function DocumentMember(limit: nat): Member -> bool {
    m => GoodDocumentMember(m, limit)
  }

  function RulesIn(members: seq<Member>): seq<ToolRule> {
    var v := Find(members, "tools");
    if v.Some? && v.value.Arr? then Map(RuleOf, v.value.items) else []
  }

  function DefaultsOf(members: seq<Member>): PolicyDefaults {
    var v := Find(members, "defaults");
    if v.Some? && v.value.Obj? then DefaultsIn(v.value.members) else PolicyDefaults(Deny, Deny)
  }

  /** A policy document; the `tools` member may be missing. */
  ghost predicate IsPolicy(members: seq<Member>, limit: nat) {
    && Admissible(members, DocumentMember(limit), DOCUMENT_KEYS)
    && Count(members, "version") == 1 && Count(members, "defaults") == 1
    && Distinct(RulesIn(members), RuleName)
  }

  /** The structured parse succeeds. */
  ghost predicate Parses(json: Bytes, limit: nat) {
    DocMembers(json, Strict).Some? && IsPolicy(DocMembers(json, Strict).value, limit)
  }

  ghost predicate Loads(json: Bytes, config: Config) {
    && |json| <= config.maxFileBytes && !Exceeds(json, 0, 0, config.maxNestingDepth)
    && Parses(json, config.maxNestingDepth)
  }

  function DefinitionIn(members: seq<Member>): PolicyDefinition {
    PolicyDefinition(DefaultsOf(members), Sort(RulesIn(members), RuleName))
  }

  datatype Candidate = Candidate(version: bool, sawDefaults: bool, tools: bool, defaults: PolicyDefaults, rules: seq<ToolRule>)

  function CandidateIn(members: seq<Member>): Candidate {
    Candidate(
      Count(members, "version") > 0, Count(members, "defaults") > 0, Count(members, "tools") > 0,
      DefaultsOf(members), RulesIn(members))
  }

  lemma CandidateMore(done: seq<Member>, m: Member)
    ensures var now, was := CandidateIn(done + [m]), CandidateIn(done);
            && now.version == (was.version || m.key == "version")
            && now.sawDefaults == (was.sawDefaults || m.key == "defaults")
            && now.tools == (was.tools || m.key == "tools")
            && now.defaults ==
               (if !was.sawDefaults && m.key == "defaults" && m.value.Obj? then DefaultsIn(m.value.members) else was.defaults)
            && now.rules == (if !was.tools && m.key == "tools" && m.value.Arr? then Map(RuleOf, m.value.items) else was.rules)
  {
    hide Count, Find, Map, DefaultsIn;
    CountLast(done, m, "version");
    CountLast(done, m, "defaults");
    CountLast(done, m, "tools");
  }

  method ParseDocumentMember(json: Bytes, begin: nat, key: Bytes, limit: nat,
                             candidate: Candidate, ghost b: nat, ghost done: seq<Member>)
    returns (ok: bool, offset: nat, candidate': Candidate)
    requires b <= |json| && ParseKey(json, b).AKey? && EscapeFree(key)
    requires key == ParseKey(json, b).key && begin == ParseKey(json, b).end
    requires candidate == CandidateIn(done)
    ensures !ok ==> Refused(json, b, done, DocumentMember(limit), DOCUMENT_KEYS)
    ensures ok ==> Passed(json, b, done, DocumentMember(limit), DOCUMENT_KEYS, offset)
    ensures ok && ParseMember(json, b).AMember? ==>
              candidate' == CandidateIn(done + [ParseMember(json, b).member])
  {
    hide ParseValue, ParseKey, ParseMember, WsEnd, Fits, EscapeFree, Count, AreRules, Map, DefaultsIn;
    ok, offset, candidate' := false, begin, candidate;
    MemberUnfold(json, b);
    ghost var r := ParseMember(json, b);
    if r.AMember? { CandidateMore(done, r.member); }
    if key == "version" {
      if candidate.version {
        return;
      }
      candidate' := candidate.(version := true);
      ok, offset := Generator.ScanVersion(json, offset);
    } else if key == "defaults" {
      if candidate.sawDefaults {
        return;
      }
      candidate' := candidate.(sawDefaults := true);
      var defaults;
      ok, offset, defaults := ParseDefaults(json, offset, limit);
      candidate' := candidate'.(defaults := defaults);
    } else if key == "tools" {
      if candidate.tools {
        return;
      }
      candidate' := candidate.(tools := true);
      var rules;
      ok, offset, rules := ParseTools(json, offset, limit);
      candidate' := candidate'.(rules := rules);
    } else {
      ok, offset := SkipValue(json, offset, 1, limit);
    }
  }

  /** `std::sort` and `std::adjacent_find` over the rules. */
  method SortRules(rules: seq<ToolRule>) returns (ok: bool, sorted: seq<ToolRule>)
    ensures ok <==> Distinct(rules, RuleName)
    ensures sorted == Sort(rules, RuleName)
  {
    hide Distinct, Ordered, Ascending, Sort;
    sorted := Sort(rules, RuleName);
    SortOrders(rules, RuleName);
    SortDistinct(rules, RuleName);
    var k := 1;
    while k < |sorted|
      invariant 1 <= k
      invariant forall j :: 1 <= j < k && j < |sorted| ==> sorted[j - 1].name != sorted[j].name
    {
      if sorted[k - 1].name == sorted[k].name {
        EqualNeighbours(sorted, k);
        return false, sorted;
      }
      k := k + 1;
    }
    AdjacentDistinct(sorted);
    return true, sorted;
  }

  /** The checks after the document has been read. */
  method Conclude(candidate: Candidate, limit: nat, ghost done: seq<Member>) returns (output: Option<PolicyDefinition>)
    requires Admissible(done, DocumentMember(limit), DOCUMENT_KEYS) && candidate == CandidateIn(done)
    ensures output.Some? <==> IsPolicy(done, limit)
    ensures output.Some? ==> output.value == DefinitionIn(done)
  {
    hide Admissible, CandidateIn, IsPolicy, DefinitionIn, Sort, Distinct;
    DocumentDecides(done, limit);
    if !candidate.version || !candidate.sawDefaults {
      return None;
    }
    var distinct, rules := SortRules(candidate.rules);
    if !distinct {
      return None;
    }
    return Some(PolicyDefinition(candidate.defaults, rules));
  }

  method Parse(json: Bytes, config: Config) returns (output: Option<PolicyDefinition>)
    ensures output.Some? <==> Loads(json, config)
    ensures output.Some? ==> output.value == DefinitionIn(DocMembers(json, Strict).value)
  {
    hide ParseValue, ParseMembers, ParseMember, ParseKey, WsEnd, Admissible, EscapeFree, Reading, CandidateIn, Count, Find;
    hide Stuck, Passed, Refused;
    hide IsPolicy, DefinitionIn, DocMembers, DefaultsOf, RulesIn, Exceeds;
    if |json| > config.maxFileBytes {
      return None;
    }
    var limit := config.maxNestingDepth;
    var exceeds := ExceedsNesting(json, limit);
    if exceeds {
      return None;
    }
    ghost var good := DocumentMember(limit);
    var offset := SkipWhitespace(json, 0);
    NoDocument(json, Strict);
    if offset >= |json| || json[offset] != '{' {
      return None;
    }
    ghost var begin := offset;
    DocStarts(json, Strict);
    NothingRead(good, DOCUMENT_KEYS);
    NoCandidateYet();
    var candidate := Candidate(false, false, false, PolicyDefaults(Deny, Deny), []);
    ghost var b, done: seq<Member> := begin + 1, [];
    offset := SkipWhitespace(json, offset + 1);
    if offset < |json| && json[offset] == '}' {
      offset := offset + 1;
    } else {
      ghost var closed := false;
      while offset < |json|
        invariant begin < b <= |json| && offset == WsEnd(json, b) && !closed
        invariant Reading(json, begin, b, Strict, done) && Admissible(done, good, DOCUMENT_KEYS)
        invariant candidate == CandidateIn(done)
        decreases |json| - b
      {
        var ok, key, hasEscape;
        ok, offset, key, hasEscape := ScanKey(json, offset, b);
        if !ok || hasEscape {
          BadKeyRefused(json, b, done, good, DOCUMENT_KEYS);
          RefusedIsStuck(json, b, done, good, DOCUMENT_KEYS);
          DocumentRefused(json, begin, b, done, limit);
          return None;
        }
        ok, offset, candidate := ParseDocumentMember(json, offset, key, limit, candidate, b, done);
        if !ok {
          RefusedIsStuck(json, b, done, good, DOCUMENT_KEYS);
          DocumentRefused(json, begin, b, done, limit);
          return None;
        }
        PassedThen(json, b, done, good, DOCUMENT_KEYS, offset);
        offset := SkipWhitespace(json, offset);
        if offset == |json| || (json[offset] != '}' && json[offset] != ',') {
          DocumentRefused(json, begin, b, done, limit);
          return None;
        }
        MemberPasses(json, begin, b, Strict, done, good, DOCUMENT_KEYS);
        done := done + [ParseMember(json, b).member];
        if json[offset] == '}' {
          closed := true;
          break;
        }
        b := offset + 1;
        offset := SkipWhitespace(json, offset + 1);
        if offset < |json| && json[offset] == '}' {
          Generator.CommaThenBrace(json, b, done, good, DOCUMENT_KEYS);
          DocumentRefused(json, begin, b, done, limit);
          return None;
        }
      }
      if !closed {
        NoMemberLeft(json, b, done, good, DOCUMENT_KEYS);
        DocumentRefused(json, begin, b, done, limit);
      }
      if offset == |json| {
        return None;
      }
      offset := offset + 1;
      assert ParseMembers(json, begin + 1, Strict) == Members(done, offset);
    }
    offset := SkipWhitespace(json, offset);
    if offset != |json| {
      return None;
    }
    assert DocMembers(json, Strict) == Some(done);
    output := Conclude(candidate, limit, done);
  }

  lemma NoCandidateYet()
    ensures CandidateIn([]) == Candidate(false, false, false, PolicyDefaults(Deny, Deny), [])
  {
  }

  lemma DocumentRefused(s: Bytes, begin: nat, b: nat, done: seq<Member>, limit: nat)
    requires begin < |s| && BodyStart(s) == Some(begin + 1) && Reading(s, begin, b, Strict, done)
    requires WsEnd(s, begin + 1) < |s| ==> s[WsEnd(s, begin + 1)] != '}'
    requires Admissible(done, DocumentMember(limit), DOCUMENT_KEYS)
    requires Stuck(s, b, done, DocumentMember(limit), DOCUMENT_KEYS)
    ensures !Parses(s, limit)
  {
    hide ParseMembers, ParseMember, WsEnd, Admissible, DocMembers;
    DocStarts(s, Strict);
    StuckRefuses(s, begin, b, Strict, done, DocumentMember(limit), DOCUMENT_KEYS);
  }

  lemma DocumentDecides(done: seq<Member>, limit: nat)
    requires Admissible(done, DocumentMember(limit), DOCUMENT_KEYS)
    ensures var c := CandidateIn(done);
            && (IsPolicy(done, limit) <==> c.version && c.sawDefaults && Distinct(c.rules, RuleName))
            && DefinitionIn(done) == PolicyDefinition(c.defaults, Sort(c.rules, RuleName))
  {
    hide Count, Find, Admissible, Distinct, Sort;
    AtMostOnce(done, DocumentMember(limit), DOCUMENT_KEYS, "version");
    AtMostOnce(done, DocumentMember(limit), DOCUMENT_KEYS, "defaults");
  }

  // ---- deny overrides ----

  function Overridden(rules: seq<ToolRule>, name: Bytes): seq<ToolRule> {
    if rules == [] then [ToolRule(name, Deny, Deny)]
    else if rules[0].name == name then [ToolRule(name, Deny, Deny)] + rules[1..]
    else [rules[0]] + Overridden(rules[1..], name)
  }

  function AllOverridden(rules: seq<ToolRule>, denied: seq<Bytes>): seq<ToolRule>
    decreases |denied|
  {
    if denied == [] then rules
    else Overridden(AllOverridden(rules, denied[..|denied| - 1]), denied[|denied| - 1])
  }

  lemma {:induction false} OverriddenAt(rules: seq<ToolRule>, name: Bytes, k: nat)
    requires k < |rules| && rules[k].name == name && forall j :: 0 <= j < k ==> rules[j].name != name
    ensures Overridden(rules, name) == rules[k := ToolRule(name, Deny, Deny)]
    decreases k
  {
    if k > 0 {
      OverriddenAt(rules[1..], name, k - 1);
      assert rules[k := ToolRule(name, Deny, Deny)] == [rules[0]] + rules[1..][k - 1 := ToolRule(name, Deny, Deny)];
    }
  }

  lemma {:induction false} OverriddenNew(rules: seq<ToolRule>, name: Bytes)
    requires forall j :: 0 <= j < |rules| ==> rules[j].name != name
    ensures Overridden(rules, name) == rules + [ToolRule(name, Deny, Deny)]
    decreases |rules|
  {
    if rules != [] {
      OverriddenNew(rules[1..], name);
      assert rules == [rules[0]] + rules[1..];
    }
  }

  method ApplyDenyOverrides(deniedTools: seq<Bytes>, policy: PolicyDefinition) returns (result: PolicyDefinition)
    ensures result == policy.(rules := AllOverridden(policy.rules, deniedTools))
  {
    hide Overridden;
    var rules := policy.rules;
    for index := 0 to |deniedTools|
      invariant rules == AllOverridden(policy.rules, deniedTools[..index])
    {
      var deniedName := deniedTools[index];
      var at := 0;
      while at < |rules| && rules[at].name != deniedName
        invariant 0 <= at <= |rules| && forall j :: 0 <= j < at ==> rules[j].name != deniedName
      {
        at := at + 1;
      }
      assert deniedTools[..index + 1][..index] == deniedTools[..index];
      if at == |rules| {
        OverriddenNew(rules, deniedName);
        rules := rules + [ToolRule(deniedName, Deny, Deny)];
      } else {
        OverriddenAt(rules, deniedName, at);
        rules := rules[at := rules[at].(visible := Deny, callable := Deny)];
      }
    }
    assert deniedTools[..|deniedTools|] == deniedTools;
    result := policy.(rules := rules);
  }

  lemma {:induction false} OverriddenLookup(rules: seq<ToolRule>, name: Bytes, query: Bytes)
    ensures Lookup(Overridden(rules, name), query) ==
            if query == name then Some(ToolRule(name, Deny, Deny)) else Lookup(rules, query)
    ensures forall x :: x in Map(RuleName, Overridden(rules, name)) <==> x == name || x in Map(RuleName, rules)
    decreases |rules|
  {
    var r := Overridden(rules, name);
    if rules != [] {
      assert Map(RuleName, rules) == [rules[0].name] + Map(RuleName, rules[1..]);
      assert Map(RuleName, r) == [r[0].name] + Map(RuleName, r[1..]);
      if rules[0].name == name {
        assert r[1..] == rules[1..];
      } else {
        OverriddenLookup(rules[1..], name, query);
        assert r[1..] == Overridden(rules[1..], name);
      }
    }
  }

  lemma {:induction false} OverriddenDistinct(rules: seq<ToolRule>, name: Bytes)
    requires Distinct(rules, RuleName)
    ensures Distinct(Overridden(rules, name), RuleName)
    decreases |rules|
  {
    if rules != [] {
      var first, rest := rules[0], rules[1..];
      assert rules == [first] + rest;
      DistinctFirst(first, rest, RuleName);
      if first.name == name {
        DistinctFirst(ToolRule(name, Deny, Deny), rest, RuleName);
      } else {
        OverriddenDistinct(rest, name);
        OverriddenLookup(rest, name, name);
        FreshIsNotIn(first, rest, RuleName);
        FreshIsNotIn(first, Overridden(rest, name), RuleName);
        DistinctFirst(first, Overridden(rest, name), RuleName);
      }
    }
  }

  /** DENY OVERRIDES: exactly the named tools become denied, every other lookup is unchanged, and
      names stay distinct. */
  lemma {:induction false} OverridesMeaning(rules: seq<ToolRule>, denied: seq<Bytes>, query: Bytes)
    ensures Lookup(AllOverridden(rules, denied), query) ==
            if query in denied then Some(ToolRule(query, Deny, Deny)) else Lookup(rules, query)
    ensures Distinct(rules, RuleName) ==> Distinct(AllOverridden(rules, denied), RuleName)
    decreases |denied|
  {
    hide Overridden, Lookup, Distinct;
    if denied != [] {
      var before, last := denied[..|denied| - 1], denied[|denied| - 1];
      assert denied == before + [last];
      OverridesMeaning(rules, before, query);
      OverriddenLookup(AllOverridden(rules, before), last, query);
      if Distinct(rules, RuleName) { OverriddenDistinct(AllOverridden(rules, before), last); }
    }
  }

  // ---- what a loaded policy says ----

  /** The word for an access. */
  function AccessWord(access: Access): Value {
    Str(if access == Allow then "allow" else "deny")
  }

  /** The object is written for this rule. */
  predicate SaysRule(v: Value, rule: ToolRule) {
    && v.Obj? && Find(v.members, "name") == Some(Str(rule.name))
    && Find(v.members, "visibility") == Some(AccessWord(rule.visible))
    && Find(v.members, "invocation") == Some(AccessWord(rule.callable))
  }

  lemma RuleSays(v: Value, rule: ToolRule, limit: nat)
    requires IsRule(v, limit)
    ensures SaysRule(v, rule) <==> rule == RuleIn(v.members)
  {
    hide Count, Find, EscapeFree, Fits;
    AdmissibleFind(v.members, ToolMember(limit), TOOL_KEYS, "name");
    AdmissibleFind(v.members, ToolMember(limit), TOOL_KEYS, "visibility");
    AdmissibleFind(v.members, ToolMember(limit), TOOL_KEYS, "invocation");
    Words();
  }

  lemma Words()
    ensures "allow" != "deny" && "name" != "visibility" && "name" != "invocation"
  {
    assert |"allow"| == 5 && |"deny"| == 4 && |"name"| == 4 && |"visibility"| == 10 && |"invocation"| == 10;
  }

  lemma DefaultsSay(v: Value, limit: nat)
    requires AreDefaults(v, limit)
    ensures var defaults := DefaultsIn(v.members);
            && Find(v.members, "visibility") == Some(AccessWord(defaults.visible))
            && Find(v.members, "invocation") == Some(AccessWord(defaults.callable))
  {
    hide Count, Find, EscapeFree, Fits;
    AdmissibleFind(v.members, DefaultsMember(limit), DEFAULTS_KEYS, "visibility");
    AdmissibleFind(v.members, DefaultsMember(limit), DEFAULTS_KEYS, "invocation");
    Words();
  }

  lemma RulesSay(items: seq<Item>, limit: nat)
    requires AreRules(items, limit)
    ensures var rules := Sort(Map(RuleOf, items), RuleName);
            && |rules| == |items|
            && forall rule :: rule in rules <==> exists k :: 0 <= k < |items| && SaysRule(items[k].value, rule)
  {
    hide IsRule, SaysRule, RuleIn, Sort;
    var all := Map(RuleOf, items);
    SortPermutes(all, RuleName);
    forall rule ensures rule in all <==> exists k :: 0 <= k < |items| && SaysRule(items[k].value, rule) {
      forall k | 0 <= k < |items| ensures SaysRule(items[k].value, rule) <==> rule == all[k] {
        RuleIsObject(items[k], limit);
        RuleSays(items[k].value, rule, limit);
      }
      if rule in all { var k := InIndex(rule, all); }
    }
  }

  /** LOADED EXACTLY: the defaults are the document's two words, and the rules are, in name order,
      those that its tools write down. */
  lemma LoadedExactly(json: Bytes, config: Config) returns (defaults: Value, items: seq<Item>)
    requires Loads(json, config)
    ensures var members := DocMembers(json, Strict).value;
            var definition := DefinitionIn(members);
            && Find(members, "defaults") == Some(defaults) && defaults.Obj?
            && Find(defaults.members, "visibility") == Some(AccessWord(definition.defaults.visible))
            && Find(defaults.members, "invocation") == Some(AccessWord(definition.defaults.callable))
            && (match Find(members, "tools") case Some(v) => v.Arr? && v.items == items case None => items == [])
            && Ascending(definition.rules, RuleName) && |definition.rules| == |items|
            && forall rule :: rule in definition.rules <==>
                 exists k :: 0 <= k < |items| && SaysRule(items[k].value, rule)
  {
    hide Count, Find, DocMembers, Exceeds, AreDefaults, AreRules, DefaultsIn, Sort, SaysRule, Fits, EscapeFree;
    var members, limit := DocMembers(json, Strict).value, config.maxNestingDepth;
    AdmissibleFind(members, DocumentMember(limit), DOCUMENT_KEYS, "defaults");
    defaults := Find(members, "defaults").value;
    assert AreDefaults(defaults, limit);
    DefaultsAreObject(defaults, limit);
    DefaultsSay(defaults, limit);
    items := [];
    if Find(members, "tools").Some? {
      AdmissibleFind(members, DocumentMember(limit), DOCUMENT_KEYS, "tools");
      items := Find(members, "tools").value.items;
    }
    NoRules(limit);
    RulesSay(items, limit);
    SortAscends(RulesIn(members), RuleName);
  }

  lemma NoRules(limit: nat)
    ensures AreRules([], limit) && Map(RuleOf, []) == []
  {
  }

  lemma DefaultsAreObject(v: Value, limit: nat)
    requires AreDefaults(v, limit)
    ensures v.Obj?
  {
  }
}

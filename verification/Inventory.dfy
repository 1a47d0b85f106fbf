/** `parse_tools_list_response` (src/tool_inventory.cpp): the tools of a `tools/list` response,
    checked, canonicalized and sorted by name.

    The predicates say what a tool, a tools array, a result and a response have to look like as
    trees; each parsing loop accepts exactly those. */
module Inventory {
  import opened Bytes
  import opened Json
  import opened Scanner
  import opened ScannerGrammar
  import opened Documents
  import JsonRpc
  import opened Sorting
  import opened Objects
  import opened Canonicalizer

  datatype InventoryLimits = InventoryLimits(
    maxMessageBytes: nat, maxNestingDepth: nat, maxTools: nat,
    maxToolNameBytes: nat, maxToolDescriptionBytes: nat, maxToolSchemaBytes: nat)

  /** The last three are JSON texts; empty means absent. */
  datatype ToolEntry = ToolEntry(name: Bytes, descriptionJson: Bytes, inputSchemaJson: Bytes, annotationsJson: Bytes)

  datatype ToolInventory = ToolInventory(downstreamExecutable: Bytes, tools: seq<ToolEntry>)

  const NO_ENTRY := ToolEntry([], [], [], [])

  // ---- a tool ----

  const TOOL_KEYS: set<Bytes> := {"name", "description", "inputSchema", "annotations"}

  ghost predicate GoodSchema(v: Value, limits: InventoryLimits) {
    Canonicalizes(v, 4, limits.maxNestingDepth) && |CanonicalText(v)| <= limits.maxToolSchemaBytes
  }

  predicate IsToolName(v: Value, maxBytes: nat) {
    v.Str? && EscapeFree(v.raw) && 0 < |v.raw| <= maxBytes
  }

  predicate IsDescription(v: Value, maxBytes: nat) {
    v.Str? && |v.raw| <= maxBytes
  }

  ghost predicate GoodToolMember(m: Member, limits: InventoryLimits) {
    && EscapeFree(m.key)
    && if m.key == "name" then
         IsToolName(m.value, limits.maxToolNameBytes)
       else if m.key == "description" then
         IsDescription(m.value, limits.maxToolDescriptionBytes)
       else if m.key == "inputSchema" || m.key == "annotations" then
         GoodSchema(m.value, limits)
       else
         Fits(m.value, 4, limits.maxNestingDepth)
  }

  ghost function ToolMember(limits: InventoryLimits): Member -> bool {
    m => GoodToolMember(m, limits)
  }

  ghost predicate IsTool(v: Value, limits: InventoryLimits) {
    AdmissibleObject(v, ToolMember(limits), TOOL_KEYS) && Count(v.members, "name") == 1
  }

  function RawOf(v: Option<Value>): Bytes {
    if v.Some? && v.value.Str? then v.value.raw else []
  }

  function TextOf(v: Option<Value>): Bytes {
    if v.Some? then Text(v.value) else []
  }

  function CanonicalOf(v: Option<Value>): Bytes {
    if v.Some? then CanonicalText(v.value) else []
  }

  /** What is kept of a tool. */
  function EntryFrom(members: seq<Member>): ToolEntry {
    ToolEntry(
      RawOf(Find(members, "name")), TextOf(Find(members, "description")),
      CanonicalOf(Find(members, "inputSchema")), CanonicalOf(Find(members, "annotations")))
  }

  datatype ToolSeen = ToolSeen(name: bool, description: bool, inputSchema: bool, annotations: bool)

  function SeenIn(members: seq<Member>): ToolSeen {
    ToolSeen(
      Count(members, "name") > 0, Count(members, "description") > 0,
      Count(members, "inputSchema") > 0, Count(members, "annotations") > 0)
  }

  lemma EntryMore(done: seq<Member>, m: Member)
    ensures var now, was := SeenIn(done + [m]), SeenIn(done);
            && now.name == (was.name || m.key == "name")
            && now.description == (was.description || m.key == "description")
            && now.inputSchema == (was.inputSchema || m.key == "inputSchema")
            && now.annotations == (was.annotations || m.key == "annotations")
    ensures var now, was := EntryFrom(done + [m]), EntryFrom(done);
            && now.name == (if !SeenIn(done).name && m.key == "name" then RawOf(Some(m.value)) else was.name)
            && now.descriptionJson ==
               (if !SeenIn(done).description && m.key == "description" then Text(m.value) else was.descriptionJson)
            && now.inputSchemaJson ==
               (if !SeenIn(done).inputSchema && m.key == "inputSchema" then CanonicalText(m.value) else was.inputSchemaJson)
            && now.annotationsJson ==
               (if !SeenIn(done).annotations && m.key == "annotations" then CanonicalText(m.value) else was.annotationsJson)
  {
    hide Count, Find, Text, CanonicalText;
    CountLast(done, m, "name");
    CountLast(done, m, "description");
    CountLast(done, m, "inputSchema");
    CountLast(done, m, "annotations");
  }

  method ParseName(message: Bytes, begin: nat, maxBytes: nat) returns (ok: bool, offset: nat, name: Bytes)
    requires begin <= |message|
    ensures ok <==> ParseValue(message, begin).Got? && IsToolName(ParseValue(message, begin).value, maxBytes)
    ensures ok ==> offset == ParseValue(message, begin).end && name == ParseValue(message, begin).value.raw
  {
    hide ParseValue, StringEnd, EscapeFree;
    ValueKinds(message, begin);
    ok, offset, name := false, begin, [];
    if offset >= |message| || message[offset] != '"' {
      return;
    }
    var hasEscape;
    ok, offset, name, hasEscape := ScanString(message, offset);
    if !ok || hasEscape || name == [] || |name| > maxBytes {
      return false, offset, name;
    }
  }

  method ParseDescription(message: Bytes, begin: nat, maxBytes: nat) returns (ok: bool, offset: nat, text: Bytes)
    requires begin <= |message|
    ensures ok <==> ParseValue(message, begin).Got? && IsDescription(ParseValue(message, begin).value, maxBytes)
    ensures ok ==> offset == ParseValue(message, begin).end && text == Text(ParseValue(message, begin).value)
  {
    hide ParseValue, StringEnd, EscapeFree, Text;
    ValueKinds(message, begin);
    ok, offset, text := false, begin, [];
    if offset >= |message| || message[offset] != '"' {
      return;
    }
    var contents, hasEscape;
    ok, offset, contents, hasEscape := ScanString(message, offset);
    if !ok || |contents| > maxBytes {
      return false, offset, text;
    }
    ValueSound(message, begin);
    text := message[begin..offset];
  }

  method ParseToolMember(message: Bytes, begin: nat, key: Bytes, limits: InventoryLimits,
                         seen: ToolSeen, entry: ToolEntry, ghost b: nat, ghost done: seq<Member>)
    returns (ok: bool, offset: nat, seen': ToolSeen, entry': ToolEntry)
    requires b <= |message| && ParseKey(message, b).AKey? && EscapeFree(key)
    requires key == ParseKey(message, b).key && begin == ParseKey(message, b).end
    requires seen == SeenIn(done) && entry == EntryFrom(done)
    ensures !ok ==> Refused(message, b, done, ToolMember(limits), TOOL_KEYS)
    ensures ok ==> Passed(message, b, done, ToolMember(limits), TOOL_KEYS, offset)
    ensures ok && ParseMember(message, b).AMember? ==>
              var after := done + [ParseMember(message, b).member];
              seen' == SeenIn(after) && entry' == EntryFrom(after)
  {
    hide ParseValue, ParseKey, ParseMember, WsEnd, EntryFrom, Text, CanonicalText, Fits, GoodSchema, EscapeFree, Count;
    hide IsDescription, Canonicalizes, Outcome;
    ok, offset, seen', entry' := false, begin, seen, entry;
    MemberUnfold(message, b);
    ghost var r := ParseMember(message, b);
    if r.AMember? { EntryMore(done, r.member); }
    if key == "name" {
      if seen.name {
        return;
      }
      seen' := seen.(name := true);
      var name;
      ok, offset, name := ParseName(message, offset, limits.maxToolNameBytes);
      entry' := entry.(name := name);
    } else if key == "description" {
      if seen.description {
        return;
      }
      seen' := seen.(description := true);
      var text;
      ok, offset, text := ParseDescription(message, offset, limits.maxToolDescriptionBytes);
      entry' := entry.(descriptionJson := text);
    } else if key == "inputSchema" {
      if seen.inputSchema {
        return;
      }
      seen' := seen.(inputSchema := true);
      var stored;
      ok, offset, stored := CaptureCanonicalValue(message, offset, 4, limits.maxNestingDepth, limits.maxToolSchemaBytes);
      SchemaCaptured(message, b, begin, limits, ok, offset, stored);
      entry' := entry.(inputSchemaJson := stored);
    } else if key == "annotations" {
      if seen.annotations {
        return;
      }
      seen' := seen.(annotations := true);
      var stored;
      ok, offset, stored := CaptureCanonicalValue(message, offset, 4, limits.maxNestingDepth, limits.maxToolSchemaBytes);
      SchemaCaptured(message, b, begin, limits, ok, offset, stored);
      entry' := entry.(annotationsJson := stored);
    } else {
      ok, offset := SkipValue(message, offset, 4, limits.maxNestingDepth);
    }
  }

  /** What the canonicalizer's outcome says about the member. */
  lemma SchemaCaptured(s: Bytes, b: nat, v: nat, limits: InventoryLimits, ok: bool, offset: nat, stored: Bytes)
    requires b <= |s| && ParseKey(s, b).AKey? && v == ParseKey(s, b).end
    requires Outcome(s, WsEnd(s, v), 4, limits.maxNestingDepth, [], limits.maxToolSchemaBytes, ok, offset, stored)
    ensures match ParseMember(s, b)
            case NoMember => ok ==> offset == |s|
            case AMember(m, e) =>
              && (ok <==> GoodSchema(m.value, limits))
              && (ok ==> offset <= |s| && e == WsEnd(s, offset) && stored == CanonicalText(m.value))
  {
    hide ParseValue, ParseKey, WsEnd, Canonicalizes, CanonicalText;
    KeyEnds(s, b);
    MemberUnfold(s, b);
    if ParseMember(s, b).AMember? {
      var text := CanonicalText(ParseMember(s, b).member.value);
      assert [] + text == text;
    }
  }

  method ParseToolObject(message: Bytes, begin: nat, limits: InventoryLimits)
    returns (ok: bool, offset: nat, entry: ToolEntry)
    requires begin <= |message|
    ensures ok <==> ParseValue(message, begin).Got? && IsTool(ParseValue(message, begin).value, limits)
    ensures ok ==> offset == ParseValue(message, begin).end && entry == EntryFrom(ParseValue(message, begin).value.members)
  {
    hide ParseValue, ParseMembers, ParseMember, ParseKey, WsEnd, EntryFrom, Admissible, EscapeFree, Reading;
    hide Stuck, Passed, Refused;
    ok, offset, entry := false, begin, NO_ENTRY;
    if offset >= |message| || message[offset] != '{' {
      NoObjectHere(message, begin);
      return;
    }
    ObjectStarts(message, begin);
    NothingRead(ToolMember(limits), TOOL_KEYS);
    NoEntryYet();
    offset := SkipWhitespace(message, begin + 1);
    if offset < |message| && message[offset] == '}' {
      return false, offset + 1, entry;
    }
    var seen := ToolSeen(false, false, false, false);
    ghost var b, done: seq<Member> := begin + 1, [];
    while offset < |message|
      invariant begin < b <= |message| && offset == WsEnd(message, b)
      invariant Reading(message, begin, b, Strict, done) && Admissible(done, ToolMember(limits), TOOL_KEYS)
      invariant seen == SeenIn(done) && entry == EntryFrom(done)
      decreases |message| - b
    {
      var key, hasEscape;
      ok, offset, key, hasEscape := ScanKey(message, offset, b);
      if !ok || hasEscape {
        BadKeyRefused(message, b, done, ToolMember(limits), TOOL_KEYS);
        RefusedIsStuck(message, b, done, ToolMember(limits), TOOL_KEYS);
        StuckRefuses(message, begin, b, Strict, done, ToolMember(limits), TOOL_KEYS);
        return false, offset, entry;
      }
      ok, offset, seen, entry := ParseToolMember(message, offset, key, limits, seen, entry, b, done);
      if !ok {
        RefusedIsStuck(message, b, done, ToolMember(limits), TOOL_KEYS);
        StuckRefuses(message, begin, b, Strict, done, ToolMember(limits), TOOL_KEYS);
        return;
      }
      PassedThen(message, b, done, ToolMember(limits), TOOL_KEYS, offset);
      offset := SkipWhitespace(message, offset);
      if offset == |message| {
        StuckRefuses(message, begin, b, Strict, done, ToolMember(limits), TOOL_KEYS);
        return false, offset, entry;
      }
      if message[offset] != '}' && message[offset] != ',' {
        StuckRefuses(message, begin, b, Strict, done, ToolMember(limits), TOOL_KEYS);
        return false, offset, entry;
      }
      MemberPasses(message, begin, b, Strict, done, ToolMember(limits), TOOL_KEYS);
      done := done + [ParseMember(message, b).member];
      if message[offset] == '}' {
        AtMostOnce(done, ToolMember(limits), TOOL_KEYS, "name");
        return seen.name, offset + 1, entry;
      }
      b := offset + 1;
      offset := SkipWhitespace(message, offset + 1);
    }
    NoMemberLeft(message, b, done, ToolMember(limits), TOOL_KEYS);
    StuckRefuses(message, begin, b, Strict, done, ToolMember(limits), TOOL_KEYS);
    return false, offset, entry;
  }

  lemma NoEntryYet()
    ensures EntryFrom([]) == NO_ENTRY && SeenIn([]) == ToolSeen(false, false, false, false)
  {
  }

  // ---- the tools ----

  function EntryName(entry: ToolEntry): Bytes {
    entry.name
  }

  function EntriesFrom(items: seq<Item>): (r: seq<ToolEntry>)
    requires forall k :: 0 <= k < |items| ==> items[k].value.Obj?
    ensures |r| == |items|
    ensures forall k :: 0 <= k < |r| ==> r[k] == EntryFrom(items[k].value.members)
  {
    seq(|items|, k requires 0 <= k < |items| => EntryFrom(items[k].value.members))
  }

  ghost predicate AreTools(items: seq<Item>, limits: InventoryLimits) {
    && |items| <= limits.maxTools
    && (forall k :: 0 <= k < |items| ==> IsTool(items[k].value, limits))
    && Distinct(EntriesFrom(items), EntryName)
  }

  ghost predicate IsToolsArray(v: Value, limits: InventoryLimits) {
    v.Arr? && AreTools(v.items, limits)
  }

  /** One more tool: it has to be one, there has to be room, and its name has to be new. */
  lemma ToolsMore(done: seq<Item>, item: Item, limits: InventoryLimits)
    requires AreTools(done, limits)
    ensures AreTools(done + [item], limits) <==>
              && |done| < limits.maxTools && IsTool(item.value, limits)
              && forall k :: 0 <= k < |done| ==> EntriesFrom(done)[k].name != EntryFrom(item.value.members).name
  {
    hide IsTool, EntryFrom;
    var all := done + [item];
    assert all[|done|] == item && forall k :: 0 <= k < |done| ==> all[k] == done[k];
    assert IsTool(item.value, limits) ==> item.value.Obj? by { ToolIsObject(item.value, limits); }
    forall k | 0 <= k < |done| ensures done[k].value.Obj? { ToolIsObject(done[k].value, limits); }
    if AreTools(all, limits) {
      forall k | 0 <= k < |all| ensures all[k].value.Obj? { ToolIsObject(all[k].value, limits); }
      var entries := EntriesFrom(all);
      forall k | 0 <= k < |done| ensures EntriesFrom(done)[k].name != EntryFrom(item.value.members).name {
        assert EntryName(entries[k]) != EntryName(entries[|done|]);
      }
    }
  }

  lemma ToolIsObject(v: Value, limits: InventoryLimits)
    ensures IsTool(v, limits) ==> v.Obj?
  {
  }

  lemma ToolsPart(done: seq<Item>, rest: seq<Item>, limits: InventoryLimits)
    requires AreTools(done + rest, limits)
    ensures AreTools(done, limits)
  {
    hide IsTool, EntryFrom;
    var all := done + rest;
    forall k | 0 <= k < |all| ensures all[k].value.Obj? { ToolIsObject(all[k].value, limits); }
    forall k | 0 <= k < |done| ensures IsTool(done[k].value, limits) { assert all[k] == done[k]; }
    forall k | 0 <= k < |done| ensures done[k].value.Obj? { ToolIsObject(done[k].value, limits); }
    var entries := EntriesFrom(all);
    forall i, j | 0 <= i < j < |done| ensures EntryName(EntriesFrom(done)[i]) != EntryName(EntriesFrom(done)[j]) {
      assert all[i] == done[i] && all[j] == done[j];
      assert EntryName(entries[i]) != EntryName(entries[j]);
    }
  }

  lemma ToolsMap(done: seq<Item>, item: Item)
    requires item.value.Obj? && forall k :: 0 <= k < |done| ==> done[k].value.Obj?
    ensures EntriesFrom(done + [item]) == EntriesFrom(done) + [EntryFrom(item.value.members)]
  {
    hide EntryFrom;
  }

  /** A loop that stops there is right to refuse the whole array. */
  lemma ToolsRefused(s: Bytes, begin: nat, b: nat, done: seq<Item>, limits: InventoryLimits)
    requires begin < |s| && s[begin] == '[' && ReadingItems(s, begin, b, done) && AreTools(done, limits)
    requires WsEnd(s, begin + 1) < |s| ==> s[WsEnd(s, begin + 1)] != ']'
    requires match ParseItem(s, b)
             case NoItem => true
             case AnItem(item, e) =>
               !AreTools(done + [item], limits) || e == |s| || (s[e] != ',' && s[e] != ']')
    ensures ParseValue(s, begin).Got? ==> !IsToolsArray(ParseValue(s, begin).value, limits)
  {
    hide ParseValue, ParseItem, ParseItems, WsEnd, AreTools;
    ArrayStarts(s, begin);
    if ParseItems(s, begin + 1).Items? {
      var rest := ItemsSplit(s, begin, b, done);
      var item := ParseItem(s, b).item;
      if AreTools(done + [item] + rest, limits) { ToolsPart(done + [item], rest, limits); }
    }
  }

  method ParseToolsArray(message: Bytes, begin: nat, limits: InventoryLimits)
    returns (ok: bool, offset: nat, tools: seq<ToolEntry>)
    requires begin <= |message|
    ensures ok <==> ParseValue(message, begin).Got? && IsToolsArray(ParseValue(message, begin).value, limits)
    ensures ok ==> offset == ParseValue(message, begin).end && tools == EntriesFrom(ParseValue(message, begin).value.items)
  {
    hide ParseValue, ParseItems, ParseItem, WsEnd, EntryFrom, AreTools, IsTool, ReadingItems;
    ok, offset, tools := false, begin, [];
    if offset >= |message| || message[offset] != '[' {
      NoArrayHere(message, begin);
      return;
    }
    ArrayStarts(message, begin);
    NoToolsYet(limits);
    offset := SkipWhitespace(message, begin + 1);
    if offset < |message| && message[offset] == ']' {
      return true, offset + 1, tools;
    }
    ghost var b, done: seq<Item> := begin + 1, [];
    while offset < |message|
      invariant begin < b <= |message| && offset == WsEnd(message, b)
      invariant ReadingItems(message, begin, b, done) && AreTools(done, limits)
      invariant (forall k :: 0 <= k < |done| ==> done[k].value.Obj?) && tools == EntriesFrom(done)
      decreases |message| - b
    {
      ItemUnfold(message, b);
      if ParseItem(message, b).AnItem? { ToolsMore(done, ParseItem(message, b).item, limits); }
      if |tools| >= limits.maxTools {
        ToolsRefused(message, begin, b, done, limits);
        return false, offset, tools;
      }
      var entry, isNew;
      ok, offset, entry := ParseToolObject(message, offset, limits);
      if !ok {
        ToolsRefused(message, begin, b, done, limits);
        return;
      }
      isNew := IsNewName(tools, entry.name);
      if !isNew {
        ToolsRefused(message, begin, b, done, limits);
        return false, offset, tools;
      }
      ghost var item := ParseItem(message, b).item;
      ToolIsObject(item.value, limits);
      ToolsMap(done, item);
      ItemPasses(message, begin, b, done);
      offset := SkipWhitespace(message, offset);
      if offset == |message| {
        ToolsRefused(message, begin, b, done, limits);
        return false, offset, tools;
      }
      tools := tools + [entry];
      if message[offset] == ']' {
        return true, offset + 1, tools;
      }
      if message[offset] != ',' {
        ToolsRefused(message, begin, b, done, limits);
        return false, offset, tools;
      }
      done := done + [item];
      b := offset + 1;
      offset := SkipWhitespace(message, offset + 1);
    }
    NoItemAtEnd(message, b);
    ToolsRefused(message, begin, b, done, limits);
    return false, offset, tools;
  }

  lemma NoToolsYet(limits: InventoryLimits)
    ensures AreTools([], limits) && EntriesFrom([]) == []
  {
  }

  method IsNewName(tools: seq<ToolEntry>, name: Bytes) returns (isNew: bool)
    ensures isNew <==> forall k :: 0 <= k < |tools| ==> tools[k].name != name
  {
    for index := 0 to |tools|
      invariant forall k :: 0 <= k < index ==> tools[k].name != name
    {
      if tools[index].name == name {
        return false;
      }
    }
    return true;
  }

  // ---- the result ----

  const RESULT_KEYS: set<Bytes> := {"tools"}

  ghost predicate GoodResultMember(m: Member, limits: InventoryLimits) {
    && EscapeFree(m.key)
    && if m.key == "tools" then IsToolsArray(m.value, limits) else Fits(m.value, 2, limits.maxNestingDepth)
  }

  ghost function ResultMember(limits: InventoryLimits): Member -> bool {
    m => GoodResultMember(m, limits)
  }

  ghost predicate IsResult(v: Value, limits: InventoryLimits) {
    AdmissibleObject(v, ResultMember(limits), RESULT_KEYS) && Count(v.members, "tools") == 1
  }

  /** The tools of a list of members, if it has a `tools` array of objects. */
  function ToolsIn(members: seq<Member>): seq<ToolEntry> {
    var v := Find(members, "tools");
    if v.Some? && v.value.Arr? && forall k :: 0 <= k < |v.value.items| ==> v.value.items[k].value.Obj?
    then EntriesFrom(v.value.items) else []
  }

  lemma ToolsInMore(done: seq<Member>, m: Member, limits: InventoryLimits)
    ensures Count(done + [m], "tools") == Count(done, "tools") + One(m, "tools")
    ensures m.key != "tools" ==> ToolsIn(done + [m]) == ToolsIn(done)
    ensures m.key == "tools" && Count(done, "tools") == 0 && IsToolsArray(m.value, limits) ==>
              && (forall k :: 0 <= k < |m.value.items| ==> m.value.items[k].value.Obj?)
              && ToolsIn(done + [m]) == EntriesFrom(m.value.items)
  {
    hide IsTool, EntryFrom, Count, Find;
    CountLast(done, m, "tools");
    if IsToolsArray(m.value, limits) {
      forall k | 0 <= k < |m.value.items| ensures m.value.items[k].value.Obj? { ToolIsObject(m.value.items[k].value, limits); }
    }
  }

  lemma NoToolsIn()
    ensures ToolsIn([]) == []
  {
  }

  method ParseResultMember(message: Bytes, begin: nat, key: Bytes, limits: InventoryLimits,
                           sawTools: bool, tools: seq<ToolEntry>, ghost b: nat, ghost done: seq<Member>)
    returns (ok: bool, offset: nat, sawTools': bool, tools': seq<ToolEntry>)
    requires b <= |message| && ParseKey(message, b).AKey? && EscapeFree(key)
    requires key == ParseKey(message, b).key && begin == ParseKey(message, b).end
    requires sawTools == (Count(done, "tools") > 0) && tools == ToolsIn(done)
    ensures !ok ==> Refused(message, b, done, ResultMember(limits), RESULT_KEYS)
    ensures ok ==> Passed(message, b, done, ResultMember(limits), RESULT_KEYS, offset)
    ensures ok && ParseMember(message, b).AMember? ==>
              var after := done + [ParseMember(message, b).member];
              sawTools' == (Count(after, "tools") > 0) && tools' == ToolsIn(after)
  {
    hide ParseValue, ParseKey, ParseMember, WsEnd, Fits, EscapeFree, Count, AreTools, ToolsIn, EntryFrom;
    ok, offset, sawTools', tools' := false, begin, sawTools, tools;
    MemberUnfold(message, b);
    ghost var r := ParseMember(message, b);
    if r.AMember? { ToolsInMore(done, r.member, limits); }
    if key == "tools" {
      if sawTools {
        return;
      }
      sawTools' := true;
      if offset >= |message| || message[offset] != '[' {
        NoArrayHere(message, offset);
        return;
      }
      ok, offset, tools' := ParseToolsArray(message, offset, limits);
    } else {
      ok, offset := SkipValue(message, offset, 2, limits.maxNestingDepth);
    }
  }

  method ParseResultObject(message: Bytes, begin: nat, limits: InventoryLimits)
    returns (ok: bool, offset: nat, tools: seq<ToolEntry>)
    requires begin <= |message|
    ensures ok <==> ParseValue(message, begin).Got? && IsResult(ParseValue(message, begin).value, limits)
    ensures ok ==> offset == ParseValue(message, begin).end && tools == ToolsIn(ParseValue(message, begin).value.members)
  {
    hide ParseValue, ParseMembers, ParseMember, ParseKey, WsEnd, Admissible, EscapeFree, Reading, AreTools, ToolsIn, EntryFrom;
    hide Stuck, Passed, Refused;
    hide Fits, Count;
    ok, offset, tools := false, begin, [];
    if offset >= |message| || message[offset] != '{' {
      NoObjectHere(message, begin);
      return;
    }
    ghost var good := ResultMember(limits);
    ObjectStarts(message, begin);
    NothingRead(good, RESULT_KEYS);
    NoToolsIn();
    NothingCounted("tools");
    var sawTools := false;
    offset := SkipWhitespace(message, begin + 1);
    if offset < |message| && message[offset] == '}' {
      return false, offset + 1, tools;
    }
    ghost var b, done: seq<Member> := begin + 1, [];
    while offset < |message|
      invariant begin < b <= |message| && offset == WsEnd(message, b)
      invariant Reading(message, begin, b, Strict, done) && Admissible(done, good, RESULT_KEYS)
      invariant sawTools == (Count(done, "tools") > 0) && tools == ToolsIn(done)
      decreases |message| - b
    {
      var key, hasEscape;
      ok, offset, key, hasEscape := ScanKey(message, offset, b);
      if !ok || hasEscape {
        BadKeyRefused(message, b, done, good, RESULT_KEYS);
        RefusedIsStuck(message, b, done, good, RESULT_KEYS);
        StuckRefuses(message, begin, b, Strict, done, good, RESULT_KEYS);
        return false, offset, tools;
      }
      ok, offset, sawTools, tools := ParseResultMember(message, offset, key, limits, sawTools, tools, b, done);
      if !ok {
        RefusedIsStuck(message, b, done, good, RESULT_KEYS);
        StuckRefuses(message, begin, b, Strict, done, good, RESULT_KEYS);
        return;
      }
      PassedThen(message, b, done, good, RESULT_KEYS, offset);
      offset := SkipWhitespace(message, offset);
      if offset == |message| {
        StuckRefuses(message, begin, b, Strict, done, good, RESULT_KEYS);
        return false, offset, tools;
      }
      if message[offset] != '}' && message[offset] != ',' {
        StuckRefuses(message, begin, b, Strict, done, good, RESULT_KEYS);
        return false, offset, tools;
      }
      MemberPasses(message, begin, b, Strict, done, good, RESULT_KEYS);
      done := done + [ParseMember(message, b).member];
      if message[offset] == '}' {
        AtMostOnce(done, good, RESULT_KEYS, "tools");
        return sawTools, offset + 1, tools;
      }
      b := offset + 1;
      offset := SkipWhitespace(message, offset + 1);
    }
    NoMemberLeft(message, b, done, good, RESULT_KEYS);
    StuckRefuses(message, begin, b, Strict, done, good, RESULT_KEYS);
    return false, offset, tools;
  }

  lemma NothingCounted(key: Bytes)
    ensures Count([], key) == 0 && Find([], key) == None
  {
  }

  // ---- the response ----

  const RESPONSE_KEYS: set<Bytes> := {"jsonrpc", "id", "method", "result", "error"}

  ghost predicate GoodResponseMember(m: Member, limits: InventoryLimits) {
    && EscapeFree(m.key)
    && if m.key == "jsonrpc" then m.value == Str("2.0")
       else if m.key == "id" then JsonRpc.IsId(m.value)
       else if m.key == "method" then m.value.Str?
       else if m.key == "result" then IsResult(m.value, limits)
       else Fits(m.value, 1, limits.maxNestingDepth)
  }

  ghost function ResponseMember(limits: InventoryLimits): Member -> bool {
    m => GoodResponseMember(m, limits)
  }

  /** A complete `tools/list` response to the request with this id. */
  ghost predicate IsResponse(members: seq<Member>, expectedIdJson: Bytes, limits: InventoryLimits) {
    && Admissible(members, ResponseMember(limits), RESPONSE_KEYS)
    && Count(members, "jsonrpc") == 1 && Count(members, "method") == 0
    && Count(members, "id") == 1 && TextOf(Find(members, "id")) == expectedIdJson
    && Count(members, "result") == 1 && Count(members, "error") == 0
  }

  function ResultTools(members: seq<Member>): seq<ToolEntry> {
    var v := Find(members, "result");
    if v.Some? && v.value.Obj? then ToolsIn(v.value.members) else []
  }

  function InventoryFrom(members: seq<Member>, executable: Bytes): ToolInventory {
    ToolInventory(executable, Sort(ResultTools(members), EntryName))
  }

  /** The accepted responses; an object that ends after a member comma is taken too. */
  ghost predicate Accepts(message: Bytes, expectedIdJson: Bytes, limits: InventoryLimits) {
    && |message| <= limits.maxMessageBytes
    && DocMembers(message, OpenEnd).Some? && IsResponse(DocMembers(message, OpenEnd).value, expectedIdJson, limits)
  }

  datatype Response = Response(jsonrpc: bool, id: bool, method': bool, result: bool, error: bool,
                               idJson: Bytes, tools: seq<ToolEntry>)

  function ResponseIn(members: seq<Member>): Response {
    Response(
      Count(members, "jsonrpc") > 0, Count(members, "id") > 0, Count(members, "method") > 0,
      Count(members, "result") > 0, Count(members, "error") > 0,
      TextOf(Find(members, "id")), ResultTools(members))
  }

  lemma SeenCounts(done: seq<Member>)
    ensures var r := ResponseIn(done);
            && r.jsonrpc == (Count(done, "jsonrpc") > 0) && r.method' == (Count(done, "method") > 0)
            && r.id == (Count(done, "id") > 0) && r.result == (Count(done, "result") > 0)
            && r.error == (Count(done, "error") > 0)
  {
    hide Count, Find;
  }

  lemma ResponseMore(done: seq<Member>, m: Member)
    ensures var now, was := ResponseIn(done + [m]), ResponseIn(done);
            && now.jsonrpc == (was.jsonrpc || m.key == "jsonrpc") && now.id == (was.id || m.key == "id")
            && now.method' == (was.method' || m.key == "method") && now.result == (was.result || m.key == "result")
            && now.error == (was.error || m.key == "error")
            && now.idJson == (if !was.id && m.key == "id" then Text(m.value) else was.idJson)
            && now.tools == (if !was.result && m.key == "result" && m.value.Obj? then ToolsIn(m.value.members) else was.tools)
  {
    hide Count, Find, Text, ToolsIn;
    CountLast(done, m, "jsonrpc");
    CountLast(done, m, "id");
    CountLast(done, m, "method");
    CountLast(done, m, "result");
    CountLast(done, m, "error");
  }

  /** The statements that take an id: a string, `null` or a number. */
  method ScanId(message: Bytes, begin: nat) returns (ok: bool, offset: nat, idJson: Bytes)
    requires begin <= |message|
    ensures ok <==> ParseValue(message, begin).Got? && JsonRpc.IsId(ParseValue(message, begin).value)
    ensures ok ==> offset == ParseValue(message, begin).end && idJson == Text(ParseValue(message, begin).value)
  {
    hide ParseValue, StringEnd, NumberEnd, Text;
    ValueKinds(message, begin);
    ok, offset, idJson := false, begin, [];
    if offset < |message| && message[offset] == '"' {
      ok, offset := ScanAnyString(message, offset);
    } else {
      if offset < |message| && message[offset] == 'n' {
        ok, offset := ScanLiteral(message, offset, "null");
      }
      if !ok {
        ok, offset := ScanNumber(message, offset);
      }
    }
    if ok {
      ValueSound(message, begin);
      idJson := message[begin..offset];
    }
  }

  method ScanAnyString(message: Bytes, begin: nat) returns (ok: bool, offset: nat)
    requires begin <= |message|
    ensures ok <==> ParseValue(message, begin).Got? && ParseValue(message, begin).value.Str?
    ensures ok ==> offset == ParseValue(message, begin).end
  {
    hide ParseValue, StringEnd, NumberEnd;
    ValueKinds(message, begin);
    var contents, hasEscape;
    ok, offset, contents, hasEscape := ScanString(message, begin);
  }

  /** The value of `result`, which has to start with a brace. */
  method ParseResultValue(message: Bytes, begin: nat, limits: InventoryLimits)
    returns (ok: bool, offset: nat, tools: seq<ToolEntry>)
    requires begin <= |message|
    ensures ok <==> ParseValue(message, begin).Got? && IsResult(ParseValue(message, begin).value, limits)
    ensures ok ==> ParseValue(message, begin).value.Obj?
    ensures ok ==> offset == ParseValue(message, begin).end && tools == ToolsIn(ParseValue(message, begin).value.members)
  {
    hide ParseValue, IsResult, ToolsIn;
    ok, offset, tools := false, begin, [];
    if offset >= |message| || message[offset] != '{' {
      NotAResult(message, offset, limits);
      return;
    }
    ok, offset, tools := ParseResultObject(message, offset, limits);
    if ok { ResultIsObject(ParseValue(message, begin).value, limits); }
  }

  method ParseResponseMember(message: Bytes, begin: nat, key: Bytes, limits: InventoryLimits,
                             response: Response, ghost b: nat, ghost done: seq<Member>)
    returns (ok: bool, offset: nat, response': Response)
    requires b <= |message| && ParseKey(message, b).AKey? && EscapeFree(key)
    requires key == ParseKey(message, b).key && begin == ParseKey(message, b).end
    requires response == ResponseIn(done)
    ensures !ok ==> Refused(message, b, done, ResponseMember(limits), RESPONSE_KEYS)
    ensures ok ==> Passed(message, b, done, ResponseMember(limits), RESPONSE_KEYS, offset)
    ensures ok && ParseMember(message, b).AMember? ==>
              response' == ResponseIn(done + [ParseMember(message, b).member])
  {
    hide ParseValue, ParseKey, ParseMember, WsEnd, JsonRpc.IsId, Text, Fits, EscapeFree, Count, Find, ToolsIn, IsResult;
    hide ResponseIn;
    SeenCounts(done);
    ok, offset, response' := false, begin, response;
    MemberUnfold(message, b);
    ghost var r := ParseMember(message, b);
    if r.AMember? { ResponseMore(done, r.member); }
    if key == "jsonrpc" {
      if response.jsonrpc {
        return;
      }
      response' := response.(jsonrpc := true);
      ok, offset := JsonRpc.ScanVersion(message, offset);
    } else if key == "id" {
      if response.id {
        return;
      }
      response' := response.(id := true);
      var idJson;
      ok, offset, idJson := ScanId(message, offset);
      response' := response'.(idJson := idJson);
    } else if key == "method" {
      if response.method' {
        return;
      }
      response' := response.(method' := true);
      ok, offset := ScanAnyString(message, offset);
    } else if key == "result" {
      if response.result {
        return;
      }
      response' := response.(result := true);
      var tools;
      ok, offset, tools := ParseResultValue(message, offset, limits);
      response' := response'.(tools := tools);
    } else if key == "error" {
      if response.error {
        return;
      }
      response' := response.(error := true);
      ok, offset := SkipValue(message, offset, 1, limits.maxNestingDepth);
    } else {
      ok, offset := SkipValue(message, offset, 1, limits.maxNestingDepth);
    }
  }

  lemma ResultIsObject(v: Value, limits: InventoryLimits)
    ensures IsResult(v, limits) ==> v.Obj?
  {
  }

  lemma NotAResult(s: Bytes, i: nat, limits: InventoryLimits)
    requires i <= |s| && (i < |s| ==> s[i] != '{')
    ensures ParseValue(s, i).Got? ==> !IsResult(ParseValue(s, i).value, limits)
  {
    hide ParseValue;
    NoObjectHere(s, i);
  }

  lemma NoResponseYet()
    ensures ResponseIn([]) == Response(false, false, false, false, false, [], [])
  {
  }

  method ParseToolsListResponse(message: Bytes, expectedIdJson: Bytes, downstreamExecutable: Bytes, limits: InventoryLimits)
    returns (result: Option<ToolInventory>)
    ensures result.Some? <==> Accepts(message, expectedIdJson, limits)
    ensures result.Some? ==>
              result.value == InventoryFrom(DocMembers(message, OpenEnd).value, downstreamExecutable)
  {
    hide ParseValue, ParseMembers, ParseMember, ParseKey, WsEnd, Admissible, EscapeFree, Reading, ResponseIn, Count, Find;
    hide Stuck, Passed, Refused;
    hide Sort, ResultTools, IsResponse, DocMembers, IsResult, ToolsIn, IsTool, AreTools, Fits, Text;
    if |message| > limits.maxMessageBytes {
      return None;
    }
    ghost var good := ResponseMember(limits);
    var offset := SkipWhitespace(message, 0);
    NoDocument(message, OpenEnd);
    if offset >= |message| || message[offset] != '{' {
      return None;
    }
    ghost var begin := offset;
    DocStarts(message, OpenEnd);
    NothingRead(good, RESPONSE_KEYS);
    NoResponseYet();
    EmptyIsNoResponse(expectedIdJson, limits);
    var response := Response(false, false, false, false, false, [], []);
    offset := SkipWhitespace(message, offset + 1);
    if offset < |message| && message[offset] == '}' {
      return None;
    }
    ghost var b, done: seq<Member> := begin + 1, [];
    ghost var closed := false;
    while offset < |message|
      invariant begin < b <= |message| && offset == WsEnd(message, b)
      invariant Reading(message, begin, b, OpenEnd, done) && Admissible(done, good, RESPONSE_KEYS)
      invariant response == ResponseIn(done)
      decreases |message| - b
    {
      var ok, key, hasEscape;
      ok, offset, key, hasEscape := ScanKey(message, offset, b);
      if !ok || hasEscape {
        BadKeyRefused(message, b, done, good, RESPONSE_KEYS);
        RefusedIsStuck(message, b, done, good, RESPONSE_KEYS);
        ResponseRefused(message, begin, b, done, expectedIdJson, limits);
        return None;
      }
      ok, offset, response := ParseResponseMember(message, offset, key, limits, response, b, done);
      if !ok {
        RefusedIsStuck(message, b, done, good, RESPONSE_KEYS);
        ResponseRefused(message, begin, b, done, expectedIdJson, limits);
        return None;
      }
      PassedThen(message, b, done, good, RESPONSE_KEYS, offset);
      offset := SkipWhitespace(message, offset);
      if offset == |message| || (message[offset] != '}' && message[offset] != ',') {
        ResponseRefused(message, begin, b, done, expectedIdJson, limits);
        return None;
      }
      MemberPasses(message, begin, b, OpenEnd, done, good, RESPONSE_KEYS);
      done := done + [ParseMember(message, b).member];
      if message[offset] == '}' {
        closed := true;
        offset := offset + 1;
        break;
      }
      b := offset + 1;
      offset := SkipWhitespace(message, offset + 1);
    }
    if !closed { DocOpenEnds(message, begin, b, OpenEnd, done); }
    assert ParseMembers(message, begin + 1, OpenEnd) == Members(done, offset);
    offset := SkipWhitespace(message, offset);
    if offset != |message| {
      return None;
    }
    ResponseDecides(done, expectedIdJson, limits);
    if !response.jsonrpc || response.method' || !response.id || response.result == response.error {
      return None;
    }
    if response.idJson != expectedIdJson {
      return None;
    }
    if response.error {
      return None;
    }
    if !response.result {
      return None;
    }
    return Some(ToolInventory(downstreamExecutable, Sort(response.tools, EntryName)));
  }

  lemma EmptyIsNoResponse(expectedIdJson: Bytes, limits: InventoryLimits)
    ensures !IsResponse([], expectedIdJson, limits)
  {
  }

  lemma ResponseRefused(s: Bytes, begin: nat, b: nat, done: seq<Member>, expectedIdJson: Bytes, limits: InventoryLimits)
    requires begin < |s| && BodyStart(s) == Some(begin + 1) && Reading(s, begin, b, OpenEnd, done)
    requires WsEnd(s, begin + 1) < |s| ==> s[WsEnd(s, begin + 1)] != '}'
    requires Admissible(done, ResponseMember(limits), RESPONSE_KEYS) && WsEnd(s, b) < |s|
    requires Stuck(s, b, done, ResponseMember(limits), RESPONSE_KEYS)
    ensures DocMembers(s, OpenEnd).Some? ==> !IsResponse(DocMembers(s, OpenEnd).value, expectedIdJson, limits)
  {
    hide ParseMembers, ParseMember, WsEnd, Admissible, DocMembers;
    DocStarts(s, OpenEnd);
    StuckRefuses(s, begin, b, OpenEnd, done, ResponseMember(limits), RESPONSE_KEYS);
  }

  /** The final checks decide whether the members read are a response. */
  lemma ResponseDecides(done: seq<Member>, expectedIdJson: Bytes, limits: InventoryLimits)
    requires Admissible(done, ResponseMember(limits), RESPONSE_KEYS)
    ensures var r := ResponseIn(done);
            && (IsResponse(done, expectedIdJson, limits) <==>
                  r.jsonrpc && !r.method' && r.id && r.result && !r.error && r.idJson == expectedIdJson)
            && InventoryFrom(done, []).tools == Sort(r.tools, EntryName)
  {
    hide Count, Find, Text, ToolsIn, Admissible, Sort;
    AtMostOnce(done, ResponseMember(limits), RESPONSE_KEYS, "jsonrpc");
    AtMostOnce(done, ResponseMember(limits), RESPONSE_KEYS, "id");
    AtMostOnce(done, ResponseMember(limits), RESPONSE_KEYS, "result");
  }
}

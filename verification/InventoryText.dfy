/** `emit_inventory_json` (src/tool_inventory.cpp) and what the emitted bytes determine. */
module InventoryText {
  import opened Bytes
  import opened Json
  import opened ScannerGrammar
  import opened Documents
  import opened Sorting
  import opened CanonicalForm
  import opened Escape
  import opened Inventory

  const INVENTORY_VERSION: Bytes := "1"

  // ---- the emitted text ----

  function Optional(prefix: Bytes, json: Bytes): Bytes {
    if json == [] then [] else prefix + json
  }

  function EntryJson(tool: ToolEntry): Bytes {
    "{\"name\":" + Quoted(Escaped(tool.name))
    + Optional(",\"description\":", tool.descriptionJson)
    + Optional(",\"inputSchema\":", tool.inputSchemaJson)
    + Optional(",\"annotations\":", tool.annotationsJson) + "}"
  }

  function EntriesJson(tools: seq<ToolEntry>): Bytes {
    if tools == [] then []
    else if |tools| == 1 then EntryJson(tools[0])
    else EntryJson(tools[0]) + "," + EntriesJson(tools[1..])
  }

  function HeadJson(executable: Bytes): Bytes {
    "{\"inventory_version\":" + INVENTORY_VERSION
    + ",\"server\":{\"downstream_executable\":" + Quoted(Escaped(executable)) + "},\"tools\":["
  }

  function InventoryJson(inventory: ToolInventory): Bytes {
    HeadJson(inventory.downstreamExecutable) + EntriesJson(inventory.tools) + "]}"
  }

  // ---- emission ----

  method AppendOptional(before: Bytes, prefix: Bytes, json: Bytes, maxBytes: nat) returns (ok: bool, output: Bytes)
    requires |before| <= maxBytes
    ensures ok <==> |before| + |Optional(prefix, json)| <= maxBytes
    ensures ok ==> output == before + Optional(prefix, json)
  {
    ok, output := true, before;
    if json != [] {
      ok, output := AppendLimited(output, prefix, maxBytes);
      if !ok {
        return;
      }
      ok, output := AppendLimited(output, json, maxBytes);
      assert before + prefix + json == before + (prefix + json);
    } else {
      assert before + [] == before;
    }
  }

  method AppendEntry(before: Bytes, tool: ToolEntry, maxBytes: nat) returns (ok: bool, output: Bytes)
    requires |before| <= maxBytes
    ensures ok <==> |before| + |EntryJson(tool)| <= maxBytes
    ensures ok ==> output == before + EntryJson(tool)
  {
    hide Escaped, Optional;
    ghost var a := "{\"name\":" + Quoted(Escaped(tool.name));
    ghost var b, c, d := Optional(",\"description\":", tool.descriptionJson),
      Optional(",\"inputSchema\":", tool.inputSchemaJson), Optional(",\"annotations\":", tool.annotationsJson);
    ok, output := AppendLimited(before, "{\"name\":", maxBytes);
    if !ok {
      return;
    }
    ok, output := AppendJsonString(output, tool.name, maxBytes);
    if !ok {
      return;
    }
    assert output == before + a by { Associate(before, "{\"name\":", Quoted(Escaped(tool.name))); }
    ok, output := AppendOptional(output, ",\"description\":", tool.descriptionJson, maxBytes);
    if !ok {
      return;
    }
    ok, output := AppendOptional(output, ",\"inputSchema\":", tool.inputSchemaJson, maxBytes);
    if !ok {
      return;
    }
    ok, output := AppendOptional(output, ",\"annotations\":", tool.annotationsJson, maxBytes);
    if !ok {
      return;
    }
    ok, output := AppendLimited(output, "}", maxBytes);
    Six(before, a, b, c, d, "}");
  }

  lemma Six(x: Bytes, a: Bytes, b: Bytes, c: Bytes, d: Bytes, e: Bytes)
    ensures x + a + b + c + d + e == x + (a + b + c + d + e)
  {
  }

  lemma {:induction false} EntriesLast(tools: seq<ToolEntry>, k: nat)
    requires k < |tools|
    ensures EntriesJson(tools[..k + 1]) ==
            (if k == 0 then [] else EntriesJson(tools[..k]) + ",") + EntryJson(tools[k])
    decreases k
  {
    hide EntryJson;
    if k == 0 {
      assert tools[..1] == [tools[0]];
    } else {
      EntriesLast(tools[1..], k - 1);
      assert tools[..k + 1][1..] == tools[1..][..k] && tools[..k][1..] == tools[1..][..k - 1];
    }
  }

  lemma {:induction false} EntriesGrow(tools: seq<ToolEntry>, k: nat)
    requires k <= |tools|
    ensures |EntriesJson(tools[..k])| <= |EntriesJson(tools)|
    decreases |tools| - k
  {
    hide EntryJson, EntriesJson;
    if k < |tools| {
      EntriesLast(tools, k);
      EntriesNothing();
      if k == 0 { assert tools[..0] == []; }
      EntriesGrow(tools, k + 1);
    } else {
      assert tools[..k] == tools;
    }
  }

  lemma EntriesNothing()
    ensures EntriesJson([]) == []
  {
  }

  method AppendHead(executable: Bytes, maxBytes: nat) returns (ok: bool, output: Bytes)
    ensures ok <==> |HeadJson(executable)| <= maxBytes
    ensures ok ==> output == HeadJson(executable)
  {
    hide Escaped;
    ghost var a: Bytes := "{\"inventory_version\":";
    ghost var c: Bytes := ",\"server\":{\"downstream_executable\":";
    ok, output := AppendLimited([], "{\"inventory_version\":", maxBytes);
    if !ok {
      return;
    }
    assert output == a;
    ok, output := AppendLimited(output, INVENTORY_VERSION, maxBytes);
    if !ok {
      return;
    }
    ok, output := AppendLimited(output, ",\"server\":{\"downstream_executable\":", maxBytes);
    if !ok {
      return;
    }
    ok, output := AppendJsonString(output, executable, maxBytes);
    if !ok {
      return;
    }
    ok, output := AppendLimited(output, "},\"tools\":[", maxBytes);
  }

  /** `emit_inventory_json`: succeeds exactly when the whole text fits. */
  method EmitInventoryJson(inventory: ToolInventory, maxBytes: nat) returns (ok: bool, output: Bytes)
    ensures ok <==> |InventoryJson(inventory)| <= maxBytes
    ensures ok ==> output == InventoryJson(inventory)
  {
    hide HeadJson, EntryJson, EntriesJson;
    var tools := inventory.tools;
    ok, output := AppendHead(inventory.downstreamExecutable, maxBytes);
    if !ok {
      return;
    }
    ghost var head := output;
    EntriesNothing();
    assert tools[..0] == [] && head + [] == head;
    for index := 0 to |tools|
      invariant |output| <= maxBytes && output == head + EntriesJson(tools[..index])
    {
      EntriesLast(tools, index);
      EntriesGrow(tools, index + 1);
      ghost var lead := if index == 0 then [] else EntriesJson(tools[..index]) + ",";
      if index != 0 {
        ok, output := AppendLimited(output, ",", maxBytes);
        if !ok {
          return;
        }
      }
      LeadText(head, EntriesJson(tools[..index]), index, output);
      ok, output := AppendEntry(output, tools[index], maxBytes);
      if !ok {
        return;
      }
      Associate(head, lead, EntryJson(tools[index]));
    }
    assert tools[..|tools|] == tools;
    ok, output := AppendLimited(output, "]}", maxBytes);
  }

  lemma LeadText(head: Bytes, written: Bytes, index: nat, output: Bytes)
    requires if index == 0 then written == [] && output == head else output == head + written + ","
    ensures output == head + (if index == 0 then [] else written + ",")
  {
  }

  // ---- the emitted text as a tree ----

  /** A member without whitespace. */
  function Tight(key: Bytes, value: Value): Member {
    Member([], key, [], [], value, [])
  }

  function MaybeMember(key: Bytes, v: Option<Value>): seq<Member> {
    if v.Some? then [Tight(key, v.value)] else []
  }

  function MaybeCanonical(v: Option<Value>): Option<Value> {
    match v case None => None case Some(value) => Some(Canonical(value))
  }

  /** What the emitter makes of a tool. */
  function ToolMembers(members: seq<Member>): seq<Member> {
    [Tight("name", Str(Escaped(RawOf(Find(members, "name")))))]
    + MaybeMember("description", Find(members, "description"))
    + MaybeMember("inputSchema", MaybeCanonical(Find(members, "inputSchema")))
    + MaybeMember("annotations", MaybeCanonical(Find(members, "annotations")))
  }

  function ToolTree(item: Item): Item {
    Item([], Obj([], if item.value.Obj? then ToolMembers(item.value.members) else []), [])
  }

  function ServerTree(executable: Bytes): Value {
    Obj([], [Tight("downstream_executable", Str(Escaped(executable)))])
  }

  function InventoryMembers(executable: Bytes, items: seq<Item>): seq<Member> {
    [Tight("inventory_version", Num(INVENTORY_VERSION)), Tight("server", ServerTree(executable)),
     Tight("tools", Arr([], Map(ToolTree, items)))]
  }

  function ItemEntry(item: Item): ToolEntry {
    if item.value.Obj? then EntryFrom(item.value.members) else NO_ENTRY
  }

  function ItemName(item: Item): Bytes {
    ItemEntry(item).name
  }

  // -- texts --

  lemma {:induction false} MembersTextAppend(xs: seq<Member>, m: Member)
    requires xs != []
    ensures MembersText(xs + [m]) == MembersText(xs) + "," + MemberText(m)
    decreases |xs|
  {
    hide MemberText;
    assert (xs + [m])[0] == xs[0] && (xs + [m])[1..] == xs[1..] + [m];
    if |xs| == 1 {
      assert xs[1..] + [m] == [m];
    } else {
      MembersTextAppend(xs[1..], m);
    }
  }

  lemma TightText(key: Bytes, value: Value)
    ensures MemberText(Tight(key, value)) == Quoted(key) + ":" + Text(value)
  {
    hide Text, Quoted;
  }

  lemma MaybeText(xs: seq<Member>, key: Bytes, v: Option<Value>)
    requires xs != [] && (v.Some? ==> Text(v.value) != [])
    ensures MembersText(xs + MaybeMember(key, v)) == MembersText(xs) + Optional("," + Quoted(key) + ":", TextOf(v))
  {
    hide Text, Quoted, MembersText, MemberText;
    if v.Some? {
      var m := Tight(key, v.value);
      MembersTextAppend(xs, m);
      TightText(key, v.value);
      assert MembersText(xs) + "," + (Quoted(key) + ":" + Text(v.value))
          == MembersText(xs) + ("," + Quoted(key) + ":" + Text(v.value));
    } else {
      assert xs + [] == xs;
    }
  }

  /** The values that a tool keeps have a text, and the canonical one is the text kept. */
  lemma KeptTexts(members: seq<Member>)
    requires WellFormedMembers(members)
    ensures forall key :: Find(members, key).Some? ==> WellFormed(Find(members, key).value)
    ensures forall key :: Find(members, key).Some? ==> Text(Find(members, key).value) != []
    ensures forall key :: Find(members, key).Some? ==> Text(Canonical(Find(members, key).value)) != []
  {
    hide WellFormed, Text, Canonical;
    forall key | Find(members, key).Some?
      ensures WellFormed(Find(members, key).value) && Text(Find(members, key).value) != []
      ensures Text(Canonical(Find(members, key).value)) != []
    {
      FindWellFormed(members, key);
      TextStart(Find(members, key).value);
      CanonicalWellFormed(Find(members, key).value);
      TextStart(Canonical(Find(members, key).value));
    }
  }

  /** The entry's text is the text of the tool's tree. */
  lemma ToolText(members: seq<Member>)
    requires WellFormedMembers(members)
    ensures Text(Obj([], ToolMembers(members))) == EntryJson(EntryFrom(members))
  {
    KeptTexts(members);
    CanonicalTexts(members);
    hide Text, Quoted, MembersText, Canonical, Find, WellFormed, Escaped, Optional, TextOf, CanonicalOf, MaybeCanonical, Tight, RawOf, MaybeMember;
    var name, description := RawOf(Find(members, "name")), Find(members, "description");
    var schema, annotations := MaybeCanonical(Find(members, "inputSchema")), MaybeCanonical(Find(members, "annotations"));
    var first := [Tight("name", Str(Escaped(name)))];
    OneMemberText(Tight("name", Str(Escaped(name))));
    TightText("name", Str(Escaped(name)));
    StrText(Escaped(name));
    MaybeText(first, "description", description);
    MaybeText(first + MaybeMember("description", description), "inputSchema", schema);
    MaybeText(first + MaybeMember("description", description) + MaybeMember("inputSchema", schema), "annotations", annotations);
    ObjText(ToolMembers(members));
    Labels();
    Assemble(Quoted("name") + ":", Quoted(Escaped(name)), Optional(",\"description\":", TextOf(description)),
      Optional(",\"inputSchema\":", TextOf(schema)), Optional(",\"annotations\":", TextOf(annotations)));
  }

  lemma Assemble(a: Bytes, b: Bytes, c: Bytes, d: Bytes, e: Bytes)
    requires a == "\"name\":"
    ensures "{" + (a + b + c + d + e) + "}" == "{\"name\":" + b + c + d + e + "}"
  {
    assert "{" + a == "{\"name\":";
  }

  lemma CanonicalTexts(members: seq<Member>)
    ensures TextOf(MaybeCanonical(Find(members, "inputSchema"))) == CanonicalOf(Find(members, "inputSchema"))
    ensures TextOf(MaybeCanonical(Find(members, "annotations"))) == CanonicalOf(Find(members, "annotations"))
  {
    hide Text, Canonical, Find;
  }

  lemma OneMemberText(m: Member)
    ensures MembersText([m]) == MemberText(m)
  {
  }

  lemma ObjText(members: seq<Member>)
    ensures Text(Obj([], members)) == "{" + MembersText(members) + "}"
  {
    hide MembersText;
    assert "{" + [] + MembersText(members) + "}" == "{" + MembersText(members) + "}";
  }

  lemma StrText(raw: Bytes)
    ensures Text(Str(raw)) == Quoted(raw)
  {
  }

  lemma Labels()
    ensures Quoted("name") + ":" == "\"name\":"
    ensures "," + Quoted("description") + ":" == ",\"description\":"
    ensures "," + Quoted("inputSchema") + ":" == ",\"inputSchema\":"
    ensures "," + Quoted("annotations") + ":" == ",\"annotations\":"
  {
    DescriptionLabel();
    SchemaLabel();
    AnnotationsLabel();
    assert Quoted("name") + ":" == "\"name\":";
  }

  lemma DescriptionLabel()
    ensures "," + Quoted("description") + ":" == ",\"description\":"
  {
  }

  lemma SchemaLabel()
    ensures "," + Quoted("inputSchema") + ":" == ",\"inputSchema\":"
  {
  }

  lemma AnnotationsLabel()
    ensures "," + Quoted("annotations") + ":" == ",\"annotations\":"
  {
  }

  // -- the whole inventory --

  /** Items whose values are well-formed objects. */
  ghost predicate ObjectItems(items: seq<Item>) {
    forall k :: 0 <= k < |items| ==> items[k].value.Obj? && WellFormedMembers(items[k].value.members)
  }

  lemma {:induction false} ToolsText(items: seq<Item>)
    requires ObjectItems(items)
    ensures ItemsText(Map(ToolTree, items)) == EntriesJson(Map(ItemEntry, items))
    decreases |items|
  {
    hide Text, EntryJson, ToolMembers, EntryFrom, WellFormedMembers;
    if items != [] {
      ToolsText(items[1..]);
      ToolText(items[0].value.members);
      var trees, entries := Map(ToolTree, items), Map(ItemEntry, items);
      assert trees[1..] == Map(ToolTree, items[1..]) && entries[1..] == Map(ItemEntry, items[1..]);
      assert ItemText(trees[0]) == EntryJson(entries[0]) by {
        var text := Text(trees[0].value);
        assert [] + text + [] == text;
      }
    }
  }

  lemma ServerText(executable: Bytes)
    ensures Text(ServerTree(executable)) == "{\"downstream_executable\":" + Quoted(Escaped(executable)) + "}"
  {
    hide Escaped;
    var v := Str(Escaped(executable));
    OneMemberText(Tight("downstream_executable", v));
    TightText("downstream_executable", v);
    StrText(Escaped(executable));
    ObjText([Tight("downstream_executable", v)]);
    ServerLabel();
    Shift("{", Quoted("downstream_executable") + ":", Quoted(Escaped(executable)), "}");
  }

  lemma ServerLabel()
    ensures "{" + (Quoted("downstream_executable") + ":") == "{\"downstream_executable\":"
  {
    ExecutableLabel();
    hide Quoted;
    assert "{" + "\"downstream_executable\":" == "{\"downstream_executable\":";
  }

  lemma ExecutableLabel()
    ensures Quoted("downstream_executable") + ":" == "\"downstream_executable\":"
  {
  }

  lemma Shift(a: Bytes, b: Bytes, c: Bytes, d: Bytes)
    ensures a + (b + c) + d == (a + b) + c + d
  {
  }

  lemma ArrText(items: seq<Item>)
    ensures Text(Arr([], items)) == "[" + ItemsText(items) + "]"
  {
    hide ItemsText;
    assert "[" + [] + ItemsText(items) + "]" == "[" + ItemsText(items) + "]";
  }

  lemma ThreeMembers(a: Member, b: Member, c: Member)
    ensures MembersText([a, b, c]) == MemberText(a) + "," + MemberText(b) + "," + MemberText(c)
  {
    hide MemberText;
    OneMemberText(a);
    MembersTextAppend([a], b);
    MembersTextAppend([a, b], c);
    assert [a] + [b] == [a, b] && [a, b] + [c] == [a, b, c];
  }

  /** The emitted bytes are the text of the tree. */
  lemma InventoryTextIs(executable: Bytes, items: seq<Item>)
    requires ObjectItems(items)
    ensures Text(Obj([], InventoryMembers(executable, items))) ==
            InventoryJson(ToolInventory(executable, Map(ItemEntry, items)))
  {
    hide Text, Quoted, MembersText, MemberText, ItemsText, Escaped, EntriesJson, ToolTree, ItemEntry, Tight, ServerTree;
    var a, b := Tight("inventory_version", Num(INVENTORY_VERSION)), Tight("server", ServerTree(executable));
    var c := Tight("tools", Arr([], Map(ToolTree, items)));
    ThreeMembers(a, b, c);
    TightText("inventory_version", Num(INVENTORY_VERSION));
    TightText("server", ServerTree(executable));
    TightText("tools", Arr([], Map(ToolTree, items)));
    ServerText(executable);
    ArrText(Map(ToolTree, items));
    ToolsText(items);
    ObjText([a, b, c]);
    VersionText();
    AssembleInventory(Quoted("inventory_version") + ":" + Text(Num(INVENTORY_VERSION)),
      Quoted("server") + ":", Quoted(Escaped(executable)), Quoted("tools") + ":", EntriesJson(Map(ItemEntry, items)));
  }

  lemma VersionText()
    ensures Quoted("inventory_version") + ":" + Text(Num(INVENTORY_VERSION)) == "\"inventory_version\":1"
    ensures Quoted("server") + ":" == "\"server\":" && Quoted("tools") + ":" == "\"tools\":"
  {
    InventoryVersionText();
    MemberLabels();
  }

  lemma InventoryVersionText()
    ensures Quoted("inventory_version") + ":" + Text(Num(INVENTORY_VERSION)) == "\"inventory_version\":1"
  {
    assert Text(Num(INVENTORY_VERSION)) == "1";
    hide Text;
  }

  lemma MemberLabels()
    ensures Quoted("server") + ":" == "\"server\":" && Quoted("tools") + ":" == "\"tools\":"
  {
  }

  lemma AssembleInventory(a: Bytes, b: Bytes, q: Bytes, c: Bytes, tools: Bytes)
    requires a == "\"inventory_version\":1" && b == "\"server\":" && c == "\"tools\":"
    ensures "{" + (a + "," + (b + ("{\"downstream_executable\":" + q + "}")) + "," + (c + ("[" + tools + "]"))) + "}" ==
            "{\"inventory_version\":" + "1" + ",\"server\":{\"downstream_executable\":" + q + "},\"tools\":[" + tools + "]}"
  {
    InventoryLabels();
    GroupDocument("{", a, ",", b, "{\"downstream_executable\":", q, "}", ",", c, "[", tools, "]", "}");
  }

  lemma InventoryLabels()
    ensures "{" + "\"inventory_version\":1" + "," + "\"server\":" + "{\"downstream_executable\":" ==
            "{\"inventory_version\":" + "1" + ",\"server\":{\"downstream_executable\":"
    ensures "}" + "," + "\"tools\":" + "[" == "},\"tools\":["
    ensures "]" + "}" == "]}"
  {
    VersionLabel();
    ServerHeadLabel();
    TailLabels();
    GroupTail("{", "\"inventory_version\":1", ",", "\"server\":", "{\"downstream_executable\":");
  }

  lemma VersionLabel()
    ensures "{" + "\"inventory_version\":1" == "{\"inventory_version\":" + "1"
  {
  }

  lemma ServerHeadLabel()
    ensures "," + "\"server\":" + "{\"downstream_executable\":" == ",\"server\":{\"downstream_executable\":"
  {
  }

  lemma TailLabels()
    ensures "}" + "," + "\"tools\":" + "[" == "},\"tools\":["
    ensures "]" + "}" == "]}"
  {
  }

  lemma GroupTail(a: Bytes, b: Bytes, c: Bytes, d: Bytes, e: Bytes)
    ensures a + b + c + d + e == (a + b) + (c + d + e)
  {
  }

  lemma GroupDocument(o: Bytes, a: Bytes, k: Bytes, b: Bytes, d: Bytes, q: Bytes, e: Bytes, l: Bytes, c: Bytes,
                p: Bytes, t: Bytes, r: Bytes, z: Bytes)
    ensures o + (a + k + (b + (d + q + e)) + l + (c + (p + t + r))) + z ==
            (o + a + k + b + d) + q + (e + l + c + p) + t + (r + z)
  {
    assert a + k + (b + (d + q + e)) == (a + k + b + d) + q + e;
    assert c + (p + t + r) == (c + p) + t + r;
    Tail(o, a + k + b + d, q, e, l, c + p, t, r, z);
    assert o + (a + k + b + d) == o + a + k + b + d;
    assert e + l + (c + p) == e + l + c + p;
  }

  lemma Tail(o: Bytes, x: Bytes, q: Bytes, e: Bytes, l: Bytes, y: Bytes, t: Bytes, r: Bytes, z: Bytes)
    ensures o + (x + q + e + l + (y + t + r)) + z == (o + x) + q + (e + l + y) + t + (r + z)
  {
  }

  lemma OptionalWellFormed(xs: seq<Member>, key: Bytes, v: Option<Value>)
    requires WellFormedMembers(xs) && IsStringBody(key) && (v.Some? ==> WellFormed(v.value))
    ensures WellFormedMembers(xs + MaybeMember(key, v))
  {
    hide WellFormed, IsStringBody;
    WellFormedEach(xs);
    WellFormedEach(xs + MaybeMember(key, v));
    if v.Some? {
      assert WellFormedMember(Tight(key, v.value));
    }
  }

  lemma PlainToolKeys()
    ensures IsStringBody("name") && IsStringBody("description") && IsStringBody("inputSchema") && IsStringBody("annotations")
  {
    hide IsStringBody;
    PlainIsBody("name");
    PlainIsBody("description");
    PlainIsBody("inputSchema");
    PlainIsBody("annotations");
  }

  lemma PlainKeys()
    ensures IsStringBody("name") && IsStringBody("description") && IsStringBody("inputSchema") && IsStringBody("annotations")
    ensures IsStringBody("inventory_version") && IsStringBody("server") && IsStringBody("tools")
    ensures IsStringBody("downstream_executable")
  {
    hide IsStringBody;
    PlainToolKeys();
    PlainIsBody("inventory_version");
    PlainIsBody("server");
    PlainIsBody("tools");
    PlainIsBody("downstream_executable");
  }

  lemma ToolTreeWellFormed(members: seq<Member>)
    requires WellFormedMembers(members)
    ensures WellFormed(Obj([], ToolMembers(members)))
  {
    KeptTexts(members);
    hide WellFormed, Canonical, Find, IsStringBody, Escaped, Text;
    var name, description := RawOf(Find(members, "name")), Find(members, "description");
    var schema, annotations := MaybeCanonical(Find(members, "inputSchema")), MaybeCanonical(Find(members, "annotations"));
    PlainToolKeys();
    EscapeRoundTrip(name);
    var first := Tight("name", Str(Escaped(name)));
    assert WellFormedMembers([first]) by { OneWellFormed("name", Str(Escaped(name))); }
    if Find(members, "inputSchema").Some? { CanonicalWellFormed(Find(members, "inputSchema").value); }
    if Find(members, "annotations").Some? { CanonicalWellFormed(Find(members, "annotations").value); }
    OptionalWellFormed([first], "description", description);
    OptionalWellFormed([first] + MaybeMember("description", description), "inputSchema", schema);
    OptionalWellFormed([first] + MaybeMember("description", description) + MaybeMember("inputSchema", schema), "annotations", annotations);
    ObjWellFormed(ToolMembers(members));
  }

  lemma OneWellFormed(key: Bytes, v: Value)
    requires IsStringBody(key) && (WellFormed(v) || (v.Str? && IsStringBody(v.raw)))
    ensures WellFormedMembers([Tight(key, v)]) && WellFormedMember(Tight(key, v))
  {
    hide IsStringBody;
    assert [Tight(key, v)][1..] == [];
  }

  lemma ObjWellFormed(members: seq<Member>)
    requires WellFormedMembers(members)
    ensures WellFormed(Obj([], members))
  {
  }

  lemma InventoryWellFormed(executable: Bytes, items: seq<Item>)
    requires ObjectItems(items)
    ensures WellFormed(Obj([], InventoryMembers(executable, items)))
  {
    hide WellFormed, IsStringBody, Escaped, ToolMembers;
    PlainKeys();
    EscapeRoundTrip(executable);
    OneWellFormed("downstream_executable", Str(Escaped(executable)));
    ObjWellFormed([Tight("downstream_executable", Str(Escaped(executable)))]);
    var trees := Map(ToolTree, items);
    forall k | 0 <= k < |trees| ensures WellFormedItem(trees[k]) { ToolTreeWellFormed(items[k].value.members); }
    WellFormedEachItem(trees);
    assert WellFormed(Arr([], trees)) by { ArrWellFormed(trees); }
    assert WellFormed(Num(INVENTORY_VERSION)) by { OneIsNumber(); }
    OneWellFormed("inventory_version", Num(INVENTORY_VERSION));
    OneWellFormed("server", ServerTree(executable));
    OneWellFormed("tools", Arr([], trees));
    WellFormedEach(InventoryMembers(executable, items));
    ObjWellFormed(InventoryMembers(executable, items));
  }

  lemma ArrWellFormed(items: seq<Item>)
    requires WellFormedItems(items)
    ensures WellFormed(Arr([], items))
  {
  }

  lemma OneIsNumber()
    ensures WellFormed(Num("1"))
  {
    var n := Number(false, "1", None, None);
    assert ValidNumber(n) && NumberText(n) == "1" + [] + [] == "1";
  }
}

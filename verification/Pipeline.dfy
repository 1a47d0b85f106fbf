/** The policy pipeline end to end: a `tools/list` response becomes an inventory, the inventory
    and an allow list become a policy, and the loaded policy allows exactly the listed names. */
module Pipeline {
  import opened Bytes
  import opened Json
  import opened Scanner
  import opened Documents
  import opened Sorting
  import opened Objects
  import opened CanonicalForm
  import opened Canonicalizer
  import opened Escape
  import opened Nesting
  import opened Policy
  import Inventory
  import opened InventoryText
  import opened InventoryMeaning
  import G = Generator
  import L = Loader

  const INVENTORY_LIMITS := Inventory.InventoryLimits(1048576, 64, 256, 256, 8192, 65536)
  const GENERATOR_LIMITS := G.GeneratorLimits(1048576, 64, 256, 256)
  const LOADER_CONFIG := L.Config(262144, 16)

  // ---- from the inventory to the generator ----

  /** A tool that the inventory kept, as the generator meets it. */
  ghost predicate KeptTool(item: Item, limits: Inventory.InventoryLimits) {
    Inventory.IsTool(item.value, limits) && WellFormedMembers(item.value.members)
  }

  /** Its name is written unchanged. */
  lemma NameUnchanged(item: Item, limits: Inventory.InventoryLimits)
    requires KeptTool(item, limits)
    ensures var name := ItemEntry(item).name;
            && Escaped(name) == name && 0 < |name| <= limits.maxToolNameBytes && EscapeFree(name)
  {
    var members := item.value.members;
    AdmissibleFind(members, Inventory.ToolMember(limits), Inventory.TOOL_KEYS, "name");
    hide Find, Count, Escaped, EscapeFree;
    FindWellFormed(members, "name");
    EscapeFreeUnchanged(ItemEntry(item).name);
  }

  /** The other parts nest at most as deep as the schema limit allows. */
  lemma PartsShallow(item: Item, limits: Inventory.InventoryLimits, key: Bytes)
    requires KeptTool(item, limits) && Find(item.value.members, key).Some?
    requires key in {"description", "inputSchema", "annotations"}
    ensures var v := Find(item.value.members, key).value;
            (key == "description" ==> v.Str?) && (key != "description" ==> 4 + Height(v) <= limits.maxNestingDepth + 1)
  {
    hide Count, Height, Find;
    AdmissibleFind(item.value.members, Inventory.ToolMember(limits), Inventory.TOOL_KEYS, key);
  }

  /** A member of the emitted tool: its key, and how deep its value is. */
  ghost predicate EmittedMember(m: Member, name: Bytes, depth: nat) {
    && m.key in {"name", "description", "inputSchema", "annotations"}
    && (m.key == "name" ==> m.value == Str(name))
    && 4 + Height(m.value) <= depth + 1
  }

  lemma EmittedMembers(item: Item, limits: Inventory.InventoryLimits, depth: nat)
    requires KeptTool(item, limits) && 4 <= depth && limits.maxNestingDepth <= depth
    ensures forall k :: 0 <= k < |ToolMembers(item.value.members)| ==>
              EmittedMember(ToolMembers(item.value.members)[k], ItemEntry(item).name, depth)
  {
    hide Find, Escaped, Canonical;
    var members := item.value.members;
    NameUnchanged(item, limits);
    if Find(members, "description").Some? { PartsShallow(item, limits, "description"); }
    if Find(members, "inputSchema").Some? {
      PartsShallow(item, limits, "inputSchema");
      CanonicalHeight(Find(members, "inputSchema").value);
    }
    if Find(members, "annotations").Some? {
      PartsShallow(item, limits, "annotations");
      CanonicalHeight(Find(members, "annotations").value);
    }
  }

  lemma {:induction false} MembersHeightBound(members: seq<Member>, h: nat)
    requires forall k :: 0 <= k < |members| ==> Height(members[k].value) <= h
    ensures MembersHeight(members) <= h
  {
    hide Height;
    MembersHeightEach(members, h);
  }

  lemma EmittedTool(item: Item, limits: Inventory.InventoryLimits, gen: G.GeneratorLimits)
    requires KeptTool(item, limits) && 4 <= gen.maxNestingDepth
    requires limits.maxNestingDepth <= gen.maxNestingDepth && limits.maxToolNameBytes <= gen.maxToolNameBytes
    ensures G.IsTool(ToolTree(item).value, gen) && G.ItemName(ToolTree(item)) == ItemEntry(item).name
    ensures Height(ToolTree(item).value) + 2 <= gen.maxNestingDepth
  {
    hide Find, Escaped, ToolMembers, Count, EscapeFree;
    var t := ToolMembers(item.value.members);
    EmittedMembers(item, limits, gen.maxNestingDepth);
    NameUnchanged(item, limits);
    ToolMembersFind(item.value.members);
    KeysPlain();
    forall k | 0 <= k < |t| ensures G.ToolMember(gen)(t[k]) {
      assert EmittedMember(t[k], ItemEntry(item).name, gen.maxNestingDepth);
    }
    CountOne(t, ItemEntry(item).name, gen.maxNestingDepth);
    assert Admissible(t, G.ToolMember(gen), G.TOOL_KEYS);
    forall k | 0 <= k < |t| ensures Height(t[k].value) <= gen.maxNestingDepth - 3 {
      assert EmittedMember(t[k], ItemEntry(item).name, gen.maxNestingDepth);
    }
    MembersHeightBound(t, gen.maxNestingDepth - 3);
  }

  lemma KeysPlain()
    ensures EscapeFree("name") && EscapeFree("description") && EscapeFree("inputSchema") && EscapeFree("annotations")
    ensures EscapeFree("inventory_version") && EscapeFree("server") && EscapeFree("tools")
    ensures EscapeFree("version") && EscapeFree("defaults") && EscapeFree("visibility") && EscapeFree("invocation")
  {
  }

  lemma CountOne(members: seq<Member>, name: Bytes, depth: nat)
    requires Count(members, "name") == 1
    ensures forall key :: key in G.TOOL_KEYS ==> Count(members, key) <= 1
  {
  }

  /** The entries' names, in order. */
  function NamesOf(tools: seq<Inventory.ToolEntry>): seq<Bytes> {
    Map(Inventory.EntryName, tools)
  }

  lemma TreeNames(items: seq<Item>, limits: Inventory.InventoryLimits, gen: G.GeneratorLimits)
    requires forall k :: 0 <= k < |items| ==> KeptTool(items[k], limits)
    requires 4 <= gen.maxNestingDepth
    requires limits.maxNestingDepth <= gen.maxNestingDepth && limits.maxToolNameBytes <= gen.maxToolNameBytes
    ensures Map(G.ItemName, Map(ToolTree, items)) == NamesOf(Map(ItemEntry, items))
    ensures Distinct(Map(ItemEntry, items), Inventory.EntryName) ==> Distinct(Map(ToolTree, items), G.ItemName)
    ensures forall k :: 0 <= k < |items| ==> G.IsTool(Map(ToolTree, items)[k].value, gen)
    ensures ItemsHeight(Map(ToolTree, items)) + 2 <= gen.maxNestingDepth
  {
    hide KeptTool, ToolTree, ItemEntry, G.IsTool, Height, G.NameOf;
    var trees, entries := Map(ToolTree, items), Map(ItemEntry, items);
    forall k | 0 <= k < |items|
      ensures G.IsTool(trees[k].value, gen) && G.ItemName(trees[k]) == entries[k].name
      ensures Height(trees[k].value) <= gen.maxNestingDepth - 2
    {
      EmittedTool(items[k], limits, gen);
    }
    ItemsHeightEach(trees, gen.maxNestingDepth - 2);
    if Distinct(entries, Inventory.EntryName) {
      forall i, j | 0 <= i < j < |trees| ensures G.ItemName(trees[i]) != G.ItemName(trees[j]) {
        assert Inventory.EntryName(entries[i]) != Inventory.EntryName(entries[j]);
      }
    }
  }

  lemma CountThree(a: Member, b: Member, c: Member, key: Bytes)
    ensures Count([a, b, c], key) == One(a, key) + One(b, key) + One(c, key)
    ensures Find([a, b, c], key) ==
            if a.key == key then Some(a.value) else if b.key == key then Some(b.value)
            else if c.key == key then Some(c.value) else None
  {
    CountFirst(a, [b, c], key);
    CountFirst(b, [c], key);
    CountFirst(c, [], key);
    assert [a] + [b, c] == [a, b, c] && [b] + [c] == [b, c] && [c] + [] == [c];
    hide Count, Find;
    assert Count([], key) == 0 && Find([], key) == None by { Inventory.NothingCounted(key); }
  }

  /** Three good members with different keys. */
  lemma ThreeKeys(a: Member, b: Member, c: Member, good: Member -> bool, keys: set<Bytes>)
    requires a.key != b.key && a.key != c.key && b.key != c.key && good(a) && good(b) && good(c)
    ensures Admissible([a, b, c], good, keys)
    ensures Count([a, b, c], a.key) == 1 && Find([a, b, c], a.key) == Some(a.value)
    ensures Count([a, b, c], b.key) == 1 && Find([a, b, c], b.key) == Some(b.value)
    ensures Count([a, b, c], c.key) == 1 && Find([a, b, c], c.key) == Some(c.value)
  {
    hide Count, Find;
    CountThree(a, b, c, a.key);
    CountThree(a, b, c, b.key);
    CountThree(a, b, c, c.key);
    forall key | key in keys ensures Count([a, b, c], key) <= 1 { CountThree(a, b, c, key); }
  }

  lemma InventoryAccepted(executable: Bytes, items: seq<Item>, limits: Inventory.InventoryLimits, gen: G.GeneratorLimits)
    requires forall k :: 0 <= k < |items| ==> KeptTool(items[k], limits)
    requires |items| <= gen.maxTools && Distinct(Map(ItemEntry, items), Inventory.EntryName)
    requires 4 <= gen.maxNestingDepth
    requires limits.maxNestingDepth <= gen.maxNestingDepth && limits.maxToolNameBytes <= gen.maxToolNameBytes
    ensures var members := InventoryMembers(executable, items);
            && G.IsInventory(members, gen) && G.NamesIn(members) == NamesOf(Map(ItemEntry, items))
            && 1 + MembersBrackets(members) <= gen.maxNestingDepth
  {
    hide KeptTool, ToolTree, ItemEntry, G.IsTool, G.NameOf, Distinct, Count, Find, Map, EscapeFree, Escaped;
    TreeNames(items, limits, gen);
    var trees := Map(ToolTree, items);
    ToolsHeight(trees, gen);
    hide G.AreTools, Height, MembersHeight, Admissible, Fits, ServerTree;
    var members := InventoryMembers(executable, items);
    var a, b, c := members[0], members[1], members[2];
    DocumentMembersGood(executable, trees, gen);
    ThreeKeys(a, b, c, G.DocumentMember(gen), G.DOCUMENT_KEYS);
    InventoryShallow(executable, trees, gen);
  }

  lemma ToolsHeight(trees: seq<Item>, gen: G.GeneratorLimits)
    requires forall k :: 0 <= k < |trees| ==> G.IsTool(trees[k].value, gen)
    requires |trees| <= gen.maxTools && Distinct(trees, G.ItemName)
    ensures G.AreTools(trees, gen)
  {
    hide G.IsTool, Distinct;
  }

  lemma DocumentMembersGood(executable: Bytes, trees: seq<Item>, gen: G.GeneratorLimits)
    requires G.AreTools(trees, gen) && 4 <= gen.maxNestingDepth
    ensures G.DocumentMember(gen)(InventoryText.Tight("inventory_version", Num(INVENTORY_VERSION)))
    ensures G.DocumentMember(gen)(InventoryText.Tight("server", ServerTree(executable)))
    ensures G.DocumentMember(gen)(InventoryText.Tight("tools", Arr([], trees)))
  {
    KeysPlain();
    hide EscapeFree, G.AreTools, Height;
    ServerHeight(executable);
  }

  lemma InventoryShallow(executable: Bytes, trees: seq<Item>, gen: G.GeneratorLimits)
    requires ItemsHeight(trees) + 2 <= gen.maxNestingDepth && 4 <= gen.maxNestingDepth
    ensures 1 + MembersBrackets([InventoryText.Tight("inventory_version", Num(INVENTORY_VERSION)),
                                 InventoryText.Tight("server", ServerTree(executable)),
                                 InventoryText.Tight("tools", Arr([], trees))]) <= gen.maxNestingDepth
  {
    ServerHeight(executable);
    var tools := Arr([], trees);
    assert Height(tools) == 1 + ItemsHeight(trees);
    var members := [InventoryText.Tight("inventory_version", Num(INVENTORY_VERSION)),
                    InventoryText.Tight("server", ServerTree(executable)), InventoryText.Tight("tools", tools)];
    assert Height(Num(INVENTORY_VERSION)) == 1;
    hide Height, ServerTree;
    MembersHeightBound(members, gen.maxNestingDepth - 1);
    MembersBracketsWithin(members);
  }

  lemma ServerHeight(executable: Bytes)
    ensures Height(ServerTree(executable)) == 2
  {
    hide Escaped;
    var m := InventoryText.Tight("downstream_executable", Str(Escaped(executable)));
    assert [m][1..] == [] && MembersHeight([m]) == 1;
  }

  /** A document without outer whitespace is read back as its members. */
  lemma DocOfTree(members: seq<Member>, tail: Tail)
    requires WellFormed(Obj([], members)) && tail != CommaClose
    ensures DocMembers(Text(Obj([], members)), tail) == Some(members)
  {
    hide Text, WellFormed, DocMembers;
    var text := Text(Obj([], members));
    assert [] + text + [] == text;
    DocComplete([], [], members, []);
    DocStrictIsLax(text, tail);
  }

  /** The generator accepts every inventory that the emitter wrote within its size limit. */
  lemma InventoryGenerates(executable: Bytes, items: seq<Item>, limits: Inventory.InventoryLimits, gen: G.GeneratorLimits,
                           allow: seq<Bytes>)
    requires forall k :: 0 <= k < |items| ==> KeptTool(items[k], limits)
    requires ObjectItems(items) && |items| <= gen.maxTools && Distinct(Map(ItemEntry, items), Inventory.EntryName)
    requires 4 <= gen.maxNestingDepth
    requires limits.maxNestingDepth <= gen.maxNestingDepth && limits.maxToolNameBytes <= gen.maxToolNameBytes
    requires |InventoryJson(Inventory.ToolInventory(executable, Map(ItemEntry, items)))| <= gen.maxInventoryBytes
    requires G.NoRepeats(allow)
    requires forall k :: 0 <= k < |allow| ==> allow[k] in NamesOf(Map(ItemEntry, items))
    ensures G.Generates(InventoryJson(Inventory.ToolInventory(executable, Map(ItemEntry, items))), allow, gen)
  {
    hide KeptTool, ToolTree, ItemEntry, InventoryJson, Text, DocMembers, G.IsInventory, G.NoRepeats, G.NamesIn, Exceeds;
    hide Map, Distinct, ObjectItems, InventoryMembers, MembersBrackets, WellFormed;
    var members := InventoryMembers(executable, items);
    InventoryAccepted(executable, items, limits, gen);
    InventoryTextIs(executable, items);
    InventoryWellFormed(executable, items);
    DocOfTree(members, OpenEnd);
    DocScan(Text(Obj([], members)), OpenEnd, gen.maxNestingDepth);
  }

  // ---- from the generator to the loader ----

  const ALLOW: Value := Str("allow")
  const DENY: Value := Str("deny")

  function RuleMembers(rule: ToolRule): seq<Member> {
    [InventoryText.Tight("name", Str(Escaped(rule.name))),
     InventoryText.Tight("visibility", ALLOW), InventoryText.Tight("invocation", ALLOW)]
  }

  function RuleTree(rule: ToolRule): Item {
    Item([], Obj([], RuleMembers(rule)), [])
  }

  const DEFAULTS_TREE: Value :=
    Obj([], [InventoryText.Tight("visibility", DENY), InventoryText.Tight("invocation", DENY)])

  function PolicyMembers(rules: seq<ToolRule>): seq<Member> {
    [InventoryText.Tight("version", Num("1")), InventoryText.Tight("defaults", DEFAULTS_TREE),
     InventoryText.Tight("tools", Arr([], Map(RuleTree, rules)))]
  }

  /** A rule of a generated policy. */
  ghost predicate AllowsPlainly(rule: ToolRule) {
    && rule.visible == Allow && rule.callable == Allow
    && Escaped(rule.name) == rule.name && EscapeFree(rule.name) && rule.name != []
  }

  lemma AccessText(key: Bytes, v: Value)
    requires v.Str?
    ensures MemberText(InventoryText.Tight(key, v)) == Quoted(key) + ":" + Quoted(v.raw)
  {
    TightText(key, v);
  }

  lemma RuleText(rule: ToolRule)
    ensures Text(Obj([], RuleMembers(rule))) == G.RuleJson(rule)
  {
    hide Text, MemberText, MembersText, Quoted, Escaped, InventoryText.Tight;
    var q := Quoted(Escaped(rule.name));
    ThreeMembers(InventoryText.Tight("name", Str(Escaped(rule.name))), InventoryText.Tight("visibility", ALLOW),
      InventoryText.Tight("invocation", ALLOW));
    AccessText("name", Str(Escaped(rule.name)));
    AccessText("visibility", ALLOW);
    AccessText("invocation", ALLOW);
    ObjText(RuleMembers(rule));
    RuleLabels();
    Sandwich("{", Quoted("name") + ":", q, ",", Quoted("visibility") + ":" + Quoted("allow"), ",",
      Quoted("invocation") + ":" + Quoted("allow"), "}");
  }

  lemma RuleLabels()
    ensures "{" + (Quoted("name") + ":") == G.RULE_HEAD
    ensures "," + (Quoted("visibility") + ":" + Quoted("allow")) + "," + (Quoted("invocation") + ":" + Quoted("allow")) + "}"
         == G.RULE_TAIL
  {
    RuleHead();
    VisibilityLabel();
    InvocationLabel();
    RuleTail();
    hide Quoted;
    JoinedLabels("," + (Quoted("visibility") + ":" + Quoted("allow")), ",", Quoted("invocation") + ":" + Quoted("allow"), "}");
  }

  lemma VisibilityLabel()
    ensures "," + (Quoted("visibility") + ":" + Quoted("allow")) == ",\"visibility\":\"allow\""
  {
  }

  lemma InvocationLabel()
    ensures "," + (Quoted("invocation") + ":" + Quoted("allow")) + "}" == ",\"invocation\":\"allow\"}"
  {
  }

  lemma JoinedLabels(a: Bytes, b: Bytes, c: Bytes, d: Bytes)
    ensures a + b + c + d == a + (b + c + d)
  {
  }

  lemma RuleTail()
    ensures ",\"visibility\":\"allow\"" + ",\"invocation\":\"allow\"}" == G.RULE_TAIL
  {
  }

  lemma RuleHead()
    ensures "{" + (Quoted("name") + ":") == G.RULE_HEAD
  {
  }

  lemma Sandwich(o: Bytes, a: Bytes, q: Bytes, k: Bytes, b: Bytes, l: Bytes, c: Bytes, z: Bytes)
    ensures o + (a + q + k + b + l + c) + z == (o + a) + q + (k + b + l + c + z)
  {
  }

  lemma {:induction false} RulesText(rules: seq<ToolRule>)
    ensures ItemsText(Map(RuleTree, rules)) == G.RulesJson(rules)
    decreases |rules|
  {
    hide Text, G.RuleJson, RuleMembers;
    if rules != [] {
      RulesText(rules[1..]);
      RuleText(rules[0]);
      var trees := Map(RuleTree, rules);
      assert trees[1..] == Map(RuleTree, rules[1..]);
      assert ItemText(trees[0]) == G.RuleJson(rules[0]) by {
        var text := Text(trees[0].value);
        assert [] + text + [] == text;
      }
    }
  }

  lemma PolicyText(rules: seq<ToolRule>)
    ensures Text(Obj([], PolicyMembers(rules))) == G.PolicyJson(rules)
  {
    hide Text, MemberText, MembersText, ItemsText, Quoted, G.RulesJson, RuleTree, InventoryText.Tight;
    var a, b := InventoryText.Tight("version", Num("1")), InventoryText.Tight("defaults", DEFAULTS_TREE);
    var c := InventoryText.Tight("tools", Arr([], Map(RuleTree, rules)));
    ThreeMembers(a, b, c);
    TightText("version", Num("1"));
    TightText("defaults", DEFAULTS_TREE);
    TightText("tools", Arr([], Map(RuleTree, rules)));
    ArrText(Map(RuleTree, rules));
    RulesText(rules);
    ObjText([a, b, c]);
    HeadText();
    var t := G.RulesJson(rules);
    Wrap("{", Quoted("version") + ":" + Text(Num("1")), ",", Quoted("defaults") + ":" + Text(DEFAULTS_TREE), ",",
      Quoted("tools") + ":", "[", t, "]", "}");
  }

  lemma Wrap(o: Bytes, a: Bytes, k: Bytes, b: Bytes, l: Bytes, c: Bytes, p: Bytes, t: Bytes, r: Bytes, z: Bytes)
    ensures o + (a + k + b + l + (c + (p + t + r))) + z == (o + a + k + b + l + c + p) + t + (r + z)
  {
  }

  lemma HeadText()
    ensures "{" + (Quoted("version") + ":" + Text(Num("1"))) + "," + (Quoted("defaults") + ":" + Text(DEFAULTS_TREE)) + ","
            + (Quoted("tools") + ":") + "[" == G.POLICY_HEAD
    ensures "]" + "}" == "]}"
  {
    DefaultsText();
    HeadLabels();
  }

  lemma DefaultsText()
    ensures Text(DEFAULTS_TREE) == "{\"visibility\":\"deny\",\"invocation\":\"deny\"}"
  {
    hide MembersText, MemberText, Quoted, Text;
    var a, b := InventoryText.Tight("visibility", DENY), InventoryText.Tight("invocation", DENY);
    OneMemberText(a);
    MembersTextAppend([a], b);
    assert [a] + [b] == [a, b];
    AccessText("visibility", DENY);
    AccessText("invocation", DENY);
    ObjText([a, b]);
    DefaultsLabels();
  }

  lemma DefaultsLabels()
    ensures "{" + ((Quoted("visibility") + ":" + Quoted("deny")) + "," + (Quoted("invocation") + ":" + Quoted("deny"))) + "}"
         == "{\"visibility\":\"deny\",\"invocation\":\"deny\"}"
  {
    hide Quoted;
    DenyLabels();
    DenyJoin();
  }

  lemma DenyJoin()
    ensures "{" + ("\"visibility\":\"deny\"" + "," + "\"invocation\":\"deny\"") + "}"
         == "{\"visibility\":\"deny\",\"invocation\":\"deny\"}"
  {
    DenyStart();
    DenyEnd();
    DenyBoth();
    Braced("\"visibility\":\"deny\"", ",", "\"invocation\":\"deny\"");
  }

  lemma DenyStart()
    ensures "{" + "\"visibility\":\"deny\"" == "{\"visibility\":\"deny\""
  {
  }

  lemma DenyEnd()
    ensures "," + "\"invocation\":\"deny\"" + "}" == ",\"invocation\":\"deny\"}"
  {
  }

  lemma DenyBoth()
    ensures "{\"visibility\":\"deny\"" + ",\"invocation\":\"deny\"}" == "{\"visibility\":\"deny\",\"invocation\":\"deny\"}"
  {
  }

  lemma Braced(a: Bytes, b: Bytes, c: Bytes)
    ensures "{" + (a + b + c) + "}" == ("{" + a) + (b + c + "}")
  {
  }

  lemma DenyLabels()
    ensures Quoted("visibility") + ":" + Quoted("deny") == "\"visibility\":\"deny\""
    ensures Quoted("invocation") + ":" + Quoted("deny") == "\"invocation\":\"deny\""
  {
  }

  lemma HeadLabels()
    ensures "{" + (Quoted("version") + ":" + "1") + ","
            + (Quoted("defaults") + ":" + "{\"visibility\":\"deny\",\"invocation\":\"deny\"}") + ","
            + (Quoted("tools") + ":") + "[" == G.POLICY_HEAD
  {
    HeadParts();
    hide Quoted;
    Gather("{", Quoted("version") + ":" + "1", ",", Quoted("defaults") + ":",
      "{\"visibility\":\"deny\",\"invocation\":\"deny\"}", ",", Quoted("tools") + ":", "[");
  }

  lemma HeadParts()
    ensures "{" + (Quoted("version") + ":" + "1") + "," + (Quoted("defaults") + ":") == "{\"version\":1,\"defaults\":"
    ensures "," + (Quoted("tools") + ":") + "[" == ",\"tools\":["
    ensures "{\"version\":1,\"defaults\":" + "{\"visibility\":\"deny\",\"invocation\":\"deny\"}" + ",\"tools\":["
         == G.POLICY_HEAD
  {
    VersionPart();
    ToolsPart();
    PolicyHeadIs();
  }

  lemma VersionPart()
    ensures "{" + (Quoted("version") + ":" + "1") + "," + (Quoted("defaults") + ":") == "{\"version\":1,\"defaults\":"
  {
  }

  lemma ToolsPart()
    ensures "," + (Quoted("tools") + ":") + "[" == ",\"tools\":["
  {
  }

  lemma PolicyHeadIs()
    ensures "{\"version\":1,\"defaults\":" + "{\"visibility\":\"deny\",\"invocation\":\"deny\"}" + ",\"tools\":["
         == G.POLICY_HEAD
  {
  }

  lemma Gather(o: Bytes, a: Bytes, k: Bytes, b: Bytes, d: Bytes, l: Bytes, c: Bytes, p: Bytes)
    ensures o + a + k + (b + d) + l + c + p == (o + a + k + b) + d + (l + c + p)
  {
  }

  ghost predicate AllowRules(rules: seq<ToolRule>) {
    forall k :: 0 <= k < |rules| ==> AllowsPlainly(rules[k])
  }

  lemma PolicyWellFormed(rules: seq<ToolRule>)
    requires AllowRules(rules)
    ensures WellFormed(Obj([], PolicyMembers(rules)))
  {
    hide WellFormed, IsStringBody, Escaped;
    PolicyKeys();
    OneIsNumber();
    assert WellFormed(DENY) && WellFormed(ALLOW) by { StringWellFormed("deny"); StringWellFormed("allow"); }
    OneWellFormed("visibility", DENY);
    OneWellFormed("invocation", DENY);
    var defaults := DEFAULTS_TREE.members;
    WellFormedEach(defaults);
    ObjWellFormed(defaults);
    var trees := Map(RuleTree, rules);
    forall k | 0 <= k < |trees| ensures WellFormedItem(trees[k]) { RuleWellFormed(rules[k]); }
    WellFormedEachItem(trees);
    ArrWellFormed(trees);
    OneWellFormed("version", Num("1"));
    OneWellFormed("defaults", DEFAULTS_TREE);
    OneWellFormed("tools", Arr([], trees));
    WellFormedEach(PolicyMembers(rules));
    ObjWellFormed(PolicyMembers(rules));
  }

  lemma StringWellFormed(raw: Bytes)
    requires IsStringBody(raw)
    ensures WellFormed(Str(raw))
  {
  }

  lemma PolicyKeys()
    ensures IsStringBody("name") && IsStringBody("visibility") && IsStringBody("invocation")
    ensures IsStringBody("version") && IsStringBody("defaults") && IsStringBody("tools")
    ensures IsStringBody("allow") && IsStringBody("deny")
  {
    hide IsStringBody;
    PlainIsBody("name");
    PlainIsBody("visibility");
    PlainIsBody("invocation");
    PlainIsBody("version");
    PlainIsBody("defaults");
    PlainIsBody("tools");
    PlainIsBody("allow");
    PlainIsBody("deny");
  }

  lemma RuleWellFormed(rule: ToolRule)
    ensures WellFormedItem(RuleTree(rule))
  {
    hide WellFormed, IsStringBody, Escaped;
    PolicyKeys();
    EscapeRoundTrip(rule.name);
    StringWellFormed("allow");
    StringWellFormed(Escaped(rule.name));
    OneWellFormed("name", Str(Escaped(rule.name)));
    OneWellFormed("visibility", ALLOW);
    OneWellFormed("invocation", ALLOW);
    WellFormedEach(RuleMembers(rule));
    ObjWellFormed(RuleMembers(rule));
  }

  lemma RuleLoads(rule: ToolRule, limit: nat)
    requires AllowsPlainly(rule) && limit >= 3
    ensures L.IsRule(RuleTree(rule).value, limit) && L.RuleOf(RuleTree(rule)) == rule
  {
    KeysPlain();
    hide Count, Find, EscapeFree, Escaped, Admissible;
    var ms := RuleMembers(rule);
    ThreeKeys(ms[0], ms[1], ms[2], L.ToolMember(limit), L.TOOL_KEYS);
  }

  lemma DefaultsLoad(limit: nat)
    requires limit >= 2
    ensures L.AreDefaults(DEFAULTS_TREE, limit) && L.DefaultsIn(DEFAULTS_TREE.members) == PolicyDefaults(Deny, Deny)
  {
    KeysPlain();
    var ms := DEFAULTS_TREE.members;
    CountFirst(ms[0], [ms[1]], "visibility");
    CountFirst(ms[0], [ms[1]], "invocation");
    CountFirst(ms[1], [], "visibility");
    CountFirst(ms[1], [], "invocation");
    assert [ms[0]] + [ms[1]] == ms && [ms[1]] + [] == [ms[1]];
  }

  /** The loader accepts every generated policy that fits its size limit and reads its rules. */
  lemma PolicyLoads(rules: seq<ToolRule>, limit: nat)
    requires AllowRules(rules) && Distinct(rules, RuleName) && limit >= 3
    ensures var members := PolicyMembers(rules);
            && L.IsPolicy(members, limit) && L.RulesIn(members) == rules
            && L.DefaultsOf(members) == PolicyDefaults(Deny, Deny)
            && 1 + MembersBrackets(members) <= 3
  {
    KeysPlain();
    hide Count, Find, EscapeFree, Escaped, Admissible, AllowsPlainly, L.IsRule, L.RuleIn, Distinct, RuleTree;
    var trees := Map(RuleTree, rules);
    forall k | 0 <= k < |trees| ensures L.IsRule(trees[k].value, limit) && L.RuleOf(trees[k]) == rules[k] {
      RuleLoads(rules[k], limit);
    }
    assert Map(L.RuleOf, trees) == rules;
    DefaultsLoad(limit);
    var ms := PolicyMembers(rules);
    hide L.AreDefaults, L.DefaultsIn, DEFAULTS_TREE;
    ThreeKeys(ms[0], ms[1], ms[2], L.DocumentMember(limit), L.DOCUMENT_KEYS);
    PolicyBrackets(rules);
  }

  lemma BracketsThree(a: Member, b: Member, c: Member)
    ensures MembersBrackets([a, b]) == Max(Brackets(a.value), Brackets(b.value))
    ensures MembersBrackets([a, b, c]) == Max(Brackets(a.value), Max(Brackets(b.value), Brackets(c.value)))
  {
    assert [a] + [b, c] == [a, b, c] && [b] + [c] == [b, c] && [a] + [b] == [a, b];
    assert [b] + [] == [b] && [c] + [] == [c];
    BracketsFirst(a, [b, c]);
    BracketsFirst(b, [c]);
    BracketsFirst(a, [b]);
    BracketsFirst(b, []);
    BracketsFirst(c, []);
    hide Brackets, MembersBrackets;
    assert MembersBrackets([]) == 0 by { NoBrackets(); }
  }

  lemma PolicyBrackets(rules: seq<ToolRule>)
    ensures MembersBrackets(PolicyMembers(rules)) <= 2
  {
    hide Escaped, Map, MembersBrackets;
    var ms := PolicyMembers(rules);
    var d := DEFAULTS_TREE.members;
    BracketsThree(d[0], d[1], d[1]);
    RulesBrackets(rules);
    BracketsThree(ms[0], ms[1], ms[2]);
  }

  lemma {:induction false} RulesBrackets(rules: seq<ToolRule>)
    ensures ItemsBrackets(Map(RuleTree, rules)) <= 1
    decreases |rules|
  {
    hide Escaped, MembersBrackets;
    if rules != [] {
      RulesBrackets(rules[1..]);
      var trees, ms := Map(RuleTree, rules), RuleMembers(rules[0]);
      assert trees[1..] == Map(RuleTree, rules[1..]);
      BracketsThree(ms[0], ms[1], ms[2]);
    }
  }

  lemma {:induction false} RulesSize(rules: seq<ToolRule>)
    requires forall k :: 0 <= k < |rules| ==> |Escaped(rules[k].name)| <= 256
    ensures |G.RulesJson(rules)| <= 320 * |rules|
    decreases |rules|
  {
    hide Escaped;
    if rules != [] {
      RulesSize(rules[1..]);
      assert |G.RuleJson(rules[0])| <= 319;
    }
  }

  /** Distinct names drawn from a list are no more than the list. */
  lemma {:induction false} DrawnFrom(xs: seq<Bytes>, ys: seq<Bytes>)
    requires G.NoRepeats(xs) && forall k :: 0 <= k < |xs| ==> xs[k] in ys
    ensures |xs| <= |ys|
    decreases |xs|
  {
    if xs != [] {
      var j := InIndex(xs[0], ys);
      var rest, left := xs[1..], ys[..j] + ys[j + 1..];
      forall k | 0 <= k < |rest| ensures rest[k] in left {
        assert rest[k] == xs[k + 1] && xs[0] != xs[k + 1];
        var i := InIndex(rest[k], ys);
        assert left[if i < j then i else i - 1] == rest[k];
      }
      DrawnFrom(rest, left);
    }
  }

  // ---- end to end ----

  /** A name that every stage writes unchanged. */
  ghost predicate PlainName(name: Bytes) {
    Escaped(name) == name && EscapeFree(name) && 0 < |name| <= 256
  }

  lemma AllowRulesPlain(allow: seq<Bytes>)
    requires forall k :: 0 <= k < |allow| ==> PlainName(allow[k])
    requires G.NoRepeats(allow)
    ensures var rules := Sort(Map(G.AllowRule, allow), RuleName);
            && AllowRules(rules) && Distinct(rules, RuleName) && |rules| == |allow|
            && (forall k :: 0 <= k < |rules| ==> |Escaped(rules[k].name)| <= 256)
            && AllowsOnly(rules, allow)
  {
    hide Sort, Escaped, Distinct, G.NoRepeats, Lookup, EscapeFree;
    var drawn := Map(G.AllowRule, allow);
    var rules := Sort(drawn, RuleName);
    G.RulesDistinct(allow);
    SortPermutes(drawn, RuleName);
    SortDistinct(drawn, RuleName);
    forall k | 0 <= k < |rules| ensures AllowsPlainly(rules[k]) && |Escaped(rules[k].name)| <= 256 {
      var j := RuleOrigin(rules, drawn, k);
    }
    forall name ensures Lookup(rules, name) == if name in allow then Some(ToolRule(name, Allow, Allow)) else None {
      AllowLookup(allow, name);
      SameLookup(rules, drawn, name);
    }
  }

  lemma RuleOrigin(rules: seq<ToolRule>, drawn: seq<ToolRule>, k: nat) returns (j: nat)
    requires k < |rules| && forall rule :: rule in rules <==> rule in drawn
    ensures j < |drawn| && drawn[j] == rules[k]
  {
    assert rules[k] in rules;
    j := InIndex(rules[k], drawn);
  }

  lemma {:induction false} AllowLookup(allow: seq<Bytes>, name: Bytes)
    ensures Lookup(Map(G.AllowRule, allow), name) == if name in allow then Some(G.AllowRule(name)) else None
    decreases |allow|
  {
    if allow != [] {
      AllowLookup(allow[1..], name);
      assert allow == [allow[0]] + allow[1..];
      assert Map(G.AllowRule, allow)[1..] == Map(G.AllowRule, allow[1..]);
    }
  }

  /** The loader takes the generated policy back. */
  lemma GeneratedLoads(allow: seq<Bytes>)
    requires forall k :: 0 <= k < |allow| ==> PlainName(allow[k])
    requires G.NoRepeats(allow) && |allow| <= 256
    ensures var rules := Sort(Map(G.AllowRule, allow), RuleName);
            var policy := G.PolicyJson(rules);
            && L.Loads(policy, LOADER_CONFIG)
            && L.DefinitionIn(DocMembers(policy, Strict).value) ==
               L.PolicyDefinition(PolicyDefaults(Deny, Deny), Sort(rules, RuleName))
  {
    hide Sort, Escaped, Distinct, G.NoRepeats, Text, DocMembers, L.IsPolicy, L.RulesIn, L.DefaultsOf, Exceeds;
    hide G.RulesJson, WellFormed, PolicyMembers, MembersBrackets, AllowRules, AllowsOnly, PlainName;
    var rules := Sort(Map(G.AllowRule, allow), RuleName);
    AllowRulesPlain(allow);
    PolicyLoads(rules, 16);
    PolicyText(rules);
    PolicyWellFormed(rules);
    DocOfTree(PolicyMembers(rules), Strict);
    DocScan(G.PolicyJson(rules), Strict, 16);
    RulesSize(rules);
  }

  /** The names of an inventory and the items behind them. */
  lemma InventoryNames(message: Bytes, idJson: Bytes, executable: Bytes) returns (sorted: seq<Item>)
    requires Inventory.Accepts(message, idJson, INVENTORY_LIMITS)
    ensures var inventory := Inventory.InventoryFrom(DocMembers(message, OpenEnd).value, executable);
            && inventory == Inventory.ToolInventory(executable, Map(ItemEntry, sorted))
            && ObjectItems(sorted) && |sorted| <= 256
            && (forall k :: 0 <= k < |sorted| ==> KeptTool(sorted[k], INVENTORY_LIMITS))
            && Distinct(Map(ItemEntry, sorted), Inventory.EntryName)
            && forall k :: 0 <= k < |sorted| ==> PlainName(Map(ItemEntry, sorted)[k].name)
  {
    hide DocMembers, Inventory.IsResponse, ItemEntry, Sort, Inventory.IsTool, WellFormedMembers, Inventory.EntryFrom;
    hide Inventory.InventoryFrom, Escaped, EscapeFree;
    DocWellFormed(message, OpenEnd);
    var members := DocMembers(message, OpenEnd).value;
    ResponseTools(members, idJson, INVENTORY_LIMITS);
    sorted := SortedInventory(members, executable, idJson, INVENTORY_LIMITS);
    var items := ToolItems(members);
    forall k | 0 <= k < |sorted|
      ensures KeptTool(sorted[k], INVENTORY_LIMITS) && PlainName(Map(ItemEntry, sorted)[k].name)
    {
      assert sorted[k] in sorted;
      var j := InIndex(sorted[k], items);
      NameUnchanged(sorted[k], INVENTORY_LIMITS);
    }
    AscendingIsDistinct(Map(ItemEntry, sorted));
  }

  lemma AscendingIsDistinct(tools: seq<Inventory.ToolEntry>)
    requires Ascending(tools, Inventory.EntryName)
    ensures Distinct(tools, Inventory.EntryName)
  {
    forall i, j | 0 <= i < j < |tools| ensures Inventory.EntryName(tools[i]) != Inventory.EntryName(tools[j]) {
      BelowTotal(Inventory.EntryName(tools[i]), Inventory.EntryName(tools[j]));
    }
  }

  /** The allow list is drawn from the inventory's names, each once. */
  ghost predicate DrawnFromInventory(allow: seq<Bytes>, inventory: Inventory.ToolInventory) {
    G.NoRepeats(allow) && forall k :: 0 <= k < |allow| ==> allow[k] in NamesOf(inventory.tools)
  }

  /** END TO END: for every response accepted under the default limits whose inventory the
      generator can take, and every allow list, the generator succeeds exactly when the list is
      drawn from the inventory's names without repetition; the default loader then accepts the
      policy, its rules build a table, and in that table a name is visible and callable exactly
      when it is on the list. */
  lemma EndToEnd(message: Bytes, idJson: Bytes, executable: Bytes, allow: seq<Bytes>)
    requires Inventory.Accepts(message, idJson, INVENTORY_LIMITS)
    requires var inventory := Inventory.InventoryFrom(DocMembers(message, OpenEnd).value, executable);
             |InventoryJson(inventory)| <= GENERATOR_LIMITS.maxInventoryBytes
    ensures var inventory := Inventory.InventoryFrom(DocMembers(message, OpenEnd).value, executable);
            G.Generates(InventoryJson(inventory), allow, GENERATOR_LIMITS) <==> DrawnFromInventory(allow, inventory)
    ensures var inventory := Inventory.InventoryFrom(DocMembers(message, OpenEnd).value, executable);
            DrawnFromInventory(allow, inventory) ==>
              var policy := G.PolicyJson(Sort(Map(G.AllowRule, allow), RuleName));
              && L.Loads(policy, LOADER_CONFIG)
              && AllowsExactly(L.DefinitionIn(DocMembers(policy, Strict).value), allow)
  {
    hide DocMembers, Inventory.Accepts, Inventory.InventoryFrom, InventoryJson, G.NoRepeats, G.PolicyJson, Sort, KeptTool, ItemEntry;
    hide L.DefinitionIn, PlainName, ObjectItems, Distinct, L.Loads, AllowsExactly, AllowsOnly;
    var sorted := InventoryNames(message, idJson, executable);
    GeneratesExactly(executable, sorted, allow);
    if DrawnFromInventory(allow, Inventory.ToolInventory(executable, Map(ItemEntry, sorted))) {
      var names := NamesOf(Map(ItemEntry, sorted));
      DrawnFrom(allow, names);
      forall k | 0 <= k < |allow| ensures PlainName(allow[k]) {
        var j := InIndex(allow[k], names);
      }
      GeneratedLoads(allow);
      LoadedAllows(allow);
    }
  }

  /** What the loaded definition has to mean: its rules build a table that allows these names and
      denies all others. */
  ghost predicate AllowsExactly(definition: L.PolicyDefinition, allow: seq<Bytes>) {
    && Distinct(definition.rules, RuleName)
    && (forall k :: 0 <= k < |definition.rules| ==> definition.rules[k].name != [])
    && definition.defaults == PolicyDefaults(Deny, Deny)
    && AllowsOnly(definition.rules, allow)
  }

  ghost predicate AllowsOnly(rules: seq<ToolRule>, allow: seq<Bytes>) {
    forall name :: Lookup(rules, name) == if name in allow then Some(ToolRule(name, Allow, Allow)) else None
  }

  lemma LoadedAllows(allow: seq<Bytes>)
    requires forall k :: 0 <= k < |allow| ==> PlainName(allow[k])
    requires G.NoRepeats(allow)
    ensures AllowsExactly(
      L.PolicyDefinition(PolicyDefaults(Deny, Deny), Sort(Sort(Map(G.AllowRule, allow), RuleName), RuleName)), allow)
  {
    hide Sort, Distinct, Lookup, G.NoRepeats, PlainName, AllowRules, Map, AllowsOnly;
    var rules := Sort(Map(G.AllowRule, allow), RuleName);
    AllowRulesPlain(allow);
    NamesNonEmpty(rules);
    Resorted(rules);
    SameAllowsOnly(rules, Sort(rules, RuleName), allow);
  }

  lemma SameAllowsOnly(a: seq<ToolRule>, b: seq<ToolRule>, allow: seq<Bytes>)
    requires AllowsOnly(a, allow) && forall name :: Lookup(b, name) == Lookup(a, name)
    ensures AllowsOnly(b, allow)
  {
    hide Lookup;
  }

  lemma NamesNonEmpty(rules: seq<ToolRule>)
    requires AllowRules(rules)
    ensures forall k :: 0 <= k < |rules| ==> rules[k].name != []
  {
    hide Escaped, EscapeFree;
  }

  /** Sorting again changes no lookup. */
  lemma Resorted(rules: seq<ToolRule>)
    requires Distinct(rules, RuleName) && forall k :: 0 <= k < |rules| ==> rules[k].name != []
    ensures Distinct(Sort(rules, RuleName), RuleName)
    ensures forall k :: 0 <= k < |Sort(rules, RuleName)| ==> Sort(rules, RuleName)[k].name != []
    ensures forall name :: Lookup(Sort(rules, RuleName), name) == Lookup(rules, name)
  {
    hide Sort, Distinct, Lookup;
    SortPermutes(rules, RuleName);
    SortDistinct(rules, RuleName);
    NamesKept(Sort(rules, RuleName), rules);
  }

  lemma GeneratesExactly(executable: Bytes, sorted: seq<Item>, allow: seq<Bytes>)
    requires forall k :: 0 <= k < |sorted| ==> KeptTool(sorted[k], INVENTORY_LIMITS)
    requires ObjectItems(sorted) && |sorted| <= 256 && Distinct(Map(ItemEntry, sorted), Inventory.EntryName)
    requires |InventoryJson(Inventory.ToolInventory(executable, Map(ItemEntry, sorted)))| <= 1048576
    ensures var inventory := Inventory.ToolInventory(executable, Map(ItemEntry, sorted));
            G.Generates(InventoryJson(inventory), allow, GENERATOR_LIMITS) <==> DrawnFromInventory(allow, inventory)
  {
    hide KeptTool, ItemEntry, InventoryJson, G.NoRepeats, Distinct, ObjectItems, DocMembers, Exceeds, G.IsInventory, G.NamesIn, Text;
    hide InventoryMembers, MembersBrackets, WellFormed, NamesOf;
    var inventory := Inventory.ToolInventory(executable, Map(ItemEntry, sorted));
    if DrawnFromInventory(allow, inventory) {
      InventoryGenerates(executable, sorted, INVENTORY_LIMITS, GENERATOR_LIMITS, allow);
    }
    InventoryAccepted(executable, sorted, INVENTORY_LIMITS, GENERATOR_LIMITS);
    InventoryTextIs(executable, sorted);
    InventoryWellFormed(executable, sorted);
    DocOfTree(InventoryMembers(executable, sorted), OpenEnd);
  }

  /** A table that allows these names, for listing and for calling, and denies all others. */
  ghost predicate AllowList(table: PolicyTable, allow: seq<Bytes>) {
    forall name ::
      && VisibilityFor(table, name) == (if name in allow then Allow else Deny)
      && InvocationFor(table, name) == (if name in allow then Allow else Deny)
  }

  /** The five stages one after the other, under the default limits. */
  method CreatePolicyTable(message: Bytes, idJson: Bytes, executable: Bytes, allow: seq<Bytes>)
    returns (table: Option<PolicyTable>)
    ensures table.Some? <==>
              && Inventory.Accepts(message, idJson, INVENTORY_LIMITS)
              && var inventory := Inventory.InventoryFrom(DocMembers(message, OpenEnd).value, executable);
              && |InventoryJson(inventory)| <= GENERATOR_LIMITS.maxInventoryBytes
              && DrawnFromInventory(allow, inventory)
    ensures table.Some? ==> table.value.Valid() && AllowList(table.value, allow)
  {
    hide DocMembers, Inventory.IsResponse, Inventory.InventoryFrom, InventoryJson, DrawnFromInventory, G.Generates, G.PolicyJson;
    hide L.Loads, L.DefinitionIn, Sort, Map, Distinct, Lookup, AllowsOnly, AllowList;
    var inventory := Inventory.ParseToolsListResponse(message, idJson, executable, INVENTORY_LIMITS);
    if inventory.None? {
      return None;
    }
    var ok, inventoryJson := EmitInventoryJson(inventory.value, GENERATOR_LIMITS.maxInventoryBytes);
    if !ok {
      return None;
    }
    EndToEnd(message, idJson, executable, allow);
    var policyJson := G.GeneratePolicyFromInventory(inventoryJson, allow, GENERATOR_LIMITS);
    if policyJson.None? {
      return None;
    }
    var definition := L.Parse(policyJson.value, LOADER_CONFIG);
    if definition.None? {
      return None;
    }
    var built, result := Build(definition.value.rules, definition.value.defaults);
    if !built {
      return None;
    }
    TableAllows(result, definition.value.rules, allow);
    return Some(result);
  }

  lemma TableAllows(table: PolicyTable, rules: seq<ToolRule>, allow: seq<Bytes>)
    requires AllowsOnly(rules, allow) && table.defaults == PolicyDefaults(Deny, Deny)
    requires forall name :: Lookup(table.rules, name) == Lookup(rules, name)
    ensures AllowList(table, allow)
  {
    hide Lookup;
    forall name
      ensures VisibilityFor(table, name) == (if name in allow then Allow else Deny)
      ensures InvocationFor(table, name) == (if name in allow then Allow else Deny)
    {
      assert Lookup(table.rules, name) == Lookup(rules, name);
    }
  }
}

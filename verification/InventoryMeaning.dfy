/** What accepted responses and emitted inventories say about each other. */
module InventoryMeaning {
  import opened Bytes
  import opened Json
  import opened Scanner
  import opened ScannerGrammar
  import opened Documents
  import opened Sorting
  import opened Objects
  import opened CanonicalForm
  import opened Canonicalizer
  import opened Escape
  import opened Inventory
  import opened InventoryText

  // ---- documents are well formed ----

  lemma MemberIsWellFormed(s: Bytes, b: nat)
    requires b <= |s| && ParseMember(s, b).AMember?
    ensures WellFormedMember(ParseMember(s, b).member)
  {
    hide ParseMember, WellFormedMember;
    MemberSound(s, b);
  }

  lemma {:induction false} ParsedWellFormed(s: Bytes, b: nat, tail: Tail)
    requires b <= |s| && ParseMembers(s, b, tail).Members?
    ensures WellFormedMembers(ParseMembers(s, b, tail).members)
    decreases |s| - b
  {
    hide ParseMember, ParseMembers, WsEnd, WellFormedMember, WellFormedMembers;
    NoneWellFormed();
    MembersUnfold(s, b, tail);
    if ParseMembers(s, b, tail).members != [] {
      var AMember(m, e) := ParseMember(s, b);
      MemberIsWellFormed(s, b);
      if s[e] == ',' {
        ParsedWellFormed(s, e + 1, tail);
        WellFormedMore(m, ParseMembers(s, e + 1, tail).members);
      } else {
        WellFormedOne(m);
      }
    }
  }

  lemma DocWellFormed(s: Bytes, tail: Tail)
    requires DocMembers(s, tail).Some?
    ensures WellFormedMembers(DocMembers(s, tail).value)
  {
    hide ParseMembers, WsEnd;
    var b := BodyStart(s).value;
    if ParseMembers(s, b, tail).Members? { ParsedWellFormed(s, b, tail); }
  }

  // ---- the tools of a response ----

  /** The items of `result.tools`. */
  function ToolItems(members: seq<Member>): seq<Item> {
    var result := Find(members, "result");
    if result.Some? && result.value.Obj? then
      var tools := Find(result.value.members, "tools");
      if tools.Some? && tools.value.Arr? then tools.value.items else []
    else []
  }

  /** What an accepted response lists. */
  lemma ResponseTools(members: seq<Member>, expectedIdJson: Bytes, limits: InventoryLimits)
    requires IsResponse(members, expectedIdJson, limits) && WellFormedMembers(members)
    ensures AreTools(ToolItems(members), limits) && ObjectItems(ToolItems(members))
    ensures ResultTools(members) == Map(ItemEntry, ToolItems(members))
  {
    hide Find, Count, WellFormed, AreTools, EntryFrom;
    AdmissibleFind(members, ResponseMember(limits), RESPONSE_KEYS, "result");
    var result := Find(members, "result").value;
    assert IsResult(result, limits);
    FindWellFormed(members, "result");
    assert WellFormedMembers(result.members) by { ObjMembers(result); }
    AdmissibleFind(result.members, ResultMember(limits), RESULT_KEYS, "tools");
    var tools := Find(result.members, "tools").value;
    assert IsToolsArray(tools, limits);
    FindWellFormed(result.members, "tools");
    ToolsAreObjects(tools, limits);
  }

  lemma ObjMembers(v: Value)
    requires v.Obj? && WellFormed(v)
    ensures WellFormedMembers(v.members)
  {
  }

  lemma ToolsAreObjects(v: Value, limits: InventoryLimits)
    requires IsToolsArray(v, limits) && WellFormed(v)
    ensures ObjectItems(v.items) && EntriesFrom(v.items) == Map(ItemEntry, v.items)
  {
    hide EntryFrom, IsTool;
    WellFormedEachItem(v.items);
    forall k | 0 <= k < |v.items| ensures v.items[k].value.Obj? && WellFormedMembers(v.items[k].value.members) {
      ToolIsObject(v.items[k].value, limits);
      assert WellFormedItem(v.items[k]);
      ObjMembers(v.items[k].value);
    }
  }

  // ---- the tree of the inventory ----

  lemma ToolMembersFind(members: seq<Member>)
    ensures var t := ToolMembers(members);
            && Count(t, "name") == 1 && Find(t, "name") == Some(Str(Escaped(RawOf(Find(members, "name")))))
            && Find(t, "description") == Find(members, "description")
            && Find(t, "inputSchema") == MaybeCanonical(Find(members, "inputSchema"))
            && Find(t, "annotations") == MaybeCanonical(Find(members, "annotations"))
  {
    hide Canonical, Escaped, Find, Count;
    ToolKeys();
    FourFind("name", Str(Escaped(RawOf(Find(members, "name")))), "description", Find(members, "description"),
      "inputSchema", MaybeCanonical(Find(members, "inputSchema")), "annotations", MaybeCanonical(Find(members, "annotations")));
  }

  lemma ToolKeys()
    ensures "name" != "description" && "name" != "inputSchema" && "name" != "annotations"
    ensures "description" != "inputSchema" && "description" != "annotations" && "inputSchema" != "annotations"
  {
    assert |"name"| == 4 && |"description"| == 11 && |"inputSchema"| == 11 && |"annotations"| == 11;
    assert "description"[0] == 'd' && "inputSchema"[0] == 'i' && "annotations"[0] == 'a';
  }

  lemma FourFind(k: Bytes, v: Value, l: Bytes, b: Option<Value>, m: Bytes, c: Option<Value>, n: Bytes, d: Option<Value>)
    requires k != l && k != m && k != n && l != m && l != n && m != n
    ensures var t := [Tight(k, v)] + MaybeMember(l, b) + MaybeMember(m, c) + MaybeMember(n, d);
            && Count(t, k) == 1 && Find(t, k) == Some(v)
            && Find(t, l) == b && Find(t, m) == c && Find(t, n) == d
  {
    OneFind(k, v);
    MaybeFind(l, b);
    MaybeFind(m, c);
    MaybeFind(n, d);
    hide Find, Count, MaybeMember, Tight;
    FindInFour([Tight(k, v)], MaybeMember(l, b), MaybeMember(m, c), MaybeMember(n, d), k);
    FindInFour([Tight(k, v)], MaybeMember(l, b), MaybeMember(m, c), MaybeMember(n, d), l);
    FindInFour([Tight(k, v)], MaybeMember(l, b), MaybeMember(m, c), MaybeMember(n, d), m);
    FindInFour([Tight(k, v)], MaybeMember(l, b), MaybeMember(m, c), MaybeMember(n, d), n);
  }

  lemma OneFind(key: Bytes, v: Value)
    ensures forall k :: Find([Tight(key, v)], k) == if k == key then Some(v) else None
    ensures forall k :: Count([Tight(key, v)], k) == if k == key then 1 else 0
  {
  }

  lemma MaybeFind(key: Bytes, v: Option<Value>)
    ensures forall k :: Find(MaybeMember(key, v), k) == if k == key then v else None
    ensures forall k :: Count(MaybeMember(key, v), k) == if k == key && v.Some? then 1 else 0
  {
  }

  lemma FindInFour(a: seq<Member>, b: seq<Member>, c: seq<Member>, d: seq<Member>, key: Bytes)
    ensures Find(a + b + c + d, key) ==
            if Find(a, key).Some? then Find(a, key) else if Find(b, key).Some? then Find(b, key)
            else if Find(c, key).Some? then Find(c, key) else Find(d, key)
    ensures Count(a + b + c + d, key) == Count(a, key) + Count(b, key) + Count(c, key) + Count(d, key)
  {
    hide Find, Count;
    CountAppend(a + b + c, d, key);
    CountAppend(a + b, c, key);
    CountAppend(a, b, key);
  }

  /** WHAT THE INVENTORY SAYS: read as JSON, the emitted bytes hold the version, the executable and, in
      order, for every entry the name, the description as it was written, and the canonical schema
      and annotations of its tool, each only if the tool has it. */
  lemma InventorySays(executable: Bytes, items: seq<Item>) returns (server: Value, tools: Value)
    requires ObjectItems(items)
    ensures var document := DocMembers(InventoryJson(ToolInventory(executable, Map(ItemEntry, items))), Strict);
            && document.Some? && Find(document.value, "inventory_version") == Some(Num("1"))
            && Find(document.value, "server") == Some(server) && server.Obj?
            && Find(server.members, "downstream_executable") == Some(Str(Escaped(executable)))
            && Find(document.value, "tools") == Some(tools) && tools.Arr? && |tools.items| == |items|
    ensures forall k :: 0 <= k < |items| ==>
              var tool, from := tools.items[k].value, items[k].value.members;
              && tool.Obj? && Find(tool.members, "name") == Some(Str(Escaped(RawOf(Find(from, "name")))))
              && Find(tool.members, "description") == Find(from, "description")
              && Find(tool.members, "inputSchema") == MaybeCanonical(Find(from, "inputSchema"))
              && Find(tool.members, "annotations") == MaybeCanonical(Find(from, "annotations"))
  {
    hide WellFormed, Text, InventoryJson, Escaped, ToolMembers, EntryFrom, Find, DocMembers, Canonical, RawOf;
    InventoryTextIs(executable, items);
    InventoryWellFormed(executable, items);
    var members := InventoryMembers(executable, items);
    DocComplete([], [], members, []);
    var text := Text(Obj([], members));
    assert DocText([], [], members, []) == [] + text + [] == text;
    server, tools := ServerTree(executable), Arr([], Map(ToolTree, items));
    ThreeFind(Tight("inventory_version", Num("1")), Tight("server", server), Tight("tools", tools));
    OneFind("downstream_executable", Str(Escaped(executable)));
    forall k | 0 <= k < |items|
      ensures var tool, from := tools.items[k].value, items[k].value.members;
              && tool.Obj? && Find(tool.members, "name") == Some(Str(Escaped(RawOf(Find(from, "name")))))
              && Find(tool.members, "description") == Find(from, "description")
              && Find(tool.members, "inputSchema") == MaybeCanonical(Find(from, "inputSchema"))
              && Find(tool.members, "annotations") == MaybeCanonical(Find(from, "annotations"))
    {
      ToolMembersFind(items[k].value.members);
    }
  }

  lemma ThreeFind(a: Member, b: Member, c: Member)
    ensures Find([a, b, c], a.key) == Some(a.value)
    ensures a.key != b.key ==> Find([a, b, c], b.key) == Some(b.value)
    ensures a.key != c.key && b.key != c.key ==> Find([a, b, c], c.key) == Some(c.value)
  {
    assert [a, b, c][1..] == [b, c] && [b, c][1..] == [c];
    assert Find([c], c.key) == Some(c.value);
    assert b.key != c.key ==> Find([b, c], c.key) == Find([c], c.key);
  }

  /** The tree of a tool determines the entry. */
  lemma SameTreeSameEntry(xs: seq<Member>, ys: seq<Member>)
    requires ToolMembers(xs) == ToolMembers(ys)
    ensures EntryFrom(xs) == EntryFrom(ys)
  {
    hide Find, Count, Escaped, Canonical, Text, ToolMembers;
    ToolMembersFind(xs);
    ToolMembersFind(ys);
    EscapedInjective(RawOf(Find(xs, "name")), RawOf(Find(ys, "name")));
  }

  /** EMITTED BYTES DETERMINE THE INVENTORY: the same bytes mean the same executable and the same
      entries in the same order. */
  lemma InventoryInjective(x: Bytes, xs: seq<Item>, y: Bytes, ys: seq<Item>)
    requires ObjectItems(xs) && ObjectItems(ys)
    requires InventoryJson(ToolInventory(x, Map(ItemEntry, xs))) == InventoryJson(ToolInventory(y, Map(ItemEntry, ys)))
    ensures x == y && Map(ItemEntry, xs) == Map(ItemEntry, ys)
  {
    hide WellFormed, Text, InventoryJson, Escaped, ToolMembers, EntryFrom;
    InventoryTextIs(x, xs);
    InventoryTextIs(y, ys);
    InventoryWellFormed(x, xs);
    InventoryWellFormed(y, ys);
    var a, b := InventoryMembers(x, xs), InventoryMembers(y, ys);
    TextInjective(Obj([], a), Obj([], b));
    assert a[1] == b[1] && a[2] == b[2];
    assert ServerTree(x).members[0] == ServerTree(y).members[0];
    EscapedInjective(x, y);
    var tx, ty := Map(ToolTree, xs), Map(ToolTree, ys);
    forall k | 0 <= k < |xs| ensures Map(ItemEntry, xs)[k] == Map(ItemEntry, ys)[k] {
      assert tx[k] == ty[k];
      SameTreeSameEntry(xs[k].value.members, ys[k].value.members);
    }
  }

  // ---- determinism ----

  ghost predicate SameOptional(a: Option<Value>, b: Option<Value>) {
    if a.Some? && b.Some? then Equivalent(a.value, b.value) else a == b
  }

  /** The same tool up to member order and whitespace. */
  ghost predicate SameTool(x: Item, y: Item) {
    && x.value.Obj? && y.value.Obj?
    && var a := x.value.members; var b := y.value.members;
    && RawOf(Find(a, "name")) == RawOf(Find(b, "name"))
    && Find(a, "description") == Find(b, "description")
    && SameOptional(Find(a, "inputSchema"), Find(b, "inputSchema"))
    && SameOptional(Find(a, "annotations"), Find(b, "annotations"))
  }

  ghost predicate Listed(x: Item, ys: seq<Item>) {
    exists j :: 0 <= j < |ys| && SameTool(x, ys[j])
  }

  /** The same tools in any order. */
  ghost predicate SameTools(xs: seq<Item>, ys: seq<Item>) {
    (forall i :: 0 <= i < |xs| ==> Listed(xs[i], ys)) && (forall j :: 0 <= j < |ys| ==> Listed(ys[j], xs))
  }

  lemma SchemaExactly(xs: seq<Member>, ys: seq<Member>, key: Bytes, limits: InventoryLimits)
    requires IsTool(Obj([], xs), limits) && IsTool(Obj([], ys), limits)
    requires WellFormedMembers(xs) && WellFormedMembers(ys)
    requires key == "inputSchema" || key == "annotations"
    ensures CanonicalOf(Find(xs, key)) == CanonicalOf(Find(ys, key)) <==> SameOptional(Find(xs, key), Find(ys, key))
  {
    hide Find, Text, Canonical, Equivalent, WellFormed;
    KeptTexts(xs);
    KeptTexts(ys);
    hide WellFormedMembers;
    if Find(xs, key).Some? && Find(ys, key).Some? {
      SchemaGood(xs, key, limits);
      SchemaGood(ys, key, limits);
      CanonicalExactly(Find(xs, key).value, Find(ys, key).value);
    }
  }

  lemma SchemaGood(members: seq<Member>, key: Bytes, limits: InventoryLimits)
    requires IsTool(Obj([], members), limits) && Find(members, key).Some?
    requires key == "inputSchema" || key == "annotations"
    ensures GoodSchema(Find(members, key).value, limits)
  {
    hide Find, Count, Canonicalizes;
    AdmissibleFind(members, ToolMember(limits), TOOL_KEYS, key);
  }

  /** Entries are equal exactly when the tools are the same. */
  lemma SameToolExactly(x: Item, y: Item, limits: InventoryLimits)
    requires IsTool(x.value, limits) && IsTool(y.value, limits)
    requires WellFormedMembers(x.value.members) && WellFormedMembers(y.value.members)
    ensures ItemEntry(x) == ItemEntry(y) <==> SameTool(x, y)
  {
    var a, b := x.value.members, y.value.members;
    AnyPad(x.value, limits);
    AnyPad(y.value, limits);
    KeptTexts(a);
    KeptTexts(b);
    hide IsTool, Find, Text, CanonicalText, WellFormed, WellFormedMembers;
    SchemaExactly(a, b, "inputSchema", limits);
    SchemaExactly(a, b, "annotations", limits);
    hide SameOptional;
    var d, e := Find(a, "description"), Find(b, "description");
    if TextOf(d) == TextOf(e) && d.Some? && e.Some? { TextInjective(d.value, e.value); }
  }

  lemma AnyPad(v: Value, limits: InventoryLimits)
    requires IsTool(v, limits)
    ensures v.Obj? && IsTool(Obj([], v.members), limits)
  {
  }

  lemma ListedExactly(x: Item, ys: seq<Item>, limits: InventoryLimits)
    requires IsTool(x.value, limits) && WellFormedMembers(x.value.members)
    requires AreTools(ys, limits) && ObjectItems(ys)
    ensures Listed(x, ys) <==> ItemEntry(x) in Map(ItemEntry, ys)
  {
    hide IsTool, SameTool, ItemEntry, WellFormedMembers;
    var ey := Map(ItemEntry, ys);
    if Listed(x, ys) {
      var j :| 0 <= j < |ys| && SameTool(x, ys[j]);
      SameToolExactly(x, ys[j], limits);
      assert ey[j] == ItemEntry(x);
    }
    if ItemEntry(x) in ey {
      var j := InIndex(ItemEntry(x), ey);
      SameToolExactly(x, ys[j], limits);
    }
  }

  ghost predicate AllListed(xs: seq<Item>, ys: seq<Item>) {
    forall i :: 0 <= i < |xs| ==> Listed(xs[i], ys)
  }

  ghost predicate Within(a: seq<ToolEntry>, b: seq<ToolEntry>) {
    forall e :: e in a ==> e in b
  }

  lemma AllListedExactly(xs: seq<Item>, ys: seq<Item>, limits: InventoryLimits)
    requires AreTools(xs, limits) && AreTools(ys, limits) && ObjectItems(xs) && ObjectItems(ys)
    ensures AllListed(xs, ys) <==> Within(Map(ItemEntry, xs), Map(ItemEntry, ys))
  {
    hide IsTool, Listed, ItemEntry, WellFormedMembers;
    var ex, ey := Map(ItemEntry, xs), Map(ItemEntry, ys);
    forall i | 0 <= i < |xs| ensures Listed(xs[i], ys) <==> ex[i] in ey { ListedExactly(xs[i], ys, limits); }
    if AllListed(xs, ys) {
      forall e | e in ex ensures e in ey { var i := InIndex(e, ex); }
    }
  }

  lemma EntriesSame(xs: seq<Item>, ys: seq<Item>, limits: InventoryLimits)
    requires AreTools(xs, limits) && AreTools(ys, limits) && ObjectItems(xs) && ObjectItems(ys)
    ensures SameTools(xs, ys) <==>
              Within(Map(ItemEntry, xs), Map(ItemEntry, ys)) && Within(Map(ItemEntry, ys), Map(ItemEntry, xs))
  {
    hide AreTools, ObjectItems, Listed, Within;
    AllListedExactly(xs, ys, limits);
    AllListedExactly(ys, xs, limits);
    assert SameTools(xs, ys) <==> AllListed(xs, ys) && AllListed(ys, xs);
  }

  /** The inventory of a response, in terms of its items sorted by name. */
  lemma SortedInventory(members: seq<Member>, executable: Bytes, expectedIdJson: Bytes, limits: InventoryLimits)
    returns (sorted: seq<Item>)
    requires IsResponse(members, expectedIdJson, limits) && WellFormedMembers(members)
    ensures var items, tools := ToolItems(members), InventoryFrom(members, executable).tools;
            && InventoryFrom(members, executable) == ToolInventory(executable, Map(ItemEntry, sorted))
            && tools == Sort(Map(ItemEntry, items), EntryName) && Ascending(tools, EntryName)
            && (forall e :: e in tools <==> e in Map(ItemEntry, items))
            && sorted == Sort(items, ItemName) && ObjectItems(sorted) && |sorted| == |items|
            && forall item :: item in sorted <==> item in items
  {
    hide ResultTools, ToolItems, Sort, EntryFrom, WellFormedMembers, Ascending;
    ResponseTools(members, expectedIdJson, limits);
    var items := ToolItems(members);
    var entries := Map(ItemEntry, items);
    sorted := Sort(items, ItemName);
    SortMap(items, ItemEntry, ItemName, EntryName);
    SortPermutes(items, ItemName);
    SortPermutes(entries, EntryName);
    assert Distinct(entries, EntryName) by { ToolsDistinct(items, limits); }
    SortAscends(entries, EntryName);
    forall k | 0 <= k < |sorted| ensures sorted[k].value.Obj? && WellFormedMembers(sorted[k].value.members) {
      assert sorted[k] in sorted;
      var j := InIndex(sorted[k], items);
    }
  }

  lemma ToolsDistinct(items: seq<Item>, limits: InventoryLimits)
    requires AreTools(items, limits) && ObjectItems(items)
    ensures Distinct(Map(ItemEntry, items), EntryName)
  {
    hide EntryFrom, IsTool;
    assert EntriesFrom(items) == Map(ItemEntry, items);
  }

  /** INVENTORY DETERMINISM, both directions: two accepted responses emit the same bytes exactly
      when they name the same executable and list the same tools, whatever the order of tools and
      members and whatever the whitespace. */
  lemma InventoryDeterminism(a: Bytes, idA: Bytes, x: Bytes, b: Bytes, idB: Bytes, y: Bytes, limits: InventoryLimits)
    requires Accepts(a, idA, limits) && Accepts(b, idB, limits)
    ensures var ma, mb := DocMembers(a, OpenEnd).value, DocMembers(b, OpenEnd).value;
            InventoryJson(InventoryFrom(ma, x)) == InventoryJson(InventoryFrom(mb, y)) <==>
              x == y && SameTools(ToolItems(ma), ToolItems(mb))
  {
    hide DocMembers, IsResponse, InventoryFrom, ToolItems, InventoryJson, SameTools, AreTools, Sort, ObjectItems, Ascending, WellFormedMembers;
    DocWellFormed(a, OpenEnd);
    DocWellFormed(b, OpenEnd);
    var ma, mb := DocMembers(a, OpenEnd).value, DocMembers(b, OpenEnd).value;
    ResponseTools(ma, idA, limits);
    ResponseTools(mb, idB, limits);
    var sa := SortedInventory(ma, x, idA, limits);
    var sb := SortedInventory(mb, y, idB, limits);
    EntriesSame(ToolItems(ma), ToolItems(mb), limits);
    hide Within;
    if InventoryJson(InventoryFrom(ma, x)) == InventoryJson(InventoryFrom(mb, y)) {
      InventoryInjective(x, sa, y, sb);
      SameWithin(Map(ItemEntry, ToolItems(ma)), Map(ItemEntry, ToolItems(mb)), InventoryFrom(ma, x).tools);
    }
    if SameTools(ToolItems(ma), ToolItems(mb)) {
      BothWithin(Map(ItemEntry, ToolItems(ma)), Map(ItemEntry, ToolItems(mb)));
      AscendingUnique(InventoryFrom(ma, x).tools, InventoryFrom(mb, y).tools, EntryName);
    }
  }

  lemma SameWithin(a: seq<ToolEntry>, b: seq<ToolEntry>, c: seq<ToolEntry>)
    requires forall e :: e in c <==> e in a
    requires forall e :: e in c <==> e in b
    ensures Within(a, b) && Within(b, a)
  {
  }

  lemma BothWithin(a: seq<ToolEntry>, b: seq<ToolEntry>)
    requires Within(a, b) && Within(b, a)
    ensures forall e :: e in a <==> e in b
  {
  }
}

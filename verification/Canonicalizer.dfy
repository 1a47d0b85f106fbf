/** `canonicalize_value` and its helpers (src/tool_inventory.cpp): the canonical bytes are built
    while scanning, with the depth and size limits checked on the way.

    `Outcome` is the contract of all of them: on a well-formed value they succeed exactly when
    its depth fits, no object repeats a key and the final canonical text fits; then they have
    appended exactly that text. An object that breaks off at the end of input is closed by the
    loop itself, which the callers see from the offset. */
module Canonicalizer {
  import opened Bytes
  import opened Json
  import opened Scanner
  import opened ScannerGrammar
  import opened Documents
  import opened Sorting
  import opened CanonicalForm
  import opened Objects

  ghost predicate Canonicalizes(v: Value, depth: nat, limit: nat) {
    Fits(v, depth, limit) && NoDuplicateKeys(v)
  }

  function CanonicalText(v: Value): Bytes {
    Text(Canonical(v))
  }

  /** What a call that started at `begin` with `before` in its output has to leave behind. */
  ghost predicate Outcome(s: Bytes, begin: nat, depth: nat, limit: nat, before: Bytes, maxBytes: nat,
                          ok: bool, offset: nat, output: Bytes)
    requires begin <= |s|
  {
    if ok then Accepted(s, begin, depth, limit, before, maxBytes, offset, output)
    else Rejected(s, begin, depth, limit, before, maxBytes)
  }

  ghost predicate Accepted(s: Bytes, begin: nat, depth: nat, limit: nat, before: Bytes, maxBytes: nat,
                           offset: nat, output: Bytes)
    requires begin <= |s|
  {
    match ParseValue(s, begin)
    case Fail => offset == |s|
    case Got(v, e) =>
      && Canonicalizes(v, depth, limit) && |before| + |CanonicalText(v)| <= maxBytes
      && offset == e && output == before + CanonicalText(v)
  }

  /** There is no value at `begin`, or something about it is at fault. */
  ghost predicate Rejected(s: Bytes, begin: nat, depth: nat, limit: nat, before: Bytes, maxBytes: nat)
    requires begin <= |s|
  {
    ParseValue(s, begin).Got? ==>
      var v := ParseValue(s, begin).value;
      !(Canonicalizes(v, depth, limit) && |before| + |CanonicalText(v)| <= maxBytes)
  }

  // ---- arrays ----

  /** The canonical text of the items read so far and the comma after them. */
  function Lead(done: seq<Item>): Bytes {
    if done == [] then [] else ItemsText(CanonicalItems(done)) + ","
  }

  lemma {:induction false} ItemsJoin(xs: seq<Item>, ys: seq<Item>)
    requires xs != [] && ys != []
    ensures ItemsText(xs + ys) == ItemsText(xs) + "," + ItemsText(ys)
    decreases |xs|
  {
    assert (xs + ys)[0] == xs[0] && (xs + ys)[1..] == xs[1..] + ys;
    if |xs| == 1 {
      assert xs[1..] + ys == ys;
    } else {
      ItemsJoin(xs[1..], ys);
    }
  }

  lemma {:induction false} CanonicalItemsAppend(xs: seq<Item>, ys: seq<Item>)
    ensures CanonicalItems(xs + ys) == CanonicalItems(xs) + CanonicalItems(ys)
    decreases |xs|
  {
    hide CanonicalItem;
    if xs == [] {
      assert xs + ys == ys;
    } else {
      assert (xs + ys)[0] == xs[0] && (xs + ys)[1..] == xs[1..] + ys;
      CanonicalItemsAppend(xs[1..], ys);
    }
  }

  lemma LeadThen(done: seq<Item>, item: Item)
    ensures ItemsText(CanonicalItems(done + [item])) == Lead(done) + CanonicalText(item.value)
  {
    hide Canonical, Text;
    CanonicalItemsAppend(done, [item]);
    ItemAt([item], 0);
    var c := CanonicalItems([item]);
    assert c == [CanonicalItem(item)];
    assert ItemsText(c) == CanonicalText(item.value) by {
      assert ItemText(CanonicalItem(item)) == [] + CanonicalText(item.value) + [];
    }
    if done == [] {
      assert CanonicalItems(done) + c == c;
    } else {
      ItemsJoin(CanonicalItems(done), c);
    }
  }

  /** More items only make the text longer. */
  lemma LeadGrows(done: seq<Item>, rest: seq<Item>)
    requires rest != []
    ensures |ItemsText(CanonicalItems(done + rest))| >= |Lead(done)| + |CanonicalText(rest[0].value)|
  {
    hide CanonicalText, CanonicalItems, ItemsText, Lead;
    var first, more := rest[0], rest[1..];
    LeadThen(done, first);
    assert done + rest == done + [first] + more;
    if more == [] {
      assert done + rest == done + [first];
    } else {
      CanonicalItemsAppend(done + [first], more);
      ItemsJoin(CanonicalItems(done + [first]), CanonicalItems(more));
    }
  }

  ghost predicate EachItem(items: seq<Item>, depth: nat, limit: nat) {
    forall k :: 0 <= k < |items| ==> Canonicalizes(items[k].value, depth, limit)
  }

  lemma {:induction false} ItemsHeightEach(items: seq<Item>, h: nat)
    ensures ItemsHeight(items) <= h <==> forall k :: 0 <= k < |items| ==> Height(items[k].value) <= h
    decreases |items|
  {
    hide Height;
    if items != [] {
      ItemsHeightEach(items[1..], h);
      if ItemsHeight(items) <= h {
        forall k | 0 <= k < |items| ensures Height(items[k].value) <= h {
          if k > 0 { assert items[k] == items[1..][k - 1]; }
        }
      }
    }
  }

  lemma ArrayCanonicalizes(pad: Bytes, items: seq<Item>, depth: nat, limit: nat)
    requires depth <= limit
    ensures Canonicalizes(Arr(pad, items), depth, limit) <==> EachItem(items, depth + 1, limit)
  {
    ItemsHeightEach(items, limit - depth);
    assert Height(Arr(pad, items)) == 1 + ItemsHeight(items);
  }

  /** Why a failure inside an array is a failure of the whole array. */
  lemma ItemNeeded(pad: Bytes, done: seq<Item>, item: Item, rest: seq<Item>, depth: nat, limit: nat)
    requires depth <= limit && Canonicalizes(Arr(pad, done + [item] + rest), depth, limit)
    ensures Canonicalizes(item.value, depth + 1, limit)
    ensures |CanonicalText(Arr(pad, done + [item] + rest))| >= 2 + |Lead(done)| + |CanonicalText(item.value)|
  {
    hide Canonicalizes, CanonicalText, ItemsText, Lead;
    var items := done + [item] + rest;
    ArrayCanonicalizes(pad, items, depth, limit);
    assert items[|done|] == item;
    assert items == done + ([item] + rest);
    LeadGrows(done, [item] + rest);
    ArrayText(pad, items);
  }

  lemma ArrayText(pad: Bytes, items: seq<Item>)
    ensures CanonicalText(Arr(pad, items)) == "[" + ItemsText(CanonicalItems(items)) + "]"
  {
    hide ItemsText;
    assert "[" + [] + ItemsText(CanonicalItems(items)) + "]" == "[" + ItemsText(CanonicalItems(items)) + "]";
  }

  /** The state of the array loop: `done` has been read and written, the rest starts at `b`. */
  ghost predicate ArrayProgress(s: Bytes, begin: nat, b: nat, done: seq<Item>, depth: nat, limit: nat,
                                before: Bytes, maxBytes: nat, output: Bytes)
    requires begin < |s|
  {
    && begin < b <= |s|
    && ParseItems(s, begin + 1) == AfterItems(done, ParseItems(s, b))
    && EachItem(done, depth + 1, limit)
    && output == before + "[" + ItemsText(CanonicalItems(done)) && |output| <= maxBytes
  }

  /** What the output holds when the value of the next item starts. */
  function ItemHead(before: Bytes, done: seq<Item>): Bytes {
    before + "[" + Lead(done)
  }

  /** A fault in the next item, or after it, is a fault of the array. */
  lemma ArrayItemRejected(s: Bytes, begin: nat, b: nat, done: seq<Item>, depth: nat, limit: nat,
                          before: Bytes, maxBytes: nat, output: Bytes)
    requires begin < |s| && s[begin] == '['
    requires WsEnd(s, begin + 1) < |s| ==> s[WsEnd(s, begin + 1)] != ']'
    requires depth <= limit && ArrayProgress(s, begin, b, done, depth, limit, before, maxBytes, output)
    requires
      || |ItemHead(before, done)| > maxBytes
      || Rejected(s, WsEnd(s, b), depth + 1, limit, ItemHead(before, done), maxBytes)
      || match ParseItem(s, b)
         case NoItem => true
         case AnItem(item, e) =>
           || e == |s| || (s[e] != ',' && s[e] != ']')
           || (s[e] == ']' && |ItemHead(before, done)| + |CanonicalText(item.value)| + 1 > maxBytes)
    ensures Rejected(s, begin, depth, limit, before, maxBytes)
  {
    hide ParseValue, ParseItems, WsEnd, Canonicalizes, CanonicalText, Lead, ItemsText;
    ParseArray(s, begin);
    ItemsAfter(s, b, done);
    if ParseItems(s, begin + 1).Items? {
      var items := ParseItems(s, begin + 1).items;
      var AnItem(item, e) := ParseItem(s, b);
      var rest := if s[e] == ']' then [] else ParseItems(s, e + 1).items;
      assert items == done + [item] + rest;
      if Canonicalizes(Arr([], items), depth, limit) {
        ItemNeeded([], done, item, rest, depth, limit);
      }
    }
  }

  /** What an accepted value says about the item it belongs to. */
  lemma ItemAccepted(s: Bytes, b: nat, depth: nat, limit: nat, head: Bytes, maxBytes: nat, offset: nat, output: Bytes)
    requires b <= |s| && Accepted(s, WsEnd(s, b), depth, limit, head, maxBytes, offset, output)
    ensures offset <= |s|
    ensures match ParseItem(s, b)
            case NoItem => offset == |s|
            case AnItem(item, e) =>
              && e == WsEnd(s, offset) && Canonicalizes(item.value, depth, limit)
              && output == head + CanonicalText(item.value) && |output| <= maxBytes
  {
    hide ParseValue, Canonicalizes, CanonicalText;
  }

  /** One more item read and written. */
  lemma ArrayItemTaken(s: Bytes, begin: nat, b: nat, done: seq<Item>, depth: nat, limit: nat,
                       before: Bytes, maxBytes: nat, head: Bytes, output: Bytes)
    requires begin < |s| && s[begin] == '['
    requires WsEnd(s, begin + 1) < |s| ==> s[WsEnd(s, begin + 1)] != ']'
    requires depth <= limit && ArrayProgress(s, begin, b, done, depth, limit, before, maxBytes, head)
    requires ParseItem(s, b).AnItem? && Canonicalizes(ParseItem(s, b).item.value, depth + 1, limit)
    requires output == ItemHead(before, done) + CanonicalText(ParseItem(s, b).item.value) && |output| <= maxBytes
    ensures var AnItem(item, e) := ParseItem(s, b);
            && (e < |s| && s[e] == ',' ==>
                 ArrayProgress(s, begin, e + 1, done + [item], depth, limit, before, maxBytes, output))
            && (e < |s| && s[e] == ']' && |output| + 1 <= maxBytes ==>
                 Accepted(s, begin, depth, limit, before, maxBytes, e + 1, output + "]"))
  {
    hide ParseValue, ParseItem, ParseItems, WsEnd, Canonicalizes, CanonicalText, Lead, ItemsText;
    var AnItem(item, e) := ParseItem(s, b);
    ParseArray(s, begin);
    ItemsAfter(s, b, done);
    LeadThen(done, item);
    ArrayCanonicalizes([], done + [item], depth, limit);
    ArrayText([], done + [item]);
    GroupItem(before, "[", Lead(done), CanonicalText(item.value), "]");
  }

  lemma GroupItem(a: Bytes, b: Bytes, c: Bytes, d: Bytes, e: Bytes)
    ensures a + b + c + d == a + b + (c + d)
    ensures a + b + c + d + e == a + (b + (c + d) + e)
  {
  }

  /** The start of an array: an empty one, or the loop's first state. */
  lemma ArrayStart(s: Bytes, begin: nat, depth: nat, limit: nat, before: Bytes, maxBytes: nat)
    requires begin < |s| && s[begin] == '[' && depth <= limit
    ensures var j := WsEnd(s, begin + 1);
            && (|before| + 1 > maxBytes ==> Rejected(s, begin, depth, limit, before, maxBytes))
            && (if j < |s| && s[j] == ']'
                then (if |before| + 2 <= maxBytes then Accepted(s, begin, depth, limit, before, maxBytes, j + 1, before + "[" + "]")
                      else Rejected(s, begin, depth, limit, before, maxBytes))
                else |before| + 1 <= maxBytes ==>
                       ArrayProgress(s, begin, begin + 1, [], depth, limit, before, maxBytes, before + "["))
  {
    hide ParseValue, ParseItems, ParseMembers, WsEnd, ItemsText, Canonicalizes, CanonicalText, Text;
    var j := WsEnd(s, begin + 1);
    ParseArray(s, begin);
    if ParseValue(s, begin).Got? {
      var v := ParseValue(s, begin).value;
      ArrayText(v.pad, v.items);
    }
    if j < |s| && s[j] == ']' {
      ArrayText(s[begin + 1..j], []);
      EmptyItems();
      ArrayCanonicalizes(s[begin + 1..j], [], depth, limit);
      assert "[" + [] + "]" == "[" + "]" && before + "[" + "]" == before + ("[" + "]");
    } else {
      EmptyItems();
      assert before + "[" + [] == before + "[";
      if ParseItems(s, begin + 1).Items? { assert [] + ParseItems(s, begin + 1).items == ParseItems(s, begin + 1).items; }
    }
  }

  method CanonicalizeArray(message: Bytes, begin: nat, depth: nat, limit: nat, maxBytes: nat, before: Bytes)
    returns (ok: bool, offset: nat, output: Bytes)
    requires begin < |message| && message[begin] == '['
    ensures Outcome(message, begin, depth, limit, before, maxBytes, ok, offset, output)
    decreases |message| - begin, 0
  {
    hide WsEnd, ParseItem, ParseItems, ParseMembers, ParseValue, Accepted, Rejected;
    hide Canonicalizes, CanonicalText, Lead, ItemHead, ItemsText, ArrayProgress;
    offset := begin + 1;
    if depth > limit {
      TooDeep(message, begin, depth, limit, before, maxBytes);
      return false, offset, before;
    }
    ArrayStart(message, begin, depth, limit, before, maxBytes);
    ok, output := AppendLimited(before, "[", maxBytes);
    if !ok {
      return;
    }
    offset := SkipWhitespace(message, offset);
    if offset < |message| && message[offset] == ']' {
      ok, output := AppendLimited(output, "]", maxBytes);
      return ok, offset + 1, output;
    }
    ghost var b, done := begin + 1, [];
    var first := true;
    while offset < |message|
      invariant begin < b <= |message| && offset == WsEnd(message, b)
      invariant ArrayProgress(message, begin, b, done, depth, limit, before, maxBytes, output)
      invariant first <==> done == []
      decreases |message| - b
    {
      ghost var head := output;
      ArrayHead(message, begin, b, done, depth, limit, before, maxBytes, head);
      if !first {
        ok, output := AppendLimited(output, ",", maxBytes);
        if !ok {
          ArrayItemRejected(message, begin, b, done, depth, limit, before, maxBytes, head);
          return;
        }
      }
      first := false;
      ok, offset, output := CanonicalizeValue(message, offset, depth + 1, limit, maxBytes, output);
      if !ok {
        ArrayItemRejected(message, begin, b, done, depth, limit, before, maxBytes, head);
        return;
      }
      ItemAccepted(message, b, depth + 1, limit, ItemHead(before, done), maxBytes, offset, output);
      offset := SkipWhitespace(message, offset);
      if offset == |message| {
        ArrayItemRejected(message, begin, b, done, depth, limit, before, maxBytes, head);
        return false, offset, output;
      }
      ArrayItemTaken(message, begin, b, done, depth, limit, before, maxBytes, head, output);
      if message[offset] == ']' {
        ok, output := AppendLimited(output, "]", maxBytes);
        if !ok { ArrayItemRejected(message, begin, b, done, depth, limit, before, maxBytes, head); }
        return ok, offset + 1, output;
      }
      if message[offset] != ',' {
        ArrayItemRejected(message, begin, b, done, depth, limit, before, maxBytes, head);
        return false, offset, output;
      }
      done := done + [ParseItem(message, b).item];
      b := offset + 1;
      offset := SkipWhitespace(message, offset + 1);
    }
    NoItemAtEnd(message, b);
    ArrayItemRejected(message, begin, b, done, depth, limit, before, maxBytes, output);
    return false, offset, output;
  }

  lemma EmptyItems()
    ensures ItemsText(CanonicalItems([])) == [] && Lead([]) == []
  {
  }

  lemma TooDeep(s: Bytes, begin: nat, depth: nat, limit: nat, before: Bytes, maxBytes: nat)
    requires begin <= |s| && depth > limit
    ensures Rejected(s, begin, depth, limit, before, maxBytes)
  {
    hide ParseValue;
  }

  lemma ArrayHead(s: Bytes, begin: nat, b: nat, done: seq<Item>, depth: nat, limit: nat,
                  before: Bytes, maxBytes: nat, output: Bytes)
    requires begin < |s| && ArrayProgress(s, begin, b, done, depth, limit, before, maxBytes, output)
    ensures if done == [] then output == ItemHead(before, done) else output + "," == ItemHead(before, done)
    ensures |output| <= maxBytes && |ItemHead(before, done)| == |output| + (if done == [] then 0 else 1)
  {
    hide ItemsText, ParseItems;
    EmptyItems();
  }

  // ---- objects ----

  /** A member as the loop collects it. */
  datatype Entry = Entry(keyContents: Bytes, keyJson: Bytes, valueJson: Bytes)

  function KeyContents(e: Entry): Bytes {
    e.keyContents
  }

  function EntryText(e: Entry): Bytes {
    e.keyJson + ":" + e.valueJson
  }

  function EntriesText(entries: seq<Entry>): Bytes {
    if entries == [] then []
    else if |entries| == 1 then EntryText(entries[0])
    else EntryText(entries[0]) + "," + EntriesText(entries[1..])
  }

  ghost function EntryOf(m: Member): Entry {
    Entry(m.key, Quoted(m.key), CanonicalText(m.value))
  }

  ghost function EntriesOf(members: seq<Member>): (r: seq<Entry>)
    ensures |r| == |members|
    ensures forall k :: 0 <= k < |r| ==> r[k] == EntryOf(members[k])
  {
    if members == [] then [] else [EntryOf(members[0])] + EntriesOf(members[1..])
  }

  /** The entry of a member that is canonical already. */
  ghost function Printed(m: Member): Entry {
    Entry(m.key, Quoted(m.key), Text(m.value))
  }

  ghost function AllPrinted(members: seq<Member>): seq<Entry> {
    if members == [] then [] else [Printed(members[0])] + AllPrinted(members[1..])
  }

  lemma {:induction false} PrintedEntries(members: seq<Member>)
    ensures AllPrinted(CanonicalMembers(members)) == EntriesOf(members)
    decreases |members|
  {
    hide Canonical, Text;
    if members != [] {
      PrintedEntries(members[1..]);
      var cs := CanonicalMembers(members);
      assert cs[0] == CanonicalMember(members[0]) && cs[1..] == CanonicalMembers(members[1..]);
    }
  }

  lemma {:induction false} InsertPrinted(m: Member, members: seq<Member>)
    ensures AllPrinted(Insert(m, members, KeyOf)) == Insert(Printed(m), AllPrinted(members), KeyContents)
    decreases |members|
  {
    hide Text, Quoted;
    var r := Insert(m, members, KeyOf);
    if members == [] {
    } else if Below(members[0].key, m.key) {
      InsertPrinted(m, members[1..]);
      assert r[1..] == Insert(m, members[1..], KeyOf);
      assert AllPrinted(members)[1..] == AllPrinted(members[1..]);
    } else {
      assert r[1..] == members;
    }
  }

  /** Sorting the entries or the members first is the same. */
  lemma {:induction false} SortPrinted(members: seq<Member>)
    ensures AllPrinted(Sort(members, KeyOf)) == Sort(AllPrinted(members), KeyContents)
    decreases |members|
  {
    hide Text, Quoted;
    if members != [] {
      SortPrinted(members[1..]);
      InsertPrinted(members[0], Sort(members[1..], KeyOf));
      assert AllPrinted(members)[1..] == AllPrinted(members[1..]);
    }
  }

  ghost predicate Unpadded(m: Member) {
    m.pre == [] && m.mid == [] && m.gap == [] && m.post == []
  }

  lemma {:induction false} PrintedText(members: seq<Member>)
    requires forall k :: 0 <= k < |members| ==> Unpadded(members[k])
    ensures MembersText(members) == EntriesText(AllPrinted(members))
    decreases |members|
  {
    hide MemberText, MembersText, EntriesText, EntryText, Printed, Unpadded;
    NothingPrinted();
    if members != [] {
      var m, rest := members[0], members[1..];
      assert members == [m] + rest;
      PrintedText(rest);
      PrintedMember(m);
      MembersMore(m, rest);
      EntriesMore(Printed(m), AllPrinted(rest));
    }
  }

  lemma NothingPrinted()
    ensures MembersText([]) == [] && EntriesText([]) == []
  {
  }

  lemma PrintedMember(m: Member)
    requires Unpadded(m)
    ensures MemberText(m) == EntryText(Printed(m))
  {
    hide Text, Quoted;
  }

  lemma EntriesMore(e: Entry, rest: seq<Entry>)
    ensures EntriesText([e] + rest) == if rest == [] then EntryText(e) else EntryText(e) + "," + EntriesText(rest)
  {
    hide EntryText;
    assert ([e] + rest)[1..] == rest;
  }

  lemma ObjectText(pad: Bytes, members: seq<Member>)
    ensures CanonicalText(Obj(pad, members)) == "{" + EntriesText(Sort(EntriesOf(members), KeyContents)) + "}"
  {
    hide Sort, EntriesText, MembersText, CanonicalMembers, AllPrinted;
    var sorted := SortedMembers(members);
    PrintedEntries(members);
    SortPrinted(CanonicalMembers(members));
    forall k | 0 <= k < |sorted| ensures Unpadded(sorted[k]) {
      var j := SortedFrom(sorted[k], members);
    }
    PrintedText(sorted);
    SortedObject(Obj(pad, members));
    assert "{" + [] + MembersText(sorted) + "}" == "{" + MembersText(sorted) + "}";
  }

  lemma {:induction false} EntryFits(e: Entry, entries: seq<Entry>)
    requires e in entries
    ensures |EntriesText(entries)| >= |e.valueJson|
    decreases |entries|
  {
    if e != entries[0] { EntryFits(e, entries[1..]); }
  }

  function Separator(index: nat): Bytes {
    if index == 0 then [] else ","
  }

  method AppendEntry(before: Bytes, entry: Entry, index: nat, maxBytes: nat) returns (ok: bool, output: Bytes)
    requires |before| <= maxBytes
    ensures ok <==> |before| + |Separator(index)| + |EntryText(entry)| <= maxBytes
    ensures ok ==> output == before + (Separator(index) + EntryText(entry))
  {
    output := before;
    if index != 0 {
      ok, output := AppendLimited(output, ",", maxBytes);
      if !ok { return; }
    }
    assert output == before + Separator(index);
    ok, output := AppendLimited(output, entry.keyJson, maxBytes);
    if !ok { return; }
    ok, output := AppendLimited(output, ":", maxBytes);
    if !ok { return; }
    ok, output := AppendLimited(output, entry.valueJson, maxBytes);
    Chain(before, Separator(index), entry.keyJson, ":", entry.valueJson);
  }

  lemma Chain(a: Bytes, b: Bytes, c: Bytes, d: Bytes, e: Bytes)
    ensures a + b + c + d + e == a + (b + (c + d + e))
  {
  }

  method EmitObject(entries: seq<Entry>, maxBytes: nat, before: Bytes) returns (ok: bool, output: Bytes)
    ensures var text := "{" + EntriesText(Sort(entries, KeyContents)) + "}";
            && (ok <==> |before| + |text| <= maxBytes)
            && (ok ==> output == before + text)
  {
    hide Sort, EntriesText, EntryText, Separator;
    var members := Sort(entries, KeyContents);
    ghost var text := EntriesText(members);
    ok, output := AppendLimited(before, "{", maxBytes);
    if !ok {
      return;
    }
    RestStart(members);
    for index := 0 to |members|
      invariant |output| <= maxBytes
      invariant output + Rest(members, index) == before + "{" + text
    {
      RestUnfold(members, index);
      ghost var head := output;
      ok, output := AppendEntry(output, members[index], index, maxBytes);
      if !ok { return; }
      Move(head, Separator(index) + EntryText(members[index]), Rest(members, index + 1));
    }
    assert output + [] == output;
    ok, output := AppendLimited(output, "}", maxBytes);
    Move(before + "{", text, "}");
    Move(before, "{", text + "}");
    Move("{", text, "}");
  }

  lemma Move(a: Bytes, b: Bytes, c: Bytes)
    ensures a + b + c == a + (b + c)
  {
  }

  lemma RestStart(entries: seq<Entry>)
    ensures Rest(entries, 0) == EntriesText(entries)
  {
    assert entries[0..] == entries;
    if entries != [] { Move([], [], EntriesText(entries)); }
  }

  /** What is still to be written before entry `index`. */
  ghost function Rest(entries: seq<Entry>, index: nat): Bytes
    requires index <= |entries|
  {
    if index == |entries| then [] else Separator(index) + EntriesText(entries[index..])
  }

  lemma RestUnfold(entries: seq<Entry>, index: nat)
    requires index < |entries|
    ensures Rest(entries, index) == Separator(index) + EntryText(entries[index]) + Rest(entries, index + 1)
  {
    hide EntryText;
    assert entries[index..][1..] == entries[index + 1..];
  }

  ghost predicate EachMember(members: seq<Member>, depth: nat, limit: nat) {
    forall k :: 0 <= k < |members| ==> Canonicalizes(members[k].value, depth, limit)
  }

  lemma {:induction false} MembersHeightEach(members: seq<Member>, h: nat)
    ensures MembersHeight(members) <= h <==> forall k :: 0 <= k < |members| ==> Height(members[k].value) <= h
    decreases |members|
  {
    hide Height;
    if members != [] {
      MembersHeightEach(members[1..], h);
      if MembersHeight(members) <= h {
        forall k | 0 <= k < |members| ensures Height(members[k].value) <= h {
          if k > 0 { assert members[k] == members[1..][k - 1]; }
        }
      }
    }
  }

  lemma ObjectCanonicalizes(pad: Bytes, members: seq<Member>, depth: nat, limit: nat)
    requires depth <= limit
    ensures Canonicalizes(Obj(pad, members), depth, limit) <==>
              Distinct(members, KeyOf) && EachMember(members, depth + 1, limit)
  {
    hide Distinct;
    MembersHeightEach(members, limit - depth);
    assert Height(Obj(pad, members)) == 1 + MembersHeight(members);
  }

  /** Why a fault in one member is a fault of the whole object. */
  lemma MemberNeeded(pad: Bytes, done: seq<Member>, m: Member, rest: seq<Member>, depth: nat, limit: nat)
    requires depth <= limit && Canonicalizes(Obj(pad, done + [m] + rest), depth, limit)
    ensures Canonicalizes(m.value, depth + 1, limit) && Fresh(m, done, KeyOf)
    ensures |CanonicalText(Obj(pad, done + [m] + rest))| >= |CanonicalText(m.value)|
  {
    hide Canonicalizes, CanonicalText, EntriesText, Sort;
    var members := done + [m] + rest;
    ObjectCanonicalizes(pad, members, depth, limit);
    assert members[|done|] == m;
    forall k | 0 <= k < |done| ensures KeyOf(done[k]) != KeyOf(m) { assert members[k] == done[k]; }
    ObjectText(pad, members);
    var entries := EntriesOf(members);
    assert entries[|done|] == EntryOf(m) && EntryOf(m) in entries;
    SortPermutes(entries, KeyContents);
    EntryFits(EntryOf(m), Sort(entries, KeyContents));
  }

  lemma {:induction false} EntriesAppend(members: seq<Member>, m: Member)
    ensures EntriesOf(members + [m]) == EntriesOf(members) + [EntryOf(m)]
  {
    hide EntryOf;
  }

  lemma DistinctAppend(members: seq<Member>, m: Member)
    requires Distinct(members, KeyOf) && Fresh(m, members, KeyOf)
    ensures Distinct(members + [m], KeyOf)
  {
  }

  /** The state of the object loop: `done` has been read and collected, the rest starts at `b`. */
  ghost predicate ObjectProgress(s: Bytes, begin: nat, b: nat, done: seq<Member>, depth: nat, limit: nat,
                                 entries: seq<Entry>)
    requires begin < |s|
  {
    && begin < b <= |s|
    && ParseMembers(s, begin + 1, Strict) == AfterMembers(done, ParseMembers(s, b, Strict))
    && EachMember(done, depth + 1, limit) && Distinct(done, KeyOf)
    && entries == EntriesOf(done)
  }

  /** The loop has met the closing brace before `end`. */
  ghost predicate ObjectClosed(s: Bytes, begin: nat, end: nat, depth: nat, limit: nat, entries: seq<Entry>)
    requires begin <= |s|
  {
    && end <= |s| && ParseValue(s, begin).Got? && ParseValue(s, begin).end == end
    && var v := ParseValue(s, begin).value;
    && v.Obj? && Canonicalizes(v, depth, limit) && entries == EntriesOf(v.members)
  }

  /** A fault in the next member, or after it, is a fault of the object. */
  lemma ObjectMemberRejected(s: Bytes, begin: nat, b: nat, done: seq<Member>, depth: nat, limit: nat,
                             before: Bytes, maxBytes: nat, entries: seq<Entry>)
    requires begin < |s| && s[begin] == '{'
    requires WsEnd(s, begin + 1) < |s| ==> s[WsEnd(s, begin + 1)] != '}'
    requires depth <= limit && ObjectProgress(s, begin, b, done, depth, limit, entries)
    requires
      || ParseMember(s, b).NoMember?
      || Rejected(s, ParseKey(s, b).end, depth + 1, limit, [], maxBytes)
      || var AMember(m, e) := ParseMember(s, b);
         !Fresh(m, done, KeyOf) || e == |s| || (s[e] != ',' && s[e] != '}')
    ensures Rejected(s, begin, depth, limit, before, maxBytes)
  {
    hide ParseValue, ParseKey, ParseMember, ParseMembers, WsEnd, Canonicalizes, CanonicalText, Distinct, Fresh;
    ParseObject(s, begin);
    MembersAfter(s, b, Strict, done);
    if ParseMembers(s, begin + 1, Strict).Members? {
      var members := ParseMembers(s, begin + 1, Strict).members;
      var AMember(m, e) := ParseMember(s, b);
      var rest := if s[e] == '}' then [] else ParseMembers(s, e + 1, Strict).members;
      assert members == done + [m] + rest;
      MemberUnfold(s, b);
      if Canonicalizes(Obj([], members), depth, limit) {
        MemberNeeded([], done, m, rest, depth, limit);
      }
    }
  }

  /** What an accepted value says about the member it belongs to. */
  lemma MemberAccepted(s: Bytes, b: nat, depth: nat, limit: nat, maxBytes: nat, offset: nat, output: Bytes)
    requires b <= |s| && ParseKey(s, b).AKey?
    requires Accepted(s, ParseKey(s, b).end, depth, limit, [], maxBytes, offset, output)
    ensures offset <= |s|
    ensures match ParseMember(s, b)
            case NoMember => offset == |s|
            case AMember(m, e) =>
              && e == WsEnd(s, offset) && Canonicalizes(m.value, depth, limit)
              && EntryOf(m) == Entry(ParseKey(s, b).key, Quoted(ParseKey(s, b).key), output)
              && m.key == ParseKey(s, b).key
  {
    hide ParseValue, ParseKey, WsEnd, Canonicalizes, CanonicalText;
    MemberUnfold(s, b);
    if ParseMember(s, b).AMember? {
      assert [] + CanonicalText(ParseMember(s, b).member.value) == CanonicalText(ParseMember(s, b).member.value);
    }
  }

  /** One more member read and collected. */
  lemma ObjectMemberTaken(s: Bytes, begin: nat, b: nat, done: seq<Member>, depth: nat, limit: nat, entries: seq<Entry>)
    requires begin < |s| && s[begin] == '{'
    requires WsEnd(s, begin + 1) < |s| ==> s[WsEnd(s, begin + 1)] != '}'
    requires depth <= limit && ObjectProgress(s, begin, b, done, depth, limit, entries)
    requires ParseMember(s, b).AMember? && Canonicalizes(ParseMember(s, b).member.value, depth + 1, limit)
    requires Fresh(ParseMember(s, b).member, done, KeyOf)
    ensures var AMember(m, e) := ParseMember(s, b);
            && (e < |s| && s[e] == ',' ==> ObjectProgress(s, begin, e + 1, done + [m], depth, limit, entries + [EntryOf(m)]))
            && (e < |s| && s[e] == '}' ==> ObjectClosed(s, begin, e + 1, depth, limit, entries + [EntryOf(m)]))
  {
    hide ParseValue, ParseMember, ParseMembers, WsEnd, Canonicalizes, CanonicalText, Distinct, Fresh, EntriesOf, EntryOf;
    var AMember(m, e) := ParseMember(s, b);
    ParseObject(s, begin);
    MembersAfter(s, b, Strict, done);
    EntriesAppend(done, m);
    DistinctAppend(done, m);
    ObjectCanonicalizes([], done + [m], depth, limit);
  }

  /** The start of an object: an empty one, or the loop's first state. */
  lemma ObjectStart(s: Bytes, begin: nat, depth: nat, limit: nat, before: Bytes, maxBytes: nat)
    requires begin < |s| && s[begin] == '{' && depth <= limit
    ensures var j := WsEnd(s, begin + 1);
            if j < |s| && s[j] == '}'
            then (if |before| + 2 <= maxBytes then Accepted(s, begin, depth, limit, before, maxBytes, j + 1, before + "{}")
                  else Rejected(s, begin, depth, limit, before, maxBytes))
            else ObjectProgress(s, begin, begin + 1, [], depth, limit, [])
  {
    var j := WsEnd(s, begin + 1);
    ParseObject(s, begin);
    hide ParseValue, ParseMembers, WsEnd, Canonicalizes, CanonicalText;
    if j < |s| && s[j] == '}' {
      var pad := s[begin + 1..j];
      ObjectCanonicalizes(pad, [], depth, limit);
      ObjectText(pad, []);
      assert "{" + [] + "}" == "{}";
    } else if ParseMembers(s, begin + 1, Strict).Members? {
      assert [] + ParseMembers(s, begin + 1, Strict).members == ParseMembers(s, begin + 1, Strict).members;
    }
  }

  /** An object that breaks off at the end of input is no value. */
  lemma ObjectBreaksOff(s: Bytes, begin: nat, b: nat, done: seq<Member>, depth: nat, limit: nat, entries: seq<Entry>)
    requires begin < |s| && s[begin] == '{'
    requires WsEnd(s, begin + 1) < |s| ==> s[WsEnd(s, begin + 1)] != '}'
    requires ObjectProgress(s, begin, b, done, depth, limit, entries) && WsEnd(s, b) == |s|
    ensures ParseValue(s, begin).Fail?
  {
    hide ParseValue, ParseMember, ParseMembers, WsEnd;
    ParseObject(s, begin);
    NoMemberAtEnd(s, b);
    MembersAfter(s, b, Strict, done);
  }

  /** What emission says about the whole object. */
  lemma ObjectEmitted(s: Bytes, begin: nat, end: nat, depth: nat, limit: nat, entries: seq<Entry>,
                      before: Bytes, maxBytes: nat, ok: bool, output: Bytes)
    requires begin <= |s|
    requires ObjectClosed(s, begin, end, depth, limit, entries) || (ParseValue(s, begin).Fail? && end == |s|)
    requires var text := "{" + EntriesText(Sort(entries, KeyContents)) + "}";
             (ok <==> |before| + |text| <= maxBytes) && (ok ==> output == before + text)
    ensures Outcome(s, begin, depth, limit, before, maxBytes, ok, end, output)
  {
    hide ParseValue, Canonicalizes, CanonicalText, EntriesText, Sort;
    if ParseValue(s, begin).Got? {
      var v := ParseValue(s, begin).value;
      ObjectText(v.pad, v.members);
    }
  }

  lemma NothingThere(s: Bytes, depth: nat, limit: nat, before: Bytes, maxBytes: nat)
    ensures Rejected(s, |s|, depth, limit, before, maxBytes)
  {
  }

  lemma RepeatedKey(s: Bytes, begin: nat, b: nat, done: seq<Member>, depth: nat, limit: nat,
                    entries: seq<Entry>, key: Bytes)
    requires begin < |s| && ObjectProgress(s, begin, b, done, depth, limit, entries)
    requires ParseKey(s, b).AKey? && key == ParseKey(s, b).key
    ensures (forall k :: 0 <= k < |entries| ==> entries[k].keyContents != key) <==>
              forall k :: 0 <= k < |done| ==> done[k].key != key
    ensures ParseMember(s, b).AMember? ==>
              (Fresh(ParseMember(s, b).member, done, KeyOf) <==>
               forall k :: 0 <= k < |entries| ==> entries[k].keyContents != key)
  {
    hide ParseKey, ParseValue, ParseMembers, WsEnd, CanonicalText;
    MemberUnfold(s, b);
    forall k | 0 <= k < |done| ensures entries[k].keyContents == done[k].key { assert entries[k] == EntryOf(done[k]); }
    if ParseMember(s, b).AMember? {
      var m := ParseMember(s, b).member;
      if Fresh(m, done, KeyOf) {
        forall k | 0 <= k < |entries| ensures entries[k].keyContents != key { assert KeyOf(done[k]) != KeyOf(m); }
      } else {
        var k :| 0 <= k < |done| && KeyOf(done[k]) == KeyOf(m);
        assert entries[k].keyContents == key;
      }
    }
  }

  /** Strings, numbers and words, by their first byte. */
  lemma ScalarKinds(s: Bytes, i: nat)
    requires i < |s| && s[i] != '{' && s[i] != '['
    ensures var r := ParseValue(s, i);
            && (r.Got? ==> r.value.Str? || r.value.Num? || r.value.Word?)
            && (if s[i] == '"' then r.Got? <==> StringEnd(s, i).Some?
                else if s[i] == 't' then r.Got? <==> LiteralAt(s, i, "true")
                else if s[i] == 'f' then r.Got? <==> LiteralAt(s, i, "false")
                else if s[i] == 'n' then r.Got? <==> LiteralAt(s, i, "null")
                else r.Got? <==> NumberEnd(s, i).Some?)
            && (r.Got? ==>
                  r.end == (if s[i] == '"' then StringEnd(s, i).value
                            else if s[i] == 't' || s[i] == 'n' then i + 4
                            else if s[i] == 'f' then i + 5
                            else NumberEnd(s, i).value))
  {
    hide StringEnd, NumberEnd;
  }

  /** A scalar is copied as it stands. */
  lemma ScalarTaken(s: Bytes, begin: nat, depth: nat, limit: nat, before: Bytes, maxBytes: nat)
    requires begin < |s| && depth <= limit && ParseValue(s, begin).Got?
    requires var v := ParseValue(s, begin).value; v.Str? || v.Num? || v.Word?
    ensures var e := ParseValue(s, begin).end;
            if |before| + (e - begin) <= maxBytes
            then Accepted(s, begin, depth, limit, before, maxBytes, e, before + s[begin..e])
            else Rejected(s, begin, depth, limit, before, maxBytes)
  {
    hide ParseValue, WellFormed;
    ValueSound(s, begin);
  }

  method CanonicalizeObject(message: Bytes, begin: nat, depth: nat, limit: nat, maxBytes: nat, before: Bytes)
    returns (ok: bool, offset: nat, output: Bytes)
    requires begin < |message| && message[begin] == '{'
    ensures Outcome(message, begin, depth, limit, before, maxBytes, ok, offset, output)
    decreases |message| - begin, 0
  {
    hide WsEnd, ParseKey, ParseMember, ParseItems, ParseMembers, ParseValue, Accepted, Rejected, EscapeFree;
    hide Canonicalizes, CanonicalText, EntriesText, Sort, ObjectProgress, ObjectClosed, Fresh;
    offset, output := begin + 1, before;
    if depth > limit {
      TooDeep(message, begin, depth, limit, before, maxBytes);
      return false, offset, output;
    }
    ObjectStart(message, begin, depth, limit, before, maxBytes);
    var members: seq<Entry> := [];
    offset := SkipWhitespace(message, offset);
    if offset < |message| && message[offset] == '}' {
      ok, output := AppendLimited(output, "{}", maxBytes);
      return ok, offset + 1, output;
    }
    ghost var b, done: seq<Member> := begin + 1, [];
    if offset == |message| { ObjectBreaksOff(message, begin, b, done, depth, limit, members); }
    while offset < |message|
      invariant begin < b <= |message| && offset == WsEnd(message, b)
      invariant ObjectProgress(message, begin, b, done, depth, limit, members)
      invariant offset == |message| ==> ParseValue(message, begin).Fail?
      decreases |message| - b
    {
      var key, hasEscape, isNew, valueJson;
      MemberUnfold(message, b);
      ok, offset, key, hasEscape := ScanKey(message, offset, b);
      if !ok {
        ObjectMemberRejected(message, begin, b, done, depth, limit, before, maxBytes, members);
        return;
      }
      isNew := IsNew(members, key);
      RepeatedKey(message, begin, b, done, depth, limit, members, key);
      if !isNew {
        ObjectMemberRejected(message, begin, b, done, depth, limit, before, maxBytes, members);
        return false, offset, output;
      }
      ok, offset, valueJson := CanonicalizeValue(message, offset, depth + 1, limit, maxBytes, []);
      if !ok {
        ObjectMemberRejected(message, begin, b, done, depth, limit, before, maxBytes, members);
        return;
      }
      MemberAccepted(message, b, depth + 1, limit, maxBytes, offset, valueJson);
      offset := SkipWhitespace(message, offset);
      if offset == |message| {
        ObjectMemberRejected(message, begin, b, done, depth, limit, before, maxBytes, members);
        return false, offset, output;
      }
      ObjectMemberTaken(message, begin, b, done, depth, limit, members);
      ghost var before' := members;
      members := members + [Entry(key, Quoted(key), valueJson)];
      if message[offset] == '}' {
        offset := offset + 1;
        break;
      }
      if message[offset] != ',' {
        ObjectMemberRejected(message, begin, b, done, depth, limit, before, maxBytes, before');
        return false, offset, output;
      }
      done := done + [ParseMember(message, b).member];
      b := offset + 1;
      offset := SkipWhitespace(message, offset + 1);
      if offset == |message| { ObjectBreaksOff(message, begin, b, done, depth, limit, members); }
    }
    ok, output := EmitObject(members, maxBytes, output);
    ObjectEmitted(message, begin, offset, depth, limit, members, before, maxBytes, ok, output);
  }

  /** No member collected so far has this key. */
  method IsNew(members: seq<Entry>, key: Bytes) returns (isNew: bool)
    ensures isNew <==> forall k :: 0 <= k < |members| ==> members[k].keyContents != key
  {
    for index := 0 to |members|
      invariant forall k :: 0 <= k < index ==> members[k].keyContents != key
    {
      if members[index].keyContents == key {
        return false;
      }
    }
    return true;
  }

  method CanonicalizeWord(message: Bytes, begin: nat, depth: nat, limit: nat, maxBytes: nat, before: Bytes, word: Bytes)
    returns (ok: bool, offset: nat, output: Bytes)
    requires begin < |message| && depth <= limit && word in {"true", "false", "null"} && message[begin] == word[0]
    ensures Outcome(message, begin, depth, limit, before, maxBytes, ok, offset, output)
  {
    hide ParseValue, Accepted, Canonicalizes;
    ScalarKinds(message, begin);
    output := before;
    ok, offset := ScanLiteral(message, begin, word);
    if !ok {
      return;
    }
    ScalarTaken(message, begin, depth, limit, before, maxBytes);
    ok, output := AppendLimited(output, word, maxBytes);
  }

  method CanonicalizeValue(message: Bytes, begin: nat, depth: nat, limit: nat, maxBytes: nat, before: Bytes)
    returns (ok: bool, offset: nat, output: Bytes)
    requires begin <= |message|
    ensures Outcome(message, begin, depth, limit, before, maxBytes, ok, offset, output)
    decreases |message| - begin, 1
  {
    hide WsEnd, ParseValue, Accepted, StringEnd, NumberEnd, Canonicalizes;
    ok, offset, output := false, begin, before;
    if depth > limit || offset == |message| {
      if depth > limit {
        TooDeep(message, begin, depth, limit, before, maxBytes);
      } else {
        NothingThere(message, depth, limit, before, maxBytes);
      }
      return;
    }
    if message[offset] == '{' {
      ok, offset, output := CanonicalizeObject(message, offset, depth, limit, maxBytes, output);
      return;
    }
    if message[offset] == '[' {
      ok, offset, output := CanonicalizeArray(message, offset, depth, limit, maxBytes, output);
      return;
    }
    ScalarKinds(message, begin);
    if ParseValue(message, begin).Got? { ScalarTaken(message, begin, depth, limit, before, maxBytes); }
    if message[offset] == '"' {
      var contents, hasEscape;
      ok, offset, contents, hasEscape := ScanString(message, offset);
      if ok {
        ok, output := AppendLimited(output, message[begin..offset], maxBytes);
      }
    } else if message[offset] == 't' {
      ok, offset, output := CanonicalizeWord(message, offset, depth, limit, maxBytes, output, "true");
    } else if message[offset] == 'f' {
      ok, offset, output := CanonicalizeWord(message, offset, depth, limit, maxBytes, output, "false");
    } else if message[offset] == 'n' {
      ok, offset, output := CanonicalizeWord(message, offset, depth, limit, maxBytes, output, "null");
    } else {
      ok, offset := ScanNumber(message, offset);
      if ok {
        ok, output := AppendLimited(output, message[begin..offset], maxBytes);
      }
    }
  }

  /** `capture_canonical_value`: the canonical text of the value after optional whitespace. */
  method CaptureCanonicalValue(message: Bytes, begin: nat, depth: nat, limit: nat, maxBytes: nat)
    returns (ok: bool, offset: nat, stored: Bytes)
    requires begin <= |message|
    ensures Outcome(message, WsEnd(message, begin), depth, limit, [], maxBytes, ok, offset, stored)
    ensures !ok ==> stored == []
  {
    hide WsEnd, ParseValue, Canonicalizes, CanonicalText;
    offset := SkipWhitespace(message, begin);
    ghost var start := offset;
    ok, offset, stored := CanonicalizeValue(message, offset, depth, limit, maxBytes, []);
    if !ok {
      return false, offset, [];
    }
    if |stored| > maxBytes {
      return false, offset, [];
    }
  }

  /** SUCCESS IGNORES ORDER: equivalent values pass the depth and size checks together, although
      the checks run on partial results in the order of the input. */
  lemma LimitsIgnoreOrder(a: Value, b: Value, depth: nat, limit: nat)
    requires NoDuplicateKeys(a) && NoDuplicateKeys(b) && Equivalent(a, b)
    ensures Canonicalizes(a, depth, limit) <==> Canonicalizes(b, depth, limit)
    ensures CanonicalText(a) == CanonicalText(b)
  {
    hide Canonical, Height, Text, NoDuplicateKeys, Equivalent;
    EquivalentGivesSame(a, b);
    CanonicalHeight(a);
    CanonicalHeight(b);
  }
}

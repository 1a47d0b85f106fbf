/** What rewriting does to a response, on trees and on bytes.

    The document that results is the input with `result.tools` filtered and nothing else
    changed; it is never longer, it is accepted as a response to the same request, and
    rewriting it again changes nothing. */
module RewriterMeaning {
  import opened Bytes
  import opened Json
  import opened Scanner
  import opened Documents
  import opened Policy
  import opened JsonRpc
  import opened Rewriter

  // ---- replacing a value inside a text ----

  function Patch(t: Bytes, p: nat, n: nat, x: Bytes): Bytes
    requires p + n <= |t|
  {
    t[..p] + x + t[p + n..]
  }

  lemma PatchAround(a: Bytes, t: Bytes, b: Bytes, p: nat, n: nat, x: Bytes)
    requires p + n <= |t|
    ensures Patch(a + t + b, |a| + p, n, x) == a + Patch(t, p, n, x) + b
  {
    var s := a + t + b;
    assert s[..|a| + p] == a + t[..p];
    assert s[|a| + p + n..] == t[p + n..] + b;
  }

  lemma PatchNested(t: Bytes, p: nat, u: Bytes, q: nat, m: nat, x: Bytes)
    requires At(t, p, u) && q + m <= |u|
    ensures Patch(t, p + q, m, x) == Patch(t, p, |u|, Patch(u, q, m, x))
  {
    assert t[..p + q] == t[..p] + u[..q];
    assert t[p + q + m..] == u[q + m..] + t[p + |u|..];
  }

  /** The members with the value of the first `key` member replaced. */
  function Replace(members: seq<Member>, key: Bytes, v: Value): seq<Member> {
    if members == [] then []
    else if members[0].key == key then [members[0].(value := v)] + members[1..]
    else [members[0]] + Replace(members[1..], key, v)
  }

  /** The length of the text before the value of the first `key` member. */
  function Before(members: seq<Member>, key: Bytes): nat {
    if members == [] then 0
    else if members[0].key == key then |MemberHead(members[0])|
    else |MemberText(members[0])| + 1 + Before(members[1..], key)
  }

  lemma MembersTextFirst(m: Member, rest: seq<Member>)
    ensures MembersText([m] + rest) == MemberText(m) + (if rest == [] then [] else "," + MembersText(rest))
  {
    hide MemberText;
    assert ([m] + rest)[1..] == rest;
  }

  lemma ReplaceFirst(m: Member, rest: seq<Member>, key: Bytes, v: Value)
    ensures Replace([m] + rest, key, v) ==
            if m.key == key then [m.(value := v)] + rest else [m] + Replace(rest, key, v)
    ensures Before([m] + rest, key) ==
            if m.key == key then |MemberHead(m)| else |MemberText(m)| + 1 + Before(rest, key)
    ensures (Replace([m] + rest, key, v) == []) == false
  {
    hide MemberText, MemberHead;
    assert ([m] + rest)[1..] == rest;
  }

  /** The value stands where `Before` says, and replacing it in the tree patches the text. */
  lemma {:induction false} ReplaceText(members: seq<Member>, key: Bytes, v: Value)
    requires Count(members, key) > 0
    ensures At(MembersText(members), Before(members, key), Text(Find(members, key).value))
    ensures MembersText(Replace(members, key, v)) ==
            Patch(MembersText(members), Before(members, key), |Text(Find(members, key).value)|, Text(v))
    decreases |members|
  {
    hide MemberText, MemberHead, Text, MembersText, Patch, At;
    var m, rest := members[0], members[1..];
    assert members == [m] + rest;
    CountFirst(m, rest, key);
    ReplaceFirst(m, rest, key, v);
    MembersTextFirst(m, rest);
    if m.key == key {
      MembersTextFirst(m.(value := v), rest);
      ReplaceHere(m, v, if rest == [] then [] else "," + MembersText(rest));
    } else {
      ReplaceText(rest, key, v);
      MembersTextFirst(m, Replace(rest, key, v));
      ReplaceStep(rest, key, v);
      ReplaceLater(MemberText(m), MembersText(rest), Before(rest, key), Text(Find(rest, key).value), Text(v));
    }
  }

  lemma ReplaceStep(members: seq<Member>, key: Bytes, v: Value)
    requires Count(members, key) > 0
    ensures members != [] && Replace(members, key, v) != []
  {
  }

  lemma ReplaceHere(m: Member, v: Value, tail: Bytes)
    ensures At(MemberText(m) + tail, |MemberHead(m)|, Text(m.value))
    ensures MemberText(m.(value := v)) + tail ==
            Patch(MemberText(m) + tail, |MemberHead(m)|, |Text(m.value)|, Text(v))
  {
    var n := m.(value := v);
    assert MemberHead(n) == MemberHead(m);
    hide MemberHead, Text;
    var s := MemberText(m) + tail;
    assert s == MemberHead(m) + Text(m.value) + (m.post + tail);
    assert MemberText(n) + tail == MemberHead(m) + Text(v) + (m.post + tail);
  }

  lemma ReplaceLater(first: Bytes, t: Bytes, p: nat, u: Bytes, x: Bytes)
    requires At(t, p, u)
    ensures At(first + ("," + t), |first| + 1 + p, u)
    ensures first + ("," + Patch(t, p, |u|, x)) == Patch(first + ("," + t), |first| + 1 + p, |u|, x)
  {
    var s := first + ("," + t);
    assert s == (first + ",") + t + [];
    PatchAround(first + ",", t, [], p, |u|, x);
    assert s[|first| + 1 + p..|first| + 1 + p + |u|] == t[p..p + |u|];
  }

  lemma {:induction false} ReplaceWellFormed(members: seq<Member>, key: Bytes, v: Value)
    requires WellFormedMembers(members) && WellFormed(v)
    ensures WellFormedMembers(Replace(members, key, v))
    ensures Replace(members, key, v) == [] <==> members == []
    decreases |members|
  {
    hide WellFormed;
    if members != [] {
      var m, rest := members[0], members[1..];
      ReplaceWellFormed(rest, key, v);
      var out := Replace(members, key, v);
      assert out[1..] == if m.key == key then rest else Replace(rest, key, v);
    }
  }

  /** Replacing a value leaves every other member, and every count, as it was. */
  lemma {:induction false} ReplaceKeeps(members: seq<Member>, key: Bytes, v: Value, other: Bytes)
    ensures Count(Replace(members, key, v), other) == Count(members, other)
    ensures Find(Replace(members, key, v), other) ==
            if other == key && Count(members, key) > 0 then Some(v) else Find(members, other)
    ensures Before(Replace(members, key, v), key) == Before(members, key)
    decreases |members|
  {
    hide MemberText;
    if members != [] {
      var m, rest := members[0], members[1..];
      assert members == [m] + rest;
      ReplaceFirst(m, rest, key, v);
      CountFirst(m, rest, other);
      CountFirst(m, rest, key);
      if m.key == key {
        var n := m.(value := v);
        CountFirst(n, rest, other);
        ReplaceFirst(n, rest, key, v);
        assert MemberHead(n) == MemberHead(m);
      } else {
        ReplaceKeeps(rest, key, v, other);
        CountFirst(m, Replace(rest, key, v), other);
        ReplaceFirst(m, Replace(rest, key, v), key, v);
      }
    }
  }

  // ---- the filtered response ----

  function FilterTools(tools: Value, policy: PolicyTable, limit: nat): Value
    requires tools.Arr?
  {
    Arr([], Kept(tools.items, policy, limit))
  }

  /** `result` with its tools array filtered. */
  function FilterResult(result: Value, policy: PolicyTable, limit: nat): Value {
    if result.Obj? && Find(result.members, "tools").Some? && Find(result.members, "tools").value.Arr? then
      Obj(result.pad, Replace(result.members, "tools", FilterTools(Find(result.members, "tools").value, policy, limit)))
    else result
  }

  /** The response with `result.tools` filtered and everything else as it was. */
  function FilterResponse(members: seq<Member>, policy: PolicyTable, limit: nat): seq<Member> {
    match Find(members, "result")
    case None => members
    case Some(result) => Replace(members, "result", FilterResult(result, policy, limit))
  }

  lemma {:induction false} TakeResultMeaning(found: Option<Found>, members: seq<Member>, b: nat, limit: nat)
    ensures var r := TakeResult(found, members, b, limit);
            r.Some? ==>
              if found.Some? then Count(members, "tools") == 0 && r == found
              else
                && Count(members, "tools") == 1
                && r.value == Found(b + Before(members, "tools"), Find(members, "tools").value)
                && ToolsArray(r.value.tools, limit)
    decreases |members|
  {
    hide MemberText, MemberHead, ToolsArray, Fits, EscapeFree;
    if members != [] {
      var m, rest := members[0], members[1..];
      assert members == [m] + rest;
      TakeResultFirst(found, m, rest, b, limit);
      CountFirst(m, rest, "tools");
      ReplaceFirst(m, rest, "tools", m.value);
      var next := TakeResultMember(found, m, b, limit);
      if next.Some? { TakeResultMeaning(next.value, rest, b + |MemberText(m)| + 1, limit); }
    }
  }

  lemma {:induction false} TakeResponseMeaning(r: Outline, members: seq<Member>, b: nat, limit: nat)
    ensures var end := TakeResponse(r, members, b, limit);
            end.Some? ==>
              if r.result.Some? then Count(members, "result") == 0 && end.value.result == r.result
              else if end.value.result.None? then Count(members, "result") == 0
              else
                && Count(members, "result") == 1
                && end.value.result == ResultTools(Find(members, "result").value, b + Before(members, "result"), limit)
    decreases |members|
  {
    hide MemberText, MemberHead, ResultTools, Fits, EscapeFree;
    if members != [] {
      var m, rest := members[0], members[1..];
      assert members == [m] + rest;
      TakeResponseFirst(r, m, rest, b, limit);
      CountFirst(m, rest, "result");
      ReplaceFirst(m, rest, "result", m.value);
      var next := TakeResponseMember(r, m, b, limit);
      if next.Some? { TakeResponseMeaning(next.value, rest, b + |MemberText(m)| + 1, limit); }
    }
  }

  /** Where the tools array of a response stands, and what it is. */
  lemma FoundMeaning(members: seq<Member>, b: nat, limit: nat)
    requires var r := TakeResponse(Outline(None, false), members, b, limit); r.Some? && r.value.result.Some?
    ensures var found := TakeResponse(Outline(None, false), members, b, limit).value.result.value;
            && Count(members, "result") == 1 && Find(members, "result").value.Obj?
            && var result := Find(members, "result").value;
            && Count(result.members, "tools") == 1
            && found == Found(b + Before(members, "result") + 1 + Before(result.members, "tools"),
                              Find(result.members, "tools").value)
            && ToolsArray(found.tools, limit) && limit >= 3
  {
    hide TakeResponse, TakeResult, Before, ToolsOk;
    TakeResponseMeaning(Outline(None, false), members, b, limit);
    var result := Find(members, "result").value;
    TakeResultMeaning(None, result.members, b + Before(members, "result") + 1, limit);
  }

  lemma FilterToolsText(tools: Value, policy: PolicyTable, limit: nat)
    requires tools.Arr?
    ensures var inner := |Text(tools)| - 2;
            && inner >= 0
            && Text(FilterTools(tools, policy, limit)) ==
               Patch(Text(tools), 1, inner, ItemsText(Kept(tools.items, policy, limit)))
  {
    hide ItemsText, Kept;
    var t := Text(tools);
    assert t[..1] == "[" && t[|t| - 1..] == "]";
  }

  lemma FilterIs(members: seq<Member>, result: Value, tools: Value, policy: PolicyTable, limit: nat)
    requires Find(members, "result") == Some(result) && result.Obj?
    requires Find(result.members, "tools") == Some(tools) && tools.Arr?
    ensures FilterResult(result, policy, limit) ==
            Obj(result.pad, Replace(result.members, "tools", FilterTools(tools, policy, limit)))
    ensures FilterResponse(members, policy, limit) ==
            Replace(members, "result", FilterResult(result, policy, limit))
  {
    hide Kept;
  }

  /** Filtering the tree is the splice on the text of the member list. */
  lemma FilterText(members: seq<Member>, result: Value, tools: Value, policy: PolicyTable, limit: nat)
    requires Find(members, "result") == Some(result) && result.Obj? && WellFormed(result)
    requires Find(result.members, "tools") == Some(tools) && tools.Arr?
    ensures var at := Before(members, "result") + 1 + Before(result.members, "tools");
            && at + |Text(tools)| <= |MembersText(members)| && |Text(tools)| >= 2
            && At(MembersText(members), at, Text(tools))
            && MembersText(FilterResponse(members, policy, limit)) ==
               Patch(MembersText(members), at + 1, |Text(tools)| - 2, ItemsText(Kept(tools.items, policy, limit)))
  {
    hide MembersText, Text, ItemsText, Kept, Before, Replace, At, WellFormed, WellFormedMembers, Patch,
      FilterResponse, FilterResult, FilterTools, Find, Count;
    var rs := result.members;
    var tools' := FilterTools(tools, policy, limit);
    var result' := FilterResult(result, policy, limit);
    FilterIs(members, result, tools, policy, limit);
    ResultText(result, tools');
    FilterToolsText(tools, policy, limit);
    ReplaceText(rs, "tools", tools');
    ReplaceText(members, "result", result');
    AtBounds(MembersText(rs), Before(rs, "tools"), Text(tools));
    ThreeLevels(MembersText(members), Before(members, "result"), Text(result), MembersText(rs), Before(rs, "tools"),
                Text(tools), Text(tools'), Text(result'), ItemsText(Kept(tools.items, policy, limit)));
  }

  /** A patch inside an array inside an object inside a member list. */
  lemma ThreeLevels(t: Bytes, p: nat, u: Bytes, mid: Bytes, q: nat, w: Bytes, w': Bytes, u': Bytes, x: Bytes)
    requires At(t, p, u) && u == "{" + mid + "}" && At(mid, q, w) && |w| >= 2
    requires w' == Patch(w, 1, |w| - 2, x) && q + |w| <= |mid| && u' == "{" + Patch(mid, q, |w|, w') + "}"
    ensures p + |u| <= |t| && p + 1 + q + |w| <= |t| && At(t, p + 1 + q, w)
    ensures Patch(t, p, |u|, u') == Patch(t, p + 1 + q + 1, |w| - 2, x)
  {
    hide At, Patch;
    AtInside("{", mid, "}", q, w);
    AtNested(t, p, u, 1 + q, w);
    AtBounds(u, 1 + q, w);
    AtBounds(t, p, u);
    AtBounds(t, p + (1 + q), w);
    PatchAround("{", mid, "}", q, |w|, w');
    PatchNested(u, 1 + q, w, 1, |w| - 2, x);
    PatchNested(t, p, u, 1 + q + 1, |w| - 2, x);
  }

  lemma AtBounds(t: Bytes, p: nat, u: Bytes)
    requires At(t, p, u)
    ensures p + |u| <= |t|
  {
  }

  lemma AtInside(a: Bytes, t: Bytes, b: Bytes, p: nat, u: Bytes)
    requires At(t, p, u)
    ensures At(a + t + b, |a| + p, u)
  {
    var s := a + t + b;
    assert s[|a| + p..|a| + p + |u|] == t[p..p + |u|];
  }

  lemma AtNested(t: Bytes, p: nat, u: Bytes, q: nat, w: Bytes)
    requires At(t, p, u) && At(u, q, w)
    ensures At(t, p + q, w)
  {
    forall k | 0 <= k < |w| ensures t[p + q..p + q + |w|][k] == w[k] {
      assert u[q + k] == t[p..p + |u|][q + k];
      assert w[k] == u[q..q + |w|][k];
    }
  }

  /** A non-empty object has no padding, so its text is its members' text in braces. */
  lemma ResultText(result: Value, tools: Value)
    requires result.Obj? && WellFormed(result) && Count(result.members, "tools") > 0
    ensures result.pad == [] && Text(result) == "{" + MembersText(result.members) + "}"
    ensures Text(Obj(result.pad, Replace(result.members, "tools", tools))) ==
            "{" + MembersText(Replace(result.members, "tools", tools)) + "}"
  {
    hide MembersText, WellFormedMembers, Replace;
    assert result.members != [];
    assert "{" + [] == "{";
  }

  // ---- the kept tools ----

  lemma {:induction false} KeptWellFormed(items: seq<Item>, policy: PolicyTable, limit: nat)
    requires WellFormedItems(items)
    ensures WellFormedItems(Kept(items, policy, limit))
    decreases |items|
  {
    hide WellFormed, ToolName, Visible;
    if items != [] {
      var rest := Kept(items[1..], policy, limit);
      KeptWellFormed(items[1..], policy, limit);
      var kept := Item([], items[0].value, []);
      assert ([kept] + rest)[1..] == rest;
    }
  }

  lemma ItemsTextFirst(item: Item, rest: seq<Item>)
    ensures ItemsText([item] + rest) == ItemText(item) + (if rest == [] then [] else "," + ItemsText(rest))
  {
    hide ItemText;
    assert ([item] + rest)[1..] == rest;
  }

  lemma {:induction false} KeptShorter(items: seq<Item>, policy: PolicyTable, limit: nat)
    ensures |ItemsText(Kept(items, policy, limit))| <= |ItemsText(items)|
    decreases |items|
  {
    hide Text, ToolName, Visible, ItemsText;
    if items != [] {
      var item, rest := items[0], items[1..];
      assert items == [item] + rest;
      KeptShorter(rest, policy, limit);
      ItemsTextFirst(item, rest);
      ItemsTextFirst(Item([], item.value, []), Kept(rest, policy, limit));
      if rest == [] { NothingKept(policy, limit); }
    } else {
      NothingKept(policy, limit);
    }
  }

  /** Every tool left is visible, and filtering what is left keeps all of it. */
  lemma {:induction false} KeptTwice(items: seq<Item>, policy: PolicyTable, limit: nat)
    ensures var kept := Kept(items, policy, limit);
            && Kept(kept, policy, limit) == kept
            && Dropped(kept, policy, limit) == []
            && ToolsOk(kept, limit)
            && (forall k :: 0 <= k < |kept| ==>
                 Visible(policy, OrEmpty(ToolName(kept[k].value, limit))))
    decreases |items|
  {
    hide ToolName, Visible, ToolsOk;
    ToolsOkFirst(Item([], Str([]), []), [], limit);
    if items != [] {
      var item, rest := items[0], Kept(items[1..], policy, limit);
      KeptTwice(items[1..], policy, limit);
      var kept := Item([], item.value, []);
      if ToolName(item.value, limit).Some? && Visible(policy, ToolName(item.value, limit).value) {
        KeptFirst(kept, rest, policy, limit);
        ToolsOkFirst(kept, rest, limit);
        assert ([kept] + rest)[0] == kept;
      }
    }
  }

  // ---- the theorem ----

  /** On a closed document the rewriter's output is the text of the filtered tree. */
  lemma RewriteFilters(s: Bytes, limit: nat, policy: PolicyTable)
    returns (pre: Bytes, post: Bytes, result: Value, tools: Value)
    requires DocMembers(s, Strict).Some? && Rewrite(s, limit, policy).Rewritten?
    ensures var members := DocMembers(s, Strict).value;
            var filtered := FilterResponse(members, policy, limit);
            var Rewritten(out, removed) := Rewrite(s, limit, policy);
            && s == DocText(pre, [], members, post) && out == DocText(pre, [], filtered, post)
            && Blank(pre) && DocMembers(out, Strict) == Some(filtered)
            && BodyStart(out) == BodyStart(s) == Some(|pre| + 1)
            && Find(members, "result") == Some(result) && Count(members, "result") == 1 && result.Obj?
            && Find(result.members, "tools") == Some(tools) && Count(result.members, "tools") == 1
            && ToolsArray(tools, limit) && removed == Dropped(tools.items, policy, limit)
            && |out| <= |s|
  {
    hide Rewrite, DocText, MembersText, Text, WellFormed, WellFormedMembers, FilterResponse, Count, Find, Before,
      ToolsArray, Dropped, Kept, ItemsText, DocMembers;
    var pad;
    pre, pad, post := DocSound(s);
    var members := DocMembers(s, Strict).value;
    result, tools := RewrittenTools(s, limit, policy);
    var at := Before(members, "result") + 1 + Before(result.members, "tools");
    var filtered := FilterResponse(members, policy, limit);
    NotEmpty(pad, members);
    FindWellFormed(members, "result");
    WellFormedParts(result);
    FindWellFormed(result.members, "tools");
    FilterText(members, result, tools, policy, limit);
    FilterWellFormed(members, result, tools, policy, limit);
    BracesText(pre, members, post);
    BracesText(pre, filtered, post);
    SpliceText(s, pre, post, MembersText(members), MembersText(filtered), at, tools, policy, limit);
    DocComplete(pre, [], filtered, post);
    FilteredShorter(MembersText(members), at, tools, policy, limit);
  }

  lemma RewrittenTools(s: Bytes, limit: nat, policy: PolicyTable) returns (result: Value, tools: Value)
    requires DocMembers(s, Strict).Some? && Rewrite(s, limit, policy).Rewritten?
    ensures var members := DocMembers(s, Strict).value;
            && Find(members, "result") == Some(result) && Count(members, "result") == 1 && result.Obj?
            && Find(result.members, "tools") == Some(tools) && Count(result.members, "tools") == 1
            && ToolsArray(tools, limit) && tools.Arr?
            && Rewrite(s, limit, policy) ==
               Splice(s, Found(BodyStart(s).value + Before(members, "result") + 1 + Before(result.members, "tools"), tools),
                      policy, limit)
  {
    hide TakeResponse, Before, Splice, Count;
    DocStrictIsLax(s, CommaClose);
    var members := DocMembers(s, Strict).value;
    FoundMeaning(members, BodyStart(s).value, limit);
    result := Find(members, "result").value;
    tools := Find(result.members, "tools").value;
  }

  lemma NotEmpty(pad: Bytes, members: seq<Member>)
    requires WellFormed(Obj(pad, members)) && Count(members, "result") > 0
    ensures members != [] && pad == [] && WellFormedMembers(members)
  {
    hide WellFormedMembers;
  }

  lemma WellFormedParts(v: Value)
    requires v.Obj? && WellFormed(v)
    ensures WellFormedMembers(v.members)
  {
    hide WellFormedMembers;
  }

  lemma FilteredShorter(t: Bytes, at: nat, tools: Value, policy: PolicyTable, limit: nat)
    requires tools.Arr? && at + |Text(tools)| <= |t| && |Text(tools)| >= 2
    ensures |Patch(t, at + 1, |Text(tools)| - 2, ItemsText(Kept(tools.items, policy, limit)))| <= |t|
  {
    hide ItemsText, Kept, Text;
    KeptShorter(tools.items, policy, limit);
    ArrayText(tools);
  }

  lemma FilterWellFormed(members: seq<Member>, result: Value, tools: Value, policy: PolicyTable, limit: nat)
    requires Find(members, "result") == Some(result) && result.Obj? && WellFormed(result)
    requires Find(result.members, "tools") == Some(tools) && tools.Arr? && WellFormed(tools)
    requires WellFormedMembers(members)
    ensures WellFormed(Obj([], FilterResponse(members, policy, limit)))
  {
    FilterIs(members, result, tools, policy, limit);
    KeptWellFormed(tools.items, policy, limit);
    var tools' := FilterTools(tools, policy, limit);
    assert WellFormed(tools');
    ReplaceWellFormed(result.members, "tools", tools');
    var result' := FilterResult(result, policy, limit);
    assert WellFormed(result');
    ReplaceWellFormed(members, "result", result');
  }

  lemma SpliceText(s: Bytes, pre: Bytes, post: Bytes, t: Bytes, t': Bytes, at: nat, tools: Value,
                   policy: PolicyTable, limit: nat)
    requires s == pre + "{" + t + ("}" + post) && tools.Arr?
    requires at + |Text(tools)| <= |t| && |Text(tools)| >= 2
    requires t' == Patch(t, at + 1, |Text(tools)| - 2, ItemsText(Kept(tools.items, policy, limit)))
    ensures Splice(s, Found(|pre| + 1 + at, tools), policy, limit) ==
            Rewritten(pre + "{" + t' + ("}" + post), Dropped(tools.items, policy, limit))
  {
    hide Text, ItemsText, Kept, Dropped;
    var n := |Text(tools)|;
    var x := ItemsText(Kept(tools.items, policy, limit));
    PatchAround(pre + "{", t, "}" + post, at + 1, n - 2, x);
    assert Patch(s, |pre| + 1 + at + 1, n - 2, x) == s[..|pre| + 1 + at + 1] + x + s[|pre| + 1 + at + n - 1..];
  }

  lemma BracesText(pre: Bytes, members: seq<Member>, post: Bytes)
    ensures DocText(pre, [], members, post) == pre + "{" + MembersText(members) + ("}" + post)
  {
    hide MembersText;
    assert "{" + [] + MembersText(members) + "}" == "{" + MembersText(members) + "}";
  }

  // ---- rewriting twice ----

  lemma {:induction false} TakeResultRest(f: Found, g: Found, members: seq<Member>, b: nat, c: nat, limit: nat)
    requires Count(members, "tools") == 0
    ensures TakeResult(Some(f), members, b, limit) == Some(f) <==> TakeResult(Some(g), members, c, limit) == Some(g)
    ensures TakeResult(Some(f), members, b, limit) in {None, Some(f)}
    ensures TakeResult(Some(g), members, c, limit) in {None, Some(g)}
    decreases |members|
  {
    hide MemberText, Fits, EscapeFree, ToolsArray;
    if members != [] {
      var m, rest := members[0], members[1..];
      assert members == [m] + rest;
      TakeResultFirst(Some(f), m, rest, b, limit);
      TakeResultFirst(Some(g), m, rest, c, limit);
      CountFirst(m, rest, "tools");
      TakeResultRest(f, g, rest, b + |MemberText(m)| + 1, c + |MemberText(m)| + 1, limit);
    }
  }

  lemma {:induction false} TakeResultReplaced(members: seq<Member>, b: nat, v: Value, limit: nat)
    requires TakeResult(None, members, b, limit).Some? && ToolsArray(v, limit)
    ensures TakeResult(None, Replace(members, "tools", v), b, limit) == Some(Found(b + Before(members, "tools"), v))
    decreases |members|
  {
    hide MemberText, MemberHead, Fits, EscapeFree, ToolsArray, Replace, Count, Before;
    TakeResultMeaning(None, members, b, limit);
    TakeNothing(b, limit);
    if members != [] {
      var m, rest := members[0], members[1..];
      assert members == [m] + rest;
      TakeResultFirst(None, m, rest, b, limit);
      CountFirst(m, rest, "tools");
      ReplaceFirst(m, rest, "tools", v);
      if m.key == "tools" {
        var n := m.(value := v);
        SameHead(m, v);
        TakeResultFirst(None, n, rest, b, limit);
        var at := b + |MemberHead(m)|;
        TakeResultRest(Found(at, m.value), Found(at, v), rest, b + |MemberText(m)| + 1, b + |MemberText(n)| + 1, limit);
      } else {
        TakeResultReplaced(rest, b + |MemberText(m)| + 1, v, limit);
        TakeResultFirst(None, m, Replace(rest, "tools", v), b, limit);
      }
    }
  }

  lemma TakeNothing(b: nat, limit: nat)
    ensures TakeResult(None, [], b, limit) == None
  {
  }

  lemma SameHead(m: Member, v: Value)
    ensures MemberHead(m.(value := v)) == MemberHead(m)
  {
  }

  /** After the result has been seen, neither it nor the offset matters any more. */
  lemma {:induction false} TakeResponseRest(r: Outline, q: Outline, members: seq<Member>, b: nat, c: nat, limit: nat)
    requires Count(members, "result") == 0 && r.error == q.error
    ensures var x, y := TakeResponse(r, members, b, limit), TakeResponse(q, members, c, limit);
            && (x.Some? <==> y.Some?)
            && (x.Some? ==> x.value.error == y.value.error && x.value.result == r.result && y.value.result == q.result)
    decreases |members|
  {
    hide MemberText, MemberHead, Fits, EscapeFree, ResultTools;
    if members != [] {
      var m, rest := members[0], members[1..];
      assert members == [m] + rest;
      TakeResponseFirst(r, m, rest, b, limit);
      TakeResponseFirst(q, m, rest, c, limit);
      CountFirst(m, rest, "result");
      if TakeResponseMember(r, m, b, limit).Some? {
        TakeResponseRest(TakeResponseMember(r, m, b, limit).value, TakeResponseMember(q, m, c, limit).value, rest,
                         b + |MemberText(m)| + 1, c + |MemberText(m)| + 1, limit);
      }
    }
  }

  lemma {:induction false} TakeResponseReplaced(r: Outline, members: seq<Member>, b: nat, v: Value, limit: nat)
    requires r.result.None? && TakeResponse(r, members, b, limit).Some? && Count(members, "result") == 1
    requires ResultTools(v, b + Before(members, "result"), limit).Some?
    ensures TakeResponse(r, Replace(members, "result", v), b, limit) ==
            Some(TakeResponse(r, members, b, limit).value.(result := ResultTools(v, b + Before(members, "result"), limit)))
    decreases |members|
  {
    hide MemberText, MemberHead, Fits, EscapeFree, ResultTools, Replace, Before, Count;
    CountSome(members);
    var m, rest := members[0], members[1..];
    assert members == [m] + rest;
    TakeResponseFirst(r, m, rest, b, limit);
    CountFirst(m, rest, "result");
    ReplaceFirst(m, rest, "result", v);
    if m.key == "result" {
      var n := m.(value := v);
      SameHead(m, v);
      TakeResponseFirst(r, n, rest, b, limit);
      TakeResponseRest(TakeResponseMember(r, m, b, limit).value, TakeResponseMember(r, n, b, limit).value, rest,
                       b + |MemberText(m)| + 1, b + |MemberText(n)| + 1, limit);
    } else {
      var next := TakeResponseMember(r, m, b, limit).value;
      TakeResponseReplaced(next, rest, b + |MemberText(m)| + 1, v, limit);
      TakeResponseFirst(r, m, Replace(rest, "result", v), b, limit);
    }
  }

  lemma CountSome(members: seq<Member>)
    requires Count(members, "result") == 1
    ensures members != []
  {
  }

  lemma {:induction false} ReplaceSame(members: seq<Member>, key: Bytes)
    requires Count(members, key) > 0
    ensures Replace(members, key, Find(members, key).value) == members
    decreases |members|
  {
    if members[0].key != key { ReplaceSame(members[1..], key); }
    assert members == [members[0]] + members[1..];
  }

  /** A filtered response filters to itself. */
  lemma FilterTwice(members: seq<Member>, result: Value, tools: Value, policy: PolicyTable, limit: nat)
    requires Find(members, "result") == Some(result) && result.Obj?
    requires Find(result.members, "tools") == Some(tools) && tools.Arr?
    ensures var filtered := FilterResponse(members, policy, limit);
            var result' := FilterResult(result, policy, limit);
            var tools' := FilterTools(tools, policy, limit);
            && Find(filtered, "result") == Some(result') && result'.Obj?
            && Find(result'.members, "tools") == Some(tools')
            && Before(filtered, "result") == Before(members, "result")
            && Before(result'.members, "tools") == Before(result.members, "tools")
            && FilterResponse(filtered, policy, limit) == filtered
  {
    hide Replace, Before, Kept, Count;
    var filtered := FilterResponse(members, policy, limit);
    var result' := FilterResult(result, policy, limit);
    var tools' := FilterTools(tools, policy, limit);
    FilterIs(members, result, tools, policy, limit);
    ReplaceKeeps(members, "result", result', "result");
    ReplaceKeeps(result.members, "tools", tools', "tools");
    FilterIs(filtered, result', tools', policy, limit);
    KeptTwice(tools.items, policy, limit);
    ReplaceSame(result'.members, "tools");
    ReplaceSame(filtered, "result");
  }

  /** The outline of the filtered response: the same offsets, the filtered array. */
  lemma FilteredOutline(members: seq<Member>, b: nat, result: Value, tools: Value, policy: PolicyTable, limit: nat)
    requires var r := TakeResponse(Outline(None, false), members, b, limit);
             r.Some? && r.value.result.Some? && !r.value.error
    requires Find(members, "result") == Some(result) && result.Obj?
    requires Find(result.members, "tools") == Some(tools) && tools.Arr?
    ensures var at := b + Before(members, "result") + 1 + Before(result.members, "tools");
            TakeResponse(Outline(None, false), FilterResponse(members, policy, limit), b, limit) ==
            Some(Outline(Some(Found(at, FilterTools(tools, policy, limit))), false))
  {
    hide TakeResponse, TakeResult, Before, Kept, Replace, Find, Count;
    FoundMeaning(members, b, limit);
    FilterIs(members, result, tools, policy, limit);
    KeptTwice(tools.items, policy, limit);
    var tools' := FilterTools(tools, policy, limit);
    assert ToolsArray(tools', limit);
    TakeResponseMeaning(Outline(None, false), members, b, limit);
    var start := b + Before(members, "result");
    TakeResultReplaced(result.members, start + 1, tools', limit);
    TakeResponseReplaced(Outline(None, false), members, b, FilterResult(result, policy, limit), limit);
  }

  lemma RewriteOutline(s: Bytes, limit: nat, policy: PolicyTable)
    requires DocMembers(s, CommaClose).Some? && Rewrite(s, limit, policy).Rewritten?
    ensures var r := TakeResponse(Outline(None, false), DocMembers(s, CommaClose).value, BodyStart(s).value, limit);
            r.Some? && r.value.result.Some? && !r.value.error
  {
    hide TakeResponse;
  }

  lemma RewriteIs(s: Bytes, limit: nat, policy: PolicyTable, members: seq<Member>, found: Found)
    requires DocMembers(s, CommaClose) == Some(members)
    requires TakeResponse(Outline(None, false), members, BodyStart(s).value, limit) == Some(Outline(Some(found), false))
    ensures Rewrite(s, limit, policy) == Splice(s, found, policy, limit)
  {
    hide TakeResponse, Splice;
  }

  lemma DocResultWellFormed(s: Bytes, result: Value)
    requires DocMembers(s, Strict).Some? && Find(DocMembers(s, Strict).value, "result") == Some(result)
    ensures WellFormed(result)
  {
    hide DocMembers, WellFormed, WellFormedMembers, Find, DocText;
    var pre, pad, post := DocSound(s);
    NotEmpty(pad, DocMembers(s, Strict).value);
    FindWellFormed(DocMembers(s, Strict).value, "result");
  }

  /** Rewriting the rewritten response gives the same bytes and removes nothing. */
  lemma RewriteTwice(s: Bytes, limit: nat, policy: PolicyTable)
    requires DocMembers(s, Strict).Some? && Rewrite(s, limit, policy).Rewritten?
    ensures var out := Rewrite(s, limit, policy).text;
            Rewrite(out, limit, policy) == Rewritten(out, [])
  {
    hide Rewrite, DocText, MembersText, Text, WellFormed, Count, Before, ToolsArray, Dropped, Kept, ItemsText,
      TakeResponse, FilterResponse, FilterResult, Find, DocMembers, Splice;
    var pre, post, result, tools := RewriteFilters(s, limit, policy);
    var members := DocMembers(s, Strict).value;
    var b := BodyStart(s).value;
    var out := Rewrite(s, limit, policy).text;
    var filtered := FilterResponse(members, policy, limit);
    var result' := FilterResult(result, policy, limit);
    ToolsArrayIs(tools, limit);
    var tools' := FilterTools(tools, policy, limit);
    FilterTwice(members, result, tools, policy, limit);
    DocStrictIsLax(s, CommaClose);
    DocStrictIsLax(out, CommaClose);
    RewriteOutline(s, limit, policy);
    FilteredOutline(members, b, result, tools, policy, limit);
    var at := Before(members, "result") + 1 + Before(result.members, "tools");
    DocResultWellFormed(out, result');
    FilterText(filtered, result', tools', policy, limit);
    BracesText(pre, filtered, post);
    SpliceText(out, pre, post, MembersText(filtered), MembersText(filtered), at, tools', policy, limit);
    RewriteIs(out, limit, policy, filtered, Found(b + at, tools'));
    KeptTwice(tools.items, policy, limit);
  }

  lemma ToolsArrayIs(v: Value, limit: nat)
    requires ToolsArray(v, limit)
    ensures v.Arr? && limit >= 3
  {
  }

  // ---- the depth limits of classifier and rewriter ----

  lemma {:induction false} TakeToolDepth(name: Option<Bytes>, members: seq<Member>, low: nat, high: nat)
    requires MembersHeight(members) + 3 <= low <= high
    ensures TakeTool(name, members, low) == TakeTool(name, members, high)
    decreases |members|
  {
    hide Height, EscapeFree;
    if members != [] {
      var next := TakeToolMember(name, members[0], low);
      if next.Some? { TakeToolDepth(next.value, members[1..], low, high); }
    }
  }

  lemma ToolNameDepth(v: Value, low: nat, high: nat)
    requires Height(v) + 2 <= low <= high && low >= 4
    ensures ToolName(v, low) == ToolName(v, high)
  {
    hide TakeTool;
    if v.Obj? { TakeToolDepth(None, v.members, low, high); }
  }

  lemma {:induction false} ToolsDepth(items: seq<Item>, policy: PolicyTable, low: nat, high: nat)
    requires ItemsHeight(items) + 2 <= low <= high && low >= 4
    ensures ToolsOk(items, low) <==> ToolsOk(items, high)
    ensures Kept(items, policy, low) == Kept(items, policy, high)
    ensures Dropped(items, policy, low) == Dropped(items, policy, high)
    decreases |items|
  {
    hide Height, ToolName, Visible, ToolsOk;
    ToolsOkFirst(Item([], Str([]), []), [], low);
    ToolsOkFirst(Item([], Str([]), []), [], high);
    if items != [] {
      var item, rest := items[0], items[1..];
      assert items == [item] + rest;
      ToolNameDepth(item.value, low, high);
      ToolsDepth(rest, policy, low, high);
      ToolsOkFirst(item, rest, low);
      ToolsOkFirst(item, rest, high);
    }
  }

  lemma ToolsArrayDepth(v: Value, low: nat, high: nat, policy: PolicyTable)
    requires Height(v) + 1 <= low <= high && low >= 4
    ensures ToolsArray(v, low) <==> ToolsArray(v, high)
  {
    hide ToolsOk;
    if v.Arr? { ToolsDepth(v.items, policy, low, high); }
  }

  lemma {:induction false} TakeResultDepth(found: Option<Found>, members: seq<Member>, b: nat, low: nat, high: nat,
                                           policy: PolicyTable)
    requires MembersHeight(members) + 1 <= low <= high && low >= 4
    ensures TakeResult(found, members, b, low) == TakeResult(found, members, b, high)
    decreases |members|
  {
    hide Height, EscapeFree, ToolsArray, MemberText, MemberHead;
    if members != [] {
      var m := members[0];
      ToolsArrayDepth(m.value, low, high, policy);
      var next := TakeResultMember(found, m, b, low);
      if next.Some? { TakeResultDepth(next.value, members[1..], b + |MemberText(m)| + 1, low, high, policy); }
    }
  }

  lemma ResultToolsDepth(v: Value, at: nat, low: nat, high: nat, policy: PolicyTable)
    requires Height(v) <= low <= high && low >= 4
    ensures ResultTools(v, at, low) == ResultTools(v, at, high)
  {
    hide TakeResult;
    if v.Obj? { TakeResultDepth(None, v.members, at + 1, low, high, policy); }
  }

  lemma {:induction false} TakeResponseDepth(r: Outline, members: seq<Member>, b: nat, low: nat, high: nat,
                                             policy: PolicyTable)
    requires MembersHeight(members) <= low <= high && low >= 4
    ensures TakeResponse(r, members, b, low) == TakeResponse(r, members, b, high)
    decreases |members|
  {
    hide Height, EscapeFree, ResultTools, MemberText, MemberHead;
    if members != [] {
      var m := members[0];
      ResultToolsDepth(m.value, b + |MemberHead(m)|, low, high, policy);
      var next := TakeResponseMember(r, m, b, low);
      if next.Some? { TakeResponseDepth(next.value, members[1..], b + |MemberText(m)| + 1, low, high, policy); }
    }
  }

  lemma {:induction false} GoodMembersHeight(members: seq<Member>, limit: nat)
    requires GoodMembers(members, limit) && limit >= 1
    ensures MembersHeight(members) <= limit
    decreases |members|
  {
    hide GoodMembers;
    if members != [] {
      assert members == [members[0]] + members[1..];
      GoodMembersFirst(members[0], members[1..], limit);
      GoodMembersHeight(members[1..], limit);
    }
  }

  lemma {:induction false} FindHeight(members: seq<Member>, key: Bytes)
    requires Count(members, key) > 0
    ensures Height(Find(members, key).value) <= MembersHeight(members)
    decreases |members|
  {
    hide Height;
    if members[0].key != key { FindHeight(members[1..], key); }
  }

  /** The classifier's depth check covers every value the rewriter skips: with a limit of at
      least 4, no higher limit could change the outcome for an accepted message. */
  lemma DepthAgrees(s: Bytes, limits: RuntimeLimits, high: nat, policy: PolicyTable)
    requires Classify(s, limits).outcome == Accepted
    requires 4 <= limits.maxNestingDepth <= high
    ensures Rewrite(s, limits.maxNestingDepth, policy) == Rewrite(s, high, policy)
  {
    hide TakeResponse, Classify, GoodMembers, Splice, Count, Find, ParseBody;
    var low := limits.maxNestingDepth;
    ClassifyAccepts(s, limits);
    if DocMembers(s, CommaClose).Some? {
      DocClosedTwice(s);
      var members := DocMembers(s, CommaClose).value;
      var b := BodyStart(s).value;
      GoodMembersHeight(members, low);
      TakeResponseDepth(Outline(None, false), members, b, low, high, policy);
      var r := TakeResponse(Outline(None, false), members, b, low);
      if r.Some? && r.value.result.Some? && !r.value.error {
        SpliceDepth(s, members, b, low, high, policy);
      }
    }
  }

  lemma SpliceDepth(s: Bytes, members: seq<Member>, b: nat, low: nat, high: nat, policy: PolicyTable)
    requires MembersHeight(members) <= low <= high && low >= 4
    requires var r := TakeResponse(Outline(None, false), members, b, low); r.Some? && r.value.result.Some?
    ensures var found := TakeResponse(Outline(None, false), members, b, low).value.result.value;
            Splice(s, found, policy, low) == Splice(s, found, policy, high)
  {
    hide TakeResponse, Before, Count, Find, Kept, Dropped, ToolsOk, Text;
    FoundMeaning(members, b, low);
    var result := Find(members, "result").value;
    FindHeight(members, "result");
    FindHeight(result.members, "tools");
    ToolsDepth(Find(result.members, "tools").value.items, policy, low, high);
  }

  // ---- the rewritten response as a message ----

  lemma {:induction false} ReplaceHeight(members: seq<Member>, key: Bytes, v: Value)
    requires Count(members, key) > 0 ==> Height(v) <= Height(Find(members, key).value)
    ensures MembersHeight(Replace(members, key, v)) <= MembersHeight(members)
    decreases |members|
  {
    hide Height;
    if members != [] {
      var m, rest := members[0], members[1..];
      if m.key == key {
        assert ([m.(value := v)] + rest)[1..] == rest;
      } else {
        ReplaceHeight(rest, key, v);
        assert ([m] + Replace(rest, key, v))[1..] == Replace(rest, key, v);
      }
    }
  }

  lemma {:induction false} KeptHeight(items: seq<Item>, policy: PolicyTable, limit: nat)
    ensures ItemsHeight(Kept(items, policy, limit)) <= ItemsHeight(items)
    decreases |items|
  {
    hide Height, ToolName, Visible;
    if items != [] {
      var rest := Kept(items[1..], policy, limit);
      KeptHeight(items[1..], policy, limit);
      assert ([Item([], items[0].value, [])] + rest)[1..] == rest;
    }
  }

  lemma FilterHeight(result: Value, policy: PolicyTable, limit: nat)
    ensures Height(FilterResult(result, policy, limit)) <= Height(result)
  {
    hide Kept, MembersHeight, Find, Count, Replace;
    if result.Obj? && Find(result.members, "tools").Some? && Find(result.members, "tools").value.Arr? {
      var tools := Find(result.members, "tools").value;
      KeptHeight(tools.items, policy, limit);
      ReplaceHeight(result.members, "tools", FilterTools(tools, policy, limit));
    }
  }

  lemma {:induction false} ReplaceGood(members: seq<Member>, v: Value, limit: nat)
    requires GoodMembers(members, limit)
    requires Count(members, "result") > 0 ==> Height(v) <= Height(Find(members, "result").value)
    ensures GoodMembers(Replace(members, "result", v), limit)
    decreases |members|
  {
    hide GoodMembers, Height, EscapeFree, IsId;
    if members != [] {
      var m, rest := members[0], members[1..];
      assert members == [m] + rest;
      CountFirst(m, rest, "result");
      ReplaceFirst(m, rest, "result", v);
      GoodMembersFirst(m, rest, limit);
      if m.key == "result" {
        GoodMembersFirst(m.(value := v), rest, limit);
      } else {
        ReplaceGood(rest, v, limit);
        GoodMembersFirst(m, Replace(rest, "result", v), limit);
      }
    } else {
      assert Replace(members, "result", v) == members;
    }
  }

  lemma FilteredEnvelope(members: seq<Member>, policy: PolicyTable, limit: nat, depth: nat)
    requires GoodEnvelope(members, depth)
    ensures var filtered := FilterResponse(members, policy, limit);
            && GoodEnvelope(filtered, depth)
            && IdOf(filtered) == IdOf(members) && Count(filtered, "method") == Count(members, "method")
  {
    hide GoodMembers, Count, Replace, FilterResult, Text, Before;
    match Find(members, "result") {
      case None =>
      case Some(result) =>
        var v := FilterResult(result, policy, limit);
        FilterHeight(result, policy, limit);
        ReplaceGood(members, v, depth);
        ReplaceKeeps(members, "result", v, "jsonrpc");
        ReplaceKeeps(members, "result", v, "method");
        ReplaceKeeps(members, "result", v, "id");
        ReplaceKeeps(members, "result", v, "result");
        ReplaceKeeps(members, "result", v, "error");
    }
  }

  /** THE REWRITING THEOREM. For a message the classifier accepts, rewriting yields the text of
      the same document with `result.tools` filtered to the visible tools in order and nothing
      else changed; the names removed are the others, in order; the output is no longer than the
      input, is accepted as a response to the same id, and is left alone by a second rewriting. */
  lemma RewriteMeaning(s: Bytes, limits: RuntimeLimits, policy: PolicyTable)
    returns (pre: Bytes, post: Bytes, tools: Value)
    requires Classify(s, limits).outcome == Accepted
    requires Rewrite(s, limits.maxNestingDepth, policy).Rewritten?
    ensures var limit := limits.maxNestingDepth;
            var Rewritten(out, removed) := Rewrite(s, limit, policy);
            var members := DocMembers(s, Strict);
            && members.Some? && s == DocText(pre, [], members.value, post)
            && var filtered := FilterResponse(members.value, policy, limit);
            && out == DocText(pre, [], filtered, post) && DocMembers(out, Strict) == Some(filtered)
            && Find(members.value, "result").Some? && Find(members.value, "result").value.Obj?
            && Find(Find(members.value, "result").value.members, "tools") == Some(tools)
            && tools.Arr? && ToolsOk(tools.items, limit)
            && removed == Dropped(tools.items, policy, limit)
            && |out| <= |s|
            && Classify(out, limits).outcome == Accepted
            && Classify(out, limits).id == Classify(s, limits).id
            && (Classify(out, limits).kind == Response <==> Classify(s, limits).kind == Response)
            && Rewrite(out, limit, policy) == Rewritten(out, [])
  {
    hide Rewrite, DocText, Count, FilterResponse, Find, DocMembers, GoodEnvelope, Classify, Dropped, ToolsOk, IdOf;
    var limit := limits.maxNestingDepth;
    ClassifyAccepts(s, limits);
    RewriteNeedsClose(s, limit, policy);
    DocClosedTwice(s);
    var result;
    pre, post, result, tools := RewriteFilters(s, limit, policy);
    RewriteTwice(s, limit, policy);
    var out := Rewrite(s, limit, policy).text;
    DocStrictIsLax(out, OpenEnd);
    FilteredEnvelope(DocMembers(s, Strict).value, policy, limit, limit);
    ClassifyAccepts(out, limits);
    ToolsArrayIs(tools, limit);
  }

  lemma RewriteNeedsClose(s: Bytes, limit: nat, policy: PolicyTable)
    requires Rewrite(s, limit, policy).Rewritten?
    ensures DocMembers(s, CommaClose).Some?
  {
  }
}

/** `exceeds_nesting` (src/policy_generator.cpp and src/policy_loader.cpp): the bracket-depth scan
    that both run before their structured parse.

    On a document that parses at all, the scan answers exactly whether its brackets nest deeper
    than the limit (`DocScan`). It stops early only at a bad string, and then nothing parses. */
module Nesting {
  import opened Bytes
  import opened Json
  import opened Scanner
  import opened ScannerGrammar
  import opened Documents
  import opened Objects

  predicate Opening(c: char) { c == '{' || c == '[' }

  predicate Closing(c: char) { c == '}' || c == ']' }

  predicate Exceeds(s: Bytes, i: nat, depth: nat, limit: nat)
    requires i <= |s|
    decreases |s| - i
  {
    if i == |s| then false
    else if s[i] == '"' then
      match StringEnd(s, i) case None => false case Some(e) => Exceeds(s, e, depth, limit)
    else if Opening(s[i]) then depth + 1 > limit || Exceeds(s, i + 1, depth + 1, limit)
    else Exceeds(s, i + 1, if Closing(s[i]) && depth > 0 then depth - 1 else depth, limit)
  }

  method ExceedsNesting(json: Bytes, limit: nat) returns (exceeds: bool)
    ensures exceeds == Exceeds(json, 0, 0, limit)
  {
    hide StringEnd;
    var offset, depth: nat := 0, 0;
    while offset < |json|
      invariant 0 <= offset <= |json|
      invariant Exceeds(json, 0, 0, limit) == Exceeds(json, offset, depth, limit)
      decreases |json| - offset
    {
      if json[offset] == '"' {
        var ok, end, contents, hasEscape := ScanString(json, offset);
        if !ok {
          return false;
        }
        offset := end;
        continue;
      }
      if json[offset] == '{' || json[offset] == '[' {
        depth := depth + 1;
        if depth > limit {
          return true;
        }
      } else if (json[offset] == '}' || json[offset] == ']') && depth > 0 {
        depth := depth - 1;
      }
      offset := offset + 1;
    }
    return false;
  }

  // ---- how deep brackets nest ----

  function Brackets(v: Value): nat {
    match v
    case Arr(_, items) => 1 + ItemsBrackets(items)
    case Obj(_, members) => 1 + MembersBrackets(members)
    case _ => 0
  }

  function ItemsBrackets(items: seq<Item>): nat {
    if items == [] then 0 else Max(Brackets(items[0].value), ItemsBrackets(items[1..]))
  }

  function MembersBrackets(members: seq<Member>): nat {
    if members == [] then 0 else Max(Brackets(members[0].value), MembersBrackets(members[1..]))
  }

  /** Nesting within the bracket limit is nesting within the depth limit of the scanners. */
  lemma {:induction false} HeightWithin(v: Value)
    ensures Height(v) <= Brackets(v) + 1
    decreases v
  {
    match v {
      case Arr(_, items) => ItemsWithin(items);
      case Obj(_, members) => MembersWithin(members);
      case _ =>
    }
  }

  lemma {:induction false} ItemsWithin(items: seq<Item>)
    ensures ItemsHeight(items) <= ItemsBrackets(items) + 1
    decreases items
  {
    if items != [] {
      HeightWithin(items[0].value);
      ItemsWithin(items[1..]);
    }
  }

  lemma {:induction false} MembersWithin(members: seq<Member>)
    ensures MembersHeight(members) <= MembersBrackets(members) + 1
    decreases members
  {
    if members != [] {
      HeightWithin(members[0].value);
      MembersWithin(members[1..]);
    }
  }

  lemma {:induction false} BracketsWithin(v: Value)
    ensures Brackets(v) <= Height(v)
    decreases v
  {
    match v {
      case Arr(_, items) => ItemsBracketsWithin(items);
      case Obj(_, members) => MembersBracketsWithin(members);
      case _ =>
    }
  }

  lemma {:induction false} ItemsBracketsWithin(items: seq<Item>)
    ensures ItemsBrackets(items) <= ItemsHeight(items)
    decreases items
  {
    if items != [] {
      BracketsWithin(items[0].value);
      ItemsBracketsWithin(items[1..]);
    }
  }

  lemma {:induction false} MembersBracketsWithin(members: seq<Member>)
    ensures MembersBrackets(members) <= MembersHeight(members)
    decreases members
  {
    if members != [] {
      BracketsWithin(members[0].value);
      MembersBracketsWithin(members[1..]);
    }
  }

  // ---- the scan over parsed text ----

  /** Bytes the scan passes over. */
  ghost predicate Neutral(t: Bytes) {
    forall k :: 0 <= k < |t| ==> t[k] != '"' && !Opening(t[k]) && !Closing(t[k])
  }

  lemma {:induction false} PassOver(s: Bytes, i: nat, e: nat, depth: nat, limit: nat)
    requires i <= e <= |s| && Neutral(s[i..e])
    ensures Exceeds(s, i, depth, limit) == Exceeds(s, e, depth, limit)
    decreases e - i
  {
    if i < e {
      assert s[i] == s[i..e][0];
      assert s[i + 1..e] == s[i..e][1..];
      PassOver(s, i + 1, e, depth, limit);
    }
  }

  /** One step at a separator or a closing bracket. */
  lemma StepOver(s: Bytes, i: nat, depth: nat, limit: nat)
    requires i < |s| && depth > 0
    ensures s[i] == ',' ==> Exceeds(s, i, depth, limit) == Exceeds(s, i + 1, depth, limit)
    ensures Closing(s[i]) ==> Exceeds(s, i, depth, limit) == Exceeds(s, i + 1, depth - 1, limit)
  {
  }

  lemma PassWhitespace(s: Bytes, i: nat, depth: nat, limit: nat)
    requires i <= |s|
    ensures Exceeds(s, i, depth, limit) == Exceeds(s, WsEnd(s, i), depth, limit)
  {
    hide WsEnd, Exceeds;
    WsEndBlank(s, i);
    PassOver(s, i, WsEnd(s, i), depth, limit);
  }

  lemma NeutralJoin(s: Bytes, a: nat, b: nat, c: nat)
    requires a <= b <= c <= |s| && Neutral(s[a..b]) && Neutral(s[b..c])
    ensures Neutral(s[a..c])
  {
    forall k | 0 <= k < c - a ensures s[a..c][k] != '"' && !Opening(s[a..c][k]) && !Closing(s[a..c][k]) {
      assert s[a..c][k] == if k < b - a then s[a..b][k] else s[b..c][k - (b - a)];
    }
  }

  lemma DigitsNeutral(s: Bytes, i: nat)
    requires i <= |s|
    ensures Neutral(s[i..DigitsEnd(s, i)])
  {
    hide DigitsEnd;
    DigitsFound(s, i);
  }

  lemma WholeNeutral(s: Bytes, i: nat)
    requires i <= |s| && WholeEnd(s, i).Some?
    ensures Neutral(s[i..WholeEnd(s, i).value])
  {
    hide DigitsEnd;
    if s[i] == '0' {
      assert s[i..i + 1] == "0";
    } else {
      DigitsNeutral(s, i);
    }
  }

  lemma FractionNeutral(s: Bytes, i: nat)
    requires i <= |s| && FractionEnd(s, i).Some?
    ensures Neutral(s[i..FractionEnd(s, i).value])
  {
    hide DigitsEnd;
    if i < |s| && s[i] == '.' {
      DigitsNeutral(s, i + 1);
      NeutralJoin(s, i, i + 1, DigitsEnd(s, i + 1));
    }
  }

  lemma ExponentNeutral(s: Bytes, i: nat)
    requires i <= |s| && ExponentEnd(s, i).Some?
    ensures Neutral(s[i..ExponentEnd(s, i).value])
  {
    hide DigitsEnd;
    if i < |s| && (s[i] == 'e' || s[i] == 'E') {
      var d := SignEnd(s, i + 1);
      DigitsNeutral(s, d);
      NeutralJoin(s, i + 1, d, DigitsEnd(s, d));
      NeutralJoin(s, i, i + 1, DigitsEnd(s, d));
    }
  }

  lemma NumberNeutral(s: Bytes, i: nat)
    requires i <= |s| && NumberEnd(s, i).Some?
    ensures Neutral(s[i..NumberEnd(s, i).value])
  {
    hide WholeEnd, FractionEnd, ExponentEnd, Neutral;
    var a := if i < |s| && s[i] == '-' then i + 1 else i;
    var w := WholeEnd(s, a).value;
    var f := FractionEnd(s, w).value;
    var e := ExponentEnd(s, f).value;
    assert Neutral(s[i..a]) by { SignNeutral(s, i); }
    WholeNeutral(s, a);
    FractionNeutral(s, w);
    ExponentNeutral(s, f);
    NeutralJoin(s, i, a, w);
    NeutralJoin(s, i, w, f);
    NeutralJoin(s, i, f, e);
  }

  lemma SignNeutral(s: Bytes, i: nat)
    requires i <= |s|
    ensures Neutral(s[i..if i < |s| && s[i] == '-' then i + 1 else i])
  {
  }

  /** THE SCAN OVER ONE VALUE: it stops exactly if the value nests too deep, and otherwise goes on
      after it at the same depth. */
  lemma {:induction false} ValueScan(s: Bytes, i: nat, depth: nat, limit: nat)
    requires i <= |s| && ParseValue(s, i).Got? && depth <= limit
    ensures var Got(v, e) := ParseValue(s, i);
            Exceeds(s, i, depth, limit) == (depth + Brackets(v) > limit || Exceeds(s, e, depth, limit))
    decreases |s| - i, 1
  {
    hide StringEnd, NumberEnd, ParseItems, ParseMembers, WsEnd;
    var Got(v, e) := ParseValue(s, i);
    if s[i] == '{' {
      ObjectScan(s, i, depth, limit);
    } else if s[i] == '[' {
      ArrayScan(s, i, depth, limit);
    } else if s[i] != '"' {
      if s[i] != 't' && s[i] != 'f' && s[i] != 'n' {
        NumberNeutral(s, i);
      } else {
        assert s[i..e] == v.raw;
      }
      assert Neutral(s[i..e]);
      PassOver(s, i, e, depth, limit);
    }
  }

  lemma {:induction false} ObjectScan(s: Bytes, i: nat, depth: nat, limit: nat)
    requires i < |s| && s[i] == '{' && ParseValue(s, i).Got? && depth <= limit
    ensures var Got(v, e) := ParseValue(s, i);
            Exceeds(s, i, depth, limit) == (depth + Brackets(v) > limit || Exceeds(s, e, depth, limit))
    decreases |s| - i, 0
  {
    hide ParseValue, ParseMembers, WsEnd;
    ParseObject(s, i);
    if depth < limit {
      var j := WsEnd(s, i + 1);
      PassWhitespace(s, i + 1, depth + 1, limit);
      if !(j < |s| && s[j] == '}') {
        MembersScan(s, i + 1, Strict, depth + 1, limit);
        hide Exceeds;
      }
    }
  }

  lemma {:induction false} ArrayScan(s: Bytes, i: nat, depth: nat, limit: nat)
    requires i < |s| && s[i] == '[' && ParseValue(s, i).Got? && depth <= limit
    ensures var Got(v, e) := ParseValue(s, i);
            Exceeds(s, i, depth, limit) == (depth + Brackets(v) > limit || Exceeds(s, e, depth, limit))
    decreases |s| - i, 0
  {
    hide ParseValue, ParseItems, WsEnd;
    ParseArray(s, i);
    if depth < limit {
      var j := WsEnd(s, i + 1);
      PassWhitespace(s, i + 1, depth + 1, limit);
      if !(j < |s| && s[j] == ']') {
        ItemsScan(s, i + 1, depth + 1, limit);
        hide Exceeds;
      }
    }
  }

  lemma NoBrackets()
    ensures MembersBrackets([]) == 0 && ItemsBrackets([]) == 0
  {
  }

  lemma BracketsOne(m: Member)
    ensures MembersBrackets([m]) == Brackets(m.value)
  {
    hide Brackets;
    assert [m][1..] == [];
  }

  lemma BracketsFirst(m: Member, rest: seq<Member>)
    ensures MembersBrackets([m] + rest) == Max(Brackets(m.value), MembersBrackets(rest))
  {
    hide Brackets;
    assert ([m] + rest)[1..] == rest;
  }

  lemma ItemsBracketsFirst(item: Item, rest: seq<Item>)
    ensures ItemsBrackets([item] + rest) == Max(Brackets(item.value), ItemsBrackets(rest))
    ensures ItemsBrackets([]) == 0
  {
    hide Brackets;
    assert ([item] + rest)[1..] == rest;
  }

  lemma {:induction false} ItemScan(s: Bytes, b: nat, depth: nat, limit: nat)
    requires b <= |s| && ParseItem(s, b).AnItem? && depth <= limit
    ensures var AnItem(item, p) := ParseItem(s, b);
            Exceeds(s, b, depth, limit) == (depth + Brackets(item.value) > limit || Exceeds(s, p, depth, limit))
    decreases |s| - b, 2
  {
    hide ParseValue, ParseItem, WsEnd, Brackets, Exceeds;
    ItemUnfold(s, b);
    var i := WsEnd(s, b);
    PassWhitespace(s, b, depth, limit);
    ValueScan(s, i, depth, limit);
    PassWhitespace(s, ParseValue(s, i).end, depth, limit);
  }

  lemma {:induction false} ItemsScan(s: Bytes, b: nat, depth: nat, limit: nat)
    requires b <= |s| && ParseItems(s, b).Items? && 0 < depth <= limit
    ensures var Items(items, e) := ParseItems(s, b);
            Exceeds(s, b, depth, limit) == (depth + ItemsBrackets(items) > limit || Exceeds(s, e, depth - 1, limit))
    decreases |s| - b, 3
  {
    hide ParseItem, ParseItems, Brackets, ItemsBrackets, Exceeds;
    ItemsAfter(s, b, []);
    var items := ParseItems(s, b).items;
    assert [] + items == items;
    var AnItem(item, p) := ParseItem(s, b);
    ItemScan(s, b, depth, limit);
    StepOver(s, p, depth, limit);
    if s[p] == ',' {
      ItemsScan(s, p + 1, depth, limit);
      var rest := ParseItems(s, p + 1).items;
      ItemsBracketsFirst(item, rest);
      assert items == [item] + rest;
    } else {
      ItemsBracketsFirst(item, []);
      assert items == [item] + [];
    }
  }

  lemma KeyScan(s: Bytes, b: nat, depth: nat, limit: nat)
    requires b <= |s| && ParseKey(s, b).AKey?
    ensures Exceeds(s, b, depth, limit) == Exceeds(s, ParseKey(s, b).end, depth, limit)
  {
    hide StringEnd, WsEnd;
    var i := WsEnd(s, b);
    var k := StringEnd(s, i).value;
    var c := WsEnd(s, k);
    PassWhitespace(s, b, depth, limit);
    PassWhitespace(s, k, depth, limit);
    PassWhitespace(s, c + 1, depth, limit);
  }

  lemma {:induction false} MemberScan(s: Bytes, b: nat, depth: nat, limit: nat)
    requires b <= |s| && ParseMember(s, b).AMember? && depth <= limit
    ensures var AMember(m, p) := ParseMember(s, b);
            Exceeds(s, b, depth, limit) == (depth + Brackets(m.value) > limit || Exceeds(s, p, depth, limit))
    decreases |s| - b, 1
  {
    hide ParseValue, ParseKey, ParseMember, WsEnd, Brackets, Exceeds;
    MemberUnfold(s, b);
    var v := ParseKey(s, b).end;
    KeyScan(s, b, depth, limit);
    ValueScan(s, v, depth, limit);
    PassWhitespace(s, ParseValue(s, v).end, depth, limit);
  }

  lemma EndScan(s: Bytes, depth: nat, limit: nat)
    ensures !Exceeds(s, |s|, depth, limit)
  {
  }

  lemma {:induction false} MembersScan(s: Bytes, b: nat, tail: Tail, depth: nat, limit: nat)
    requires b <= |s| && ParseMembers(s, b, tail).Members? && 0 < depth <= limit && tail != CommaClose
    ensures var Members(ms, e) := ParseMembers(s, b, tail);
            Exceeds(s, b, depth, limit) ==
            (depth + MembersBrackets(ms) > limit || (e < |s| && Exceeds(s, e, depth - 1, limit)))
    decreases |s| - b, 2
  {
    hide ParseMember, ParseMembers, WsEnd, Brackets, MembersBrackets, Exceeds;
    MembersUnfold(s, b, tail);
    NoBrackets();
    EndScan(s, depth, limit);
    EndScan(s, depth - 1, limit);
    PassWhitespace(s, b, depth, limit);
    if !(tail == OpenEnd && WsEnd(s, b) == |s|) {
      var AMember(m, p) := ParseMember(s, b);
      MemberScan(s, b, depth, limit);
      StepOver(s, p, depth, limit);
      if s[p] == ',' {
        MembersScan(s, p + 1, tail, depth, limit);
        BracketsFirst(m, ParseMembers(s, p + 1, tail).members);
      } else {
        BracketsOne(m);
      }
    }
  }

  /** THE SCAN OVER A DOCUMENT: whenever the document parses, closed or open-ended, the scan
      refuses it exactly if its brackets nest deeper than the limit. */
  lemma DocScan(s: Bytes, tail: Tail, limit: nat)
    requires DocMembers(s, tail).Some? && tail != CommaClose
    ensures Exceeds(s, 0, 0, limit) <==> 1 + MembersBrackets(DocMembers(s, tail).value) > limit
  {
    hide ParseMembers, WsEnd;
    var b := BodyStart(s).value;
    var Members(ms, e) := ParseBody(s, b, tail);
    PassWhitespace(s, 0, 0, limit);
    if limit > 0 {
      PassWhitespace(s, b, 1, limit);
      if !(WsEnd(s, b) < |s| && s[WsEnd(s, b)] == '}') {
        MembersScan(s, b, tail, 1, limit);
      }
      PassWhitespace(s, e, 0, limit);
    }
  }

  lemma {:induction false} MemberWithin(members: seq<Member>, k: nat)
    requires k < |members|
    ensures Brackets(members[k].value) <= MembersBrackets(members)
    decreases |members|
  {
    if k > 0 { MemberWithin(members[1..], k - 1); }
  }

  lemma {:induction false} ItemWithin(items: seq<Item>, k: nat)
    requires k < |items|
    ensures Brackets(items[k].value) <= ItemsBrackets(items)
    decreases |items|
  {
    if k > 0 { ItemWithin(items[1..], k - 1); }
  }
}

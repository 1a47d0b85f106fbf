/** What the hand-written object and array loops have in common: they read one member or item
    after the other, refuse a bad one, and refuse a repeated one of the keys they look for. */
module Objects {
  import opened Bytes
  import opened Json
  import opened Scanner
  import opened ScannerGrammar
  import opened Documents

  // ---- positions in a list ----

  /** The members already read, then the rest. */
  ghost function AfterMembers(done: seq<Member>, r: ParsedMembers): ParsedMembers {
    match r case NoMembers => NoMembers case Members(rest, e) => Members(done + rest, e)
  }

  lemma MembersAfter(s: Bytes, b: nat, tail: Tail, done: seq<Member>)
    requires b <= |s|
    ensures AfterMembers(done, ParseMembers(s, b, tail)) ==
            var i := WsEnd(s, b);
            if tail == OpenEnd && i == |s| then Members(done, |s|)
            else if tail == CommaClose && i < |s| && s[i] == '}' then Members(done, i + 1)
            else
              match ParseMember(s, b)
              case NoMember => NoMembers
              case AMember(m, e) =>
                if e == |s| then NoMembers
                else if s[e] == '}' then Members(done + [m], e + 1)
                else if s[e] != ',' then NoMembers
                else AfterMembers(done + [m], ParseMembers(s, e + 1, tail))
  {
    hide ParseMember, ParseMembers, WsEnd;
    MembersUnfold(s, b, tail);
    assert done + [] == done;
    if ParseMember(s, b).AMember? {
      var AMember(m, e) := ParseMember(s, b);
      if e < |s| && s[e] == ',' && ParseMembers(s, e + 1, tail).Members? {
        var rest := ParseMembers(s, e + 1, tail).members;
        assert done + ([m] + rest) == done + [m] + rest;
      }
    }
  }

  /** The loop over the object at `begin` has read `done`; the rest starts at `b`. */
  ghost predicate Reading(s: Bytes, begin: nat, b: nat, tail: Tail, done: seq<Member>)
    requires begin < |s|
  {
    begin < b <= |s| && ParseMembers(s, begin + 1, tail) == AfterMembers(done, ParseMembers(s, b, tail))
  }

  lemma ReadingStarts(s: Bytes, begin: nat, tail: Tail)
    requires begin < |s|
    ensures Reading(s, begin, begin + 1, tail, [])
  {
    hide ParseMembers;
    var r := ParseMembers(s, begin + 1, tail);
    if r.Members? { assert [] + r.members == r.members; }
  }

  /** The items already read, then the rest. */
  ghost function AfterItems(done: seq<Item>, r: ParsedItems): ParsedItems {
    match r case NoItems => NoItems case Items(rest, e) => Items(done + rest, e)
  }

  lemma ItemsAfter(s: Bytes, b: nat, done: seq<Item>)
    requires b <= |s|
    ensures AfterItems(done, ParseItems(s, b)) ==
            match ParseItem(s, b)
            case NoItem => NoItems
            case AnItem(item, e) =>
              if e == |s| then NoItems
              else if s[e] == ']' then Items(done + [item], e + 1)
              else if s[e] != ',' then NoItems
              else AfterItems(done + [item], ParseItems(s, e + 1))
  {
    hide ParseItem;
    if ParseItem(s, b).AnItem? {
      var AnItem(item, e) := ParseItem(s, b);
      if e < |s| && s[e] == ',' && ParseItems(s, e + 1).Items? {
        var rest := ParseItems(s, e + 1).items;
        assert done + ([item] + rest) == done + [item] + rest;
      }
    }
  }

  ghost predicate ReadingItems(s: Bytes, begin: nat, b: nat, done: seq<Item>)
    requires begin < |s|
  {
    begin < b <= |s| && ParseItems(s, begin + 1) == AfterItems(done, ParseItems(s, b))
  }

  lemma ReadingItemsStarts(s: Bytes, begin: nat)
    requires begin < |s|
    ensures ReadingItems(s, begin, begin + 1, [])
  {
    hide ParseItems;
    var r := ParseItems(s, begin + 1);
    if r.Items? { assert [] + r.items == r.items; }
  }

  lemma NoItemAtEnd(s: Bytes, b: nat)
    requires b <= |s| && WsEnd(s, b) == |s|
    ensures ParseItem(s, b) == NoItem
  {
    hide ParseValue, WsEnd;
    NothingAtEnd(s, b);
  }

  lemma ItemUnfold(s: Bytes, b: nat)
    requires b <= |s|
    ensures ParseItem(s, b) ==
            var i := WsEnd(s, b);
            match ParseValue(s, i)
            case Fail => NoItem
            case Got(v, e) => AnItem(Item(s[b..i], v, s[e..WsEnd(s, e)]), WsEnd(s, e))
  {
    hide ParseValue, WsEnd;
  }

  // ---- members that a loop lets pass ----

  lemma {:induction false} CountAppend(xs: seq<Member>, ys: seq<Member>, key: Bytes)
    ensures Count(xs + ys, key) == Count(xs, key) + Count(ys, key)
    ensures Find(xs + ys, key) == if Find(xs, key).Some? then Find(xs, key) else Find(ys, key)
    decreases |xs|
  {
    if xs == [] {
      assert xs + ys == ys;
    } else {
      assert (xs + ys)[0] == xs[0] && (xs + ys)[1..] == xs[1..] + ys;
      CountAppend(xs[1..], ys, key);
    }
  }

  lemma CountLast(xs: seq<Member>, m: Member, key: Bytes)
    ensures Count(xs + [m], key) == Count(xs, key) + One(m, key)
    ensures Find(xs + [m], key) ==
            if Find(xs, key).Some? then Find(xs, key) else if m.key == key then Some(m.value) else None
  {
    CountAppend(xs, [m], key);
    assert Count([m], key) == One(m, key) && Find([m], key) == if m.key == key then Some(m.value) else None;
  }

  /** Every member passes the test and none of these keys repeats. */
  ghost predicate Admissible(members: seq<Member>, good: Member -> bool, keys: set<Bytes>) {
    && (forall k :: 0 <= k < |members| ==> good(members[k]))
    && (forall key :: key in keys ==> Count(members, key) <= 1)
  }

  lemma AdmissibleMore(done: seq<Member>, m: Member, good: Member -> bool, keys: set<Bytes>)
    requires Admissible(done, good, keys)
    ensures Admissible(done + [m], good, keys) <==> good(m) && (m.key in keys ==> Count(done, m.key) == 0)
  {
    hide Count, Find;
    var all := done + [m];
    assert all[|done|] == m && forall k :: 0 <= k < |done| ==> all[k] == done[k];
    forall key | key in keys ensures Count(all, key) == Count(done, key) + One(m, key) { CountLast(done, m, key); }
  }

  lemma AdmissiblePart(done: seq<Member>, rest: seq<Member>, good: Member -> bool, keys: set<Bytes>)
    requires Admissible(done + rest, good, keys)
    ensures Admissible(done, good, keys)
  {
    hide Count, Find;
    var all := done + rest;
    forall k | 0 <= k < |done| ensures good(done[k]) { assert all[k] == done[k]; }
    forall key | key in keys ensures Count(done, key) <= 1 { CountAppend(done, rest, key); }
  }

  /** The next member is refused, or what follows it is. */
  ghost predicate Stuck(s: Bytes, b: nat, done: seq<Member>, good: Member -> bool, keys: set<Bytes>)
    requires b <= |s|
  {
    match ParseMember(s, b)
    case NoMember => true
    case AMember(m, e) =>
      || !good(m) || (m.key in keys && Count(done, m.key) > 0)
      || e == |s| || (s[e] != ',' && s[e] != '}')
  }

  /** A loop that stops there is right to refuse the whole object. */
  lemma StuckRefuses(s: Bytes, begin: nat, b: nat, tail: Tail, done: seq<Member>, good: Member -> bool, keys: set<Bytes>)
    requires begin < |s| && Reading(s, begin, b, tail, done) && Admissible(done, good, keys)
    requires Stuck(s, b, done, good, keys)
    requires tail == OpenEnd ==> WsEnd(s, b) < |s|
    requires tail != CommaClose
    ensures var r := ParseMembers(s, begin + 1, tail); r.Members? ==> !Admissible(r.members, good, keys)
  {
    hide ParseMember, ParseMembers, WsEnd, Admissible, Count;
    MembersAfter(s, b, tail, done);
    var r := ParseMembers(s, begin + 1, tail);
    if r.Members? && Admissible(r.members, good, keys) {
      var AMember(m, e) := ParseMember(s, b);
      var rest := if s[e] == '}' then [] else ParseMembers(s, e + 1, tail).members;
      assert r.members == done + [m] + rest;
      AdmissiblePart(done + [m], rest, good, keys);
      AdmissibleMore(done, m, good, keys);
      assert false;
    }
  }

  /** One more member has passed. */
  lemma MemberPasses(s: Bytes, begin: nat, b: nat, tail: Tail, done: seq<Member>, good: Member -> bool, keys: set<Bytes>)
    requires begin < |s| && Reading(s, begin, b, tail, done) && Admissible(done, good, keys)
    requires ParseMember(s, b).AMember? && !Stuck(s, b, done, good, keys)
    requires tail != CommaClose
    ensures var AMember(m, e) := ParseMember(s, b);
            && Admissible(done + [m], good, keys)
            && e < |s| && (s[e] == ',' || s[e] == '}')
            && (s[e] == ',' ==> Reading(s, begin, e + 1, tail, done + [m]))
            && (s[e] == '}' ==> ParseMembers(s, begin + 1, tail) == Members(done + [m], e + 1))
  {
    hide ParseMember, ParseMembers, WsEnd, Admissible, Count;
    MembersAfter(s, b, tail, done);
    AdmissibleMore(done, ParseMember(s, b).member, good, keys);
    if WsEnd(s, b) == |s| {
      NoMemberAtEnd(s, b);
      assert false;
    }
  }

  lemma NothingRead(good: Member -> bool, keys: set<Bytes>)
    ensures Admissible([], good, keys)
  {
  }

  // ---- objects that a loop lets pass ----

  /** The value is an object, and the loop finds nothing wrong with its members. */
  ghost predicate AdmissibleObject(v: Value, good: Member -> bool, keys: set<Bytes>) {
    v.Obj? && Admissible(v.members, good, keys)
  }

  /** The object loop starts: either the object is empty or its first member is next. */
  lemma ObjectStarts(s: Bytes, begin: nat)
    requires begin < |s| && s[begin] == '{'
    ensures var j := WsEnd(s, begin + 1);
            if j < |s| && s[j] == '}' then ParseValue(s, begin) == Got(Obj(s[begin + 1..j], []), j + 1)
            else
              && Reading(s, begin, begin + 1, Strict, [])
              && ParseValue(s, begin) ==
                 (match ParseMembers(s, begin + 1, Strict) case NoMembers => Fail case Members(ms, e) => Got(Obj([], ms), e))
  {
    hide ParseValue, ParseMembers, WsEnd;
    ParseObject(s, begin);
    ReadingStarts(s, begin, Strict);
  }

  lemma NoMemberLeft(s: Bytes, b: nat, done: seq<Member>, good: Member -> bool, keys: set<Bytes>)
    requires b <= |s| && WsEnd(s, b) == |s|
    ensures Stuck(s, b, done, good, keys)
  {
    hide ParseMember, WsEnd;
    NoMemberAtEnd(s, b);
  }

  lemma NoObjectHere(s: Bytes, i: nat)
    requires i <= |s| && (i < |s| ==> s[i] != '{')
    ensures ParseValue(s, i).Got? ==> !ParseValue(s, i).value.Obj?
  {
    hide ParseItems, ParseMembers, StringEnd, NumberEnd;
  }

  /** The member at `b` is refused, whatever follows it. */
  ghost predicate Refused(s: Bytes, b: nat, done: seq<Member>, good: Member -> bool, keys: set<Bytes>)
    requires b <= |s|
  {
    match ParseMember(s, b)
    case NoMember => true
    case AMember(m, _) => !good(m) || (m.key in keys && Count(done, m.key) > 0)
  }

  /** The value of the member at `b` ends at `offset` and the member passes; `offset` at the end of
      input also stands for a value that breaks off there. */
  ghost predicate Passed(s: Bytes, b: nat, done: seq<Member>, good: Member -> bool, keys: set<Bytes>, offset: nat)
    requires b <= |s|
  {
    offset <= |s| &&
    match ParseMember(s, b)
    case NoMember => offset == |s|
    case AMember(m, e) => e == WsEnd(s, offset) && good(m) && (m.key in keys ==> Count(done, m.key) == 0)
  }

  lemma RefusedIsStuck(s: Bytes, b: nat, done: seq<Member>, good: Member -> bool, keys: set<Bytes>)
    requires b <= |s| && Refused(s, b, done, good, keys)
    ensures Stuck(s, b, done, good, keys)
  {
    hide ParseMember, Count;
  }

  /** What the byte after a passing member decides. */
  lemma PassedThen(s: Bytes, b: nat, done: seq<Member>, good: Member -> bool, keys: set<Bytes>, offset: nat)
    requires b <= |s| && Passed(s, b, done, good, keys, offset)
    ensures offset <= |s|
    ensures var e := WsEnd(s, offset);
            if e == |s| || (s[e] != ',' && s[e] != '}') then Stuck(s, b, done, good, keys)
            else ParseMember(s, b).AMember? && ParseMember(s, b).end == e && !Stuck(s, b, done, good, keys)
  {
    hide ParseMember, Count;
    if offset == |s| { assert WsEnd(s, offset) == |s|; }
    hide WsEnd;
  }

  lemma {:induction false} WsEndTwice(s: Bytes, i: nat)
    requires i <= |s|
    ensures WsEnd(s, WsEnd(s, i)) == WsEnd(s, i)
  {
    WsEndBlank(s, i);
  }

  lemma KeyEnds(s: Bytes, b: nat)
    requires b <= |s| && ParseKey(s, b).AKey?
    ensures WsEnd(s, ParseKey(s, b).end) == ParseKey(s, b).end
  {
    hide WsEnd, StringEnd;
    var k := StringEnd(s, WsEnd(s, b)).value;
    WsEndTwice(s, WsEnd(s, k) + 1);
  }

  lemma AtMostOnce(members: seq<Member>, good: Member -> bool, keys: set<Bytes>, key: Bytes)
    requires Admissible(members, good, keys) && key in keys
    ensures Count(members, key) <= 1
  {
    hide Count;
  }

  /** The items of a whole array around the next one. */
  lemma ItemsSplit(s: Bytes, begin: nat, b: nat, done: seq<Item>) returns (rest: seq<Item>)
    requires begin < |s| && ReadingItems(s, begin, b, done) && ParseItems(s, begin + 1).Items?
    ensures ParseItem(s, b).AnItem?
    ensures var AnItem(item, e) := ParseItem(s, b);
            && ParseItems(s, begin + 1).items == done + [item] + rest
            && e < |s| && (s[e] == ',' || s[e] == ']')
            && (s[e] == ']' ==> rest == [] && ParseItems(s, begin + 1).end == e + 1)
  {
    hide ParseItem, ParseItems;
    ItemsAfter(s, b, done);
    var AnItem(item, e) := ParseItem(s, b);
    rest := if s[e] == ']' then [] else ParseItems(s, e + 1).items;
    assert done + [item] + [] == done + [item];
  }

  lemma ItemPasses(s: Bytes, begin: nat, b: nat, done: seq<Item>)
    requires begin < |s| && ReadingItems(s, begin, b, done) && ParseItem(s, b).AnItem?
    ensures var AnItem(item, e) := ParseItem(s, b);
            && (e < |s| && s[e] == ',' ==> ReadingItems(s, begin, e + 1, done + [item]))
            && (e < |s| && s[e] == ']' ==> ParseItems(s, begin + 1) == Items(done + [item], e + 1))
  {
    hide ParseItem, ParseItems;
    ItemsAfter(s, b, done);
  }

  /** The array loop starts: either the array is empty or its first item is next. */
  lemma ArrayStarts(s: Bytes, begin: nat)
    requires begin < |s| && s[begin] == '['
    ensures var j := WsEnd(s, begin + 1);
            if j < |s| && s[j] == ']' then ParseValue(s, begin) == Got(Arr(s[begin + 1..j], []), j + 1)
            else
              && ReadingItems(s, begin, begin + 1, [])
              && ParseValue(s, begin) ==
                 (match ParseItems(s, begin + 1) case NoItems => Fail case Items(items, e) => Got(Arr([], items), e))
  {
    hide ParseValue, ParseItems, WsEnd;
    ParseArray(s, begin);
    ReadingItemsStarts(s, begin);
  }

  lemma NoArrayHere(s: Bytes, i: nat)
    requires i <= |s| && (i < |s| ==> s[i] != '[')
    ensures ParseValue(s, i).Got? ==> !ParseValue(s, i).value.Arr?
  {
    hide ParseItems, ParseMembers, StringEnd, NumberEnd;
  }

  /** The object or document loop meets a key that is no string or has an escape. */
  lemma BadKeyRefused(s: Bytes, b: nat, done: seq<Member>, good: Member -> bool, keys: set<Bytes>)
    requires b <= |s| && (ParseKey(s, b).NoKey? || !EscapeFree(ParseKey(s, b).key))
    requires ParseMember(s, b).AMember? && good(ParseMember(s, b).member) ==> EscapeFree(ParseMember(s, b).member.key)
    ensures Refused(s, b, done, good, keys)
  {
    hide ParseKey, ParseValue, WsEnd;
    MemberUnfold(s, b);
  }

  /** The same for a whole message: the loop has read `done` of a document. */
  lemma DocStarts(s: Bytes, tail: Tail)
    requires BodyStart(s).Some? && tail != CommaClose
    ensures var b := BodyStart(s).value;
            var j := WsEnd(s, b);
            if j < |s| && s[j] == '}' then
              DocMembers(s, tail) == if WsEnd(s, j + 1) == |s| then Some([]) else None
            else
              && Reading(s, b - 1, b, tail, [])
              && DocMembers(s, tail) ==
                 (match ParseMembers(s, b, tail)
                  case NoMembers => None
                  case Members(ms, e) => if WsEnd(s, e) == |s| then Some(ms) else None)
  {
    hide ParseMembers, WsEnd;
    ReadingStarts(s, BodyStart(s).value - 1, tail);
  }

  lemma NoDocument(s: Bytes, tail: Tail)
    ensures BodyStart(s).None? ==> DocMembers(s, tail).None?
    ensures BodyStart(s) == (var i := WsEnd(s, 0); if i == |s| || s[i] != '{' then None else Some(i + 1))
  {
    hide WsEnd, ParseBody;
  }

  /** A document loop that meets the end of input after a comma, or at the very start. */
  lemma DocOpenEnds(s: Bytes, begin: nat, b: nat, tail: Tail, done: seq<Member>)
    requires begin < |s| && Reading(s, begin, b, tail, done) && WsEnd(s, b) == |s| && tail != CommaClose
    ensures ParseMembers(s, begin + 1, tail) == if tail == OpenEnd then Members(done, |s|) else NoMembers
  {
    hide ParseMember, ParseMembers, WsEnd;
    MembersAfter(s, b, tail, done);
    NoMemberAtEnd(s, b);
  }

  lemma AdmissibleFind(members: seq<Member>, good: Member -> bool, keys: set<Bytes>, key: Bytes)
    requires Admissible(members, good, keys) && Count(members, key) > 0
    ensures Find(members, key).Some?
    ensures exists k ::
              0 <= k < |members| && members[k].key == key && members[k].value == Find(members, key).value && good(members[k])
  {
    FindIndex(members, key);
  }

  lemma {:induction false} FindIndex(members: seq<Member>, key: Bytes)
    requires Count(members, key) > 0
    ensures exists k :: 0 <= k < |members| && members[k].key == key && members[k].value == Find(members, key).value
    decreases |members|
  {
    if members[0].key != key {
      FindIndex(members[1..], key);
      var k :| 0 <= k < |members[1..]| && members[1..][k].key == key && members[1..][k].value == Find(members[1..], key).value;
      assert members[k + 1] == members[1..][k];
    }
  }
}

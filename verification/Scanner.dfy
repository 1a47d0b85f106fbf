/** The hand-written scanners of src/json_scanner.hpp.

    The functions say where a token or value that starts at a given offset ends, and which
    tree it is. The methods are the scanning loops, proved against those functions.
    `ScannerGrammar` relates the functions to the grammar of module `Json`. */
module Scanner {
  import opened Bytes
  import opened Json

  // ---- specification ----

  function WsEnd(s: Bytes, i: nat): (e: nat)
    requires i <= |s|
    ensures i <= e <= |s|
    decreases |s| - i
  {
    if i < |s| && IsWhitespace(s[i]) then WsEnd(s, i + 1) else i
  }

  function DigitsEnd(s: Bytes, i: nat): (e: nat)
    requires i <= |s|
    ensures i <= e <= |s|
    decreases |s| - i
  {
    if i < |s| && IsDigit(s[i]) then DigitsEnd(s, i + 1) else i
  }

  lemma {:induction false} DigitsFound(s: Bytes, i: nat)
    requires i <= |s|
    ensures var e := DigitsEnd(s, i);
            (forall k :: i <= k < e ==> IsDigit(s[k])) && (e < |s| ==> !IsDigit(s[e]))
    decreases |s| - i
  {
    if i < |s| && IsDigit(s[i]) { DigitsFound(s, i + 1); }
  }

  /** The offset of the quote that closes a string whose contents continue at `i`. */
  function BodyEnd(s: Bytes, i: nat): (r: Option<nat>)
    requires i <= |s|
    ensures r.Some? ==> i <= r.value < |s| && s[r.value] == '"'
    decreases |s| - i
  {
    if i == |s| then None
    else if s[i] == '"' then Some(i)
    else if UnitSize(s, i) == 0 then None
    else BodyEnd(s, i + UnitSize(s, i))
  }

  /** One past the closing quote of the string whose opening quote is at `i`. */
  function StringEnd(s: Bytes, i: nat): (r: Option<nat>)
    requires i <= |s|
    ensures r.Some? ==> i + 2 <= r.value <= |s| && s[i] == '"' && s[r.value - 1] == '"'
  {
    if i == |s| || s[i] != '"' then None
    else match BodyEnd(s, i + 1) case None => None case Some(q) => Some(q + 1)
  }

  function WholeEnd(s: Bytes, i: nat): (r: Option<nat>)
    requires i <= |s|
    ensures r.Some? ==> i < r.value <= |s|
  {
    if i == |s| then None
    else if s[i] == '0' then Some(i + 1)
    else if IsDigit(s[i]) then Some(DigitsEnd(s, i))
    else None
  }

  function FractionEnd(s: Bytes, i: nat): (r: Option<nat>)
    requires i <= |s|
    ensures r.Some? ==> i <= r.value <= |s|
  {
    if i == |s| || s[i] != '.' then Some(i)
    else if DigitsEnd(s, i + 1) == i + 1 then None
    else Some(DigitsEnd(s, i + 1))
  }

  function SignEnd(s: Bytes, i: nat): (e: nat)
    requires i <= |s|
    ensures i <= e <= i + 1 && e <= |s|
  {
    if i < |s| && (s[i] == '+' || s[i] == '-') then i + 1 else i
  }

  function ExponentEnd(s: Bytes, i: nat): (r: Option<nat>)
    requires i <= |s|
    ensures r.Some? ==> i <= r.value <= |s|
  {
    if i == |s| || (s[i] != 'e' && s[i] != 'E') then Some(i)
    else
      var d := SignEnd(s, i + 1);
      if DigitsEnd(s, d) == d then None else Some(DigitsEnd(s, d))
  }

  function NumberEnd(s: Bytes, i: nat): (r: Option<nat>)
    requires i <= |s|
    ensures r.Some? ==> i < r.value <= |s|
  {
    match WholeEnd(s, if i < |s| && s[i] == '-' then i + 1 else i)
    case None => None
    case Some(w) =>
      match FractionEnd(s, w)
      case None => None
      case Some(f) => ExponentEnd(s, f)
  }

  predicate LiteralAt(s: Bytes, i: nat, literal: Bytes) {
    i + |literal| <= |s| && s[i..i + |literal|] == literal
  }

  datatype Parsed = Fail | Got(value: Value, end: nat)
  datatype ParsedItem = NoItem | AnItem(item: Item, end: nat)
  datatype ParsedItems = NoItems | Items(items: seq<Item>, end: nat)
  datatype ParsedKey = NoKey | AKey(pre: Bytes, key: Bytes, mid: Bytes, gap: Bytes, end: nat)
  datatype ParsedMember = NoMember | AMember(member: Member, end: nat)
  datatype ParsedMembers = NoMembers | Members(members: seq<Member>, end: nat)

  /** How a member list may end. `Strict` is the grammar: after the last member comes the
      closing brace. Two hand-written loops are laxer after a comma: `OpenEnd` takes the end
      of input there, `CommaClose` takes the closing brace there. */
  datatype Tail = Strict | OpenEnd | CommaClose

  function WordAt(s: Bytes, i: nat, word: Bytes): (r: Parsed)
    requires i <= |s| && word != []
    ensures r.Got? ==> i < r.end <= |s|
  {
    if LiteralAt(s, i, word) then Got(Word(word), i + |word|) else Fail
  }

  /** The value that starts exactly at `i`, whatever its height. */
  function ParseValue(s: Bytes, i: nat): (r: Parsed)
    requires i <= |s|
    ensures r.Got? ==> i < r.end <= |s|
    decreases |s| - i, 0
  {
    if i == |s| then Fail
    else if s[i] == '"' then
      match StringEnd(s, i) case None => Fail case Some(e) => Got(Str(s[i + 1..e - 1]), e)
    else if s[i] == '{' then
      var j := WsEnd(s, i + 1);
      if j < |s| && s[j] == '}' then Got(Obj(s[i + 1..j], []), j + 1)
      else match ParseMembers(s, i + 1, Strict) case NoMembers => Fail case Members(ms, e) => Got(Obj([], ms), e)
    else if s[i] == '[' then
      var j := WsEnd(s, i + 1);
      if j < |s| && s[j] == ']' then Got(Arr(s[i + 1..j], []), j + 1)
      else match ParseItems(s, i + 1) case NoItems => Fail case Items(items, e) => Got(Arr([], items), e)
    else if s[i] == 't' then WordAt(s, i, "true")
    else if s[i] == 'f' then WordAt(s, i, "false")
    else if s[i] == 'n' then WordAt(s, i, "null")
    else match NumberEnd(s, i) case None => Fail case Some(e) => Got(Num(s[i..e]), e)
  }

  /** One array element and the whitespace around it; `end` is the offset of what follows. */
  function ParseItem(s: Bytes, b: nat): (r: ParsedItem)
    requires b <= |s|
    ensures r.AnItem? ==> b < r.end <= |s|
    decreases |s| - b, 1
  {
    var i := WsEnd(s, b);
    match ParseValue(s, i)
    case Fail => NoItem
    case Got(v, e) => AnItem(Item(s[b..i], v, s[e..WsEnd(s, e)]), WsEnd(s, e))
  }

  function ParseItems(s: Bytes, b: nat): (r: ParsedItems)
    requires b <= |s|
    ensures r.Items? ==> b < r.end <= |s| && s[r.end - 1] == ']' && r.items != []
    decreases |s| - b, 2
  {
    match ParseItem(s, b)
    case NoItem => NoItems
    case AnItem(item, e) =>
      if e == |s| then NoItems
      else if s[e] == ']' then Items([item], e + 1)
      else if s[e] != ',' then NoItems
      else match ParseItems(s, e + 1) case NoItems => NoItems case Items(rest, end) => Items([item] + rest, end)
  }

  /** `pre "key" mid : gap`; `end` is where the value has to start. */
  function ParseKey(s: Bytes, b: nat): (r: ParsedKey)
    requires b <= |s|
    ensures r.AKey? ==> b < r.end <= |s|
  {
    var i := WsEnd(s, b);
    match StringEnd(s, i)
    case None => NoKey
    case Some(k) =>
      var c := WsEnd(s, k);
      if c == |s| || s[c] != ':' then NoKey
      else AKey(s[b..i], s[i + 1..k - 1], s[k..c], s[c + 1..WsEnd(s, c + 1)], WsEnd(s, c + 1))
  }

  function ParseMember(s: Bytes, b: nat): (r: ParsedMember)
    requires b <= |s|
    ensures r.AMember? ==> b < r.end <= |s|
    decreases |s| - b, 1
  {
    match ParseKey(s, b)
    case NoKey => NoMember
    case AKey(pre, key, mid, gap, v) =>
      match ParseValue(s, v)
      case Fail => NoMember
      case Got(value, e) => AMember(Member(pre, key, mid, gap, value, s[e..WsEnd(s, e)]), WsEnd(s, e))
  }

  /** The member list whose first member (or the whitespace before it) starts at `b`; `end` is
      one past the closing brace, or the end of input for an open-ended list. */
  function ParseMembers(s: Bytes, b: nat, tail: Tail): (r: ParsedMembers)
    requires b <= |s|
    ensures r.Members? ==> b <= r.end <= |s|
    ensures r.Members? && tail == Strict ==> b < r.end && r.members != []
    decreases |s| - b, 2
  {
    var i := WsEnd(s, b);
    if tail == OpenEnd && i == |s| then Members([], |s|)
    else if tail == CommaClose && i < |s| && s[i] == '}' then Members([], i + 1)
    else
      match ParseMember(s, b)
      case NoMember => NoMembers
      case AMember(m, e) =>
        if e == |s| then NoMembers
        else if s[e] == '}' then Members([m], e + 1)
        else if s[e] != ',' then NoMembers
        else
          match ParseMembers(s, e + 1, tail)
          case NoMembers => NoMembers
          case Members(rest, end) => Members([m] + rest, end)
  }

  lemma {:induction false} ClosingBrace(s: Bytes, b: nat)
    requires b <= |s| && ParseMembers(s, b, Strict).Members?
    ensures s[ParseMembers(s, b, Strict).end - 1] == '}'
    decreases |s| - b
  {
    hide ParseMember, ParseMembers, WsEnd;
    MembersUnfold(s, b, Strict);
    var e := ParseMember(s, b).end;
    if s[e] == ',' { ClosingBrace(s, e + 1); }
  }

  /** Where a value met at nesting `depth` ends, if it is well formed and within `limit`. */
  function SkipTo(s: Bytes, i: nat, depth: nat, limit: nat): (r: Option<nat>)
    requires i <= |s|
    ensures r.Some? ==> i < r.value <= |s|
  {
    match ParseValue(s, i)
    case Fail => None
    case Got(v, e) => if Fits(v, depth, limit) then Some(e) else None
  }

  /** `ParseValue` at an opening brace. */
  lemma ParseObject(s: Bytes, i: nat)
    requires i < |s| && s[i] == '{'
    ensures ParseValue(s, i) ==
            var j := WsEnd(s, i + 1);
            if j < |s| && s[j] == '}' then Got(Obj(s[i + 1..j], []), j + 1)
            else match ParseMembers(s, i + 1, Strict) case NoMembers => Fail case Members(ms, e) => Got(Obj([], ms), e)
  {
    hide WsEnd, ParseMembers, ParseItems;
  }

  /** `ParseValue` at an opening bracket. */
  lemma ParseArray(s: Bytes, i: nat)
    requires i < |s| && s[i] == '['
    ensures ParseValue(s, i) ==
            var j := WsEnd(s, i + 1);
            if j < |s| && s[j] == ']' then Got(Arr(s[i + 1..j], []), j + 1)
            else match ParseItems(s, i + 1) case NoItems => Fail case Items(items, e) => Got(Arr([], items), e)
  {
    hide WsEnd, ParseMembers, ParseItems;
  }

  // ---- one round of a list ----

  lemma MembersUnfold(s: Bytes, b: nat, tail: Tail)
    requires b <= |s|
    ensures ParseMembers(s, b, tail) ==
            var i := WsEnd(s, b);
            if tail == OpenEnd && i == |s| then Members([], |s|)
            else if tail == CommaClose && i < |s| && s[i] == '}' then Members([], i + 1)
            else
              match ParseMember(s, b)
              case NoMember => NoMembers
              case AMember(m, e) =>
                if e == |s| then NoMembers
                else if s[e] == '}' then Members([m], e + 1)
                else if s[e] != ',' then NoMembers
                else
                  match ParseMembers(s, e + 1, tail)
                  case NoMembers => NoMembers
                  case Members(rest, end) => Members([m] + rest, end)
  {
    hide ParseMember, WsEnd;
  }

  lemma MemberUnfold(s: Bytes, b: nat)
    requires b <= |s|
    ensures ParseMember(s, b) ==
            match ParseKey(s, b)
            case NoKey => NoMember
            case AKey(pre, key, mid, gap, v) =>
              match ParseValue(s, v)
              case Fail => NoMember
              case Got(value, e) => AMember(Member(pre, key, mid, gap, value, s[e..WsEnd(s, e)]), WsEnd(s, e))
  {
    hide ParseValue, ParseKey, WsEnd;
  }

  lemma ItemsUnfold(s: Bytes, b: nat)
    requires b <= |s|
    ensures ParseItems(s, b) ==
            match ParseItem(s, b)
            case NoItem => NoItems
            case AnItem(item, e) =>
              if e == |s| then NoItems
              else if s[e] == ']' then Items([item], e + 1)
              else if s[e] != ',' then NoItems
              else match ParseItems(s, e + 1) case NoItems => NoItems case Items(rest, end) => Items([item] + rest, end)
  {
    hide ParseItem;
  }

  // ---- the scanning loops ----

  method SkipWhitespace(input: Bytes, begin: nat) returns (offset: nat)
    requires begin <= |input|
    ensures offset == WsEnd(input, begin)
  {
    offset := begin;
    while offset < |input| && IsWhitespace(input[offset])
      invariant begin <= offset <= |input|
      invariant WsEnd(input, begin) == WsEnd(input, offset)
    {
      offset := offset + 1;
    }
  }

  lemma PlainUnit(t: Bytes, i: nat)
    requires i < |t|
    ensures t[i] != '\\' ==> UnitSize(t, i) == if t[i] == '"' || t[i] < ' ' then 0 else 1
  {
  }

  /** What follows a backslash: one short escape, or `u` and four hexadecimal digits. */
  method ScanEscape(input: Bytes, begin: nat) returns (ok: bool, offset: nat)
    requires 0 < begin <= |input| && input[begin - 1] == '\\'
    ensures ok <==> UnitSize(input, begin - 1) > 0
    ensures ok ==> offset == begin - 1 + UnitSize(input, begin - 1)
  {
    hide IsHexDigit;
    ok, offset := false, begin;
    if offset == |input| {
      return;
    }
    var escape := input[offset];
    offset := offset + 1;
    if escape == 'u' {
      if |input| - offset < 4 {
        return;
      }
      var index := 0;
      while index < 4
        invariant 0 <= index <= 4
        invariant forall k :: offset <= k < offset + index ==> IsHexDigit(input[k])
      {
        if !IsHexDigit(input[offset + index]) {
          return;
        }
        index := index + 1;
      }
      return true, offset + 4;
    }
    return IsShortEscape(escape), offset;
  }

  method ScanString(input: Bytes, begin: nat)
    returns (ok: bool, offset: nat, contents: Bytes, hasEscape: bool)
    requires begin <= |input|
    ensures ok <==> StringEnd(input, begin).Some?
    ensures ok ==> offset == StringEnd(input, begin).value
    ensures ok ==> contents == input[begin + 1..offset - 1] && hasEscape == !EscapeFree(contents)
  {
    hide UnitSize;
    ok, offset, contents, hasEscape := false, begin, [], false;
    if offset >= |input| || input[offset] != '"' {
      return;
    }
    offset := offset + 1;
    while offset < |input|
      invariant begin + 1 <= offset <= |input|
      invariant BodyEnd(input, begin + 1) == BodyEnd(input, offset)
      invariant hasEscape <==> exists k :: begin < k < offset && input[k] == '\\'
    {
      var value := input[offset];
      PlainUnit(input, offset);
      offset := offset + 1;
      if value == '"' {
        return true, offset, input[begin + 1..offset - 1], hasEscape;
      }
      if value < ' ' {
        return;
      }
      if value != '\\' {
        continue;
      }
      hasEscape := true;
      var known;
      known, offset := ScanEscape(input, offset);
      if !known {
        return;
      }
    }
  }

  method ScanDigits(input: Bytes, begin: nat) returns (offset: nat)
    requires begin <= |input|
    ensures offset == DigitsEnd(input, begin)
  {
    offset := begin;
    while offset < |input| && IsDigit(input[offset])
      invariant begin <= offset <= |input|
      invariant DigitsEnd(input, begin) == DigitsEnd(input, offset)
    {
      offset := offset + 1;
    }
  }

  method ScanFraction(input: Bytes, begin: nat) returns (ok: bool, offset: nat)
    requires begin <= |input|
    ensures ok <==> FractionEnd(input, begin).Some?
    ensures ok ==> offset == FractionEnd(input, begin).value
  {
    ok, offset := true, begin;
    if offset < |input| && input[offset] == '.' {
      offset := ScanDigits(input, begin + 1);
      ok := offset != begin + 1;
    }
  }

  method ScanExponent(input: Bytes, begin: nat) returns (ok: bool, offset: nat)
    requires begin <= |input|
    ensures ok <==> ExponentEnd(input, begin).Some?
    ensures ok ==> offset == ExponentEnd(input, begin).value
  {
    ok, offset := true, begin;
    if offset < |input| && (input[offset] == 'e' || input[offset] == 'E') {
      offset := offset + 1;
      if offset < |input| && (input[offset] == '+' || input[offset] == '-') {
        offset := offset + 1;
      }
      var exponentBegin := offset;
      offset := ScanDigits(input, exponentBegin);
      ok := offset != exponentBegin;
    }
  }

  method ScanNumber(input: Bytes, begin: nat) returns (ok: bool, offset: nat)
    requires begin <= |input|
    ensures ok <==> NumberEnd(input, begin).Some?
    ensures ok ==> offset == NumberEnd(input, begin).value
  {
    hide FractionEnd, ExponentEnd, DigitsEnd;
    ok, offset := false, begin;
    if offset < |input| && input[offset] == '-' {
      offset := offset + 1;
    }
    if offset == |input| {
      return;
    }
    if input[offset] == '0' {
      offset := offset + 1;
    } else if '1' <= input[offset] <= '9' {
      offset := ScanDigits(input, offset);
    } else {
      return;
    }
    ok, offset := ScanFraction(input, offset);
    if !ok {
      return;
    }
    ok, offset := ScanExponent(input, offset);
  }

  method ScanLiteral(input: Bytes, begin: nat, literal: Bytes) returns (ok: bool, offset: nat)
    requires begin <= |input|
    ensures ok <==> LiteralAt(input, begin, literal)
    ensures offset == if ok then begin + |literal| else begin
  {
    if |input| - begin < |literal| || input[begin..begin + |literal|] != literal {
      return false, begin;
    }
    return true, begin + |literal|;
  }

  /** The end of a member list, if every value in it stays within the limit. */
  ghost function MembersTo(r: ParsedMembers, depth: nat, limit: nat): Option<nat> {
    if r.Members? && depth + MembersHeight(r.members) <= limit then Some(r.end) else None
  }

  ghost function ItemsTo(r: ParsedItems, depth: nat, limit: nat): Option<nat> {
    if r.Items? && depth + ItemsHeight(r.items) <= limit then Some(r.end) else None
  }

  /** One round of the member loop. */
  lemma MembersStep(s: Bytes, b: nat, depth: nat, limit: nat)
    requires b <= |s|
    ensures MembersTo(ParseMembers(s, b, Strict), depth, limit) ==
            match ParseKey(s, b)
            case NoKey => None
            case AKey(_, _, _, _, v) =>
              match SkipTo(s, v, depth + 1, limit)
              case None => None
              case Some(e) =>
                var p := WsEnd(s, e);
                if p == |s| then None
                else if s[p] == '}' then Some(p + 1)
                else if s[p] == ',' then MembersTo(ParseMembers(s, p + 1, Strict), depth, limit)
                else None
  {
    hide ParseValue, ParseKey, ParseItems, ParseMembers, WsEnd, Height, MembersHeight;
    MembersUnfold(s, b, Strict);
    var r := ParseMember(s, b);
    if r.AMember? {
      var AMember(m, p) := r;
      var next := if p < |s| then ParseMembers(s, p + 1, Strict) else NoMembers;
      TallerMembers(m, if next.Members? then next.members else []);
    }
  }

  /** One round of the array loop. */
  lemma ItemsStep(s: Bytes, b: nat, depth: nat, limit: nat)
    requires b <= |s|
    ensures ItemsTo(ParseItems(s, b), depth, limit) ==
            match SkipTo(s, WsEnd(s, b), depth + 1, limit)
            case None => None
            case Some(e) =>
              var p := WsEnd(s, e);
              if p == |s| then None
              else if s[p] == ']' then Some(p + 1)
              else if s[p] == ',' then ItemsTo(ParseItems(s, p + 1), depth, limit)
              else None
  {
    hide ParseValue, ParseKey, ParseItems, ParseMembers, WsEnd, Height, ItemsHeight;
    ItemsUnfold(s, b);
    var r := ParseItem(s, b);
    if r.AnItem? {
      var AnItem(item, p) := r;
      TallerItems(item, if p < |s| && ParseItems(s, p + 1).Items? then ParseItems(s, p + 1).items else []);
    }
  }

  lemma TallerItems(item: Item, rest: seq<Item>)
    ensures ItemsHeight([item] + rest) == Max(Height(item.value), ItemsHeight(rest))
    ensures ItemsHeight([item]) == Height(item.value)
  {
    hide Height;
    assert ([item] + rest)[1..] == rest && [item][1..] == [];
  }

  lemma TallerMembers(m: Member, rest: seq<Member>)
    ensures MembersHeight([m] + rest) == Max(Height(m.value), MembersHeight(rest))
    ensures MembersHeight([m]) == Height(m.value)
  {
    hide Height;
    assert ([m] + rest)[1..] == rest && [m][1..] == [];
  }

  lemma SkipObjectStep(s: Bytes, i: nat, depth: nat, limit: nat)
    requires i < |s| && s[i] == '{' && depth <= limit
    ensures var j := WsEnd(s, i + 1);
            SkipTo(s, i, depth, limit) ==
            if j < |s| && s[j] == '}' then Some(j + 1)
            else MembersTo(ParseMembers(s, i + 1, Strict), depth, limit)
  {
    hide ParseMembers, ParseItems;
    var j := WsEnd(s, i + 1);
    assert Height(Obj(s[i + 1..j], [])) == 1;
  }

  lemma SkipArrayStep(s: Bytes, i: nat, depth: nat, limit: nat)
    requires i < |s| && s[i] == '[' && depth <= limit
    ensures var j := WsEnd(s, i + 1);
            SkipTo(s, i, depth, limit) ==
            if j < |s| && s[j] == ']' then Some(j + 1)
            else ItemsTo(ParseItems(s, i + 1), depth, limit)
  {
    hide ParseMembers, ParseItems;
    var j := WsEnd(s, i + 1);
    assert Height(Arr(s[i + 1..j], [])) == 1;
  }

  lemma NothingAtEnd(s: Bytes, b: nat)
    requires b <= |s| && WsEnd(s, b) == |s|
    ensures ParseKey(s, b).NoKey? && ParseValue(s, |s|).Fail?
  {
  }

  /** Every client of the scanner reads `"key" :` and the whitespace around the colon with the
      same statements; they stand here once. `begin` is the offset of the key, `b` is where
      the whitespace before it starts. */
  method ScanKey(input: Bytes, begin: nat, ghost b: nat)
    returns (ok: bool, offset: nat, key: Bytes, hasEscape: bool)
    requires b <= |input| && begin == WsEnd(input, b)
    ensures ok <==> ParseKey(input, b).AKey?
    ensures ok ==> offset == ParseKey(input, b).end && key == ParseKey(input, b).key
    ensures ok ==> hasEscape == !EscapeFree(key)
  {
    hide StringEnd, EscapeFree;
    ok, offset, key, hasEscape := ScanString(input, begin);
    if !ok {
      return;
    }
    offset := SkipWhitespace(input, offset);
    if offset == |input| || input[offset] != ':' {
      return false, offset, key, hasEscape;
    }
    offset := SkipWhitespace(input, offset + 1);
  }

  lemma SkipMembersStops(s: Bytes, b: nat, depth: nat, limit: nat)
    requires b <= |s|
    requires ParseKey(s, b).NoKey? || SkipTo(s, ParseKey(s, b).end, depth + 1, limit).None?
    ensures MembersTo(ParseMembers(s, b, Strict), depth, limit).None?
  {
    hide ParseKey, ParseMembers, MembersTo, SkipTo;
    MembersStep(s, b, depth, limit);
  }

  lemma NoKeyAtEnd(s: Bytes, b: nat)
    requires b <= |s| && WsEnd(s, b) == |s|
    ensures ParseKey(s, b).NoKey?
  {
    hide WsEnd;
  }

  lemma SkipMembersNext(s: Bytes, b: nat, e: nat, depth: nat, limit: nat)
    requires b <= |s| && ParseKey(s, b).AKey? && SkipTo(s, ParseKey(s, b).end, depth + 1, limit) == Some(e)
    ensures var p := WsEnd(s, e);
            MembersTo(ParseMembers(s, b, Strict), depth, limit) ==
            if p == |s| then None
            else if s[p] == '}' then Some(p + 1)
            else if s[p] == ',' then MembersTo(ParseMembers(s, p + 1, Strict), depth, limit)
            else None
  {
    hide ParseKey, ParseMembers, MembersTo, SkipTo, WsEnd;
    MembersStep(s, b, depth, limit);
  }

  method SkipObject(input: Bytes, begin: nat, depth: nat, limit: nat) returns (ok: bool, offset: nat)
    requires begin < |input| && input[begin] == '{' && depth <= limit
    ensures ok <==> SkipTo(input, begin, depth, limit).Some?
    ensures ok ==> offset == SkipTo(input, begin, depth, limit).value
    decreases |input| - begin, 0
  {
    hide WsEnd, ParseMembers, ParseKey, MembersTo, SkipTo;
    SkipObjectStep(input, begin, depth, limit);
    offset := SkipWhitespace(input, begin + 1);
    if offset < |input| && input[offset] == '}' {
      return true, offset + 1;
    }
    ghost var b := begin + 1;
    while offset < |input|
      invariant begin < b <= |input| && offset == WsEnd(input, b)
      invariant MembersTo(ParseMembers(input, begin + 1, Strict), depth, limit)
             == MembersTo(ParseMembers(input, b, Strict), depth, limit)
      decreases |input| - b
    {
      var key, hasEscape;
      ok, offset, key, hasEscape := ScanKey(input, offset, b);
      if !ok {
        SkipMembersStops(input, b, depth, limit);
        return;
      }
      ok, offset := SkipValue(input, offset, depth + 1, limit);
      if !ok {
        SkipMembersStops(input, b, depth, limit);
        return;
      }
      SkipMembersNext(input, b, offset, depth, limit);
      offset := SkipWhitespace(input, offset);
      if offset == |input| {
        return false, offset;
      }
      if input[offset] == '}' {
        return true, offset + 1;
      }
      if input[offset] != ',' {
        return false, offset;
      }
      b := offset + 1;
      offset := SkipWhitespace(input, offset + 1);
    }
    NoKeyAtEnd(input, b);
    SkipMembersStops(input, b, depth, limit);
    return false, offset;
  }

  lemma NothingSkipped(s: Bytes, b: nat, depth: nat, limit: nat)
    requires b <= |s| && WsEnd(s, b) == |s|
    ensures SkipTo(s, WsEnd(s, b), depth, limit).None?
  {
    hide ParseValue, WsEnd;
    NothingAtEnd(s, b);
  }

  method SkipArray(input: Bytes, begin: nat, depth: nat, limit: nat) returns (ok: bool, offset: nat)
    requires begin < |input| && input[begin] == '[' && depth <= limit
    ensures ok <==> SkipTo(input, begin, depth, limit).Some?
    ensures ok ==> offset == SkipTo(input, begin, depth, limit).value
    decreases |input| - begin, 0
  {
    hide WsEnd, ParseItems, ItemsTo, SkipTo;
    SkipArrayStep(input, begin, depth, limit);
    offset := SkipWhitespace(input, begin + 1);
    if offset < |input| && input[offset] == ']' {
      return true, offset + 1;
    }
    ghost var b := begin + 1;
    while offset < |input|
      invariant begin < b <= |input| && offset == WsEnd(input, b)
      invariant ItemsTo(ParseItems(input, begin + 1), depth, limit)
             == ItemsTo(ParseItems(input, b), depth, limit)
      decreases |input| - b
    {
      ItemsStep(input, b, depth, limit);
      ok, offset := SkipValue(input, offset, depth + 1, limit);
      if !ok {
        return;
      }
      offset := SkipWhitespace(input, offset);
      if offset == |input| {
        return false, offset;
      }
      if input[offset] == ']' {
        return true, offset + 1;
      }
      if input[offset] != ',' {
        return false, offset;
      }
      b := offset + 1;
      offset := SkipWhitespace(input, offset + 1);
    }
    ItemsStep(input, b, depth, limit);
    NothingSkipped(input, b, depth + 1, limit);
    return false, offset;
  }

  method SkipValue(input: Bytes, begin: nat, depth: nat, limit: nat) returns (ok: bool, offset: nat)
    requires begin <= |input|
    ensures ok <==> SkipTo(input, begin, depth, limit).Some?
    ensures ok ==> offset == SkipTo(input, begin, depth, limit).value
    decreases |input| - begin, 1
  {
    hide ParseMembers, ParseItems, StringEnd, NumberEnd;
    ok, offset := false, begin;
    if depth > limit || offset == |input| {
      return;
    }
    if input[offset] == '"' {
      var contents, hasEscape;
      ok, offset, contents, hasEscape := ScanString(input, offset);
    } else if input[offset] == '{' {
      ok, offset := SkipObject(input, offset, depth, limit);
    } else if input[offset] == '[' {
      ok, offset := SkipArray(input, offset, depth, limit);
    } else if input[offset] == 't' {
      ok, offset := ScanLiteral(input, offset, "true");
    } else if input[offset] == 'f' {
      ok, offset := ScanLiteral(input, offset, "false");
    } else if input[offset] == 'n' {
      ok, offset := ScanLiteral(input, offset, "null");
    } else {
      ok, offset := ScanNumber(input, offset);
    }
  }
}

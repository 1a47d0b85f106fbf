/** The byte grammar of JSON (RFC 8259 sections 2 to 7) as concrete syntax trees.

    A tree keeps every byte of the text it stands for: the raw contents of strings, the
    spelling of numbers, and all whitespace. `Text` gives the bytes back and `Height` is the
    nesting that the depth limits count. */
module Json {
  import opened Bytes

  datatype Value =
    | Str(raw: Bytes)
    | Num(raw: Bytes)
    | Word(raw: Bytes)
    | Arr(pad: Bytes, items: seq<Item>)
    | Obj(pad: Bytes, members: seq<Member>)

  /** An array element with the whitespace before and after it. */
  datatype Item = Item(pre: Bytes, value: Value, post: Bytes)

  /** `pre "key" mid : gap value post` */
  datatype Member = Member(pre: Bytes, key: Bytes, mid: Bytes, gap: Bytes, value: Value, post: Bytes)

  // ---- text ----

  function Quoted(raw: Bytes): Bytes {
    "\"" + raw + "\""
  }

  function Text(v: Value): Bytes {
    match v
    case Str(raw) => Quoted(raw)
    case Num(raw) => raw
    case Word(raw) => raw
    case Arr(pad, items) => "[" + pad + ItemsText(items) + "]"
    case Obj(pad, members) => "{" + pad + MembersText(members) + "}"
  }

  function ItemText(item: Item): Bytes {
    item.pre + Text(item.value) + item.post
  }

  function ItemsText(items: seq<Item>): Bytes {
    if items == [] then []
    else if |items| == 1 then ItemText(items[0])
    else ItemText(items[0]) + "," + ItemsText(items[1..])
  }

  function MemberHead(m: Member): Bytes {
    m.pre + Quoted(m.key) + m.mid + ":" + m.gap
  }

  function MemberText(m: Member): Bytes {
    MemberHead(m) + Text(m.value) + m.post
  }

  function MembersText(members: seq<Member>): Bytes {
    if members == [] then []
    else if |members| == 1 then MemberText(members[0])
    else MemberText(members[0]) + "," + MembersText(members[1..])
  }

  // ---- strings ----

  predicate IsShortEscape(c: char) {
    c == '"' || c == '\\' || c == '/' || c == 'b' || c == 'f' || c == 'n' || c == 'r' || c == 't'
  }

  /** The number of bytes of the string character that starts at `t[i]`: 1 for a plain byte,
      2 or 6 for an escape sequence, 0 if no string character starts there. */
  function UnitSize(t: Bytes, i: nat): (n: nat)
    requires i < |t|
    ensures i + n <= |t|
  {
    if t[i] == '"' || t[i] < ' ' then 0
    else if t[i] != '\\' then 1
    else if i + 1 == |t| then 0
    else if t[i + 1] == 'u' then
      if i + 6 <= |t| && IsHexDigit(t[i + 2]) && IsHexDigit(t[i + 3]) && IsHexDigit(t[i + 4]) && IsHexDigit(t[i + 5])
      then 6 else 0
    else if IsShortEscape(t[i + 1]) then 2
    else 0
  }

  ghost predicate UnitsFrom(t: Bytes, i: nat)
    requires i <= |t|
    decreases |t| - i
  {
    i == |t| || (UnitSize(t, i) > 0 && UnitsFrom(t, i + UnitSize(t, i)))
  }

  /** `t` can stand between the quotes of a JSON string. */
  ghost predicate IsStringBody(t: Bytes) {
    UnitsFrom(t, 0)
  }

  // ---- numbers ----

  datatype Exponent = Exponent(mark: char, sign: Bytes, digits: Bytes)
  datatype Number = Number(minus: bool, whole: Bytes, fraction: Option<Bytes>, exponent: Option<Exponent>)

  ghost predicate ValidNumber(n: Number) {
    && Digits(n.whole) && (n.whole[0] == '0' ==> |n.whole| == 1)
    && (n.fraction.Some? ==> Digits(n.fraction.value))
    && (n.exponent.Some? ==> ValidExponent(n.exponent.value))
  }

  ghost predicate ValidExponent(x: Exponent) {
    (x.mark == 'e' || x.mark == 'E') && (x.sign == [] || x.sign == "+" || x.sign == "-") && Digits(x.digits)
  }

  function NumberText(n: Number): Bytes {
    (if n.minus then "-" else []) + n.whole + FractionText(n.fraction) + ExponentText(n.exponent)
  }

  function FractionText(fraction: Option<Bytes>): Bytes {
    if fraction.Some? then "." + fraction.value else []
  }

  function ExponentText(exponent: Option<Exponent>): Bytes {
    if exponent.Some? then [exponent.value.mark] + exponent.value.sign + exponent.value.digits else []
  }

  ghost predicate IsNumber(t: Bytes) {
    exists n :: ValidNumber(n) && NumberText(n) == t
  }

  // ---- well-formed values ----

  ghost predicate WellFormed(v: Value) {
    match v
    case Str(raw) => IsStringBody(raw)
    case Num(raw) => IsNumber(raw)
    case Word(raw) => raw == "true" || raw == "false" || raw == "null"
    case Arr(pad, items) => Blank(pad) && (items != [] ==> pad == []) && WellFormedItems(items)
    case Obj(pad, members) => Blank(pad) && (members != [] ==> pad == []) && WellFormedMembers(members)
  }

  ghost predicate WellFormedItem(item: Item) {
    Blank(item.pre) && WellFormed(item.value) && Blank(item.post)
  }

  ghost predicate WellFormedItems(items: seq<Item>) {
    items == [] || (WellFormedItem(items[0]) && WellFormedItems(items[1..]))
  }

  ghost predicate WellFormedMember(m: Member) {
    && Blank(m.pre) && IsStringBody(m.key) && Blank(m.mid) && Blank(m.gap)
    && WellFormed(m.value) && Blank(m.post)
  }

  ghost predicate WellFormedMembers(members: seq<Member>) {
    members == [] || (WellFormedMember(members[0]) && WellFormedMembers(members[1..]))
  }

  // ---- lists, one element more ----

  lemma ItemsMore(item: Item, rest: seq<Item>)
    ensures ItemsText([item] + rest) == if rest == [] then ItemText(item) else ItemText(item) + "," + ItemsText(rest)
    ensures WellFormedItems([item] + rest) <==> WellFormedItem(item) && WellFormedItems(rest)
  {
    hide ItemText, WellFormedItem;
    assert ([item] + rest)[1..] == rest;
  }

  lemma MembersMore(m: Member, rest: seq<Member>)
    ensures MembersText([m] + rest) == if rest == [] then MemberText(m) else MemberText(m) + "," + MembersText(rest)
    ensures WellFormedMembers([m] + rest) <==> WellFormedMember(m) && WellFormedMembers(rest)
  {
    hide MemberText, WellFormedMember;
    assert ([m] + rest)[1..] == rest;
  }

  lemma ItemsOne(item: Item)
    ensures ItemsText([item]) == ItemText(item) && (WellFormedItems([item]) <==> WellFormedItem(item))
  {
    hide ItemText, WellFormedItem;
    assert [item][1..] == [];
  }

  lemma MembersOne(m: Member)
    ensures MembersText([m]) == MemberText(m) && (WellFormedMembers([m]) <==> WellFormedMember(m))
  {
    hide MemberText, WellFormedMember;
    assert [m][1..] == [];
  }

  lemma WellFormedMore(m: Member, rest: seq<Member>)
    requires WellFormedMember(m) && WellFormedMembers(rest)
    ensures WellFormedMembers([m] + rest)
  {
    hide MembersText;
    MembersMore(m, rest);
  }

  lemma WellFormedOne(m: Member)
    requires WellFormedMember(m)
    ensures WellFormedMembers([m])
  {
    hide MembersText;
    MembersOne(m);
  }

  lemma NoneWellFormed()
    ensures WellFormedItems([]) && WellFormedMembers([])
  {
  }

  // ---- nesting ----

  function Max(a: nat, b: nat): nat {
    if a < b then b else a
  }

  /** 1 for a scalar or an empty container, otherwise 1 more than the tallest child. */
  function Height(v: Value): (h: nat)
    ensures h >= 1
  {
    match v
    case Arr(_, items) => 1 + ItemsHeight(items)
    case Obj(_, members) => 1 + MembersHeight(members)
    case _ => 1
  }

  function ItemsHeight(items: seq<Item>): nat {
    if items == [] then 0 else Max(Height(items[0].value), ItemsHeight(items[1..]))
  }

  function MembersHeight(members: seq<Member>): nat {
    if members == [] then 0 else Max(Height(members[0].value), MembersHeight(members[1..]))
  }

  /** A value met at nesting `depth` stays within `limit`. */
  predicate Fits(v: Value, depth: nat, limit: nat) {
    depth + Height(v) <= limit + 1
  }
}

/** The scanners accept exactly the JSON grammar.

    `ValueSound`: what `ParseValue` takes is the text of a well-formed tree.
    `ValueComplete`: the text of a well-formed tree is taken whole, wherever it stands, and
    gives the tree back; a number additionally needs a delimiter or the end of input after it.
    `NumberExactly`: more exactly, the next byte must not continue it (`1.` is rejected although
    `1` is a value). Soundness and completeness make `Text` injective. */
module ScannerGrammar {
  import opened Bytes
  import opened Json
  import opened Scanner

  lemma Glue(s: Bytes, a: nat, b: nat, c: nat)
    requires a <= b <= c <= |s|
    ensures s[a..b] + s[b..c] == s[a..c]
  {
  }

  lemma GlueFour(s: Bytes, a: nat, b: nat, c: nat, d: nat, e: nat)
    requires a <= b <= c <= d <= e <= |s|
    ensures s[a..b] + s[b..c] + s[c..d] + s[d..e] == s[a..e]
  {
    Glue(s, a, b, c);
    Glue(s, a, c, d);
    Glue(s, a, d, e);
  }

  // ---- soundness ----

  lemma {:induction false} WsEndBlank(s: Bytes, i: nat)
    requires i <= |s|
    ensures Blank(s[i..WsEnd(s, i)])
    ensures WsEnd(s, i) < |s| ==> !IsWhitespace(s[WsEnd(s, i)])
    decreases |s| - i
  {
    if i < |s| && IsWhitespace(s[i]) {
      WsEndBlank(s, i + 1);
      Glue(s, i, i + 1, WsEnd(s, i));
    }
  }

  lemma {:induction false} BodySound(s: Bytes, a: nat, i: nat)
    requires a <= i <= |s| && BodyEnd(s, i).Some?
    ensures var q := BodyEnd(s, i).value; UnitsFrom(s[a..q], i - a)
    decreases |s| - i
  {
    if s[i] != '"' {
      var n := UnitSize(s, i);
      var q := BodyEnd(s, i).value;
      BodySound(s, a, i + n);
      assert UnitSize(s[a..q], i - a) == n;
    }
  }

  lemma StringSound(s: Bytes, i: nat)
    requires i <= |s| && StringEnd(s, i).Some?
    ensures var e := StringEnd(s, i).value;
            IsStringBody(s[i + 1..e - 1]) && s[i..e] == Quoted(s[i + 1..e - 1])
  {
    hide BodyEnd, UnitsFrom;
    BodySound(s, i + 1, i + 1);
    var e := StringEnd(s, i).value;
    assert s[i..i + 1] == "\"" && s[e - 1..e] == "\"";
    Glue(s, i, i + 1, e - 1);
    Glue(s, i, e - 1, e);
  }

  lemma DigitsSound(s: Bytes, i: nat)
    requires i <= |s| && DigitsEnd(s, i) > i
    ensures Digits(s[i..DigitsEnd(s, i)])
  {
    hide DigitsEnd;
    DigitsFound(s, i);
  }

  lemma NumberSound(s: Bytes, i: nat)
    requires i <= |s| && NumberEnd(s, i).Some?
    ensures IsNumber(s[i..NumberEnd(s, i).value])
  {
    hide DigitsEnd;
    var minus := i < |s| && s[i] == '-';
    var a := if minus then i + 1 else i;
    var w := WholeEnd(s, a).value;
    var f := FractionEnd(s, w).value;
    var e := ExponentEnd(s, f).value;
    WholeSound(s, a);
    var fraction := FractionSound(s, w);
    var exponent := ExponentSound(s, f);
    var n := Number(minus, s[a..w], fraction, exponent);
    hide WholeEnd, FractionEnd, ExponentEnd, FractionText, ExponentText, Digits, ValidExponent;
    assert (if minus then "-" else []) == s[i..a];
    GlueFour(s, i, a, w, f, e);
    assert ValidNumber(n) && NumberText(n) == s[i..e];
  }

  lemma WholeSound(s: Bytes, i: nat)
    requires i <= |s| && WholeEnd(s, i).Some?
    ensures var t := s[i..WholeEnd(s, i).value]; Digits(t) && (t[0] == '0' ==> |t| == 1)
  {
    if s[i] != '0' { DigitsSound(s, i); }
  }

  lemma FractionSound(s: Bytes, i: nat) returns (fraction: Option<Bytes>)
    requires i <= |s| && FractionEnd(s, i).Some?
    ensures FractionText(fraction) == s[i..FractionEnd(s, i).value]
    ensures fraction.Some? ==> Digits(fraction.value)
  {
    if i == |s| || s[i] != '.' {
      fraction := None;
    } else {
      DigitsSound(s, i + 1);
      fraction := Some(s[i + 1..DigitsEnd(s, i + 1)]);
    }
  }

  lemma ExponentSound(s: Bytes, i: nat) returns (exponent: Option<Exponent>)
    requires i <= |s| && ExponentEnd(s, i).Some?
    ensures ExponentText(exponent) == s[i..ExponentEnd(s, i).value]
    ensures exponent.Some? ==> ValidExponent(exponent.value)
  {
    hide DigitsEnd, Digits, IsDigit, SignEnd;
    if i == |s| || (s[i] != 'e' && s[i] != 'E') {
      exponent := None;
    } else {
      var d := SignEnd(s, i + 1);
      var e := DigitsEnd(s, d);
      DigitsSound(s, d);
      SignSound(s, i + 1);
      exponent := Some(Exponent(s[i], s[i + 1..d], s[d..e]));
      OneThenTwo(s, i, d, e);
    }
  }

  lemma SignSound(s: Bytes, i: nat)
    requires i <= |s|
    ensures var sign := s[i..SignEnd(s, i)]; sign == [] || sign == "+" || sign == "-"
  {
  }

  lemma OneThenTwo(s: Bytes, i: nat, d: nat, e: nat)
    requires i < d <= e <= |s|
    ensures [s[i]] + s[i + 1..d] + s[d..e] == s[i..e]
  {
  }

  lemma {:induction false} ValueSound(s: Bytes, i: nat)
    requires i <= |s| && ParseValue(s, i).Got?
    ensures var Got(v, e) := ParseValue(s, i); WellFormed(v) && s[i..e] == Text(v)
    decreases |s| - i, 1
  {
    hide StringEnd, NumberEnd, ParseItems, ParseMembers, WsEnd, IsStringBody, IsNumber;
    if s[i] == '"' {
      StringSound(s, i);
    } else if s[i] == '{' {
      ObjectSound(s, i);
    } else if s[i] == '[' {
      ArraySound(s, i);
    } else if s[i] != 't' && s[i] != 'f' && s[i] != 'n' {
      NumberSound(s, i);
    }
  }

  lemma {:induction false} ObjectSound(s: Bytes, i: nat)
    requires i < |s| && s[i] == '{' && ParseValue(s, i).Got?
    ensures var Got(v, e) := ParseValue(s, i); WellFormed(v) && s[i..e] == Text(v)
    decreases |s| - i, 0
  {
    hide ParseValue, ParseItems, ParseMembers, WsEnd, Text, MembersText, WellFormed, WellFormedMembers, Blank;
    ParseObject(s, i);
    var Got(v, e) := ParseValue(s, i);
    WsEndBlank(s, i + 1);
    if v.members != [] {
      MembersSound(s, i + 1);
      ClosingBrace(s, i + 1);
    }
    ObjectFrom(s, i, e, v);
  }

  lemma {:induction false} ArraySound(s: Bytes, i: nat)
    requires i < |s| && s[i] == '[' && ParseValue(s, i).Got?
    ensures var Got(v, e) := ParseValue(s, i); WellFormed(v) && s[i..e] == Text(v)
    decreases |s| - i, 0
  {
    hide ParseValue, ParseItems, ParseMembers, WsEnd, Text, ItemsText, WellFormed, WellFormedItems, Blank;
    ParseArray(s, i);
    var Got(v, e) := ParseValue(s, i);
    WsEndBlank(s, i + 1);
    if v.items != [] { ItemsSound(s, i + 1); }
    ArrayFrom(s, i, e, v);
  }

  lemma ObjectFrom(s: Bytes, i: nat, e: nat, v: Value)
    requires v.Obj? && i + 2 <= e <= |s| && s[i] == '{' && s[e - 1] == '}'
    requires if v.members == [] then v.pad == s[i + 1..e - 1] && Blank(v.pad)
             else v.pad == [] && WellFormedMembers(v.members) && MembersText(v.members) == s[i + 1..e - 1]
    ensures WellFormed(v) && s[i..e] == Text(v)
  {
    hide Blank;
    NothingListed();
    hide MembersText, WellFormedMembers;
    Bracketed(s, i, e);
  }

  lemma ArrayFrom(s: Bytes, i: nat, e: nat, v: Value)
    requires v.Arr? && i + 2 <= e <= |s| && s[i] == '[' && s[e - 1] == ']'
    requires if v.items == [] then v.pad == s[i + 1..e - 1] && Blank(v.pad)
             else v.pad == [] && WellFormedItems(v.items) && ItemsText(v.items) == s[i + 1..e - 1]
    ensures WellFormed(v) && s[i..e] == Text(v)
  {
    hide Blank;
    NothingListed();
    hide ItemsText, WellFormedItems;
    Bracketed(s, i, e);
  }

  lemma NothingListed()
    ensures Blank([]) && ItemsText([]) == [] && MembersText([]) == []
    ensures WellFormedItems([]) && WellFormedMembers([])
  {
  }

  /** What stands between two brackets, as padding or as contents. */
  lemma Bracketed(s: Bytes, i: nat, e: nat)
    requires i + 2 <= e <= |s|
    ensures s[i..e] == [s[i]] + s[i + 1..e - 1] + [] + [s[e - 1]] == [s[i]] + [] + s[i + 1..e - 1] + [s[e - 1]]
  {
  }

  lemma {:induction false} ItemSound(s: Bytes, b: nat)
    requires b <= |s| && ParseItem(s, b).AnItem?
    ensures var AnItem(item, e) := ParseItem(s, b); WellFormedItem(item) && s[b..e] == ItemText(item)
    decreases |s| - b, 2
  {
    hide ParseValue, WsEnd;
    var i := WsEnd(s, b);
    WsEndBlank(s, b);
    ValueSound(s, i);
    var e := ParseValue(s, i).end;
    WsEndBlank(s, e);
    Glue(s, b, i, e);
    Glue(s, b, e, WsEnd(s, e));
  }

  lemma {:induction false} ItemsSound(s: Bytes, b: nat)
    requires b <= |s| && ParseItems(s, b).Items?
    ensures var Items(items, e) := ParseItems(s, b); WellFormedItems(items) && s[b..e - 1] == ItemsText(items)
    decreases |s| - b, 3
  {
    hide ParseItem, ParseItems, WsEnd, WellFormedItem, ItemText, WellFormedItems, ItemsText;
    ItemsUnfold(s, b);
    ItemSound(s, b);
    var AnItem(item, e) := ParseItem(s, b);
    if s[e] == ']' {
      ItemsOne(item);
    } else {
      ItemsSound(s, e + 1);
      var Items(rest, end) := ParseItems(s, e + 1);
      ItemsMore(item, rest);
      AroundComma(s, b, e, end - 1);
    }
  }

  lemma AroundComma(s: Bytes, b: nat, e: nat, end: nat)
    requires b <= e < end <= |s| && s[e] == ','
    ensures s[b..e] + "," + s[e + 1..end] == s[b..end]
  {
    assert s[e..e + 1] == ",";
    Glue(s, b, e, e + 1);
    Glue(s, b, e + 1, end);
  }

  lemma KeySound(s: Bytes, b: nat)
    requires b <= |s| && ParseKey(s, b).AKey?
    ensures var AKey(pre, key, mid, gap, v) := ParseKey(s, b);
            Blank(pre) && IsStringBody(key) && Blank(mid) && Blank(gap)
            && s[b..v] == pre + Quoted(key) + mid + ":" + gap
  {
    hide StringEnd, WsEnd, Quoted, IsStringBody, Blank;
    var i := WsEnd(s, b);
    WsEndBlank(s, b);
    StringSound(s, i);
    var k := StringEnd(s, i).value;
    var c := WsEnd(s, k);
    WsEndBlank(s, k);
    WsEndBlank(s, c + 1);
    GlueColon(s, b, i, k, c, WsEnd(s, c + 1));
  }

  lemma GlueColon(s: Bytes, b: nat, i: nat, k: nat, c: nat, v: nat)
    requires b <= i <= k <= c && c + 1 <= v <= |s| && s[c] == ':'
    ensures s[b..i] + s[i..k] + s[k..c] + ":" + s[c + 1..v] == s[b..v]
  {
    assert s[c..c + 1] == ":";
    GlueFour(s, b, i, k, c, c + 1);
    Glue(s, b, c + 1, v);
  }

  lemma {:induction false} MemberSound(s: Bytes, b: nat)
    requires b <= |s| && ParseMember(s, b).AMember?
    ensures var AMember(m, e) := ParseMember(s, b); WellFormedMember(m) && s[b..e] == MemberText(m)
    decreases |s| - b, 1
  {
    hide ParseValue, ParseKey, WsEnd;
    KeySound(s, b);
    var AKey(pre, key, mid, gap, v) := ParseKey(s, b);
    ValueSound(s, v);
    var e := ParseValue(s, v).end;
    WsEndBlank(s, e);
    Glue(s, b, v, e);
    Glue(s, b, e, WsEnd(s, e));
  }

  lemma {:induction false} MembersSound(s: Bytes, b: nat)
    requires b <= |s| && ParseMembers(s, b, Strict).Members?
    ensures var Members(ms, e) := ParseMembers(s, b, Strict); WellFormedMembers(ms) && s[b..e - 1] == MembersText(ms)
    decreases |s| - b, 3
  {
    hide ParseMember, ParseMembers, WsEnd, WellFormedMember, MemberText, WellFormedMembers, MembersText;
    MembersUnfold(s, b, Strict);
    MemberSound(s, b);
    var AMember(m, e) := ParseMember(s, b);
    if s[e] == '}' {
      MembersOne(m);
    } else {
      MembersSound(s, e + 1);
      var Members(rest, end) := ParseMembers(s, e + 1, Strict);
      MembersMore(m, rest);
      AroundComma(s, b, e, end - 1);
    }
  }

  // ---- completeness ----

  /** Nothing that could continue a number stands at `e`. */
  predicate Delimited(s: Bytes, e: nat) {
    e >= |s| || IsWhitespace(s[e]) || s[e] == ',' || s[e] == ']' || s[e] == '}'
  }

  lemma {:induction false} WsEndComplete(s: Bytes, i: nat, pad: Bytes)
    requires At(s, i, pad) && Blank(pad)
    requires i + |pad| < |s| ==> !IsWhitespace(s[i + |pad|])
    ensures WsEnd(s, i) == i + |pad|
    decreases |pad|
  {
    if pad != [] {
      assert s[i] == pad[0] && s[i + 1..i + |pad|] == pad[1..];
      WsEndComplete(s, i + 1, pad[1..]);
    }
  }

  lemma {:induction false} BodyComplete(s: Bytes, i: nat, t: Bytes, k: nat)
    requires At(s, i, t) && k <= |t| && UnitsFrom(t, k)
    requires i + |t| < |s| && s[i + |t|] == '"'
    ensures BodyEnd(s, i + k) == Some(i + |t|)
    decreases |t| - k
  {
    if k < |t| {
      var n := UnitSize(t, k);
      assert forall j :: k <= j < |t| ==> s[i + j] == t[j] by {
        assert forall j :: 0 <= j < |t| ==> s[i..i + |t|][j] == t[j];
      }
      assert UnitSize(s, i + k) == n;
      BodyComplete(s, i, t, k + n);
    }
  }

  lemma StringComplete(s: Bytes, i: nat, t: Bytes)
    requires At(s, i, Quoted(t)) && IsStringBody(t)
    ensures StringEnd(s, i) == Some(i + |t| + 2)
    ensures s[i + 1..i + |t| + 1] == t
  {
    AtConcat(s, i, "\"" + t, "\"");
    AtConcat(s, i, "\"", t);
    assert s[i + |t| + 1..i + |t| + 2][0] == '"';
    assert s[i..i + 1][0] == '"';
    BodyComplete(s, i + 1, t, 0);
  }

  /** A run of digits ends where it should exactly if no digit follows. */
  lemma {:induction false} DigitsExactly(s: Bytes, i: nat, t: Bytes)
    requires At(s, i, t) && forall k :: 0 <= k < |t| ==> IsDigit(t[k])
    ensures var e := i + |t|;
            DigitsEnd(s, i) >= e && (DigitsEnd(s, i) == e <==> e == |s| || !IsDigit(s[e]))
    decreases |t|
  {
    if t != [] {
      AtFirst(s, i, t);
      assert s[i + 1..i + |t|] == s[i..i + |t|][1..];
      DigitsExactly(s, i + 1, t[1..]);
    }
  }

  lemma WholeExactly(s: Bytes, i: nat, whole: Bytes)
    requires At(s, i, whole) && Digits(whole) && (whole[0] == '0' ==> |whole| == 1)
    ensures var e := i + |whole|;
            && WholeEnd(s, i).Some? && WholeEnd(s, i).value >= e
            && (WholeEnd(s, i).value == e <==> e == |s| || whole[0] == '0' || !IsDigit(s[e]))
  {
    hide DigitsEnd, At;
    AtFirst(s, i, whole);
    DigitsExactly(s, i, whole);
  }

  lemma FractionExactly(s: Bytes, i: nat, fraction: Option<Bytes>)
    requires At(s, i, FractionText(fraction)) && (fraction.Some? ==> Digits(fraction.value))
    ensures var e := i + |FractionText(fraction)|;
            && (FractionEnd(s, i).Some? ==> FractionEnd(s, i).value >= e)
            && (FractionEnd(s, i) == Some(e) <==>
                 e == |s| || (if fraction.Some? then !IsDigit(s[e]) else s[e] != '.'))
  {
    hide DigitsEnd, At;
    AtFirst(s, i, FractionText(fraction));
    if fraction.Some? {
      AtConcat(s, i, ".", fraction.value);
      DigitsExactly(s, i + 1, fraction.value);
    }
  }

  lemma ExponentExactly(s: Bytes, i: nat, exponent: Option<Exponent>)
    requires At(s, i, ExponentText(exponent)) && (exponent.Some? ==> ValidExponent(exponent.value))
    ensures var e := i + |ExponentText(exponent)|;
            ExponentEnd(s, i) == Some(e) <==>
              e == |s| || (if exponent.Some? then !IsDigit(s[e]) else s[e] != 'e' && s[e] != 'E')
  {
    hide DigitsEnd, At;
    AtFirst(s, i, ExponentText(exponent));
    if exponent.Some? {
      var Exponent(mark, sign, digits) := exponent.value;
      AtConcat(s, i, [mark] + sign, digits);
      AtConcat(s, i, [mark], sign);
      var d := i + 1 + |sign|;
      AtFirst(s, i + 1, sign);
      AtFirst(s, d, digits);
      assert SignEnd(s, i + 1) == d;
      DigitsExactly(s, d, digits);
    }
  }

  /** A byte after the number that the scanner would read on into: a digit after digits that may
      go on, a point before any fraction or exponent, an exponent mark before any exponent. */
  predicate Continues(n: Number, c: char) {
    if n.exponent.Some? then IsDigit(c)
    else
      || c == 'e' || c == 'E'
      || (if n.fraction.Some? then IsDigit(c) else c == '.' || (IsDigit(c) && n.whole != "0"))
  }

  predicate ContinuedAt(s: Bytes, e: nat, n: Number) {
    e < |s| && Continues(n, s[e])
  }

  /** NUMBERS EXACTLY: a number is taken to its end if and only if the byte after it does not
      continue it. */
  lemma NumberExactly(s: Bytes, i: nat, n: Number)
    requires ValidNumber(n) && At(s, i, NumberText(n))
    ensures NumberEnd(s, i) == Some(i + |NumberText(n)|) <==> !ContinuedAt(s, i + |NumberText(n)|, n)
  {
    hide At, DigitsEnd, WholeEnd, FractionEnd, ExponentEnd, FractionText, ExponentText, ValidExponent, Digits;
    var sign := if n.minus then "-" else [];
    var f, x := FractionText(n.fraction), ExponentText(n.exponent);
    AtConcat(s, i, sign + n.whole + f, x);
    AtConcat(s, i, sign + n.whole, f);
    AtConcat(s, i, sign, n.whole);
    var a := i + |sign|;
    var w := a + |n.whole|;
    WholeExactly(s, a, n.whole);
    FractionExactly(s, w, n.fraction);
    ExponentExactly(s, w + |f|, n.exponent);
    NumberMarks(s, i, n);
    var e := w + |f| + |x|;
    assert i + |NumberText(n)| == e;
    AtFirst(s, i, NumberText(n));
  }

  /** What the parts of a number start with. */
  lemma NumberMarks(s: Bytes, i: nat, n: Number)
    requires ValidNumber(n)
    requires At(s, i, if n.minus then "-" else [])
    requires var a := if n.minus then i + 1 else i;
             var w := a + |n.whole|;
             At(s, a, n.whole) && At(s, w, FractionText(n.fraction))
             && At(s, w + |FractionText(n.fraction)|, ExponentText(n.exponent))
    ensures var a := if n.minus then i + 1 else i;
            var w := a + |n.whole|;
            var f := w + |FractionText(n.fraction)|;
            && a < |s| && IsDigit(s[a]) && (n.whole[0] == '0' <==> n.whole == "0")
            && (if n.minus then s[i] == '-' else s[i] != '-')
            && (n.fraction.Some? ==> w < |s| && s[w] == '.')
            && (n.fraction.None? ==> f == w)
            && (n.exponent.Some? ==> f < |s| && (s[f] == 'e' || s[f] == 'E'))
            && (n.exponent.None? ==> |ExponentText(n.exponent)| == 0)
  {
    var a := if n.minus then i + 1 else i;
    var w := a + |n.whole|;
    hide At;
    AtFirst(s, i, if n.minus then "-" else []);
    AtFirst(s, a, n.whole);
    AtFirst(s, w, FractionText(n.fraction));
    AtFirst(s, w + |FractionText(n.fraction)|, ExponentText(n.exponent));
  }

  lemma NumberComplete(s: Bytes, i: nat, t: Bytes)
    requires At(s, i, t) && IsNumber(t) && Delimited(s, i + |t|)
    ensures NumberEnd(s, i) == Some(i + |t|)
    ensures t != [] && (t[0] == '-' || IsDigit(t[0]))
  {
    hide At, NumberEnd;
    var n :| ValidNumber(n) && NumberText(n) == t;
    NumberExactly(s, i, n);
  }

  /** What a value starts with is neither whitespace nor a separator. */
  lemma TextStart(v: Value)
    requires WellFormed(v)
    ensures |Text(v)| > 0 && !IsWhitespace(Text(v)[0])
    ensures Text(v)[0] != ']' && Text(v)[0] != '}' && Text(v)[0] != ','
  {
    if v.Num? { NumberComplete(v.raw, 0, v.raw); }
  }

  lemma {:induction false} ValueComplete(s: Bytes, i: nat, v: Value)
    requires WellFormed(v) && At(s, i, Text(v))
    requires v.Num? ==> Delimited(s, i + |Text(v)|)
    ensures ParseValue(s, i) == Got(v, i + |Text(v)|)
    decreases v, 1
  {
    hide StringEnd, NumberEnd, ParseItems, ParseMembers, WsEnd, IsStringBody, IsNumber;
    match v {
      case Str(raw) =>
        StringComplete(s, i, raw);
      case Num(raw) =>
        NumberComplete(s, i, raw);
        AtFirst(s, i, raw);
      case Word(raw) =>
        AtFirst(s, i, raw);
      case Arr(pad, items) =>
        ArrayComplete(s, i, v);
      case Obj(pad, members) =>
        ObjectComplete(s, i, v);
    }
  }

  lemma {:induction false} ArrayComplete(s: Bytes, i: nat, v: Value)
    requires v.Arr? && WellFormed(v) && At(s, i, Text(v))
    ensures ParseValue(s, i) == Got(v, i + |Text(v)|)
    decreases v, 0
  {
    hide At, ParseValue, ParseItems, WsEnd, Text, ItemsText, WellFormed, WellFormedItems, Blank;
    var Arr(pad, items) := v;
    ArrayAt(s, i, v);
    ParseArray(s, i);
    if items == [] {
      WsEndComplete(s, i + 1, pad);
    } else {
      ItemsComplete(s, i + 1, items);
      ItemsStart(s, i + 1, items);
    }
  }

  lemma {:induction false} ObjectComplete(s: Bytes, i: nat, v: Value)
    requires v.Obj? && WellFormed(v) && At(s, i, Text(v))
    ensures ParseValue(s, i) == Got(v, i + |Text(v)|)
    decreases v, 0
  {
    hide At, ParseValue, ParseMembers, WsEnd, Text, MembersText, WellFormed, WellFormedMembers, Blank;
    var Obj(pad, members) := v;
    ObjectAt(s, i, v);
    ParseObject(s, i);
    if members == [] {
      WsEndComplete(s, i + 1, pad);
    } else {
      MembersComplete(s, i + 1, members);
      MembersStart(s, i + 1, members);
    }
  }

  lemma ObjectAt(s: Bytes, i: nat, v: Value)
    requires v.Obj? && WellFormed(v) && At(s, i, Text(v))
    ensures var text := MembersText(v.members);
            var e := i + |Text(v)|;
            && i + 2 <= e <= |s| && s[i] == '{' && s[e - 1] == '}' && Blank(v.pad) && WellFormedMembers(v.members)
            && (if v.members == [] then At(s, i + 1, v.pad) && s[i + 1..e - 1] == v.pad && i + 1 + |v.pad| == e - 1
                else v.pad == [] && At(s, i + 1, text) && At(s, i + 1 + |text|, "}") && i + 1 + |text| == e - 1)
  {
    hide WellFormedMembers, Blank;
    NothingListed();
    hide At, MembersText;
    BracketsAt(s, i, "{", v.pad, MembersText(v.members), "}");
  }

  lemma ArrayAt(s: Bytes, i: nat, v: Value)
    requires v.Arr? && WellFormed(v) && At(s, i, Text(v))
    ensures var text := ItemsText(v.items);
            var e := i + |Text(v)|;
            && i + 2 <= e <= |s| && s[i] == '[' && s[e - 1] == ']' && Blank(v.pad) && WellFormedItems(v.items)
            && (if v.items == [] then At(s, i + 1, v.pad) && s[i + 1..e - 1] == v.pad && i + 1 + |v.pad| == e - 1
                else v.pad == [] && At(s, i + 1, text) && At(s, i + 1 + |text|, "]") && i + 1 + |text| == e - 1)
  {
    hide WellFormedItems, Blank;
    NothingListed();
    hide At, ItemsText;
    BracketsAt(s, i, "[", v.pad, ItemsText(v.items), "]");
  }

  lemma BracketsAt(s: Bytes, i: nat, open: Bytes, pad: Bytes, inner: Bytes, close: Bytes)
    requires |open| == |close| == 1 && At(s, i, open + pad + inner + close)
    ensures s[i] == open[0] && At(s, i + 1, pad) && s[i + 1..i + 1 + |pad|] == pad
    ensures At(s, i + 1 + |pad|, inner)
    ensures At(s, i + 1 + |pad| + |inner|, close)
    ensures i + 2 + |pad| + |inner| <= |s| && s[i + 1 + |pad| + |inner|] == close[0]
  {
    AtConcat(s, i, open + pad + inner, close);
    AtConcat(s, i, open + pad, inner);
    AtConcat(s, i, open, pad);
    AtFirst(s, i, open);
    AtFirst(s, i + 1 + |pad| + |inner|, close);
  }

  lemma ItemsStart(s: Bytes, b: nat, items: seq<Item>)
    requires items != [] && WellFormedItems(items) && At(s, b, ItemsText(items))
    ensures var i := WsEnd(s, b); i < |s| && s[i] != ']'
  {
    hide At, ItemsText, WsEnd, Text, WellFormed, WellFormedItems;
    var Item(pre, value, post) := items[0];
    assert items == [items[0]] + items[1..];
    ItemsMore(items[0], items[1..]);
    var rest := post + (if items[1..] == [] then [] else "," + ItemsText(items[1..]));
    assert ItemsText(items) == pre + Text(value) + rest;
    AtConcat(s, b, pre + Text(value), rest);
    AtConcat(s, b, pre, Text(value));
    TextStart(value);
    AtFirst(s, b + |pre|, Text(value));
    WsEndComplete(s, b, pre);
  }

  lemma MembersStart(s: Bytes, b: nat, members: seq<Member>)
    requires members != [] && WellFormedMembers(members) && At(s, b, MembersText(members))
    ensures var i := WsEnd(s, b); i < |s| && s[i] == '"'
  {
    var m := members[0];
    var rest := Text(m.value) + m.post + (if |members| == 1 then [] else "," + MembersText(members[1..]));
    assert MembersText(members) == MemberHead(m) + rest;
    AtConcat(s, b, MemberHead(m), rest);
    HeadStart(s, b, m);
  }

  lemma HeadStart(s: Bytes, b: nat, m: Member)
    requires Blank(m.pre) && At(s, b, MemberHead(m))
    ensures var i := WsEnd(s, b); i < |s| && s[i] == '"'
  {
    var rest := m.mid + ":" + m.gap;
    assert MemberHead(m) == m.pre + Quoted(m.key) + rest;
    hide At, WsEnd;
    AtConcat(s, b, m.pre + Quoted(m.key), rest);
    AtConcat(s, b, m.pre, Quoted(m.key));
    AtFirst(s, b + |m.pre|, Quoted(m.key));
    WsEndComplete(s, b, m.pre);
  }

  lemma {:induction false} ItemComplete(s: Bytes, b: nat, item: Item)
    requires WellFormedItem(item) && At(s, b, ItemText(item))
    requires var e := b + |ItemText(item)|; e < |s| && (s[e] == ',' || s[e] == ']')
    ensures ParseItem(s, b) == AnItem(item, b + |ItemText(item)|)
    decreases item
  {
    hide At, ParseValue, WsEnd, Text, WellFormed;
    var Item(pre, value, post) := item;
    AtConcat(s, b, pre + Text(value), post);
    AtConcat(s, b, pre, Text(value));
    var i := b + |pre|;
    var p := i + |Text(value)|;
    TextStart(value);
    AtFirst(s, i, Text(value));
    AtFirst(s, p, post);
    WsEndComplete(s, b, pre);
    ValueComplete(s, i, value);
    WsEndComplete(s, p, post);
    AtSlice(s, b, pre);
    AtSlice(s, p, post);
  }

  lemma ListAt(s: Bytes, b: nat, first: Bytes, rest: Bytes)
    requires At(s, b, first + "," + rest)
    ensures At(s, b, first) && At(s, b + |first| + 1, rest)
    ensures b + |first| < |s| && s[b + |first|] == ','
  {
    AtConcat(s, b, first + ",", rest);
    AtConcat(s, b, first, ",");
    AtFirst(s, b + |first|, ",");
  }

  lemma {:induction false} ItemsComplete(s: Bytes, b: nat, items: seq<Item>)
    requires items != [] && WellFormedItems(items)
    requires At(s, b, ItemsText(items)) && At(s, b + |ItemsText(items)|, "]")
    ensures ParseItems(s, b) == Items(items, b + |ItemsText(items)| + 1)
    decreases items
  {
    hide At, ParseValue, ParseItem, ParseItems, WsEnd, ItemText, ItemsText, WellFormedItem, WellFormedItems;
    var item, rest := items[0], items[1..];
    assert items == [item] + rest;
    ItemsMore(item, rest);
    AtFirst(s, b + |ItemsText(items)|, "]");
    ItemsUnfold(s, b);
    if rest != [] { ListAt(s, b, ItemText(item), ItemsText(rest)); }
    ItemComplete(s, b, item);
    if rest == [] {
      assert items == [item];
    } else {
      ItemsComplete(s, b + |ItemText(item)| + 1, rest);
    }
  }

  lemma KeyComplete(s: Bytes, b: nat, m: Member)
    requires Blank(m.pre) && IsStringBody(m.key) && Blank(m.mid) && Blank(m.gap)
    requires At(s, b, MemberHead(m))
    requires var v := b + |MemberHead(m)|; v < |s| && !IsWhitespace(s[v])
    ensures ParseKey(s, b) == AKey(m.pre, m.key, m.mid, m.gap, b + |MemberHead(m)|)
  {
    hide At, StringEnd, WsEnd, IsStringBody, Blank, MemberHead, Quoted;
    var Member(pre, key, mid, gap, _, _) := m;
    HeadAt(s, b, m);
    var i := b + |pre|;
    var k := i + |key| + 2;
    var c := k + |mid|;
    WsEndComplete(s, b, pre);
    StringComplete(s, i, key);
    WsEndComplete(s, k, mid);
    WsEndComplete(s, c + 1, gap);
    AtSlice(s, b, pre);
    AtSlice(s, k, mid);
    AtSlice(s, c + 1, gap);
  }

  /** Where the parts before a member's value stand, and what bytes separate them. */
  lemma HeadAt(s: Bytes, b: nat, m: Member)
    requires At(s, b, MemberHead(m))
    ensures var i := b + |m.pre|;
            var k := i + |m.key| + 2;
            var c := k + |m.mid|;
            && At(s, b, m.pre) && At(s, i, Quoted(m.key)) && At(s, k, m.mid) && At(s, c + 1, m.gap)
            && b + |MemberHead(m)| == c + 1 + |m.gap| <= |s| && s[i] == '"' && s[c] == ':'
  {
    var Member(pre, key, mid, gap, _, _) := m;
    hide At;
    AtConcat(s, b, pre + Quoted(key) + mid + ":", gap);
    AtConcat(s, b, pre + Quoted(key) + mid, ":");
    AtConcat(s, b, pre + Quoted(key), mid);
    AtConcat(s, b, pre, Quoted(key));
    var c := b + |pre| + |Quoted(key)| + |mid|;
    AtFirst(s, b + |pre|, Quoted(key));
    AtFirst(s, c, ":");
    AtFirst(s, c + 1, gap);
  }

  lemma {:induction false} MemberComplete(s: Bytes, b: nat, m: Member)
    requires WellFormedMember(m) && At(s, b, MemberText(m))
    requires var e := b + |MemberText(m)|; e < |s| && (s[e] == ',' || s[e] == '}')
    ensures ParseMember(s, b) == AMember(m, b + |MemberText(m)|)
    decreases m
  {
    hide At, ParseValue, ParseKey, WsEnd, MemberHead, Text, WellFormed, IsStringBody;
    AtConcat(s, b, MemberHead(m) + Text(m.value), m.post);
    AtConcat(s, b, MemberHead(m), Text(m.value));
    var v := b + |MemberHead(m)|;
    var p := v + |Text(m.value)|;
    TextStart(m.value);
    AtFirst(s, v, Text(m.value));
    AtFirst(s, p, m.post);
    KeyComplete(s, b, m);
    ValueComplete(s, v, m.value);
    WsEndComplete(s, p, m.post);
    AtSlice(s, p, m.post);
  }

  lemma {:induction false} MembersComplete(s: Bytes, b: nat, members: seq<Member>)
    requires members != [] && WellFormedMembers(members)
    requires At(s, b, MembersText(members)) && At(s, b + |MembersText(members)|, "}")
    ensures ParseMembers(s, b, Strict) == Members(members, b + |MembersText(members)| + 1)
    decreases members
  {
    hide At, ParseValue, ParseMember, ParseMembers, WsEnd, MemberText, MembersText, WellFormedMember, WellFormedMembers;
    var m, rest := members[0], members[1..];
    assert members == [m] + rest;
    MembersMore(m, rest);
    AtFirst(s, b + |MembersText(members)|, "}");
    MembersUnfold(s, b, Strict);
    if rest != [] { ListAt(s, b, MemberText(m), MembersText(rest)); }
    MemberComplete(s, b, m);
    if rest == [] {
      assert members == [m];
    } else {
      MembersComplete(s, b + |MemberText(m)| + 1, rest);
    }
  }

  // ---- consequences ----

  lemma AtWhole(t: Bytes)
    ensures At(t, 0, t)
  {
  }

  /** The text determines the tree. */
  lemma TextInjective(v: Value, w: Value)
    requires WellFormed(v) && WellFormed(w) && Text(v) == Text(w)
    ensures v == w
  {
    hide At, Text, WellFormed, ParseValue;
    AtWhole(Text(v));
    ValueComplete(Text(v), 0, v);
    ValueComplete(Text(v), 0, w);
  }

  // ---- skip_value ----

  /** SKIP IS SOUND: whatever is skipped is one JSON value of the grammar, within the limit. */
  lemma SkipSound(s: Bytes, i: nat, depth: nat, limit: nat) returns (v: Value)
    requires i <= |s| && SkipTo(s, i, depth, limit).Some?
    ensures WellFormed(v) && s[i..SkipTo(s, i, depth, limit).value] == Text(v)
    ensures depth + Height(v) - 1 <= limit
  {
    hide ParseValue, Text, WellFormed, Height;
    ValueSound(s, i);
    v := ParseValue(s, i).value;
  }

  /** SKIP IS COMPLETE: a value of the grammar, if a number then followed by a delimiter or the end
      of input, is skipped exactly if it is within the limit, and then exactly to its end. */
  lemma SkipComplete(s: Bytes, i: nat, v: Value, depth: nat, limit: nat)
    requires WellFormed(v) && At(s, i, Text(v)) && (v.Num? ==> Delimited(s, i + |Text(v)|))
    ensures SkipTo(s, i, depth, limit) == if depth + Height(v) - 1 <= limit then Some(i + |Text(v)|) else None
  {
    hide ParseValue, Text, WellFormed, Height;
    ValueComplete(s, i, v);
  }

  /** A number is skipped to its end if and only if it is within the limit and the next byte does
      not continue it. */
  lemma SkipNumberExactly(s: Bytes, i: nat, n: Number, depth: nat, limit: nat)
    requires ValidNumber(n) && At(s, i, NumberText(n))
    ensures SkipTo(s, i, depth, limit) == Some(i + |NumberText(n)|) <==>
              depth <= limit && !ContinuedAt(s, i + |NumberText(n)|, n)
  {
    hide NumberEnd, NumberText, ContinuedAt;
    NumberExactly(s, i, n);
    NumberStart(s, i, n);
  }

  lemma NumberStart(s: Bytes, i: nat, n: Number)
    requires ValidNumber(n) && At(s, i, NumberText(n))
    ensures i < |s| && (s[i] == '-' || IsDigit(s[i]))
  {
    AtFirst(s, i, NumberText(n));
  }

  /** The delimiter is needed: `1` is a value, but before a `.` it is not skipped. */
  lemma NumberNeedsDelimiter()
    ensures IsNumber("1") && At("1.", 0, "1") && SkipTo("1.", 0, 1, 1) == None
  {
    var n := Number(false, "1", None, None);
    assert ValidNumber(n) && NumberText(n) == "1" + [] + [] == "1";
    assert DigitsEnd("1.", 0) == 1 && DigitsEnd("1.", 2) == 2;
    assert "1."[0..1] == "1";
  }
}

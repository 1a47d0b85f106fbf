/** JSON string escaping (`append_json_string` in src/tool_inventory.cpp and
    `append_json_escaped_string` in src/policy_generator.cpp, which write the same text). */
module Escape {
  import opened Bytes
  import opened Json
  import opened Scanner
  import opened ScannerGrammar

  const HEX: Bytes := "0123456789abcdef"
  const BACKSPACE: char := 8 as char
  const FORM_FEED: char := 12 as char

  /** What stands for one byte between the quotes. */
  function Unit(c: char): Bytes {
    if c == '"' || c == '\\' then ['\\', c]
    else if c == BACKSPACE then "\\b"
    else if c == FORM_FEED then "\\f"
    else if c == '\n' then "\\n"
    else if c == '\r' then "\\r"
    else if c == '\t' then "\\t"
    else if c < ' ' then "\\u00" + [HEX[c as int / 16], HEX[c as int % 16]]
    else [c]
  }

  function Escaped(value: Bytes): Bytes {
    if value == [] then [] else Unit(value[0]) + Escaped(value[1..])
  }

  // ---- the reader's side ----

  function HexValue(c: char): nat
    requires IsHexDigit(c)
  {
    if '0' <= c <= '9' then c as int - '0' as int
    else if 'a' <= c <= 'f' then c as int - 'a' as int + 10
    else c as int - 'A' as int + 10
  }

  /** The code that the string character at `t[i]` stands for (RFC 8259 section 7). */
  function UnitCode(t: Bytes, i: nat): nat
    requires i < |t| && UnitSize(t, i) > 0
  {
    if t[i] != '\\' then t[i] as int
    else if t[i + 1] == 'u' then
      4096 * HexValue(t[i + 2]) + 256 * HexValue(t[i + 3]) + 16 * HexValue(t[i + 4]) + HexValue(t[i + 5])
    else if t[i + 1] == 'b' then 8
    else if t[i + 1] == 'f' then 12
    else if t[i + 1] == 'n' then 10
    else if t[i + 1] == 'r' then 13
    else if t[i + 1] == 't' then 9
    else t[i + 1] as int
  }

  /** The codes of a string body, if it is one. */
  function Decoded(t: Bytes, i: nat): Option<seq<nat>>
    requires i <= |t|
    decreases |t| - i
  {
    if i == |t| then Some([])
    else if UnitSize(t, i) == 0 then None
    else match Decoded(t, i + UnitSize(t, i))
      case None => None
      case Some(rest) => Some([UnitCode(t, i)] + rest)
  }

  function Codes(value: Bytes): seq<nat> {
    seq(|value|, i requires 0 <= i < |value| => value[i] as int)
  }

  /** No string character that stands for the byte is shorter than what is written for it, and only
      a long escape has other spellings of that length, with capital hex digits. */
  lemma UnitShortest(c: char, t: Bytes)
    requires t != [] && UnitSize(t, 0) == |t| && UnitCode(t, 0) == c as int
    ensures |Unit(c)| <= |t|
    ensures |Unit(c)| == |t| < 6 ==> Unit(c) == t
  {
    hide HexValue;
  }

  lemma UnitLowerCase(c: char)
    ensures |Unit(c)| == 6 ==> forall k :: 0 <= k < 6 ==> !('A' <= Unit(c)[k] <= 'F')
  {
  }

  // ---- round trip ----

  lemma UnitReads(c: char, rest: Bytes)
    ensures UnitSize(Unit(c) + rest, 0) == |Unit(c)|
    ensures UnitCode(Unit(c) + rest, 0) == c as int
  {
    if |Unit(c)| == 6 {
      LongUnitReads(c, rest);
    } else {
      hide HexValue;
    }
  }

  lemma HexDigits(k: nat)
    requires k < 16
    ensures IsHexDigit(HEX[k]) && HexValue(HEX[k]) == k
  {
  }

  lemma LongUnitReads(c: char, rest: Bytes)
    requires |Unit(c)| == 6
    ensures UnitSize(Unit(c) + rest, 0) == 6 && UnitCode(Unit(c) + rest, 0) == c as int
  {
    var high, low := c as int / 16, c as int % 16;
    HexDigits(high);
    HexDigits(low);
    HexDigits(0);
    hide IsHexDigit, HexValue;
    var t := Unit(c) + rest;
    assert t[0] == '\\' && t[1] == 'u' && t[2] == t[3] == HEX[0] && t[4] == HEX[high] && t[5] == HEX[low];
  }

  lemma UnitShift(t: Bytes, i: nat)
    requires i < |t|
    ensures UnitSize(t, i) == UnitSize(t[i..], 0)
    ensures UnitSize(t, i) > 0 ==> UnitCode(t, i) == UnitCode(t[i..], 0)
  {
    hide HexValue, IsHexDigit;
    var u := t[i..];
    assert |u| == |t| - i && forall k :: 0 <= k < |u| ==> u[k] == t[i + k];
  }

  lemma {:induction false} DecodedAfter(pre: Bytes, value: Bytes)
    ensures Decoded(pre + Escaped(value), |pre|) == Some(Codes(value))
    decreases |value|
  {
    hide Unit, UnitSize, UnitCode;
    var t := pre + Escaped(value);
    if value == [] {
      assert t == pre;
    } else {
      var c, rest := value[0], value[1..];
      assert t[|pre|..] == Unit(c) + Escaped(rest);
      assert t == pre + Unit(c) + Escaped(rest);
      assert |Unit(c)| > 0 by { UnitNonEmpty(c); }
      UnitShift(t, |pre|);
      UnitReads(c, Escaped(rest));
      DecodedAfter(pre + Unit(c), rest);
      assert Codes(value) == [c as int] + Codes(rest);
    }
  }

  lemma UnitNonEmpty(c: char)
    ensures 1 <= |Unit(c)| <= 6
  {
  }

  lemma {:induction false} DecodedIsBody(t: Bytes, i: nat)
    requires i <= |t|
    ensures Decoded(t, i).Some? <==> UnitsFrom(t, i)
    decreases |t| - i
  {
    hide UnitSize, UnitCode;
    if i < |t| && UnitSize(t, i) > 0 { DecodedIsBody(t, i + UnitSize(t, i)); }
  }

  /** ESCAPING ROUND TRIP: for every byte string, the escaped text between quotes is taken whole
      by the string scanner and decodes to the original bytes. */
  lemma EscapeRoundTrip(value: Bytes)
    ensures IsStringBody(Escaped(value)) && Decoded(Escaped(value), 0) == Some(Codes(value))
    ensures StringEnd(Quoted(Escaped(value)), 0) == Some(|Escaped(value)| + 2)
  {
    hide Escaped, Decoded, UnitsFrom, StringEnd;
    var t := Escaped(value);
    assert [] + t == t;
    DecodedAfter([], value);
    DecodedIsBody(t, 0);
    StringComplete(Quoted(t), 0, t);
  }

  /** Different byte strings never share their escaped text. */
  lemma EscapedInjective(a: Bytes, b: Bytes)
    requires Escaped(a) == Escaped(b)
    ensures a == b
  {
    hide Escaped, Decoded;
    EscapeRoundTrip(a);
    EscapeRoundTrip(b);
    assert |a| == |Codes(a)| == |Codes(b)| == |b|;
    forall k | 0 <= k < |a| ensures a[k] == b[k] { assert Codes(a)[k] == Codes(b)[k]; }
  }

  ghost predicate Plain(t: Bytes) {
    forall k :: 0 <= k < |t| ==> t[k] >= ' ' && t[k] != '"' && t[k] != '\\'
  }

  lemma PlainIsBody(key: Bytes)
    requires Plain(key)
    ensures IsStringBody(key)
  {
    PlainUnits(key, 0);
  }

  lemma {:induction false} PlainUnits(t: Bytes, i: nat)
    requires i <= |t| && Plain(t)
    ensures UnitsFrom(t, i)
    decreases |t| - i
  {
    if i < |t| { PlainUnits(t, i + 1); }
  }

  lemma UnitSame(c: char)
    ensures |Unit(c)| == 1 <==> c >= ' ' && c != '"' && c != '\\'
    ensures |Unit(c)| == 1 ==> Unit(c) == [c]
  {
  }

  /** Escaping changes nothing exactly when there is nothing to escape. */
  lemma {:induction false} EscapedSame(t: Bytes)
    ensures Escaped(t) == t <==> Plain(t)
    ensures |Escaped(t)| >= |t|
    decreases |t|
  {
    hide Unit;
    if t != [] {
      var c, rest := t[0], t[1..];
      EscapedSame(rest);
      UnitSame(c);
      UnitNonEmpty(c);
      assert t == [c] + rest;
      if Plain(t) {
        assert Plain(rest);
        assert Unit(c) == [c];
      }
      if Escaped(t) == t {
        assert |Unit(c)| == 1;
        assert Unit(c) == Escaped(t)[..1] == [c];
        assert Escaped(rest) == Escaped(t)[1..] == rest;
        assert Plain(rest);
      }
    }
  }

  lemma {:induction false} PlainBody(t: Bytes, i: nat)
    requires i <= |t| && UnitsFrom(t, i) && EscapeFree(t)
    ensures Plain(t[i..])
    decreases |t| - i
  {
    if i < |t| {
      PlainBody(t, i + 1);
      assert t[i..] == [t[i]] + t[i + 1..];
    }
  }

  /** A name that passed the no-escape check is written unchanged. */
  lemma EscapeFreeUnchanged(name: Bytes)
    requires IsStringBody(name) && EscapeFree(name)
    ensures Escaped(name) == name
  {
    PlainBody(name, 0);
    assert name[0..] == name;
    EscapedSame(name);
  }

  // ---- writing ----

  lemma {:induction false} EscapedLast(value: Bytes, k: nat)
    requires k < |value|
    ensures Escaped(value[..k + 1]) == Escaped(value[..k]) + Unit(value[k])
    decreases k
  {
    hide Unit;
    if k == 0 {
      assert value[..1] == [value[0]] && value[..0] == [];
      assert Escaped(value[..1]) == Unit(value[0]) + Escaped(value[..1][1..]);
    } else {
      assert value[..k + 1][1..] == value[1..][..k] && value[..k][1..] == value[1..][..k - 1];
      EscapedLast(value[1..], k - 1);
    }
  }

  /** The text that the byte stands for, as the writers build it. */
  method EscapeUnit(byte: char) returns (unit: Bytes)
    ensures unit == Unit(byte)
  {
    if byte == '"' || byte == '\\' {
      return ['\\', byte];
    }
    if byte == BACKSPACE || byte == FORM_FEED || byte == '\n' || byte == '\r' || byte == '\t' {
      var escape := 'b';
      if byte == FORM_FEED {
        escape := 'f';
      } else if byte == '\n' {
        escape := 'n';
      } else if byte == '\r' {
        escape := 'r';
      } else if byte == '\t' {
        escape := 't';
      }
      return ['\\', escape];
    }
    if byte < ' ' {
      return ['\\', 'u', '0', '0', HEX[byte as int / 16], HEX[byte as int % 16]];
    }
    return [byte];
  }

  /** The bounded writer. */
  method AppendJsonString(before: Bytes, value: Bytes, limit: nat) returns (ok: bool, output: Bytes)
    ensures ok <==> |before| + |Quoted(Escaped(value))| <= limit
    ensures ok ==> output == before + Quoted(Escaped(value))
  {
    hide Unit, Escaped;
    ok, output := AppendLimited(before, "\"", limit);
    if !ok {
      return;
    }
    EscapedNothing(value);
    for k := 0 to |value|
      invariant |output| <= limit && output == before + "\"" + Escaped(value[..k])
    {
      EscapedLast(value, k);
      EscapedGrows(value, k + 1);
      ghost var written := output;
      var unit := EscapeUnit(value[k]);
      ok, output := AppendLimited(output, unit, limit);
      if !ok {
        return;
      }
      Associate(before + "\"", Escaped(value[..k]), unit);
    }
    assert value[..|value|] == value;
    ok, output := AppendLimited(output, "\"", limit);
    Associate(before, "\"", Escaped(value));
    Associate(before, "\"" + Escaped(value), "\"");
  }

  lemma EscapedNothing(value: Bytes)
    ensures Escaped(value[..0]) == []
  {
  }

  lemma {:induction false} EscapedGrows(value: Bytes, k: nat)
    requires k <= |value|
    ensures |Escaped(value)| >= |Escaped(value[..k])|
    decreases |value| - k
  {
    hide Unit, Escaped;
    if k == |value| {
      assert value[..k] == value;
    } else {
      EscapedLast(value, k);
      EscapedGrows(value, k + 1);
    }
  }

  /** The unbounded writer of the policy generator. */
  method AppendJsonEscapedString(before: Bytes, value: Bytes) returns (output: Bytes)
    ensures output == before + Quoted(Escaped(value))
  {
    hide Unit, Escaped;
    output := before + "\"";
    EscapedNothing(value);
    for k := 0 to |value|
      invariant output == before + "\"" + Escaped(value[..k])
    {
      EscapedLast(value, k);
      var unit := EscapeUnit(value[k]);
      Associate(before + "\"", Escaped(value[..k]), unit);
      output := output + unit;
    }
    assert value[..|value|] == value;
    Associate(before, "\"", Escaped(value));
    Associate(before, "\"" + Escaped(value), "\"");
    output := output + "\"";
  }
}

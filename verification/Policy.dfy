/** `PolicyTable` (src/policy.cpp): rules in name order, binary search, and the bytes that the
    fingerprint hashes. */
module Policy {
  import opened Bytes
  import opened Sorting

  datatype Access = Deny | Allow

  datatype ToolRule = ToolRule(name: Bytes, visible: Access, callable: Access)

  datatype PolicyDefaults = PolicyDefaults(visible: Access, callable: Access)

  datatype PolicyTable = PolicyTable(rules: seq<ToolRule>, defaults: PolicyDefaults) {
    /** What every table built by `Build` satisfies. */
    ghost predicate Valid() {
      Ascending(rules, RuleName) && forall k :: 0 <= k < |rules| ==> rules[k].name != []
    }
  }

  function RuleName(rule: ToolRule): Bytes { rule.name }

  // ---- the policy as a map ----

  /** The rule for a name, by looking at one rule after the other. */
  function Lookup(rules: seq<ToolRule>, name: Bytes): (r: Option<ToolRule>)
    ensures r.Some? ==> r.value in rules && r.value.name == name
    ensures r.None? ==> forall k :: 0 <= k < |rules| ==> rules[k].name != name
  {
    if rules == [] then None
    else if rules[0].name == name then Some(rules[0])
    else Lookup(rules[1..], name)
  }

  function VisibilityFor(table: PolicyTable, name: Bytes): Access {
    match Lookup(table.rules, name) case None => table.defaults.visible case Some(rule) => rule.visible
  }

  function InvocationFor(table: PolicyTable, name: Bytes): Access {
    match Lookup(table.rules, name) case None => table.defaults.callable case Some(rule) => rule.callable
  }

  /** Without repeated names, the rule of a name decides with its own two fields, and a name
      without a rule gets the defaults. */
  lemma AccessMeaning(table: PolicyTable)
    requires Distinct(table.rules, RuleName)
    ensures forall rule :: rule in table.rules ==>
              VisibilityFor(table, rule.name) == rule.visible && InvocationFor(table, rule.name) == rule.callable
    ensures forall name :: (forall rule :: rule in table.rules ==> rule.name != name) ==>
              VisibilityFor(table, name) == table.defaults.visible && InvocationFor(table, name) == table.defaults.callable
  {
    forall rule | rule in table.rules ensures Lookup(table.rules, rule.name) == Some(rule) {
      var found := Lookup(table.rules, rule.name);
      assert found.Some?;
    }
  }

  // ---- building and searching ----

  lemma NamesKept(sorted: seq<ToolRule>, rules: seq<ToolRule>)
    requires Distinct(sorted, RuleName) && Distinct(rules, RuleName)
    requires forall rule :: rule in sorted <==> rule in rules
    requires forall k :: 0 <= k < |rules| ==> rules[k].name != []
    ensures forall k :: 0 <= k < |sorted| ==> sorted[k].name != []
    ensures forall name :: Lookup(sorted, name) == Lookup(rules, name)
  {
    forall k | 0 <= k < |sorted| ensures sorted[k].name != [] {
      var j := InIndex(sorted[k], rules);
    }
    forall name ensures Lookup(sorted, name) == Lookup(rules, name) {
      SameLookup(sorted, rules, name);
    }
  }

  /** The first loop of `build`. */
  method AllNamed(rules: seq<ToolRule>) returns (ok: bool)
    ensures ok <==> forall k :: 0 <= k < |rules| ==> rules[k].name != []
  {
    for i := 0 to |rules|
      invariant forall k :: 0 <= k < i ==> rules[k].name != []
    {
      if rules[i].name == [] {
        return false;
      }
    }
    return true;
  }

  /** The second loop of `build`: neighbours in the sorted list. */
  method NoTwins(sorted: seq<ToolRule>) returns (ok: bool)
    requires Ordered(sorted, RuleName)
    ensures ok <==> Distinct(sorted, RuleName)
    ensures ok ==> Ascending(sorted, RuleName)
  {
    hide Ascending, Ordered, Distinct;
    var i := 1;
    while i < |sorted|
      invariant 1 <= i
      invariant forall k :: 1 <= k < i && k < |sorted| ==> sorted[k - 1].name != sorted[k].name
    {
      if sorted[i - 1].name == sorted[i].name {
        EqualNeighbours(sorted, i);
        return false;
      }
      i := i + 1;
    }
    AdjacentDistinct(sorted);
    return true;
  }

  method Build(rules: seq<ToolRule>, defaults: PolicyDefaults) returns (ok: bool, table: PolicyTable)
    ensures ok <==> Distinct(rules, RuleName) && forall k :: 0 <= k < |rules| ==> rules[k].name != []
    ensures ok ==> table.Valid() && table.defaults == defaults
    ensures ok ==> multiset(table.rules) == multiset(rules)
    ensures ok ==> table.rules == Sort(rules, RuleName)
    ensures ok ==> forall name :: Lookup(table.rules, name) == Lookup(rules, name)
  {
    hide Ascending, Ordered, Distinct, Lookup, Sort;
    table := PolicyTable([], PolicyDefaults(Deny, Deny));
    ok := AllNamed(rules);
    if !ok {
      return;
    }
    var sorted := Sort(rules, RuleName);
    SortPermutes(rules, RuleName);
    SortOrders(rules, RuleName);
    SortDistinct(rules, RuleName);
    ok := NoTwins(sorted);
    if !ok {
      return;
    }
    NamesKept(sorted, rules);
    return true, PolicyTable(sorted, defaults);
  }

  lemma EqualNeighbours(rules: seq<ToolRule>, i: nat)
    requires 1 <= i < |rules| && rules[i - 1].name == rules[i].name
    ensures !Distinct(rules, RuleName)
  {
    assert RuleName(rules[i - 1]) == RuleName(rules[i]);
  }

  /** In an ordered list only neighbours need comparing. */
  lemma AdjacentDistinct(rules: seq<ToolRule>)
    requires Ordered(rules, RuleName)
    requires forall k :: 1 <= k < |rules| ==> rules[k - 1].name != rules[k].name
    ensures Ascending(rules, RuleName) && Distinct(rules, RuleName)
  {
    forall i, j | 0 <= i < j < |rules| ensures Below(rules[i].name, rules[j].name) {
      AdjacentBelow(rules, i, j);
    }
    forall i, j | 0 <= i < j < |rules| ensures rules[i].name != rules[j].name {
      BelowTotal(rules[i].name, rules[j].name);
    }
  }

  lemma {:induction false} AdjacentBelow(rules: seq<ToolRule>, i: nat, j: nat)
    requires Ordered(rules, RuleName) && i < j < |rules|
    requires forall k :: 1 <= k < |rules| ==> rules[k - 1].name != rules[k].name
    ensures Below(rules[i].name, rules[j].name)
    decreases j
  {
    assert !Below(RuleName(rules[j]), RuleName(rules[j - 1]));
    BelowTotal(rules[j - 1].name, rules[j].name);
    if i < j - 1 {
      AdjacentBelow(rules, i, j - 1);
      BelowTransitive(rules[i].name, rules[j - 1].name, rules[j].name);
    }
  }

  lemma {:induction false} LookupIs(rules: seq<ToolRule>, k: nat)
    requires Distinct(rules, RuleName) && k < |rules|
    ensures Lookup(rules, rules[k].name) == Some(rules[k])
    decreases |rules|
  {
    if k > 0 {
      assert RuleName(rules[0]) != RuleName(rules[k]);
      assert Distinct(rules[1..], RuleName) by { DistinctFirst(rules[0], rules[1..], RuleName); assert rules == [rules[0]] + rules[1..]; }
      LookupIs(rules[1..], k - 1);
    }
  }

  /** With distinct names the order of the rules does not matter. */
  lemma SameLookup(a: seq<ToolRule>, b: seq<ToolRule>, name: Bytes)
    requires Distinct(a, RuleName) && Distinct(b, RuleName)
    requires forall rule :: rule in a <==> rule in b
    ensures Lookup(a, name) == Lookup(b, name)
  {
    var r := Lookup(a, name);
    if r.Some? {
      var k := InIndex(r.value, b);
      LookupIs(b, k);
    } else if Lookup(b, name).Some? {
      var k := InIndex(Lookup(b, name).value, a);
      LookupIs(a, k);
    }
  }

  /** `PolicyTable::find`: the lower bound by binary search, then one comparison. */
  method FindRule(table: PolicyTable, name: Bytes) returns (r: Option<ToolRule>)
    requires table.Valid()
    ensures r == Lookup(table.rules, name)
  {
    var rules := table.rules;
    var lo, hi := 0, |rules|;
    while lo < hi
      invariant 0 <= lo <= hi <= |rules|
      invariant forall k :: 0 <= k < lo ==> Below(rules[k].name, name)
      invariant forall k :: hi <= k < |rules| ==> !Below(rules[k].name, name)
    {
      var mid := lo + (hi - lo) / 2;
      if Below(rules[mid].name, name) {
        forall k | 0 <= k < mid ensures Below(rules[k].name, name) {
          assert Below(RuleName(rules[k]), RuleName(rules[mid]));
          BelowTransitive(rules[k].name, rules[mid].name, name);
        }
        lo := mid + 1;
      } else {
        forall k | mid < k < |rules| ensures !Below(rules[k].name, name) {
          assert Below(RuleName(rules[mid]), RuleName(rules[k]));
          if Below(rules[k].name, name) { BelowTransitive(rules[mid].name, rules[k].name, name); }
        }
        hi := mid;
      }
    }
    LowerBoundFinds(table, name, lo);
    if lo == |rules| || rules[lo].name != name {
      return None;
    }
    return Some(rules[lo]);
  }

  lemma LowerBoundFinds(table: PolicyTable, name: Bytes, at: nat)
    requires table.Valid() && at <= |table.rules|
    requires forall k :: 0 <= k < at ==> Below(table.rules[k].name, name)
    requires forall k :: at <= k < |table.rules| ==> !Below(table.rules[k].name, name)
    ensures Lookup(table.rules, name) ==
            if at < |table.rules| && table.rules[at].name == name then Some(table.rules[at]) else None
  {
    var rules := table.rules;
    AscendingDistinct(rules);
    BelowTotal(name, name);
    if at < |rules| && rules[at].name == name {
      LookupIs(rules, at);
    } else {
      forall k | 0 <= k < |rules| ensures rules[k].name != name {
        if at < k {
          assert Below(RuleName(rules[at]), RuleName(rules[k]));
          BelowTotal(rules[at].name, name);
        }
      }
    }
  }

  lemma AscendingDistinct(rules: seq<ToolRule>)
    requires Ascending(rules, RuleName)
    ensures Distinct(rules, RuleName)
  {
    forall i, j | 0 <= i < j < |rules| ensures RuleName(rules[i]) != RuleName(rules[j]) {
      BelowTotal(rules[i].name, rules[j].name);
    }
  }

  method QueryVisibility(table: PolicyTable, name: Bytes) returns (access: Access)
    requires table.Valid()
    ensures access == VisibilityFor(table, name)
  {
    var rule := FindRule(table, name);
    return if rule.None? then table.defaults.visible else rule.value.visible;
  }

  method QueryInvocation(table: PolicyTable, name: Bytes) returns (access: Access)
    requires table.Valid()
    ensures access == InvocationFor(table, name)
  {
    var rule := FindRule(table, name);
    return if rule.None? then table.defaults.callable else rule.value.callable;
  }

  // ---- the fingerprint's input ----

  function Decimal(n: nat): (t: Bytes)
    ensures t != [] && forall k :: 0 <= k < |t| ==> IsDigit(t[k])
  {
    if n < 10 then [('0' as int + n) as char] else Decimal(n / 10) + [('0' as int + n % 10) as char]
  }

  function DecimalValue(t: Bytes): nat
    requires forall k :: 0 <= k < |t| ==> IsDigit(t[k])
  {
    if t == [] then 0
    else
      assert IsDigit(t[|t| - 1]);
      10 * DecimalValue(t[..|t| - 1]) + (t[|t| - 1] as int - '0' as int)
  }

  lemma {:induction false} DecimalRoundTrip(n: nat)
    ensures DecimalValue(Decimal(n)) == n
  {
    if n < 10 {
      assert Decimal(n)[..0] == [];
    } else {
      DecimalRoundTrip(n / 10);
      var t := Decimal(n);
      assert t[..|t| - 1] == Decimal(n / 10);
    }
  }

  function AccessByte(access: Access): char {
    if access.Deny? then 0 as char else 1 as char
  }

  function RuleBytes(rule: ToolRule): Bytes {
    Decimal(|rule.name|) + ":" + rule.name + [AccessByte(rule.visible), AccessByte(rule.callable)]
  }

  function RulesBytes(rules: seq<ToolRule>): Bytes {
    if rules == [] then [] else RuleBytes(rules[0]) + RulesBytes(rules[1..])
  }

  /** Everything `fingerprint` feeds to the hash, in order. The version string is passed as a
      C string, so the NUL written at its end is not part of it. */
  function PreImage(table: PolicyTable): Bytes {
    "mng-effective-policy-v1"
    + [AccessByte(table.defaults.visible), AccessByte(table.defaults.callable)]
    + RulesBytes(table.rules)
  }

  lemma RulesFrom(rules: seq<ToolRule>, i: nat, text: Bytes)
    requires i < |rules|
    ensures text + RulesBytes(rules[i..]) == text + RuleBytes(rules[i]) + RulesBytes(rules[i + 1..])
  {
    hide RuleBytes;
    assert rules[i..][1..] == rules[i + 1..];
    assert text + (RuleBytes(rules[i]) + RulesBytes(rules[i + 1..])) == text + RuleBytes(rules[i]) + RulesBytes(rules[i + 1..]);
  }

  lemma NoRules(rules: seq<ToolRule>, text: Bytes)
    ensures text + RulesBytes(rules[|rules|..]) == text && rules[0..] == rules
  {
  }

  lemma RuleWritten(text: Bytes, rule: ToolRule)
    ensures text + Decimal(|rule.name|) + ":" + rule.name + [AccessByte(rule.visible), AccessByte(rule.callable)]
         == text + RuleBytes(rule)
  {
    hide Decimal, AccessByte;
  }

  /** The hashing loop; what it consumes is collected instead of hashed. */
  method Consume(table: PolicyTable) returns (consumed: Bytes)
    ensures consumed == PreImage(table)
  {
    hide RulesBytes, RuleBytes, Decimal, AccessByte;
    consumed := "mng-effective-policy-v1";
    consumed := consumed + [AccessByte(table.defaults.visible), AccessByte(table.defaults.callable)];
    ghost var start := consumed;
    var i := 0;
    NoRules(table.rules, consumed);
    while i < |table.rules|
      invariant 0 <= i <= |table.rules|
      invariant consumed + RulesBytes(table.rules[i..]) == start + RulesBytes(table.rules)
    {
      var rule := table.rules[i];
      RulesFrom(table.rules, i, consumed);
      RuleWritten(consumed, rule);
      consumed := consumed + Decimal(|rule.name|) + ":" + rule.name;
      consumed := consumed + [AccessByte(rule.visible), AccessByte(rule.callable)];
      i := i + 1;
    }
    NoRules(table.rules, consumed);
  }

  /** The version comes first, then two bytes for the defaults. Deny is 0 and allow is 1. */
  lemma PreImageStart(table: PolicyTable)
    ensures var text := PreImage(table);
            && |text| >= 25 && text[..23] == "mng-effective-policy-v1"
            && text[23] == (if table.defaults.visible == Deny then '\0' else 1 as char)
            && text[24] == (if table.defaults.callable == Deny then '\0' else 1 as char)
  {
    hide RulesBytes;
  }

  /** For every rule, after the bytes of the rules before it, the length of its name in decimal, a
      colon, the name and two bytes. */
  lemma PreImageAt(table: PolicyTable, k: nat)
    requires k < |table.rules|
    ensures var text, rule := PreImage(table), table.rules[k];
            var head := Decimal(|rule.name|) + ":" + rule.name;
            var at := |PreImage(table.(rules := table.rules[..k]))|;
            && At(text, at, head) && at + |head| + 2 <= |text|
            && text[at + |head|] == (if rule.visible == Deny then '\0' else 1 as char)
            && text[at + |head| + 1] == (if rule.callable == Deny then '\0' else 1 as char)
            && at + |head| + 2 == |PreImage(table.(rules := table.rules[..k + 1]))|
  {
    hide PreImage, Decimal, At, RuleBytes;
    PreImageSplit(table, k);
    RuleAt(PreImage(table.(rules := table.rules[..k])), table.rules[k], RulesBytes(table.rules[k + 1..]));
  }

  lemma PreImageSplit(table: PolicyTable, k: nat)
    requires k < |table.rules|
    ensures var before, rule := PreImage(table.(rules := table.rules[..k])), RuleBytes(table.rules[k]);
            && PreImage(table) == before + rule + RulesBytes(table.rules[k + 1..])
            && PreImage(table.(rules := table.rules[..k + 1])) == before + rule
  {
    hide RulesBytes, RuleBytes, AccessByte;
    RulesAt(table.rules, k);
    var head := "mng-effective-policy-v1" + [AccessByte(table.defaults.visible), AccessByte(table.defaults.callable)];
    var before, rule := RulesBytes(table.rules[..k]), RuleBytes(table.rules[k]);
    Associate(head, before, rule);
    Associate(head, before + rule, RulesBytes(table.rules[k + 1..]));
  }

  lemma RuleAt(before: Bytes, rule: ToolRule, after: Bytes)
    ensures var text, at := before + RuleBytes(rule) + after, |before|;
            var head := Decimal(|rule.name|) + ":" + rule.name;
            && At(text, at, head) && at + |head| + 2 <= |text| && |RuleBytes(rule)| == |head| + 2
            && text[at + |head|] == (if rule.visible == Deny then '\0' else 1 as char)
            && text[at + |head| + 1] == (if rule.callable == Deny then '\0' else 1 as char)
  {
    hide Decimal;
  }

  lemma RulesFirst(rule: ToolRule, rest: seq<ToolRule>)
    ensures RulesBytes([rule] + rest) == RuleBytes(rule) + RulesBytes(rest)
    ensures RulesBytes([rule]) == RuleBytes(rule) && RulesBytes([]) == []
  {
    hide RuleBytes;
    assert ([rule] + rest)[1..] == rest;
    assert [rule][1..] == [];
  }

  lemma {:induction false} RulesAt(rules: seq<ToolRule>, k: nat)
    requires k < |rules|
    ensures RulesBytes(rules) == RulesBytes(rules[..k]) + RuleBytes(rules[k]) + RulesBytes(rules[k + 1..])
    ensures RulesBytes(rules[..k + 1]) == RulesBytes(rules[..k]) + RuleBytes(rules[k])
    decreases k
  {
    hide RuleBytes, RulesBytes;
    var rule, rest := rules[0], rules[1..];
    assert rules == [rule] + rest;
    RulesFirst(rule, rest);
    if k > 0 {
      RulesAt(rest, k - 1);
      assert rules[..k] == [rule] + rest[..k - 1] && rules[..k + 1] == [rule] + rest[..k];
      assert rules[k + 1..] == rest[k..];
      RulesFirst(rule, rest[..k - 1]);
      RulesFirst(rule, rest[..k]);
      var first, before, here := RuleBytes(rule), RulesBytes(rest[..k - 1]), RuleBytes(rest[k - 1]);
      Associate(first, before, here);
      Associate(first, before + here, RulesBytes(rest[k..]));
    } else {
      assert rules[..0] == [] && rules[..1] == [rule];
      assert [] + RuleBytes(rule) == RuleBytes(rule);
    }
  }

  /** A length prefix ends at its first non-digit. */
  lemma {:induction false} PrefixUnique(a: Bytes, b: Bytes, x: Bytes, y: Bytes)
    requires forall k :: 0 <= k < |a| ==> IsDigit(a[k])
    requires forall k :: 0 <= k < |b| ==> IsDigit(b[k])
    requires a + ":" + x == b + ":" + y
    ensures a == b && x == y
  {
    var l, r := a + ":" + x, b + ":" + y;
    assert l[|a|] == ':' && r[|b|] == ':';
    assert |a| == |b|;
    assert a == l[..|a|] && b == r[..|a|];
    assert x == l[|a| + 1..] && y == r[|a| + 1..];
  }

  lemma RuleBytesUnique(a: ToolRule, b: ToolRule, x: Bytes, y: Bytes)
    requires RuleBytes(a) + x == RuleBytes(b) + y
    ensures a == b && x == y
  {
    var s := a.name + [AccessByte(a.visible), AccessByte(a.callable)] + x;
    var t := b.name + [AccessByte(b.visible), AccessByte(b.callable)] + y;
    assert RuleBytes(a) + x == Decimal(|a.name|) + ":" + s;
    assert RuleBytes(b) + y == Decimal(|b.name|) + ":" + t;
    PrefixUnique(Decimal(|a.name|), Decimal(|b.name|), s, t);
    DecimalRoundTrip(|a.name|);
    DecimalRoundTrip(|b.name|);
    var n := |a.name|;
    assert a.name == s[..n] && b.name == t[..n];
    assert s[n] == AccessByte(a.visible) && t[n] == AccessByte(b.visible);
    assert s[n + 1] == AccessByte(a.callable) && t[n + 1] == AccessByte(b.callable);
    assert x == s[n + 2..] && y == t[n + 2..];
  }

  lemma {:induction false} RulesBytesUnique(a: seq<ToolRule>, b: seq<ToolRule>)
    requires RulesBytes(a) == RulesBytes(b)
    ensures a == b
    decreases |a|
  {
    if a != [] && b != [] {
      RuleBytesUnique(a[0], b[0], RulesBytes(a[1..]), RulesBytes(b[1..]));
      RulesBytesUnique(a[1..], b[1..]);
      assert a == [a[0]] + a[1..] && b == [b[0]] + b[1..];
    } else {
      assert a != [] ==> |RulesBytes(a)| > 0;
      assert b != [] ==> |RulesBytes(b)| > 0;
    }
  }

  /** The hashed bytes identify the effective policy. */
  lemma PreImageFaithful(p: PolicyTable, q: PolicyTable)
    ensures PreImage(p) == PreImage(q) <==> p == q
  {
    if PreImage(p) == PreImage(q) {
      var s, t := PreImage(p), PreImage(q);
      var n := |"mng-effective-policy-v1"|;
      assert s[n] == AccessByte(p.defaults.visible) && t[n] == AccessByte(q.defaults.visible);
      assert s[n + 1] == AccessByte(p.defaults.callable) && t[n + 1] == AccessByte(q.defaults.callable);
      assert s[n + 2..] == RulesBytes(p.rules) && t[n + 2..] == RulesBytes(q.rules);
      RulesBytesUnique(p.rules, q.rules);
    }
  }

  /** Tables built from the same rules in any order are the same table, hence hash alike. */
  lemma BuildIgnoresOrder(p: PolicyTable, q: PolicyTable)
    requires p.Valid() && q.Valid() && p.defaults == q.defaults
    ensures p == q <==> forall rule :: rule in p.rules <==> rule in q.rules
  {
    if forall rule :: rule in p.rules <==> rule in q.rules {
      AscendingUnique(p.rules, q.rules, RuleName);
    }
  }
}

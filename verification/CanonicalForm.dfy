/** The canonical form of a JSON value (src/tool_inventory.cpp): no whitespace, object members
    sorted by their raw key.

    `CanonicalExactly` shows that it is a complete invariant: two values without repeated keys
    have the same canonical bytes exactly when they are equal up to member order and
    whitespace. */
module CanonicalForm {
  import opened Bytes
  import opened Json
  import opened Scanner
  import opened ScannerGrammar
  import opened Sorting

  function KeyOf(m: Member): Bytes {
    m.key
  }

  function Canonical(v: Value): Value {
    match v
    case Arr(_, items) => Arr([], CanonicalItems(items))
    case Obj(_, members) => Obj([], Sort(CanonicalMembers(members), KeyOf))
    case _ => v
  }

  function CanonicalItem(item: Item): Item {
    Item([], Canonical(item.value), [])
  }

  function CanonicalItems(items: seq<Item>): (r: seq<Item>)
    ensures |r| == |items|
  {
    if items == [] then [] else [CanonicalItem(items[0])] + CanonicalItems(items[1..])
  }

  function CanonicalMember(m: Member): Member {
    Member([], m.key, [], [], Canonical(m.value), [])
  }

  function CanonicalMembers(members: seq<Member>): (r: seq<Member>)
    ensures |r| == |members|
  {
    if members == [] then [] else [CanonicalMember(members[0])] + CanonicalMembers(members[1..])
  }

  /** No object in the value repeats a raw key. */
  ghost predicate NoDuplicateKeys(v: Value) {
    match v
    case Arr(_, items) => forall k :: 0 <= k < |items| ==> NoDuplicateKeys(items[k].value)
    case Obj(_, members) =>
      Distinct(members, KeyOf) && forall k :: 0 <= k < |members| ==> NoDuplicateKeys(members[k].value)
    case _ => true
  }

  /** Equal up to the order of object members and insignificant whitespace. */
  ghost predicate Equivalent(a: Value, b: Value)
    decreases a
  {
    match a
    case Arr(_, xs) =>
      && b.Arr? && |xs| == |b.items|
      && forall k :: 0 <= k < |xs| ==> Equivalent(xs[k].value, b.items[k].value)
    case Obj(_, xs) =>
      && b.Obj?
      && (forall i :: 0 <= i < |xs| ==> OneOf(xs[i], b.members))
      && (forall j :: 0 <= j < |b.members| ==> AmongThem(xs, b.members[j]))
    case _ => a == b
  }

  ghost predicate SameMember(x: Member, y: Member)
    decreases x, 0
  {
    x.key == y.key && Equivalent(x.value, y.value)
  }

  ghost predicate OneOf(x: Member, ys: seq<Member>)
    decreases x, 1
  {
    exists j :: 0 <= j < |ys| && SameMember(x, ys[j])
  }

  ghost predicate AmongThem(xs: seq<Member>, y: Member)
    decreases xs
  {
    exists i :: 0 <= i < |xs| && SameMember(xs[i], y)
  }

  // ---- by position ----

  lemma {:induction false} ItemAt(items: seq<Item>, k: nat)
    requires k < |items|
    ensures CanonicalItems(items)[k] == CanonicalItem(items[k])
    decreases |items|
  {
    if k > 0 { ItemAt(items[1..], k - 1); }
  }

  lemma {:induction false} MemberAt(members: seq<Member>, k: nat)
    requires k < |members|
    ensures CanonicalMembers(members)[k] == CanonicalMember(members[k])
    decreases |members|
  {
    if k > 0 { MemberAt(members[1..], k - 1); }
  }

  /** The members of the canonical object, in order. */
  function SortedMembers(members: seq<Member>): seq<Member> {
    Sort(CanonicalMembers(members), KeyOf)
  }

  ghost predicate HasTwin(x: Member, ys: seq<Member>) {
    exists j :: 0 <= j < |ys| && CanonicalMember(ys[j]) == CanonicalMember(x)
  }

  lemma SortedIn(x: Member, members: seq<Member>)
    ensures CanonicalMember(x) in SortedMembers(members) <==> HasTwin(x, members)
  {
    hide Canonical, CanonicalMember;
    var cs := CanonicalMembers(members);
    SortPermutes(cs, KeyOf);
    forall k | 0 <= k < |members| ensures cs[k] == CanonicalMember(members[k]) { MemberAt(members, k); }
    hide Sort, CanonicalMembers;
    if CanonicalMember(x) in cs {
      var k := InIndex(CanonicalMember(x), cs);
      assert CanonicalMember(members[k]) == CanonicalMember(x);
    }
    if HasTwin(x, members) {
      var j :| 0 <= j < |members| && CanonicalMember(members[j]) == CanonicalMember(x);
      assert cs[j] in cs;
    }
  }

  lemma SortedFrom(m: Member, members: seq<Member>) returns (k: nat)
    requires m in SortedMembers(members)
    ensures k < |members| && m == CanonicalMember(members[k])
  {
    SortPermutes(CanonicalMembers(members), KeyOf);
    k := InIndex(m, CanonicalMembers(members));
    MemberAt(members, k);
  }

  lemma SortedAscends(members: seq<Member>)
    ensures Distinct(members, KeyOf) <==> Distinct(SortedMembers(members), KeyOf)
    ensures Distinct(members, KeyOf) ==> Ascending(SortedMembers(members), KeyOf)
  {
    hide CanonicalMembers, Canonical, Sort;
    var cs := CanonicalMembers(members);
    forall k | 0 <= k < |members| ensures cs[k] == CanonicalMember(members[k]) { MemberAt(members, k); }
    SortDistinct(cs, KeyOf);
    if Distinct(members, KeyOf) { SortAscends(cs, KeyOf); }
  }

  // ---- a complete invariant ----

  lemma {:induction false} EquivalentGivesSame(a: Value, b: Value)
    requires NoDuplicateKeys(a) && NoDuplicateKeys(b) && Equivalent(a, b)
    ensures Canonical(a) == Canonical(b)
    decreases a, 2
  {
    match a {
      case Arr(_, xs) =>
        var ys := b.items;
        forall k | 0 <= k < |xs| ensures CanonicalItems(xs)[k] == CanonicalItems(ys)[k] {
          ItemAt(xs, k);
          ItemAt(ys, k);
          EquivalentGivesSame(xs[k].value, ys[k].value);
        }
      case Obj(_, xs) =>
        EquivalentObjects(a, b);
      case _ =>
    }
  }

  lemma {:induction false} EquivalentObjects(a: Value, b: Value)
    requires a.Obj? && NoDuplicateKeys(a) && NoDuplicateKeys(b) && Equivalent(a, b)
    ensures Canonical(a) == Canonical(b)
    decreases a, 1
  {
    hide Sort, CanonicalMembers, Canonical, CanonicalMember;
    var xs, ys := a.members, b.members;
    forall i | 0 <= i < |xs| ensures HasTwin(xs[i], ys) {
      assert OneOf(xs[i], ys);
      var j := OneOfIndex(xs[i], ys);
      SameMembers(a, b, i, j);
    }
    forall j | 0 <= j < |ys| ensures HasTwin(ys[j], xs) {
      assert AmongThem(xs, ys[j]);
      var i := AmongIndex(xs, ys[j]);
      SameMembers(a, b, i, j);
    }
    SortedObject(a);
    SortedObject(b);
    SameSorted(xs, ys);
  }

  lemma OneOfIndex(x: Member, ys: seq<Member>) returns (j: nat)
    requires OneOf(x, ys)
    ensures j < |ys| && SameMember(x, ys[j])
  {
    hide SameMember;
    j :| 0 <= j < |ys| && SameMember(x, ys[j]);
  }

  lemma AmongIndex(xs: seq<Member>, y: Member) returns (i: nat)
    requires AmongThem(xs, y)
    ensures i < |xs| && SameMember(xs[i], y)
  {
    hide SameMember;
    i :| 0 <= i < |xs| && SameMember(xs[i], y);
  }

  lemma {:induction false} SameMembers(a: Value, b: Value, i: nat, j: nat)
    requires a.Obj? && b.Obj? && NoDuplicateKeys(a) && NoDuplicateKeys(b)
    requires i < |a.members| && j < |b.members| && SameMember(a.members[i], b.members[j])
    ensures CanonicalMember(a.members[i]) == CanonicalMember(b.members[j])
    decreases a, 0
  {
    hide Canonical;
    EquivalentGivesSame(a.members[i].value, b.members[j].value);
  }

  lemma SameSorted(xs: seq<Member>, ys: seq<Member>)
    requires Distinct(xs, KeyOf) && Distinct(ys, KeyOf)
    requires forall i :: 0 <= i < |xs| ==> HasTwin(xs[i], ys)
    requires forall j :: 0 <= j < |ys| ==> HasTwin(ys[j], xs)
    ensures SortedMembers(xs) == SortedMembers(ys)
  {
    hide SortedMembers, CanonicalMember, Distinct, Ascending, HasTwin, KeyOf;
    SortedAscends(xs);
    SortedAscends(ys);
    forall m ensures m in SortedMembers(xs) <==> m in SortedMembers(ys) {
      if m in SortedMembers(xs) {
        var k := SortedFrom(m, xs);
        SortedIn(xs[k], ys);
      }
      if m in SortedMembers(ys) {
        var k := SortedFrom(m, ys);
        SortedIn(ys[k], xs);
      }
    }
    AscendingUnique(SortedMembers(xs), SortedMembers(ys), KeyOf);
  }

  lemma SortedObject(v: Value)
    requires v.Obj?
    ensures Canonical(v) == Obj([], SortedMembers(v.members))
  {
  }

  lemma {:induction false} SameGivesEquivalent(a: Value, b: Value)
    requires Canonical(a) == Canonical(b)
    ensures Equivalent(a, b)
    decreases a, 2
  {
    match a {
      case Arr(_, xs) =>
        var ys := b.items;
        forall k | 0 <= k < |xs| ensures Equivalent(xs[k].value, ys[k].value) {
          ItemAt(xs, k);
          ItemAt(ys, k);
          SameGivesEquivalent(xs[k].value, ys[k].value);
        }
      case Obj(_, xs) =>
        SameObjects(a, b);
      case _ =>
    }
  }

  lemma {:induction false} SameObjects(a: Value, b: Value)
    requires a.Obj? && Canonical(a) == Canonical(b)
    ensures Equivalent(a, b)
    decreases a, 1
  {
    hide Sort, CanonicalMembers, CanonicalMember;
    var xs, ys := a.members, b.members;
    SortedObject(a);
    assert b.Obj?;
    SortedObject(b);
    hide SortedMembers, Canonical;
    forall i | 0 <= i < |xs| ensures OneOf(xs[i], ys) {
      var j := TwinIn(xs, ys, i);
      MembersAgree(a, b, i, j);
      hide SameMember;
    }
    forall j | 0 <= j < |ys| ensures AmongThem(xs, ys[j]) {
      var i := TwinIn(ys, xs, j);
      MembersAgree(a, b, i, j);
      hide SameMember;
    }
  }

  lemma TwinIn(xs: seq<Member>, ys: seq<Member>, i: nat) returns (j: nat)
    requires i < |xs| && SortedMembers(xs) == SortedMembers(ys)
    ensures j < |ys| && CanonicalMember(xs[i]) == CanonicalMember(ys[j])
  {
    hide SortedMembers, CanonicalMember;
    SortedIn(xs[i], xs);
    j := SortedFrom(CanonicalMember(xs[i]), ys);
  }

  lemma {:induction false} MembersAgree(a: Value, b: Value, i: nat, j: nat)
    requires a.Obj? && b.Obj? && i < |a.members| && j < |b.members|
    requires CanonicalMember(a.members[i]) == CanonicalMember(b.members[j])
    ensures SameMember(a.members[i], b.members[j])
    decreases a, 0
  {
    hide Canonical;
    SameGivesEquivalent(a.members[i].value, b.members[j].value);
  }

  // ---- the canonical form is itself a value of the grammar ----

  lemma {:induction false} WellFormedEach(members: seq<Member>)
    ensures WellFormedMembers(members) <==> forall k :: 0 <= k < |members| ==> WellFormedMember(members[k])
    decreases |members|
  {
    hide WellFormedMember;
    if members != [] {
      WellFormedEach(members[1..]);
      if WellFormedMembers(members) {
        forall k | 0 <= k < |members| ensures WellFormedMember(members[k]) {
          if k > 0 { assert members[k] == members[1..][k - 1]; }
        }
      }
    }
  }

  lemma {:induction false} WellFormedEachItem(items: seq<Item>)
    ensures WellFormedItems(items) <==> forall k :: 0 <= k < |items| ==> WellFormedItem(items[k])
    decreases |items|
  {
    hide WellFormedItem;
    if items != [] {
      WellFormedEachItem(items[1..]);
      if WellFormedItems(items) {
        forall k | 0 <= k < |items| ensures WellFormedItem(items[k]) {
          if k > 0 { assert items[k] == items[1..][k - 1]; }
        }
      }
    }
  }

  lemma {:induction false} CanonicalWellFormed(v: Value)
    requires WellFormed(v)
    ensures WellFormed(Canonical(v))
    decreases v
  {
    hide WellFormedItem, WellFormedMember, CanonicalItem, CanonicalMember, IsStringBody, IsNumber;
    match v {
      case Arr(_, items) =>
        WellFormedEachItem(items);
        forall k | 0 <= k < |items| ensures WellFormedItem(CanonicalItems(items)[k]) {
          ItemAt(items, k);
          ItemWellFormed(v, k);
        }
        WellFormedEachItem(CanonicalItems(items));
      case Obj(_, members) =>
        WellFormedEach(members);
        var sorted := SortedMembers(members);
        forall k | 0 <= k < |sorted| ensures WellFormedMember(sorted[k]) {
          var j := SortedFrom(sorted[k], members);
          MemberWellFormed(v, j);
        }
        WellFormedEach(sorted);
        SortedObject(v);
      case _ =>
    }
  }

  lemma {:induction false} ItemWellFormed(v: Value, k: nat)
    requires v.Arr? && k < |v.items| && WellFormedItem(v.items[k])
    ensures WellFormedItem(CanonicalItem(v.items[k]))
    decreases v, 0
  {
    hide Canonical, WellFormed;
    CanonicalWellFormed(v.items[k].value);
  }

  lemma {:induction false} MemberWellFormed(v: Value, k: nat)
    requires v.Obj? && k < |v.members| && WellFormedMember(v.members[k])
    ensures WellFormedMember(CanonicalMember(v.members[k]))
    decreases v, 0
  {
    hide Canonical, WellFormed, IsStringBody;
    CanonicalWellFormed(v.members[k].value);
  }

  lemma {:induction false} InsertHeight(m: Member, members: seq<Member>)
    ensures MembersHeight(Insert(m, members, KeyOf)) == Max(Height(m.value), MembersHeight(members))
    decreases |members|
  {
    hide Height;
    var r := Insert(m, members, KeyOf);
    if members == [] {
    } else if Below(members[0].key, m.key) {
      InsertHeight(m, members[1..]);
      assert r[1..] == Insert(m, members[1..], KeyOf);
    } else {
      assert r[1..] == members;
    }
  }

  lemma {:induction false} SortHeight(members: seq<Member>)
    ensures MembersHeight(Sort(members, KeyOf)) == MembersHeight(members)
    decreases |members|
  {
    hide Height;
    if members != [] {
      SortHeight(members[1..]);
      InsertHeight(members[0], Sort(members[1..], KeyOf));
    }
  }

  lemma {:induction false} CanonicalHeight(v: Value)
    ensures Height(Canonical(v)) == Height(v)
    decreases v
  {
    match v {
      case Arr(_, items) => ItemsKeepHeight(items);
      case Obj(_, members) =>
        MembersKeepHeight(members);
        SortHeight(CanonicalMembers(members));
      case _ =>
    }
  }

  lemma {:induction false} ItemsKeepHeight(items: seq<Item>)
    ensures ItemsHeight(CanonicalItems(items)) == ItemsHeight(items)
    decreases items
  {
    if items != [] {
      CanonicalHeight(items[0].value);
      ItemsKeepHeight(items[1..]);
      assert CanonicalItems(items)[1..] == CanonicalItems(items[1..]);
    }
  }

  lemma {:induction false} MembersKeepHeight(members: seq<Member>)
    ensures MembersHeight(CanonicalMembers(members)) == MembersHeight(members)
    decreases members
  {
    if members != [] {
      CanonicalHeight(members[0].value);
      MembersKeepHeight(members[1..]);
      assert CanonicalMembers(members)[1..] == CanonicalMembers(members[1..]);
    }
  }

  lemma {:induction false} CanonicalDistinct(v: Value)
    requires NoDuplicateKeys(v)
    ensures NoDuplicateKeys(Canonical(v))
    decreases v
  {
    match v {
      case Arr(_, items) =>
        forall k | 0 <= k < |items| ensures NoDuplicateKeys(CanonicalItems(items)[k].value) {
          ItemAt(items, k);
          CanonicalDistinct(items[k].value);
        }
      case Obj(_, members) =>
        hide SortedMembers, Canonical;
        SortedAscends(members);
        SortedObject(v);
        var sorted := SortedMembers(members);
        forall k | 0 <= k < |sorted| ensures NoDuplicateKeys(sorted[k].value) {
          var j := SortedFrom(sorted[k], members);
          CanonicalDistinct(members[j].value);
        }
      case _ =>
    }
  }

  lemma {:induction false} EquivalentToCanonical(v: Value)
    ensures Equivalent(v, Canonical(v))
    decreases v, 1
  {
    match v {
      case Arr(_, items) =>
        forall k | 0 <= k < |items| ensures Equivalent(items[k].value, CanonicalItems(items)[k].value) {
          ItemAt(items, k);
          EquivalentToCanonical(items[k].value);
        }
      case Obj(_, members) =>
        hide SortedMembers, Canonical, SameMember;
        SortedObject(v);
        var sorted := SortedMembers(members);
        forall i | 0 <= i < |members| ensures OneOf(members[i], sorted) {
          SortedIn(members[i], members);
          assert HasTwin(members[i], members);
          var j := InIndex(CanonicalMember(members[i]), sorted);
          MemberEquivalent(v, i);
        }
        forall j | 0 <= j < |sorted| ensures AmongThem(members, sorted[j]) {
          var i := SortedFrom(sorted[j], members);
          MemberEquivalent(v, i);
        }
      case _ =>
    }
  }

  lemma {:induction false} MemberEquivalent(v: Value, k: nat)
    requires v.Obj? && k < |v.members|
    ensures SameMember(v.members[k], CanonicalMember(v.members[k]))
    decreases v, 0
  {
    hide Canonical;
    EquivalentToCanonical(v.members[k].value);
  }

  // ---- the theorems ----

  /** CANONICAL FORM IS A COMPLETE INVARIANT: for well-formed values without repeated keys, equal
      canonical bytes mean equal up to member order and whitespace, and the other way round. */
  lemma CanonicalExactly(a: Value, b: Value)
    requires WellFormed(a) && WellFormed(b) && NoDuplicateKeys(a) && NoDuplicateKeys(b)
    ensures Text(Canonical(a)) == Text(Canonical(b)) <==> Equivalent(a, b)
  {
    hide Canonical, Text, WellFormed, NoDuplicateKeys, Equivalent;
    if Text(Canonical(a)) == Text(Canonical(b)) {
      CanonicalWellFormed(a);
      CanonicalWellFormed(b);
      TextInjective(Canonical(a), Canonical(b));
      SameGivesEquivalent(a, b);
    }
    if Equivalent(a, b) { EquivalentGivesSame(a, b); }
  }

  /** PARSING BACK: the canonical bytes are one whole JSON value, equivalent to the original, of
      the same height, and canonical already. */
  lemma CanonicalParsesBack(v: Value)
    requires WellFormed(v) && NoDuplicateKeys(v)
    ensures var text := Text(Canonical(v));
            && ParseValue(text, 0) == Got(Canonical(v), |text|)
            && Equivalent(v, Canonical(v)) && Height(Canonical(v)) == Height(v)
            && NoDuplicateKeys(Canonical(v)) && Canonical(Canonical(v)) == Canonical(v)
  {
    hide Canonical, Text, WellFormed, NoDuplicateKeys, Equivalent, ParseValue, Height;
    CanonicalWellFormed(v);
    CanonicalHeight(v);
    CanonicalDistinct(v);
    EquivalentToCanonical(v);
    EquivalentGivesSame(v, Canonical(v));
    ValueComplete(Text(Canonical(v)), 0, Canonical(v));
  }

  /** No whitespace anywhere, and the members of every object in strictly ascending key order. */
  ghost predicate Tidy(v: Value) {
    match v
    case Arr(pad, items) =>
      pad == [] && forall k :: 0 <= k < |items| ==> items[k].pre == [] == items[k].post && Tidy(items[k].value)
    case Obj(pad, members) =>
      && pad == [] && Ascending(members, KeyOf)
      && forall k :: 0 <= k < |members| ==> Bare(members[k]) && Tidy(members[k].value)
    case _ => true
  }

  predicate Bare(m: Member) {
    m.pre == [] && m.mid == [] && m.gap == [] && m.post == []
  }

  lemma {:induction false} CanonicalIsTidy(v: Value)
    requires NoDuplicateKeys(v)
    ensures Tidy(Canonical(v))
    decreases v
  {
    match v {
      case Arr(_, items) =>
        forall k | 0 <= k < |items|
          ensures var item := CanonicalItems(items)[k]; item.pre == [] == item.post && Tidy(item.value)
        {
          ItemAt(items, k);
          CanonicalIsTidy(items[k].value);
        }
      case Obj(_, members) =>
        hide SortedMembers, Canonical;
        SortedAscends(members);
        SortedObject(v);
        var sorted := SortedMembers(members);
        forall k | 0 <= k < |sorted| ensures Bare(sorted[k]) && Tidy(sorted[k].value) {
          var j := SortedFrom(sorted[k], members);
          CanonicalIsTidy(members[j].value);
        }
      case _ =>
    }
  }

  lemma {:induction false} TidyIsCanonical(v: Value)
    requires Tidy(v)
    ensures NoDuplicateKeys(v) && Canonical(v) == v
    decreases v
  {
    match v {
      case Arr(_, items) =>
        forall k | 0 <= k < |items| ensures NoDuplicateKeys(items[k].value) && CanonicalItems(items)[k] == items[k] {
          ItemAt(items, k);
          TidyIsCanonical(items[k].value);
        }
        assert CanonicalItems(items) == items;
      case Obj(_, members) =>
        forall k | 0 <= k < |members|
          ensures NoDuplicateKeys(members[k].value) && CanonicalMembers(members)[k] == members[k]
        {
          MemberAt(members, k);
          TidyIsCanonical(members[k].value);
        }
        assert CanonicalMembers(members) == members;
        TidyMembers(members);
      case _ =>
    }
  }

  lemma TidyMembers(members: seq<Member>)
    requires Ascending(members, KeyOf)
    ensures Distinct(members, KeyOf) && Sort(members, KeyOf) == members
  {
    hide Sort;
    forall i, j | 0 <= i < j < |members| ensures KeyOf(members[i]) != KeyOf(members[j]) {
      BelowTotal(members[i].key, members[j].key);
    }
    SortAscends(members, KeyOf);
    SortPermutes(members, KeyOf);
    AscendingUnique(Sort(members, KeyOf), members, KeyOf);
  }

  /** THE CANONICAL FORM: of all values equal to this one up to member order and whitespace, it is the
      one without whitespace in which the members of every object ascend. */
  lemma CanonicalUnique(v: Value, w: Value)
    requires NoDuplicateKeys(v)
    ensures w == Canonical(v) <==> Tidy(w) && Equivalent(v, w)
  {
    hide Canonical, Tidy, NoDuplicateKeys, Equivalent;
    if w == Canonical(v) {
      CanonicalIsTidy(v);
      EquivalentToCanonical(v);
    }
    if Tidy(w) && Equivalent(v, w) {
      TidyIsCanonical(w);
      EquivalentGivesSame(v, w);
    }
  }
}

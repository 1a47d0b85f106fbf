/** Whole messages: one JSON object with optional whitespace around it, and what its member
    list says about a key. */
module Documents {
  import opened Bytes
  import opened Json
  import opened Scanner
  import opened ScannerGrammar

  // ---- looking up members ----

  function One(m: Member, key: Bytes): nat { if m.key == key then 1 else 0 }

  function Count(members: seq<Member>, key: Bytes): nat {
    if members == [] then 0 else One(members[0], key) + Count(members[1..], key)
  }

  /** The value of the first member with this key. */
  function Find(members: seq<Member>, key: Bytes): (r: Option<Value>)
    ensures r.Some? <==> Count(members, key) > 0
  {
    if members == [] then None
    else if members[0].key == key then Some(members[0].value)
    else Find(members[1..], key)
  }

  lemma CountFirst(m: Member, rest: seq<Member>, key: Bytes)
    ensures Count([m] + rest, key) == One(m, key) + Count(rest, key)
    ensures Find([m] + rest, key) == if m.key == key then Some(m.value) else Find(rest, key)
  {
    assert ([m] + rest)[1..] == rest;
  }

  lemma {:induction false} FindWellFormed(members: seq<Member>, key: Bytes)
    requires WellFormedMembers(members)
    ensures Find(members, key).Some? ==> WellFormed(Find(members, key).value)
    decreases |members|
  {
    hide WellFormed;
    if members != [] && members[0].key != key { FindWellFormed(members[1..], key); }
  }

  ghost predicate EscapeFreeKeys(members: seq<Member>) {
    forall k :: 0 <= k < |members| ==> EscapeFree(members[k].key)
  }

  // ---- one object, one message ----

  /** The members of the object whose opening brace is just before `b`. */
  function ParseBody(s: Bytes, b: nat, tail: Tail): (r: ParsedMembers)
    requires b <= |s|
    ensures r.Members? ==> b <= r.end <= |s|
  {
    var j := WsEnd(s, b);
    if j < |s| && s[j] == '}' then Members([], j + 1) else ParseMembers(s, b, tail)
  }

  /** Where the message's opening brace has to be. */
  function BodyStart(s: Bytes): (r: Option<nat>)
    ensures r.Some? ==> 0 < r.value <= |s| && s[r.value - 1] == '{'
  {
    var i := WsEnd(s, 0);
    if i == |s| || s[i] != '{' then None else Some(i + 1)
  }

  /** The members of a message that is one object and nothing else. With tail `OpenEnd` an
      object that ends right after a member comma is taken too (the open-ended form). */
  function DocMembers(s: Bytes, tail: Tail): Option<seq<Member>> {
    match BodyStart(s)
    case None => None
    case Some(b) =>
      match ParseBody(s, b, tail)
      case NoMembers => None
      case Members(ms, e) => if WsEnd(s, e) == |s| then Some(ms) else None
  }

  /** The message stops right after a member comma. */
  predicate OpenEnded(s: Bytes) {
    DocMembers(s, OpenEnd).Some? && DocMembers(s, Strict).None?
  }

  // ---- one round of a member loop ----

  lemma NoMemberAtEnd(s: Bytes, b: nat)
    requires b <= |s| && WsEnd(s, b) == |s|
    ensures ParseMember(s, b) == NoMember
  {
    hide ParseValue, WsEnd;
    NothingAtEnd(s, b);
  }

  /** Which scanner takes the value at `i`. */
  lemma ValueKinds(s: Bytes, i: nat)
    requires i <= |s|
    ensures var r := ParseValue(s, i);
            && (StringEnd(s, i).Some? ==> r == Got(Str(s[i + 1..StringEnd(s, i).value - 1]), StringEnd(s, i).value))
            && (r.Got? && r.value.Str? ==> StringEnd(s, i).Some?)
            && (LiteralAt(s, i, "null") ==> r == Got(Word("null"), i + 4))
            && (r.Got? && r.value == Word("null") ==> LiteralAt(s, i, "null"))
            && (NumberEnd(s, i).Some? ==> r == Got(Num(s[i..NumberEnd(s, i).value]), NumberEnd(s, i).value))
            && (r.Got? && r.value.Num? ==> NumberEnd(s, i).Some?)
            && (r.Got? ==> (r.value.Str? <==> s[i] == '"'))
            && (r.Got? && r.value.Obj? <==> r.Got? && s[i] == '{')
            && (r.Got? && r.value.Arr? <==> r.Got? && s[i] == '[')
  {
    hide DigitsEnd, BodyEnd, FractionEnd, ExponentEnd, ParseItems, ParseMembers, WsEnd;
  }

  // ---- relations between the forms ----

  /** A member list that is closed in one of the lax forms and in the other is closed in the
      strict form: the two tolerances exclude each other. */
  lemma {:induction false} ClosedTwice(s: Bytes, b: nat)
    requires b <= |s|
    requires ParseMembers(s, b, OpenEnd).Members? && ParseMembers(s, b, CommaClose).Members?
    requires WsEnd(s, b) < |s| && s[WsEnd(s, b)] != '}'
    ensures ParseMembers(s, b, Strict) == ParseMembers(s, b, OpenEnd) == ParseMembers(s, b, CommaClose)
    decreases |s| - b
  {
    hide ParseMember, ParseMembers, WsEnd;
    MembersUnfold(s, b, OpenEnd);
    MembersUnfold(s, b, CommaClose);
    MembersUnfold(s, b, Strict);
    var AMember(m, e) := ParseMember(s, b);
    if s[e] == ',' {
      var j := WsEnd(s, e + 1);
      if j == |s| {
        NoMemberAtEnd(s, e + 1);
        MembersUnfold(s, e + 1, CommaClose);
        assert false;
      } else if s[j] == '}' {
        MembersUnfold(s, e + 1, OpenEnd);
        NoMemberAtBrace(s, e + 1);
        assert false;
      } else {
        ClosedTwice(s, e + 1);
      }
    }
  }

  lemma NoMemberAtBrace(s: Bytes, b: nat)
    requires b <= |s| && WsEnd(s, b) < |s| && s[WsEnd(s, b)] == '}'
    ensures ParseMember(s, b) == NoMember
  {
    hide ParseValue, WsEnd;
  }

  /** The strict form is accepted by both lax loops, with the same members. */
  lemma {:induction false} StrictIsLax(s: Bytes, b: nat, tail: Tail)
    requires b <= |s| && ParseMembers(s, b, Strict).Members?
    ensures ParseMembers(s, b, tail) == ParseMembers(s, b, Strict)
    decreases |s| - b
  {
    hide ParseMember, ParseMembers, WsEnd;
    MembersUnfold(s, b, Strict);
    MembersUnfold(s, b, tail);
    if WsEnd(s, b) == |s| {
      NoMemberAtEnd(s, b);
      assert false;
    } else if s[WsEnd(s, b)] == '}' {
      NoMemberAtBrace(s, b);
      assert false;
    }
    var AMember(m, e) := ParseMember(s, b);
    if s[e] == ',' { StrictIsLax(s, e + 1, tail); }
  }

  /** Only the end of input makes a member list open-ended. */
  lemma {:induction false} OpenOnlyAtEnd(s: Bytes, b: nat)
    requires b <= |s| && ParseMembers(s, b, OpenEnd).Members? && ParseMembers(s, b, Strict).NoMembers?
    ensures ParseMembers(s, b, OpenEnd).end == |s|
    decreases |s| - b
  {
    hide ParseMember, ParseMembers, WsEnd;
    MembersUnfold(s, b, OpenEnd);
    MembersUnfold(s, b, Strict);
    if WsEnd(s, b) < |s| {
      var AMember(_, e) := ParseMember(s, b);
      OpenOnlyAtEnd(s, e + 1);
    }
  }

  lemma DocClosedTwice(s: Bytes)
    requires DocMembers(s, OpenEnd).Some? && DocMembers(s, CommaClose).Some?
    ensures DocMembers(s, Strict) == DocMembers(s, OpenEnd) == DocMembers(s, CommaClose)
  {
    hide ParseMembers, WsEnd;
    var b := BodyStart(s).value;
    var j := WsEnd(s, b);
    if j == |s| {
      MembersUnfold(s, b, CommaClose);
      NoMemberAtEnd(s, b);
      assert false;
    } else if s[j] != '}' {
      ClosedTwice(s, b);
    }
  }

  lemma DocStrictIsLax(s: Bytes, tail: Tail)
    requires DocMembers(s, Strict).Some?
    ensures DocMembers(s, tail) == DocMembers(s, Strict)
  {
    hide ParseMembers, WsEnd;
    var b := BodyStart(s).value;
    if ParseMembers(s, b, Strict).Members? { StrictIsLax(s, b, tail); }
  }

  // ---- message text ----

  /** `pre { body } post` */
  function DocText(pre: Bytes, pad: Bytes, members: seq<Member>, post: Bytes): Bytes {
    pre + Text(Obj(pad, members)) + post
  }

  lemma DocSound(s: Bytes) returns (pre: Bytes, pad: Bytes, post: Bytes)
    requires DocMembers(s, Strict).Some?
    ensures var ms := DocMembers(s, Strict).value;
            && Blank(pre) && Blank(post) && WellFormed(Obj(pad, ms))
            && s == DocText(pre, pad, ms, post)
            && BodyStart(s) == Some(|pre| + 1)
  {
    hide ParseMembers, WsEnd, Text, WellFormed;
    var i := WsEnd(s, 0);
    ParseObject(s, i);
    var Got(v, e) := ParseValue(s, i);
    ValueSound(s, i);
    WsEndBlank(s, 0);
    WsEndBlank(s, e);
    pre, pad, post := s[..i], v.pad, s[e..];
    assert s == s[..i] + s[i..e] + s[e..];
    assert s[0..i] == s[..i] && s[e..WsEnd(s, e)] == s[e..];
    assert v == Obj(pad, DocMembers(s, Strict).value);
  }

  lemma DocComplete(pre: Bytes, pad: Bytes, members: seq<Member>, post: Bytes)
    requires Blank(pre) && Blank(post) && WellFormed(Obj(pad, members))
    ensures DocMembers(DocText(pre, pad, members, post), Strict) == Some(members)
    ensures BodyStart(DocText(pre, pad, members, post)) == Some(|pre| + 1)
  {
    AtThree(pre, Text(Obj(pad, members)), post);
    DocCompleteAt(DocText(pre, pad, members, post), pre, Obj(pad, members), post);
  }

  lemma DocCompleteAt(s: Bytes, pre: Bytes, v: Value, post: Bytes)
    requires Blank(pre) && Blank(post) && v.Obj? && WellFormed(v)
    requires At(s, 0, pre) && At(s, |pre|, Text(v)) && At(s, |pre| + |Text(v)|, post)
    requires |s| == |pre| + |Text(v)| + |post|
    ensures DocMembers(s, Strict) == Some(v.members)
    ensures BodyStart(s) == Some(|pre| + 1)
  {
    hide ParseBody, WsEnd, Text, WellFormed, At;
    ObjectBody(s, |pre|, v);
    WsEndComplete(s, 0, pre);
    WsEndComplete(s, |pre| + |Text(v)|, post);
  }

  lemma ObjectBody(s: Bytes, i: nat, v: Value)
    requires v.Obj? && WellFormed(v) && At(s, i, Text(v))
    ensures i < |s| && s[i] == '{' && ParseBody(s, i + 1, Strict) == Members(v.members, i + |Text(v)|)
  {
    AtFirst(s, i, Text(v));
    assert Text(v)[0] == '{';
    hide ParseValue, ParseMembers, WsEnd, Text, WellFormed, At;
    ParseObject(s, i);
    ValueComplete(s, i, v);
  }

  lemma AtThree(a: Bytes, b: Bytes, c: Bytes)
    ensures var s := a + b + c;
            |s| == |a| + |b| + |c| && At(s, 0, a) && At(s, |a|, b) && At(s, |a| + |b|, c)
  {
  }
}

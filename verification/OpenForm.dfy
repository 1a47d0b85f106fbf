/** The open-ended form: what the lax member loops accept beyond JSON, and how to tell.

    The top-level loops of the classifier, the extractor, the inventory parser and the policy
    generator also take an object that ends right after a member comma (or right after its
    opening brace). */
module OpenForm {
  import opened Bytes
  import opened Json
  import opened Scanner
  import opened ScannerGrammar
  import opened Documents
  import opened JsonRpc
  import opened Escape

  /** The last byte that is not whitespace. */
  function LastSolid(s: Bytes): Option<char> {
    if s == [] then None
    else if IsWhitespace(s[|s| - 1]) then LastSolid(s[..|s| - 1])
    else Some(s[|s| - 1])
  }

  lemma {:induction false} LastSolidAt(s: Bytes, e: nat)
    requires 0 < e <= |s| && !IsWhitespace(s[e - 1]) && Blank(s[e..])
    ensures LastSolid(s) == Some(s[e - 1])
    decreases |s|
  {
    if e < |s| {
      assert IsWhitespace(s[e..][|s| - 1 - e]);
      var t := s[..|s| - 1];
      assert t[e..] == s[e..][..|s| - 1 - e];
      LastSolidAt(t, e);
    }
  }

  /** A list that only the lax loop takes ends at a comma, or is empty. */
  lemma {:induction false} OpenListEnds(s: Bytes, b: nat) returns (e: nat)
    requires 0 < b <= |s| && (s[b - 1] == '{' || s[b - 1] == ',')
    requires ParseMembers(s, b, OpenEnd).Members? && ParseMembers(s, b, Strict).NoMembers?
    ensures 0 < e <= |s| && (s[e - 1] == ',' || s[e - 1] == '{') && Blank(s[e..])
    decreases |s| - b
  {
    hide ParseMember, ParseMembers, WsEnd;
    MembersUnfold(s, b, OpenEnd);
    MembersUnfold(s, b, Strict);
    if WsEnd(s, b) == |s| {
      WsEndBlank(s, b);
      e := b;
    } else {
      e := OpenListEnds(s, ParseMember(s, b).end + 1);
    }
  }

  /** WHEN A TAKEN MESSAGE IS JSON: a message that a lax loop takes is one closed JSON object
      exactly if its last byte other than whitespace is the closing brace. */
  lemma ClosedExactly(s: Bytes)
    requires DocMembers(s, OpenEnd).Some?
    ensures OpenEnded(s) <==> LastSolid(s) != Some('}')
    ensures !OpenEnded(s) ==> DocMembers(s, Strict) == DocMembers(s, OpenEnd)
  {
    hide ParseMembers, WsEnd;
    var b := BodyStart(s).value;
    if DocMembers(s, Strict).Some? {
      DocStrictIsLax(s, OpenEnd);
      var e := ParseBody(s, b, Strict).end;
      if ParseBody(s, b, Strict).members != [] { ClosingBrace(s, b); }
      WsEndBlank(s, e);
      assert s[e..WsEnd(s, e)] == s[e..];
      LastSolidAt(s, e);
    } else {
      var j := WsEnd(s, b);
      assert !(j < |s| && s[j] == '}');
      if ParseMembers(s, b, Strict).Members? {
        StrictIsLax(s, b, OpenEnd);
        assert false;
      }
      var e := OpenListEnds(s, b);
      LastSolidAt(s, e);
    }
  }

  /** The classifier's accepted messages are JSON exactly if they end in a closing brace. */
  lemma AcceptedIsJson(s: Bytes, limits: RuntimeLimits)
    requires Classify(s, limits).outcome == Accepted
    ensures OpenEnded(s) <==> LastSolid(s) != Some('}')
  {
    hide Classify, DocMembers, GoodEnvelope, OpenEnded;
    ClassifyAccepts(s, limits);
    ClosedExactly(s);
  }

  // ---- the form is really taken ----

  function OpenText(members: seq<Member>): Bytes {
    "{" + MembersText(members) + ","
  }

  lemma {:induction false} OpenMembers(s: Bytes, b: nat, members: seq<Member>)
    requires members != [] && WellFormedMembers(members)
    requires At(s, b, MembersText(members)) && At(s, b + |MembersText(members)|, ",")
    requires |s| == b + |MembersText(members)| + 1
    ensures ParseMembers(s, b, OpenEnd) == Members(members, |s|)
    ensures ParseMembers(s, b, Strict) == NoMembers
    decreases members
  {
    hide At, ParseValue, ParseMember, ParseMembers, WsEnd, MemberText, MembersText, WellFormedMember, WellFormedMembers;
    var m, rest := members[0], members[1..];
    assert members == [m] + rest;
    MembersMore(m, rest);
    AtFirst(s, b + |MembersText(members)|, ",");
    MembersUnfold(s, b, OpenEnd);
    MembersUnfold(s, b, Strict);
    if rest != [] { ListAt(s, b, MemberText(m), MembersText(rest)); }
    MemberComplete(s, b, m);
    SomethingStarts(s, b);
    if rest == [] {
      NothingMore(s);
      assert members == [m] + [];
    } else {
      OpenMembers(s, b + |MemberText(m)| + 1, rest);
    }
  }

  lemma NothingMore(s: Bytes)
    ensures ParseMembers(s, |s|, OpenEnd) == Members([], |s|) && ParseMembers(s, |s|, Strict) == NoMembers
  {
    hide ParseMember, ParseMembers;
    assert WsEnd(s, |s|) == |s|;
    NoMemberAtEnd(s, |s|);
    MembersUnfold(s, |s|, OpenEnd);
    MembersUnfold(s, |s|, Strict);
  }

  lemma SomethingStarts(s: Bytes, b: nat)
    requires b <= |s| && ParseMember(s, b).AMember?
    ensures WsEnd(s, b) < |s|
  {
    hide ParseMember, WsEnd;
    if WsEnd(s, b) == |s| { NoMemberAtEnd(s, b); }
  }

  /** Every list of members, opened and followed by a comma, is taken by the lax loops and is
      no JSON. */
  lemma OpenTaken(members: seq<Member>)
    requires members != [] && WellFormedMembers(members)
    ensures DocMembers(OpenText(members), OpenEnd) == Some(members)
    ensures OpenEnded(OpenText(members))
  {
    var s := OpenText(members);
    AtThree("{", MembersText(members), ",");
    hide ParseMembers, MembersText, At, WellFormedMembers;
    OpenStart(s, members);
    OpenMembers(s, 1, members);
  }

  lemma OpenStart(s: Bytes, members: seq<Member>)
    requires members != [] && WellFormedMembers(members)
    requires 1 < |s| && s[0] == '{' && At(s, 1, MembersText(members))
    ensures BodyStart(s) == Some(1) && WsEnd(s, 1) < |s| && s[WsEnd(s, 1)] != '}' && WsEnd(s, |s|) == |s|
  {
    hide MembersText, At, WellFormedMembers;
    MembersStart(s, 1, members);
  }

  /** `{"jsonrpc":"2.0","method":"ping",` */
  const OPEN_ENVELOPE: seq<Member> :=
    [Member([], "jsonrpc", [], [], Str("2.0"), []), Member([], "method", [], [], Str("ping"), [])]

  lemma OpenEnvelopeGood(limit: nat)
    ensures WellFormedMembers(OPEN_ENVELOPE) && GoodEnvelope(OPEN_ENVELOPE, limit)
  {
    var a, b := OPEN_ENVELOPE[0], OPEN_ENVELOPE[1];
    EnvelopeMembers(limit);
    CountsOfTwo(a, b);
    assert OPEN_ENVELOPE[1..] == [b] && [b][1..] == [];
    hide WellFormedMember, GoodMember, Count;
  }

  lemma EnvelopeMembers(limit: nat)
    ensures forall k :: 0 <= k < 2 ==> WellFormedMember(OPEN_ENVELOPE[k]) && GoodMember(OPEN_ENVELOPE[k], limit)
  {
    hide EscapeFree, UnitsFrom, Fits, WellFormedMember, GoodMember;
    PlainMember("jsonrpc", "2.0");
    PlainMember("method", "ping");
    VersionGood(limit);
    MethodGood(limit);
  }

  lemma VersionGood(limit: nat)
    ensures GoodMember(Member([], "jsonrpc", [], [], Str("2.0"), []), limit)
  {
    PlainNames();
    hide EscapeFree, Fits;
  }

  lemma MethodGood(limit: nat)
    ensures GoodMember(Member([], "method", [], [], Str("ping"), []), limit)
  {
    PlainNames();
    hide EscapeFree, Fits;
  }

  lemma PlainMember(key: Bytes, raw: Bytes)
    requires Plain(key) && Plain(raw)
    ensures WellFormedMember(Member([], key, [], [], Str(raw), []))
  {
    hide IsStringBody;
    PlainIsBody(key);
    PlainIsBody(raw);
  }

  lemma PlainNames()
    ensures EscapeFree("jsonrpc") && EscapeFree("method") && EscapeFree("ping")
  {
  }

  lemma CountsOfTwo(a: Member, b: Member)
    ensures forall key :: Count([a, b], key) == One(a, key) + One(b, key)
  {
    forall key ensures Count([a, b], key) == One(a, key) + One(b, key) {
      CountFirst(a, [b], key);
      CountFirst(b, [], key);
      assert [a] + [b] == [a, b] && [b] + [] == [b];
    }
  }

  /** ACCEPTED BUT NOT JSON: acceptance by the classifier alone does not mean well formed. */
  lemma AcceptedNotJson(limits: RuntimeLimits)
    requires |OpenText(OPEN_ENVELOPE)| <= limits.maxMessageBytes
    ensures Classify(OpenText(OPEN_ENVELOPE), limits).outcome == Accepted
    ensures OpenEnded(OpenText(OPEN_ENVELOPE))
  {
    hide Classify, DocMembers, GoodEnvelope, OpenText, WellFormedMembers, OpenEnded;
    OpenEnvelopeGood(limits.maxNestingDepth);
    OpenTaken(OPEN_ENVELOPE);
    ClassifyAccepts(OpenText(OPEN_ENVELOPE), limits);
  }
}

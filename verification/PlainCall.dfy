/** The plain `tools/call` request for a name, as a message on which the classifier, the extractor
    and the filter can be followed to the end. */
module PlainCall {
  import opened Bytes
  import opened Json
  import opened Scanner
  import opened Documents
  import opened JsonRpc
  import opened Escape
  import ToolCall

  function Field(key: Bytes, value: Value): Member {
    Member([], key, [], [], value, [])
  }

  /** `{"name":"…"}` */
  function NameParams(name: Bytes): Value {
    Obj([], [Field("name", Str(name))])
  }

  /** `"jsonrpc":"2.0","id":"1","method":"tools/call","params":{"name":"…"}` */
  function CallMembers(name: Bytes): seq<Member> {
    [Field("jsonrpc", Str("2.0")), Field("id", Str("1")), Field("method", Str("tools/call")), Field("params", NameParams(name))]
  }

  function CallText(name: Bytes): Bytes {
    DocText([], [], CallMembers(name), [])
  }

  lemma FieldWellFormed(key: Bytes, value: Value)
    requires Plain(key) && WellFormed(value)
    ensures WellFormedMember(Field(key, value))
  {
    hide IsStringBody, WellFormed;
    PlainIsBody(key);
  }

  lemma PlainString(raw: Bytes)
    requires Plain(raw)
    ensures WellFormed(Str(raw)) && Height(Str(raw)) == 1
  {
    hide IsStringBody;
    PlainIsBody(raw);
  }

  lemma NameParamsWellFormed(name: Bytes)
    requires Plain(name)
    ensures WellFormed(NameParams(name)) && Height(NameParams(name)) == 2
  {
    PlainString(name);
    FieldWellFormed("name", Str(name));
    hide WellFormedMember;
    var field := Field("name", Str(name));
    assert [field][1..] == [];
    assert MembersHeight([field]) == 1;
  }

  lemma PlainTexts()
    ensures Plain("jsonrpc") && Plain("id") && Plain("method") && Plain("params")
    ensures Plain("2.0") && Plain("1") && Plain("tools/call")
  {
  }

  lemma TextField(key: Bytes, raw: Bytes)
    requires Plain(key) && Plain(raw)
    ensures WellFormedMember(Field(key, Str(raw)))
  {
    hide WellFormed, WellFormedMember;
    PlainString(raw);
    FieldWellFormed(key, Str(raw));
  }

  lemma CallWellFormed(name: Bytes)
    requires Plain(name)
    ensures WellFormedMembers(CallMembers(name))
  {
    hide WellFormed, WellFormedMember, WellFormedMembers, Field, NameParams, Plain;
    PlainTexts();
    TextField("jsonrpc", "2.0");
    TextField("id", "1");
    TextField("method", "tools/call");
    NameParamsWellFormed(name);
    FieldWellFormed("params", NameParams(name));
    FourWellFormed(Field("jsonrpc", Str("2.0")), Field("id", Str("1")), Field("method", Str("tools/call")),
      Field("params", NameParams(name)));
  }

  lemma FourWellFormed(a: Member, b: Member, c: Member, d: Member)
    requires WellFormedMember(a) && WellFormedMember(b) && WellFormedMember(c) && WellFormedMember(d)
    ensures WellFormedMembers([a, b, c, d])
  {
    hide WellFormedMember, WellFormedMembers;
    assert [a] + [b, c, d] == [a, b, c, d] && [b] + [c, d] == [b, c, d] && [c] + [d] == [c, d];
    WellFormedOne(d);
    WellFormedMore(c, [d]);
    WellFormedMore(b, [c, d]);
    WellFormedMore(a, [b, c, d]);
  }

  lemma CallParses(name: Bytes)
    requires Plain(name)
    ensures DocMembers(CallText(name), OpenEnd) == Some(CallMembers(name))
  {
    hide WellFormedMembers, DocMembers, DocText, CallMembers;
    CallWellFormed(name);
    assert WellFormed(Obj([], CallMembers(name)));
    DocComplete([], [], CallMembers(name), []);
    DocStrictIsLax(CallText(name), OpenEnd);
  }

  lemma CountsOfFour(a: Member, b: Member, c: Member, d: Member, key: Bytes)
    ensures Count([a, b, c, d], key) == One(a, key) + One(b, key) + One(c, key) + One(d, key)
    ensures Find([a, b, c, d], key) ==
            if a.key == key then Some(a.value) else if b.key == key then Some(b.value)
            else if c.key == key then Some(c.value) else if d.key == key then Some(d.value) else None
  {
    hide One, Count, Find;
    assert [a] + [b, c, d] == [a, b, c, d] && [b] + [c, d] == [b, c, d] && [c] + [d] == [c, d] && [d] + [] == [d];
    CountFirst(a, [b, c, d], key);
    CountFirst(b, [c, d], key);
    CountFirst(c, [d], key);
    CountFirst(d, [], key);
    CountNothing(key);
  }

  lemma CountNothing(key: Bytes)
    ensures Count([], key) == 0 && Find([], key) == None
  {
  }

  lemma PlainWords()
    ensures EscapeFree("jsonrpc") && EscapeFree("id") && EscapeFree("method") && EscapeFree("params")
    ensures EscapeFree("tools/call") && EscapeFree("name")
  {
  }

  lemma FieldGood(key: Bytes, value: Value, limit: nat)
    requires EscapeFree(key) && 1 + Height(value) <= limit + 1
    requires key == "jsonrpc" ==> value == Str("2.0")
    requires key == "method" ==> value == Str("tools/call")
    requires key == "id" ==> value == Str("1")
    ensures GoodMember(Field(key, value), limit) && ToolCall.GoodTop(Field(key, value), limit)
  {
    PlainWords();
    hide EscapeFree, Height;
  }

  lemma CallGood(name: Bytes, limit: nat)
    requires Plain(name) && limit >= 2
    ensures GoodMembers(CallMembers(name), limit)
    ensures ToolCall.GoodTops(CallMembers(name), limit)
  {
    hide EscapeFree, Height, GoodMember, ToolCall.GoodTop, WellFormed, NameParams, Field;
    PlainWords();
    NameParamsWellFormed(name);
    PlainString("2.0");
    PlainString("1");
    PlainString("tools/call");
    FieldGood("jsonrpc", Str("2.0"), limit);
    FieldGood("id", Str("1"), limit);
    FieldGood("method", Str("tools/call"), limit);
    FieldGood("params", NameParams(name), limit);
  }

  /** The classifier accepts the message as a `tools/call` request. */
  lemma CallAccepted(name: Bytes, limits: RuntimeLimits)
    requires Plain(name) && |CallText(name)| <= limits.maxMessageBytes && limits.maxNestingDepth >= 2
    ensures var envelope := Classify(CallText(name), limits);
            envelope.outcome == Accepted && envelope.kind == Request && envelope.methodName == "tools/call"
  {
    hide Classify, DocMembers, GoodMembers, CallText, Count, Find, CallMembers;
    CallParses(name);
    CallGood(name, limits.maxNestingDepth);
    CallCounts(name);
    ClassifyAccepts(CallText(name), limits);
  }

  lemma CallCounts(name: Bytes)
    ensures var ms := CallMembers(name);
            && Count(ms, "jsonrpc") == 1 && Count(ms, "id") == 1 && Count(ms, "method") == 1 && Count(ms, "params") == 1
            && Count(ms, "result") == 0 && Count(ms, "error") == 0
            && Find(ms, "method") == Some(Str("tools/call")) && Find(ms, "params") == Some(NameParams(name))
  {
    var ms := CallMembers(name);
    assert ms == [ms[0], ms[1], ms[2], ms[3]];
    hide Count, Find;
    CountsOfFour(ms[0], ms[1], ms[2], ms[3], "jsonrpc");
    CountsOfFour(ms[0], ms[1], ms[2], ms[3], "id");
    CountsOfFour(ms[0], ms[1], ms[2], ms[3], "method");
    CountsOfFour(ms[0], ms[1], ms[2], ms[3], "params");
    CountsOfFour(ms[0], ms[1], ms[2], ms[3], "result");
    CountsOfFour(ms[0], ms[1], ms[2], ms[3], "error");
  }

  lemma ParamsExtract(name: Bytes, limit: nat)
    requires Plain(name)
    ensures ToolCall.ParamsOf(NameParams(name), limit) == Some(ToolCall.ToolCall(name, []))
  {
    assert EscapeFree(name);
    assert EscapeFree("name");
    var field := Field("name", Str(name));
    hide EscapeFree, Fits;
    ToolCall.TakeParamsFirst(ToolCall.Params(None, None), field, [], limit);
  }

  /** The extractor takes the name as it stands, the empty name included. */
  lemma CallExtracts(name: Bytes, limits: RuntimeLimits)
    requires Plain(name) && |CallText(name)| <= limits.maxMessageBytes && limits.maxNestingDepth >= 2
    ensures ToolCall.Extract(CallText(name), limits) == Some(ToolCall.ToolCall(name, []))
  {
    hide ToolCall.Extract, DocMembers, ToolCall.GoodTops, ToolCall.ParamsOf, CallText, CallMembers, Count, Find, NameParams;
    CallParses(name);
    CallGood(name, limits.maxNestingDepth);
    CallCounts(name);
    ParamsExtract(name, limits.maxNestingDepth);
    ToolCall.ExtractMeaning(CallText(name), limits);
  }

  /** EMPTY NAME: contrary to the comment on the extracted name, extraction succeeds on
      `…"params":{"name":""}}` with the empty name. */
  lemma EmptyNameExtracted(limits: RuntimeLimits)
    requires |CallText([])| <= limits.maxMessageBytes && limits.maxNestingDepth >= 2
    ensures ToolCall.Extract(CallText([]), limits).Some?
    ensures ToolCall.Extract(CallText([]), limits).value.name == []
  {
    hide ToolCall.Extract, CallText;
    CallExtracts([], limits);
  }
}

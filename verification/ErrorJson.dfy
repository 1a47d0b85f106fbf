/** The error responses of the relay are JSON-RPC responses (src/linux_stdio_relay.cpp,
    `append_json_rpc_error`): one line each, a closed JSON document with the id they answer, a
    code and a text, which the classifier accepts as a response. */
module ErrorJson {
  import opened Bytes
  import opened Json
  import opened Scanner
  import opened ScannerGrammar
  import opened Documents
  import opened JsonRpc
  import opened Policy
  import opened Filter
  import opened FilterRuns
  import opened ErrorResponses
  import opened Escape
  import opened PlainCall
  import ToolCall

  // ---- the document ----

  /** `{"code":…,"message":"…"}` */
  function ErrorObject(code: Bytes, text: Bytes): Value {
    Obj([], [Field("code", Num(code)), Field("message", Str(text))])
  }

  /** `"jsonrpc":"2.0","id":…,"error":{…}` */
  function ErrorMembers(id: Value, code: Bytes, text: Bytes): seq<Member> {
    [Field("jsonrpc", Str("2.0")), Field("id", id), Field("error", ErrorObject(code, text))]
  }

  lemma FieldText(key: Bytes, value: Value)
    ensures MemberText(Field(key, value)) == Quoted(key) + ":" + Text(value)
  {
    hide Text;
  }

  lemma ListOfTwo(a: Member, b: Member)
    ensures MembersText([a, b]) == MemberText(a) + "," + MemberText(b)
    ensures WellFormedMembers([a, b]) <==> WellFormedMember(a) && WellFormedMember(b)
  {
    hide MemberText, MembersText, WellFormedMember, WellFormedMembers;
    assert [a] + [b] == [a, b];
    MembersMore(a, [b]);
    MembersOne(b);
  }

  lemma ObjectOfTwo(a: Member, b: Member)
    ensures Text(Obj([], [a, b])) == "{" + MemberText(a) + "," + MemberText(b) + "}"
    ensures WellFormed(Obj([], [a, b])) <==> WellFormedMember(a) && WellFormedMember(b)
  {
    hide MemberText, MembersText, WellFormedMember, WellFormedMembers;
    ListOfTwo(a, b);
  }

  lemma HeightOfTwo(a: Member, b: Member)
    requires Height(a.value) == Height(b.value) == 1
    ensures Height(Obj([], [a, b])) == 2
  {
    assert [a, b][1..] == [b] && [b][1..] == [];
    assert MembersHeight([b]) == 1;
    assert MembersHeight([a, b]) == 1;
  }

  lemma ListOfThree(a: Member, b: Member, c: Member)
    ensures MembersText([a, b, c]) == MemberText(a) + "," + (MemberText(b) + "," + MemberText(c))
    ensures WellFormedMembers([a, b, c]) <==> WellFormedMember(a) && WellFormedMember(b) && WellFormedMember(c)
  {
    hide MemberText, MembersText, WellFormedMember, WellFormedMembers;
    assert [a] + [b, c] == [a, b, c];
    ListOfTwo(b, c);
    MembersMore(a, [b, c]);
  }

  lemma DocumentOfThree(a: Member, b: Member, c: Member)
    ensures DocText([], [], [a, b, c], []) == "{" + MemberText(a) + "," + MemberText(b) + "," + MemberText(c) + "}"
    ensures WellFormed(Obj([], [a, b, c])) <==> WellFormedMember(a) && WellFormedMember(b) && WellFormedMember(c)
  {
    hide MemberText, MembersText, WellFormedMember, WellFormedMembers;
    ListOfThree(a, b, c);
    var t := MembersText([a, b, c]);
    assert [] + ("{" + [] + t + "}") + [] == "{" + t + "}";
    GroupThree(MemberText(a), MemberText(b), MemberText(c));
  }

  lemma GroupThree(a: Bytes, b: Bytes, c: Bytes)
    ensures "{" + (a + "," + (b + "," + c)) + "}" == "{" + a + "," + b + "," + c + "}"
  {
  }

  lemma FixedHead()
    ensures ERROR_HEAD == "{" + (Quoted("jsonrpc") + ":" + Quoted("2.0")) + "," + (Quoted("id") + ":")
  {
  }

  lemma FixedCode()
    ensures ERROR_CODE == "," + (Quoted("error") + ":") + "{" + (Quoted("code") + ":")
  {
  }

  lemma FixedMessage()
    ensures ERROR_MESSAGE == "," + (Quoted("message") + ":") + "\""
    ensures ERROR_TAIL == "\"" + "}" + "}" + "\n"
  {
  }

  lemma ObjectText(code: Bytes, text: Bytes)
    ensures Text(ErrorObject(code, text)) ==
            "{" + (Quoted("code") + ":") + code + "," + (Quoted("message") + ":") + "\"" + text + "\"" + "}"
  {
    ObjectOfTwo(Field("code", Num(code)), Field("message", Str(text)));
    FieldText("code", Num(code));
    FieldText("message", Str(text));
    hide Field, MemberText;
  }

  lemma DocumentText(id: Value, code: Bytes, text: Bytes)
    ensures DocText([], [], ErrorMembers(id, code, text), []) ==
            "{" + (Quoted("jsonrpc") + ":" + Quoted("2.0")) + "," + (Quoted("id") + ":" + Text(id)) + ","
            + (Quoted("error") + ":" + Text(ErrorObject(code, text))) + "}"
  {
    hide Text, DocText, MemberText, Field, ErrorObject;
    DocumentOfThree(Field("jsonrpc", Str("2.0")), Field("id", id), Field("error", ErrorObject(code, text)));
    FieldText("jsonrpc", Str("2.0"));
    FieldText("id", id);
    FieldText("error", ErrorObject(code, text));
    assert Text(Str("2.0")) == Quoted("2.0") by { StringText("2.0"); }
  }

  lemma StringText(raw: Bytes)
    ensures Text(Str(raw)) == Quoted(raw)
  {
  }

  /** Brackets do not matter in the pieces of the response. */
  lemma Assemble(a: Bytes, i: Bytes, id: Bytes, e: Bytes, c: Bytes, code: Bytes, m: Bytes, text: Bytes)
    ensures ("{" + a + "," + i) + id + ("," + e + "{" + c) + code + ("," + m + "\"") + text + ("\"" + "}" + "}" + "\n")
         == "{" + a + "," + (i + id) + "," + (e + ("{" + c + code + "," + m + "\"" + text + "\"" + "}")) + "}" + "\n"
  {
  }

  lemma TextIs(id: Value, code: int, text: Bytes)
    ensures ErrorText(Text(id), code, text) == DocText([], [], ErrorMembers(id, CodeText(code), text), []) + "\n"
  {
    hide Text, DocText, CodeText, ErrorMembers, ErrorObject, Quoted;
    hide ERROR_HEAD, ERROR_CODE, ERROR_MESSAGE, ERROR_TAIL;
    DocumentText(id, CodeText(code), text);
    ObjectText(CodeText(code), text);
    FixedHead();
    FixedCode();
    FixedMessage();
    Assemble(Quoted("jsonrpc") + ":" + Quoted("2.0"), Quoted("id") + ":", Text(id), Quoted("error") + ":",
      Quoted("code") + ":", CodeText(code), Quoted("message") + ":", text);
  }

  // ---- the number ----

  /** The spelling of a code is a number of the grammar: its sign and the digits of its size. */
  lemma CodeIsNumber(code: int) returns (digits: Bytes)
    ensures Digits(digits) && DecimalValue(digits) == (if code < 0 then -code else code)
    ensures CodeText(code) == NumberText(Number(code < 0, digits, None, None))
    ensures ValidNumber(Number(code < 0, digits, None, None)) && IsNumber(CodeText(code))
  {
    var size := if code < 0 then -code else code;
    digits := Decimal(size);
    DecimalRoundTrip(size);
    LeadingDigit(size);
    var n := Number(code < 0, digits, None, None);
    hide Decimal;
    assert ValidNumber(n);
    assert digits + [] + [] == digits && [] + digits == digits;
    assert NumberText(n) == CodeText(code);
  }

  lemma {:induction false} LeadingDigit(n: nat)
    ensures |Decimal(n)| > 0 && (Decimal(n)[0] == '0' ==> n == 0 && |Decimal(n)| == 1)
  {
    if n >= 10 { LeadingDigit(n / 10); }
  }

  // ---- the parsed document ----

  lemma MembersWellFormed(id: Value, code: Bytes, text: Bytes)
    requires WellFormed(id) && IsNumber(code) && Plain(text)
    ensures WellFormed(Obj([], ErrorMembers(id, code, text)))
  {
    hide WellFormed, WellFormedMember, Field, Plain, IsNumber;
    KeysPlain();
    TextField("jsonrpc", "2.0");
    FieldWellFormed("id", id);
    TextField("message", text);
    assert WellFormed(Num(code)) by { NumberWellFormed(code); }
    FieldWellFormed("code", Num(code));
    ObjectOfTwo(Field("code", Num(code)), Field("message", Str(text)));
    FieldWellFormed("error", ErrorObject(code, text));
    DocumentOfThree(Field("jsonrpc", Str("2.0")), Field("id", id), Field("error", ErrorObject(code, text)));
  }

  lemma NumberWellFormed(code: Bytes)
    requires IsNumber(code)
    ensures WellFormed(Num(code))
  {
    hide IsNumber;
  }

  lemma KeysPlain()
    ensures Plain("jsonrpc") && Plain("2.0") && Plain("id") && Plain("error") && Plain("code") && Plain("message")
  {
  }

  lemma KeysEscapeFree()
    ensures EscapeFree("jsonrpc") && EscapeFree("id") && EscapeFree("error")
  {
  }

  lemma CountsOfThree(a: Member, b: Member, c: Member, key: Bytes)
    ensures Count([a, b, c], key) == One(a, key) + One(b, key) + One(c, key)
    ensures Find([a, b, c], key) ==
            if a.key == key then Some(a.value) else if b.key == key then Some(b.value)
            else if c.key == key then Some(c.value) else None
  {
    hide One, Count, Find;
    assert [a] + [b, c] == [a, b, c] && [b] + [c] == [b, c] && [c] + [] == [c];
    CountFirst(a, [b, c], key);
    CountFirst(b, [c], key);
    CountFirst(c, [], key);
    CountNothing(key);
  }

  lemma ErrorEnvelope(id: Value, code: Bytes, text: Bytes, limit: nat)
    requires IsId(id) && limit >= 2
    ensures GoodEnvelope(ErrorMembers(id, code, text), limit)
    ensures Find(ErrorMembers(id, code, text), "id") == Some(id)
    ensures Count(ErrorMembers(id, code, text), "method") == 0
  {
    hide Count, Find, Height, EscapeFree;
    var ms := ErrorMembers(id, code, text);
    assert ms == [ms[0], ms[1], ms[2]];
    CountsOfThree(ms[0], ms[1], ms[2], "jsonrpc");
    CountsOfThree(ms[0], ms[1], ms[2], "method");
    CountsOfThree(ms[0], ms[1], ms[2], "id");
    CountsOfThree(ms[0], ms[1], ms[2], "result");
    CountsOfThree(ms[0], ms[1], ms[2], "error");
    KeysEscapeFree();
    ScalarHeight(Num(code));
    ScalarHeight(Str(text));
    HeightOfTwo(Field("code", Num(code)), Field("message", Str(text)));
  }

  lemma ScalarHeight(v: Value)
    requires v.Num? || v.Str?
    ensures Height(v) == 1
  {
  }

  /** ERROR RESPONSES ARE RESPONSES: whatever the id, the code and the text, what is written is one
      JSON document and a newline. Its members are the version, the id and an error object with
      the code as a number of that value and the text as a string; and within its limits the
      classifier accepts it as a response with that id. */
  lemma ErrorIsResponse(id: Value, code: int, text: Bytes, limits: RuntimeLimits)
    returns (document: Bytes, members: seq<Member>, error: Value, digits: Bytes)
    requires WellFormed(id) && IsId(id) && Plain(text)
    ensures ErrorText(Text(id), code, text) == document + "\n"
    ensures DocMembers(document, Strict) == Some(members) && |members| == 3
    ensures Find(members, "jsonrpc") == Some(Str("2.0")) && Find(members, "id") == Some(id)
    ensures Find(members, "error") == Some(error) && error.Obj? && |error.members| == 2
    ensures Find(error.members, "message") == Some(Str(text))
    ensures Find(error.members, "code") == Some(Num(NumberText(Number(code < 0, digits, None, None))))
    ensures Digits(digits) && DecimalValue(digits) == if code < 0 then -code else code
    ensures |document| <= limits.maxMessageBytes && limits.maxNestingDepth >= 2 ==>
              Classify(document, limits) == Envelope(Response, Text(id), [], Accepted)
  {
    hide Text, Classify, ErrorText, DocText, DocMembers, WellFormed, CodeText, NumberText, Digits, IsNumber, Count, Find;
    hide GoodEnvelope, Plain, IsId;
    digits := CodeIsNumber(code);
    members := ErrorMembers(id, CodeText(code), text);
    document := DocText([], [], members, []);
    error := ErrorObject(CodeText(code), text);
    TextIs(id, code, text);
    MembersWellFormed(id, CodeText(code), text);
    DocComplete([], [], members, []);
    ErrorFields(id, CodeText(code), text);
    if |document| <= limits.maxMessageBytes && limits.maxNestingDepth >= 2 {
      ErrorEnvelope(id, CodeText(code), text, limits.maxNestingDepth);
      DocStrictIsLax(document, OpenEnd);
      ClassifyAccepts(document, limits);
      AcceptedResponse(document, limits);
    }
  }

  lemma ErrorFields(id: Value, code: Bytes, text: Bytes)
    ensures var members, error := ErrorMembers(id, code, text), ErrorObject(code, text);
            && |members| == 3 && |error.members| == 2
            && Find(members, "jsonrpc") == Some(Str("2.0")) && Find(members, "id") == Some(id)
            && Find(members, "error") == Some(error)
            && Find(error.members, "code") == Some(Num(code)) && Find(error.members, "message") == Some(Str(text))
  {
    hide Count, Find;
    var ms := ErrorMembers(id, code, text);
    assert ms == [ms[0], ms[1], ms[2]];
    CountsOfThree(ms[0], ms[1], ms[2], "jsonrpc");
    CountsOfThree(ms[0], ms[1], ms[2], "id");
    CountsOfThree(ms[0], ms[1], ms[2], "error");
    var a, b := Field("code", Num(code)), Field("message", Str(text));
    assert [a] + [b] == [a, b] && [b] + [] == [b];
    CountFirst(a, [b], "code");
    CountFirst(a, [b], "message");
    CountFirst(b, [], "message");
  }

  lemma AcceptedResponse(s: Bytes, limits: RuntimeLimits)
    requires Classify(s, limits).outcome == Accepted && Classify(s, limits).kind == Response
    ensures Classify(s, limits).methodName == []
  {
    hide ParseMembers, WsEnd, Gather, MemberPrefix;
  }

  // ---- one line ----

  /** No control character, hence no newline. */
  ghost predicate OneLine(t: Bytes) {
    forall k :: 0 <= k < |t| ==> t[k] >= ' '
  }

  lemma OneLineConcat(a: Bytes, b: Bytes)
    ensures OneLine(a + b) <==> OneLine(a) && OneLine(b)
  {
    var t := a + b;
    assert forall k :: 0 <= k < |a| ==> t[k] == a[k];
    assert forall k :: 0 <= k < |b| ==> t[|a| + k] == b[k];
  }

  lemma {:induction false} BodyOneLine(t: Bytes, i: nat)
    requires i <= |t| && UnitsFrom(t, i)
    ensures forall k :: i <= k < |t| ==> t[k] >= ' '
    decreases |t| - i
  {
    if i < |t| { BodyOneLine(t, i + UnitSize(t, i)); }
  }

  lemma DigitsOneLine(t: Bytes)
    ensures Digits(t) ==> OneLine(t)
  {
  }

  lemma NumberOneLine(n: Number)
    requires ValidNumber(n)
    ensures OneLine(NumberText(n))
  {
    hide Digits, OneLine;
    var sign := if n.minus then "-" else [];
    SignOneLine();
    DigitsOneLine(n.whole);
    OneLineConcat(sign, n.whole);
    if n.fraction.Some? {
      DigitsOneLine(n.fraction.value);
      OneLineConcat(".", n.fraction.value);
    }
    if n.exponent.Some? { ExponentOneLine(n.exponent.value); }
    OneLineConcat(sign + n.whole, FractionText(n.fraction));
    OneLineConcat(sign + n.whole + FractionText(n.fraction), ExponentText(n.exponent));
  }

  lemma SignOneLine()
    ensures OneLine([]) && OneLine("+") && OneLine("-") && OneLine(".") && OneLine("e") && OneLine("E")
  {
  }

  lemma ExponentOneLine(x: Exponent)
    requires ValidExponent(x)
    ensures OneLine([x.mark] + x.sign + x.digits)
  {
    hide Digits, OneLine;
    SignOneLine();
    DigitsOneLine(x.digits);
    assert [x.mark] == "e" || [x.mark] == "E";
    OneLineConcat([x.mark], x.sign);
    OneLineConcat([x.mark] + x.sign, x.digits);
  }

  /** The text of an id is one line. */
  lemma IdOneLine(id: Value)
    requires WellFormed(id) && IsId(id)
    ensures OneLine(Text(id))
  {
    hide ValidNumber, NumberText;
    match id {
      case Str(raw) => BodyOneLine(raw, 0);
      case Num(raw) =>
        var n :| ValidNumber(n) && NumberText(n) == raw;
        NumberOneLine(n);
      case Word(_) =>
    }
  }

  lemma FixedOneLine()
    ensures OneLine(ERROR_HEAD) && OneLine(ERROR_CODE) && OneLine(ERROR_MESSAGE) && OneLine("\"}}")
    ensures ERROR_TAIL == "\"}}" + "\n"
  {
  }

  lemma PlainOneLine(text: Bytes)
    ensures Plain(text) ==> OneLine(text)
  {
  }

  lemma CodeOneLine(code: int)
    ensures OneLine(CodeText(code))
  {
    hide OneLine, Digits;
    var digits := CodeIsNumber(code);
    hide CodeText, NumberText;

    NumberOneLine(Number(code < 0, digits, None, None));
  }

  /** The newline is the last byte and the only one. */
  lemma ErrorOneLine(id: Value, code: int, text: Bytes)
    requires WellFormed(id) && IsId(id) && Plain(text)
    ensures exists start :: OneLine(start) && ErrorText(Text(id), code, text) == start + "\n"
  {
    hide Text, WellFormed, IsId, OneLine, CodeText, ERROR_HEAD, ERROR_CODE, ERROR_MESSAGE, ERROR_TAIL, Plain;
    IdOneLine(id);
    CodeOneLine(code);
    PlainOneLine(text);
    FixedOneLine();
    var a := ERROR_HEAD + Text(id);
    var b := a + ERROR_CODE;
    var c := b + CodeText(code);
    var d := c + ERROR_MESSAGE;
    OneLineConcat(ERROR_HEAD, Text(id));
    OneLineConcat(a, ERROR_CODE);
    OneLineConcat(b, CodeText(code));
    OneLineConcat(c, ERROR_MESSAGE);
    OneLineConcat(d, text);
    OneLineConcat(d + text, "\"}}");
    Associate(d + text, "\"}}", "\n");
  }

  // ---- applied to the filter ----

  lemma DeniedPlain()
    ensures Plain(DENIED_TOOL_TEXT)
  {
  }

  lemma InvalidPlain()
    ensures Plain(INVALID_PARAMS_TEXT)
  {
  }

  lemma CapacityPlain()
    ensures Plain(CORRELATION_CAPACITY_TEXT)
  {
  }

  lemma ReplyParts(message: Bytes, ids: seq<Bytes>, config: Config, policy: PolicyTable) returns (id: Value)
    requires DecideClient(message, ids, config, policy).Respond?
    ensures var Respond(idText, code, text) := DecideClient(message, ids, config, policy);
            && WellFormed(id) && IsId(id) && idText == Text(id) == Classify(message, config.runtime).id
            && Plain(text) && code < 0
  {
    hide Classify, ToolCall.Extract, Text, WellFormed, AddStatus, Callable, Plain, IsId;
    hide DENIED_TOOL_TEXT, INVALID_PARAMS_TEXT, CORRELATION_CAPACITY_TEXT;
    RespondCases(message, ids, config, policy);
    DeniedPlain();
    InvalidPlain();
    CapacityPlain();
    id := IdIsValue(message, config.runtime);
  }

  /** Every answer of the filter is written as one line with such a document, and whoever has the
      limits for it takes it as the response to the message's id. */
  lemma ReplyIsResponse(message: Bytes, ids: seq<Bytes>, config: Config, policy: PolicyTable, limits: RuntimeLimits)
    returns (document: Bytes, error: Value, digits: Bytes)
    requires DecideClient(message, ids, config, policy).Respond?
    ensures var Respond(id, code, text) := DecideClient(message, ids, config, policy);
            && ErrorText(id, code, text) == document + "\n" && OneLine(document)
            && DocMembers(document, Strict).Some?
            && Find(DocMembers(document, Strict).value, "error") == Some(error) && error.Obj?
            && Find(error.members, "message") == Some(Str(text))
            && Find(error.members, "code") == Some(Num(NumberText(Number(true, digits, None, None))))
            && Digits(digits) && DecimalValue(digits) == -code
            && (|document| <= limits.maxMessageBytes && limits.maxNestingDepth >= 2 ==>
                 Classify(document, limits) == Envelope(Response, Classify(message, config.runtime).id, [], Accepted))
  {
    hide *;
    var id := ReplyParts(message, ids, config, policy);
    var Respond(_, code, text) := DecideClient(message, ids, config, policy);
    var members;
    document, members, error, digits := ErrorIsResponse(id, code, text, limits);
    ErrorOneLine(id, code, text);
    var start :| OneLine(start) && ErrorText(Text(id), code, text) == start + "\n";
    assert start == (start + "\n")[..|start|] && document == (document + "\n")[..|document|];
  }
}

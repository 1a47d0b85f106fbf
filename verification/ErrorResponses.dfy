/** The JSON-RPC error responses the relay writes itself (src/linux_stdio_relay.cpp,
    `append_json_rpc_error`) and how large they can get compared with the message that
    caused them. */
module ErrorResponses {
  import opened Bytes
  import opened Json
  import opened Scanner
  import opened ScannerGrammar
  import opened Documents
  import opened JsonRpc
  import opened Policy
  import opened Filter
  import opened Rewriter

  const ERROR_HEAD: Bytes := "{\"jsonrpc\":\"2.0\",\"id\":"
  const ERROR_CODE: Bytes := ",\"error\":{\"code\":"
  const ERROR_MESSAGE: Bytes := ",\"message\":\""
  const ERROR_TAIL: Bytes := "\"}}\n"

  function CodeText(code: int): Bytes {
    if code < 0 then "-" + Decimal(-code) else Decimal(code)
  }

  function ErrorText(id: Bytes, code: int, text: Bytes): Bytes {
    ERROR_HEAD + id + ERROR_CODE + CodeText(code) + ERROR_MESSAGE + text + ERROR_TAIL
  }

  // ---- the message that caused it is not small ----

  /** Bytes that the members recorded in `f` take up at least. */
  function Cost(f: Fields): nat {
    (if f.methodName.Some? then 11 + |f.methodName.value| else 0) + (if f.id.Some? then 5 + |f.id.value| else 0)
  }

  lemma TakeCost(f: Fields, m: Member, limit: nat)
    requires Take(f, m, limit).Some?
    ensures Cost(Take(f, m, limit).value) <= Cost(f) + |MemberText(m)|
  {
    hide Text, Fits, EscapeFree, IsId, MemberText;
    MemberSize(m);
    if m.key == "method" { StrSize(m.value); }
  }

  lemma MemberSize(m: Member)
    ensures |MemberText(m)| == |m.pre| + |m.mid| + |m.gap| + |m.post| + |m.key| + 3 + |Text(m.value)|
  {
    hide Text;
  }

  lemma StrSize(v: Value)
    requires v.Str?
    ensures |Text(v)| == |v.raw| + 2
  {
  }

  lemma {:induction false} GatherCost(s: Bytes, b: nat, f: Fields, limit: nat)
    requires b <= |s|
    ensures Cost(Gather(f, MemberPrefix(s, b), limit).0) <= Cost(f) + (|s| - b)
    decreases |s| - b
  {
    hide ParseMember, Take, MemberText, Cost;
    if ParseMember(s, b).AMember? {
      var AMember(m, e) := ParseMember(s, b);
      var rest := if e < |s| && s[e] == ',' then MemberPrefix(s, e + 1) else [];
      assert MemberPrefix(s, b) == [m] + rest;
      GatherFirst(f, m, rest, limit);
      MemberLength(s, b);
      if Take(f, m, limit).Some? {
        var g := Take(f, m, limit).value;
        TakeCost(f, m, limit);
        if e < |s| && s[e] == ',' {
          GatherCost(s, e + 1, g, limit);
        } else {
          NothingGathered(g, limit);
        }
      }
    } else {
      assert MemberPrefix(s, b) == [];
      NothingGathered(f, limit);
    }
  }

  /** A message with a method and an id is at least as long as the two members. */
  lemma EnvelopeSize(s: Bytes, limits: RuntimeLimits)
    ensures var envelope := Classify(s, limits);
            envelope.id != [] && envelope.methodName != [] ==>
              |s| >= 17 + |envelope.id| + |envelope.methodName|
  {
    hide Gather, ParseMembers, WsEnd, MemberPrefix;
    if BodyStart(s).Some? {
      var b := BodyStart(s).value;
      GatherCost(s, b, NONE_SEEN, limits.maxNestingDepth);
    }
  }

  lemma CodeSizes()
    ensures |CodeText(DENIED_TOOL_CODE)| == |CodeText(INVALID_PARAMS_CODE)| == |CodeText(CORRELATION_CAPACITY_CODE)| == 6
  {
    DecimalSize(32001);
    DecimalSize(32602);
    DecimalSize(32002);
  }

  lemma DecimalSize(n: nat)
    requires 10000 <= n < 100000
    ensures |Decimal(n)| == 5
  {
    assert 1000 <= n / 10 < 10000;
    assert 100 <= n / 10 / 10 < 1000;
    assert 10 <= n / 10 / 10 / 10 < 100;
    assert 1 <= n / 10 / 10 / 10 / 10 < 10;
    assert |Decimal(n / 10 / 10 / 10 / 10)| == 1;
    assert |Decimal(n / 10 / 10 / 10)| == 2;
    assert |Decimal(n / 10 / 10)| == 3;
    assert |Decimal(n / 10)| == 4;
  }

  /** EXPANSION PER MESSAGE: an error response is at most four times the message line that
      caused it, and at most 512 bytes longer than the message. */
  lemma ErrorExpansion(message: Bytes, ids: seq<Bytes>, config: Config, policy: PolicyTable)
    requires DecideClient(message, ids, config, policy).Respond?
    ensures var Respond(id, code, text) := DecideClient(message, ids, config, policy);
            |ErrorText(id, code, text)| <= 4 * (|message| + 1) && |ErrorText(id, code, text)| <= |message| + 512
  {
    var Respond(id, code, text) := DecideClient(message, ids, config, policy);
    hide Classify, CodeText;
    EnvelopeSize(message, config.runtime);
    CodeSizes();
    RespondCases(message, ids, config, policy);
    assert |ErrorText(id, code, text)| == |id| + 55 + 6 + |text|;
  }

  lemma RespondCases(message: Bytes, ids: seq<Bytes>, config: Config, policy: PolicyTable)
    requires DecideClient(message, ids, config, policy).Respond?
    ensures var Respond(id, code, text) := DecideClient(message, ids, config, policy);
            var envelope := Classify(message, config.runtime);
            && id == envelope.id && id != [] && |envelope.methodName| == 10
            && |text| <= 41
            && code in {DENIED_TOOL_CODE, INVALID_PARAMS_CODE, CORRELATION_CAPACITY_CODE}
  {
    hide Classify, ToolCall.Extract, AddStatus, Callable;
    RequestHasId(message, config.runtime);
  }

  /** A request's id text is never empty. */
  lemma RequestHasId(s: Bytes, limits: RuntimeLimits)
    ensures Classify(s, limits).kind == Request ==> Classify(s, limits).id != []
  {
    hide ParseMembers, WsEnd, Gather;
    if BodyStart(s).Some? {
      var b := BodyStart(s).value;
      var r := Gather(NONE_SEEN, MemberPrefix(s, b), limits.maxNestingDepth);
      IdTextNonEmpty(s, b, NONE_SEEN, limits.maxNestingDepth);
    }
  }

  lemma {:induction false} IdTextNonEmpty(s: Bytes, b: nat, f: Fields, limit: nat)
    requires b <= |s| && (f.id.Some? ==> f.id.value != [])
    ensures var g := Gather(f, MemberPrefix(s, b), limit).0; g.id.Some? ==> g.id.value != []
    decreases |s| - b
  {
    hide ParseMember, Take;
    if ParseMember(s, b).AMember? {
      var AMember(m, e) := ParseMember(s, b);
      var rest := if e < |s| && s[e] == ',' then MemberPrefix(s, e + 1) else [];
      assert MemberPrefix(s, b) == [m] + rest;
      GatherFirst(f, m, rest, limit);
      MemberSound(s, b);
      TakeIdText(f, m, limit);
      if Take(f, m, limit).Some? {
        var g := Take(f, m, limit).value;
        if e < |s| && s[e] == ',' {
          IdTextNonEmpty(s, e + 1, g, limit);
        } else {
          NothingGathered(g, limit);
        }
      }
    } else {
      assert MemberPrefix(s, b) == [];
      NothingGathered(f, limit);
    }
  }

  lemma TakeIdText(f: Fields, m: Member, limit: nat)
    requires WellFormedMember(m) && (f.id.Some? ==> f.id.value != [])
    ensures var t := Take(f, m, limit); t.Some? && t.value.id.Some? ==> t.value.id.value != []
  {
    hide Text, Fits;
    TextStart(m.value);
  }
}

/** `JsonRpcEnvelopeClassifier` (src/json_rpc_envelope.cpp).

    A rejected envelope keeps the id and the method read before the rejection, because the
    filter answers with them. `Classify` says what is kept as a fold over the members that
    were read completely; `ClassifyAccepts` says which messages are accepted in terms of the
    whole member list, `RejectedKeeps` and `RejectedReads` what a rejected message still says. */
module JsonRpc {
  import opened Bytes
  import opened Json
  import opened Scanner
  import opened ScannerGrammar
  import opened Documents

  datatype RuntimeLimits = RuntimeLimits(maxMessageBytes: nat, maxNestingDepth: nat, maxPendingToolsList: nat)

  datatype Kind = Invalid | Request | Notification | Response

  /** Only an oversized message is told apart from the other rejections. */
  datatype Outcome = Accepted | TooLarge | Rejected

  datatype Envelope = Envelope(kind: Kind, id: Bytes, methodName: Bytes, outcome: Outcome)

  /** The members seen so far: the text of the id, the method, and the other three flags. */
  datatype Fields = Fields(
    jsonrpc: bool, methodName: Option<Bytes>, id: Option<Bytes>, result: bool, error: bool)

  const NONE_SEEN := Fields(false, None, None, false, false)

  predicate IsId(v: Value) {
    v.Str? || v.Num? || v == Word("null")
  }

  /** One member more, or `None` if the member is not acceptable after what was seen. */
  function Take(f: Fields, m: Member, limit: nat): Option<Fields> {
    if !EscapeFree(m.key) then None
    else if m.key == "jsonrpc" then
      if f.jsonrpc || m.value != Str("2.0") then None else Some(f.(jsonrpc := true))
    else if m.key == "method" then
      if f.methodName.Some? || !m.value.Str? || m.value.raw == [] || !EscapeFree(m.value.raw) then None
      else Some(f.(methodName := Some(m.value.raw)))
    else if m.key == "id" then
      if f.id.Some? || !IsId(m.value) then None else Some(f.(id := Some(Text(m.value))))
    else if !Fits(m.value, 1, limit) then None
    else if m.key == "result" then
      if f.result then None else Some(f.(result := true))
    else if m.key == "error" then
      if f.error then None else Some(f.(error := true))
    else Some(f)
  }

  /** All members, up to the first unacceptable one. */
  function Gather(f: Fields, members: seq<Member>, limit: nat): (Fields, bool)
    decreases |members|
  {
    if members == [] then (f, true)
    else match Take(f, members[0], limit)
      case None => (f, false)
      case Some(g) => Gather(g, members[1..], limit)
  }

  /** The members that stand complete at `b`, up to the first place where the text is broken. */
  function MemberPrefix(s: Bytes, b: nat): seq<Member>
    requires b <= |s|
    decreases |s| - b
  {
    match ParseMember(s, b)
    case NoMember => []
    case AMember(m, e) => if e < |s| && s[e] == ',' then [m] + MemberPrefix(s, e + 1) else [m]
  }

  function OrEmpty(t: Option<Bytes>): Bytes {
    match t case None => [] case Some(text) => text
  }

  function Reject(f: Fields): Envelope {
    Envelope(Invalid, OrEmpty(f.id), OrEmpty(f.methodName), Rejected)
  }

  /** The verdict on a message whose object is complete. */
  function Verdict(f: Fields): Envelope {
    if !f.jsonrpc then Reject(f)
    else if f.methodName.Some? then
      if f.result || f.error then Reject(f)
      else Envelope(if f.id.Some? then Request else Notification, OrEmpty(f.id), f.methodName.value, Accepted)
    else if f.id.Some? && f.result != f.error then Envelope(Response, f.id.value, [], Accepted)
    else Reject(f)
  }

  /** The result of the member loop from `b` on, given what was seen before `b`. */
  function ClassifyFrom(s: Bytes, b: nat, f: Fields, limit: nat): Envelope
    requires b <= |s|
  {
    var (g, ok) := Gather(f, MemberPrefix(s, b), limit);
    match ParseMembers(s, b, OpenEnd)
    case NoMembers => Reject(g)
    case Members(_, e) => if ok && WsEnd(s, e) == |s| then Verdict(g) else Reject(g)
  }

  function Classify(s: Bytes, limits: RuntimeLimits): Envelope {
    if |s| > limits.maxMessageBytes then Envelope(Invalid, [], [], TooLarge)
    else
      match BodyStart(s)
      case None => Reject(NONE_SEEN)
      case Some(b) =>
        var j := WsEnd(s, b);
        if j < |s| && s[j] == '}' then Reject(NONE_SEEN)
        else ClassifyFrom(s, b, NONE_SEEN, limits.maxNestingDepth)
  }

  lemma ClassifyStep(s: Bytes, b: nat, f: Fields, limit: nat)
    requires b <= |s|
    ensures ClassifyFrom(s, b, f, limit) ==
            if WsEnd(s, b) == |s| then Verdict(f)
            else
              match ParseMember(s, b)
              case NoMember => Reject(f)
              case AMember(m, p) =>
                match Take(f, m, limit)
                case None => Reject(f)
                case Some(g) =>
                  if p == |s| then Reject(g)
                  else if s[p] == '}' then (if WsEnd(s, p + 1) == |s| then Verdict(g) else Reject(g))
                  else if s[p] == ',' then ClassifyFrom(s, p + 1, g, limit)
                  else Reject(g)
  {
    hide ParseMember, ParseMembers, Take, Verdict, WsEnd, MemberPrefix, Gather;
    MembersUnfold(s, b, OpenEnd);
    PrefixUnfold(s, b);
    NothingGathered(f, limit);
    if WsEnd(s, b) == |s| {
      NoMemberAtEnd(s, b);
    } else if ParseMember(s, b).AMember? {
      var AMember(m, p) := ParseMember(s, b);
      GatherFirst(f, m, if p < |s| && s[p] == ',' then MemberPrefix(s, p + 1) else [], limit);
      if Take(f, m, limit).Some? { NothingGathered(Take(f, m, limit).value, limit); }
    }
  }

  lemma PrefixUnfold(s: Bytes, b: nat)
    requires b <= |s|
    ensures MemberPrefix(s, b) ==
            match ParseMember(s, b)
            case NoMember => []
            case AMember(m, e) => [m] + if e < |s| && s[e] == ',' then MemberPrefix(s, e + 1) else []
  {
    hide ParseMember;
  }

  lemma GatherFirst(f: Fields, m: Member, rest: seq<Member>, limit: nat)
    ensures Gather(f, [m] + rest, limit) ==
            match Take(f, m, limit) case None => (f, false) case Some(g) => Gather(g, rest, limit)
  {
    hide Take;
    assert ([m] + rest)[1..] == rest;
  }

  method ClassifyMessage(message: Bytes, limits: RuntimeLimits) returns (envelope: Envelope)
    ensures envelope == Classify(message, limits)
  {
    hide Text, Take, ClassifyFrom, ParseMember, ParseValue, ParseKey, WsEnd, Gather;
    if |message| > limits.maxMessageBytes {
      return Envelope(Invalid, [], [], TooLarge);
    }
    var offset := SkipWhitespace(message, 0);
    if offset == |message| || message[offset] != '{' {
      return Reject(NONE_SEEN);
    }
    ghost var b := offset + 1;
    var seen := NONE_SEEN;
    offset := SkipWhitespace(message, offset + 1);
    if offset < |message| && message[offset] == '}' {
      offset := offset + 1;
      return Reject(seen);
    }
    while offset < |message|
      invariant b <= |message| && offset == WsEnd(message, b)
      invariant Classify(message, limits) == ClassifyFrom(message, b, seen, limits.maxNestingDepth)
      decreases |message| - b
    {
      ClassifyStep(message, b, seen, limits.maxNestingDepth);
      MemberUnfold(message, b);
      var ok, key, hasEscape, fields;
      ok, offset, key, hasEscape := ScanKey(message, offset, b);
      if !ok || hasEscape {
        TakeEscaped(message, b, seen, limits.maxNestingDepth);
        return Reject(seen);
      }
      ok, offset, fields := ClassifyValue(message, offset, key, seen, limits.maxNestingDepth, b);
      if !ok {
        return Reject(seen);
      }
      seen := fields;
      offset := SkipWhitespace(message, offset);
      if offset == |message| {
        return Reject(seen);
      }
      if message[offset] == '}' {
        offset := SkipWhitespace(message, offset + 1);
        return if offset == |message| then Verdict(seen) else Reject(seen);
      }
      if message[offset] != ',' {
        return Reject(seen);
      }
      b := offset + 1;
      offset := SkipWhitespace(message, offset + 1);
    }
    ClassifyStep(message, b, seen, limits.maxNestingDepth);
    return Verdict(seen);
  }

  lemma TakeEscaped(s: Bytes, b: nat, f: Fields, limit: nat)
    requires b <= |s| && (ParseKey(s, b).NoKey? || !EscapeFree(ParseKey(s, b).key))
    ensures ParseMember(s, b).NoMember? || Take(f, ParseMember(s, b).member, limit).None?
  {
    hide ParseKey, ParseValue, WsEnd, Text;
  }

  /** The statements that take the version, which has to be `"2.0"`. */
  method ScanVersion(message: Bytes, begin: nat) returns (ok: bool, offset: nat)
    requires begin <= |message|
    ensures ok <==> ParseValue(message, begin).Got? && ParseValue(message, begin).value == Str("2.0")
    ensures ok ==> offset == ParseValue(message, begin).end
  {
    hide ParseValue, StringEnd;
    ValueKinds(message, begin);
    var contents, hasEscape;
    ok, offset, contents, hasEscape := ScanString(message, begin);
    if !ok || hasEscape || contents != "2.0" {
      return false, offset;
    }
  }

  predicate IsMethodName(v: Value) {
    v.Str? && EscapeFree(v.raw) && v.raw != []
  }

  method ScanMethodName(message: Bytes, begin: nat) returns (ok: bool, offset: nat, name: Bytes)
    requires begin <= |message|
    ensures ok <==> ParseValue(message, begin).Got? && IsMethodName(ParseValue(message, begin).value)
    ensures ok ==> offset == ParseValue(message, begin).end && name == ParseValue(message, begin).value.raw
  {
    hide ParseValue, StringEnd, EscapeFree;
    ValueKinds(message, begin);
    var hasEscape;
    ok, offset, name, hasEscape := ScanString(message, begin);
    ok := ok && !hasEscape && name != [];
  }

  /** The id: `null`, a string or a number. */
  method ScanId(message: Bytes, begin: nat) returns (ok: bool, offset: nat)
    requires begin <= |message|
    ensures ok <==> ParseValue(message, begin).Got? && IsId(ParseValue(message, begin).value)
    ensures ok ==> offset == ParseValue(message, begin).end
  {
    hide ParseValue, StringEnd, NumberEnd;
    ValueKinds(message, begin);
    ok, offset := ScanLiteral(message, begin, "null");
    if !ok {
      if offset < |message| && message[offset] == '"' {
        var contents, hasEscape;
        ok, offset, contents, hasEscape := ScanString(message, offset);
      } else {
        ok, offset := ScanNumber(message, offset);
      }
    }
  }

  /** The part of the loop that depends on the key: the value at `begin` belongs to `key`. */
  method ClassifyValue(message: Bytes, begin: nat, key: Bytes, seen: Fields, limit: nat, ghost b: nat)
    returns (ok: bool, offset: nat, fields: Fields)
    requires b <= |message| && ParseKey(message, b).AKey? && EscapeFree(key)
    requires key == ParseKey(message, b).key && begin == ParseKey(message, b).end
    ensures ok ==>
              var r := ParseValue(message, begin);
              r.Got? && offset == r.end && Take(seen, ParseMember(message, b).member, limit) == Some(fields)
    ensures !ok ==>
              ParseValue(message, begin).Fail? || Take(seen, ParseMember(message, b).member, limit).None?
  {
    hide ParseValue, ParseKey, WsEnd, StringEnd, ParseMember, IsId, Fits, EscapeFree, Text;
    ok, offset, fields := false, begin, seen;
    MemberUnfold(message, b);
    if key == "jsonrpc" {
      if seen.jsonrpc {
        return;
      }
      ok, offset := ScanVersion(message, offset);
      fields := seen.(jsonrpc := true);
    } else if key == "method" {
      if seen.methodName.Some? {
        return;
      }
      var name;
      ok, offset, name := ScanMethodName(message, offset);
      fields := seen.(methodName := Some(name));
    } else if key == "id" {
      if seen.id.Some? {
        return;
      }
      ok, offset := ScanId(message, offset);
      if !ok {
        return;
      }
      ValueSound(message, begin);
      fields := seen.(id := Some(message[begin..offset]));
    } else if key == "result" {
      if seen.result {
        return;
      }
      ok, offset := SkipValue(message, offset, 1, limit);
      fields := seen.(result := true);
    } else if key == "error" {
      if seen.error {
        return;
      }
      ok, offset := SkipValue(message, offset, 1, limit);
      fields := seen.(error := true);
    } else {
      ok, offset := SkipValue(message, offset, 1, limit);
    }
  }

  // ---- which messages are accepted ----

  /** What one member has to look like on its own. */
  ghost predicate GoodMember(m: Member, limit: nat) {
    && EscapeFree(m.key)
    && (m.key == "jsonrpc" ==> m.value == Str("2.0"))
    && (m.key == "method" ==> m.value.Str? && m.value.raw != [] && EscapeFree(m.value.raw))
    && (m.key == "id" ==> IsId(m.value))
    && (m.key != "jsonrpc" && m.key != "method" && m.key != "id" ==> Fits(m.value, 1, limit))
  }

  ghost predicate GoodMembers(members: seq<Member>, limit: nat) {
    forall k :: 0 <= k < |members| ==> GoodMember(members[k], limit)
  }

  /** The JSON-RPC rules for the member list as a whole. */
  ghost predicate GoodEnvelope(members: seq<Member>, limit: nat) {
    && GoodMembers(members, limit)
    && Count(members, "jsonrpc") == 1
    && Count(members, "method") <= 1 && Count(members, "id") <= 1
    && Count(members, "result") <= 1 && Count(members, "error") <= 1
    && (if Count(members, "method") == 1
        then Count(members, "result") == 0 && Count(members, "error") == 0
        else Count(members, "id") == 1 && Count(members, "result") + Count(members, "error") == 1)
  }

  function Once(seen: bool): nat { if seen then 1 else 0 }

  lemma {:induction false} GatherMeaning(f: Fields, members: seq<Member>, limit: nat)
    ensures var (g, ok) := Gather(f, members, limit);
            && (ok <==>
                 && GoodMembers(members, limit)
                 && Once(f.jsonrpc) + Count(members, "jsonrpc") <= 1
                 && Once(f.methodName.Some?) + Count(members, "method") <= 1
                 && Once(f.id.Some?) + Count(members, "id") <= 1
                 && Once(f.result) + Count(members, "result") <= 1
                 && Once(f.error) + Count(members, "error") <= 1)
            && (ok ==>
                 && Once(g.jsonrpc) == Once(f.jsonrpc) + Count(members, "jsonrpc")
                 && Once(g.result) == Once(f.result) + Count(members, "result")
                 && Once(g.error) == Once(f.error) + Count(members, "error")
                 && g.methodName == (if f.methodName.Some? then f.methodName else MethodOf(members))
                 && g.id == (if f.id.Some? then f.id else IdOf(members)))
    decreases |members|
  {
    hide Take, GoodMember, GoodMembers, One, Count, Find, MethodOf, IdOf, Gather;
    NothingGathered(f, limit);
    if members != [] {
      var m, rest := members[0], members[1..];
      assert members == [m] + rest;
      GatherFirst(f, m, rest, limit);
      GoodMembersFirst(m, rest, limit);
      TakeMeaning(f, m, limit);
      MethodOfFirst(m, rest);
      IdOfFirst(m, rest);
      CountsFirst(m, rest);
      if Take(f, m, limit).Some? {
        GatherMeaning(Take(f, m, limit).value, rest, limit);
      }
    }
  }

  lemma NothingGathered(f: Fields, limit: nat)
    ensures Gather(f, [], limit) == (f, true) && GoodMembers([], limit) && MethodOf([]) == None && IdOf([]) == None
    ensures forall key :: Count([], key) == 0
  {
  }

  lemma CountsFirst(m: Member, rest: seq<Member>)
    ensures forall key :: Count([m] + rest, key) == One(m, key) + Count(rest, key)
  {
    hide Count, One;
    forall key ensures Count([m] + rest, key) == One(m, key) + Count(rest, key) {
      CountFirst(m, rest, key);
    }
  }

  lemma IdOfFirst(m: Member, rest: seq<Member>)
    ensures IdOf([m] + rest) == if m.key == "id" then Some(Text(m.value)) else IdOf(rest)
  {
    hide Text;
    CountFirst(m, rest, "id");
  }

  lemma MethodOfFirst(m: Member, rest: seq<Member>)
    ensures MethodOf([m] + rest) ==
            if m.key == "method" then (if m.value.Str? then Some(m.value.raw) else None) else MethodOf(rest)
  {
    CountFirst(m, rest, "method");
  }

  lemma TakeMeaning(f: Fields, m: Member, limit: nat)
    ensures var t := Take(f, m, limit);
            && (t.Some? <==>
                 && GoodMember(m, limit)
                 && Once(f.jsonrpc) + One(m, "jsonrpc") <= 1
                 && Once(f.methodName.Some?) + One(m, "method") <= 1
                 && Once(f.id.Some?) + One(m, "id") <= 1
                 && Once(f.result) + One(m, "result") <= 1
                 && Once(f.error) + One(m, "error") <= 1)
            && (t.Some? ==>
                 && Once(t.value.jsonrpc) == Once(f.jsonrpc) + One(m, "jsonrpc")
                 && Once(t.value.result) == Once(f.result) + One(m, "result")
                 && Once(t.value.error) == Once(f.error) + One(m, "error")
                 && t.value.methodName == (if m.key == "method" then Some(m.value.raw) else f.methodName)
                 && t.value.id == (if m.key == "id" then Some(Text(m.value)) else f.id))
            && (m.key == "method" <==> One(m, "method") == 1)
            && (m.key == "id" <==> One(m, "id") == 1)
            && (m.key == "method" && t.Some? ==> m.value.Str?)
  {
    hide Fits, Text, IsId, EscapeFree;
  }

  lemma GoodMembersFirst(m: Member, rest: seq<Member>, limit: nat)
    ensures GoodMembers([m] + rest, limit) <==> GoodMember(m, limit) && GoodMembers(rest, limit)
  {
    hide GoodMember;
    var all := [m] + rest;
    assert all[0] == m;
    assert forall k :: 0 <= k < |rest| ==> all[k + 1] == rest[k];
  }

  /** The contents of the `method` value, if there is one and it is a string. */
  ghost function MethodOf(members: seq<Member>): Option<Bytes> {
    match Find(members, "method")
    case Some(v) => if v.Str? then Some(v.raw) else None
    case None => None
  }

  ghost function IdOf(members: seq<Member>): Option<Bytes> {
    match Find(members, "id") case Some(v) => Some(Text(v)) case None => None
  }

  lemma {:induction false} PrefixIsAll(s: Bytes, b: nat)
    requires b <= |s| && ParseMembers(s, b, OpenEnd).Members?
    ensures MemberPrefix(s, b) == ParseMembers(s, b, OpenEnd).members
    decreases |s| - b
  {
    hide ParseMembers, ParseMember, WsEnd;
    MembersUnfold(s, b, OpenEnd);
    if WsEnd(s, b) == |s| {
      NoMemberAtEnd(s, b);
    } else {
      var AMember(m, e) := ParseMember(s, b);
      if s[e] == ',' { PrefixIsAll(s, e + 1); }
    }
  }

  /** The classifier accepts exactly the well-shaped JSON-RPC envelopes (in closed or open-ended
      form) within its limits, and reports the id and the method they carry. */
  lemma ClassifyAccepts(s: Bytes, limits: RuntimeLimits)
    ensures var members := DocMembers(s, OpenEnd);
            var envelope := Classify(s, limits);
            && (envelope.outcome == Accepted <==>
                 |s| <= limits.maxMessageBytes && members.Some?
                 && GoodEnvelope(members.value, limits.maxNestingDepth))
            && (envelope.outcome == Accepted ==>
                 && envelope.methodName == OrEmpty(MethodOf(members.value))
                 && envelope.id == OrEmpty(IdOf(members.value))
                 && (envelope.kind == Response <==> Count(members.value, "method") == 0)
                 && (envelope.kind == Request <==>
                      Count(members.value, "method") == 1 && Count(members.value, "id") == 1)
                 && (envelope.kind == Notification <==>
                      Count(members.value, "method") == 1 && Count(members.value, "id") == 0))
            && (envelope.kind == Invalid <==> envelope.outcome != Accepted)
            && (envelope.outcome == TooLarge <==> |s| > limits.maxMessageBytes)
  {
    hide ParseMembers, WsEnd, Gather, GoodEnvelope, MethodOf, IdOf, Count, Verdict;
    if DocMembers(s, OpenEnd).Some? {
      var b := BodyStart(s).value;
      var members := ParseBody(s, b, OpenEnd).members;
      if members != [] {
        PrefixIsAll(s, b);
      } else {
        EmptyBody(s, b);
      }
      VerdictMeaning(members, limits.maxNestingDepth);
    }
  }

  lemma VerdictMeaning(members: seq<Member>, limit: nat)
    ensures var (g, ok) := Gather(NONE_SEEN, members, limit);
            var envelope := if ok then Verdict(g) else Reject(g);
            && (envelope.outcome == Accepted <==> GoodEnvelope(members, limit))
            && (envelope.outcome == Accepted ==>
                 && envelope.methodName == OrEmpty(MethodOf(members))
                 && envelope.id == OrEmpty(IdOf(members))
                 && (envelope.kind == Response <==> Count(members, "method") == 0)
                 && (envelope.kind == Request <==> Count(members, "method") == 1 && Count(members, "id") == 1)
                 && (envelope.kind == Notification <==> Count(members, "method") == 1 && Count(members, "id") == 0))
            && (envelope.kind == Invalid <==> envelope.outcome != Accepted)
            && envelope.outcome != TooLarge
            && (members == [] ==> envelope == Reject(NONE_SEEN))
  {
    hide Gather, Text, Count, GoodMembers;
    GatherMeaning(NONE_SEEN, members, limit);
    if GoodMembers(members, limit) { FindStr(members, limit); }
    assert members == [] ==> Gather(NONE_SEEN, members, limit) == (NONE_SEEN, true) by { NothingGathered(NONE_SEEN, limit); }
  }

  lemma EmptyBody(s: Bytes, b: nat)
    requires b <= |s| && ParseBody(s, b, OpenEnd).Members? && ParseBody(s, b, OpenEnd).members == []
    ensures var j := WsEnd(s, b); (j < |s| && s[j] == '}') || MemberPrefix(s, b) == []
  {
    hide ParseMember, WsEnd, ParseMembers;
    MembersUnfold(s, b, OpenEnd);
    if WsEnd(s, b) == |s| { NoMemberAtEnd(s, b); }
  }

  lemma {:induction false} FindStr(members: seq<Member>, limit: nat)
    requires GoodMembers(members, limit)
    ensures Count(members, "method") > 0 ==> MethodOf(members).Some? && MethodOf(members).value != []
    decreases |members|
  {
    if members != [] && members[0].key != "method" {
      assert members == [members[0]] + members[1..];
      GoodMembersFirst(members[0], members[1..], limit);
      FindStr(members[1..], limit);
    }
  }

  // ---- what a rejected message still says ----

  /** Members of which the classifier takes every one: good ones, and no known key twice. */
  ghost predicate Readable(members: seq<Member>, limit: nat) {
    && WellFormedMembers(members) && GoodMembers(members, limit)
    && Count(members, "jsonrpc") <= 1 && Count(members, "method") <= 1 && Count(members, "id") <= 1
    && Count(members, "result") <= 1 && Count(members, "error") <= 1
  }

  /** The member ends where the rest begins: a number without whitespace after it needs a separator
      there to be over. */
  predicate EndsBefore(m: Member, rest: Bytes) {
    rest == [] ||
    (!IsWhitespace(rest[0]) && (m.value.Num? && m.post == [] ==> rest[0] == ',' || rest[0] == '}' || rest[0] == ']'))
  }

  lemma MemberStands(s: Bytes, b: nat, m: Member)
    requires WellFormedMember(m) && At(s, b, MemberText(m))
    requires b + |MemberText(m)| <= |s| && EndsBefore(m, s[b + |MemberText(m)|..])
    ensures ParseMember(s, b) == AMember(m, b + |MemberText(m)|)
  {
    hide At, ParseValue, ParseKey, WsEnd, MemberHead, Text, WellFormed, IsStringBody;
    AtConcat(s, b, MemberHead(m) + Text(m.value), m.post);
    AtConcat(s, b, MemberHead(m), Text(m.value));
    var v := b + |MemberHead(m)|;
    var p := v + |Text(m.value)|;
    TextStart(m.value);
    AtFirst(s, v, Text(m.value));
    AtFirst(s, p, m.post);
    KeyComplete(s, b, m);
    ValueComplete(s, v, m.value);
    WsEndComplete(s, p, m.post);
    AtSlice(s, p, m.post);
  }

  /** Complete members are the first that are read. */
  lemma {:induction false} PrefixStarts(s: Bytes, b: nat, members: seq<Member>) returns (more: seq<Member>)
    requires members != [] && WellFormedMembers(members) && At(s, b, MembersText(members))
    requires var e := b + |MembersText(members)|; e <= |s| && EndsBefore(members[|members| - 1], s[e..])
    ensures MemberPrefix(s, b) == members + more
    decreases |members|
  {
    hide At, ParseMember, MemberText, MembersText, WellFormedMember, WellFormedMembers, MemberPrefix;
    var m, rest := members[0], members[1..];
    assert members == [m] + rest;
    MembersMore(m, rest);
    PrefixUnfold(s, b);
    if rest == [] {
      MemberStands(s, b, m);
      var e := b + |MemberText(m)|;
      more := if e < |s| && s[e] == ',' then MemberPrefix(s, e + 1) else [];
    } else {
      ListAt(s, b, MemberText(m), MembersText(rest));
      MemberComplete(s, b, m);
      more := PrefixStarts(s, b + |MemberText(m)| + 1, rest);
      assert [m] + (rest + more) == members + more;
    }
  }

  /** What has been kept stays kept. */
  lemma {:induction false} GatherKeeps(f: Fields, members: seq<Member>, limit: nat)
    ensures var g := Gather(f, members, limit).0;
            && (f.id.Some? ==> g.id == f.id) && (f.methodName.Some? ==> g.methodName == f.methodName)
    decreases |members|
  {
    hide Text, Fits, EscapeFree;
    if members != [] && Take(f, members[0], limit).Some? {
      GatherKeeps(Take(f, members[0], limit).value, members[1..], limit);
    }
  }

  lemma {:induction false} GatherMore(f: Fields, members: seq<Member>, more: seq<Member>, limit: nat)
    ensures var (g, ok) := Gather(f, members, limit);
            Gather(f, members + more, limit) == if ok then Gather(g, more, limit) else (g, false)
    decreases |members|
  {
    hide Take, Gather;
    NothingGathered(f, limit);
    if members == [] {
      assert members + more == more;
    } else {
      var m, rest := members[0], members[1..];
      assert members == [m] + rest && members + more == [m] + (rest + more);
      GatherFirst(f, m, rest, limit);
      GatherFirst(f, m, rest + more, limit);
      if Take(f, m, limit).Some? { GatherMore(Take(f, m, limit).value, rest, more, limit); }
    }
  }

  /** A rejected message keeps what its members before the first broken one say. */
  lemma RejectedFields(s: Bytes, limits: RuntimeLimits)
    requires |s| <= limits.maxMessageBytes && Classify(s, limits).outcome != Accepted && BodyStart(s).Some?
    ensures var b := BodyStart(s).value;
            Classify(s, limits) ==
              Reject(if WsEnd(s, b) < |s| && s[WsEnd(s, b)] == '}' then NONE_SEEN
                     else Gather(NONE_SEEN, MemberPrefix(s, b), limits.maxNestingDepth).0)
  {
    hide Gather, MemberPrefix, ParseMembers, WsEnd;
  }

  /** A message that starts with these members. */
  function Opened(pre: Bytes, members: seq<Member>, rest: Bytes): Bytes {
    pre + "{" + MembersText(members) + rest
  }

  lemma OpeningAt(pre: Bytes, t: Bytes, rest: Bytes)
    ensures var s := pre + "{" + t + rest;
            && At(s, 0, pre) && |s| > |pre| && s[|pre|] == '{' && At(s, |pre| + 1, t)
            && |pre| + 1 + |t| <= |s| && s[|pre| + 1 + |t|..] == rest
  {
    var s := pre + "{" + t + rest;
    assert s[|pre| + 1..|pre| + 1 + |t|] == t;
  }

  lemma OpeningStarts(s: Bytes, pre: Bytes)
    requires Blank(pre) && At(s, 0, pre) && |s| > |pre| && s[|pre|] == '{'
    ensures BodyStart(s) == Some(|pre| + 1)
  {
    hide WsEnd;
    WsEndComplete(s, 0, pre);
  }

  /** REJECTED ENVELOPES: whatever makes the classifier reject a message after some members it has
      read, be it that the message breaks off right there, the envelope keeps the id and the method
      among them. */
  lemma RejectedKeeps(pre: Bytes, members: seq<Member>, rest: Bytes, limits: RuntimeLimits)
    requires Blank(pre) && Readable(members, limits.maxNestingDepth)
    requires members != [] && EndsBefore(members[|members| - 1], rest)
    requires |Opened(pre, members, rest)| <= limits.maxMessageBytes
    requires Classify(Opened(pre, members, rest), limits).outcome != Accepted
    ensures var envelope := Classify(Opened(pre, members, rest), limits);
            && (Count(members, "id") == 1 ==> envelope.id == Text(Find(members, "id").value))
            && (Count(members, "method") == 1 ==> Find(members, "method") == Some(Str(envelope.methodName)))
  {
    hide Classify, MembersText, Gather, MemberPrefix, Count, Find, At, WsEnd, GoodMembers, WellFormedMembers, Text;
    var s := Opened(pre, members, rest);
    OpeningAt(pre, MembersText(members), rest);
    OpeningStarts(s, pre);
    var b, limit := |pre| + 1, limits.maxNestingDepth;
    MembersStart(s, b, members);
    RejectedFields(s, limits);
    var more := PrefixStarts(s, b, members);
    GatherMeaning(NONE_SEEN, members, limit);
    GatherMore(NONE_SEEN, members, more, limit);
    GatherKeeps(Gather(NONE_SEEN, members, limit).0, more, limit);
    FindStr(members, limit);
  }

  /** The members that were taken, and where their text stands. */
  lemma {:induction false} ReadPart(s: Bytes, b: nat, f: Fields, limit: nat) returns (members: seq<Member>, e: nat)
    requires b <= |s|
    ensures WellFormedMembers(members) && b <= e <= |s| && s[b..e] == MembersText(members)
    ensures Gather(f, members, limit) == (Gather(f, MemberPrefix(s, b), limit).0, true)
    decreases |s| - b
  {
    hide ParseMember, MemberPrefix, Gather, MemberText, MembersText, WellFormedMember, WellFormedMembers, Take;
    PrefixUnfold(s, b);
    NothingGathered(f, limit);
    NoneWellFormed();
    members, e := [], b;
    NoMembersText(s, b);
    if ParseMember(s, b).AMember? {
      var AMember(m, p) := ParseMember(s, b);
      MemberSound(s, b);
      var more := p < |s| && s[p] == ',';
      GatherFirst(f, m, if more then MemberPrefix(s, p + 1) else [], limit);
      if Take(f, m, limit).Some? {
        var g := Take(f, m, limit).value;
        var rest: seq<Member> := [];
        e := p;
        if more {
          rest, e := ReadPart(s, p + 1, g, limit);
          if rest == [] {
            e := p;
          } else {
            GlueComma(s, b, p, e);
          }
        }
        NothingGathered(g, limit);
        members := [m] + rest;
        MembersMore(m, rest);
        GatherFirst(f, m, rest, limit);
      }
    }
  }

  lemma NoMembersText(s: Bytes, b: nat)
    requires b <= |s|
    ensures s[b..b] == MembersText([])
  {
  }

  lemma GlueComma(s: Bytes, b: nat, p: nat, e: nat)
    requires b <= p < e <= |s| && s[p] == ','
    ensures s[b..e] == s[b..p] + "," + s[p + 1..e]
  {
  }

  /** Nothing else gets into a rejected envelope: an id or a method stands in it only if members
      that were read before the message broke say so. */
  lemma RejectedReads(s: Bytes, limits: RuntimeLimits) returns (pre: Bytes, members: seq<Member>, rest: Bytes)
    requires Classify(s, limits).outcome != Accepted
    requires Classify(s, limits).id != [] || Classify(s, limits).methodName != []
    ensures s == pre + "{" + MembersText(members) + rest && Blank(pre) && Readable(members, limits.maxNestingDepth)
    ensures var envelope := Classify(s, limits);
            && envelope.id == (if Count(members, "id") == 1 then Text(Find(members, "id").value) else [])
            && (if Count(members, "method") == 1 then Find(members, "method") == Some(Str(envelope.methodName))
                else envelope.methodName == [])
  {
    hide Gather, MemberPrefix, ParseMembers, WsEnd, MembersText, WellFormedMembers, GoodMembers, Text, Count, Find, Classify;
    SomethingRead(s, limits);
    RejectedFields(s, limits);
    var b, limit := BodyStart(s).value, limits.maxNestingDepth;
    var e;
    members, e := ReadPart(s, b, NONE_SEEN, limit);
    GatherMeaning(NONE_SEEN, members, limit);
    FindStr(members, limit);
    pre, rest := s[..b - 1], s[e..];
    WsEndBlank(s, 0);
    StartIs(s);
    assert s == s[..b - 1] + "{" + s[b..e] + s[e..];
  }

  lemma SomethingRead(s: Bytes, limits: RuntimeLimits)
    requires Classify(s, limits).id != [] || Classify(s, limits).methodName != []
    ensures |s| <= limits.maxMessageBytes && BodyStart(s).Some?
    ensures var j := WsEnd(s, BodyStart(s).value); j == |s| || s[j] != '}'
  {
    hide ParseMembers, WsEnd, Gather, MemberPrefix;
  }

  lemma StartIs(s: Bytes)
    ensures BodyStart(s).Some? ==> BodyStart(s).value == WsEnd(s, 0) + 1 && s[0..WsEnd(s, 0)] == s[..BodyStart(s).value - 1]
  {
    hide WsEnd;
  }

  /** Every id an envelope carries is the text of an id value, also if the message is rejected. */
  lemma IdIsValue(s: Bytes, limits: RuntimeLimits) returns (v: Value)
    requires Classify(s, limits).id != []
    ensures WellFormed(v) && IsId(v) && Classify(s, limits).id == Text(v)
  {
    hide Gather, MemberPrefix, ParseMembers, WsEnd, Text, WellFormed, WellFormedMembers, MembersText, GoodMembers, Count, Find;
    var members, e := ReadPart(s, BodyStart(s).value, NONE_SEEN, limits.maxNestingDepth);
    GatherMeaning(NONE_SEEN, members, limits.maxNestingDepth);
    FindWellFormed(members, "id");
    GoodId(members, limits.maxNestingDepth);
    v := Find(members, "id").value;
  }

  lemma {:induction false} GoodId(members: seq<Member>, limit: nat)
    requires GoodMembers(members, limit)
    ensures Find(members, "id").Some? ==> IsId(Find(members, "id").value)
    decreases |members|
  {
    hide GoodMembers, IsId, Count;
    if members != [] {
      assert members == [members[0]] + members[1..];
      GoodMembersFirst(members[0], members[1..], limit);
      if members[0].key != "id" { GoodId(members[1..], limit); }
    }
  }
}

/** `ToolCallFilter` (src/tool_call_filter.cpp): which messages pass, and the bounded table of
    `tools/list` requests that still wait for their response.

    The class holds the table as the source does: a fixed array of slots, a count and a byte
    total. Its methods are proved against functions on the sequence of live ids;
    `FilterRuns` proves what holds over every sequence of calls. */
module Filter {
  import opened Bytes
  import opened JsonRpc
  import ToolCall
  import opened Policy
  import opened Rewriter

  datatype Config = Config(runtime: RuntimeLimits, maxPendingIdBytes: nat, maxPendingTotalIdBytes: nat)

  datatype PendingStatus = Added | Duplicate | CapacityExhausted

  datatype ClientDecision = Forward | Drop | Respond(id: Bytes, code: int, text: Bytes)

  datatype ServerDecision = Deliver | Withhold | Substitute(text: Bytes)

  const DENIED_TOOL_CODE := -32001
  const INVALID_PARAMS_CODE := -32602
  const CORRELATION_CAPACITY_CODE := -32002
  const DENIED_TOOL_TEXT: Bytes := "Tool call denied by policy"
  const INVALID_PARAMS_TEXT: Bytes := "Invalid tools/call parameters"
  const CORRELATION_CAPACITY_TEXT: Bytes := "tools/list correlation capacity exhausted"

  // ---- the table as a sequence of live ids ----

  function TotalBytes(ids: seq<Bytes>): nat {
    if ids == [] then 0 else |ids[0]| + TotalBytes(ids[1..])
  }

  predicate HasRoom(ids: seq<Bytes>, id: Bytes, config: Config) {
    && id != [] && |id| <= config.maxPendingIdBytes
    && |ids| < config.runtime.maxPendingToolsList
    && TotalBytes(ids) + |id| <= config.maxPendingTotalIdBytes
  }

  function AddStatus(ids: seq<Bytes>, id: Bytes, config: Config): PendingStatus {
    if id in ids then Duplicate else if HasRoom(ids, id, config) then Added else CapacityExhausted
  }

  function Adding(ids: seq<Bytes>, id: Bytes, config: Config): seq<Bytes> {
    if AddStatus(ids, id, config).Added? then ids + [id] else ids
  }

  /** The position of the first occurrence, or the length. */
  function IndexOf(ids: seq<Bytes>, id: Bytes): (k: nat)
    ensures k <= |ids|
    ensures k < |ids| <==> id in ids
    ensures k < |ids| ==> ids[k] == id
    ensures forall j :: 0 <= j < k ==> ids[j] != id
  {
    if ids == [] then 0
    else if ids[0] == id then 0
    else 1 + IndexOf(ids[1..], id)
  }

  /** The last id takes the place of the removed one. */
  function Removing(ids: seq<Bytes>, id: Bytes): seq<Bytes> {
    var k := IndexOf(ids, id);
    if k == |ids| then ids else ids[k := ids[|ids| - 1]][..|ids| - 1]
  }

  // ---- the decisions ----

  /** `ProxyCore::authorize_tool_call`. */
  predicate Callable(policy: PolicyTable, name: Bytes, messageBytes: nat, limits: RuntimeLimits) {
    messageBytes <= limits.maxMessageBytes && name != [] && InvocationFor(policy, name).Allow?
  }

  function DecideCall(envelope: Envelope, message: Bytes, config: Config, policy: PolicyTable): ClientDecision {
    match ToolCall.Extract(message, config.runtime)
    case None =>
      if envelope.kind == Request then Respond(envelope.id, INVALID_PARAMS_CODE, INVALID_PARAMS_TEXT) else Drop
    case Some(call) =>
      if Callable(policy, call.name, |message|, config.runtime) then Forward
      else if envelope.kind == Request then Respond(envelope.id, DENIED_TOOL_CODE, DENIED_TOOL_TEXT)
      else Drop
  }

  function DecideList(envelope: Envelope, ids: seq<Bytes>, config: Config): ClientDecision {
    if envelope.kind != Request then
      if |ids| >= config.runtime.maxPendingToolsList then Drop else Forward
    else match AddStatus(ids, envelope.id, config)
      case Added => Forward
      case Duplicate => Drop
      case CapacityExhausted =>
        if envelope.id == [] then Drop
        else Respond(envelope.id, CORRELATION_CAPACITY_CODE, CORRELATION_CAPACITY_TEXT)
  }

  function DecideClient(message: Bytes, ids: seq<Bytes>, config: Config, policy: PolicyTable): ClientDecision {
    var envelope := Classify(message, config.runtime);
    if envelope.outcome != Accepted then
      if envelope.methodName == "tools/call" && envelope.id != [] then
        Respond(envelope.id, INVALID_PARAMS_CODE, INVALID_PARAMS_TEXT)
      else Drop
    else if envelope.methodName == "tools/call" then DecideCall(envelope, message, config, policy)
    else if envelope.methodName == "tools/list" then DecideList(envelope, ids, config)
    else Forward
  }

  function AfterClient(message: Bytes, ids: seq<Bytes>, config: Config): seq<Bytes> {
    var envelope := Classify(message, config.runtime);
    if envelope.outcome == Accepted && envelope.methodName == "tools/list" && envelope.kind == Request then
      Adding(ids, envelope.id, config)
    else ids
  }

  ghost function DecideServer(message: Bytes, ids: seq<Bytes>, config: Config, policy: PolicyTable): ServerDecision {
    var envelope := Classify(message, config.runtime);
    if envelope.outcome != Accepted then Withhold
    else if envelope.kind != Response || envelope.id !in ids then Deliver
    else match Rewrite(message, config.runtime.maxNestingDepth, policy)
      case Rewritten(text, _) => Substitute(text)
      case Passthrough => Deliver
      case Malformed => Withhold
  }

  function AfterServer(message: Bytes, ids: seq<Bytes>, config: Config): seq<Bytes> {
    var envelope := Classify(message, config.runtime);
    if envelope.outcome != Accepted || envelope.kind == Response then
      if envelope.id == [] then ids else Removing(ids, envelope.id)
    else ids
  }

  // ---- what every reachable table satisfies ----

  ghost predicate GoodTable(ids: seq<Bytes>, config: Config) {
    && |ids| <= config.runtime.maxPendingToolsList
    && TotalBytes(ids) <= config.maxPendingTotalIdBytes
    && (forall k :: 0 <= k < |ids| ==> 0 < |ids[k]| <= config.maxPendingIdBytes)
    && (forall i, j :: 0 <= i < j < |ids| ==> ids[i] != ids[j])
  }

  lemma {:induction false} TotalAppend(ids: seq<Bytes>, id: Bytes)
    ensures TotalBytes(ids + [id]) == TotalBytes(ids) + |id|
    decreases |ids|
  {
    if ids == [] {
      assert ids + [id] == [id] && [id][1..] == [];
    } else {
      assert (ids + [id])[1..] == ids[1..] + [id];
      TotalAppend(ids[1..], id);
    }
  }

  lemma {:induction false} TotalReplace(ids: seq<Bytes>, k: nat, id: Bytes)
    requires k < |ids|
    ensures TotalBytes(ids[k := id]) + |ids[k]| == TotalBytes(ids) + |id|
    decreases |ids|
  {
    if k == 0 {
      assert ids[k := id][1..] == ids[1..];
    } else {
      assert ids[k := id][1..] == ids[1..][k - 1 := id];
      TotalReplace(ids[1..], k - 1, id);
    }
  }

  lemma RemovingTotal(ids: seq<Bytes>, id: Bytes)
    requires id in ids
    ensures TotalBytes(Removing(ids, id)) + |id| == TotalBytes(ids)
  {
    hide TotalBytes, IndexOf;
    var k, last := IndexOf(ids, id), |ids| - 1;
    var swapped := ids[k := ids[last]];
    TotalReplace(ids, k, ids[last]);
    assert swapped == swapped[..last] + [ids[last]];
    TotalAppend(swapped[..last], ids[last]);
  }

  lemma AddingKeeps(ids: seq<Bytes>, id: Bytes, config: Config)
    requires GoodTable(ids, config)
    ensures GoodTable(Adding(ids, id, config), config)
    ensures forall x :: x in Adding(ids, id, config) <==> x in ids || (x == id && AddStatus(ids, id, config).Added?)
  {
    TotalAppend(ids, id);
    var out := Adding(ids, id, config);
    forall i, j | 0 <= i < j < |out| ensures out[i] != out[j] {
      if j == |ids| { assert ids[i] in ids; }
    }
  }

  /** There is room for a new id exactly if the table with it keeps the bounds. */
  lemma RoomExactly(ids: seq<Bytes>, id: Bytes, config: Config)
    requires GoodTable(ids, config) && id !in ids
    ensures HasRoom(ids, id, config) <==> GoodTable(ids + [id], config)
  {
    TotalAppend(ids, id);
    AddingKeeps(ids, id, config);
    assert (ids + [id])[|ids|] == id;
  }

  /** Removal deletes exactly the requested id and keeps the table's invariant. */
  lemma RemovingKeeps(ids: seq<Bytes>, id: Bytes, config: Config)
    requires GoodTable(ids, config)
    ensures GoodTable(Removing(ids, id), config)
    ensures forall x :: x in Removing(ids, id) <==> x in ids && x != id
    ensures |Removing(ids, id)| == if id in ids then |ids| - 1 else |ids|
  {
    var k, out := IndexOf(ids, id), Removing(ids, id);
    if k < |ids| {
      var last := |ids| - 1;
      RemovingTotal(ids, id);
      forall x ensures x in out <==> x in ids && x != id {
        if x in out {
          var j :| 0 <= j < |out| && out[j] == x;
          assert x == ids[if j == k then last else j];
        }
        if x in ids && x != id {
          var j :| 0 <= j < |ids| && ids[j] == x;
          assert out[if j == last then k else j] == x;
        }
      }
    }
  }

  lemma RemovingNothing(ids: seq<Bytes>, config: Config)
    requires GoodTable(ids, config)
    ensures [] !in ids && Removing(ids, []) == ids
  {
  }

  lemma IndexIs(ids: seq<Bytes>, id: Bytes, k: nat)
    requires k < |ids| && ids[k] == id && forall j :: 0 <= j < k ==> ids[j] != id
    ensures IndexOf(ids, id) == k && id in ids
  {
    hide IndexOf;
  }

  lemma RemovingAbsent(ids: seq<Bytes>, id: Bytes)
    ensures id !in ids ==> Removing(ids, id) == ids
  {
    hide IndexOf;
  }

  // ---- the class ----

  class ToolCallFilter {
    const policy: PolicyTable
    const config: Config
    const pending: array<Bytes>
    var pendingCount: nat
    var pendingIdBytes: nat
    var rewrittenResponse: Bytes

    ghost predicate Valid()
      reads this, pending
    {
      && policy.Valid()
      && pending.Length == config.runtime.maxPendingToolsList && pendingCount <= pending.Length
      && GoodTable(Live(), config)
      && pendingIdBytes == TotalBytes(Live())
      && forall k :: pendingCount <= k < pending.Length ==> pending[k] == []
    }

    ghost function Live(): seq<Bytes>
      reads this, pending
    {
      if pendingCount <= pending.Length then pending[..pendingCount] else []
    }

    constructor (policy: PolicyTable, config: Config)
      requires policy.Valid()
      ensures Valid() && Live() == [] && this.policy == policy && this.config == config
      ensures fresh(pending)
    {
      this.policy := policy;
      this.config := config;
      pending := new Bytes[config.runtime.maxPendingToolsList](_ => []);
      pendingCount, pendingIdBytes, rewrittenResponse := 0, 0, [];
    }

    method AddPending(id: Bytes) returns (status: PendingStatus)
      requires Valid()
      modifies this`pendingCount, this`pendingIdBytes, pending
      ensures Valid()
      ensures status == AddStatus(old(Live()), id, config)
      ensures Live() == Adding(old(Live()), id, config)
    {
      var capacity := pending.Length;
      for index := 0 to pendingCount
        invariant id !in pending[..index]
      {
        if pending[index] == id {
          assert Live()[index] == id;
          return Duplicate;
        }
      }
      if id == [] || |id| > config.maxPendingIdBytes || pendingCount >= capacity
         || pendingIdBytes > config.maxPendingTotalIdBytes
         || |id| > config.maxPendingTotalIdBytes - pendingIdBytes {
        return CapacityExhausted;
      }
      ghost var before := Live();
      pending[pendingCount] := id;
      pendingIdBytes := pendingIdBytes + |id|;
      pendingCount := pendingCount + 1;
      assert Live() == before + [id];
      AddingKeeps(before, id, config);
      TotalAppend(before, id);
      return Added;
    }

    method RemovePending(id: Bytes) returns (removed: bool)
      requires Valid()
      modifies this`pendingCount, this`pendingIdBytes, pending
      ensures Valid()
      ensures removed <==> id in old(Live())
      ensures Live() == Removing(old(Live()), id)
    {
      hide GoodTable, TotalBytes, IndexOf;
      ghost var before := Live();
      RemovingAbsent(before, id);
      var index := 0;
      while index < pendingCount
        invariant 0 <= index <= pendingCount && Live() == before && Valid()
        invariant forall j :: 0 <= j < index ==> before[j] != id
        invariant pendingCount == old(pendingCount)
      {
        if pending[index] != id {
          index := index + 1;
          continue;
        }
        IndexIs(before, id, index);
        RemovingTotal(before, id);
        RemovingKeeps(before, id, config);
        pendingIdBytes := pendingIdBytes - |pending[index]|;
        var last := pendingCount - 1;
        if index != last {
          pending[index] := pending[last];
        }
        pending[last] := [];
        pendingCount := pendingCount - 1;
        assert Live() == before[index := before[last]][..last];
        return true;
      }
      return false;
    }

    method Inspect(message: Bytes) returns (decision: ClientDecision)
      requires Valid()
      modifies this`pendingCount, this`pendingIdBytes, pending
      ensures Valid()
      ensures decision == DecideClient(message, old(Live()), config, policy)
      ensures Live() == AfterClient(message, old(Live()), config)
    {
      hide Classify, ToolCall.Extract, AddStatus, Adding, GoodTable, InvocationFor;
      var envelope := ClassifyMessage(message, config.runtime);
      if envelope.outcome != Accepted {
        if envelope.methodName == "tools/call" && envelope.id != [] {
          return Respond(envelope.id, INVALID_PARAMS_CODE, INVALID_PARAMS_TEXT);
        }
        return Drop;
      }
      if envelope.methodName != "tools/call" {
        if envelope.methodName == "tools/list" {
          if envelope.kind != Request {
            if pendingCount >= pending.Length {
              return Drop;
            }
            return Forward;
          }
          var status := AddPending(envelope.id);
          if status != Added {
            if status == CapacityExhausted && envelope.id != [] {
              return Respond(envelope.id, CORRELATION_CAPACITY_CODE, CORRELATION_CAPACITY_TEXT);
            }
            return Drop;
          }
        }
        return Forward;
      }
      var call := ToolCall.ExtractCall(message, config.runtime);
      if call.None? {
        if envelope.kind == Request {
          return Respond(envelope.id, INVALID_PARAMS_CODE, INVALID_PARAMS_TEXT);
        }
        return Drop;
      }
      var allowed := false;
      if |message| <= config.runtime.maxMessageBytes && call.value.name != [] {
        var access := QueryInvocation(policy, call.value.name);
        allowed := access.Allow?;
      }
      if allowed {
        return Forward;
      }
      if envelope.kind == Request {
        return Respond(envelope.id, DENIED_TOOL_CODE, DENIED_TOOL_TEXT);
      }
      return Drop;
    }

    /** The replacement text is also kept in `rewrittenResponse`, which the decision's view
        points into. */
    method InspectServer(message: Bytes) returns (decision: ServerDecision)
      requires Valid()
      modifies this`pendingCount, this`pendingIdBytes, this`rewrittenResponse, pending
      ensures Valid()
      ensures decision == DecideServer(message, old(Live()), config, policy)
      ensures Live() == AfterServer(message, old(Live()), config)
      ensures decision.Substitute? ==> rewrittenResponse == decision.text
    {
      hide Classify, Removing, GoodTable, Rewrite;
      rewrittenResponse := [];
      var envelope := ClassifyMessage(message, config.runtime);
      if envelope.outcome != Accepted {
        if envelope.id != [] {
          var gone := RemovePending(envelope.id);
        }
        return Withhold;
      }
      if envelope.kind != Response {
        return Deliver;
      }
      RemovingNothing(Live(), config);
      var removed := RemovePending(envelope.id);
      if !removed {
        return Deliver;
      }
      var status := RewriteToolsListResponse(message, config.runtime.maxNestingDepth, policy);
      if status.Rewritten? {
        rewrittenResponse := status.text;
        return Substitute(rewrittenResponse);
      }
      if status.Passthrough? {
        return Deliver;
      }
      return Withhold;
    }

    method ConnectionClosed()
      requires Valid()
      modifies this, pending
      ensures Valid() && Live() == [] && rewrittenResponse == []
    {
      for index := 0 to pendingCount
        invariant forall k :: 0 <= k < index ==> pending[k] == []
        invariant forall k :: pendingCount <= k < pending.Length ==> pending[k] == []
        invariant pendingCount == old(pendingCount)
      {
        pending[index] := [];
      }
      pendingCount, pendingIdBytes, rewrittenResponse := 0, 0, [];
    }
  }
}

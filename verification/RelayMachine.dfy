/** The relay's loop as a machine on values: what a pass without a failure does, as a function of
    the state before it and of what its system calls returned (src/linux_stdio_relay.cpp).

    The queues are not part of the state: what is queued is what is owed and not yet written. */
module RelayMachine {
  import opened Bytes
  import opened Policy
  import opened Filter
  import opened FilterRuns
  import opened RelayStreams
  import F = Framer

  datatype ReadResult = NoData | Data(bytes: Bytes) | Eof | ReadRetry | ReadFailed

  datatype WriteResult = NotReady | Wrote(count: nat) | WriteRetry | PipeBroken | WriteFailed

  datatype ReapResult = Alive | Reaped | ReapFailed

  datatype PollResult = Interrupted | PollFailed | TimedOut | Ready

  datatype Round = Round(
    reap: ReapResult, terminate: bool, poll: PollResult,
    stdin: ReadResult, childOutput: ReadResult, childInput: WriteResult, stdout: WriteResult)

  /** A `write` never takes more than it is offered. */
  function Capped(result: WriteResult, offered: nat): WriteResult {
    if result.Wrote? && result.count > offered then Wrote(offered) else result
  }

  predicate Progress(result: WriteResult) {
    result.Wrote? && result.count > 0
  }

  /** A `read` returns between 1 and `READ_CHUNK` bytes of data. */
  predicate PossibleRead(result: ReadResult) {
    result.Data? ==> 0 < |result.bytes| <= READ_CHUNK
  }

  // ---- bytes moved ----

  /** The bytes one `write` of `rest` takes. */
  ghost function Taken(attempt: WriteResult, rest: Bytes): Bytes {
    if Progress(attempt) then rest[..Capped(attempt, |rest|).count] else []
  }

  ghost function TakenIf(polled: bool, attempt: WriteResult, rest: Bytes): Bytes {
    if polled then Taken(attempt, rest) else []
  }

  /** The bytes one `read` brings, if the descriptor is polled. */
  function ReadPart(polled: bool, result: ReadResult): Bytes {
    if polled && result.Data? then result.bytes else []
  }

  /** Bytes read from the client and from the child, and bytes written to the child and to the
      client. */
  datatype Traffic = Traffic(clientIn: Bytes, serverIn: Bytes, sent: Bytes, written: Bytes)

  const NO_TRAFFIC := Traffic([], [], [], [])

  function Plus(a: Traffic, b: Traffic): Traffic {
    Traffic(a.clientIn + b.clientIn, a.serverIn + b.serverIn, a.sent + b.sent, a.written + b.written)
  }

  function Total(steps: seq<Traffic>): Traffic {
    if steps == [] then NO_TRAFFIC else Plus(Total(steps[..|steps| - 1]), steps[|steps| - 1])
  }

  /** What the system calls of a round can have moved: all of a read or nothing, and at most what
      a write took. */
  predicate Possible(round: Round, moved: Traffic) {
    && (moved.clientIn == [] || round.stdin == Data(moved.clientIn))
    && (moved.serverIn == [] || round.childOutput == Data(moved.serverIn))
    && (moved.sent == [] || (round.childInput.Wrote? && |moved.sent| <= round.childInput.count))
    && (moved.written == [] || (round.stdout.Wrote? && |moved.written| <= round.stdout.count))
  }

  /** Each part of `some` is that part of `all` or nothing. */
  predicate PartsOf(some: Traffic, all: Traffic) {
    && (some.clientIn == [] || some.clientIn == all.clientIn)
    && (some.serverIn == [] || some.serverIn == all.serverIn)
    && (some.sent == [] || some.sent == all.sent)
    && (some.written == [] || some.written == all.written)
  }

  lemma TotalStep(start: Traffic, steps: seq<Traffic>, moved: Traffic)
    ensures Plus(start, Total(steps + [moved])) == Plus(Plus(start, Total(steps)), moved)
  {
    assert (steps + [moved])[..|steps|] == steps;
    var t := Total(steps);
    Associate(start.clientIn, t.clientIn, moved.clientIn);
    Associate(start.serverIn, t.serverIn, moved.serverIn);
    Associate(start.sent, t.sent, moved.sent);
    Associate(start.written, t.written, moved.written);
  }

  lemma PlusNothing(start: Traffic)
    ensures Plus(start, NO_TRAFFIC) == start && Plus(start, Total([])) == start
  {
    assert start.clientIn + [] == start.clientIn && start.serverIn + [] == start.serverIn;
    assert start.sent + [] == start.sent && start.written + [] == start.written;
  }

  // ---- the state ----

  /** What the relay never changes. */
  datatype Rules = Rules(config: Config, policy: PolicyTable, framing: F.Config)

  /** Everything read and written so far, the messages inspected, and the flags of the loop. */
  datatype State = State(
    traffic: Traffic, log: seq<Event>, inputEof: bool, outputOpen: bool,
    inputOpen: bool, reaped: bool, terminated: bool)

  function From(stream: Bytes, n: nat): Bytes {
    if n <= |stream| then stream[n..] else []
  }

  /** What waits for the child and for the client. */
  function ChildRest(s: State, rules: Rules): Bytes {
    if s.inputOpen then From(ToChild(s.log, rules.config, rules.policy), |s.traffic.sent|) else []
  }

  ghost function ClientRest(s: State, rules: Rules): Bytes {
    From(ToClient(s.log, rules.config, rules.policy), |s.traffic.written|)
  }

  // ---- one pass ----

  predicate Reaps(s: State, round: Round) {
    !s.reaped && round.reap.Reaped?
  }

  predicate Terminates(s: State, round: Round) {
    round.terminate && !s.terminated && !s.reaped && !round.reap.Reaped?
  }

  /** The child's stdin is still open when the descriptors are registered. */
  predicate KeepsInput(s: State, round: Round, rules: Rules) {
    s.inputOpen && !Reaps(s, round) && !Terminates(s, round) && !(s.inputEof && ChildRest(s, rules) == [])
  }

  /** Which descriptors are registered. */
  datatype Polled = Polled(stdin: bool, childOutput: bool, childInput: bool, stdout: bool)

  ghost function Polls(s: State, round: Round, rules: Rules): Polled {
    var keeps, idle := KeepsInput(s, round, rules), ClientRest(s, rules) == [];
    Polled(keeps && !s.inputEof && ChildRest(s, rules) == [] && idle, s.outputOpen && idle,
           keeps && ChildRest(s, rules) != [], !idle)
  }

  /** The bytes that the polled descriptors move, with these bytes waiting. */
  ghost function Transfer(round: Round, p: Polled, childRest: Bytes, clientRest: Bytes): Traffic {
    Traffic(
      ReadPart(p.stdin, round.stdin), ReadPart(p.childOutput, round.childOutput),
      TakenIf(p.childInput, round.childInput, childRest), TakenIf(p.stdout, round.stdout, clientRest))
  }

  ghost function Moves(s: State, round: Round, rules: Rules): Traffic {
    if !round.poll.Ready? then NO_TRAFFIC
    else Transfer(round, Polls(s, round, rules), ChildRest(s, rules), ClientRest(s, rules))
  }

  /** The lines that the next bytes of a stream complete. */
  function NewLines(stream: Bytes, more: Bytes, framing: F.Config): seq<Bytes> {
    F.Feeding(F.Feeding(F.Open([]), stream, framing).0, more, framing).1
  }

  /** The log after the client's and then the child's new lines have been inspected. */
  function Logged(log: seq<Event>, clientIn: Bytes, clientMore: Bytes, serverIn: Bytes, serverMore: Bytes,
                  framing: F.Config): seq<Event>
  {
    log + FromClients(NewLines(clientIn, clientMore, framing)) + FromServers(NewLines(serverIn, serverMore, framing))
  }

  /** After reaping, termination and closing. */
  ghost function Settled(s: State, round: Round, rules: Rules): State {
    s.(inputOpen := KeepsInput(s, round, rules), reaped := s.reaped || Reaps(s, round),
       terminated := s.terminated || Terminates(s, round))
  }

  /** After the polled descriptors have moved these bytes. */
  function Dispatched(s: State, round: Round, p: Polled, moved: Traffic, framing: F.Config): State {
    var broken := p.childInput && round.childInput.PipeBroken?;
    State(
      Plus(s.traffic, moved),
      Logged(s.log, s.traffic.clientIn, moved.clientIn, s.traffic.serverIn, moved.serverIn, framing),
      s.inputEof || (p.stdin && round.stdin.Eof?) || broken,
      s.outputOpen && !(p.childOutput && round.childOutput.Eof?),
      s.inputOpen && !broken, s.reaped, s.terminated)
  }

  /** The state after a pass without a failure. */
  ghost function Next(s: State, round: Round, rules: Rules): State {
    var settled := Settled(s, round, rules);
    if !round.poll.Ready? then settled
    else Dispatched(settled, round, Polls(s, round, rules), Moves(s, round, rules), rules.framing)
  }

  /** The state after several such passes. */
  ghost function AfterPasses(s: State, rounds: seq<Round>, rules: Rules): State
    decreases |rounds|
  {
    if rounds == [] then s
    else Next(AfterPasses(s, rounds[..|rounds| - 1], rules), rounds[|rounds| - 1], rules)
  }

  // ---- what ends the loop ----

  /** The bytes read from a stream so far and this read break its framing: an oversized line, or the
      end in the middle of a line. */
  ghost predicate Breaks(stream: Bytes, result: ReadResult, framing: F.Config) {
    match result
    case Data(bytes) => F.Feeding(F.Open([]), stream + bytes, framing).0.Failed?
    case Eof => F.Feeding(F.Open([]), stream, framing).0 != F.Open([])
    case ReadFailed => true
    case _ => false
  }

  /** A write that neither moved anything nor may be tried again. */
  predicate Stuck(attempt: WriteResult) {
    !attempt.NotReady? && !Progress(attempt) && !attempt.WriteRetry?
  }

  /** A polled descriptor reports what ends the loop with an error. */
  ghost predicate Faulty(round: Round, p: Polled, clientIn: Bytes, serverIn: Bytes, framing: F.Config) {
    || (p.stdin && Breaks(clientIn, round.stdin, framing))
    || (p.childOutput && Breaks(serverIn, round.childOutput, framing))
    || (p.childInput && Stuck(round.childInput) && !round.childInput.PipeBroken?)
    || (p.stdout && Stuck(round.stdout))
  }

  /** Something in this round ends the loop with an error other than an overflow. */
  ghost predicate Faults(s: State, round: Round, rules: Rules) {
    || (!s.reaped && round.reap.ReapFailed?)
    || round.poll.PollFailed?
    || (round.poll.Ready? &&
        Faulty(round, Polls(s, round, rules), s.traffic.clientIn, s.traffic.serverIn, rules.framing))
  }

  /** Both sides brought data in one round: the one case in which a queue can overflow. */
  ghost predicate BothRead(s: State, round: Round, rules: Rules) {
    var p := Polls(s, round, rules);
    round.poll.Ready? && p.stdin && round.stdin.Data? && p.childOutput && round.childOutput.Data?
  }

  /** The child is gone, its output has ended and nothing waits for the client. */
  ghost predicate Ends(s: State, round: Round, rules: Rules) {
    (s.reaped || Reaps(s, round)) && !s.outputOpen && ClientRest(s, rules) == []
  }

  /** The traffic of every pass is what the machine moves there; the last pass may have failed, and
      then each part of its traffic is that or nothing. */
  ghost predicate Follows(s: State, rounds: seq<Round>, steps: seq<Traffic>, complete: bool, rules: Rules) {
    && |steps| <= |rounds|
    && forall k :: 0 <= k < |steps| ==>
         var all := Moves(AfterPasses(s, rounds[..k], rules), rounds[k], rules);
         PartsOf(steps[k], all) && (k + 1 < |steps| || complete ==> steps[k] == all)
  }

  lemma MovesNothing(s: State, round: Round, rules: Rules)
    ensures PartsOf(NO_TRAFFIC, Moves(s, round, rules))
    ensures !round.poll.Ready? ==> Moves(s, round, rules) == NO_TRAFFIC
  {
    hide ReadPart, TakenIf, Polls, ChildRest, ClientRest;
  }

  lemma MovesPossible(s: State, round: Round, rules: Rules)
    ensures forall moved :: PartsOf(moved, Moves(s, round, rules)) ==> Possible(round, moved)
  {
    hide Polls, ChildRest, ClientRest;
  }

  lemma FollowsNothing(s: State, rounds: seq<Round>, rules: Rules)
    ensures Follows(s, rounds, [], true, rules) && AfterPasses(s, rounds[..0], rules) == s
  {
  }

  lemma FollowsAnyway(s: State, rounds: seq<Round>, steps: seq<Traffic>, rules: Rules)
    requires Follows(s, rounds, steps, true, rules)
    ensures Follows(s, rounds, steps, false, rules)
  {
    hide Moves, AfterPasses, PartsOf;
  }

  lemma FollowsStep(s: State, rounds: seq<Round>, steps: seq<Traffic>, moved: Traffic, complete: bool, rules: Rules)
    requires |steps| < |rounds| && Follows(s, rounds, steps, true, rules)
    requires var all := Moves(AfterPasses(s, rounds[..|steps|], rules), rounds[|steps|], rules);
             PartsOf(moved, all) && (complete ==> moved == all)
    ensures Follows(s, rounds, steps + [moved], complete, rules)
    ensures AfterPasses(s, rounds[..|steps| + 1], rules) ==
            Next(AfterPasses(s, rounds[..|steps|], rules), rounds[|steps|], rules)
  {
    hide Moves, Next, PartsOf;
    assert rounds[..|steps| + 1][..|steps|] == rounds[..|steps|];
    hide AfterPasses;
    var all := steps + [moved];
    assert all[|steps|] == moved && forall k :: 0 <= k < |steps| ==> all[k] == steps[k];
  }
}

/** The relay's loop makes progress (src/linux_stdio_relay.cpp): what every pass reads, writes and
    closes, told by what either side is owed, and where a run of passes ends up. */
module RelayProgress {
  import opened Bytes
  import opened Policy
  import opened Filter
  import opened FilterRuns
  import opened RelayStreams
  import opened RelayMachine
  import F = Framer

  // ---- what waits ----

  function Forwarded(s: State, rules: Rules): Bytes {
    ToChild(s.log, rules.config, rules.policy)
  }

  ghost function Due(s: State, rules: Rules): Bytes {
    ToClient(s.log, rules.config, rules.policy)
  }

  /** Nothing is written but what is owed, and a child that is gone has no open input. */
  ghost predicate Sound(s: State, rules: Rules) {
    && s.traffic.sent <= Forwarded(s, rules) && s.traffic.written <= Due(s, rules)
    && (s.reaped ==> !s.inputOpen)
  }

  /** The bytes that wait for the client. */
  ghost function Waiting(s: State, rules: Rules): int {
    |Due(s, rules)| - |s.traffic.written|
  }

  function Least(a: nat, b: nat): nat {
    if a < b then a else b
  }

  /** The child goes away in this round, or is told to. */
  predicate Leaves(s: State, round: Round) {
    !s.reaped && (round.reap.Reaped? || (round.terminate && !s.terminated))
  }

  // ---- one pass ----

  lemma PollsMeaning(s: State, round: Round, rules: Rules)
    requires Sound(s, rules)
    ensures ClientRest(s, rules) == Due(s, rules)[|s.traffic.written|..]
    ensures ClientRest(s, rules) == [] <==> s.traffic.written == Due(s, rules)
    ensures s.inputOpen ==> ChildRest(s, rules) == Forwarded(s, rules)[|s.traffic.sent|..]
    ensures s.inputOpen ==> (ChildRest(s, rules) == [] <==> s.traffic.sent == Forwarded(s, rules))
    ensures KeepsInput(s, round, rules) <==>
              s.inputOpen && !Leaves(s, round) && !(s.inputEof && s.traffic.sent == Forwarded(s, rules))
  {
    hide ToChild, ToClient;
  }

  lemma TakenGrows(done: Bytes, due: Bytes, attempt: WriteResult)
    requires done <= due
    ensures done + Taken(attempt, due[|done|..]) ==
            due[..|done| + if attempt.Wrote? then Least(attempt.count, |due| - |done|) else 0]
  {
  }

  /** EVERY PASS WRITES WHAT IT CAN: in a pass whose write to the client takes n bytes, the next n of
      the bytes due, or all if they are fewer, have been written; so for the child while its input
      stays open. */
  lemma PassWrites(s: State, round: Round, rules: Rules)
    requires Sound(s, rules)
    ensures var due, done := Due(s, rules), |s.traffic.written|;
            Next(s, round, rules).traffic.written ==
            due[..done + if round.poll.Ready? && round.stdout.Wrote? then Least(round.stdout.count, |due| - done) else 0]
    ensures var due, done := Forwarded(s, rules), |s.traffic.sent|;
            Next(s, round, rules).traffic.sent ==
            due[..done + if round.poll.Ready? && round.childInput.Wrote? && s.inputOpen && !Leaves(s, round)
                         then Least(round.childInput.count, |due| - done) else 0]
  {
    hide ToChild, ToClient, Logged, Leaves, KeepsInput, ChildRest, ClientRest, Taken;
    PollsMeaning(s, round, rules);
    TakenGrows(s.traffic.written, Due(s, rules), round.stdout);
    TakenGrows(s.traffic.sent, Forwarded(s, rules), round.childInput);
  }

  /** EVERY PASS READS WHAT IT MAY: data of the client is read exactly if the child's input stays open
      and both queues are empty, data of the child exactly if the client's queue is. */
  lemma PassReads(s: State, round: Round, rules: Rules)
    requires Sound(s, rules)
    ensures var idle := s.traffic.written == Due(s, rules);
            var sentAll := s.traffic.sent == Forwarded(s, rules);
            var next := Next(s, round, rules);
            && next.traffic.clientIn == s.traffic.clientIn +
                 (if round.poll.Ready? && round.stdin.Data? && s.inputOpen && !Leaves(s, round) && !s.inputEof && sentAll && idle
                  then round.stdin.bytes else [])
            && next.traffic.serverIn == s.traffic.serverIn +
                 (if round.poll.Ready? && round.childOutput.Data? && s.outputOpen && idle
                  then round.childOutput.bytes else [])
  {
    hide ToChild, ToClient, Logged, Leaves, KeepsInput, ChildRest, ClientRest, Taken;
    PollsMeaning(s, round, rules);
  }

  /** EVERY PASS CLOSES WHAT IS DONE: the child's input stays open exactly if the child stays, something
      may still come for it and its pipe holds; the ends of both streams are noticed exactly when
      they are read. */
  lemma PassCloses(s: State, round: Round, rules: Rules)
    requires Sound(s, rules)
    ensures var idle := s.traffic.written == Due(s, rules);
            var sentAll := s.traffic.sent == Forwarded(s, rules);
            var next := Next(s, round, rules);
            var broken := round.poll.Ready? && s.inputOpen && !Leaves(s, round) && !sentAll && round.childInput.PipeBroken?;
            && next.inputOpen == (s.inputOpen && !Leaves(s, round) && !(s.inputEof && sentAll) && !broken)
            && next.inputEof ==
                 (s.inputEof || broken ||
                  (round.poll.Ready? && round.stdin.Eof? && s.inputOpen && !Leaves(s, round) && sentAll && idle))
            && next.outputOpen == (s.outputOpen && !(round.poll.Ready? && round.childOutput.Eof? && idle))
            && next.reaped == (s.reaped || round.reap.Reaped?)
            && next.terminated == (s.terminated || (round.terminate && !s.reaped && !round.reap.Reaped?))
  {
    hide ToChild, ToClient, Logged, Leaves, KeepsInput, ChildRest, ClientRest, Taken;
    PollsMeaning(s, round, rules);
  }

  /** EVERY PASS INSPECTS WHAT IT READ: the lines that the client's bytes complete, then the lines that
      the child's bytes complete, each stream framed as a whole. */
  lemma PassInspects(s: State, round: Round, rules: Rules) returns (mine: seq<Bytes>, theirs: seq<Bytes>)
    ensures var next := Next(s, round, rules);
            && next.log == s.log + FromClients(mine) + FromServers(theirs)
            && F.Feeding(F.Open([]), next.traffic.clientIn, rules.framing).1 ==
               F.Feeding(F.Open([]), s.traffic.clientIn, rules.framing).1 + mine
            && F.Feeding(F.Open([]), next.traffic.serverIn, rules.framing).1 ==
               F.Feeding(F.Open([]), s.traffic.serverIn, rules.framing).1 + theirs
  {
    hide Polls, FromClients, FromServers, F.Feeding, ChildRest, ClientRest, KeepsInput, Transfer, Reaps, Terminates;
    var moved := Moves(s, round, rules);
    mine, theirs := [], [];
    if round.poll.Ready? {
      mine := NewLines(s.traffic.clientIn, moved.clientIn, rules.framing);
      theirs := NewLines(s.traffic.serverIn, moved.serverIn, rules.framing);
      F.FeedTwice(F.Open([]), s.traffic.clientIn, moved.clientIn, rules.framing);
      F.FeedTwice(F.Open([]), s.traffic.serverIn, moved.serverIn, rules.framing);
    } else {
      NoEvents(s.log);
    }
  }

  lemma NoEvents(log: seq<Event>)
    ensures log + FromClients([]) + FromServers([]) == log
  {
  }

  // ---- all states that are reached ----

  const START := State(NO_TRAFFIC, [], false, true, true, false, false)

  lemma LogGrows(s: State, round: Round, rules: Rules)
    ensures var next := Next(s, round, rules);
            Forwarded(s, rules) <= Forwarded(next, rules) && Due(s, rules) <= Due(next, rules)
  {
    hide ToChild, ToClient, Polls, Moves, FromClients, FromServers, NewLines;
    var p, moved := Polls(s, round, rules), Moves(s, round, rules);
    var mine := FromClients(NewLines(s.traffic.clientIn, moved.clientIn, rules.framing));
    var theirs := FromServers(NewLines(s.traffic.serverIn, moved.serverIn, rules.framing));
    Grows(s.log, mine, rules.config, rules.policy);
    Grows(s.log + mine, theirs, rules.config, rules.policy);
  }

  lemma PrefixOf(t: Bytes, n: nat, more: Bytes)
    requires n <= |t| && t <= more
    ensures t[..n] <= more
  {
  }

  lemma NextSound(s: State, round: Round, rules: Rules)
    requires Sound(s, rules)
    ensures Sound(Next(s, round, rules), rules)
  {
    hide ToChild, ToClient, Next, Forwarded, Due;
    LogGrows(s, round, rules);
    PassWrites(s, round, rules);
    PassCloses(s, round, rules);
    var next := Next(s, round, rules);
    PrefixOf(Due(s, rules), |next.traffic.written|, Due(next, rules));
    PrefixOf(Forwarded(s, rules), |next.traffic.sent|, Forwarded(next, rules));
  }

  /** Every state that passes without a failure reach is sound, so the statements about one pass
      hold of every pass. */
  lemma {:induction false} ReachedSound(s: State, rounds: seq<Round>, rules: Rules)
    requires Sound(s, rules)
    ensures Sound(AfterPasses(s, rounds, rules), rules)
    decreases |rounds|
  {
    hide Next, Sound;
    if rounds != [] {
      var last := |rounds| - 1;
      ReachedSound(s, rounds[..last], rules);
      NextSound(AfterPasses(s, rounds[..last], rules), rounds[last], rules);
    }
  }

  lemma StartSound(rules: Rules)
    ensures Sound(START, rules)
  {
  }

  // ---- draining ----

  /** The descriptors are reported and the client takes something. */
  predicate Drains(round: Round) {
    round.poll.Ready? && round.stdout.Wrote? && round.stdout.count > 0
  }

  predicate AllDrain(rounds: seq<Round>) {
    forall k :: 0 <= k < |rounds| ==> Drains(rounds[k])
  }

  /** While bytes wait for the client nothing is read, so nothing more becomes due. */
  lemma WaitsUnread(s: State, round: Round, rules: Rules)
    requires Sound(s, rules) && s.traffic.written != Due(s, rules)
    ensures Next(s, round, rules).log == s.log
  {
    hide ToChild, ToClient, Next;
    PollsMeaning(s, round, rules);
    hide *;
    QuietLog(s, round, rules);
  }

  lemma QuietLog(s: State, round: Round, rules: Rules)
    requires ClientRest(s, rules) != []
    ensures Next(s, round, rules).log == s.log
  {
    hide ChildRest, ClientRest, KeepsInput, NewLines;
    NoLines(s.traffic.clientIn, rules.framing);
    NoLines(s.traffic.serverIn, rules.framing);
    assert s.log + [] + [] == s.log;
  }

  lemma NoLines(stream: Bytes, framing: F.Config)
    ensures NewLines(stream, [], framing) == []
  {
    hide F.NewlineAt;
  }

  lemma PassStep(s: State, rounds: seq<Round>, k: nat, rules: Rules)
    requires k < |rounds|
    ensures AfterPasses(s, rounds[..k + 1], rules) == Next(AfterPasses(s, rounds[..k], rules), rounds[k], rules)
    ensures AfterPasses(s, rounds[..0], rules) == s
  {
    hide Next;
    assert rounds[..k + 1][..k] == rounds[..k];
  }

  /** One byte more at least. */
  lemma DrainStep(s: State, round: Round, rules: Rules)
    requires Sound(s, rules) && s.traffic.written != Due(s, rules) && Drains(round)
    ensures var next := Next(s, round, rules);
            && Sound(next, rules) && next.log == s.log
            && |s.traffic.written| < |next.traffic.written| <= |Due(s, rules)|
  {
    hide Next, ToChild, ToClient;
    WaitsUnread(s, round, rules);
    PassWrites(s, round, rules);
    NextSound(s, round, rules);
  }

  /** THE CLIENT GETS EVERYTHING: however little each write takes, after at most as many passes as
      bytes wait, all of them have been written, and nothing has been read in between. */
  lemma Drained(s: State, rounds: seq<Round>, rules: Rules) returns (k: nat)
    requires Sound(s, rules) && AllDrain(rounds)
    requires |rounds| >= Waiting(s, rules)
    ensures k <= |rounds| && k <= Waiting(s, rules)
    ensures var end := AfterPasses(s, rounds[..k], rules);
            Sound(end, rules) && end.log == s.log && end.traffic.written == Due(s, rules)
  {
    hide Next, ToChild, ToClient, AfterPasses, Sound, Drains;
    var t := s;
    k := 0;
    SoundBounds(s, rules);
    FollowsNothing(s, rounds, rules);
    while t.traffic.written != Due(s, rules)
      invariant k <= |rounds| && t == AfterPasses(s, rounds[..k], rules)
      invariant Sound(t, rules) && t.log == s.log
      invariant |s.traffic.written| + k <= |t.traffic.written| <= |Due(s, rules)|
      decreases |Due(s, rules)| - |t.traffic.written|
    {
      SoundBounds(t, rules);
      DrainStep(t, rounds[k], rules);
      PassStep(s, rounds, k, rules);
      t := Next(t, rounds[k], rules);
      k := k + 1;
    }
  }

  lemma SoundBounds(s: State, rules: Rules)
    requires Sound(s, rules)
    ensures |s.traffic.written| <= |Due(s, rules)| && |s.traffic.sent| <= |Forwarded(s, rules)|
    ensures s.traffic.written != Due(s, rules) ==> |s.traffic.written| < |Due(s, rules)|
    ensures s.traffic.sent != Forwarded(s, rules) ==> |s.traffic.sent| < |Forwarded(s, rules)|
  {
    hide ToChild, ToClient;
  }

  // ---- feeding the child ----

  /** The descriptors are reported, the child takes something, and it stays. */
  predicate Feeds(round: Round) {
    && round.poll.Ready? && round.childInput.Wrote? && round.childInput.count > 0
    && !round.reap.Reaped? && !round.terminate
  }

  predicate AllFeed(rounds: seq<Round>) {
    forall k :: 0 <= k < |rounds| ==> Feeds(rounds[k])
  }

  /** While bytes wait for the child no message of the client is inspected. */
  lemma ForwardedSame(s: State, round: Round, rules: Rules)
    requires ChildRest(s, rules) != []
    ensures Forwarded(Next(s, round, rules), rules) == Forwarded(s, rules)
  {
    hide ChildRest, ClientRest, KeepsInput, NewLines, ToChild, ToClient;
    NoLines(s.traffic.clientIn, rules.framing);
    var moved := Moves(s, round, rules);
    var more := NewLines(s.traffic.serverIn, moved.serverIn, rules.framing);
    ServersOweNothing(s.log, more, rules);
    assert moved.clientIn == [];
    assert FromClients([]) == [] && s.log + [] == s.log;
    hide Moves, Polls, FromServers;
    assert round.poll.Ready? ==> Next(s, round, rules).log == s.log + FromServers(more);
    assert !round.poll.Ready? ==> Next(s, round, rules).log == s.log;
  }

  lemma {:induction false} ServersOweNothing(log: seq<Event>, messages: seq<Bytes>, rules: Rules)
    ensures ToChild(log + FromServers(messages), rules.config, rules.policy) == ToChild(log, rules.config, rules.policy)
    decreases |messages|
  {
    hide ToChild, Run;
    NoneYet(log, messages);
    if messages != [] {
      var last := |messages| - 1;
      ServersOweNothing(log, messages[..last], rules);
      OneMore(log, messages, last);
      assert messages[..last + 1] == messages;
      LogStep(log + FromServers(messages[..last]), FromServer(messages[last]), rules.config, rules.policy);
      var sent := ToChild(log, rules.config, rules.policy);
      assert sent + [] == sent;
    }
  }

  lemma FeedStep(s: State, round: Round, rules: Rules)
    requires Sound(s, rules) && s.inputOpen && s.traffic.sent != Forwarded(s, rules) && Feeds(round)
    ensures var next := Next(s, round, rules);
            && Sound(next, rules) && Forwarded(next, rules) == Forwarded(s, rules) && next.inputOpen
            && |s.traffic.sent| < |next.traffic.sent| <= |Forwarded(s, rules)|
  {
    hide Next, ToChild, ToClient, ChildRest;
    PollsMeaning(s, round, rules);
    ForwardedSame(s, round, rules);
    PassWrites(s, round, rules);
    PassCloses(s, round, rules);
    NextSound(s, round, rules);
  }

  /** THE CHILD GETS EVERYTHING: as long as it stays, after at most as many passes as bytes wait for
      it, all of them have been sent. Its input is then open; with the client's end of file it is
      closed in the next pass (`PassCloses`). */
  lemma Fed(s: State, rounds: seq<Round>, rules: Rules) returns (k: nat)
    requires Sound(s, rules) && s.inputOpen && AllFeed(rounds)
    requires |rounds| >= |Forwarded(s, rules)| - |s.traffic.sent|
    ensures k <= |rounds| && k <= |Forwarded(s, rules)| - |s.traffic.sent|
    ensures var end := AfterPasses(s, rounds[..k], rules);
            && Sound(end, rules) && end.inputOpen
            && end.traffic.sent == Forwarded(end, rules) == Forwarded(s, rules)
  {
    hide Next, ToChild, ToClient, AfterPasses, Sound, Feeds;
    var t := s;
    k := 0;
    SoundBounds(s, rules);
    FollowsNothing(s, rounds, rules);
    while t.traffic.sent != Forwarded(s, rules)
      invariant k <= |rounds| && t == AfterPasses(s, rounds[..k], rules)
      invariant Sound(t, rules) && t.inputOpen && Forwarded(t, rules) == Forwarded(s, rules)
      invariant |s.traffic.sent| + k <= |t.traffic.sent| <= |Forwarded(s, rules)|
      decreases |Forwarded(s, rules)| - |t.traffic.sent|
    {
      SoundBounds(t, rules);
      FeedStep(t, rounds[k], rules);
      PassStep(s, rounds, k, rules);
      t := Next(t, rounds[k], rules);
      k := k + 1;
    }
  }

  // ---- the end ----

  /** The child is gone and its output has ended. */
  predicate Over(s: State) {
    s.reaped && !s.outputOpen
  }

  /** Then nothing is read any more and nothing can fail but writing to the client. */
  lemma OverStays(s: State, round: Round, rules: Rules)
    requires Sound(s, rules) && Over(s)
    ensures var next := Next(s, round, rules);
            && Sound(next, rules) && Over(next) && next.log == s.log
            && |s.traffic.written| <= |next.traffic.written|
    ensures Drains(round) ==> !Faults(s, round, rules) && !BothRead(s, round, rules)
    ensures Ends(s, round, rules) <==> s.traffic.written == Due(s, rules)
  {
    hide Next, ToChild, ToClient, ChildRest, ClientRest;
    PassWrites(s, round, rules);
    PassCloses(s, round, rules);
    NextSound(s, round, rules);
    PollsMeaning(s, round, rules);
    OverLog(s, round, rules);
  }

  lemma OverLog(s: State, round: Round, rules: Rules)
    requires !s.inputOpen && !s.outputOpen
    ensures Next(s, round, rules).log == s.log
  {
    hide ChildRest, ClientRest, NewLines;
    NoLines(s.traffic.clientIn, rules.framing);
    NoLines(s.traffic.serverIn, rules.framing);
    assert s.log + [] + [] == s.log;
  }

  lemma OverPass(s: State, round: Round, rules: Rules)
    requires Sound(s, rules) && Over(s)
    ensures var next := Next(s, round, rules);
            && Sound(next, rules) && Over(next) && Due(next, rules) == Due(s, rules)
            && (Drains(round) ==> |next.traffic.written| >= Least(|s.traffic.written| + 1, |Due(s, rules)|))
  {
    hide Next, ToChild, ToClient, Over, Sound;
    OverStays(s, round, rules);
    SoundBounds(s, rules);
    if Drains(round) && s.traffic.written != Due(s, rules) { DrainStep(s, round, rules); }
  }

  lemma {:induction false} OverRun(s: State, rounds: seq<Round>, rules: Rules)
    requires Sound(s, rules) && Over(s) && AllDrain(rounds)
    ensures var end := AfterPasses(s, rounds, rules);
            && Sound(end, rules) && Over(end) && Due(end, rules) == Due(s, rules)
            && |end.traffic.written| >= Least(|s.traffic.written| + |rounds|, |Due(s, rules)|)
    decreases |rounds|
  {
    hide Next, Sound, Over, Drains, Due;
    if rounds != [] {
      var last := |rounds| - 1;
      OverRun(s, rounds[..last], rules);
      OverPass(AfterPasses(s, rounds[..last], rules), rounds[last], rules);
    }
  }

  /** THE LOOP ENDS: once the child is gone and its output has ended, passes in which the client takes
      something cannot fail, and after as many as bytes wait for it everything has been written. */
  lemma Finishes(s: State, rounds: seq<Round>, rules: Rules)
    requires Sound(s, rules) && Over(s) && AllDrain(rounds)
    ensures forall k :: 0 <= k < |rounds| ==>
              && !Faults(AfterPasses(s, rounds[..k], rules), rounds[k], rules)
              && !BothRead(AfterPasses(s, rounds[..k], rules), rounds[k], rules)
    ensures |rounds| >= Waiting(s, rules) ==>
              var end := AfterPasses(s, rounds, rules);
              Over(end) && end.traffic.written == Due(end, rules)
  {
    hide Next, Over, Drains, AfterPasses, Faults, BothRead, ToClient, ToChild;
    OverRun(s, rounds, rules);
    SoundBounds(AfterPasses(s, rounds, rules), rules);
    hide Sound;
    forall k | 0 <= k < |rounds|
      ensures !Faults(AfterPasses(s, rounds[..k], rules), rounds[k], rules)
      ensures !BothRead(AfterPasses(s, rounds[..k], rules), rounds[k], rules)
    {
      OverRun(s, rounds[..k], rules);
      OverStays(AfterPasses(s, rounds[..k], rules), rounds[k], rules);
    }
  }
}

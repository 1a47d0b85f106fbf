/** `LineFramer` (include/mcp_native_guard/io/line_framer.hpp, src/line_framer.cpp): messages
    from arbitrary chunks of a newline-delimited stream.

    The sink is modelled by the sequence of messages handed to it. `Feeding` is the class's
    behaviour as a function; the lemmas relate it to splitting the whole stream at newlines. */
module Framer {
  import opened Bytes

  const NEWLINE := '\n'

  datatype StatusCode = Ok | TooLarge | Truncated

  datatype Config = Config(maxMessageBytes: nat, trimCarriageReturn: bool)

  /** The framer between two calls: the unfinished line, or the first failure for good. */
  datatype State = Open(buffer: Bytes) | Failed(code: StatusCode)

  function Code(st: State): StatusCode {
    match st case Open(_) => Ok case Failed(code) => code
  }

  /** The offset of the first newline, or the length. */
  function NewlineAt(bytes: Bytes): (n: nat)
    ensures n <= |bytes|
  {
    if bytes == [] || bytes[0] == NEWLINE then 0 else 1 + NewlineAt(bytes[1..])
  }

  lemma {:induction false} NewlineFound(bytes: Bytes)
    ensures var n := NewlineAt(bytes);
            && (n < |bytes| ==> bytes[n] == NEWLINE)
            && (forall k :: 0 <= k < n ==> bytes[k] != NEWLINE)
    decreases |bytes|
  {
    if bytes != [] && bytes[0] != NEWLINE { NewlineFound(bytes[1..]); }
  }

  lemma NoNewlineBefore(bytes: Bytes)
    ensures NEWLINE !in bytes[..NewlineAt(bytes)]
  {
    hide NewlineAt;
    NewlineFound(bytes);
  }

  lemma NewlineIs(bytes: Bytes, n: nat)
    requires n <= |bytes| && (n < |bytes| ==> bytes[n] == NEWLINE)
    requires forall k :: 0 <= k < n ==> bytes[k] != NEWLINE
    ensures NewlineAt(bytes) == n
  {
    hide NewlineAt;
    NewlineFound(bytes);
    var m := NewlineAt(bytes);
    assert !(m < n) && !(n < m);
  }

  function Trim(line: Bytes, config: Config): Bytes {
    if config.trimCarriageReturn && line != [] && line[|line| - 1] == '\r' then line[..|line| - 1] else line
  }

  /** Only a return at the very end is dropped, only one, and only with the option. */
  lemma TrimMeaning(line: Bytes, config: Config)
    ensures Trim(line + "\r", config) == if config.trimCarriageReturn then line else line + "\r"
    ensures line == [] || line[|line| - 1] != '\r' ==> Trim(line, config) == line
  {
    assert (line + "\r")[..|line|] == line;
  }

  /** The new state and the messages handed to the sink. */
  function Feeding(st: State, bytes: Bytes, config: Config): (State, seq<Bytes>)
    decreases |bytes|
  {
    if st.Failed? || bytes == [] then (st, [])
    else
      var n := NewlineAt(bytes);
      if |st.buffer| + n > config.maxMessageBytes then (Failed(TooLarge), [])
      else if n == |bytes| then (Open(st.buffer + bytes), [])
      else
        var (end, messages) := Feeding(Open([]), bytes[n + 1..], config);
        (end, [Trim(st.buffer + bytes[..n], config)] + messages)
  }

  /** What one call still does after it has handed `messages` to the sink. */
  ghost function Resume(messages: seq<Bytes>, st: State, rest: Bytes, config: Config): (State, seq<Bytes>) {
    var (end, more) := Feeding(st, rest, config);
    (end, messages + more)
  }

  lemma ResumeLine(messages: seq<Bytes>, st: State, rest: Bytes, config: Config)
    requires st.Open? && NewlineAt(rest) < |rest| && |st.buffer| + NewlineAt(rest) <= config.maxMessageBytes
    ensures var n := NewlineAt(rest);
            Resume(messages, st, rest, config) ==
            Resume(messages + [Trim(st.buffer + rest[..n], config)], Open([]), rest[n + 1..], config)
  {
    hide NewlineAt, Trim;
    FeedLine(st, rest, config);
    var n := NewlineAt(rest);
    var more := Feeding(Open([]), rest[n + 1..], config).1;
    var line := [Trim(st.buffer + rest[..n], config)];
    assert messages + (line + more) == messages + line + more;
  }

  function Finishing(st: State): State {
    if st.Open? && st.buffer != [] then Failed(Truncated) else st
  }

  // ---- the class ----

  class LineFramer {
    const config: Config
    var buffer: Bytes
    var failed: bool
    var failure: StatusCode
    var failedMessageBytes: nat

    ghost predicate Valid()
      reads this
    {
      && config.maxMessageBytes > 0
      && |buffer| <= config.maxMessageBytes
      && NEWLINE !in buffer
      && (failed <==> failure != Ok)
      && (failed ==> buffer == [])
    }

    ghost function Abstract(): State
      reads this
    {
      if failed then Failed(failure) else Open(buffer)
    }

    constructor (config: Config)
      requires config.maxMessageBytes > 0
      ensures Valid() && Abstract() == Open([]) && this.config == config
    {
      this.config := config;
      buffer, failed, failure, failedMessageBytes := [], false, Ok, 0;
    }

    method Fail(code: StatusCode, messageBytes: nat) returns (status: StatusCode)
      requires Valid() && code != Ok
      modifies this
      ensures Valid() && Abstract() == Failed(code) && status == code
      ensures failedMessageBytes == messageBytes
    {
      buffer := [];
      failed := true;
      failure := code;
      failedMessageBytes := messageBytes;
      return failure;
    }

    method Append(bytes: Bytes) returns (status: StatusCode)
      requires Valid() && !failed && NEWLINE !in bytes
      modifies this
      ensures Valid()
      ensures var was := old(buffer);
              if |was| + |bytes| > config.maxMessageBytes
              then Abstract() == Failed(TooLarge) && status == TooLarge && failedMessageBytes == |was| + |bytes|
              else Abstract() == Open(was + bytes) && status == Ok
    {
      if |bytes| > config.maxMessageBytes - |buffer| {
        status := Fail(TooLarge, |buffer| + |bytes|);
        return;
      }
      buffer := buffer + bytes;
      return Ok;
    }

    method Feed(bytes: Bytes) returns (status: StatusCode, messages: seq<Bytes>)
      requires Valid()
      modifies this
      ensures Valid()
      ensures (Abstract(), messages) == Feeding(old(Abstract()), bytes, config)
      ensures status == Code(Abstract())
      ensures status == TooLarge && !old(failed) ==> failedMessageBytes > config.maxMessageBytes
    {
      hide NewlineAt, Trim;
      messages := [];
      if failed {
        return failure, messages;
      }
      if bytes == [] {
        return Ok, messages;
      }
      var cursor := 0;
      assert bytes[0..] == bytes;
      PrependNothing(Feeding(Abstract(), bytes, config).1);
      while cursor != |bytes|
        invariant 0 <= cursor <= |bytes| && Valid() && !failed
        invariant Feeding(old(Abstract()), bytes, config) == Resume(messages, Open(buffer), bytes[cursor..], config)
        decreases |bytes| - cursor
      {
        ghost var rest := bytes[cursor..];
        var segmentSize := NewlineAt(bytes[cursor..]);
        NoNewlineBefore(rest);
        if segmentSize == |bytes| - cursor {
          assert rest[..segmentSize] == rest;
          status := Append(bytes[cursor..]);
          assert messages + [] == messages;
          return;
        }
        var newline := cursor + segmentSize;
        assert bytes[cursor..newline] == rest[..segmentSize];
        if |buffer| + segmentSize <= config.maxMessageBytes { ResumeLine(messages, Open(buffer), rest, config); }
        if buffer == [] {
          if segmentSize > config.maxMessageBytes {
            status := Fail(TooLarge, segmentSize);
            assert messages + [] == messages;
            return;
          }
          assert [] + rest[..segmentSize] == rest[..segmentSize];
          messages := messages + [Trim(bytes[cursor..newline], config)];
        } else {
          status := Append(bytes[cursor..newline]);
          if status != Ok {
            assert messages + [] == messages;
            return;
          }
          messages := messages + [Trim(buffer, config)];
          buffer := [];
        }
        cursor := newline + 1;
        assert rest[segmentSize + 1..] == bytes[cursor..];
      }
      assert messages + [] == messages;
      return Ok, messages;
    }

    method Finish() returns (status: StatusCode)
      requires Valid()
      modifies this
      ensures Valid() && Abstract() == Finishing(old(Abstract())) && status == Code(Abstract())
    {
      if failed {
        return failure;
      }
      if buffer != [] {
        status := Fail(Truncated, 0);
        return;
      }
      return Ok;
    }

    method Reset()
      requires Valid()
      modifies this
      ensures Valid() && Abstract() == Open([]) && failedMessageBytes == 0
    {
      buffer := [];
      failed := false;
      failure := Ok;
      failedMessageBytes := 0;
    }
  }

  // ---- chunking ----

  function FeedingAll(st: State, chunks: seq<Bytes>, config: Config): (State, seq<Bytes>)
    decreases |chunks|
  {
    if chunks == [] then (st, [])
    else
      var (mid, first) := Feeding(st, chunks[0], config);
      var (end, rest) := FeedingAll(mid, chunks[1..], config);
      (end, first + rest)
  }

  function Flatten(chunks: seq<Bytes>): Bytes {
    if chunks == [] then [] else chunks[0] + Flatten(chunks[1..])
  }

  lemma NewlineOf(a: Bytes, b: Bytes)
    ensures NewlineAt(a + b) == if NewlineAt(a) < |a| then NewlineAt(a) else |a| + NewlineAt(b)
  {
    hide NewlineAt;
    NewlineFound(a);
    NewlineFound(b);
    NewlineIs(a + b, if NewlineAt(a) < |a| then NewlineAt(a) else |a| + NewlineAt(b));
  }

  /** Two calls do what one call with both chunks does. */
  lemma {:induction false} FeedTwice(st: State, a: Bytes, b: Bytes, config: Config)
    ensures var (mid, first) := Feeding(st, a, config);
            var (end, rest) := Feeding(mid, b, config);
            Feeding(st, a + b, config) == (end, first + rest)
    decreases |a|
  {
    hide NewlineAt, Trim;
    var n := NewlineAt(a);
    if st.Failed? {
      PrependNothing([]);
    } else if a == [] {
      assert a + b == b;
      PrependNothing(Feeding(st, b, config).1);
    } else if |st.buffer| + n > config.maxMessageBytes {
      NewlineOf(a, b);
      assert a + b != [] && Feeding(st, a, config) == (Failed(TooLarge), []);
      PrependNothing([]);
    } else if n == |a| {
      FeedPartial(st, a, b, config);
      PrependNothing(Feeding(Open(st.buffer + a), b, config).1);
    } else {
      FeedLine(st, a, config);
      FeedTwice(Open([]), a[n + 1..], b, config);
      NewlineOf(a, b);
      FeedLine(st, a + b, config);
      assert (a + b)[n + 1..] == a[n + 1..] + b && (a + b)[..n] == a[..n];
      var (mid, tail) := Feeding(Open([]), a[n + 1..], config);
      AssociateLines([Trim(st.buffer + a[..n], config)], tail, Feeding(mid, b, config).1);
    }
  }

  lemma AssociateLines(xs: seq<Bytes>, ys: seq<Bytes>, zs: seq<Bytes>)
    ensures xs + (ys + zs) == xs + ys + zs
  {
  }

  lemma PrependNothing(xs: seq<Bytes>)
    ensures [] + xs == xs
  {
  }

  lemma FeedLine(st: State, bytes: Bytes, config: Config)
    requires st.Open? && NewlineAt(bytes) < |bytes| && |st.buffer| + NewlineAt(bytes) <= config.maxMessageBytes
    ensures var n := NewlineAt(bytes);
            var (end, messages) := Feeding(Open([]), bytes[n + 1..], config);
            Feeding(st, bytes, config) == (end, [Trim(st.buffer + bytes[..n], config)] + messages)
  {
    hide NewlineAt, Trim;
  }

  lemma FeedPartial(st: State, a: Bytes, b: Bytes, config: Config)
    requires st.Open? && a != [] && NewlineAt(a) == |a| && |st.buffer| + |a| <= config.maxMessageBytes
    ensures Feeding(st, a, config) == (Open(st.buffer + a), [])
    ensures Feeding(st, a + b, config) == Feeding(Open(st.buffer + a), b, config)
  {
    hide NewlineAt, Trim;
    NewlineOf(a, b);
    var m := NewlineAt(b);
    if b == [] {
      assert a + b == a;
    } else if |st.buffer| + |a| + m > config.maxMessageBytes {
    } else if m == |b| {
      assert st.buffer + (a + b) == st.buffer + a + b;
    } else {
      FeedLine(st, a + b, config);
      FeedLine(Open(st.buffer + a), b, config);
      CutBoth(st.buffer, a, b, m);
    }
  }

  lemma CutBoth(start: Bytes, a: Bytes, b: Bytes, m: nat)
    requires m < |b|
    ensures start + (a + b)[..|a| + m] == start + a + b[..m]
    ensures (a + b)[|a| + m + 1..] == b[m + 1..]
  {
    assert (a + b)[..|a| + m] == a + b[..m];
  }

  /** Any way of cutting the stream gives the result of feeding it whole. */
  lemma {:induction false} ChunksDoNotMatter(st: State, chunks: seq<Bytes>, config: Config)
    ensures FeedingAll(st, chunks, config) == Feeding(st, Flatten(chunks), config)
    decreases |chunks|
  {
    if chunks != [] {
      var (mid, _) := Feeding(st, chunks[0], config);
      ChunksDoNotMatter(mid, chunks[1..], config);
      FeedTwice(st, chunks[0], Flatten(chunks[1..]), config);
    }
  }

  /** FRAMING IS INDEPENDENT OF CHUNKING: two ways of cutting the same stream hand the same
      messages to the sink and end with the same status and the same result of `finish`. */
  lemma ChunkingIndependence(c: seq<Bytes>, d: seq<Bytes>, config: Config)
    requires Flatten(c) == Flatten(d)
    ensures var (s, ms) := FeedingAll(Open([]), c, config);
            var (t, ns) := FeedingAll(Open([]), d, config);
            ms == ns && s == t && Code(s) == Code(t) && Finishing(s) == Finishing(t)
  {
    ChunksDoNotMatter(Open([]), c, config);
    ChunksDoNotMatter(Open([]), d, config);
  }

  // ---- the stream as lines ----

  /** The complete lines of a stream, without their newlines. */
  function Lines(stream: Bytes): seq<Bytes>
    decreases |stream|
  {
    var n := NewlineAt(stream);
    if n == |stream| then [] else [stream[..n]] + Lines(stream[n + 1..])
  }

  /** What follows the last newline. */
  function Remainder(stream: Bytes): Bytes
    decreases |stream|
  {
    var n := NewlineAt(stream);
    if n == |stream| then stream else Remainder(stream[n + 1..])
  }

  function Joined(lines: seq<Bytes>): Bytes {
    if lines == [] then [] else lines[0] + [NEWLINE] + Joined(lines[1..])
  }

  function TrimAll(lines: seq<Bytes>, config: Config): seq<Bytes> {
    if lines == [] then [] else [Trim(lines[0], config)] + TrimAll(lines[1..], config)
  }

  /** The lines up to the first one that is too long. */
  function Fitting(lines: seq<Bytes>, limit: nat): seq<Bytes> {
    if lines == [] || |lines[0]| > limit then [] else [lines[0]] + Fitting(lines[1..], limit)
  }

  lemma {:induction false} LinesCover(stream: Bytes)
    ensures Joined(Lines(stream)) + Remainder(stream) == stream
    ensures NEWLINE !in Remainder(stream)
    decreases |stream|
  {
    hide NewlineAt;
    NewlineFound(stream);
    var n := NewlineAt(stream);
    if n < |stream| {
      LinesCover(stream[n + 1..]);
      var first, rest := stream[..n], stream[n + 1..];
      JoinedFirst(first, Lines(rest));
      hide Joined, Lines, Remainder;
      CutAt(stream, n, Joined(Lines(rest)), Remainder(rest));
    }
  }

  lemma CutAt(stream: Bytes, n: nat, a: Bytes, b: Bytes)
    requires n < |stream| && stream[n] == NEWLINE && stream[n + 1..] == a + b
    ensures stream[..n] + [NEWLINE] + a + b == stream
  {
    assert stream == stream[..n] + [NEWLINE] + stream[n + 1..];
  }

  lemma JoinedFirst(line: Bytes, rest: seq<Bytes>)
    ensures Joined([line] + rest) == line + [NEWLINE] + Joined(rest)
  {
    assert ([line] + rest)[1..] == rest;
  }

  lemma LinesMore(line: Bytes, rest: seq<Bytes>, config: Config)
    ensures var limit := config.maxMessageBytes;
            && Fitting([line] + rest, limit) == (if |line| > limit then [] else [line] + Fitting(rest, limit))
            && TrimAll([line] + rest, config) == [Trim(line, config)] + TrimAll(rest, config)
            && TrimAll([], config) == []
  {
    hide Trim;
    assert ([line] + rest)[1..] == rest;
  }

  lemma SameRest(line: Bytes, a: seq<Bytes>, b: seq<Bytes>)
    ensures [line] + a == [line] + b <==> a == b
  {
    assert ([line] + a)[1..] == a && ([line] + b)[1..] == b;
  }

  /** The last step from a fresh framer: no complete line follows, or the next one is too long. */
  lemma FeedLast(stream: Bytes, config: Config)
    requires NewlineAt(stream) == |stream| || NewlineAt(stream) > config.maxMessageBytes
    ensures Feeding(Open([]), stream, config) ==
            (if NewlineAt(stream) > config.maxMessageBytes then Failed(TooLarge) else Open(stream), [])
  {
    hide NewlineAt;
    assert [] + stream == stream;
  }

  /** FRAMING MEANING: from a fresh framer, the messages are the trimmed lines up to the first one
      over the limit; the framer fails exactly when some line or the unfinished rest is over
      the limit, and otherwise holds exactly the unfinished rest. */
  lemma {:induction false} FeedMeaning(stream: Bytes, config: Config)
    ensures var (end, messages) := Feeding(Open([]), stream, config);
            var lines, rest, limit := Lines(stream), Remainder(stream), config.maxMessageBytes;
            && messages == TrimAll(Fitting(lines, limit), config)
            && (end.Open? <==> Fitting(lines, limit) == lines && |rest| <= limit)
            && end == (if Fitting(lines, limit) == lines && |rest| <= limit then Open(rest) else Failed(TooLarge))
    decreases |stream|
  {
    hide NewlineAt, Feeding, Trim, TrimAll;
    var n, limit := NewlineAt(stream), config.maxMessageBytes;
    LinesMore([], [], config);
    if n == |stream| || n > limit {
      FeedLast(stream, config);
      if n < |stream| { LinesMore(stream[..n], Lines(stream[n + 1..]), config); }
    } else {
      var line, rest := stream[..n], Lines(stream[n + 1..]);
      hide Fitting;
      FeedMeaning(stream[n + 1..], config);
      FeedLine(Open([]), stream, config);
      assert [] + line == line;
      LinesMore(line, rest, config);
      LinesMore(line, Fitting(rest, limit), config);
      SameRest(line, Fitting(rest, limit), rest);
    }
  }

  /** No message and no buffer ever exceeds the limit. */
  lemma {:induction false} FeedBounded(st: State, bytes: Bytes, config: Config)
    requires st.Open? ==> |st.buffer| <= config.maxMessageBytes
    ensures var (end, messages) := Feeding(st, bytes, config);
            && (end.Open? ==> |end.buffer| <= config.maxMessageBytes)
            && forall k :: 0 <= k < |messages| ==> |messages[k]| <= config.maxMessageBytes
    decreases |bytes|
  {
    hide NewlineAt, Trim;
    if st.Open? && bytes != [] {
      var n := NewlineAt(bytes);
      if n < |bytes| && |st.buffer| + n <= config.maxMessageBytes {
        FeedBounded(Open([]), bytes[n + 1..], config);
        FeedLine(st, bytes, config);
        TrimShortens(st.buffer + bytes[..n], config);
      }
    }
  }

  lemma TrimShortens(line: Bytes, config: Config)
    ensures |Trim(line, config)| <= |line|
  {
  }
}

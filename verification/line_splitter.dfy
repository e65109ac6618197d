/**
  The incremental line splitter of a streaming command (push_lines and
  flush_pending in rust/codex_remote_runtime/src/ssh.rs). Output of a
  remote command arrives in chunks; the splitter keeps the unterminated
  tail in a pending buffer and emits one SshStreamLine per '\n'.
*/
module LineSplitter {
  import opened Wrappers
  import opened Strings

  /** One SshStreamLine signal sent to the UI. */
  datatype StreamLine = StreamLine(streamId: nat, isStderr: bool, line: string)

  /** The raw lines of a buffer (text before each '\n') and its unterminated remainder. */
  datatype Split = Split(lines: seq<string>, rest: string)

  /** The result of flushing: at most one signal, and the new pending buffer. */
  datatype Flush = Flush(signal: Option<StreamLine>, pending: string)

  predicate NoNewline(s: string) {
    '\n' !in s
  }

  predicate AllNoNewline(lines: seq<string>) {
    forall i :: 0 <= i < |lines| ==> NoNewline(lines[i])
  }

  predicate EndsWithCr(s: string) {
    |s| > 0 && s[|s| - 1] == '\r'
  }

  /** Each line followed by its terminating '\n', in order. */
  function Terminated(lines: seq<string>): string {
    if lines == [] then [] else lines[0] + "\n" + Terminated(lines[1..])
  }

  /** The concatenation of a sequence of chunks. */
  function Concat(chunks: seq<string>): string {
    if chunks == [] then [] else chunks[0] + Concat(chunks[1..])
  }

  /** Splits a buffer at every '\n': the raw lines and what follows the last '\n'. */
  function Segments(buf: string): (r: Split)
    ensures NoNewline(r.rest)
    ensures AllNoNewline(r.lines)
    decreases |buf|
  {
    match IndexOf(buf, '\n')
    case None => Split([], buf)
    case Some(i) =>
      var tail := Segments(buf[i + 1..]);
      ConsLine(buf[..i], tail.lines);
      Split([buf[..i]] + tail.lines, tail.rest)
  }

  lemma ConsLine(line: string, lines: seq<string>)
    requires NoNewline(line) && AllNoNewline(lines)
    ensures AllNoNewline([line] + lines)
  {
    assert forall k :: 1 <= k < |lines| + 1 ==> ([line] + lines)[k] == lines[k - 1];
  }

  lemma TerminatedCons(line: string, lines: seq<string>)
    ensures Terminated([line] + lines) == line + "\n" + Terminated(lines)
  {
    assert ([line] + lines)[1..] == lines;
  }

  /** The raw lines, each followed by '\n', and then the remainder give back the buffer. */
  lemma {:induction false} SegmentsJoin(buf: string)
    ensures Terminated(Segments(buf).lines) + Segments(buf).rest == buf
    decreases |buf|
  {
    var i := IndexOf(buf, '\n');
    if i.Some? {
      var line := buf[..i.value];
      var tail := Segments(buf[i.value + 1..]);
      SegmentsJoin(buf[i.value + 1..]);
      assert Segments(buf) == Split([line] + tail.lines, tail.rest);
      TerminatedCons(line, tail.lines);
      SplitAround(buf, i.value);
      Regroup(line, "\n", Terminated(tail.lines), tail.rest);
    }
  }

  lemma {:induction false} TerminatedAppend(a: seq<string>, b: seq<string>)
    ensures Terminated(a + b) == Terminated(a) + Terminated(b)
  {
    if a != [] {
      assert (a + b)[1..] == a[1..] + b;
      TerminatedAppend(a[1..], b);
    } else {
      assert a + b == b;
    }
  }

  /** Splitting undoes terminating: lines without '\n' and a remainder without '\n' come back unchanged. */
  lemma {:induction false} SegmentsOfTerminated(lines: seq<string>, rest: string)
    requires AllNoNewline(lines)
    requires NoNewline(rest)
    ensures Segments(Terminated(lines) + rest) == Split(lines, rest)
    decreases |lines|
  {
    if lines == [] {
      assert Terminated(lines) + rest == rest;
      SegmentsNone(rest);
    } else {
      SegmentsOfTerminated(lines[1..], rest);
      SegmentsOfTerminatedStep(lines, rest);
    }
  }

  /** The inductive step: the first line comes off at the first '\n'. */
  lemma SegmentsOfTerminatedStep(lines: seq<string>, rest: string)
    requires lines != [] && NoNewline(lines[0])
    requires Segments(Terminated(lines[1..]) + rest) == Split(lines[1..], rest)
    ensures Segments(Terminated(lines) + rest) == Split(lines, rest)
  {
    var line := lines[0];
    var tail := Terminated(lines[1..]) + rest;
    var buf := Terminated(lines) + rest;
    assert buf == line + ['\n'] + tail by {
      TerminatedFirst(lines, rest);
    }
    assert IndexOf(buf, '\n') == Some(|line|) by {
      IndexOfAfterPrefix(line, '\n', tail);
    }
    assert buf[..|line|] == line && buf[|line| + 1..] == tail by {
      AroundSeparator(line, '\n', tail);
    }
    SegmentsStep(buf, |line|);
    assert [line] + lines[1..] == lines;
  }

  lemma TerminatedFirst(lines: seq<string>, rest: string)
    requires lines != []
    ensures Terminated(lines) + rest == lines[0] + ['\n'] + (Terminated(lines[1..]) + rest)
  {
    Regroup(lines[0], "\n", Terminated(lines[1..]), rest);
  }

  lemma {:induction false} NewlineCount(lines: seq<string>, rest: string)
    requires AllNoNewline(lines)
    requires NoNewline(rest)
    ensures multiset(Terminated(lines) + rest)['\n'] == |lines|
  {
    if lines != [] {
      NewlineCount(lines[1..], rest);
      assert Terminated(lines) + rest == lines[0] + "\n" + (Terminated(lines[1..]) + rest);
      assert multiset(lines[0])['\n'] == 0;
    } else {
      assert multiset(rest)['\n'] == 0;
    }
  }

  /** There is exactly one raw line per '\n' in the buffer. */
  lemma SegmentsCount(buf: string)
    ensures |Segments(buf).lines| == multiset(buf)['\n']
  {
    var s := Segments(buf);
    SegmentsJoin(buf);
    NewlineCount(s.lines, s.rest);
  }

  lemma AllNoNewlineAppend(a: seq<string>, b: seq<string>)
    requires AllNoNewline(a) && AllNoNewline(b)
    ensures AllNoNewline(a + b)
  {
    forall k | 0 <= k < |a + b|
      ensures NoNewline((a + b)[k])
    {
      if k >= |a| {
        assert (a + b)[k] == b[k - |a|];
      }
    }
  }

  /** Splitting a + b is splitting a, then splitting a's remainder followed by b. */
  lemma SegmentsAppend(a: string, b: string)
    ensures Segments(a + b).lines == Segments(a).lines + Segments(Segments(a).rest + b).lines
    ensures Segments(a + b).rest == Segments(Segments(a).rest + b).rest
  {
    var first := Segments(a);
    var second := Segments(first.rest + b);
    var lines := first.lines + second.lines;
    SegmentsJoin(a);
    SegmentsJoin(first.rest + b);
    TerminatedAppend(first.lines, second.lines);
    Regroup(Terminated(first.lines), first.rest, b, []);
    Regroup(Terminated(first.lines), Terminated(second.lines), second.rest, []);
    assert a + b == Terminated(lines) + second.rest;
    AllNoNewlineAppend(first.lines, second.lines);
    SegmentsOfTerminated(lines, second.rest);
  }

  /** A raw line as emitted: every trailing '\r' removed (trim_end_matches('\r')). */
  function StripCr(s: string): (r: string)
    ensures !EndsWithCr(r)
    ensures NoNewline(s) ==> NoNewline(r)
  {
    TrimEndMatches(s, '\r')
  }

  /** Segments when the buffer holds a '\n' at index i and none before it. */
  lemma SegmentsStep(buf: string, i: nat)
    requires IndexOf(buf, '\n') == Some(i)
    ensures Segments(buf).lines == [buf[..i]] + Segments(buf[i + 1..]).lines
    ensures Segments(buf).rest == Segments(buf[i + 1..]).rest
  {
  }

  lemma DropCons<T>(s: seq<T>, k: nat, x: T, t: seq<T>)
    requires k <= |s| && s[k..] == [x] + t
    ensures k < |s| && s[k] == x && s[k + 1..] == t
  {
    assert s[k..][0] == x;
    assert s[k + 1..] == s[k..][1..];
  }

  /** Segments when the buffer holds no '\n'. */
  lemma SegmentsNone(buf: string)
    requires IndexOf(buf, '\n') == None
    ensures Segments(buf) == Split([], buf)
  {
  }

  /** One iteration of push_lines: the next raw line of the whole buffer is the text before buf's first '\n'. */
  lemma PushStep(whole: Split, buf: string, n: nat, i: nat)
    requires IndexOf(buf, '\n') == Some(i)
    requires n <= |whole.lines| && whole.lines[n..] == Segments(buf).lines && whole.rest == Segments(buf).rest
    ensures n < |whole.lines| && whole.lines[n] == buf[..i]
    ensures whole.lines[n + 1..] == Segments(buf[i + 1..]).lines && whole.rest == Segments(buf[i + 1..]).rest
  {
    SegmentsStep(buf, i);
    DropCons(whole.lines, n, buf[..i], Segments(buf[i + 1..]).lines);
  }

  /** One more signal for the next raw line keeps the signals in step with the lines. */
  lemma AppendSignal(signals: seq<StreamLine>, lines: seq<string>, streamId: nat, isStderr: bool)
    requires |signals| < |lines|
    requires forall i :: 0 <= i < |signals| ==>
      signals[i] == StreamLine(streamId, isStderr, StripCr(lines[i]))
    ensures forall i :: 0 <= i < |signals| + 1 ==>
      (signals + [StreamLine(streamId, isStderr, StripCr(lines[|signals|]))])[i]
      == StreamLine(streamId, isStderr, StripCr(lines[i]))
  {
  }

  /** The loop of push_lines: one signal per raw line of buf, in order, and the unterminated rest. */
  method EmitLines(streamId: nat, isStderr: bool, buf0: string) returns (signals: seq<StreamLine>, rest: string)
    ensures rest == Segments(buf0).rest
    ensures |signals| == |Segments(buf0).lines|
    ensures forall i :: 0 <= i < |signals| ==>
      signals[i] == StreamLine(streamId, isStderr, StripCr(Segments(buf0).lines[i]))
  {
    ghost var whole := Segments(buf0);
    var buf := buf0;
    signals := [];
    var idx := IndexOf(buf, '\n');
    while idx.Some?
      invariant idx == IndexOf(buf, '\n')
      invariant |signals| <= |whole.lines|
      invariant whole.lines[|signals|..] == Segments(buf).lines
      invariant whole.rest == Segments(buf).rest
      invariant forall i :: 0 <= i < |signals| ==>
        signals[i] == StreamLine(streamId, isStderr, StripCr(whole.lines[i]))
      decreases |buf|
    {
      var i := idx.value;
      PushStep(whole, buf, |signals|, i);
      var line := StripCr(buf[..i]);
      buf := buf[i + 1..];
      AppendSignal(signals, whole.lines, streamId, isStderr);
      signals := signals + [StreamLine(streamId, isStderr, line)];
      idx := IndexOf(buf, '\n');
    }
    SegmentsNone(buf);
    rest := buf;
  }

  /** Emitted lines carry no '\n' and no trailing '\r'. */
  lemma EmittedLinesClean(signals: seq<StreamLine>, lines: seq<string>, streamId: nat, isStderr: bool)
    requires AllNoNewline(lines) && |signals| == |lines|
    requires forall i :: 0 <= i < |signals| ==> signals[i] == StreamLine(streamId, isStderr, StripCr(lines[i]))
    ensures forall i :: 0 <= i < |signals| ==>
      signals[i].streamId == streamId && signals[i].isStderr == isStderr
      && NoNewline(signals[i].line) && !EndsWithCr(signals[i].line)
  {
  }

  /**
    push_lines: appends the chunk to the pending buffer and emits one signal
    for every complete line in it, leaving the unterminated tail pending.
  */
  method PushLines(streamId: nat, isStderr: bool, pending: string, chunk: string)
    returns (signals: seq<StreamLine>, pending': string)
    ensures NoNewline(pending')
    ensures |signals| == multiset(pending + chunk)['\n']
    ensures forall i :: 0 <= i < |signals| ==>
      signals[i].streamId == streamId && signals[i].isStderr == isStderr
      && NoNewline(signals[i].line) && !EndsWithCr(signals[i].line)
    ensures pending' == Segments(pending + chunk).rest
    ensures |signals| == |Segments(pending + chunk).lines|
    ensures forall i :: 0 <= i < |signals| ==>
      signals[i].line == StripCr(Segments(pending + chunk).lines[i])
    ensures pending + chunk == Terminated(Segments(pending + chunk).lines) + pending'
  {
    signals, pending' := EmitLines(streamId, isStderr, pending + chunk);
    EmittedLinesClean(signals, Segments(pending + chunk).lines, streamId, isStderr);
    SegmentsCount(pending + chunk);
    SegmentsJoin(pending + chunk);
  }

  /**
    flush_pending: at the end of the stream the pending text is emitted as one
    trimmed line unless it is blank; the buffer is cleared either way.
  */
  function FlushPending(streamId: nat, isStderr: bool, pending: string): (r: Flush)
    ensures r.pending == []
    ensures r.signal.Some? <==> !IsBlank(pending)
    ensures r.signal.Some? ==>
      && r.signal.value.streamId == streamId
      && r.signal.value.isStderr == isStderr
      && r.signal.value.line == Trim(pending)
    ensures r.signal.Some? && NoNewline(pending) ==> NoNewline(r.signal.value.line)
  {
    var line := Trim(pending);
    if line == [] then Flush(None, [])
    else
      assert forall c :: c in line ==> c in pending;
      Flush(Some(StreamLine(streamId, isStderr, line)), [])
  }

  /** The raw lines produced by pushing each chunk in turn, and the final pending buffer. */
  function PushAll(pending: string, chunks: seq<string>): Split
    decreases |chunks|
  {
    if chunks == [] then Split([], pending)
    else
      var first := Segments(pending + chunks[0]);
      var more := PushAll(first.rest, chunks[1..]);
      Split(first.lines + more.lines, more.rest)
  }

  /**
    Chunk boundaries do not matter: pushing the chunks one by one emits the same
    lines, and leaves the same pending text, as pushing their concatenation at once.
  */
  lemma {:induction false} PushAllIndependentOfChunking(pending: string, chunks: seq<string>)
    requires NoNewline(pending)
    ensures PushAll(pending, chunks) == Segments(pending + Concat(chunks))
    decreases |chunks|
  {
    if chunks == [] {
      assert pending + Concat(chunks) == pending;
      SegmentsNone(pending);
    } else {
      var first := Segments(pending + chunks[0]);
      PushAllIndependentOfChunking(first.rest, chunks[1..]);
      PushAllStep(pending, chunks);
    }
  }

  /** The inductive step: the first chunk's lines, then the rest pushed onto its remainder. */
  lemma PushAllStep(pending: string, chunks: seq<string>)
    requires chunks != []
    requires
      var first := Segments(pending + chunks[0]);
      PushAll(first.rest, chunks[1..]) == Segments(first.rest + Concat(chunks[1..]))
    ensures PushAll(pending, chunks) == Segments(pending + Concat(chunks))
  {
    var a := pending + chunks[0];
    var b := Concat(chunks[1..]);
    var whole := pending + Concat(chunks);
    assert whole == a + b by {
      assert Concat(chunks) == chunks[0] + b;
      Regroup(pending, chunks[0], b, []);
    }
    var first := Segments(a);
    var more := Segments(first.rest + b);
    assert PushAll(pending, chunks) == Split(first.lines + more.lines, more.rest);
    SegmentsAppend(a, b);
  }
}

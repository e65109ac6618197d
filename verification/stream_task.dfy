/**
  The line handling of a streaming command's task (the spawned task in
  StreamRegistry::start, rust/codex_remote_runtime/src/ssh.rs): chunks of
  stdout and stderr arrive interleaved, each stream has its own pending
  buffer fed by push_lines, and both buffers are flushed, stdout first, when
  the command ends.
*/
module StreamTask {
  import opened Wrappers
  import opened Strings
  import opened LineSplitter

  /** One chunk of output as received, tagged with the stream it came from. */
  datatype Chunk = Chunk(isStderr: bool, text: string)

  /** The texts of one stream's chunks, in arrival order. */
  function ChunksOf(events: seq<Chunk>, isStderr: bool): seq<string>
    decreases |events|
  {
    if events == [] then []
    else
      var last := events[|events| - 1];
      ChunksOf(events[..|events| - 1], isStderr) + (if last.isStderr == isStderr then [last.text] else [])
  }

  /** The lines of one stream's signals, in the order they were sent. */
  function LinesOf(signals: seq<StreamLine>, isStderr: bool): seq<string>
    decreases |signals|
  {
    if signals == [] then []
    else
      var last := signals[|signals| - 1];
      LinesOf(signals[..|signals| - 1], isStderr) + (if last.isStderr == isStderr then [last.line] else [])
  }

  function StripAll(lines: seq<string>): (r: seq<string>)
    ensures |r| == |lines|
    ensures forall i :: 0 <= i < |lines| ==> r[i] == StripCr(lines[i])
  {
    seq(|lines|, i requires 0 <= i < |lines| => StripCr(lines[i]))
  }

  /**
    What one stream shows, as a function of its whole output: every complete
    line with its trailing carriage returns removed, then the trimmed
    unterminated remainder unless it is blank.
  */
  function StreamOutput(chunks: seq<string>): seq<string> {
    var all := Segments(Concat(chunks));
    StripAll(all.lines) + (if IsBlank(all.rest) then [] else [Trim(all.rest)])
  }

  function SignalList(signal: Option<StreamLine>): seq<StreamLine> {
    if signal.Some? then [signal.value] else []
  }

  lemma {:induction false} ConcatSnoc(chunks: seq<string>, c: string)
    ensures Concat(chunks + [c]) == Concat(chunks) + c
    decreases |chunks|
  {
    if chunks == [] {
      assert chunks + [c] == [c];
    } else {
      assert (chunks + [c])[1..] == chunks[1..] + [c];
      ConcatSnoc(chunks[1..], c);
    }
  }

  lemma {:induction false} LinesOfAppend(a: seq<StreamLine>, b: seq<StreamLine>, isStderr: bool)
    ensures LinesOf(a + b, isStderr) == LinesOf(a, isStderr) + LinesOf(b, isStderr)
    decreases |b|
  {
    if b == [] {
      assert a + b == a;
    } else {
      var b' := b[..|b| - 1];
      assert (a + b)[..|a + b| - 1] == a + b';
      LinesOfAppend(a, b', isStderr);
    }
  }

  /** Signals all from one stream contribute their lines to it and nothing to the other. */
  lemma {:induction false} LinesOfUniform(signals: seq<StreamLine>, isStderr: bool)
    requires forall i :: 0 <= i < |signals| ==> signals[i].isStderr == isStderr
    ensures |LinesOf(signals, isStderr)| == |signals|
    ensures forall i :: 0 <= i < |signals| ==> LinesOf(signals, isStderr)[i] == signals[i].line
    ensures LinesOf(signals, !isStderr) == []
    decreases |signals|
  {
    if signals != [] {
      LinesOfUniform(signals[..|signals| - 1], isStderr);
    }
  }

  lemma ChunksOfSnoc(received: seq<Chunk>, e: Chunk, isStderr: bool)
    ensures ChunksOf(received + [e], isStderr)
      == ChunksOf(received, isStderr) + (if e.isStderr == isStderr then [e.text] else [])
  {
    assert (received + [e])[..|received|] == received;
  }

  /** One push_lines call on a stream extends that stream's lines as the whole output so far dictates. */
  lemma TaskStep(prev: seq<string>, text: string, signals: seq<StreamLine>, isStderr: bool)
    requires |signals| == |Segments(Segments(Concat(prev)).rest + text).lines|
    requires forall i :: 0 <= i < |signals| ==>
      signals[i].isStderr == isStderr
      && signals[i].line == StripCr(Segments(Segments(Concat(prev)).rest + text).lines[i])
    ensures StripAll(Segments(Concat(prev + [text])).lines)
      == StripAll(Segments(Concat(prev)).lines) + LinesOf(signals, isStderr)
    ensures Segments(Concat(prev + [text])).rest == Segments(Segments(Concat(prev)).rest + text).rest
    ensures LinesOf(signals, !isStderr) == []
  {
    ConcatSnoc(prev, text);
    SegmentsAppend(Concat(prev), text);
    LinesOfUniform(signals, isStderr);
  }

  /**
    One stream's part of the task state after the chunks received so far: its
    pending buffer is the unterminated tail of its output, and its lines are
    its complete lines.
  */
  ghost predicate Tracks(signals: seq<StreamLine>, pending: string, received: seq<Chunk>, isStderr: bool) {
    && pending == Segments(Concat(ChunksOf(received, isStderr))).rest
    && LinesOf(signals, isStderr) == StripAll(Segments(Concat(ChunksOf(received, isStderr))).lines)
  }

  /** push_lines on the chunk's own stream keeps that stream tracked. */
  lemma TracksPush(signals: seq<StreamLine>, pending: string, received: seq<Chunk>, e: Chunk,
                   lines: seq<StreamLine>, pending': string)
    requires Tracks(signals, pending, received, e.isStderr)
    requires pending' == Segments(pending + e.text).rest
    requires |lines| == |Segments(pending + e.text).lines|
    requires forall i :: 0 <= i < |lines| ==>
      lines[i].isStderr == e.isStderr && lines[i].line == StripCr(Segments(pending + e.text).lines[i])
    ensures Tracks(signals + lines, pending', received + [e], e.isStderr)
  {
    TaskStep(ChunksOf(received, e.isStderr), e.text, lines, e.isStderr);
    ChunksOfSnoc(received, e, e.isStderr);
    LinesOfAppend(signals, lines, e.isStderr);
  }

  /** A chunk of one stream leaves the other stream's state as it was. */
  lemma TracksOther(signals: seq<StreamLine>, pending: string, received: seq<Chunk>, e: Chunk, lines: seq<StreamLine>)
    requires Tracks(signals, pending, received, !e.isStderr)
    requires forall i :: 0 <= i < |lines| ==> lines[i].isStderr == e.isStderr
    ensures Tracks(signals + lines, pending, received + [e], !e.isStderr)
  {
    var other := !e.isStderr;
    assert ChunksOf(received + [e], other) == ChunksOf(received, other) by {
      ChunksOfSnoc(received, e, other);
      assert ChunksOf(received, other) + [] == ChunksOf(received, other);
    }
    assert LinesOf(signals + lines, other) == LinesOf(signals, other) by {
      LinesOfUniform(lines, e.isStderr);
      LinesOfAppend(signals, lines, other);
      assert LinesOf(signals, other) + [] == LinesOf(signals, other);
    }
  }

  /** Flushing a tracked stream shows exactly its output. */
  lemma TracksFlush(signals: seq<StreamLine>, pending: string, received: seq<Chunk>, isStderr: bool, own: Option<StreamLine>)
    requires Tracks(signals, pending, received, isStderr)
    requires own.Some? <==> !IsBlank(pending)
    requires own.Some? ==> own.value.isStderr == isStderr && own.value.line == Trim(pending)
    ensures LinesOf(signals + SignalList(own), isStderr) == StreamOutput(ChunksOf(received, isStderr))
  {
    LinesOfUniform(SignalList(own), isStderr);
    LinesOfAppend(signals, SignalList(own), isStderr);
  }

  /** Signals of the other stream, appended, leave a stream's lines unchanged. */
  lemma OtherStreamAddsNothing(signals: seq<StreamLine>, other: Option<StreamLine>, isStderr: bool)
    requires other.Some? ==> other.value.isStderr == !isStderr
    ensures LinesOf(signals + SignalList(other), isStderr) == LinesOf(signals, isStderr)
  {
    LinesOfUniform(SignalList(other), !isStderr);
    LinesOfAppend(signals, SignalList(other), isStderr);
    assert LinesOf(signals, isStderr) + [] == LinesOf(signals, isStderr);
  }

  lemma SameStreamAppend(a: seq<StreamLine>, b: seq<StreamLine>, streamId: nat)
    requires forall i :: 0 <= i < |a| ==> a[i].streamId == streamId
    requires forall i :: 0 <= i < |b| ==> b[i].streamId == streamId
    ensures forall i :: 0 <= i < |a + b| ==> (a + b)[i].streamId == streamId
  {
  }

  /** Receiving one chunk: push_lines on the pending buffer of the chunk's stream. */
  method Receive(streamId: nat, signals: seq<StreamLine>, outPending: string, errPending: string,
                 ghost received: seq<Chunk>, e: Chunk)
    returns (signals': seq<StreamLine>, outPending': string, errPending': string)
    requires forall i :: 0 <= i < |signals| ==> signals[i].streamId == streamId
    requires Tracks(signals, outPending, received, false)
    requires Tracks(signals, errPending, received, true)
    ensures forall i :: 0 <= i < |signals'| ==> signals'[i].streamId == streamId
    ensures Tracks(signals', outPending', received + [e], false)
    ensures Tracks(signals', errPending', received + [e], true)
  {
    if e.isStderr {
      var lines, pending' := PushLines(streamId, true, errPending, e.text);
      TracksPush(signals, errPending, received, e, lines, pending');
      TracksOther(signals, outPending, received, e, lines);
      SameStreamAppend(signals, lines, streamId);
      signals', outPending', errPending' := signals + lines, outPending, pending';
    } else {
      var lines, pending' := PushLines(streamId, false, outPending, e.text);
      TracksPush(signals, outPending, received, e, lines, pending');
      TracksOther(signals, errPending, received, e, lines);
      SameStreamAppend(signals, lines, streamId);
      signals', outPending', errPending' := signals + lines, pending', errPending;
    }
  }

  /** The end of the task: flush_pending on stdout, then on stderr. */
  method FlushBoth(streamId: nat, signals: seq<StreamLine>, outPending: string, errPending: string,
                   ghost received: seq<Chunk>)
    returns (signals': seq<StreamLine>)
    requires forall i :: 0 <= i < |signals| ==> signals[i].streamId == streamId
    requires Tracks(signals, outPending, received, false)
    requires Tracks(signals, errPending, received, true)
    ensures forall i :: 0 <= i < |signals'| ==> signals'[i].streamId == streamId
    ensures LinesOf(signals', false) == StreamOutput(ChunksOf(received, false))
    ensures LinesOf(signals', true) == StreamOutput(ChunksOf(received, true))
  {
    var outFlush := FlushPending(streamId, false, outPending);
    TracksFlush(signals, outPending, received, false, outFlush.signal);
    OtherStreamAddsNothing(signals, outFlush.signal, true);
    SameStreamAppend(signals, SignalList(outFlush.signal), streamId);
    var mid := signals + SignalList(outFlush.signal);
    var errFlush := FlushPending(streamId, true, errPending);
    TracksFlush(mid, errPending, received, true, errFlush.signal);
    OtherStreamAddsNothing(mid, errFlush.signal, false);
    SameStreamAppend(mid, SignalList(errFlush.signal), streamId);
    signals' := mid + SignalList(errFlush.signal);
  }

  /**
    The task's signals: each stream shows exactly the lines its own output
    dictates, whatever the chunk boundaries and however the two streams
    interleave.
  */
  method RunStreamTask(streamId: nat, events: seq<Chunk>) returns (signals: seq<StreamLine>)
    ensures forall i :: 0 <= i < |signals| ==> signals[i].streamId == streamId
    ensures LinesOf(signals, false) == StreamOutput(ChunksOf(events, false))
    ensures LinesOf(signals, true) == StreamOutput(ChunksOf(events, true))
  {
    var outPending: string := [];
    var errPending: string := [];
    signals := [];
    var k := 0;
    while k < |events|
      invariant 0 <= k <= |events|
      invariant forall i :: 0 <= i < |signals| ==> signals[i].streamId == streamId
      invariant Tracks(signals, outPending, events[..k], false)
      invariant Tracks(signals, errPending, events[..k], true)
    {
      assert events[..k + 1] == events[..k] + [events[k]];
      signals, outPending, errPending := Receive(streamId, signals, outPending, errPending, events[..k], events[k]);
      k := k + 1;
    }
    assert events[..k] == events;
    signals := FlushBoth(streamId, signals, outPending, errPending, events);
  }
}

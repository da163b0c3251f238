/** The streaming windowing transcriber (`WhisperSTTService.transcribe_stream`):
    audio chunks accumulate in a buffer; once it holds five seconds of audio
    the speech-to-text model is asked once for the whole buffer, the buffer is
    emptied whatever the model did, and at most one segment comes out. */
module Stt {
  import opened Results
  import opened Text
  import opened Transcript

  /** Samples per second of the captured audio (`SAMPLE_RATE`). */
  const SampleRate: nat := 16000

  /** Samples per chunk read from the device (`CHUNK_SIZE`). */
  const ChunkSize: nat := 1024

  /** Seconds of audio per transcription window. */
  const WindowSeconds: nat := 5

  /** `buffer_duration >= 5.0` measured in samples instead of float seconds. */
  const Threshold: nat := WindowSeconds * SampleRate

  /** One float32 audio sample as its raw bits; the transcriber never looks at
      sample values, it only moves them. */
  type Sample = bv32

  /** The speech-to-text model: recognised text for a window, or the message
      of the exception it raised. */
  type Model = seq<Sample> -> Result<string, string>

  /** All chunks concatenated in order. */
  function Flatten(chunks: seq<seq<Sample>>): seq<Sample>
  {
    if |chunks| == 0 then [] else chunks[0] + Flatten(chunks[1..])
  }

  /** The segment a window yields for a model answer: none when the model
      raised or when its text is blank after stripping; otherwise one segment
      with zero times (the controller stamps them), the stripped text and no
      speaker. */
  function Emit(answer: Result<string, string>): (r: Option<Segment>)
    ensures r.Some? <==> answer.Success? && !AllSpace(answer.value)
    ensures r.Some? ==>
      && r.value.startTime == 0 && r.value.endTime == 0
      && r.value.speaker == None && r.value.text == Strip(answer.value)
      && r.value.text != ""
  {
    match answer
    case Failure(_) => None
    case Success(text) =>
      StripEmptyIffAllSpace(text);
      if Strip(text) != "" then Some(Segment(0, 0, Strip(text), None)) else None
  }

  /** What one incoming chunk does: the buffer afterwards, the window handed to
      the model (if the threshold was reached) and the segment emitted. */
  datatype StepOut = StepOut(buffer: seq<Sample>, window: Option<seq<Sample>>, segment: Option<Segment>)

  /** One iteration of the loop over the audio stream: the chunk joins the
      buffer, and a buffer that reached the threshold goes to the model and
      is emptied, whatever the model answered. */
  function Step(model: Model, buffer: seq<Sample>, chunk: seq<Sample>): StepOut
  {
    var b := buffer + chunk;
    if |b| >= Threshold then StepOut([], Some(b), Emit(model(b)))
    else StepOut(b, None, None)
  }

  /** No sample is lost or reordered by one step: the window handed to the
      model (if any) followed by the new buffer is the old buffer followed by
      the chunk. The model is called exactly when the threshold is reached,
      only then can a segment come out, and the buffer left behind is always
      short of the threshold. */
  lemma StepConserves(model: Model, buffer: seq<Sample>, chunk: seq<Sample>)
    ensures var r := Step(model, buffer, chunk);
            && (if r.window.Some? then r.window.value else []) + r.buffer == buffer + chunk
            && |r.buffer| < Threshold
            && (r.window.Some? <==> |buffer + chunk| >= Threshold)
            && (r.window.Some? ==> r.buffer == [] && r.segment == Emit(model(r.window.value)))
            && (r.window.None? ==> r.segment == None)
  {
  }

  /** The whole stream: segments emitted, windows handed to the model, and
      the samples still buffered when the stream ended. */
  datatype Transcription = Transcription(segments: seq<Segment>, windows: seq<seq<Sample>>, residual: seq<Sample>)

  /** The empty sequence or a one-element sequence. */
  function AsSeq<T>(o: Option<T>): (r: seq<T>)
    ensures |r| <= 1 && (o.Some? <==> |r| == 1) && (o.Some? ==> r[0] == o.value)
  {
    match o
    case None => []
    case Some(v) => [v]
  }

  /** The segments the model's answers for `windows` give, in order: one per
      window whose answer is non-blank text, none for blank text or an
      exception. */
  function Recognised(model: Model, windows: seq<seq<Sample>>): (r: seq<Segment>)
    ensures |r| <= |windows|
  {
    if |windows| == 0 then []
    else AsSeq(Emit(model(windows[0]))) + Recognised(model, windows[1..])
  }

  /** The loop of `transcribe_stream` from a given buffer. Nothing is lost or
      reordered: the windows followed by the residue are exactly the buffer
      followed by every chunk; every window holds at least the threshold and
      the residue (once a chunk has arrived) less; the segments are exactly
      what the model answered for the windows. */
  function Run(model: Model, buffer: seq<Sample>, chunks: seq<seq<Sample>>): (r: Transcription)
    ensures Flatten(r.windows) + r.residual == buffer + Flatten(chunks)
    ensures forall i :: 0 <= i < |r.windows| ==> |r.windows[i]| >= Threshold
    ensures |chunks| > 0 || |buffer| < Threshold ==> |r.residual| < Threshold
    ensures r.segments == Recognised(model, r.windows)
    decreases |chunks|
  {
    if |chunks| == 0 then Transcription([], [], buffer)
    else
      var s := Step(model, buffer, chunks[0]);
      var rest := Run(model, s.buffer, chunks[1..]);
      AppendAssoc(buffer, chunks[0], Flatten(chunks[1..]));
      match s.window
      case None => rest
      case Some(w) =>
        assert [] + Flatten(chunks[1..]) == Flatten(chunks[1..]);
        CloseWindow(model, w, rest, Flatten(chunks[1..]));
        Transcription(AsSeq(s.segment) + rest.segments, [w] + rest.windows, rest.residual)
  }

  /** A transcription accounts for `input` when its windows followed by its
      residue are exactly `input`, every window holds at least the threshold,
      and its segments are the model's answers for its windows. */
  predicate Accounts(model: Model, t: Transcription, input: seq<Sample>)
  {
    && Flatten(t.windows) + t.residual == input
    && (forall i :: 0 <= i < |t.windows| ==> |t.windows[i]| >= Threshold)
    && t.segments == Recognised(model, t.windows)
  }

  /** Closing a full window in front of a transcription of the rest gives a
      transcription of the window followed by the rest. */
  lemma CloseWindow(model: Model, w: seq<Sample>, rest: Transcription, more: seq<Sample>)
    requires |w| >= Threshold
    requires Flatten(rest.windows) + rest.residual == more
    requires forall i :: 0 <= i < |rest.windows| ==> |rest.windows[i]| >= Threshold
    requires rest.segments == Recognised(model, rest.windows)
    ensures Accounts(model, Transcription(AsSeq(Emit(model(w))) + rest.segments, [w] + rest.windows, rest.residual),
                     w + more)
  {
    WindowsCons(model, w, rest.windows);
    var ws := [w] + rest.windows;
    assert forall i :: 1 <= i < |ws| ==> ws[i] == rest.windows[i - 1];
    assert Flatten(ws) + rest.residual == w + more by {
      AppendAssoc(w, Flatten(rest.windows), rest.residual);
    }
  }

  /** One more window in front: its samples come first and its answer's
      segment, if any, comes first. */
  lemma WindowsCons(model: Model, w: seq<Sample>, ws: seq<seq<Sample>>)
    ensures Flatten([w] + ws) == w + Flatten(ws)
    ensures Recognised(model, [w] + ws) == AsSeq(Emit(model(w))) + Recognised(model, ws)
  {
    assert ([w] + ws)[1..] == ws;
  }

  /** `transcribe_stream`: the loop, starting from an empty buffer. */
  function TranscribeStream(model: Model, chunks: seq<seq<Sample>>): (r: Transcription)
    ensures Flatten(r.windows) + r.residual == Flatten(chunks)
    ensures forall i :: 0 <= i < |r.windows| ==> |r.windows[i]| >= Threshold
    ensures |r.residual| < Threshold
    ensures r.segments == Recognised(model, r.windows)
  {
    Run(model, [], chunks)
  }

  /** While fewer than five seconds of audio have arrived since the last
      reset, the model is not called, nothing is emitted, and every sample
      is still in the buffer. */
  lemma {:induction false} NoCallBelowThreshold(model: Model, buffer: seq<Sample>, chunks: seq<seq<Sample>>)
    requires |buffer + Flatten(chunks)| < Threshold
    ensures Run(model, buffer, chunks).windows == []
    ensures Run(model, buffer, chunks).segments == []
    ensures Run(model, buffer, chunks).residual == buffer + Flatten(chunks)
    decreases |chunks|
  {
    if |chunks| > 0 {
      assert buffer + Flatten(chunks) == (buffer + chunks[0]) + Flatten(chunks[1..]);
      NoCallBelowThreshold(model, buffer + chunks[0], chunks[1..]);
    }
  }

  /** The first window is exactly the buffer plus the chunks up to and
      including the first one that brings the total to five seconds; after it
      the loop starts again from an empty buffer on the remaining chunks. */
  lemma {:induction false} FirstWindow(model: Model, buffer: seq<Sample>, chunks: seq<seq<Sample>>, k: nat)
    requires k < |chunks|
    requires |buffer + Flatten(chunks[..k])| < Threshold
    requires |buffer + Flatten(chunks[..k + 1])| >= Threshold
    ensures var r := Run(model, buffer, chunks);
            var rest := Run(model, [], chunks[k + 1..]);
            && r.windows == [buffer + Flatten(chunks[..k + 1])] + rest.windows
            && r.segments == AsSeq(Emit(model(buffer + Flatten(chunks[..k + 1])))) + rest.segments
            && r.residual == rest.residual
    decreases k
  {
    FlattenPrefixCons(chunks, k + 1);
    var tail := chunks[1..];
    if k == 0 {
      assert tail[..0] == [];
      assert Flatten(chunks[..1]) == chunks[0];
      RunCross(model, buffer, chunks);
    } else {
      FlattenPrefixCons(chunks, k);
      var b := buffer + chunks[0];
      assert buffer + Flatten(chunks[..k]) == b + Flatten(tail[..k - 1]);
      assert buffer + Flatten(chunks[..k + 1]) == b + Flatten(tail[..k]);
      assert |b| <= |buffer + Flatten(chunks[..k])|;
      RunNoCross(model, buffer, chunks);
      FirstWindow(model, b, tail, k - 1);
      assert tail[k..] == chunks[k + 1..];
    }
  }

  /** A chunk that leaves the buffer short of the threshold just joins it. */
  lemma RunNoCross(model: Model, buffer: seq<Sample>, chunks: seq<seq<Sample>>)
    requires |chunks| > 0 && |buffer + chunks[0]| < Threshold
    ensures Run(model, buffer, chunks) == Run(model, buffer + chunks[0], chunks[1..])
  {
  }

  /** A chunk that brings the buffer to the threshold closes a window. */
  lemma RunCross(model: Model, buffer: seq<Sample>, chunks: seq<seq<Sample>>)
    requires |chunks| > 0 && |buffer + chunks[0]| >= Threshold
    ensures var rest := Run(model, [], chunks[1..]);
            Run(model, buffer, chunks)
            == Transcription(AsSeq(Emit(model(buffer + chunks[0]))) + rest.segments,
                             [buffer + chunks[0]] + rest.windows, rest.residual)
  {
  }

  /** The first `k` chunks flatten to the first chunk followed by the next
      `k - 1`. */
  lemma FlattenPrefixCons(chunks: seq<seq<Sample>>, k: nat)
    requires 0 < k <= |chunks|
    ensures Flatten(chunks[..k]) == chunks[0] + Flatten(chunks[1..][..k - 1])
  {
    assert chunks[..k][1..] == chunks[1..][..k - 1];
  }

  /** Every window holds at least five seconds, so there are no more model
      calls than whole five-second spans in the input, and no more segments
      than model calls. */
  lemma CallsBounded(model: Model, chunks: seq<seq<Sample>>)
    ensures var r := TranscribeStream(model, chunks);
            |r.segments| <= |r.windows| && |r.windows| * Threshold <= |Flatten(chunks)|
  {
    var r := TranscribeStream(model, chunks);
    WindowsLength(r.windows);
  }

  /** Windows of at least the threshold each add up to at least that many
      samples per window. */
  lemma {:induction false} WindowsLength(windows: seq<seq<Sample>>)
    requires forall i :: 0 <= i < |windows| ==> |windows[i]| >= Threshold
    ensures |Flatten(windows)| >= |windows| * Threshold
    decreases |windows|
  {
    if |windows| > 0 {
      WindowsLength(windows[1..]);
    }
  }

  /** The buffer is emptied after every threshold crossing whatever the
      model did (text, blank text or an exception): the windows and the
      residue do not depend on the model at all, and a model that always
      raises yields no segment while the stream goes on. */
  lemma {:induction false} WindowsIndependentOfModel(m1: Model, m2: Model, buffer: seq<Sample>,
                                                     chunks: seq<seq<Sample>>)
    ensures Run(m1, buffer, chunks).windows == Run(m2, buffer, chunks).windows
    ensures Run(m1, buffer, chunks).residual == Run(m2, buffer, chunks).residual
    ensures (forall w :: m1(w).Failure?) ==> Run(m1, buffer, chunks).segments == []
    decreases |chunks|
  {
    if |chunks| > 0 {
      WindowsIndependentOfModel(m1, m2, Step(m1, buffer, chunks[0]).buffer, chunks[1..]);
      if forall w :: m1(w).Failure? {
        FailingModelRecognisesNothing(m1, Run(m1, buffer, chunks).windows);
      }
    }
  }

  /** A model that always raises gives no segment for any windows. */
  lemma {:induction false} FailingModelRecognisesNothing(model: Model, windows: seq<seq<Sample>>)
    requires forall w :: model(w).Failure?
    ensures Recognised(model, windows) == []
    decreases |windows|
  {
    if |windows| > 0 {
      FailingModelRecognisesNothing(model, windows[1..]);
    }
  }

  /** Samples of a partly filled window at the end of the stream are never
      handed to the model: none of the windows reaches into the residue. */
  lemma ResidueNeverTranscribed(model: Model, chunks: seq<seq<Sample>>)
    ensures var r := TranscribeStream(model, chunks);
            && |r.residual| < Threshold
            && Flatten(r.windows) == Flatten(chunks)[..|Flatten(chunks)| - |r.residual|]
  {
    var r := TranscribeStream(model, chunks);
    assert Flatten(r.windows) + r.residual == Flatten(chunks);
  }

  /** Samples in a window that the device delivered in whole chunks. */
  const UniformWindow: nat := 79 * ChunkSize

  /** With the device's fixed chunk size every window is exactly 79 chunks
      (5.056 s): 78 chunks are 4.992 s, short of the threshold. So float
      rounding of the source's running duration never moves a boundary. */
  lemma {:induction false} UniformChunks(model: Model, buffer: seq<Sample>, chunks: seq<seq<Sample>>)
    requires forall i :: 0 <= i < |chunks| ==> |chunks[i]| == ChunkSize
    requires |buffer| % ChunkSize == 0 && |buffer| < Threshold
    ensures forall i :: 0 <= i < |Run(model, buffer, chunks).windows| ==>
              |Run(model, buffer, chunks).windows[i]| == UniformWindow
    decreases |chunks|
  {
    if |chunks| > 0 {
      var n := |buffer| / ChunkSize;
      assert |buffer| == n * ChunkSize;
      assert n <= 78;
      var s := Step(model, buffer, chunks[0]);
      if |buffer + chunks[0]| >= Threshold {
        assert n == 78;
        assert (|s.buffer| == 0);
      } else {
        assert |s.buffer| == (n + 1) * ChunkSize;
      }
      UniformChunks(model, s.buffer, chunks[1..]);
    }
  }

  /** Five seconds of audio in one chunk, with a model that hears
      "hello world": exactly one segment with that text. */
  lemma FiveSecondsOneSegment(chunk: seq<Sample>)
    requires |chunk| == WindowSeconds * SampleRate
    ensures var r := TranscribeStream(_ => Success("hello world"), [chunk]);
            |r.segments| == 1 && r.segments[0].text == "hello world"
  {
    var model: Model := _ => Success("hello world");
    assert [] + chunk == chunk;
    RunCross(model, [], [chunk]);
    assert [chunk][1..] == [];
    StripFrame([], "hello world", []);
    assert [] + "hello world" + [] == "hello world";
  }

  /** 4.9 s of audio gives nothing: the model is not even asked. */
  lemma ShortOfThreshold(a: seq<Sample>)
    requires |a| == 49 * SampleRate / 10
    ensures TranscribeStream(_ => Success(" " + "hello world" + "\n"), [a]).segments == []
  {
    var model: Model := _ => Success(" " + "hello world" + "\n");
    assert [] + a == a;
    RunNoCross(model, [], [a]);
    assert [a][1..] == [];
  }

  /** 0.2 s more after 4.9 s crosses the threshold: the cumulative 5.1 s
      give exactly one segment, with the model's text stripped. */
  lemma ThresholdCrossedCumulatively(a: seq<Sample>, b: seq<Sample>)
    requires |a| == 49 * SampleRate / 10 && |b| == 2 * SampleRate / 10
    ensures TranscribeStream(_ => Success(" " + "hello world" + "\n"), [a, b]).segments
            == [Segment(0, 0, "hello world", None)]
  {
    var model: Model := _ => Success(" " + "hello world" + "\n");
    assert [] + a == a;
    RunNoCross(model, [], [a, b]);
    assert [a, b][1..] == [b];
    RunCross(model, a, [b]);
    assert [b][1..] == [];
    StripPadded();
    assert Emit(model(a + b)) == Some(Segment(0, 0, "hello world", None));
  }

  /** Surrounding blanks of the recognised text are stripped. */
  lemma StripPadded()
    ensures Strip(" " + "hello world" + "\n") == "hello world"
  {
    StripFrame(" ", "hello world", "\n");
  }
}

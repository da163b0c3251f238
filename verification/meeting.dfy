/** The meeting session controller (`MeetingController`): an explicit state
    record plus pure transitions. Everything outside the core is a parameter:
    the speech-to-text model, the observers' reactions, the summarizer, the
    wall clock and the renderers of times and numbers. Side effects become an
    event trace: observer notifications, stopping the capture, and files
    written. */
module Meeting {
  import opened Results
  import opened Text
  import opened Transcript
  import Processor
  import Stt

  /** An observer, by its identity. */
  type ObserverId = nat

  /** The controller's state: registered observers (in registration order),
      the segments of the current or last meeting, `is_meeting_active`, and
      the clock reading taken when the meeting started (`None` before any). */
  datatype Controller = Controller(
    observers: seq<ObserverId>,
    segments: seq<Segment>,
    active: bool,
    startTime: Option<nat>)

  /** The collaborators the controller calls but does not own. */
  datatype Env = Env(
    /** the speech-to-text model used by the transcriber */
    model: Stt.Model,
    /** `observer.on_new_segment(segment)`: returns, or raises with a message */
    notify: (ObserverId, Segment) -> Outcome<string>,
    /** `summary_service.summarize(text)`: a summary, or a raised exception */
    summarize: string -> Result<string, string>,
    /** the `k`-th reading of `datetime.now()` during a meeting */
    clock: nat -> nat,
    /** `str(datetime)` of a clock reading */
    showTime: nat -> string,
    /** `f"{x:.2f}"` of a number of ticks expressed in seconds */
    showSeconds: int -> string,
    /** `strftime("%Y%m%d_%H%M%S")` of a clock reading */
    fileStamp: nat -> string)

  /** How the audio source stops producing chunks: it runs out, the user
      presses Ctrl+C (`KeyboardInterrupt`), or it raises another exception. */
  datatype SourceEnd = Exhausted | Interrupted | Raised(error: string)

  /** A finite run of the audio source. */
  datatype Source = Source(chunks: seq<seq<Stt.Sample>>, end: SourceEnd)

  /** Observable effects, in the order they happen. */
  datatype Event =
    | Delivered(observer: ObserverId, segment: Segment)
    | CaptureStopped
    /** a file created at `path` by writing each line followed by a newline:
        its text is `Unlines(lines)` */
    | Written(path: string, lines: seq<string>)

  /** Why the recording loop ended: the source ended, or the observer at
      position `index` raised while being notified. */
  datatype LoopEnd = SourceEnded(how: SourceEnd) | ObserverRaised(index: nat, error: string)

  /** The initial state of a new controller: no observers, no segments, not
      recording, and no start time. */
  function NewController(): (r: Controller)
    ensures r.observers == [] && r.segments == [] && !r.active && r.startTime.None?
  {
    Controller([], [], false, None)
  }

  /** `add_observer`: registers one more observer at the end of the list. */
  function AddObserver(c: Controller, o: ObserverId): (r: Controller)
    ensures |r.observers| == |c.observers| + 1
    ensures r.observers[..|c.observers|] == c.observers && r.observers[|c.observers|] == o
    ensures r.segments == c.segments && r.active == c.active && r.startTime == c.startTime
  {
    c.(observers := c.observers + [o])
  }

  /** The notifications of one segment to the given observers, in order. */
  function Broadcast(observers: seq<ObserverId>, seg: Segment): (r: seq<Event>)
    ensures |r| == |observers|
    ensures forall i :: 0 <= i < |observers| ==> r[i] == Delivered(observers[i], seg)
  {
    seq(|observers|, i requires 0 <= i < |observers| => Delivered(observers[i], seg))
  }

  /** Every segment delivered to every observer: segment by segment, and for
      each segment observer by observer. */
  function FanOut(observers: seq<ObserverId>, segs: seq<Segment>): (r: seq<Event>)
    ensures NotificationsOnly(r)
  {
    if |segs| == 0 then [] else Broadcast(observers, segs[0]) + FanOut(observers, segs[1..])
  }

  /** What notifying all observers of one segment came to. */
  datatype Delivery = AllNotified | StoppedAt(index: nat, error: string)

  /** The inner `for observer in self.observers` loop from position `from`:
      observers are called in order until one raises; the exception is not
      caught here, so the observers after it are not called. */
  function Deliver(notify: (ObserverId, Segment) -> Outcome<string>, observers: seq<ObserverId>,
                   seg: Segment, from: nat): (r: Delivery)
    requires from <= |observers|
    ensures r.StoppedAt? ==>
      from <= r.index < |observers| && notify(observers[r.index], seg) == Fail(r.error)
    ensures forall i :: from <= i < |observers| && (r.StoppedAt? ==> i < r.index) ==>
              notify(observers[i], seg) == Pass
    decreases |observers| - from
  {
    if from == |observers| then AllNotified
    else match notify(observers[from], seg)
      case Fail(e) => StoppedAt(from, e)
      case Pass => Deliver(notify, observers, seg, from + 1)
  }

  /** The segments and notifications of the recording loop, and why it ended. */
  datatype Recording = Recording(segments: seq<Segment>, events: seq<Event>, end: LoopEnd)

  /** The recording loop of `start_meeting` over the segments the transcriber
      still has to yield: each one is stamped with the time elapsed since
      `start` (clock reading number `tick`), appended, and delivered to every
      observer in registration order before the next one is pulled. An
      observer that raises ends the loop. The kept segments are the incoming
      ones in order with their stamps: all of them when the source ended the
      loop, a prefix when an observer raised. */
  function Record(env: Env, observers: seq<ObserverId>, start: nat, tick: nat,
                  incoming: seq<Segment>, sourceEnd: SourceEnd): (r: Recording)
    ensures |r.segments| <= |incoming|
    ensures r.end.SourceEnded? ==> r.end.how == sourceEnd && |r.segments| == |incoming|
    ensures r.end.ObserverRaised? ==> |r.segments| > 0
    ensures forall i :: 0 <= i < |r.segments| ==>
              r.segments[i] == incoming[i].(startTime := env.clock(tick + i) - start)
    decreases |incoming|
  {
    if |incoming| == 0 then Recording([], [], SourceEnded(sourceEnd))
    else
      var stamped := incoming[0].(startTime := env.clock(tick) - start);
      match Deliver(env.notify, observers, stamped, 0)
      case StoppedAt(k, e) =>
        Recording([stamped], Broadcast(observers[..k + 1], stamped), ObserverRaised(k, e))
      case AllNotified =>
        var rest := Record(env, observers, start, tick + 1, incoming[1..], sourceEnd);
        var segs := [stamped] + rest.segments;
        assert forall i :: 1 <= i < |segs| ==> segs[i] == rest.segments[i - 1];
        Recording(segs, Broadcast(observers, stamped) + rest.events, rest.end)
  }

  /** When the recording loop ran to the end of the source, its
      notifications are every kept segment fanned out to every observer. */
  lemma {:induction false} RecordFanOut(env: Env, observers: seq<ObserverId>, start: nat, tick: nat,
                                        incoming: seq<Segment>, sourceEnd: SourceEnd)
    ensures var r := Record(env, observers, start, tick, incoming, sourceEnd);
            r.end.SourceEnded? ==> r.events == FanOut(observers, r.segments)
    decreases |incoming|
  {
    if |incoming| > 0 {
      var r := Record(env, observers, start, tick, incoming, sourceEnd);
      var stamped := incoming[0].(startTime := env.clock(tick) - start);
      if Deliver(env.notify, observers, stamped, 0).AllNotified? {
        var rest := Record(env, observers, start, tick + 1, incoming[1..], sourceEnd);
        RecordFanOut(env, observers, start, tick + 1, incoming[1..], sourceEnd);
        assert r.segments == [stamped] + rest.segments;
        FanOutCons(observers, stamped, rest.segments);
      }
    }
  }

  /** Every observer returned normally for every one of `segs`. */
  predicate AllPassed(notify: (ObserverId, Segment) -> Outcome<string>, observers: seq<ObserverId>,
                      segs: seq<Segment>)
  {
    forall i, j :: 0 <= i < |segs| && 0 <= j < |observers| ==> notify(observers[j], segs[i]) == Pass
  }

  /** A recording that ran to the end of the source had every observer
      return normally for every kept segment. */
  predicate EndedAllPassed(notify: (ObserverId, Segment) -> Outcome<string>, observers: seq<ObserverId>, r: Recording)
  {
    r.end.SourceEnded? ==> AllPassed(notify, observers, r.segments)
  }

  /** The recording loop runs to the end of the source only if no observer
      raised: every observer returned normally for every kept segment. */
  lemma {:induction false} RecordSourceEndedAllPassed(env: Env, observers: seq<ObserverId>, start: nat, tick: nat,
                                                      incoming: seq<Segment>, sourceEnd: SourceEnd)
    ensures EndedAllPassed(env.notify, observers, Record(env, observers, start, tick, incoming, sourceEnd))
    decreases |incoming|
  {
    if |incoming| > 0 {
      var stamped := incoming[0].(startTime := env.clock(tick) - start);
      if Deliver(env.notify, observers, stamped, 0).AllNotified? {
        var rest := Record(env, observers, start, tick + 1, incoming[1..], sourceEnd);
        RecordSourceEndedAllPassed(env, observers, start, tick + 1, incoming[1..], sourceEnd);
        RecordStep(env, observers, start, tick, incoming, sourceEnd);
        AllNotifiedPassed(env.notify, observers, stamped);
        EndedAllPassedCons(env.notify, observers, stamped, rest, Broadcast(observers, stamped) + rest.events);
      } else {
        assert Record(env, observers, start, tick, incoming, sourceEnd).end.ObserverRaised?;
      }
    } else {
      assert Record(env, observers, start, tick, incoming, sourceEnd).segments == [];
    }
  }

  /** Putting a segment that every observer took in front of a recording
      keeps every notification of a completed recording normal. */
  lemma EndedAllPassedCons(notify: (ObserverId, Segment) -> Outcome<string>, observers: seq<ObserverId>,
                           stamped: Segment, rest: Recording, events: seq<Event>)
    requires forall j :: 0 <= j < |observers| ==> notify(observers[j], stamped) == Pass
    requires EndedAllPassed(notify, observers, rest)
    ensures EndedAllPassed(notify, observers, Recording([stamped] + rest.segments, events, rest.end))
  {
    if rest.end.SourceEnded? {
      PassedCons(notify, observers, stamped, rest.segments);
    }
  }

  /** A delivery that reached every observer met no exception. */
  lemma AllNotifiedPassed(notify: (ObserverId, Segment) -> Outcome<string>, observers: seq<ObserverId>, seg: Segment)
    requires Deliver(notify, observers, seg, 0).AllNotified?
    ensures forall j :: 0 <= j < |observers| ==> notify(observers[j], seg) == Pass
  {
  }

  /** A segment every observer took, in front of segments every observer
      took. */
  lemma PassedCons(notify: (ObserverId, Segment) -> Outcome<string>, observers: seq<ObserverId>,
                   x: Segment, segs: seq<Segment>)
    requires forall j :: 0 <= j < |observers| ==> notify(observers[j], x) == Pass
    requires AllPassed(notify, observers, segs)
    ensures AllPassed(notify, observers, [x] + segs)
  {
    var all := [x] + segs;
    assert forall i :: 1 <= i < |all| ==> all[i] == segs[i - 1];
  }

  /** An observer ended the recording at the first exception: every earlier
      segment was taken by every observer, and the last segment by every
      observer before the one that raised. */
  predicate RaisedAtFirst(notify: (ObserverId, Segment) -> Outcome<string>, observers: seq<ObserverId>, r: Recording)
  {
    r.end.ObserverRaised? ==>
      var n := |r.segments|;
      && n > 0
      && AllPassed(notify, observers, r.segments[..n - 1])
      && forall j :: 0 <= j < r.end.index && j < |observers| ==> notify(observers[j], r.segments[n - 1]) == Pass
  }

  /** The recording loop stops at the first observer that raises: no earlier
      notification raised. */
  lemma {:induction false} RecordRaisedAtFirst(env: Env, observers: seq<ObserverId>, start: nat, tick: nat,
                                               incoming: seq<Segment>, sourceEnd: SourceEnd)
    ensures RaisedAtFirst(env.notify, observers, Record(env, observers, start, tick, incoming, sourceEnd))
    decreases |incoming|
  {
    if |incoming| > 0 {
      var stamped := incoming[0].(startTime := env.clock(tick) - start);
      if Deliver(env.notify, observers, stamped, 0).AllNotified? {
        var rest := Record(env, observers, start, tick + 1, incoming[1..], sourceEnd);
        RecordRaisedAtFirst(env, observers, start, tick + 1, incoming[1..], sourceEnd);
        RecordStep(env, observers, start, tick, incoming, sourceEnd);
        AllNotifiedPassed(env.notify, observers, stamped);
        RaisedAtFirstCons(env.notify, observers, stamped, rest, Broadcast(observers, stamped) + rest.events);
      } else {
        RaisedAtFirstHere(env, observers, start, tick, incoming, sourceEnd);
      }
    }
  }

  /** Base case of `RecordRaisedAtFirst`: an observer raised for the first
      incoming segment, after every observer before it returned. */
  lemma RaisedAtFirstHere(env: Env, observers: seq<ObserverId>, start: nat, tick: nat,
                          incoming: seq<Segment>, sourceEnd: SourceEnd)
    requires |incoming| > 0
    requires Deliver(env.notify, observers, incoming[0].(startTime := env.clock(tick) - start), 0).StoppedAt?
    ensures RaisedAtFirst(env.notify, observers, Record(env, observers, start, tick, incoming, sourceEnd))
  {
    var r := Record(env, observers, start, tick, incoming, sourceEnd);
    assert r.segments[..0] == [];
  }

  /** Putting a segment that every observer took in front of a recording
      keeps the first exception the first. */
  lemma RaisedAtFirstCons(notify: (ObserverId, Segment) -> Outcome<string>, observers: seq<ObserverId>,
                          stamped: Segment, rest: Recording, events: seq<Event>)
    requires forall j :: 0 <= j < |observers| ==> notify(observers[j], stamped) == Pass
    requires RaisedAtFirst(notify, observers, rest)
    ensures RaisedAtFirst(notify, observers, Recording([stamped] + rest.segments, events, rest.end))
  {
    if rest.end.ObserverRaised? {
      var segs := [stamped] + rest.segments;
      var m := |rest.segments|;
      assert segs[..|segs| - 1] == [stamped] + rest.segments[..m - 1];
      assert segs[|segs| - 1] == rest.segments[m - 1];
      PassedCons(notify, observers, stamped, rest.segments[..m - 1]);
    }
  }

  /** The shape of a recording that an observer ended: every earlier segment
      fanned out to every observer, then the last segment to the observers up
      to and including the one that raised (which did raise for it). */
  predicate RaisedTrace(notify: (ObserverId, Segment) -> Outcome<string>, observers: seq<ObserverId>, r: Recording)
  {
    r.end.ObserverRaised? ==>
      var n := |r.segments|;
      && n > 0 && r.end.index < |observers|
      && notify(observers[r.end.index], r.segments[n - 1]) == Fail(r.end.error)
      && r.events == FanOut(observers, r.segments[..n - 1])
                     + Broadcast(observers[..r.end.index + 1], r.segments[n - 1])
  }

  /** When an observer raised, the recording loop's trace has that shape. */
  lemma {:induction false} RecordObserverRaised(env: Env, observers: seq<ObserverId>, start: nat, tick: nat,
                                                incoming: seq<Segment>, sourceEnd: SourceEnd)
    ensures RaisedTrace(env.notify, observers, Record(env, observers, start, tick, incoming, sourceEnd))
    decreases |incoming|
  {
    if |incoming| > 0 {
      var stamped := incoming[0].(startTime := env.clock(tick) - start);
      if Deliver(env.notify, observers, stamped, 0).AllNotified? {
        RecordObserverRaised(env, observers, start, tick + 1, incoming[1..], sourceEnd);
        RaisedLater(env, observers, start, tick, incoming, sourceEnd);
      } else {
        RaisedHere(env, observers, start, tick, incoming, sourceEnd);
      }
    }
  }

  /** Base case of `RecordObserverRaised`: an observer raised for the first
      incoming segment. */
  lemma RaisedHere(env: Env, observers: seq<ObserverId>, start: nat, tick: nat,
                   incoming: seq<Segment>, sourceEnd: SourceEnd)
    requires |incoming| > 0
    requires Deliver(env.notify, observers, incoming[0].(startTime := env.clock(tick) - start), 0).StoppedAt?
    ensures RaisedTrace(env.notify, observers, Record(env, observers, start, tick, incoming, sourceEnd))
  {
    var r := Record(env, observers, start, tick, incoming, sourceEnd);
    assert r.segments[..0] == [];
  }

  /** Step case of `RecordObserverRaised`: every observer took the first
      segment and one may raise later on. */
  lemma RaisedLater(env: Env, observers: seq<ObserverId>, start: nat, tick: nat,
                    incoming: seq<Segment>, sourceEnd: SourceEnd)
    requires |incoming| > 0
    requires Deliver(env.notify, observers, incoming[0].(startTime := env.clock(tick) - start), 0).AllNotified?
    requires RaisedTrace(env.notify, observers, Record(env, observers, start, tick + 1, incoming[1..], sourceEnd))
    ensures RaisedTrace(env.notify, observers, Record(env, observers, start, tick, incoming, sourceEnd))
  {
    var rest := Record(env, observers, start, tick + 1, incoming[1..], sourceEnd);
    RecordStep(env, observers, start, tick, incoming, sourceEnd);
    RaisedTraceCons(env.notify, observers, incoming[0].(startTime := env.clock(tick) - start), rest);
  }

  /** Putting a segment that every observer took in front of a recording
      keeps the shape of a recording that an observer ended. */
  lemma RaisedTraceCons(notify: (ObserverId, Segment) -> Outcome<string>, observers: seq<ObserverId>,
                        stamped: Segment, rest: Recording)
    requires RaisedTrace(notify, observers, rest)
    ensures RaisedTrace(notify, observers,
                        Recording([stamped] + rest.segments, Broadcast(observers, stamped) + rest.events, rest.end))
  {
    var r := Recording([stamped] + rest.segments, Broadcast(observers, stamped) + rest.events, rest.end);
    if rest.end.ObserverRaised? {
      var m := |rest.segments|;
      var n := |r.segments|;
      var last := Broadcast(observers[..rest.end.index + 1], rest.segments[m - 1]);
      FanOutConsPrefix(observers, stamped, rest.segments);
      assert r.segments[n - 1] == rest.segments[m - 1];
      assert r.events == (Broadcast(observers, stamped) + FanOut(observers, rest.segments[..m - 1])) + last;
    }
  }

  /** One turn of the recording loop in which every observer took the
      segment: it is kept and fanned out in front of the rest. */
  lemma RecordStep(env: Env, observers: seq<ObserverId>, start: nat, tick: nat,
                   incoming: seq<Segment>, sourceEnd: SourceEnd)
    requires |incoming| > 0
    requires Deliver(env.notify, observers, incoming[0].(startTime := env.clock(tick) - start), 0).AllNotified?
    ensures var stamped := incoming[0].(startTime := env.clock(tick) - start);
            var rest := Record(env, observers, start, tick + 1, incoming[1..], sourceEnd);
            Record(env, observers, start, tick, incoming, sourceEnd)
            == Recording([stamped] + rest.segments, Broadcast(observers, stamped) + rest.events, rest.end)
  {
  }

  /** Fanning out one more segment in front puts its notifications first. */
  lemma FanOutCons(observers: seq<ObserverId>, x: Segment, segs: seq<Segment>)
    ensures FanOut(observers, [x] + segs) == Broadcast(observers, x) + FanOut(observers, segs)
  {
    assert ([x] + segs)[1..] == segs;
  }

  /** The same for all segments but the last. */
  lemma FanOutConsPrefix(observers: seq<ObserverId>, x: Segment, segs: seq<Segment>)
    requires |segs| > 0
    ensures var all := [x] + segs;
            FanOut(observers, all[..|all| - 1]) == Broadcast(observers, x) + FanOut(observers, segs[..|segs| - 1])
            && all[|all| - 1] == segs[|segs| - 1]
  {
    var all := [x] + segs;
    assert all[..|all| - 1] == [x] + segs[..|segs| - 1];
    FanOutCons(observers, x, segs[..|segs| - 1]);
  }

  /** The position of the delivery of segment `i` to observer `j` in a
      fan-out to `n` observers. */
  function Slot(i: nat, j: nat, n: nat): nat
  {
    i * n + j
  }

  /** The delivery of segment `i` to observer `j` sits at position
      `i * |observers| + j` of the fan-out, and there is nothing else: one
      notification per segment and observer. */
  lemma {:induction false} FanOutLayout(observers: seq<ObserverId>, segs: seq<Segment>)
    ensures |FanOut(observers, segs)| == |segs| * |observers|
    ensures forall i: nat, j: nat :: i < |segs| && j < |observers| ==>
              Slot(i, j, |observers|) < |FanOut(observers, segs)|
              && FanOut(observers, segs)[Slot(i, j, |observers|)] == Delivered(observers[j], segs[i])
  {
    FanOutLength(observers, segs);
    forall i: nat, j: nat | i < |segs| && j < |observers|
      ensures Slot(i, j, |observers|) < |FanOut(observers, segs)|
      ensures FanOut(observers, segs)[Slot(i, j, |observers|)] == Delivered(observers[j], segs[i])
    {
      FanOutAt(observers, segs, i, j);
    }
  }

  /** One notification per segment and observer. */
  lemma {:induction false} FanOutLength(observers: seq<ObserverId>, segs: seq<Segment>)
    ensures |FanOut(observers, segs)| == |segs| * |observers|
    decreases |segs|
  {
    if |segs| > 0 {
      FanOutLength(observers, segs[1..]);
      MulPred(|segs|, |observers|);
    }
  }

  /** Where the delivery of segment `i` to observer `j` sits. */
  lemma {:induction false} FanOutAt(observers: seq<ObserverId>, segs: seq<Segment>, i: nat, j: nat)
    requires i < |segs| && j < |observers|
    ensures Slot(i, j, |observers|) < |FanOut(observers, segs)|
    ensures FanOut(observers, segs)[Slot(i, j, |observers|)] == Delivered(observers[j], segs[i])
    decreases i
  {
    var n := |observers|;
    var rest := FanOut(observers, segs[1..]);
    assert FanOut(observers, segs) == Broadcast(observers, segs[0]) + rest;
    if i > 0 {
      FanOutAt(observers, segs[1..], i - 1, j);
      MulPred(i, n);
      assert Slot(i, j, n) == Slot(i - 1, j, n) + n;
      assert segs[1..][i - 1] == segs[i];
    }
  }

  /** `k * n` is `n` more than `(k - 1) * n`. */
  lemma MulPred(k: nat, n: nat)
    requires k > 0
    ensures k * n == (k - 1) * n + n
  {
  }

  /** A trace of observer notifications only. */
  predicate NotificationsOnly(events: seq<Event>)
  {
    forall i :: 0 <= i < |events| ==> events[i].Delivered?
  }

  /** The recording loop's trace holds notifications only. */
  lemma RecordNotifiesOnly(env: Env, observers: seq<ObserverId>, start: nat, tick: nat,
                           incoming: seq<Segment>, sourceEnd: SourceEnd)
    ensures NotificationsOnly(Record(env, observers, start, tick, incoming, sourceEnd).events)
  {
    var r := Record(env, observers, start, tick, incoming, sourceEnd);
    if r.end.SourceEnded? {
      RecordFanOut(env, observers, start, tick, incoming, sourceEnd);
    } else {
      RecordObserverRaised(env, observers, start, tick, incoming, sourceEnd);
      assert RaisedTrace(env.notify, observers, r);
      var n := |r.segments|;
      NotificationsAppend(FanOut(observers, r.segments[..n - 1]),
                          Broadcast(observers[..r.end.index + 1], r.segments[n - 1]));
    }
  }

  /** Two traces of notifications make one. */
  lemma NotificationsAppend(a: seq<Event>, b: seq<Event>)
    requires NotificationsOnly(a) && NotificationsOnly(b)
    ensures NotificationsOnly(a + b)
  {
    assert forall i :: |a| <= i < |a + b| ==> (a + b)[i] == b[i - |a|];
  }

  /** The message saved when a meeting captured no speech. */
  const NoSpeechMessage: string := "Встреча не содержала речи"

  /** The label written for a segment without a usable speaker name. */
  const UnknownSpeaker: string := "Неизвестный"

  /** Directory holding every saved file. */
  const ResultsDir: string := "results"

  /** `segment.speaker or "Неизвестный"`: a missing or empty name (both falsy
      in Python) is written as unknown. */
  function SpeakerLabel(speaker: Option<string>): (r: string)
    ensures speaker.Some? && speaker.value != "" ==> r == speaker.value
    ensures speaker.None? || speaker.value == "" ==> r == UnknownSpeaker
  {
    match speaker
    case Some(name) => if name != "" then name else UnknownSpeaker
    case None => UnknownSpeaker
  }

  /** The line `[<start>s] <speaker>: <text>` of one segment. */
  function SegmentLine(env: Env, seg: Segment): string
  {
    "[" + env.showSeconds(seg.startTime) + "s] " + SpeakerLabel(seg.speaker) + ": " + seg.text
  }

  /** A segment's line opens with its bracketed start and ends with its
      text verbatim, right after the `": "` that closes the speaker label. */
  lemma SegmentLineEnds(env: Env, seg: Segment)
    ensures var r := SegmentLine(env, seg);
            && |r| > |seg.text| + 2 && r[0] == '['
            && r[|r| - |seg.text|..] == seg.text
            && r[|r| - |seg.text| - 2..|r| - |seg.text|] == ": "
  {
  }

  /** The lines of a saved transcript: creation time, duration, a rule of 50
      `=`, a blank line, then one line per segment in order. */
  function TranscriptLines(env: Env, t: MeetingTranscript): (r: seq<string>)
    ensures |r| == 4 + |t.segments|
    ensures r[0] == "Транскрипция встречи от " + env.showTime(t.createdAt)
    ensures r[1] == "Длительность: " + env.showSeconds(t.duration) + " секунд"
    ensures r[2] == Repeat('=', 50) && r[3] == ""
    ensures forall i :: 0 <= i < |t.segments| ==> r[4 + i] == SegmentLine(env, t.segments[i])
  {
    TranscriptHead(env, t) + SegmentLines(env, t.segments)
  }

  /** The four lines a saved transcript opens with. */
  function TranscriptHead(env: Env, t: MeetingTranscript): seq<string>
  {
    ["Транскрипция встречи от " + env.showTime(t.createdAt),
     "Длительность: " + env.showSeconds(t.duration) + " секунд",
     Repeat('=', 50),
     ""]
  }

  /** One line per segment, in order. */
  function SegmentLines(env: Env, segs: seq<Segment>): seq<string>
  {
    seq(|segs|, i requires 0 <= i < |segs| => SegmentLine(env, segs[i]))
  }

  /** The lines of a saved summary: creation time, a rule of 30 `=`, a blank
      line, then the summary itself. */
  function SummaryLines(env: Env, summary: string, createdAt: nat): (r: seq<string>)
    ensures |r| == 4 && r[2] == "" && r[3] == summary
    ensures r[0] == "Саммари встречи от " + env.showTime(createdAt) && r[1] == Repeat('=', 30)
  {
    ["Саммари встречи от " + env.showTime(createdAt), Repeat('=', 30), "", summary]
  }

  /** `results/transcript_<stamp>.txt` for a meeting started at `createdAt`. */
  function TranscriptPath(env: Env, createdAt: nat): string
  {
    ResultsDir + "/" + "transcript_" + env.fileStamp(createdAt) + ".txt"
  }

  /** `results/summary_<stamp>.txt` for a summary created at `createdAt`. */
  function SummaryPath(env: Env, createdAt: nat): string
  {
    ResultsDir + "/" + "summary_" + env.fileStamp(createdAt) + ".txt"
  }

  /** Both files are `.txt` files in the results directory. */
  predicate ResultsFile(path: string)
  {
    |path| > |ResultsDir| + 1 + 4 && path[..|ResultsDir| + 1] == ResultsDir + "/" && path[|path| - 4..] == ".txt"
  }

  /** Transcripts and summaries are `.txt` files in the results directory,
      and a summary never overwrites a transcript, whatever the two times:
      their file names differ right after the directory. */
  lemma PathsDistinct(env: Env, a: nat, b: nat)
    ensures ResultsFile(TranscriptPath(env, a)) && ResultsFile(SummaryPath(env, b))
    ensures TranscriptPath(env, a) != SummaryPath(env, b)
  {
    assert TranscriptPath(env, a)[|ResultsDir| + 1] == 't';
    assert SummaryPath(env, b)[|ResultsDir| + 1] == 's';
  }

  /** `save_transcript`: the file event for a transcript. */
  function SaveTranscript(env: Env, t: MeetingTranscript): Event
  {
    Written(TranscriptPath(env, t.createdAt), TranscriptLines(env, t))
  }

  /** `save_summary`: the file event for a summary. */
  function SaveSummary(env: Env, summary: string, createdAt: nat): Event
  {
    Written(SummaryPath(env, createdAt), SummaryLines(env, summary, createdAt))
  }

  /** What `stop_meeting` returns: the summary (or the no-speech message),
      the transcript's path (`None` without speech), and the summary's path. */
  datatype StopReturn = StopReturn(summary: string, transcriptPath: Option<string>, summaryPath: string)

  /** The state after `stop_meeting`, its effects, and its return value or
      the exception it raised. */
  datatype Stopped = Stopped(state: Controller, events: seq<Event>, result: Result<StopReturn, string>)

  /** Raised by `datetime.now() - self.start_time` when no meeting was started. */
  const NoStartError: string := "TypeError: unsupported operand type(s) for -: 'datetime.datetime' and 'NoneType'"

  /** `stop_meeting`, with the processor's `process` pass as its processing
      step; `tick` numbers the clock reading it takes.
      It always clears the active flag and stops the capture first. Without
      segments it saves only the no-speech summary, stamped now. With
      segments it saves the transcript, then asks the summarizer for the
      full text; a summarizer exception propagates, leaving the transcript
      saved and no summary. */
  function StopMeeting(c: Controller, env: Env, tick: nat): (r: Stopped)
    ensures r.state == c.(active := false)
    ensures |r.events| >= 1 && r.events[0] == CaptureStopped
    ensures forall i :: 1 <= i < |r.events| ==> r.events[i].Written?
    ensures r.result.Success? <==>
      |c.segments| == 0 || (c.startTime.Some? && env.summarize(Join(Texts(c.segments))).Success?)
  {
    var stopped := c.(active := false);
    var events := [CaptureStopped];
    if |c.segments| > 0 then
      var processed := Processor.Process(c.segments);
      match c.startTime
      case None => Stopped(stopped, events, Failure(NoStartError))
      case Some(t0) =>
        var transcript := MeetingTranscript(processed, t0, env.clock(tick) - t0);
        var saved := events + [SaveTranscript(env, transcript)];
        assert processed == c.segments;
        match env.summarize(FullText(transcript))
        case Failure(e) => Stopped(stopped, saved, Failure(e))
        case Success(summary) =>
          Stopped(stopped, saved + [SaveSummary(env, summary, t0)],
                  Success(StopReturn(summary, Some(TranscriptPath(env, t0)), SummaryPath(env, t0))))
    else
      var now := env.clock(tick);
      Stopped(stopped, events + [SaveSummary(env, NoSpeechMessage, now)],
              Success(StopReturn(NoSpeechMessage, None, SummaryPath(env, now))))
  }

  /** A meeting without segments saves only the no-speech summary, stamped
      with the current clock reading, and returns that message without a
      transcript path. */
  lemma StopWithoutSpeech(c: Controller, env: Env, tick: nat)
    requires |c.segments| == 0
    ensures var r := StopMeeting(c, env, tick);
            && r.result == Success(StopReturn(NoSpeechMessage, None, SummaryPath(env, env.clock(tick))))
            && r.events == [CaptureStopped, SaveSummary(env, NoSpeechMessage, env.clock(tick))]
  {
  }

  /** A meeting that captured speech saves, in this order, its transcript
      (started when the meeting started, lasting until now, holding exactly
      its segments) and the summarizer's summary of the segments' texts
      joined by spaces, both stamped with the meeting's start. */
  lemma StopWithSpeech(c: Controller, env: Env, tick: nat, t0: nat, summary: string)
    requires |c.segments| > 0 && c.startTime == Some(t0)
    requires env.summarize(Join(Texts(c.segments))) == Success(summary)
    ensures var r := StopMeeting(c, env, tick);
            var t := MeetingTranscript(c.segments, t0, env.clock(tick) - t0);
            && r.events == [CaptureStopped, SaveTranscript(env, t), SaveSummary(env, summary, t0)]
            && r.result == Success(StopReturn(summary, Some(TranscriptPath(env, t0)), SummaryPath(env, t0)))
  {
    assert Processor.Process(c.segments) == c.segments;
  }

  /** The controller does not catch a summarizer exception: it leaves
      `stop_meeting` after the transcript was saved and before any summary. */
  lemma SummarizerFailurePropagates(c: Controller, env: Env, tick: nat, t0: nat, error: string)
    requires |c.segments| > 0 && c.startTime == Some(t0)
    requires env.summarize(Join(Texts(c.segments))) == Failure(error)
    ensures var r := StopMeeting(c, env, tick);
            && r.result == Failure(error)
            && r.events == [CaptureStopped, SaveTranscript(env, MeetingTranscript(c.segments, t0, env.clock(tick) - t0))]
  {
    assert Processor.Process(c.segments) == c.segments;
  }

  /** Read back line by line, a saved transcript has its two header lines, the
      rule and a blank line, followed by the lines of the segments' text:
      exactly one line per segment, in order, when no segment line holds a
      line break, and more lines otherwise. The rendered times never hold one. */
  lemma {:induction false} TranscriptFileLayout(env: Env, t: MeetingTranscript)
    requires IsLine(env.showTime(t.createdAt)) && IsLine(env.showSeconds(t.duration))
    ensures Lines(Unlines(SaveTranscript(env, t).lines))
            == ["Транскрипция встречи от " + env.showTime(t.createdAt),
                "Длительность: " + env.showSeconds(t.duration) + " секунд",
                Repeat('=', 50), ""]
               + Lines(Unlines(SegmentLines(env, t.segments)))
    ensures (forall i :: 0 <= i < |t.segments| ==> IsLine(SegmentLine(env, t.segments[i]))) ==>
            var lines := Lines(Unlines(SaveTranscript(env, t).lines));
            && |lines| == 4 + |t.segments|
            && forall i :: 0 <= i < |t.segments| ==> lines[4 + i] == SegmentLine(env, t.segments[i])
  {
    var head, body := TranscriptHead(env, t), SegmentLines(env, t.segments);
    TranscriptHeadLines(env, t);
    UnlinesAppend(head, body);
    LinesAfterUnlines(head, Unlines(body));
    if forall i :: 0 <= i < |t.segments| ==> IsLine(SegmentLine(env, t.segments[i])) {
      LinesUnlines(body);
    }
  }

  /** With renderers that write no line break, a transcript's opening lines
      hold none either. */
  lemma TranscriptHeadLines(env: Env, t: MeetingTranscript)
    requires IsLine(env.showTime(t.createdAt)) && IsLine(env.showSeconds(t.duration))
    ensures forall i :: 0 <= i < 4 ==> IsLine(TranscriptHead(env, t)[i])
  {
    LabelledLine("Транскрипция встречи от ", env.showTime(t.createdAt), "");
    LabelledLine("Длительность: ", env.showSeconds(t.duration), " секунд");
    assert TranscriptHead(env, t)[0] == "Транскрипция встречи от " + env.showTime(t.createdAt) + "";
  }

  /** Read back line by line, a saved summary has its header line, a rule of
      30 `=` and a blank line, followed by the lines of the summary: the
      summary itself when it holds no line break, and each of its lines
      otherwise. */
  lemma SummaryFileLayout(env: Env, summary: string, createdAt: nat)
    requires IsLine(env.showTime(createdAt))
    ensures Lines(Unlines(SaveSummary(env, summary, createdAt).lines))
            == ["Саммари встречи от " + env.showTime(createdAt), Repeat('=', 30), ""]
               + Lines(summary + "\n")
    ensures IsLine(summary) ==>
            Lines(Unlines(SaveSummary(env, summary, createdAt).lines))
            == ["Саммари встречи от " + env.showTime(createdAt), Repeat('=', 30), "", summary]
  {
    var ls := SummaryLines(env, summary, createdAt);
    var head := ls[..3];
    assert ls == head + [summary];
    LabelledLine("Саммари встречи от ", env.showTime(createdAt), "");
    assert "Саммари встречи от " + env.showTime(createdAt) + "" == ls[0];
    UnlinesAppend(head, [summary]);
    assert Unlines([summary]) == summary + "\n";
    LinesAfterUnlines(head, summary + "\n");
    if IsLine(summary) {
      LinesUnlines([summary]);
    }
  }

  /** A summary of several lines, as a language model usually writes one,
      reads back as one file line per summary line after the header. */
  lemma MultiLineSummary(env: Env, createdAt: nat)
    requires IsLine(env.showTime(createdAt))
    ensures Lines(Unlines(SaveSummary(env, "a\nb", createdAt).lines))
            == ["Саммари встречи от " + env.showTime(createdAt), Repeat('=', 30), "", "a", "b"]
  {
    SummaryFileLayout(env, "a\nb", createdAt);
    assert "a\nb" + "\n" == Unlines(["a", "b"]);
    LinesUnlines(["a", "b"]);
  }

  /** A rendered value between two fixed single-line pieces stays one line. */
  lemma LabelledLine(pre: string, value: string, post: string)
    requires IsLine(pre) && IsLine(value) && IsLine(post)
    ensures IsLine(pre + value + post)
  {
  }

  /** The recording state `start_meeting` sets up before pulling any audio:
      active, no segments, and the first clock reading as the start time;
      the observers stay registered. */
  function BeginMeeting(c: Controller, env: Env): (r: Controller)
    ensures r.active && r.segments == [] && r.startTime == Some(env.clock(0))
    ensures r.observers == c.observers
  {
    Controller(c.observers, [], true, Some(env.clock(0)))
  }

  /** One whole meeting: the trace of its notifications and files, why the
      recording loop ended, and what `stop_meeting` returned or raised (the
      return value is dropped by `start_meeting`; the exception escapes it). */
  datatype Session = Session(state: Controller, events: seq<Event>, end: LoopEnd, stop: Result<StopReturn, string>)

  /** How many times the capture was stopped. */
  function CountStops(events: seq<Event>): nat
  {
    if |events| == 0 then 0
    else (if events[0] == CaptureStopped then 1 else 0) + CountStops(events[1..])
  }

  /** The recording loop of a meeting: from the first clock reading, over
      the segments the transcriber yields. */
  function LoopOf(c: Controller, env: Env, heard: seq<Segment>, sourceEnd: SourceEnd): Recording
  {
    var begun := BeginMeeting(c, env);
    Record(env, begun.observers, begun.startTime.value, 1, heard, sourceEnd)
  }

  /** The `stop_meeting` call of a meeting whose loop kept `segs`: on the
      recording state holding them, with the clock reading after the last. */
  function StopOf(c: Controller, env: Env, segs: seq<Segment>): Stopped
  {
    StopMeeting(BeginMeeting(c, env).(segments := segs), env, 1 + |segs|)
  }

  /** The body of `start_meeting` once the transcriber's segments are known:
      set up the recording state, run the recording loop over `heard`, then,
      whatever ended the loop (the source running out, Ctrl+C, the source or
      an observer raising), run `stop_meeting` once on the state the loop
      left. */
  function RunMeeting(c: Controller, env: Env, heard: seq<Segment>, sourceEnd: SourceEnd): (r: Session)
    ensures r.state.observers == c.observers && !r.state.active
    ensures r.state.startTime == Some(env.clock(0))
  {
    var rec := LoopOf(c, env, heard, sourceEnd);
    var stop := StopOf(c, env, rec.segments);
    Session(stop.state, rec.events + stop.events, rec.end, stop.result)
  }

  /** The segments the transcriber yields for the source's chunks. */
  function Heard(env: Env, src: Source): seq<Segment>
  {
    Stt.TranscribeStream(env.model, src.chunks).segments
  }

  /** `start_meeting`: the meeting over the segments the transcriber yields
      for the source's audio, ended the way the source ends. */
  function StartMeeting(c: Controller, env: Env, src: Source): (r: Session)
    ensures r.state.observers == c.observers && !r.state.active
    ensures r.state.startTime == Some(env.clock(0))
  {
    RunMeeting(c, env, Heard(env, src), src.end)
  }

  /** A meeting is its recording loop followed by one `stop_meeting`. */
  lemma MeetingParts(c: Controller, env: Env, heard: seq<Segment>, sourceEnd: SourceEnd)
    ensures var r := RunMeeting(c, env, heard, sourceEnd);
            var rec := LoopOf(c, env, heard, sourceEnd);
            var stop := StopOf(c, env, rec.segments);
            && r.state == stop.state && r.state.segments == rec.segments
            && r.events == rec.events + stop.events
            && r.end == rec.end && r.stop == stop.result
  {
  }

  /** `stop_meeting` runs exactly once in every meeting, whatever ended the
      recording loop, and no observer is notified after it stopped the
      capture. */
  lemma StopsOnceAfterNotifications(c: Controller, env: Env, heard: seq<Segment>, sourceEnd: SourceEnd)
    ensures CountStops(RunMeeting(c, env, heard, sourceEnd).events) == 1
    ensures var events := RunMeeting(c, env, heard, sourceEnd).events;
            forall i, j :: 0 <= i < j < |events| && events[j].Delivered? ==> events[i] != CaptureStopped
  {
    MeetingParts(c, env, heard, sourceEnd);
    var rec := LoopOf(c, env, heard, sourceEnd);
    RecordNotifiesOnly(env, c.observers, env.clock(0), 1, heard, sourceEnd);
    NotifyThenStop(rec.events, StopOf(c, env, rec.segments).events);
  }

  /** A trace of notifications followed by a stop and file writes stops
      once, and after all of the notifications. */
  lemma NotifyThenStop(notes: seq<Event>, stop: seq<Event>)
    requires NotificationsOnly(notes)
    requires |stop| >= 1 && stop[0] == CaptureStopped
    requires forall i :: 1 <= i < |stop| ==> stop[i].Written?
    ensures CountStops(notes + stop) == 1
    ensures var events := notes + stop;
            forall i, j :: 0 <= i < j < |events| && events[j].Delivered? ==> events[i] != CaptureStopped
  {
    CountStopsAppend(notes, stop);
    NoStops(notes);
    NoStops(stop[1..]);
    assert stop == [CaptureStopped] + stop[1..];
    CountStopsAppend([CaptureStopped], stop[1..]);
    var events := notes + stop;
    forall i, j | 0 <= i < j < |events| && events[j].Delivered?
      ensures events[i] != CaptureStopped
    {
      assert j < |notes|;
      assert events[i] == notes[i];
    }
  }

  /** Counting distributes over concatenation. */
  lemma {:induction false} CountStopsAppend(a: seq<Event>, b: seq<Event>)
    ensures CountStops(a + b) == CountStops(a) + CountStops(b)
    decreases |a|
  {
    if |a| == 0 {
      assert a + b == b;
    } else {
      assert (a + b)[1..] == a[1..] + b;
      CountStopsAppend(a[1..], b);
    }
  }

  /** A trace without a stop event counts no stops. */
  lemma {:induction false} NoStops(events: seq<Event>)
    requires forall i :: 0 <= i < |events| ==> events[i] != CaptureStopped
    ensures CountStops(events) == 0
    decreases |events|
  {
    if |events| > 0 {
      NoStops(events[1..]);
    }
  }

  /** Whatever the controller held before, `start_meeting` starts afresh: the
      meeting depends only on the registered observers, not on earlier
      segments, start time or active flag. */
  lemma StartMeetingResets(c1: Controller, c2: Controller, env: Env, src: Source)
    requires c1.observers == c2.observers
    ensures StartMeeting(c1, env, src) == StartMeeting(c2, env, src)
  {
    assert BeginMeeting(c1, env) == BeginMeeting(c2, env);
    assert LoopOf(c1, env, Heard(env, src), src.end) == LoopOf(c2, env, Heard(env, src), src.end);
  }

  /** A clock that never goes back. */
  ghost predicate Monotone(clock: nat -> nat)
  {
    forall i, j :: 0 <= i <= j ==> clock(i) <= clock(j)
  }

  /** The kept segments are the transcriber's, in order, each stamped with
      the time between the meeting's start and its arrival; all of them
      unless an observer raised. Under a clock that never goes back the
      stamps are non-negative and non-decreasing. */
  lemma SessionSegments(c: Controller, env: Env, src: Source)
    ensures var segs := StartMeeting(c, env, src).state.segments;
            var heard := Heard(env, src);
            && |segs| <= |heard|
            && (StartMeeting(c, env, src).end.SourceEnded? ==> |segs| == |heard|)
            && forall i :: 0 <= i < |segs| ==>
                 segs[i] == heard[i].(startTime := env.clock(1 + i) - env.clock(0))
    ensures Monotone(env.clock) ==>
              var segs := StartMeeting(c, env, src).state.segments;
              forall i, j :: 0 <= i <= j < |segs| ==> 0 <= segs[i].startTime <= segs[j].startTime
  {
    KeptSegments(c, env, Heard(env, src), src.end);
  }

  /** `SessionSegments` for any segments the transcriber may yield. */
  lemma KeptSegments(c: Controller, env: Env, heard: seq<Segment>, sourceEnd: SourceEnd)
    ensures var r := RunMeeting(c, env, heard, sourceEnd);
            && |r.state.segments| <= |heard|
            && (r.end.SourceEnded? ==> |r.state.segments| == |heard|)
            && forall i :: 0 <= i < |r.state.segments| ==>
                 r.state.segments[i] == heard[i].(startTime := env.clock(1 + i) - env.clock(0))
    ensures Monotone(env.clock) ==>
              var segs := RunMeeting(c, env, heard, sourceEnd).state.segments;
              forall i, j :: 0 <= i <= j < |segs| ==> 0 <= segs[i].startTime <= segs[j].startTime
  {
    MeetingParts(c, env, heard, sourceEnd);
    if Monotone(env.clock) {
      StampsOrdered(env.clock, heard, LoopOf(c, env, heard, sourceEnd).segments);
    }
  }

  /** Segments stamped from a clock that never goes back carry non-negative,
      non-decreasing start times. */
  lemma StampsOrdered(clock: nat -> nat, heard: seq<Segment>, segs: seq<Segment>)
    requires Monotone(clock) && |segs| <= |heard|
    requires forall i :: 0 <= i < |segs| ==> segs[i] == heard[i].(startTime := clock(1 + i) - clock(0))
    ensures forall i, j :: 0 <= i <= j < |segs| ==> 0 <= segs[i].startTime <= segs[j].startTime
  {
    forall i, j | 0 <= i <= j < |segs|
      ensures 0 <= segs[i].startTime <= segs[j].startTime
    {
      assert clock(0) <= clock(1 + i) <= clock(1 + j);
    }
  }

  /** When the source ended the loop (ran out, Ctrl+C, or raised), every
      observer saw every kept segment, segment by segment in arrival order
      and observer by observer in registration order, and only then was the
      capture stopped. */
  lemma SessionNotifications(c: Controller, env: Env, heard: seq<Segment>, sourceEnd: SourceEnd)
    requires RunMeeting(c, env, heard, sourceEnd).end.SourceEnded?
    ensures var r := RunMeeting(c, env, heard, sourceEnd);
            var fan := FanOut(c.observers, r.state.segments);
            && |fan| < |r.events|
            && r.events[..|fan|] == fan
            && r.events[|fan|] == CaptureStopped
  {
    MeetingParts(c, env, heard, sourceEnd);
    var rec := LoopOf(c, env, heard, sourceEnd);
    RecordFanOut(env, c.observers, env.clock(0), 1, heard, sourceEnd);
    var events := rec.events + StopOf(c, env, rec.segments).events;
    assert events[..|rec.events|] == rec.events;
  }

  /** A meeting with less than five seconds of audio yields no segment: the
      only file saved is the no-speech summary, stamped with the second clock
      reading, and that message is what `stop_meeting` returns. */
  lemma ShortMeetingHasNoSpeech(c: Controller, env: Env, src: Source)
    requires |Stt.Flatten(src.chunks)| < Stt.Threshold
    ensures var r := StartMeeting(c, env, src);
            && r.state.segments == []
            && r.events == [CaptureStopped, SaveSummary(env, NoSpeechMessage, env.clock(1))]
            && r.stop == Success(StopReturn(NoSpeechMessage, None, SummaryPath(env, env.clock(1))))
  {
    Stt.NoCallBelowThreshold(env.model, [], src.chunks);
    assert [] + Stt.Flatten(src.chunks) == Stt.Flatten(src.chunks);
    assert Heard(env, src) == [];
    MeetingParts(c, env, [], src.end);
    assert LoopOf(c, env, [], src.end).events == [];
  }

  /** However the loop ended, when it kept segments and the summarizer
      answers, the meeting saves a transcript holding exactly the kept
      segments, started at the first clock reading and lasting until the
      reading after the last segment, followed by the summary. */
  lemma SessionSavesTranscript(c: Controller, env: Env, heard: seq<Segment>, sourceEnd: SourceEnd, summary: string)
    requires |LoopOf(c, env, heard, sourceEnd).segments| > 0
    requires env.summarize(Join(Texts(LoopOf(c, env, heard, sourceEnd).segments))) == Success(summary)
    ensures var rec := LoopOf(c, env, heard, sourceEnd);
            var t := MeetingTranscript(rec.segments, env.clock(0), env.clock(1 + |rec.segments|) - env.clock(0));
            RunMeeting(c, env, heard, sourceEnd).events
            == rec.events + [CaptureStopped, SaveTranscript(env, t), SaveSummary(env, summary, env.clock(0))]
    ensures RunMeeting(c, env, heard, sourceEnd).stop
            == Success(StopReturn(summary, Some(TranscriptPath(env, env.clock(0))), SummaryPath(env, env.clock(0))))
  {
    var rec := LoopOf(c, env, heard, sourceEnd);
    StopOfWithSpeech(c, env, rec.segments, summary);
    MeetingParts(c, env, heard, sourceEnd);
  }

  /** `StopWithSpeech` for the stop of a meeting. */
  lemma StopOfWithSpeech(c: Controller, env: Env, segs: seq<Segment>, summary: string)
    requires |segs| > 0 && env.summarize(Join(Texts(segs))) == Success(summary)
    ensures var t := MeetingTranscript(segs, env.clock(0), env.clock(1 + |segs|) - env.clock(0));
            && StopOf(c, env, segs).events == [CaptureStopped, SaveTranscript(env, t), SaveSummary(env, summary, env.clock(0))]
            && StopOf(c, env, segs).result
               == Success(StopReturn(summary, Some(TranscriptPath(env, env.clock(0))), SummaryPath(env, env.clock(0))))
  {
    StopWithSpeech(BeginMeeting(c, env).(segments := segs), env, 1 + |segs|, env.clock(0), summary);
  }

  /** The controller has no per-observer catch: when the first observer
      raises for every segment, the meeting ends at the first segment, which
      no later observer receives. */
  lemma RaisingObserverEndsMeeting(c: Controller, env: Env, heard: seq<Segment>, sourceEnd: SourceEnd,
                                   error: string)
    requires |c.observers| > 0 && |heard| > 0
    requires forall s: Segment :: env.notify(c.observers[0], s) == Fail(error)
    ensures var r := RunMeeting(c, env, heard, sourceEnd);
            && r.end == ObserverRaised(0, error)
            && |r.state.segments| == 1
            && r.events[0] == Delivered(c.observers[0], r.state.segments[0])
            && r.events[1] == CaptureStopped
  {
    MeetingParts(c, env, heard, sourceEnd);
    var rec := LoopOf(c, env, heard, sourceEnd);
    var stamped := heard[0].(startTime := env.clock(1) - env.clock(0));
    assert Deliver(env.notify, c.observers, stamped, 0) == StoppedAt(0, error);
    assert rec.events == Broadcast(c.observers[..1], stamped);
  }

  /** The processor's class defines `process` only, so the controller's call
      `process_segments` raises this. */
  const MissingProcessSegments: string := "AttributeError: 'TranscriptProcessor' object has no attribute 'process_segments'"

  /** `stop_meeting` as written: a meeting with segments fails at the call of
      the processor method that does not exist, after the capture was
      stopped; a meeting without segments is unaffected. */
  function StopMeetingAsWritten(c: Controller, env: Env, tick: nat): (r: Stopped)
    ensures r.state == c.(active := false)
    ensures |c.segments| == 0 ==> r == StopMeeting(c, env, tick)
  {
    if |c.segments| > 0 then Stopped(c.(active := false), [CaptureStopped], Failure(MissingProcessSegments))
    else StopMeeting(c, env, tick)
  }

  /** Every meeting that captured speech loses it as written: no transcript
      and no summary is saved and the exception escapes, whereas with the
      processor's `process` pass the same meeting saves both. */
  lemma ProcessSegmentsMissing(c: Controller, env: Env, tick: nat, t0: nat, summary: string)
    requires |c.segments| > 0 && c.startTime == Some(t0)
    requires env.summarize(Join(Texts(c.segments))) == Success(summary)
    ensures StopMeetingAsWritten(c, env, tick).events == [CaptureStopped]
    ensures StopMeetingAsWritten(c, env, tick).result == Failure(MissingProcessSegments)
    ensures |StopMeeting(c, env, tick).events| == 3 && StopMeeting(c, env, tick).result.Success?
  {
    StopWithSpeech(c, env, tick, t0, summary);
  }

  /** As written, a whole meeting in which the recording loop kept speech
      ends in the missing method: after the notifications the capture is
      stopped, nothing is saved, and the exception escapes `start_meeting`. */
  lemma MeetingWithSpeechFailsAsWritten(c: Controller, env: Env, heard: seq<Segment>, sourceEnd: SourceEnd)
    requires |LoopOf(c, env, heard, sourceEnd).segments| > 0
    ensures var rec := LoopOf(c, env, heard, sourceEnd);
            var stop := StopMeetingAsWritten(BeginMeeting(c, env).(segments := rec.segments), env, 1 + |rec.segments|);
            && stop.events == [CaptureStopped]
            && stop.result == Failure(MissingProcessSegments)
            && !stop.state.active && stop.state.segments == rec.segments
  {
  }
}

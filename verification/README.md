# meeting_summarizer: a verified model of the session core

This project is a Dafny model of the sequential core of `meeting_summarizer`, a local
meeting-transcription pipeline. Audio is captured, transcribed in five-second windows
by Whisper, fanned out to observers and, when the meeting ends, saved and summarised.
The model covers four pieces:

- **`Stt`**: the streaming windowing transcriber `WhisperSTTService.transcribe_stream`.
  - Chunks accumulate in a buffer.
  - Once the buffer holds five seconds of audio, the speech-to-text model is asked once for the whole buffer.
  - At most one segment comes out, and only when the stripped text is non-empty.
  - The buffer is emptied whatever the model did.
- **`Transcript`**: the value types `TranscriptSegment` and `MeetingTranscript`, with `get_full_text` and `get_speaker_text`.
- **`Processor`**: `TranscriptProcessor.process`. It is a placeholder that returns its input as a list.
- **`Meeting`**: the session controller `MeetingController`, written as an explicit state record with pure transitions.
  - It covers `add_observer`, `start_meeting` (reset, stamp, append, fan out, then always `stop_meeting`) and `stop_meeting` (an empty and a non-empty branch).
  - It also covers the file layouts of `save_transcript` and `save_summary`.

Two support modules hold the shared definitions. `Results` has `Option`, `Result` and `Outcome`. `Text` has Python's `str.isspace`, `str.strip`, `" ".join` and the line structure of a text file, with round-trip lemmas.

Modelling choices:

- **Durations are counted in samples.** The source's float counter tests `buffer_duration >= 5.0`; the model tests `|buffer| >= 5 * 16000`. The counter and the buffer always move together in the source, so one buffer is enough.
  - `Stt.UniformChunks` shows that with the device's 1024-sample chunks every window is exactly 79 chunks (5.056 s), while 78 chunks are 4.992 s. Float rounding therefore cannot move a window boundary.
- **The clock is a function from the number of the reading to a tick.**
  - Reading 0 is taken when the meeting starts, reading `1 + i` when segment `i` arrives, and the next one by `stop_meeting`.
  - The model does not assume that the clock never goes back. Only the ordering of the stamps needs that, and it is a hypothesis of that lemma.
- **Everything the core calls but does not own is a parameter of `Meeting.Env`:**
  - the speech-to-text model, `seq<Sample> -> Result<string, string>`;
  - each observer's reaction to a segment (return, or raise with a message);
  - the summarizer (a summary, or a raised exception);
  - the renderers `str(datetime)`, `f"{x:.2f}"` and `strftime`.
- **The audio source is a finite sequence of chunks plus the way it ended:** it ran out, the user pressed Ctrl+C, or it raised.
- **Effects are an event trace:** observer notifications, the stop of the capture, and files written. A written file is the sequence of its lines, and its text is `Text.Unlines` of them.

Facts about the code that the model keeps:

- **Observer failures are not isolated.** An exception from `on_new_segment` leaves both loops of `start_meeting` (meeting_controller.py:87-92). It is logged, and the recording ends with `stop_meeting` (`Meeting.RaisingObserverEndsMeeting`).
- **`stop_meeting` is modelled with line 113 corrected to call `process`.** As written, that line calls `process_segments`, which does not exist. So every meeting with segments raises `AttributeError` there, before anything is saved or summarised, and the error escapes `start_meeting` through its `finally` (see "## Findings"; `Meeting.MeetingWithSpeechFailsAsWritten`).
- **The controller does not catch a summarizer exception.** In the corrected stop, such an exception escapes `stop_meeting` after the transcript was saved (`Meeting.SummarizerFailurePropagates`). Only `LlamaSummaryService` catches internally, and it is not part of this model.
- **The processor does not clean text or label speakers.** `TranscriptProcessor.process` returns `list(...)` of its input (transcript_processor.py:5-7).
- **The unknown-speaker label is `"Неизвестный"`.** `segment.speaker or ...` also applies it to an empty speaker name.
- **The residue below five seconds is never transcribed.** When the chunks run out, the `for` loop of `transcribe_stream` simply ends, and the samples still in the buffer are never passed to the model (stt_service.py:28-54; `Stt.ResidueNeverTranscribed`).

## Model

| member | source | states |
|---|---|---|
| Text.Strip | src/services/stt_service.py:42-46 | the stripped text is empty or both starts and ends with a non-whitespace character |
| Text.StripIsInfix | src/services/stt_service.py:46 | the stripped text is a contiguous piece of the model's text, and only whitespace was cut off on either side of it |
| Text.StripFrame | src/services/stt_service.py:46 | conversely, whitespace around a text whose ends are not whitespace is exactly what stripping removes |
| Text.StripEmptyIffAllSpace | src/services/stt_service.py:42 | `text.strip()` is empty if and only if the text is all whitespace, in both directions |
| Text.StripIdempotent | src/services/stt_service.py:46 | stripping an already stripped text changes nothing |
| Text.Join | src/models/transcript.py:69 | joining nothing gives the empty string; otherwise the result is as long as all strings plus one separator between each pair of neighbours |
| Text.JoinLayout | src/models/transcript.py:69 | every joined string sits at its offset (all earlier strings plus one separator each), followed by exactly one space unless it is the last |
| Text.JoinSnoc | src/models/transcript.py:69 | joining one more string appends a space and that string |
| Text.LinesUnlines | src/controllers/meeting_controller.py:166-173 | a file written as one `line + "\n"` per line reads back as exactly those lines when none contains a newline |
| Transcript.BySpeaker | src/models/transcript.py:81-84 | a segment is kept exactly when it occurs in the transcript and its speaker equals the given name |
| Transcript.BySpeakerAppend | src/models/transcript.py:81-84 | filtering by speaker distributes over concatenation, so the kept segments stay in their original order |
| Transcript.FullText | src/models/transcript.py:62-69 | the full text is empty exactly when there is no segment, or one segment with empty text |
| Transcript.SpeakerText | src/models/transcript.py:71-84 | a speaker's text is never longer than the full text |
| Transcript.FullTextLength | src/models/transcript.py:69 | the full text of no segments is empty; for n ≥ 1 segments its length is the sum of the text lengths plus n − 1 |
| Transcript.FullTextLayout | src/models/transcript.py:69 | each segment's text appears in the full text at its offset, followed by exactly one space unless it is the last |
| Transcript.UnlabelledIgnored | src/models/transcript.py:81-84 | removing a segment without a speaker leaves every speaker's text unchanged |
| Transcript.SoleSpeakerText | src/models/transcript.py:69-84 | when every segment carries speaker `s`, the text of `s` is the full text |
| Transcript.AbsentSpeakerText | src/models/transcript.py:81-84 | a speaker that no segment carries has empty text |
| Processor.Process | src/services/transcript_processor.py:5-7 | the output has the input's length and holds the input's elements at the same positions |
| Processor.ProcessIdempotent | src/services/transcript_processor.py:5-7 | processing twice is processing once, and the empty input gives the empty output |
| Stt.Emit | src/services/stt_service.py:42-51 | a window yields a segment if and only if the model answered with text that is not all whitespace; the segment has zero times, no speaker and the stripped, non-empty text |
| Stt.StepConserves | src/services/stt_service.py:28-54 | one iteration loses and reorders no sample: the window handed to the model (if any) followed by the new buffer is the old buffer followed by the chunk; the model is called exactly when five seconds are reached, only then can a segment come out, and the buffer left behind is always short of five seconds |
| Stt.TranscribeStream | src/services/stt_service.py:22-54 | from an empty buffer, the windows followed by the residue are exactly the audio; every window holds at least five seconds and the residue less; the segments are the model's answers for the windows |
| Stt.Run | src/services/stt_service.py:22-54 | the windows followed by the residue are exactly the buffer followed by every chunk; each window holds at least five seconds; the residue holds less whenever at least one chunk arrived or the buffer started short; the segments are the model's answers for the windows |
| Stt.NoCallBelowThreshold | src/services/stt_service.py:28-33 | while less than five seconds have accumulated, the model is not called, nothing is emitted and every sample stays buffered |
| Stt.FirstWindow | src/services/stt_service.py:29-40 | the first window is the buffer plus the chunks up to the first one that brings the total to five seconds, in order, and the loop then restarts from an empty buffer |
| Stt.WindowsIndependentOfModel | src/services/stt_service.py:50-54 | the windows and the residue are the same for every model, because the reset happens whatever the model did; a model that always raises yields no segment |
| Stt.CallsBounded | src/services/stt_service.py:30-33 | there are no more segments than model calls, and no more model calls than whole five-second spans of input |
| Stt.ResidueNeverTranscribed | src/services/stt_service.py:28-33 | the residue is shorter than five seconds, and the windows cover exactly the input without it: there is no final flush |
| Stt.UniformChunks | src/services/stt_service.py:29-33 | with fixed 1024-sample chunks, every window is exactly 79 chunks long |
| Stt.FiveSecondsOneSegment | src/services/stt_service.py:33-48 | one five-second chunk and a model hearing "hello world" give exactly one segment with that text |
| Stt.ShortOfThreshold | src/services/stt_service.py:30-33 | 4.9 s of audio gives no segment |
| Stt.ThresholdCrossedCumulatively | src/services/stt_service.py:29-48 | 4.9 s followed by 0.2 s gives exactly one segment, holding the stripped text |
| Meeting.NewController | src/controllers/meeting_controller.py:50-53 | a new controller has no observers and no segments, is not recording, and has no start time |
| Meeting.AddObserver | src/controllers/meeting_controller.py:56-63 | the observer list grows by one at its end, earlier entries are unchanged, and nothing else changes |
| Meeting.Deliver | src/controllers/meeting_controller.py:87-88 | observers are called in registration order; if one raises, every earlier one returned and no later one is reached |
| Meeting.FanOutLayout | src/controllers/meeting_controller.py:82-88 | the notifications of a full fan-out are one per segment and observer, and segment `i` reaches observer `j` at position `i * |observers| + j` |
| Meeting.Record | src/controllers/meeting_controller.py:82-88 | the kept segments are the incoming ones in order, each stamped with the elapsed time at its arrival; all of them when the source ended the loop, and at least one when an observer raised; that the loop ends exactly at the first exception is stated by Meeting.RecordSourceEndedAllPassed and Meeting.RecordRaisedAtFirst |
| Meeting.RecordSourceEndedAllPassed | src/controllers/meeting_controller.py:82-92 | the loop reaches the end of the source only if every observer returned normally for every kept segment |
| Meeting.RecordRaisedAtFirst | src/controllers/meeting_controller.py:82-92 | when an observer raised, every observer returned normally for every earlier segment, and every observer before the one that raised returned normally for the last segment: the loop stops at the first exception |
| Meeting.RecordFanOut | src/controllers/meeting_controller.py:82-88 | when the source ended the loop, the notifications are every kept segment delivered to every observer, segment by segment and observer by observer |
| Meeting.RecordObserverRaised | src/controllers/meeting_controller.py:82-93 | when an observer raised, all earlier segments went to every observer, and the last went to the observers up to the one that raised for it |
| Meeting.StopMeeting | src/controllers/meeting_controller.py:107-144 | only the active flag is cleared; the capture is stopped first; everything after that is a file write; the call returns normally if and only if there were no segments, or there was a start time and the summarizer answered |
| Meeting.StopWithoutSpeech | src/controllers/meeting_controller.py:140-144 | without segments only the no-speech summary is saved, stamped now, and the message, no transcript path and the summary path are returned |
| Meeting.StopWithSpeech | src/controllers/meeting_controller.py:111-139 | with segments the transcript (exactly those segments, from the start until now) is saved, then the summarizer's summary of the space-joined texts, both stamped with the start |
| Meeting.SummarizerFailurePropagates | src/controllers/meeting_controller.py:123-130 | a summarizer exception escapes after the transcript was saved and before any summary is saved |
| Meeting.SpeakerLabel | src/controllers/meeting_controller.py:172 | a non-empty speaker name is written as is; a missing or empty name (both falsy) becomes "Неизвестный" |
| Meeting.SegmentLineEnds | src/controllers/meeting_controller.py:172-173 | a segment's line opens with its bracketed start and ends with its text verbatim, right after the `": "` closing the speaker label |
| Meeting.TranscriptLines | src/controllers/meeting_controller.py:166-173 | a transcript file has its creation header, its duration line, a rule of 50 `=`, a blank line, then one line per segment in order |
| Meeting.SummaryLines | src/controllers/meeting_controller.py:199-203 | a summary file has its creation header, a rule of 30 `=`, a blank line, then the summary |
| Meeting.PathsDistinct | src/controllers/meeting_controller.py:161-196 | transcripts and summaries are `.txt` files under `results/`, and a summary path never equals a transcript path, whatever the two times |
| Meeting.TranscriptFileLayout | src/controllers/meeting_controller.py:146-176 | `save_transcript`'s file, read back line by line, is the creation header, the duration line, the rule and a blank line, followed by the lines of the segment lines' text, for any segment texts; when no segment text holds a line break, that is exactly 4 + n lines with each segment's line in order |
| Meeting.SummaryFileLayout | src/controllers/meeting_controller.py:178-206 | `save_summary`'s file, read back line by line, is its header, the 30-character rule and a blank line, followed by the lines of `summary + "\n"` for any summary; for a summary without a line break, that is the summary as the fourth and last line |
| Meeting.MultiLineSummary | src/controllers/meeting_controller.py:200-203 | a two-line summary such as `"a\nb"` reads back as five lines: the header, the rule, the blank line, then `a` and `b` |
| Text.LinesAfterUnlines | src/controllers/meeting_controller.py:166-173 | text written after lines without newlines reads back as those lines followed by that text's own lines, however many line breaks it holds |
| Meeting.BeginMeeting | src/controllers/meeting_controller.py:72-75 | before any audio is pulled the meeting is active, holds no segments and starts at the first clock reading, whatever the controller held; the observers stay |
| Meeting.StartMeeting | src/controllers/meeting_controller.py:65-95 | after a meeting the observers are unchanged, the meeting is inactive, and its start is the first clock reading |
| Meeting.RunMeeting | src/controllers/meeting_controller.py:72-95 | the same for the meeting over any segments the transcriber may yield |
| Meeting.StopsOnceAfterNotifications | src/controllers/meeting_controller.py:77-95 | however the loop ended, the capture is stopped exactly once, and no observer is notified after it |
| Meeting.StartMeetingResets | src/controllers/meeting_controller.py:72-75 | a meeting depends only on the registered observers, not on earlier segments, start time or active flag |
| Meeting.SessionSegments | src/controllers/meeting_controller.py:82-84 | the kept segments are the transcriber's, in order, stamped with the time since the start, all of them unless an observer raised; under a clock that never goes back the stamps are non-negative and non-decreasing |
| Meeting.KeptSegments | src/controllers/meeting_controller.py:82-84 | the same for any segments the transcriber may yield |
| Meeting.SessionNotifications | src/controllers/meeting_controller.py:82-95 | when the source ended the loop, every observer got every kept segment in order, and only then was the capture stopped |
| Meeting.ShortMeetingHasNoSpeech | src/controllers/meeting_controller.py:140-144 | a meeting with less than five seconds of audio keeps no segment and saves only the no-speech summary |
| Meeting.SessionSavesTranscript | src/controllers/meeting_controller.py:111-139 | when the loop kept segments and the summarizer answers, the trace ends with the stop, the transcript of exactly those segments, and the summary |
| Meeting.RaisingObserverEndsMeeting | src/controllers/meeting_controller.py:86-95 | when the first observer always raises, the meeting ends after the first segment, which no later observer receives |
| Meeting.StopMeetingAsWritten | src/controllers/meeting_controller.py:111-113 | as written, the stop still clears only the active flag, and a meeting without segments behaves exactly as under the corrected stop |
| Meeting.MeetingWithSpeechFailsAsWritten | src/controllers/meeting_controller.py:94-113 | as written, a whole meeting whose loop kept speech ends with the capture stopped, nothing saved, and `AttributeError` escaping `start_meeting` |
| Meeting.ProcessSegmentsMissing | src/controllers/meeting_controller.py:113 | as written, every meeting with speech saves neither file and raises, while the corrected stop saves both and returns |

## Left out

- The audio device (`sounddevice` in `src/services/audio_capture.py`) is not part of this model. The source is a finite chunk sequence plus the way it ended, and `stop_capture` is an event.
- Whisper's internals and its arguments (`fp16`, `task`, `language`) are not modelled: the model is an oracle.
- The summarizer's internals and the fallback strings of `LlamaSummaryService` are not modelled: the summarizer is an oracle.
- Floats are left out: durations are sample counts and times are whole clock ticks. `str(datetime)`, `.2f` and `strftime` are abstract renderers.
- Stt.Run: compares the exact sample count with the threshold, whereas the source sums rounded float durations. For chunk sizes other than the device's 1024 samples, the source can close a window one chunk later than the model. With 1600-sample chunks, fifty additions of 0.1 give 4.999999999999998 in IEEE double, so the source needs 51 chunks where the model closes at 50.
- Logging and `print` have no effect on the state, so they are left out.
- Meeting.TranscriptFileLayout: takes as given that the rendered `str(datetime)` and `.2f` values hold no line break, as Python's renderers never produce one; Meeting.SummaryFileLayout takes the same for the rendered time.
- `os.makedirs` and file-system failures are left out. A saved file is an event carrying its path and lines.
- Generator laziness: the model computes the transcriber's answers for all chunks, while the source stops pulling audio when an observer raises. The speech-to-text model is pure here, so nothing observable differs.
- A `KeyboardInterrupt` or source exception is modelled only between chunks. An interrupt inside the speech-to-text call, an observer or `stop_meeting` itself is not.
- The abstract `STTService` interface and `tests/test_stt_service.py` are not modelled. The test instantiates the abstract class and contradicts the code.
- The unused `start_time` local of `transcribe_stream` is not modelled, because nothing reads it.
- Transcript.BySpeaker: its contract states which segments are kept, not their order. Order follows from Transcript.BySpeakerAppend and the definition.
- Meeting.StopMeeting: models line 113 corrected to call `process`. As written, every meeting with segments raises there instead (Meeting.StopMeetingAsWritten).
- Meeting.StopWithSpeech: states the corrected stop. As written, line 113 raises before the transcript is saved.
- Meeting.SummarizerFailurePropagates: states the corrected stop. As written, the summarizer is never reached when there are segments.
- Meeting.SessionSavesTranscript: states a meeting with the corrected stop. As written, such a meeting saves nothing (Meeting.MeetingWithSpeechFailsAsWritten).
- Meeting.StartMeeting: built on the corrected stop, as is Meeting.RunMeeting. Their contracts hold as written too, because the as-written stop changes the state in the same way.
- Meeting.RunMeeting: see Meeting.StartMeeting.
- Observers are a pure function of the observer and the segment (`Env.notify`). An observer whose reaction depends on its earlier calls is not modelled.
- An observer that mutates the shared `TranscriptSegment` object is not modelled either. The same object is appended (meeting_controller.py:84), passed to observers (:88) and written (:173), so such a change would alter the saved transcript.
- Meeting.StopMeeting: the case of segments without a start time raises a `TypeError` in the model. `start_meeting` always sets the start time first, so the case is not reachable from it.

## Findings

| source | as written | input that shows it | evidently intended | confidence | as-written member | corrected member |
|---|---|---|---|---|---|---|
| src/controllers/meeting_controller.py:113 | `stop_meeting` calls `process_segments` on the processor, but `TranscriptProcessor` (src/services/transcript_processor.py:4-7) defines only `process` | any meeting in which the transcriber yielded at least one segment: the call raises `AttributeError` after the capture stopped, so neither the transcript nor the summary is saved | call the processor's identity `process` on the segments, then save the transcript and the summary | high, not executed | Meeting.StopMeetingAsWritten, Meeting.ProcessSegmentsMissing, Meeting.MeetingWithSpeechFailsAsWritten | Meeting.StopMeeting |

/** The transcript value types: one recognised segment, and the aggregate of
    a finished meeting with its full-text and per-speaker views. */
module Transcript {
  import opened Results
  import opened Text

  /** One span of recognised speech. Times are whole clock ticks since the
      start of the meeting (the source keeps float seconds). */
  datatype Segment = Segment(startTime: int, endTime: int, text: string, speaker: Option<string>)

  /** A finished meeting: its segments in arrival order, the clock reading at
      which it started, and its length in ticks. */
  datatype MeetingTranscript = MeetingTranscript(segments: seq<Segment>, createdAt: nat, duration: int)

  /** The texts of `segs`, in order. */
  function Texts(segs: seq<Segment>): (r: seq<string>)
    ensures |r| == |segs|
    ensures forall i :: 0 <= i < |segs| ==> r[i] == segs[i].text
  {
    seq(|segs|, i requires 0 <= i < |segs| => segs[i].text)
  }

  /** The segments of `segs` spoken by `speaker`, in their original order. */
  function BySpeaker(segs: seq<Segment>, speaker: string): (r: seq<Segment>)
    ensures |r| <= |segs|
    ensures forall x :: x in r <==> x in segs && x.speaker == Some(speaker)
  {
    if |segs| == 0 then []
    else if segs[0].speaker == Some(speaker) then [segs[0]] + BySpeaker(segs[1..], speaker)
    else BySpeaker(segs[1..], speaker)
  }

  /** `get_full_text`: every segment's text, in order, separated by one space.
      It is empty exactly when there is no segment, or a single one with empty
      text: two segments always leave their separator. */
  function FullText(t: MeetingTranscript): (r: string)
    ensures r == "" <==> |t.segments| == 0 || (|t.segments| == 1 && t.segments[0].text == "")
  {
    assert |t.segments| == 1 ==> Texts(t.segments)[1..] == [];
    Join(Texts(t.segments))
  }

  /** `get_speaker_text`: the texts of the given speaker's segments, in order,
      separated by one space. It is never longer than the full text. */
  function SpeakerText(t: MeetingTranscript, speaker: string): (r: string)
    ensures |r| <= |FullText(t)|
  {
    SpeakerShare(t.segments, speaker);
    Join(Texts(BySpeaker(t.segments, speaker)))
  }

  /** The texts of one speaker's segments, counted with one separator each,
      never exceed those of all segments. */
  lemma {:induction false} SpeakerShare(segs: seq<Segment>, speaker: string)
    ensures var kept := BySpeaker(segs, speaker);
            TotalLength(Texts(kept)) + |kept| <= TotalLength(Texts(segs)) + |segs|
    decreases |segs|
  {
    if |segs| > 0 {
      SpeakerShare(segs[1..], speaker);
      TextsCons(segs);
      if segs[0].speaker == Some(speaker) {
        TextsCons(BySpeaker(segs, speaker));
        assert BySpeaker(segs, speaker)[1..] == BySpeaker(segs[1..], speaker);
      }
    }
  }

  /** The texts of a non-empty sequence: the first text, then the rest's. */
  lemma TextsCons(segs: seq<Segment>)
    requires |segs| > 0
    ensures TotalLength(Texts(segs)) == |segs[0].text| + TotalLength(Texts(segs[1..]))
  {
    assert Texts(segs)[1..] == Texts(segs[1..]);
  }

  /** A transcript without segments has empty full text; otherwise the full
      text is as long as all texts together plus one separator between each
      pair of neighbours. */
  lemma FullTextLength(t: MeetingTranscript)
    ensures |t.segments| == 0 ==> FullText(t) == ""
    ensures |t.segments| > 0 ==>
      |FullText(t)| == TotalLength(Texts(t.segments)) + |t.segments| - 1
  {
  }

  /** The `i`-th segment's text sits at its offset inside the full text, and a
      single space follows it unless it is the last one. */
  lemma FullTextLayout(t: MeetingTranscript, i: nat)
    requires i < |t.segments|
    ensures var o := Offset(Texts(t.segments), i);
      && o + |t.segments[i].text| <= |FullText(t)|
      && FullText(t)[o..o + |t.segments[i].text|] == t.segments[i].text
      && (i < |t.segments| - 1 ==> o + |t.segments[i].text| < |FullText(t)|)
      && (i < |t.segments| - 1 ==> FullText(t)[o + |t.segments[i].text|] == ' ')
  {
    JoinLayout(Texts(t.segments), i);
  }

  /** Filtering distributes over concatenation. */
  lemma {:induction false} BySpeakerAppend(a: seq<Segment>, b: seq<Segment>, speaker: string)
    ensures BySpeaker(a + b, speaker) == BySpeaker(a, speaker) + BySpeaker(b, speaker)
    decreases |a|
  {
    if |a| > 0 {
      assert (a + b)[1..] == a[1..] + b;
      BySpeakerAppend(a[1..], b, speaker);
    } else {
      assert a + b == b;
    }
  }

  /** A segment without a speaker never contributes to any speaker's text:
      removing it leaves `get_speaker_text` unchanged whatever the name. */
  lemma UnlabelledIgnored(a: seq<Segment>, x: Segment, b: seq<Segment>, speaker: string,
                          createdAt: nat, duration: int)
    requires x.speaker == None
    ensures SpeakerText(MeetingTranscript(a + [x] + b, createdAt, duration), speaker)
         == SpeakerText(MeetingTranscript(a + b, createdAt, duration), speaker)
  {
    UnlabelledFiltered(a, x, b, speaker);
  }

  /** Filtering drops a segment without a speaker. */
  lemma UnlabelledFiltered(a: seq<Segment>, x: Segment, b: seq<Segment>, speaker: string)
    requires x.speaker == None
    ensures BySpeaker(a + [x] + b, speaker) == BySpeaker(a + b, speaker)
  {
    BySpeakerAppend(a + [x], b, speaker);
    BySpeakerAppend(a, [x], speaker);
    BySpeakerAppend(a, b, speaker);
    assert BySpeaker([x], speaker) == [];
  }

  /** When one speaker said everything, that speaker's text is the full text. */
  lemma {:induction false} SoleSpeakerText(t: MeetingTranscript, speaker: string)
    requires forall i :: 0 <= i < |t.segments| ==> t.segments[i].speaker == Some(speaker)
    ensures SpeakerText(t, speaker) == FullText(t)
  {
    SoleSpeakerKeepsAll(t.segments, speaker);
  }

  /** Filtering keeps every segment when they all carry the speaker. */
  lemma {:induction false} SoleSpeakerKeepsAll(segs: seq<Segment>, speaker: string)
    requires forall i :: 0 <= i < |segs| ==> segs[i].speaker == Some(speaker)
    ensures BySpeaker(segs, speaker) == segs
    decreases |segs|
  {
    if |segs| > 0 {
      SoleSpeakerKeepsAll(segs[1..], speaker);
    }
  }

  /** A speaker that no segment carries has empty text. */
  lemma AbsentSpeakerText(t: MeetingTranscript, speaker: string)
    requires forall i :: 0 <= i < |t.segments| ==> t.segments[i].speaker != Some(speaker)
    ensures SpeakerText(t, speaker) == ""
  {
  }
}

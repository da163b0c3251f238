/** The transcript processor. Its only operation is a placeholder that
    returns its input, materialised as a list. */
module Processor {

  /** `TranscriptProcessor.process`: every element of the input, in order. */
  function Process<T>(items: seq<T>): (r: seq<T>)
    ensures |r| == |items|
    ensures forall i :: 0 <= i < |items| ==> r[i] == items[i]
  {
    items[..]
  }

  /** Processing an already processed sequence changes nothing, and nothing
      comes out of nothing. */
  lemma ProcessIdempotent<T>(items: seq<T>)
    ensures Process(Process(items)) == Process(items)
    ensures Process<T>([]) == []
  {
  }
}

/**
 * How the recording booth and the corpus reorganiser fit together: the take
 * files the booth writes are the ones the reorganiser recognises, and the
 * subtype the booth records in is transcoded with the booth's own sample
 * type.
 */
module Interplay {
  import opened Wrappers
  import opened Numerals
  import opened UtteranceIds
  import opened Takes
  import Recorder
  import Organizer

  /** A take the booth saves for an utterance id is picked up by the
      reorganiser with that id and the take number as its counter. */
  lemma RecordedTakeFound(id: string, k: nat)
    requires IsUtteranceId(id)
    ensures TakeOf(Recorder.TakeName(id, k)) == Some((id, NatToString(k)))
  {
    var counter := NatToString(k);
    SpacesIgnored(id, "", counter, "");
    assert id + ("" + ("_" + (counter + ("" + ".wav")))) == Recorder.TakeName(id, k);
  }

  /** Transcoding a recorded take reads it with the sample type it was
      recorded with. */
  lemma RecordedSubtypeTranscodes(bits: int)
    ensures Organizer.DecodeDtype(Recorder.Bits2Dtype(bits).1) == Recorder.Bits2Dtype(bits).0
  {
  }
}

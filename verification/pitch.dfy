/** The twelve pitch classes and their names, shared by the timeline builder and the key
    detector. */
module Pitch {
  import opened PyCore

  /** `chrom_scale`: pitch class 0 is C, and enharmonic pairs share one name. */
  const ChromScale: seq<string> :=
    ["C", "C#/Db", "D", "D#/Eb", "E", "F", "F#/Gb", "G", "G#/Ab", "A", "A#/Bb", "B"]

  type PitchClass = p: int | 0 <= p < 12

  /** The semitone part of `divmod(value, 12)`; Python floors, so a negative value still
      lands in `[0, 12)`. */
  function PitchClassOf(value: int): (p: PitchClass)
    ensures (value - p) % 12 == 0
  {
    value % 12
  }

  /** `chrom_scale[semitone]` for an absolute pitch (or open-string) value. */
  function NoteName(value: int): (name: string)
    ensures name in ChromScale
    ensures IndexOf(ChromScale, name) == value % 12
  {
    ChromScaleDistinct();
    IndexOfDistinct(ChromScale, value % 12);
    ChromScale[value % 12]
  }

  lemma ChromScaleDistinct()
    ensures |ChromScale| == 12 && Distinct(ChromScale)
  {
  }

  /** Pitch values an octave apart get the same name. */
  lemma NoteNameOctave(value: int)
    ensures NoteName(value + 12) == NoteName(value)
  {
    assert (value + 12) % 12 == value % 12;
  }
}

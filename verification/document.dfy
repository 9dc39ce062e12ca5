/** The parsed Guitar Pro document the builder reads, as an immutable value: a song holds
    tracks, a track holds measures, a measure holds a header and the beats of its one real
    voice, a beat holds a duration and notes. Only the fields the modelled code reads are
    kept. The parser also produces a second, default-valued voice per measure, which every
    modelled routine drops (`voices[:-1]`); it is not represented here. */
module Document {

  /** `tuplet.enters` notes in the time of `tuplet.times`. */
  datatype Tuplet = Tuplet(enters: int, times: int)

  /** A beat's notated duration: `time` is its length in ticks (960 per quarter note),
      `value` the note value (1 whole, 2 half, 4 quarter, ...). */
  datatype Duration = Duration(
    time: int,
    value: int,
    isDotted: bool,
    isDoubleDotted: bool,
    tuplet: Tuplet)

  /** A played note: the string it sits on (1-based), its fret, and its absolute pitch. */
  datatype Note = Note(stringNumber: int, fret: int, realValue: int)

  /** A timed event; no notes means a rest. */
  datatype Beat = Beat(duration: Duration, notes: seq<Note>)

  /** `numerator` beats of the note value `denominator` per measure. */
  datatype TimeSignature = TimeSignature(numerator: int, denominator: int)

  /** Per-measure metadata. `repeatClose` is the play count of a closing repeat sign; any
      value `<= 0` means "no close". `repeatAlternative` is carried but never acted on. */
  datatype MeasureHeader = MeasureHeader(
    number: int,
    tempo: int,
    timeSignature: TimeSignature,
    isRepeatOpen: bool,
    repeatClose: int,
    repeatAlternative: int)

  /** A measure: its header and the beats of its one real voice. */
  datatype Measure = Measure(header: MeasureHeader, beats: seq<Beat>)

  /** An open string: its number and the absolute pitch it sounds. */
  datatype GuitarString = GuitarString(number: int, value: int)

  datatype Track = Track(strings: seq<GuitarString>, measures: seq<Measure>)

  /** `key.value`: `pos` is the position on the circle of fifths (sharps positive,
      flats negative), `mode` is 0 for major and 1 for minor. */
  datatype KeySignature = KeySignature(pos: int, mode: int)

  datatype Song = Song(tempo: int, key: KeySignature, tracks: seq<Track>)
}

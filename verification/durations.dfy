/** Beat lengths in seconds, by two formulas, and the per-measure check that both add up
    to the measure's length (gp_to_kivy.py:193-247). Seconds are exact rationals (`real`);
    floating-point rounding is not modelled. */
module Durations {
  import opened PyCore
  import opened Document

  /** `_get_beat_length_1`: the document's tick count at 960 ticks per quarter note, at the
      song tempo: `time / 960 * (tempo / 60) ** -1`. */
  function BeatLength1(songTempo: int, beat: Beat): (seconds: real)
    requires songTempo != 0
    ensures TicksAt(seconds, songTempo, beat.duration.time)
  {
    beat.duration.time as real / 960.0 * (1.0 / (songTempo as real / 60.0))
  }

  /** `seconds` at `songTempo` quarter notes a minute is `ticks` at 960 ticks a quarter:
      `seconds * 16 * tempo == ticks`. */
  predicate TicksAt(seconds: real, songTempo: int, ticks: int)
  {
    seconds * (16.0 * songTempo as real) == ticks as real
  }

  /** The factor a dot (3/2) or, failing that, a double dot (7/4) applies. */
  function DotFactor(d: Duration): (f: real)
    ensures f > 0.0
    ensures d.isDotted ==> f == 1.5
  {
    if d.isDotted then 3.0 / 2.0 else if d.isDoubleDotted then 7.0 / 4.0 else 1.0
  }

  /** `_get_beat_length_2`: seconds per beat at the measure's tempo, times the share of a
      beat (time-signature denominator over note value), times the tuplet ratio, times the
      dot factor. */
  function BeatLength2(header: MeasureHeader, beat: Beat): (seconds: real)
    requires header.tempo != 0 && beat.duration.value != 0 && beat.duration.tuplet.enters != 0
    ensures seconds * (header.tempo as real * NoteScale(beat.duration))
         == 60.0 * header.timeSignature.denominator as real * DottedTimes(beat.duration)
  {
    var d := beat.duration;
    var secondsPerBeat := 1.0 / (header.tempo as real / 60.0);
    var percentageBeat := header.timeSignature.denominator as real / d.value as real;
    var tupletFeel := d.tuplet.times as real / d.tuplet.enters as real;
    var seconds := secondsPerBeat * percentageBeat * tupletFeel;
    var r := seconds * DotFactor(d);
    Formula2Closed(header.tempo as real, d.value as real, d.tuplet.enters as real,
                   header.timeSignature.denominator as real, d.tuplet.times as real, DotFactor(d));
    r
  }

  lemma Formula2Closed(bpm: real, value: real, enters: real, den: real, times: real, f: real)
    requires bpm != 0.0 && value != 0.0 && enters != 0.0
    ensures (1.0 / (bpm / 60.0)) * (den / value) * (times / enters) * f * (bpm * value * enters)
         == 60.0 * (den * times) * f
  {
    var a := 1.0 / (bpm / 60.0);
    assert a * bpm == 60.0;
    var b := den / value;
    assert b * value == den;
    var c := times / enters;
    assert c * enters == times;
    calc {
      a * b * c * f * (bpm * value * enters);
      (a * bpm) * (b * value) * (c * enters) * f;
      60.0 * den * times * f;
    }
  }

  /** The tick count that matches a notated duration: a quarter note is 960 ticks, scaled
      by the tuplet ratio and the dot factor. */
  function NotatedTicks(d: Duration): real
    requires d.value != 0 && d.tuplet.enters != 0
  {
    3840.0 * (d.tuplet.times as real * DotFactor(d)) / (d.value as real * d.tuplet.enters as real)
  }

  /** When the tick count matches the notation and the measure's tempo is the song tempo,
      the two formulas agree exactly when the time signature counts quarter notes: formula
      1 always counts in quarters, formula 2 in the denominator's note value. */
  lemma FormulasAgreeIffQuarterBeat(songTempo: int, header: MeasureHeader, beat: Beat)
    requires songTempo != 0 && header.tempo == songTempo
    requires beat.duration.value != 0 && beat.duration.tuplet.enters != 0
    requires beat.duration.tuplet.times != 0
    requires beat.duration.time as real == NotatedTicks(beat.duration)
    ensures BeatLength1(songTempo, beat) == BeatLength2(header, beat) <==> header.timeSignature.denominator == 4
  {
    ScaledForms(songTempo, header, beat);
    RealAgreement(BeatLength1(songTempo, beat), BeatLength2(header, beat), songTempo as real,
                  NoteScale(beat.duration), DottedTimes(beat.duration), beat.duration.time as real,
                  header.timeSignature.denominator);
  }

  /** Note value times tuplet entries: what a notated duration divides by. */
  function NoteScale(d: Duration): real
  {
    d.value as real * d.tuplet.enters as real
  }

  /** Tuplet times times the dot factor: what a notated duration multiplies by. */
  function DottedTimes(d: Duration): real
  {
    d.tuplet.times as real * DotFactor(d)
  }

  /** Two beat lengths `s1`, `s2` with their divisions cleared: `s1` counts `ticks` at tempo
      `t`, the ticks are the notated `3840 x / k`, and `s2` is formula 2 over `k` and `x`. */
  ghost predicate Cleared(s1: real, s2: real, t: real, k: real, x: real, ticks: real, denominator: int)
  {
    && t != 0.0 && k != 0.0 && x != 0.0
    && s1 * (16.0 * t) == ticks
    && ticks == 3840.0 * x / k
    && s2 * (t * k) == 60.0 * denominator as real * x
  }

  /** Both beat lengths, cleared of their divisions. */
  lemma ScaledForms(songTempo: int, header: MeasureHeader, beat: Beat)
    requires songTempo != 0 && header.tempo == songTempo
    requires beat.duration.value != 0 && beat.duration.tuplet.enters != 0
    requires beat.duration.tuplet.times != 0
    requires beat.duration.time as real == NotatedTicks(beat.duration)
    ensures Cleared(BeatLength1(songTempo, beat), BeatLength2(header, beat), songTempo as real,
                    NoteScale(beat.duration), DottedTimes(beat.duration), beat.duration.time as real,
                    header.timeSignature.denominator)
  {
    ScalesNonZero(beat.duration);
    TicksSplit(beat.duration);
    ClearedIntro(BeatLength1(songTempo, beat), BeatLength2(header, beat), songTempo as real,
                 NoteScale(beat.duration), DottedTimes(beat.duration), beat.duration.time as real,
                 header.timeSignature.denominator);
  }

  lemma ClearedIntro(s1: real, s2: real, t: real, k: real, x: real, ticks: real, denominator: int)
    requires t != 0.0 && k != 0.0 && x != 0.0
    requires s1 * (16.0 * t) == ticks
    requires ticks == 3840.0 * x / k
    requires s2 * (t * k) == 60.0 * denominator as real * x
    ensures Cleared(s1, s2, t, k, x, ticks, denominator)
  {
  }

  lemma ScalesNonZero(d: Duration)
    requires d.value != 0 && d.tuplet.enters != 0 && d.tuplet.times != 0
    ensures NoteScale(d) != 0.0 && DottedTimes(d) != 0.0
  {
    NonZeroProduct(d.value as real, d.tuplet.enters as real);
    NonZeroProduct(d.tuplet.times as real, DotFactor(d));
  }

  lemma NonZeroProduct(a: real, b: real)
    requires a != 0.0 && b != 0.0
    ensures a * b != 0.0
  {
  }

  lemma TicksSplit(d: Duration)
    requires d.value != 0 && d.tuplet.enters != 0
    ensures NotatedTicks(d) == 3840.0 * DottedTimes(d) / NoteScale(d)
  {
  }

  lemma RealAgreement(s1: real, s2: real, t: real, k: real, x: real, ticks: real, denominator: int)
    requires Cleared(s1, s2, t, k, x, ticks, denominator)
    ensures s1 == s2 <==> denominator == 4
  {
    var den := denominator as real;
    assert ticks * k == 3840.0 * x;
    assert s1 * (t * k) == 240.0 * x by {
      assert s1 * (16.0 * t) * k == 3840.0 * x;
      assert s1 * (t * k) * 16.0 == 3840.0 * x;
    }
    ProductCancel(s1, s2, t * k, 240.0 * x, 60.0 * den * x);
    ProductCancel(4.0, den, 60.0 * x, 240.0 * x, 60.0 * den * x);
  }

  lemma ProductCancel(a: real, b: real, c: real, ac: real, bc: real)
    requires c != 0.0 && a * c == ac && b * c == bc
    ensures a == b <==> ac == bc
  {
    if ac == bc {
      assert (a - b) * c == 0.0;
    }
  }

  /** Python `math.isclose(a, b, abs_tol=0.0001)` with its default relative tolerance. */
  predicate IsClose(a: real, b: real)
  {
    var diff := if a - b < 0.0 then b - a else a - b;
    var absA := if a < 0.0 then -a else a;
    var absB := if b < 0.0 then -b else b;
    var larger := if absA < absB then absB else absA;
    var relTol := 0.000000001 * larger;
    diff <= (if relTol < 0.0001 then 0.0001 else relTol)
  }

  /** Both formulas can be evaluated on this beat (no division by zero). */
  predicate Computable(songTempo: int, header: MeasureHeader, beat: Beat)
  {
    songTempo != 0 && header.tempo != 0 && beat.duration.value != 0 && beat.duration.tuplet.enters != 0
  }

  function Counted1(songTempo: int, beats: seq<Beat>): real
    requires |beats| == 0 || songTempo != 0
    decreases |beats|
  {
    if |beats| == 0 then 0.0
    else Counted1(songTempo, beats[..|beats| - 1]) + BeatLength1(songTempo, beats[|beats| - 1])
  }

  function Counted2(header: MeasureHeader, beats: seq<Beat>): real
    requires header.tempo != 0
    requires forall i :: 0 <= i < |beats| ==> beats[i].duration.value != 0 && beats[i].duration.tuplet.enters != 0
    decreases |beats|
  {
    if |beats| == 0 then 0.0
    else Counted2(header, beats[..|beats| - 1]) + BeatLength2(header, beats[|beats| - 1])
  }

  /** `_sum_and_check_measure`: the measure's length in seconds at its own tempo,
      `numerator * 60 / tempo`, must match both beat sums. A zero tempo, note value or tuplet
      divisor raises. */
  function CheckMeasure(songTempo: int, m: Measure): (r: Result<bool>)
    ensures r.Ok? <==> m.header.tempo != 0 && forall i :: 0 <= i < |m.beats| ==> Computable(songTempo, m.header, m.beats[i])
    ensures r.Err? ==> r.error == ZeroDivisionError
    ensures r.Ok? ==> (r.value <==>
              (|m.beats| == 0 || Computable(songTempo, m.header, m.beats[0])) &&
              var target := (m.header.timeSignature.numerator * 60) as real / m.header.tempo as real;
              IsClose(target, Counted1(songTempo, m.beats)) && IsClose(target, Counted2(m.header, m.beats)))
  {
    var h := m.header;
    if h.tempo == 0 then Err(ZeroDivisionError)
    else if exists i :: 0 <= i < |m.beats| && !Computable(songTempo, h, m.beats[i]) then Err(ZeroDivisionError)
    else
      var secondsPerBeat := 1.0 / (h.tempo as real / 60.0);
      var secondsThisMeasure := secondsPerBeat * h.timeSignature.numerator as real;
      assert secondsThisMeasure == (h.timeSignature.numerator * 60) as real / h.tempo as real;
      assert |m.beats| == 0 || Computable(songTempo, h, m.beats[0]);
      Ok(IsClose(secondsThisMeasure, Counted1(songTempo, m.beats))
         && IsClose(secondsThisMeasure, Counted2(h, m.beats)))
  }

  /** `_sum_and_check_track`: stops at the first measure that does not pass. */
  function CheckTrack(songTempo: int, ms: seq<Measure>): (r: Result<bool>)
    ensures r == Ok(true) <==> forall i :: 0 <= i < |ms| ==> CheckMeasure(songTempo, ms[i]) == Ok(true)
    ensures r != Ok(true) ==>
              exists i :: 0 <= i < |ms| && CheckMeasure(songTempo, ms[i]) == r
                       && forall j :: 0 <= j < i ==> CheckMeasure(songTempo, ms[j]) == Ok(true)
    decreases |ms|
  {
    if |ms| == 0 then Ok(true)
    else
      match CheckMeasure(songTempo, ms[0])
      case Err(e) => Err(e)
      case Ok(false) => Ok(false)
      case Ok(true) =>
        var rest := CheckTrack(songTempo, ms[1..]);
        assert forall i :: 1 <= i < |ms| ==> ms[i] == ms[1..][i - 1];
        rest
  }

  /** The position of the first track that does not pass, or the track count when all do. */
  function FirstFailingTrack(songTempo: int, tracks: seq<Track>): (t: nat)
    ensures t <= |tracks|
    ensures forall u :: 0 <= u < t ==> CheckTrack(songTempo, tracks[u].measures) == Ok(true)
    ensures t < |tracks| ==> CheckTrack(songTempo, tracks[t].measures) != Ok(true)
    decreases |tracks|
  {
    if |tracks| == 0 then 0
    else if CheckTrack(songTempo, tracks[0].measures) != Ok(true) then 0
    else
      var t := FirstFailingTrack(songTempo, tracks[1..]);
      assert forall u :: 1 <= u < |tracks| ==> tracks[u] == tracks[1..][u - 1];
      1 + t
  }

  /** `_sum_and_check_song`: every measure of every track passes; otherwise the result is
      that of the first track that does not pass, a raise propagating unchanged. */
  function CheckSong(song: Song): (r: Result<bool>)
    ensures r == Ok(true) <==>
              forall t, i :: 0 <= t < |song.tracks| && 0 <= i < |song.tracks[t].measures| ==>
                CheckMeasure(song.tempo, song.tracks[t].measures[i]) == Ok(true)
    ensures var t := FirstFailingTrack(song.tempo, song.tracks);
            t < |song.tracks| ==> r == CheckTrack(song.tempo, song.tracks[t].measures)
  {
    CheckTracks(song.tempo, song.tracks)
  }

  /** The track loop of `_sum_and_check_song`, stopping at the first track that does not pass. */
  function CheckTracks(songTempo: int, tracks: seq<Track>): (r: Result<bool>)
    ensures r == Ok(true) <==>
              forall t, i :: 0 <= t < |tracks| && 0 <= i < |tracks[t].measures| ==>
                CheckMeasure(songTempo, tracks[t].measures[i]) == Ok(true)
    ensures var t := FirstFailingTrack(songTempo, tracks);
            t < |tracks| ==> r == CheckTrack(songTempo, tracks[t].measures)
    decreases |tracks|
  {
    if |tracks| == 0 then Ok(true)
    else
      match CheckTrack(songTempo, tracks[0].measures)
      case Err(e) => Err(e)
      case Ok(false) => Ok(false)
      case Ok(true) =>
        var rest := CheckTracks(songTempo, tracks[1..]);
        CheckTracksAllStep(songTempo, tracks, rest);
        assert forall u :: 1 <= u < |tracks| ==> tracks[u] == tracks[1..][u - 1];
        rest
  }

  /** What the rest of the track loop promises, carried over one passing track in front. */
  lemma CheckTracksAllStep(songTempo: int, tracks: seq<Track>, rest: Result<bool>)
    requires |tracks| > 0 && CheckTrack(songTempo, tracks[0].measures) == Ok(true)
    requires rest == Ok(true) <==>
               forall t, i :: 0 <= t < |tracks| - 1 && 0 <= i < |tracks[1..][t].measures| ==>
                 CheckMeasure(songTempo, tracks[1..][t].measures[i]) == Ok(true)
    ensures rest == Ok(true) <==>
              forall t, i :: 0 <= t < |tracks| && 0 <= i < |tracks[t].measures| ==>
                CheckMeasure(songTempo, tracks[t].measures[i]) == Ok(true)
  {
    assert forall t :: 1 <= t < |tracks| ==> tracks[t] == tracks[1..][t - 1];
    assert forall i :: 0 <= i < |tracks[0].measures| ==> CheckMeasure(songTempo, tracks[0].measures[i]) == Ok(true);
  }
}

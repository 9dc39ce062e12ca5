/** The beat timeline the player consumes, the measure table kept beside it, and the small
    lookups the builder performs on the document (gp_to_kivy.py:6-191, 325-335). */
module Timeline {
  import opened PyCore
  import opened Document
  import opened Pitch
  import opened Repeats
  import Durations

  /** `KivyBeat`: how long the beat lasts, the fret pressed on each of the six strings
      (`None` for a string not played) and the names of the notes sounded, in note order. */
  datatype KivyBeat = KivyBeat(seconds: real, frets: seq<Option<int>>, notes: seq<string>)

  /** One entry of the measure table, `[header, beat, beat, ...]`. */
  datatype MeasureRecord = MeasureRecord(header: MeasureHeader, beats: seq<KivyBeat>)

  /** A built track: the flat beat timeline and the measure table it came from. */
  datatype TrackBuild = TrackBuild(beats: seq<KivyBeat>, table: seq<MeasureRecord>)

  /** The builder's state after `_build_song`: one timeline and one table per track. */
  datatype Built = Built(song: seq<seq<KivyBeat>>, data: seq<seq<MeasureRecord>>)

  /** The repeat marker the expander reads from a header. */
  function MarkerOf(h: MeasureHeader): (m: Marker)
    ensures m.isRepeatOpen == h.isRepeatOpen && m.repeatClose == h.repeatClose
  {
    Marker(h.isRepeatOpen, h.repeatClose)
  }

  // ---------------------------------------------------------------------------
  // One beat (gp_to_kivy.py:102-112)
  // ---------------------------------------------------------------------------

  /** The fret slot a note writes, `frets[string - 1]` on a six-slot list; Python's negative
      indices wrap round, anything else is out of range. */
  function Slot(n: Note): Option<nat>
  {
    PyIndex(n.stringNumber - 1, 6)
  }

  predicate SlotsValid(notes: seq<Note>)
  {
    forall i :: 0 <= i < |notes| ==> Slot(notes[i]).Some?
  }

  /** Slot `s` holds `v` once `notes` are written: `None` if no note goes to `s`,
      otherwise the fret of the last note that does. */
  predicate LastWrite(notes: seq<Note>, s: nat, v: Option<int>)
  {
    (v.None? <==> forall i :: 0 <= i < |notes| ==> Slot(notes[i]) != Some(s))
    && (v.Some? ==> exists i :: 0 <= i < |notes| && Slot(notes[i]) == Some(s) && v.value == notes[i].fret
                                && forall j :: i < j < |notes| ==> Slot(notes[j]) != Some(s))
  }

  /** The six fret slots after writing every note in order; a note whose string number
      does not index the six slots raises. */
  function Frets(notes: seq<Note>): (r: Result<seq<Option<int>>>)
    ensures r.Ok? <==> SlotsValid(notes)
    ensures r.Err? ==> r.error == IndexError
    ensures r.Ok? ==> |r.value| == 6 && forall s :: 0 <= s < 6 ==> LastWrite(notes, s, r.value[s])
    decreases |notes|
  {
    if |notes| == 0 then Ok(Repeat([None], 6))
    else
      var k := |notes| - 1;
      var prev := Frets(notes[..k]);
      assert forall i :: 0 <= i < k ==> notes[..k][i] == notes[i];
      if prev.Err? then Err(IndexError)
      else
        match Slot(notes[k])
        case None => Err(IndexError)
        case Some(s) =>
          var r := prev.value[s := Some(notes[k].fret)];
          forall t | 0 <= t < 6 ensures LastWrite(notes, t, r[t]) {
            LastWriteStep(notes, t, prev.value[t], r[t]);
          }
          Ok(r)
  }

  /** Writing one more note changes only its own slot. */
  lemma LastWriteStep(notes: seq<Note>, t: nat, before: Option<int>, after: Option<int>)
    requires |notes| > 0 && Slot(notes[|notes| - 1]).Some?
    requires LastWrite(notes[..|notes| - 1], t, before)
    requires after == if Slot(notes[|notes| - 1]) == Some(t) then Some(notes[|notes| - 1].fret) else before
    ensures LastWrite(notes, t, after)
  {
    var k := |notes| - 1;
    var init := notes[..k];
    assert forall i :: 0 <= i < k ==> init[i] == notes[i];
    if Slot(notes[k]) == Some(t) {
      assert after == Some(notes[k].fret);
      assert Slot(notes[k]) == Some(t) && after.value == notes[k].fret;
    } else if before.Some? {
      var i :| 0 <= i < k && Slot(init[i]) == Some(t) && before.value == init[i].fret
               && forall j :: i < j < k ==> Slot(init[j]) != Some(t);
      assert Slot(notes[i]) == Some(t) && after.value == notes[i].fret;
      assert forall j :: i < j < |notes| ==> Slot(notes[j]) != Some(t);
    } else {
      assert after.None?;
      assert forall i :: 0 <= i < k ==> Slot(init[i]) != Some(t);
    }
  }

  /** The note names of a beat, `chrom_scale[realValue % 12]`, in note order. */
  function NoteNames(notes: seq<Note>): (r: seq<string>)
    ensures |r| == |notes|
    ensures forall i :: 0 <= i < |r| ==> r[i] in ChromScale && IndexOf(ChromScale, r[i]) == notes[i].realValue % 12
  {
    seq(|notes|, i requires 0 <= i < |notes| => NoteName(notes[i].realValue))
  }

  /** The body of the beat loop. The beat's length is computed first, so a zero song tempo
      raises before any note is looked at. */
  function MakeBeat(songTempo: int, beat: Beat): (r: Result<KivyBeat>)
    ensures r.Ok? <==> songTempo != 0 && SlotsValid(beat.notes)
    ensures songTempo == 0 ==> r == Err(ZeroDivisionError)
    ensures songTempo != 0 && !SlotsValid(beat.notes) ==> r == Err(IndexError)
    ensures r.Ok? ==> Durations.TicksAt(r.value.seconds, songTempo, beat.duration.time)
    ensures r.Ok? ==> r.value.seconds == Durations.BeatLength1(songTempo, beat)
    ensures r.Ok? ==> |r.value.frets| == 6 && r.value.notes == NoteNames(beat.notes)
  {
    if songTempo == 0 then Err(ZeroDivisionError)
    else
      var seconds := Durations.BeatLength1(songTempo, beat);
      match Frets(beat.notes)
      case Err(e) => Err(e)
      case Ok(frets) => Ok(KivyBeat(seconds, frets, NoteNames(beat.notes)))
  }

  /** The beats of one measure, stopping at the first beat that raises. */
  function MeasureBeats(songTempo: int, beats: seq<Beat>): (r: Result<seq<KivyBeat>>)
    ensures r.Ok? <==> forall i :: 0 <= i < |beats| ==> MakeBeat(songTempo, beats[i]).Ok?
    ensures r.Ok? ==> |r.value| == |beats| && forall i :: 0 <= i < |beats| ==> r.value[i] == MakeBeat(songTempo, beats[i]).value
    ensures r.Err? ==> exists i :: 0 <= i < |beats| && MakeBeat(songTempo, beats[i]) == Err(r.error)
  {
    MapResult(b => MakeBeat(songTempo, b), beats)
  }

  /** The beats of every measure of a track, stopping at the first measure that raises. */
  function TrackMeasureBeats(songTempo: int, ms: seq<Measure>): (r: Result<seq<seq<KivyBeat>>>)
    ensures r.Ok? <==> forall i :: 0 <= i < |ms| ==> MeasureBeats(songTempo, ms[i].beats).Ok?
    ensures r.Ok? ==> |r.value| == |ms| && forall i :: 0 <= i < |ms| ==> r.value[i] == MeasureBeats(songTempo, ms[i].beats).value
    ensures r.Err? ==> exists i :: 0 <= i < |ms| && MeasureBeats(songTempo, ms[i].beats) == Err(r.error)
  {
    MapResult((m: Measure) => MeasureBeats(songTempo, m.beats), ms)
  }

  // ---------------------------------------------------------------------------
  // Tracks and the measure table (gp_to_kivy.py:48-137, 184-191)
  // ---------------------------------------------------------------------------

  /** What each measure feeds the beat expander: its beats. */
  function BeatItems(ms: seq<Measure>, bs: seq<seq<KivyBeat>>): (r: seq<Item<KivyBeat>>)
    requires |bs| == |ms|
    ensures |r| == |ms| && forall i :: 0 <= i < |ms| ==> r[i] == Item(MarkerOf(ms[i].header), bs[i])
  {
    seq(|ms|, i requires 0 <= i < |ms| => Item(MarkerOf(ms[i].header), bs[i]))
  }

  /** What each measure feeds the table expander: one record, its header and its beats. */
  function RecordItems(ms: seq<Measure>, bs: seq<seq<KivyBeat>>): (r: seq<Item<MeasureRecord>>)
    requires |bs| == |ms|
    ensures |r| == |ms|
    ensures forall i :: 0 <= i < |ms| ==> r[i] == Item(MarkerOf(ms[i].header), [MeasureRecord(ms[i].header, bs[i])])
  {
    seq(|ms|, i requires 0 <= i < |ms| => Item(MarkerOf(ms[i].header), [MeasureRecord(ms[i].header, bs[i])]))
  }

  function RecordBeats(rec: MeasureRecord): seq<KivyBeat>
  {
    rec.beats
  }

  /** `_rewrite_song` for one track: every table entry without its header, concatenated. */
  function Rewrite(table: seq<MeasureRecord>): seq<KivyBeat>
  {
    FlatMap(RecordBeats, table)
  }

  /** `_rewrite_song`. */
  function RewriteSong(data: seq<seq<MeasureRecord>>): (r: seq<seq<KivyBeat>>)
    ensures |r| == |data| && forall t :: 0 <= t < |data| ==> r[t] == Rewrite(data[t])
  {
    seq(|data|, t requires 0 <= t < |data| => Rewrite(data[t]))
  }

  /** `_build_track`: the beat timeline and the measure table, both run through the repeat
      expander. Any beat that raises aborts the whole build. Rebuilding the timeline from
      the table gives back the timeline. */
  function BuildTrack(songTempo: int, track: Track): (r: Result<TrackBuild>)
    ensures r.Ok? <==> forall i :: 0 <= i < |track.measures| ==> MeasureBeats(songTempo, track.measures[i].beats).Ok?
    ensures r.Ok? ==> r.value.beats == Rewrite(r.value.table)
  {
    var ms := track.measures;
    match TrackMeasureBeats(songTempo, ms)
    case Err(e) => Err(e)
    case Ok(bs) =>
      var table := Expand(RecordItems(ms, bs));
      var beats := Expand(BeatItems(ms, bs));
      RewriteRecovers(ms, bs);
      Ok(TrackBuild(beats, table))
  }

  lemma FlatMapSingle<T, U>(f: T -> seq<U>, x: T)
    ensures FlatMap(f, [x]) == f(x)
  {
    assert [x][..0] == [];
  }

  /** The timeline is the table with the headers dropped, at every stage of the loop. */
  lemma RewriteRecovers(ms: seq<Measure>, bs: seq<seq<KivyBeat>>)
    requires |bs| == |ms|
    ensures Expand(BeatItems(ms, bs)) == Rewrite(Expand(RecordItems(ms, bs)))
  {
    var items := RecordItems(ms, bs);
    forall i | 0 <= i < |ms| ensures MapItems(RecordBeats, items)[i] == BeatItems(ms, bs)[i] {
      FlatMapSingle(RecordBeats, MeasureRecord(ms[i].header, bs[i]));
    }
    assert MapItems(RecordBeats, items) == BeatItems(ms, bs);
    ExpandMap(RecordBeats, items);
  }

  /** Without repeat signs the table has one record per measure, in document order. */
  lemma PlainTrackTable(songTempo: int, track: Track)
    requires BuildTrack(songTempo, track).Ok?
    requires forall i :: 0 <= i < |track.measures| ==>
               !track.measures[i].header.isRepeatOpen && track.measures[i].header.repeatClose <= 0
    ensures var table := BuildTrack(songTempo, track).value.table;
            |table| == |track.measures| && forall i :: 0 <= i < |table| ==> table[i].header == track.measures[i].header
  {
    var ms := track.measures;
    var bs := TrackMeasureBeats(songTempo, ms).value;
    var items := RecordItems(ms, bs);
    PlainExpand(items);
    AllChunksSingletons(items);
  }

  /** When every measure contributes one item, `AllChunks` lists them in measure order. */
  lemma {:induction false} AllChunksSingletons<T>(items: seq<Item<T>>)
    requires forall i :: 0 <= i < |items| ==> |items[i].chunk| == 1
    ensures |AllChunks(items)| == |items|
    ensures forall i :: 0 <= i < |items| ==> AllChunks(items)[i] == items[i].chunk[0]
    decreases |items|
  {
    if |items| > 0 {
      var k := |items| - 1;
      AllChunksSingletons(items[..k]);
      assert AllChunks(items) == AllChunks(items[..k]) + items[k].chunk;
      assert forall i :: 0 <= i < k ==> items[..k][i] == items[i];
    }
  }

  /** With no repeat markers every measure is flushed on its own, once. */
  lemma {:induction false} PlainExpand<T>(items: seq<Item<T>>)
    requires forall i :: 0 <= i < |items| ==> !items[i].marker.isRepeatOpen && items[i].marker.repeatClose <= 0
    ensures Expand(items) == AllChunks(items)
    decreases |items|
  {
    if |items| > 0 {
      var k := |items| - 1;
      var init := items[..k];
      assert items == init + [items[k]];
      PlainExpand(init);
      ExpandSplit(init, [items[k]]);
      ExpandGroup([items[k]]);
      assert [items[k]][..0] == [];
      RepeatOnce(AllChunks([items[k]]));
      assert AllChunks([items[k]]) == AllChunks([items[k]][..0]) + items[k].chunk;
      AllChunksAppend(init, [items[k]]);
    }
  }

  /** `_build_song`: every track, stopping at the first that raises. */
  function BuildSong(song: Song): (r: Result<Built>)
    ensures r.Ok? <==> forall t :: 0 <= t < |song.tracks| ==> BuildTrack(song.tempo, song.tracks[t]).Ok?
    ensures r.Ok? ==> |r.value.song| == |r.value.data| == |song.tracks|
    ensures r.Ok? ==> r.value.song == RewriteSong(r.value.data)
  {
    BuildTracks(song.tempo, song.tracks)
  }

  function BuildTracks(songTempo: int, tracks: seq<Track>): (r: Result<Built>)
    ensures r.Ok? <==> forall t :: 0 <= t < |tracks| ==> BuildTrack(songTempo, tracks[t]).Ok?
    ensures r.Ok? ==> |r.value.song| == |r.value.data| == |tracks|
    ensures r.Ok? ==> forall t :: 0 <= t < |tracks| ==>
              r.value.song[t] == BuildTrack(songTempo, tracks[t]).value.beats
              && r.value.data[t] == BuildTrack(songTempo, tracks[t]).value.table
  {
    match MapResult((t: Track) => BuildTrack(songTempo, t), tracks)
    case Err(e) => Err(e)
    case Ok(tbs) =>
      Ok(Built(seq(|tbs|, i requires 0 <= i < |tbs| => tbs[i].beats),
               seq(|tbs|, i requires 0 <= i < |tbs| => tbs[i].table)))
  }

  // ---------------------------------------------------------------------------
  // Deleting measures (gp_to_kivy.py:171-182)
  // ---------------------------------------------------------------------------

  /** `for i in reversed(range(s, e)): del t[i]`, with Python's index rules. */
  function DelRange<T>(t: seq<T>, s: int, e: int): (r: Result<seq<T>>)
    ensures e <= s ==> r == Ok(t)
    ensures 0 <= s <= e <= |t| ==> r == Ok(t[..s] + t[e..])
    ensures s < e && |t| < e ==> r == Err(IndexError)
    ensures r.Err? ==> r.error == IndexError
    decreases e - s
  {
    if e <= s then
      assert 0 <= s <= e <= |t| ==> t[..s] + t[e..] == t;
      Ok(t)
    else
      match PyDel(t, e - 1)
      case Err(err) => Err(err)
      case Ok(t') =>
        var r := DelRange(t', s, e - 1);
        assert 0 <= s <= e <= |t| ==> t'[..s] + t'[e - 1..] == t[..s] + t[e..];
        r
  }

  /** The same range removed from every track's table. */
  function DelEach<T>(data: seq<seq<T>>, s: int, e: int): (r: Result<seq<seq<T>>>)
    ensures r.Ok? <==> forall t :: 0 <= t < |data| ==> DelRange(data[t], s, e).Ok?
    ensures r.Ok? ==> |r.value| == |data| && forall t :: 0 <= t < |data| ==> r.value[t] == DelRange(data[t], s, e).value
    ensures r.Err? ==> r.error == IndexError
    decreases |data|
  {
    if |data| == 0 then Ok([])
    else
      match DelRange(data[0], s, e)
      case Err(err) => Err(err)
      case Ok(d) =>
        match DelEach(data[1..], s, e)
        case Err(err) => Err(err)
        case Ok(rest) => Ok([d] + rest)
  }

  /** `del_measures(start, stop)`: measures are numbered from 1, `stop` is inclusive and
      defaults to `start`; the timeline is rebuilt from the shortened table. A deletion that
      runs off a table raises; the tables already shortened at that point are not modelled. */
  function DelMeasures(b: Built, start: int, stop: Option<int>): (r: Result<Built>)
    ensures r.Ok? ==> r.value.song == RewriteSong(r.value.data) && |r.value.data| == |b.data|
    ensures r.Err? ==> r.error == IndexError
  {
    var s := start - 1;
    var e := if stop.None? then s + 1 else stop.value;
    match DelEach(b.data, s, e)
    case Err(err) => Err(err)
    case Ok(data) => Ok(Built(RewriteSong(data), data))
  }

  /** `del_measures(a, c)` removes measures `a..c` (1-based, inclusive) from every track
      and keeps the rest in order. */
  lemma DelMeasuresRange(b: Built, a: int, c: int)
    requires 1 <= a <= c + 1
    requires forall t :: 0 <= t < |b.data| ==> c <= |b.data[t]|
    ensures var r := DelMeasures(b, a, Some(c));
            r.Ok? && forall t :: 0 <= t < |b.data| ==> r.value.data[t] == b.data[t][..a - 1] + b.data[t][c..]
  {
  }

  /** `del_measures(a)` removes measure `a` alone. */
  lemma DelMeasuresOne(b: Built, a: int)
    requires 1 <= a
    requires forall t :: 0 <= t < |b.data| ==> a <= |b.data[t]|
    ensures var r := DelMeasures(b, a, None);
            r.Ok? && forall t :: 0 <= t < |b.data| ==> r.value.data[t] == b.data[t][..a - 1] + b.data[t][a..]
  {
  }

  /** A range that runs past the end of some track raises. */
  lemma DelMeasuresPastEnd(b: Built, a: int, c: int, t: nat)
    requires a <= c && t < |b.data| && |b.data[t]| < c
    ensures DelMeasures(b, a, Some(c)) == Err(IndexError)
  {
    assert DelRange(b.data[t], a - 1, c).Err?;
  }

  /** After `del_measures(a, c)` the rebuilt timeline of track `t` is the old one with
      exactly the deleted measures' beats cut out, provided the old timeline was the
      rewrite of the old table (as `_build_song` leaves it). */
  lemma DelMeasuresDropsBeats(b: Built, a: int, c: int, t: nat)
    requires 1 <= a <= c + 1 && t < |b.data|
    requires forall u :: 0 <= u < |b.data| ==> c <= |b.data[u]|
    requires b.song == RewriteSong(b.data)
    ensures var r := DelMeasures(b, a, Some(c));
            var lo := |Rewrite(b.data[t][..a - 1])|;
            var hi := |Rewrite(b.data[t][..c])|;
            r.Ok? && lo <= hi <= |b.song[t]|
            && b.song[t][lo..hi] == Rewrite(b.data[t][a - 1..c])
            && r.value.song[t] == b.song[t][..lo] + b.song[t][hi..]
  {
    DelMeasuresRange(b, a, c);
    RewriteCut(b.data[t], a - 1, c);
  }

  /** Rewriting a table cut into three pieces rewrites each piece in turn. */
  lemma RewriteCut(d: seq<MeasureRecord>, i: nat, k: nat)
    requires i <= k <= |d|
    ensures var lo := |Rewrite(d[..i])|;
            var hi := |Rewrite(d[..k])|;
            lo <= hi <= |Rewrite(d)|
            && Rewrite(d)[lo..hi] == Rewrite(d[i..k])
            && Rewrite(d[..i] + d[k..]) == Rewrite(d)[..lo] + Rewrite(d)[hi..]
  {
    assert d[..k] == d[..i] + d[i..k];
    assert d == d[..k] + d[k..];
    FlatMapAppend(RecordBeats, d[..i], d[i..k]);
    FlatMapAppend(RecordBeats, d[..k], d[k..]);
    FlatMapAppend(RecordBeats, d[..i], d[k..]);
  }

  /** `del_measures(0)` asks for `del t[-1]`, so it drops the last measure of every track,
      and raises as soon as some track has no measure at all. */
  lemma DelMeasuresZero(b: Built)
    ensures var r := DelMeasures(b, 0, None);
            (r.Ok? <==> forall t :: 0 <= t < |b.data| ==> |b.data[t]| > 0)
            && (r.Ok? ==> forall t :: 0 <= t < |b.data| ==> r.value.data[t] == b.data[t][..|b.data[t]| - 1])
  {
    forall t | 0 <= t < |b.data|
      ensures DelRange(b.data[t], -1, 0) == if |b.data[t]| > 0 then Ok(b.data[t][..|b.data[t]| - 1]) else Err(IndexError)
    {
      DelLast(b.data[t]);
    }
  }

  lemma DelLast<T>(t: seq<T>)
    ensures DelRange(t, -1, 0) == if |t| > 0 then Ok(t[..|t| - 1]) else Err(IndexError)
  {
    if |t| > 0 {
      var d := PyDel(t, -1);
      assert d == Ok(t[..|t| - 1] + t[|t|..]);
      assert t[..|t| - 1] + t[|t|..] == t[..|t| - 1];
      assert DelRange(t[..|t| - 1], -1, -1) == Ok(t[..|t| - 1]);
    }
  }

  // ---------------------------------------------------------------------------
  // Lookups on the document (gp_to_kivy.py:24-46)
  // ---------------------------------------------------------------------------

  /** `_gp_tuning_parser`: per track, `[string number, open-string note name]`. */
  function Tunings(song: Song): (r: seq<seq<(int, string)>>)
    ensures |r| == |song.tracks|
    ensures forall t :: 0 <= t < |r| ==> |r[t]| == |song.tracks[t].strings|
    ensures forall t, i :: 0 <= t < |r| && 0 <= i < |r[t]| ==>
              var gs := song.tracks[t].strings[i];
              r[t][i].0 == gs.number && r[t][i].1 in ChromScale
              && IndexOf(ChromScale, r[t][i].1) == gs.value % 12
  {
    seq(|song.tracks|, t requires 0 <= t < |song.tracks| =>
      var strings := song.tracks[t].strings;
      seq(|strings|, i requires 0 <= i < |strings| => (strings[i].number, NoteName(strings[i].value))))
  }

  const CircleOfFifthsMajor: seq<string> :=
    ["C", "G", "D", "A", "E", "B", "F#/Gb", "C#/Db", "G#/Ab", "D#/Eb", "A#/Bb", "F"]
  const CircleOfFifthsMinor: seq<string> :=
    ["A", "E", "B", "F#/Gb", "C#/Db", "G#/Ab", "D#/Eb", "A#/Bb", "F", "C", "G", "D"]
  const ModeNames: seq<string> := ["Major", "Minor"]

  /** `_gp_key_sig_parser`: the tonic at `pos` on the circle of fifths of the mode, and the
      mode's name. Both lookups use Python indexing, so `mode` may be `-2..1` and `pos`
      `-12..11`; anything else raises. */
  function KeySig(key: KeySignature): (r: Result<(string, string)>)
    ensures r.Ok? <==> -2 <= key.mode < 2 && -12 <= key.pos < 12
    ensures r.Err? ==> r.error == IndexError
    ensures r.Ok? ==> r.value.1 == (if key.mode % 2 == 0 then "Major" else "Minor")
    ensures r.Ok? ==> r.value.0 == ChromScale[(7 * key.pos + (if key.mode % 2 == 0 then 0 else 9)) % 12]
  {
    match PyIndex(key.mode, 2)
    case None => Err(IndexError)
    case Some(m) =>
      match PyIndex(key.pos, 12)
      case None => Err(IndexError)
      case Some(p) =>
        ModeIndex(m, key.mode);
        TonicAt(m, p, key);
        Ok((Tonic(m, p), ModeNames[m]))
  }

  lemma ModeIndex(m: nat, mode: int)
    requires m < 2 && m % 2 == mode % 2
    ensures m == mode % 2
    ensures ModeNames[m] == if mode % 2 == 0 then "Major" else "Minor"
  {
  }

  /** The tonic found at position `p` of circle `m` sits `7 * p` semitones above C, or
      above A for the minor circle. */
  function Tonic(m: nat, p: nat): (tonic: string)
    requires m < 2 && p < 12
    ensures tonic == ChromScale[(7 * p + (if m == 0 then 0 else 9)) % 12]
  {
    CirclesAreFifths(p);
    if m == 0 then CircleOfFifthsMajor[p] else CircleOfFifthsMinor[p]
  }

  lemma TonicAt(m: nat, p: nat, key: KeySignature)
    requires m < 2 && p < 12 && m == key.mode % 2 && p % 12 == key.pos % 12
    ensures Tonic(m, p) == ChromScale[(7 * key.pos + (if key.mode % 2 == 0 then 0 else 9)) % 12]
  {
    FifthsMod(p, key.pos, if m == 0 then 0 else 9);
  }

  lemma FifthsMod(p: int, q: int, off: int)
    requires p % 12 == q % 12
    ensures (7 * p + off) % 12 == (7 * q + off) % 12
  {
    var base := 7 * q + off;
    var m := 7 * (p / 12 - q / 12);
    assert p == 12 * (p / 12) + p % 12 && q == 12 * (q / 12) + q % 12;
    assert 7 * p + off == base + 12 * m;
    assert base == (base / 12) * 12 + base % 12;
    assert 7 * p + off == (base / 12 + m) * 12 + base % 12;
    ModOfMultiple(base / 12 + m, base % 12, 12);
  }

  /** Each step along a circle is a fifth: seven semitones up. */
  lemma CirclesAreFifths(p: nat)
    requires p < 12
    ensures CircleOfFifthsMajor[p] == ChromScale[(7 * p) % 12]
    ensures CircleOfFifthsMinor[p] == ChromScale[(7 * p + 9) % 12]
  {
    MajorCircleStep(p);
    MinorCircleStep(p);
  }

  lemma MajorCircleStep(p: nat)
    requires p < 12
    ensures CircleOfFifthsMajor[p] == ChromScale[(7 * p) % 12]
  {
    if p < 6 {
      MajorCircleLow(p);
    } else {
      MajorCircleHigh(p);
    }
  }

  lemma MajorCircleLow(p: nat)
    requires p < 6
    ensures CircleOfFifthsMajor[p] == ChromScale[(7 * p) % 12]
  {
    if p == 0 {} else if p == 1 {} else if p == 2 {} else if p == 3 {} else if p == 4 {} else {}
  }

  lemma MajorCircleHigh(p: nat)
    requires 6 <= p < 12
    ensures CircleOfFifthsMajor[p] == ChromScale[(7 * p) % 12]
  {
    if p == 6 {} else if p == 7 {} else if p == 8 {} else if p == 9 {} else if p == 10 {} else {}
  }

  lemma MinorCircleStep(p: nat)
    requires p < 12
    ensures CircleOfFifthsMinor[p] == ChromScale[(7 * p + 9) % 12]
  {
    if p < 6 {
      MinorCircleLow(p);
    } else {
      MinorCircleHigh(p);
    }
  }

  lemma MinorCircleLow(p: nat)
    requires p < 6
    ensures CircleOfFifthsMinor[p] == ChromScale[(7 * p + 9) % 12]
  {
    if p == 0 {} else if p == 1 {} else if p == 2 {} else if p == 3 {} else if p == 4 {} else {}
  }

  lemma MinorCircleHigh(p: nat)
    requires 6 <= p < 12
    ensures CircleOfFifthsMinor[p] == ChromScale[(7 * p + 9) % 12]
  {
    if p == 6 {} else if p == 7 {} else if p == 8 {} else if p == 9 {} else if p == 10 {} else {}
  }

  /** `pos` and `pos + 12` name the same tonic: the negative index wraps round. */
  lemma KeySigWraps(pos: int, mode: int)
    requires -12 <= pos < 0 && -2 <= mode < 2
    ensures KeySig(KeySignature(pos, mode)) == KeySig(KeySignature(pos + 12, mode))
  {
  }

  // ---------------------------------------------------------------------------
  // Note counts and track lengths (gp_to_kivy.py:139-148, 325-335)
  // ---------------------------------------------------------------------------

  /** How many notes of each name a track sounds, and for how many seconds in total. The
      name type is left generic; the builder uses note names. */
  datatype NoteTally<K> = NoteTally(counts: map<K, int>, seconds: map<K, real>)

  /** `{n: 0 for n in chrom_scale}`, twice. */
  function EmptyTally(): (t: NoteTally<string>)
    ensures t.counts.Keys == Elems(ChromScale) && t.seconds.Keys == Elems(ChromScale)
    ensures forall n :: n in t.counts ==> t.counts[n] == 0 && t.seconds[n] == 0.0
  {
    NoteTally(map n | n in ChromScale :: 0, map n | n in ChromScale :: 0.0)
  }

  /** `c * s` as repeated addition, the way the loop accumulates it. */
  function Scaled(c: nat, s: real): real
  {
    if c == 0 then 0.0 else Scaled(c - 1, s) + s
  }

  lemma {:induction false} ScaledIsProduct(c: nat, s: real)
    ensures Scaled(c, s) == c as real * s
  {
    if c > 0 {
      ScaledIsProduct(c - 1, s);
    }
  }

  /** The names of all notes, beat by beat. */
  function AllNames<K>(names: seq<seq<K>>): seq<K>
    decreases |names|
  {
    if |names| == 0 then [] else AllNames(names[..|names| - 1]) + names[|names| - 1]
  }

  /** Seconds a name sounds for: each beat contributes its length once per note of that
      name. */
  function SecondsOf<K(==)>(names: seq<seq<K>>, secs: seq<real>, n: K): real
    requires |secs| == |names|
    decreases |names|
  {
    if |names| == 0 then 0.0
    else
      var k := |names| - 1;
      SecondsOf(names[..k], secs[..k], n) + Scaled(multiset(names[k])[n], secs[k])
  }

  /** The inner note loop: one increment per note; a name that is not a key raises
      `KeyError`. */
  function TallyNotes<K(==)>(t: NoteTally<K>, names: seq<K>, seconds: real): (r: Result<NoteTally<K>>)
    requires t.seconds.Keys == t.counts.Keys
    ensures r.Ok? <==> forall j :: 0 <= j < |names| ==> names[j] in t.counts
    ensures r.Err? ==> r.error == KeyError
    ensures r.Ok? ==> r.value.counts.Keys == t.counts.Keys && r.value.seconds.Keys == t.counts.Keys
    decreases |names|
  {
    if |names| == 0 then Ok(t)
    else
      var n := names[0];
      if n !in t.counts then Err(KeyError)
      else
        var t' := NoteTally(t.counts[n := t.counts[n] + 1], t.seconds[n := t.seconds[n] + seconds]);
        assert forall j :: 1 <= j < |names| ==> names[1..][j - 1] == names[j];
        TallyNotes(t', names[1..], seconds)
  }

  /** The note loop adds, per name, the number of notes of that name and that many times
      the beat's length. */
  lemma {:induction false} TallyNotesCounts<K>(t: NoteTally<K>, names: seq<K>, seconds: real)
    requires t.seconds.Keys == t.counts.Keys
    requires TallyNotes(t, names, seconds).Ok?
    ensures var u := TallyNotes(t, names, seconds).value;
            forall n :: n in t.counts ==>
              u.counts[n] == t.counts[n] + multiset(names)[n]
              && u.seconds[n] == t.seconds[n] + Scaled(multiset(names)[n], seconds)
    decreases |names|
  {
    if |names| > 0 {
      var n := names[0];
      var t' := NoteTally(t.counts[n := t.counts[n] + 1], t.seconds[n := t.seconds[n] + seconds]);
      var r := TallyNotes(t', names[1..], seconds);
      assert r == TallyNotes(t, names, seconds);
      TallyNotesCounts(t', names[1..], seconds);
      TallyShift(t, names, seconds, r.value);
    }
  }

  /** Counting the head first and the rest afterwards counts the whole list. */
  lemma TallyShift<K>(t: NoteTally<K>, names: seq<K>, seconds: real, u: NoteTally<K>)
    requires |names| > 0 && names[0] in t.counts
    requires t.seconds.Keys == t.counts.Keys
    requires u.counts.Keys == t.counts.Keys && u.seconds.Keys == t.counts.Keys
    requires forall x :: x in t.counts ==>
               u.counts[x] == t.counts[names[0] := t.counts[names[0]] + 1][x] + multiset(names[1..])[x]
               && u.seconds[x] == t.seconds[names[0] := t.seconds[names[0]] + seconds][x]
                                  + Scaled(multiset(names[1..])[x], seconds)
    ensures forall x :: x in t.counts ==>
              u.counts[x] == t.counts[x] + multiset(names)[x]
              && u.seconds[x] == t.seconds[x] + Scaled(multiset(names)[x], seconds)
  {
    var n := names[0];
    assert names == [n] + names[1..];
    forall x | x in t.counts
      ensures u.counts[x] == t.counts[x] + multiset(names)[x]
      ensures u.seconds[x] == t.seconds[x] + Scaled(multiset(names)[x], seconds)
    {
      var c := multiset(names[1..])[x];
      if x == n {
        assert multiset(names)[x] == c + 1;
      } else {
        assert multiset(names)[x] == c;
      }
    }
  }

  /** The beat loop of `_note_counter` over one track, given each beat's names and length. */
  function TallyBeats<K(==)>(t: NoteTally<K>, names: seq<seq<K>>, secs: seq<real>): (r: Result<NoteTally<K>>)
    requires |secs| == |names| && t.seconds.Keys == t.counts.Keys
    ensures r.Ok? <==> forall i, j :: 0 <= i < |names| && 0 <= j < |names[i]| ==> names[i][j] in t.counts
    ensures r.Err? ==> r.error == KeyError
    ensures r.Ok? ==> r.value.counts.Keys == t.counts.Keys && r.value.seconds.Keys == t.counts.Keys
    decreases |names|
  {
    if |names| == 0 then Ok(t)
    else
      var k := |names| - 1;
      assert forall i :: 0 <= i < k ==> names[..k][i] == names[i];
      match TallyBeats(t, names[..k], secs[..k])
      case Err(e) => Err(e)
      case Ok(t') => TallyNotes(t', names[k], secs[k])
  }

  /** Over all beats, each name's count is its number of occurrences and its seconds are
      the lengths of the beats it sounds in, once per note. */
  lemma {:induction false} TallyBeatsCounts<K>(t: NoteTally<K>, names: seq<seq<K>>, secs: seq<real>)
    requires |secs| == |names| && t.seconds.Keys == t.counts.Keys
    requires TallyBeats(t, names, secs).Ok?
    ensures var u := TallyBeats(t, names, secs).value;
            forall n :: n in t.counts ==>
              u.counts[n] == t.counts[n] + multiset(AllNames(names))[n]
              && u.seconds[n] == t.seconds[n] + SecondsOf(names, secs, n)
    decreases |names|
  {
    if |names| > 0 {
      var k := |names| - 1;
      assert forall i :: 0 <= i < k ==> names[..k][i] == names[i];
      var t' := TallyBeats(t, names[..k], secs[..k]).value;
      TallyBeatsCounts(t, names[..k], secs[..k]);
      TallyNotesCounts(t', names[k], secs[k]);
      assert AllNames(names) == AllNames(names[..k]) + names[k];
      assert multiset(AllNames(names)) == multiset(AllNames(names[..k])) + multiset(names[k]);
    }
  }

  function BeatNames(beats: seq<KivyBeat>): (r: seq<seq<string>>)
    ensures |r| == |beats| && forall i :: 0 <= i < |beats| ==> r[i] == beats[i].notes
  {
    seq(|beats|, i requires 0 <= i < |beats| => beats[i].notes)
  }

  function BeatSeconds(beats: seq<KivyBeat>): (r: seq<real>)
    ensures |r| == |beats| && forall i :: 0 <= i < |beats| ==> r[i] == beats[i].seconds
  {
    seq(|beats|, i requires 0 <= i < |beats| => beats[i].seconds)
  }

  predicate NamesKnown(beats: seq<KivyBeat>)
  {
    forall i, j :: 0 <= i < |beats| && 0 <= j < |beats[i].notes| ==> beats[i].notes[j] in ChromScale
  }

  /** `_note_counter` for one track: per note name, how many notes of that name the track
      sounds and the total seconds of the beats they sound in; a name outside the
      chromatic scale raises. */
  function TrackTally(beats: seq<KivyBeat>): (r: Result<NoteTally<string>>)
    ensures r.Ok? <==> NamesKnown(beats)
    ensures r.Err? ==> r.error == KeyError
    ensures r.Ok? ==> r.value.counts.Keys == Elems(ChromScale) && r.value.seconds.Keys == Elems(ChromScale)
    ensures r.Ok? ==> forall n :: n in r.value.counts ==>
              r.value.counts[n] == multiset(AllNames(BeatNames(beats)))[n]
              && r.value.seconds[n] == SecondsOf(BeatNames(beats), BeatSeconds(beats), n)
  {
    var e := EmptyTally();
    assert forall x :: x in e.counts <==> x in ChromScale;
    var r := TallyBeats(e, BeatNames(beats), BeatSeconds(beats));
    if r.Ok? then
      TallyBeatsCounts(e, BeatNames(beats), BeatSeconds(beats));
      r
    else r
  }

  /** `_note_counter`: one tally per track. */
  function NoteCounts(song: seq<seq<KivyBeat>>): (r: Result<seq<NoteTally<string>>>)
    ensures r.Ok? <==> forall t :: 0 <= t < |song| ==> NamesKnown(song[t])
    ensures r.Ok? ==> |r.value| == |song| && forall t :: 0 <= t < |song| ==> r.value[t] == TrackTally(song[t]).value
    decreases |song|
  {
    if |song| == 0 then Ok([])
    else
      match TrackTally(song[0])
      case Err(e) => Err(e)
      case Ok(t) =>
        match NoteCounts(song[1..])
        case Err(e) => Err(e)
        case Ok(rest) => Ok([t] + rest)
  }

  /** A built timeline only carries names from the chromatic scale, so counting it never
      raises. */
  lemma BuiltNamesKnown(songTempo: int, track: Track)
    requires BuildTrack(songTempo, track).Ok?
    ensures NamesKnown(BuildTrack(songTempo, track).value.beats)
  {
    var ms := track.measures;
    var bs := TrackMeasureBeats(songTempo, ms).value;
    var items := BeatItems(ms, bs);
    forall i, j | 0 <= i < |items| && 0 <= j < |items[i].chunk| ensures items[i].chunk[j].notes == NoteNames(ms[i].beats[j].notes) {
    }
    ExpandKeeps(items);
  }

  /** Expansion only copies the measures' items. */
  lemma ExpandKeeps(items: seq<Item<KivyBeat>>)
    requires forall i, j :: 0 <= i < |items| && 0 <= j < |items[i].chunk| ==>
               forall k :: 0 <= k < |items[i].chunk[j].notes| ==> items[i].chunk[j].notes[k] in ChromScale
    ensures NamesKnown(Expand(items))
  {
    ExpandMatchesGroups(items);
    forall x | x in Expand(items) ensures forall k :: 0 <= k < |x.notes| ==> x.notes[k] in ChromScale {
      ExpandFrom(items, x);
    }
  }

  /** Every item of the expansion is an item of some measure. */
  lemma {:induction false} ExpandFrom<T>(items: seq<Item<T>>, x: T)
    requires x in Expand(items)
    ensures exists i, j :: 0 <= i < |items| && 0 <= j < |items[i].chunk| && items[i].chunk[j] == x
  {
    ExpandMatchesGroups(items);
    ByGroupsFrom(items, x);
  }

  lemma {:induction false} ByGroupsFrom<T>(items: seq<Item<T>>, x: T)
    requires x in ByGroups(items)
    ensures exists i, j :: 0 <= i < |items| && 0 <= j < |items[i].chunk| && items[i].chunk[j] == x
    decreases |items|
  {
    match FirstFlush(items)
    case Some(k) =>
      var g := AllChunks(items[..k + 1]);
      var rest := ByGroups(items[k + 1..]);
      assert ByGroups(items) == Repeat(g, Times(items[k].marker)) + rest;
      if x in rest {
        ByGroupsFrom(items[k + 1..], x);
        var i, j :| 0 <= i < |items[k + 1..]| && 0 <= j < |items[k + 1..][i].chunk| && items[k + 1..][i].chunk[j] == x;
        assert items[k + 1 + i] == items[k + 1..][i];
      } else {
        var p :| 0 <= p < |Repeat(g, Times(items[k].marker))| && Repeat(g, Times(items[k].marker))[p] == x;
        assert x in g;
        AllChunksFrom(items[..k + 1], x);
        var i, j :| 0 <= i < k + 1 && 0 <= j < |items[..k + 1][i].chunk| && items[..k + 1][i].chunk[j] == x;
        assert items[i] == items[..k + 1][i];
      }
  }

  lemma {:induction false} AllChunksFrom<T>(items: seq<Item<T>>, x: T)
    requires x in AllChunks(items)
    ensures exists i, j :: 0 <= i < |items| && 0 <= j < |items[i].chunk| && items[i].chunk[j] == x
    decreases |items|
  {
    var k := |items| - 1;
    assert AllChunks(items) == AllChunks(items[..k]) + items[k].chunk;
    if x in AllChunks(items[..k]) {
      AllChunksFrom(items[..k], x);
      var i, j :| 0 <= i < k && 0 <= j < |items[..k][i].chunk| && items[..k][i].chunk[j] == x;
      assert items[i] == items[..k][i];
    } else {
      var j :| 0 <= j < |items[k].chunk| && items[k].chunk[j] == x;
    }
  }

  /** A track's length as `int(seconds // 60)` minutes and `int(seconds % 60)` seconds:
      Python floors both, and the remainder is never negative. */
  function MinSec(seconds: real): (r: (int, int))
    ensures 0 <= r.1 < 60
    ensures (60 * r.0 + r.1) as real <= seconds < (60 * r.0 + r.1 + 1) as real
  {
    var m := (seconds / 60.0).Floor;
    var rest := seconds - (60 * m) as real;
    (m, rest.Floor)
  }

  /** The decimal digits of a natural number. */
  function Digits(n: nat): (s: string)
    ensures |s| >= 1 && forall i :: 0 <= i < |s| ==> '0' <= s[i] <= '9'
  {
    if n < 10 then [DigitChar(n)] else Digits(n / 10) + [DigitChar(n % 10)]
  }

  function DigitChar(d: nat): (c: char)
    requires d < 10
    ensures '0' <= c <= '9' && c as int - '0' as int == d
  {
    (d + '0' as int) as char
  }

  /** Python `str` of an integer. */
  function PyStr(n: int): string
  {
    if n < 0 then "-" + Digits(-n) else Digits(n)
  }

  /** Reading a decimal numeral back. */
  function ParseDigits(s: string): int
    decreases |s|
  {
    if |s| == 0 then 0 else 10 * ParseDigits(s[..|s| - 1]) + (s[|s| - 1] as int - '0' as int)
  }

  function ParseInt(s: string): int
  {
    if |s| > 0 && s[0] == '-' then -ParseDigits(s[1..]) else ParseDigits(s)
  }

  lemma {:induction false} DigitsRoundTrip(n: nat)
    ensures ParseDigits(Digits(n)) == n
  {
    if n >= 10 {
      DigitsRoundTrip(n / 10);
      var s := Digits(n);
      assert s[..|s| - 1] == Digits(n / 10);
    }
  }

  /** `str` can be read back. */
  lemma PyStrRoundTrip(n: int)
    ensures ParseInt(PyStr(n)) == n
  {
    if n < 0 {
      DigitsRoundTrip(-n);
      assert ("-" + Digits(-n))[1..] == Digits(-n);
    } else {
      DigitsRoundTrip(n);
    }
  }

  /** The beats' seconds summed in order. */
  function TotalSeconds(beats: seq<KivyBeat>): real
  {
    SumReal(seq(|beats|, i requires 0 <= i < |beats| => beats[i].seconds))
  }

  /** `s` is `"<minutes>:<seconds>"`: `str` of the minutes, a colon and `str` of the seconds,
      each part reading back as the number it was made from. */
  predicate ReadsAsMinSec(s: string, minutes: int, seconds: int)
  {
    var k := |PyStr(minutes)|;
    k < |s| && s[k] == ':'
    && s[..k] == PyStr(minutes) && s[k + 1..] == PyStr(seconds)
    && ParseInt(s[..k]) == minutes && ParseInt(s[k + 1..]) == seconds
  }

  /** The `length` property for one track: the beats' seconds summed in order, as
      `"<minutes>:<seconds>"`. */
  function TrackLength(beats: seq<KivyBeat>): (r: string)
    ensures var ms := MinSec(TotalSeconds(beats));
            |r| == |PyStr(ms.0)| + 1 + |PyStr(ms.1)| &&
            r[..|PyStr(ms.0)|] == PyStr(ms.0) && ReadsAsMinSec(r, ms.0, ms.1)
  {
    var ms := MinSec(TotalSeconds(beats));
    var r := PyStr(ms.0) + ":" + PyStr(ms.1);
    PyStrRoundTrip(ms.0);
    PyStrRoundTrip(ms.1);
    assert r[..|PyStr(ms.0)|] == PyStr(ms.0);
    assert r[|PyStr(ms.0)| + 1..] == PyStr(ms.1);
    r
  }

  /** The `length` property: one string per track, reading back as that track's floored
      minutes and leftover seconds. */
  function Lengths(song: seq<seq<KivyBeat>>): (r: seq<string>)
    ensures |r| == |song|
    ensures forall t :: 0 <= t < |song| ==>
              var ms := MinSec(TotalSeconds(song[t]));
              ReadsAsMinSec(r[t], ms.0, ms.1) && 0 <= ms.1 < 60
  {
    seq(|song|, t requires 0 <= t < |song| => TrackLength(song[t]))
  }
}

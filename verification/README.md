# pyfiguitarout core, modelled in Dafny

This project models the core of pyfiguitarout. That core is the code that turns a parsed
Guitar Pro song into what a fretboard player needs, and then guesses the key of every
measure. It covers two files, `gp_to_kivy.py` and `music_theory.py`:

- **Timeline builder** (`KivySongBuilder._build_track`, `_build_song`, `_rewrite_song`,
  `del_measures`). Every beat becomes a `KivyBeat`: its seconds, its six fret slots and its
  note names. Beats are collected into a flat timeline and a parallel measure table, and
  repeat groups are expanded. The table can lose a range of measures, after which the
  timeline is rebuilt from it.
- **Repeat expander.** An open repeat keeps collecting measures. A close with count `n > 0`
  emits the collected group `n` times. Any other measure emits the group once. A group
  still open at the end is dropped. Timeline, measure table and key list all use this same
  loop, modelled once (`Repeats`) and instantiated three times.
- **Song metadata.** This covers the tuning parser, the key-signature parser (circle of
  fifths), the per-note counter and the `length` property.
- **Duration check** (`_get_beat_length_1/2`, `_sum_and_check_*`). Two formulas give a
  beat's seconds. Each measure checks that both sums match its length.
- **Key detection** (`_detect_track_key_signatures`). Each measure gets a 12-bit mask,
  with pitch class `p` at bit `11 - p`. The mask tables (`note_filter`, `maj_filter`,
  `mode_filters`, `filter_to_mode`) are shown to be the scales their names say.
- **Candidate test** (`possible_keys`, `get_measure_candidate_modes`).
- **Key search** (`test_key_sig_A_star`). Two tracks' masks are flattened into one. Each
  measure gets the candidate modes that fit it. A priority-queue search then finds the
  cheapest path of modes, where a step costs the number of pitch classes in which two
  modes differ. The completed paths are ranked by how many different modes they use, and
  the winner is named.
- **Music theory** (`music_theory.py`). This covers the mode patterns, the colour map of a
  key, and the 84-key table with its buckets of keys that share notes.

Python's exceptions are modelled as a `Result` whose error names the Python exception
(`IndexError`, `KeyError`, `ZeroDivisionError`, `AttributeError`, `ValueError`). Loops
that stop at the first raise are modelled by the generic `PyCore.MapResult`. Dicts in
insertion order are association lists (`PyCore.Table`). Masks are natural numbers with
arithmetic bit operations (`Bits`).

Behaviour of the code worth knowing:

- The step cost of `test_key_sig_A_star` is the Hamming distance `bin(a ^ b).count("1")`
  (gp_to_kivy.py:540): the number of pitch classes in which two modes differ. The older
  searches in `test_key_sig_eval`, `key_sig_DFS` (gp_to_kivy.py:354-368) and the queue
  search at gp_to_kivy.py:413-428, count each key change as 1 instead.
- The A* search does not stop at the first completed path, unlike the queue search at
  gp_to_kivy.py:419-422. It runs until the queue is empty, keeps every completed path,
  and returns the cheapest one found.
- The candidate walk stops when either value runs out of bits, not only the measure. See
  Findings.
- The second duration formula counts in the time signature's denominator note. The first
  counts in quarter notes. They agree only in `x/4` time (`FormulasAgreeIffQuarterBeat`).

## Model

| member | source | states |
|---|---|---|
| PyCore.PyIndex | gp_to_kivy.py:46 | Python list indexing succeeds exactly for `-len <= i < len`. The position read is `i` modulo `len`, so a negative index counts from the end. |
| PyCore.PyGet | gp_to_kivy.py:46 | `xs[i]` succeeds exactly when `-len(xs) <= i < len(xs)` and reads `xs[i mod len]`. Otherwise it raises `IndexError`. |
| PyCore.PyDel | gp_to_kivy.py:181 | `del xs[i]` succeeds exactly for in-range indices and removes one item. A non-negative index removes item `i`, a negative one the item `-i` places from the end, and the rest keep their order. |
| PyCore.MapResult | gp_to_kivy.py:59-62 | A loop that stops at the first raise succeeds exactly when every item succeeds, and then holds every item's result in order. Otherwise it carries the error of the first failing item: every item before it succeeds. |
| PyCore.Repeat | gp_to_kivy.py:122 | `xs * n` has `n * len(xs)` items, none when `n <= 0`, and item `i` is `xs[i mod len(xs)]`. |
| PyCore.Dedup | gp_to_kivy.py:508 | The keys of a dict built from a list have no repeats and exactly the list's members, there are no more of them than list items, and they come in order of first occurrence in the list. |
| PyCore.RotateLeft | music_theory.py:42 | `deque.rotate(-k)` keeps the length and puts `xs[(j + k) mod n]` at position `j`. |
| PyCore.CompressPicks | music_theory.py:47 | `itertools.compress` returns exactly the data items at the truthy selector positions, in order. |
| PyCore.Lookup | gp_to_kivy.py:307 | `d[key]` raises `KeyError` exactly when the key is absent. Otherwise it returns a value stored under that key. |
| PyCore.LookupDistinct | gp_to_kivy.py:555 | With distinct keys, every entry is found under its own key with its own value. |
| PyCore.StoreLookup | music_theory.py:71 | After `d[key] = value`, `d[key]` reads `value` and every other key reads as before. |
| PyCore.SumIntPermutation | music_theory.py:67-69 | A sum of integers does not depend on the order of the terms. |
| Bits.OrBit | gp_to_kivy.py:307 | A bit of the bitwise or of `a` and `b` is set iff it is set in `a` or in `b`. |
| Bits.XorBit | gp_to_kivy.py:540 | A bit of `a ^ b` is set iff it is set in exactly one operand. |
| Bits.XorZero | gp_to_kivy.py:540 | `a ^ b` is zero exactly when `a == b`. |
| Bits.HammingBound | gp_to_kivy.py:540 | The popcount of `a ^ b` is at most the bit length of the wider operand. |
| Pitch.PitchClassOf | gp_to_kivy.py:108 | The semitone of `divmod(value, 12)` differs from the value by a multiple of 12, so a negative pitch still lands in 0..11. |
| Pitch.NoteName | gp_to_kivy.py:108-109 | A pitch's name is a chromatic-scale name whose index is the pitch modulo 12. |
| Pitch.NoteNameOctave | gp_to_kivy.py:108-109 | Pitches an octave apart get the same name. |
| Repeats.Times | gp_to_kivy.py:121-136 | A group is emitted at least once. It is emitted `repeatClose` times exactly when that count is positive. |
| Repeats.Step | gp_to_kivy.py:115-136 | One measure of the loop never takes back emitted output. An open repeat emits nothing, and any other measure leaves nothing pending. The output grows by exactly the copies emitted. |
| Repeats.RunOpen | gp_to_kivy.py:117-119 | Over open repeats only, nothing is emitted and every measure's items join the pending group. |
| Repeats.RunKeepsOutput | gp_to_kivy.py:123-135 | Output emitted so far is never changed by later measures. |
| Repeats.RunOneGroup | gp_to_kivy.py:117-128 | A run of open repeats closed by a non-open measure emits `Times` copies of all the group's items and leaves nothing pending. |
| Repeats.ExpandMatchesGroups | gp_to_kivy.py:96-137 | The accumulate-and-flush loop computes the group-by-group definition of the expansion. |
| Repeats.ExpandGroup | gp_to_kivy.py:121-128 | One closed group expands to `Times` copies of its items, so to `Times * len` items. |
| Repeats.FlushOfGroup | gp_to_kivy.py:117-136 | A closed group is flushed at its last measure and nowhere earlier. |
| Repeats.ExpandSplit | gp_to_kivy.py:129-136 | Expansion is compositional across a group boundary. |
| Repeats.ExpandDropsOpenTail | gp_to_kivy.py:117-137 | A repeat still open when the measures run out contributes nothing. |
| Repeats.ExpandMap | gp_to_kivy.py:309-322 | Expanding, then replacing each item, gives the same result as replacing first and then expanding. This lets the beat, record and mask loops share one expander. |
| Timeline.Frets | gp_to_kivy.py:104-106 | Writing the fret slots succeeds exactly when every string number indexes the six slots, negative indices included. Each slot then holds the fret of the last note written to it, or `None`. |
| Timeline.LastWriteStep | gp_to_kivy.py:105-106 | Writing one more note changes only its own slot. |
| Timeline.NoteNames | gp_to_kivy.py:108-110 | A beat's names are chromatic-scale names, one per note in note order, each indexed by the note's pitch modulo 12. |
| Timeline.MakeBeat | gp_to_kivy.py:101-114 | A beat succeeds exactly when the song tempo is non-zero and every string is valid. A zero tempo raises `ZeroDivisionError` before any note is read. The seconds are the tick count at 960 per quarter, and there are six frets. |
| Timeline.MeasureBeats | gp_to_kivy.py:100-114 | A measure's beats succeed exactly when each beat does, in order. Otherwise the measure carries some beat's error. |
| Timeline.TrackMeasureBeats | gp_to_kivy.py:96-114 | A track's measures succeed exactly when each measure does. |
| Timeline.BuildTrack | gp_to_kivy.py:65-137 | The build succeeds exactly when every measure's beats do. The timeline is then the measure table with its headers dropped. |
| Timeline.RewriteRecovers | gp_to_kivy.py:112-136 | Expanding the beats equals expanding the one-record-per-measure table and then dropping the headers. |
| Timeline.PlainTrackTable | gp_to_kivy.py:129-136 | Without repeat signs, the table has one record per measure, with the measure's header, in document order. |
| Timeline.BuildSong | gp_to_kivy.py:48-63 | The song builds exactly when every track does. It has one timeline and one table per track, and the timelines are the rewrite of the tables. |
| Timeline.BuildTracks | gp_to_kivy.py:58-63 | Track `t`'s timeline and table are exactly `BuildTrack` of track `t`. |
| Timeline.DelRange | gp_to_kivy.py:180-181 | Deleting `s..e-1` from the back is a no-op when `e <= s`. For an in-range range it gives the list without that slice. A range past the end raises `IndexError`, and it is the only error. |
| Timeline.DelEach | gp_to_kivy.py:179-181 | The deletion succeeds on every table exactly when it succeeds on each one. Each table is then shortened by the same range. |
| Timeline.DelMeasures | gp_to_kivy.py:171-182 | After a deletion the timeline is the rewrite of the shortened tables, and the track count is unchanged. The only error is `IndexError`. |
| Timeline.DelMeasuresRange | gp_to_kivy.py:176-182 | `del_measures(a, c)` removes measures `a..c` (1-based, inclusive) from every table and keeps the rest in order. |
| Timeline.DelMeasuresOne | gp_to_kivy.py:177-178 | `del_measures(a)` removes measure `a` alone. |
| Timeline.DelMeasuresPastEnd | gp_to_kivy.py:179-181 | A range running past the end of some table raises `IndexError`. |
| Timeline.DelMeasuresZero | gp_to_kivy.py:176-181 | `del_measures(0)` deletes index −1: it drops the last measure of every table, and raises exactly when some table is empty. |
| Timeline.DelMeasuresDropsBeats | gp_to_kivy.py:171-191 | When the timelines were the rewrite of the tables, deleting measures `a..c` and rewriting cuts exactly those measures' beats out of a track's timeline, and nothing else. |
| Timeline.Tunings | gp_to_kivy.py:24-34 | One tuning per track and one entry per string. Each entry is the string number with a chromatic name indexed by the open-string pitch modulo 12. |
| Timeline.KeySig | gp_to_kivy.py:36-46 | The parser succeeds exactly for `mode` in -2..1 and `pos` in -12..11, where Python's negative indices wrap. The mode name follows the mode's parity. The tonic lies `7 * pos` semitones above C (major) or A (minor). |
| Timeline.Tonic | gp_to_kivy.py:37-43 | Entry `p` of each circle table is the note `7p` semitones above its start. |
| Timeline.CirclesAreFifths | gp_to_kivy.py:37-42 | Both circle tables climb by fifths: entry `p` is seven semitones times `p` above C (major) or A (minor). |
| Timeline.KeySigWraps | gp_to_kivy.py:46 | A negative position names the same key as the position 12 higher. |
| Timeline.EmptyTally | gp_to_kivy.py:329 | Both fresh tallies have exactly the twelve chromatic names as keys, all at zero. |
| Timeline.TallyNotes | gp_to_kivy.py:331-333 | A beat's note loop succeeds exactly when every name is a key, and it keeps the keys. |
| Timeline.TallyNotesCounts | gp_to_kivy.py:331-333 | The note loop adds, per name, the number of notes with that name, and that many times the beat's seconds. |
| Timeline.TallyBeats | gp_to_kivy.py:330-333 | The beat loop succeeds exactly when every note name is a key, and it keeps the keys. |
| Timeline.TallyBeatsCounts | gp_to_kivy.py:330-333 | Over all beats, each name's count is its number of occurrences. Its seconds are the seconds of the beats it sounds in, once per note. |
| Timeline.TrackTally | gp_to_kivy.py:328-334 | A track's tally succeeds exactly when all its names are chromatic names. It then counts each name's occurrences and the seconds they sound. |
| Timeline.NoteCounts | gp_to_kivy.py:325-335 | One tally per track, failing exactly when some track has an unknown name. |
| Timeline.BuiltNamesKnown | gp_to_kivy.py:329-333 | The names a built timeline carries are all chromatic names, so counting it never raises. |
| Timeline.MinSec | gp_to_kivy.py:146 | Seconds split into floored minutes and seconds: the seconds part is in 0..59, and the two parts together floor the total. |
| Timeline.PyStrRoundTrip | gp_to_kivy.py:146 | The decimal `str` of an integer reads back as that integer. |
| Timeline.TrackLength | gp_to_kivy.py:143-147 | A track's length is `"<minutes>:<seconds>"`, built from the in-order sum of its beats' seconds, and both parts read back as those numbers. |
| Timeline.Lengths | gp_to_kivy.py:139-148 | One length string per track. Each is exactly `str` of the floored minutes of that track's total seconds, a colon, and `str` of the leftover whole seconds (0 to 59), both parts reading back as those numbers. |
| Durations.BeatLength1 | gp_to_kivy.py:231-233 | The first formula's seconds times 16 times the song tempo equal the beat's tick count. |
| Durations.BeatLength2 | gp_to_kivy.py:235-247 | The second formula's seconds, times the measure tempo and the note value and tuplet entries, equal 60 times the time-signature denominator times the tuplet times and the dot factor (3/2 dotted, else 7/4 double-dotted). |
| Durations.FormulasAgreeIffQuarterBeat | gp_to_kivy.py:231-247 | Take a beat whose tick count matches its notation, in a measure at the song tempo. The two formulas agree on it exactly when the time signature's denominator is 4. |
| Durations.CheckMeasure | gp_to_kivy.py:205-229 | The check raises `ZeroDivisionError` exactly when the measure tempo is zero, or some beat meets a zero song tempo, note value or tuplet divisor. Otherwise it is true iff both beat sums are `isclose` to `numerator * 60 / tempo`. |
| Durations.CheckTrack | gp_to_kivy.py:199-203 | A track passes iff every measure passes. Otherwise the result is that of the first measure that does not pass. |
| Durations.CheckSong | gp_to_kivy.py:193-197 | A song passes iff every measure of every track passes. Otherwise the result is the first non-passing track's: `False`, or the `ZeroDivisionError` it raised, with every earlier track passing. |
| Durations.CheckTracks | gp_to_kivy.py:194-196 | The tracks pass iff every measure of every track passes. Otherwise the loop stops at the first track that does not pass and returns its `False` or its error. |
| KeyFilter.NoteTablesAgree | gp_to_kivy.py:260-278 | The binary and decimal note tables are the same table, keyed by the chromatic scale in order. Pitch class `p` has the single bit `2^(11-p)`. |
| KeyFilter.MajTablesAgree | gp_to_kivy.py:279-297 | The binary and decimal major tables are the same table, and both equal the first twelve entries of `mode_filters`. |
| KeyFilter.ModeFilterScale | gp_to_kivy.py:432-444 | Entry `12f + k` of `mode_filters` has seven bits. Pitch class `p` is in it exactly when `p - k` is an offset of scale `f` (major, harmonic minor, melodic minor). |
| KeyFilter.ModeFiltersDistinct | gp_to_kivy.py:432-444 | No two of the 36 modes share a mask. |
| KeyFilter.FilterToModeSwaps | gp_to_kivy.py:445-482 | `filter_to_mode` is `mode_filters` with every entry turned round, in the same order. |
| KeyFilter.FilterToModeInverts | gp_to_kivy.py:445-482 | Looking up any mode's mask in `filter_to_mode` gives back that mode's name. |
| KeyFilter.NoteMask | gp_to_kivy.py:305-307 | A note contributes the single bit of its pitch class. |
| KeyFilter.NotesInto | gp_to_kivy.py:304-307 | The note loop keeps the mask within 12 bits and sets exactly the old bits plus the notes' pitch classes. |
| KeyFilter.BeatsInto | gp_to_kivy.py:302-307 | The beat loop sets exactly the old bits plus the pitch classes of every beat's notes. |
| KeyFilter.MeasureMask | gp_to_kivy.py:300-308 | A measure's mask is below 4096 and has bit `11 - p` set exactly when some note has pitch class `p`. |
| KeyFilter.MeasureMaskUnique | gp_to_kivy.py:300-308 | Any 12-bit number with exactly the measure's pitch classes is the measure's mask. |
| KeyFilter.RestMeasureMask | gp_to_kivy.py:301-308 | A measure of rests has the zero mask. |
| KeyFilter.TrackKeys | gp_to_kivy.py:257-323 | Every entry of a track's key list is a 12-bit mask. |
| KeyFilter.SongKeys | gp_to_kivy.py:250-255 | One key list per track. Position `j` of track `t`'s list is the pitch-class mask of the measure the repeat expander plays `j`-th. |
| KeyFilter.SongKeysAlignWithTables | gp_to_kivy.py:250-255 | Over a built song, every track's key list is as long as its measure table, and key `j` is the mask of the measure whose header is table entry `j`. |
| KeyFilter.KeysFollowMeasureOrder | gp_to_kivy.py:308-322 | Position `j` of the key list is the mask of the measure the expander places at position `j`. |
| KeyFilter.TableFollowsMeasureOrder | gp_to_kivy.py:96-137 | Entry `j` of the measure table is the measure the expander places at position `j`. |
| KeyFilter.KeysAlignWithTable | gp_to_kivy.py:309-322 | The key list has one entry per table entry, and entry `j` is the mask of the measure whose header table entry `j` carries. |
| KeyFilter.SurvivesIff | gp_to_kivy.py:496-502 | The bit walk keeps a mode iff every measure bit below the mode mask's bit length is in the mask. |
| KeyFilter.SurvivesIgnoresHighBits | gp_to_kivy.py:496 | Measure bits at or above a filter's width never affect the walk. |
| KeyFilter.CNeverEliminates | gp_to_kivy.py:496-502 | For every 12-bit filter, clearing C in the measure does not change the decision. |
| KeyFilter.DsHarmonicMinorIgnoresCAndCs | gp_to_kivy.py:461 | For `ds_harm_min` (875), neither C nor C# in the measure is ever looked at. |
| KeyFilter.ContainsIff | gp_to_kivy.py:497 | The intended test ("a note in the measure that isn't in the key") holds iff every measure bit is a mask bit. |
| KeyFilter.ContainsAndSurvives | gp_to_kivy.py:496-502 | Every mode containing the measure survives the walk. For 12-bit measures and modes that have C, the walk and containment agree. |
| KeyFilter.CandidateTestMissesC | gp_to_kivy.py:496-502 | The walk keeps `d_maj` (1717) for a measure sounding only C (2048), which `d_maj` does not contain. Every filter without C lets that measure through. |
| KeyFilter.Candidates | gp_to_kivy.py:493-503 | The append-then-pop loop leaves the table entries that pass the test, in table order. |
| KeyFilter.CandidatesMember | gp_to_kivy.py:493-503 | With distinct masks, an entry is a candidate iff it passes the test. |
| KeyFilter.PossibleKeys | gp_to_kivy.py:370-382 | `possible_keys` lists the names of the modes the walk keeps, in table order. |
| KeyFilter.MeasureCandidateModes | gp_to_kivy.py:491-503 | `get_measure_candidate_modes` lists the masks of the modes the walk keeps, in table order. |
| KeyFilter.MeasureCandidateModesIff | gp_to_kivy.py:491-503 | Mode `i` is listed iff the measure's bits up to the mode mask's width are in the mask. |
| KeyFilter.ZeroMaskKeepsAll | gp_to_kivy.py:496 | A measure with no notes keeps all 36 modes in table order, under the walk and under containment. |
| KeyFilter.ContainingModes | gp_to_kivy.py:491-503 | The corrected list holds the masks of the modes that contain the measure, in table order. |
| KeyFilter.ContainingModesIff | gp_to_kivy.py:497 | The corrected list keeps mode `f` on root `k` iff the measure is a 12-bit mask and each of its pitch classes lies a scale-`f` offset above `k`. |
| KeyFilter.ListsAgreeOnModesWithC | gp_to_kivy.py:491-503 | For 12-bit measures, the as-written and corrected lists agree on every mode that has C. |
| KeyFilter.FlattenKeySigs | gp_to_kivy.py:485-489 | With a track count other than two, unpacking the `zip` tuples raises `ValueError`, unless the list or some track is empty and `zip` yields nothing. Two tracks give their masks or-ed pairwise, as long as the shorter track. |
| KeyFilter.FlattenKeySigsBound | gp_to_kivy.py:485-489 | Flattening 12-bit masks gives 12-bit masks. |
| Scales.TransposeBits | gp_to_kivy.py:432-444 | Moving a 12-bit mask up `k` semitones rotates its bits and keeps it within 12 bits with the same count. |
| Scales.ShapeScaleBits | gp_to_kivy.py:432-444 | The mask of a scale shape moved to root `k` has one bit per shape degree. Pitch class `p` is in it iff `p - k` is a shape offset. |
| Scales.MajorScale | gp_to_kivy.py:280-291 | The major mask 2773 moved to root `k` is the major scale on `k`, with seven pitch classes. |
| Scales.HarmonicMinorScale | gp_to_kivy.py:432-444 | The harmonic-minor mask 2905 moved to root `k` is the harmonic minor scale on `k`. |
| Scales.MelodicMinorScale | gp_to_kivy.py:432-444 | The melodic-minor mask 2901 moved to root `k` is the melodic minor scale on `k`. |
| KeySearch.EdgeCost | gp_to_kivy.py:540 | A step costs nothing exactly when it keeps the mode. |
| KeySearch.EdgeCostSymmetric | gp_to_kivy.py:540 | A step's cost does not depend on its direction. |
| KeySearch.EdgeCostBound | gp_to_kivy.py:540 | Two 12-bit modes differ in at most 12 pitch classes. |
| KeySearch.BuildGraph | gp_to_kivy.py:505-510 | One layer per measure, with exactly the measure's candidates and no repeats. A layer is empty exactly when its measure has none. |
| KeySearch.CompleteIgnoresLayerOne | gp_to_kivy.py:518-539 | Which paths the as-written search completes does not depend on layer 1. |
| KeySearch.ExtendToComplete | gp_to_kivy.py:533-545 | Every path the search can build extends to a completed one. |
| KeySearch.PathCostExtend | gp_to_kivy.py:544 | A path's cost grows by the cost of its last step. |
| KeySearch.MinIndex | gp_to_kivy.py:518-525 | `heappop` takes the least entry in Python's tuple order (cost, then progress, then mode, then path), so it comes before every different entry in the queue. |
| KeySearch.RelaxAll | gp_to_kivy.py:539-545 | The neighbour loop only lowers stored costs. Every neighbour ends up stored at no more than the price through the popped entry, and only neighbours it improved are pushed. |
| KeySearch.Record | gp_to_kivy.py:528-532 | A completed path is kept. It becomes the result when it is the first one or strictly cheaper than the best so far. |
| KeySearch.CarryOver | gp_to_kivy.py:534-536 | An empty next layer moves the entry on at no cost with its mode, keeping the loop invariant and lowering the queue's weight. |
| KeySearch.Relax | gp_to_kivy.py:538-545 | Relaxing into a non-empty layer keeps the loop invariant and lowers the queue's weight. |
| KeySearch.Pop | gp_to_kivy.py:523-545 | One turn of the loop keeps the invariant and strictly lowers the queue's weight, so the loop ends. |
| KeySearch.SearchConclusion | gp_to_kivy.py:523-545 | When the queue runs dry, there is a result iff layer 0 has a candidate. All kept paths are complete, and the result is a cheapest complete path. |
| KeySearch.Search | gp_to_kivy.py:512-545 | The as-written search raises `IndexError` exactly for no layers, or one non-empty layer. Otherwise its result is a complete path of least cost among all complete paths, and it exists iff there are two or more layers and layer 0 is non-empty. |
| KeySearch.SearchSkipsLayerOne | gp_to_kivy.py:518-534 | Over c_maj, d_maj, c_maj, the as-written search completes `[c_maj, c_maj]` at cost 0. That path assigns no mode to the d_maj measure, and the only full assignment costs more. |
| KeySearch.PaddedComplete | gp_to_kivy.py:518-545 | With an empty layer put in at position 1, the as-written search's complete paths are exactly the one-mode-per-measure assignments. |
| KeySearch.SearchAllMeasures | gp_to_kivy.py:512-545 | The corrected search raises only for no layers. Its result is a cheapest assignment of a mode to every measure, and it exists iff layer 0 is non-empty. |
| KeySearch.SortBy | gp_to_kivy.py:552 | Sorting by a key gives a sorted permutation of the list. |
| KeySearch.SortByDistinct | gp_to_kivy.py:550-552 | The paths sorted by number of distinct modes, as a permutation. |
| KeySearch.SortHeadIsFirstLeast | gp_to_kivy.py:552-554 | After the stable sort, `paths[0]` is the first path with the fewest distinct modes. |
| KeySearch.NameAll | gp_to_kivy.py:554-555 | Naming a path succeeds exactly when every mode is a key. The names are then the lookups, one per step. |
| KeySearch.ModeMaskNamed | gp_to_kivy.py:555 | Every mode mask is a key of `filter_to_mode`, and it names that mode. |
| KeySearch.NameModesOfModeMasks | gp_to_kivy.py:554-555 | A path of mode masks is always named, each step with its own mode's name. |
| KeySearch.Report | gp_to_kivy.py:550-555 | No completed path means `paths[0]` raises `IndexError`. |
| KeySearch.ReportSummarises | gp_to_kivy.py:547-555 | Ranking and naming the assignments found over mode masks never fails. The names spell out the first path with the fewest distinct modes. |
| KeySearch.CandidateGraph | gp_to_kivy.py:513 | Layer `l` is the corrected candidate list of measure `l`, and it holds only mode masks. |
| KeySearch.KeySigAStar | gp_to_kivy.py:431-555 | The pipeline fails with `ValueError` when flattening does, and with `IndexError` exactly when there are no measures or the first fits no mode. Otherwise its summary has a cheapest one-mode-per-measure assignment, every assignment found, and the names of the first with the fewest distinct modes. |
| KeySearch.CandidateGraphAsWritten | gp_to_kivy.py:491-514 | The graph as written has one layer per measure holding the masks the bit walk keeps, and every entry is a `mode_filters` mask. |
| KeySearch.ReportSummarisesAsWritten | gp_to_kivy.py:547-555 | Ranking and naming the complete paths of the search as written never fails. The names spell out the first path with the fewest distinct modes, one name per measure but the last. |
| KeySearch.KeySigAStarAsWritten | gp_to_kivy.py:431-555 | The pipeline as written fails with `ValueError` when flattening does, and with `IndexError` exactly when there is at most one measure (`graph[2]`) or the first measure has no candidate (`paths[0]`). Otherwise it gives the cheapest complete path, every complete path found, and `len(graph) - 1` names. |
| MusicTheory.IntervalSequenceIsMajor | music_theory.py:24-25 | `interval_sequence` marks exactly the major scale's offsets 0, 2, 4, 5, 7, 9, 11. |
| MusicTheory.ModesStartOnDegrees | music_theory.py:27-29 | The seven mode names are distinct, and mode `b` starts on the major scale's `b`-th degree. |
| MusicTheory.ModeOffsetsFollowDoc | music_theory.py:5-18 | Each mode's offsets climb by the whole and half steps of the table in the module's doc comment, closing the octave. |
| MusicTheory.ModeOffsetsRotateMajor | music_theory.py:5-14 | Mode `b`'s offsets are the major scale's read from degree `b`. |
| MusicTheory.ModePatternOffsets | music_theory.py:59-60 | The rotated pattern marks exactly the mode's offsets. |
| MusicTheory.Scale | music_theory.py:59-65 | A key's notes are seven names from the list, taken at the mode's offsets above the tonic. |
| MusicTheory.CompressRotated | music_theory.py:62-65 | `compress` of the list rotated to the tonic picks the names at the pattern's offsets above the tonic. |
| MusicTheory.ScaleDistinct | music_theory.py:62-65 | A key has seven distinct notes and starts on its tonic. |
| MusicTheory.RotateTo | music_theory.py:62-64 | The deque rotate loop of `generate_key_sigs` ends with the deque rotated left to the note's first occurrence, so that the note is first. |
| MusicTheory.GetKeySigColorMap | music_theory.py:31-50 | An unknown mode raises `KeyError`. Any tonic but C raises `AttributeError`, since a list has no `rotate`. For C, the mode's seven notes get the seven rainbow colours in scale order, with C red. |
| MusicTheory.ColorMapNotes | music_theory.py:41-47 | For a known mode, the pattern lookup and `compress` give the mode's seven distinct notes on C, at its offsets. |
| MusicTheory.ModeRotatesParent | music_theory.py:59-65 | Every mode is a rotation of its parent major scale. |
| MusicTheory.KeySumByParent | music_theory.py:67-69 | A key's position sum depends on its parent major scale alone. |
| MusicTheory.SameSumIffSameParent | music_theory.py:67-70 | Two keys get the same position sum iff they share a parent major scale. |
| MusicTheory.SameNotesIffSameParent | music_theory.py:59-65 | Two keys have the same notes iff they share a parent major scale. |
| MusicTheory.KeyNamesDistinct | music_theory.py:58 | Different (note, mode) pairs get different key names. |
| MusicTheory.BucketIsParentFamily | music_theory.py:67-70 | Key `k'` is in the bucket of key `k`'s position sum iff the two share a parent major scale, which holds iff they have the same notes. |
| MusicTheory.KeyNotes | music_theory.py:62-65 | The compressed, rotated list is the key's scale. |
| MusicTheory.PositionSum | music_theory.py:67-69 | The loop's value is the sum of the names' positions in `notes`. |
| MusicTheory.AddKey | music_theory.py:57-71 | One turn of the inner loop adds one key to both tables and keeps them in step. |
| MusicTheory.AddModes | music_theory.py:57-71 | The inner loop adds the seven modes on a note. |
| MusicTheory.GenerateKeySigs | music_theory.py:53-72 | 84 distinct keys, twelve notes by seven modes in loop order, each with its notes. The buckets list, by position sum, exactly the keys with that sum, in loop order. |

## Left out

- The Guitar Pro parser (`guitarpro.parse`) and file reading. A song enters the model as a
  `Document.Song` value.
- All printing: `print_song`, `print_song_data`, and the prints of the search.
- The module-level objects (`song`, `track`, `strings`, `key_sig_color_map`). The
  `KivySongBuilder` constructor is modelled by its parts, not as one call.
- `test_key_sig_eval` is modelled only through `possible_keys` (`KeyFilter.PossibleKeys`).
  Its depth-first search, `Counter` ranking and early-stopping queue read module globals
  from an unfinished experiment.
- Measures with more than one real voice. The parser's trailing default voice is always
  dropped, and `Document.Measure` carries the beats of the one real voice.
- Floating point. Seconds are exact reals, and `isclose` is evaluated exactly on them.
- `KeySearch.Search`: its contract does not say which of several equally cheap paths is
  returned, or which of them are kept in `paths`. The model pops entries in Python's tuple
  order, so both follow the source, but no property pins them down.
- `KeySearch.Search`: the `float("inf")` of the graph dicts is modelled as "no stored
  cost yet" in a separate map. The stored costs are not written back into the layers.
- `Timeline.DelMeasures`: when a deletion runs off one table after others were
  shortened, the model returns the error and not the half-edited tables.
- `MusicTheory.RotateTo` requires the note to be in the deque. The loop at
  music_theory.py:63-64 would rotate forever otherwise, and `generate_key_sigs` only
  passes notes taken from the same `notes` deque.
- `MusicTheory.GenerateKeySigs`: the `defaultdict(list)` is modelled as a map, with
  missing keys reading as empty.
- `KeySearch.KeySigAStar` uses the corrected candidate list (`ContainingModes`) and the
  corrected search (`SearchAllMeasures`), as Findings explains. `KeySearch.KeySigAStarAsWritten`
  composes the code as written, with the bit walk and `Search`.
- `kivy_app.py`, `fretless.py` and `spt_connect_user.py` are not part of this model.

## Findings

| source | as written | input that shows it | evidently intended | confidence | as-written member | corrected member |
|---|---|---|---|---|---|---|
| gp_to_kivy.py:496-502 | The walk stops as soon as the mode mask runs out of bits. Measure bits above the mask's top bit are never compared, so C is never checked against a mode without C. | A measure sounding only C (mask 2048) against `d_maj` (1717): `d_maj` stays a candidate. | Keep a mode iff every pitch class of the measure is in it, as the loop's own comment says. | not executed | KeyFilter.CandidateTestMissesC | KeyFilter.ContainingModesIff |
| gp_to_kivy.py:518-534 | The seeds take layer 0's modes but sit at index −1, and each step reads `graph[-measure_idx+1]`. The first step goes to `graph[2]`, so layer 1 is never read and a path covers only `len(graph) - 1` measures. | Three measures with candidates c_maj, d_maj, c_maj: the search returns `[c_maj, c_maj]` at cost 0. | Every measure gets a mode: a path of `len(graph)` modes whose step `j` goes into layer `j`. | not executed | KeySearch.SearchSkipsLayerOne | KeySearch.SearchAllMeasures |

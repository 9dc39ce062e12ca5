/** Scale and mode generation (music_theory.py): the major-scale pattern is rotated to a
    mode, the note list is rotated to a tonic, and `compress` of the one by the other gives
    the key's seven notes. The colour map and the table of 84 keys are built on top. */
module MusicTheory {
  import opened PyCore
  import opened Pitch

  const Roygbiv: seq<string> := ["red", "orange", "yellow", "green", "blue", "indigo", "violet"]

  /** `notes`: the twelve names, starting from A. */
  const Notes: seq<string> :=
    ["A", "A#/Bb", "B", "C", "C#/Db", "D", "D#/Eb", "E", "F", "F#/Gb", "G", "G#/Ab"]

  /** `interval_sequence`: a 1 at each semitone of the major scale above its tonic. */
  const IntervalSequence: seq<int> := [1, 0, 1, 0, 1, 1, 0, 1, 0, 1, 0, 1]

  /** `modes`: where each mode starts in the major pattern. */
  const Modes: Table<string, nat> :=
    [("Major", 0), ("Dorian", 2), ("Phrygian", 4), ("Lydian", 5), ("Mixolydian", 7), ("Minor", 9), ("Locrian", 11)]

  /** The semitone offsets of the major scale. */
  const MajorOffsets: seq<nat> := [0, 2, 4, 5, 7, 9, 11]

  /** The interval column of the table in the module's doc comment, one row per mode in
      the order of `modes`: 2 for a whole step (W), 1 for a half step (H). */
  const DocSteps: seq<seq<nat>> := [
    [2, 2, 1, 2, 2, 2, 1],
    [2, 1, 2, 2, 2, 1, 2],
    [1, 2, 2, 2, 1, 2, 2],
    [2, 2, 2, 1, 2, 2, 1],
    [2, 2, 1, 2, 2, 1, 2],
    [2, 1, 2, 2, 1, 2, 2],
    [1, 2, 2, 1, 2, 2, 2]]

  /** The semitone offsets above the tonic of each mode's notes, in the order of `modes`. */
  const OffsetTable: seq<seq<nat>> := [
    [0, 2, 4, 5, 7, 9, 11],
    [0, 2, 3, 5, 7, 9, 10],
    [0, 1, 3, 5, 7, 8, 10],
    [0, 2, 4, 6, 7, 9, 11],
    [0, 2, 4, 5, 7, 9, 10],
    [0, 2, 3, 5, 7, 8, 10],
    [0, 1, 3, 5, 6, 8, 10]]

  /** Mode `b`'s offsets: seven, increasing from 0, all within the octave. */
  function ModeOffsets(b: nat): (r: seq<nat>)
    requires b < 7
    ensures |r| == 7 && r[0] == 0
    ensures forall i, j :: 0 <= i < j < 7 ==> r[i] < r[j]
    ensures forall i :: 0 <= i < 7 ==> r[i] < 12
  {
    var r := OffsetTable[b];
    assert |r| == 7 && r[0] == 0 && r[6] < 12;
    forall i, j | 0 <= i < j < 7 ensures r[i] < r[j] {
      var k := i;
      while k < j
        invariant i <= k <= j && r[i] <= r[k]
        invariant k > i ==> r[i] < r[k]
        decreases j - k
      {
        k := k + 1;
      }
    }
    r
  }

  // ---------------------------------------------------------------------------
  // The tables
  // ---------------------------------------------------------------------------

  /** The pattern marks exactly the major scale: seven 1s, at the offsets 0, 2, 4, 5, 7,
      9 and 11. */
  lemma IntervalSequenceIsMajor()
    ensures |IntervalSequence| == 12
    ensures forall d :: 0 <= d < 12 ==> (IntervalSequence[d] != 0 <==> d in MajorOffsets)
    ensures Positions(IntervalSequence) == MajorOffsets
  {
    PositionsOf(IntervalSequence, MajorOffsets);
  }

  /** Every mode starts on a degree of the major scale: mode `b` starts at the `b`-th
      offset, so every mode starts on a 1 of the pattern. */
  lemma ModesStartOnDegrees()
    ensures |Modes| == 7 && Distinct(KeysOf(Modes))
    ensures forall b :: 0 <= b < 7 ==> Modes[b].1 == MajorOffsets[b] && IntervalSequence[Modes[b].1] == 1
  {
  }

  /** The offsets climb by the steps of the doc comment's table, and each row climbs
      exactly one octave. */
  lemma ModeOffsetsFollowDoc(b: nat)
    requires b < 7
    ensures |ModeOffsets(b)| == 7 && ModeOffsets(b)[0] == 0
    ensures forall j :: 0 <= j < 6 ==> ModeOffsets(b)[j + 1] == ModeOffsets(b)[j] + DocSteps[b][j]
    ensures ModeOffsets(b)[6] + DocSteps[b][6] == 12
  {
  }

  /** Mode `b`'s offsets are the major scale's, read from degree `b` and measured from
      that degree. */
  lemma ModeOffsetsRotateMajor(b: nat, j: nat)
    requires b < 7 && j < 7
    ensures ModeOffsets(b)[j] == (MajorOffsets[(j + b) % 7] as int - MajorOffsets[b] as int) % 12
  {
    var k := if j + b < 7 then j + b else j + b - 7;
    assert (j + b) % 7 == k;
    var diff := MajorOffsets[k] as int - MajorOffsets[b] as int;
    assert -12 < diff < 12;
    assert diff % 12 == if diff < 0 then diff + 12 else diff;
    assert ModeOffsets(b) == OffsetTable[b];
    if b == 0 {
    } else if b == 1 {
    } else if b == 2 {
    } else if b == 3 {
    } else if b == 4 {
    } else if b == 5 {
    } else {
    }
  }

  /** `interval_sequence.copy()` rotated by `-modes[mode]`. */
  function ModePattern(b: nat): (r: seq<int>)
    requires b < 7
    ensures |r| == 12 && r[0] == 1
  {
    ModesStartOnDegrees();
    RotateLeft(IntervalSequence, Modes[b].1)
  }

  /** The rotated pattern marks exactly the mode's offsets; in particular it still has
      seven 1s. */
  lemma ModePatternOffsets(b: nat)
    requires b < 7
    ensures Positions(ModePattern(b)) == ModeOffsets(b)
  {
    var pattern := ModePattern(b);
    forall d | 0 <= d < 12 ensures pattern[d] != 0 <==> d in ModeOffsets(b) {
      PatternAt(b, d);
      OffsetMember(b, d);
    }
    PositionsOf(pattern, ModeOffsets(b));
  }

  lemma PatternAt(b: nat, d: nat)
    requires b < 7 && d < 12
    ensures ModePattern(b)[d] != 0 <==> (d + MajorOffsets[b]) % 12 in MajorOffsets
  {
    ModesStartOnDegrees();
    IntervalSequenceIsMajor();
  }

  lemma OffsetMember(b: nat, d: nat)
    requires b < 7 && d < 12
    ensures (d + MajorOffsets[b]) % 12 in MajorOffsets <==> d in ModeOffsets(b)
  {
    var m := MajorOffsets[b];
    assert m < 12;
    var e := if d + m < 12 then d + m else d + m - 12;
    assert (d + m) % 12 == e;
    assert ModeOffsets(b) == OffsetTable[b];
    if b == 0 {
    } else if b == 1 {
    } else if b == 2 {
    } else if b == 3 {
    } else if b == 4 {
    } else if b == 5 {
    } else {
    }
  }

  // ---------------------------------------------------------------------------
  // A key's notes (music_theory.py:41-47, 59-65)
  // ---------------------------------------------------------------------------

  /** `compress(note_pattern, mode_pattern)`: the twelve names rotated so that name `a`
      comes first, filtered by mode `b`'s pattern. The result is the tonic followed by the
      notes at the mode's offsets above it. */
  function Scale(names: seq<string>, a: nat, b: nat): (r: seq<string>)
    requires |names| == 12 && b < 7
    ensures |r| == 7
    ensures Picks(r, names, a, ModeOffsets(b))
    ensures forall j :: 0 <= j < 7 ==> r[j] in names
  {
    ScaleOffsets(b);
    var r := Pick(names, a, ModePattern(b), ModeOffsets(b));
    PicksIn(r, names, a, ModeOffsets(b));
    r
  }

  lemma PicksIn(r: seq<string>, names: seq<string>, a: nat, offsets: seq<nat>)
    requires |names| == 12 && Picks(r, names, a, offsets)
    ensures forall j :: 0 <= j < |r| ==> r[j] in names
  {
    forall j | 0 <= j < |r| ensures r[j] in names {
      assert r[j] == names[(a + offsets[j]) % 12];
    }
  }

  lemma ScaleOffsets(b: nat)
    requires b < 7
    ensures |ModePattern(b)| == 12 && Positions(ModePattern(b)) == ModeOffsets(b)
  {
    ModePatternOffsets(b);
  }

  /** `r` holds the names at `offsets` above name `a`, wrapping round the octave. */
  predicate Picks(r: seq<string>, names: seq<string>, a: nat, offsets: seq<nat>)
    requires |names| == 12
  {
    |r| == |offsets| && forall j :: 0 <= j < |offsets| ==> r[j] == names[(a + offsets[j]) % 12]
  }

  /** The names the pattern's set positions select once the list is rotated by `a`. */
  function Pick(names: seq<string>, a: nat, pattern: seq<int>, offsets: seq<nat>): (r: seq<string>)
    requires |names| == |pattern| == 12 && Positions(pattern) == offsets
    ensures Picks(r, names, a, offsets)
  {
    CompressRotated(names, a, pattern, offsets);
    Compress(RotateLeft(names, a), pattern)
  }

  /** `compress` of a rotated list picks the items at the selected offsets from the new
      start. */
  lemma CompressRotated(names: seq<string>, a: nat, pattern: seq<int>, offsets: seq<nat>)
    requires |names| == |pattern| == 12 && Positions(pattern) == offsets
    ensures |Compress(RotateLeft(names, a), pattern)| == |offsets|
    ensures forall j :: 0 <= j < |offsets| ==> Compress(RotateLeft(names, a), pattern)[j] == names[(a + offsets[j]) % 12]
  {
    var rotated := RotateLeft(names, a);
    CompressPicks(rotated, pattern);
    forall j | 0 <= j < |offsets| ensures rotated[offsets[j]] == names[(a + offsets[j]) % 12] {
      assert offsets[j] + a == a + offsets[j];
    }
  }

  /** A scale of distinct names has seven distinct notes, and starts on its tonic. */
  lemma ScaleDistinct(names: seq<string>, a: nat, b: nat)
    requires |names| == 12 && Distinct(names) && b < 7
    ensures Distinct(Scale(names, a, b)) && Scale(names, a, b)[0] == names[a % 12]
  {
    var offsets := ModeOffsets(b);
    var r := Scale(names, a, b);
    assert Picks(r, names, a, offsets);
    assert |offsets| == 7 && offsets[0] == 0;
    PicksDistinct(names, a, offsets, r);
  }

  /** Picking at increasing offsets below 12 from distinct names gives distinct names;
      picking at offset 0 first starts on name `a`. */
  lemma PicksDistinct(names: seq<string>, a: nat, offsets: seq<nat>, r: seq<string>)
    requires |names| == 12 && Distinct(names) && Picks(r, names, a, offsets)
    requires |offsets| == 7 && offsets[0] == 0
    requires forall i, j :: 0 <= i < j < 7 ==> offsets[i] < offsets[j]
    requires forall i :: 0 <= i < 7 ==> offsets[i] < 12
    ensures Distinct(r) && r[0] == names[a % 12]
  {
    assert a + offsets[0] == a;
    forall i, j | 0 <= i < j < |r| ensures r[i] != r[j] {
      OffsetsApart(a, offsets[i], offsets[j]);
      DistinctAt(names, (a + offsets[i]) % 12, (a + offsets[j]) % 12);
    }
  }

  lemma DistinctIndex<T>(xs: seq<T>, i: nat, j: nat)
    requires Distinct(xs) && i < |xs| && j < |xs| && xs[i] == xs[j]
    ensures i == j
  {
  }

  lemma DistinctAt<T>(xs: seq<T>, i: nat, j: nat)
    requires Distinct(xs) && i < |xs| && j < |xs| && i != j
    ensures xs[i] != xs[j]
  {
    if j < i {
      assert xs[j] != xs[i];
    }
  }

  /** Two offsets below 12 that differ land on different pitch classes. */
  lemma OffsetsApart(a: nat, x: nat, y: nat)
    requires x < y < 12
    ensures (a + x) % 12 != (a + y) % 12
  {
    var q := (a + x) / 12;
    var rx := (a + x) % 12;
    assert a + x == 12 * q + rx;
    var q' := (a + y) / 12;
    assert a + y == 12 * q' + (a + y) % 12;
  }

  /** The `while note != note_pattern[0]: note_pattern.rotate(-1)` loop on a deque. It
      stops at the first occurrence of `note`, and never stops when `note` is absent, so
      the note is required to be present. */
  method RotateTo(pattern: seq<string>, note: string) returns (r: seq<string>)
    requires note in pattern
    ensures r == RotateLeft(pattern, IndexOf(pattern, note))
    ensures r[0] == note
  {
    var target := IndexOf(pattern, note);
    r := pattern;
    var k := 0;
    while note != r[0]
      invariant k <= target && r == pattern[k..] + pattern[..k]
      decreases target - k
    {
      RotateOnce(pattern, k);
      assert k < target;
      r := r[1..] + [r[0]];
      k := k + 1;
    }
    RotateOnce(pattern, k);
    assert k == target;
    RotateLeftSlices(pattern, k);
  }

  /** One step of `rotate(-1)` on a list already rotated by `k`. */
  lemma RotateOnce<T>(xs: seq<T>, k: nat)
    requires k < |xs|
    ensures var r := xs[k..] + xs[..k]; r[0] == xs[k] && r[1..] + [r[0]] == xs[k + 1..] + xs[..k + 1]
  {
    var r := xs[k..] + xs[..k];
    assert r[1..] == xs[k + 1..] + xs[..k];
    assert xs[..k + 1] == xs[..k] + [xs[k]];
  }

  lemma RotateLeftZero<T>(xs: seq<T>)
    ensures RotateLeft(xs, 0) == xs
  {
  }

  /** Rotating by less than the length moves the first `k` elements to the back. */
  lemma RotateLeftSlices<T>(xs: seq<T>, k: nat)
    requires k < |xs|
    ensures RotateLeft(xs, k) == xs[k..] + xs[..k]
  {
    var r := RotateLeft(xs, k);
    var n := |xs|;
    forall j | 0 <= j < n ensures r[j] == (xs[k..] + xs[..k])[j] {
      ModSmall(j + k, n);
    }
  }

  /** `x % n` for `x` below `2 * n`. */
  lemma ModSmall(x: nat, n: nat)
    requires 0 < n && x < 2 * n
    ensures x % n == (if x < n then x else x - n)
  {
    if x < n {
      ModOfMultiple(0, x, n);
    } else {
      ModOfMultiple(1, x - n, n);
    }
  }

  // ---------------------------------------------------------------------------
  // The colour map (music_theory.py:31-50)
  // ---------------------------------------------------------------------------

  /** `zip` of two lists as a list of pairs, as long as the shorter. */
  function Zip<A, B>(xs: seq<A>, ys: seq<B>): (r: seq<(A, B)>)
    ensures |r| == (if |xs| < |ys| then |xs| else |ys|)
    ensures forall i :: 0 <= i < |r| ==> r[i] == (xs[i], ys[i])
  {
    var n := if |xs| < |ys| then |xs| else |ys|;
    seq(n, i requires 0 <= i < n => (xs[i], ys[i]))
  }

  /** `get_key_sig_color_map(note, mode)`. An unknown mode raises at `modes[mode]`. The
      note pattern is a plain list, which has no `rotate`, so any tonic but `C` (which needs
      no rotation) raises. For `C` the map pairs the seven notes of the mode, in scale
      order, with the rainbow colours, the tonic with red. */
  function GetKeySigColorMap(note: string, mode: string): (r: Result<Table<string, string>>)
    ensures r.Err? <==> mode !in KeysOf(Modes) || note != "C"
    ensures mode !in KeysOf(Modes) ==> r == Err(KeyError)
    ensures mode in KeysOf(Modes) && note != "C" ==> r == Err(AttributeError)
    ensures r.Ok? ==>
              var b := IndexOf(KeysOf(Modes), mode);
              && |r.value| == 7 && r.value[0] == ("C", "red") && Distinct(KeysOf(r.value))
              && forall j :: 0 <= j < 7 ==> r.value[j] == (ChromScale[ModeOffsets(b)[j]], Roygbiv[j])
  {
    match Lookup(Modes, mode)
    case Err(e) => Err(e)
    case Ok(start) =>
      if note != "C" then Err(AttributeError)
      else
        ColorMapNotes(mode);
        var b := IndexOf(KeysOf(Modes), mode);
        var pattern := RotateLeft(IntervalSequence, start);
        var inKey := Compress(ChromScale, pattern);
        assert inKey == Scale(ChromScale, 0, b);
        ColorMapShape(b);
        Ok(Zip(inKey, Roygbiv))
  }

  /** The colour map of mode `b` on C: seven distinct notes, each with its colour. */
  lemma ColorMapShape(b: nat)
    requires b < 7
    requires Distinct(Scale(ChromScale, 0, b))
    requires forall j :: 0 <= j < 7 ==> Scale(ChromScale, 0, b)[j] == ChromScale[ModeOffsets(b)[j]]
    ensures var z := Zip(Scale(ChromScale, 0, b), Roygbiv);
            && |z| == 7 && z[0] == ("C", "red") && Distinct(KeysOf(z))
            && forall j :: 0 <= j < 7 ==> z[j] == (ChromScale[ModeOffsets(b)[j]], Roygbiv[j])
  {
    var ns := Scale(ChromScale, 0, b);
    var z := Zip(ns, Roygbiv);
    assert |ns| == 7 && |Roygbiv| == 7;
    assert KeysOf(z) == ns;
    assert ModeOffsets(b)[0] == 0;
    assert z[0] == (ChromScale[0], Roygbiv[0]);
  }

  /** What the colour map's `compress` gives for a known mode. */
  lemma ColorMapNotes(mode: string)
    requires mode in KeysOf(Modes)
    ensures var b := IndexOf(KeysOf(Modes), mode);
            && Lookup(Modes, mode) == Ok(Modes[b].1)
            && Compress(ChromScale, RotateLeft(IntervalSequence, Modes[b].1)) == Scale(ChromScale, 0, b)
            && Distinct(Scale(ChromScale, 0, b))
            && forall j :: 0 <= j < 7 ==> Scale(ChromScale, 0, b)[j] == ChromScale[ModeOffsets(b)[j]]
  {
    var b := IndexOf(KeysOf(Modes), mode);
    ModesStartOnDegrees();
    LookupDistinct(Modes, b);
    RotateLeftZero(ChromScale);
    ChromScaleDistinct();
    ScaleDistinct(ChromScale, 0, b);
  }

  // ---------------------------------------------------------------------------------------
  // The table of 84 keys (`generate_key_sigs`)

  lemma NotesDistinct()
    ensures |Notes| == 12 && Distinct(Notes)
  {
  }

  /** `this_key`: the note's name, a space, the mode's name. */
  function KeyName(a: nat, b: nat): string
    requires a < 12 && b < 7
  {
    Notes[a] + " " + Modes[b].0
  }

  /** The entry the table gets for mode `b` on note `a`. */
  function KeyEntry(a: nat, b: nat): (string, seq<string>)
    requires a < 12 && b < 7
  {
    (KeyName(a, b), Scale(Notes, a, b))
  }

  /** `list(notes).index(n)` for every name `n` of `ns`. */
  function IndicesIn<T(==)>(xs: seq<T>, ns: seq<T>): (r: seq<int>)
    requires forall i :: 0 <= i < |ns| ==> ns[i] in xs
    ensures |r| == |ns| && forall i :: 0 <= i < |ns| ==> 0 <= r[i] < |xs| && xs[r[i]] == ns[i]
  {
    seq(|ns|, i requires 0 <= i < |ns| => IndexOf(xs, ns[i]))
  }

  /** `note_pattern_val`: the sum of the positions in `notes` of a key's seven names. */
  function KeySum(a: nat, b: nat): int
    requires a < 12 && b < 7
  {
    SumInt(IndicesIn(Notes, Scale(Notes, a, b)))
  }

  /** The note, counted from A, on which the parent major scale of mode `b` on note `a`
      starts: the tonic of the relative major. */
  function Parent(a: nat, b: nat): (p: nat)
    requires b < 7
    ensures p < 12
  {
    (a - MajorOffsets[b] as int) % 12
  }

  /** The position sum of the major scale on each note, counted from A. */
  const ParentSums: seq<int> := [38, 33, 40, 35, 42, 37, 44, 39, 34, 41, 36, 43]

  lemma MajorIsFirstMode()
    ensures ModeOffsets(0) == MajorOffsets
  {
  }

  /** Degree `j` of mode `b` on note `a` is degree `j + b` of the parent major scale. */
  lemma ParentDegree(a: nat, b: nat, j: nat)
    requires b < 7 && j < 7
    ensures (a + ModeOffsets(b)[j]) % 12 == (Parent(a, b) + MajorOffsets[(j + b) % 7]) % 12
  {
    var x := MajorOffsets[(j + b) % 7] as int;
    var y := MajorOffsets[b] as int;
    ModeOffsetsRotateMajor(b, j);
    ModSum(a, x - y, 12);
    ModSum(x, a - y, 12);
  }

  /** Every mode is a rotation of its parent major scale: the mode on degree `b` of a major
      scale starts at that scale's `b`-th note. */
  lemma ModeRotatesParent(names: seq<string>, a: nat, b: nat)
    requires |names| == 12 && b < 7
    ensures Scale(names, a, b) == RotateLeft(Scale(names, Parent(a, b), 0), b)
  {
    var p := Parent(a, b);
    var offsets := ModeOffsets(b);
    var major := ModeOffsets(0);
    MajorIsFirstMode();
    assert |offsets| == |major| == 7;
    forall j | 0 <= j < |offsets| ensures (a + offsets[j]) % 12 == (p + major[(j + b) % |major|]) % 12 {
      ParentDegree(a, b, j);
    }
    assert Picks(Scale(names, a, b), names, a, offsets);
    assert Picks(Scale(names, p, 0), names, p, major);
    PicksRotate(names, Scale(names, a, b), a, offsets, Scale(names, p, 0), p, major, b);
  }

  /** Two picks from the same names, where pick `j` of the first lands where pick `j + k`
      of the second does, are rotations of each other. */
  lemma PicksRotate(names: seq<string>, l: seq<string>, a: nat, offsets: seq<nat>,
                    m: seq<string>, p: nat, moffsets: seq<nat>, k: nat)
    requires |names| == 12 && |offsets| == |moffsets| > 0
    requires Picks(l, names, a, offsets) && Picks(m, names, p, moffsets)
    requires forall j :: 0 <= j < |offsets| ==> (a + offsets[j]) % 12 == (p + moffsets[(j + k) % |moffsets|]) % 12
    ensures l == RotateLeft(m, k)
  {
    var r := RotateLeft(m, k);
    forall j | 0 <= j < |l| ensures l[j] == r[j] {
      assert r[j] == m[(j + k) % |m|];
    }
  }

  /** Adding a remainder instead of the number leaves the remainder of the sum alone. */
  lemma ModSum(u: int, v: int, n: nat)
    requires n > 0
    ensures (u + v % n) % n == (u + v) % n
  {
    var q := v / n;
    assert v == q * n + v % n;
    var x := u + v % n;
    var d := x / n;
    assert x == d * n + x % n;
    assert u + v == (d + q) * n + x % n;
    ModOfMultiple(d + q, x % n, n);
  }

  lemma RotateLeftMultiset<T>(xs: seq<T>, k: int)
    ensures multiset(RotateLeft(xs, k)) == multiset(xs)
  {
    if |xs| > 0 {
      var s := k % |xs|;
      assert xs == xs[..s] + xs[s..];
      assert RotateLeft(xs, k) == xs[s..] + xs[..s];
    }
  }

  /** The major scale on note `p` has position sum `ParentSums[p]`. */
  lemma MajorSum(names: seq<string>, p: nat, major: nat)
    requires |names| == 12 && Distinct(names) && p < 12 && major == 0
    ensures SumInt(IndicesIn(names, Scale(names, p, major))) == ParentSums[p]
  {
    var ns := Scale(names, p, major);
    var offsets := ModeOffsets(major);
    MajorIsFirstMode();
    assert Picks(ns, names, p, offsets);
    IndicesOfPicks(names, ns, p, offsets);
    MajorPositionSum(p, IndicesIn(names, ns), offsets);
  }

  /** In a list without repeats, the index of the name at offset `o` above `p` is
      `(p + o) % 12`. */
  lemma IndicesOfPicks(names: seq<string>, ns: seq<string>, p: nat, offsets: seq<nat>)
    requires |names| == 12 && Distinct(names) && Picks(ns, names, p, offsets)
    ensures forall i :: 0 <= i < |ns| ==> ns[i] in names
    ensures forall i :: 0 <= i < |ns| ==> IndicesIn(names, ns)[i] == (p + offsets[i]) % 12
  {
    var ps := IndicesIn(names, ns);
    forall i | 0 <= i < |ns| ensures ps[i] == (p + offsets[i]) % 12 {
      DistinctIndex(names, ps[i], (p + offsets[i]) % 12);
    }
  }

  lemma MajorPositionSum(p: nat, ps: seq<int>, offsets: seq<nat>)
    requires p < 12 && |ps| == 7 && offsets == MajorOffsets
    requires forall i :: 0 <= i < 7 ==> ps[i] == (p + offsets[i]) % 12
    ensures SumInt(ps) == ParentSums[p]
  {
    SumSeven(ps);
    assert ps[0] == Wrap(p + 0) by { ModSmall(p + 0, 12); }
    assert ps[1] == Wrap(p + 2) by { ModSmall(p + 2, 12); }
    assert ps[2] == Wrap(p + 4) by { ModSmall(p + 4, 12); }
    assert ps[3] == Wrap(p + 5) by { ModSmall(p + 5, 12); }
    assert ps[4] == Wrap(p + 7) by { ModSmall(p + 7, 12); }
    assert ps[5] == Wrap(p + 9) by { ModSmall(p + 9, 12); }
    assert ps[6] == Wrap(p + 11) by { ModSmall(p + 11, 12); }
    MajorSumTable(p);
  }

  lemma MajorSumTable(p: nat)
    requires p < 12
    ensures Wrap(p) + Wrap(p + 2) + Wrap(p + 4) + Wrap(p + 5) + Wrap(p + 7) + Wrap(p + 9) + Wrap(p + 11)
         == ParentSums[p]
  {
    if p == 0 {
    } else if p == 1 {
    } else if p == 2 {
    } else if p == 3 {
    } else if p == 4 {
    } else if p == 5 {
    } else if p == 6 {
    } else if p == 7 {
    } else if p == 8 {
    } else if p == 9 {
    } else if p == 10 {
    } else {
    }
  }

  /** `x % 12` for `x < 24`, without the division. */
  function Wrap(x: nat): nat
  {
    if x < 12 then x else x - 12
  }

  lemma SumSeven(ps: seq<int>)
    requires |ps| == 7
    ensures SumInt(ps) == ps[0] + ps[1] + ps[2] + ps[3] + ps[4] + ps[5] + ps[6]
  {
    assert SumInt(ps[..1]) == ps[0] by { assert ps[..1][..0] == []; }
    assert SumInt(ps[..2]) == SumInt(ps[..1]) + ps[1] by { assert ps[..2][..1] == ps[..1]; }
    assert SumInt(ps[..3]) == SumInt(ps[..2]) + ps[2] by { assert ps[..3][..2] == ps[..2]; }
    assert SumInt(ps[..4]) == SumInt(ps[..3]) + ps[3] by { assert ps[..4][..3] == ps[..3]; }
    assert SumInt(ps[..5]) == SumInt(ps[..4]) + ps[4] by { assert ps[..5][..4] == ps[..4]; }
    assert SumInt(ps[..6]) == SumInt(ps[..5]) + ps[5] by { assert ps[..6][..5] == ps[..5]; }
    assert ps[..7] == ps;
  }

  /** The position sum of a key depends on its parent major scale alone. */
  lemma PositionSumByParent(names: seq<string>, a: nat, b: nat)
    requires |names| == 12 && Distinct(names) && b < 7
    ensures SumInt(IndicesIn(names, Scale(names, a, b))) == ParentSums[Parent(a, b)]
  {
    var major := Scale(names, Parent(a, b), 0);
    ModeRotatesParent(names, a, b);
    IndicesRotate(names, major, b);
    RotateLeftMultiset(IndicesIn(names, major), b);
    SumIntPermutation(IndicesIn(names, Scale(names, a, b)), IndicesIn(names, major));
    MajorSum(names, Parent(a, b), 0);
  }

  /** `note_pattern_val` depends on the parent major scale alone. */
  lemma KeySumByParent(a: nat, b: nat)
    requires a < 12 && b < 7
    ensures KeySum(a, b) == ParentSums[Parent(a, b)]
  {
    NotesDistinct();
    PositionSumByParent(Notes, a, b);
  }

  /** The indices of a rotated list are the rotated indices. */
  lemma IndicesRotate<T>(xs: seq<T>, ns: seq<T>, k: int)
    requires forall i :: 0 <= i < |ns| ==> ns[i] in xs
    ensures IndicesIn(xs, RotateLeft(ns, k)) == RotateLeft(IndicesIn(xs, ns), k)
  {
  }

  lemma ParentSumsDistinct()
    ensures |ParentSums| == 12 && Distinct(ParentSums)
  {
  }

  /** Two keys fall in the same bucket of the table exactly when they share a parent major
      scale. */
  lemma SameSumIffSameParent(a: nat, b: nat, a': nat, b': nat)
    requires a < 12 && b < 7 && a' < 12 && b' < 7
    ensures KeySum(a, b) == KeySum(a', b') <==> Parent(a, b) == Parent(a', b')
  {
    KeySumByParent(a, b);
    KeySumByParent(a', b');
    ParentSumsDistinct();
    if Parent(a, b) != Parent(a', b') {
      DistinctAt(ParentSums, Parent(a, b), Parent(a', b'));
    }
  }

  /** Two modes over the same twelve names have the same notes exactly when they share a
      parent major scale. */
  lemma SameNotesIffSameParent(names: seq<string>, a: nat, b: nat, a': nat, b': nat)
    requires |names| == 12 && Distinct(names) && b < 7 && b' < 7
    ensures multiset(Scale(names, a, b)) == multiset(Scale(names, a', b')) <==> Parent(a, b) == Parent(a', b')
  {
    var s := Scale(names, a, b);
    var s' := Scale(names, a', b');
    ModeRotatesParent(names, a, b);
    ModeRotatesParent(names, a', b');
    RotateLeftMultiset(Scale(names, Parent(a, b), 0), b);
    RotateLeftMultiset(Scale(names, Parent(a', b'), 0), b');
    if multiset(s) == multiset(s') {
      IndicesMultiset(names, s, s');
      SumIntPermutation(IndicesIn(names, s), IndicesIn(names, s'));
      PositionSumByParent(names, a, b);
      PositionSumByParent(names, a', b');
      ParentSumsDistinct();
      if Parent(a, b) != Parent(a', b') {
        DistinctAt(ParentSums, Parent(a, b), Parent(a', b'));
      }
    }
  }

  /** Lists of the same names in any order have their indices in the same multiset. */
  lemma {:induction false} IndicesMultiset<T>(xs: seq<T>, ns: seq<T>, ms: seq<T>)
    requires forall i :: 0 <= i < |ns| ==> ns[i] in xs
    requires multiset(ns) == multiset(ms)
    ensures forall i :: 0 <= i < |ms| ==> ms[i] in xs
    ensures multiset(IndicesIn(xs, ns)) == multiset(IndicesIn(xs, ms))
    decreases |ns|
  {
    SameMembers(xs, ns, ms);
    if |ns| > 0 {
      var x := ns[0];
      assert x in multiset(ms);
      var k :| 0 <= k < |ms| && ms[k] == x;
      var ms' := ms[..k] + ms[k + 1..];
      RemoveOne(ns, ms, k);
      IndicesMultiset(xs, ns[1..], ms');
      var ix := IndexOf(xs, x);
      IndicesCons(xs, ns);
      IndicesSplice(xs, ms, k);
      calc {
        multiset(IndicesIn(xs, ns));
        multiset{ix} + multiset(IndicesIn(xs, ns[1..]));
        multiset{ix} + multiset(IndicesIn(xs, ms'));
        multiset(IndicesIn(xs, ms));
      }
    } else {
      assert |multiset(ms)| == 0;
      assert ms == [];
    }
  }

  lemma SameMembers<T>(xs: seq<T>, ns: seq<T>, ms: seq<T>)
    requires forall i :: 0 <= i < |ns| ==> ns[i] in xs
    requires multiset(ns) == multiset(ms)
    ensures forall i :: 0 <= i < |ms| ==> ms[i] in xs
  {
    forall i | 0 <= i < |ms| ensures ms[i] in xs {
      assert ms[i] in multiset(ns);
      var j :| 0 <= j < |ns| && ns[j] == ms[i];
    }
  }

  /** Taking the same element out of two lists with equal multisets leaves equal
      multisets. */
  lemma RemoveOne<T>(ns: seq<T>, ms: seq<T>, k: nat)
    requires |ns| > 0 && k < |ms| && ms[k] == ns[0] && multiset(ns) == multiset(ms)
    ensures multiset(ns[1..]) == multiset(ms[..k] + ms[k + 1..])
  {
    var x := ns[0];
    assert ns == [x] + ns[1..];
    assert ms == ms[..k] + [x] + ms[k + 1..];
    assert multiset(ns[1..]) == multiset(ns) - multiset{x};
    assert multiset(ms[..k] + ms[k + 1..]) == multiset(ms) - multiset{x};
  }

  /** The indices of a list with element `k` taken out are its indices with index `k` taken
      out. */
  lemma IndicesSplice<T>(xs: seq<T>, ms: seq<T>, k: nat)
    requires forall i :: 0 <= i < |ms| ==> ms[i] in xs
    requires k < |ms|
    ensures multiset(IndicesIn(xs, ms)) == multiset{IndexOf(xs, ms[k])} + multiset(IndicesIn(xs, ms[..k] + ms[k + 1..]))
  {
    var ps := IndicesIn(xs, ms);
    assert ps == ps[..k] + [ps[k]] + ps[k + 1..];
    assert IndicesIn(xs, ms[..k] + ms[k + 1..]) == ps[..k] + ps[k + 1..];
  }

  lemma IndicesCons<T>(xs: seq<T>, ns: seq<T>)
    requires forall i :: 0 <= i < |ns| ==> ns[i] in xs
    requires |ns| > 0
    ensures IndicesIn(xs, ns) == [IndexOf(xs, ns[0])] + IndicesIn(xs, ns[1..])
  {
    var l := IndicesIn(xs, ns);
    var r := [IndexOf(xs, ns[0])] + IndicesIn(xs, ns[1..]);
    forall i | 0 <= i < |l| ensures l[i] == r[i] {
      if i > 0 {
        assert ns[1..][i - 1] == ns[i];
      }
    }
  }

  // ---------------------------------------------------------------------------------------
  // Building the table

  /** No note name and no mode name contains a space. */
  lemma NoSpaces(a: nat, b: nat)
    requires a < 12 && b < 7
    ensures ' ' !in Notes[a] && ' ' !in Modes[b].0
  {
  }

  /** Different keys get different names: the space ends the note name. */
  lemma KeyNamesDistinct(a: nat, b: nat, a': nat, b': nat)
    requires a < 12 && b < 7 && a' < 12 && b' < 7
    ensures KeyName(a, b) == KeyName(a', b') ==> a == a' && b == b'
  {
    if KeyName(a, b) == KeyName(a', b') {
      NoSpaces(a, b);
      NoSpaces(a', b');
      SplitAtSpace(Notes[a], Modes[b].0, Notes[a'], Modes[b'].0);
      NotesDistinct();
      DistinctIndex(Notes, a, a');
      ModesStartOnDegrees();
      DistinctIndex(KeysOf(Modes), b, b');
    }
  }

  /** A space-free first word is recovered from `first + " " + rest`. */
  lemma SplitAtSpace(n: string, m: string, n': string, m': string)
    requires ' ' !in n && ' ' !in n' && n + " " + m == n' + " " + m'
    ensures n == n' && m == m'
  {
    var k := n + " " + m;
    assert k[|n|] == ' ' && k[|n'|] == ' ';
    assert n == k[..|n|] == n';
    assert m == k[|n| + 1..] == m';
  }

  /** The key added in step `t` of the nested loop: note `t / 7`, mode `t % 7`. */
  function KeyAt(t: nat): (string, seq<string>)
    requires t < 84
  {
    KeyEntry(t / 7, t % 7)
  }

  /** Step `7 * a + b` of the nested loop is mode `b` on note `a`. */
  lemma KeyStep(a: nat, b: nat)
    requires b < 7
    ensures (7 * a + b) / 7 == a && (7 * a + b) % 7 == b
  {
    ModOfMultiple(a, b, 7);
  }

  /** The names of the entries whose value is `s`, in order: the list a
      `defaultdict(list)` holds under `s` after appending each name under its value. */
  function Group(entries: Table<string, int>, s: int): seq<string>
    decreases |entries|
  {
    if |entries| == 0 then []
    else
      var last := entries[|entries| - 1];
      Group(entries[..|entries| - 1], s) + if last.1 == s then [last.0] else []
  }

  /** With distinct names, an entry's name is in group `s` exactly when its value is `s`. */
  lemma {:induction false} GroupMembers(entries: Table<string, int>, s: int, i: nat)
    requires Distinct(KeysOf(entries)) && i < |entries|
    ensures entries[i].0 in Group(entries, s) <==> entries[i].1 == s
    decreases |entries|
  {
    var n := |entries| - 1;
    var init := entries[..n];
    assert KeysOf(init) == KeysOf(entries)[..n];
    assert Group(entries, s) == Group(init, s) + if entries[n].1 == s then [entries[n].0] else [];
    if i < n {
      assert init[i] == entries[i];
      GroupMembers(init, s, i);
      assert KeysOf(entries)[i] != KeysOf(entries)[n];
    } else {
      GroupKeys(init, s, entries[n].0);
    }
  }

  /** Only names that entries carry are in a group. */
  lemma {:induction false} GroupKeys(entries: Table<string, int>, s: int, name: string)
    ensures name in Group(entries, s) ==> name in KeysOf(entries)
  {
    if name in Group(entries, s) {
      GroupSound(entries, s, name);
      var i :| 0 <= i < |entries| && entries[i] == (name, s);
      assert KeysOf(entries)[i] == name;
    }
  }

  /** Each name in group `s` comes from an entry with value `s`. */
  lemma {:induction false} GroupSound(entries: Table<string, int>, s: int, name: string)
    requires name in Group(entries, s)
    ensures exists i :: 0 <= i < |entries| && entries[i] == (name, s)
    decreases |entries|
  {
    var n := |entries| - 1;
    if name in Group(entries[..n], s) {
      GroupSound(entries[..n], s, name);
      var i :| 0 <= i < n && entries[..n][i] == (name, s);
      assert entries[i] == (name, s);
    } else {
      assert entries[n] == (name, s);
    }
  }

  /** The name and position sum of step `t` of the nested loop; the sum is given by the
      parent major scale (`KeySumByParent`). */
  function SumAt(t: nat): (string, int)
    requires t < 84
  {
    (KeyName(t / 7, t % 7), ParentSums[Parent(t / 7, t % 7)])
  }

  /** The name and position sum of the first `n` keys, in loop order. */
  function KeySums(n: nat): (r: Table<string, int>)
    requires n <= 84
    ensures |r| == n
    ensures forall t :: 0 <= t < n ==> r[t] == SumAt(t)
  {
    if n == 0 then []
    else
      var init := KeySums(n - 1);
      var r := init + [SumAt(n - 1)];
      assert forall t :: 0 <= t < n - 1 ==> r[t] == init[t];
      assert r[n - 1] == SumAt(n - 1);
      r
  }

  /** The keys of the loop get distinct names. */
  lemma KeySumsNamesDistinct(n: nat)
    requires n <= 84
    ensures Distinct(KeysOf(KeySums(n)))
  {
    var keys := KeysOf(KeySums(n));
    forall i, j | 0 <= i < j < n ensures keys[i] != keys[j] {
      assert keys[i] == KeyName(i / 7, i % 7) && keys[j] == KeyName(j / 7, j % 7);
      KeyStep(i / 7, i % 7);
      KeyStep(j / 7, j % 7);
      KeyNamesDistinct(i / 7, i % 7, j / 7, j % 7);
    }
  }

  /** Once a key has been added (step `7 * a' + b'` is before `n`, and `n` is 84 for the
      full table), it sits in the bucket of another key's sum exactly when the two keys have
      the same parent major scale, that is, the same notes. */
  lemma BucketIsParentFamily(n: nat, a: nat, b: nat, a': nat, b': nat)
    requires a < 12 && b < 7 && a' < 12 && b' < 7 && 7 * a' + b' < n <= 84
    ensures KeyName(a', b') in Group(KeySums(n), KeySum(a, b)) <==> Parent(a, b) == Parent(a', b')
    ensures KeyName(a', b') in Group(KeySums(n), KeySum(a, b)) <==> multiset(Scale(Notes, a, b)) == multiset(Scale(Notes, a', b'))
  {
    KeySumsNamesDistinct(n);
    KeyStep(a', b');
    GroupMembers(KeySums(n), KeySum(a, b), 7 * a' + b');
    KeySumByParent(a', b');
    SameSumIffSameParent(a', b', a, b);
    NotesDistinct();
    SameNotesIffSameParent(Notes, a, b, a', b');
  }

  /** The key's notes: the rotation of `notes` to the tonic, compressed by the rotated
      mode pattern, is `Scale`. */
  lemma KeyNotes(a: nat, b: nat)
    requires a < 12 && b < 7
    ensures Compress(RotateLeft(Notes, IndexOf(Notes, Notes[a])), RotateLeft(IntervalSequence, Modes[b].1)) == Scale(Notes, a, b)
  {
    NotesDistinct();
    IndexOfDistinct(Notes, a);
  }

  /** `m` is the `defaultdict(list)` of names by value built from `entries`: a key for
      every non-empty group, holding that group. */
  ghost predicate Buckets(m: map<int, seq<string>>, entries: Table<string, int>)
  {
    (forall s :: s in m <==> Group(entries, s) != []) &&
    (forall s :: s in m ==> m[s] == Group(entries, s))
  }

  /** Appending a name to the list under its value keeps `Buckets` in step with one more
      entry. */
  lemma BucketsAppend(m: map<int, seq<string>>, entries: Table<string, int>, name: string, v: int)
    requires Buckets(m, entries)
    ensures Buckets(m[v := (if v in m then m[v] else []) + [name]], entries + [(name, v)])
  {
    var e := entries + [(name, v)];
    assert e[..|entries|] == entries;
    forall s ensures Group(e, s) == Group(entries, s) + if v == s then [name] else [] {
    }
  }

  /** The first `n` steps of the nested loop have filled both tables. */
  ghost predicate Built(table: Table<string, seq<string>>, m: map<int, seq<string>>, n: nat)
    requires n <= 84
  {
    |table| == n && (forall t :: 0 <= t < n ==> table[t] == KeyAt(t)) && Buckets(m, KeySums(n))
  }

  /** Adds mode `b` on note `a` to both tables: one turn of the inner loop. */
  method AddKey(a: nat, b: nat, ghost n: nat, keySigsToNotes: Table<string, seq<string>>, notesToKeySigs: map<int, seq<string>>)
    returns (keySigsToNotes': Table<string, seq<string>>, notesToKeySigs': map<int, seq<string>>)
    requires a < 12 && b < 7 && n == 7 * a + b
    requires Built(keySigsToNotes, notesToKeySigs, n)
    ensures Built(keySigsToNotes', notesToKeySigs', n + 1)
  {
    var note := Notes[a];
    var mode := Modes[b].0;
    var thisKey := note + " " + mode;
    var modePattern := RotateLeft(IntervalSequence, Modes[b].1);
    var notePattern := RotateTo(Notes, note);
    notePattern := Compress(notePattern, modePattern);
    KeyNotes(a, b);
    var notePatternVal := PositionSum(notePattern);
    KeySumByParent(a, b);
    var bucket := if notePatternVal in notesToKeySigs then notesToKeySigs[notePatternVal] else [];
    notesToKeySigs' := notesToKeySigs[notePatternVal := bucket + [thisKey]];
    NewKey(a, b, keySigsToNotes);
    keySigsToNotes' := Store(keySigsToNotes, thisKey, notePattern);
    AddKeyStep(a, b, n, keySigsToNotes, notesToKeySigs, thisKey, notePattern, notePatternVal);
  }

  lemma AddKeyStep(a: nat, b: nat, n: nat, table: Table<string, seq<string>>, m: map<int, seq<string>>,
                   name: string, ns: seq<string>, v: int)
    requires a < 12 && b < 7 && n == 7 * a + b
    requires Built(table, m, n)
    requires name == KeyName(a, b) && ns == Scale(Notes, a, b) && v == ParentSums[Parent(a, b)]
    ensures Built(table + [(name, ns)], m[v := (if v in m then m[v] else []) + [name]], n + 1)
  {
    KeyStep(a, b);
    assert SumAt(n) == (name, v);
    assert KeySums(n + 1) == KeySums(n) + [(name, v)];
    BucketsAppend(m, KeySums(n), name, v);
    assert KeyAt(n) == (name, ns);
    KeysAppend(table, n, (name, ns));
  }

  lemma KeysAppend(table: Table<string, seq<string>>, n: nat, x: (string, seq<string>))
    requires n < 84 && |table| == n && x == KeyAt(n)
    requires forall t :: 0 <= t < n ==> table[t] == KeyAt(t)
    ensures forall t :: 0 <= t < n + 1 ==> (table + [x])[t] == KeyAt(t)
  {
  }

  /** The `note_pattern_val` loop: the sum of the positions in `notes` of the names. */
  method PositionSum(ns: seq<string>) returns (val: int)
    requires forall i :: 0 <= i < |ns| ==> ns[i] in Notes
    ensures val == SumInt(IndicesIn(Notes, ns))
  {
    ghost var ps := IndicesIn(Notes, ns);
    val := 0;
    for i := 0 to |ns|
      invariant val == SumInt(ps[..i])
    {
      assert ps[..i + 1][..i] == ps[..i];
      val := val + IndexOf(Notes, ns[i]);
    }
    assert ps[..|ns|] == ps;
  }

  /** The key added in step `7 * a + b` is not yet in the table. */
  lemma NewKey(a: nat, b: nat, table: Table<string, seq<string>>)
    requires a < 12 && b < 7 && |table| == 7 * a + b
    requires forall t :: 0 <= t < |table| ==> table[t] == KeyAt(t)
    ensures KeyName(a, b) !in KeysOf(table)
  {
    forall t | 0 <= t < |table| ensures table[t].0 != KeyName(a, b) {
      KeyStep(t / 7, t % 7);
      KeyNamesDistinct(t / 7, t % 7, a, b);
    }
  }

  /** `generate_key_sigs()`: 84 keys, twelve notes times seven modes, in loop order, and the
      buckets of key names by position sum. */
  method GenerateKeySigs() returns (keySigsToNotes: Table<string, seq<string>>, notesToKeySigs: map<int, seq<string>>)
    ensures |keySigsToNotes| == 84 && Distinct(KeysOf(keySigsToNotes))
    ensures forall a, b :: 0 <= a < 12 && 0 <= b < 7 ==> keySigsToNotes[7 * a + b] == KeyEntry(a, b)
    ensures Buckets(notesToKeySigs, KeySums(|keySigsToNotes|))
  {
    keySigsToNotes := [];
    notesToKeySigs := map[];
    ghost var n := 0;
    BuiltEmpty();
    for a := 0 to 12
      invariant n == 7 * a
      invariant Built(keySigsToNotes, notesToKeySigs, n)
    {
      keySigsToNotes, notesToKeySigs := AddModes(a, n, keySigsToNotes, notesToKeySigs);
      n := n + 7;
    }
    KeysComplete(keySigsToNotes, n);
  }

  /** Before the loops both tables are empty. */
  lemma BuiltEmpty()
    ensures Built([], map[], 0)
  {
  }

  /** The inner loop: the seven modes on note `a`. */
  method AddModes(a: nat, ghost n: nat, keySigsToNotes: Table<string, seq<string>>, notesToKeySigs: map<int, seq<string>>)
    returns (keySigsToNotes': Table<string, seq<string>>, notesToKeySigs': map<int, seq<string>>)
    requires a < 12 && n == 7 * a
    requires Built(keySigsToNotes, notesToKeySigs, n)
    ensures Built(keySigsToNotes', notesToKeySigs', n + 7)
  {
    keySigsToNotes', notesToKeySigs' := keySigsToNotes, notesToKeySigs;
    ghost var k := n;
    for b := 0 to 7
      invariant k == n + b
      invariant Built(keySigsToNotes', notesToKeySigs', k)
    {
      keySigsToNotes', notesToKeySigs' := AddKey(a, b, k, keySigsToNotes', notesToKeySigs');
      k := k + 1;
    }
  }

  lemma KeysComplete(table: Table<string, seq<string>>, n: nat)
    requires n <= 84 && |table| == n && forall t :: 0 <= t < n ==> table[t] == KeyAt(t)
    ensures Distinct(KeysOf(table))
    ensures forall a, b :: 0 <= a < 12 && 0 <= b < 7 && 7 * a + b < n ==> table[7 * a + b] == KeyEntry(a, b)
  {
    forall a, b | 0 <= a < 12 && 0 <= b < 7 && 7 * a + b < n ensures table[7 * a + b] == KeyEntry(a, b) {
      KeyStep(a, b);
    }
    KeySumsNamesDistinct(n);
    assert KeysOf(table) == KeysOf(KeySums(n));
  }
}

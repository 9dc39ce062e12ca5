/** Key detection on 12-bit pitch-class masks (gp_to_kivy.py:250-323, 340-352, 370-382,
    432-503): the note and mode constant tables, a mask per measure run through the repeat
    expander, the candidate-mode test, and the merge of two tracks' mask lists.

    A mask is a `nat`; pitch class `p` (0 = C, ..., 11 = B) is bit `11 - p`, so C is the
    highest of twelve bits and B the lowest. */
module KeyFilter {
  import opened PyCore
  import opened Bits
  import opened Pitch
  import opened Scales
  import opened Document
  import opened Repeats
  import Timeline

  // ---------------------------------------------------------------------------
  // Binary literals
  // ---------------------------------------------------------------------------

  /** The value of a Python literal `0b...`, its binary digits written most significant
      first. */
  function Binary(ds: seq<int>): nat
  {
    if |ds| == 0 then 0 else (if ds[0] == 1 then Pow2(|ds| - 1) else 0) + Binary(ds[1..])
  }

  // ---------------------------------------------------------------------------
  // The note tables (gp_to_kivy.py:259-278)
  // ---------------------------------------------------------------------------

  /** `note_filter`: its binary literals as digit lists. */
  const NoteFilterDigits: Table<string, seq<int>> := [
    ("C",     [1,0,0,0,0,0,0,0,0,0,0,0]),
    ("C#/Db", [0,1,0,0,0,0,0,0,0,0,0,0]),
    ("D",     [0,0,1,0,0,0,0,0,0,0,0,0]),
    ("D#/Eb", [0,0,0,1,0,0,0,0,0,0,0,0]),
    ("E",     [0,0,0,0,1,0,0,0,0,0,0,0]),
    ("F",     [0,0,0,0,0,1,0,0,0,0,0,0]),
    ("F#/Gb", [0,0,0,0,0,0,1,0,0,0,0,0]),
    ("G",     [0,0,0,0,0,0,0,1,0,0,0,0]),
    ("G#/Ab", [0,0,0,0,0,0,0,0,1,0,0,0]),
    ("A",     [0,0,0,0,0,0,0,0,0,1,0,0]),
    ("A#/Bb", [0,0,0,0,0,0,0,0,0,0,1,0]),
    ("B",     [0,0,0,0,0,0,0,0,0,0,0,1])]

  /** `note_filter` as the values Python reads from it. */
  function NoteFilter(): (r: Table<string, nat>)
    ensures |r| == |NoteFilterDigits|
    ensures forall i :: 0 <= i < |r| ==> r[i] == (NoteFilterDigits[i].0, Binary(NoteFilterDigits[i].1))
  {
    seq(|NoteFilterDigits|, i requires 0 <= i < |NoteFilterDigits| => (NoteFilterDigits[i].0, Binary(NoteFilterDigits[i].1)))
  }

  /** `note_to_int`, the same table written in decimal. */
  const NoteToInt: Table<string, nat> := [
    ("C", 2048), ("C#/Db", 1024), ("D", 512), ("D#/Eb", 256),
    ("E", 128), ("F", 64), ("F#/Gb", 32), ("G", 16),
    ("G#/Ab", 8), ("A", 4), ("A#/Bb", 2), ("B", 1)]

  /** Each pitch class has its own bit: `note_filter[chrom_scale[p]]` is `2 ** (11 - p)`,
      and the binary table and the decimal one are the same table. */
  lemma NoteTablesAgree()
    ensures NoteFilter() == NoteToInt
    ensures KeysOf(NoteToInt) == ChromScale
    ensures forall p :: 0 <= p < 12 ==> NoteToInt[p] == (ChromScale[p], Pow2(11 - p))
  {
    Pow2Table();
    forall p | 0 <= p < 12 ensures NoteFilter()[p] == (ChromScale[p], Pow2(11 - p)) {
      NoteRow(p);
    }
  }

  /** Row `p` of `note_filter` sets bit `11 - p` alone. */
  lemma NoteRow(p: nat)
    requires p < 12
    ensures Binary(NoteFilterDigits[p].1) == Pow2(11 - p)
  {
    if p == 0 {
      NoteRow0(p);
    } else if p == 1 {
      NoteRow1(p);
    } else if p == 2 {
      NoteRow2(p);
    } else if p == 3 {
      NoteRow3(p);
    } else if p == 4 {
      NoteRow4(p);
    } else if p == 5 {
      NoteRow5(p);
    } else if p == 6 {
      NoteRow6(p);
    } else if p == 7 {
      NoteRow7(p);
    } else if p == 8 {
      NoteRow8(p);
    } else if p == 9 {
      NoteRow9(p);
    } else if p == 10 {
      NoteRow10(p);
    } else {
      NoteRow11(p);
    }
  }

  lemma NoteRow0(p: nat)
    requires p == 0
    ensures Binary(NoteFilterDigits[p].1) == Pow2(11 - p)
  {
    var ds := NoteFilterDigits[p].1;
    assert ds == [1,0,0,0,0,0,0,0,0,0,0,0];
    Pow2Table();
    BinaryValue(ds, 2048);
  }

  lemma NoteRow1(p: nat)
    requires p == 1
    ensures Binary(NoteFilterDigits[p].1) == Pow2(11 - p)
  {
    var ds := NoteFilterDigits[p].1;
    assert ds == [0,1,0,0,0,0,0,0,0,0,0,0];
    Pow2Table();
    BinaryValue(ds, 1024);
  }

  lemma NoteRow2(p: nat)
    requires p == 2
    ensures Binary(NoteFilterDigits[p].1) == Pow2(11 - p)
  {
    var ds := NoteFilterDigits[p].1;
    assert ds == [0,0,1,0,0,0,0,0,0,0,0,0];
    Pow2Table();
    BinaryValue(ds, 512);
  }

  lemma NoteRow3(p: nat)
    requires p == 3
    ensures Binary(NoteFilterDigits[p].1) == Pow2(11 - p)
  {
    var ds := NoteFilterDigits[p].1;
    assert ds == [0,0,0,1,0,0,0,0,0,0,0,0];
    Pow2Table();
    BinaryValue(ds, 256);
  }

  lemma NoteRow4(p: nat)
    requires p == 4
    ensures Binary(NoteFilterDigits[p].1) == Pow2(11 - p)
  {
    var ds := NoteFilterDigits[p].1;
    assert ds == [0,0,0,0,1,0,0,0,0,0,0,0];
    Pow2Table();
    BinaryValue(ds, 128);
  }

  lemma NoteRow5(p: nat)
    requires p == 5
    ensures Binary(NoteFilterDigits[p].1) == Pow2(11 - p)
  {
    var ds := NoteFilterDigits[p].1;
    assert ds == [0,0,0,0,0,1,0,0,0,0,0,0];
    Pow2Table();
    BinaryValue(ds, 64);
  }

  lemma NoteRow6(p: nat)
    requires p == 6
    ensures Binary(NoteFilterDigits[p].1) == Pow2(11 - p)
  {
    var ds := NoteFilterDigits[p].1;
    assert ds == [0,0,0,0,0,0,1,0,0,0,0,0];
    Pow2Table();
    BinaryValue(ds, 32);
  }

  lemma NoteRow7(p: nat)
    requires p == 7
    ensures Binary(NoteFilterDigits[p].1) == Pow2(11 - p)
  {
    var ds := NoteFilterDigits[p].1;
    assert ds == [0,0,0,0,0,0,0,1,0,0,0,0];
    Pow2Table();
    BinaryValue(ds, 16);
  }

  lemma NoteRow8(p: nat)
    requires p == 8
    ensures Binary(NoteFilterDigits[p].1) == Pow2(11 - p)
  {
    var ds := NoteFilterDigits[p].1;
    assert ds == [0,0,0,0,0,0,0,0,1,0,0,0];
    Pow2Table();
    BinaryValue(ds, 8);
  }

  lemma NoteRow9(p: nat)
    requires p == 9
    ensures Binary(NoteFilterDigits[p].1) == Pow2(11 - p)
  {
    var ds := NoteFilterDigits[p].1;
    assert ds == [0,0,0,0,0,0,0,0,0,1,0,0];
    Pow2Table();
    BinaryValue(ds, 4);
  }

  lemma NoteRow10(p: nat)
    requires p == 10
    ensures Binary(NoteFilterDigits[p].1) == Pow2(11 - p)
  {
    var ds := NoteFilterDigits[p].1;
    assert ds == [0,0,0,0,0,0,0,0,0,0,1,0];
    Pow2Table();
    BinaryValue(ds, 2);
  }

  lemma NoteRow11(p: nat)
    requires p == 11
    ensures Binary(NoteFilterDigits[p].1) == Pow2(11 - p)
  {
    var ds := NoteFilterDigits[p].1;
    assert ds == [0,0,0,0,0,0,0,0,0,0,0,1];
    Pow2Table();
    BinaryValue(ds, 1);
  }

  // ---------------------------------------------------------------------------
  // The mode tables (gp_to_kivy.py:279-297, 340-352, 432-482)
  // ---------------------------------------------------------------------------

  /** `maj_filter`: its binary literals as digit lists. */
  const MajFilterDigits: Table<string, seq<int>> := [
    ("c_maj",  [1,0,1,0,1,1,0,1,0,1,0,1]),
    ("cs_maj", [1,1,0,1,0,1,1,0,1,0,1,0]),
    ("d_maj",  [0,1,1,0,1,0,1,1,0,1,0,1]),
    ("ds_maj", [1,0,1,1,0,1,0,1,1,0,1,0]),
    ("e_maj",  [0,1,0,1,1,0,1,0,1,1,0,1]),
    ("f_maj",  [1,0,1,0,1,1,0,1,0,1,1,0]),
    ("fs_maj", [0,1,0,1,0,1,1,0,1,0,1,1]),
    ("g_maj",  [1,0,1,0,1,0,1,1,0,1,0,1]),
    ("gs_maj", [1,1,0,1,0,1,0,1,1,0,1,0]),
    ("a_maj",  [0,1,1,0,1,0,1,0,1,1,0,1]),
    ("as_maj", [1,0,1,1,0,1,0,1,0,1,1,0]),
    ("b_maj",  [0,1,0,1,1,0,1,0,1,0,1,1])]

  /** `maj_filter` as the values Python reads from it. */
  function MajFilter(): (r: Table<string, nat>)
    ensures |r| == |MajFilterDigits|
    ensures forall i :: 0 <= i < |r| ==> r[i] == (MajFilterDigits[i].0, Binary(MajFilterDigits[i].1))
  {
    seq(|MajFilterDigits|, i requires 0 <= i < |MajFilterDigits| => (MajFilterDigits[i].0, Binary(MajFilterDigits[i].1)))
  }

  /** `maj_to_int`. */
  const MajToInt: Table<string, nat> := [
    ("c_maj", 2773), ("cs_maj", 3434), ("d_maj", 1717), ("ds_maj", 2906),
    ("e_maj", 1453), ("f_maj", 2774), ("fs_maj", 1387), ("g_maj", 2741),
    ("gs_maj", 3418), ("a_maj", 1709), ("as_maj", 2902), ("b_maj", 1451)]

  /** `mode_filters`: the twelve major scales, then the twelve harmonic minor and the twelve
      melodic minor scales, each run rooted on C, C#, ..., B. */
  const ModeFilters: Table<string, nat> := MajorModes + HarmonicMinorModes + MelodicMinorModes

  const MajorModes: Table<string, nat> := [
    ("c_maj", 2773), ("cs_maj", 3434), ("d_maj", 1717), ("ds_maj", 2906),
    ("e_maj", 1453), ("f_maj", 2774), ("fs_maj", 1387), ("g_maj", 2741),
    ("gs_maj", 3418), ("a_maj", 1709), ("as_maj", 2902), ("b_maj", 1451)]

  const HarmonicMinorModes: Table<string, nat> := [
    ("c_harm_min", 2905), ("cs_harm_min", 3500), ("d_harm_min", 1750), ("ds_harm_min", 875),
    ("e_harm_min", 2485), ("f_harm_min", 3290), ("fs_harm_min", 1645), ("g_harm_min", 2870),
    ("gs_harm_min", 1435), ("a_harm_min", 2765), ("as_harm_min", 3430), ("b_harm_min", 1715)]

  const MelodicMinorModes: Table<string, nat> := [
    ("c_mel_min", 2901), ("cs_mel_min", 3498), ("d_mel_min", 1749), ("ds_mel_min", 2922),
    ("e_mel_min", 1461), ("f_mel_min", 2778), ("fs_mel_min", 1389), ("g_mel_min", 2742),
    ("gs_mel_min", 1371), ("a_mel_min", 2733), ("as_mel_min", 3414), ("b_mel_min", 1707)]

  /** `filter_to_mode`. */
  const FilterToMode: Table<nat, string> := [
    (2773, "c_maj"), (3434, "cs_maj"), (1717, "d_maj"), (2906, "ds_maj"),
    (1453, "e_maj"), (2774, "f_maj"), (1387, "fs_maj"), (2741, "g_maj"),
    (3418, "gs_maj"), (1709, "a_maj"), (2902, "as_maj"), (1451, "b_maj"),
    (2905, "c_harm_min"), (3500, "cs_harm_min"), (1750, "d_harm_min"), (875, "ds_harm_min"),
    (2485, "e_harm_min"), (3290, "f_harm_min"), (1645, "fs_harm_min"), (2870, "g_harm_min"),
    (1435, "gs_harm_min"), (2765, "a_harm_min"), (3430, "as_harm_min"), (1715, "b_harm_min"),
    (2901, "c_mel_min"), (3498, "cs_mel_min"), (1749, "d_mel_min"), (2922, "ds_mel_min"),
    (1461, "e_mel_min"), (2778, "f_mel_min"), (1389, "fs_mel_min"), (2742, "g_mel_min"),
    (1371, "gs_mel_min"), (2733, "a_mel_min"), (3414, "as_mel_min"), (1707, "b_mel_min")]

  /** Digit `d` of a binary literal at place value `w`. */
  function Digit(d: int, w: nat): nat
  {
    if d == 1 then w else 0
  }

  lemma BinaryFrom(ds: seq<int>, i: nat)
    requires i < |ds|
    ensures Binary(ds[i..]) == Digit(ds[i], Pow2(|ds| - 1 - i)) + Binary(ds[i + 1..])
  {
    assert ds[i..][0] == ds[i] && ds[i..][1..] == ds[i + 1..];
  }

  /** A twelve-digit literal reads as the sum of its digits' place values. */
  lemma BinaryValue(ds: seq<int>, v: nat)
    requires |ds| == 12
    requires v == Digit(ds[0], 2048) + Digit(ds[1], 1024) + Digit(ds[2], 512) + Digit(ds[3], 256)
                + Digit(ds[4], 128) + Digit(ds[5], 64) + Digit(ds[6], 32) + Digit(ds[7], 16)
                + Digit(ds[8], 8) + Digit(ds[9], 4) + Digit(ds[10], 2) + Digit(ds[11], 1)
    ensures Binary(ds) == v
  {
    Pow2Table();
    assert ds[0..] == ds && ds[12..] == [];
    BinaryFrom(ds, 0);
    BinaryFrom(ds, 1);
    BinaryFrom(ds, 2);
    BinaryFrom(ds, 3);
    BinaryFrom(ds, 4);
    BinaryFrom(ds, 5);
    BinaryFrom(ds, 6);
    BinaryFrom(ds, 7);
    BinaryFrom(ds, 8);
    BinaryFrom(ds, 9);
    BinaryFrom(ds, 10);
    BinaryFrom(ds, 11);
  }

  /** Row `k` of `maj_filter` reads as the number `maj_to_int` gives it. */
  lemma MajRow(k: nat)
    requires k < 12
    ensures Binary(MajFilterDigits[k].1) == MajToInt[k].1
  {
    if k == 0 {
      MajRow0(k);
    } else if k == 1 {
      MajRow1(k);
    } else if k == 2 {
      MajRow2(k);
    } else if k == 3 {
      MajRow3(k);
    } else if k == 4 {
      MajRow4(k);
    } else if k == 5 {
      MajRow5(k);
    } else if k == 6 {
      MajRow6(k);
    } else if k == 7 {
      MajRow7(k);
    } else if k == 8 {
      MajRow8(k);
    } else if k == 9 {
      MajRow9(k);
    } else if k == 10 {
      MajRow10(k);
    } else {
      MajRow11(k);
    }
  }

  lemma MajRow0(k: nat)
    requires k == 0
    ensures Binary(MajFilterDigits[k].1) == MajToInt[k].1
  {
    var ds := MajFilterDigits[k].1;
    assert ds == [1,0,1,0,1,1,0,1,0,1,0,1];
    assert MajToInt[k].1 == 2773;
    BinaryValue(ds, 2773);
  }

  lemma MajRow1(k: nat)
    requires k == 1
    ensures Binary(MajFilterDigits[k].1) == MajToInt[k].1
  {
    var ds := MajFilterDigits[k].1;
    assert ds == [1,1,0,1,0,1,1,0,1,0,1,0];
    assert MajToInt[k].1 == 3434;
    BinaryValue(ds, 3434);
  }

  lemma MajRow2(k: nat)
    requires k == 2
    ensures Binary(MajFilterDigits[k].1) == MajToInt[k].1
  {
    var ds := MajFilterDigits[k].1;
    assert ds == [0,1,1,0,1,0,1,1,0,1,0,1];
    assert MajToInt[k].1 == 1717;
    BinaryValue(ds, 1717);
  }

  lemma MajRow3(k: nat)
    requires k == 3
    ensures Binary(MajFilterDigits[k].1) == MajToInt[k].1
  {
    var ds := MajFilterDigits[k].1;
    assert ds == [1,0,1,1,0,1,0,1,1,0,1,0];
    assert MajToInt[k].1 == 2906;
    BinaryValue(ds, 2906);
  }

  lemma MajRow4(k: nat)
    requires k == 4
    ensures Binary(MajFilterDigits[k].1) == MajToInt[k].1
  {
    var ds := MajFilterDigits[k].1;
    assert ds == [0,1,0,1,1,0,1,0,1,1,0,1];
    assert MajToInt[k].1 == 1453;
    BinaryValue(ds, 1453);
  }

  lemma MajRow5(k: nat)
    requires k == 5
    ensures Binary(MajFilterDigits[k].1) == MajToInt[k].1
  {
    var ds := MajFilterDigits[k].1;
    assert ds == [1,0,1,0,1,1,0,1,0,1,1,0];
    assert MajToInt[k].1 == 2774;
    BinaryValue(ds, 2774);
  }

  lemma MajRow6(k: nat)
    requires k == 6
    ensures Binary(MajFilterDigits[k].1) == MajToInt[k].1
  {
    var ds := MajFilterDigits[k].1;
    assert ds == [0,1,0,1,0,1,1,0,1,0,1,1];
    assert MajToInt[k].1 == 1387;
    BinaryValue(ds, 1387);
  }

  lemma MajRow7(k: nat)
    requires k == 7
    ensures Binary(MajFilterDigits[k].1) == MajToInt[k].1
  {
    var ds := MajFilterDigits[k].1;
    assert ds == [1,0,1,0,1,0,1,1,0,1,0,1];
    assert MajToInt[k].1 == 2741;
    BinaryValue(ds, 2741);
  }

  lemma MajRow8(k: nat)
    requires k == 8
    ensures Binary(MajFilterDigits[k].1) == MajToInt[k].1
  {
    var ds := MajFilterDigits[k].1;
    assert ds == [1,1,0,1,0,1,0,1,1,0,1,0];
    assert MajToInt[k].1 == 3418;
    BinaryValue(ds, 3418);
  }

  lemma MajRow9(k: nat)
    requires k == 9
    ensures Binary(MajFilterDigits[k].1) == MajToInt[k].1
  {
    var ds := MajFilterDigits[k].1;
    assert ds == [0,1,1,0,1,0,1,0,1,1,0,1];
    assert MajToInt[k].1 == 1709;
    BinaryValue(ds, 1709);
  }

  lemma MajRow10(k: nat)
    requires k == 10
    ensures Binary(MajFilterDigits[k].1) == MajToInt[k].1
  {
    var ds := MajFilterDigits[k].1;
    assert ds == [1,0,1,1,0,1,0,1,0,1,1,0];
    assert MajToInt[k].1 == 2902;
    BinaryValue(ds, 2902);
  }

  lemma MajRow11(k: nat)
    requires k == 11
    ensures Binary(MajFilterDigits[k].1) == MajToInt[k].1
  {
    var ds := MajFilterDigits[k].1;
    assert ds == [0,1,0,1,1,0,1,0,1,0,1,1];
    assert MajToInt[k].1 == 1451;
    BinaryValue(ds, 1451);
  }

  /** The binary and the decimal major tables agree, and both are the first twelve entries
      of `mode_filters`. */
  lemma MajTablesAgree()
    ensures MajFilter() == MajToInt
    ensures MajToInt == MajorModes == ModeFilters[..12]
  {
    forall k | 0 <= k < 12 ensures MajFilter()[k] == MajToInt[k] {
      MajRow(k);
    }
  }

  // ---------------------------------------------------------------------------
  // The mode constants are scales
  // ---------------------------------------------------------------------------

  lemma MajorRows(k: nat)
    requires k < 12
    ensures MajorModes[k].1 == Transpose(2773, k)
  {
    Pow2Table();
    if k == 0 {
      assert MajorModes[0].1 == Transpose(2773, 0);
    } else if k == 1 {
      assert MajorModes[1].1 == Transpose(2773, 1);
    } else if k == 2 {
      assert MajorModes[2].1 == Transpose(2773, 2);
    } else if k == 3 {
      assert MajorModes[3].1 == Transpose(2773, 3);
    } else if k == 4 {
      assert MajorModes[4].1 == Transpose(2773, 4);
    } else if k == 5 {
      assert MajorModes[5].1 == Transpose(2773, 5);
    } else if k == 6 {
      assert MajorModes[6].1 == Transpose(2773, 6);
    } else if k == 7 {
      assert MajorModes[7].1 == Transpose(2773, 7);
    } else if k == 8 {
      assert MajorModes[8].1 == Transpose(2773, 8);
    } else if k == 9 {
      assert MajorModes[9].1 == Transpose(2773, 9);
    } else if k == 10 {
      assert MajorModes[10].1 == Transpose(2773, 10);
    } else {
      assert MajorModes[11].1 == Transpose(2773, 11);
    }
  }

  lemma HarmonicMinorRows(k: nat)
    requires k < 12
    ensures HarmonicMinorModes[k].1 == Transpose(2905, k)
  {
    Pow2Table();
    if k == 0 {
      assert HarmonicMinorModes[0].1 == Transpose(2905, 0);
    } else if k == 1 {
      assert HarmonicMinorModes[1].1 == Transpose(2905, 1);
    } else if k == 2 {
      assert HarmonicMinorModes[2].1 == Transpose(2905, 2);
    } else if k == 3 {
      assert HarmonicMinorModes[3].1 == Transpose(2905, 3);
    } else if k == 4 {
      assert HarmonicMinorModes[4].1 == Transpose(2905, 4);
    } else if k == 5 {
      assert HarmonicMinorModes[5].1 == Transpose(2905, 5);
    } else if k == 6 {
      assert HarmonicMinorModes[6].1 == Transpose(2905, 6);
    } else if k == 7 {
      assert HarmonicMinorModes[7].1 == Transpose(2905, 7);
    } else if k == 8 {
      assert HarmonicMinorModes[8].1 == Transpose(2905, 8);
    } else if k == 9 {
      assert HarmonicMinorModes[9].1 == Transpose(2905, 9);
    } else if k == 10 {
      assert HarmonicMinorModes[10].1 == Transpose(2905, 10);
    } else {
      assert HarmonicMinorModes[11].1 == Transpose(2905, 11);
    }
  }

  lemma MelodicMinorRows(k: nat)
    requires k < 12
    ensures MelodicMinorModes[k].1 == Transpose(2901, k)
  {
    Pow2Table();
    if k == 0 {
      assert MelodicMinorModes[0].1 == Transpose(2901, 0);
    } else if k == 1 {
      assert MelodicMinorModes[1].1 == Transpose(2901, 1);
    } else if k == 2 {
      assert MelodicMinorModes[2].1 == Transpose(2901, 2);
    } else if k == 3 {
      assert MelodicMinorModes[3].1 == Transpose(2901, 3);
    } else if k == 4 {
      assert MelodicMinorModes[4].1 == Transpose(2901, 4);
    } else if k == 5 {
      assert MelodicMinorModes[5].1 == Transpose(2901, 5);
    } else if k == 6 {
      assert MelodicMinorModes[6].1 == Transpose(2901, 6);
    } else if k == 7 {
      assert MelodicMinorModes[7].1 == Transpose(2901, 7);
    } else if k == 8 {
      assert MelodicMinorModes[8].1 == Transpose(2901, 8);
    } else if k == 9 {
      assert MelodicMinorModes[9].1 == Transpose(2901, 9);
    } else if k == 10 {
      assert MelodicMinorModes[10].1 == Transpose(2901, 10);
    } else {
      assert MelodicMinorModes[11].1 == Transpose(2901, 11);
    }
  }

  /** `mode_filters[i]` is the scale its name says: entry `12 * f + k` is shape `f` (major,
      harmonic minor, melodic minor) rooted on pitch class `k`. So every entry has seven
      bits, and pitch class `p` is in mode `i` iff it lies one of the shape's offsets above
      the mode's root. */
  lemma ModeFilterScale(f: nat, k: PitchClass, p: PitchClass)
    requires f < 3
    ensures ModeFilters[12 * f + k].1 < 4096 && Popcount(ModeFilters[12 * f + k].1) == 7
    ensures Bit(ModeFilters[12 * f + k].1, 11 - p) <==> (p - k) % 12 in Shapes[f]
  {
    if f == 0 {
      assert 12 * f + k == k && Shapes[f] == MajorShape;
      assert ModeFilters[k] == MajorModes[k];
      MajorModeScale(k, p);
    } else if f == 1 {
      assert 12 * f + k == 12 + k && Shapes[f] == HarmonicMinorShape;
      assert ModeFilters[12 + k] == HarmonicMinorModes[k];
      HarmonicMinorModeScale(k, p);
    } else {
      assert 12 * f + k == 24 + k && Shapes[f] == MelodicMinorShape;
      assert ModeFilters[24 + k] == MelodicMinorModes[k];
      MelodicMinorModeScale(k, p);
    }
  }

  lemma MajorModeScale(k: PitchClass, p: PitchClass)
    ensures MajorModes[k].1 < 4096 && Popcount(MajorModes[k].1) == 7
    ensures Bit(MajorModes[k].1, 11 - p) <==> (p - k) % 12 in MajorShape
  {
    MajorRows(k);
    MajorScale(k, p);
  }

  lemma HarmonicMinorModeScale(k: PitchClass, p: PitchClass)
    ensures HarmonicMinorModes[k].1 < 4096 && Popcount(HarmonicMinorModes[k].1) == 7
    ensures Bit(HarmonicMinorModes[k].1, 11 - p) <==> (p - k) % 12 in HarmonicMinorShape
  {
    HarmonicMinorRows(k);
    HarmonicMinorScale(k, p);
  }

  lemma MelodicMinorModeScale(k: PitchClass, p: PitchClass)
    ensures MelodicMinorModes[k].1 < 4096 && Popcount(MelodicMinorModes[k].1) == 7
    ensures Bit(MelodicMinorModes[k].1, 11 - p) <==> (p - k) % 12 in MelodicMinorShape
  {
    MelodicMinorRows(k);
    MelodicMinorScale(k, p);
  }

  // ---------------------------------------------------------------------------
  // `filter_to_mode` inverts `mode_filters`
  // ---------------------------------------------------------------------------

  /** `filter_to_mode` lists `mode_filters` with every entry turned round. */
  lemma FilterToModeSwaps()
    ensures |FilterToMode| == |ModeFilters| == 36
    ensures forall i :: 0 <= i < 36 ==> FilterToMode[i] == (ModeFilters[i].1, ModeFilters[i].0)
  {
    SwappedBlock(MajorModes, 0);
    SwappedBlock(HarmonicMinorModes, 12);
    SwappedBlock(MelodicMinorModes, 24);
    forall i | 0 <= i < 36 ensures FilterToMode[i] == (ModeFilters[i].1, ModeFilters[i].0) {
      Block(i);
    }
  }

  /** The twelve entries of `filter_to_mode` from `start` on are `block` turned round. */
  lemma SwappedBlock(block: Table<string, nat>, start: nat)
    requires (start == 0 && block == MajorModes) || (start == 12 && block == HarmonicMinorModes)
          || (start == 24 && block == MelodicMinorModes)
    ensures forall j :: 0 <= j < 12 ==> FilterToMode[start + j] == (block[j].1, block[j].0)
  {
    if start == 0 {
      SwappedMajor();
    } else if start == 12 {
      SwappedHarmonicMinor();
    } else {
      SwappedMelodicMinor();
    }
  }

  lemma SwappedMajor()
    ensures forall j :: 0 <= j < 12 ==> FilterToMode[j] == (MajorModes[j].1, MajorModes[j].0)
  {
  }

  lemma SwappedHarmonicMinor()
    ensures forall j :: 0 <= j < 12 ==> FilterToMode[12 + j] == (HarmonicMinorModes[j].1, HarmonicMinorModes[j].0)
  {
  }

  lemma SwappedMelodicMinor()
    ensures forall j :: 0 <= j < 12 ==> FilterToMode[24 + j] == (MelodicMinorModes[j].1, MelodicMinorModes[j].0)
  {
  }

  lemma MajorModesDistinct()
    ensures forall i, j :: 0 <= i < j < 12 ==> MajorModes[i].1 != MajorModes[j].1
  {
  }

  lemma HarmonicMinorModesDistinct()
    ensures forall i, j :: 0 <= i < j < 12 ==> HarmonicMinorModes[i].1 != HarmonicMinorModes[j].1
  {
  }

  lemma MelodicMinorModesDistinct()
    ensures forall i, j :: 0 <= i < j < 12 ==> MelodicMinorModes[i].1 != MelodicMinorModes[j].1
  {
  }

  lemma MajorModesApartFromHarmonicMinorModes()
    ensures forall i, j :: 0 <= i < 12 && 0 <= j < 12 ==> MajorModes[i].1 != HarmonicMinorModes[j].1
  {
  }

  lemma MajorModesApartFromMelodicMinorModes()
    ensures forall i, j :: 0 <= i < 12 && 0 <= j < 12 ==> MajorModes[i].1 != MelodicMinorModes[j].1
  {
  }

  lemma HarmonicMinorModesApartFromMelodicMinorModes()
    ensures forall i, j :: 0 <= i < 12 && 0 <= j < 12 ==> HarmonicMinorModes[i].1 != MelodicMinorModes[j].1
  {
  }

  /** No two modes share a mask. */
  lemma ModeFiltersDistinct()
    ensures Distinct(ValuesOf(ModeFilters))
  {
    MajorModesDistinct();
    HarmonicMinorModesDistinct();
    MelodicMinorModesDistinct();
    MajorModesApartFromHarmonicMinorModes();
    MajorModesApartFromMelodicMinorModes();
    HarmonicMinorModesApartFromMelodicMinorModes();
    var v := ValuesOf(ModeFilters);
    forall i, j | 0 <= i < j < 36 ensures v[i] != v[j] {
      Block(i);
      Block(j);
    }
  }

  /** Where entry `i` of `mode_filters` comes from. */
  lemma Block(i: nat)
    requires i < 36
    ensures i < 12 ==> ModeFilters[i] == MajorModes[i]
    ensures 12 <= i < 24 ==> ModeFilters[i] == HarmonicMinorModes[i - 12]
    ensures 24 <= i ==> ModeFilters[i] == MelodicMinorModes[i - 24]
  {
  }

  /** Looking up any mode's mask in `filter_to_mode` gives back the mode's name. */
  lemma FilterToModeInverts(i: nat)
    requires i < 36
    ensures Lookup(FilterToMode, ModeFilters[i].1) == Ok(ModeFilters[i].0)
  {
    FilterToModeSwaps();
    ModeFiltersDistinct();
    assert KeysOf(FilterToMode) == ValuesOf(ModeFilters);
    LookupDistinct(FilterToMode, i);
  }

  // ---------------------------------------------------------------------------
  // A pitch mask per measure (gp_to_kivy.py:298-308)
  // ---------------------------------------------------------------------------

  /** `note_filter[chrom_scale[semitone]]`: the one-bit mask of a note's pitch class, with
      pitch class `p` at bit `11 - p`. The lookup never misses. */
  function NoteMask(n: Note): (r: nat)
    ensures r == Pow2(11 - PitchClassOf(n.realValue))
  {
    var p := PitchClassOf(n.realValue);
    NoteTablesAgree();
    ChromScaleDistinct();
    LookupDistinct(NoteFilter(), p);
    Lookup(NoteFilter(), NoteName(n.realValue)).value
  }

  /** Some note of `notes` has pitch class `p`. */
  ghost predicate NotesSound(notes: seq<Note>, p: int)
  {
    exists j :: 0 <= j < |notes| && PitchClassOf(notes[j].realValue) == p
  }

  /** Some note of some beat has pitch class `p`. */
  ghost predicate MeasureSounds(beats: seq<Beat>, p: int)
  {
    exists b :: 0 <= b < |beats| && NotesSound(beats[b].notes, p)
  }

  /** The innermost loop: `key_filter |= note_filter[note]` for each note of a beat, in
      order, starting from the mask `acc` built so far. */
  function NotesInto(acc: nat, notes: seq<Note>): (r: nat)
    ensures acc < 4096 ==> r < 4096
    ensures forall i :: 0 <= i < 12 ==> (Bit(r, i) <==> Bit(acc, i) || NotesSound(notes, 11 - i))
    decreases |notes|
  {
    if |notes| == 0 then acc
    else
      NoteStep(acc, notes);
      NotesInto(Or(acc, NoteMask(notes[0])), notes[1..])
  }

  /** One note of the loop sets its own pitch class's bit and keeps the others. */
  lemma NoteStep(acc: nat, notes: seq<Note>)
    requires |notes| > 0
    ensures acc < 4096 ==> Or(acc, NoteMask(notes[0])) < 4096
    ensures forall i :: 0 <= i < 12 ==>
              (Bit(Or(acc, NoteMask(notes[0])), i) <==> Bit(acc, i) || PitchClassOf(notes[0].realValue) == 11 - i)
    ensures forall p :: NotesSound(notes, p) <==> PitchClassOf(notes[0].realValue) == p || NotesSound(notes[1..], p)
  {
    var q := PitchClassOf(notes[0].realValue);
    var m := NoteMask(notes[0]);
    assert m == Pow2(11 - q);
    OneBitInto(acc, q);
    NotesSoundCons(notes);
  }

  lemma OneBitInto(acc: nat, q: PitchClass)
    ensures acc < 4096 ==> Or(acc, Pow2(11 - q)) < 4096
    ensures forall i :: 0 <= i < 12 ==> (Bit(Or(acc, Pow2(11 - q)), i) <==> Bit(acc, i) || q == 11 - i)
  {
    var m := Pow2(11 - q);
    if acc < 4096 {
      Pow2Table();
      Pow2Monotone(11 - q, 12);
      OrBound(acc, m, 12);
    }
    forall i | 0 <= i < 12 ensures Bit(Or(acc, m), i) <==> Bit(acc, i) || q == 11 - i {
      OrBit(acc, m, i);
      Pow2Bit(11 - q, i);
    }
  }

  lemma NotesSoundCons(notes: seq<Note>)
    requires |notes| > 0
    ensures forall p :: NotesSound(notes, p) <==> PitchClassOf(notes[0].realValue) == p || NotesSound(notes[1..], p)
  {
    var q := PitchClassOf(notes[0].realValue);
    forall p ensures NotesSound(notes, p) <==> q == p || NotesSound(notes[1..], p) {
      if NotesSound(notes, p) && q != p {
        var j :| 0 <= j < |notes| && PitchClassOf(notes[j].realValue) == p;
        assert notes[1..][j - 1] == notes[j];
      }
      if NotesSound(notes[1..], p) {
        var j :| 0 <= j < |notes[1..]| && PitchClassOf(notes[1..][j].realValue) == p;
        assert notes[j + 1] == notes[1..][j];
      }
    }
  }

  /** The loop over the beats of the measure's one real voice. */
  function BeatsInto(acc: nat, beats: seq<Beat>): (r: nat)
    ensures acc < 4096 ==> r < 4096
    ensures forall i :: 0 <= i < 12 ==> (Bit(r, i) <==> Bit(acc, i) || MeasureSounds(beats, 11 - i))
    decreases |beats|
  {
    if |beats| == 0 then acc
    else
      BeatStep(beats);
      BeatsInto(NotesInto(acc, beats[0].notes), beats[1..])
  }

  lemma BeatStep(beats: seq<Beat>)
    requires |beats| > 0
    ensures forall p :: MeasureSounds(beats, p) <==> NotesSound(beats[0].notes, p) || MeasureSounds(beats[1..], p)
  {
    forall p ensures MeasureSounds(beats, p) <==> NotesSound(beats[0].notes, p) || MeasureSounds(beats[1..], p) {
      if MeasureSounds(beats, p) && !NotesSound(beats[0].notes, p) {
        var b :| 0 <= b < |beats| && NotesSound(beats[b].notes, p);
        assert beats[1..][b - 1] == beats[b];
      }
      if MeasureSounds(beats[1..], p) {
        var b :| 0 <= b < |beats[1..]| && NotesSound(beats[1..][b].notes, p);
        assert beats[b + 1] == beats[1..][b];
      }
    }
  }

  /** `key_filter` after a measure: a 12-bit mask whose bit `11 - p` is set exactly when
      some note of the measure has pitch class `p`. */
  function MeasureMask(beats: seq<Beat>): (r: nat)
    ensures r < 4096
    ensures forall i :: 0 <= i < 12 ==> (Bit(r, i) <==> MeasureSounds(beats, 11 - i))
  {
    assert forall i :: 0 <= i < 12 ==> !Bit(0, i) by {
      forall i | 0 <= i < 12 { NoBitsOfZero(i); }
    }
    BeatsInto(0, beats)
  }

  /** A measure's mask is the set of its pitch classes: no other number below 4096 has
      the same bits. */
  lemma MeasureMaskUnique(beats: seq<Beat>, m: nat)
    requires m < 4096
    requires forall p: PitchClass :: Bit(m, 11 - p) <==> MeasureSounds(beats, p)
    ensures m == MeasureMask(beats)
  {
    var r := MeasureMask(beats);
    Pow2Table();
    forall i: nat ensures Bit(m, i) == Bit(r, i) {
      if i < 12 {
        var p: PitchClass := 11 - i;
        assert Bit(m, 11 - p) <==> MeasureSounds(beats, p);
      } else {
        BitLenBound(m, 12);
        BitLenBound(r, 12);
        BitsBelowBitLen(m, i);
        BitsBelowBitLen(r, i);
      }
    }
    BitsDetermine(m, r);
  }

  /** A measure with no notes (all rests) has the zero mask. */
  lemma RestMeasureMask(beats: seq<Beat>)
    requires forall b :: 0 <= b < |beats| ==> |beats[b].notes| == 0
    ensures MeasureMask(beats) == 0
  {
    Pow2Table();
    forall p: PitchClass ensures Bit(0, 11 - p) <==> MeasureSounds(beats, p) {
      NoBitsOfZero(11 - p);
    }
    MeasureMaskUnique(beats, 0);
  }

  // ---------------------------------------------------------------------------
  // The key list of a track (gp_to_kivy.py:250-323)
  // ---------------------------------------------------------------------------

  /** What each measure feeds the key expander: its mask. */
  function MaskItems(ms: seq<Measure>): (r: seq<Item<nat>>)
    ensures |r| == |ms|
    ensures forall i :: 0 <= i < |ms| ==> r[i] == Item(Timeline.MarkerOf(ms[i].header), [MeasureMask(ms[i].beats)])
  {
    seq(|ms|, i requires 0 <= i < |ms| => Item(Timeline.MarkerOf(ms[i].header), [MeasureMask(ms[i].beats)]))
  }

  /** `_detect_track_key_signatures`: one mask per measure, run through the same repeat
      expander as the timeline. */
  function TrackKeys(track: Track): (r: seq<nat>)
    ensures forall j :: 0 <= j < |r| ==> r[j] < 4096
  {
    var items := MaskItems(track.measures);
    var r := Expand(items);
    forall j | 0 <= j < |r| ensures r[j] < 4096 {
      Timeline.ExpandFrom(items, r[j]);
    }
    r
  }

  /** `_detect_song_key_signatures`: the key list of every track, position `j` of track `t`
      holding the pitch-class mask of the measure the repeat expander plays `j`-th. */
  function SongKeys(song: Song): (r: seq<seq<nat>>)
    ensures |r| == |song.tracks|
    ensures forall t :: 0 <= t < |r| ==> r[t] == TrackKeys(song.tracks[t])
    ensures forall t :: 0 <= t < |r| ==>
              var ms := song.tracks[t].measures;
              var order := MeasureOrder(ms);
              |r[t]| == |order| && forall j :: 0 <= j < |order| ==> r[t][j] == MeasureMask(ms[order[j]].beats)
  {
    AllKeysFollowMeasureOrder(song.tracks);
    seq(|song.tracks|, t requires 0 <= t < |song.tracks| => TrackKeys(song.tracks[t]))
  }

  lemma AllKeysFollowMeasureOrder(tracks: seq<Track>)
    ensures forall t :: 0 <= t < |tracks| ==>
              var ms := tracks[t].measures;
              var order := MeasureOrder(ms);
              |TrackKeys(tracks[t])| == |order| &&
              forall j :: 0 <= j < |order| ==> TrackKeys(tracks[t])[j] == MeasureMask(ms[order[j]].beats)
  {
    forall t | 0 <= t < |tracks|
      ensures var ms := tracks[t].measures;
              var order := MeasureOrder(ms);
              |TrackKeys(tracks[t])| == |order| &&
              forall j :: 0 <= j < |order| ==> TrackKeys(tracks[t])[j] == MeasureMask(ms[order[j]].beats)
    {
      KeysFollowMeasureOrder(tracks[t]);
    }
  }

  /** Over a built song, every track's key list lines up with its measure table: entry `j`
      of the keys is the mask of the measure whose header is entry `j` of the table. */
  lemma SongKeysAlignWithTables(song: Song)
    requires Timeline.BuildSong(song).Ok?
    ensures var data := Timeline.BuildSong(song).value.data;
            var keys := SongKeys(song);
            |keys| == |data| &&
            forall t :: 0 <= t < |keys| ==>
              var ms := song.tracks[t].measures;
              var order := MeasureOrder(ms);
              |keys[t]| == |data[t]| == |order| &&
              forall j :: 0 <= j < |order| ==>
                data[t][j].header == ms[order[j]].header && keys[t][j] == MeasureMask(ms[order[j]].beats)
  {
    var data: seq<seq<Timeline.MeasureRecord>> := Timeline.BuildSong(song).value.data;
    forall t | 0 <= t < |song.tracks|
      ensures var ms := song.tracks[t].measures;
              var order := MeasureOrder(ms);
              |data[t]| == |order| &&
              forall j :: 0 <= j < |order| ==> data[t][j].header == ms[order[j]].header
    {
      TableFollowsMeasureOrder(song.tempo, song.tracks[t]);
    }
  }

  /** Which measure each position of an expanded track comes from: the expander run over
      measure numbers. */
  function MeasureOrder(ms: seq<Measure>): (r: seq<nat>)
    ensures forall j :: 0 <= j < |r| ==> r[j] < |ms|
  {
    var items := IndexItems(ms);
    var r := Expand(items);
    forall j | 0 <= j < |r| ensures r[j] < |ms| {
      Timeline.ExpandFrom(items, r[j]);
    }
    r
  }

  function IndexItems(ms: seq<Measure>): (r: seq<Item<nat>>)
    ensures |r| == |ms|
    ensures forall i :: 0 <= i < |ms| ==> r[i] == Item(Timeline.MarkerOf(ms[i].header), [i])
  {
    seq(|ms|, i requires 0 <= i < |ms| => Item(Timeline.MarkerOf(ms[i].header), [i]))
  }

  /** Mapping every item through a function that gives exactly one value keeps the
      positions. */
  lemma {:induction false} FlatMapSingletons<T, U>(f: T -> seq<U>, xs: seq<T>)
    requires forall j :: 0 <= j < |xs| ==> |f(xs[j])| == 1
    ensures |FlatMap(f, xs)| == |xs|
    ensures forall j :: 0 <= j < |xs| ==> FlatMap(f, xs)[j] == f(xs[j])[0]
    decreases |xs|
  {
    if |xs| > 0 {
      var k := |xs| - 1;
      FlatMapSingletons(f, xs[..k]);
      assert forall j :: 0 <= j < k ==> xs[..k][j] == xs[j];
    }
  }

  /** Position `j` of a track's key list is the mask of measure `MeasureOrder[j]`. */
  lemma KeysFollowMeasureOrder(track: Track)
    ensures var ms := track.measures;
            var order := MeasureOrder(ms);
            |TrackKeys(track)| == |order| &&
            forall j :: 0 <= j < |order| ==> TrackKeys(track)[j] == MeasureMask(ms[order[j]].beats)
  {
    var ms := track.measures;
    var f: nat -> seq<nat> := (i: nat) => if i < |ms| then [MeasureMask(ms[i].beats)] else [];
    var items := IndexItems(ms);
    forall i | 0 <= i < |ms| ensures MapItems(f, items)[i] == MaskItems(ms)[i] {
      Timeline.FlatMapSingle<nat, nat>(f, i);
    }
    assert MapItems(f, items) == MaskItems(ms);
    ExpandMap(f, items);
    var order := MeasureOrder(ms);
    FlatMapSingletons(f, order);
  }

  /** Entry `j` of a built measure table is measure `MeasureOrder[j]`. */
  lemma TableFollowsMeasureOrder(songTempo: int, track: Track)
    requires Timeline.BuildTrack(songTempo, track).Ok?
    ensures var ms := track.measures;
            var order := MeasureOrder(ms);
            var table := Timeline.BuildTrack(songTempo, track).value.table;
            |table| == |order| &&
            forall j :: 0 <= j < |order| ==> table[j].header == ms[order[j]].header
  {
    var ms := track.measures;
    var bs := Timeline.TrackMeasureBeats(songTempo, ms).value;
    var f: nat -> seq<Timeline.MeasureRecord> := (i: nat) => if i < |ms| then [Timeline.MeasureRecord(ms[i].header, bs[i])] else [];
    var items := IndexItems(ms);
    forall i | 0 <= i < |ms| ensures MapItems(f, items)[i] == Timeline.RecordItems(ms, bs)[i] {
      Timeline.FlatMapSingle<nat, Timeline.MeasureRecord>(f, i);
    }
    assert MapItems(f, items) == Timeline.RecordItems(ms, bs);
    ExpandMap(f, items);
    var order := MeasureOrder(ms);
    FlatMapSingletons(f, order);
  }

  /** The key list has one entry per measure-table entry, and each entry is the mask of
      the measure whose header sits at the same position of the table. */
  lemma KeysAlignWithTable(songTempo: int, track: Track)
    requires Timeline.BuildTrack(songTempo, track).Ok?
    ensures var table := Timeline.BuildTrack(songTempo, track).value.table;
            var keys := TrackKeys(track);
            |keys| == |table| &&
            forall j :: 0 <= j < |keys| ==>
              exists i :: 0 <= i < |track.measures| && table[j].header == track.measures[i].header
                          && keys[j] == MeasureMask(track.measures[i].beats)
  {
    KeysFollowMeasureOrder(track);
    TableFollowsMeasureOrder(songTempo, track);
    var order := MeasureOrder(track.measures);
    forall j | 0 <= j < |order|
      ensures exists i :: 0 <= i < |track.measures| && Timeline.BuildTrack(songTempo, track).value.table[j].header == track.measures[i].header
                          && TrackKeys(track)[j] == MeasureMask(track.measures[i].beats)
    {
      var i := order[j];
    }
  }

  // ---------------------------------------------------------------------------
  // The candidate test (gp_to_kivy.py:370-382, 491-503)
  // ---------------------------------------------------------------------------

  /** The bit walk of `possible_keys` and `get_measure_candidate_modes`: shift measure
      and filter right together while both are non-zero; a bit set in the measure and
      clear in the filter drops the mode. The walk stops once the filter runs out, so
      the measure's bits above the filter's highest set bit are never looked at. */
  function Survives(measure: nat, filter: nat): bool
    decreases filter
  {
    if filter == 0 || measure == 0 then true
    else if measure % 2 == 1 && filter % 2 == 0 then false
    else Survives(measure / 2, filter / 2)
  }

  /** Every bit of `measure` below the filter's bit length is also set in the filter. */
  ghost predicate SubsetBelowBitLen(measure: nat, filter: nat)
  {
    forall i :: 0 <= i < BitLen(filter) ==> (Bit(measure, i) ==> Bit(filter, i))
  }

  /** What the bit walk decides: a mode is dropped iff some bit at or below the filter's
      highest set bit is set in the measure and clear in the filter. */
  lemma {:induction false} SurvivesIff(measure: nat, filter: nat)
    ensures Survives(measure, filter) <==> SubsetBelowBitLen(measure, filter)
    decreases filter
  {
    if filter == 0 {
    } else if measure == 0 {
      forall i | 0 <= i < BitLen(filter) ensures !Bit(measure, i) {
        NoBitsOfZero(i);
      }
    } else if measure % 2 == 1 && filter % 2 == 0 {
      assert Bit(measure, 0) && !Bit(filter, 0);
    } else {
      SurvivesIff(measure / 2, filter / 2);
      assert BitLen(filter) == 1 + BitLen(filter / 2);
      if SubsetBelowBitLen(measure / 2, filter / 2) {
        forall i | 0 <= i < BitLen(filter) && Bit(measure, i) ensures Bit(filter, i) {
          if i > 0 {
            assert Bit(measure / 2, i - 1);
          }
        }
      } else {
        var i :| 0 <= i < BitLen(filter / 2) && Bit(measure / 2, i) && !Bit(filter / 2, i);
        assert Bit(measure, i + 1) && !Bit(filter, i + 1);
      }
    }
  }

  /** The measure's bits at and above `k` do not matter to a filter below `2^k`. */
  lemma SurvivesIgnoresHighBits(measure: nat, filter: nat, k: nat)
    requires filter < Pow2(k)
    ensures Survives(measure, filter) <==> Survives(measure % Pow2(k), filter)
  {
    SurvivesIff(measure, filter);
    SurvivesIff(measure % Pow2(k), filter);
    BitLenBound(filter, k);
    forall i | 0 <= i < BitLen(filter) ensures Bit(measure, i) <==> Bit(measure % Pow2(k), i) {
      ModPow2Bit(measure, k, i);
    }
  }

  /** The test never looks at C (bit 11): for every 12-bit filter, clearing C in the
      measure changes nothing. */
  lemma CNeverEliminates(measure: nat, filter: nat)
    requires filter < 4096
    ensures Survives(measure, filter) <==> Survives(measure % 2048, filter)
  {
    Pow2Table();
    SurvivesIff(measure, filter);
    SurvivesIff(measure % 2048, filter);
    BitLenBound(filter, 12);
    forall i | 0 <= i < BitLen(filter) ensures Bit(measure, i) ==> Bit(filter, i) <==> Bit(measure % 2048, i) ==> Bit(filter, i) {
      ModPow2Bit(measure, 11, i);
      if i == 11 {
        TopBitSet(filter);
      }
    }
  }

  /** For `ds_harm_min` (875, highest bit 9) neither C nor C# is ever looked at. */
  lemma DsHarmonicMinorIgnoresCAndCs(measure: nat)
    ensures ModeFilters[15] == ("ds_harm_min", 875)
    ensures Survives(measure, 875) <==> Survives(measure % 1024, 875)
  {
    Pow2Table();
    SurvivesIgnoresHighBits(measure, 875, 10);
  }

  /** The test the comment in the loop describes ("a note in the measure that isn't in
      the key"): every bit of the measure is a bit of the filter. */
  predicate Contains(measure: nat, filter: nat)
  {
    Or(measure, filter) == filter
  }

  lemma ContainsIff(measure: nat, filter: nat)
    ensures Contains(measure, filter) <==> forall i: nat :: Bit(measure, i) ==> Bit(filter, i)
  {
    if forall i: nat :: Bit(measure, i) ==> Bit(filter, i) {
      forall i: nat ensures Bit(Or(measure, filter), i) == Bit(filter, i) {
        OrBit(measure, filter, i);
      }
      BitsDetermine(Or(measure, filter), filter);
    } else {
      var i: nat :| Bit(measure, i) && !Bit(filter, i);
      OrBit(measure, filter, i);
    }
  }

  /** The bit walk keeps every mode that contains the measure, and agrees with
      containment on 12-bit filters that have C. */
  lemma ContainsAndSurvives(measure: nat, filter: nat)
    ensures Contains(measure, filter) ==> Survives(measure, filter)
    ensures measure < 4096 && 2048 <= filter < 4096 ==> (Survives(measure, filter) <==> Contains(measure, filter))
  {
    ContainsIff(measure, filter);
    SurvivesIff(measure, filter);
    if measure < 4096 && 2048 <= filter < 4096 && Survives(measure, filter) {
      Pow2Table();
      BitLenBound(measure, 12);
      BitLenBound(filter, 12);
      assert BitLen(filter) == 12 by {
        if BitLen(filter) < 12 {
          Pow2Monotone(BitLen(filter), 11);
        }
      }
      forall i: nat | Bit(measure, i) ensures Bit(filter, i) {
        if i >= 12 {
          BitsBelowBitLen(measure, i);
        }
      }
    }
  }

  /** The walk lets through a measure that sounds only C for every filter without C:
      here `d_maj` (1717, no C) is kept for a C-only measure although C is not in D
      major. */
  lemma CandidateTestMissesC()
    ensures ModeFilters[2] == ("d_maj", 1717)
    ensures Survives(2048, 1717) && !Contains(2048, 1717)
    ensures forall filter: nat :: filter < 2048 ==> Survives(2048, filter)
  {
    Block(2);
    assert MajorModes[2] == ("d_maj", 1717);
    COnlySurvivesLowFilters();
    COnlyNotInDMajor();
  }

  lemma COnlySurvivesLowFilters()
    ensures forall filter: nat :: filter < 2048 ==> Survives(2048, filter)
  {
    Pow2Table();
    forall filter: nat | filter < 2048 ensures Survives(2048, filter) {
      SurvivesIgnoresHighBits(2048, filter, 11);
    }
  }

  lemma COnlyNotInDMajor()
    ensures !Contains(2048, 1717)
  {
    Pow2Table();
    ContainsIff(2048, 1717);
    Pow2Bit(11, 11);
    BitsBelowBitLen(1717, 11);
  }

  // ---------------------------------------------------------------------------
  // The candidate lists
  // ---------------------------------------------------------------------------

  /** 1 for each table entry whose mask passes `test` against the measure, else 0. */
  function Selectors(t: Table<string, nat>, measure: nat, test: (nat, nat) -> bool): (sel: seq<int>)
    ensures |sel| == |t|
    ensures forall i :: 0 <= i < |t| ==> (sel[i] != 0 <==> test(measure, t[i].1))
  {
    seq(|t|, i requires 0 <= i < |t| => if test(measure, t[i].1) then 1 else 0)
  }

  /** The loop over `mode_filters.items()`: each entry is appended and popped again when
      the test fails, so what remains are the passing entries, in table order. */
  function Candidates(t: Table<string, nat>, measure: nat, test: (nat, nat) -> bool): (r: Table<string, nat>)
    ensures var pos := Positions(Selectors(t, measure, test));
            |r| == |pos| && forall j :: 0 <= j < |r| ==> r[j] == t[pos[j]]
  {
    var sel := Selectors(t, measure, test);
    CompressPicks(t, sel);
    Compress(t, sel)
  }

  /** An entry of a table with distinct masks is a candidate iff it passes the test. */
  lemma CandidatesMember(t: Table<string, nat>, measure: nat, test: (nat, nat) -> bool, i: nat)
    requires i < |t| && Distinct(ValuesOf(t))
    ensures t[i].1 in ValuesOf(Candidates(t, measure, test)) <==> test(measure, t[i].1)
  {
    var r := Candidates(t, measure, test);
    var pos := Positions(Selectors(t, measure, test));
    if t[i].1 in ValuesOf(r) {
      var j :| 0 <= j < |r| && ValuesOf(r)[j] == t[i].1;
      assert ValuesOf(t)[pos[j]] == ValuesOf(t)[i];
    }
    if test(measure, t[i].1) {
      var j :| 0 <= j < |pos| && pos[j] == i;
      assert ValuesOf(r)[j] == t[i].1;
    }
  }

  /** `possible_keys(measure_filter)`: the names of the modes the bit walk keeps. */
  function PossibleKeys(measure: nat): (r: seq<string>)
    ensures var pos := Positions(Selectors(ModeFilters, measure, Survives));
            |r| == |pos| && forall j :: 0 <= j < |r| ==> r[j] == ModeFilters[pos[j]].0
  {
    KeysOf(Candidates(ModeFilters, measure, Survives))
  }

  /** `get_measure_candidate_modes(measure)`: the masks of the modes the bit walk keeps. */
  function MeasureCandidateModes(measure: nat): (r: seq<nat>)
    ensures var pos := Positions(Selectors(ModeFilters, measure, Survives));
            |r| == |pos| && forall j :: 0 <= j < |r| ==> r[j] == ModeFilters[pos[j]].1
  {
    ValuesOf(Candidates(ModeFilters, measure, Survives))
  }

  /** The corrected candidate list: the masks of the modes that contain every pitch class
      of the measure, in table order. */
  function ContainingModes(measure: nat): (r: seq<nat>)
    ensures var pos := Positions(Selectors(ModeFilters, measure, Contains));
            |r| == |pos| && forall j :: 0 <= j < |r| ==> r[j] == ModeFilters[pos[j]].1
  {
    ValuesOf(Candidates(ModeFilters, measure, Contains))
  }

  /** When every entry passes, the candidate list is the whole table. */
  lemma CandidatesAll(t: Table<string, nat>, measure: nat, test: (nat, nat) -> bool)
    requires forall i :: 0 <= i < |t| ==> test(measure, t[i].1)
    ensures Candidates(t, measure, test) == t
  {
    var pos := Positions(Selectors(t, measure, test));
    var all := seq(|t|, i requires 0 <= i < |t| => i);
    forall x ensures x in pos <==> x in all {
      if x in all {
        assert all[x] == x;
      }
      if x in pos {
        var j :| 0 <= j < |pos| && pos[j] == x;
        assert all[x] == x;
      }
    }
    IncreasingUnique(pos, all);
  }

  /** A measure with no notes keeps all 36 modes, in table order, under both tests. */
  lemma ZeroMaskKeepsAll()
    ensures PossibleKeys(0) == KeysOf(ModeFilters)
    ensures MeasureCandidateModes(0) == ValuesOf(ModeFilters)
    ensures ContainingModes(0) == ValuesOf(ModeFilters)
  {
    forall filter: nat ensures Contains(0, filter) {
    }
    CandidatesAll(ModeFilters, 0, Survives);
    CandidatesAll(ModeFilters, 0, Contains);
  }

  /** The bit walk keeps the `j`-th mode exactly when the measure's bits up to the mode
      mask's highest set bit all lie in the mode. */
  lemma MeasureCandidateModesIff(measure: nat, i: nat)
    requires i < 36
    ensures ModeFilters[i].1 in MeasureCandidateModes(measure) <==> SubsetBelowBitLen(measure, ModeFilters[i].1)
  {
    ModeFiltersDistinct();
    CandidatesMember(ModeFilters, measure, Survives, i);
    SurvivesIff(measure, ModeFilters[i].1);
  }

  /** Pitch class `p` is in the mask: bit `11 - p` is set. */
  predicate HasPitch(mask: nat, p: PitchClass)
  {
    Bit(mask, 11 - p)
  }

  /** Pitch class `p` is in scale `f` (major, harmonic minor, melodic minor for `f` = 0,
      1, 2) on root `k`. */
  predicate InScale(f: nat, k: PitchClass, p: PitchClass)
    requires f < |Shapes|
  {
    (p - k) % 12 in Shapes[f]
  }

  /** Containment in a 12-bit mask, pitch class by pitch class: the measure must itself be
      a 12-bit mask. */
  lemma ContainsPitches(measure: nat, mask: nat)
    requires mask < 4096
    ensures Contains(measure, mask) <==>
            measure < 4096 && forall p: PitchClass :: HasPitch(measure, p) ==> HasPitch(mask, p)
  {
    ContainsIff(measure, mask);
    Pow2Table();
    BitLenBound(mask, 12);
    if Contains(measure, mask) {
      if measure >= 4096 {
        TopBitSet(measure);
        assert BitLen(measure) > 12 by {
          if BitLen(measure) <= 12 {
            Pow2Monotone(BitLen(measure), 12);
          }
        }
        BitsBelowBitLen(mask, BitLen(measure) - 1);
      }
      forall p: PitchClass | HasPitch(measure, p) ensures HasPitch(mask, p) {
        assert Bit(measure, 11 - p);
      }
    } else if measure < 4096 {
      var b: nat :| Bit(measure, b) && !Bit(mask, b);
      if b >= 12 {
        BitLenBound(measure, 12);
        BitsBelowBitLen(measure, b);
      }
      var p: PitchClass := 11 - b;
      assert HasPitch(measure, p) && !HasPitch(mask, p);
    }
  }

  /** The corrected list keeps mode `f` on root `k` exactly when the measure is a 12-bit
      mask and every pitch class it sounds lies in that scale. */
  lemma ContainingModesIff(measure: nat, f: nat, k: PitchClass)
    requires f < 3
    ensures ModeFilters[12 * f + k].1 in ContainingModes(measure) <==>
            measure < 4096 && forall p: PitchClass :: HasPitch(measure, p) ==> InScale(f, k, p)
  {
    var i := 12 * f + k;
    var mask := ModeFilters[i].1;
    ModeFiltersDistinct();
    CandidatesMember(ModeFilters, measure, Contains, i);
    ModeFilterScale(f, k, 0);
    ContainsPitches(measure, mask);
    forall p: PitchClass ensures HasPitch(mask, p) <==> InScale(f, k, p) {
      ModeFilterScale(f, k, p);
    }
  }

  /** For a 12-bit measure mask the two lists agree on every mode that has C. */
  lemma ListsAgreeOnModesWithC(measure: nat, i: nat)
    requires measure < 4096 && i < 36 && Bit(ModeFilters[i].1, 11)
    ensures ModeFilters[i].1 in MeasureCandidateModes(measure) <==> ModeFilters[i].1 in ContainingModes(measure)
  {
    ModeFiltersDistinct();
    CandidatesMember(ModeFilters, measure, Survives, i);
    CandidatesMember(ModeFilters, measure, Contains, i);
    ModeWithCRange(i);
    ContainsAndSurvives(measure, ModeFilters[i].1);
  }

  /** A mode mask with C set has its top bit set and nothing above it. */
  lemma ModeWithCRange(i: nat)
    requires i < 36 && Bit(ModeFilters[i].1, 11)
    ensures 2048 <= ModeFilters[i].1 < 4096
  {
    var mask := ModeFilters[i].1;
    Block(i);
    if i < 12 { MajorModeScale(i, 0); }
    else if i < 24 { HarmonicMinorModeScale(i - 12, 0); }
    else { MelodicMinorModeScale(i - 24, 0); }
    assert mask >= 2048 by {
      Pow2Table();
      if mask < 2048 {
        BitLenBound(mask, 11);
        BitsBelowBitLen(mask, 11);
      }
    }
  }

  // ---------------------------------------------------------------------------
  // Flattening two tracks (gp_to_kivy.py:485-489)
  // ---------------------------------------------------------------------------

  /** `for track1, track2 in zip(*keys): append(track1 | track2)`. `zip` stops at the
      shortest track and yields nothing for no tracks; unpacking a tuple that is not a
      pair raises, but only once a tuple is produced. */
  function FlattenKeySigs(keys: seq<seq<nat>>): (r: Result<seq<nat>>)
    ensures r.Err? <==> |keys| != 2 && |keys| > 0 && forall t :: 0 <= t < |keys| ==> |keys[t]| > 0
    ensures r.Err? ==> r.error == ValueError
    ensures r.Ok? && |keys| != 2 ==> r.value == []
    ensures r.Ok? && |keys| == 2 ==>
              |r.value| == (if |keys[0]| < |keys[1]| then |keys[0]| else |keys[1]|) &&
              forall j, i: nat :: 0 <= j < |r.value| ==> (Bit(r.value[j], i) <==> Bit(keys[0][j], i) || Bit(keys[1][j], i))
  {
    if |keys| == 0 || exists t :: 0 <= t < |keys| && |keys[t]| == 0 then Ok([])
    else if |keys| != 2 then Err(ValueError)
    else
      var n := if |keys[0]| < |keys[1]| then |keys[0]| else |keys[1]|;
      var r := seq(n, j requires 0 <= j < n => Or(keys[0][j], keys[1][j]));
      assert forall j, i: nat :: 0 <= j < n ==> (Bit(r[j], i) <==> Bit(keys[0][j], i) || Bit(keys[1][j], i)) by {
        forall j, i: nat | 0 <= j < n ensures Bit(r[j], i) <==> Bit(keys[0][j], i) || Bit(keys[1][j], i) {
          OrBit(keys[0][j], keys[1][j], i);
        }
      }
      Ok(r)
  }

  /** Flattening 12-bit masks gives 12-bit masks. */
  lemma FlattenKeySigsBound(keys: seq<seq<nat>>)
    requires forall t, j :: 0 <= t < |keys| && 0 <= j < |keys[t]| ==> keys[t][j] < 4096
    ensures FlattenKeySigs(keys).Ok? ==> forall j :: 0 <= j < |FlattenKeySigs(keys).value| ==> FlattenKeySigs(keys).value[j] < 4096
  {
    Pow2Table();
    if FlattenKeySigs(keys).Ok? && |keys| == 2 {
      var r := FlattenKeySigs(keys).value;
      forall j | 0 <= j < |r| ensures r[j] < 4096 {
        OrBound(keys[0][j], keys[1][j], 12);
      }
    }
  }
}

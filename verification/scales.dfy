/** Scales as 12-bit pitch-class masks: pitch class `p` (0 = C, ..., 11 = B) is bit
    `11 - p`, so C is the highest of twelve bits and B the lowest. A scale is a shape (its
    semitone offsets above the root) moved up to a root by rotating the mask. */
module Scales {
  import opened PyCore
  import opened Bits
  import opened Pitch

  /** Semitone offsets above the root of the major, harmonic minor and melodic minor
      scales, in the order `mode_filters` lists its three runs. */
  const MajorShape: seq<PitchClass> := [0, 2, 4, 5, 7, 9, 11]
  const HarmonicMinorShape: seq<PitchClass> := [0, 2, 3, 5, 7, 8, 11]
  const MelodicMinorShape: seq<PitchClass> := [0, 2, 3, 5, 7, 9, 11]
  const Shapes: seq<seq<PitchClass>> := [MajorShape, HarmonicMinorShape, MelodicMinorShape]

  predicate Increasing(cs: seq<PitchClass>)
  {
    forall i, j :: 0 <= i < j < |cs| ==> cs[i] < cs[j]
  }

  /** Increasing step by step is increasing throughout. */
  lemma IncreasingBySteps(cs: seq<PitchClass>)
    requires forall i :: 0 <= i < |cs| - 1 ==> cs[i] < cs[i + 1]
    ensures Increasing(cs)
  {
    forall i, j | 0 <= i < j < |cs| ensures cs[i] < cs[j] {
      var k := i + 1;
      while k < j
        invariant i < k <= j && cs[i] < cs[k]
        decreases j - k
      {
        k := k + 1;
      }
    }
  }

  lemma IncreasingRest(cs: seq<PitchClass>)
    requires |cs| > 0 && Increasing(cs)
    ensures Increasing(cs[1..])
  {
    forall i, j | 0 <= i < j < |cs| - 1 ensures cs[1..][i] < cs[1..][j] {
      assert cs[1..][i] == cs[i + 1] && cs[1..][j] == cs[j + 1];
    }
  }

  /** The three shapes climb. */
  lemma ShapesIncreasing()
    ensures Increasing(MajorShape) && Increasing(HarmonicMinorShape) && Increasing(MelodicMinorShape)
  {
    IncreasingBySteps(MajorShape);
    IncreasingBySteps(HarmonicMinorShape);
    IncreasingBySteps(MelodicMinorShape);
  }

  /** The mask of a set of pitch classes. */
  function MaskOf(cs: seq<PitchClass>): nat
  {
    if |cs| == 0 then 0 else Pow2(11 - cs[0]) + MaskOf(cs[1..])
  }

  /** The mask of distinct pitch classes has exactly their bits, one each. */
  lemma MaskOfBits(cs: seq<PitchClass>)
    requires Increasing(cs)
    ensures MaskOf(cs) < Pow2(12)
    ensures forall i :: 0 <= i < 12 ==> (Bit(MaskOf(cs), i) <==> 11 - i in cs)
    ensures Popcount(MaskOf(cs)) == |cs|
  {
    MaskOfBound(cs);
    if |cs| > 0 {
      Pow2Monotone(12 - cs[0] as int, 12);
    }
    forall i | 0 <= i < 12 ensures Bit(MaskOf(cs), i) <==> 11 - i in cs {
      MaskOfBit(cs, i);
    }
    MaskOfPopcount(cs);
  }

  /** The mask lies below the bit just above its lowest pitch class's. */
  lemma {:induction false} MaskOfBound(cs: seq<PitchClass>)
    requires Increasing(cs)
    ensures MaskOf(cs) < if |cs| == 0 then 1 else Pow2(12 - cs[0] as int)
    decreases |cs|
  {
    if |cs| > 0 {
      var c := cs[0];
      var rest := cs[1..];
      IncreasingRest(cs);
      MaskOfBound(rest);
      if |rest| > 0 {
        Pow2Monotone(12 - rest[0] as int, 11 - c);
      }
    }
  }

  lemma {:induction false} MaskOfBit(cs: seq<PitchClass>, i: nat)
    requires Increasing(cs) && i < 12
    ensures Bit(MaskOf(cs), i) <==> 11 - i in cs
    decreases |cs|
  {
    if |cs| == 0 {
      NoBitsOfZero(i);
    } else {
      var c := cs[0];
      var rest := cs[1..];
      IncreasingRest(cs);
      var m := MaskOf(rest);
      RestBelowHead(cs);
      assert MaskOf(cs) == 1 * Pow2(11 - c) + m;
      BitConcat(MaskOf(cs), 1, m, 11 - c, i);
      if i >= 11 - c {
        Pow2Bit(0, i - (11 - c));
        assert 11 - i !in rest;
      } else {
        MaskOfBit(rest, i);
        assert 11 - i != c;
      }
    }
  }

  lemma {:induction false} MaskOfPopcount(cs: seq<PitchClass>)
    requires Increasing(cs)
    ensures Popcount(MaskOf(cs)) == |cs|
    decreases |cs|
  {
    if |cs| > 0 {
      var c := cs[0];
      var rest := cs[1..];
      IncreasingRest(cs);
      var m := MaskOf(rest);
      RestBelowHead(cs);
      MaskOfPopcount(rest);
      assert MaskOf(cs) == 1 * Pow2(11 - c) + m;
      PopcountConcat(MaskOf(cs), 1, m, 11 - c);
      assert Popcount(1) == 1 by {
        assert Popcount(0) == 0;
      }
    }
  }

  /** The mask of the pitch classes above the lowest lies below the lowest's bit. */
  lemma RestBelowHead(cs: seq<PitchClass>)
    requires |cs| > 0 && Increasing(cs)
    ensures MaskOf(cs[1..]) < Pow2(11 - cs[0])
  {
    var rest := cs[1..];
    IncreasingRest(cs);
    MaskOfBound(rest);
    if |rest| > 0 {
      assert rest[0] == cs[1] && cs[0] < cs[1];
      Pow2Monotone(12 - rest[0] as int, 11 - cs[0]);
    }
  }

  /** `x`'s twelve pitch classes moved up `k` semitones: bit `11 - p` moves to bit
      `11 - (p + k) % 12`, i.e. the twelve bits rotate right by `k`. */
  function Transpose(x: nat, k: nat): nat
    requires k <= 12
  {
    var d := Pow2(k);
    DivNat(x, d);
    var lo: nat := x % d;
    var s: nat := Pow2(12 - k);
    MulMonotone(0, lo, s);
    lo * s + x / d
  }

  /** The two halves a transposition swaps: the low `k` bits and the high `12 - k`. */
  lemma TransposeParts(x: nat, k: nat) returns (lo: nat, hi: nat)
    requires x < Pow2(12) && k < 12
    ensures lo < Pow2(k) && hi < Pow2(12 - k)
    ensures x == hi * Pow2(k) + lo
    ensures Transpose(x, k) == lo * Pow2(12 - k) + hi
  {
    DivNat(x, Pow2(k));
    lo := x % Pow2(k);
    hi := x / Pow2(k);
    DivPow2Bound(x, k, 12 - k);
  }

  /** Transposing keeps a mask within twelve bits, rotates its bits, and keeps its count. */
  lemma TransposeBits(x: nat, k: nat)
    requires x < Pow2(12) && k < 12
    ensures Transpose(x, k) < Pow2(12)
    ensures forall i :: 0 <= i < 12 ==> (Bit(Transpose(x, k), i) <==> Bit(x, (i + k) % 12))
    ensures Popcount(Transpose(x, k)) == Popcount(x)
  {
    var lo, hi := TransposeParts(x, k);
    TransposeBound(lo, hi, k);
    TransposeRotates(x, k);
    TransposeCount(x, k);
  }

  lemma TransposeRotates(x: nat, k: nat)
    requires x < Pow2(12) && k < 12
    ensures forall i :: 0 <= i < 12 ==> (Bit(Transpose(x, k), i) <==> Bit(x, (i + k) % 12))
  {
    var lo, hi := TransposeParts(x, k);
    forall i | 0 <= i < 12 ensures Bit(Transpose(x, k), i) <==> Bit(x, (i + k) % 12) {
      TransposeBit(Transpose(x, k), x, lo, hi, k, i);
    }
  }

  lemma TransposeCount(x: nat, k: nat)
    requires x < Pow2(12) && k < 12
    ensures Popcount(Transpose(x, k)) == Popcount(x)
  {
    var lo, hi := TransposeParts(x, k);
    PopcountConcat(Transpose(x, k), lo, hi, 12 - k);
    PopcountConcat(x, hi, lo, k);
  }

  lemma TransposeBound(lo: nat, hi: nat, k: nat)
    requires k < 12 && lo < Pow2(k) && hi < Pow2(12 - k)
    ensures lo * Pow2(12 - k) + hi < Pow2(12)
  {
    Pow2Add(k, 12 - k);
    MulBelow(lo, hi, Pow2(k), Pow2(12 - k));
  }

  /** Bit `i` of the swapped halves is bit `(i + k) % 12` of the original. */
  lemma TransposeBit(t: nat, x: nat, lo: nat, hi: nat, k: nat, i: nat)
    requires k < 12 && i < 12 && lo < Pow2(k) && hi < Pow2(12 - k)
    requires t == lo * Pow2(12 - k) + hi && x == hi * Pow2(k) + lo
    ensures Bit(t, i) <==> Bit(x, (i + k) % 12)
  {
    BitConcat(t, lo, hi, 12 - k, i);
    if i < 12 - k {
      ModOfMultiple(0, i + k, 12);
      BitConcat(x, hi, lo, k, i + k);
    } else {
      ModOfMultiple(1, i + k - 12, 12);
      BitConcat(x, hi, lo, k, i + k - 12);
    }
  }

  lemma MajorMask()
    ensures MaskOf(MajorShape) == 2773
  {
    Pow2Table();
  }

  /** The major scale on root `k`: seven pitch classes, `p` among them iff `p - k` is one of
      the shape's offsets. */
  lemma MajorScale(k: PitchClass, p: PitchClass)
    ensures Transpose(2773, k) < 4096 && Popcount(Transpose(2773, k)) == 7
    ensures Bit(Transpose(2773, k), 11 - p) <==> (p - k) % 12 in MajorShape
  {
    MajorMask();
    ShapesIncreasing();
    ShapeScaleBits(MajorShape, k, p);
  }

  lemma HarmonicMinorMask()
    ensures MaskOf(HarmonicMinorShape) == 2905
  {
    Pow2Table();
  }

  /** The harmonic minor scale on root `k`: seven pitch classes, `p` among them iff `p - k` is one of
      the shape's offsets. */
  lemma HarmonicMinorScale(k: PitchClass, p: PitchClass)
    ensures Transpose(2905, k) < 4096 && Popcount(Transpose(2905, k)) == 7
    ensures Bit(Transpose(2905, k), 11 - p) <==> (p - k) % 12 in HarmonicMinorShape
  {
    HarmonicMinorMask();
    ShapesIncreasing();
    ShapeScaleBits(HarmonicMinorShape, k, p);
  }

  lemma MelodicMinorMask()
    ensures MaskOf(MelodicMinorShape) == 2901
  {
    Pow2Table();
  }

  /** The melodic minor scale on root `k`: seven pitch classes, `p` among them iff `p - k` is one of
      the shape's offsets. */
  lemma MelodicMinorScale(k: PitchClass, p: PitchClass)
    ensures Transpose(2901, k) < 4096 && Popcount(Transpose(2901, k)) == 7
    ensures Bit(Transpose(2901, k), 11 - p) <==> (p - k) % 12 in MelodicMinorShape
  {
    MelodicMinorMask();
    ShapesIncreasing();
    ShapeScaleBits(MelodicMinorShape, k, p);
  }

  /** A scale mask holds exactly the scale's pitch classes: pitch class `p` is in the
      shape moved up to root `k` iff `p` lies a shape offset above `k`. */
  lemma ShapeScaleBits(shape: seq<PitchClass>, k: PitchClass, p: PitchClass)
    requires Increasing(shape)
    ensures Transpose(MaskOf(shape), k) < 4096 && Popcount(Transpose(MaskOf(shape), k)) == |shape|
    ensures Bit(Transpose(MaskOf(shape), k), 11 - p) <==> (p - k) % 12 in shape
  {
    MaskOfBits(shape);
    TransposeBits(MaskOf(shape), k);
    RotateIndex(p, k);
    Pow2Table();
  }

  /** Bit `11 - p` of a mask moved up `k` semitones comes from pitch class `p - k`. */
  lemma RotateIndex(p: PitchClass, k: PitchClass)
    ensures (11 - p + k) % 12 == 11 - (p - k) % 12
  {
    var d := (p - k) % 12;
    ModOfMultiple(-((p - k) / 12), 11 - d, 12);
  }
}

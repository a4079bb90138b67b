/** The small subset of x86 CPU features SiliFuzz tracks, and their bit masks. */
module CpuFeatures {

  /** X86CPUFeatures, in declaration order (kBegin aliases the first one). */
  datatype X86CPUFeature = AMX_TILE | AVX | AVX512BW | AVX512F | OSXSAVE | SSE | SSE4_2 | XSAVE

  /** static_cast<int>(kBegin) */
  const kBegin: nat := 0
  /** static_cast<int>(kEnd): one past the last valid feature. */
  const kEnd: nat := 8

  /** The enum ordinal of a feature. */
  function Ordinal(f: X86CPUFeature): (n: nat)
    ensures kBegin <= n < kEnd
  {
    match f
    case AMX_TILE => 0
    case AVX => 1
    case AVX512BW => 2
    case AVX512F => 3
    case OSXSAVE => 4
    case SSE => 5
    case SSE4_2 => 6
    case XSAVE => 7
  }

  /** The feature with a given ordinal, inverse of Ordinal. */
  function FromOrdinal(n: nat): (f: X86CPUFeature)
    requires kBegin <= n < kEnd
    ensures Ordinal(f) == n
  {
    [AMX_TILE, AVX, AVX512BW, AVX512F, OSXSAVE, SSE, SSE4_2, XSAVE][n]
  }

  /** Ordinals are consecutive from kBegin == AMX_TILE up to kEnd, with no gaps or repeats. */
  lemma OrdinalsConsecutive()
    ensures Ordinal(AMX_TILE) == kBegin == 0
    ensures kEnd == Ordinal(XSAVE) + 1
    ensures forall f: X86CPUFeature :: FromOrdinal(Ordinal(f)) == f
    ensures forall f: X86CPUFeature, g: X86CPUFeature :: Ordinal(f) == Ordinal(g) ==> f == g
  {
    forall f: X86CPUFeature ensures FromOrdinal(Ordinal(f)) == f {
      match f
      case AMX_TILE =>
      case AVX =>
      case AVX512BW =>
      case AVX512F =>
      case OSXSAVE =>
      case SSE =>
      case SSE4_2 =>
      case XSAVE =>
    }
  }

  /** The static_assert: the shift in X86CPUFeatureBitmask stays inside a uint64_t. */
  lemma EndFitsInUint64()
    ensures kEnd < 64
  {
  }

  /** Bit `i` of a 64-bit word. */
  predicate BitSet(w: bv64, i: nat)
    requires i < 64
  {
    (w >> i) & 1 == 1
  }

  /** X86CPUFeatureBitmask: `uint64_t{1} << ordinal(feature)`. */
  function X86CPUFeatureBitmask(f: X86CPUFeature): (m: bv64)
    ensures forall i: nat | i < 64 :: BitSet(m, i) <==> i == Ordinal(f)
  {
    (1 as bv64) << Ordinal(f)
  }

  /** Masks of distinct features are distinct and share no bit. */
  lemma BitmasksDisjoint(f: X86CPUFeature, g: X86CPUFeature)
    requires f != g
    ensures X86CPUFeatureBitmask(f) & X86CPUFeatureBitmask(g) == 0
    ensures X86CPUFeatureBitmask(f) != X86CPUFeatureBitmask(g)
  {
    OrdinalsConsecutive();
    var mf, mg := X86CPUFeatureBitmask(f), X86CPUFeatureBitmask(g);
    assert Ordinal(f) != Ordinal(g);
    assert BitSet(mf, Ordinal(f)) && !BitSet(mg, Ordinal(f));
  }
}

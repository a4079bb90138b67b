/** Turning a raw instruction sequence into a Snapshot: where the code goes, what the
    initial registers and mappings are, where execution is expected to end, and the
    snapshot id. CityHash64, SHA-1, the static instruction filter and the trap filler are
    not part of this model and are parameters. */
module RawInsnsUtil {
  import opened Common
  import opened ProxyConfig
  import opened Snapshots

  /** The address of the Snap exit sequence; no code may start there. */
  const kSnapExitAddress: u64 := 0xABCD0000

  // ---------------------------------------------------------------------------
  // Bitwise AND on naturals
  // ---------------------------------------------------------------------------

  /** `a & b` on unsigned integers, bit by bit from the least significant one. */
  function BitAnd(a: nat, b: nat): nat
    decreases a
  {
    if a == 0 || b == 0 then 0
    else 2 * BitAnd(a / 2, b / 2) + (if a % 2 == 1 && b % 2 == 1 then 1 else 0)
  }

  /** `a & b` never exceeds either operand. */
  lemma {:induction false} BitAndBounded(a: nat, b: nat)
    ensures BitAnd(a, b) <= a && BitAnd(a, b) <= b
    decreases a
  {
    if a != 0 && b != 0 {
      BitAndBounded(a / 2, b / 2);
    }
  }

  function Pow2(k: nat): (p: nat)
    ensures p >= 1
  {
    if k == 0 then 1 else 2 * Pow2(k - 1)
  }

  predicate IsPowerOfTwo(n: nat) {
    exists k: nat :: k < n && Pow2(k) == n
  }

  lemma Pow2Above(k: nat)
    ensures k < Pow2(k)
  {
  }

  lemma {:induction false} BitAndSelf(a: nat)
    ensures BitAnd(a, a) == a
    decreases a
  {
    if a != 0 { BitAndSelf(a / 2); }
  }

  /** For n > 0, `n & (n - 1) == 0` holds exactly when n is a power of two. */
  lemma {:induction false} PowerOfTwoTest(n: nat)
    requires n > 0
    ensures BitAnd(n, n - 1) == 0 <==> IsPowerOfTwo(n)
    decreases n
  {
    if n == 1 {
      assert Pow2(0) == 1;
    } else if n % 2 == 0 {
      var m := n / 2;
      assert (n - 1) / 2 == m - 1 && (n - 1) % 2 == 1;
      assert BitAnd(n, n - 1) == 2 * BitAnd(m, m - 1);
      PowerOfTwoTest(m);
      if IsPowerOfTwo(m) {
        var k: nat :| k < m && Pow2(k) == m;
        assert Pow2(k + 1) == n;
      }
      if IsPowerOfTwo(n) {
        var k: nat :| k < n && Pow2(k) == n;
        assert k > 0;
        Pow2Above(k - 1);
        assert Pow2(k - 1) == m;
      }
    } else {
      var m := n / 2;
      assert m > 0 && (n - 1) / 2 == m && (n - 1) % 2 == 0;
      BitAndSelf(m);
      assert BitAnd(n, n - 1) == 2 * m;
      forall k: nat | k < n
        ensures Pow2(k) != n
      {
        Pow2Even(k);
      }
    }
  }

  lemma Pow2Even(k: nat)
    ensures k > 0 ==> Pow2(k) % 2 == 0
  {
  }

  /** The k low bits of h, read off one at a time. */
  function LowBits(h: nat, k: nat): nat
  {
    if k == 0 || h == 0 then 0 else 2 * LowBits(h / 2, k - 1) + h % 2
  }

  /** With a mask of k low ones, `&` keeps the remainder modulo 2^k. */
  lemma BitAndLowMask(h: nat, k: nat)
    ensures BitAnd(h, Pow2(k) - 1) == h % Pow2(k)
  {
    BitAndIsLowBits(h, k);
    LowBitsIsMod(h, k);
  }

  lemma {:induction false} BitAndIsLowBits(h: nat, k: nat)
    ensures BitAnd(h, Pow2(k) - 1) == LowBits(h, k)
    decreases k
  {
    if k > 0 && h != 0 {
      BitAndLowMaskStep(h, k);
      BitAndIsLowBits(h / 2, k - 1);
    }
  }

  lemma {:induction false} LowBitsIsMod(h: nat, k: nat)
    ensures LowBits(h, k) == h % Pow2(k)
    decreases k
  {
    if k > 0 && h != 0 {
      LowBitsIsMod(h / 2, k - 1);
      ModDoublePow2(h, k);
    }
  }

  /** One bit of the mask: the low bit of `h` survives and the rest is masked by 2^(k-1) - 1. */
  lemma BitAndLowMaskStep(h: nat, k: nat)
    requires h != 0 && k > 0
    ensures BitAnd(h, Pow2(k) - 1) == 2 * BitAnd(h / 2, Pow2(k - 1) - 1) + h % 2
  {
    var m := Pow2(k) - 1;
    assert m / 2 == Pow2(k - 1) - 1 && m % 2 == 1;
  }

  /** ModDouble for a power of two. */
  lemma ModDoublePow2(h: nat, k: nat)
    requires k > 0
    ensures h % Pow2(k) == 2 * ((h / 2) % Pow2(k - 1)) + h % 2
  {
    ModDouble(h, Pow2(k - 1));
  }

  /** h mod 2p from h/2 mod p and the low bit. */
  lemma ModDouble(h: nat, p: nat)
    requires p > 0
    ensures h % (2 * p) == 2 * ((h / 2) % p) + h % 2
  {
    var q := (h / 2) / p;
    var r := (h / 2) % p;
    assert h / 2 == q * p + r;
    assert h == q * (2 * p) + (2 * r + h % 2);
    assert 0 <= 2 * r + h % 2 < 2 * p;
    DivModUnique(h, 2 * p, q, 2 * r + h % 2);
  }

  /** Euclidean division has exactly one quotient and remainder. */
  lemma DivModUnique(x: nat, d: nat, q: nat, r: nat)
    requires d > 0 && 0 <= r < d && x == q * d + r
    ensures x % d == r && x / d == q
  {
    var c := q - x / d;
    assert x % d - r == c * d;
    MulSign(c, d);
  }

  lemma MulSign(c: int, d: int)
    requires d > 0
    ensures c >= 1 ==> c * d >= d
    ensures c <= -1 ==> c * d <= -d
  {
  }

  /** A multiple of d leaves no remainder. */
  lemma MultipleMod(q: nat, d: nat)
    requires d > 0
    ensures (q * d) % d == 0
  {
    DivModUnique(q * d, d, q, 0);
  }

  // ---------------------------------------------------------------------------
  // Code address derivation
  // ---------------------------------------------------------------------------

  /** The CHECKs HashToCodeAddress makes: start and size aligned to the granularity, size a
      power of two in the `n & (n - 1) == 0` sense (which 0 also passes). */
  predicate CodeRangeChecksPass(start: u64, numBytes: u64, granularity: u64) {
    && granularity > 0
    && start % granularity == 0
    && numBytes % granularity == 0
    && BitAnd(numBytes, SubU64(numBytes, 1)) == 0
  }

  /** HashToCodeAddress exactly as written: the mask `num_bytes / granularity - 1` and the
      final sum are uint64 arithmetic. */
  function HashToCodeAddressAsWritten(hash: u64, start: u64, numBytes: u64, granularity: u64): u64
    requires CodeRangeChecksPass(start, numBytes, granularity)
  {
    var mask := SubU64(numBytes / granularity, 1);
    AddU64(start, MulU64(BitAnd(hash, mask) % TWO_64, granularity))
  }

  /** An empty code range passes every CHECK, yet the mask wraps to all ones and the derived
      address lies outside the (empty) range. */
  lemma ZeroSizedRangeEscapes()
    ensures CodeRangeChecksPass(0, 0, 4096)
    ensures HashToCodeAddressAsWritten(1, 0, 0, 4096) == 4096
  {
    assert SubU64(0, 1) == TWO_64 - 1;
    assert BitAnd(0, TWO_64 - 1) == 0;
    assert BitAnd(1, TWO_64 - 1) == 1;
  }

  /** A code range the derivation can use: it passes the CHECKs and is not empty. */
  predicate ValidCodeRange(start: u64, numBytes: u64, granularity: u64) {
    && CodeRangeChecksPass(start, numBytes, granularity)
    && numBytes > 0
  }

  /** HashToCodeAddress: the start plus a granularity multiple below the range size, chosen
      by the low bits of the hash (uint64 addition, so a range running past 2^64 wraps). */
  function HashToCodeAddress(hash: u64, start: u64, numBytes: u64, granularity: u64): (addr: u64)
    requires ValidCodeRange(start, numBytes, granularity)
    ensures SubU64(addr, start) < numBytes && SubU64(addr, start) % granularity == 0
    ensures start + numBytes <= TWO_64 ==> start <= addr < start + numBytes && addr % granularity == 0
    ensures addr == HashToCodeAddressAsWritten(hash, start, numBytes, granularity)
  {
    var offset := BitAnd(hash, numBytes / granularity - 1);
    HashOffsetFacts(hash, start, numBytes, granularity, offset, offset * granularity);
    AddU64(start, offset * granularity)
  }

  /** The slot offset the hash selects: a granularity multiple no larger than the last slot,
      so adding it to the start neither leaves the range nor (without wrap) overflows. */
  lemma HashOffsetFacts(hash: u64, start: u64, numBytes: u64, granularity: u64, offset: nat, x: nat)
    requires ValidCodeRange(start, numBytes, granularity)
    requires offset == BitAnd(hash, numBytes / granularity - 1) && x == offset * granularity
    ensures x <= numBytes - granularity && x % granularity == 0
    ensures SubU64(AddU64(start, x), start) == x
    ensures start + numBytes <= TWO_64 ==> AddU64(start, x) == start + x && (start + x) % granularity == 0
    ensures AddU64(start, x) == HashToCodeAddressAsWritten(hash, start, numBytes, granularity)
  {
    OffsetBounds(hash, start, numBytes, granularity, offset);
    AddSubU64(start, x);
    AsWrittenValue(hash, start, numBytes, granularity, offset);
  }

  /** The selected slot lies inside the range and keeps the start's alignment. */
  lemma OffsetBounds(hash: u64, start: u64, numBytes: u64, granularity: u64, offset: nat)
    requires ValidCodeRange(start, numBytes, granularity)
    requires offset == BitAnd(hash, numBytes / granularity - 1)
    ensures offset * granularity <= numBytes - granularity
    ensures (offset * granularity) % granularity == 0 && (start + offset * granularity) % granularity == 0
  {
    SlotsCoverRange(numBytes, granularity);
    BitAndBounded(hash, numBytes / granularity - 1);
    OffsetInRange(start, numBytes, granularity, offset);
  }

  /** Without 64-bit overflow in the product, the source's expression is start + offset. */
  lemma AsWrittenValue(hash: u64, start: u64, numBytes: u64, granularity: u64, offset: nat)
    requires ValidCodeRange(start, numBytes, granularity)
    requires offset == BitAnd(hash, numBytes / granularity - 1) && offset * granularity < TWO_64
    ensures HashToCodeAddressAsWritten(hash, start, numBytes, granularity) == AddU64(start, offset * granularity)
  {
    var slots := numBytes / granularity;
    assert slots >= 1 && SubU64(slots, 1) == slots - 1 by {
      SlotsCoverRange(numBytes, granularity);
    }
    assert offset <= hash by {
      BitAndBounded(hash, slots - 1);
    }
    NoWrapProduct(offset, granularity);
  }

  /** A non-empty range that is a multiple of the granularity holds at least one slot, and
      the last slot starts one granularity before its end. */
  lemma SlotsCoverRange(numBytes: nat, g: nat)
    requires g > 0 && numBytes % g == 0 && numBytes > 0
    ensures numBytes / g >= 1 && (numBytes / g - 1) * g == numBytes - g
  {
    DivModUnique(numBytes, g, numBytes / g, 0);
  }

  /** A slot offset below the slot count stays inside the range and is aligned. */
  lemma OffsetInRange(start: nat, numBytes: nat, g: nat, offset: nat)
    requires g > 0 && numBytes % g == 0 && numBytes > 0 && start % g == 0
    requires offset <= numBytes / g - 1
    ensures offset * g <= numBytes - g
    ensures (offset * g) % g == 0 && (start + offset * g) % g == 0
  {
    SlotsCoverRange(numBytes, g);
    MulMono(offset, numBytes / g - 1, g);
    MultipleMod(offset, g);
    AlignedSum(start, offset, g);
  }

  /** An aligned start plus a multiple of the granularity stays aligned. */
  lemma AlignedSum(start: nat, k: nat, g: nat)
    requires g > 0 && start % g == 0
    ensures (start + k * g) % g == 0
  {
    DivModUnique(start, g, start / g, 0);
    assert start + k * g == (start / g + k) * g;
    MultipleMod(start / g + k, g);
  }

  /** A product that fits in 64 bits is its own uint64 product. */
  lemma NoWrapProduct(x: u64, g: u64)
    requires x * g < TWO_64
    ensures x % TWO_64 == x && MulU64(x % TWO_64, g) == x * g
  {
  }

  lemma MulMono(x: nat, y: nat, g: nat)
    requires x <= y
    ensures x * g <= y * g
  {
  }

  /** Adding then subtracting the same start modulo 2^64 gives back the offset. */
  lemma AddSubU64(a: u64, x: u64)
    ensures SubU64(AddU64(a, x), a) == x
    ensures a + x < TWO_64 ==> AddU64(a, x) == a + x
  {
    if a + x >= TWO_64 {
      assert AddU64(a, x) == a + x - TWO_64;
      assert AddU64(a, x) - a == x - TWO_64;
    }
  }

  /** When the range holds 2^k slots, the slot taken is the hash modulo 2^k. */
  lemma HashPicksSlotModulo(hash: u64, start: u64, numBytes: u64, granularity: u64, k: nat)
    requires ValidCodeRange(start, numBytes, granularity)
    requires numBytes / granularity == Pow2(k)
    ensures SubU64(HashToCodeAddress(hash, start, numBytes, granularity), start)
            == (hash % Pow2(k)) * granularity
  {
    BitAndLowMask(hash, k);
    var offset := BitAnd(hash, Pow2(k) - 1);
    BitAndBounded(hash, Pow2(k) - 1);
    OffsetInRange(start, numBytes, granularity, offset);
    AddSubU64(start, offset * granularity);
  }

  /** InstructionsToCodeAddress: the code address depends on the code only through its hash. */
  function InstructionsToCodeAddress(code: seq<byte>, start: u64, numBytes: u64, granularity: u64,
                                     cityHash: seq<byte> -> u64): (addr: u64)
    requires ValidCodeRange(start, numBytes, granularity)
    ensures SubU64(addr, start) < numBytes && SubU64(addr, start) % granularity == 0
    ensures start + numBytes <= TWO_64 ==> start <= addr < start + numBytes && addr % granularity == 0
  {
    HashToCodeAddress(cityHash(code), start, numBytes, granularity)
  }

  /** Two codes with the same CityHash64 get the same code address. */
  lemma SameHashSameAddress(c1: seq<byte>, c2: seq<byte>, start: u64, numBytes: u64, granularity: u64,
                            cityHash: seq<byte> -> u64)
    requires ValidCodeRange(start, numBytes, granularity)
    requires cityHash(c1) == cityHash(c2)
    ensures InstructionsToCodeAddress(c1, start, numBytes, granularity, cityHash)
         == InstructionsToCodeAddress(c2, start, numBytes, granularity, cityHash)
  {
  }

  // ---------------------------------------------------------------------------
  // Building the snapshot
  // ---------------------------------------------------------------------------

  /** PadToSizeWithTraps: the code followed by trap bytes up to `size`; `trap(i)` is the
      filler byte at offset i. */
  function PadToSizeWithTraps(code: seq<byte>, size: nat, trap: nat -> byte): (padded: seq<byte>)
    requires |code| <= size
    ensures |padded| == size && padded[..|code|] == code
    ensures forall i :: |code| <= i < size ==> padded[i] == trap(i)
  {
    code + seq(size - |code|, i requires 0 <= i < size - |code| => trap(|code| + i))
  }

  /** Snapshot(arch) before anything is added. */
  function EmptySnapshot(arch: Arch): Snapshot {
    Snapshot(arch, "", [], [], match arch
      case X86_64 => X86Regs(ZeroX86GRegs(), ZeroX86FPRegs())
      case AArch64 => AArch64Regs(ZeroAArch64GRegs(), ZeroAArch64FPRegs()), [])
  }

  /** Snapshot::EndState(Snapshot::Endpoint(addr)): an endpoint and nothing recorded yet. */
  function EndStateAt(arch: Arch, addr: u64): EndState {
    EndState(Endpoint(Instruction, addr), EmptySnapshot(arch).registers, [], [], Incomplete)
  }

  const kPaddingSizeBytesX86: nat := 32
  const kPaddingSizeBytesAArch64: nat := 12

  const kInvalidCodeMsg := "code snippet contains problematic instructions."
  const kTooLongMsg := "code snippet + the exit sequence must fit into a single page."
  const kCollisionMsg := "derived code address collides with exit sequence address."
  const kNotMultipleOf4Msg := "code snippet size must be a multiple of 4 to contain complete aarch64 instructions."

  /** InstructionsToSnapshot<X86_64>. */
  method InstructionsToSnapshotX86(code: seq<byte>, config: FuzzingConfigX86,
                                   cityHash: seq<byte> -> u64, filter: seq<byte> -> bool,
                                   trap: nat -> byte)
    returns (r: Result<Snapshot>)
    // The data ranges must be page-aligned (CHECK_EQ) and the code range usable.
    requires config.data1Range.startAddress % PAGE_SIZE == 0 && config.data1Range.numBytes % PAGE_SIZE == 0
    requires config.data2Range.startAddress % PAGE_SIZE == 0 && config.data2Range.numBytes % PAGE_SIZE == 0
    requires ValidCodeRange(config.codeRange.startAddress, config.codeRange.numBytes, PAGE_SIZE)
    ensures !filter(code) ==> r == Err(InvalidArgument, kInvalidCodeMsg)
    ensures filter(code) && |code| > PAGE_SIZE - kPaddingSizeBytesX86 ==> r == Err(InvalidArgument, kTooLongMsg)
    // A code address that lands on the exit sequence is refused.
    ensures && filter(code) && |code| <= PAGE_SIZE - kPaddingSizeBytesX86
            && InstructionsToCodeAddress(code, config.codeRange.startAddress, config.codeRange.numBytes,
                                         PAGE_SIZE, cityHash) == kSnapExitAddress
      ==> r == Err(InvalidArgument, kCollisionMsg)
    ensures r.Ok? <==>
      && filter(code) && |code| <= PAGE_SIZE - kPaddingSizeBytesX86
      && InstructionsToCodeAddress(code, config.codeRange.startAddress, config.codeRange.numBytes,
                                   PAGE_SIZE, cityHash) != kSnapExitAddress
    ensures r.Err? ==> r.code == InvalidArgument
    ensures r.Ok? ==>
      var codeStart := InstructionsToCodeAddress(code, config.codeRange.startAddress,
                                                 config.codeRange.numBytes, PAGE_SIZE, cityHash);
      && r.value.arch == X86_64
      // One code page (XR) holding the padded code at the code start, and one data page (RW).
      && r.value.mappings == [MemoryMapping(codeStart, PAGE_SIZE, XR),
                              MemoryMapping(config.data1Range.startAddress, PAGE_SIZE, RW)]
      && r.value.memoryBytes == [MemoryBytes(codeStart, PadToSizeWithTraps(code, PAGE_SIZE, trap))]
      // Exactly one expected end state: right after the last code byte.
      && r.value.endStates == [EndStateAt(X86_64, AddU64(codeStart, |code|))]
    ensures r.Ok? ==> r.value.registers.X86Regs?
    ensures r.Ok? && r.value.registers.X86Regs? ==>
      (var g := r.value.registers.x86;
       && g.rip == InstructionsToCodeAddress(code, config.codeRange.startAddress,
                                             config.codeRange.numBytes, PAGE_SIZE, cityHash)
       && g.rsp == AddU64(config.data1Range.startAddress, PAGE_SIZE)
       && g.cs == 0x33 && g.ss == 0x2b && g.eflags == 0x202
       && |g.gprs| == 15 && (forall i :: 0 <= i < |g.gprs| ==> g.gprs[i] == 0))
    ensures r.Ok? && r.value.registers.X86Regs? ==>
      (var fp := r.value.registers.x86fp;
       && fp.mxcsr == 0x1f80 && fp.mxcsrMask == 0xffff && fp.fcw == 0x37f
       && |fp.xmm| == 16 && fp.xmm[0] == 0xcafebabe
       && (forall i :: 1 <= i < |fp.xmm| ==> fp.xmm[i] == 0))
  {
    if !filter(code) {
      return Err(InvalidArgument, kInvalidCodeMsg);
    }
    var snapshot := EmptySnapshot(X86_64);
    var pageSize := PAGE_SIZE;

    // Leave room at the end of the code page for the exit sequence.
    if |code| > pageSize - kPaddingSizeBytesX86 {
      return Err(InvalidArgument, kTooLongMsg);
    }

    var codeStartAddr := InstructionsToCodeAddress(code, config.codeRange.startAddress,
                                                   config.codeRange.numBytes, pageSize, cityHash);
    if codeStartAddr == kSnapExitAddress {
      return Err(InvalidArgument, kCollisionMsg);
    }

    var codePageMapping := MemoryMapping(codeStartAddr, pageSize, XR);
    snapshot := snapshot.(mappings := snapshot.mappings + [codePageMapping]);
    var codeWithTraps := code;
    codeWithTraps := PadToSizeWithTraps(codeWithTraps, pageSize, trap);
    snapshot := snapshot.(memoryBytes := snapshot.memoryBytes + [MemoryBytes(codeStartAddr, codeWithTraps)]);

    var dataPageMapping := MemoryMapping(config.data1Range.startAddress, pageSize, RW);
    snapshot := snapshot.(mappings := snapshot.mappings + [dataPageMapping]);

    var gregs := ZeroX86GRegs();
    // The %cs and %ss the kernel sets for user space.
    gregs := gregs.(cs := 0x33);
    gregs := gregs.(ss := 0x2b);
    // IF and the always-set reserved bit 1.
    gregs := gregs.(eflags := 0x202);
    // rsp at the limit of the writable page.
    gregs := gregs.(rsp := AddU64(dataPageMapping.start, pageSize));
    gregs := gregs.(rip := codePageMapping.start);

    var fpregs := ZeroX86FPRegs();
    fpregs := fpregs.(mxcsr := 0x1f80);
    fpregs := fpregs.(mxcsrMask := 0xffff);
    fpregs := fpregs.(fcw := 0x37f);
    fpregs := fpregs.(xmm := fpregs.xmm[0 := 0xcafebabe]);

    snapshot := snapshot.(registers := X86Regs(gregs, fpregs));
    snapshot := snapshot.(endStates := snapshot.endStates + [EndStateAt(X86_64, AddU64(codePageMapping.start, |code|))]);
    return Ok(snapshot);
  }

  /** InstructionsToSnapshot<AArch64>. */
  method InstructionsToSnapshotAArch64(code: seq<byte>, config: FuzzingConfigAArch64,
                                       cityHash: seq<byte> -> u64, filter: (seq<byte>, bool) -> bool,
                                       trap: nat -> byte)
    returns (r: Result<Snapshot>)
    requires ValidCodeRange(config.codeRange.startAddress, config.codeRange.numBytes, PAGE_SIZE)
    ensures |code| % 4 != 0 ==> r == Err(InvalidArgument, kNotMultipleOf4Msg)
    ensures |code| % 4 == 0 && !filter(code, config.sveInstructionsAllowed) ==> r == Err(InvalidArgument, kInvalidCodeMsg)
    ensures && |code| % 4 == 0 && filter(code, config.sveInstructionsAllowed)
            && |code| > PAGE_SIZE - kPaddingSizeBytesAArch64
      ==> r == Err(InvalidArgument, kTooLongMsg)
    ensures && |code| % 4 == 0 && filter(code, config.sveInstructionsAllowed)
            && |code| <= PAGE_SIZE - kPaddingSizeBytesAArch64
            && InstructionsToCodeAddress(code, config.codeRange.startAddress, config.codeRange.numBytes,
                                         PAGE_SIZE, cityHash) == kSnapExitAddress
      ==> r == Err(InvalidArgument, kCollisionMsg)
    ensures r.Ok? <==>
      && |code| % 4 == 0 && filter(code, config.sveInstructionsAllowed)
      && |code| <= PAGE_SIZE - kPaddingSizeBytesAArch64
      && InstructionsToCodeAddress(code, config.codeRange.startAddress, config.codeRange.numBytes,
                                   PAGE_SIZE, cityHash) != kSnapExitAddress
    ensures r.Err? ==> r.code == InvalidArgument
    ensures r.Ok? ==>
      var codeStart := InstructionsToCodeAddress(code, config.codeRange.startAddress,
                                                 config.codeRange.numBytes, PAGE_SIZE, cityHash);
      && r.value.arch == AArch64
      // The code page (XR) with the padded code, then the stack (RW); no data pages.
      && r.value.mappings == [MemoryMapping(codeStart, PAGE_SIZE, XR),
                              MemoryMapping(config.stackRange.startAddress, config.stackRange.numBytes, RW)]
      && r.value.memoryBytes == [MemoryBytes(codeStart, PadToSizeWithTraps(code, PAGE_SIZE, trap))]
      && r.value.endStates == [EndStateAt(AArch64, AddU64(codeStart, |code|))]
    ensures r.Ok? ==> r.value.registers.AArch64Regs? && r.value.registers.armfp == ZeroAArch64FPRegs()
    ensures r.Ok? && r.value.registers.AArch64Regs? ==>
      (var g := r.value.registers.arm;
       var codeStart := InstructionsToCodeAddress(code, config.codeRange.startAddress,
                                                  config.codeRange.numBytes, PAGE_SIZE, cityHash);
       && |g.x| == 31
       && g.pc == codeStart && g.x[30] == codeStart
       // sp points one past the end of the stack; x6 and x7 hold the data region starts.
       && g.sp == AddU64(config.stackRange.startAddress, config.stackRange.numBytes)
       && g.x[6] == config.data1Range.startAddress && g.x[7] == config.data2Range.startAddress
       && (forall i :: 0 <= i < 31 && i != 6 && i != 7 && i != 30 ==> g.x[i] == 0))
  {
    if |code| % 4 != 0 {
      return Err(InvalidArgument, kNotMultipleOf4Msg);
    }
    if !filter(code, config.sveInstructionsAllowed) {
      return Err(InvalidArgument, kInvalidCodeMsg);
    }
    var snapshot := EmptySnapshot(AArch64);
    var pageSize := PAGE_SIZE;

    if |code| > pageSize - kPaddingSizeBytesAArch64 {
      return Err(InvalidArgument, kTooLongMsg);
    }

    var codeStartAddr := InstructionsToCodeAddress(code, config.codeRange.startAddress,
                                                   config.codeRange.numBytes, pageSize, cityHash);
    if codeStartAddr == kSnapExitAddress {
      return Err(InvalidArgument, kCollisionMsg);
    }

    var codePageMapping := MemoryMapping(codeStartAddr, pageSize, XR);
    snapshot := snapshot.(mappings := snapshot.mappings + [codePageMapping]);
    var codeWithTraps := code;
    codeWithTraps := PadToSizeWithTraps(codeWithTraps, pageSize, trap);
    snapshot := snapshot.(memoryBytes := snapshot.memoryBytes + [MemoryBytes(codeStartAddr, codeWithTraps)]);

    var stackMapping := MemoryMapping(config.stackRange.startAddress, config.stackRange.numBytes, RW);
    snapshot := snapshot.(mappings := snapshot.mappings + [stackMapping]);

    var gregs := ZeroAArch64GRegs();
    // x30 aliases pc because of how the code is entered.
    gregs := gregs.(x := gregs.x[30 := codeStartAddr]);
    gregs := gregs.(pc := codeStartAddr);
    // sp points one past the end of the stack.
    gregs := gregs.(sp := AddU64(config.stackRange.startAddress, config.stackRange.numBytes));
    // Seed the data region addresses in x6 and x7.
    gregs := gregs.(x := gregs.x[6 := config.data1Range.startAddress]);
    gregs := gregs.(x := gregs.x[7 := config.data2Range.startAddress]);

    snapshot := snapshot.(registers := AArch64Regs(gregs, ZeroAArch64FPRegs()));
    snapshot := snapshot.(endStates := snapshot.endStates + [EndStateAt(AArch64, AddU64(codeStartAddr, |code|))]);
    return Ok(snapshot);
  }

  // ---------------------------------------------------------------------------
  // Snapshot id
  // ---------------------------------------------------------------------------

  /** A SHA-1 digest. */
  type Digest = s: seq<byte> | |s| == 20 witness seq(20, _ => 0)

  const HEX_DIGITS: string := "0123456789abcdef"

  /** absl::BytesToHexString: two lower-case hex digits per byte, high nibble first. */
  function BytesToHexString(bytes: seq<byte>): (hex: string)
    ensures |hex| == 2 * |bytes|
    ensures forall i :: 0 <= i < |hex| ==> hex[i] in HEX_DIGITS
  {
    if |bytes| == 0 then []
    else [HEX_DIGITS[bytes[0] / 16], HEX_DIGITS[bytes[0] % 16]] + BytesToHexString(bytes[1..])
  }

  /** The value of a lower-case hex digit. */
  function HexDigitValue(c: char): (d: Option<nat>)
    ensures d.Some? ==> d.value < 16
  {
    if '0' <= c <= '9' then Some(c as int - '0' as int)
    else if 'a' <= c <= 'f' then Some(c as int - 'a' as int + 10)
    else None
  }

  /** Decodes a lower-case hex string into bytes (the inverse of BytesToHexString). */
  function HexStringToBytes(hex: string): Option<seq<byte>>
    decreases |hex|
  {
    if |hex| < 2 then
      if |hex| == 0 then Some([]) else None
    else
      var hi, lo, rest := HexDigitValue(hex[0]), HexDigitValue(hex[1]), HexStringToBytes(hex[2..]);
      if hi.Some? && lo.Some? && rest.Some? then Some([hi.value * 16 + lo.value] + rest.value)
      else None
  }

  lemma HexDigitRoundTrip(d: nat)
    requires d < 16
    ensures HexDigitValue(HEX_DIGITS[d]) == Some(d)
  {
  }

  /** Decoding the two digits of one byte in front of a decodable tail. */
  lemma HexPairDecodes(b: byte, tail: string, rest: seq<byte>)
    requires HexStringToBytes(tail) == Some(rest)
    ensures HexStringToBytes([HEX_DIGITS[b / 16], HEX_DIGITS[b % 16]] + tail) == Some([b] + rest)
  {
    var hex := [HEX_DIGITS[b / 16], HEX_DIGITS[b % 16]] + tail;
    HexDigitRoundTrip(b / 16);
    HexDigitRoundTrip(b % 16);
    assert hex[2..] == tail;
    assert hex[0] == HEX_DIGITS[b / 16] && hex[1] == HEX_DIGITS[b % 16];
  }

  /** Hex encoding is undone by hex decoding. */
  lemma {:induction false} HexRoundTrip(bytes: seq<byte>)
    ensures HexStringToBytes(BytesToHexString(bytes)) == Some(bytes)
  {
    if |bytes| > 0 {
      HexRoundTrip(bytes[1..]);
      HexPairDecodes(bytes[0], BytesToHexString(bytes[1..]), bytes[1..]);
      assert [bytes[0]] + bytes[1..] == bytes;
    }
  }

  /** InstructionsToSnapshotId: the hex SHA-1 of the code, 40 lower-case hex digits that
      decode back to the digest. */
  function InstructionsToSnapshotId(code: seq<byte>, sha1: seq<byte> -> Digest): (id: string)
    ensures |id| == 40
    ensures forall i :: 0 <= i < |id| ==> id[i] in HEX_DIGITS
    ensures HexStringToBytes(id) == Some(sha1(code))
  {
    HexRoundTrip(sha1(code));
    BytesToHexString(sha1(code))
  }

  /** Two codes get the same id exactly when their digests agree. */
  lemma SnapshotIdInjective(c1: seq<byte>, c2: seq<byte>, sha1: seq<byte> -> Digest)
    ensures InstructionsToSnapshotId(c1, sha1) == InstructionsToSnapshotId(c2, sha1) <==> sha1(c1) == sha1(c2)
  {
    var i1, i2 := InstructionsToSnapshotId(c1, sha1), InstructionsToSnapshotId(c2, sha1);
    assert HexStringToBytes(i1) == Some(sha1(c1)) && HexStringToBytes(i2) == Some(sha1(c2));
  }
}

/** The parts of a SiliFuzz Snapshot that the core reads and writes: memory mappings,
    memory bytes, registers and expected end states, plus the MemoryState used to edit
    memory bytes. The full Snapshot class (common/snapshot.h) is not part of this model. */
module Snapshots {
  import opened Common

  /** Snapshot::page_size() on both supported architectures. */
  const PAGE_SIZE: nat := 4096

  datatype Arch = X86_64 | AArch64

  datatype Perms = Perms(readable: bool, writable: bool, executable: bool)

  /** MemoryPerms::XR() and MemoryPerms::RW() */
  const XR: Perms := Perms(true, false, true)
  const RW: Perms := Perms(true, true, false)
  const NONE: Perms := Perms(false, false, false)

  /** A memory mapping [start, start + numBytes) with its permissions (MemoryMapping::MakeSized). */
  datatype MemoryMapping = MemoryMapping(start: u64, numBytes: nat, perms: Perms) {
    function Limit(): int { start + numBytes }
  }

  /** Byte values starting at an address. */
  datatype MemoryBytes = MemoryBytes(start: u64, bytes: seq<byte>) {
    function Limit(): int { start + |bytes| }
    predicate Covers(a: int) { start <= a < Limit() }
  }

  datatype EndpointType = Instruction | Signal

  /** An end state's endpoint: where execution stops and whether it stops at an instruction. */
  datatype Endpoint = Endpoint(kind: EndpointType, instructionAddress: u64)

  // --- registers ----------------------------------------------------------------

  /** x86-64 general registers: the ones SiliFuzz sets, and the fifteen others (rax..r15
      without rsp) in `gprs`. */
  datatype X86GRegs = X86GRegs(rip: u64, rsp: u64, eflags: u64, cs: u64, ss: u64, gprs: seq<u64>)
  /** x86-64 FP control state and the sixteen XMM registers (128-bit values). */
  datatype X86FPRegs = X86FPRegs(fcw: int, mxcsr: int, mxcsrMask: int, xmm: seq<int>)
  /** AArch64 general registers x0..x30, sp and pc. */
  datatype AArch64GRegs = AArch64GRegs(x: seq<u64>, sp: u64, pc: u64)
  /** AArch64 FP control and status registers and the 32 vector registers. */
  datatype AArch64FPRegs = AArch64FPRegs(fpcr: u64, fpsr: u64, v: seq<int>)

  /** Snapshot::RegisterState, kept unserialised. */
  datatype RegisterState =
    | X86Regs(x86: X86GRegs, x86fp: X86FPRegs)
    | AArch64Regs(arm: AArch64GRegs, armfp: AArch64FPRegs)

  /** `UContext<X86_64> current = {}` */
  function ZeroX86GRegs(): X86GRegs { X86GRegs(0, 0, 0, 0, 0, seq(15, _ => 0)) }
  function ZeroX86FPRegs(): X86FPRegs { X86FPRegs(0, 0, 0, seq(16, _ => 0)) }
  /** `UContext<AArch64> uctx = {}` */
  function ZeroAArch64GRegs(): AArch64GRegs { AArch64GRegs(seq(31, _ => 0), 0, 0) }
  function ZeroAArch64FPRegs(): AArch64FPRegs { AArch64FPRegs(0, 0, seq(32, _ => 0)) }

  /** Snapshot::ExtractRip: the instruction pointer (rip or pc). */
  function ExtractRip(r: RegisterState): u64 {
    match r
    case X86Regs(g, _) => g.rip
    case AArch64Regs(g, _) => g.pc
  }

  /** Snapshot::ExtractRsp: the stack pointer (rsp or sp). */
  function ExtractRsp(r: RegisterState): u64 {
    match r
    case X86Regs(g, _) => g.rsp
    case AArch64Regs(g, _) => g.sp
  }

  // --- end states and snapshots -----------------------------------------------------

  datatype PlatformId = UndefinedPlatform | AnyPlatform | Platform(id: nat)

  /** How complete an end state is: fully recorded, recorded as an undefined end state, or
      just an endpoint. */
  datatype Completeness = Complete | UndefinedEndState | Incomplete

  datatype EndState = EndState(
    endpoint: Endpoint,
    registers: RegisterState,
    memoryBytes: seq<MemoryBytes>,
    platforms: seq<PlatformId>,
    completeness: Completeness)
  {
    predicate HasPlatform(p: PlatformId) { p in platforms }
    /** EndState::IsComplete() */
    predicate IsComplete() { completeness == Complete }
    /** EndState::IsComplete(kUndefinedEndState) */
    predicate IsCompleteUndefined() { completeness == UndefinedEndState }
  }

  datatype Snapshot = Snapshot(
    arch: Arch,
    id: string,
    mappings: seq<MemoryMapping>,
    memoryBytes: seq<MemoryBytes>,
    registers: RegisterState,
    endStates: seq<EndState>)
  {
    /** Snapshot::IsCompleteSomeState(): every end state is recorded in one of the two
        complete forms. */
    predicate IsCompleteSomeState() {
      forall i :: 0 <= i < |endStates| ==> !endStates[i].completeness.Incomplete?
    }
  }

  // --- the mapped memory map ------------------------------------------------------

  /** Address `a` lies in one of the mappings. */
  predicate Mapped(ms: seq<MemoryMapping>, a: int) {
    exists i :: 0 <= i < |ms| && ms[i].start <= a < ms[i].Limit()
  }

  /** MappedMemoryMap::Contains(start, limit): every address of [start, limit) is mapped.
      A range whose limit lies below its start (a wrapped limit) is not contained. */
  predicate Contains(ms: seq<MemoryMapping>, start: int, limit: int) {
    start <= limit && forall a :: start <= a < limit ==> Mapped(ms, a)
  }

  /** MappedMemoryMap::PermsAt: the permissions of the first mapping holding `a`. */
  function PermsAt(ms: seq<MemoryMapping>, a: int): Perms {
    if |ms| == 0 then NONE
    else if ms[0].start <= a < ms[0].Limit() then ms[0].perms
    else PermsAt(ms[1..], a)
  }

  // --- memory contents ------------------------------------------------------------

  /** The byte a list of memory bytes gives address `a`: later entries overwrite earlier ones. */
  function ByteAt(list: seq<MemoryBytes>, a: int): Option<byte>
  {
    if |list| == 0 then None
    else
      var b := list[|list| - 1];
      if b.Covers(a) then Some(b.bytes[a - b.start]) else ByteAt(list[..|list| - 1], a)
  }

  /** Appending entries overwrites exactly the addresses the new entries cover. */
  lemma {:induction false} ByteAtAppend(x: seq<MemoryBytes>, y: seq<MemoryBytes>, a: int)
    ensures ByteAt(x + y, a) == if ByteAt(y, a).Some? then ByteAt(y, a) else ByteAt(x, a)
    decreases |y|
  {
    if |y| == 0 {
      assert x + y == x;
    } else {
      var last := y[|y| - 1];
      assert (x + y)[..|x + y| - 1] == x + y[..|y| - 1];
      assert (x + y)[|x + y| - 1] == last;
      ByteAtAppend(x, y[..|y| - 1], a);
    }
  }

  /** One zero-filled entry per mapping (MemoryState::kZeroMappedBytes). */
  function ZeroFill(ms: seq<MemoryMapping>): (list: seq<MemoryBytes>)
    ensures |list| == |ms|
  {
    if |ms| == 0 then [] else ZeroFill(ms[..|ms| - 1]) + [ZeroBlock(ms[|ms| - 1])]
  }

  /** The zero bytes covering one mapping. */
  function ZeroBlock(m: MemoryMapping): MemoryBytes {
    MemoryBytes(m.start, seq(m.numBytes, _ => 0))
  }

  lemma ZeroBlockAt(m: MemoryMapping, a: int)
    ensures ByteAt([ZeroBlock(m)], a) == if m.start <= a < m.Limit() then Some(0) else None
  {
    assert [ZeroBlock(m)][..0] == [];
  }

  /** Zero-filled memory holds a byte, and it is 0, exactly at the mapped addresses. */
  lemma {:induction false} ZeroFillIsMappedZeros(ms: seq<MemoryMapping>, a: int)
    ensures ByteAt(ZeroFill(ms), a) == if Mapped(ms, a) then Some(0) else None
  {
    if |ms| > 0 {
      var init := ms[..|ms| - 1];
      var last := ms[|ms| - 1];
      ZeroFillIsMappedZeros(init, a);
      ByteAtAppend(ZeroFill(init), [ZeroBlock(last)], a);
      ZeroBlockAt(last, a);
      MappedLast(ms, a);
    }
  }

  /** A mapping list maps what its prefix maps and what its last mapping covers. */
  lemma MappedLast(ms: seq<MemoryMapping>, a: int)
    requires |ms| > 0
    ensures Mapped(ms, a) <==> Mapped(ms[..|ms| - 1], a) || ms[|ms| - 1].start <= a < ms[|ms| - 1].Limit()
  {
    var init := ms[..|ms| - 1];
    if Mapped(init, a) {
      var i :| 0 <= i < |init| && init[i].start <= a < init[i].Limit();
      assert ms[i] == init[i];
    }
    if Mapped(ms, a) && !(ms[|ms| - 1].start <= a < ms[|ms| - 1].Limit()) {
      var i :| 0 <= i < |ms| && ms[i].start <= a < ms[i].Limit();
      assert init[i] == ms[i];
    }
  }

  // --- removing an address range ---------------------------------------------------

  /** The part of one entry below s. */
  function TrimBelow(b: MemoryBytes, s: u64): seq<MemoryBytes> {
    if b.start < s && |b.bytes| > 0
    then [MemoryBytes(b.start, b.bytes[..if s - b.start < |b.bytes| then s - b.start else |b.bytes|])]
    else []
  }

  /** The part of one entry from l on. */
  function TrimAbove(b: MemoryBytes, l: u64): seq<MemoryBytes> {
    if l < b.Limit() then
      var from := if l < b.start then b.start else l;
      [MemoryBytes(from, b.bytes[from - b.start..])]
    else []
  }

  /** The parts of one entry outside [s, l): the part below s and the part from l on. */
  function TrimBytes(b: MemoryBytes, s: u64, l: u64): seq<MemoryBytes>
    requires s <= l
  {
    TrimBelow(b, s) + TrimAbove(b, l)
  }

  /** Removes the addresses [s, l) from every entry. */
  function RemoveBytes(list: seq<MemoryBytes>, s: u64, l: u64): seq<MemoryBytes>
    requires s <= l
  {
    if |list| == 0 then [] else RemoveBytes(list[..|list| - 1], s, l) + TrimBytes(list[|list| - 1], s, l)
  }

  /** No entry of the list has an address in [s, l). */
  predicate Avoids(list: seq<MemoryBytes>, s: int, l: int) {
    forall i :: 0 <= i < |list| ==> list[i].Limit() <= s || l <= list[i].start || |list[i].bytes| == 0
  }

  lemma TrimBytesAt(b: MemoryBytes, s: u64, l: u64, a: int)
    requires s <= l
    ensures ByteAt(TrimBytes(b, s, l), a) ==
      if s <= a < l || !b.Covers(a) then None else Some(b.bytes[a - b.start])
  {
    ByteAtAppend(TrimBelow(b, s), TrimAbove(b, l), a);
    TrimBelowAt(b, s, a);
    TrimAboveAt(b, l, a);
  }

  lemma TrimBelowAt(b: MemoryBytes, s: u64, a: int)
    ensures ByteAt(TrimBelow(b, s), a) == if a < s && b.Covers(a) then Some(b.bytes[a - b.start]) else None
  {
    var t := TrimBelow(b, s);
    if |t| == 1 {
      assert t[..0] == [];
    }
  }

  lemma TrimAboveAt(b: MemoryBytes, l: u64, a: int)
    ensures ByteAt(TrimAbove(b, l), a) == if l <= a && b.Covers(a) then Some(b.bytes[a - b.start]) else None
  {
    var t := TrimAbove(b, l);
    if |t| == 1 {
      assert t[..0] == [];
    }
  }

  /** Removing a range forgets exactly the bytes inside it. */
  lemma {:induction false} RemoveBytesAt(list: seq<MemoryBytes>, s: u64, l: u64, a: int)
    requires s <= l
    ensures ByteAt(RemoveBytes(list, s, l), a) == if s <= a < l then None else ByteAt(list, a)
  {
    if |list| > 0 {
      var init, last := list[..|list| - 1], list[|list| - 1];
      RemoveBytesAt(init, s, l, a);
      ByteAtAppend(RemoveBytes(init, s, l), TrimBytes(last, s, l), a);
      TrimBytesAt(last, s, l, a);
    }
  }

  /** After removing a range no entry touches it, and ranges that were avoided stay avoided. */
  lemma {:induction false} RemoveBytesAvoids(list: seq<MemoryBytes>, s: u64, l: u64, s': int, l': int)
    requires s <= l
    ensures Avoids(RemoveBytes(list, s, l), s, l)
    ensures Avoids(list, s', l') ==> Avoids(RemoveBytes(list, s, l), s', l')
  {
    if |list| > 0 {
      var init, last := list[..|list| - 1], list[|list| - 1];
      assert list == init + [last];
      AvoidsAppend(init, [last], s', l');
      RemoveBytesAvoids(init, s, l, s', l');
      TrimBytesAvoids(last, s, l, s', l');
      AvoidsAppend(RemoveBytes(init, s, l), TrimBytes(last, s, l), s, l);
      AvoidsAppend(RemoveBytes(init, s, l), TrimBytes(last, s, l), s', l');
    }
  }

  lemma AvoidsAppend(x: seq<MemoryBytes>, y: seq<MemoryBytes>, s: int, l: int)
    ensures Avoids(x + y, s, l) <==> Avoids(x, s, l) && Avoids(y, s, l)
  {
    if Avoids(x + y, s, l) {
      forall i | 0 <= i < |x| ensures x[i].Limit() <= s || l <= x[i].start || |x[i].bytes| == 0 {
        assert x[i] == (x + y)[i];
      }
      forall i | 0 <= i < |y| ensures y[i].Limit() <= s || l <= y[i].start || |y[i].bytes| == 0 {
        assert y[i] == (x + y)[|x| + i];
      }
    }
  }

  lemma TrimBytesAvoids(b: MemoryBytes, s: u64, l: u64, s': int, l': int)
    requires s <= l
    ensures Avoids(TrimBytes(b, s, l), s, l)
    ensures Avoids([b], s', l') ==> Avoids(TrimBytes(b, s, l), s', l')
  {
    assert [b][0] == b;
  }

  /** The mapping parts outside [s, l). */
  function TrimMapping(m: MemoryMapping, s: u64, l: u64): seq<MemoryMapping>
    requires s <= l
  {
    (if m.start < s && m.numBytes > 0
     then [MemoryMapping(m.start, (if s < m.Limit() then s else m.Limit()) - m.start, m.perms)]
     else [])
    + (if l < m.Limit() then
         var from := if l < m.start then m.start else l;
         [MemoryMapping(from, m.Limit() - from, m.perms)]
       else [])
  }

  /** Removes [s, l) from every mapping. */
  function RemoveMappings(ms: seq<MemoryMapping>, s: u64, l: u64): seq<MemoryMapping>
    requires s <= l
  {
    if |ms| == 0 then [] else RemoveMappings(ms[..|ms| - 1], s, l) + TrimMapping(ms[|ms| - 1], s, l)
  }

  /** A concatenation maps what either part maps. */
  lemma MappedAppend(x: seq<MemoryMapping>, y: seq<MemoryMapping>, a: int)
    ensures Mapped(x + y, a) <==> Mapped(x, a) || Mapped(y, a)
  {
    if Mapped(x + y, a) {
      var i :| 0 <= i < |x + y| && (x + y)[i].start <= a < (x + y)[i].Limit();
      if i < |x| { assert x[i] == (x + y)[i]; } else { assert y[i - |x|] == (x + y)[i]; }
    }
    if Mapped(x, a) {
      var i :| 0 <= i < |x| && x[i].start <= a < x[i].Limit();
      assert (x + y)[i] == x[i];
    }
    if Mapped(y, a) {
      var i :| 0 <= i < |y| && y[i].start <= a < y[i].Limit();
      assert (x + y)[|x| + i] == y[i];
    }
  }

  lemma TrimMappingMapped(m: MemoryMapping, s: u64, l: u64, a: int)
    requires s <= l
    ensures Mapped(TrimMapping(m, s, l), a) <==> m.start <= a < m.Limit() && !(s <= a < l)
  {
    var t := TrimMapping(m, s, l);
    if m.start <= a < m.Limit() && !(s <= a < l) {
      if a < s { assert t[0].start <= a < t[0].Limit(); }
      else { assert t[|t| - 1].start <= a < t[|t| - 1].Limit(); }
    }
  }

  /** Removing a range unmaps exactly the addresses inside it. */
  lemma {:induction false} RemoveMappingsMapped(ms: seq<MemoryMapping>, s: u64, l: u64, a: int)
    requires s <= l
    ensures Mapped(RemoveMappings(ms, s, l), a) <==> Mapped(ms, a) && !(s <= a < l)
  {
    if |ms| > 0 {
      var init, last := ms[..|ms| - 1], ms[|ms| - 1];
      RemoveMappingsMapped(init, s, l, a);
      MappedAppend(RemoveMappings(init, s, l), TrimMapping(last, s, l), a);
      TrimMappingMapped(last, s, l, a);
      assert ms == init + [last];
      MappedAppend(init, [last], a);
    }
  }

  // --- MemoryState ----------------------------------------------------------------

  /** MemoryState: the mapped memory and the written bytes, edited in place. */
  class MemoryState {
    var mapped: seq<MemoryMapping>
    var written: seq<MemoryBytes>

    /** MemoryState::MakeInitial(snapshot, kZeroMappedBytes): every mapped byte is 0 unless
        the snapshot's memory bytes say otherwise. */
    constructor MakeInitial(s: Snapshot)
      ensures mapped == s.mappings
      ensures written == ZeroFill(s.mappings) + s.memoryBytes
    {
      mapped := s.mappings;
      written := ZeroFill(s.mappings) + s.memoryBytes;
    }

    /** The byte the state holds at `a`, if any. */
    function At(a: int): Option<byte>
      reads this
    {
      ByteAt(written, a)
    }

    /** SetMemoryBytes: overwrites the bytes `mb` covers. */
    method SetMemoryBytes(mb: MemoryBytes)
      modifies this
      ensures mapped == old(mapped)
      ensures written == old(written) + [mb]
      ensures forall a :: At(a) == if mb.Covers(a) then Some(mb.bytes[a - mb.start]) else old(At(a))
    {
      written := written + [mb];
      forall a ensures At(a) == if mb.Covers(a) then Some(mb.bytes[a - mb.start]) else old(At(a)) {
        ByteAtAppend(old(written), [mb], a);
      }
    }

    /** SetMemoryBytes on a list: applies the entries in order. */
    method SetMemoryBytesList(list: seq<MemoryBytes>)
      modifies this
      ensures mapped == old(mapped)
      ensures written == old(written) + list
      ensures forall a :: At(a) == if ByteAt(list, a).Some? then ByteAt(list, a) else old(At(a))
    {
      written := written + list;
      forall a ensures At(a) == if ByteAt(list, a).Some? then ByteAt(list, a) else old(At(a)) {
        ByteAtAppend(old(written), list, a);
      }
    }

    /** RemoveMemoryMapping(start, limit): unmaps [start, limit) and drops its bytes. */
    method RemoveMemoryMapping(start: u64, limit: u64)
      requires start <= limit
      modifies this
      ensures mapped == RemoveMappings(old(mapped), start, limit)
      ensures written == RemoveBytes(old(written), start, limit)
      ensures forall a :: At(a) == if start <= a < limit then None else old(At(a))
    {
      mapped := RemoveMappings(mapped, start, limit);
      written := RemoveBytes(written, start, limit);
      forall a ensures At(a) == if start <= a < limit then None else old(At(a)) {
        RemoveBytesAt(old(written), start, limit, a);
      }
    }

    /** memory_bytes_list(written_memory()): the written bytes as a list. Its splitting into
        maximal runs is not modelled; the bytes it denotes are the same. */
    function MemoryBytesList(): seq<MemoryBytes>
      reads this
    {
      written
    }
  }
}

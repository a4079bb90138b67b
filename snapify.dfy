/** Snapify: turning a recorded Snapshot into one the Snap runner can replay. It picks the
    expected end state for a platform, checks the snapshot can end in the exit sequence,
    writes the exit sequence at the endpoint, and rewrites every memory byte list in the
    form the runner wants (optionally split into repeating-byte runs).

    The exit sequence bytes, the reserved-mapping test, GetRepeatingByteRuns and the
    checks inside ReplaceMemoryBytes and can_add_expected_end_state are not part of this
    model; they are supplied by an `Externals` value. */
module Snapify {
  import opened Common
  import opened Snapshots

  /** SnapifyOptions */
  datatype SnapifyOptions = SnapifyOptions(
    allowUndefinedEndState: bool,
    platformId: PlatformId,
    compressRepeatingBytes: bool,
    supportDirectMmap: bool)

  /** The collaborators Snapify calls but this model does not define. */
  datatype Externals = Externals(
    /** The Snap exit sequence written by WriteSnapExitSequence for an architecture. */
    exitSequence: Arch -> seq<byte>,
    /** OverlapReservedMemoryMappings */
    overlapsReserved: seq<MemoryMapping> -> bool,
    /** GetRepeatingByteRuns */
    repeatingByteRuns: MemoryBytes -> Result<seq<MemoryBytes>>,
    /** The checks made by Snapshot::ReplaceMemoryBytes and EndState::ReplaceMemoryBytes. */
    snapshotReplaceCheck: (seq<MemoryMapping>, seq<MemoryBytes>) -> Status,
    endStateReplaceCheck: seq<MemoryBytes> -> Status,
    /** Snapshot::can_add_expected_end_state */
    canAddEndState: (Snapshot, EndState) -> Status)

  /** GetRepeatingByteRuns splits a block without changing the bytes it denotes. */
  ghost predicate RunsPreserveBytes(runs: MemoryBytes -> Result<seq<MemoryBytes>>) {
    forall mb: MemoryBytes, a: int :: runs(mb).Ok? ==> ByteAt(runs(mb).value, a) == ByteAt([mb], a)
  }

  // ---------------------------------------------------------------------------
  // PickEndState
  // ---------------------------------------------------------------------------

  const kIncompleteMsg := "end state is not complete"

  /** The end state is for platform `p`, or any end state will do. */
  predicate MatchesPlatform(es: EndState, p: PlatformId) {
    es.HasPlatform(p) || p == AnyPlatform
  }

  /** The index of the first end state matching `p`. */
  function FirstMatch(ess: seq<EndState>, p: PlatformId): (r: Option<nat>)
    ensures r.Some? ==> r.value < |ess| && MatchesPlatform(ess[r.value], p)
    ensures r.Some? ==> forall j :: 0 <= j < r.value ==> !MatchesPlatform(ess[j], p)
    ensures r.None? ==> forall j :: 0 <= j < |ess| ==> !MatchesPlatform(ess[j], p)
  {
    if |ess| == 0 then None
    else if MatchesPlatform(ess[0], p) then Some(0)
    else match FirstMatch(ess[1..], p)
      case None => None
      case Some(i) => Some(i + 1)
  }

  /** The end state PickEndState chooses (by index), or why there is none. */
  function EndStateChoice(s: Snapshot, opts: SnapifyOptions): (r: Result<nat>)
    ensures r.Ok? ==> r.value < |s.endStates|
    // With undefined end states allowed: the only end state, provided there is exactly one.
    ensures opts.allowUndefinedEndState ==>
      (r.Ok? <==> |s.endStates| == 1 && s.IsCompleteSomeState()) && (r.Ok? ==> r.value == 0)
    ensures opts.allowUndefinedEndState && |s.endStates| != 1 ==> r.Err? && r.code == InvalidArgument
    // Otherwise: the first end state for the platform, which must be complete.
    ensures !opts.allowUndefinedEndState && r.Ok? ==>
      && MatchesPlatform(s.endStates[r.value], opts.platformId)
      && s.endStates[r.value].IsComplete()
      && forall j :: 0 <= j < r.value ==> !MatchesPlatform(s.endStates[j], opts.platformId)
    ensures !opts.allowUndefinedEndState ==>
      ((r.Err? && r.code == NotFound) <==>
       forall j :: 0 <= j < |s.endStates| ==> !MatchesPlatform(s.endStates[j], opts.platformId))
    // ... and when there is a first match, it is chosen exactly when it is complete.
    ensures !opts.allowUndefinedEndState && FirstMatch(s.endStates, opts.platformId).Some? ==>
      var i := FirstMatch(s.endStates, opts.platformId).value;
      r == if s.endStates[i].IsComplete() then Ok(i) else Err(InvalidArgument, kIncompleteMsg)
  {
    if opts.allowUndefinedEndState then
      if |s.endStates| != 1 then
        Err(InvalidArgument, "want exactly 1 undefined expected endstate, found " + NatToString(|s.endStates|))
      else if !s.IsCompleteSomeState() then Err(InvalidArgument, kIncompleteMsg)
      else Ok(0)
    else
      match FirstMatch(s.endStates, opts.platformId)
      case None => Err(NotFound, "no expected end state for platform")
      case Some(i) => if s.endStates[i].IsComplete() then Ok(i) else Err(InvalidArgument, kIncompleteMsg)
  }

  /** PickEndState: searches the expected end states in order. */
  method PickEndState(s: Snapshot, opts: SnapifyOptions) returns (r: Result<nat>)
    ensures r == EndStateChoice(s, opts)
  {
    if opts.allowUndefinedEndState {
      if |s.endStates| != 1 {
        return Err(InvalidArgument, "want exactly 1 undefined expected endstate, found " + NatToString(|s.endStates|));
      }
      if !s.IsCompleteSomeState() {
        return Err(InvalidArgument, kIncompleteMsg);
      }
      return Ok(0);
    }

    // There must be an expected end state for the requested platform.
    var i := 0;
    while i < |s.endStates|
      invariant 0 <= i <= |s.endStates|
      invariant forall j :: 0 <= j < i ==> !MatchesPlatform(s.endStates[j], opts.platformId)
    {
      var es := s.endStates[i];
      if es.HasPlatform(opts.platformId) || opts.platformId == AnyPlatform {
        FirstMatchIs(s.endStates, opts.platformId, i);
        if !es.IsComplete() {
          return Err(InvalidArgument, kIncompleteMsg);
        }
        return Ok(i);
      }
      i := i + 1;
    }
    FirstMatchNone(s.endStates, opts.platformId);
    return Err(NotFound, "no expected end state for platform");
  }

  /** A matching index with no match before it is the first match. */
  lemma {:induction false} FirstMatchIs(ess: seq<EndState>, p: PlatformId, i: nat)
    requires i < |ess| && MatchesPlatform(ess[i], p)
    requires forall j :: 0 <= j < i ==> !MatchesPlatform(ess[j], p)
    ensures FirstMatch(ess, p) == Some(i)
  {
    if i > 0 {
      FirstMatchIs(ess[1..], p, i - 1);
    }
  }

  /** With no matching end state there is no first match. */
  lemma FirstMatchNone(ess: seq<EndState>, p: PlatformId)
    requires forall j :: 0 <= j < |ess| ==> !MatchesPlatform(ess[j], p)
    ensures FirstMatch(ess, p).None?
  {
  }

  // ---------------------------------------------------------------------------
  // CanSnapify
  // ---------------------------------------------------------------------------

  /** `a + b` in uint64 arithmetic. */
  function WrapAdd(a: u64, b: nat): u64 {
    (a + b) % TWO_64
  }

  /** Room for the exit sequence: [rip, rip + size) is mapped, with the limit computed in
      uint64 arithmetic. */
  predicate ExitRoom(ms: seq<MemoryMapping>, rip: u64, size: nat) {
    Contains(ms, rip, WrapAdd(rip, size))
  }

  /** Room for a return address: rsp is at least 8 and [rsp - 8, rsp) is mapped. */
  predicate StackRoom(ms: seq<MemoryMapping>, rsp: u64) {
    8 <= rsp && Contains(ms, rsp - 8, rsp)
  }

  /** The end state is undefined and undefined end states are allowed, so its registers are
      not inspected. */
  predicate SkipsStackCheck(es: EndState, opts: SnapifyOptions) {
    opts.allowUndefinedEndState && es.IsCompleteUndefined()
  }

  /** CanSnapify: whether Snapify can turn `s` into a Snap. */
  function CanSnapify(s: Snapshot, opts: SnapifyOptions, ext: Externals): (st: Status)
    ensures EndStateChoice(s, opts).Err? ==>
      st == ErrStatus(EndStateChoice(s, opts).code, EndStateChoice(s, opts).msg)
    ensures st.OkStatus? <==>
      && EndStateChoice(s, opts).Ok?
      && var es := s.endStates[EndStateChoice(s, opts).value];
         && es.endpoint.kind == Instruction
         && !ext.overlapsReserved(s.mappings)
         && ExitRoom(s.mappings, es.endpoint.instructionAddress, |ext.exitSequence(s.arch)|)
         && (SkipsStackCheck(es, opts) || StackRoom(s.mappings, ExtractRsp(es.registers)))
    ensures EndStateChoice(s, opts).Ok? ==>
      var es := s.endStates[EndStateChoice(s, opts).value];
      && (es.endpoint.kind != Instruction ==> st == ErrStatus(InvalidArgument, "endpoint isn't kInstruction"))
      && (es.endpoint.kind == Instruction && ext.overlapsReserved(s.mappings) ==>
            st == ErrStatus(InvalidArgument, "memory mappings overlap reserved memory mappings"))
      && (es.endpoint.kind == Instruction && !ext.overlapsReserved(s.mappings)
          && !ExitRoom(s.mappings, es.endpoint.instructionAddress, |ext.exitSequence(s.arch)|) ==>
            st == ErrStatus(InvalidArgument, "CanSnapify: no room for the exit sequence"))
      && (st.ErrStatus? && es.endpoint.kind == Instruction && !ext.overlapsReserved(s.mappings)
          && ExitRoom(s.mappings, es.endpoint.instructionAddress, |ext.exitSequence(s.arch)|) ==>
            st == ErrStatus(InvalidArgument, "need at least 8 bytes on stack"))
  {
    match EndStateChoice(s, opts)
    case Err(code, msg) => ErrStatus(code, msg)
    case Ok(i) =>
      var es := s.endStates[i];
      // Must end at an instruction, not a signal.
      if es.endpoint.kind != Instruction then ErrStatus(InvalidArgument, "endpoint isn't kInstruction")
      else if ext.overlapsReserved(s.mappings) then
        ErrStatus(InvalidArgument, "memory mappings overlap reserved memory mappings")
      // There must be code space to append the exit sequence.
      else if !ExitRoom(s.mappings, es.endpoint.instructionAddress, |ext.exitSequence(s.arch)|) then
        ErrStatus(InvalidArgument, "CanSnapify: no room for the exit sequence")
      // The registers of an undefined end state are unknown.
      else if SkipsStackCheck(es, opts) then OkStatus
      // The exit needs 8 bytes of stack for the return address; rsp < 8 would underflow.
      else if !StackRoom(s.mappings, ExtractRsp(es.registers)) then
        ErrStatus(InvalidArgument, "need at least 8 bytes on stack")
      else OkStatus
  }

  /** Room for an exit sequence shorter than the address space means its addresses are
      mapped and it does not run past the top of the address space. */
  lemma ExitRoomMapped(ms: seq<MemoryMapping>, rip: u64, size: nat)
    requires size < TWO_64 && ExitRoom(ms, rip, size)
    ensures size == 0 || rip + size < TWO_64
    ensures forall a :: rip <= a < rip + size ==> Mapped(ms, a)
  {
    assert WrapAdd(rip, size) == if rip + size < TWO_64 then rip + size else rip + size - TWO_64;
  }

  /** Stack room means the 8 bytes below rsp are mapped; rsp - 8 never underflows. */
  lemma StackRoomMapped(ms: seq<MemoryMapping>, rsp: u64)
    requires StackRoom(ms, rsp)
    ensures rsp >= 8 && forall a :: rsp - 8 <= a < rsp ==> Mapped(ms, a)
  {
  }

  // ---------------------------------------------------------------------------
  // Compression policy
  // ---------------------------------------------------------------------------

  /** The CompressionQuery callbacks. */
  datatype CompressionQuery = ShouldNeverCompress | ShouldAlwaysCompress | ShouldCompressNonExecutable

  /** Whether a block is split into repeating-byte runs. */
  predicate ShouldCompress(q: CompressionQuery, mapped: seq<MemoryMapping>, mb: MemoryBytes) {
    match q
    case ShouldNeverCompress => false
    case ShouldAlwaysCompress => true
    case ShouldCompressNonExecutable => !PermsAt(mapped, mb.start).executable
  }

  /** The query for the snapshot's own memory bytes. */
  function InitialCompressionQuery(opts: SnapifyOptions): (q: CompressionQuery)
    ensures !opts.compressRepeatingBytes ==> q == ShouldNeverCompress
    ensures opts.compressRepeatingBytes && opts.supportDirectMmap ==> q == ShouldCompressNonExecutable
    ensures opts.compressRepeatingBytes && !opts.supportDirectMmap ==> q == ShouldAlwaysCompress
  {
    var q := ShouldNeverCompress;
    if opts.compressRepeatingBytes then
      if opts.supportDirectMmap then ShouldCompressNonExecutable else ShouldAlwaysCompress
    else q
  }

  /** The query for end-state memory bytes. */
  function EndStateCompressionQuery(opts: SnapifyOptions): CompressionQuery {
    if opts.compressRepeatingBytes then ShouldAlwaysCompress else ShouldNeverCompress
  }

  /** The compression policy: nothing is compressed unless compress_repeating_bytes is set;
      with direct mmap support a block starting in executable memory is kept whole, and
      otherwise every block is compressed. */
  lemma CompressionPolicy(opts: SnapifyOptions, mapped: seq<MemoryMapping>, mb: MemoryBytes)
    ensures !opts.compressRepeatingBytes ==> !ShouldCompress(InitialCompressionQuery(opts), mapped, mb)
    ensures opts.compressRepeatingBytes && opts.supportDirectMmap ==>
      (ShouldCompress(InitialCompressionQuery(opts), mapped, mb) <==> !PermsAt(mapped, mb.start).executable)
    ensures opts.compressRepeatingBytes && !opts.supportDirectMmap ==>
      ShouldCompress(InitialCompressionQuery(opts), mapped, mb)
    ensures ShouldCompress(EndStateCompressionQuery(opts), mapped, mb) <==> opts.compressRepeatingBytes
  {
  }

  // ---------------------------------------------------------------------------
  // SnapifyMemoryByteList
  // ---------------------------------------------------------------------------

  /** The list SnapifyMemoryByteList builds from `list`: each block either replaced by its
      repeating-byte runs or kept, in order; the first failing split is the error. */
  function Snapified(list: seq<MemoryBytes>, q: CompressionQuery, mapped: seq<MemoryMapping>,
                     runs: MemoryBytes -> Result<seq<MemoryBytes>>): Result<seq<MemoryBytes>>
    decreases |list|
  {
    if |list| == 0 then Ok([])
    else match Snapified(list[..|list| - 1], q, mapped, runs)
      case Err(code, msg) => Err(code, msg)
      case Ok(prefix) =>
        var last := list[|list| - 1];
        if ShouldCompress(q, mapped, last) then
          match runs(last)
          case Err(code, msg) => Err(code, msg)
          case Ok(rs) => Ok(prefix + rs)
        else Ok(prefix + [last])
  }

  /** Once a prefix fails, the whole list fails with the same error. */
  lemma {:induction false} SnapifiedErrorSticks(list: seq<MemoryBytes>, i: nat, q: CompressionQuery,
                                                 mapped: seq<MemoryMapping>, runs: MemoryBytes -> Result<seq<MemoryBytes>>)
    requires i <= |list| && Snapified(list[..i], q, mapped, runs).Err?
    ensures Snapified(list, q, mapped, runs) == Snapified(list[..i], q, mapped, runs)
    decreases |list|
  {
    if i < |list| {
      var init := list[..|list| - 1];
      assert init[..i] == list[..i];
      SnapifiedErrorSticks(init, i, q, mapped, runs);
    } else {
      assert list[..i] == list;
    }
  }

  /** Splitting into runs keeps every byte: the snapified list denotes the same memory. */
  lemma {:induction false} SnapifiedPreservesBytes(list: seq<MemoryBytes>, q: CompressionQuery,
                                                    mapped: seq<MemoryMapping>,
                                                    runs: MemoryBytes -> Result<seq<MemoryBytes>>, a: int)
    requires RunsPreserveBytes(runs)
    requires Snapified(list, q, mapped, runs).Ok?
    ensures ByteAt(Snapified(list, q, mapped, runs).value, a) == ByteAt(list, a)
    decreases |list|
  {
    if |list| > 0 {
      var init, last := list[..|list| - 1], list[|list| - 1];
      var added := SnapifiedLast(list, q, mapped, runs);
      var prefix := Snapified(init, q, mapped, runs).value;
      SnapifiedPreservesBytes(init, q, mapped, runs, a);
      assert list == init + [last];
      ByteAtAppend(init, [last], a);
      ByteAtAppend(prefix, added, a);
      assert ByteAt(added, a) == ByteAt([last], a);
    }
  }

  /** The entries the last block of `list` contributes to its snapified list. */
  lemma SnapifiedLast(list: seq<MemoryBytes>, q: CompressionQuery, mapped: seq<MemoryMapping>,
                      runs: MemoryBytes -> Result<seq<MemoryBytes>>)
    returns (added: seq<MemoryBytes>)
    requires |list| > 0 && Snapified(list, q, mapped, runs).Ok?
    ensures Snapified(list[..|list| - 1], q, mapped, runs).Ok?
    ensures Snapified(list, q, mapped, runs).value == Snapified(list[..|list| - 1], q, mapped, runs).value + added
    ensures added == [list[|list| - 1]] || (runs(list[|list| - 1]).Ok? && added == runs(list[|list| - 1]).value)
  {
    var last := list[|list| - 1];
    added := if ShouldCompress(q, mapped, last) then runs(last).value else [last];
  }

  /** SnapifyMemoryByteList: the state's written bytes, each block split into runs when the
      query asks for it. */
  method SnapifyMemoryByteList(memoryState: MemoryState, q: CompressionQuery,
                               runs: MemoryBytes -> Result<seq<MemoryBytes>>)
    returns (r: Result<seq<MemoryBytes>>)
    ensures r == Snapified(memoryState.written, q, memoryState.mapped, runs)
  {
    var list := memoryState.MemoryBytesList();
    var result: seq<MemoryBytes> := [];
    for i := 0 to |list|
      invariant Snapified(list[..i], q, memoryState.mapped, runs) == Ok(result)
    {
      var mb := list[i];
      assert list[..i + 1][..i] == list[..i];
      if ShouldCompress(q, memoryState.mapped, mb) {
        var split := runs(mb);
        if split.Err? {
          SnapifiedErrorSticks(list, i + 1, q, memoryState.mapped, runs);
          return Err(split.code, split.msg);
        }
        ghost var before := result;
        for k := 0 to |split.value|
          invariant result == before + split.value[..k]
        {
          result := result + [split.value[k]];
        }
        assert split.value[..|split.value|] == split.value;
      } else {
        result := result + [mb];
      }
    }
    assert list[..|list|] == list;
    return Ok(result);
  }

  // ---------------------------------------------------------------------------
  // SnapifyMemoryBytes
  // ---------------------------------------------------------------------------

  /** Every mapping's limit is an address (a Snapshot invariant). */
  predicate MappingsInRange(ms: seq<MemoryMapping>) {
    forall i :: 0 <= i < |ms| ==> ms[i].Limit() < TWO_64
  }

  /** Address `a` lies in a mapping that is not writable. */
  predicate NonWritableAt(ms: seq<MemoryMapping>, a: int) {
    exists i :: 0 <= i < |ms| && ms[i].start <= a < ms[i].Limit() && !ms[i].perms.writable
  }

  /** The memory a snapshot starts with: mapped bytes are 0 unless its memory bytes say
      otherwise (MemoryState::MakeInitial with kZeroMappedBytes). */
  function InitialMemory(s: Snapshot): seq<MemoryBytes> {
    ZeroFill(s.mappings) + s.memoryBytes
  }

  /** The byte a snapified end state holds at `a`: nothing in a non-writable mapping, else
      the end state's own byte, else the snapshot's initial byte. */
  function EndStateByte(s: Snapshot, es: EndState, a: int): Option<byte> {
    EndStateByteIn(s.mappings, s, es, a)
  }

  /** EndStateByte with only the non-writable mappings of `removed` taken away. */
  function EndStateByteIn(removed: seq<MemoryMapping>, s: Snapshot, es: EndState, a: int): Option<byte> {
    if NonWritableAt(removed, a) then None
    else if ByteAt(es.memoryBytes, a).Some? then ByteAt(es.memoryBytes, a)
    else ByteAt(InitialMemory(s), a)
  }

  /** `out` is `orig` with its memory bytes rewritten as SnapifyMemoryBytes does, against the
      (already snapified) snapshot `s`. Incomplete end states are kept as they are. */
  ghost predicate SnapifiedEndState(s: Snapshot, orig: EndState, out: EndState, preserve: bool) {
    && out == orig.(memoryBytes := out.memoryBytes)
    && (!orig.IsComplete() ==> out == orig)
    && (orig.IsComplete() && preserve ==> forall a :: ByteAt(out.memoryBytes, a) == EndStateByte(s, orig, a))
  }

  lemma NonWritablePrefix(ms: seq<MemoryMapping>, k: nat, a: int)
    requires k < |ms|
    ensures NonWritableAt(ms[..k + 1], a) <==>
      NonWritableAt(ms[..k], a) || (ms[k].start <= a < ms[k].Limit() && !ms[k].perms.writable)
  {
    var p, q := ms[..k], ms[..k + 1];
    if NonWritableAt(q, a) {
      var i :| 0 <= i < |q| && q[i].start <= a < q[i].Limit() && !q[i].perms.writable;
      if i < k { assert p[i] == q[i]; }
    }
    if NonWritableAt(p, a) {
      var i :| 0 <= i < |p| && p[i].start <= a < p[i].Limit() && !p[i].perms.writable;
      assert q[i] == p[i];
    }
    if ms[k].start <= a < ms[k].Limit() && !ms[k].perms.writable {
      assert q[k] == ms[k];
    }
  }

  /** The mappings left after removing every non-writable mapping of `removed` from `ms`. */
  function RemoveNonWritable(ms: seq<MemoryMapping>, removed: seq<MemoryMapping>): seq<MemoryMapping>
    requires MappingsInRange(removed)
  {
    if |removed| == 0 then ms
    else
      var rest := RemoveNonWritable(ms, removed[..|removed| - 1]);
      var m := removed[|removed| - 1];
      if m.perms.writable then rest else RemoveMappings(rest, m.start, m.Limit())
  }

  /** The bytes left in `list` after removing every non-writable mapping of `removed`. */
  function RemoveNonWritableBytes(list: seq<MemoryBytes>, removed: seq<MemoryMapping>): seq<MemoryBytes>
    requires MappingsInRange(removed)
  {
    if |removed| == 0 then list
    else
      var rest := RemoveNonWritableBytes(list, removed[..|removed| - 1]);
      var m := removed[|removed| - 1];
      if m.perms.writable then rest else RemoveBytes(rest, m.start, m.Limit())
  }

  /** The written bytes of a complete end state's memory: its deltas over the initial memory
      of `s`, with the bytes of every non-writable mapping dropped. */
  function EndStateWritten(s: Snapshot, es: EndState): seq<MemoryBytes>
    requires MappingsInRange(s.mappings)
  {
    RemoveNonWritableBytes(InitialMemory(s) + es.memoryBytes, s.mappings)
  }

  /** The memory of one complete end state: its deltas over the snapshot's initial memory,
      with every non-writable mapping removed. */
  method EndStateMemory(s: Snapshot, es: EndState) returns (memoryState: MemoryState)
    requires MappingsInRange(s.mappings)
    ensures fresh(memoryState)
    ensures memoryState.mapped == RemoveNonWritable(s.mappings, s.mappings)
    ensures memoryState.written == EndStateWritten(s, es)
    ensures forall a :: memoryState.At(a) == EndStateByte(s, es, a)
  {
    memoryState := new MemoryState.MakeInitial(s);
    // Apply the deltas of the end state.
    memoryState.SetMemoryBytesList(es.memoryBytes);
    assert forall a :: memoryState.At(a) == EndStateByteIn([], s, es, a);
    // Keep just the writable pages.
    var ms := s.mappings;
    for k := 0 to |ms|
      invariant memoryState.mapped == RemoveNonWritable(s.mappings, ms[..k])
      invariant memoryState.written == RemoveNonWritableBytes(InitialMemory(s) + es.memoryBytes, ms[..k])
      invariant forall a :: memoryState.At(a) == EndStateByteIn(ms[..k], s, es, a)
    {
      var m := ms[k];
      RemoveNonWritableStep(s.mappings, InitialMemory(s) + es.memoryBytes, ms, k);
      if !m.perms.writable {
        memoryState.RemoveMemoryMapping(m.start, m.Limit());
      }
      forall a | true
        ensures EndStateByteIn(ms[..k + 1], s, es, a) ==
          if m.start <= a < m.Limit() && !m.perms.writable then None else EndStateByteIn(ms[..k], s, es, a)
      {
        EndStateByteInStep(ms, k, s, es, a);
      }
    }
    assert ms[..|ms|] == ms;
  }

  /** Taking away one more mapping hides its bytes exactly when it is not writable. */
  lemma EndStateByteInStep(ms: seq<MemoryMapping>, k: nat, s: Snapshot, es: EndState, a: int)
    requires k < |ms|
    ensures EndStateByteIn(ms[..k + 1], s, es, a) ==
      if ms[k].start <= a < ms[k].Limit() && !ms[k].perms.writable then None else EndStateByteIn(ms[..k], s, es, a)
  {
    NonWritablePrefix(ms, k, a);
  }

  /** Removing one more mapping of `ms` removes it, and its bytes, from what the earlier
      ones left. */
  lemma RemoveNonWritableStep(base: seq<MemoryMapping>, list: seq<MemoryBytes>, ms: seq<MemoryMapping>, k: nat)
    requires MappingsInRange(ms) && k < |ms|
    ensures MappingsInRange(ms[..k]) && MappingsInRange(ms[..k + 1])
    ensures RemoveNonWritable(base, ms[..k + 1]) ==
      if ms[k].perms.writable then RemoveNonWritable(base, ms[..k])
      else RemoveMappings(RemoveNonWritable(base, ms[..k]), ms[k].start, ms[k].Limit())
    ensures RemoveNonWritableBytes(list, ms[..k + 1]) ==
      if ms[k].perms.writable then RemoveNonWritableBytes(list, ms[..k])
      else RemoveBytes(RemoveNonWritableBytes(list, ms[..k]), ms[k].start, ms[k].Limit())
  {
    assert ms[..k + 1][..k] == ms[..k];
  }

  /** Entries that already repeat everything `x` holds make `x` invisible underneath them. */
  lemma Absorbs(x: seq<MemoryBytes>, list: seq<MemoryBytes>, z: seq<MemoryBytes>, a: int)
    requires ByteAt(list, a) == ByteAt(x + z, a)
    ensures ByteAt(x + list, a) == ByteAt(list, a)
  {
    ByteAtAppend(x, list, a);
    ByteAtAppend(x, z, a);
  }

  /** Two snapshots with the same mappings and the same initial memory give every end state
      the same bytes. */
  lemma EndStateByteSameMemory(s: Snapshot, t: Snapshot, es: EndState, a: int)
    requires s.mappings == t.mappings
    requires ByteAt(InitialMemory(s), a) == ByteAt(InitialMemory(t), a)
    ensures EndStateByte(s, es, a) == EndStateByte(t, es, a)
  {
  }

  /** One end state as SnapifyMemoryBytes rewrites it against the snapshot `t` whose memory
      bytes are already snapified: a complete end state gets its writable memory over `t`,
      split as the end-state query asks and accepted by EndState::ReplaceMemoryBytes; any
      other end state is kept. */
  function RewriteEndState(t: Snapshot, es: EndState, opts: SnapifyOptions, ext: Externals): Result<EndState>
    requires MappingsInRange(t.mappings)
  {
    if !es.IsComplete() then Ok(es)
    else
      match Snapified(EndStateWritten(t, es), EndStateCompressionQuery(opts),
                      RemoveNonWritable(t.mappings, t.mappings), ext.repeatingByteRuns)
      case Err(code, msg) => Err(code, msg)
      case Ok(list) =>
        var st := ext.endStateReplaceCheck(list);
        if st.ErrStatus? then Err(st.code, st.msg) else Ok(es.(memoryBytes := list))
  }

  /** The end states SnapifyMemoryBytes adds to `t`, in order: each rewritten, then accepted by
      can_add_expected_end_state given the ones added before it. The first failure is the
      error. */
  function RewriteEndStates(t: Snapshot, ess: seq<EndState>, opts: SnapifyOptions, ext: Externals)
    : Result<seq<EndState>>
    requires MappingsInRange(t.mappings)
    decreases |ess|
  {
    if |ess| == 0 then Ok([])
    else match RewriteEndStates(t, ess[..|ess| - 1], opts, ext)
      case Err(code, msg) => Err(code, msg)
      case Ok(done) =>
        match RewriteEndState(t, ess[|ess| - 1], opts, ext)
        case Err(code, msg) => Err(code, msg)
        case Ok(out) =>
          var st := ext.canAddEndState(t.(endStates := done), out);
          if st.ErrStatus? then Err(st.code, st.msg) else Ok(done + [out])
  }

  /** What SnapifyMemoryBytes makes of `s`: the initial memory snapified with the initial
      query and accepted by Snapshot::ReplaceMemoryBytes, then every end state rewritten
      against it. */
  function SnapifiedMemory(s: Snapshot, opts: SnapifyOptions, ext: Externals): Result<Snapshot>
    requires MappingsInRange(s.mappings)
  {
    match Snapified(InitialMemory(s), InitialCompressionQuery(opts), s.mappings, ext.repeatingByteRuns)
    case Err(code, msg) => Err(code, msg)
    case Ok(list) =>
      var st := ext.snapshotReplaceCheck(s.mappings, list);
      if st.ErrStatus? then Err(st.code, st.msg)
      else
        var t := s.(memoryBytes := list);
        match RewriteEndStates(t, s.endStates, opts, ext)
        case Err(code, msg) => Err(code, msg)
        case Ok(ess) => Ok(t.(endStates := ess))
  }

  /** Once the end states of a prefix fail, the whole list fails with the same error. */
  lemma {:induction false} RewriteErrorSticks(t: Snapshot, ess: seq<EndState>, i: nat, opts: SnapifyOptions,
                                              ext: Externals)
    requires MappingsInRange(t.mappings)
    requires i <= |ess| && RewriteEndStates(t, ess[..i], opts, ext).Err?
    ensures RewriteEndStates(t, ess, opts, ext) == RewriteEndStates(t, ess[..i], opts, ext)
    decreases |ess|
  {
    if i < |ess| {
      var init := ess[..|ess| - 1];
      assert init[..i] == ess[..i];
      RewriteErrorSticks(t, init, i, opts, ext);
    } else {
      assert ess[..i] == ess;
    }
  }

  /** Rewritten end states keep their number and order, each rewritten on its own and each
      accepted after the ones before it. */
  lemma {:induction false} RewriteEndStatesOk(t: Snapshot, ess: seq<EndState>, opts: SnapifyOptions, ext: Externals)
    requires MappingsInRange(t.mappings) && RewriteEndStates(t, ess, opts, ext).Ok?
    ensures |RewriteEndStates(t, ess, opts, ext).value| == |ess|
    ensures forall i :: 0 <= i < |ess| ==>
      RewriteEndState(t, ess[i], opts, ext) == Ok(RewriteEndStates(t, ess, opts, ext).value[i])
    ensures forall i :: 0 <= i < |ess| ==>
      var out := RewriteEndStates(t, ess, opts, ext).value;
      ext.canAddEndState(t.(endStates := out[..i]), out[i]).OkStatus?
    decreases |ess|
  {
    if |ess| > 0 {
      var init := ess[..|ess| - 1];
      RewriteEndStatesOk(t, init, opts, ext);
      var done := RewriteEndStates(t, init, opts, ext).value;
      var out := RewriteEndStates(t, ess, opts, ext).value;
      assert out == done + [out[|ess| - 1]];
      forall i | 0 <= i < |ess|
        ensures RewriteEndState(t, ess[i], opts, ext) == Ok(out[i])
        ensures ext.canAddEndState(t.(endStates := out[..i]), out[i]).OkStatus?
      {
        if i < |ess| - 1 {
          assert ess[i] == init[i] && out[i] == done[i] && out[..i] == done[..i];
        } else {
          assert out[..i] == done;
        }
      }
    }
  }

  /** When the end states fail, there is a first end state at which they fail: all before it
      are added, and either its own rewriting fails or can_add_expected_end_state rejects
      it. */
  lemma {:induction false} RewriteEndStatesErr(t: Snapshot, ess: seq<EndState>, opts: SnapifyOptions, ext: Externals)
    returns (i: nat)
    requires MappingsInRange(t.mappings) && RewriteEndStates(t, ess, opts, ext).Err?
    ensures i < |ess| && RewriteEndStates(t, ess[..i], opts, ext).Ok?
    ensures RewriteEndState(t, ess[i], opts, ext).Err? ||
      ext.canAddEndState(t.(endStates := RewriteEndStates(t, ess[..i], opts, ext).value),
                         RewriteEndState(t, ess[i], opts, ext).value).ErrStatus?
    decreases |ess|
  {
    var init := ess[..|ess| - 1];
    if RewriteEndStates(t, init, opts, ext).Err? {
      i := RewriteEndStatesErr(t, init, opts, ext);
      assert init[..i] == ess[..i];
    } else {
      i := |ess| - 1;
    }
  }

  /** The loop body of SnapifyMemoryBytes for one end state, against `t`, whose initial
      memory holds the same bytes as that of `s` whenever splitting keeps bytes. */
  method RewriteOneEndState(s: Snapshot, t: Snapshot, es: EndState, opts: SnapifyOptions, ext: Externals)
    returns (r: Result<EndState>)
    requires MappingsInRange(t.mappings) && t.mappings == s.mappings
    requires RunsPreserveBytes(ext.repeatingByteRuns) ==>
      forall a :: ByteAt(InitialMemory(t), a) == ByteAt(InitialMemory(s), a)
    ensures r == RewriteEndState(t, es, opts, ext)
    ensures r.Ok? ==> SnapifiedEndState(s, es, r.value, RunsPreserveBytes(ext.repeatingByteRuns))
  {
    if !es.IsComplete() {
      return Ok(es);
    }
    var esMemory := EndStateMemory(t, es);
    var esList := SnapifyMemoryByteList(esMemory, EndStateCompressionQuery(opts), ext.repeatingByteRuns);
    if esList.Err? {
      return Err(esList.code, esList.msg);
    }
    var est := ext.endStateReplaceCheck(esList.value);
    if est.ErrStatus? {
      return Err(est.code, est.msg);
    }
    ghost var preserve := RunsPreserveBytes(ext.repeatingByteRuns);
    if preserve {
      forall a | true
        ensures ByteAt(esList.value, a) == EndStateByte(s, es, a)
      {
        SnapifiedPreservesBytes(esMemory.written, EndStateCompressionQuery(opts), esMemory.mapped,
                                ext.repeatingByteRuns, a);
        EndStateByteSameMemory(t, s, es, a);
      }
    }
    r := Ok(es.(memoryBytes := esList.value));
  }

  /** SnapifyMemoryBytes: rewrites the snapshot's memory bytes, then every complete end
      state's memory as its writable bytes over that memory, in the form the Snap runner
      replays. The external checks can reject the rewritten lists. */
  method SnapifyMemoryBytes(s: Snapshot, opts: SnapifyOptions, ext: Externals) returns (r: Result<Snapshot>)
    requires MappingsInRange(s.mappings)
    ensures r == SnapifiedMemory(s, opts, ext)
    // Only the memory bytes and the end states change.
    ensures r.Ok? ==> r.value == s.(memoryBytes := r.value.memoryBytes, endStates := r.value.endStates)
    // The initial memory is split as the initial query asks, and holds the same bytes.
    ensures r.Ok? ==>
      Snapified(InitialMemory(s), InitialCompressionQuery(opts), s.mappings, ext.repeatingByteRuns)
        == Ok(r.value.memoryBytes)
    ensures r.Ok? ==> ext.snapshotReplaceCheck(s.mappings, r.value.memoryBytes).OkStatus?
    ensures r.Ok? && RunsPreserveBytes(ext.repeatingByteRuns) ==>
      forall a :: ByteAt(r.value.memoryBytes, a) == ByteAt(InitialMemory(s), a)
    // Each end state is kept in order, with the writable memory of a complete one split as
    // the end-state query asks.
    ensures r.Ok? ==> |r.value.endStates| == |s.endStates|
    ensures r.Ok? ==> forall i :: 0 <= i < |s.endStates| ==>
      RewriteEndState(s.(memoryBytes := r.value.memoryBytes), s.endStates[i], opts, ext) == Ok(r.value.endStates[i])
    ensures r.Ok? ==> forall i :: 0 <= i < |s.endStates| ==>
      SnapifiedEndState(s, s.endStates[i], r.value.endStates[i], RunsPreserveBytes(ext.repeatingByteRuns))
    ensures r.Ok? ==> forall i :: 0 <= i < |s.endStates| && s.endStates[i].IsComplete() ==>
      ext.endStateReplaceCheck(r.value.endStates[i].memoryBytes).OkStatus?
    // It fails only when a split or a check fails.
    ensures r.Err? ==>
      var init := Snapified(InitialMemory(s), InitialCompressionQuery(opts), s.mappings, ext.repeatingByteRuns);
      || init.Err?
      || ext.snapshotReplaceCheck(s.mappings, init.value).ErrStatus?
      || RewriteEndStates(s.(memoryBytes := init.value), s.endStates, opts, ext).Err?
  {
    ghost var preserve := RunsPreserveBytes(ext.repeatingByteRuns);
    var memoryState := new MemoryState.MakeInitial(s);
    var list := SnapifyMemoryByteList(memoryState, InitialCompressionQuery(opts), ext.repeatingByteRuns);
    if list.Err? {
      return Err(list.code, list.msg);
    }
    var st := ext.snapshotReplaceCheck(s.mappings, list.value);
    if st.ErrStatus? {
      return Err(st.code, st.msg);
    }
    var t := s.(memoryBytes := list.value);
    if preserve {
      forall a | true
        ensures ByteAt(t.memoryBytes, a) == ByteAt(InitialMemory(s), a)
        ensures ByteAt(InitialMemory(t), a) == ByteAt(InitialMemory(s), a)
      {
        SnapifiedPreservesBytes(InitialMemory(s), InitialCompressionQuery(opts), s.mappings, ext.repeatingByteRuns, a);
        Absorbs(ZeroFill(s.mappings), t.memoryBytes, s.memoryBytes, a);
      }
    }

    var ess := RewriteAllEndStates(s, t, opts, ext);
    if ess.Err? {
      return Err(ess.code, ess.msg);
    }
    RewriteEndStatesOk(t, s.endStates, opts, ext);
    return Ok(t.(endStates := ess.value));
  }

  /** The end-state loop of SnapifyMemoryBytes: each end state of `s` rewritten against `t`
      and offered to can_add_expected_end_state after the ones before it. */
  method RewriteAllEndStates(s: Snapshot, t: Snapshot, opts: SnapifyOptions, ext: Externals)
    returns (r: Result<seq<EndState>>)
    requires MappingsInRange(t.mappings) && t.mappings == s.mappings
    requires RunsPreserveBytes(ext.repeatingByteRuns) ==>
      forall a :: ByteAt(InitialMemory(t), a) == ByteAt(InitialMemory(s), a)
    ensures r == RewriteEndStates(t, s.endStates, opts, ext)
    ensures r.Ok? ==> |r.value| == |s.endStates| && forall i :: 0 <= i < |s.endStates| ==>
      SnapifiedEndState(s, s.endStates[i], r.value[i], RunsPreserveBytes(ext.repeatingByteRuns))
  {
    ghost var preserve := RunsPreserveBytes(ext.repeatingByteRuns);
    var endStates := s.endStates;
    var done: seq<EndState> := [];
    for i := 0 to |endStates|
      invariant RewriteEndStates(t, endStates[..i], opts, ext) == Ok(done)
      invariant |done| == i
      invariant forall j :: 0 <= j < i ==> SnapifiedEndState(s, endStates[j], done[j], preserve)
    {
      var es := RewriteOneEndState(s, t, endStates[i], opts, ext);
      if es.Err? {
        RewriteStep(t, endStates, i, done, es, opts, ext);
        return Err(es.code, es.msg);
      }
      var canAdd := ext.canAddEndState(t.(endStates := done), es.value);
      RewriteStep(t, endStates, i, done, es, opts, ext);
      if canAdd.ErrStatus? {
        return Err(canAdd.code, canAdd.msg);
      }
      SnapifiedAppend(s, endStates, i, done, es.value, preserve);
      done := done + [es.value];
    }
    assert endStates[..|endStates|] == endStates;
    return Ok(done);
  }

  /** One step of the end-state loop: the rewrite of end state `i` after the ones before it
      either fails the whole list with its error or extends the rewritten prefix. */
  lemma RewriteStep(t: Snapshot, ess: seq<EndState>, i: nat, done: seq<EndState>, out: Result<EndState>,
                    opts: SnapifyOptions, ext: Externals)
    requires MappingsInRange(t.mappings) && i < |ess|
    requires RewriteEndStates(t, ess[..i], opts, ext) == Ok(done)
    requires out == RewriteEndState(t, ess[i], opts, ext)
    ensures out.Err? ==> RewriteEndStates(t, ess, opts, ext) == Err(out.code, out.msg)
    ensures out.Ok? ==>
      var st := ext.canAddEndState(t.(endStates := done), out.value);
      && (st.ErrStatus? ==> RewriteEndStates(t, ess, opts, ext) == Err(st.code, st.msg))
      && (st.OkStatus? ==> RewriteEndStates(t, ess[..i + 1], opts, ext) == Ok(done + [out.value]))
  {
    assert ess[..i + 1][..i] == ess[..i];
    if RewriteEndStates(t, ess[..i + 1], opts, ext).Err? {
      RewriteErrorSticks(t, ess, i + 1, opts, ext);
    }
  }

  /** Appending a rewritten end state keeps every rewritten end state matched with its
      original. */
  lemma SnapifiedAppend(s: Snapshot, ess: seq<EndState>, i: nat, done: seq<EndState>, out: EndState, preserve: bool)
    requires i < |ess| && |done| == i
    requires forall j :: 0 <= j < i ==> SnapifiedEndState(s, ess[j], done[j], preserve)
    requires SnapifiedEndState(s, ess[i], out, preserve)
    ensures forall j :: 0 <= j <= i ==> SnapifiedEndState(s, ess[j], (done + [out])[j], preserve)
  {
    forall j | 0 <= j <= i ensures SnapifiedEndState(s, ess[j], (done + [out])[j], preserve) {
      if j < i {
        assert (done + [out])[j] == done[j];
      }
    }
  }

  // ---------------------------------------------------------------------------
  // MergeExitSequence and Snapify
  // ---------------------------------------------------------------------------

  const kMergeNoRoomMsg := "InsertExitSequence(): no room for the exit sequence"

  /** MergeExitSequence: overwrites the bytes at `address` with the exit sequence, which must
      fit in the existing mappings; no mapping is added. */
  method MergeExitSequence(s: Snapshot, address: u64, ext: Externals) returns (r: Result<Snapshot>)
    ensures !Contains(s.mappings, address, address + |ext.exitSequence(s.arch)|) ==>
      r == Err(InvalidArgument, kMergeNoRoomMsg)
    ensures r.Ok? <==>
      && Contains(s.mappings, address, address + |ext.exitSequence(s.arch)|)
      && ext.snapshotReplaceCheck(s.mappings, InitialMemory(WithExit(s, address, ext))).OkStatus?
    ensures Contains(s.mappings, address, address + |ext.exitSequence(s.arch)|) && r.Err? ==>
      var st := ext.snapshotReplaceCheck(s.mappings, InitialMemory(WithExit(s, address, ext)));
      r == Err(st.code, st.msg)
    // The exit sequence over the snapshot's initial memory.
    ensures r.Ok? ==> r.value == s.(memoryBytes := InitialMemory(WithExit(s, address, ext)))
  {
    var exit := ext.exitSequence(s.arch);
    var mb := MemoryBytes(address, exit);
    if !Contains(s.mappings, address, mb.Limit()) {
      return Err(InvalidArgument, kMergeNoRoomMsg);
    }
    // The initial memory state, with the exit sequence written over it.
    var memoryState := new MemoryState.MakeInitial(s);
    memoryState.SetMemoryBytes(mb);
    var list := memoryState.MemoryBytesList();
    assert list == InitialMemory(WithExit(s, address, ext));
    var st := ext.snapshotReplaceCheck(s.mappings, list);
    if st.ErrStatus? {
      return Err(st.code, st.msg);
    }
    return Ok(s.(memoryBytes := list));
  }

  /** `s` with the exit sequence appended to its memory bytes at `address`. */
  function WithExit(s: Snapshot, address: u64, ext: Externals): Snapshot {
    s.(memoryBytes := s.memoryBytes + [MemoryBytes(address, ext.exitSequence(s.arch))])
  }

  /** The snapshot MergeExitSequence hands on: only the end state `es`, and the exit
      sequence written at its endpoint over the initial memory. */
  function ExitMerged(s: Snapshot, es: EndState, ext: Externals): Snapshot {
    s.(endStates := [es], memoryBytes := InitialMemory(WithExit(s, es.endpoint.instructionAddress, ext)))
  }

  /** What Snapify makes of `s`: CanSnapify's error, MergeExitSequence's error, or what
      SnapifyMemoryBytes makes of the merged snapshot. */
  function SnapifyOutcome(s: Snapshot, opts: SnapifyOptions, ext: Externals): Result<Snapshot>
    requires MappingsInRange(s.mappings)
  {
    var st := CanSnapify(s, opts, ext);
    if st.ErrStatus? then Err(st.code, st.msg)
    else
      var es := s.endStates[EndStateChoice(s, opts).value];
      var address := es.endpoint.instructionAddress;
      if !Contains(s.mappings, address, address + |ext.exitSequence(s.arch)|) then
        Err(InvalidArgument, kMergeNoRoomMsg)
      else
        var merged := ExitMerged(s, es, ext);
        var check := ext.snapshotReplaceCheck(s.mappings, merged.memoryBytes);
        if check.ErrStatus? then Err(check.code, check.msg)
        else SnapifiedMemory(merged, opts, ext)
  }

  /** Once CanSnapify accepts a snapshot, MergeExitSequence always finds room for an exit
      sequence shorter than the address space, so Snapify fails only in the checks and the
      splits of SnapifyMemoryBytes. */
  lemma SnapifySucceeds(s: Snapshot, opts: SnapifyOptions, ext: Externals)
    requires MappingsInRange(s.mappings)
    requires CanSnapify(s, opts, ext).OkStatus? && |ext.exitSequence(s.arch)| < TWO_64
    ensures var merged := ExitMerged(s, s.endStates[EndStateChoice(s, opts).value], ext);
      SnapifyOutcome(s, opts, ext) ==
        if ext.snapshotReplaceCheck(s.mappings, merged.memoryBytes).ErrStatus? then
          Err(ext.snapshotReplaceCheck(s.mappings, merged.memoryBytes).code,
              ext.snapshotReplaceCheck(s.mappings, merged.memoryBytes).msg)
        else SnapifiedMemory(merged, opts, ext)
  {
    var es := s.endStates[EndStateChoice(s, opts).value];
    ExitRoomMapped(s.mappings, es.endpoint.instructionAddress, |ext.exitSequence(s.arch)|);
  }

  /** A Snap has the snapshot's architecture, id, mappings and registers, and one end state. */
  lemma SnapifyOutcomeShape(s: Snapshot, opts: SnapifyOptions, ext: Externals)
    requires MappingsInRange(s.mappings) && SnapifyOutcome(s, opts, ext).Ok?
    ensures var snap := SnapifyOutcome(s, opts, ext).value;
      && snap.arch == s.arch && snap.id == s.id
      && snap.mappings == s.mappings && snap.registers == s.registers
      && |snap.endStates| == 1
  {
    var es := s.endStates[EndStateChoice(s, opts).value];
    var merged := ExitMerged(s, es, ext);
    var list := Snapified(InitialMemory(merged), InitialCompressionQuery(opts), merged.mappings,
                          ext.repeatingByteRuns).value;
    RewriteEndStatesOk(merged.(memoryBytes := list), merged.endStates, opts, ext);
  }

  /** Snapify: the snapshot as a Snap, ending at the picked end state with the exit sequence
      written at its endpoint. */
  method Snapify(s: Snapshot, opts: SnapifyOptions, ext: Externals) returns (r: Result<Snapshot>)
    requires MappingsInRange(s.mappings)
    ensures r == SnapifyOutcome(s, opts, ext)
    ensures CanSnapify(s, opts, ext).ErrStatus? ==>
      r == Err(CanSnapify(s, opts, ext).code, CanSnapify(s, opts, ext).msg)
    ensures r.Ok? ==> CanSnapify(s, opts, ext).OkStatus?
    ensures r.Ok? ==>
      && r.value.arch == s.arch && r.value.id == s.id
      && r.value.mappings == s.mappings && r.value.registers == s.registers
    // Exactly the picked end state remains.
    ensures r.Ok? ==>
      var es := s.endStates[EndStateChoice(s, opts).value];
      && |r.value.endStates| == 1
      && SnapifiedEndState(WithExit(s, es.endpoint.instructionAddress, ext), es, r.value.endStates[0],
                           RunsPreserveBytes(ext.repeatingByteRuns))
    // The initial memory is the snapshot's with the exit sequence at the endpoint.
    ensures r.Ok? && RunsPreserveBytes(ext.repeatingByteRuns) ==>
      var es := s.endStates[EndStateChoice(s, opts).value];
      forall a :: ByteAt(InitialMemory(r.value), a) ==
        ByteAt(InitialMemory(WithExit(s, es.endpoint.instructionAddress, ext)), a)
  {
    var st := CanSnapify(s, opts, ext);
    if st.ErrStatus? {
      return Err(st.code, st.msg);
    }
    var choice := PickEndState(s, opts);
    var es := s.endStates[choice.value];
    var address := es.endpoint.instructionAddress;

    // Keep only the end state for the requested platform.
    var snapified := s.(endStates := [es]);
    var merged := MergeExitSequence(snapified, address, ext);
    if merged.Err? {
      return Err(merged.code, merged.msg);
    }
    r := SnapifyMemoryBytes(merged.value, opts, ext);
    if r.Ok? {
      ghost var w := WithExit(s, address, ext);
      assert merged.value.mappings == w.mappings;
      assert SnapifiedEndState(merged.value, es, r.value.endStates[0], RunsPreserveBytes(ext.repeatingByteRuns));
      forall a | true
        ensures ByteAt(InitialMemory(merged.value), a) == ByteAt(InitialMemory(w), a)
      {
        Absorbs(ZeroFill(s.mappings), merged.value.memoryBytes, w.memoryBytes, a);
      }
      if RunsPreserveBytes(ext.repeatingByteRuns) {
        forall a | true
          ensures EndStateByte(merged.value, es, a) == EndStateByte(w, es, a)
          ensures ByteAt(InitialMemory(r.value), a) == ByteAt(InitialMemory(w), a)
        {
          EndStateByteSameMemory(merged.value, w, es, a);
          Absorbs(ZeroFill(s.mappings), r.value.memoryBytes, merged.value.memoryBytes, a);
        }
      }
    }
  }
}

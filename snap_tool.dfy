/** The snap_tool helpers: extracting a snapshot's instructions, overwriting its bytes,
    choosing where to write, building a corpus of Snaps, and splitting the command line.

    Loading and writing snapshot files, NormalizeMemoryBytes, the checks inside
    ReplaceMemoryBytes and the relocatable-corpus layout are not part of this model; the
    members that need them take them as parameters. */
module SnapTool {
  import opened Common
  import opened Snapshots
  import opened Snapify

  // ---------------------------------------------------------------------------
  // GetInstructions
  // ---------------------------------------------------------------------------

  const kNoEndStateMsg := "Expected at least 1 end state"
  const kInconsistentMsg := "Endpoint position is inconsistent between endstates"
  const kNotFoundMsg := "Could not find instructions in the memory bytes"

  /** Every end state ends at the same instruction address as the first. */
  predicate EndpointsAgree(ess: seq<EndState>)
    requires |ess| > 0
  {
    forall i :: 0 <= i < |ess| ==> ess[i].endpoint.instructionAddress == ess[0].endpoint.instructionAddress
  }

  /** The block holds every address of [begin, end). */
  predicate HoldsRange(b: MemoryBytes, begin: int, end: int) {
    begin >= b.start && end <= b.Limit()
  }

  /** The index of the first block holding [begin, end). */
  function FirstHolding(list: seq<MemoryBytes>, begin: int, end: int): (r: Option<nat>)
    ensures r.Some? ==> r.value < |list| && HoldsRange(list[r.value], begin, end)
    ensures r.Some? ==> forall j :: 0 <= j < r.value ==> !HoldsRange(list[j], begin, end)
    ensures r.None? ==> forall j :: 0 <= j < |list| ==> !HoldsRange(list[j], begin, end)
  {
    if |list| == 0 then None
    else if HoldsRange(list[0], begin, end) then Some(0)
    else match FirstHolding(list[1..], begin, end)
      case None => None
      case Some(i) => Some(i + 1)
  }

  lemma {:induction false} FirstHoldingIs(list: seq<MemoryBytes>, begin: int, end: int, i: nat)
    requires i < |list| && HoldsRange(list[i], begin, end)
    requires forall j :: 0 <= j < i ==> !HoldsRange(list[j], begin, end)
    ensures FirstHolding(list, begin, end) == Some(i)
  {
    if i > 0 {
      FirstHoldingIs(list[1..], begin, end, i - 1);
    }
  }

  /** GetInstructions: the bytes from the initial instruction pointer up to the (common)
      endpoint of the end states, read from the first normalised memory block holding them.
      The bytes are returned instead of written to a file descriptor. */
  method GetInstructions(s: Snapshot, normalize: (seq<MemoryMapping>, seq<MemoryBytes>) -> seq<MemoryBytes>)
    returns (r: Result<seq<byte>>)
    // CHECK_LE(begin_code, end_code)
    requires |s.endStates| > 0 ==> ExtractRip(s.registers) <= s.endStates[0].endpoint.instructionAddress
    ensures |s.endStates| == 0 ==> r == Err(Internal, kNoEndStateMsg)
    ensures |s.endStates| > 0 && !EndpointsAgree(s.endStates) ==> r == Err(Internal, kInconsistentMsg)
    ensures r.Ok? <==>
      && |s.endStates| > 0 && EndpointsAgree(s.endStates)
      && FirstHolding(normalize(s.mappings, s.memoryBytes), ExtractRip(s.registers),
                      s.endStates[0].endpoint.instructionAddress).Some?
    ensures r.Err? && |s.endStates| > 0 && EndpointsAgree(s.endStates) ==> r == Err(Internal, kNotFoundMsg)
    // The instructions are exactly the bytes at [begin, end) of the first block holding them.
    ensures r.Ok? ==>
      var begin, end := ExtractRip(s.registers), s.endStates[0].endpoint.instructionAddress;
      var list := normalize(s.mappings, s.memoryBytes);
      var b := list[FirstHolding(list, begin, end).value];
      && |r.value| == end - begin
      && forall k :: 0 <= k < |r.value| ==> ByteAt([b], begin + k) == Some(r.value[k])
  {
    // The initial instruction pointer points at the first instruction.
    var beginCode := ExtractRip(s.registers);
    if |s.endStates| == 0 {
      return Err(Internal, kNoEndStateMsg);
    }
    // The endpoint is where the exit sequence begins.
    var endCode := s.endStates[0].endpoint.instructionAddress;
    for i := 0 to |s.endStates|
      invariant forall j :: 0 <= j < i ==> s.endStates[j].endpoint.instructionAddress == endCode
    {
      if s.endStates[i].endpoint.instructionAddress != endCode {
        return Err(Internal, kInconsistentMsg);
      }
    }

    // Normalising should put all the instructions inside a single block.
    var memoryBytes := normalize(s.mappings, s.memoryBytes);
    for i := 0 to |memoryBytes|
      invariant forall j :: 0 <= j < i ==> !HoldsRange(memoryBytes[j], beginCode, endCode)
    {
      var bytes := memoryBytes[i];
      if beginCode >= bytes.start && endCode <= bytes.Limit() {
        FirstHoldingIs(memoryBytes, beginCode, endCode, i);
        var beginIndex := beginCode - bytes.start;
        return Ok(bytes.bytes[beginIndex..beginIndex + (endCode - beginCode)]);
      }
    }
    return Err(Internal, kNotFoundMsg);
  }

  // ---------------------------------------------------------------------------
  // SetBytes
  // ---------------------------------------------------------------------------

  const kNotMappedMsg := "The range isn't mapped by the snapshot"

  /** SetBytes: a copy of the snapshot whose memory holds `mb` over its initial memory. The
      bytes must lie inside the existing mappings; no mapping is added. */
  method SetBytes(s: Snapshot, mb: MemoryBytes,
                  replaceCheck: (seq<MemoryMapping>, seq<MemoryBytes>) -> Status)
    returns (r: Result<Snapshot>)
    ensures !Contains(s.mappings, mb.start, mb.Limit()) ==> r == Err(OutOfRange, kNotMappedMsg)
    ensures r.Ok? <==>
      && Contains(s.mappings, mb.start, mb.Limit())
      && replaceCheck(s.mappings, InitialMemory(s) + [mb]).OkStatus?
    ensures r.Ok? ==> r.value == s.(memoryBytes := r.value.memoryBytes)
    // The new bytes where `mb` lies, the snapshot's initial memory elsewhere.
    ensures r.Ok? ==>
      forall a :: ByteAt(r.value.memoryBytes, a) ==
        (if mb.Covers(a) then Some(mb.bytes[a - mb.start]) else ByteAt(InitialMemory(s), a))
  {
    var memoryState := new MemoryState.MakeInitial(s);
    if !Contains(memoryState.mapped, mb.start, mb.Limit()) {
      return Err(OutOfRange, kNotMappedMsg);
    }
    memoryState.SetMemoryBytes(mb);
    var list := memoryState.MemoryBytesList();
    var st := replaceCheck(s.mappings, list);
    if st.ErrStatus? {
      return Err(st.code, st.msg);
    }
    return Ok(s.(memoryBytes := list));
  }

  /** Setting bytes never changes which addresses are mapped, and a byte outside the new
      bytes reads as it did before. */
  lemma SetBytesKeepsOthers(s: Snapshot, mb: MemoryBytes, a: int)
    requires !mb.Covers(a)
    ensures ByteAt(InitialMemory(s) + [mb], a) == ByteAt(InitialMemory(s), a)
  {
    ByteAtAppend(InitialMemory(s), [mb], a);
  }

  // ---------------------------------------------------------------------------
  // OutputPath
  // ---------------------------------------------------------------------------

  /** OutputPath: where a modified snapshot is written; the --out flag (passed as `out`) when
      set, otherwise the input file itself. */
  function OutputPath(out: Option<string>, inputPath: string): (path: string)
    ensures out.Some? ==> path == out.value
    ensures out.None? ==> path == inputPath
  {
    match out
    case Some(p) => p
    case None => inputPath
  }

  // ---------------------------------------------------------------------------
  // GenerateCorpus
  // ---------------------------------------------------------------------------

  const kUndefinedPlatformMsg := "generate_corpus requires a valid platform id"
  const kNoUsableMsg := "No usable Snapshots found"
  /** The prefix ASSIGN_OR_RETURN_IF_NOT_OK_PLUS puts before a load error. */
  const kCannotReadMsg := "Cannot read snapshot; "

  /** The inputs CanSnapify accepts, given that each loads. */
  ghost predicate Usable(load: string -> Result<Snapshot>, opts: SnapifyOptions, ext: Externals, path: string) {
    load(path).Ok? && CanSnapify(load(path).value, opts, ext).OkStatus?
  }

  /** Every snapshot `load` returns has its mappings inside the address space. */
  ghost predicate LoadsInRange(load: string -> Result<Snapshot>) {
    forall p :: load(p).Ok? ==> MappingsInRange(load(p).value.mappings)
  }

  /** `snapify` gives what Snapify makes of every snapshot whose mappings are in range. */
  ghost predicate IsSnapify(snapify: Snapshot -> Result<Snapshot>, opts: SnapifyOptions, ext: Externals) {
    forall s: Snapshot {:trigger SnapifyOutcome(s, opts, ext)} ::
      MappingsInRange(s.mappings) ==> snapify(s) == SnapifyOutcome(s, opts, ext)
  }

  /** What GenerateCorpus keeps of one input: its Snap, or nothing when it does not load or
      Snapify rejects it. */
  function CorpusEntry(load: string -> Result<Snapshot>, snapify: Snapshot -> Result<Snapshot>, path: string)
    : seq<Snapshot>
  {
    if load(path).Ok? && snapify(load(path).value).Ok? then [snapify(load(path).value).value] else []
  }

  /** The Snaps of the first `n` inputs, in input order. */
  function CorpusSnaps(inputs: seq<string>, n: nat, load: string -> Result<Snapshot>,
                       snapify: Snapshot -> Result<Snapshot>): seq<Snapshot>
    requires n <= |inputs|
  {
    if n == 0 then [] else CorpusSnaps(inputs, n - 1, load, snapify) + CorpusEntry(load, snapify, inputs[n - 1])
  }

  /** The first `n` inputs that give no Snap, in input order. */
  function CorpusSkipped(inputs: seq<string>, n: nat, load: string -> Result<Snapshot>,
                         snapify: Snapshot -> Result<Snapshot>): seq<string>
    requires n <= |inputs|
  {
    if n == 0 then []
    else
      CorpusSkipped(inputs, n - 1, load, snapify)
      + (if |CorpusEntry(load, snapify, inputs[n - 1])| == 0 then [inputs[n - 1]] else [])
  }

  /** Every input gives either a Snap or a skip. */
  lemma {:induction false} CorpusCounts(inputs: seq<string>, n: nat, load: string -> Result<Snapshot>,
                                        snapify: Snapshot -> Result<Snapshot>)
    requires n <= |inputs|
    ensures |CorpusSnaps(inputs, n, load, snapify)| + |CorpusSkipped(inputs, n, load, snapify)| == n
  {
    if n > 0 {
      CorpusCounts(inputs, n - 1, load, snapify);
    }
  }

  /** An input that does not load or that CanSnapify rejects gives no Snap. */
  lemma UnusableGivesNoSnap(load: string -> Result<Snapshot>, snapify: Snapshot -> Result<Snapshot>,
                            opts: SnapifyOptions, ext: Externals, path: string)
    requires LoadsInRange(load) && IsSnapify(snapify, opts, ext)
    requires !Usable(load, opts, ext, path)
    ensures CorpusEntry(load, snapify, path) == []
  {
    if load(path).Ok? {
      var s := load(path).value;
      assert SnapifyOutcome(s, opts, ext).Err?;
    }
  }

  /** An input CanSnapify rejects is skipped. */
  lemma {:induction false} CorpusSkipsUnusable(inputs: seq<string>, n: nat, load: string -> Result<Snapshot>,
                                               snapify: Snapshot -> Result<Snapshot>, opts: SnapifyOptions,
                                               ext: Externals)
    requires n <= |inputs| && LoadsInRange(load) && IsSnapify(snapify, opts, ext)
    ensures forall i :: 0 <= i < n && !Usable(load, opts, ext, inputs[i]) ==>
      inputs[i] in CorpusSkipped(inputs, n, load, snapify)
  {
    if n > 0 {
      CorpusSkipsUnusable(inputs, n - 1, load, snapify, opts, ext);
      if !Usable(load, opts, ext, inputs[n - 1]) {
        UnusableGivesNoSnap(load, snapify, opts, ext, inputs[n - 1]);
      }
    }
  }

  /** With no usable input there are no Snaps. */
  lemma {:induction false} CorpusEmptyWhenNoneUsable(inputs: seq<string>, n: nat, load: string -> Result<Snapshot>,
                                                     snapify: Snapshot -> Result<Snapshot>, opts: SnapifyOptions,
                                                     ext: Externals)
    requires n <= |inputs| && LoadsInRange(load) && IsSnapify(snapify, opts, ext)
    requires forall i :: 0 <= i < n ==> !Usable(load, opts, ext, inputs[i])
    ensures CorpusSnaps(inputs, n, load, snapify) == []
  {
    if n > 0 {
      CorpusEmptyWhenNoneUsable(inputs, n - 1, load, snapify, opts, ext);
      UnusableGivesNoSnap(load, snapify, opts, ext, inputs[n - 1]);
    }
  }

  /** A Snap keeps its input's architecture, mappings and registers, and ends in exactly one
      end state. */
  lemma SnapShape(load: string -> Result<Snapshot>, snapify: Snapshot -> Result<Snapshot>,
                  opts: SnapifyOptions, ext: Externals, path: string)
    requires LoadsInRange(load) && IsSnapify(snapify, opts, ext)
    requires |CorpusEntry(load, snapify, path)| > 0
    ensures var s, snap := load(path).value, CorpusEntry(load, snapify, path)[0];
      && snap.arch == s.arch && snap.mappings == s.mappings && snap.registers == s.registers
      && |snap.endStates| == 1
  {
    var s := load(path).value;
    assert snapify(s) == SnapifyOutcome(s, opts, ext);
    SnapifyOutcomeShape(s, opts, ext);
  }

  /** Every Snap ends in exactly one end state. */
  lemma {:induction false} CorpusSnapsShape(inputs: seq<string>, n: nat, load: string -> Result<Snapshot>,
                                            snapify: Snapshot -> Result<Snapshot>, opts: SnapifyOptions,
                                            ext: Externals)
    requires n <= |inputs| && LoadsInRange(load) && IsSnapify(snapify, opts, ext)
    ensures forall k :: 0 <= k < |CorpusSnaps(inputs, n, load, snapify)| ==>
      |CorpusSnaps(inputs, n, load, snapify)[k].endStates| == 1
  {
    if n > 0 {
      var path := inputs[n - 1];
      CorpusSnapsShape(inputs, n - 1, load, snapify, opts, ext);
      if |CorpusEntry(load, snapify, path)| > 0 {
        SnapShape(load, snapify, opts, ext, path);
      }
      var snaps := CorpusSnaps(inputs, n, load, snapify);
      var before := CorpusSnaps(inputs, n - 1, load, snapify);
      forall k | 0 <= k < |snaps| ensures |snaps[k].endStates| == 1 {
        if k < |before| {
          assert snaps[k] == before[k];
        }
      }
    }
  }

  /** One input of GenerateCorpus, loaded as `s` from `path`: its Snap, or nothing when
      Snapify rejects it (the rejection is only logged). */
  method SnapifyForCorpus(s: Snapshot, opts: SnapifyOptions, ext: Externals, ghost load: string -> Result<Snapshot>,
                          ghost snapify: Snapshot -> Result<Snapshot>, ghost path: string)
    returns (snap: Option<Snapshot>)
    requires load(path) == Ok(s) && MappingsInRange(s.mappings) && IsSnapify(snapify, opts, ext)
    ensures CorpusEntry(load, snapify, path) == if snap.Some? then [snap.value] else []
  {
    var r := Snapify.Snapify(s, opts, ext);
    snap := if r.Ok? then Some(r.value) else None;
  }

  /** GenerateCorpus: loads and snapifies every input, skipping those Snapify rejects. The
      relocatable corpus built from the Snaps and its output are not modelled; the Snaps
      are returned. `load` stands for reading (or, in raw mode, building) a snapshot, and
      `baseOpts` for SnapifyOptions::V2InputRunOpts of the platform's architecture. */
  method GenerateCorpus(inputs: seq<string>, platformId: PlatformId, baseOpts: SnapifyOptions,
                        load: string -> Result<Snapshot>, ext: Externals,
                        ghost snapify: Snapshot -> Result<Snapshot>)
    returns (r: Result<seq<Snapshot>>, skipped: seq<string>)
    // Snapshot::MemoryMapping never reaches past the top of the address space.
    requires LoadsInRange(load)
    // `snapify` names Snapify with the options GenerateCorpus uses.
    requires IsSnapify(snapify, baseOpts.(platformId := platformId), ext)
    ensures platformId == UndefinedPlatform ==> r == Err(InvalidArgument, kUndefinedPlatformMsg)
    // It succeeds exactly when the platform is defined, every input loads and some input
    // gives a Snap.
    ensures r.Ok? <==>
      && platformId != UndefinedPlatform
      && (forall i :: 0 <= i < |inputs| ==> load(inputs[i]).Ok?)
      && |CorpusSnaps(inputs, |inputs|, load, snapify)| > 0
    // The first input that fails to load ends the call with its load error.
    ensures platformId != UndefinedPlatform ==>
      forall i :: 0 <= i < |inputs| && load(inputs[i]).Err? && (forall j :: 0 <= j < i ==> load(inputs[j]).Ok?) ==>
        r == Err(load(inputs[i]).code, kCannotReadMsg + load(inputs[i]).msg)
    // The Snaps are those of the inputs Snapify accepts, in input order; the rest are skipped.
    ensures r.Ok? ==>
      && r.value == CorpusSnaps(inputs, |inputs|, load, snapify)
      && skipped == CorpusSkipped(inputs, |inputs|, load, snapify)
    // Every input is either made into a Snap or skipped, and at least one is made.
    ensures r.Ok? ==> 0 < |r.value| && |r.value| + |skipped| == |inputs|
    ensures r.Ok? ==> forall i :: 0 <= i < |inputs| && !Usable(load, baseOpts.(platformId := platformId), ext, inputs[i]) ==>
      inputs[i] in skipped
    ensures r.Ok? ==> forall i :: 0 <= i < |r.value| ==> |r.value[i].endStates| == 1
    // When no input is usable, the call fails.
    ensures (&& platformId != UndefinedPlatform
             && (forall i :: 0 <= i < |inputs| ==> load(inputs[i]).Ok?)
             && (forall i :: 0 <= i < |inputs| ==> !Usable(load, baseOpts.(platformId := platformId), ext, inputs[i])))
      ==> r == Err(InvalidArgument, kNoUsableMsg)
  {
    skipped := [];
    if platformId == UndefinedPlatform {
      return Err(InvalidArgument, kUndefinedPlatformMsg), skipped;
    }
    var opts := baseOpts.(platformId := platformId);

    var corpus: seq<Snapshot> := [];
    for i := 0 to |inputs|
      invariant forall j :: 0 <= j < i ==> load(inputs[j]).Ok?
      invariant corpus == CorpusSnaps(inputs, i, load, snapify)
      invariant skipped == CorpusSkipped(inputs, i, load, snapify)
    {
      var path := inputs[i];
      var snapshot := load(path);
      if snapshot.Err? {
        return Err(snapshot.code, kCannotReadMsg + snapshot.msg), skipped;
      }
      var snapified := SnapifyForCorpus(snapshot.value, opts, ext, load, snapify, path);
      if snapified.None? {
        skipped := skipped + [path];
        continue;
      }
      corpus := corpus + [snapified.value];
    }
    CorpusCounts(inputs, |inputs|, load, snapify);
    CorpusSkipsUnusable(inputs, |inputs|, load, snapify, opts, ext);
    CorpusSnapsShape(inputs, |inputs|, load, snapify, opts, ext);
    if forall i :: 0 <= i < |inputs| ==> !Usable(load, opts, ext, inputs[i]) {
      CorpusEmptyWhenNoneUsable(inputs, |inputs|, load, snapify, opts, ext);
    }
    if |corpus| == 0 {
      return Err(InvalidArgument, kNoUsableMsg), skipped;
    }
    return Ok(corpus), skipped;
  }

  // ---------------------------------------------------------------------------
  // SnapToolMain's command line
  // ---------------------------------------------------------------------------

  const kUsageMsg := "Expected one of {print,set_id,set_end,make,play,generate_corpus,get_instructions,trace,set_bytes,set_pc} and a snapshot file name(s)."

  /** The command, the snapshot file and the command's own arguments. */
  datatype CommandLine = CommandLine(command: string, snapshotFile: string, rest: seq<string>)

  /** The start of SnapToolMain: consumes the command and the snapshot file name from the
      positional arguments, which must hold at least both. */
  method SplitCommandLine(args: seq<string>) returns (r: Result<CommandLine>)
    ensures r.Ok? <==> |args| >= 2
    ensures r.Err? ==> r == Err(InvalidArgument, kUsageMsg)
    // Nothing is lost or reordered.
    ensures r.Ok? ==> [r.value.command, r.value.snapshotFile] + r.value.rest == args
  {
    var remaining := args;
    if |remaining| < 2 {
      return Err(InvalidArgument, kUsageMsg);
    }
    var command := remaining[0];
    remaining := remaining[1..];
    var snapshotFile := remaining[0];
    remaining := remaining[1..];
    assert args == [command, snapshotFile] + remaining;
    return Ok(CommandLine(command, snapshotFile, remaining));
  }
}

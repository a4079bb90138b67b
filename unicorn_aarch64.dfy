/** The AArch64 fuzz-input acceptance harness: an input is accepted when the emulator runs
    it from the code address to just past its last instruction without an error.

    The Unicorn emulator itself is not part of this model. Its context is the `Engine`
    class below, whose state is the mapped regions, the register file and the memory
    writes; what each Unicorn call answers (error codes, where a run stops) is supplied by
    a `Backend` value of functions over that state. LOG_FATAL ends the process, which the
    model records as an `Aborted` outcome naming the failing step. */
module UnicornAArch64 {
  import opened Common
  import opened ProxyConfig

  // ---------------------------------------------------------------------------
  // Emulator state and behaviour
  // ---------------------------------------------------------------------------

  const UC_ERR_OK: int := 0
  const UC_PROT_READ: int := 1
  const UC_PROT_WRITE: int := 2
  const UC_PROT_EXEC: int := 4

  /** The registers the harness touches. */
  datatype Reg = SP | X6 | X7 | PC

  /** A uc_mem_map request. */
  datatype Region = Region(addr: u64, size: u64, prot: int)

  /** A uc_mem_write that took effect. */
  datatype MemoryWrite = MemoryWrite(addr: u64, data: seq<byte>)

  /** The state of an emulator context. */
  datatype Context = Context(regions: seq<Region>, regs: map<Reg, u64>, writes: seq<MemoryWrite>)

  /** A freshly opened context: nothing mapped, no register written. */
  const EmptyContext := Context([], map[], [])

  /** The arguments of uc_emu_start. */
  datatype RunRequest = RunRequest(begin: u64, until: u64, timeout: int, count: int)

  /** What uc_emu_start returns, and where the PC ends up. */
  datatype RunResult = RunResult(err: int, pc: u64)

  /** How the emulator answers each call, given its current state. */
  datatype Backend = Backend(
    openErr: int,
    mapErr: (Context, Region) -> int,
    writeErr: (Context, MemoryWrite) -> int,
    regWriteErr: (Context, Reg, u64) -> int,
    regReadErr: (Context, Reg) -> int,
    run: (Context, RunRequest) -> RunResult)

  /** An emulator context (uc_engine). */
  class Engine {
    const backend: Backend
    var ctx: Context
    var closed: bool

    /** uc_open, when it succeeds. */
    constructor Open(b: Backend)
      requires b.openErr == UC_ERR_OK
      ensures backend == b && ctx == EmptyContext && !closed
    {
      backend := b;
      ctx := EmptyContext;
      closed := false;
    }

    /** uc_mem_map: adds the region unless the emulator reports an error. */
    method MemMap(r: Region) returns (err: int)
      requires !closed
      modifies this
      ensures err == backend.mapErr(old(ctx), r)
      ensures ctx == (if err == UC_ERR_OK then old(ctx).(regions := old(ctx).regions + [r]) else old(ctx))
      ensures !closed
    {
      err := backend.mapErr(ctx, r);
      if err == UC_ERR_OK {
        ctx := ctx.(regions := ctx.regions + [r]);
      }
    }

    /** uc_mem_write: records the write unless the emulator reports an error. */
    method MemWrite(addr: u64, data: seq<byte>) returns (err: int)
      requires !closed
      modifies this
      ensures err == backend.writeErr(old(ctx), MemoryWrite(addr, data))
      ensures ctx == (if err == UC_ERR_OK then old(ctx).(writes := old(ctx).writes + [MemoryWrite(addr, data)])
                      else old(ctx))
      ensures !closed
    {
      err := backend.writeErr(ctx, MemoryWrite(addr, data));
      if err == UC_ERR_OK {
        ctx := ctx.(writes := ctx.writes + [MemoryWrite(addr, data)]);
      }
    }

    /** uc_reg_write: sets the register unless the emulator reports an error. */
    method RegWrite(reg: Reg, value: u64) returns (err: int)
      requires !closed
      modifies this
      ensures err == backend.regWriteErr(old(ctx), reg, value)
      ensures ctx == (if err == UC_ERR_OK then old(ctx).(regs := old(ctx).regs[reg := value]) else old(ctx))
      ensures !closed
    {
      err := backend.regWriteErr(ctx, reg, value);
      if err == UC_ERR_OK {
        ctx := ctx.(regs := ctx.regs[reg := value]);
      }
    }

    /** uc_reg_read: the register's value (0 when never written). */
    method RegRead(reg: Reg) returns (err: int, value: u64)
      requires !closed
      ensures err == backend.regReadErr(ctx, reg)
      ensures value == (if reg in ctx.regs then ctx.regs[reg] else 0)
    {
      err := backend.regReadErr(ctx, reg);
      value := if reg in ctx.regs then ctx.regs[reg] else 0;
    }

    /** uc_emu_start: runs the code; the PC is left where the run stopped. */
    method EmuStart(req: RunRequest) returns (err: int)
      requires !closed
      modifies this
      ensures err == backend.run(old(ctx), req).err
      ensures ctx == old(ctx).(regs := old(ctx).regs[PC := backend.run(old(ctx), req).pc])
      ensures !closed
    {
      var res := backend.run(ctx, req);
      ctx := ctx.(regs := ctx.regs[PC := res.pc]);
      err := res.err;
    }

    /** uc_close */
    method Close()
      modifies this
      ensures closed && ctx == old(ctx)
    {
      closed := true;
    }
  }

  /** uc_open: a new context, or the error and no context. */
  method UcOpen(b: Backend) returns (err: int, uc: Engine?)
    ensures err == b.openErr
    ensures err == UC_ERR_OK ==> uc != null && fresh(uc) && uc.backend == b && uc.ctx == EmptyContext && !uc.closed
    ensures err != UC_ERR_OK ==> uc == null
  {
    err := b.openErr;
    if err == UC_ERR_OK {
      uc := new Engine.Open(b);
    } else {
      uc := null;
    }
  }

  /** map_memory: maps a region; false when the mapping failed, after which the process
      aborts. */
  method MapMemory(uc: Engine, addr: u64, size: u64, prot: int) returns (mapped: bool)
    requires !uc.closed
    modifies uc
    ensures mapped == (uc.backend.mapErr(old(uc.ctx), Region(addr, size, prot)) == UC_ERR_OK)
    ensures uc.ctx == (if mapped then old(uc.ctx).(regions := old(uc.ctx).regions + [Region(addr, size, prot)])
                       else old(uc.ctx))
    ensures !uc.closed
  {
    var err := uc.MemMap(Region(addr, size, prot));
    mapped := err == UC_ERR_OK;
  }

  /** set_reg: writes a register; false when the write failed, after which the process
      aborts. */
  method SetReg(uc: Engine, reg: Reg, value: u64) returns (written: bool)
    requires !uc.closed
    modifies uc
    ensures written == (uc.backend.regWriteErr(old(uc.ctx), reg, value) == UC_ERR_OK)
    ensures uc.ctx == (if written then old(uc.ctx).(regs := old(uc.ctx).regs[reg := value]) else old(uc.ctx))
    ensures !uc.closed
  {
    var err := uc.RegWrite(reg, value);
    written := err == UC_ERR_OK;
  }

  // ---------------------------------------------------------------------------
  // The harness as a specification
  // ---------------------------------------------------------------------------

  /** The code region's fixed size, independent of the configured code range. */
  const kCodeSize: nat := 0x1000
  /** The instruction budget of one run. */
  const kMaxInstExecuted: nat := 0x1000

  /** How RunAArch64Instructions ends. */
  datatype Step = OpenStep | SetupStep(index: nat) | ReadPcStep
  datatype Outcome = Returned(code: int) | Aborted(step: Step)

  /** One setup call: a region to map, the instruction write, or a register to set. */
  datatype Op = MapOp(region: Region) | WriteOp(write: MemoryWrite) | SetRegOp(reg: Reg, value: u64)

  /** The inputs the harness turns away before creating an emulator. */
  predicate LengthRejected(insns: seq<byte>) {
    |insns| < 4 || |insns| % 4 != 0 || |insns| > kCodeSize
  }

  /** The setup calls, in order. */
  function SetupPlan(insns: seq<byte>, config: FuzzingConfigAArch64): (plan: seq<Op>)
    ensures |plan| == 8
  {
    var code := config.codeRange.startAddress;
    [ MapOp(Region(code, kCodeSize, UC_PROT_EXEC)),
      WriteOp(MemoryWrite(code, insns)),
      MapOp(Region(config.stackRange.startAddress, config.stackRange.numBytes, UC_PROT_READ + UC_PROT_WRITE)),
      SetRegOp(SP, AddU64(config.stackRange.startAddress, config.stackRange.numBytes)),
      MapOp(Region(config.data1Range.startAddress, config.data1Range.numBytes, UC_PROT_READ + UC_PROT_WRITE)),
      MapOp(Region(config.data2Range.startAddress, config.data2Range.numBytes, UC_PROT_READ + UC_PROT_WRITE)),
      SetRegOp(X6, config.data1Range.startAddress),
      SetRegOp(X7, config.data2Range.startAddress) ]
  }

  /** The effect of one setup call: None when it is fatal. A failed write is ignored. */
  function StepOp(b: Backend, ctx: Context, op: Op): Option<Context> {
    match op
    case MapOp(r) =>
      if b.mapErr(ctx, r) != UC_ERR_OK then None else Some(ctx.(regions := ctx.regions + [r]))
    case WriteOp(w) =>
      Some(if b.writeErr(ctx, w) == UC_ERR_OK then ctx.(writes := ctx.writes + [w]) else ctx)
    case SetRegOp(reg, v) =>
      if b.regWriteErr(ctx, reg, v) != UC_ERR_OK then None else Some(ctx.(regs := ctx.regs[reg := v]))
  }

  datatype SetupResult = SetupFailed(index: nat) | SetupDone(ctx: Context)

  /** Performs the setup calls of `plan` from call k on, starting from `ctx`. */
  function RunSetup(b: Backend, plan: seq<Op>, ctx: Context, k: nat): SetupResult
    decreases |plan| - k
  {
    if k >= |plan| then SetupDone(ctx)
    else match StepOp(b, ctx, plan[k])
      case None => SetupFailed(k)
      case Some(next) => RunSetup(b, plan, next, k + 1)
  }

  /** The uc_emu_start arguments: from the code address to just past the input, no
      timeout, at most 0x1000 instructions. */
  function RunRequestFor(insns: seq<byte>, config: FuzzingConfigAArch64): (req: RunRequest)
    requires |insns| <= kCodeSize
    ensures req.begin == config.codeRange.startAddress
    ensures req.until == AddU64(config.codeRange.startAddress, |insns|)
    ensures req.timeout == 0 && req.count == kMaxInstExecuted
  {
    RunRequest(config.codeRange.startAddress, AddU64(config.codeRange.startAddress, |insns|), 0, kMaxInstExecuted)
  }

  /** 0 when the run reported no error and stopped exactly at the end of the code, else -1. */
  function Classify(err: int, pc: u64, endOfCode: u64): int {
    if err == UC_ERR_OK && pc == endOfCode then 0 else -1
  }

  /** What RunAArch64Instructions does, call by call. */
  function HarnessOutcome(insns: seq<byte>, config: FuzzingConfigAArch64, b: Backend): Outcome {
    if LengthRejected(insns) then Returned(-1)
    else if b.openErr != UC_ERR_OK then Aborted(OpenStep)
    else match RunSetup(b, SetupPlan(insns, config), EmptyContext, 0)
      case SetupFailed(i) => Aborted(SetupStep(i))
      case SetupDone(ctx) =>
        var req := RunRequestFor(insns, config);
        var res := b.run(ctx, req);
        var after := ctx.(regs := ctx.regs[PC := res.pc]);
        if b.regReadErr(after, PC) != UC_ERR_OK then Aborted(ReadPcStep)
        else Returned(Classify(res.err, res.pc, req.until))
  }

  // ---------------------------------------------------------------------------
  // The harness
  // ---------------------------------------------------------------------------

  /** The setup part of RunAArch64Instructions: maps the code, writes it, maps the stack
      and sets SP, maps both data regions and seeds x6/x7. Returns the index of the call
      whose failure is fatal, if any. */
  method SetUpContext(e: Engine, insns: seq<byte>, config: FuzzingConfigAArch64) returns (failedAt: Option<nat>)
    requires !e.closed && e.ctx == EmptyContext
    modifies e
    ensures !e.closed
    ensures failedAt.Some? ==> RunSetup(e.backend, SetupPlan(insns, config), EmptyContext, 0) == SetupFailed(failedAt.value)
    ensures failedAt.None? ==> RunSetup(e.backend, SetupPlan(insns, config), EmptyContext, 0) == SetupDone(e.ctx)
  {
    ghost var b := e.backend;
    ghost var plan := SetupPlan(insns, config);
    // What the whole setup yields; each call below moves one step further into it.
    ghost var goal := RunSetup(b, plan, EmptyContext, 0);
    var kCodeAddr := config.codeRange.startAddress;

    var ok := MapMemory(e, kCodeAddr, kCodeSize, UC_PROT_EXEC);
    if !ok {
      return Some(0);
    }
    assert goal == RunSetup(b, plan, e.ctx, 1);
    // The write's result is ignored.
    var _ := e.MemWrite(kCodeAddr, insns);
    assert goal == RunSetup(b, plan, e.ctx, 2);

    ok := MapMemory(e, config.stackRange.startAddress, config.stackRange.numBytes,
                    UC_PROT_READ + UC_PROT_WRITE);
    if !ok {
      return Some(2);
    }
    assert goal == RunSetup(b, plan, e.ctx, 3);
    // The stack grows down from one past its last byte.
    ok := SetReg(e, SP, AddU64(config.stackRange.startAddress, config.stackRange.numBytes));
    if !ok {
      return Some(3);
    }
    assert goal == RunSetup(b, plan, e.ctx, 4);

    ok := MapMemory(e, config.data1Range.startAddress, config.data1Range.numBytes,
                    UC_PROT_READ + UC_PROT_WRITE);
    if !ok {
      return Some(4);
    }
    assert goal == RunSetup(b, plan, e.ctx, 5);
    ok := MapMemory(e, config.data2Range.startAddress, config.data2Range.numBytes,
                    UC_PROT_READ + UC_PROT_WRITE);
    if !ok {
      return Some(5);
    }
    assert goal == RunSetup(b, plan, e.ctx, 6);

    // The data region addresses are made discoverable in x6 and x7.
    ok := SetReg(e, X6, config.data1Range.startAddress);
    if !ok {
      return Some(6);
    }
    assert goal == RunSetup(b, plan, e.ctx, 7);
    ok := SetReg(e, X7, config.data2Range.startAddress);
    if !ok {
      return Some(7);
    }
    assert goal == RunSetup(b, plan, e.ctx, 8);
    return None;
  }

  /** RunAArch64Instructions, with the fuzzing configuration and the emulator as
      parameters. `uc` is the context the harness opened, if any. */
  method RunAArch64Instructions(insns: seq<byte>, config: FuzzingConfigAArch64, b: Backend)
    returns (outcome: Outcome, ghost uc: Engine?)
    ensures outcome == HarnessOutcome(insns, config, b)
    // No context is opened for an input rejected by its length.
    ensures uc == null <==> LengthRejected(insns) || b.openErr != UC_ERR_OK
    // The context is closed on every path that returns, and on no path that aborts.
    ensures uc != null ==> (uc.closed <==> outcome.Returned?)
  {
    // Require at least one complete instruction, and no more than the code region.
    if |insns| < 4 {
      return Returned(-1), null;
    }
    if |insns| % 4 != 0 {
      return Returned(-1), null;
    }
    var kCodeAddr := config.codeRange.startAddress;
    if |insns| > kCodeSize {
      return Returned(-1), null;
    }

    var err, e := UcOpen(b);
    if err != UC_ERR_OK {
      return Aborted(OpenStep), null;
    }
    uc := e;
    var failedAt := SetUpContext(e, insns, config);
    if failedAt.Some? {
      return Aborted(SetupStep(failedAt.value)), e;
    }

    var endOfCode := AddU64(kCodeAddr, |insns|);
    err := e.EmuStart(RunRequest(kCodeAddr, endOfCode, 0, kMaxInstExecuted));

    var inputIsAcceptable := true;
    // The emulator must stop cleanly...
    if err != UC_ERR_OK {
      inputIsAcceptable := false;
    }
    // ...and at the right address: reaching the instruction budget is not an error.
    var readErr, pc := e.RegRead(PC);
    if readErr != UC_ERR_OK {
      return Aborted(ReadPcStep), e;
    }
    if pc != endOfCode {
      inputIsAcceptable := false;
    }

    e.Close();
    return Returned(if inputIsAcceptable then 0 else -1), e;
  }

  // ---------------------------------------------------------------------------
  // Properties of the harness
  // ---------------------------------------------------------------------------

  /** The regions mapped by the setup calls of `plan` from call k on. */
  function MappedBy(plan: seq<Op>, k: nat): seq<Region>
    decreases |plan| - k
  {
    if k >= |plan| then []
    else (if plan[k].MapOp? then [plan[k].region] else []) + MappedBy(plan, k + 1)
  }

  /** The register file after the setup calls of `plan` from call k on. */
  function RegsAfter(regs: map<Reg, u64>, plan: seq<Op>, k: nat): map<Reg, u64>
    decreases |plan| - k
  {
    if k >= |plan| then regs
    else RegsAfter(if plan[k].SetRegOp? then regs[plan[k].reg := plan[k].value] else regs, plan, k + 1)
  }

  /** A setup that completes has made every mapping and register write of its plan. */
  lemma {:induction false} SetupDoneEffects(b: Backend, plan: seq<Op>, ctx: Context, k: nat)
    requires RunSetup(b, plan, ctx, k).SetupDone?
    ensures RunSetup(b, plan, ctx, k).ctx.regions == ctx.regions + MappedBy(plan, k)
    ensures RunSetup(b, plan, ctx, k).ctx.regs == RegsAfter(ctx.regs, plan, k)
    decreases |plan| - k
  {
    if k < |plan| {
      var next := StepOp(b, ctx, plan[k]).value;
      SetupDoneEffects(b, plan, next, k + 1);
    }
  }

  /** A setup that fails stops at one of its own calls, and never at the memory write. */
  lemma {:induction false} SetupFailsAtFatalCall(b: Backend, plan: seq<Op>, ctx: Context, k: nat)
    requires RunSetup(b, plan, ctx, k).SetupFailed?
    ensures var i := RunSetup(b, plan, ctx, k).index;
      k <= i < |plan| && !plan[i].WriteOp?
    decreases |plan| - k
  {
    if StepOp(b, ctx, plan[k]).Some? {
      SetupFailsAtFatalCall(b, plan, StepOp(b, ctx, plan[k]).value, k + 1);
    }
  }

  /** After a completed setup the code, stack and both data regions are mapped, in that
      order and nothing else. */
  lemma SetupRegions(insns: seq<byte>, config: FuzzingConfigAArch64, b: Backend)
    requires RunSetup(b, SetupPlan(insns, config), EmptyContext, 0).SetupDone?
    ensures RunSetup(b, SetupPlan(insns, config), EmptyContext, 0).ctx.regions ==
      [Region(config.codeRange.startAddress, kCodeSize, UC_PROT_EXEC),
       Region(config.stackRange.startAddress, config.stackRange.numBytes, UC_PROT_READ + UC_PROT_WRITE),
       Region(config.data1Range.startAddress, config.data1Range.numBytes, UC_PROT_READ + UC_PROT_WRITE),
       Region(config.data2Range.startAddress, config.data2Range.numBytes, UC_PROT_READ + UC_PROT_WRITE)]
  {
    var plan := SetupPlan(insns, config);
    SetupDoneEffects(b, plan, EmptyContext, 0);
    // One call at a time, from the last.
    assert MappedBy(plan, 8) == [];
    assert MappedBy(plan, 7) == [];
    assert MappedBy(plan, 6) == [];
    assert MappedBy(plan, 5) == [plan[5].region];
    assert MappedBy(plan, 4) == [plan[4].region, plan[5].region];
    assert MappedBy(plan, 3) == MappedBy(plan, 4);
    assert MappedBy(plan, 2) == [plan[2].region] + MappedBy(plan, 3);
    assert MappedBy(plan, 1) == MappedBy(plan, 2);
  }

  /** After a completed setup SP is one past the stack, x6 and x7 hold the data region
      starts, and no other register has been written. */
  lemma SetupRegisters(insns: seq<byte>, config: FuzzingConfigAArch64, b: Backend)
    requires RunSetup(b, SetupPlan(insns, config), EmptyContext, 0).SetupDone?
    ensures var regs := RunSetup(b, SetupPlan(insns, config), EmptyContext, 0).ctx.regs;
      && regs.Keys == {SP, X6, X7}
      && regs[SP] == AddU64(config.stackRange.startAddress, config.stackRange.numBytes)
      && regs[X6] == config.data1Range.startAddress
      && regs[X7] == config.data2Range.startAddress
  {
    var plan := SetupPlan(insns, config);
    SetupDoneEffects(b, plan, EmptyContext, 0);
    var none: map<Reg, u64> := map[];
    var sp := none[SP := AddU64(config.stackRange.startAddress, config.stackRange.numBytes)];
    var x6 := sp[X6 := config.data1Range.startAddress];
    var x7 := x6[X7 := config.data2Range.startAddress];
    // One call at a time, from the last.
    assert RegsAfter(x7, plan, 8) == x7;
    assert RegsAfter(x6, plan, 7) == x7;
    assert RegsAfter(sp, plan, 6) == x7;
    assert RegsAfter(sp, plan, 5) == x7;
    assert RegsAfter(sp, plan, 4) == x7;
    assert RegsAfter(none, plan, 3) == x7;
    assert RegsAfter(none, plan, 2) == x7;
    assert RegsAfter(none, plan, 1) == x7;
  }

  /** An abort comes only from the emulator reporting an error on a fatal call: opening,
      a mapping, a register write or the PC read; the ignored memory write never aborts. */
  lemma AbortsOnlyOnFatalCalls(insns: seq<byte>, config: FuzzingConfigAArch64, b: Backend)
    requires HarnessOutcome(insns, config, b).Aborted?
    ensures !LengthRejected(insns)
    ensures var s := HarnessOutcome(insns, config, b).step;
      && (s.OpenStep? <==> b.openErr != UC_ERR_OK)
      && (s.SetupStep? ==> s.index in {0, 2, 3, 4, 5, 6, 7})
  {
    if b.openErr == UC_ERR_OK {
      var plan := SetupPlan(insns, config);
      if RunSetup(b, plan, EmptyContext, 0).SetupFailed? {
        SetupFailsAtFatalCall(b, plan, EmptyContext, 0);
      }
    }
  }

  /** The length checks come first and use the fixed 0x1000-byte code size: a rejected
      length gives -1 whatever the configuration and the emulator would do. */
  lemma LengthRejectedIgnoresConfig(insns: seq<byte>, c1: FuzzingConfigAArch64, c2: FuzzingConfigAArch64,
                                    b1: Backend, b2: Backend)
    ensures LengthRejected(insns) <==> |insns| < 4 || |insns| % 4 != 0 || |insns| > 0x1000
    ensures LengthRejected(insns) ==>
      HarnessOutcome(insns, c1, b1) == HarnessOutcome(insns, c2, b2) == Returned(-1)
  {
  }

  /** The input is accepted (0) exactly when it has an acceptable length, every setup call
      succeeds, and the run ends without error exactly at code start + length; every other
      returned result is -1. */
  lemma AcceptedExactly(insns: seq<byte>, config: FuzzingConfigAArch64, b: Backend)
    ensures HarnessOutcome(insns, config, b) == Returned(0) <==>
      && !LengthRejected(insns) && b.openErr == UC_ERR_OK
      && var setup := RunSetup(b, SetupPlan(insns, config), EmptyContext, 0);
         && setup.SetupDone?
         && var res := b.run(setup.ctx, RunRequestFor(insns, config));
            && b.regReadErr(setup.ctx.(regs := setup.ctx.regs[PC := res.pc]), PC) == UC_ERR_OK
            && res.err == UC_ERR_OK
            && res.pc == AddU64(config.codeRange.startAddress, |insns|)
    ensures HarnessOutcome(insns, config, b).Returned? ==> HarnessOutcome(insns, config, b).code in {0, -1}
  {
  }
}

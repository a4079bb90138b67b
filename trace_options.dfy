/** Options for tracing a snapshot: a plain, copyable value with defaults. */
module TraceConfig {

  /** PlayOptions belong to the player; only their presence is modelled. */
  datatype PlayOptions = PlayOptions

  /** TraceOptions: the play options, an instruction ceiling (0 = unlimited) and three filters. */
  datatype TraceOptions = TraceOptions(
    playOptions: PlayOptions,
    instructionCountLimit: int,
    x86FilterSplitLock: bool,
    filterNonDeterministicInsn: bool,
    x86FilterVsyscallRegionAccess: bool)

  /** TraceOptions::Default(): the value every default-initialised field takes. */
  function Default(): (o: TraceOptions)
    ensures o.instructionCountLimit == 1000
    ensures o.x86FilterSplitLock && o.filterNonDeterministicInsn && o.x86FilterVsyscallRegionAccess
    ensures o.playOptions == PlayOptions
  {
    TraceOptions(PlayOptions, 1000, true, true, true)
  }

  /** Whether a tracer that has executed `executed` instructions must stop; 0 means no limit. */
  predicate InstructionLimitReached(o: TraceOptions, executed: nat)
  {
    o.instructionCountLimit != 0 && executed >= o.instructionCountLimit
  }

  /** A limit of 0 never stops the tracer; a positive limit stops it exactly from that count on. */
  lemma LimitZeroIsUnlimited(o: TraceOptions, executed: nat)
    ensures o.instructionCountLimit == 0 ==> !InstructionLimitReached(o, executed)
    ensures o.instructionCountLimit > 0 ==>
      (InstructionLimitReached(o, executed) <==> executed >= o.instructionCountLimit)
  {
  }

  /** Overriding one field of a copy leaves every other field as it was. */
  function WithInstructionCountLimit(o: TraceOptions, limit: int): (c: TraceOptions)
    ensures c.instructionCountLimit == limit
    ensures c.playOptions == o.playOptions && c.x86FilterSplitLock == o.x86FilterSplitLock
    ensures c.filterNonDeterministicInsn == o.filterNonDeterministicInsn
    ensures c.x86FilterVsyscallRegionAccess == o.x86FilterVsyscallRegionAccess
  {
    o.(instructionCountLimit := limit)
  }
}

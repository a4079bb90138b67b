/** Fuzzing configurations: the fixed address-space layout per architecture. The default
    values (common/proxy_config.h) are not part of this model; every member that uses a
    configuration takes it as a parameter. */
module ProxyConfig {
  import opened Common

  /** A memory range [startAddress, startAddress + numBytes). */
  datatype MemoryRange = MemoryRange(startAddress: u64, numBytes: u64)

  /** FuzzingConfig<X86_64> */
  datatype FuzzingConfigX86 = FuzzingConfigX86(
    codeRange: MemoryRange, data1Range: MemoryRange, data2Range: MemoryRange)

  /** FuzzingConfig<AArch64> */
  datatype FuzzingConfigAArch64 = FuzzingConfigAArch64(
    codeRange: MemoryRange, stackRange: MemoryRange,
    data1Range: MemoryRange, data2Range: MemoryRange,
    sveInstructionsAllowed: bool)
}

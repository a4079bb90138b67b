/** The Snap runner's entry point: corpus naming, seed derivation and mode dispatch. */
module RunnerMain {
  import opened Common

  // ---------------------------------------------------------------------------
  // RemoveLeadingDirectory
  // ---------------------------------------------------------------------------

  /** `k` is where the base name of `s` starts: just after the last '/' that is not the
      final character, or 0 when there is no such '/'. */
  predicate IsBaseNameStart(s: string, k: nat)
  {
    && k <= |s|
    && (k > 0 ==> k < |s| && s[k - 1] == '/')
    && (forall j :: k <= j < |s| - 1 ==> s[j] != '/')
  }

  /** At most one position of a string is its base-name start. */
  lemma BaseNameStartUnique(s: string, k1: nat, k2: nat)
    requires IsBaseNameStart(s, k1) && IsBaseNameStart(s, k2)
    ensures k1 == k2
  {
  }

  /** A trailing '/' is not a separator: "a/b/" keeps "b/". */
  lemma TrailingSlashIsKept()
    ensures IsBaseNameStart("a/b/", 2)
    ensures forall k: nat :: IsBaseNameStart("a/b/", k) ==> k == 2
  {
    forall k: nat | IsBaseNameStart("a/b/", k) ensures k == 2 {
      BaseNameStartUnique("a/b/", k, 2);
    }
  }

  /** RemoveLeadingDirectory: scans the C string (the characters before its NUL) and
      returns the suffix that starts after the last non-final '/'. */
  method RemoveLeadingDirectory(fileName: string) returns (baseName: string)
    requires '\0' !in fileName
    ensures |baseName| <= |fileName| && baseName == fileName[|fileName| - |baseName|..]
    ensures IsBaseNameStart(fileName, |fileName| - |baseName|)
  {
    var strBegin: nat := 0;
    var strEnd: nat := 0;
    while strEnd < |fileName|
      invariant strBegin <= strEnd <= |fileName|
      invariant strBegin > 0 ==> strBegin < |fileName| && fileName[strBegin - 1] == '/'
      invariant forall j :: strBegin <= j < strEnd && j < |fileName| - 1 ==> fileName[j] != '/'
    {
      // The character after fileName[strEnd] is the NUL terminator exactly at the end.
      if fileName[strEnd] == '/' && strEnd + 1 < |fileName| {
        strBegin := strEnd + 1;
      }
      strEnd := strEnd + 1;
    }
    baseName := fileName[strBegin..];
  }

  // ---------------------------------------------------------------------------
  // Options
  // ---------------------------------------------------------------------------

  /** The runner's command-line flags (parsed by ParseRunnerFlags, which is not part of this model). */
  datatype RunnerFlags = RunnerFlags(
    help: bool,
    strict: bool,
    corpusName: Option<string>,
    cpu: int,
    snapId: string,
    numIterations: int,
    enableTracer: bool,
    runTimeBudgetMs: int,
    seed: int,
    batchSize: int,
    scheduleSize: int,
    sequentialMode: bool,
    make: bool)

  /** What LoadCorpus reports about the corpus it loaded. */
  datatype Corpus = Corpus(numSnaps: nat, isExpectedArch: bool)

  /** RunnerMainOptions as Main fills it. */
  datatype RunnerMainOptions = RunnerMainOptions(
    strict: bool,
    corpus: Corpus,
    corpusName: string,
    cpu: int,
    snapId: string,
    numIterations: int,
    enableTracer: bool,
    runTimeBudgetMs: int,
    pid: int,
    seed: int,
    batchSize: int,
    scheduleSize: int,
    sequentialMode: bool)

  /** Which main loop Main hands the options to. */
  datatype Mode = MakerMode | SequentialMode | DefaultMode

  /** How Main ends: an exit code, a LOG_FATAL, or a hand-off to a runner main loop. */
  datatype MainOutcome = Exit(code: int) | Fatal | Run(mode: Mode, options: RunnerMainOptions)

  const EXIT_SUCCESS: int := 0
  const EXIT_FAILURE: int := 1
  const SEED_MODULUS: int := 104729
  const BUILTIN_CORPUS_NAME: string := "<builtin>"

  // ---------------------------------------------------------------------------
  // Seed derivation
  // ---------------------------------------------------------------------------

  /** The PIDxTIME product: `tv_sec * 181` and the seed product in 64-bit `long`,
      `(pid - 83) * 359` in 32-bit `int`, each wrapping in two's complement. */
  function SeedProduct(tvSec: int, pid: int): int {
    WrapI64(WrapI64(tvSec * 181) * WrapI32((pid - 83) * 359))
  }

  /** The seed Main stores: FLAGS_seed when it is set, else |product % 104729| with C++'s
      truncating remainder. */
  function DeriveSeed(flagSeed: int, tvSec: int, pid: int): (seed: int)
    ensures flagSeed != 0 ==> seed == flagSeed
    ensures flagSeed == 0 ==> 0 <= seed < SEED_MODULUS
    ensures flagSeed == 0 ==> seed == Abs(SeedProduct(tvSec, pid)) % SEED_MODULUS
  {
    if flagSeed == 0 then
      var r := TRem(SeedProduct(tvSec, pid), SEED_MODULUS);
      TRemMagnitude(SeedProduct(tvSec, pid), SEED_MODULUS);
      if r > 0 then r else -r
    else
      flagSeed
  }

  function Abs(x: int): int { if x >= 0 then x else -x }

  /** With a negative product (a pid below 83) the truncating remainder is negative, and
      the sign flip makes the seed positive again: pid 82 at tv_sec 1 gives 64979. */
  lemma NegativeProductSeed()
    ensures SeedProduct(1, 82) == -64979
    ensures DeriveSeed(0, 1, 82) == 64979
  {
  }

  // ---------------------------------------------------------------------------
  // Corpus name
  // ---------------------------------------------------------------------------

  /** The corpus name: --corpus_name if given, else the corpus file's base name,
      else "<builtin>". */
  method CorpusName(flagCorpusName: Option<string>, corpusFileName: Option<string>)
    returns (name: string)
    requires corpusFileName.Some? ==> '\0' !in corpusFileName.value
    ensures flagCorpusName.Some? ==> name == flagCorpusName.value
    ensures flagCorpusName.None? && corpusFileName.Some? ==>
      var f := corpusFileName.value;
      |name| <= |f| && name == f[|f| - |name|..] && IsBaseNameStart(f, |f| - |name|)
    ensures flagCorpusName.None? && corpusFileName.None? ==> name == BUILTIN_CORPUS_NAME
  {
    if flagCorpusName.Some? {
      name := flagCorpusName.value;
    } else if corpusFileName.Some? {
      name := RemoveLeadingDirectory(corpusFileName.value);
    } else {
      name := BUILTIN_CORPUS_NAME;
    }
  }

  // ---------------------------------------------------------------------------
  // Main (the entry point)
  // ---------------------------------------------------------------------------

  /** `argv[i][0] == '-'` on a C string. */
  predicate StartsWithDash(arg: string) { |arg| > 0 && arg[0] == '-' }

  /** The corpus file: the positional argument at `flagsEnd`, if there is one. */
  function CorpusFile(argv: seq<string>, flagsEnd: int): Option<string>
    requires 0 <= flagsEnd <= |argv|
  {
    if flagsEnd < |argv| then Some(argv[flagsEnd]) else None
  }

  /** The command line parsed, help was not asked for, no option was left unparsed, and the
      corpus loaded and is the last argument. */
  predicate CorpusLoads(argv: seq<string>, flagsEnd: int, flags: RunnerFlags,
                        loadCorpus: (Option<string>, bool) -> Option<Corpus>)
    requires flagsEnd == -1 || 0 <= flagsEnd <= |argv|
  {
    && flagsEnd != -1 && !flags.help
    && (flagsEnd < |argv| ==> !StartsWithDash(argv[flagsEnd]))
    && loadCorpus(CorpusFile(argv, flagsEnd), flags.strict).Some?
    && flagsEnd + 1 >= |argv|
  }

  /** Everything Main checks before choosing a runner holds: the corpus loads, is not
      empty, and is of the host architecture. */
  predicate ReachesRunner(argv: seq<string>, flagsEnd: int, flags: RunnerFlags,
                          loadCorpus: (Option<string>, bool) -> Option<Corpus>)
    requires flagsEnd == -1 || 0 <= flagsEnd <= |argv|
  {
    && CorpusLoads(argv, flagsEnd, flags, loadCorpus)
    && loadCorpus(CorpusFile(argv, flagsEnd), flags.strict).value.numSnaps > 0
    && loadCorpus(CorpusFile(argv, flagsEnd), flags.strict).value.isExpectedArch
  }

  /** The body of the runner's Main. `flagsEnd` is what ParseRunnerFlags returned (-1 on a parse error, else the
      index of the first positional argument); `loadCorpus` stands for LoadCorpus, and
      `pid` and `tvSec` for getpid() and sys_gettimeofday(). */
  method EntryPoint(argv: seq<string>, flagsEnd: int, flags: RunnerFlags,
              loadCorpus: (Option<string>, bool) -> Option<Corpus>, pid: int, tvSec: int)
    returns (outcome: MainOutcome)
    requires flagsEnd == -1 || 0 <= flagsEnd <= |argv|
    requires forall i :: 0 <= i < |argv| ==> '\0' !in argv[i]
    ensures flagsEnd == -1 ==> outcome == Exit(EXIT_FAILURE)
    ensures flagsEnd != -1 && flags.help ==> outcome == Exit(EXIT_SUCCESS)
    // Once every check passes, Main hands over to a runner, unless make and sequential
    // are both set; when a check fails, it exits.
    ensures ReachesRunner(argv, flagsEnd, flags, loadCorpus) ==>
      if flags.make && flags.sequentialMode then outcome == Fatal else outcome.Run?
    ensures !ReachesRunner(argv, flagsEnd, flags, loadCorpus) ==> outcome.Exit?
    // Main exits successfully for --help and for an empty corpus, and fails otherwise.
    ensures outcome.Exit? ==>
      outcome.code == if && flagsEnd != -1
                         && (|| flags.help
                             || (&& CorpusLoads(argv, flagsEnd, flags, loadCorpus)
                                 && loadCorpus(CorpusFile(argv, flagsEnd), flags.strict).value.numSnaps == 0))
                      then EXIT_SUCCESS else EXIT_FAILURE
    // Setting make and sequential together is fatal, and only that is.
    ensures outcome.Fatal? ==> flags.make && flags.sequentialMode
    ensures flags.make && flags.sequentialMode ==> !outcome.Run?
    // make takes precedence over sequential, sequential over the default runner.
    ensures outcome.Run? ==> outcome.mode == (if flags.make then MakerMode
                                              else if flags.sequentialMode then SequentialMode
                                              else DefaultMode)
    // Reaching a runner needs a parsed command line with at most one positional argument,
    // a loaded non-empty corpus of the host architecture.
    ensures outcome.Run? ==>
      && 0 <= flagsEnd && !flags.help && flagsEnd + 1 >= |argv|
      && (flagsEnd < |argv| ==> !StartsWithDash(argv[flagsEnd]))
      && var file := if flagsEnd < |argv| then Some(argv[flagsEnd]) else None;
         && loadCorpus(file, flags.strict) == Some(outcome.options.corpus)
         && outcome.options.corpus.numSnaps > 0 && outcome.options.corpus.isExpectedArch
         && (flags.corpusName.Some? ==> outcome.options.corpusName == flags.corpusName.value)
         && (flags.corpusName.None? && file.None? ==> outcome.options.corpusName == BUILTIN_CORPUS_NAME)
         && (flags.corpusName.None? && file.Some? ==>
               && |outcome.options.corpusName| <= |file.value|
               && outcome.options.corpusName == file.value[|file.value| - |outcome.options.corpusName|..]
               && IsBaseNameStart(file.value, |file.value| - |outcome.options.corpusName|))
    ensures outcome.Run? ==> outcome.options.seed == DeriveSeed(flags.seed, tvSec, pid)
    ensures outcome.Run? ==> outcome.options.pid == pid && outcome.options.strict == flags.strict
                             && outcome.options.sequentialMode == flags.sequentialMode
    // The other flags are passed through unchanged.
    ensures outcome.Run? ==>
      && outcome.options.cpu == flags.cpu && outcome.options.snapId == flags.snapId
      && outcome.options.numIterations == flags.numIterations
      && outcome.options.enableTracer == flags.enableTracer
      && outcome.options.runTimeBudgetMs == flags.runTimeBudgetMs
      && outcome.options.batchSize == flags.batchSize && outcome.options.scheduleSize == flags.scheduleSize
  {
    if flagsEnd == -1 {
      return Exit(EXIT_FAILURE);
    }
    if flags.help {
      return Exit(EXIT_SUCCESS);
    }
    if flagsEnd < |argv| && StartsWithDash(argv[flagsEnd]) {
      // An option that did not parse.
      return Exit(EXIT_FAILURE);
    }

    var options := RunnerMainOptions(false, Corpus(0, false), "", 0, "", 0, false, 0, 0, 0, 0, 0, false);
    options := options.(strict := flags.strict);

    var corpusFileName := if flagsEnd < |argv| then Some(argv[flagsEnd]) else None;
    var corpus := loadCorpus(corpusFileName, options.strict);
    if corpus.None? {
      return Exit(EXIT_FAILURE);
    }
    options := options.(corpus := corpus.value);
    var name := CorpusName(flags.corpusName, corpusFileName);
    options := options.(corpusName := name);
    if flagsEnd + 1 < |argv| {
      // Flags must come before the corpus.
      return Exit(EXIT_FAILURE);
    }

    if options.corpus.numSnaps == 0 {
      // An empty corpus is valid; exit at once.
      return Exit(EXIT_SUCCESS);
    }
    if !options.corpus.isExpectedArch {
      return Exit(EXIT_FAILURE);
    }

    options := options.(cpu := flags.cpu, snapId := flags.snapId,
                        numIterations := flags.numIterations, enableTracer := flags.enableTracer,
                        runTimeBudgetMs := flags.runTimeBudgetMs);
    options := options.(pid := pid);
    options := options.(seed := DeriveSeed(flags.seed, tvSec, pid));
    options := options.(batchSize := flags.batchSize, scheduleSize := flags.scheduleSize,
                        sequentialMode := flags.sequentialMode);

    if flags.make && flags.sequentialMode {
      return Fatal;
    }
    var mode := if flags.make then MakerMode
                else if flags.sequentialMode then SequentialMode
                else DefaultMode;
    return Run(mode, options);
  }
}

/**
 * The command-line decision of MicrophoneLoopback's `CMDParser` constructor
 * (src/CMDParser.cpp). cxxopts is not modelled: what it parsed is given as a
 * `ParseResult` record, and the constructor's effect is an outcome: the
 * process exits (successfully for --version and --help, with failure for a
 * sample rate below the minimum) or a parser object is built.
 */
module CommandLine {
  import opened Wrappers

  /** A C++ `int`, the type cxxopts converts the sample-rate argument to. */
  newtype int32 = x: int | -0x8000_0000 <= x < 0x8000_0000

  /** The lowest sample rate the program accepts. */
  const MinSampleRate: int32 := 16000

  /** What cxxopts reports: whether -v/--version and -h/--help were given, and the -r/--sample-rate value. */
  datatype ParseResult = ParseResult(hasVersion: bool, hasHelp: bool, sampleRate: Option<int32>)

  /** The fields of a constructed `CMDParser`. */
  datatype CmdParser = CmdParser(rateSet: bool, rate: int32) {
    /** What every parser the constructor builds satisfies. */
    predicate Valid() {
      if rateSet then rate >= MinSampleRate else rate == 0
    }

    /** `isSampleRateSet`: whether a sample rate was given; if so, it is an accepted one. */
    function IsSampleRateSet(): (r: bool)
      requires Valid()
      ensures r ==> SampleRate() >= MinSampleRate
      ensures !r ==> SampleRate() == 0
    {
      rateSet
    }

    /** `sampleRate`: the accepted sample rate, or 0 when none was given. */
    function SampleRate(): (r: int32)
      requires Valid()
      ensures r == 0 || r >= MinSampleRate
    {
      rate
    }
  }

  /** The effect of running the constructor. */
  datatype Outcome =
    | ExitSuccess            // std::exit(EXIT_SUCCESS)
    | ExitFailure            // std::exit(EXIT_FAILURE)
    | Config(parser: CmdParser)

  /** The parser the constructor's member initialisers give: no sample rate set. */
  const Unset: CmdParser := CmdParser(false, 0)

  /**
   * The constructor. Without arguments (`argc <= 0` or a null `argv`) nothing
   * is parsed. Otherwise --version wins over everything, then --help, and only
   * then is a given sample rate checked against the minimum.
   */
  function ParseCommandLine(argc: int, hasArgv: bool, parsed: ParseResult): (r: Outcome)
    ensures argc <= 0 || !hasArgv ==> r == Config(Unset)
    ensures argc > 0 && hasArgv && parsed.hasVersion ==> r == ExitSuccess
    ensures argc > 0 && hasArgv && parsed.hasHelp ==> r == ExitSuccess
    ensures r == ExitSuccess <==> argc > 0 && hasArgv && (parsed.hasVersion || parsed.hasHelp)
    ensures argc > 0 && hasArgv && !parsed.hasVersion && !parsed.hasHelp && parsed.sampleRate.None? ==>
      r == Config(Unset)
    ensures r == ExitFailure <==>
      argc > 0 && hasArgv && !parsed.hasVersion && !parsed.hasHelp
      && parsed.sampleRate.Some? && parsed.sampleRate.value < MinSampleRate
    ensures r.Config? ==> r.parser.Valid()
    ensures r.Config? && r.parser.IsSampleRateSet() ==> parsed.sampleRate == Some(r.parser.SampleRate())
    ensures r.Config? && argc > 0 && hasArgv ==> (r.parser.IsSampleRateSet() <==> parsed.sampleRate.Some?)
  {
    if argc <= 0 || !hasArgv then Config(Unset)
    else if parsed.hasVersion then ExitSuccess
    else if parsed.hasHelp then ExitSuccess
    else if parsed.sampleRate.Some? then
      var rate := parsed.sampleRate.value;
      if rate < MinSampleRate then ExitFailure
      else Config(CmdParser(true, rate))
    else Config(Unset)
  }

  /** Every sample rate of at least the minimum is accepted and kept exactly. */
  lemma AcceptedRateIsKept(argc: int, hasArgv: bool, rate: int32)
    requires argc > 0 && hasArgv && rate >= MinSampleRate
    ensures ParseCommandLine(argc, hasArgv, ParseResult(false, false, Some(rate))) == Config(CmdParser(true, rate))
  {
  }
}

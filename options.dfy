/** The command-line options of src/main.c (`main_opt_t`), their defaults,
    the validation gate and the names of the alignment modes. */
module Options {
  import opened Wrappers
  import opened MachineInts

  /** `main_opt_t`. `start_score` is read by src/main.c although only the
      root main.h declares it; `right_align_gaps` and `offset_and_length` are
      declared by src/main.h and read nowhere. The flags `add_cigar`,
      `add_seq` and `add_header` are 0 or 1 in every run (`main` sets them
      only to 1), so they are booleans here. */
  datatype MainOpt = MainOpt(
    matchScore: int32,
    mismatchScore: int32,
    gapOpen: int32,
    gapExtend: int32,
    bandWidth: int32,
    startScore: int32,
    matrixFile: Option<string>,
    alignmentMode: int32,
    addCigar: bool,
    addSeq: bool,
    addHeader: bool,
    rightAlignGaps: bool,
    offsetAndLength: bool)

  /** `main_opt_init`. The band width is INT_MAX / 4 "since in some places
      we multiply by two". */
  function Init(): (opt: MainOpt)
    ensures Valid(opt)
    ensures opt.matrixFile.None? && !opt.addCigar && !opt.addSeq && !opt.addHeader
  {
    MainOpt(
      matchScore := 1, mismatchScore := 3, gapOpen := 5, gapExtend := 2,
      bandWidth := INT32_MAX / 4, startScore := 0, matrixFile := None,
      alignmentMode := 0, addCigar := false, addSeq := false, addHeader := false,
      rightAlignGaps := false, offsetAndLength := false)
  }

  /** One failed check of `main_opt_validate`, with the value its message
      prints. The message for a non-positive match score prints the
      mismatch score, as the source's does. */
  datatype OptError =
    | BadMode(found: int)
    | BadMismatchScore(found: int)
    | BadMatchScore(found: int)
    | BadGapOpen(found: int)
    | BadGapExtend(found: int)
    | BadBandWidth(found: int)

  /** All the constraints `main_opt_validate` checks. */
  predicate Valid(opt: MainOpt) {
    && 0 <= opt.alignmentMode <= 3
    && 0 < opt.mismatchScore
    && 0 < opt.matchScore
    && 0 < opt.gapOpen
    && 0 < opt.gapExtend
    && 0 <= opt.bandWidth
  }

  /** `assert_or_exit`: nothing when the condition holds, else the error
      (the source prints it and exits). */
  function AssertOrExit(condition: bool, error: OptError): (r: Outcome<OptError>)
    ensures r == Pass <==> condition
    ensures r.Fail? ==> r.error == error
  {
    if condition then Pass else Fail(error)
  }

  /** `main_opt_validate`: the checks in source order; the first that fails
      ends the run. */
  function Validate(opt: MainOpt): (r: Outcome<OptError>)
    ensures r == Pass <==> Valid(opt)
    ensures r == Fail(BadMode(opt.alignmentMode)) <==> !(0 <= opt.alignmentMode <= 3)
    ensures r == Fail(BadMismatchScore(opt.mismatchScore)) <==>
      0 <= opt.alignmentMode <= 3 && opt.mismatchScore <= 0
    ensures r == Fail(BadMatchScore(opt.mismatchScore)) <==>
      0 <= opt.alignmentMode <= 3 && 0 < opt.mismatchScore && opt.matchScore <= 0
    ensures r == Fail(BadGapOpen(opt.gapOpen)) <==>
      0 <= opt.alignmentMode <= 3 && 0 < opt.mismatchScore && 0 < opt.matchScore && opt.gapOpen <= 0
    ensures r == Fail(BadGapExtend(opt.gapExtend)) <==>
      0 <= opt.alignmentMode <= 3 && 0 < opt.mismatchScore && 0 < opt.matchScore && 0 < opt.gapOpen
      && opt.gapExtend <= 0
    ensures r == Fail(BadBandWidth(opt.bandWidth)) <==>
      0 <= opt.alignmentMode <= 3 && 0 < opt.mismatchScore && 0 < opt.matchScore && 0 < opt.gapOpen
      && 0 < opt.gapExtend && opt.bandWidth < 0
  {
    var mode := AssertOrExit(0 <= opt.alignmentMode <= 3, BadMode(opt.alignmentMode));
    if mode.Fail? then mode else
    var mismatch := AssertOrExit(0 < opt.mismatchScore, BadMismatchScore(opt.mismatchScore));
    if mismatch.Fail? then mismatch else
    var matched := AssertOrExit(0 < opt.matchScore, BadMatchScore(opt.mismatchScore));
    if matched.Fail? then matched else
    var open := AssertOrExit(0 < opt.gapOpen, BadGapOpen(opt.gapOpen));
    if open.Fail? then open else
    var extend := AssertOrExit(0 < opt.gapExtend, BadGapExtend(opt.gapExtend));
    if extend.Fail? then extend else
    AssertOrExit(0 <= opt.bandWidth, BadBandWidth(opt.bandWidth))
  }

  /** The defaults pass validation, and twice the default band width still
      fits in an `int`. */
  lemma DefaultsValid()
    ensures Validate(Init()) == Pass
    ensures 2 * Init().bandWidth <= INT32_MAX
  {
  }

  /** Validation bounds the band width only from below: the largest `int`
      passes, and twice it does not fit in an `int`. */
  lemma LargestBandWidthPasses()
    ensures Validate(Init().(bandWidth := INT32_MAX)) == Pass
    ensures INT32_MAX < 2 * Init().(bandWidth := INT32_MAX).bandWidth
  {
  }

  /** `mode_to_str`: the name of each of the four modes; any other value is
      "Unknown mode" and ends the run (the error carries the value). */
  function ModeToStr(mode: int): (r: Result<string, int>)
    ensures r.Success? <==> 0 <= mode <= 3
    ensures r.Failure? ==> r.error == mode
  {
    match mode
    case 0 => Success("local")
    case 1 => Success("glocal")
    case 2 => Success("extend")
    case 3 => Success("global")
    case _ => Failure(mode)
  }

  /** The mode a name stands for: the inverse of `ModeToStr`. */
  function ModeOfName(name: string): Option<int> {
    if name == "local" then Some(0)
    else if name == "glocal" then Some(1)
    else if name == "extend" then Some(2)
    else if name == "global" then Some(3)
    else None
  }

  /** Every name `ModeToStr` gives reads back as its mode, so the four names
      are distinct. */
  lemma ModeNameRoundTrip(mode: int)
    requires 0 <= mode <= 3
    ensures ModeOfName(ModeToStr(mode).value) == Some(mode)
  {
  }

  /** A validated mode always has a name: a corollary of `Validate` and
      `ModeToStr`. (`usage`, the one caller of `mode_to_str`, runs during
      option parsing, before validation, so it can meet an unnamed mode.) */
  lemma ValidModeHasName(opt: MainOpt)
    requires Validate(opt) == Pass
    ensures ModeToStr(opt.alignmentMode).Success?
  {
  }
}

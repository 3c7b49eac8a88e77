/** The command-line checks that open the simulate phase (`simualte_rel`):
    the first failing check decides the outcome; otherwise the project
    directory, the demographic-history format code, the warnings printed and
    the cautionary pause are determined. */
module Validation {
  import opened Common

  /** The command-line arguments of the simulate phase that this model reads.
      `genTime` and `seed` are None when the flag is absent; the checks read
      all but the last four. */
  datatype Args = Args(
    vcf: string,
    outDir: Option<string>,
    mask: Option<string>,
    dem: Option<string>,
    genTime: Option<real>,
    phased: bool,
    phaseError: real,
    forceDiploid: bool,
    mu: real,
    upRTR: real,
    maskThresh: real,
    seed: Option<int>)

  /** The non-fatal warnings, in the order they are printed. */
  datatype Warning = NoProjectDir | NoMask | NoDemHistory | ForceDiploid

  /** What a run that passes the checks goes on with. */
  datatype Checked = Checked(
    projectDir: string,
    demHist: int,
    warnings: seq<Warning>,
    pauseSeconds: nat)

  /** The code `check_demHist` returns for a file in no recognised format. */
  const UnrecognisedFormat: int := -9

  const VcfExtension: string := ".vcf"

  /** Python truthiness of the optional generation time: None and 0.0 are false. */
  predicate GenTimeGiven(genTime: Option<real>) {
    genTime.Some? && genTime.value != 0.0
  }

  /** The project directory: the one given, else the current working directory. */
  function ProjectDir(outDir: Option<string>, cwd: string): (d: string)
    ensures Given(outDir) ==> d == outDir.value
    ensures !Given(outDir) ==> d == cwd
  {
    if !Given(outDir) then cwd else outDir.value
  }

  /** The two flags that cannot be combined: unphased data with a phasing error. */
  predicate PhaseConflict(args: Args) {
    !args.phased && args.phaseError != 0.0
  }

  /** The demographic-history check passes: no file, or a recognised one with a
      generation time. */
  predicate DemHistoryAcceptable(args: Args, demFormat: int) {
    Given(args.dem) ==> demFormat != UnrecognisedFormat && GenTimeGiven(args.genTime)
  }

  /** The validation chain. `cwd` is the current working directory and
      `demFormat` is what `check_demHist` returns for `args.dem` (consulted only
      when a demographic-history file is given). */
  function ValidateArgs(args: Args, cwd: string, demFormat: int): (r: Result<Checked, Failure>)
    // the extension check runs before every other one
    ensures !EndsWith(args.vcf, VcfExtension) ==> r == Err(BadVcfExtension)
    // a run passes exactly when every check passes
    ensures r.Ok? <==>
      EndsWith(args.vcf, VcfExtension) && DemHistoryAcceptable(args, demFormat) && !PhaseConflict(args)
    // which error a failing run reports
    ensures r.Err? && EndsWith(args.vcf, VcfExtension) && Given(args.dem) && demFormat == UnrecognisedFormat
      ==> r.error == UnrecognisedDemHistory
    ensures r.Err? && EndsWith(args.vcf, VcfExtension) && Given(args.dem) && demFormat != UnrecognisedFormat
          && !GenTimeGiven(args.genTime)
      ==> r.error == MissingGenTime
    ensures r.Err? && EndsWith(args.vcf, VcfExtension) && DemHistoryAcceptable(args, demFormat)
      ==> r.error == PhaseErrorWhenUnphased
    // unphased data with a phasing error always fails, whatever the other arguments
    ensures PhaseConflict(args) ==> r.Err?
    ensures r.Ok? ==> r.value.projectDir == ProjectDir(args.outDir, cwd)
    // without a demographic-history file the format code is 0 (equilibrium)
    ensures r.Ok? ==> r.value.demHist == if Given(args.dem) then demFormat else 0
    ensures r.Ok? ==> (NoProjectDir in r.value.warnings <==> !Given(args.outDir))
    ensures r.Ok? ==> (NoMask in r.value.warnings <==> !Given(args.mask))
    ensures r.Ok? ==> (NoDemHistory in r.value.warnings <==> !Given(args.dem))
    ensures r.Ok? ==> (ForceDiploid in r.value.warnings <==> args.forceDiploid)
    // the warnings in the order they are printed
    ensures r.Ok? ==> (r.value.warnings ==
      (if !Given(args.outDir) then [NoProjectDir] else []) + (if !Given(args.mask) then [NoMask] else [])
      + (if !Given(args.dem) then [NoDemHistory] else []) + (if args.forceDiploid then [ForceDiploid] else []))
    ensures r.Ok? ==> r.value.pauseSeconds == if args.forceDiploid then 10 else 5
  {
    if !EndsWith(args.vcf, VcfExtension) then Err(BadVcfExtension)
    else
      var projectDir := ProjectDir(args.outDir, cwd);
      var w1 := if !Given(args.outDir) then [NoProjectDir] else [];
      var w2 := if !Given(args.mask) then [NoMask] else [];
      if Given(args.dem) && demFormat == UnrecognisedFormat then Err(UnrecognisedDemHistory)
      else if Given(args.dem) && !GenTimeGiven(args.genTime) then Err(MissingGenTime)
      else
        var demHist := if Given(args.dem) then demFormat else 0;
        var w3 := if !Given(args.dem) then [NoDemHistory] else [];
        if PhaseConflict(args) then Err(PhaseErrorWhenUnphased)
        else
          var w4 := if args.forceDiploid then [ForceDiploid] else [];
          Ok(Checked(projectDir, demHist, w1 + w2 + w3 + w4, if args.forceDiploid then 10 else 5))
  }

  /** Once the extension is wrong, no other argument can change the outcome. */
  lemma VcfCheckDecidesFirst(a: Args, b: Args, cwd: string, cwd': string, f: int, f': int)
    requires a.vcf == b.vcf && !EndsWith(a.vcf, VcfExtension)
    ensures ValidateArgs(a, cwd, f) == ValidateArgs(b, cwd', f')
  {
  }

  /** Every later check depends on the extension check: a run that gets past
      it to any other verdict has a ".vcf" file. */
  lemma LaterVerdictsNeedVcfExtension(args: Args, cwd: string, f: int)
    requires ValidateArgs(args, cwd, f) != Err(BadVcfExtension)
    ensures EndsWith(args.vcf, VcfExtension)
  {
  }

  /** Without a demographic-history file the demographic branch never fails. */
  lemma NoDemHistoryNeverFailsThatCheck(args: Args, cwd: string, f: int)
    requires EndsWith(args.vcf, VcfExtension) && !Given(args.dem)
    ensures ValidateArgs(args, cwd, f).Ok? || ValidateArgs(args, cwd, f) == Err(PhaseErrorWhenUnphased)
  {
  }
}

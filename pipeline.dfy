/** The two phases of the runner in the order they run their stages. What the
    VCF manager, the history converter, the simulator and the stored model
    return is passed in as input. */
module Pipeline {
  import opened Common
  import Validation
  import Layout
  import Genome
  import Calibration
  import SimParams
  import SegSites
  import Padding
  import BatchConfig

  /** What the VCF manager reports: the sample count, the largest window site
      count, the window length, and (read only when a mask file is given) the
      masked fraction and the per-window masks. */
  datatype WindowCounts = WindowCounts(nSamps: int, maxS: int, maxLen: int, maskFraction: real, winMasks: Value)

  /** The accessibility inputs of calibration: the manager's when a mask file
      is given, else fraction 0 and no masks. */
  function MaskInputs(args: Validation.Args, counts: WindowCounts): (m: (real, Value))
    ensures Given(args.mask) ==> m == (counts.maskFraction, counts.winMasks)
    ensures !Given(args.mask) ==> m == (0.0, VNone)
  {
    if Given(args.mask) then (counts.maskFraction, counts.winMasks) else (0.0, VNone)
  }

  /** The simulator parameters a run with these inputs builds. */
  function ParamsFor(args: Validation.Args, checked: Validation.Checked, counts: WindowCounts,
                     priors: Calibration.Priors, mdMask: Value, demographics: Value): (m: map<string, Value>)
    // the accessibility masks reach the simulator only when a mask file is given
    ensures "winMasks" in m && m["winMasks"] == if Given(args.mask) then counts.winMasks else VNone
  {
    var (_, winMasks) := MaskInputs(args, counts);
    SimParams.SimulationParams(counts.nSamps, priors, counts.maxLen, winMasks, mdMask, args.maskThresh,
                               args.phased, args.phaseError, args.seed, checked.demHist, demographics)
  }

  /** The priors a run with these inputs calibrates. */
  function PriorsFor(args: Validation.Args, counts: WindowCounts): Result<Calibration.Priors, Failure> {
    var (maskFraction, _) := MaskInputs(args, counts);
    Calibration.Calibrate(counts.maxS, counts.nSamps, counts.maxLen, maskFraction, args.mu, args.upRTR)
  }

  datatype SimulationSetup = SimulationSetup(
    checked: Validation.Checked,
    layout: Layout.ProjectLayout,
    chromosomes: seq<string>,
    params: map<string, Value>,
    segSites: SegSites.Aggregate)

  /** The simulate phase: validation, the directory layout, the genome file,
      calibration, the simulator parameters, then (after the three external
      simulations, whose segSites lists are inputs) the aggregation. Each
      stage runs only when every earlier one succeeded, so a malformed genome
      row stops the run before calibration or any simulation. */
  method SimulatePhase(args: Validation.Args, cwd: string, demFormat: int, genomeRows: seq<seq<string>>,
                       counts: WindowCounts, mdMask: Value, demographics: Value,
                       trainSS: seq<nat>, valiSS: seq<nat>, testSS: seq<nat>)
    returns (r: Result<SimulationSetup, Failure>)
    ensures Validation.ValidateArgs(args, cwd, demFormat).Err? ==>
      r == Err(Validation.ValidateArgs(args, cwd, demFormat).error)
    ensures Validation.ValidateArgs(args, cwd, demFormat).Ok? && !Genome.WellFormed(genomeRows) ==>
      r == Err(MalformedGenomeLine(Genome.FirstMalformed(genomeRows)))
    ensures Validation.ValidateArgs(args, cwd, demFormat).Ok? && Genome.WellFormed(genomeRows)
            && PriorsFor(args, counts).Err? ==>
      r == Err(ZeroDivision)
    ensures Validation.ValidateArgs(args, cwd, demFormat).Ok? && Genome.WellFormed(genomeRows)
            && PriorsFor(args, counts).Ok? && (trainSS == [] || valiSS == [] || testSS == []) ==>
      r == Err(EmptySegSites(SegSites.FirstEmpty(trainSS, valiSS, testSS)))
    ensures r.Ok? <==>
      Validation.ValidateArgs(args, cwd, demFormat).Ok? && Genome.WellFormed(genomeRows)
      && PriorsFor(args, counts).Ok? && trainSS != [] && valiSS != [] && testSS != []
    ensures r.Ok? ==> r.value.checked == Validation.ValidateArgs(args, cwd, demFormat).value
    ensures r.Ok? ==> r.value.layout == Layout.LayoutOf(r.value.checked.projectDir)
    ensures r.Ok? ==> |r.value.chromosomes| == |genomeRows|
    ensures r.Ok? ==> forall i :: 0 <= i < |genomeRows| ==>
      r.value.chromosomes[i] == Genome.RangeLabel(genomeRows[i])
    ensures r.Ok? ==>
      r.value.params == ParamsFor(args, r.value.checked, counts, PriorsFor(args, counts).value, mdMask, demographics)
    // the accessibility masks reach the simulator only when a mask file is given
    ensures r.Ok? ==> r.value.params["winMasks"] == if Given(args.mask) then counts.winMasks else VNone
    ensures r.Ok? ==> r.value.segSites.all == trainSS + valiSS + testSS
    ensures r.Ok? ==> r.value.segSites.maxSegSites in r.value.segSites.all
    ensures r.Ok? ==> forall i :: 0 <= i < |r.value.segSites.all| ==>
      r.value.segSites.all[i] <= r.value.segSites.maxSegSites
    ensures r.Ok? ==> r.value.segSites.minSegSites in r.value.segSites.all
    ensures r.Ok? ==> forall i :: 0 <= i < |r.value.segSites.all| ==>
      r.value.segSites.minSegSites <= r.value.segSites.all[i]
  {
    var v := Validation.ValidateArgs(args, cwd, demFormat);
    if v.Err? {
      return Err(v.error);
    }
    var checked := v.value;
    var layout := Layout.LayoutOf(checked.projectDir);
    var chromosomes := Genome.ParseGenome(genomeRows);
    if chromosomes.Err? {
      return Err(chromosomes.error);
    }
    var priors := PriorsFor(args, counts);
    if priors.Err? {
      return Err(priors.error);
    }
    var params := ParamsFor(args, checked, counts, priors.value, mdMask, demographics);
    var ss := SegSites.AggregateSegSites(trainSS, valiSS, testSS);
    if ss.Err? {
      return Err(ss.error);
    }
    r := Ok(SimulationSetup(checked, layout, chromosomes.value, params, ss.value));
  }

  datatype TrainSetup = TrainSetup(
    padding: int,
    train: map<string, Value>,
    vali: map<string, Value>,
    test: map<string, Value>)

  /** The train phase up to the hand-over to the training framework: the
      project layout (the same fallback to the working directory as in the
      simulate phase), the padding dimension, and the three batch
      configurations, all padded to that dimension. */
  method TrainPhase(outDir: Option<string>, cwd: string, windowRows: seq<seq<int>>,
                    trainSS: seq<nat>, valiSS: seq<nat>, testSS: seq<nat>,
                    transfer: Padding.Transfer, seed: Option<int>, testNumReps: int)
    returns (r: Result<TrainSetup, Failure>)
    ensures r.Err? <==> Padding.FirstProblem(windowRows, trainSS, valiSS, testSS).Some?
    ensures r.Err? ==> r.error == Padding.FirstProblem(windowRows, trainSS, valiSS, testSS).value
    ensures r.Ok? && transfer.Transfer? ==> r.value.padding == transfer.inputWidth - Padding.TransferOffset
    ensures r.Ok? && transfer.NoTransfer? ==>
      Padding.Covers(r.value.padding, windowRows, [trainSS, valiSS, testSS])
      && Padding.Attained(r.value.padding, windowRows, [trainSS, valiSS, testSS])
    // train is the configuration written out in full, with the padding and the seed
    ensures r.Ok? ==>
      r.value.train == BatchConfig.TrainParams(Layout.LayoutOf(Validation.ProjectDir(outDir, cwd)).train,
                                               r.value.padding, seed)
    ensures r.Ok? ==> r.value.train["seed"] == SeedValue(seed)
    ensures r.Ok? ==>
      && r.value.train.Keys == BatchConfig.TrainKeys && r.value.vali.Keys == BatchConfig.TrainKeys
      && r.value.test.Keys == BatchConfig.TrainKeys + {BatchConfig.KeyShuffleExamples}
    // vali and test are train apart from the entries they set
    ensures r.Ok? ==> forall k :: k in r.value.train && k != BatchConfig.KeyTreesDirectory ==>
      r.value.vali[k] == r.value.train[k]
    ensures r.Ok? ==> forall k :: k in r.value.train && k != BatchConfig.KeyTreesDirectory
                                  && k != BatchConfig.KeyBatchSize ==>
      r.value.test[k] == r.value.train[k]
    ensures r.Ok? ==>
      var l := Layout.LayoutOf(Validation.ProjectDir(outDir, cwd));
      && r.value.train[BatchConfig.KeyTreesDirectory] == VStr(l.train)
      && r.value.vali[BatchConfig.KeyTreesDirectory] == VStr(l.vali)
      && r.value.test[BatchConfig.KeyTreesDirectory] == VStr(l.test)
    ensures r.Ok? ==>
      && r.value.train[BatchConfig.KeyMaxLen] == VInt(r.value.padding)
      && r.value.vali[BatchConfig.KeyMaxLen] == VInt(r.value.padding)
      && r.value.test[BatchConfig.KeyMaxLen] == VInt(r.value.padding)
    ensures r.Ok? ==>
      && r.value.train[BatchConfig.KeyBatchSize] == VInt(BatchConfig.TrainBatchSize)
      && r.value.vali[BatchConfig.KeyBatchSize] == VInt(BatchConfig.TrainBatchSize)
      && r.value.test[BatchConfig.KeyBatchSize] == VInt(testNumReps)
      && r.value.test[BatchConfig.KeyShuffleExamples] == VBool(false)
  {
    var layout := Layout.LayoutOf(Validation.ProjectDir(outDir, cwd));
    var padding := Padding.ReconcilePadding(windowRows, trainSS, valiSS, testSS, transfer);
    if padding.Err? {
      return Err(padding.error);
    }
    var train, vali, test := BatchConfig.DeriveBatchConfigs(layout.train, layout.vali, layout.test,
                                                            padding.value, seed, testNumReps);
    r := Ok(TrainSetup(padding.value, train, vali, test));
  }
}

# ReLERNN runner: validation, calibration and dimension reconciliation

This project models the deterministic core of ReLERNN's end-to-end runner (`runnerp.py`). The runner reads a VCF and a genome file and calibrates simulation priors. It has the coalescent simulator produce train, validation and test corpora. It then prepares matched batch-generator configurations for training a recombination-rate network. The model covers the decisions the runner takes itself:

- the command-line checks, where the first one that fails decides the outcome;
- the project directory layout;
- parsing the genome file into `chromosome:start-end` ranges;
- Watterson's estimator, the effective population size and the prior bounds;
- the simulator's parameter dictionary in its two modes: equilibrium, or an explicit demographic history;
- pooling the segregating-site counts of the three corpora;
- the padding dimension, including its override when fine-tuning a stored model;
- the three batch-generator configurations.

The VCF manager, the history converter, the simulator, the stored model and the training framework are not modelled. What they return is passed in as input.

Modules, one per component, with one file each:

- `Common` (`common.dfy`): `Option`, `Result`, the `Failure` kinds, Python truthiness of optional strings, the dictionary `Value` type, and `max`/`min` of a list.
- `Validation` (`validation.dfy`): the argument record and the validation chain.
- `Layout` (`layout.dfy`): `os.path.join` and the project tree.
- `Genome` (`genome.dfy`): the genome-file loop.
- `Calibration` (`calibration.dfy`): the harmonic-sum loop and the priors.
- `SimParams` (`simparams.dfy`): the `dg_params` dictionary.
- `SegSites` (`segsites.dfy`): the aggregation loop of the simulate phase.
- `Padding` (`padding.dfy`): the padding scan of the train phase and its transfer override.
- `BatchConfig` (`batchconfig.dfy`): the `bds_*_params` dictionaries.
- `Pipeline` (`pipeline.dfy`): both phases, with their stages in source order.

How the model represents the source:

- Python dictionaries are `map<string, Value>`. This keeps facts about which keys are present. For example, `N` and `Ne` are present exactly in equilibrium mode, and only the test configuration has `shuffleExamples`.
- Python exceptions that end the run are `Err` values:
  - `sys.exit(1)` after a failed check;
  - `ZeroDivisionError` in calibration;
  - `ValueError` from `max()` of an empty `segSites` list;
  - `IndexError` for a `windowSizes.txt` row without a sixth field.
- Python truthiness is written out:
  - an optional path counts as given only when it is present and non-empty;
  - the generation time counts as given only when it is present and non-zero;
  - the demographic-history code is truthy when it is non-zero.
- Segregating-site counts are `nat`. This makes the source's start value of 0 for the running maximum harmless.

Behaviour of the code worth noting:

- **Phasing default.** `--phased` defaults to `False` (runnerp.py:414-415), so plain runs are unphased. The model takes `phased` as an input.
- **Shuffling of the train and validation sets.** Neither the train nor the validation dictionary sets `shuffleExamples` (runnerp.py:330-357), so the batch generator's own default applies. Only the test configuration sets it, to `False`.
- **Recognised history with code 0.** A given demographic-history file whose code from `check_demHist` is 0 passes validation without the "no history" warning. The run is then simulated in equilibrium mode (runnerp.py:67-78, 168).
- **Calibration in history mode.** The calibration divisions run in both modes (runnerp.py:161-167), because Ne is computed before the mode is chosen. So a sample count of 1 fails even in demographic-history mode.

## Model

| member | source | states |
|---|---|---|
| Common.SeqMax | runnerp.py:232 | `max()` of a non-empty list is one of its elements and at least every element |
| Common.SeqMin | runnerp.py:233 | `min()` of a non-empty list is one of its elements and at most every element |
| Validation.ValidateArgs | runnerp.py:57-87 | a non-`.vcf` path fails with that error whatever else is given; a run passes exactly when all checks pass; with a history file, code -9 and then a missing or zero generation time fail with their own errors; unphased together with a non-zero phase error always fails, and after the earlier checks it is the reported error; on success `projectDir` is `outDir` when given (non-empty) and the working directory otherwise, `demHist` is the code or 0 without a history file, each warning is printed exactly when its condition holds, in the order no project directory, no mask, no history, force diploid, and the pause is 10 s with `forceDiploid` and 5 s otherwise |
| Validation.VcfCheckDecidesFirst | runnerp.py:57-59 | when the extension is wrong, no other argument, working directory or format code changes the outcome |
| Validation.LaterVerdictsNeedVcfExtension | runnerp.py:57-59 | every verdict other than the extension error implies the path ends in `.vcf` |
| Validation.NoDemHistoryNeverFailsThatCheck | runnerp.py:76-78 | without a history file the demographic branch raises no error: the run passes or fails only on the phase check |
| Layout.LayoutOf | runnerp.py:91-101 | the five sub-directories are `os.path.join` of the project directory with train, vali, test, networks and splitVCFs; they are pairwise distinct, strictly longer than the project directory and prefixed by it, so the three corpora go to different directories |
| Layout.JoinsDistinct | runnerp.py:91-95 | joining one base with pairwise distinct non-empty names gives pairwise distinct paths, each strictly longer than the base and prefixed by it |
| Layout.JoinInjective | runnerp.py:91-95 | under one base, `os.path.join` with different child names gives different paths |
| Genome.ParseGenome | runnerp.py:104-112 | succeeds exactly when every row has three fields; then returns one label per row, in row order, each equal to `name:start-end`; otherwise reports `FirstMalformed`, the first row without three fields |
| Genome.FirstMalformed | runnerp.py:107-110 | the index of the first genome row without three fields: that row is malformed and every earlier one is well formed |
| Genome.FirstMalformedIs | runnerp.py:107-110 | a malformed row with only well-formed rows before it is the first malformed row |
| Genome.SplitAtSeparator | runnerp.py:112 | splitting at the first separator that neither prefix contains recovers both sides |
| Genome.RangeLabelInjective | runnerp.py:112 | when names contain no ':' and starts no '-', the label determines the row, so each range matches exactly one row |
| Calibration.WattersonDenominator | runnerp.py:161-163 | the loop leaves exactly the harmonic number of `nSamps - 1` (0 for `nSamps <= 1`), which lies between 1 and `nSamps - 1` when there are at least two samples |
| Calibration.HarmonicSumBounds | runnerp.py:161-163 | the harmonic number of k is 0 for k <= 0 and lies between 1 and k for k >= 1 |
| Calibration.Calibrate | runnerp.py:161-167 | calibration fails with a division by zero exactly when `nSamps <= 1` or the Ne denominator `4 mu (1 - maskFraction) maxLen` is zero; otherwise thetaW times the harmonic number is the site count, Ne times the denominator is thetaW, the rho bounds are 0 and mu * upRTR and the mu bounds are 0.66 mu and 1.33 mu |
| Calibration.ThetaWBounds | runnerp.py:164 | with a non-negative site count, thetaW lies between 0 and that count, and is positive when the count is |
| Calibration.PriorsPositive | runnerp.py:161-174 | for positive sites, at least two samples, positive mu and ratio, and a partly accessible window of positive length, calibration succeeds with positive thetaW, Ne and rho bound, and 0 < muLow < muHigh |
| SimParams.SharedParams | runnerp.py:170-199 | the entries common to both parameter sets have exactly the shared keys, none of them `N`, `Ne` or `MspDemographics`; each carries its prior bound (rho from the calibrated 0 to mu * upRTR, mu between 0.66 mu and 1.33 mu), the window length, both masks, the mask threshold, the phasing flags or the seed |
| SimParams.SimulationParams | runnerp.py:168-199 | `N` (and likewise `Ne`) is present exactly when `demHist` is 0, and `MspDemographics` exactly when it is not; the keys are the shared ones plus those; every shared entry has the shared value; `N`/`Ne` carry the sample count and Ne, `MspDemographics` the converted history |
| SimParams.ModesAgreeElsewhere | runnerp.py:168-199 | apart from `N`, `Ne` and `MspDemographics`, the two modes have the same keys with the same values |
| SegSites.MinBound | runnerp.py:228-235 | folding a count into the running minimum (initially infinity) gives a finite value no larger than the count or the old minimum, and equal to one of them |
| SegSites.AggregateSegSites | runnerp.py:226-235 | fails exactly when a corpus is empty, naming the first empty one; otherwise the pool is train ++ vali ++ test, and the maximum and minimum are elements of the pool, above and below every element respectively |
| Padding.FirstShortRow | runnerp.py:302-304 | the index of the first `windowSizes.txt` row without a sixth field |
| Padding.FirstShortRowIs | runnerp.py:302-304 | a short row with no short row before it is the first short row |
| Padding.CoversAttainedUnique | runnerp.py:300-317 | a value that bounds all candidates (0, every window size, every simulated count) and is one of them is unique, so it is their maximum |
| Padding.MaxWindowSize | runnerp.py:300-307 | fails exactly when some row of the window file has no sixth field, naming the first; otherwise the result is at least 0 and every sixth-column value, and is 0 or one of them |
| Padding.MaxSimulatedSites | runnerp.py:308-315 | fails exactly when a corpus is empty, naming the first; otherwise the result is at least 0 and every simulated count of the three corpora, and is 0 or one of them |
| Padding.ReconcilePadding | runnerp.py:299-323 | fails on the first short row of the window file, else on the first empty corpus; otherwise, without transfer, the padding is the maximum of 0, every sixth-column value and every simulated count; with transfer it is the stored input width minus 10, whatever was computed |
| BatchConfig.TrainParams | runnerp.py:330-346 | the train configuration has exactly the fifteen source keys, no `shuffleExamples`, its own directory, batch size 64, the padding as `maxLen` and the seed |
| BatchConfig.DeriveBatchConfigs | runnerp.py:330-363 | train is exactly the train configuration (directory, padding, seed and every encoding entry); vali has the train keys and differs from train only in `treesDirectory`; test has the train keys plus `shuffleExamples = False`, its own directory and batch size = the test replicate count, and otherwise equals train |
| Pipeline.ParamsFor | runnerp.py:140-199 | the accessibility masks reach the simulator parameters only when a mask file is given; otherwise `winMasks` is None |
| Pipeline.SimulatePhase | runnerp.py:39-235 | stages run in source order: a validation error ends the run first with that error, then the first malformed genome row, then a calibration division by zero, then the first empty corpus; the run succeeds exactly when all stages do; on success the checked arguments, the layout, the range labels and the simulator parameters are those of the stages, `winMasks` is the manager's only with a mask file, and the pool is train ++ vali ++ test with its maximum and minimum attained bounds |
| Pipeline.TrainPhase | runnerp.py:264-363 | fails exactly when the padding scan does, with the scan's error; on success the padding obeys the scan's transfer and maximum properties; train is the train configuration of the project's train directory with that padding and the seed; vali and test equal train apart from their directories and, for test, the batch size and `shuffleExamples = False`; all three point at their own sub-directories, train and vali use batch size 64 and test its replicate count |

## Left out

- Seeding of `os.environ`, `random` and `numpy` (runnerp.py:43-46, 253-256) is process-global random state and is not modelled. `if args.seed:` treats seed 0 as unset; the seed itself is still passed on into both dictionaries.
- The choice of the worker count (runnerp.py:50-53, 260) only feeds collaborators that are not modelled.
- The pauses (runnerp.py:85-87) appear only as a number of seconds in the result. Warnings and errors are values, not printed text. The `pr` banner, every `print` and the sanity-check table with its mean (runnerp.py:14-32, 239-245) are left out.
- File system effects are left out: `os.makedirs` (runnerp.py:99-101), reading the genome file and `windowSizes.txt`, the HDF5 missing-data masks (runnerp.py:147-156), and every `pickle` dump and load (runnerp.py:209-212, 230, 310, 350-352, 361). The model builds paths only. The loaded `segSites` lists and `numReps` are inputs, and so is the concatenated missing-data mask (`mdMask`). The `bn` entry added to the saved parameters (runnerp.py:211) is not modelled.
- `line.split()` is not modelled: rows arrive already split on whitespace.
- Padding.ReconcilePadding: the sixth field is taken as an integer, so the `ValueError` that `int()` raises on a non-numeric field (runnerp.py:304) is not modelled.
- `Manager.splitVCF/countSites/maskWins`, `check_demHist`, `convert_demHist`, `Simulator.simulateAndProduceTrees`, `model_from_json`, `SequenceBatchGenerator`, `runModels` and `plotResults` are collaborators whose code is not part of this model. Their results are inputs: the window counts, the format code, the demographics, the segSites lists and the stored model's input width.
- Calibration.Calibrate: arithmetic is over exact reals, so IEEE double rounding is not captured, and neither is a denominator that underflows to 0.0 without being 0.
- Building the three `Simulator` objects from the same dictionary (runnerp.py:203-205) is not modelled beyond that dictionary.
- The transfer-learning set-up is left out: the stored model paths, the interactive `input()` prompt for the frozen-layer list (runnerp.py:278-289), and `layer_fix_ind`. Transfer mode is the `Padding.Transfer` value carrying the stored input width.
- Argument parsing (runnerp.py:401-433) is not modelled. Two quirks of it follow. `--trans_flag` has `type=bool`, so any non-empty value, `False` included, turns transfer on. `--layer_fix_ind` has `type=list`, so the list is split into single characters.
- Validation.ValidateArgs: a failing run reports only the error kind, not the warnings printed before it.
- A VCF with no windows is the VCF manager's case, and the manager is not part of this model. Rerunning with the same seed (reproducibility) depends on the simulator, which is also not part of this model.

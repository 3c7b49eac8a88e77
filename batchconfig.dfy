/** The keyword arguments of the three sequence-batch generators: the train
    configuration is written out once; the vali and test ones are deep copies
    of it with a few entries overwritten or added. */
module BatchConfig {
  import opened Common

  const KeyTreesDirectory: string := "treesDirectory"
  const KeyBatchSize: string := "batchSize"
  const KeyMaxLen: string := "maxLen"
  const KeyShuffleExamples: string := "shuffleExamples"

  /** Examples per training and validation batch. */
  const TrainBatchSize: int := 64

  /** The keys of the train configuration. */
  const TrainKeys: set<string> := {
    "treesDirectory", "targetNormalization", "batchSize", "maxLen", "frameWidth",
    "shuffleInds", "sortInds", "center", "ancVal", "padVal", "derVal", "realLinePos",
    "posPadVal", "seqD", "seed"}

  /** The train configuration (also the record saved for bootstrapping). */
  function TrainParams(trainDir: string, maxLen: int, seed: Option<int>): (m: map<string, Value>)
    ensures m.Keys == TrainKeys
    ensures KeyShuffleExamples !in m
    ensures m[KeyTreesDirectory] == VStr(trainDir)
    ensures m[KeyBatchSize] == VInt(TrainBatchSize)
    ensures m[KeyMaxLen] == VInt(maxLen)
    ensures m["seed"] == SeedValue(seed)
  {
    map[
      "treesDirectory" := VStr(trainDir),
      "targetNormalization" := VStr("zscore"),
      "batchSize" := VInt(64),
      "maxLen" := VInt(maxLen),
      "frameWidth" := VInt(5),
      "shuffleInds" := VBool(true),
      "sortInds" := VBool(false),
      "center" := VBool(false),
      "ancVal" := VInt(-1),
      "padVal" := VInt(0),
      "derVal" := VInt(1),
      "realLinePos" := VBool(true),
      "posPadVal" := VInt(0),
      "seqD" := VNone,
      "seed" := SeedValue(seed)]
  }

  /** Builds the three configurations. `maxLen` is the reconciled padding
      dimension and `testNumReps` the replicate count of the test corpus, so
      the test set is evaluated in one batch, in the order it is stored. */
  method DeriveBatchConfigs(trainDir: string, valiDir: string, testDir: string,
                            maxLen: int, seed: Option<int>, testNumReps: int)
    returns (train: map<string, Value>, vali: map<string, Value>, test: map<string, Value>)
    // train: the configuration written out in full
    ensures train == TrainParams(trainDir, maxLen, seed)
    ensures train.Keys == TrainKeys
    ensures train[KeyTreesDirectory] == VStr(trainDir) && train[KeyMaxLen] == VInt(maxLen)
    ensures train[KeyBatchSize] == VInt(TrainBatchSize) && KeyShuffleExamples !in train
    ensures train["seed"] == SeedValue(seed)
    // vali: the train configuration with its own directory
    ensures vali.Keys == train.Keys
    ensures vali[KeyTreesDirectory] == VStr(valiDir)
    ensures forall k :: k in train && k != KeyTreesDirectory ==> vali[k] == train[k]
    // test: its own directory, one batch of all its replicates, no shuffling
    ensures test.Keys == train.Keys + {KeyShuffleExamples}
    ensures test[KeyTreesDirectory] == VStr(testDir)
    ensures test[KeyBatchSize] == VInt(testNumReps)
    ensures test[KeyShuffleExamples] == VBool(false)
    ensures forall k :: k in train && k != KeyTreesDirectory && k != KeyBatchSize ==> test[k] == train[k]
  {
    train := TrainParams(trainDir, maxLen, seed);

    vali := train;
    vali := vali[KeyTreesDirectory := VStr(valiDir)];
    vali := vali[KeyBatchSize := VInt(64)];

    test := train;
    test := test[KeyTreesDirectory := VStr(testDir)];
    test := test[KeyBatchSize := VInt(testNumReps)];
    test := test[KeyShuffleExamples := VBool(false)];
  }
}

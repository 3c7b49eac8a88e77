/** The keyword arguments of the three simulators (`dg_params`): an
    equilibrium parameter set with the sample count N and the effective size
    Ne when no demographic history is given, and one carrying the converted
    demographic epochs otherwise; every other entry is common to both. */
module SimParams {
  import opened Common
  import Calibration

  const KeyN: string := "N"
  const KeyNe: string := "Ne"
  const KeyDemographics: string := "MspDemographics"

  /** The keys both parameter sets carry. */
  const SharedKeys: set<string> := {
    "priorLowsRho", "priorHighsRho", "priorLowsMu", "priorHighsMu", "ChromosomeLength",
    "winMasks", "mdMask", "maskThresh", "phased", "phaseError", "seed"}

  /** The entries both parameter sets carry. */
  function SharedParams(p: Calibration.Priors, maxLen: int, winMasks: Value, mdMask: Value,
                        maskThresh: real, phased: bool, phaseError: real, seed: Option<int>)
    : (m: map<string, Value>)
    ensures m.Keys == SharedKeys
    ensures KeyN !in m && KeyNe !in m && KeyDemographics !in m
    ensures m["priorLowsRho"] == VReal(p.rhoLow) && m["priorHighsRho"] == VReal(p.rhoHigh)
    ensures m["ChromosomeLength"] == VInt(maxLen)
    ensures m["priorLowsMu"] == VReal(p.muLow) && m["priorHighsMu"] == VReal(p.muHigh)
    ensures m["winMasks"] == winMasks && m["mdMask"] == mdMask && m["maskThresh"] == VReal(maskThresh)
    ensures m["phased"] == VBool(phased) && m["phaseError"] == VReal(phaseError)
    ensures m["seed"] == SeedValue(seed)
  {
    map[
      "priorLowsRho" := VReal(p.rhoLow),
      "priorHighsRho" := VReal(p.rhoHigh),
      "priorLowsMu" := VReal(p.muLow),
      "priorHighsMu" := VReal(p.muHigh),
      "ChromosomeLength" := VInt(maxLen),
      "winMasks" := winMasks,
      "mdMask" := mdMask,
      "maskThresh" := VReal(maskThresh),
      "phased" := VBool(phased),
      "phaseError" := VReal(phaseError),
      "seed" := SeedValue(seed)]
  }

  /** `dg_params` as the simulate phase builds it: the shared entries plus
      those of the mode (the source writes out both dictionaries in full). `demHist` is the format code
      from validation (0 without a demographic history), `demographics` what
      the history converter returned (read only when demHist is non-zero),
      `winMasks` and `mdMask` the accessibility and missing-data masks (VNone
      when absent). */
  function SimulationParams(nSamps: int, p: Calibration.Priors, maxLen: int, winMasks: Value, mdMask: Value,
                            maskThresh: real, phased: bool, phaseError: real, seed: Option<int>,
                            demHist: int, demographics: Value)
    : (d: map<string, Value>)
    // N and Ne exactly in equilibrium mode, the demographics exactly otherwise
    ensures (KeyN in d && KeyNe in d) <==> demHist == 0
    ensures (KeyN in d || KeyNe in d) <==> demHist == 0
    ensures KeyDemographics in d <==> demHist != 0
    ensures d.Keys == SharedParams(p, maxLen, winMasks, mdMask, maskThresh, phased, phaseError, seed).Keys
                      + (if demHist == 0 then {KeyN, KeyNe} else {KeyDemographics})
    // the entries of both modes are the shared ones
    ensures var shared := SharedParams(p, maxLen, winMasks, mdMask, maskThresh, phased, phaseError, seed);
      forall k :: k in shared ==> d[k] == shared[k]
    ensures demHist == 0 ==> d[KeyN] == VInt(nSamps) && d[KeyNe] == VReal(p.ne)
    ensures demHist != 0 ==> d[KeyDemographics] == demographics
  {
    var shared := SharedParams(p, maxLen, winMasks, mdMask, maskThresh, phased, phaseError, seed);
    if demHist != 0 then shared[KeyDemographics := demographics]
    else shared[KeyN := VInt(nSamps)][KeyNe := VReal(p.ne)]
  }

  /** The two modes disagree only on the mode-specific keys: every other key
      is present in both or in neither, with the same value. */
  lemma ModesAgreeElsewhere(nSamps: int, p: Calibration.Priors, maxLen: int, winMasks: Value, mdMask: Value,
                            maskThresh: real, phased: bool, phaseError: real, seed: Option<int>,
                            demHist: int, demographics: Value, k: string)
    requires demHist != 0
    requires k != KeyN && k != KeyNe && k != KeyDemographics
    ensures var eq := SimulationParams(nSamps, p, maxLen, winMasks, mdMask, maskThresh, phased, phaseError,
                                       seed, 0, demographics);
      var hist := SimulationParams(nSamps, p, maxLen, winMasks, mdMask, maskThresh, phased, phaseError,
                                   seed, demHist, demographics);
      (k in eq <==> k in hist) && (k in eq ==> eq[k] == hist[k])
  {
  }
}

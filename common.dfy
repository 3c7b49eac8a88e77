/** Shared vocabulary of the ReLERNN simulate-and-train pipeline model:
    optional arguments, results, the ways the pipeline stops, the values held
    in its keyword-argument dictionaries, and Python's max/min on lists. */
module Common {

  datatype Option<+T> = None | Some(value: T)

  datatype Result<+T, +E> = Ok(value: T) | Err(error: E)

  /** Every way the modelled part of the pipeline stops before finishing. */
  datatype Failure =
      // validation of the command line; the program prints a message and exits with status 1
    | BadVcfExtension
    | UnrecognisedDemHistory
    | MissingGenTime
    | PhaseErrorWhenUnphased
      // a genome-file row (0-based) without exactly three fields; exit status 1
    | MalformedGenomeLine(line: nat)
      // Python's ZeroDivisionError while calibrating the simulation priors
    | ZeroDivision
      // Python's ValueError from max()/min() of the empty segSites list of a
      // corpus (0 = train, 1 = vali, 2 = test)
    | EmptySegSites(corpus: nat)
      // Python's IndexError: a row (0-based) of windowSizes.txt with fewer than six fields
    | MissingWindowColumn(row: nat)

  /** Python truthiness of an optional string argument: None and "" are both false. */
  predicate Given(o: Option<string>) {
    o.Some? && o.value != ""
  }

  /** Python's str.endswith. */
  predicate EndsWith(s: string, suffix: string) {
    |suffix| <= |s| && s[|s| - |suffix|..] == suffix
  }

  /** A value held in one of the keyword-argument dictionaries the pipeline
      builds. VExternal stands for an object produced by a collaborator that
      is not part of this model (a mask array, converted demographics); the
      handle only tells such objects apart. */
  datatype Value =
    | VNone
    | VBool(b: bool)
    | VInt(i: int)
    | VReal(r: real)
    | VStr(s: string)
    | VExternal(handle: nat)

  /** Python's `int` seed argument as stored in a dictionary: None or a number. */
  function SeedValue(seed: Option<int>): Value {
    match seed
    case None => VNone
    case Some(s) => VInt(s)
  }

  function Max(a: int, b: int): int {
    if a >= b then a else b
  }

  function Min(a: int, b: int): int {
    if a <= b then a else b
  }

  /** Python's max() of a non-empty list of integers. */
  function SeqMax(s: seq<int>): (m: int)
    requires |s| > 0
    ensures m in s
    ensures forall i :: 0 <= i < |s| ==> s[i] <= m
  {
    if |s| == 1 then s[0] else Max(s[0], SeqMax(s[1..]))
  }

  /** Python's min() of a non-empty list of integers. */
  function SeqMin(s: seq<int>): (m: int)
    requires |s| > 0
    ensures m in s
    ensures forall i :: 0 <= i < |s| ==> m <= s[i]
  {
    if |s| == 1 then s[0] else Min(s[0], SeqMin(s[1..]))
  }
}

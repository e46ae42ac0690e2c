/**
 * The Creation Rebirth model: its default tables, how caller overrides are merged
 * into them, the three reactions it declares, its output time grid, and the
 * recovery verdict that `run_analysis` draws from a finished simulation.
 */
module Simulation {
  import opened Wrappers
  import opened Network

  const ModelName := "Creation_Rebirth_Cellular_Kinetics"

  const ChakraReserves := "Chakra_Reserves"
  const ActiveEnzymes := "Active_Enzymes"
  const DamagedCells := "Damaged_Cells"
  const HealthyCells := "Healthy_Cells"
  const TelomereStress := "Telomere_Stress"

  /** A final damaged count below this is a complete recovery. */
  const RecoveryThreshold := 10

  /** The exceptions the modelled code can raise. */
  datatype Error =
    | KeyError(key: string)                 // a missing dictionary or results key
    | IndexError(key: string, index: int)   // an index outside a results array
    | AttributeError                        // the request body is not a JSON object

  /** Simulation output: one array of counts per species, one entry per output time. */
  type Results = map<string, seq<int>>

  function DefaultParameters(): map<string, real>
  {
    map["k_activation" := 0.5, "k_healing" := 2.0, "k_stress" := 0.1, "k_decay" := 0.3]
  }

  function DefaultSpecies(): map<string, int>
  {
    map[ChakraReserves := 1000, ActiveEnzymes := 0, DamagedCells := 500,
        HealthyCells := 500, TelomereStress := 0]
  }

  /**
   * The table the model uses: the defaults, updated key by key with the override
   * (Python's `dict.update`), unless the override is absent or empty (falsy).
   */
  function Merge<V>(defaults: map<string, V>, overrides: Option<map<string, V>>): (r: map<string, V>)
    ensures overrides.None? ==> r == defaults
    ensures overrides.Some? ==> r.Keys == defaults.Keys + overrides.value.Keys
    ensures overrides.Some? ==> forall k :: k in overrides.value ==> r[k] == overrides.value[k]
    ensures overrides.Some? ==> forall k :: k in defaults && k !in overrides.value ==> r[k] == defaults[k]
  {
    if overrides.Some? && overrides.value != map[] then defaults + overrides.value else defaults
  }

  /** A `None` or an empty override leaves the defaults as they are. */
  lemma FalsyOverrideKeepsDefaults<V>(defaults: map<string, V>, overrides: Option<map<string, V>>)
    requires overrides.None? || overrides.value == map[]
    ensures Merge(defaults, overrides) == defaults
  {
  }

  function Activation(): Reaction
  {
    Reaction("Byakugou_Activation", map[ChakraReserves := 1], map[ActiveEnzymes := 1], "k_activation")
  }

  function Regeneration(): Reaction
  {
    Reaction("Mitotic_Regeneration",
             map[DamagedCells := 1, ActiveEnzymes := 1],
             map[HealthyCells := 1, ActiveEnzymes := 1, TelomereStress := 1],
             "k_healing")
  }

  function Dissipation(): Reaction
  {
    Reaction("Chakra_Dissipation", map[ActiveEnzymes := 1], map[], "k_decay")
  }

  /** The model's reactions, in the order they are registered. */
  function Reactions(): seq<Reaction>
  {
    [Activation(), Regeneration(), Dissipation()]
  }

  /** A time expressed in half-units, as a number of time units. */
  function TimeOf(halfUnits: nat): real
  {
    halfUnits as real / 2.0
  }

  /** Point i of `numpy.linspace(start, stop, num)`. */
  function LinspacePoint(start: real, stop: real, num: nat, i: nat): real
    requires num >= 2
  {
    start + (i as real) * (stop - start) / ((num - 1) as real)
  }

  /** The output grid, `linspace(0, 50, 101)`, in half-units. */
  function Timespan(): (grid: seq<nat>)
    ensures |grid| == 101
    ensures forall i :: 0 <= i < |grid| ==> TimeOf(grid[i]) == LinspacePoint(0.0, 50.0, 101, i)
    ensures TimeOf(grid[0]) == 0.0 && TimeOf(grid[100]) == 50.0
    ensures forall i, j :: 0 <= i < j < |grid| ==> grid[i] < grid[j]
  {
    seq(101, i => i)
  }

  /**
   * The model built by the constructor. Registering parameters, species and
   * reactions with the simulation library is modelled as setting these fields.
   */
  class CreationRebirthModel {
    var name: string
    var parameters: map<string, real>
    var species: map<string, int>
    var reactions: seq<Reaction>
    var timespan: seq<nat>

    constructor (parameterValues: Option<map<string, real>>, initialStates: Option<map<string, int>>)
      ensures name == ModelName
      ensures parameters == Merge(DefaultParameters(), parameterValues)
      ensures species == Merge(DefaultSpecies(), initialStates)
      ensures reactions == Reactions()
      ensures timespan == Timespan()
    {
      name := ModelName;

      var params := DefaultParameters();
      if parameterValues.Some? && parameterValues.value != map[] {
        params := params + parameterValues.value;
      }
      parameters := params;

      var speciesConfig := DefaultSpecies();
      if initialStates.Some? && initialStates.value != map[] {
        speciesConfig := speciesConfig + initialStates.value;
      }
      species := speciesConfig;

      // Each reaction looks its rate up among the registered parameters; the
      // lookups cannot fail, since an update never removes a default key.
      assert "k_activation" in params && "k_healing" in params && "k_decay" in params;
      reactions := [Activation(), Regeneration(), Dissipation()];

      timespan := seq(101, i => i);
    }
  }

  // ---------------------------------------------------------------------------
  // The recovery verdict.

  datatype Verdict = CompleteRecovery | PartialRecovery

  function Classify(finalDamaged: int): (v: Verdict)
  {
    if finalDamaged < RecoveryThreshold then CompleteRecovery else PartialRecovery
  }

  /** What the treatment report states. */
  datatype Report = Report(finalHealthy: int, finalDamaged: int, stressLevel: int, verdict: Verdict)

  /** `results[key][-1]`. */
  function Last(results: Results, key: string): Result<int, Error>
  {
    if key !in results then Failure(KeyError(key))
    else if |results[key]| == 0 then Failure(IndexError(key, -1))
    else Success(results[key][|results[key]| - 1])
  }

  /** The report of `run_analysis`, without the printing. */
  function Analyze(results: Results): (r: Result<Report, Error>)
    ensures r.Success? <==>
      && HealthyCells in results && |results[HealthyCells]| > 0
      && DamagedCells in results && |results[DamagedCells]| > 0
      && TelomereStress in results && |results[TelomereStress]| > 0
    ensures r.Success? ==>
      && r.value.finalHealthy == results[HealthyCells][|results[HealthyCells]| - 1]
      && r.value.finalDamaged == results[DamagedCells][|results[DamagedCells]| - 1]
      && r.value.stressLevel == results[TelomereStress][|results[TelomereStress]| - 1]
      && (r.value.verdict == CompleteRecovery <==> r.value.finalDamaged < RecoveryThreshold)
    ensures HealthyCells !in results ==> r == Failure(KeyError(HealthyCells))
    ensures HealthyCells in results && |results[HealthyCells]| == 0 ==> r == Failure(IndexError(HealthyCells, -1))
  {
    var healthy := Last(results, HealthyCells);
    var damaged := Last(results, DamagedCells);
    var stress := Last(results, TelomereStress);
    if healthy.Failure? then Failure(healthy.error)
    else if damaged.Failure? then Failure(damaged.error)
    else if stress.Failure? then Failure(stress.error)
    else Success(Report(healthy.value, damaged.value, stress.value, Classify(damaged.value)))
  }

  /**
   * `run_analysis`: build the model, take the simulator's results for it (an input
   * here, `Failure` when the simulator raised), and report on them.
   */
  method RunAnalysis(parameterValues: Option<map<string, real>>, initialStates: Option<map<string, int>>,
                     simulated: Result<Results, Error>)
    returns (model: CreationRebirthModel, report: Result<Report, Error>)
    ensures model.name == ModelName
    ensures model.parameters == Merge(DefaultParameters(), parameterValues)
    ensures model.species == Merge(DefaultSpecies(), initialStates)
    ensures model.reactions == Reactions() && model.timespan == Timespan()
    ensures simulated.Failure? ==> report == Failure(simulated.error)
    ensures simulated.Success? ==> report == Analyze(simulated.value)
  {
    model := new CreationRebirthModel(parameterValues, initialStates);
    if simulated.Failure? {
      report := Failure(simulated.error);
    } else {
      report := Analyze(simulated.value);
    }
  }

  // ---------------------------------------------------------------------------
  // Properties of the configured model.

  /** With no override for a parameter, it keeps its default value. */
  lemma ParameterDefaultsKept(parameterValues: Option<map<string, real>>)
    ensures var p := Merge(DefaultParameters(), parameterValues);
      && (parameterValues.None? || "k_activation" !in parameterValues.value ==> p["k_activation"] == 0.5)
      && (parameterValues.None? || "k_healing" !in parameterValues.value ==> p["k_healing"] == 2.0)
      && (parameterValues.None? || "k_stress" !in parameterValues.value ==> p["k_stress"] == 0.1)
      && (parameterValues.None? || "k_decay" !in parameterValues.value ==> p["k_decay"] == 0.3)
  {
  }

  /** With no override for a species, it keeps its default initial count. */
  lemma SpeciesDefaultsKept(initialStates: Option<map<string, int>>)
    ensures var s := Merge(DefaultSpecies(), initialStates);
      && (initialStates.None? || ChakraReserves !in initialStates.value ==> s[ChakraReserves] == 1000)
      && (initialStates.None? || ActiveEnzymes !in initialStates.value ==> s[ActiveEnzymes] == 0)
      && (initialStates.None? || DamagedCells !in initialStates.value ==> s[DamagedCells] == 500)
      && (initialStates.None? || HealthyCells !in initialStates.value ==> s[HealthyCells] == 500)
      && (initialStates.None? || TelomereStress !in initialStates.value ==> s[TelomereStress] == 0)
  {
  }

  /**
   * Whatever the overrides, every rate parameter and every species a reaction
   * names is declared, so building the reactions never fails on a lookup.
   */
  lemma ReactionsDeclared(parameterValues: Option<map<string, real>>, initialStates: Option<map<string, int>>)
    ensures forall r :: r in Reactions() ==> r.rate in Merge(DefaultParameters(), parameterValues)
    ensures forall r, sp :: r in Reactions() && sp in r.reactants ==> sp in Merge(DefaultSpecies(), initialStates)
    ensures forall r, sp :: r in Reactions() && sp in r.products ==> sp in Merge(DefaultSpecies(), initialStates)
  {
  }

  /** `k_stress` is declared but no reaction uses it as its rate. */
  lemma StressRateUnused()
    ensures "k_stress" in DefaultParameters()
    ensures forall r :: r in Reactions() ==> r.rate != "k_stress"
  {
  }

  /** The initial state is non-negative when the overriding counts are. */
  lemma InitialStateNonNegative(initialStates: Option<map<string, int>>)
    requires initialStates.Some? ==> NonNegative(initialStates.value)
    ensures NonNegative(Merge(DefaultSpecies(), initialStates))
  {
  }

  /** Three reactions with the declared names and stoichiometry. */
  lemma ReactionTable()
    ensures |Reactions()| == 3
    ensures (set r | r in Reactions() :: r.name) == {"Byakugou_Activation", "Mitotic_Regeneration", "Chakra_Dissipation"}
    ensures forall sp :: Change(Activation(), sp) == (if sp == ChakraReserves then -1 else if sp == ActiveEnzymes then 1 else 0)
    ensures forall sp :: (Change(Regeneration(), sp)
      == if sp == DamagedCells then -1 else if sp == HealthyCells || sp == TelomereStress then 1 else 0)
    ensures forall sp :: Change(Dissipation(), sp) == (if sp == ActiveEnzymes then -1 else 0)
  {
  }

  /**
   * Every reaction keeps Damaged + Healthy; the enzyme is a catalyst of
   * Regeneration; stress and healthy cells are never consumed; chakra and damaged
   * cells are never produced.
   */
  lemma NetworkTrends()
    ensures forall r :: r in Reactions() ==> QuantityChange(r, [DamagedCells, HealthyCells]) == 0
    ensures Change(Regeneration(), ActiveEnzymes) == 0
    ensures Conserved(Reactions(), [DamagedCells, HealthyCells])
    ensures Monotone(Reactions(), [TelomereStress], NonDecreasing)
    ensures Monotone(Reactions(), [HealthyCells], NonDecreasing)
    ensures Monotone(Reactions(), [ChakraReserves], NonIncreasing)
    ensures Monotone(Reactions(), [DamagedCells], NonIncreasing)
  {
    ReactionTable();
    forall r, a, b {
      SmallQuantityChanges(r, a, b);
    }
  }

  /**
   * Along every trajectory the simulator can record for this network: stress and
   * healthy cells never decrease, chakra reserves and damaged cells never increase,
   * Damaged + Healthy stays constant, and no count goes negative.
   */
  lemma RecoveryTrajectory(snaps: seq<State>, between: seq<seq<Step>>, i: nat, j: nat)
    requires Recorded(Reactions(), snaps, between) && NonNegative(snaps[0])
    requires i <= j < |snaps|
    ensures Count(snaps[i], TelomereStress) <= Count(snaps[j], TelomereStress)
    ensures Count(snaps[i], HealthyCells) <= Count(snaps[j], HealthyCells)
    ensures Count(snaps[j], ChakraReserves) <= Count(snaps[i], ChakraReserves)
    ensures Count(snaps[j], DamagedCells) <= Count(snaps[i], DamagedCells)
    ensures Count(snaps[i], DamagedCells) + Count(snaps[i], HealthyCells)
         == Count(snaps[j], DamagedCells) + Count(snaps[j], HealthyCells)
    ensures NonNegative(snaps[j])
  {
    NetworkTrends();
    SmallQuantities(snaps[i], DamagedCells, HealthyCells);
    SmallQuantities(snaps[j], DamagedCells, HealthyCells);
    SmallQuantities(snaps[i], TelomereStress, HealthyCells);
    SmallQuantities(snaps[j], TelomereStress, HealthyCells);
    SmallQuantities(snaps[i], ChakraReserves, HealthyCells);
    SmallQuantities(snaps[j], ChakraReserves, HealthyCells);
    RecordedFollows(Reactions(), snaps, between, [TelomereStress], NonDecreasing, i, j);
    RecordedFollows(Reactions(), snaps, between, [HealthyCells], NonDecreasing, i, j);
    RecordedFollows(Reactions(), snaps, between, [ChakraReserves], NonIncreasing, i, j);
    RecordedFollows(Reactions(), snaps, between, [DamagedCells], NonIncreasing, i, j);
    RecordedConserved(Reactions(), snaps, between, [DamagedCells, HealthyCells], i, j);
    RecordedNonNegative(Reactions(), snaps, between, j);
  }
}

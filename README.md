# Creation Rebirth: a verified model of the simulation wrapper

The repository defines the "Creation Rebirth" cellular-kinetics model and two
clients of it. The model is a reaction network over five integer species:
Chakra_Reserves, Active_Enzymes, Damaged_Cells, Healthy_Cells and Telomere_Stress.
It has three mass-action reactions:

- Byakugou_Activation: Chakra → Enzyme.
- Mitotic_Regeneration: Damaged + Enzyme → Healthy + Enzyme + Stress.
- Chakra_Dissipation: Enzyme → ∅.

It also has default rate parameters and initial counts that callers may override,
and a 101-point output grid on [0, 50]. `run_analysis` reports the final counts and
calls the recovery complete when fewer than 10 damaged cells remain. The HTTP
handler `/api/simulate` translates the request's lower-case state names to species
names, builds the model, turns the simulator's result arrays into one record per
timepoint and summarises the last record.

The project models that logic. The stochastic simulator the repository calls is
not modelled.

- `wrappers.dfy` (module `Wrappers`): `Option` and `Result`. They stand for Python's
  `None` and for raised exceptions.
- `network.dfy` (module `Network`): a reaction network as a transition system. A
  state maps species names to counts. A step is either an exact firing of a reaction
  whose reactants are all available, or a leap. A leap fires any multiset of
  reactions at once and is kept only if no count ends up negative. Which steps
  happen is left open, so the invariants proved hold for every trajectory such a
  simulator can record. The model's leap allows more than a tau-leaping simulator
  does: it accepts any multiset of firings whose result is non-negative, so it can,
  for example, fire Regeneration from a state with zero enzymes, which a simulator
  (where that reaction's propensity is then 0) never does. The invariants are
  proved for this larger set of trajectories, so they hold for the simulator's.
- `creation_rebirth_sim.dfy` (module `Simulation`): the default tables and the
  `dict.update` merge, with a falsy override ignored. It also holds the class
  `CreationRebirthModel`, whose constructor is `__init__`. Registering objects with
  the library is modelled as setting fields. The module also has the three
  reactions, the grid in integer half-units (point i is time i/2), the verdict,
  `run_analysis` without its printing, and the network's invariants.
- `flask_api_wrapper.dfy` (module `Api`): the key-translation loop, the
  record-building loop, the summary and the whole handler. The handler's status is
  200 on success and 400 on any exception.

### Notes on the code

- A record's `time` is the index i of the timepoint, not the simulated time i/2
  (`Api.RecordTimeIsIndex`).
- The rate parameter `k_stress` is declared but no reaction uses it
  (`Simulation.StressRateUnused`).
- The reactions' lookups of their rate parameters and species cannot fail: an
  update never removes a default key (`Simulation.ReactionsDeclared`).

## Model

| member | source | states |
|---|---|---|
| `Network.Fire` | creation_rebirth_sim.py:63-86 | Firing a reaction once changes every species count by its product coefficient minus its reactant coefficient. |
| `Network.FireAll` | creation_rebirth_sim.py:105-107 | A leap that fires several reactions at once changes every count by the sum of their changes. |
| `Network.FirePreservesNonNegative` | creation_rebirth_sim.py:63-86 | Firing a reaction only when each reactant count is at least its coefficient keeps every count ≥ 0. |
| `Network.StepPreservesNonNegative` | creation_rebirth_sim.py:105-107 | Every allowed step, exact or leap, keeps a non-negative state non-negative. |
| `Network.ExactStepIsLeap` | creation_rebirth_sim.py:105-107 | An exact firing is also a one-firing leap that passes the leap test, and it reaches the same state. |
| `Network.RunPreservesNonNegative` | creation_rebirth_sim.py:105-107 | Any sequence of allowed steps from a non-negative state ends in a non-negative state. |
| `Network.RecordedNonNegative` | creation_rebirth_sim.py:105-107 | Every recorded snapshot is non-negative when the initial one is. |
| `Network.QuantityAfterFire` | creation_rebirth_sim.py:63-86 | A sum of species counts changes, on one firing, by the sum of that reaction's changes. |
| `Network.QuantityAfterLeap` | creation_rebirth_sim.py:105-107 | A sum of species counts changes, on a leap, by the total over the leap's firings. |
| `Network.LeapFollows` | creation_rebirth_sim.py:63-86 | If no reaction moves a quantity against a direction, no multiset of firings does. |
| `Network.StepFollows` | creation_rebirth_sim.py:105-107 | Such a quantity follows its direction across every allowed step. |
| `Network.RunFollows` | creation_rebirth_sim.py:105-107 | Such a quantity follows its direction across every run of allowed steps. |
| `Network.RecordedFollows` | creation_rebirth_sim.py:105-107 | Such a quantity follows its direction between any two recorded snapshots i ≤ j. |
| `Network.RecordedConserved` | creation_rebirth_sim.py:105-107 | A quantity that no reaction changes is equal in every pair of recorded snapshots. |
| `Simulation.Merge` | creation_rebirth_sim.py:25-34 | An override leaves the keys of defaults and override together. Overridden keys take the supplied value and the other defaults keep theirs. A `None` override leaves the defaults as they are. |
| `Simulation.FalsyOverrideKeepsDefaults` | creation_rebirth_sim.py:33-34 | A `None` or empty override leaves the table equal to the defaults. |
| `Simulation.ParameterDefaultsKept` | creation_rebirth_sim.py:25-34 | A parameter that is not overridden keeps its default: 0.5, 2.0, 0.1 or 0.3. The defaults are the table `Simulation.DefaultParameters` (creation_rebirth_sim.py:25-30). |
| `Simulation.SpeciesDefaultsKept` | creation_rebirth_sim.py:46-55 | A species that is not overridden keeps its default: 1000, 0, 500, 500 or 0. The defaults are the table `Simulation.DefaultSpecies` (creation_rebirth_sim.py:46-52). |
| `Simulation.CreationRebirthModel.constructor` | creation_rebirth_sim.py:15-92 | The model's name is fixed. Parameters and species are the merged tables, the reactions are the three declared ones and the timespan is the 101-point grid. |
| `Simulation.ReactionsDeclared` | creation_rebirth_sim.py:63-88 | For any overrides, every rate parameter and every species a reaction names is declared, so no lookup fails. |
| `Simulation.StressRateUnused` | creation_rebirth_sim.py:25-86 | `k_stress` is declared, yet no reaction takes it as its rate. |
| `Simulation.InitialStateNonNegative` | creation_rebirth_sim.py:46-57 | The initial counts are non-negative when the overriding counts are. |
| `Simulation.ReactionTable` | creation_rebirth_sim.py:63-88 | There are exactly three reactions, with the three stated names and the stated net change per species. The reactions are the function `Simulation.Reactions`. |
| `Simulation.NetworkTrends` | creation_rebirth_sim.py:63-86 | Every reaction keeps Damaged + Healthy, and Regeneration keeps the enzyme count. No reaction lowers stress or healthy cells or raises chakra or damaged cells. |
| `Simulation.RecoveryTrajectory` | creation_rebirth_sim.py:59-107 | Between any two recorded snapshots i ≤ j, stress and healthy cells do not decrease and chakra and damaged cells do not increase. Damaged + Healthy is equal and every count stays ≥ 0. |
| `Simulation.Timespan` | creation_rebirth_sim.py:90-92 | The grid has 101 strictly increasing points. Point i is `linspace(0, 50, 101)[i]`, the first is 0 and the last is 50. |
| `Simulation.Analyze` | creation_rebirth_sim.py:109-125 | The report exists exactly when the three arrays exist and are non-empty. Its fields are their last entries, and the verdict is complete exactly when the final damaged count is < 10. The verdict is computed by `Simulation.Classify` (creation_rebirth_sim.py:121). |
| `Simulation.RunAnalysis` | creation_rebirth_sim.py:94-125 | The model is built from the overrides, with the fixed name, the three reactions and the 101-point grid. A simulator failure propagates; otherwise the report is the one of the results. |
| `Api.ModelKeyTable` | flask_api_wrapper.py:28-40 | Each of the five lower-case names translates to its species name, any other key translates to itself, and translating twice is translating once. The translation is the function `Api.ModelKey` (`state_mapping.get(key, key)`, flask_api_wrapper.py:40). |
| `Api.ModelKeyCollision` | flask_api_wrapper.py:28-40 | Two distinct keys translate to the same name only when one is the lower-case name of the other. |
| `Api.ConvertStates` | flask_api_wrapper.py:36-41 | The loop computes the translated table of the request's entries, in iteration order. |
| `Api.ConvertedKeys` | flask_api_wrapper.py:37-41 | The translated table has exactly the translated keys of the entries. Here `Api.Converted` is the in-order fold of flask_api_wrapper.py:37-41. |
| `Api.ConvertedLatestWins` | flask_api_wrapper.py:39-41 | A key holds the value of the last entry that translates to it. About `Api.Converted`. |
| `Api.ConvertedEmpty` | flask_api_wrapper.py:37-46 | The translated table is empty exactly when the request's states are empty. |
| `Api.OverrideOfRequest` | flask_api_wrapper.py:44-47 | Passing an empty table on as `None` gives the same model tables as passing it itself. An empty table gives the defaults. `Api.AsOverride` is the `x if x else None` of flask_api_wrapper.py:45-46. |
| `Api.DamagedCellsRequest` | flask_api_wrapper.py:28-47 | A request that sets only `damaged_cells` changes Damaged_Cells and leaves the other four species at their defaults. |
| `Api.Records` | flask_api_wrapper.py:55-67 | There is one record per timepoint. Record i has time i and the five species values at index i. |
| `Api.BuildRecords` | flask_api_wrapper.py:53-67 | The loop succeeds exactly when the arrays are long enough, and then yields those records. On failure it raises a KeyError or IndexError that the results really cause. |
| `Api.Summarize` | flask_api_wrapper.py:69-76 | A summary exists exactly when there is a record; with no records the index -1 raises. Its fields are the last record's healthy, damaged and stress counts, and `recovered` holds exactly when the last damaged count is < 10. |
| `Api.Simulate` | flask_api_wrapper.py:13-89 | The model is built from the translated request, with the fixed name, the three reactions and the 101-point grid. Status is 200 exactly on success and 400 on any failure. Success happens exactly when the body is an object and the results are well shaped and non-empty; the data are then the records and the summary is that of the last record. |
| `Api.VerdictsAgree` | flask_api_wrapper.py:70-76 | On aligned results, the handler's summary and the treatment report give the same final counts. `recovered` holds exactly when the verdict is complete recovery, the same `< 10` threshold as creation_rebirth_sim.py:121. |
| `Api.RecordTimeIsIndex` | flask_api_wrapper.py:59-61 | On the 101-point grid there are 101 records, and record i's time is i, twice the simulated time i/2. |
| `Api.RecordsFollowTrajectory` | flask_api_wrapper.py:53-67 | When the result arrays are the snapshots of a trajectory of the model's network, between any records i ≤ j stress and healthy cells do not decrease, chakra and damaged cells do not increase, Damaged + Healthy is equal, and all five counts of record j are non-negative. |

## Left out

- The tau-leaping simulator (`model.run(solver=TauLeapingSolver)`) is not modelled. That covers propensities, leap-time selection, Poisson and exponential draws and floating point. Which reactions fire is left nondeterministic (`Network.Step`), and the solver's output is an input (`simulated`) of `Simulation.RunAnalysis` and `Api.Simulate`. It is not tied to the model built.
- Rate values have no kinetic meaning here. Parameters are map entries of type `real`, kept only for the merge.
- The statistical claims of the tests are left out: a higher healing rate giving less damage, zero healing keeping damage within 10%, and the initial-value tolerance. They depend on random draws and rates, not on stoichiometry.
- Printing in `run_analysis` is not modelled. The text of the report is I/O; only its values and the verdict are modelled.
- Flask plumbing is left out: routing, `request.get_json` parsing, `jsonify`, CORS, the `/api/health` endpoint and the `sys.path` line. A body that is not a JSON object is `Payload.NotAnObject`. An absent or `null` table reads as empty, since both are falsy in the source.
- JSON value types are fixed by the model: `parameters` maps names to reals, and `initial_states` is a list of name and integer pairs in iteration order. A table of another shape, whose `update` or `items()` would raise, is not modelled.
- The library's own checks on parameter and species values, such as negative or non-numeric initial counts, are left out. The library is not part of this model.
- Numeric conversions are simplified. Result arrays are integer counts, so `int(...)` is the identity. `float(i)` for `time` is kept as the integer i. The grid uses integer half-units instead of `np.linspace` floats; the values i/2 are exact in binary floating point anyway.
- Exception messages (`str(e)`) are not modelled. Only the kind of exception and the key or index involved are kept (`Simulation.Error`).
- The order in which parameters and species are registered, which follows Python dict order, is not modelled. The tables are maps.
- Simulation.Analyze: on failure, the contract names the exception only for a missing or empty Healthy_Cells array. For the other arrays it says only that the call fails; the body raises for the first failing array in the order Healthy, Damaged, Stress.

/**
 * The HTTP front end's own logic: translating the request's state keys to species
 * names, building the model from the request, turning the simulator's results into
 * per-timepoint records, and summarising the last record.
 */
module Api {
  import opened Wrappers
  import opened Simulation
  import opened Network

  /** Front-end state names and the species names they stand for. */
  const StateMapping: map<string, string> := map[
    "chakra_reserves" := ChakraReserves,
    "active_enzymes" := ActiveEnzymes,
    "damaged_cells" := DamagedCells,
    "healthy_cells" := HealthyCells,
    "telomere_stress" := TelomereStress]

  /** `state_mapping.get(key, key)`. */
  function ModelKey(key: string): string
  {
    if key in StateMapping then StateMapping[key] else key
  }

  /** No later entry of `items` translates to the same species as entry i. */
  predicate LastWithKey(items: seq<(string, int)>, i: int)
    requires 0 <= i < |items|
  {
    forall j :: i < j < |items| ==> ModelKey(items[j].0) != ModelKey(items[i].0)
  }

  /** The species names the entries of `items` translate to. */
  function TranslatedKeys(items: seq<(string, int)>): set<string>
  {
    set i | 0 <= i < |items| :: ModelKey(items[i].0)
  }

  lemma TranslatedKeysSnoc(items: seq<(string, int)>)
    requires items != []
    ensures TranslatedKeys(items) == TranslatedKeys(items[..|items| - 1]) + {ModelKey(items[|items| - 1].0)}
  {
  }

  /**
   * The translated initial states: the entries are stored in order under their
   * translated keys, each overwriting what an earlier entry stored there.
   */
  function Converted(items: seq<(string, int)>): map<string, int>
    decreases |items|
  {
    if items == [] then map[]
    else Converted(items[..|items| - 1])[ModelKey(items[|items| - 1].0) := items[|items| - 1].1]
  }

  /** The translated table has exactly the translated keys of the request's entries. */
  lemma {:induction false} ConvertedKeys(items: seq<(string, int)>)
    ensures Converted(items).Keys == TranslatedKeys(items)
    decreases |items|
  {
    if items != [] {
      ConvertedKeys(items[..|items| - 1]);
      TranslatedKeysSnoc(items);
    }
  }

  /** When several entries translate to the same species, the latest of them wins. */
  lemma {:induction false} ConvertedLatestWins(items: seq<(string, int)>, i: int)
    requires 0 <= i < |items| && LastWithKey(items, i)
    ensures ModelKey(items[i].0) in Converted(items)
    ensures Converted(items)[ModelKey(items[i].0)] == items[i].1
    decreases |items|
  {
    var n := |items|;
    if i < n - 1 {
      var prefix := items[..n - 1];
      assert prefix[i] == items[i];
      assert ModelKey(items[i].0) != ModelKey(items[n - 1].0);
      assert LastWithKey(prefix, i);
      ConvertedLatestWins(prefix, i);
    }
  }

  /** The translation loop over the request's `initial_states`, in iteration order. */
  method ConvertStates(items: seq<(string, int)>) returns (converted: map<string, int>)
    ensures converted == Converted(items)
  {
    converted := map[];
    var i := 0;
    while i < |items|
      invariant 0 <= i <= |items|
      invariant converted == Converted(items[..i])
    {
      var (key, value) := items[i];
      var modelKey := ModelKey(key);
      converted := converted[modelKey := value];
      assert items[..i + 1][..i] == items[..i];
      i := i + 1;
    }
    assert items[..|items|] == items;
  }

  /** `x if x else None`: an empty table is passed on as no override at all. */
  function AsOverride<V>(m: map<string, V>): Option<map<string, V>>
  {
    if m == map[] then None else Some(m)
  }

  /** One output record per timepoint. `time` is the index of the timepoint. */
  datatype Record = Record(
    time: int,
    chakra: int,
    activeEnzymes: int,
    damagedCells: int,
    healthyCells: int,
    telomereStress: int)

  /** The species each record reads, in the order it reads them. */
  const RecordSpecies: seq<string> := [ChakraReserves, ActiveEnzymes, DamagedCells, HealthyCells, TelomereStress]

  /**
   * The results can be turned into records: the healthy-cell array exists, and when
   * it is not empty every species array exists and is at least as long.
   */
  predicate WellShaped(results: Results)
  {
    && HealthyCells in results
    && (|results[HealthyCells]| == 0 ||
        forall k :: k in RecordSpecies ==> k in results && |results[k]| >= |results[HealthyCells]|)
  }

  /** The records built from well-shaped results. */
  function Records(results: Results): (r: seq<Record>)
    requires WellShaped(results)
    ensures |r| == |results[HealthyCells]|
    ensures forall i :: 0 <= i < |r| ==>
      && r[i].time == i
      && r[i].chakra == results[ChakraReserves][i]
      && r[i].activeEnzymes == results[ActiveEnzymes][i]
      && r[i].damagedCells == results[DamagedCells][i]
      && r[i].healthyCells == results[HealthyCells][i]
      && r[i].telomereStress == results[TelomereStress][i]
  {
    var n := |results[HealthyCells]|;
    seq(n, i requires 0 <= i < n => RecordAt(results, i))
  }

  function RecordAt(results: Results, i: nat): Record
    requires forall k :: k in RecordSpecies ==> k in results && i < |results[k]|
  {
    Record(i, results[ChakraReserves][i], results[ActiveEnzymes][i], results[DamagedCells][i],
           results[HealthyCells][i], results[TelomereStress][i])
  }

  /** `results[key][i]`. */
  function Lookup(results: Results, key: string, i: nat): Result<int, Error>
  {
    if key !in results then Failure(KeyError(key))
    else if i >= |results[key]| then Failure(IndexError(key, i))
    else Success(results[key][i])
  }

  /** The error is one the results really give cause for. */
  predicate Raised(results: Results, e: Error)
  {
    || (e.KeyError? && e.key !in results)
    || (e.IndexError? && e.key in results && e.index >= |results[e.key]|)
  }

  /** The record-building loop; it stops at the first lookup that raises. */
  method BuildRecords(results: Results) returns (out: Result<seq<Record>, Error>)
    ensures out.Success? <==> WellShaped(results)
    ensures out.Success? ==> out.value == Records(results)
    ensures out.Failure? ==> Raised(results, out.error)
  {
    if HealthyCells !in results {
      return Failure(KeyError(HealthyCells));
    }
    var n := |results[HealthyCells]|;
    var output: seq<Record> := [];
    var i := 0;
    while i < n
      invariant 0 <= i <= n
      invariant i > 0 ==> forall k :: k in RecordSpecies ==> k in results && |results[k]| >= i
      invariant |output| == i
      invariant forall j :: 0 <= j < i ==> output[j] == RecordAt(results, j)
    {
      var chakra := Lookup(results, ChakraReserves, i);
      if chakra.Failure? { return Failure(chakra.error); }
      var enzymes := Lookup(results, ActiveEnzymes, i);
      if enzymes.Failure? { return Failure(enzymes.error); }
      var damaged := Lookup(results, DamagedCells, i);
      if damaged.Failure? { return Failure(damaged.error); }
      var healthy := results[HealthyCells][i];
      var stress := Lookup(results, TelomereStress, i);
      if stress.Failure? { return Failure(stress.error); }
      output := output + [Record(i, chakra.value, enzymes.value, damaged.value, healthy, stress.value)];
      i := i + 1;
    }
    out := Success(output);
  }

  datatype Summary = Summary(finalHealthy: int, finalDamaged: int, stressLevel: int, recovered: bool)

  /** The summary of the last record; the list is indexed at -1, so an empty one raises. */
  function Summarize(records: seq<Record>): (r: Result<Summary, Error>)
    ensures r.Success? <==> |records| > 0
    ensures r.Failure? ==> r.error == IndexError("output_data", -1)
    ensures r.Success? ==>
      var last := records[|records| - 1];
      && r.value.finalHealthy == last.healthyCells
      && r.value.finalDamaged == last.damagedCells
      && r.value.stressLevel == last.telomereStress
      && (r.value.recovered <==> last.damagedCells < RecoveryThreshold)
  {
    if records == [] then Failure(IndexError("output_data", -1))
    else
      var last := records[|records| - 1];
      Success(Summary(last.healthyCells, last.damagedCells, last.telomereStress, last.damagedCells < RecoveryThreshold))
  }

  /** The request body: not a JSON object, or one whose absent or null tables read as empty. */
  datatype Payload =
    | NotAnObject
    | Object(parameters: map<string, real>, initialStates: seq<(string, int)>)

  datatype Body = Succeeded(data: seq<Record>, summary: Summary) | Failed(error: Error)

  datatype Response = Response(status: int, body: Body)

  /**
   * The `/api/simulate` handler. `simulated` stands for what the simulator returns
   * for the model the handler builds (`Failure` when it raises).
   */
  method Simulate(payload: Payload, simulated: Result<Results, Error>)
    returns (model: CreationRebirthModel?, response: Response)
    ensures payload.NotAnObject? ==> model == null && response == Response(400, Failed(AttributeError))
    ensures payload.Object? ==>
      && model != null
      && model.name == ModelName
      && model.reactions == Reactions() && model.timespan == Timespan()
      && model.parameters == Merge(DefaultParameters(), AsOverride(payload.parameters))
      && model.species == Merge(DefaultSpecies(), AsOverride(Converted(payload.initialStates)))
    ensures response.status == (if response.body.Succeeded? then 200 else 400)
    ensures response.body.Succeeded? <==>
      payload.Object? && simulated.Success? && WellShaped(simulated.value)
      && |simulated.value[HealthyCells]| > 0
    ensures response.body.Succeeded? ==>
      && response.body.data == Records(simulated.value)
      && Summarize(response.body.data) == Success(response.body.summary)
    ensures payload.Object? && simulated.Failure? ==> response.body == Failed(simulated.error)
  {
    if payload.NotAnObject? {
      return null, Response(400, Failed(AttributeError));
    }
    var converted := ConvertStates(payload.initialStates);
    model := new CreationRebirthModel(AsOverride(payload.parameters), AsOverride(converted));
    if simulated.Failure? {
      return model, Response(400, Failed(simulated.error));
    }
    var records := BuildRecords(simulated.value);
    if records.Failure? {
      return model, Response(400, Failed(records.error));
    }
    var summary := Summarize(records.value);
    if summary.Failure? {
      return model, Response(400, Failed(summary.error));
    }
    response := Response(200, Succeeded(records.value, summary.value));
  }

  // ---------------------------------------------------------------------------
  // Properties.

  /** The five front-end names translate to species names; any other key is kept. */
  lemma ModelKeyTable(key: string)
    ensures ModelKey("chakra_reserves") == "Chakra_Reserves"
    ensures ModelKey("active_enzymes") == "Active_Enzymes"
    ensures ModelKey("damaged_cells") == "Damaged_Cells"
    ensures ModelKey("healthy_cells") == "Healthy_Cells"
    ensures ModelKey("telomere_stress") == "Telomere_Stress"
    ensures key !in StateMapping.Keys ==> ModelKey(key) == key
    ensures ModelKey(ModelKey(key)) == ModelKey(key)
  {
  }

  /** Two distinct keys collide only when one is the front-end name of the other. */
  lemma ModelKeyCollision(a: string, b: string)
    requires a != b && ModelKey(a) == ModelKey(b)
    ensures (a in StateMapping && StateMapping[a] == b) || (b in StateMapping && StateMapping[b] == a)
  {
  }

  /** An empty request table means the defaults; a non-empty one overrides as `update` does. */
  lemma OverrideOfRequest<V>(defaults: map<string, V>, m: map<string, V>)
    ensures Merge(defaults, AsOverride(m)) == Merge(defaults, Some(m))
    ensures m == map[] ==> Merge(defaults, AsOverride(m)) == defaults
  {
  }

  /** The translated states are empty only when the request's states are. */
  lemma ConvertedEmpty(items: seq<(string, int)>)
    ensures Converted(items) == map[] <==> items == []
  {
    if items != [] {
      ConvertedKeys(items);
      assert ModelKey(items[0].0) in TranslatedKeys(items);
    }
  }

  /** A request that sets only `damaged_cells` overrides Damaged_Cells and nothing else. */
  lemma DamagedCellsRequest(v: int)
    ensures var s := Merge(DefaultSpecies(), AsOverride(Converted([("damaged_cells", v)])));
      && s[DamagedCells] == v && s[HealthyCells] == 500 && s[ChakraReserves] == 1000
      && s[ActiveEnzymes] == 0 && s[TelomereStress] == 0 && s.Keys == DefaultSpecies().Keys
  {
    var items := [("damaged_cells", v)];
    assert LastWithKey(items, 0);
    ConvertedKeys(items);
    ConvertedLatestWins(items, 0);
    assert ModelKey(items[0].0) == DamagedCells;
    forall x ensures x in TranslatedKeys(items) <==> x == DamagedCells {
      if x == DamagedCells {
        assert ModelKey(items[0].0) == x;
      }
    }
  }

  /** Results with every species array of one common length. */
  predicate Aligned(results: Results)
  {
    && (forall k :: k in RecordSpecies ==> k in results)
    && (forall k :: k in RecordSpecies ==> |results[k]| == |results[HealthyCells]|)
  }

  /**
   * On aligned, non-empty results the handler's summary and the treatment report
   * agree: same final counts, and `recovered` exactly when the verdict is a
   * complete recovery.
   */
  lemma VerdictsAgree(results: Results)
    requires Aligned(results) && |results[HealthyCells]| > 0
    ensures WellShaped(results) && Analyze(results).Success?
    ensures Summarize(Records(results)).Success?
    ensures var summary := Summarize(Records(results)).value;
      var report := Analyze(results).value;
      && summary.finalHealthy == report.finalHealthy
      && summary.finalDamaged == report.finalDamaged
      && summary.stressLevel == report.stressLevel
      && (summary.recovered <==> report.verdict == CompleteRecovery)
  {
  }

  /**
   * For the model's 101-point grid there are 101 records, and the `time` of record
   * i is its index i, twice the simulated time i/2 of that grid point.
   */
  lemma RecordTimeIsIndex(results: Results)
    requires WellShaped(results) && |results[HealthyCells]| == |Timespan()|
    ensures |Records(results)| == 101
    ensures forall i :: 0 <= i < 101 ==> Records(results)[i].time as real == 2.0 * TimeOf(Timespan()[i])
    ensures Records(results)[100].time == 100 && TimeOf(Timespan()[100]) == 50.0
  {
  }

  /** The result arrays hold, at each index, the counts of the snapshot recorded there. */
  ghost predicate SnapshotsOf(results: Results, snaps: seq<State>)
  {
    forall k :: k in RecordSpecies ==>
      && k in results && |results[k]| == |snaps|
      && forall i :: 0 <= i < |snaps| ==> results[k][i] == Count(snaps[i], k)
  }

  /**
   * When the results are the snapshots of a trajectory of the model's network, the
   * records inherit its invariants: stress and healthy cells never decrease, chakra
   * and damaged cells never increase, Damaged + Healthy is constant and no count is
   * negative; in particular the final damaged count is at most the first.
   */
  lemma RecordsFollowTrajectory(results: Results, snaps: seq<State>, between: seq<seq<Step>>, i: nat, j: nat)
    requires Recorded(Reactions(), snaps, between) && NonNegative(snaps[0])
    requires SnapshotsOf(results, snaps)
    requires i <= j < |snaps|
    ensures WellShaped(results) && |Records(results)| == |snaps|
    ensures var r := Records(results);
      && r[i].telomereStress <= r[j].telomereStress
      && r[i].healthyCells <= r[j].healthyCells
      && r[j].chakra <= r[i].chakra
      && r[j].damagedCells <= r[i].damagedCells
      && r[i].damagedCells + r[i].healthyCells == r[j].damagedCells + r[j].healthyCells
      && r[j].chakra >= 0 && r[j].activeEnzymes >= 0 && r[j].damagedCells >= 0
      && r[j].healthyCells >= 0 && r[j].telomereStress >= 0
  {
    assert ChakraReserves in RecordSpecies && ActiveEnzymes in RecordSpecies && DamagedCells in RecordSpecies;
    assert HealthyCells in RecordSpecies && TelomereStress in RecordSpecies;
    RecoveryTrajectory(snaps, between, i, j);
  }
}

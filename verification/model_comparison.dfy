/** The training pipeline of `vmp/ml_model_comparison.py`: synthetic samples
    labelled by the host rule, the derived features and the label encoders,
    the column selection, the seven registered regressors, training with the
    scaled or the raw features, grid-search tuning and the file names the
    models are saved under. The estimators, the scaler, the train/test split
    and the metrics are outside the model: fitting and searching are
    parameters. */
module ModelComparison {
  import opened Common
  import opened LabelCoding
  import opened HostRule
  import opened OrderedDict
  import opened Ranking

  /* ---------- synthetic samples ---------- */

  const SyntheticSamples: nat := 10000

  /** The VM name of sample `i`: VM1 … VM10, round robin. */
  function SyntheticVmName(i: nat): string {
    "VM" + NatToString(i % 10 + 1)
  }

  /** The names repeat with period ten and the ten names of a period are
      pairwise different. */
  lemma SyntheticVmNamesCycle(i: nat, j: nat)
    ensures SyntheticVmName(i + 10) == SyntheticVmName(i)
    ensures SyntheticVmName(i) == SyntheticVmName(j) <==> i % 10 == j % 10
  {
    if i % 10 != j % 10 {
      PrefixedNumbersDistinct("VM", i % 10 + 1, j % 10 + 1);
    }
  }

  /** The random part of one sample. */
  datatype SampleDraw = SampleDraw(timestamp: real, cpu: int, memory: int, networkIo: real, power: int)

  datatype Sample = Sample(timestamp: real, vm: string, cpu: int, memory: int, networkIo: real, power: int, host: string)

  /** The synthetic data set built from the draws of each sample. */
  function SyntheticData(draw: nat -> SampleDraw): (rows: seq<Sample>)
    ensures |rows| == SyntheticSamples
    ensures forall i :: 0 <= i < |rows| ==>
              && rows[i].vm == SyntheticVmName(i)
              && rows[i].host == HostLabel(rows[i].cpu, rows[i].memory)
              && rows[i].host in HostLabels
              && rows[i].cpu == draw(i).cpu && rows[i].memory == draw(i).memory
              && rows[i].networkIo == draw(i).networkIo && rows[i].power == draw(i).power
  {
    seq(SyntheticSamples, i requires 0 <= i =>
      var d := draw(i);
      Sample(d.timestamp, SyntheticVmName(i), d.cpu, d.memory, d.networkIo, d.power, HostLabel(d.cpu, d.memory)))
  }

  /** The ranges the draws come from: `randint` excludes its upper bound
      (cpu 10..90, memory 1..32, power 100..300) and `uniform` may return
      either bound after rounding (timestamp, network traffic). */
  predicate ValidSampleDraw(d: SampleDraw) {
    && 1600000000.0 <= d.timestamp <= 1700000000.0
    && 10 <= d.cpu <= 90
    && 1 <= d.memory <= 32
    && 0.1 <= d.networkIo <= 5.0
    && 100 <= d.power <= 300
  }

  /** A sample whose metrics lie in the drawn ranges. */
  predicate SampleInRange(s: Sample) {
    && 1600000000.0 <= s.timestamp <= 1700000000.0
    && 10 <= s.cpu <= 90
    && 1 <= s.memory <= 32
    && 0.1 <= s.networkIo <= 5.0
    && 100 <= s.power <= 300
  }

  /** Every synthetic sample drawn from the stated ranges lies in them, and
      its host is decided by those metrics alone. */
  lemma SyntheticSamplesInRange(draw: nat -> SampleDraw)
    requires forall i :: 0 <= i < SyntheticSamples ==> ValidSampleDraw(draw(i))
    ensures forall i :: 0 <= i < SyntheticSamples ==>
              && SampleInRange(SyntheticData(draw)[i])
              && SyntheticData(draw)[i].host == HostLabel(draw(i).cpu, draw(i).memory)
  {
    var rows := SyntheticData(draw);
    forall i | 0 <= i < SyntheticSamples
      ensures SampleInRange(rows[i]) && rows[i].host == HostLabel(draw(i).cpu, draw(i).memory)
    {
      assert ValidSampleDraw(draw(i));
      assert rows[i].timestamp == draw(i).timestamp;
    }
  }

  /** The `host` column of a data set. */
  function HostColumn(rows: seq<Sample>): (hosts: seq<string>)
    ensures |hosts| == |rows|
    ensures forall i :: 0 <= i < |rows| ==> hosts[i] == rows[i].host
  {
    seq(|rows|, i requires 0 <= i < |rows| => rows[i].host)
  }

  /** When the draws reach all three regions of the rule (a small sample, a
      medium one and a large one), the host encoder fitted to the synthetic
      data has exactly the classes Host1, Host2 and Host3, in that order, and
      codes every sample's host as its rank. */
  lemma SyntheticHostEncoder(draw: nat -> SampleDraw, small: nat, medium: nat, large: nat)
    requires small < SyntheticSamples && medium < SyntheticSamples && large < SyntheticSamples
    requires draw(small).cpu <= 33 && draw(small).memory <= 11
    requires !(draw(medium).cpu <= 33 && draw(medium).memory <= 11) && draw(medium).cpu <= 66 && draw(medium).memory <= 22
    requires draw(large).cpu > 66 || draw(large).memory > 22
    ensures Fit(HostColumn(SyntheticData(draw))).classes == HostLabels
    ensures forall i :: 0 <= i < SyntheticSamples ==>
              Transform(Fit(HostColumn(SyntheticData(draw))), HostColumn(SyntheticData(draw))[i])
                == Some(LabelRank(HostColumn(SyntheticData(draw))[i]))
  {
    var rows := SyntheticData(draw);
    var column := HostColumn(rows);
    assert column[small] == "Host1" && column[medium] == "Host2" && column[large] == "Host3";
    forall y
      ensures y in column <==> y in HostLabels
    {
      if y in column {
        var i :| 0 <= i < |column| && column[i] == y;
        assert rows[i].host in HostLabels;
      }
      if y in HostLabels {
        assert y == column[small] || y == column[medium] || y == column[large];
      }
    }
    HostLabelCodes(column);
    forall i | 0 <= i < SyntheticSamples
      ensures Transform(Fit(column), column[i]) == Some(LabelRank(column[i]))
    {
      HostLabelCode(column, rows[i].cpu, rows[i].memory);
    }
  }

  /* ---------- feature preparation ---------- */

  const DerivedColumns: seq<string> := ["cpu_memory_ratio", "resource_intensity", "power_efficiency"]

  /** The feature columns in the order the models are trained on. */
  const TrainingFeatures: seq<string> :=
    ["cpu", "memory", "network_io", "power", "cpu_memory_ratio", "resource_intensity", "power_efficiency", "vm_encoded"]

  /** `df[c] = …`: a new column is appended, an existing one keeps its place. */
  function AddColumn(columns: seq<string>, c: string): (r: seq<string>)
    ensures forall y :: y in r <==> y in columns || y == c
    ensures c in columns ==> r == columns
  {
    if c in columns then columns else columns + [c]
  }

  /** The three derived columns added in turn. */
  function WithDerived(columns: seq<string>): (r: seq<string>)
    ensures forall y :: y in r <==> y in columns || y in DerivedColumns
  {
    var r1 := AddColumn(columns, "cpu_memory_ratio");
    var r2 := AddColumn(r1, "resource_intensity");
    AddColumn(r2, "power_efficiency")
  }

  /** The columns after `prepare_features`, or nothing when `cpu`, `memory`
      or `power` is missing (pandas raises a key error). */
  function PreparedColumns(columns: seq<string>): (r: Option<seq<string>>)
    ensures r.Some? <==> "cpu" in columns && "memory" in columns && "power" in columns
    ensures r.Some? ==> forall y :: y in r.value <==>
              || y in columns
              || y in DerivedColumns
              || (y == "vm_encoded" && "vm" in columns)
              || (y == "host_encoded" && "host" in columns)
  {
    if !("cpu" in columns && "memory" in columns && "power" in columns) then None
    else
      var derived := WithDerived(columns);
      var withVm := if "vm" in columns then AddColumn(derived, "vm_encoded") else derived;
      Some(if "host" in columns then AddColumn(withVm, "host_encoded") else withVm)
  }

  /** `a` is `b` with some elements left out. */
  predicate IsSubsequence(a: seq<string>, b: seq<string>)
    decreases |b|
  {
    if |a| == 0 then true
    else if |b| == 0 then false
    else (a[0] == b[0] && IsSubsequence(a[1..], b[1..])) || IsSubsequence(a, b[1..])
  }

  /** The candidates present among the columns, in the candidates' order. */
  function KeepPresent(candidates: seq<string>, columns: seq<string>): (r: seq<string>)
    ensures forall y :: y in r <==> y in candidates && y in columns
    ensures IsSubsequence(r, candidates)
    ensures (forall y :: y in candidates ==> y in columns) ==> r == candidates
  {
    if |candidates| == 0 then []
    else
      var rest := KeepPresent(candidates[1..], columns);
      assert candidates == [candidates[0]] + candidates[1..];
      if candidates[0] in columns then
        assert ([candidates[0]] + rest)[1..] == rest;
        [candidates[0]] + rest
      else rest
  }

  /** The feature columns used for training. */
  function SelectFeatures(prepared: seq<string>): (r: seq<string>)
    ensures forall y :: y in r <==> y in TrainingFeatures && y in prepared
    ensures IsSubsequence(r, TrainingFeatures)
  {
    KeepPresent(TrainingFeatures, prepared)
  }

  /** A data set with the columns of the synthetic one, or of the generated
      file, is trained on all eight features in order. */
  lemma AllFeaturesSelected(columns: seq<string>)
    requires "cpu" in columns && "memory" in columns && "power" in columns && "network_io" in columns
    requires "vm" in columns
    ensures SelectFeatures(PreparedColumns(columns).value) == TrainingFeatures
  {
    var p := PreparedColumns(columns).value;
    forall y | y in TrainingFeatures
      ensures y in p
    {
    }
  }

  /** Without a `vm` column (and no encoded one) only `vm_encoded` is
      dropped. */
  lemma FeaturesWithoutVm(columns: seq<string>)
    requires "cpu" in columns && "memory" in columns && "power" in columns && "network_io" in columns
    requires "vm" !in columns && "vm_encoded" !in columns
    ensures SelectFeatures(PreparedColumns(columns).value) == TrainingFeatures[..7]
  {
    var p := PreparedColumns(columns).value;
    assert "vm_encoded" !in p;
    BaseFeaturesPrepared(columns);
    assert TrainingFeatures == TrainingFeatures[..7] + ["vm_encoded"];
    KeepAllButAbsentLast(TrainingFeatures[..7], "vm_encoded", p);
  }

  lemma BaseFeaturesPrepared(columns: seq<string>)
    requires "cpu" in columns && "memory" in columns && "power" in columns && "network_io" in columns
    ensures forall y :: y in TrainingFeatures[..7] ==> y in PreparedColumns(columns).value
  {
    assert TrainingFeatures[..7] == ["cpu", "memory", "network_io", "power"] + DerivedColumns;
  }

  /** Candidates all present but for an absent last one are kept but for
      that one. */
  lemma KeepAllButAbsentLast(base: seq<string>, c: string, columns: seq<string>)
    requires forall y :: y in base ==> y in columns
    requires c !in columns
    ensures KeepPresent(base + [c], columns) == base
  {
    KeepPresentAppendAbsent(base, c, columns);
  }

  /** Appending an absent candidate does not change the selection. */
  lemma {:induction false} KeepPresentAppendAbsent(candidates: seq<string>, c: string, columns: seq<string>)
    requires c !in columns
    ensures KeepPresent(candidates + [c], columns) == KeepPresent(candidates, columns)
    decreases |candidates|
  {
    if |candidates| == 0 {
      assert ([c])[1..] == [];
    } else {
      assert (candidates + [c])[1..] == candidates[1..] + [c];
      KeepPresentAppendAbsent(candidates[1..], c, columns);
    }
  }

  /** The target column: `host_encoded` when the data has a host column,
      else `host`, else nothing (pandas raises). */
  function TargetColumn(prepared: seq<string>): (r: Option<string>)
    ensures r.Some? ==> r.value in prepared
    ensures r.None? <==> "host_encoded" !in prepared && "host" !in prepared
  {
    if "host_encoded" in prepared then Some("host_encoded")
    else if "host" in prepared then Some("host")
    else None
  }

  /** Prepared data with a host column is trained against the encoded host. */
  lemma TargetIsEncodedHost(columns: seq<string>)
    requires "cpu" in columns && "memory" in columns && "power" in columns && "host" in columns
    ensures TargetColumn(PreparedColumns(columns).value) == Some("host_encoded")
  {
  }

  /** One row of the raw numeric columns. */
  datatype RawRow = RawRow(cpu: real, memory: real, networkIo: real, power: real)

  /** `cpu / (memory + 1)`; pandas yields an infinity or NaN instead of a
      number when the divisor is zero, which is `None` here. */
  function CpuMemoryRatio(x: RawRow): (r: Option<real>)
    ensures r.Some? <==> x.memory + 1.0 != 0.0
    ensures r.Some? ==> r.value * (x.memory + 1.0) == x.cpu
  {
    if x.memory + 1.0 == 0.0 then None else Some(x.cpu / (x.memory + 1.0))
  }

  /** `(cpu + memory) / 2`. */
  function ResourceIntensity(x: RawRow): (r: real)
    ensures Min(x.cpu, x.memory) <= r <= Max(x.cpu, x.memory)
    ensures r * 2.0 == x.cpu + x.memory
  {
    (x.cpu + x.memory) / 2.0
  }

  /** `power / (cpu + 1)`, `None` for a zero divisor. */
  function PowerEfficiency(x: RawRow): (r: Option<real>)
    ensures r.Some? <==> x.cpu + 1.0 != 0.0
    ensures r.Some? ==> r.value * (x.cpu + 1.0) == x.power
  {
    if x.cpu + 1.0 == 0.0 then None else Some(x.power / (x.cpu + 1.0))
  }

  /** For non-negative metrics the derived features are numbers no larger
      than the quantity divided. */
  lemma DerivedFeaturesBounded(x: RawRow)
    requires x.cpu >= 0.0 && x.memory >= 0.0 && x.power >= 0.0
    ensures CpuMemoryRatio(x).Some? && 0.0 <= CpuMemoryRatio(x).value <= x.cpu
    ensures PowerEfficiency(x).Some? && 0.0 <= PowerEfficiency(x).value <= x.power
  {
    QuotientBounded(x.cpu, x.memory + 1.0);
    QuotientBounded(x.power, x.cpu + 1.0);
  }

  lemma QuotientBounded(a: real, b: real)
    requires a >= 0.0 && b >= 1.0
    ensures 0.0 <= a / b <= a
  {
    var q := a / b;
    assert q * b == a;
    assert q >= 0.0;
    assert q * (b - 1.0) >= 0.0;
  }

  /** The value of a feature column in a prepared row whose VM is encoded as
      `vmCode`; nothing for a column that is not a feature or a derived value
      that is not a number. */
  function ColumnValue(x: RawRow, vmCode: nat, column: string): (r: Option<real>)
    ensures column !in TrainingFeatures ==> r.None?
    ensures column == "cpu_memory_ratio" ==> r == CpuMemoryRatio(x)
    ensures column == "vm_encoded" ==> r == Some(vmCode as real)
  {
    if column == "cpu" then Some(x.cpu)
    else if column == "memory" then Some(x.memory)
    else if column == "network_io" then Some(x.networkIo)
    else if column == "power" then Some(x.power)
    else if column == "cpu_memory_ratio" then CpuMemoryRatio(x)
    else if column == "resource_intensity" then Some(ResourceIntensity(x))
    else if column == "power_efficiency" then PowerEfficiency(x)
    else if column == "vm_encoded" then Some(vmCode as real)
    else None
  }

  /** `fit_transform` of a column: every value replaced by its code, which
      the fitted encoder decodes back to the value. */
  function EncodeColumn(values: seq<string>): (codes: seq<nat>)
    ensures |codes| == |values|
    ensures forall i :: 0 <= i < |values| ==>
              && InverseTransform(Fit(values), codes[i]) == Some(values[i])
              && Transform(Fit(values), values[i]) == Some(codes[i])
  {
    var e := Fit(values);
    seq(|values|, i requires 0 <= i < |values| =>
      assert values[i] in e.classes;
      Transform(e, values[i]).value)
  }

  /* ---------- the registry ---------- */

  /** One constructor argument of a registered model. */
  datatype Setting = Setting(key: string, value: string)

  datatype ModelSpec = ModelSpec(name: string, estimator: string, settings: seq<Setting>)

  const Registry: seq<ModelSpec> := [
    ModelSpec("Random Forest", "RandomForestRegressor", [Setting("n_estimators", "100"), Setting("random_state", "42")]),
    ModelSpec("Gradient Boosting", "GradientBoostingRegressor", [Setting("n_estimators", "100"), Setting("random_state", "42")]),
    ModelSpec("XGBoost", "XGBRegressor", [Setting("n_estimators", "100"), Setting("random_state", "42")]),
    ModelSpec("K-Nearest Neighbors", "KNeighborsRegressor", [Setting("n_neighbors", "5")]),
    ModelSpec("Support Vector Regression", "SVR", [Setting("kernel", "rbf")]),
    ModelSpec("Decision Tree", "DecisionTreeRegressor", [Setting("random_state", "42")]),
    ModelSpec("Neural Network", "MLPRegressor",
      [Setting("hidden_layer_sizes", "(100, 50)"), Setting("max_iter", "500"), Setting("random_state", "42")])
  ]

  const RegistryNames: seq<string> :=
    ["Random Forest", "Gradient Boosting", "XGBoost", "K-Nearest Neighbors",
     "Support Vector Regression", "Decision Tree", "Neural Network"]

  /** The names are those of the registry, in order, and no two are the same
      (they are dict keys). */
  lemma RegistryNamesDistinct()
    ensures |RegistryNames| == |Registry|
    ensures forall i :: 0 <= i < |Registry| ==> Registry[i].name == RegistryNames[i]
    ensures forall i :: 0 <= i < |RegistryNames| ==> |RegistryNames[i]| > 0 && 'A' <= RegistryNames[i][0] <= 'Z'
    ensures forall i, j :: 0 <= i < j < |RegistryNames| ==> RegistryNames[i][0] != RegistryNames[j][0]
    ensures forall i, j :: 0 <= i < j < |RegistryNames| ==> RegistryNames[i] != RegistryNames[j]
  {
    RegistryNamesMatch();
    RegistryInitialsDistinct();
  }

  /** The names are those of the registry, in order. */
  lemma RegistryNamesMatch()
    ensures |RegistryNames| == |Registry|
    ensures forall i :: 0 <= i < |Registry| ==> Registry[i].name == RegistryNames[i]
  {
  }

  /** No two names start with the same capital letter. */
  lemma RegistryInitialsDistinct()
    ensures forall i :: 0 <= i < |RegistryNames| ==> |RegistryNames[i]| > 0 && 'A' <= RegistryNames[i][0] <= 'Z'
    ensures forall i, j :: 0 <= i < j < |RegistryNames| ==> RegistryNames[i][0] != RegistryNames[j][0]
  {
    var initials := seq(|RegistryNames|, i requires 0 <= i < |RegistryNames| => RegistryNames[i][0]);
    assert initials == ['R', 'G', 'X', 'K', 'S', 'D', 'N'];
  }

  /** The models trained and evaluated on the standardised features. */
  const ScaledInTraining: seq<string> := ["K-Nearest Neighbors", "Support Vector Regression", "Neural Network"]

  predicate UsesScaledData(name: string) {
    name in ScaledInTraining
  }

  /** Of the seven registered models exactly K-Nearest Neighbors, Support
      Vector Regression and the Neural Network (registry positions 3, 4 and
      6) use the standardised features; the tree and boosting models do
      not. */
  lemma ScaledRegistryEntries()
    ensures forall i :: 0 <= i < |Registry| ==> (UsesScaledData(Registry[i].name) <==> i == 3 || i == 4 || i == 6)
  {
    RegistryNamesMatch();
  }

  /* ---------- training ---------- */

  /** The test metrics of one trained model. */
  datatype Metrics = Metrics(mse: real, r2: real, mae: real)

  /** The results recorded so far, and whether every model was trained. */
  datatype TrainRun = TrainRun(results: seq<Named<Metrics>>, complete: bool)

  /** `train_models`: each model in turn is fitted, on the scaled features
      when it is one of the scaled models, and its metrics are stored under
      its name. `fit(name, scaled)` stands for fitting and scoring; `None`
      is an exception, which ends the loop with the results so far. */
  function TrainModels(names: seq<string>, results: seq<Named<Metrics>>, fit: (string, bool) -> Option<Metrics>): (r: TrainRun)
    ensures r.complete <==> forall k :: k in names ==> fit(k, UsesScaledData(k)).Some?
    ensures forall k :: k !in names ==> Find(r.results, k) == Find(results, k)
    ensures r.complete ==> forall k :: k in names ==> Find(r.results, k) == fit(k, UsesScaledData(k))
    decreases |names|
  {
    if |names| == 0 then TrainRun(results, true)
    else
      match fit(names[0], UsesScaledData(names[0]))
      case None => TrainRun(results, false)
      case Some(m) =>
        var next := Assign(results, names[0], m);
        var rest := TrainModels(names[1..], next, fit);
        TrainStep(names, fit, m, results, rest);
        rest
  }

  /** The step of `TrainModels` that records the first model and trains the
      others behind it. */
  lemma TrainStep(names: seq<string>, fit: (string, bool) -> Option<Metrics>, m: Metrics,
                  results: seq<Named<Metrics>>, rest: TrainRun)
    requires |names| > 0 && fit(names[0], UsesScaledData(names[0])) == Some(m)
    requires rest.complete <==> forall k :: k in names[1..] ==> fit(k, UsesScaledData(k)).Some?
    requires forall k :: k !in names[1..] ==> Find(rest.results, k) == Find(Assign(results, names[0], m), k)
    requires rest.complete ==> forall k :: k in names[1..] ==> Find(rest.results, k) == fit(k, UsesScaledData(k))
    ensures rest.complete <==> forall k :: k in names ==> fit(k, UsesScaledData(k)).Some?
    ensures forall k :: k !in names ==> Find(rest.results, k) == Find(results, k)
    ensures rest.complete ==> forall k :: k in names ==> Find(rest.results, k) == fit(k, UsesScaledData(k))
  {
    var afterFirst := Assign(results, names[0], m);
    assert Find(afterFirst, names[0]) == Some(m);
    TailMembers(names);
  }

  /** A name is in a non-empty sequence when it is the first or in the rest. */
  lemma TailMembers(names: seq<string>)
    requires |names| > 0
    ensures forall k :: k in names <==> k == names[0] || k in names[1..]
  {
    forall k | k in names
      ensures k == names[0] || k in names[1..]
    {
      var j :| 0 <= j < |names| && names[j] == k;
      if j > 0 {
        assert names[1..][j - 1] == k;
      }
    }
    assert names == [names[0]] + names[1..];
  }

  /** Training keeps the keys of the results unique. */
  lemma {:induction false} TrainUniqueKeys(names: seq<string>, results: seq<Named<Metrics>>, fit: (string, bool) -> Option<Metrics>)
    requires UniqueKeys(results)
    ensures UniqueKeys(TrainModels(names, results, fit).results)
    decreases |names|
  {
    if |names| > 0 && fit(names[0], UsesScaledData(names[0])).Some? {
      TrainUniqueKeys(names[1..], Assign(results, names[0], fit(names[0], UsesScaledData(names[0])).value), fit);
    }
  }

  /** Trained from empty results, the results hold one entry per model, in
      the registry's order. */
  lemma {:induction false} TrainedInOrder(names: seq<string>, results: seq<Named<Metrics>>, fit: (string, bool) -> Option<Metrics>)
    requires forall i, j :: 0 <= i < j < |names| ==> names[i] != names[j]
    requires forall k :: k in names ==> k !in Keys(results)
    requires TrainModels(names, results, fit).complete
    ensures Keys(TrainModels(names, results, fit).results) == Keys(results) + names
    decreases |names|
  {
    if |names| > 0 {
      var tail := names[1..];
      var m := fit(names[0], UsesScaledData(names[0])).value;
      var next := Assign(results, names[0], m);
      TrainModelsUnfold(names, results, fit);
      FreshAfterAppend(names, results, m);
      TrainedInOrder(tail, next, fit);
      AppendHeadThenTail(Keys(results), names);
    }
  }

  lemma AppendHeadThenTail(a: seq<string>, names: seq<string>)
    requires |names| > 0
    ensures (a + [names[0]]) + names[1..] == a + names
  {
    assert [names[0]] + names[1..] == names;
    assert (a + [names[0]]) + names[1..] == a + ([names[0]] + names[1..]);
  }

  /** One turn of the training loop when the first fit succeeds. */
  lemma TrainModelsUnfold(names: seq<string>, results: seq<Named<Metrics>>, fit: (string, bool) -> Option<Metrics>)
    requires |names| > 0 && fit(names[0], UsesScaledData(names[0])).Some?
    ensures TrainModels(names, results, fit)
              == TrainModels(names[1..], Assign(results, names[0], fit(names[0], UsesScaledData(names[0])).value), fit)
  {
  }

  /** Recording the first of several distinct fresh names keeps the others
      fresh. */
  lemma FreshAfterAppend(names: seq<string>, results: seq<Named<Metrics>>, m: Metrics)
    requires |names| > 0
    requires forall i, j :: 0 <= i < j < |names| ==> names[i] != names[j]
    requires forall k :: k in names ==> k !in Keys(results)
    ensures Keys(Assign(results, names[0], m)) == Keys(results) + [names[0]]
    ensures forall i, j :: 0 <= i < j < |names[1..]| ==> names[1..][i] != names[1..][j]
    ensures forall k :: k in names[1..] ==> k !in Keys(Assign(results, names[0], m))
  {
    assert names[0] in names;
    var tail := names[1..];
    TailMembers(names);
    forall k | k in tail
      ensures k !in Keys(Assign(results, names[0], m))
    {
      var i :| 0 <= i < |tail| && tail[i] == k;
      assert names[i + 1] == k;
    }
  }

  /** The recorded results as the performance summary reads them. */
  function ToScored(results: seq<Named<Metrics>>): (r: seq<Scored>)
    ensures |r| == |results|
    ensures forall i :: 0 <= i < |r| ==>
              r[i] == Scored(results[i].name, results[i].value.mse, results[i].value.r2, results[i].value.mae)
    ensures UniqueKeys(results) ==> DistinctNames(r)
  {
    seq(|results|, i requires 0 <= i < |results| =>
      Scored(results[i].name, results[i].value.mse, results[i].value.r2, results[i].value.mae))
  }

  /* ---------- tuning ---------- */

  /** One hyper-parameter and the values searched. */
  datatype Grid = Grid(param: string, values: seq<string>)

  datatype ParamGrid = ParamGrid(model: string, grid: seq<Grid>)

  const ParamGrids: seq<ParamGrid> := [
    ParamGrid("Random Forest", [Grid("n_estimators", ["50", "100", "200"]), Grid("max_depth", ["10", "20", "None"]),
                                Grid("min_samples_split", ["2", "5", "10"])]),
    ParamGrid("Gradient Boosting", [Grid("n_estimators", ["50", "100", "200"]), Grid("learning_rate", ["0.01", "0.1", "0.2"]),
                                    Grid("max_depth", ["3", "5", "7"])]),
    ParamGrid("XGBoost", [Grid("n_estimators", ["50", "100", "200"]), Grid("learning_rate", ["0.01", "0.1", "0.2"]),
                          Grid("max_depth", ["3", "5", "7"])]),
    ParamGrid("K-Nearest Neighbors", [Grid("n_neighbors", ["3", "5", "7", "9"]), Grid("weights", ["uniform", "distance"])]),
    ParamGrid("Support Vector Regression", [Grid("C", ["0.1", "1", "10", "100"]), Grid("gamma", ["scale", "auto", "0.001", "0.01"])]),
    ParamGrid("Decision Tree", [Grid("max_depth", ["5", "10", "20", "None"]), Grid("min_samples_split", ["2", "5", "10"]),
                                Grid("min_samples_leaf", ["1", "2", "4"])])
  ]

  function GridModels(grids: seq<ParamGrid>): (names: seq<string>)
    ensures |names| == |grids|
    ensures forall g :: 0 <= g < |grids| ==> names[g] == grids[g].model
  {
    seq(|grids|, g requires 0 <= g < |grids| => grids[g].model)
  }

  /** The grid-searched models are the first six of the registry: every one
      but the neural network. */
  lemma TunedModels()
    ensures GridModels(ParamGrids) == RegistryNames[..6]
    ensures "Neural Network" !in GridModels(ParamGrids)
    ensures forall g, h :: 0 <= g < h < |ParamGrids| ==> ParamGrids[g].model != ParamGrids[h].model
  {
    assert GridModels(ParamGrids) == RegistryNames[..6];
    RegistryNamesDistinct();
  }

  /** The grid searches run on the scaled features. */
  const ScaledInTuning: seq<string> := ["K-Nearest Neighbors", "Support Vector Regression"]

  /** Every grid-searched model is searched on the same features it was
      trained on. */
  lemma TuningScalesLikeTraining(g: int)
    requires 0 <= g < |ParamGrids|
    ensures ParamGrids[g].model in ScaledInTuning <==> UsesScaledData(ParamGrids[g].model)
  {
  }

  /** One grid search: the best estimator for the grid's model, `None` when
      that model is not registered (a key error) or the search raises.
      `search(model, grid, scaled)` stands for the grid search. */
  function SearchOne<E>(models: seq<Named<E>>, grid: ParamGrid, search: (E, ParamGrid, bool) -> Option<E>): (r: Option<E>)
    ensures Find(models, grid.model).None? ==> r.None?
    ensures Find(models, grid.model).Some? ==> r == search(Find(models, grid.model).value, grid, grid.model in ScaledInTuning)
  {
    match Find(models, grid.model)
    case None => None
    case Some(e) => search(e, grid, grid.model in ScaledInTuning)
  }

  /** The best estimators of the grid searches, in grid order; `None` as
      soon as one search fails. */
  function SearchAll<E>(models: seq<Named<E>>, grids: seq<ParamGrid>, search: (E, ParamGrid, bool) -> Option<E>): (r: Option<seq<Named<E>>>)
    ensures r.Some? <==> forall g :: 0 <= g < |grids| ==> SearchOne(models, grids[g], search).Some?
    ensures r.Some? ==> |r.value| == |grids| && Keys(r.value) == GridModels(grids)
    ensures r.Some? ==> forall g :: 0 <= g < |grids| ==> Some(r.value[g].value) == SearchOne(models, grids[g], search)
    decreases |grids|
  {
    if |grids| == 0 then Some([])
    else
      match SearchOne(models, grids[0], search)
      case None => None
      case Some(best) =>
        var rest := SearchAll(models, grids[1..], search);
        if rest.None? then
          assert forall g :: 1 <= g < |grids| ==> grids[g] == grids[1..][g - 1];
          None
        else
          SearchCons(models, grids, search, best, rest.value);
          Some([Named(grids[0].model, best)] + rest.value)
  }

  /** The step of `SearchAll` that puts the first search's result in front
      of the others'. */
  lemma SearchCons<E>(models: seq<Named<E>>, grids: seq<ParamGrid>, search: (E, ParamGrid, bool) -> Option<E>,
                      best: E, rest: seq<Named<E>>)
    requires |grids| > 0 && SearchOne(models, grids[0], search) == Some(best)
    requires forall g :: 0 <= g < |grids[1..]| ==> SearchOne(models, grids[1..][g], search).Some?
    requires |rest| == |grids| - 1 && Keys(rest) == GridModels(grids[1..])
    requires forall g :: 0 <= g < |grids[1..]| ==> Some(rest[g].value) == SearchOne(models, grids[1..][g], search)
    ensures forall g :: 0 <= g < |grids| ==> SearchOne(models, grids[g], search).Some?
    ensures var r := [Named(grids[0].model, best)] + rest;
      && |r| == |grids| && Keys(r) == GridModels(grids)
      && forall g :: 0 <= g < |grids| ==> Some(r[g].value) == SearchOne(models, grids[g], search)
  {
    var r := [Named(grids[0].model, best)] + rest;
    forall g | 0 <= g < |grids|
      ensures SearchOne(models, grids[g], search).Some? && Some(r[g].value) == SearchOne(models, grids[g], search)
    {
      if g > 0 {
        assert grids[g] == grids[1..][g - 1] && r[g] == rest[g - 1];
      }
    }
    SearchConsKeys(grids, best, rest);
  }

  lemma SearchConsKeys<E>(grids: seq<ParamGrid>, best: E, rest: seq<Named<E>>)
    requires |grids| > 0 && Keys(rest) == GridModels(grids[1..])
    ensures Keys([Named(grids[0].model, best)] + rest) == GridModels(grids)
  {
    var r := [Named(grids[0].model, best)] + rest;
    assert r[1..] == rest;
    assert Keys(r) == [grids[0].model] + Keys(rest);
    assert GridModels(grids) == [grids[0].model] + GridModels(grids[1..]);
  }

  /** `hyperparameter_tuning`: the registry's models after all six searches,
      or `None` when one of them fails, in which case the models are left as
      they were. */
  function Tune<E>(models: seq<Named<E>>, search: (E, ParamGrid, bool) -> Option<E>): (r: Option<seq<Named<E>>>)
    ensures r.Some? <==> SearchAll(models, ParamGrids, search).Some?
    ensures r.Some? ==> Keys(r.value) == Keys(models)
    ensures r.Some? ==> forall k :: k !in GridModels(ParamGrids) ==> Find(r.value, k) == Find(models, k)
    ensures r.Some? ==> forall g :: 0 <= g < |ParamGrids| ==>
              Find(r.value, ParamGrids[g].model)
                == SearchOne(models, ParamGrids[g], search)
  {
    match SearchAll(models, ParamGrids, search)
    case None => None
    case Some(tuned) =>
      UpdateWithTuned(models, tuned, search);
      Some(Update(models, tuned))
  }

  /** What `models.update(tuned_models)` does with the searches' results. */
  lemma UpdateWithTuned<E>(models: seq<Named<E>>, tuned: seq<Named<E>>, search: (E, ParamGrid, bool) -> Option<E>)
    requires SearchAll(models, ParamGrids, search) == Some(tuned)
    ensures Keys(Update(models, tuned)) == Keys(models)
    ensures forall k :: k !in GridModels(ParamGrids) ==> Find(Update(models, tuned), k) == Find(models, k)
    ensures forall g :: 0 <= g < |ParamGrids| ==>
              Find(Update(models, tuned), ParamGrids[g].model)
                == SearchOne(models, ParamGrids[g], search)
  {
    TunedModels();
    SearchedKeys(models, ParamGrids, search, tuned);
    SearchedKeysPresent(models, ParamGrids, search, tuned);
    forall g | 0 <= g < |ParamGrids|
      ensures Find(Update(models, tuned), ParamGrids[g].model)
                == SearchOne(models, ParamGrids[g], search)
    {
      SearchedEntry(models, ParamGrids, search, tuned, g);
      UpdateSets(models, tuned, g);
    }
  }

  /** The searches' results are keyed by the grids' models, once each when
      no model has two grids. */
  lemma SearchedKeys<E>(models: seq<Named<E>>, grids: seq<ParamGrid>, search: (E, ParamGrid, bool) -> Option<E>, tuned: seq<Named<E>>)
    requires SearchAll(models, grids, search) == Some(tuned)
    requires forall g, h :: 0 <= g < h < |grids| ==> grids[g].model != grids[h].model
    ensures Keys(tuned) == GridModels(grids)
    ensures |tuned| == |grids|
    ensures UniqueKeys(tuned)
  {
    var ks := Keys(tuned);
    forall g, h | 0 <= g < h < |tuned|
      ensures tuned[g].name != tuned[h].name
    {
      assert tuned[g].name == ks[g] && tuned[h].name == ks[h];
    }
  }

  /** Every searched model is one of the models. */
  lemma SearchedKeysPresent<E>(models: seq<Named<E>>, grids: seq<ParamGrid>, search: (E, ParamGrid, bool) -> Option<E>, tuned: seq<Named<E>>)
    requires SearchAll(models, grids, search) == Some(tuned)
    ensures forall k :: k in Keys(tuned) ==> k in Keys(models)
  {
    var ks := Keys(tuned);
    forall k | k in ks
      ensures k in Keys(models)
    {
      var g :| 0 <= g < |ks| && ks[g] == k;
      assert k == grids[g].model;
      assert SearchOne(models, grids[g], search).Some?;
    }
  }

  /** The `g`-th result is the `g`-th search's best estimator. */
  lemma SearchedEntry<E>(models: seq<Named<E>>, grids: seq<ParamGrid>, search: (E, ParamGrid, bool) -> Option<E>, tuned: seq<Named<E>>, g: int)
    requires SearchAll(models, grids, search) == Some(tuned)
    requires 0 <= g < |grids|
    ensures g < |tuned| && tuned[g].name == grids[g].model
    ensures Some(tuned[g].value) == SearchOne(models, grids[g], search)
  {
    assert Keys(tuned)[g] == GridModels(grids)[g];
  }

  /** The neural network, which has no grid, keeps its trained estimator. */
  lemma NeuralNetworkNotTuned<E>(models: seq<Named<E>>, search: (E, ParamGrid, bool) -> Option<E>)
    requires Tune(models, search).Some?
    ensures Find(Tune(models, search).value, "Neural Network") == Find(models, "Neural Network")
  {
    TunedModels();
  }

  /* ---------- saving ---------- */

  /** `models/<name lower-cased, spaces as underscores>_model.pkl`. */
  function FileName(name: string): (f: string)
    ensures |f| == |name| + 17
    ensures f[..7] == "models/" && f[7 + |name|..] == "_model.pkl"
    ensures forall i :: 0 <= i < |name| ==> f[7 + i] == (if name[i] == ' ' then '_' else LowerChar(name[i]))
  {
    var middle := ReplaceChar(Lower(name), ' ', '_');
    var f := "models/" + middle + "_model.pkl";
    assert forall i :: 0 <= i < |name| ==> f[7 + i] == middle[i];
    assert f[..7] == "models/" && f[7 + |name|..] == "_model.pkl";
    f
  }

  /** A file name has no spaces, and its eighth character is the model
      name's first, lower-cased. */
  lemma FileNameShape(name: string)
    ensures ' ' !in FileName(name)
    ensures |name| > 0 && name[0] != ' ' ==> FileName(name)[7] == LowerChar(name[0])
  {
    var middle := ReplaceChar(Lower(name), ' ', '_');
    assert FileName(name) == "models/" + middle + "_model.pkl";
    forall i | 0 <= i < |middle|
      ensures middle[i] != ' '
    {
      assert Lower(name)[i] == LowerChar(name[i]);
    }
    if |name| > 0 && name[0] != ' ' {
      assert FileName(name)[7] == middle[0];
    }
  }

  /** Names that start with different capital letters are saved under
      different files. */
  lemma FileNamesDiffer(a: string, b: string)
    requires |a| > 0 && |b| > 0 && 'A' <= a[0] <= 'Z' && 'A' <= b[0] <= 'Z' && a[0] != b[0]
    ensures FileName(a) != FileName(b)
  {
    FileNameShape(a);
    FileNameShape(b);
    assert FileName(a)[7] != FileName(b)[7];
  }

  /** The seven models are saved under seven different files. */
  lemma SavedFilesDistinct(i: int, j: int)
    requires 0 <= i < j < |RegistryNames|
    ensures FileName(RegistryNames[i]) != FileName(RegistryNames[j])
  {
    RegistryNamesDistinct();
    FileNamesDiffer(RegistryNames[i], RegistryNames[j]);
  }
}

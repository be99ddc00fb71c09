/** The endpoints of `vmp/ml_api_server.py` over the server's two globals:
    the model comparison object and the results table. Each endpoint is a
    function from the state (and the request) to the new state and the
    answer; a failure carries the HTTP code and the message. Estimators are
    uninterpreted: building, fitting, searching and predicting are
    parameters. */
module MlApi {
  import opened Common
  import opened OrderedDict
  import opened LabelCoding
  import opened HostRule
  import opened Ranking
  import opened ModelComparison

  /** The parts of an `MLModelComparison` the endpoints read. */
  datatype Comparison<E> = Comparison(
    results: seq<Named<Metrics>>,
    models: seq<Named<E>>,
    vmEncoder: Option<Encoder>,
    hostEncoder: Option<Encoder>)

  /** The globals `ml_comparison` and `results_data`. */
  datatype ServerState<E> = ServerState(comparison: Option<Comparison<E>>, resultsData: Option<seq<Named<Metrics>>>)

  /** The state after a request, and the answer. */
  datatype Step<E, A> = Step(state: ServerState<E>, answer: Result<A>)

  const NotInitialized: string := "Models not initialized"
  const ResultsNotInitialized: string := "Models not initialized. Please call /api/ml/initialize first."
  const InitError: string := "Error initializing models"
  const PredictionError: string := "Error making prediction"
  const TuningError: string := "Error in hyperparameter tuning"

  function MissingFieldMessage(field: string): string {
    "Missing required field: " + field
  }

  /** The two globals are set together: results are served exactly when a
      comparison exists. */
  predicate Aligned<E>(s: ServerState<E>) {
    s.comparison.Some? <==> s.resultsData.Some?
  }

  /* ---------- initialisation ---------- */

  /** What `load_and_preprocess_data` leaves behind: the encoders fitted so
      far and whether it finished without raising. */
  datatype DataLoad = DataLoad(vmEncoder: Option<Encoder>, hostEncoder: Option<Encoder>, ok: bool)

  /** `initialize_models`: one estimator per registry entry. */
  function BuildModels<E>(build: ModelSpec -> E): (models: seq<Named<E>>)
    ensures Keys(models) == RegistryNames
    ensures UniqueKeys(models)
    ensures forall i :: 0 <= i < |models| ==> models[i].value == build(Registry[i])
  {
    RegistryNamesDistinct();
    var models := seq(|Registry|, i requires 0 <= i < |Registry| => Named(Registry[i].name, build(Registry[i])));
    assert Keys(models) == RegistryNames;
    models
  }

  /** Fitting whatever estimator is stored under a name. */
  function FitStored<E>(models: seq<Named<E>>, fit: (E, bool) -> Option<Metrics>): (string, bool) -> Option<Metrics> {
    (n: string, scaled: bool) =>
      match Find(models, n)
      case None => None
      case Some(e) => fit(e, scaled)
  }

  /** `train_models` over freshly built models. */
  function TrainRegistry<E>(build: ModelSpec -> E, fit: (E, bool) -> Option<Metrics>): (run: TrainRun)
    ensures run.complete <==> forall i :: 0 <= i < |Registry| ==> fit(build(Registry[i]), UsesScaledData(RegistryNames[i])).Some?
    ensures run.complete ==> Keys(run.results) == RegistryNames
    ensures run.complete ==> forall i :: 0 <= i < |Registry| ==>
              Find(run.results, RegistryNames[i]) == fit(build(Registry[i]), UsesScaledData(RegistryNames[i]))
  {
    TrainRegistryComplete(build, fit);
    TrainRegistryResults(build, fit);
    TrainModels(RegistryNames, [], FitStored(BuildModels(build), fit))
  }

  /** Training the registry completes exactly when every entry's estimator
      fits. */
  lemma TrainRegistryComplete<E>(build: ModelSpec -> E, fit: (E, bool) -> Option<Metrics>)
    ensures TrainModels(RegistryNames, [], FitStored(BuildModels(build), fit)).complete <==>
              forall i :: 0 <= i < |Registry| ==> fit(build(Registry[i]), UsesScaledData(RegistryNames[i])).Some?
  {
    var f := FitStored(BuildModels(build), fit);
    FitStoredRegistry(build, fit);
    RegistryNamesMatch();
    assert forall i :: 0 <= i < |RegistryNames| ==> f(RegistryNames[i], UsesScaledData(RegistryNames[i])) == fit(build(Registry[i]), UsesScaledData(RegistryNames[i]));
  }

  /** A complete training of the registry records each entry's metrics
      under its name, in the registry's order. */
  lemma TrainRegistryResults<E>(build: ModelSpec -> E, fit: (E, bool) -> Option<Metrics>)
    ensures var run := TrainModels(RegistryNames, [], FitStored(BuildModels(build), fit));
      run.complete ==>
        && Keys(run.results) == RegistryNames
        && forall i :: 0 <= i < |Registry| ==>
             Find(run.results, RegistryNames[i]) == fit(build(Registry[i]), UsesScaledData(RegistryNames[i]))
  {
    var f := FitStored(BuildModels(build), fit);
    var run := TrainModels(RegistryNames, [], f);
    if run.complete {
      RegistryNamesDistinct();
      TrainedInOrder(RegistryNames, [], f);
      assert Keys(run.results) == RegistryNames;
      FitStoredRegistry(build, fit);
      forall i | 0 <= i < |Registry|
        ensures Find(run.results, RegistryNames[i]) == fit(build(Registry[i]), UsesScaledData(RegistryNames[i]))
      {
        assert Find(run.results, RegistryNames[i]) == f(RegistryNames[i], UsesScaledData(RegistryNames[i]));
      }
    }
  }

  /** Fitting the model stored under a registry name fits that entry's
      estimator. */
  lemma FitStoredRegistry<E>(build: ModelSpec -> E, fit: (E, bool) -> Option<Metrics>)
    ensures forall i, scaled :: 0 <= i < |Registry| ==>
              FitStored(BuildModels(build), fit)(RegistryNames[i], scaled) == fit(build(Registry[i]), scaled)
  {
    var models := BuildModels(build);
    forall i, scaled | 0 <= i < |Registry|
      ensures FitStored(models, fit)(RegistryNames[i], scaled) == fit(build(Registry[i]), scaled)
    {
      assert Keys(models)[i] == RegistryNames[i];
      FindAt(models, i);
    }
  }

  /** `initialize_ml_models` as written: the new comparison object is
      stored in the global before the data is loaded and the models are
      trained, so a failure leaves a half-built comparison behind. */
  function InitializeAsWritten<E>(s: ServerState<E>, load: DataLoad, build: ModelSpec -> E,
                                  fit: (E, bool) -> Option<Metrics>): (r: Step<E, seq<string>>)
    ensures r.state.comparison.Some?
    ensures r.answer.Failure? ==> r.answer.code == 500 && r.state.resultsData == s.resultsData
    ensures r.answer.Success? ==> r.state.resultsData == Some(r.state.comparison.value.results)
    ensures r.answer.Success? ==> r.answer.value == RegistryNames
    ensures r.answer.Success? <==> load.ok && TrainRegistry(build, fit).complete
    ensures r.state.comparison.value.vmEncoder == load.vmEncoder && r.state.comparison.value.hostEncoder == load.hostEncoder
    ensures !load.ok ==> r.state.comparison.value.results == []
    ensures load.ok ==> r.state.comparison.value.results == TrainRegistry(build, fit).results
  {
    var blank := Comparison([], [], load.vmEncoder, load.hostEncoder);
    if !load.ok then Step(ServerState(Some(blank), s.resultsData), Failure(500, InitError))
    else
      var run := TrainRegistry(build, fit);
      var c := blank.(results := run.results, models := BuildModels(build));
      if !run.complete then Step(ServerState(Some(c), s.resultsData), Failure(500, InitError))
      else Step(ServerState(Some(c), Some(run.results)), Success(Keys(run.results)))
  }

  /** A load that fails on a blank server leaves the comparison set but no
      results: the performance endpoint then answers success with an empty
      list while the results endpoint still says the models are not
      initialised. */
  lemma FailedInitializeOpensGates<E>(load: DataLoad, build: ModelSpec -> E, fit: (E, bool) -> Option<Metrics>)
    requires !load.ok
    ensures var t := InitializeAsWritten(ServerState<E>.ServerState(None, None), load, build, fit).state;
      && !Aligned(t)
      && GetPerformanceMetrics(t) == Success(PerformanceReport([], None))
      && GetMlResults(t) == Failure(400, ResultsNotInitialized)
  {
    var t := InitializeAsWritten(ServerState<E>.ServerState(None, None), load, build, fit).state;
    assert t.comparison.value.results == [];
    assert ToScored([]) == [];
  }

  /** `initialize_ml_models` with the comparison stored only once training
      has finished; a failure leaves both globals as they were. */
  function Initialize<E>(s: ServerState<E>, load: DataLoad, build: ModelSpec -> E,
                         fit: (E, bool) -> Option<Metrics>): (r: Step<E, seq<string>>)
    ensures r.answer.Failure? ==> r.answer.code == 500 && r.state == s
    ensures r.answer.Success? ==> r.state.comparison.Some?
    ensures r.answer.Success? ==> r.state.resultsData == Some(r.state.comparison.value.results)
    ensures r.answer.Success? ==> r.answer.value == RegistryNames && Keys(r.state.comparison.value.results) == RegistryNames
    ensures r.answer.Success? <==> load.ok && TrainRegistry(build, fit).complete
    ensures Aligned(s) ==> Aligned(r.state)
  {
    if !load.ok then Step(s, Failure(500, InitError))
    else
      var run := TrainRegistry(build, fit);
      if !run.complete then Step(s, Failure(500, InitError))
      else
        var c := Comparison(run.results, BuildModels(build), load.vmEncoder, load.hostEncoder);
        Step(ServerState(Some(c), Some(run.results)), Success(Keys(run.results)))
  }

  /* ---------- results and performance ---------- */

  /** `get_ml_results`. */
  function GetMlResults<E>(s: ServerState<E>): (r: Result<seq<Named<Metrics>>>)
    ensures r.Failure? <==> s.resultsData.None?
    ensures r.Failure? ==> r == Failure(400, ResultsNotInitialized)
    ensures r.Success? ==> r.value == s.resultsData.value
  {
    match s.resultsData
    case None => Failure(400, ResultsNotInitialized)
    case Some(d) => Success(d)
  }

  /** `get_performance_metrics`: the summary of the comparison's results. */
  function GetPerformanceMetrics<E>(s: ServerState<E>): (r: Result<PerformanceReport>)
    ensures r.Failure? <==> s.comparison.None?
    ensures r.Failure? ==> r == Failure(400, NotInitialized)
    ensures r.Success? ==> r.value == Summary(ToScored(s.comparison.value.results))
    ensures r.Success? ==> (r.value.bestModel.None? <==> |s.comparison.value.results| == 0)
    ensures r.Success? ==> Descending(r.value.metrics, PerfR2)
    ensures r.Success? && UniqueKeys(s.comparison.value.results) && |s.comparison.value.results| > 0 ==>
              Count(r.value.metrics, IsFlagged) == 1
  {
    match s.comparison
    case None => Failure(400, NotInitialized)
    case Some(c) =>
      var scored := ToScored(c.results);
      assert UniqueKeys(c.results) && |c.results| > 0 ==> Count(Summary(scored).metrics, IsFlagged) == 1 by {
        if UniqueKeys(c.results) && |c.results| > 0 {
          ExactlyOneBest(scored);
        }
      }
      Success(Summary(scored))
  }

  /* ---------- prediction ---------- */

  const RequiredFields: seq<string> := ["cpu", "memory", "network_io", "power"]

  /** `a` occurs in `s` starting at position `i`. */
  predicate OccursAt(a: string, s: string, i: int) {
    0 <= i && i + |a| <= |s| && s[i..i + |a|] == a
  }

  /** Python's `a in s` on strings: `a` occurs in `s` as a contiguous
      piece, tried from the front. */
  function IsSubstring(a: string, s: string): (r: bool)
    ensures r <==> exists i :: OccursAt(a, s, i)
    decreases |s|
  {
    if |a| > |s| then false
    else if s[..|a|] == a then
      assert OccursAt(a, s, 0);
      true
    else
      var rest := IsSubstring(a, s[1..]);
      assert forall i :: OccursAt(a, s[1..], i) <==> OccursAt(a, s, i + 1) by {
        forall i ensures OccursAt(a, s[1..], i) <==> OccursAt(a, s, i + 1) {
          if 0 <= i && i + |a| <= |s[1..]| {
            assert s[1..][i..i + |a|] == s[i + 1..i + 1 + |a|];
          }
        }
      }
      assert !OccursAt(a, s, 0);
      assert (exists i :: OccursAt(a, s, i)) ==> exists i :: OccursAt(a, s[1..], i) by {
        if exists i :: OccursAt(a, s, i) {
          var i :| OccursAt(a, s, i);
          assert OccursAt(a, s[1..], i - 1);
        }
      }
      rest
  }

  /** Python's `field in data`: a key of an object, an element of a list, a
      piece of a string; `None` where the operator raises. */
  function Contains(data: Json, field: string): (r: Option<bool>)
    ensures r.None? <==> !(data.JObj? || data.JArr? || data.JStr?)
    ensures data.JObj? ==> r == Some(field in data.fields)
  {
    match data
    case JObj(fields) => Some(field in fields)
    case JArr(items) => Some(JStr(field) in items)
    case JStr(s) => Some(IsSubstring(field, s))
    case _ => None
  }

  datatype FieldCheck = AllPresent | Missing(field: string) | Unsearchable

  /** The check of the required fields, in order, stopping at the first
      that is missing. */
  function CheckFields(data: Json, fields: seq<string>): (r: FieldCheck)
    ensures r.AllPresent? <==> forall i :: 0 <= i < |fields| ==> Contains(data, fields[i]) == Some(true)
    ensures r.Unsearchable? <==> |fields| > 0 && Contains(data, fields[0]).None?
    ensures r.Missing? ==> exists i :: (0 <= i < |fields| && fields[i] == r.field && Contains(data, fields[i]) == Some(false)
              && forall j :: 0 <= j < i ==> Contains(data, fields[j]) == Some(true))
    decreases |fields|
  {
    if |fields| == 0 then AllPresent
    else match Contains(data, fields[0])
      case None => Unsearchable
      case Some(false) => Missing(fields[0])
      case Some(true) =>
        var rest := CheckFields(data, fields[1..]);
        assert forall i :: 1 <= i < |fields| ==> fields[i] == fields[1..][i - 1];
        if rest.Missing? then
          var i :| 0 <= i < |fields[1..]| && fields[1..][i] == rest.field && Contains(data, fields[1..][i]) == Some(false)
                   && forall j :: 0 <= j < i ==> Contains(data, fields[1..][j]) == Some(true);
          assert fields[i + 1] == rest.field && Contains(data, fields[i + 1]) == Some(false);
          assert forall j :: 0 <= j < i + 1 ==> Contains(data, fields[j]) == Some(true);
          rest
        else rest
  }

  /** The four numbers of the request, each through `float()`. */
  function ReadMetrics(fields: map<string, Json>, parse: string -> Option<real>): (r: Option<RawRow>)
    ensures r.Some? <==> forall f :: f in RequiredFields ==> FloatOf(Get(fields, f), parse).Some?
    ensures r.Some? ==> r.value.cpu == FloatOf(Get(fields, "cpu"), parse).value
    ensures r.Some? ==> r.value.memory == FloatOf(Get(fields, "memory"), parse).value
    ensures r.Some? ==> r.value.networkIo == FloatOf(Get(fields, "network_io"), parse).value
    ensures r.Some? ==> r.value.power == FloatOf(Get(fields, "power"), parse).value
  {
    var cpu := FloatOf(Get(fields, "cpu"), parse);
    var memory := FloatOf(Get(fields, "memory"), parse);
    var networkIo := FloatOf(Get(fields, "network_io"), parse);
    var power := FloatOf(Get(fields, "power"), parse);
    if cpu.Some? && memory.Some? && networkIo.Some? && power.Some? then
      Some(RawRow(cpu.value, memory.value, networkIo.value, power.value))
    else None
  }

  /** The VM's code: 0 without a VM encoder, else the encoder's code, which
      exists only for a known VM name. */
  function VmCode(vm: Json, encoder: Option<Encoder>): (r: Option<nat>)
    ensures encoder.None? ==> r == Some(0)
    ensures encoder.Some? ==> (r.Some? <==> vm.JStr? && vm.s in encoder.value.classes)
    ensures encoder.Some? && r.Some? ==> InverseTransform(encoder.value, r.value) == Some(vm.s)
  {
    match encoder
    case None => Some(0)
    case Some(e) =>
      if vm.JStr? then Transform(e, vm.s) else None
  }

  /** The request's feature vector. */
  function FeatureVector(x: RawRow, vmCode: nat): (f: seq<real>)
    requires x.memory + 1.0 != 0.0 && x.cpu + 1.0 != 0.0
    ensures |f| == |TrainingFeatures|
    ensures forall i :: 0 <= i < |f| ==> ColumnValue(x, vmCode, TrainingFeatures[i]) == Some(f[i])
  {
    [x.cpu, x.memory, x.networkIo, x.power, x.cpu / (x.memory + 1.0), (x.cpu + x.memory) / 2.0,
     x.power / (x.cpu + 1.0), vmCode as real]
  }

  /** Every model's prediction, in the models' order; each model gets the
      scaled features exactly when it was trained on them. */
  function PredictAll<E>(models: seq<Named<E>>, features: seq<real>, predict: (E, seq<real>, bool) -> Option<real>): (r: Option<seq<Named<real>>>)
    ensures r.Some? <==> forall i :: 0 <= i < |models| ==> predict(models[i].value, features, UsesScaledData(models[i].name)).Some?
    ensures r.Some? ==> |r.value| == |models| && Keys(r.value) == Keys(models)
    ensures r.Some? ==> forall i :: 0 <= i < |models| ==>
              r.value[i].value == predict(models[i].value, features, UsesScaledData(models[i].name)).value
    decreases |models|
  {
    if |models| == 0 then Some([])
    else
      var p := predict(models[0].value, features, UsesScaledData(models[0].name));
      var rest := PredictAll(models[1..], features, predict);
      assert forall i :: 1 <= i < |models| ==> models[i] == models[1..][i - 1];
      if p.None? || rest.None? then None
      else
        var r := [Named(models[0].name, p.value)] + rest.value;
        assert r[1..] == rest.value;
        assert Keys(r) == [models[0].name] + Keys(rest.value);
        assert Keys(models) == [models[0].name] + Keys(models[1..]);
        Some(r)
  }

  /** Python's `round` of a float to an integer: the nearest integer, and
      the even one of two equally near. */
  function RoundHalfEven(x: real): (n: int)
    ensures -0.5 <= n as real - x <= 0.5
    ensures (n as real - x == 0.5 || x - n as real == 0.5) ==> n % 2 == 0
  {
    var f := x.Floor;
    var d := x - f as real;
    if d < 0.5 then f
    else if d > 0.5 then f + 1
    else if f % 2 == 0 then f
    else f + 1
  }

  /** An integer nearer than one half is the rounded value. */
  lemma RoundIsNearest(x: real, m: int)
    requires -0.5 < m as real - x < 0.5
    ensures RoundHalfEven(x) == m
  {
  }

  /** The mapping used when there is no host encoder. */
  function ThresholdHost(p: real): (host: string)
    ensures host == "Host1" <==> p <= 0.5
    ensures host == "Host2" <==> 0.5 < p <= 1.5
    ensures host == "Host3" <==> 1.5 < p
    ensures host in HostLabels
  {
    if p <= 0.5 then "Host1" else if p <= 1.5 then "Host2" else "Host3"
  }

  /** A larger prediction never maps to a lower host. */
  lemma ThresholdHostMonotone(p: real, q: real)
    requires p <= q
    ensures LabelRank(ThresholdHost(p)) <= LabelRank(ThresholdHost(q))
  {
  }

  /** The host for a prediction: decoded from the rounded value by the host
      encoder, which fails for a code outside its classes, or by the
      thresholds. */
  function HostFor(encoder: Option<Encoder>, p: real): (r: Option<string>)
    ensures encoder.None? ==> r == Some(ThresholdHost(p))
    ensures encoder.Some? ==> (r.Some? <==> 0 <= RoundHalfEven(p) < |encoder.value.classes|)
    ensures encoder.Some? && r.Some? ==> r.value == encoder.value.classes[RoundHalfEven(p)]
    ensures encoder.Some? && r.Some? && StrictlySorted(encoder.value.classes) ==>
              Transform(encoder.value, r.value) == Some(RoundHalfEven(p) as nat)
  {
    match encoder
    case None => Some(ThresholdHost(p))
    case Some(e) =>
      if StrictlySorted(e.classes) then
        CodingRoundTrip(e, "", RoundHalfEven(p));
        InverseTransform(e, RoundHalfEven(p))
      else
        InverseTransform(e, RoundHalfEven(p))
  }

  /** With the encoder fitted to Host1, Host2 and Host3 a prediction is
      decoded exactly when it lies in [-0.5, 2.5], and the two mappings
      agree there except at 1.5, which rounds to 2 (Host3) while the
      thresholds give Host2. */
  lemma EncoderAgreesWithThresholds(p: real)
    ensures HostFor(Some(Encoder(HostLabels)), p).Some? <==> -0.5 <= p <= 2.5
    ensures -0.5 <= p <= 2.5 ==> (HostFor(Some(Encoder(HostLabels)), p) == Some(ThresholdHost(p)) <==> p != 1.5)
  {
    var n := RoundHalfEven(p);
    if -0.5 <= p <= 2.5 {
      if p <= 0.5 {
        assert n == 0;
      } else if p < 1.5 {
        assert n == 1;
      } else {
        assert n == 2;
      }
    }
  }

  /** The answer of a successful prediction. */
  datatype PredictionAnswer = PredictionAnswer(recommendedHost: string, confidence: real, bestModel: string,
                                               allPredictions: seq<Named<real>>)

  /** What a successful answer promises: the best model is the first with
      the highest R², the confidence is that R², every model has a
      prediction, and the host is what that prediction maps to: the
      thresholds without a host encoder, the decoded rounded value with
      one. */
  predicate BestAnswer<E>(c: Comparison<E>, a: PredictionAnswer) {
    var scored := ToScored(c.results);
    && FirstMax(scored, R2Of).Some?
    && var b := FirstMax(scored, R2Of).value;
    && IsFirstMax(scored, R2Of, b)
    && a.bestModel == c.results[b].name
    && a.confidence == c.results[b].value.r2
    && (forall i :: 0 <= i < |c.results| ==> c.results[i].value.r2 <= a.confidence)
    && Keys(a.allPredictions) == Keys(c.models)
    && a.bestModel in Keys(c.models)
    && (c.hostEncoder.None? ==> a.recommendedHost == ThresholdHost(Find(a.allPredictions, a.bestModel).value))
    && Some(a.recommendedHost) == HostFor(c.hostEncoder, Find(a.allPredictions, a.bestModel).value)
  }

  /** The prediction of the model `max` picks by R², when there are results
      and that model has a prediction. */
  function BestPrediction<E>(c: Comparison<E>, preds: seq<Named<real>>): (r: Option<real>)
    ensures r.Some? <==> |c.results| > 0 && c.results[FirstMax(ToScored(c.results), R2Of).value].name in Keys(preds)
  {
    var scored := ToScored(c.results);
    match FirstMax(scored, R2Of)
    case None => None
    case Some(b) => Find(preds, scored[b].name)
  }

  /** Lines 212-237: pick the best model by R², take its prediction and
      turn it into a host. */
  function Decide<E>(c: Comparison<E>, preds: seq<Named<real>>): (r: Result<PredictionAnswer>)
    ensures r.Failure? ==> r.code == 500
    ensures r.Success? <==> BestPrediction(c, preds).Some? && HostFor(c.hostEncoder, BestPrediction(c, preds).value).Some?
    ensures r.Success? && Keys(preds) == Keys(c.models) ==> BestAnswer(c, r.value)
    ensures r.Success? ==> r.value.allPredictions == preds
  {
    var scored := ToScored(c.results);
    match FirstMax(scored, R2Of)
    case None => Failure(500, PredictionError)
    case Some(b) =>
      match Find(preds, scored[b].name)
      case None => Failure(500, PredictionError)
      case Some(p) =>
        match HostFor(c.hostEncoder, p)
        case None => Failure(500, PredictionError)
        case Some(host) =>
          assert forall i :: 0 <= i < |c.results| ==> R2Of(scored[i]) == c.results[i].value.r2;
          Success(PredictionAnswer(host, scored[b].r2, scored[b].name, preds))
  }

  /** Lines 184-237 once the four numbers are read: the guards on the
      divisors, the VM code, every model's prediction and the decision. */
  function Answer<E>(c: Comparison<E>, x: RawRow, vm: Json, predict: (E, seq<real>, bool) -> Option<real>): (r: Result<PredictionAnswer>)
    ensures r.Failure? ==> r.code == 500
    ensures r.Success? ==> BestAnswer(c, r.value)
    ensures x.memory + 1.0 == 0.0 || x.cpu + 1.0 == 0.0 ==> r.Failure?
    ensures c.vmEncoder.Some? && !(vm.JStr? && vm.s in c.vmEncoder.value.classes) ==> r.Failure?
    ensures r.Success? <==>
              && x.memory + 1.0 != 0.0 && x.cpu + 1.0 != 0.0
              && VmCode(vm, c.vmEncoder).Some?
              && PredictAll(c.models, FeatureVector(x, VmCode(vm, c.vmEncoder).value), predict).Some?
              && Decide(c, PredictAll(c.models, FeatureVector(x, VmCode(vm, c.vmEncoder).value), predict).value).Success?
  {
    if x.memory + 1.0 == 0.0 || x.cpu + 1.0 == 0.0 then Failure(500, PredictionError)
    else
      match VmCode(vm, c.vmEncoder)
      case None => Failure(500, PredictionError)
      case Some(code) =>
        match PredictAll(c.models, FeatureVector(x, code), predict)
        case None => Failure(500, PredictionError)
        case Some(preds) => Decide(c, preds)
  }

  /** `data.get('vm', 'VM1')`: the request's VM, VM1 when none is given. */
  function VmOf(fields: map<string, Json>): (v: Json)
    ensures "vm" in fields ==> v == fields["vm"]
    ensures "vm" !in fields ==> v == JStr("VM1")
  {
    if "vm" in fields then fields["vm"] else JStr("VM1")
  }

  /** The request is an object that holds the four required fields. */
  predicate HasRequiredFields(body: Option<Json>) {
    body.Some? && body.value.JObj? && forall f :: f in RequiredFields ==> f in body.value.fields
  }

  /** `predict_vm_placement`. `body` is the parsed JSON body, `parse` is
      `float()` on a string and `predict(estimator, features, scaled)` is one
      model's prediction, made on the standardised features when `scaled`;
      `None` from either is an exception. */
  function PredictPlacement<E>(s: ServerState<E>, body: Option<Json>, parse: string -> Option<real>,
                               predict: (E, seq<real>, bool) -> Option<real>): (r: Result<PredictionAnswer>)
    ensures s.comparison.None? ==> r == Failure(400, NotInitialized)
    ensures r.Failure? ==> r.code == 400 || r.code == 500
    ensures s.comparison.Some? && body.Some? && body.value.JObj? ==>
              forall i :: (0 <= i < |RequiredFields| && RequiredFields[i] !in body.value.fields
                           && (forall j :: 0 <= j < i ==> RequiredFields[j] in body.value.fields)) ==>
                r == Failure(400, MissingFieldMessage(RequiredFields[i]))
    ensures r.Success? ==> body.Some? && body.value.JObj? && forall f :: f in RequiredFields ==> f in body.value.fields
    ensures r.Success? ==> s.comparison.Some? && BestAnswer(s.comparison.value, r.value)
    ensures s.comparison.Some? && HasRequiredFields(body) ==>
              (r.Success? <==>
                 && ReadMetrics(body.value.fields, parse).Some?
                 && Answer(s.comparison.value, ReadMetrics(body.value.fields, parse).value, VmOf(body.value.fields), predict).Success?)
    ensures r.Success? ==>
              r == Answer(s.comparison.value, ReadMetrics(body.value.fields, parse).value, VmOf(body.value.fields), predict)
  {
    match s.comparison
    case None => Failure(400, NotInitialized)
    case Some(c) =>
      if body.None? then Failure(500, PredictionError)
      else
        var data := body.value;
        match CheckFields(data, RequiredFields)
        case Unsearchable => Failure(500, PredictionError)
        case Missing(f) =>
          FirstMissingNamed(data, f);
          Failure(400, MissingFieldMessage(f))
        case AllPresent =>
          if !data.JObj? then Failure(500, PredictionError)
          else
            AllPresentInObject(data);
            match ReadMetrics(data.fields, parse)
            case None => Failure(500, PredictionError)
            case Some(x) =>
              Answer(c, x, VmOf(data.fields), predict)
  }

  /** A request without a VM is answered as one that names VM1. */
  lemma VmDefaultsToVM1<E>(s: ServerState<E>, fields: map<string, Json>, parse: string -> Option<real>,
                           predict: (E, seq<real>, bool) -> Option<real>)
    requires "vm" !in fields
    ensures PredictPlacement(s, Some(JObj(fields)), parse, predict)
         == PredictPlacement(s, Some(JObj(fields["vm" := JStr("VM1")])), parse, predict)
  {
    var withVm := fields["vm" := JStr("VM1")];
    CheckFieldsAgree(JObj(fields), JObj(withVm), RequiredFields);
    assert ReadMetrics(fields, parse) == ReadMetrics(withVm, parse);
    assert VmOf(fields) == VmOf(withVm);
  }

  /** Two bodies that answer `in` alike for every field pass the same check. */
  lemma {:induction false} CheckFieldsAgree(d1: Json, d2: Json, fields: seq<string>)
    requires forall i :: 0 <= i < |fields| ==> Contains(d1, fields[i]) == Contains(d2, fields[i])
    ensures CheckFields(d1, fields) == CheckFields(d2, fields)
    decreases |fields|
  {
    if |fields| > 0 {
      assert forall i :: 0 <= i < |fields[1..]| ==> fields[1..][i] == fields[i + 1];
      CheckFieldsAgree(d1, d2, fields[1..]);
    }
  }

  lemma AllPresentInObject(data: Json)
    requires data.JObj? && CheckFields(data, RequiredFields).AllPresent?
    ensures forall f :: f in RequiredFields ==> f in data.fields
  {
    forall f | f in RequiredFields
      ensures f in data.fields
    {
      var i :| 0 <= i < |RequiredFields| && RequiredFields[i] == f;
      assert Contains(data, RequiredFields[i]) == Some(true);
    }
  }

  /** On an object body the first missing field is the one named. */
  lemma FirstMissingNamed(data: Json, f: string)
    requires CheckFields(data, RequiredFields) == Missing(f)
    ensures data.JObj? ==> forall i :: (0 <= i < |RequiredFields| && RequiredFields[i] !in data.fields
                         && (forall j :: 0 <= j < i ==> RequiredFields[j] in data.fields)) ==> RequiredFields[i] == f
  {
    var k :| 0 <= k < |RequiredFields| && RequiredFields[k] == f && Contains(data, RequiredFields[k]) == Some(false)
             && forall j :: 0 <= j < k ==> Contains(data, RequiredFields[j]) == Some(true);
    forall i | data.JObj? && 0 <= i < |RequiredFields| && RequiredFields[i] !in data.fields
               && (forall j :: 0 <= j < i ==> RequiredFields[j] in data.fields)
      ensures RequiredFields[i] == f
    {
      assert Contains(data, RequiredFields[i]) == Some(false);
      assert !(i < k) && !(k < i);
    }
  }

  /* ---------- tuning ---------- */

  /** `train_models` after tuning: every tuned estimator is fitted again and
      its metrics overwrite the entry already in the results. */
  function Retrain<E>(c: Comparison<E>, tuned: seq<Named<E>>, fit: (E, bool) -> Option<Metrics>): TrainRun {
    TrainModels(Keys(tuned), c.results, FitStored(tuned, fit))
  }

  /** `run_hyperparameter_tuning`: tune, retrain every model into the
      existing results, and publish them. A failed search leaves the state
      as it was; a failed retraining keeps the tuned models and the partial
      results but not the published table. */
  function RunTuning<E>(s: ServerState<E>, search: (E, ParamGrid, bool) -> Option<E>,
                        fit: (E, bool) -> Option<Metrics>): (r: Step<E, seq<Named<Metrics>>>)
    ensures s.comparison.None? ==> r == Step(s, Failure(400, NotInitialized))
    ensures r.answer.Success? <==>
              && s.comparison.Some?
              && Tune(s.comparison.value.models, search).Some?
              && Retrain(s.comparison.value, Tune(s.comparison.value.models, search).value, fit).complete
    ensures s.comparison.Some? && Tune(s.comparison.value.models, search).Some? ==>
              var tuned := Tune(s.comparison.value.models, search).value;
              && r.state.comparison.Some?
              && r.state.comparison.value.models == tuned
              && r.state.comparison.value.results == Retrain(s.comparison.value, tuned, fit).results
              && r.state.comparison.value.vmEncoder == s.comparison.value.vmEncoder
              && r.state.comparison.value.hostEncoder == s.comparison.value.hostEncoder
    ensures r.answer.Failure? ==> r.state.resultsData == s.resultsData
    ensures s.comparison.Some? && Tune(s.comparison.value.models, search).None? ==> r == Step(s, Failure(500, TuningError))
    ensures r.answer.Success? ==> s.comparison.Some? && r.state.comparison.Some?
    ensures r.answer.Success? ==> r.state.resultsData == Some(r.state.comparison.value.results)
    ensures r.answer.Success? ==> var before := s.comparison.value.models;
              var after := r.state.comparison.value.models;
              && Keys(after) == Keys(before)
              && Find(after, "Neural Network") == Find(before, "Neural Network")
    ensures Aligned(s) ==> Aligned(r.state)
  {
    match s.comparison
    case None => Step(s, Failure(400, NotInitialized))
    case Some(c) =>
      match Tune(c.models, search)
      case None => Step(s, Failure(500, TuningError))
      case Some(tuned) =>
        NeuralNetworkNotTuned(c.models, search);
        var run := Retrain(c, tuned, fit);
        var c2 := c.(models := tuned, results := run.results);
        if !run.complete then Step(ServerState(Some(c2), s.resultsData), Failure(500, TuningError))
        else Step(ServerState(Some(c2), Some(run.results)), Success(run.results))
  }

  /** After successful tuning every model's published metrics are those of
      its stored (tuned) estimator. */
  lemma TunedResultsPublished<E>(s: ServerState<E>, search: (E, ParamGrid, bool) -> Option<E>,
                                 fit: (E, bool) -> Option<Metrics>, name: string)
    requires RunTuning(s, search, fit).answer.Success?
    requires name in Keys(RunTuning(s, search, fit).state.comparison.value.models)
    ensures var c := RunTuning(s, search, fit).state.comparison.value;
      Find(c.results, name) == fit(Find(c.models, name).value, UsesScaledData(name))
  {
    var c := RunTuning(s, search, fit).state.comparison.value;
    var ks := Keys(c.models);
    var i :| 0 <= i < |ks| && ks[i] == name;
    assert Find(c.results, ks[i]) == FitStored(c.models, fit)(ks[i], UsesScaledData(ks[i]));
  }
}

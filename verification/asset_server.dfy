/** The model-asset server of `vmp/server_ml.py`, whose `predict` handler
    `vmp/api_server.py` repeats word for word: the trained model, the feature
    scaler and the VM-name encoder are loaded once; `predict` reads a JSON
    request, encodes the VM name, asks the model for a host and attaches the
    proxy objectives. The file system, `joblib.load`, the scaler and the
    model are parameters. */
module AssetServer {
  import opened Common
  import opened Objectives
  import opened LabelCoding

  /* ---------- loading ---------- */

  /** A candidate path loads when the file is present and `joblib.load` of it
      does not raise. */
  predicate Loads<A>(p: string, present: string -> bool, load: string -> Option<A>) {
    present(p) && load(p).Some?
  }

  /** An asset together with the path it came from; both are `None` when no
      candidate loaded. */
  datatype Loaded<A> = Loaded(asset: Option<A>, path: Option<string>)

  /** `_try_load`: the first candidate that is present and loads. */
  function TryLoad<A>(candidates: seq<string>, present: string -> bool, load: string -> Option<A>): (r: Loaded<A>)
    ensures r.asset.Some? <==> r.path.Some?
    ensures r.path.None? <==> forall i :: 0 <= i < |candidates| ==> !Loads(candidates[i], present, load)
    ensures r.path.Some? ==>
              exists k :: 0 <= k < |candidates|
                && r.path.value == candidates[k]
                && r.asset == load(candidates[k])
                && Loads(candidates[k], present, load)
                && forall j :: 0 <= j < k ==> !Loads(candidates[j], present, load)
    decreases |candidates|
  {
    if |candidates| == 0 then Loaded(None, None)
    else if Loads(candidates[0], present, load) then Loaded(load(candidates[0]), Some(candidates[0]))
    else
      var rest := TryLoad(candidates[1..], present, load);
      assert rest.path.Some? ==>
               (exists k :: 1 <= k < |candidates| && rest.path.value == candidates[k]
                  && rest.asset == load(candidates[k]) && Loads(candidates[k], present, load)
                  && forall j :: 0 <= j < k ==> !Loads(candidates[j], present, load)) by {
        if rest.path.Some? {
          var k :| 0 <= k < |candidates[1..]| && rest.path.value == candidates[1..][k]
                   && rest.asset == load(candidates[1..][k]) && Loads(candidates[1..][k], present, load)
                   && forall j :: 0 <= j < k ==> !Loads(candidates[1..][j], present, load);
          assert forall j :: 0 <= j < k + 1 ==> !Loads(candidates[j], present, load) by {
            forall j | 0 <= j < k + 1 ensures !Loads(candidates[j], present, load) {
              if j > 0 {
                assert candidates[j] == candidates[1..][j - 1];
              }
            }
          }
        }
      }
      assert rest.path.None? ==> forall i :: 0 <= i < |candidates| ==> !Loads(candidates[i], present, load) by {
        if rest.path.None? {
          forall i | 0 <= i < |candidates| ensures !Loads(candidates[i], present, load) {
            if i > 0 {
              assert candidates[i] == candidates[1..][i - 1];
            }
          }
        }
      }
      rest
  }

  /** The encoder loop of `vmp/api_server.py`: try every path in turn,
      ignoring failures, until one has loaded. Only `load` is consulted; a
      missing file is a failing load. */
  function LoadFirst<A>(paths: seq<string>, load: string -> Option<A>): (r: Option<A>)
    ensures r.Some? ==> exists k :: 0 <= k < |paths| && r == load(paths[k])
    decreases |paths|
  {
    if |paths| == 0 then None
    else if load(paths[0]).Some? then load(paths[0])
    else
      var rest := LoadFirst(paths[1..], load);
      assert rest.Some? ==> exists k :: 0 <= k < |paths| && rest == load(paths[k]) by {
        if rest.Some? {
          var k :| 0 <= k < |paths[1..]| && rest == load(paths[1..][k]);
          assert paths[1..][k] == paths[k + 1];
        }
      }
      rest
  }

  /** Both servers pick the same encoder from the same candidate list, as
      long as only files that exist can load. */
  lemma {:induction false} LoadersAgree<A>(paths: seq<string>, present: string -> bool, load: string -> Option<A>)
    requires forall p :: load(p).Some? ==> present(p)
    ensures LoadFirst(paths, load) == TryLoad(paths, present, load).asset
    decreases |paths|
  {
    if |paths| > 0 && !Loads(paths[0], present, load) {
      LoadersAgree(paths[1..], present, load);
    }
  }

  /** What the server holds after start-up. The model and the scaler are
      opaque objects here and only their presence matters; the encoder is
      kept as its list of classes. */
  datatype Assets = Assets(modelLoaded: bool, scalerLoaded: bool, encoder: Option<Encoder>)

  predicate AllLoaded(a: Assets) {
    a.modelLoaded && a.scalerLoaded && a.encoder.Some?
  }

  /** The `ok` flag and HTTP code of the `health` answer. */
  datatype Readiness = Readiness(ok: bool, code: int)

  /** `health`: 200 exactly when all three assets loaded, 500 otherwise. */
  function AssetHealth(a: Assets): (r: Readiness)
    ensures r.ok <==> AllLoaded(a)
    ensures r.code == 200 <==> AllLoaded(a)
    ensures r.code == 200 || r.code == 500
  {
    if AllLoaded(a) then Readiness(true, 200) else Readiness(false, 500)
  }

  /** `get_vms`: the encoder's classes, or 500 without an encoder. */
  function VmNames(a: Assets): (r: Result<seq<string>>)
    ensures a.encoder.None? <==> r.Failure?
    ensures r.Failure? ==> r.code == 500 && r.message == "Encoder not loaded"
    ensures r.Success? ==> forall v :: v in r.value <==> Transform(a.encoder.value, v).Some?
    ensures r.Success? ==> |r.value| == |a.encoder.value.classes|
    ensures r.Success? ==> forall i :: 0 <= i < |r.value| ==> InverseTransform(a.encoder.value, i) == Some(r.value[i])
    ensures r.Success? && StrictlySorted(a.encoder.value.classes) ==>
              forall i :: 0 <= i < |r.value| ==> Transform(a.encoder.value, r.value[i]) == Some(i)
  {
    assert a.encoder.Some? && StrictlySorted(a.encoder.value.classes) ==>
             forall i :: 0 <= i < |a.encoder.value.classes| ==> Transform(a.encoder.value, a.encoder.value.classes[i]) == Some(i) by {
      if a.encoder.Some? && StrictlySorted(a.encoder.value.classes) {
        forall i | 0 <= i < |a.encoder.value.classes|
          ensures Transform(a.encoder.value, a.encoder.value.classes[i]) == Some(i)
        {
          CodingRoundTrip(a.encoder.value, "", i);
        }
      }
    }
    if a.encoder.None? then Failure(500, "Encoder not loaded") else Success(a.encoder.value.classes)
  }

  /* ---------- reading the request ---------- */

  /** The Python behaviour the handler relies on and the model does not
      define: the float syntax of `float(str)` and the text `str(x)` gives
      for numbers, lists and dicts. */
  datatype Python = Python(parseFloat: string -> Option<real>, repr: Json -> string)

  /** Python's `str(x)` of a decoded JSON value. */
  function Str(j: Json, py: Python): (s: string)
    ensures j.JStr? ==> s == j.s
    ensures j.JNull? ==> s == "None"
  {
    match j
    case JStr(s) => s
    case JNull => "None"
    case JBool(b) => if b then "True" else "False"
    case _ => py.repr(j)
  }

  /** `request.get_json(silent=True) or {}`: a missing or unreadable body,
      and any falsy JSON value, become an empty object. */
  function PayloadOf(body: Option<Json>): (p: Json)
    ensures body.Some? && Truthy(body.value) ==> p == body.value
    ensures !(body.Some? && Truthy(body.value)) ==> p == JObj(map[])
  {
    if body.Some? && Truthy(body.value) then body.value else JObj(map[])
  }

  /** The fields echoed back in `inputEcho`. */
  datatype Inputs = Inputs(vmName: string, cpu: real, memory: real, networkIo: real, power: real)

  const NumericFields: seq<string> := ["cpu", "memory", "network_io", "power"]

  const InvalidFields: string := "Invalid or missing fields: vm, cpu, memory, network_io, power"

  /** The first `try` block of `predict`: any failure, including a body that
      is not an object, is reported as one 400. */
  function ReadInputs(payload: Json, py: Python): (r: Option<Inputs>)
    ensures r.Some? <==> payload.JObj? && forall key :: key in NumericFields ==> FloatOf(Get(payload.fields, key), py.parseFloat).Some?
    ensures r.Some? ==>
              && r.value.vmName == Str(Get(payload.fields, "vm"), py)
              && Some(r.value.cpu) == FloatOf(Get(payload.fields, "cpu"), py.parseFloat)
              && Some(r.value.memory) == FloatOf(Get(payload.fields, "memory"), py.parseFloat)
              && Some(r.value.networkIo) == FloatOf(Get(payload.fields, "network_io"), py.parseFloat)
              && Some(r.value.power) == FloatOf(Get(payload.fields, "power"), py.parseFloat)
  {
    if !payload.JObj? then None
    else
      var f := payload.fields;
      var cpu := FloatOf(Get(f, "cpu"), py.parseFloat);
      var memory := FloatOf(Get(f, "memory"), py.parseFloat);
      var networkIo := FloatOf(Get(f, "network_io"), py.parseFloat);
      var power := FloatOf(Get(f, "power"), py.parseFloat);
      if cpu.Some? && memory.Some? && networkIo.Some? && power.Some? then
        Some(Inputs(Str(Get(f, "vm"), py), cpu.value, memory.value, networkIo.value, power.value))
      else None
  }

  /** The request a client sends for `x`, all numbers as JSON numbers. */
  function RequestOf(x: Inputs): Json {
    JObj(map["vm" := JStr(x.vmName), "cpu" := JNum(x.cpu), "memory" := JNum(x.memory),
             "network_io" := JNum(x.networkIo), "power" := JNum(x.power)])
  }

  /** Reading a well-formed request gives back exactly what was sent. */
  lemma ReadInputsRoundTrip(x: Inputs, py: Python)
    ensures ReadInputs(PayloadOf(Some(RequestOf(x))), py) == Some(x)
  {
    var p := RequestOf(x);
    assert "vm" in p.fields;
    assert Truthy(p);
  }

  /** A request that lacks one of the four numbers, or carries `null` or a
      list or object there, is refused. */
  lemma MissingNumberRefused(payload: Json, key: string, py: Python)
    requires payload.JObj? && key in NumericFields
    requires key !in payload.fields || payload.fields[key].JNull? || payload.fields[key].JArr? || payload.fields[key].JObj?
    ensures ReadInputs(payload, py).None?
  {
  }

  /** `float(weights.get(key, default))`: a key that is present is
      converted even when its value is `null`, which raises. */
  function WeightOf(fields: map<string, Json>, key: string, default: real, py: Python): (r: Option<real>)
    ensures key !in fields ==> r == Some(default)
    ensures key in fields ==> r == FloatOf(fields[key], py.parseFloat)
  {
    if key in fields then FloatOf(fields[key], py.parseFloat) else Some(default)
  }

  /** The weights lines, which sit outside any `try`: a falsy or missing
      `weights` gives the defaults, every key of a weights object falls back
      to its own default, and a weights value that is not an object, or a
      weight that does not convert, is an unhandled error (`None`). */
  function ReadWeights(fields: map<string, Json>, py: Python): (r: Option<ObjectiveWeights>)
    ensures !Truthy(Get(fields, "weights")) ==> r == Some(DefaultWeights)
    ensures Truthy(Get(fields, "weights")) && !Get(fields, "weights").JObj? ==> r.None?
    ensures Get(fields, "weights").JObj? && Truthy(Get(fields, "weights")) ==>
              var given := Get(fields, "weights").fields;
              && (r.Some? <==> WeightOf(given, "cost", 0.34, py).Some? && WeightOf(given, "energy", 0.33, py).Some?
                               && WeightOf(given, "load", 0.33, py).Some?)
              && (r.Some? ==> r.value == ObjectiveWeights(WeightOf(given, "cost", 0.34, py).value,
                                                         WeightOf(given, "energy", 0.33, py).value,
                                                         WeightOf(given, "load", 0.33, py).value))
  {
    var given := Get(fields, "weights");
    if !Truthy(given) then Some(DefaultWeights)
    else if !given.JObj? then None
    else
      var cost := WeightOf(given.fields, "cost", 0.34, py);
      var energy := WeightOf(given.fields, "energy", 0.33, py);
      var load := WeightOf(given.fields, "load", 0.33, py);
      if cost.Some? && energy.Some? && load.Some? then Some(ObjectiveWeights(cost.value, energy.value, load.value))
      else None
  }

  /** Overriding one weight keeps the defaults of the other two. */
  lemma PartialWeightsKeepDefaults(fields: map<string, Json>, c: real, py: Python)
    requires Get(fields, "weights") == JObj(map["cost" := JNum(c)])
    ensures ReadWeights(fields, py) == Some(ObjectiveWeights(c, 0.33, 0.33))
  {
    assert Truthy(Get(fields, "weights"));
  }

  /* ---------- the prediction ---------- */

  /** The column order of the data frame handed to the scaler. */
  const FeatureColumns: seq<string> := ["vm", "cpu", "memory", "network_io", "power", "cpu_mem_ratio", "power_per_cpu"]

  /** The feature row, one value per column of `FeatureColumns`. */
  function Features(vmCode: nat, x: Inputs): (r: seq<real>)
    ensures |r| == |FeatureColumns|
    ensures r[0] == vmCode as real && r[1] == x.cpu && r[2] == x.memory && r[3] == x.networkIo && r[4] == x.power
    ensures x.memory != 0.0 ==> r[5] * x.memory == x.cpu
    ensures x.cpu != 0.0 ==> r[6] * x.cpu == x.power
    ensures x.memory == 0.0 ==> r[5] == 0.0
    ensures x.cpu == 0.0 ==> r[6] == 0.0
  {
    [vmCode as real, x.cpu, x.memory, x.networkIo, x.power, Ratio(x.cpu, x.memory), Ratio(x.power, x.cpu)]
  }

  /** What scaling the row and asking the model gives: the host's text, or
      the text of the exception. */
  datatype Outcome = Predicted(host: string) | Raised(error: string)

  /** The 200 answer. */
  datatype Prediction = Prediction(host: string, objectives: ProxyObjectives, weights: ObjectiveWeights, echo: Inputs)

  const AssetsMissing: string := "Model assets not loaded"

  /** Flask's answer to an exception the handler does not catch. */
  const InternalError: string := "Internal Server Error"

  function UnknownVm(vmName: string): string {
    "VM '" + vmName + "' not recognized. Query /api/v1/vms for options."
  }

  /** `predict`: the checks in the order the handler makes them. */
  function Predict(a: Assets, body: Option<Json>, py: Python, infer: seq<real> -> Outcome): (r: Result<Prediction>)
    ensures !AllLoaded(a) ==> r == Failure(500, AssetsMissing)
    ensures AllLoaded(a) && ReadInputs(PayloadOf(body), py).None? ==> r == Failure(400, InvalidFields)
    ensures r.Success? <==>
              && AllLoaded(a)
              && ReadInputs(PayloadOf(body), py).Some?
              && ReadWeights(PayloadOf(body).fields, py).Some?
              && Transform(a.encoder.value, ReadInputs(PayloadOf(body), py).value.vmName).Some?
              && infer(Features(Transform(a.encoder.value, ReadInputs(PayloadOf(body), py).value.vmName).value,
                                ReadInputs(PayloadOf(body), py).value)).Predicted?
    ensures r.Success? ==>
              var x := ReadInputs(PayloadOf(body), py).value;
              var w := ReadWeights(PayloadOf(body).fields, py).value;
              var code := Transform(a.encoder.value, x.vmName).value;
              && a.encoder.value.classes[code] == x.vmName
              && r.value.echo == x
              && r.value.weights == w
              && r.value.host == infer(Features(code, x)).host
              && r.value.objectives == ObjectivesOf(x.cpu, x.memory, x.networkIo, x.power, w)
    ensures AllLoaded(a) && ReadInputs(PayloadOf(body), py).Some? && ReadWeights(PayloadOf(body).fields, py).None? ==>
              r == Failure(500, InternalError)
    ensures AllLoaded(a) && ReadInputs(PayloadOf(body), py).Some? && ReadWeights(PayloadOf(body).fields, py).Some?
            && ReadInputs(PayloadOf(body), py).value.vmName !in a.encoder.value.classes ==>
              r == Failure(400, UnknownVm(ReadInputs(PayloadOf(body), py).value.vmName))
  {
    if !AllLoaded(a) then Failure(500, AssetsMissing)
    else
      var payload := PayloadOf(body);
      match ReadInputs(payload, py)
      case None => Failure(400, InvalidFields)
      case Some(x) =>
        match ReadWeights(payload.fields, py)
        case None => Failure(500, InternalError)
        case Some(w) =>
          match Transform(a.encoder.value, x.vmName)
          case None => Failure(400, UnknownVm(x.vmName))
          case Some(code) =>
            match infer(Features(code, x))
            case Raised(e) => Failure(500, "Prediction failed: " + e)
            case Predicted(host) => Success(Prediction(host, ObjectivesOf(x.cpu, x.memory, x.networkIo, x.power, w), w, x))
  }

  /** The weights change the objectives only: two requests that differ in
      nothing but their weights get the same host and the same echo. */
  lemma HostIgnoresWeights(a: Assets, x: Inputs, weights1: Json, weights2: Json, py: Python, infer: seq<real> -> Outcome)
    ensures var r1 := Predict(a, Some(JObj(RequestOf(x).fields["weights" := weights1])), py, infer);
            var r2 := Predict(a, Some(JObj(RequestOf(x).fields["weights" := weights2])), py, infer);
            r1.Success? && r2.Success? ==> r1.value.host == r2.value.host && r1.value.echo == r2.value.echo == x
  {
    ReadInputsIgnoresWeights(x, weights1, py);
    ReadInputsIgnoresWeights(x, weights2, py);
  }

  /** A weights entry added to a request does not change what is read from
      it. */
  lemma ReadInputsIgnoresWeights(x: Inputs, weights: Json, py: Python)
    ensures ReadInputs(PayloadOf(Some(JObj(RequestOf(x).fields["weights" := weights]))), py) == Some(x)
  {
    var f := RequestOf(x).fields["weights" := weights];
    assert "vm" in f && Truthy(JObj(f));
    assert PayloadOf(Some(JObj(f))) == JObj(f);
    assert Get(f, "vm") == JStr(x.vmName) && Get(f, "cpu") == JNum(x.cpu) && Get(f, "memory") == JNum(x.memory);
    assert Get(f, "network_io") == JNum(x.networkIo) && Get(f, "power") == JNum(x.power);
    ReadInputsFromFields(f, x, py);
  }

  /** An object whose five fields hold `x`'s values reads as `x`. */
  lemma ReadInputsFromFields(f: map<string, Json>, x: Inputs, py: Python)
    requires Get(f, "vm") == JStr(x.vmName) && Get(f, "cpu") == JNum(x.cpu) && Get(f, "memory") == JNum(x.memory)
    requires Get(f, "network_io") == JNum(x.networkIo) && Get(f, "power") == JNum(x.power)
    ensures ReadInputs(JObj(f), py) == Some(x)
  {
  }

  /** A successful answer with non-negative weights, CPU and power has a
      weighted score between 0 and the sum of the weights; with the default
      weights, between 0 and 1. */
  lemma PredictScoreInRange(a: Assets, body: Option<Json>, py: Python, infer: seq<real> -> Outcome)
    requires Predict(a, body, py, infer).Success?
    requires var p := Predict(a, body, py, infer).value;
             NonNegativeWeights(p.weights) && p.echo.cpu >= 0.0 && p.echo.power >= 0.0
    ensures var p := Predict(a, body, py, infer).value;
            && 0.0 <= p.objectives.weightedScore <= p.weights.cost + p.weights.energy + p.weights.load
            && (p.weights == DefaultWeights ==> p.objectives.weightedScore <= 1.0)
  {
    var p := Predict(a, body, py, infer).value;
    WeightedScoreInRange(p.echo.cpu, p.echo.memory, p.echo.networkIo, p.echo.power, p.weights);
  }
}

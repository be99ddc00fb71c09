/** The health status of `vmp/server_metrics.py` and `vmp/api_server.py`:
    CPU and memory percentages are compared with two strict thresholds, the
    Warning test first and the Critical test after it, so a later match
    overrides an earlier one. */
module Health {
  import opened Common

  datatype Status = Healthy | Warning | Critical

  /** How bad a status is, for comparing statuses. */
  function Severity(s: Status): nat {
    match s
    case Healthy => 0
    case Warning => 1
    case Critical => 2
  }

  /** The status after both tests; over 95 on either reading is Critical,
      otherwise over 85 on either reading is Warning, otherwise Healthy. */
  function Classify(cpu: real, memory: real): (s: Status)
    ensures s == Critical <==> cpu > 95.0 || memory > 95.0
    ensures s == Warning <==> !(cpu > 95.0 || memory > 95.0) && (cpu > 85.0 || memory > 85.0)
    ensures s == Healthy <==> cpu <= 85.0 && memory <= 85.0
  {
    var afterWarningTest := if cpu > 85.0 || memory > 85.0 then Warning else Healthy;
    if cpu > 95.0 || memory > 95.0 then Critical else afterWarningTest
  }

  /** Higher readings never give a less severe status. */
  lemma ClassifyMonotone(cpu1: real, memory1: real, cpu2: real, memory2: real)
    requires cpu1 <= cpu2 && memory1 <= memory2
    ensures Severity(Classify(cpu1, memory1)) <= Severity(Classify(cpu2, memory2))
  {
  }

  /** The thresholds are strict: exactly 85 is still Healthy and exactly 95 is
      still Warning, on either reading. */
  lemma ThresholdsAreStrict(x: real)
    requires 0.0 <= x <= 85.0
    ensures Classify(85.0, x) == Healthy && Classify(x, 85.0) == Healthy
    ensures Classify(95.0, x) == Warning && Classify(x, 95.0) == Warning
  {
  }

  /** The status text of `vmp/server_metrics.py`. */
  function MetricsStatusText(s: Status): string {
    match s
    case Healthy => "Healthy \U{2705}"
    case Warning => "Warning \U{26A0}\U{FE0F}"
    case Critical => "Critical \U{1F534}"
  }

  /** The status text of `vmp/api_server.py`, whose warning sign lacks the
      emoji variation selector. */
  function ApiStatusText(s: Status): string {
    match s
    case Healthy => "Healthy \U{2705}"
    case Warning => "Warning \U{26A0}"
    case Critical => "Critical \U{1F534}"
  }

  /** The parts of a health answer the model keeps: the status text, the
      `ok` flag (absent where the server has no model assets) and the HTTP
      code. */
  datatype HealthAnswer = HealthAnswer(status: string, ok: Option<bool>, code: int)

  /** `health` of `vmp/server_metrics.py`: always answered with 200. */
  function MetricsHealth(cpu: real, memory: real): (r: HealthAnswer)
    ensures r.code == 200 && r.ok.None?
    ensures r.status == MetricsStatusText(Classify(cpu, memory))
  {
    HealthAnswer(MetricsStatusText(Classify(cpu, memory)), None, 200)
  }

  /** `health` of `vmp/api_server.py`: the same classification, and code 500
      exactly when one of the model, scaler and encoder failed to load. */
  function ApiHealth(cpu: real, memory: real, modelLoaded: bool, scalerLoaded: bool, encoderLoaded: bool): (r: HealthAnswer)
    ensures r.ok == Some(modelLoaded && scalerLoaded && encoderLoaded)
    ensures r.code == (if r.ok.value then 200 else 500)
    ensures r.status == ApiStatusText(Classify(cpu, memory))
  {
    var ok := modelLoaded && scalerLoaded && encoderLoaded;
    HealthAnswer(ApiStatusText(Classify(cpu, memory)), Some(ok), if ok then 200 else 500)
  }

  /** Both servers classify alike; only the warning text differs. */
  lemma ServersAgreeOnStatus(cpu: real, memory: real)
    ensures (MetricsHealth(cpu, memory).status == ApiHealth(cpu, memory, true, true, true).status)
            <==> Classify(cpu, memory) != Warning
  {
    var s := Classify(cpu, memory);
    if s == Warning {
      assert |MetricsStatusText(s)| != |ApiStatusText(s)|;
    }
  }
}

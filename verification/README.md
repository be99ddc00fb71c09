# VM placement core in Dafny

A model of the deterministic logic of a VM-consolidation project. The
project places virtual machines on hosts and serves machine-learning
predictions of the host a VM should run on. The model covers these parts:

- **Greedy weighted placement.** This is `score_hosts` in `vmp/scoring.py` and
  the mutating copy in `vmp/api_server.py`.
  - Hosts whose CPU or RAM capacity is below the VM's demand are dropped.
  - Among the rest, the host with the lowest
    `w_cpu * demand / capacity + w_energy * energy + w_cost * cost` wins.
  - A tie goes to the earliest host, because replacement needs a strictly
    lower score.
  - The mutating copy takes the demand off the chosen row.
  - `placement_results` places a list of VMs one after another on one
    shared table.
- **The fixture tables** of `vmp/simulate.py`, and the random tables the
  placement endpoint draws instead.
- **The health classifier** of `vmp/server_metrics.py` and
  `vmp/api_server.py`, with its strict 85/95 thresholds.
- **The model-asset server**, `vmp/server_ml.py`, whose `predict` handler
  `vmp/api_server.py` repeats:
  - loading the first candidate path that loads;
  - request validation and weight defaults;
  - the ratio features with their zero guards;
  - the proxy cost, energy and load-balance objectives and their weighted
    score.
- **The host-label rule** (Host1 / Host2 / Host3 by CPU and memory), shared by
  `vmp/generate_data.py` and `vmp/ml_model_comparison.py`. The row layout of
  the generated CSV file is modelled too.
- **The training pipeline of `vmp/ml_model_comparison.py`:**
  - synthetic samples;
  - derived features, label encoding and column selection;
  - the registry of seven regressors;
  - training on scaled or raw features;
  - grid-search tuning and its `dict.update`;
  - the file names models are saved under.
- **The endpoints of `vmp/ml_api_server.py`:**
  - the initialisation gate;
  - results and the performance ranking (first maximum by R², stable
    descending sort);
  - prediction with field checks, feature vector and best-model choice;
  - the mapping of a prediction to a host;
  - tuning.

Modelling conventions:

- **Foreign code is a parameter.** This covers estimators, the scaler, grid
  search, `joblib.load`, the file system, random draws, the clock and
  Python's float parser. Estimators are uninterpreted.
- **Python semantics are written out:**
  - dicts keep insertion order (`OrderedDict`);
  - `max(key=...)` keeps the first maximum;
  - `sort(reverse=True)` is stable;
  - `in` works on dicts, lists and strings;
  - `float()` and truthiness follow a JSON value's type;
  - `round` is round-half-even;
  - `LabelEncoder` keeps the sorted distinct classes.
- **Arithmetic is exact.** Values are `real`, and `float('inf')` sentinels
  are `Option`.
- **A handler is a function.** It maps the server state and the request to
  the new state and a `Result`, which is either the payload or the HTTP code
  and message.

## Model

| member | source | states |
|---|---|---|
| Scoring.ScoreHosts | vmp/scoring.py:11-35 | The answer is `None` exactly when no host passes the CPU/RAM filter. Otherwise it is the id of the greedy choice: a fitting row whose score no fitting row beats, and that is strictly better than every fitting row before it, so the earliest wins ties |
| Scoring.Score | vmp/scoring.py:20-29 | With non-negative weights, demand, energy and cost and a positive capacity the score is not negative |
| Scoring.ScoreFallsWithCapacity | vmp/scoring.py:20-29 | With a non-negative CPU weight and demand, more CPU capacity and otherwise the same figures never raises the score |
| Scoring.ScoreHostsFromIsGreedy | vmp/scoring.py:14-33 | The loop invariant. From any state the scan can reach after `i` rows, it ends with `None` exactly when no row fits, and otherwise with the id of the greedy choice of the whole table. The state is either nothing kept while no row so far fits, or the greedy choice so far with its score |
| Scoring.GreedyChoiceUnique | vmp/scoring.py:31-33 | Strict replacement makes the greedy choice unique: two rows that both satisfy it are the same row |
| Scoring.ScoreHostsReturnsFittingRow | vmp/scoring.py:16-33 | A returned id belongs to a row that passes the filter, whose score is at most that of every fitting row |
| Scoring.ScoreHostsNeverPicksUnfit | vmp/scoring.py:16-17 | With distinct host ids, the id of a row below the VM's CPU or RAM demand is never returned |
| Placement.ChooseFrom | vmp/api_server.py:30-42 | The index loop keeps its invariant: at the end it holds nothing when no row fits, and otherwise the greedy choice with its score |
| Placement.Choose | vmp/api_server.py:27-42 | `best_host_idx` is `None` exactly when no row fits, and otherwise is the greedy choice |
| Placement.PlaceVm | vmp/api_server.py:26-49 | Failure, when no row fits, answers "No suitable host" and leaves the table unchanged. Success charges exactly the greedy row: its CPU and RAM drop by the demands and stay at least 0, its id, energy and cost stay, and every other row is unchanged. The answer is that row's id |
| Placement.Deduct | vmp/api_server.py:44-46 | The charged row keeps its id, energy and cost, and its capacities plus the demands give the old capacities. They stay non-negative exactly when the row fit the VM |
| Placement.SameHostAsScoring | vmp/api_server.py:30-49 | The mutating `score_hosts` names the same host as the pure one on the same inputs. Its "No suitable host" corresponds to `None` |
| Placement.PositiveDemandScoresDefined | vmp/api_server.py:32-35 | With a positive CPU demand every row that passes the filter has a non-zero CPU capacity, so the score's division is defined |
| Placement.PlacementResults | vmp/api_server.py:229-237 | The run has one entry per VM, in VM order, each carrying its VM's id. Row ids, energy and cost never change, and every chosen index is a row of the table |
| Placement.PlacementStep | vmp/api_server.py:232-237 | The entry for VM `i` is what single-VM placement answers on the table left by VMs `0..i-1`, and the row chosen is the one it chose there |
| Placement.PlacementsNameChosenRows | vmp/api_server.py:44-49 | "No suitable host" is reported exactly when no row was chosen. Otherwise the reported host is the id of the chosen row |
| Placement.CapacityConservation | vmp/api_server.py:231-237 | Over a run, each row's CPU and RAM capacity drops by exactly the sum of the demands of the VMs placed on it |
| Placement.UntouchedRowKeepsCapacity | vmp/api_server.py:44-47 | A row that no VM of the run chose ends the run with its original capacities |
| Placement.FitsSomewherePlaced | vmp/api_server.py:32-47 | A VM that fits some row is given a host |
| Placement.AllPlacedWhenEveryRowHasRoom | vmp/api_server.py:231-237 | Suppose the table is non-empty, CPU demands are positive, RAM demands are not negative, and every row has room for all VMs together. Then every VM is placed, whatever the weights |
| Placement.QueryWeights | vmp/api_server.py:224-227 | Each weight is read from the query with its own default (cpu 0.4, energy 0.3, cost 0.3). The weights exist exactly when every given value parses |
| Placement.PlacementEndpoint | vmp/api_server.py:222-239 | The endpoint answers exactly when the weights parse. It then gives the run's three entries for the drawn tables |
| Placement.GeneratedTablesPlaceEveryVm | vmp/api_server.py:54-70 | On tables drawn as the endpoint draws them (five hosts with CPU ≥ 50 and RAM ≥ 64, three VMs with demands of at most 20 and 32), every VM is placed, whatever the weights |
| Simulate.GenerateHosts | vmp/simulate.py:3-10 | For 0 ≤ n ≤ 5 the result is n hosts H1..Hn whose columns are the length-n prefixes of the fixed lists. The columns disagree in length for n > 5 and for -5 < n < 0, so the data frame refuses them, and n ≤ -5 gives an empty table |
| Simulate.GenerateVms | vmp/simulate.py:13-18 | For 0 ≤ n ≤ 3 the result is VM1..VMn with the prefix demands, and the same column-length rule applies otherwise |
| Simulate.SlicePrefix | vmp/simulate.py:6-9 | `xs[:n]` is a prefix of `xs`: of length n for 0 ≤ n ≤ len(xs), all of `xs` beyond that, and len(xs) + n elements (none when that is not positive) for negative n |
| Common.NatToString | vmp/simulate.py:5 | `str(n)` is a non-empty string of decimal digits without a leading zero that reads back as n |
| Simulate.HostIdsDistinct | vmp/simulate.py:5 | The generated host ids are pairwise distinct |
| Simulate.FixtureTotals | vmp/simulate.py:6-17 | The three fixture VMs need 39 CPU and 66 RAM together, and every fixture host has room for all three |
| Simulate.FixturesAllPlaced | vmp/simulate.py:3-18 | Placing the three fixture VMs on the five fixture hosts places every VM, for any weights |
| Health.Classify | vmp/server_metrics.py:38-42 | Critical exactly when CPU or memory is over 95. Warning exactly when neither is over 95 but one is over 85. Healthy exactly when both are at most 85 |
| Health.ClassifyMonotone | vmp/server_metrics.py:39-42 | Higher CPU or memory never gives a less severe status |
| Health.ThresholdsAreStrict | vmp/server_metrics.py:39-42 | Exactly 85 is still Healthy and exactly 95 is still Warning, on either reading |
| Health.MetricsHealth | vmp/server_metrics.py:36-43 | The answer code is 200 whatever the status, it has no `ok` field, and the status is the classifier's |
| Health.ApiHealth | vmp/api_server.py:114-131 | `ok` is present and holds exactly when model, scaler and encoder all loaded. The code is 200 when `ok` and 500 otherwise, and the status is the classifier's |
| Health.ServersAgreeOnStatus | vmp/api_server.py:118-122 | The two servers give the same status text except for Warning, where their warning signs differ |
| HostRule.HostLabel | vmp/ml_model_comparison.py:84-89 | Host1 exactly when cpu ≤ 33 and memory ≤ 11. Host2 exactly when that fails but cpu ≤ 66 and memory ≤ 22. Host3 otherwise. The label is always one of the three |
| HostRule.HostLabelMonotone | vmp/generate_data.py:20-25 | More CPU or more memory never moves a sample to a lower host |
| HostRule.HostLabelCode | vmp/ml_model_comparison.py:108-113 | Suppose the host encoder is fitted to a column holding exactly the three labels. Then it codes each sample's label as its rank, Host1 as 0, Host2 as 1 and Host3 as 2 |
| LabelCoding.Fit | vmp/ml_model_comparison.py:111-112 | The fitted classes are strictly ascending and are exactly the values of the column |
| LabelCoding.StrLessIrreflexive | vmp/ml_model_comparison.py:111-112 | No string is less than itself under Python's string order |
| LabelCoding.StrLessTransitive | vmp/ml_model_comparison.py:111-112 | Python's string order is transitive |
| LabelCoding.StrLessTotal | vmp/ml_model_comparison.py:111-112 | Of two different strings one is less than the other |
| LabelCoding.Insert | vmp/ml_model_comparison.py:111-112 | Inserting into strictly ascending classes keeps them strictly ascending and adds exactly the new name |
| LabelCoding.IndexOf | vmp/server_ml.py:78-81 | A position is found exactly when the name is present, and the name sits at that position |
| LabelCoding.Transform | vmp/server_ml.py:78-81 | A name is coded exactly when it is a class, and its code is its position among the classes |
| LabelCoding.InverseTransform | vmp/ml_api_server.py:219 | A code is decoded exactly when it is a valid position among the classes |
| LabelCoding.CodingRoundTrip | vmp/ml_model_comparison.py:111-112 | Decoding an encoded name gives the name back. On sorted classes, encoding a decoded code gives the code back |
| LabelCoding.HostLabelCodes | vmp/ml_model_comparison.py:108-113 | A host column holding exactly the three labels is fitted to the classes Host1, Host2, Host3 in that order |
| Objectives.Ratio | vmp/api_server.py:171-172 | Both ratio features (cpu per memory, power per cpu): the result is 0 when the denominator is 0. Otherwise it is the quotient, with result × denominator = numerator |
| Objectives.ProxyCost | vmp/api_server.py:182 | The cost is not negative for non-negative power and CPU. Network traffic up to 1 adds nothing |
| Objectives.ProxyEnergy | vmp/api_server.py:183 | The energy is not negative for non-negative power and CPU |
| Objectives.ProxyLoadBalance | vmp/api_server.py:184 | The load balance lies in [0, 100]. It is 100 exactly when CPU equals memory capped at 100, and 0 exactly when they differ by 100 or more |
| Objectives.NormCost | vmp/api_server.py:186 | The normalised cost is at most 1, and equals 1 exactly when the cost is at least 200. Below that it is the cost over 200, and it is not negative for a non-negative cost |
| Objectives.NormEnergy | vmp/api_server.py:187 | The normalised energy is at most 1, and equals 1 exactly when the energy is at least 300. Below that it is the energy over 300, and it is not negative for a non-negative energy |
| Objectives.NormLoad | vmp/api_server.py:188 | The imbalance is at least 0, and at most 1 for a non-negative load balance. For a balance of at most 100 it is (100 − balance)/100 |
| Objectives.ObjectivesOf | vmp/api_server.py:182-189 | The cost, energy and load balance are the three proxies, with the load balance in [0, 100]. With non-negative weights, CPU and power the weighted score lies in [0, w_cost + w_energy + w_load], and in [0, 1] with the handlers' default weights 0.34, 0.33 and 0.33 |
| Objectives.WeightedScore | vmp/api_server.py:189 | With non-negative weights and terms in [0, 1] the weighted sum lies between 0 and the sum of the weights |
| Objectives.WeightedScoreMonotone | vmp/api_server.py:189 | With non-negative weights, raising the cost or energy term never lowers the score |
| Objectives.ScoreRisesWithPower | vmp/api_server.py:182-189 | With non-negative weights, more power never lowers the weighted score |
| Objectives.NormalisedTermsInUnitInterval | vmp/api_server.py:186-188 | For non-negative CPU and power all three normalised terms lie in [0, 1], whatever memory and network readings |
| Objectives.WeightedScoreInRange | vmp/api_server.py:189 | With non-negative weights, CPU and power, the weighted score lies in [0, w_cost + w_energy + w_load] |
| AssetServer.TryLoad | vmp/server_ml.py:11-18 | The path is absent exactly when no candidate is both present and loadable. Otherwise the answer is the first candidate that is, with its loaded asset. The asset is present exactly when the path is |
| AssetServer.LoadFirst | vmp/api_server.py:89-95 | A loaded encoder is the load of one of the candidate paths |
| AssetServer.LoadersAgree | vmp/api_server.py:89-95 | When only present files load, the encoder loop of `api_server.py` loads the same encoder as `_try_load` |
| AssetServer.AssetHealth | vmp/server_ml.py:41-49 | `ok` and code 200 hold exactly when model, scaler and encoder all loaded. The code is 500 otherwise |
| AssetServer.VmNames | vmp/server_ml.py:51-56 | Without an encoder the answer is 500 "Encoder not loaded". Otherwise the list has one name per class, name `i` is what code `i` decodes to, the listed names are exactly those the encoder can code, and on a sorted encoder name `i` codes to `i` |
| AssetServer.Str | vmp/server_ml.py:65 | `str()` of a JSON string is the string itself, and of a missing value is "None" |
| AssetServer.PayloadOf | vmp/server_ml.py:63 | A missing body and a falsy JSON value both become the empty object. A truthy body is kept |
| AssetServer.ReadInputs | vmp/server_ml.py:64-71 | Reading succeeds exactly when the payload is an object whose four numeric fields all convert with `float()`. Each value read is that conversion, and the VM name is `str()` of the `vm` entry |
| AssetServer.ReadInputsRoundTrip | vmp/server_ml.py:64-69 | Reading the request a client builds from given inputs gives those inputs back |
| AssetServer.MissingNumberRefused | vmp/server_ml.py:66-71 | A request that lacks one of the four numbers, or has `null`, a list or an object there, is refused |
| Objectives.DefaultWeightsSumToOne | vmp/server_ml.py:73-76 | The default weights 0.34, 0.33 and 0.33 are non-negative and sum to 1 |
| AssetServer.WeightOf | vmp/server_ml.py:74-76 | A missing key gives its default. A present key is converted with `float()`, even when its value is `null` |
| AssetServer.ReadWeights | vmp/server_ml.py:73-76 | A falsy or missing `weights` entry gives the defaults. A truthy entry that is not an object is an error. For an object, each key falls back to its own default, and the result exists exactly when all three convert |
| AssetServer.PartialWeightsKeepDefaults | vmp/server_ml.py:73-76 | Giving only the cost weight keeps the energy and load defaults |
| AssetServer.Features | vmp/server_ml.py:83-91 | The feature row has the seven columns in frame order, with the VM code first. Its ratios are quotients when the divisor is non-zero and 0 otherwise |
| AssetServer.Predict | vmp/server_ml.py:58-127 | Missing assets give 500 before the payload is read, invalid fields give 400, and an unusable `weights` value is an unhandled 500. An unknown VM gives 400. Success happens exactly when all checks and the model pass. It echoes the inputs, reports the weights used and the model's host, and attaches the objectives for those inputs |
| AssetServer.HostIgnoresWeights | vmp/server_ml.py:73-98 | Two requests that differ only in their weights get the same host and the same echo |
| AssetServer.PredictScoreInRange | vmp/server_ml.py:100-108 | Take a successful answer with non-negative weights, CPU and power. Its weighted score lies in [0, sum of weights], and in [0, 1] with the default weights |
| GenerateData.File | vmp/generate_data.py:10-13 | The file has one header row plus 100000 × 10 data rows |
| GenerateData.FileLayout | vmp/generate_data.py:10-13 | The header comes first. Data row `k` belongs to round `k / 10` and VM `k % 10 + 1`, so each round writes VM1..VM10 in order |
| GenerateData.Row | vmp/generate_data.py:19-35 | A row has one cell per header column, and its host cell names one of the three hosts, Host1 exactly when small and Host3 exactly when large |
| GenerateData.FieldsFollowHeader | vmp/generate_data.py:27-35 | Reading a data row by header name gives back the clock, VM, rule's host and drawn metrics. The cells are in the header's order |
| GenerateData.RowsFollowTheRule | vmp/generate_data.py:14-25 | Every data row's host is one of the hosts list and follows the threshold rule, and its metrics lie in the inclusive drawn ranges |
| GenerateData.SameNamesAsTraining | vmp/generate_data.py:5-6 | The file's host list equals the encoder's host labels, and its VM names are the synthetic data's VM names |
| ModelComparison.SyntheticVmNamesCycle | vmp/ml_model_comparison.py:71 | VM names repeat with period 10, and two samples share a name exactly when their indices agree mod 10 |
| ModelComparison.SyntheticData | vmp/ml_model_comparison.py:61-91 | There are 10000 samples. Sample `i` is named VM(i mod 10 + 1), carries its draws, and is labelled by the host rule with one of the three labels |
| ModelComparison.SyntheticSamplesInRange | vmp/ml_model_comparison.py:66-75 | When every draw lies in the ranges of `uniform` and the exclusive-bound `randint` calls (cpu 10..90, memory 1..32, power 100..300, network_io in [0.1, 5.0]), every synthetic sample lies in those ranges and is labelled by the host rule on its own metrics |
| ModelComparison.SyntheticHostEncoder | vmp/ml_model_comparison.py:84-113 | When the draws include a small, a medium and a large sample, the host encoder fitted to the synthetic data has the classes Host1, Host2, Host3 in that order and codes every sample's host as its rank |
| ModelComparison.HostColumn | vmp/ml_model_comparison.py:112 | The host column has one entry per sample, the sample's host |
| ModelComparison.AddColumn | vmp/ml_model_comparison.py:103-105 | Assigning a column adds it, and an existing column keeps its place |
| ModelComparison.WithDerived | vmp/ml_model_comparison.py:103-105 | After the three derived columns are added, the columns are the old ones plus the derived ones |
| ModelComparison.PreparedColumns | vmp/ml_model_comparison.py:102-113 | Preparation fails exactly when cpu, memory or power is missing. Otherwise the columns are the old ones, the three derived ones, and `vm_encoded` / `host_encoded` exactly when `vm` / `host` exist |
| ModelComparison.KeepPresent | vmp/ml_model_comparison.py:120 | The selection is exactly the candidates present, in the candidates' order, and is all candidates when all are present |
| ModelComparison.SelectFeatures | vmp/ml_model_comparison.py:116-120 | The selected features are exactly the training features present, in canonical order |
| ModelComparison.AllFeaturesSelected | vmp/ml_model_comparison.py:116-122 | Data with the raw columns and `vm` is trained on all eight features in order |
| ModelComparison.FeaturesWithoutVm | vmp/ml_model_comparison.py:116-120 | Without a `vm` column, exactly `vm_encoded` is dropped |
| ModelComparison.TargetColumn | vmp/ml_model_comparison.py:123 | The target is a prepared column. There is none exactly when neither `host_encoded` nor `host` exists |
| ModelComparison.TargetIsEncodedHost | vmp/ml_model_comparison.py:108-123 | Data with a host column is trained against `host_encoded` |
| ModelComparison.CpuMemoryRatio | vmp/ml_model_comparison.py:103 | The ratio is a number exactly when memory + 1 ≠ 0, and then ratio × (memory + 1) = cpu |
| ModelComparison.ResourceIntensity | vmp/ml_model_comparison.py:104 | The intensity lies between CPU and memory, and twice it is their sum |
| ModelComparison.PowerEfficiency | vmp/ml_model_comparison.py:105 | The efficiency is a number exactly when cpu + 1 ≠ 0, and then efficiency × (cpu + 1) = power |
| ModelComparison.DerivedFeaturesBounded | vmp/ml_model_comparison.py:103-105 | For non-negative metrics both quotients are defined, not negative, and no larger than the quantity divided |
| ModelComparison.ColumnValue | vmp/ml_model_comparison.py:103-117 | A non-feature column has no value. The ratio column is the guarded ratio, and `vm_encoded` is the VM's code |
| ModelComparison.EncodeColumn | vmp/ml_model_comparison.py:111-112 | `fit_transform` gives one code per value, and the fitted encoder decodes each code back to its value |
| ModelComparison.RegistryNamesDistinct | vmp/ml_model_comparison.py:147-155 | The registry has seven entries with pairwise distinct names, starting with distinct capitals |
| ModelComparison.TrainModels | vmp/ml_model_comparison.py:161-182 | Training completes exactly when every model fits, each on scaled data exactly when it is KNN, SVR or Neural Network. Entries of names not trained are untouched. On completion each name holds its fit's metrics |
| ModelComparison.ScaledRegistryEntries | vmp/ml_model_comparison.py:147-166 | Of the seven registered models exactly K-Nearest Neighbors, Support Vector Regression and the Neural Network use the standardised features |
| ModelComparison.TrainUniqueKeys | vmp/ml_model_comparison.py:177-182 | Training never duplicates a result key |
| ModelComparison.TrainedInOrder | vmp/ml_model_comparison.py:161-182 | Training distinct fresh names to completion appends their results in name order |
| ModelComparison.TunedModels | vmp/ml_model_comparison.py:191-220 | The six grids name the first six registry models, pairwise distinct, and not the neural network |
| ModelComparison.TuningScalesLikeTraining | vmp/ml_model_comparison.py:227 | A grid search uses scaled data exactly when the model was trained on scaled data |
| ModelComparison.SearchOne | vmp/ml_model_comparison.py:229-239 | A search fails for an unregistered model. Otherwise it is the search of that model's estimator, scaled exactly for KNN and SVR |
| ModelComparison.SearchAll | vmp/ml_model_comparison.py:222-243 | All searches succeed exactly when each does. The results are keyed by the grids' models in grid order, each being that grid's search |
| ModelComparison.Tune | vmp/ml_model_comparison.py:186-245 | Tuning succeeds exactly when all searches do. Keys are unchanged, models without a grid are unchanged, and each grid's model becomes its search result |
| ModelComparison.UpdateWithTuned | vmp/ml_model_comparison.py:245 | `models.update(tuned)` keeps the keys and untuned models, and sets each tuned model to its search result |
| ModelComparison.NeuralNetworkNotTuned | vmp/ml_model_comparison.py:191-245 | Tuning leaves the neural network's estimator unchanged |
| ModelComparison.FileNameShape | vmp/ml_model_comparison.py:358 | A saved file name has no spaces, and its eighth character is the model name's first character, lower-cased |
| ModelComparison.FileName | vmp/ml_model_comparison.py:358 | The name is "models/", then the model name with spaces as underscores and other characters lower-cased, then "_model.pkl" |
| ModelComparison.FileNamesDiffer | vmp/ml_model_comparison.py:358 | Names starting with different capitals are saved to different files |
| ModelComparison.SavedFilesDistinct | vmp/ml_model_comparison.py:357-358 | The seven registry models are saved to seven different files |
| ModelComparison.ToScored | vmp/ml_api_server.py:83-88 | The performance view has one entry per result with its name and metrics, and distinct keys give distinct names |
| Common.FloatOf | vmp/server_ml.py:66-69 | `float()` of a number is the number, and of a boolean is 1.0 or 0.0. `null`, lists and objects raise |
| Common.Lower | vmp/ml_model_comparison.py:358 | `lower()` keeps the length and lower-cases each ASCII capital |
| Common.ReplaceChar | vmp/ml_model_comparison.py:358 | `replace(' ', '_')` keeps the length and swaps exactly the spaces |
| OrderedDict.Find | vmp/ml_api_server.py:214 | A lookup finds a value exactly when the key is present, and the value is stored under that key |
| OrderedDict.Assign | vmp/ml_model_comparison.py:177-182 | After `d[k] = v`, `k` maps to `v` and other keys keep their values. An existing key keeps its place and a new key is appended, and keys stay unique |
| OrderedDict.Update | vmp/ml_model_comparison.py:245 | Keys not in the update keep their values. When every updated key exists, the key order is unchanged, and keys stay unique |
| OrderedDict.UpdateSets | vmp/ml_model_comparison.py:245 | After an update with unique keys, each updated key holds its new value |
| Ranking.FirstMax | vmp/ml_api_server.py:212-213 | `max(key=R2)` is the index whose key no element exceeds and every earlier element's key is below. There is none only for an empty sequence |
| Ranking.FirstMaxUnique | vmp/ml_api_server.py:89-90 | Only one index is the first maximum |
| Ranking.SortDesc | vmp/ml_api_server.py:94 | The sort is descending by R² and a permutation (same multiset) of its input |
| Ranking.SortDescStable | vmp/ml_api_server.py:94 | Elements with equal R² keep their original order |
| Ranking.SortHeadIsFirstMax | vmp/ml_api_server.py:89-99 | The head of the sorted list is the element `max` picks |
| Ranking.CountSort | vmp/ml_api_server.py:94 | Sorting keeps the number of elements with any property |
| Ranking.Entries | vmp/ml_api_server.py:83-91 | There is one entry per result with its name and R², flagged best exactly when its name is the one `max` picks |
| Ranking.Summary | vmp/ml_api_server.py:82-100 | The metrics are the entries, permuted into descending R² order. `best_model` is absent exactly for no results, and otherwise is the first-max name, which heads the list flagged best |
| Ranking.ExactlyOneBest | vmp/ml_api_server.py:89-91 | With distinct names exactly one entry is flagged best, before and after sorting |
| MlApi.BuildModels | vmp/ml_model_comparison.py:143-155 | One estimator per registry entry, keyed by the registry names in order, keys unique |
| MlApi.TrainRegistry | vmp/ml_api_server.py:29-30 | Training the fresh registry completes exactly when every entry's estimator fits with its scaling. Then the results are keyed by the registry names in order, each holding its entry's metrics |
| MlApi.InitializeAsWritten | vmp/ml_api_server.py:21-51 | As written, the comparison global is always set, with the loaded encoders and the results trained so far (none when the load fails). It succeeds exactly when the load and every fit succeed, and a failure (500) leaves the results global as it was |
| MlApi.FailedInitializeOpensGates | vmp/ml_api_server.py:27-30 | A failed load on a fresh server leaves the two globals out of step. Performance answers success with an empty list, while results still says not initialised |
| MlApi.Initialize | vmp/ml_api_server.py:21-51 | Success happens exactly when loading and training succeed, and sets both globals together, answering the registry names. Failure (500) changes nothing, and the globals stay in step |
| MlApi.GetMlResults | vmp/ml_api_server.py:53-67 | The answer is 400 with the "call initialize first" message exactly when there is no results table, and otherwise that table |
| MlApi.GetPerformanceMetrics | vmp/ml_api_server.py:69-106 | The answer is 400 exactly without a comparison. Otherwise it is the summary of the comparison's results: the entries descending by R², with `best_model` the first maximum and absent exactly for no results. With unique keys, exactly one entry is flagged best |
| MlApi.Contains | vmp/ml_api_server.py:170 | `field in data` is key membership for an object and is undefined (raises) for numbers, booleans and `null` |
| MlApi.IsSubstring | vmp/ml_api_server.py:170 | `a in s` on strings holds exactly when `a` occurs in `s` at some position |
| MlApi.CheckFields | vmp/ml_api_server.py:168-174 | All fields pass exactly when each is in the data. Otherwise the reported field is the first one missing, after all earlier fields were found |
| MlApi.FirstMissingNamed | vmp/ml_api_server.py:168-174 | On an object body the reported field is the first required field that is absent |
| MlApi.ReadMetrics | vmp/ml_api_server.py:177-180 | The four numbers are read exactly when each converts with `float()`, and cpu, memory, network_io and power are each their field's conversion |
| MlApi.VmCode | vmp/ml_api_server.py:188-191 | Without a VM encoder the code is 0. With one, the code exists exactly for a known VM name and decodes back to it |
| MlApi.FeatureVector | vmp/ml_api_server.py:183-197 | The vector has eight entries, and entry `i` is the value of training feature column `i`, so the order matches training |
| MlApi.PredictAll | vmp/ml_api_server.py:199-209 | Every model predicts, in model order, each on scaled features exactly when it was trained on them. The whole step fails exactly when one prediction does |
| MlApi.RoundHalfEven | vmp/ml_api_server.py:219 | `round` gives an integer within one half of the value, and the even one at an exact half |
| MlApi.RoundIsNearest | vmp/ml_api_server.py:219 | An integer nearer than one half is the rounded value |
| MlApi.ThresholdHost | vmp/ml_api_server.py:220-227 | Host1 exactly for p ≤ 0.5, Host2 exactly for 0.5 < p ≤ 1.5, Host3 exactly above 1.5, always one of the three labels |
| MlApi.ThresholdHostMonotone | vmp/ml_api_server.py:222-227 | A larger prediction never maps to a lower host |
| MlApi.HostFor | vmp/ml_api_server.py:216-227 | Without a host encoder the host is the thresholds' answer. With one, it is decoded exactly when the rounded prediction is a valid code, and it is then the class at that code, which a sorted encoder codes back to the rounded prediction |
| MlApi.BestPrediction | vmp/ml_api_server.py:212-214 | There is a best prediction exactly when there are results and the model `max` picks by R² has a prediction |
| MlApi.EncoderAgreesWithThresholds | vmp/ml_api_server.py:216-227 | With the encoder fitted to Host1, Host2 and Host3, a prediction is decoded exactly when it lies in [-0.5, 2.5], and there the decoded host equals the thresholds' host exactly when the prediction is not 1.5 |
| MlApi.Decide | vmp/ml_api_server.py:211-237 | It succeeds exactly when the best model by R² has a prediction that maps to a host, and fails with 500 otherwise. A success keeps all predictions. When the predictions cover the models, the best model is the first with the highest R², the confidence is that R², and the host is what that model's prediction maps to |
| MlApi.Answer | vmp/ml_api_server.py:183-237 | It succeeds exactly when neither divisor (memory + 1, cpu + 1) is zero, the VM codes, every model predicts and the decision succeeds. A zero divisor and an unknown VM name with an encoder fail with 500. Success carries the best-model answer |
| MlApi.PredictPlacement | vmp/ml_api_server.py:152-243 | The answer is 400 while uninitialised, and 400 naming the first missing required field on an object body. On an initialised server and an object body holding the four fields, it succeeds exactly when the four numbers convert and the answer for them and the request's VM (VM1 when absent) succeeds, and a success is that answer. Every failure is 400 or 500 |
| MlApi.VmOf | vmp/ml_api_server.py:181 | The VM is the request's `vm` value when present and "VM1" otherwise |
| MlApi.VmDefaultsToVM1 | vmp/ml_api_server.py:181 | A request without `vm` gets the same answer as the same request with `"vm": "VM1"` |
| MlApi.RunTuning | vmp/ml_api_server.py:245-280 | The answer is 400 while uninitialised, and a failed search is 500 with nothing changed. It succeeds exactly when the search succeeds and every tuned model retrains. Once the search succeeds, the stored models are the tuned ones and the stored results are the retraining's, partial ones included, even when retraining fails. A failure never changes the published results. Success publishes the retrained results, keeps the model keys and the neural network, and the globals stay in step |
| MlApi.TunedResultsPublished | vmp/ml_api_server.py:257-268 | After successful tuning each model's published metrics are those of its stored, tuned estimator |

## Left out

- HTTP plumbing is not modelled: Flask routing, CORS, JSON serialisation, logging and printing. Requests and answers are datatypes.
- psutil readings are not modelled. CPU and memory percentages are inputs of the health classifier.
- Foreign computations are parameters: file system presence, `joblib.load` and `joblib.dump`, scikit-learn and XGBoost estimators, `StandardScaler`, `GridSearchCV`, the metrics functions, and the train/test split. Estimators are uninterpreted.
- Random draws and the clock are parameters, and so are the seed-42 numpy stream and `time.time()`. Draw ranges appear as predicates (`GenerateData.ValidDraw`, `ModelComparison.ValidSampleDraw`).
- The host and VM tables that the `hosts` and `incoming_vms` endpoints return, and the sample of `simulate_vm`, are random output. They are left out; the ranges of the drawn tables are modelled.
- The `feature-importance`, `dataset-info` and `health` endpoints of `vmp/ml_api_server.py` are not modelled: they report library state (feature importances, data frame shape).
- `load_and_preprocess_data`, `split_data`, `evaluate_models`, the plotting methods and `run_complete_analysis` of `vmp/ml_model_comparison.py` are left out. They are CSV I/O, splitting, plotting and orchestration. Their outcome is the `DataLoad` parameter.
- `vmp/app.py`, `vmp/run_ml_analysis.py` and the `start_*.py` scripts are not part of this model. They are a UI and process orchestration.
- Non-finite floats are not modelled: NaN, infinities, and JSON `NaN`/`Infinity`.
- Objectives.ObjectivesOf: the `round(..., 2)` and `round(..., 3)` of the answer are not modelled. Values are exact reals and the bounds hold before rounding.
- Scoring.ScoreHosts: requires every row passing the filter to have non-zero CPU capacity. numpy would give an infinite or NaN score there, and IEEE comparison is not modelled.
- Placement.PlacementResults: requires positive CPU demands so that every step's scores are defined. The endpoint draws demands 4..20 and the fixtures have 8, 16 and 15.
- AssetServer.Predict: an error that Flask turns into its default page is `Failure(500, "Internal Server Error")`, and the page body is not modelled. `float()` of a string and `str()` of a number, list or object are parameters.
- MlApi.PredictPlacement: the messages of caught exceptions are the fixed prefix ("Error making prediction") without the exception text.
- MlApi.RunTuning: the failure message is the fixed prefix without the exception text. The `best_params_` and score printing is left out.
- ModelComparison.TrainModels: the `predictions` array stored with each result is left out. The metrics come from the `fit` parameter.
- MlApi.InitializeAsWritten: fitting an estimator does not change the stored value. In the source `fit` changes the estimator in place, so after a failed training the estimators not yet fitted raise on `predict`; here whether a prediction succeeds is up to the `predict` parameter alone.
- Common.Lower: only ASCII capitals are lower-cased. Python's `str.lower()` also lower-cases other letters; the seven registry names are ASCII.
- ModelComparison.SyntheticData: saving the data set with `to_csv` is left out; the samples are the model's output.
- GenerateData.File: writing the CSV text (number formatting, quoting) is left out. The rows are cell values.

## Findings

| source | as written | input that shows it | evidently intended | confidence | as-written member | corrected member |
|---|---|---|---|---|---|---|
| vmp/ml_api_server.py:27-30 | `initialize_ml_models` stores the new comparison object in the global before loading data and training, so a failure leaves a half-built object behind | a first `POST /api/ml/initialize` on a fresh server whose data load raises: afterwards `/api/ml/performance` answers success with an empty list while `/api/ml/results` still answers 400 | a failed initialisation leaves both globals as they were, so the endpoints agree on whether the models are initialised | not executed | MlApi.InitializeAsWritten | MlApi.Initialize |

The failing case for the as-written version is proved by MlApi.FailedInitializeOpensGates. MlApi.Initialize keeps the two globals in step.

The host mapping of `predict_vm_placement` has another oddity. When the host encoder is present, a prediction is rounded and decoded, and otherwise it goes through thresholds. With an encoder fitted to the three labels, the two mappings agree everywhere on [-0.5, 2.5] except at exactly 1.5. There the encoder path gives Host3, because round-half-even rounds 1.5 to 2, while the thresholds give Host2. MlApi.EncoderAgreesWithThresholds states this. It is not listed as a finding, since the two paths need not have been meant to agree.

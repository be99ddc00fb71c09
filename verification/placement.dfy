/** The placement endpoint of `vmp/api_server.py`: a second `score_hosts`
    that remembers the index of the best row, takes the VM's demand off that
    row's capacities and answers "No suitable host" when nothing fits, and
    `placement_results`, which places a list of VMs one after another on one
    shared host table. */
module Placement {
  import opened Common
  import opened Scoring

  /** What the endpoint reports for one VM: a host id, or the text
      "No suitable host". */
  datatype Assignment = Assigned(hostId: string) | NoSuitableHost

  function AssignmentText(a: Assignment): string {
    match a
    case Assigned(id) => id
    case NoSuitableHost => "No suitable host"
  }

  /** The running best of the scan: `best_host_idx` and `best_score`. */
  datatype Candidate = Candidate(index: nat, score: real)

  /** After the first `i` rows the scan holds nothing when none of them fits,
      and otherwise the greedy choice among them together with its score. */
  predicate Kept(hosts: seq<Host>, vm: Vm, w: Weights, i: nat, best: Option<Candidate>)
    requires i <= |hosts|
    requires ScoresDefined(hosts, vm)
  {
    match best
    case None => forall j :: 0 <= j < i ==> !Fits(hosts[j], vm)
    case Some(c) =>
      && IsGreedyWithin(hosts, vm, w, i, c.index)
      && c.score == Score(hosts[c.index], vm, w)
  }

  /** The loop of lines 30-42 from row `i` on. */
  function ChooseFrom(hosts: seq<Host>, vm: Vm, w: Weights, i: nat, best: Option<Candidate>): (r: Option<Candidate>)
    requires i <= |hosts|
    requires ScoresDefined(hosts, vm)
    requires Kept(hosts, vm, w, i, best)
    ensures Kept(hosts, vm, w, |hosts|, r)
    decreases |hosts| - i
  {
    if i == |hosts| then best
    else
      var host := hosts[i];
      if host.cpuCapacity < vm.cpuDemand || host.ramCapacity < vm.ramDemand then
        ChooseFrom(hosts, vm, w, i + 1, best)
      else
        var total := Score(host, vm, w);
        if best.None? || total < best.value.score then
          assert IsGreedyWithin(hosts, vm, w, i + 1, i);
          ChooseFrom(hosts, vm, w, i + 1, Some(Candidate(i, total)))
        else
          assert IsGreedyWithin(hosts, vm, w, i + 1, best.value.index);
          ChooseFrom(hosts, vm, w, i + 1, best)
  }

  /** The index the scan settles on: none exactly when no row fits, and
      otherwise the greedy choice. */
  function Choose(hosts: seq<Host>, vm: Vm, w: Weights): (r: Option<nat>)
    requires ScoresDefined(hosts, vm)
    ensures r.None? <==> NoHostFits(hosts, vm)
    ensures r.Some? ==> IsGreedyChoice(hosts, vm, w, r.value)
  {
    match ChooseFrom(hosts, vm, w, 0, None)
    case None => None
    case Some(c) => Some(c.index)
  }

  /** The row after the VM's demand has been taken off its capacities. */
  function Deduct(h: Host, vm: Vm): (r: Host)
    ensures r.hostId == h.hostId && r.energy == h.energy && r.cost == h.cost
    ensures r.cpuCapacity + vm.cpuDemand == h.cpuCapacity && r.ramCapacity + vm.ramDemand == h.ramCapacity
    ensures Fits(h, vm) <==> r.cpuCapacity >= 0 && r.ramCapacity >= 0
  {
    h.(cpuCapacity := h.cpuCapacity - vm.cpuDemand, ramCapacity := h.ramCapacity - vm.ramDemand)
  }

  /** `after` is `before` with exactly row `k` charged for the VM: that row's
      CPU and RAM capacities drop by the demands, its id, energy and cost stay,
      and every other row is untouched. */
  predicate OnlyDeducted(before: seq<Host>, after: seq<Host>, vm: Vm, k: nat) {
    && |after| == |before|
    && k < |before|
    && after[k].hostId == before[k].hostId
    && after[k].energy == before[k].energy
    && after[k].cost == before[k].cost
    && after[k].cpuCapacity == before[k].cpuCapacity - vm.cpuDemand
    && after[k].ramCapacity == before[k].ramCapacity - vm.ramDemand
    && forall j :: 0 <= j < |before| && j != k ==> after[j] == before[j]
  }

  /** One call of the mutating `score_hosts`: the answer, the row index it
      chose (`best_host_idx`), and the host table afterwards. */
  datatype Placed = Placed(assignment: Assignment, chosen: Option<nat>, hosts: seq<Host>)

  function PlaceVm(hosts: seq<Host>, vm: Vm, w: Weights): (r: Placed)
    requires ScoresDefined(hosts, vm)
    ensures |r.hosts| == |hosts|
    ensures r.chosen.None? <==> NoHostFits(hosts, vm)
    ensures r.chosen.None? ==> r.assignment == NoSuitableHost && r.hosts == hosts
    ensures r.chosen.Some? ==>
              var k := r.chosen.value;
              && IsGreedyChoice(hosts, vm, w, k)
              && r.assignment == Assigned(hosts[k].hostId)
              && OnlyDeducted(hosts, r.hosts, vm, k)
              && r.hosts[k].cpuCapacity >= 0
              && r.hosts[k].ramCapacity >= 0
  {
    match Choose(hosts, vm, w)
    case None => Placed(NoSuitableHost, None, hosts)
    case Some(k) => Placed(Assigned(hosts[k].hostId), Some(k), hosts[k := Deduct(hosts[k], vm)])
  }

  /** Both versions of `score_hosts` pick the same host: the pure one answers
      `None` exactly when the mutating one answers "No suitable host", and the
      same id otherwise. */
  lemma SameHostAsScoring(hosts: seq<Host>, vm: Vm, w: Weights)
    requires ScoresDefined(hosts, vm)
    ensures ScoreHosts(hosts, vm, w) ==
            match PlaceVm(hosts, vm, w).assignment
            case Assigned(id) => Some(id)
            case NoSuitableHost => None
  {
    var p := PlaceVm(hosts, vm, w);
    var s := ScoreHosts(hosts, vm, w);
    if s.Some? {
      var k :| IsGreedyChoice(hosts, vm, w, k) && s.value == hosts[k].hostId;
      GreedyChoiceUnique(hosts, vm, w, k, p.chosen.value);
    }
  }

  /* ---------- placement_results ---------- */

  /** One element of the endpoint's answer. */
  datatype Entry = Entry(vmId: string, assignedHost: Assignment)

  /** A run over a VM list: the answer, the row chosen for each VM, and the
      host table at the end. */
  datatype Run = Run(placements: seq<Entry>, chosen: seq<Option<nat>>, hosts: seq<Host>)

  /** Every VM asks for some CPU; then every row that fits has a non-zero CPU
      capacity, whatever earlier VMs have taken. */
  predicate PositiveCpuDemands(vms: seq<Vm>) {
    forall j :: 0 <= j < |vms| ==> vms[j].cpuDemand > 0
  }

  lemma PositiveDemandScoresDefined(hosts: seq<Host>, vm: Vm)
    requires vm.cpuDemand > 0
    ensures ScoresDefined(hosts, vm)
  {
  }

  /** Row ids, energy and cost never change during a run. */
  predicate SameRows(a: seq<Host>, b: seq<Host>) {
    && |a| == |b|
    && forall k :: 0 <= k < |a| ==> a[k].hostId == b[k].hostId && a[k].energy == b[k].energy && a[k].cost == b[k].cost
  }

  /** Lines 231-237: each VM in turn is placed against the table the VMs
      before it left behind. */
  function PlacementResults(hosts: seq<Host>, vms: seq<Vm>, w: Weights): (r: Run)
    requires PositiveCpuDemands(vms)
    ensures |r.placements| == |vms| && |r.chosen| == |vms|
    ensures forall i :: 0 <= i < |vms| ==> r.placements[i].vmId == vms[i].vmId
    ensures SameRows(hosts, r.hosts)
    ensures forall i :: 0 <= i < |vms| && r.chosen[i].Some? ==> r.chosen[i].value < |hosts|
    decreases |vms|
  {
    if |vms| == 0 then Run([], [], hosts)
    else
      PositiveDemandScoresDefined(hosts, vms[0]);
      var p := PlaceVm(hosts, vms[0], w);
      var rest := PlacementResults(p.hosts, vms[1..], w);
      Run([Entry(vms[0].vmId, p.assignment)] + rest.placements, [p.chosen] + rest.chosen, rest.hosts)
  }

  /** The answer for VM `i` is what the single-VM placement gives on the table
      left by the VMs before it; the row chosen is the one that answer names. */
  lemma {:induction false} PlacementStep(hosts: seq<Host>, vms: seq<Vm>, w: Weights, i: nat)
    requires PositiveCpuDemands(vms)
    requires i < |vms|
    ensures var before := PlacementResults(hosts, vms[..i], w).hosts;
            var p := PlaceVm(before, vms[i], w);
            && PlacementResults(hosts, vms, w).placements[i] == Entry(vms[i].vmId, p.assignment)
            && PlacementResults(hosts, vms, w).chosen[i] == p.chosen
    decreases i
  {
    PositiveDemandScoresDefined(hosts, vms[0]);
    var p0 := PlaceVm(hosts, vms[0], w);
    if i > 0 {
      var tail := vms[1..];
      PlacementStep(p0.hosts, tail, w, i - 1);
      assert vms[..i][0] == vms[0];
      assert vms[..i][1..] == tail[..i - 1];
      assert tail[i - 1] == vms[i];
    } else {
      assert vms[..0] == [];
    }
  }

  /** The sum of one demand over the VMs that were placed on row `k`. */
  function PlacedOn(vms: seq<Vm>, chosen: seq<Option<nat>>, k: nat, demand: Vm -> int): int
    requires |chosen| == |vms|
    decreases |vms|
  {
    if |vms| == 0 then 0
    else (if chosen[0] == Some(k) then demand(vms[0]) else 0) + PlacedOn(vms[1..], chosen[1..], k, demand)
  }

  function CpuDemandOf(vm: Vm): int { vm.cpuDemand }

  function RamDemandOf(vm: Vm): int { vm.ramDemand }

  /** Bookkeeping over a run: every row's CPU and RAM capacity drops by exactly
      the demands of the VMs placed on it. */
  lemma {:induction false} CapacityConservation(hosts: seq<Host>, vms: seq<Vm>, w: Weights, k: nat)
    requires PositiveCpuDemands(vms)
    requires k < |hosts|
    ensures var run := PlacementResults(hosts, vms, w);
            && hosts[k].cpuCapacity - run.hosts[k].cpuCapacity == PlacedOn(vms, run.chosen, k, CpuDemandOf)
            && hosts[k].ramCapacity - run.hosts[k].ramCapacity == PlacedOn(vms, run.chosen, k, RamDemandOf)
    decreases |vms|
  {
    if |vms| > 0 {
      PositiveDemandScoresDefined(hosts, vms[0]);
      var p := PlaceVm(hosts, vms[0], w);
      var run := PlacementResults(hosts, vms, w);
      var rest := PlacementResults(p.hosts, vms[1..], w);
      CapacityConservation(p.hosts, vms[1..], w, k);
      assert run.chosen[1..] == rest.chosen;
      assert run.chosen[0] == p.chosen;
    }
  }

  /** Each reported host is the id of the chosen row of the original table,
      and "No suitable host" is reported exactly when no row was chosen. */
  lemma {:induction false} PlacementsNameChosenRows(hosts: seq<Host>, vms: seq<Vm>, w: Weights, i: nat)
    requires PositiveCpuDemands(vms)
    requires i < |vms|
    ensures var run := PlacementResults(hosts, vms, w);
            && (run.chosen[i].None? <==> run.placements[i].assignedHost == NoSuitableHost)
            && (run.chosen[i].Some? ==> run.placements[i].assignedHost == Assigned(hosts[run.chosen[i].value].hostId))
    decreases |vms|
  {
    PositiveDemandScoresDefined(hosts, vms[0]);
    var p := PlaceVm(hosts, vms[0], w);
    if i > 0 {
      PlacementsNameChosenRows(p.hosts, vms[1..], w, i - 1);
    }
  }

  /** The total of one demand over a VM list. */
  function TotalDemand(vms: seq<Vm>, demand: Vm -> int): int
    decreases |vms|
  {
    if |vms| == 0 then 0 else demand(vms[0]) + TotalDemand(vms[1..], demand)
  }

  /** Every row has room for all the VMs together. */
  predicate RoomForAll(hosts: seq<Host>, vms: seq<Vm>) {
    forall k :: 0 <= k < |hosts| ==>
      hosts[k].cpuCapacity >= TotalDemand(vms, CpuDemandOf) && hosts[k].ramCapacity >= TotalDemand(vms, RamDemandOf)
  }

  /** When the table is not empty, RAM demands are not negative and every row
      has room for all the VMs together, the run places every VM, whatever the
      weights. */
  lemma {:induction false} AllPlacedWhenEveryRowHasRoom(hosts: seq<Host>, vms: seq<Vm>, w: Weights)
    requires PositiveCpuDemands(vms)
    requires forall j :: 0 <= j < |vms| ==> vms[j].ramDemand >= 0
    requires |hosts| > 0
    requires RoomForAll(hosts, vms)
    ensures forall i :: 0 <= i < |vms| ==> PlacementResults(hosts, vms, w).placements[i].assignedHost.Assigned?
    decreases |vms|
  {
    if |vms| > 0 {
      var tail := vms[1..];
      PositiveDemandScoresDefined(hosts, vms[0]);
      var p := PlaceVm(hosts, vms[0], w);
      RoomAfterFirst(hosts, vms, w);
      AllPlacedWhenEveryRowHasRoom(p.hosts, tail, w);
      var run := PlacementResults(hosts, vms, w);
      forall i | 0 <= i < |vms|
        ensures run.placements[i].assignedHost.Assigned?
      {
        if i > 0 {
          PlacementsShift(hosts, vms, w, i);
        } else {
          assert run.placements[0] == Entry(vms[0].vmId, p.assignment);
        }
      }
    }
  }

  /** The first VM of a run in which every row has room for all of them is
      placed, and every row still has room for the others. */
  lemma RoomAfterFirst(hosts: seq<Host>, vms: seq<Vm>, w: Weights)
    requires PositiveCpuDemands(vms)
    requires forall j :: 0 <= j < |vms| ==> vms[j].ramDemand >= 0
    requires |hosts| > 0 && |vms| > 0
    requires RoomForAll(hosts, vms)
    ensures ScoresDefined(hosts, vms[0])
    ensures PlaceVm(hosts, vms[0], w).assignment.Assigned?
    ensures RoomForAll(PlaceVm(hosts, vms[0], w).hosts, vms[1..])
  {
    var tail := vms[1..];
    PositiveDemandScoresDefined(hosts, vms[0]);
    assert TotalDemand(vms, CpuDemandOf) == vms[0].cpuDemand + TotalDemand(tail, CpuDemandOf);
    assert TotalDemand(vms, RamDemandOf) == vms[0].ramDemand + TotalDemand(tail, RamDemandOf);
    TotalDemandNonNegative(tail);
    FitsSomewherePlaced(hosts, vms[0], w, 0);
    var p := PlaceVm(hosts, vms[0], w);
    forall k | 0 <= k < |p.hosts|
      ensures p.hosts[k].cpuCapacity >= TotalDemand(tail, CpuDemandOf)
      ensures p.hosts[k].ramCapacity >= TotalDemand(tail, RamDemandOf)
    {
      if k != p.chosen.value {
        assert p.hosts[k] == hosts[k];
      }
    }
  }

  /** Past the first VM a run's answers are those of the run over the rest
      on the table the first one left. */
  lemma PlacementsShift(hosts: seq<Host>, vms: seq<Vm>, w: Weights, i: int)
    requires PositiveCpuDemands(vms)
    requires 0 < i < |vms|
    ensures ScoresDefined(hosts, vms[0])
    ensures PlacementResults(hosts, vms, w).placements[i]
              == PlacementResults(PlaceVm(hosts, vms[0], w).hosts, vms[1..], w).placements[i - 1]
  {
    PositiveDemandScoresDefined(hosts, vms[0]);
  }

  lemma {:induction false} TotalDemandNonNegative(vms: seq<Vm>)
    requires PositiveCpuDemands(vms)
    requires forall j :: 0 <= j < |vms| ==> vms[j].ramDemand >= 0
    ensures TotalDemand(vms, CpuDemandOf) >= 0 && TotalDemand(vms, RamDemandOf) >= 0
    decreases |vms|
  {
    if |vms| > 0 {
      TotalDemandNonNegative(vms[1..]);
    }
  }
  /* ---------- the endpoint ---------- */

  /** Lines 224-227: each weight is read from the query string, with its own
      default when absent; a value that `float` refuses is an unhandled
      error (`None`). */
  function QueryWeights(args: map<string, string>, parse: string -> Option<real>): (r: Option<Weights>)
    ensures r.Some? <==> forall key :: key in args && key in ["cpu", "energy", "cost"] ==> parse(args[key]).Some?
    ensures r.Some? ==>
              && r.value.cpu == (if "cpu" in args then parse(args["cpu"]).value else 0.4)
              && r.value.energy == (if "energy" in args then parse(args["energy"]).value else 0.3)
              && r.value.cost == (if "cost" in args then parse(args["cost"]).value else 0.3)
    ensures "cpu" !in args && "energy" !in args && "cost" !in args ==> r == Some(Weights(0.4, 0.3, 0.3))
  {
    var cpu := if "cpu" in args then parse(args["cpu"]) else Some(0.4);
    var energy := if "energy" in args then parse(args["energy"]) else Some(0.3);
    var cost := if "cost" in args then parse(args["cost"]) else Some(0.3);
    if cpu.Some? && energy.Some? && cost.Some? then Some(Weights(cpu.value, energy.value, cost.value)) else None
  }

  /** The tables the endpoint draws (lines 54-70 of `vmp/api_server.py`,
      which replace the fixture generators): five hosts named H1..H5 with
      CPU 50..120, RAM 64..128, energy 0.3..1.5 and cost 0.2..0.8. */
  predicate GeneratedHosts(hosts: seq<Host>) {
    && |hosts| == 5
    && forall k :: 0 <= k < |hosts| ==>
         && hosts[k].hostId == "H" + NatToString(k + 1)
         && 50 <= hosts[k].cpuCapacity <= 120
         && 64 <= hosts[k].ramCapacity <= 128
         && 0.3 <= hosts[k].energy <= 1.5
         && 0.2 <= hosts[k].cost <= 0.8
  }

  /** Three VMs named VM1..VM3 with CPU demand 4..20 and RAM demand 8..32. */
  predicate GeneratedVms(vms: seq<Vm>) {
    && |vms| == 3
    && forall j :: 0 <= j < |vms| ==>
         && vms[j].vmId == "VM" + NatToString(j + 1)
         && 4 <= vms[j].cpuDemand <= 20
         && 8 <= vms[j].ramDemand <= 32
  }

  /** `placement_results` on drawn tables: `None` when a weight does not
      parse, and otherwise the answer of the run with the parsed weights. */
  function PlacementEndpoint(args: map<string, string>, parse: string -> Option<real>, hosts: seq<Host>, vms: seq<Vm>): (r: Option<seq<Entry>>)
    requires GeneratedVms(vms)
    ensures r.None? <==> QueryWeights(args, parse).None?
    ensures r.Some? ==>
              && |r.value| == 3
              && forall i :: 0 <= i < 3 ==>
                   r.value[i] == PlacementResults(hosts, vms, QueryWeights(args, parse).value).placements[i]
  {
    match QueryWeights(args, parse)
    case None => None
    case Some(w) => Some(PlacementResults(hosts, vms, w).placements)
  }

  /** A row that no VM chose keeps its capacities. */
  lemma {:induction false} PlacedOnUntouched(vms: seq<Vm>, chosen: seq<Option<nat>>, k: nat, demand: Vm -> int)
    requires |chosen| == |vms|
    requires forall j :: 0 <= j < |chosen| ==> chosen[j] != Some(k)
    ensures PlacedOn(vms, chosen, k, demand) == 0
    decreases |vms|
  {
    if |vms| > 0 {
      PlacedOnUntouched(vms[1..], chosen[1..], k, demand);
    }
  }

  /** Among the first three rows one is left that at most two choices did
      not name. */
  function FreeRow(chosen: seq<Option<nat>>): (k: nat)
    requires |chosen| <= 2
    ensures k < 3
    ensures forall j :: 0 <= j < |chosen| ==> chosen[j] != Some(k)
  {
    if Some(0) !in chosen then 0
    else if Some(1) !in chosen then 1
    else
      assert |chosen| == 2 && (chosen == [Some(0), Some(1)] || chosen == [Some(1), Some(0)]);
      2
  }

  /** With tables as the endpoint draws them, every VM gets a host, whatever
      the weights: each VM fits any row no earlier VM was placed on, and two
      earlier VMs leave at least three of the five rows untouched. */
  lemma GeneratedTablesPlaceEveryVm(hosts: seq<Host>, vms: seq<Vm>, w: Weights)
    requires GeneratedHosts(hosts) && GeneratedVms(vms)
    ensures forall i :: 0 <= i < |vms| ==> PlacementResults(hosts, vms, w).placements[i].assignedHost.Assigned?
  {
    forall i | 0 <= i < |vms|
      ensures PlacementResults(hosts, vms, w).placements[i].assignedHost.Assigned?
    {
      assert DrawnRanges(hosts, vms);
      GeneratedVmPlaced(hosts, vms, w, i);
    }
  }

  /** The capacity and demand ranges of the drawn tables, without the ids. */
  predicate DrawnRanges(hosts: seq<Host>, vms: seq<Vm>) {
    && |hosts| == 5 && |vms| == 3
    && (forall k :: 0 <= k < |hosts| ==> 50 <= hosts[k].cpuCapacity && 64 <= hosts[k].ramCapacity)
    && (forall j :: 0 <= j < |vms| ==> 4 <= vms[j].cpuDemand <= 20 && vms[j].ramDemand <= 32)
  }

  lemma GeneratedVmPlaced(hosts: seq<Host>, vms: seq<Vm>, w: Weights, i: int)
    requires DrawnRanges(hosts, vms)
    requires 0 <= i < |vms|
    ensures PlacementResults(hosts, vms, w).placements[i].assignedHost.Assigned?
  {
    PlacementStep(hosts, vms, w, i);
    var before := PlacementResults(hosts, vms[..i], w).hosts;
    var k := GeneratedRoomLeft(hosts, vms, w, i);
    PositiveDemandScoresDefined(before, vms[i]);
    FitsSomewherePlaced(before, vms[i], w, k);
  }

  /** On drawn tables, the VMs before VM `i` leave a row that VM `i` fits. */
  lemma GeneratedRoomLeft(hosts: seq<Host>, vms: seq<Vm>, w: Weights, i: int) returns (k: nat)
    requires DrawnRanges(hosts, vms)
    requires 0 <= i < |vms|
    ensures var before := PlacementResults(hosts, vms[..i], w).hosts;
      k < |before| && Fits(before[k], vms[i])
  {
    var prefix := vms[..i];
    var before := PlacementResults(hosts, prefix, w);
    k := FreeRow(before.chosen);
    UntouchedRowKeepsCapacity(hosts, prefix, w, k);
    assert 50 <= hosts[k].cpuCapacity && 64 <= hosts[k].ramCapacity;
    assert vms[i].cpuDemand <= 20 && vms[i].ramDemand <= 32;
  }

  /** A row that no VM of a run chose ends the run with its capacities. */
  lemma UntouchedRowKeepsCapacity(hosts: seq<Host>, vms: seq<Vm>, w: Weights, k: nat)
    requires PositiveCpuDemands(vms)
    requires k < |hosts|
    requires forall j :: 0 <= j < |vms| ==> PlacementResults(hosts, vms, w).chosen[j] != Some(k)
    ensures var run := PlacementResults(hosts, vms, w);
      && run.hosts[k].cpuCapacity == hosts[k].cpuCapacity
      && run.hosts[k].ramCapacity == hosts[k].ramCapacity
  {
    var run := PlacementResults(hosts, vms, w);
    CapacityConservation(hosts, vms, w, k);
    PlacedOnUntouched(vms, run.chosen, k, CpuDemandOf);
    PlacedOnUntouched(vms, run.chosen, k, RamDemandOf);
  }

  /** A VM that fits some row is assigned a host. */
  lemma FitsSomewherePlaced(hosts: seq<Host>, vm: Vm, w: Weights, k: int)
    requires ScoresDefined(hosts, vm)
    requires 0 <= k < |hosts| && Fits(hosts[k], vm)
    ensures PlaceVm(hosts, vm, w).assignment.Assigned?
  {
    assert !NoHostFits(hosts, vm);
  }
}

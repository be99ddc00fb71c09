/** The pure greedy host selection of `vmp/scoring.py`: drop every host that
    cannot take the VM's CPU or RAM demand, and among the rest keep the host
    with the lowest weighted score, the earliest one on ties. The table is a
    value, so the scan cannot change it. */
module Scoring {
  import opened Common

  /** One row of the host table. */
  datatype Host = Host(hostId: string, cpuCapacity: int, ramCapacity: int, energy: real, cost: real)

  /** One row of the VM table. */
  datatype Vm = Vm(vmId: string, cpuDemand: int, ramDemand: int)

  /** The `cpu`, `energy` and `cost` weights of the score. */
  datatype Weights = Weights(cpu: real, energy: real, cost: real)

  /** The host passes the capacity filter: neither capacity is below the demand. */
  predicate Fits(h: Host, vm: Vm) {
    !(h.cpuCapacity < vm.cpuDemand || h.ramCapacity < vm.ramDemand)
  }

  predicate NoHostFits(hosts: seq<Host>, vm: Vm) {
    forall i :: 0 <= i < |hosts| ==> !Fits(hosts[i], vm)
  }

  /** The score divides the CPU demand by the CPU capacity of every host that
      passes the filter; this is what the division needs. */
  predicate ScoresDefined(hosts: seq<Host>, vm: Vm) {
    forall i :: 0 <= i < |hosts| && Fits(hosts[i], vm) ==> hosts[i].cpuCapacity != 0
  }

  /** The weighted score of a host for a VM; lower is better. */
  function Score(h: Host, vm: Vm, w: Weights): (r: real)
    requires h.cpuCapacity != 0
    ensures (&& w.cpu >= 0.0 && w.energy >= 0.0 && w.cost >= 0.0
             && vm.cpuDemand >= 0 && h.cpuCapacity > 0 && h.energy >= 0.0 && h.cost >= 0.0) ==> r >= 0.0
  {
    assert w.cpu >= 0.0 && vm.cpuDemand >= 0 && h.cpuCapacity > 0 ==> w.cpu * (vm.cpuDemand as real / h.cpuCapacity as real) >= 0.0 by {
      if w.cpu >= 0.0 && vm.cpuDemand >= 0 && h.cpuCapacity > 0 {
        NonNegativeProduct(w.cpu, vm.cpuDemand as real / h.cpuCapacity as real);
      }
    }
    assert w.energy >= 0.0 && h.energy >= 0.0 ==> w.energy * h.energy >= 0.0 by {
      if w.energy >= 0.0 && h.energy >= 0.0 {
        NonNegativeProduct(w.energy, h.energy);
      }
    }
    assert w.cost >= 0.0 && h.cost >= 0.0 ==> w.cost * h.cost >= 0.0 by {
      if w.cost >= 0.0 && h.cost >= 0.0 {
        NonNegativeProduct(w.cost, h.cost);
      }
    }
    w.cpu * (vm.cpuDemand as real / h.cpuCapacity as real) + w.energy * h.energy + w.cost * h.cost
  }

  lemma NonNegativeProduct(a: real, b: real)
    requires a >= 0.0 && b >= 0.0
    ensures a * b >= 0.0
  {
  }

  /** With a non-negative CPU weight and demand, a host with more CPU
      capacity and otherwise the same figures scores no higher: the CPU term
      is the share of the host the VM would take. */
  lemma ScoreFallsWithCapacity(h: Host, vm: Vm, w: Weights, capacity: int)
    requires w.cpu >= 0.0 && vm.cpuDemand >= 0 && 0 < h.cpuCapacity <= capacity
    ensures Score(h.(cpuCapacity := capacity), vm, w) <= Score(h, vm, w)
  {
    var d := vm.cpuDemand as real;
    var small, large := h.cpuCapacity as real, capacity as real;
    QuotientFalls(d, small, large);
    ScaleUp(w.cpu, d / large, d / small);
  }

  /** Dividing by a larger positive number gives no more. */
  lemma QuotientFalls(d: real, small: real, large: real)
    requires d >= 0.0 && 0.0 < small <= large
    ensures d / large <= d / small
  {
    var q1, q2 := d / large, d / small;
    assert q1 * large == d && q2 * small == d && q2 >= 0.0;
    ScaleUp(q2, small, large);
    Cancel(q1, q2, large);
  }

  lemma Cancel(a: real, b: real, k: real)
    requires k > 0.0 && a * k <= b * k
    ensures a <= b
  {
  }

  lemma ScaleUp(k: real, a: real, b: real)
    requires k >= 0.0 && a <= b
    ensures k * a <= k * b
  {
  }

  /** Host `k` is the one a left-to-right scan of the first `n` hosts keeps:
      it fits, no fitting host among them scores lower, and every fitting
      host before it scores strictly higher (replacement needs a strictly
      lower score, so the earliest of equal scores stays). */
  predicate IsGreedyWithin(hosts: seq<Host>, vm: Vm, w: Weights, n: int, k: int)
    requires 0 <= n <= |hosts|
    requires ScoresDefined(hosts, vm)
  {
    && 0 <= k < n
    && Fits(hosts[k], vm)
    && (forall j :: 0 <= j < n && Fits(hosts[j], vm) ==> Score(hosts[k], vm, w) <= Score(hosts[j], vm, w))
    && (forall j :: 0 <= j < k && Fits(hosts[j], vm) ==> Score(hosts[k], vm, w) < Score(hosts[j], vm, w))
  }

  /** The greedy choice over the whole table. */
  predicate IsGreedyChoice(hosts: seq<Host>, vm: Vm, w: Weights, k: int)
    requires ScoresDefined(hosts, vm)
  {
    IsGreedyWithin(hosts, vm, w, |hosts|, k)
  }

  /** At most one host is the greedy choice. */
  lemma GreedyChoiceUnique(hosts: seq<Host>, vm: Vm, w: Weights, k1: int, k2: int)
    requires ScoresDefined(hosts, vm)
    requires IsGreedyChoice(hosts, vm, w, k1) && IsGreedyChoice(hosts, vm, w, k2)
    ensures k1 == k2
  {
  }

  /** The loop of lines 14-33 from host `i` on, with `bestScore` the running
      minimum (`None` is the initial infinity) and `bestHost` its host id. */
  function ScoreHostsFrom(hosts: seq<Host>, vm: Vm, w: Weights, i: nat,
                          bestScore: Option<real>, bestHost: Option<string>): Option<string>
    requires i <= |hosts|
    requires ScoresDefined(hosts, vm)
    decreases |hosts| - i
  {
    if i == |hosts| then bestHost
    else
      var host := hosts[i];
      if host.cpuCapacity < vm.cpuDemand || host.ramCapacity < vm.ramDemand then
        ScoreHostsFrom(hosts, vm, w, i + 1, bestScore, bestHost)
      else
        var total := Score(host, vm, w);
        if bestScore.None? || total < bestScore.value then
          ScoreHostsFrom(hosts, vm, w, i + 1, Some(total), Some(host.hostId))
        else
          ScoreHostsFrom(hosts, vm, w, i + 1, bestScore, bestHost)
  }

  /** The state the scan is in after the first `i` hosts: nothing kept when
      none of them fits, otherwise the greedy choice `k` among them with its
      score and host id. */
  predicate ScanState(hosts: seq<Host>, vm: Vm, w: Weights, i: nat,
                      bestScore: Option<real>, bestHost: Option<string>, k: int)
    requires i <= |hosts|
    requires ScoresDefined(hosts, vm)
  {
    if bestScore.None? then
      bestHost.None? && forall j :: 0 <= j < i ==> !Fits(hosts[j], vm)
    else
      && IsGreedyWithin(hosts, vm, w, i, k)
      && bestScore.value == Score(hosts[k], vm, w)
      && bestHost == Some(hosts[k].hostId)
  }

  /** What the scan is to return: no host exactly when none fits, and
      otherwise the id of the greedy choice. */
  ghost predicate GreedyOutcome(hosts: seq<Host>, vm: Vm, w: Weights, r: Option<string>)
    requires ScoresDefined(hosts, vm)
  {
    && (r.None? <==> NoHostFits(hosts, vm))
    && (r.Some? ==> exists c :: IsGreedyChoice(hosts, vm, w, c) && r.value == hosts[c].hostId)
  }

  /** The scan keeps the greedy choice of the whole table: from any state the
      scan can be in after `i` hosts, it ends with no host exactly when none
      fits, and otherwise with the id of the greedy choice. */
  lemma {:induction false} ScoreHostsFromIsGreedy(hosts: seq<Host>, vm: Vm, w: Weights, i: nat,
                                                  bestScore: Option<real>, bestHost: Option<string>, k: int)
    requires i <= |hosts|
    requires ScoresDefined(hosts, vm)
    requires ScanState(hosts, vm, w, i, bestScore, bestHost, k)
    ensures GreedyOutcome(hosts, vm, w, ScoreHostsFrom(hosts, vm, w, i, bestScore, bestHost))
    decreases |hosts| - i
  {
    if i == |hosts| {
      ScanEnd(hosts, vm, w, bestScore, bestHost, k);
    } else {
      var host := hosts[i];
      if host.cpuCapacity < vm.cpuDemand || host.ramCapacity < vm.ramDemand {
        ScanSkip(hosts, vm, w, i, bestScore, bestHost, k);
        ScoreHostsFromIsGreedy(hosts, vm, w, i + 1, bestScore, bestHost, k);
      } else {
        var total := Score(host, vm, w);
        if bestScore.None? || total < bestScore.value {
          ScanTake(hosts, vm, w, i, bestScore, bestHost, k);
          ScoreHostsFromIsGreedy(hosts, vm, w, i + 1, Some(total), Some(host.hostId), i);
        } else {
          ScanKeep(hosts, vm, w, i, bestScore, bestHost, k);
          ScoreHostsFromIsGreedy(hosts, vm, w, i + 1, bestScore, bestHost, k);
        }
      }
    }
  }

  /** At the end of the table the kept host is the greedy choice. */
  lemma ScanEnd(hosts: seq<Host>, vm: Vm, w: Weights, bestScore: Option<real>, bestHost: Option<string>, k: int)
    requires ScoresDefined(hosts, vm)
    requires ScanState(hosts, vm, w, |hosts|, bestScore, bestHost, k)
    ensures GreedyOutcome(hosts, vm, w, bestHost)
  {
    if bestHost.Some? {
      assert IsGreedyChoice(hosts, vm, w, k);
    }
  }

  /** A host that fails the filter leaves the scan's state as it was. */
  lemma ScanSkip(hosts: seq<Host>, vm: Vm, w: Weights, i: nat, bestScore: Option<real>, bestHost: Option<string>, k: int)
    requires i < |hosts| && ScoresDefined(hosts, vm)
    requires ScanState(hosts, vm, w, i, bestScore, bestHost, k)
    requires !Fits(hosts[i], vm)
    ensures ScanState(hosts, vm, w, i + 1, bestScore, bestHost, k)
  {
  }

  /** A fitting host that beats the running minimum becomes the choice. */
  lemma ScanTake(hosts: seq<Host>, vm: Vm, w: Weights, i: nat, bestScore: Option<real>, bestHost: Option<string>, k: int)
    requires i < |hosts| && ScoresDefined(hosts, vm)
    requires ScanState(hosts, vm, w, i, bestScore, bestHost, k)
    requires Fits(hosts[i], vm)
    requires bestScore.None? || Score(hosts[i], vm, w) < bestScore.value
    ensures ScanState(hosts, vm, w, i + 1, Some(Score(hosts[i], vm, w)), Some(hosts[i].hostId), i)
  {
    assert IsGreedyWithin(hosts, vm, w, i + 1, i);
  }

  /** A fitting host that does not beat it leaves the choice as it was. */
  lemma ScanKeep(hosts: seq<Host>, vm: Vm, w: Weights, i: nat, bestScore: Option<real>, bestHost: Option<string>, k: int)
    requires i < |hosts| && ScoresDefined(hosts, vm)
    requires ScanState(hosts, vm, w, i, bestScore, bestHost, k)
    requires Fits(hosts[i], vm)
    requires bestScore.Some? && !(Score(hosts[i], vm, w) < bestScore.value)
    ensures ScanState(hosts, vm, w, i + 1, bestScore, bestHost, k)
  {
    assert IsGreedyWithin(hosts, vm, w, i + 1, k);
  }

  /** `score_hosts`: the id of the greedy choice, or `None` when no host can
      take the VM. */
  function ScoreHosts(hosts: seq<Host>, vm: Vm, w: Weights): (r: Option<string>)
    requires ScoresDefined(hosts, vm)
    ensures r.None? <==> NoHostFits(hosts, vm)
    ensures r.Some? ==> exists k :: IsGreedyChoice(hosts, vm, w, k) && r.value == hosts[k].hostId
  {
    ScoreHostsFromIsGreedy(hosts, vm, w, 0, None, None, 0);
    ScoreHostsFrom(hosts, vm, w, 0, None, None)
  }

  /** The properties a caller relies on, spelled out for a returned id: it is
      the id of a row that fits, whose score no fitting row beats. */
  lemma ScoreHostsReturnsFittingRow(hosts: seq<Host>, vm: Vm, w: Weights)
    requires ScoresDefined(hosts, vm)
    requires ScoreHosts(hosts, vm, w).Some?
    ensures exists k :: 0 <= k < |hosts| && hosts[k].hostId == ScoreHosts(hosts, vm, w).value
                        && Fits(hosts[k], vm)
                        && forall j :: 0 <= j < |hosts| && Fits(hosts[j], vm) ==>
                             Score(hosts[k], vm, w) <= Score(hosts[j], vm, w)
  {
    var k :| IsGreedyChoice(hosts, vm, w, k) && ScoreHosts(hosts, vm, w).value == hosts[k].hostId;
  }

  /** A host that does not fit is never chosen: when ids are unique, the id
      returned is not that of a row failing the filter. */
  lemma ScoreHostsNeverPicksUnfit(hosts: seq<Host>, vm: Vm, w: Weights, i: int)
    requires ScoresDefined(hosts, vm)
    requires forall a, b :: 0 <= a < b < |hosts| ==> hosts[a].hostId != hosts[b].hostId
    requires 0 <= i < |hosts| && !Fits(hosts[i], vm)
    ensures ScoreHosts(hosts, vm, w) != Some(hosts[i].hostId)
  {
    if ScoreHosts(hosts, vm, w).Some? {
      var k :| IsGreedyChoice(hosts, vm, w, k) && ScoreHosts(hosts, vm, w).value == hosts[k].hostId;
      assert Fits(hosts[k], vm);
      assert k != i;
      assert hosts[k].hostId != hosts[i].hostId by {
        if k < i {
          assert hosts[k].hostId != hosts[i].hostId;
        } else {
          assert hosts[i].hostId != hosts[k].hostId;
        }
      }
    }
  }
}

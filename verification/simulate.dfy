/** The fixture tables of `vmp/simulate.py`: five hosts and three VMs with
    fixed numbers, of which `generate_hosts(n)` and `generate_vms(n)` keep the
    first `n` rows. The columns are built separately and handed to a data
    frame, which refuses columns of different lengths; Python's slice `xs[:n]`
    and `range(n)` decide those lengths. */
module Simulate {
  import opened Common
  import opened Scoring
  import opened Placement

  const HostCpu: seq<int> := [92, 63, 79, 78, 98]
  const HostRam: seq<int> := [114, 102, 116, 100, 116]
  const HostEnergy: seq<real> := [0.5986, 0.635, 0.532, 1.0421, 1.4076]
  const HostCost: seq<real> := [0.3664, 0.3325, 0.7336, 0.3826, 0.2744]

  const VmCpu: seq<int> := [8, 16, 15]
  const VmRam: seq<int> := [24, 20, 22]

  /** Python's `xs[:n]`: a negative `n` counts from the end, a large one stops
      at the end. */
  function SlicePrefix<T>(xs: seq<T>, n: int): (r: seq<T>)
    ensures |r| <= |xs| && r == xs[..|r|]
    ensures 0 <= n <= |xs| ==> |r| == n
    ensures n > |xs| ==> r == xs
    ensures n < 0 ==> |r| == (if |xs| + n > 0 then |xs| + n else 0)
  {
    if n >= 0 then (if n <= |xs| then xs[..n] else xs)
    else if |xs| + n > 0 then xs[..|xs| + n] else []
  }

  /** The length of Python's `range(n)`. */
  function RangeLength(n: int): nat {
    if n > 0 then n else 0
  }

  /** Lines 3-10: `None` when the data frame would refuse the columns. */
  function GenerateHosts(n: int): (r: Option<seq<Host>>)
    ensures 0 <= n <= 5 ==>
              && r.Some?
              && |r.value| == n
              && forall i :: 0 <= i < n ==>
                   r.value[i] == Host("H" + NatToString(i + 1), HostCpu[i], HostRam[i], HostEnergy[i], HostCost[i])
    ensures n > 5 || -5 < n < 0 ==> r.None?
    ensures n <= -5 ==> r.Some? && r.value == []
  {
    var ids := seq(RangeLength(n), i requires 0 <= i => "H" + NatToString(i + 1));
    var cpu := SlicePrefix(HostCpu, n);
    var ram := SlicePrefix(HostRam, n);
    var energy := SlicePrefix(HostEnergy, n);
    var cost := SlicePrefix(HostCost, n);
    if |cpu| == |ids| && |ram| == |ids| && |energy| == |ids| && |cost| == |ids| then
      assert n <= -5 ==> |ids| == 0;
      Some(seq(|ids|, i requires 0 <= i < |ids| => Host(ids[i], cpu[i], ram[i], energy[i], cost[i])))
    else
      None
  }

  /** Lines 13-18, with the same column-length rule. */
  function GenerateVms(n: int): (r: Option<seq<Vm>>)
    ensures 0 <= n <= 3 ==>
              && r.Some?
              && |r.value| == n
              && forall i :: 0 <= i < n ==> r.value[i] == Vm("VM" + NatToString(i + 1), VmCpu[i], VmRam[i])
    ensures n > 3 || -3 < n < 0 ==> r.None?
    ensures n <= -3 ==> r.Some? && r.value == []
  {
    var ids := seq(RangeLength(n), i requires 0 <= i => "VM" + NatToString(i + 1));
    var cpu := SlicePrefix(VmCpu, n);
    var ram := SlicePrefix(VmRam, n);
    if |cpu| == |ids| && |ram| == |ids| then
      Some(seq(|ids|, i requires 0 <= i < |ids| => Vm(ids[i], cpu[i], ram[i])))
    else
      None
  }

  /** The generated host ids are pairwise distinct, so an id names one row. */
  lemma HostIdsDistinct(n: int, a: int, b: int)
    requires 0 <= n <= 5
    requires 0 <= a < b < n
    ensures GenerateHosts(n).value[a].hostId != GenerateHosts(n).value[b].hostId
  {
    PrefixedNumbersDistinct("H", a + 1, b + 1);
  }

  /** The three fixture VMs need 39 CPU and 66 RAM together, and the smallest
      fixture host offers 63 CPU and 100 RAM, so every host has room for all
      three at once. */
  lemma FixtureTotals()
    ensures var vms := GenerateVms(3).value;
            && TotalDemand(vms, CpuDemandOf) == 39
            && TotalDemand(vms, RamDemandOf) == 66
            && RoomForAll(GenerateHosts(5).value, vms)
  {
    var vms := GenerateVms(3).value;
    var hosts := GenerateHosts(5).value;
    assert vms[1..][1..][1..] == [];
    assert TotalDemand(vms, CpuDemandOf) == 8 + 16 + 15;
    assert TotalDemand(vms, RamDemandOf) == 24 + 20 + 22;
    forall k | 0 <= k < 5
      ensures hosts[k].cpuCapacity >= 63 && hosts[k].ramCapacity >= 100
    {
      assert hosts[k].cpuCapacity == HostCpu[k] && hosts[k].ramCapacity == HostRam[k];
      assert k == 0 || k == 1 || k == 2 || k == 3 || k == 4;
    }
  }

  /** Placing the three fixture VMs on the five fixture hosts places all of
      them, whatever the weights. */
  lemma FixturesAllPlaced(w: Weights)
    ensures var vms := GenerateVms(3).value;
            && PositiveCpuDemands(vms)
            && forall i :: 0 <= i < 3 ==>
                 PlacementResults(GenerateHosts(5).value, vms, w).placements[i].assignedHost.Assigned?
  {
    var vms := GenerateVms(3).value;
    assert forall j :: 0 <= j < 3 ==> vms[j].cpuDemand == VmCpu[j] && vms[j].ramDemand == VmRam[j];
    assert PositiveCpuDemands(vms) by {
      forall j | 0 <= j < 3 ensures vms[j].cpuDemand > 0 {
        assert j == 0 || j == 1 || j == 2;
      }
    }
    assert forall j :: 0 <= j < |vms| ==> vms[j].ramDemand >= 0 by {
      forall j | 0 <= j < 3 ensures vms[j].ramDemand >= 0 {
        assert j == 0 || j == 1 || j == 2;
      }
    }
    FixtureTotals();
    AllPlacedWhenEveryRowHasRoom(GenerateHosts(5).value, vms, w);
  }
}

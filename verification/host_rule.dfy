/** The rule that labels a sample with a host, written out in
    `vmp/generate_data.py` and again in `vmp/ml_model_comparison.py`: small
    samples go to Host1, medium ones to Host2, everything else to Host3. */
module HostRule {
  import opened Common
  import opened LabelCoding

  /** The label of a sample with the given CPU and memory. */
  function HostLabel(cpu: int, memory: int): (host: string)
    ensures host == "Host1" <==> cpu <= 33 && memory <= 11
    ensures host == "Host2" <==> !(cpu <= 33 && memory <= 11) && cpu <= 66 && memory <= 22
    ensures host == "Host3" <==> !(cpu <= 66 && memory <= 22)
    ensures host in HostLabels
  {
    if cpu <= 33 && memory <= 11 then "Host1"
    else if cpu <= 66 && memory <= 22 then "Host2"
    else "Host3"
  }

  /** The position of a host label in Host1, Host2, Host3. */
  function LabelRank(host: string): (n: nat)
    ensures host in HostLabels ==> n < 3 && HostLabels[n] == host
  {
    if host == "Host1" then 0 else if host == "Host2" then 1 else 2
  }

  /** More CPU or more memory never moves a sample to a lower host. */
  lemma HostLabelMonotone(cpu1: int, memory1: int, cpu2: int, memory2: int)
    requires cpu1 <= cpu2 && memory1 <= memory2
    ensures LabelRank(HostLabel(cpu1, memory1)) <= LabelRank(HostLabel(cpu2, memory2))
  {
  }

  /** A label encoder fitted to a host column holding all three labels codes
      every sample's label as its rank. */
  lemma HostLabelCode(column: seq<string>, cpu: int, memory: int)
    requires forall y :: y in column <==> y in HostLabels
    ensures Transform(Fit(column), HostLabel(cpu, memory)) == Some(LabelRank(HostLabel(cpu, memory)))
  {
    HostLabelCodes(column);
    HostLabelsAscending();
    var h := HostLabel(cpu, memory);
    var code := Transform(Fit(column), h).value;
    if code != LabelRank(h) {
      SortedDistinct(HostLabels, code, LabelRank(h));
    }
  }
}

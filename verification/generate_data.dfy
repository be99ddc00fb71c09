/** The CSV generator `vmp/generate_data.py`: a header row, then for each of
    100000 rounds one row per VM, VM1 to VM10 in order, each row holding the
    clock, the VM, the host the rule assigns and the drawn metrics. The
    random draws and the clock are parameters; writing the file is left out,
    the rows are the model's output. */
module GenerateData {
  import opened Common
  import opened LabelCoding
  import opened HostRule
  import opened ModelComparison

  const Hosts: seq<string> := ["Host1", "Host2", "Host3"]

  const Rounds: nat := 100000

  /** VM1 … VM10. */
  function VmNames(): (names: seq<string>)
    ensures |names| == 10
  {
    seq(10, i requires 0 <= i < 10 => "VM" + NatToString(i + 1))
  }

  const Header: seq<string> := ["timestamp", "vm", "host", "cpu", "memory", "network_io", "power"]

  /** The random metrics of one row. */
  datatype Draw = Draw(cpu: int, memory: int, networkIo: real, power: int)

  /** `randint` includes both bounds and `uniform` may return either bound. */
  predicate ValidDraw(d: Draw) {
    && 10 <= d.cpu <= 90
    && 1 <= d.memory <= 32
    && 0.1 <= d.networkIo <= 5.0
    && 100 <= d.power <= 300
  }

  /** A CSV cell before formatting. */
  datatype Cell = Real(r: real) | Int(i: int) | Text(s: string)

  /** The row written for one VM and draw at clock reading `clock`. */
  function Row(clock: real, vm: string, d: Draw): (row: seq<Cell>)
    ensures |row| == |Header|
    ensures row[2].Text? && row[2].s in Hosts
    ensures row[2].s == "Host1" <==> d.cpu <= 33 && d.memory <= 11
    ensures row[2].s == "Host3" <==> d.cpu > 66 || d.memory > 22
  {
    var row := [Real(clock), Text(vm), Text(HostLabel(d.cpu, d.memory)), Int(d.cpu), Int(d.memory), Real(d.networkIo), Int(d.power)];
    row
  }

  /** The whole file: the header, then row `k` of the data made from round
      `k / 10` and VM `k % 10`. `draw(round, vm)` and `clock(k)` stand for
      the random generator and `time.time()`. */
  function File(draw: (nat, nat) -> Draw, clock: nat -> real): (rows: seq<seq<Cell>>)
    ensures |rows| == 1 + Rounds * |VmNames()|
  {
    [seq(|Header|, i requires 0 <= i < |Header| => Text(Header[i]))]
      + seq(Rounds * 10, k requires 0 <= k < Rounds * 10 => Row(clock(k), VmNames()[k % 10], draw(k / 10, k % 10)))
  }

  /** The cell of a row under a header name. */
  function Field(row: seq<Cell>, name: string): (c: Option<Cell>)
    requires |row| == |Header|
    ensures c.Some? <==> name in Header
  {
    match IndexOf(Header, name)
    case None => None
    case Some(i) => Some(row[i])
  }

  /** The header comes first; data row `k` belongs to round `k / 10` and to
      VM `k % 10 + 1`, so every round writes VM1 to VM10 in order. */
  lemma FileLayout(draw: (nat, nat) -> Draw, clock: nat -> real, k: nat)
    requires k < Rounds * 10
    ensures File(draw, clock)[0] == [Text("timestamp"), Text("vm"), Text("host"), Text("cpu"), Text("memory"), Text("network_io"), Text("power")]
    ensures File(draw, clock)[k + 1] == Row(clock(k), "VM" + NatToString(k % 10 + 1), draw(k / 10, k % 10))
  {
    var f := File(draw, clock);
    assert f[0] == seq(|Header|, i requires 0 <= i < |Header| => Text(Header[i]));
  }

  /** Reading a data row by the header's names gives back what was drawn:
      the cells are in the header's order. */
  lemma FieldsFollowHeader(clock: real, vm: string, d: Draw)
    ensures Field(Row(clock, vm, d), "timestamp") == Some(Real(clock))
    ensures Field(Row(clock, vm, d), "vm") == Some(Text(vm))
    ensures Field(Row(clock, vm, d), "host") == Some(Text(HostLabel(d.cpu, d.memory)))
    ensures Field(Row(clock, vm, d), "cpu") == Some(Int(d.cpu))
    ensures Field(Row(clock, vm, d), "memory") == Some(Int(d.memory))
    ensures Field(Row(clock, vm, d), "network_io") == Some(Real(d.networkIo))
    ensures Field(Row(clock, vm, d), "power") == Some(Int(d.power))
  {
    HeaderIndices();
  }

  lemma HeaderIndices()
    ensures IndexOf(Header, "timestamp") == Some(0)
    ensures IndexOf(Header, "vm") == Some(1)
    ensures IndexOf(Header, "host") == Some(2)
    ensures IndexOf(Header, "cpu") == Some(3)
    ensures IndexOf(Header, "memory") == Some(4)
    ensures IndexOf(Header, "network_io") == Some(5)
    ensures IndexOf(Header, "power") == Some(6)
  {
    HeaderDistinct();
    IndexOfDistinct(Header, 0);
    IndexOfDistinct(Header, 1);
    IndexOfDistinct(Header, 2);
    IndexOfDistinct(Header, 3);
    IndexOfDistinct(Header, 4);
    IndexOfDistinct(Header, 5);
    IndexOfDistinct(Header, 6);
  }

  /** The column names have seven different lengths. */
  lemma HeaderDistinct()
    ensures forall i, j :: 0 <= i < j < |Header| ==> Header[i] != Header[j]
  {
    assert forall i, j :: 0 <= i < j < |Header| ==> |Header[i]| != |Header[j]|;
  }

  /** Every data row's host cell follows the rule, names one of the three
      hosts, and its metrics lie in the drawn ranges. */
  lemma RowsFollowTheRule(draw: (nat, nat) -> Draw, clock: nat -> real, k: nat)
    requires k < Rounds * 10
    requires ValidDraw(draw(k / 10, k % 10))
    ensures var row := File(draw, clock)[k + 1];
      var d := draw(k / 10, k % 10);
      && row[2].Text? && row[2].s in Hosts
      && (row[2].s == "Host1" <==> d.cpu <= 33 && d.memory <= 11)
      && (row[2].s == "Host3" <==> d.cpu > 66 || d.memory > 22)
      && row[3].Int? && 10 <= row[3].i <= 90
      && row[4].Int? && 1 <= row[4].i <= 32
      && row[5].Real? && 0.1 <= row[5].r <= 5.0
      && row[6].Int? && 100 <= row[6].i <= 300
  {
    FileLayout(draw, clock, k);
  }

  /** The file's hosts are the labels the encoders see, and its VM names
      are those of the synthetic data set. */
  lemma SameNamesAsTraining(i: nat)
    ensures Hosts == HostLabels
    ensures VmNames()[i % 10] == SyntheticVmName(i)
  {
  }
}

/** A Python dict as the comparison code uses it: entries kept in insertion
    order, assignment to a present key replacing its value in place and
    assignment to a new key appending it, `update` assigning the entries of
    another dict one after another. */
module OrderedDict {
  import opened Common

  datatype Named<V> = Named(name: string, value: V)

  /** The keys, in order. */
  function Keys<V>(d: seq<Named<V>>): (ks: seq<string>)
    ensures |ks| == |d|
    ensures forall i :: 0 <= i < |d| ==> ks[i] == d[i].name
  {
    if |d| == 0 then [] else [d[0].name] + Keys(d[1..])
  }

  /** No key occurs twice. */
  predicate UniqueKeys<V>(d: seq<Named<V>>) {
    forall i, j :: 0 <= i < j < |d| ==> d[i].name != d[j].name
  }

  /** `d.get(k)`: the value stored under `k`. */
  function Find<V>(d: seq<Named<V>>, k: string): (r: Option<V>)
    ensures r.Some? <==> k in Keys(d)
    ensures r.Some? ==> exists i :: 0 <= i < |d| && d[i] == Named(k, r.value)
  {
    if |d| == 0 then None
    else if d[0].name == k then Some(d[0].value)
    else
      var r := Find(d[1..], k);
      assert r.Some? ==> exists i :: 0 <= i < |d[1..]| && d[1..][i] == Named(k, r.value);
      assert r.Some? ==> exists i :: 0 <= i < |d| && d[i] == Named(k, r.value) by {
        if r.Some? {
          var i :| 0 <= i < |d[1..]| && d[1..][i] == Named(k, r.value);
          assert d[i + 1] == Named(k, r.value);
        }
      }
      r
  }

  /** With unique keys, the entry holding `k` is the one `Find` reads. */
  lemma FindAt<V>(d: seq<Named<V>>, i: int)
    requires UniqueKeys(d) && 0 <= i < |d|
    ensures Find(d, d[i].name) == Some(d[i].value)
  {
    var j :| 0 <= j < |d| && d[j] == Named(d[i].name, Find(d, d[i].name).value);
    assert j == i by {
      assert !(j < i) && !(i < j);
    }
  }

  /** `d[k] = v`. */
  function Assign<V>(d: seq<Named<V>>, k: string, v: V): (r: seq<Named<V>>)
    ensures Find(r, k) == Some(v)
    ensures forall k2 :: k2 != k ==> Find(r, k2) == Find(d, k2)
    ensures k in Keys(d) ==> Keys(r) == Keys(d)
    ensures k !in Keys(d) ==> Keys(r) == Keys(d) + [k]
    ensures UniqueKeys(d) ==> UniqueKeys(r)
  {
    if |d| == 0 then [Named(k, v)]
    else if d[0].name == k then
      var r := [Named(k, v)] + d[1..];
      ReplaceHead(d, k, v);
      r
    else
      var rest := Assign(d[1..], k, v);
      NamesAmong(rest, Keys(d[1..]), k);
      FindBehind(d, k, v, rest);
      KeysBehind(d, k, rest);
      UniqueBehind(d, k, rest);
      [d[0]] + rest
  }

  /** Keys that are `ks`, possibly followed by `k`, are each `k` or in `ks`. */
  lemma NamesAmong<V>(r: seq<Named<V>>, ks: seq<string>, k: string)
    requires Keys(r) == ks || Keys(r) == ks + [k]
    ensures forall j :: 0 <= j < |r| ==> r[j].name == k || r[j].name in ks
  {
    forall j | 0 <= j < |r|
      ensures r[j].name == k || r[j].name in ks
    {
      assert r[j].name == Keys(r)[j];
    }
  }

  /** Lookups in a sequence with one entry put in front. */
  lemma FindCons<V>(x: Named<V>, rest: seq<Named<V>>, k: string)
    ensures Find([x] + rest, k) == if x.name == k then Some(x.value) else Find(rest, k)
  {
    assert ([x] + rest)[1..] == rest;
  }

  /** The step of `Assign` that overwrites the first entry. */
  lemma ReplaceHead<V>(d: seq<Named<V>>, k: string, v: V)
    requires |d| > 0 && d[0].name == k
    ensures var r := [Named(k, v)] + d[1..];
      && Find(r, k) == Some(v)
      && (forall k2 :: k2 != k ==> Find(r, k2) == Find(d, k2))
      && Keys(r) == Keys(d)
      && (UniqueKeys(d) ==> UniqueKeys(r))
  {
    var r := [Named(k, v)] + d[1..];
    FindCons(Named(k, v), d[1..], k);
    forall k2 | k2 != k
      ensures Find(r, k2) == Find(d, k2)
    {
      FindCons(Named(k, v), d[1..], k2);
      FindCons(d[0], d[1..], k2);
      assert [d[0]] + d[1..] == d;
    }
    assert Keys(r) == Keys(d);
  }

  /** The steps of `Assign` that keep the first entry and assign behind it. */
  lemma FindBehind<V>(d: seq<Named<V>>, k: string, v: V, rest: seq<Named<V>>)
    requires |d| > 0 && d[0].name != k
    requires Find(rest, k) == Some(v)
    requires forall k2 :: k2 != k ==> Find(rest, k2) == Find(d[1..], k2)
    ensures Find([d[0]] + rest, k) == Some(v)
    ensures forall k2 :: k2 != k ==> Find([d[0]] + rest, k2) == Find(d, k2)
  {
    FindCons(d[0], rest, k);
    forall k2 | k2 != k
      ensures Find([d[0]] + rest, k2) == Find(d, k2)
    {
      FindCons(d[0], rest, k2);
      FindCons(d[0], d[1..], k2);
      assert [d[0]] + d[1..] == d;
    }
  }

  lemma KeysBehind<V>(d: seq<Named<V>>, k: string, rest: seq<Named<V>>)
    requires |d| > 0 && d[0].name != k
    requires k in Keys(d[1..]) ==> Keys(rest) == Keys(d[1..])
    requires k !in Keys(d[1..]) ==> Keys(rest) == Keys(d[1..]) + [k]
    ensures k in Keys(d) ==> Keys([d[0]] + rest) == Keys(d)
    ensures k !in Keys(d) ==> Keys([d[0]] + rest) == Keys(d) + [k]
  {
    var r := [d[0]] + rest;
    assert r[1..] == rest;
    assert Keys(d) == [d[0].name] + Keys(d[1..]);
    assert Keys(r) == [d[0].name] + Keys(rest);
  }

  lemma UniqueBehind<V>(d: seq<Named<V>>, k: string, rest: seq<Named<V>>)
    requires |d| > 0 && d[0].name != k
    requires |rest| >= |d| - 1
    requires forall j :: 0 <= j < |rest| ==> rest[j].name == k || rest[j].name in Keys(d[1..])
    requires UniqueKeys(d[1..]) ==> UniqueKeys(rest)
    ensures UniqueKeys(d) ==> UniqueKeys([d[0]] + rest)
  {
    if UniqueKeys(d) {
      assert UniqueKeys(d[1..]);
      var r := [d[0]] + rest;
      forall j | 0 < j < |r|
        ensures r[j].name != d[0].name
      {
        assert r[j] == rest[j - 1];
        if r[j].name != k {
          var m :| 0 <= m < |d[1..]| && Keys(d[1..])[m] == r[j].name;
          assert d[m + 1].name == r[j].name;
        }
      }
    }
  }

  /** `d.update(u)`: the entries of `u` assigned in order. */
  function Update<V>(d: seq<Named<V>>, u: seq<Named<V>>): (r: seq<Named<V>>)
    ensures forall k :: k !in Keys(u) ==> Find(r, k) == Find(d, k)
    ensures (forall k :: k in Keys(u) ==> k in Keys(d)) ==> Keys(r) == Keys(d)
    ensures UniqueKeys(d) ==> UniqueKeys(r)
    decreases |u|
  {
    if |u| == 0 then d
    else
      assert Keys(u) == [u[0].name] + Keys(u[1..]);
      Update(Assign(d, u[0].name, u[0].value), u[1..])
  }

  /** After an update with unique keys every updated key holds its new
      value. */
  lemma {:induction false} UpdateSets<V>(d: seq<Named<V>>, u: seq<Named<V>>, i: int)
    requires UniqueKeys(u) && 0 <= i < |u|
    ensures Find(Update(d, u), u[i].name) == Some(u[i].value)
    decreases |u|
  {
    assert Keys(u) == [u[0].name] + Keys(u[1..]);
    var d1 := Assign(d, u[0].name, u[0].value);
    if i == 0 {
      assert u[0].name !in Keys(u[1..]);
    } else {
      assert u[1..][i - 1] == u[i];
      UpdateSets(d1, u[1..], i - 1);
    }
  }
}

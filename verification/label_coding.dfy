/** Label encoding as the servers use it: an encoder is fitted to a column of
    names and keeps the distinct names in ascending string order (Python
    compares strings code point by code point); a name is encoded as its
    position in that list, and a position is decoded back to the name. */
module LabelCoding {
  import opened Common

  /** Python's `a < b` on strings. */
  predicate StrLess(a: string, b: string)
    decreases |a|
  {
    if |a| == 0 then |b| > 0
    else if |b| == 0 then false
    else if a[0] != b[0] then a[0] < b[0]
    else StrLess(a[1..], b[1..])
  }

  lemma {:induction false} StrLessIrreflexive(a: string)
    ensures !StrLess(a, a)
    decreases |a|
  {
    if |a| > 0 {
      StrLessIrreflexive(a[1..]);
    }
  }

  lemma {:induction false} StrLessTransitive(a: string, b: string, c: string)
    requires StrLess(a, b) && StrLess(b, c)
    ensures StrLess(a, c)
    decreases |a|
  {
    if |a| > 0 && a[0] == b[0] && b[0] == c[0] {
      StrLessTransitive(a[1..], b[1..], c[1..]);
    }
  }

  lemma {:induction false} StrLessTotal(a: string, b: string)
    requires a != b
    ensures StrLess(a, b) || StrLess(b, a)
    decreases |a|
  {
    if |a| > 0 && |b| > 0 && a[0] == b[0] {
      assert a == [a[0]] + a[1..] && b == [b[0]] + b[1..];
      StrLessTotal(a[1..], b[1..]);
    }
  }

  /** Strictly ascending, hence without repetitions. */
  predicate StrictlySorted(s: seq<string>) {
    forall i, j :: 0 <= i < j < |s| ==> StrLess(s[i], s[j])
  }

  lemma SortedDistinct(s: seq<string>, i: int, j: int)
    requires StrictlySorted(s)
    requires 0 <= i < |s| && 0 <= j < |s| && i != j
    ensures s[i] != s[j]
  {
    if i < j {
      StrLessIrreflexive(s[i]);
    } else {
      StrLessIrreflexive(s[j]);
    }
  }

  /** Puts `x` into its place in a sorted list, unless it is already there. */
  function Insert(x: string, s: seq<string>): (r: seq<string>)
    requires StrictlySorted(s)
    ensures StrictlySorted(r)
    ensures forall y :: y in r <==> y == x || y in s
    decreases |s|
  {
    if |s| == 0 then [x]
    else if x == s[0] then s
    else if StrLess(x, s[0]) then
      assert forall j :: 0 <= j < |s| ==> StrLess(x, s[j]) by {
        forall j | 0 <= j < |s| ensures StrLess(x, s[j]) {
          if j > 0 {
            StrLessTransitive(x, s[0], s[j]);
          }
        }
      }
      [x] + s
    else
      StrLessTotal(x, s[0]);
      var rest := Insert(x, s[1..]);
      assert forall j :: 0 <= j < |rest| ==> StrLess(s[0], rest[j]) by {
        forall j | 0 <= j < |rest| ensures StrLess(s[0], rest[j]) {
          assert rest[j] in rest;
          if rest[j] != x {
            var m :| 0 <= m < |s[1..]| && s[1..][m] == rest[j];
            assert s[m + 1] == rest[j];
          }
        }
      }
      [s[0]] + rest
  }

  datatype Encoder = Encoder(classes: seq<string>)

  /** `fit`: the distinct values of the column, in ascending order. */
  function Fit(values: seq<string>): (e: Encoder)
    ensures StrictlySorted(e.classes)
    ensures forall y :: y in e.classes <==> y in values
    decreases |values|
  {
    if |values| == 0 then Encoder([])
    else Encoder(Insert(values[|values| - 1], Fit(values[..|values| - 1]).classes))
  }

  /** The first position of `x` in `s`. */
  function IndexOf(s: seq<string>, x: string): (r: Option<nat>)
    ensures r.Some? <==> x in s
    ensures r.Some? ==> r.value < |s| && s[r.value] == x
    decreases |s|
  {
    if |s| == 0 then None
    else if s[0] == x then Some(0)
    else match IndexOf(s[1..], x)
      case None => None
      case Some(i) => Some(i + 1)
  }

  /** In a sequence without repeats every element's position is its own. */
  lemma IndexOfDistinct(s: seq<string>, i: int)
    requires 0 <= i < |s|
    requires forall a, b :: 0 <= a < b < |s| ==> s[a] != s[b]
    ensures IndexOf(s, s[i]) == Some(i)
  {
    assert s[i] in s;
    SamePositionWhenDistinct(s, IndexOf(s, s[i]).value, i);
  }

  lemma SamePositionWhenDistinct(s: seq<string>, i: int, j: int)
    requires 0 <= i < |s| && 0 <= j < |s| && s[i] == s[j]
    requires forall a, b :: 0 <= a < b < |s| ==> s[a] != s[b]
    ensures i == j
  {
  }

  /** `transform` of one name: its position among the classes, or nothing
      for a name the encoder has not seen (the library raises). */
  function Transform(e: Encoder, x: string): (r: Option<nat>)
    ensures r.Some? <==> x in e.classes
    ensures r.Some? ==> r.value < |e.classes| && e.classes[r.value] == x
  {
    IndexOf(e.classes, x)
  }

  /** `inverse_transform` of one code: the class at that position, or nothing
      for a code outside the classes (the library raises). */
  function InverseTransform(e: Encoder, code: int): (r: Option<string>)
    ensures r.Some? <==> 0 <= code < |e.classes|
  {
    if 0 <= code < |e.classes| then Some(e.classes[code]) else None
  }

  /** Encoding then decoding gives back the name; on a fitted encoder,
      decoding then encoding gives back the code. */
  lemma CodingRoundTrip(e: Encoder, x: string, code: int)
    requires StrictlySorted(e.classes)
    ensures Transform(e, x).Some? ==> InverseTransform(e, Transform(e, x).value) == Some(x)
    ensures InverseTransform(e, code).Some? ==> Transform(e, InverseTransform(e, code).value) == Some(code as nat)
  {
    if InverseTransform(e, code).Some? {
      var i := Transform(e, e.classes[code]).value;
      if i != code {
        SortedDistinct(e.classes, i, code);
      }
    }
  }

  const HostLabels: seq<string> := ["Host1", "Host2", "Host3"]

  lemma HostLabelsAscending()
    ensures StrictlySorted(HostLabels)
  {
    assert StrLess("Host1", "Host2") by {
      assert "Host1"[1..][1..][1..][1..] == "1" && "Host2"[1..][1..][1..][1..] == "2";
    }
    assert StrLess("Host2", "Host3") by {
      assert "Host2"[1..][1..][1..][1..] == "2" && "Host3"[1..][1..][1..][1..] == "3";
    }
    StrLessTransitive("Host1", "Host2", "Host3");
  }

  /** A strictly sorted list is determined by its elements. */
  lemma {:induction false} SortedUnique(a: seq<string>, b: seq<string>)
    requires StrictlySorted(a) && StrictlySorted(b)
    requires forall y :: y in a <==> y in b
    ensures a == b
    decreases |a|
  {
    if |b| > 0 {
      assert b[0] in a;
    }
    if |a| > 0 {
      assert a[0] in b;
    }
    if |a| > 0 && |b| > 0 {
      assert a[0] == b[0] by {
        assert a[0] in b && b[0] in a;
        var i :| 0 <= i < |b| && b[i] == a[0];
        var j :| 0 <= j < |a| && a[j] == b[0];
        if a[0] != b[0] {
          assert i > 0 && j > 0;
          StrLessTransitive(a[0], a[j], b[i]);
          StrLessIrreflexive(a[0]);
        }
      }
      forall y
        ensures y in a[1..] <==> y in b[1..]
      {
        if y in a[1..] {
          var i :| 0 <= i < |a[1..]| && a[1..][i] == y;
          SortedDistinct(a, 0, i + 1);
          assert y in b && y != b[0];
        }
        if y in b[1..] {
          var i :| 0 <= i < |b[1..]| && b[1..][i] == y;
          SortedDistinct(b, 0, i + 1);
          assert y in a && y != a[0];
        }
      }
      SortedUnique(a[1..], b[1..]);
      assert a == [a[0]] + a[1..] && b == [b[0]] + b[1..];
    }
  }

  /** An encoder fitted to a column in which all three host labels occur,
      and nothing else, codes Host1, Host2 and Host3 as 0, 1 and 2. */
  lemma HostLabelCodes(values: seq<string>)
    requires forall y :: y in values <==> y in HostLabels
    ensures Fit(values).classes == HostLabels
  {
    HostLabelsAscending();
    SortedUnique(Fit(values).classes, HostLabels);
  }
}

/** Facts about finite sets, maps and sequences used by several modules. */
module Collections {
  ghost function Pick<T>(s: set<T>): (x: T)
    requires s != {}
    ensures x in s
  {
    var x :| x in s;
    x
  }

  lemma GrowSize<K, V>(m: map<K, V>, x: K, v: V)
    requires x !in m
    ensures |m[x := v]| == |m| + 1
  {
  }

  lemma ShrinkSize<K, V>(m: map<K, V>, x: K)
    requires x in m
    ensures |m - {x}| == |m| - 1
  {
  }

  /** An element of greatest weight. */
  ghost predicate IsMost<T>(x: T, s: set<T>, weight: T -> int) {
    x in s && forall y :: y in s ==> weight(y) <= weight(x)
  }

  lemma {:induction false} MostExists<T>(s: set<T>, weight: T -> int) returns (z: T)
    requires s != {}
    ensures IsMost(z, s, weight)
    decreases |s|
  {
    var x := Pick(s);
    var others := s - {x};
    if others == {} {
      z := x;
    } else {
      var y := MostExists(others, weight);
      z := if weight(x) > weight(y) then x else y;
    }
    assert forall j :: j in s ==> j == x || j in others;
  }

  function Join<T>(parts: seq<seq<T>>): seq<T> {
    if parts == [] then [] else parts[0] + Join(parts[1..])
  }

  lemma {:induction false} JoinAppend<T>(a: seq<seq<T>>, b: seq<seq<T>>)
    ensures Join(a + b) == Join(a) + Join(b)
  {
    if a == [] {
      assert a + b == b;
    } else {
      assert (a + b)[1..] == a[1..] + b;
      JoinAppend(a[1..], b);
    }
  }

  lemma JoinOne<T>(p: seq<T>)
    ensures Join([p]) == p
  {
  }
}

module Media {
  /** Audio and payloads that are moved about; nothing looks inside a byte. */
  type Bytes = seq<bv8>
}

/** Cardinality of finite sets. */
module Sets {
  lemma SubsetSize<T>(a: set<T>, b: set<T>)
    requires a <= b
    ensures |a| <= |b| && |b - a| == |b| - |a| && (|a| == |b| ==> a == b)
  {
    assert b == a + (b - a);
    assert |b| == |a| + |b - a|;
    assert |a| == |b| ==> |b - a| == 0;
  }

  lemma OneMore<T>(x: T, a: set<T>)
    requires x !in a
    ensures |{x} + a| == |a| + 1
  {
    assert {x} + a == a + {x};
  }

  lemma Partition<T>(a: set<T>, b: set<T>)
    ensures |a| == |a - b| + |a * b| && |a + b| == |b| + |a - b|
  {
    assert a == (a - b) + a * b;
    assert a + b == b + (a - b);
  }

  lemma EmptyMeetAndRest<T>(a: set<T>, b: set<T>)
    ensures |a * b| == 0 <==> a !! b
    ensures |a - b| == 0 <==> a <= b
  {
    if |a * b| == 0 {
      assert forall x | x in a && x in b :: x in a * b;
    } else {
      var x :| x in a * b;
    }
    if |a - b| == 0 {
      assert forall x | x in a && x !in b :: x in a - b;
    } else {
      var x :| x in a - b;
    }
  }
}

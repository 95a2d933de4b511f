/** Sizes of sets, and names outside them. */
module Sets {

  lemma SubsetSize<T>(a: set<T>, b: set<T>)
    requires a <= b
    ensures |a| <= |b|
    ensures |a| == |b| ==> a == b
  {
    assert b == a + (b - a);
  }

  lemma {:induction false} FreshId(ids: set<string>) returns (x: string)
    ensures x !in ids
  {
    var n := Longest(ids);
    x := seq(n + 1, i => 'x');
  }

  lemma {:induction false} Longest(ids: set<string>) returns (n: nat)
    ensures forall x :: x in ids ==> |x| <= n
  {
    if ids == {} {
      n := 0;
    } else {
      var x :| x in ids;
      var m := Longest(ids - {x});
      n := if |x| > m then |x| else m;
    }
  }
}

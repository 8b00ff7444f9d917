/** Option, result and the few facts about finite sets that the other modules share. */
module Prelude {

  datatype Option<+T> = None | Some(value: T)

  datatype Result<+T, +E> = Ok(value: T) | Err(error: E)

  lemma SubsetSize<T>(a: set<T>, b: set<T>)
    requires a <= b
    ensures |a| <= |b|
    ensures a < b ==> |a| < |b|
  {
    assert b == a + (b - a);
  }

  /** A set of numbers between 1 and `n` has at most `n` members. */
  lemma {:induction false} BoundedSetSize(s: set<nat>, n: nat)
    requires forall x | x in s :: 1 <= x <= n
    ensures |s| <= n
  {
    if n == 0 {
      assert s == {};
    } else {
      BoundedSetSize(s - {n}, n - 1);
    }
  }

  ghost function Pick<T>(s: set<T>): (x: T)
    requires s != {}
    ensures x in s
  {
    var x :| x in s;
    x
  }

  predicate IsMax(s: set<int>, m: int) {
    m in s && forall x | x in s :: x <= m
  }

  lemma {:induction false} MaxExists(s: set<int>)
    requires s != {}
    ensures exists m :: IsMax(s, m)
  {
    var x := Pick(s);
    if s == {x} {
      assert IsMax(s, x);
    } else {
      MaxExists(s - {x});
      var m :| IsMax(s - {x}, m);
      var top := if m < x then x else m;
      forall y | y in s
        ensures y <= top
      {
        assert y == x || y in s - {x};
      }
      assert IsMax(s, top);
    }
  }

  /** The largest member: `GREATEST` and `MAX` in the queries. */
  function MaxOf(s: set<int>): (m: int)
    requires s != {}
    ensures IsMax(s, m)
  {
    MaxExists(s);
    var m :| m in s && forall x | x in s :: x <= m;
    m
  }

  lemma MaxOfUnion(a: set<int>, b: set<int>)
    requires a != {}
    ensures MaxOf({MaxOf(a)} + b) == MaxOf(a + b)
  {
    var m := MaxOf({MaxOf(a)} + b);
    assert IsMax(a + b, m);
  }
}

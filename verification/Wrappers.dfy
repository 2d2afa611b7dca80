/** Shared value types and small facts about finite sets. */
module Wrappers {

  type Time = nat

  datatype Option<+T> = None | Some(value: T)

  ghost predicate IsLeast(s: set<nat>, m: nat) {
    m in s && forall x :: x in s ==> m <= x
  }

  /** The least element of a non-empty finite set. */
  function Min(s: set<nat>): (m: nat)
    requires s != {}
    ensures m in s && forall x :: x in s ==> m <= x
  {
    MinExists(s);
    assert exists m :: m in s && forall x :: x in s ==> m <= x by {
      var m :| IsLeast(s, m);
    }
    var m :| m in s && forall x :: x in s ==> m <= x;
    m
  }

  lemma {:induction false} MinExists(s: set<nat>)
    requires s != {}
    ensures exists m :: IsLeast(s, m)
  {
    var a :| a in s;
    var rest := s - {a};
    if rest == {} {
      assert s == {a};
      assert IsLeast(s, a);
    } else {
      MinExists(rest);
      var b :| IsLeast(rest, b);
      assert s == rest + {a};
      assert IsLeast(s, if a <= b then a else b);
    }
  }

  /** The greatest element of a non-empty finite set. */
  function Max(s: set<nat>): (m: nat)
    requires s != {}
    ensures m in s && forall x :: x in s ==> x <= m
  {
    MaxExists(s);
    assert exists m :: m in s && forall x :: x in s ==> x <= m by {
      var m :| IsGreatest(s, m);
    }
    var m :| m in s && forall x :: x in s ==> x <= m;
    m
  }

  ghost predicate IsGreatest(s: set<nat>, m: nat) {
    m in s && forall x :: x in s ==> x <= m
  }

  lemma {:induction false} MaxExists(s: set<nat>)
    requires s != {}
    ensures exists m :: IsGreatest(s, m)
  {
    var a :| a in s;
    var rest := s - {a};
    if rest == {} {
      assert s == {a};
      assert IsGreatest(s, a);
    } else {
      MaxExists(rest);
      var b :| IsGreatest(rest, b);
      assert s == rest + {a};
      assert IsGreatest(s, if a <= b then b else a);
    }
  }

  /** The least element of `s` that is at least `from`, if there is one. */
  function LeastFrom(s: set<nat>, from: nat): (r: Option<nat>)
    ensures r.None? ==> forall x :: x in s ==> x < from
    ensures r.Some? ==> r.value in s && from <= r.value
    ensures r.Some? ==> forall x :: x in s && from <= x ==> r.value <= x
  {
    var rest := set x | x in s && from <= x;
    assert forall x :: x in s && from <= x ==> x in rest;
    if rest == {} then
      None
    else
      Some(Min(rest))
  }

  /** Pigeonhole: a subset of the same size is the whole set. */
  lemma {:induction false} SubsetOfSameSize<T>(small: set<T>, big: set<T>)
    requires small <= big
    ensures |small| <= |big|
    ensures |small| == |big| <==> small == big
  {
    assert big == small + (big - small);
  }
}

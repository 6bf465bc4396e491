/** Least and greatest elements of non-empty finite sets of integers. */
module Extrema {

  function Min(s: set<int>): (m: int)
    requires s != {}
    ensures m in s && forall x :: x in s ==> m <= x
  {
    MinExists(s);
    var m :| m in s && forall x :: x in s ==> m <= x;
    m
  }

  function Max(s: set<int>): (m: int)
    requires s != {}
    ensures m in s && forall x :: x in s ==> x <= m
  {
    MaxExists(s);
    var m :| m in s && forall x :: x in s ==> x <= m;
    m
  }

  lemma {:induction false} AnyElement<T>(s: set<T>) returns (x: T)
    requires s != {}
    ensures x in s
  {
    x :| x in s;
  }

  lemma {:induction false} MinExists(s: set<int>)
    requires s != {}
    ensures exists m :: m in s && forall x :: x in s ==> m <= x
  {
    var a := AnyElement(s);
    if s != {a} {
      var rest := s - {a};
      MinExists(rest);
      var b :| b in rest && forall x :: x in rest ==> b <= x;
      var m := if a <= b then a else b;
      assert forall x :: x in s ==> x == a || x in rest;
      assert m in s && forall x :: x in s ==> m <= x;
    } else {
      assert forall x :: x in s ==> a <= x;
    }
  }

  lemma {:induction false} MaxExists(s: set<int>)
    requires s != {}
    ensures exists m :: m in s && forall x :: x in s ==> x <= m
  {
    var a := AnyElement(s);
    if s != {a} {
      var rest := s - {a};
      MaxExists(rest);
      var b :| b in rest && forall x :: x in rest ==> x <= b;
      var m := if a >= b then a else b;
      assert forall x :: x in s ==> x == a || x in rest;
      assert m in s && forall x :: x in s ==> x <= m;
    } else {
      assert forall x :: x in s ==> x <= a;
    }
  }
}

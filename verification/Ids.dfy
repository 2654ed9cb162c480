/** Ascending lists of instance ids. */
module Ids {

  predicate Ascending(ids: seq<int>) { forall i, j :: 0 <= i < j < |ids| ==> ids[i] < ids[j] }

  /** Inserts an id into an ascending list, once. */
  function InsertId(ids: seq<int>, x: int): (r: seq<int>)
    requires Ascending(ids)
    ensures Ascending(r) && forall y :: y in r <==> y in ids || y == x
    decreases |ids|
  {
    if ids == [] then [x]
    else
      var n := |ids| - 1;
      if ids[n] == x then ids
      else if ids[n] < x then ids + [x]
      else
        assert forall y :: y in ids <==> y in ids[..n] || y == ids[n];
        var front := InsertId(ids[..n], x);
        assert forall i :: 0 <= i < |front| ==> front[i] in front;
        front + [ids[n]]
  }

  /** An ascending list is determined by its members. */
  lemma {:induction false} AscendingUnique(a: seq<int>, b: seq<int>)
    requires Ascending(a) && Ascending(b) && forall x :: x in a <==> x in b
    ensures a == b
    decreases |a|
  {
    if a == [] {
      assert forall i :: 0 <= i < |b| ==> b[i] in a;
    } else {
      var x := a[|a| - 1];
      assert x in b;
      var y := b[|b| - 1];
      assert y in a && x == y;
      var c, d := a[..|a| - 1], b[..|b| - 1];
      assert (forall z :: z in a <==> z in c || z == x) && (forall z :: z in b <==> z in d || z == x);
      AscendingUnique(c, d);
    }
  }

  lemma SomeMember(ids: set<int>)
    requires ids != {}
    ensures exists x :: x in ids
  {
    if forall x :: x !in ids {
      assert false;
    }
  }

  method SortedIds(ids: set<int>) returns (sorted: seq<int>)
    ensures Ascending(sorted) && forall x :: x in sorted <==> x in ids
  {
    sorted := [];
    var todo := ids;
    while todo != {}
      invariant todo <= ids && Ascending(sorted)
      invariant forall x :: x in sorted <==> x in ids - todo
      invariant forall x, y :: x in sorted && y in todo ==> x < y
      decreases todo
    {
      var least := Least(todo);
      assert forall i :: 0 <= i < |sorted| ==> sorted[i] in sorted;
      sorted := sorted + [least];
      todo := todo - {least};
    }
  }

  method Least(ids: set<int>) returns (least: int)
    requires ids != {}
    ensures least in ids && forall x :: x in ids ==> least <= x
  {
    SomeMember(ids);
    least :| least in ids;
    var todo := ids - {least};
    while todo != {}
      invariant todo <= ids && least in ids
      invariant forall x :: x in ids ==> x in todo || least <= x
      decreases todo
    {
      SomeMember(todo);
      var x :| x in todo;
      if x < least {
        least := x;
      }
      todo := todo - {x};
    }
  }
}

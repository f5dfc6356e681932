/** The order of the task listings: `ORDER BY priority DESC, id ASC`. */
module Listing {
  import opened Tables

  /** Task `a` comes strictly before task `b`: a higher priority first, and
      among equal priorities the lower id. */
  predicate Ahead(tasks: Tasks, a: int, b: int)
    requires a in tasks && b in tasks
  {
    || tasks[a].priority > tasks[b].priority
    || (tasks[a].priority == tasks[b].priority && a < b)
  }

  /** Ids of `tasks` listed in strictly increasing listing order (hence
      without repetition). */
  predicate Sorted(tasks: Tasks, ids: seq<int>)
  {
    && (forall i :: 0 <= i < |ids| ==> ids[i] in tasks)
    && (forall i, j :: 0 <= i < j < |ids| ==> Ahead(tasks, ids[i], ids[j]))
  }

  /** The row that leads a listing of `ids`. */
  predicate First(tasks: Tasks, ids: set<int>, x: int)
    requires ids <= tasks.Keys
  {
    x in ids && forall y :: y in ids && y != x ==> Ahead(tasks, x, y)
  }

  /** Every non-empty set of tasks has a leading row: the listing order is total. */
  lemma {:induction false} FirstExists(tasks: Tasks, ids: set<int>)
    requires ids <= tasks.Keys && ids != {}
    ensures exists x :: First(tasks, ids, x)
    decreases ids
  {
    assert (forall y :: y !in ids) ==> ids == {};
    var z :| z in ids;
    var rest := ids - {z};
    if rest == {} {
      assert ids == {z};
      assert First(tasks, ids, z);
    } else {
      FirstExists(tasks, rest);
      var x :| First(tasks, rest, x);
      if Ahead(tasks, x, z) {
        assert First(tasks, ids, x);
      } else {
        forall y | y in ids && y != z
          ensures Ahead(tasks, z, y)
        {
          if y != x {
            assert Ahead(tasks, x, y);
          }
        }
        assert First(tasks, ids, z);
      }
    }
  }

  /** The ids of `ids` in listing order. */
  function Ordered(tasks: Tasks, ids: set<int>): (r: seq<int>)
    requires ids <= tasks.Keys
    ensures |r| == |ids|
    ensures forall x :: x in r <==> x in ids
    ensures Sorted(tasks, r)
    decreases ids
  {
    if ids == {} then []
    else
      FirstExists(tasks, ids);
      var x :| First(tasks, ids, x);
      var rest := Ordered(tasks, ids - {x});
      assert forall i :: 0 <= i < |rest| ==> rest[i] in ids - {x};
      LeaderSorted(tasks, x, rest);
      [x] + rest
  }

  /** A listing stays in order when a row that leads all of it is put in front. */
  lemma LeaderSorted(tasks: Tasks, x: int, rest: seq<int>)
    requires x in tasks && Sorted(tasks, rest)
    requires forall i :: 0 <= i < |rest| ==> Ahead(tasks, x, rest[i])
    ensures Sorted(tasks, [x] + rest)
  {
  }

  /** In a listing, the first row leads every other row of it. */
  lemma HeadLeads(tasks: Tasks, s: seq<int>, x: int)
    requires Sorted(tasks, s) && x in s
    ensures x == s[0] || Ahead(tasks, s[0], x)
  {
  }

  /** Two listings in listing order with the same ids are the same listing:
      `ORDER BY priority DESC, id ASC` leaves no ties to the store's choice. */
  lemma {:induction false} SortedUnique(tasks: Tasks, a: seq<int>, b: seq<int>)
    requires Sorted(tasks, a) && Sorted(tasks, b)
    requires forall x :: x in a <==> x in b
    ensures a == b
    decreases |a|
  {
    if a == [] || b == [] {
      var x := if a != [] then a[0] else 0;
      var y := if b != [] then b[0] else 0;
      assert a != [] ==> x in a;
      assert b != [] ==> y in b;
    } else {
      HeadLeads(tasks, a, b[0]);
      HeadLeads(tasks, b, a[0]);
      assert a[0] == b[0];
      forall x
        ensures x in a[1..] <==> x in b[1..]
      {
        if x in a[1..] {
          var i :| 1 <= i < |a| && a[i] == x;
          assert Ahead(tasks, a[0], a[i]);
          assert x in b;
        }
        if x in b[1..] {
          var j :| 1 <= j < |b| && b[j] == x;
          assert Ahead(tasks, b[0], b[j]);
          assert x in a;
        }
      }
      SortedUnique(tasks, a[1..], b[1..]);
      assert a == [a[0]] + a[1..];
      assert b == [b[0]] + b[1..];
    }
  }
}

/**
 Keyset pagination: bounded pages of a table by increasing id, each one taken
 after the last id of the previous one. Ids are serial and start at one.
 */
module Keyset {
  import opened Prelude

  /** SELECT ... WHERE want AND id > after ORDER BY id LIMIT limit. */
  ghost predicate IsPage<R>(rows: map<nat, R>, want: R -> bool, after: nat, limit: nat, page: seq<nat>) {
    && |page| <= limit && Increasing(page)
    && (forall id :: id in page ==> id in rows && want(rows[id]) && after < id)
    && (forall id :: id in rows && want(rows[id]) && after < id && id !in page ==>
      |page| == limit && forall other :: other in page ==> other < id)
  }

  function Ids(page: seq<nat>): (r: set<nat>)
    ensures forall id :: id in r <==> id in page
  {
    set id | id in page
  }

  lemma {:induction false} IncreasingSize(page: seq<nat>)
    requires Increasing(page)
    ensures |Ids(page)| == |page|
  {
    if page != [] {
      var n := |page| - 1;
      IncreasingSize(page[..n]);
      assert page == page[..n] + [page[n]];
      assert Ids(page) == Ids(page[..n]) + {page[n]};
      assert page[n] !in page[..n];
    } else {
      assert Ids(page) == {};
    }
  }

  /** The wanted ids after `start`, in order, up to the last one visited. */
  ghost predicate VisitedSoFar<R>(rows: map<nat, R>, want: R -> bool, start: nat, visited: seq<nat>) {
    && Increasing(visited)
    && (forall id :: id in visited ==> id in rows && want(rows[id]) && start < id)
    && (visited != [] ==>
      forall id :: id in rows && want(rows[id]) && start < id <= visited[|visited| - 1] ==> id in visited)
  }

  function LastOf(start: nat, visited: seq<nat>): nat {
    if visited == [] then start else visited[|visited| - 1]
  }

  /** What was visited so far may have changed: the rows after the cursor have not. */
  ghost predicate SameAfter<R>(before: map<nat, R>, now: map<nat, R>, cursor: nat) {
    forall id :: cursor < id ==> (id in before <==> id in now) && (id in before ==> before[id] == now[id])
  }

  lemma AtMostLast(start: nat, visited: seq<nat>)
    requires Increasing(visited) && forall id :: id in visited ==> start < id
    ensures start <= LastOf(start, visited) && forall id :: id in visited ==> id <= LastOf(start, visited)
  {
    if visited != [] {
      assert visited[|visited| - 1] in visited;
      forall id | id in visited ensures id <= visited[|visited| - 1] {
        var a :| 0 <= a < |visited| && visited[a] == id;
      }
    }
  }

  /** One more page goes on where the visit stopped, repeating and skipping nothing. */
  lemma PageGoesOn<R>(before: map<nat, R>, now: map<nat, R>, want: R -> bool,
                      start: nat, visited: seq<nat>, limit: nat, page: seq<nat>)
    requires VisitedSoFar(before, want, start, visited) && SameAfter(before, now, LastOf(start, visited))
    requires IsPage(now, want, LastOf(start, visited), limit, page)
    ensures VisitedSoFar(before, want, start, visited + page)
    ensures forall j :: 0 <= j < |page| ==> page[j] in before && page[j] !in visited
    ensures |page| < limit ==> forall id :: id in before && want(before[id]) && start < id ==> id in visited + page
  {
    var cursor := LastOf(start, visited);
    AtMostLast(start, visited);
    forall a, b | 0 <= a < b < |visited + page| ensures (visited + page)[a] < (visited + page)[b] {
      if a < |visited| <= b {
        assert visited[a] in visited && page[b - |visited|] in page;
      }
    }
    assert forall j :: 0 <= j < |page| ==> page[j] in page;
    if page != [] {
      var last := page[|page| - 1];
      forall id | id in before && want(before[id]) && start < id <= last ensures id in visited + page {
        assert last in page;
        assert id <= cursor || id in now;
      }
    }
  }

  method NextId<R>(rows: map<nat, R>, want: R -> bool, after: nat) returns (next: Option<nat>)
    ensures next.Some? ==> next.value in rows && want(rows[next.value]) && after < next.value
    ensures forall id :: id in rows && want(rows[id]) && after < id ==> next.Some? && next.value <= id
  {
    next := None;
    var todo := rows.Keys;
    while todo != {}
      invariant todo <= rows.Keys
      invariant next.Some? ==> next.value in rows && want(rows[next.value]) && after < next.value
      invariant forall id :: id in rows && id !in todo && want(rows[id]) && after < id ==>
        next.Some? && next.value <= id
      decreases todo
    {
      var id :| id in todo;
      if want(rows[id]) && after < id && (next.None? || id < next.value) {
        next := Some(id);
      }
      todo := todo - {id};
    }
  }

  method ListPage<R>(rows: map<nat, R>, want: R -> bool, after: nat, limit: nat) returns (page: seq<nat>)
    ensures IsPage(rows, want, after, limit, page)
  {
    page := [];
    var last, more := after, true;
    while |page| < limit && more
      invariant |page| <= limit && Increasing(page) && after <= last
      invariant last == if page == [] then after else page[|page| - 1]
      invariant forall id :: id in page ==> id in rows && want(rows[id]) && after < id <= last
      invariant forall id :: id in rows && want(rows[id]) && after < id <= last ==> id in page
      invariant !more ==> forall id :: id in rows && want(rows[id]) && after < id ==> id in page
      decreases limit - |page|, more
    {
      var next := NextId(rows, want, last);
      if next.None? {
        more := false;
      } else {
        IncreasingPush(page, next.value);
        page := page + [next.value];
        last := next.value;
      }
    }
  }
}

/** The routes of a task (flb_task.h): a list searched for the first entry of an output, read and
    updated in place by the status functions. */
module TaskRoutes {

  const INACTIVE: nat := 0
  const ACTIVE: nat := 1
  const DROPPED: nat := 2

  datatype Route = Route(status: nat, out: nat)

  type Routes = seq<Route>

  // ------------------------------------------------------------ what the loops compute

  /** Position of the first route to `o`, or the length when there is none. */
  function Find(routes: Routes, o: nat): (i: nat)
    ensures i <= |routes|
    ensures i < |routes| ==> routes[i].out == o
    ensures forall j :: 0 <= j < i ==> routes[j].out != o
  {
    if routes == [] then 0 else if routes[0].out == o then 0 else 1 + Find(routes[1..], o)
  }

  predicate Has(routes: Routes, o: nat) {
    Find(routes, o) < |routes|
  }

  /** The status of an output without a route is INACTIVE. */
  function Status(routes: Routes, o: nat): nat {
    if Has(routes, o) then routes[Find(routes, o)].status else INACTIVE
  }

  function SetStatus(routes: Routes, o: nat, status: nat): (r: Routes)
    ensures |r| == |routes|
  {
    if Has(routes, o) then routes[Find(routes, o) := Route(status, o)] else routes
  }

  function OneIfActive(status: nat): nat {
    if status == ACTIVE then 1 else 0
  }

  function ActiveCount(routes: Routes): nat {
    if routes == [] then 0
    else ActiveCount(routes[..|routes| - 1]) + OneIfActive(routes[|routes| - 1].status)
  }

  // ------------------------------------------------------------ what that means

  lemma FindUnique(routes: Routes, o: nat, i: nat)
    requires i <= |routes| && (i < |routes| ==> routes[i].out == o)
    requires forall j :: 0 <= j < i ==> routes[j].out != o
    ensures Find(routes, o) == i
  {
  }

  lemma NoRoute(routes: Routes, o: nat)
    requires !Has(routes, o)
    ensures Status(routes, o) == INACTIVE
  {
  }

  /** Setting a status changes that output's status and nobody else's, even when several routes
      lead to one output: reading and writing stop at the same, first one. */
  lemma SetThenGet(routes: Routes, o: nat, status: nat, p: nat)
    ensures Has(SetStatus(routes, o, status), p) <==> Has(routes, p)
    ensures Status(SetStatus(routes, o, status), p) ==
            if p == o && Has(routes, o) then status else Status(routes, p)
  {
    var after := SetStatus(routes, o, status);
    var i := Find(routes, p);
    FindUnique(after, p, i);
  }

  lemma {:induction false} ActiveCountUpdate(routes: Routes, i: nat, r: Route)
    requires i < |routes|
    ensures ActiveCount(routes[i := r]) == ActiveCount(routes) - OneIfActive(routes[i].status) + OneIfActive(r.status)
  {
    var n := |routes| - 1;
    if i < n {
      ActiveCountUpdate(routes[..n], i, r);
      assert routes[i := r][..n] == routes[..n][i := r];
    } else {
      assert routes[i := r][..n] == routes[..n];
    }
  }

  /** The positions of the routes that are ACTIVE. */
  function ActivePositions(routes: Routes): set<nat> {
    set i: nat | i < |routes| && routes[i].status == ACTIVE
  }

  lemma {:induction false} ActiveCountCounts(routes: Routes)
    ensures ActiveCount(routes) == |ActivePositions(routes)|
  {
    if routes != [] {
      var n := |routes| - 1;
      ActiveCountCounts(routes[..n]);
      assert ActivePositions(routes) == ActivePositions(routes[..n]) + if routes[n].status == ACTIVE then {n} else {};
    }
  }

  /** Setting a status moves the number of ACTIVE routes by the change of what is read for that
      output, and by nothing when the output has no route. */
  lemma ActiveCountSet(routes: Routes, o: nat, status: nat)
    ensures ActiveCount(SetStatus(routes, o, status)) ==
            ActiveCount(routes) + if !Has(routes, o) || (status == ACTIVE) == (Status(routes, o) == ACTIVE) then 0
                                  else if status == ACTIVE then 1 else -1
  {
    if Has(routes, o) {
      ActiveCountUpdate(routes, Find(routes, o), Route(status, o));
    }
  }

  // ------------------------------------------------------------ the loops

  class Task {
    var routes: Routes

    /** flb_task_get_active_route_count */
    method GetActiveRouteCount() returns (result: nat)
      ensures result == ActiveCount(routes) == |set i: nat | i < |routes| && routes[i].status == ACTIVE|
    {
      result := 0;
      for i := 0 to |routes|
        invariant result == ActiveCount(routes[..i])
      {
        if routes[i].status == ACTIVE {
          result := result + 1;
        }
        assert routes[..i + 1][..i] == routes[..i];
      }
      assert routes[..|routes|] == routes;
      ActiveCountCounts(routes);
    }

    /** flb_task_get_route_status */
    method GetRouteStatus(o: nat) returns (result: nat)
      ensures result == Status(routes, o)
    {
      result := INACTIVE;
      var i := 0;
      while i < |routes|
        invariant i <= |routes| && result == INACTIVE
        invariant forall j :: 0 <= j < i ==> routes[j].out != o
      {
        if routes[i].out == o {
          result := routes[i].status;
          FindUnique(routes, o, i);
          return;
        }
        i := i + 1;
      }
      FindUnique(routes, o, i);
    }

    /** flb_task_set_route_status, as used by flb_task_activate_route, flb_task_deactivate_route
        and flb_task_drop_route with ACTIVE, INACTIVE and DROPPED. */
    method SetRouteStatus(o: nat, status: nat)
      modifies this
      ensures routes == SetStatus(old(routes), o, status)
    {
      var i := 0;
      while i < |routes|
        invariant i <= |routes| && routes == old(routes)
        invariant forall j :: 0 <= j < i ==> routes[j].out != o
      {
        if routes[i].out == o {
          FindUnique(routes, o, i);
          routes := routes[i := routes[i].(status := status)];
          return;
        }
        i := i + 1;
      }
      FindUnique(routes, o, i);
    }
  }
}

/** The selection stages of the route finder: areas under the parent area, routes in those
    areas, the names matching the queries, and the final re-selection by name. */
module Filters {
  import opened Substring
  import opened Seqs
  import opened Records

  /** Mask: the area's path contains `parentArea`. */
  function PathContains(parentArea: string): Area -> bool {
    (a: Area) => Contains(a.path, parentArea)
  }

  /** The `area_name` column of `areas`, in order. */
  function AreaNames(areas: seq<Area>): (names: seq<string>)
    ensures |names| == |areas|
    ensures forall n :: n in names <==> exists a :: a in areas && a.areaName == n
    decreases |areas|
  {
    if areas == [] then [] else [areas[0].areaName] + AreaNames(areas[1..])
  }

  /** `areas_in_parent`: the names of the areas whose path contains `parentArea`. */
  function AreasInParent(areas: seq<Area>, parentArea: string): (names: seq<string>)
    ensures forall n :: n in names <==>
      exists a :: a in areas && a.areaName == n && Contains(a.path, parentArea)
  {
    AreaNames(Filter(areas, PathContains(parentArea)))
  }

  /** The empty parent area is a substring of every path, so it selects every area. */
  lemma EmptyParentSelectsEveryArea(areas: seq<Area>)
    ensures AreasInParent(areas, "") == AreaNames(areas)
  {
    forall a | a in areas ensures PathContains("")(a) {
      assert OccursAt(a.path, "", 0);
    }
    FilterAll(areas, PathContains(""));
  }

  /** Mask: the route's area is one of `areaNames`. */
  function InAreas<C>(areaNames: seq<string>): Route<C> -> bool {
    (r: Route<C>) => r.area in areaNames
  }

  /** `routes_in_parent`: the routes whose area is one of `areaNames`, in their original order,
      each kept as often as it occurs and none altered. */
  function RoutesInParent<C>(routes: seq<Route<C>>, areaNames: seq<string>): (kept: seq<Route<C>>)
    ensures IsSubsequence(kept, routes)
    ensures forall r :: r in kept ==> r in routes && r.area in areaNames
    ensures forall r :: r in routes && r.area in areaNames ==> r in kept
    ensures forall r :: r in routes ==>
      multiset(kept)[r] == if r.area in areaNames then multiset(routes)[r] else 0
  {
    Filter(routes, InAreas(areaNames))
  }

  /** Mask: the route's name contains `query`. */
  function NameContains<C>(query: string): Route<C> -> bool {
    (r: Route<C>) => Contains(r.routeName, query)
  }

  /** The `route_name` column of `routes`, in order. */
  function RouteNames<C>(routes: seq<Route<C>>): (names: seq<string>)
    ensures |names| == |routes|
    ensures forall n :: n in names <==> exists r :: r in routes && r.routeName == n
    decreases |routes|
  {
    if routes == [] then [] else [routes[0].routeName] + RouteNames(routes[1..])
  }

  /** The names of the routes whose name contains `query`, in order (one list per query). */
  function MatchingNames<C>(routes: seq<Route<C>>, query: string): (names: seq<string>)
    ensures forall n :: n in names <==>
      Contains(n, query) && exists r :: r in routes && r.routeName == n
  {
    RouteNames(Filter(routes, NameContains(query)))
  }

  /** The per-query name lists of `queries` concatenated in query order: a name matched by
      several queries occurs once per matching query. */
  function CollectedNames<C>(routes: seq<Route<C>>, queries: seq<string>): (names: seq<string>)
    ensures forall n :: n in names <==>
      MatchesAnyQuery(n, queries) && exists r :: r in routes && r.routeName == n
    decreases |queries|
  {
    if queries == [] then []
    else
      var init, last := queries[..|queries| - 1], queries[|queries| - 1];
      MatchesAnyQueryOfAppended(init, last);
      assert queries == init + [last];
      CollectedNames(routes, init) + MatchingNames(routes, last)
  }

  /** A name matches `init + [last]` when it matches `init` or contains `last`. */
  lemma MatchesAnyQueryOfAppended(init: seq<string>, last: string)
    ensures forall n :: MatchesAnyQuery(n, init + [last]) <==> MatchesAnyQuery(n, init) || Contains(n, last)
  {
    forall n | MatchesAnyQuery(n, init + [last])
      ensures MatchesAnyQuery(n, init) || Contains(n, last)
    {
      var q :| q in init + [last] && Contains(n, q);
      if q != last {
        assert q in init;
      }
    }
    forall n | MatchesAnyQuery(n, init) || Contains(n, last)
      ensures MatchesAnyQuery(n, init + [last])
    {
      if Contains(n, last) {
        assert last in init + [last];
      } else {
        var q :| q in init && Contains(n, q);
        assert q in init + [last];
      }
    }
  }

  /** `route_names`: starts empty and, query by query, appends the names of the routes in
      `routesInParent` that contain that query. */
  method CollectRouteNames<C>(routesInParent: seq<Route<C>>, inputRoutes: seq<string>)
    returns (routeNames: seq<string>)
    ensures routeNames == CollectedNames(routesInParent, inputRoutes)
    ensures forall n :: n in routeNames <==>
      MatchesAnyQuery(n, inputRoutes) && exists r :: r in routesInParent && r.routeName == n
    ensures inputRoutes == [] ==> routeNames == []
  {
    routeNames := [];
    for i := 0 to |inputRoutes|
      invariant routeNames == CollectedNames(routesInParent, inputRoutes[..i])
    {
      assert inputRoutes[..i + 1][..i] == inputRoutes[..i];
      routeNames := routeNames + MatchingNames(routesInParent, inputRoutes[i]);
    }
    assert inputRoutes[..|inputRoutes|] == inputRoutes;
  }

  /** Mask: the route's name is one of `routeNames`. */
  function NameIn<C>(routeNames: seq<string>): Route<C> -> bool {
    (r: Route<C>) => r.routeName in routeNames
  }

  /** `result_routes`: the routes of `routesInParent` whose name is in `routeNames`. */
  function ResultRoutes<C>(routesInParent: seq<Route<C>>, routeNames: seq<string>): (result: seq<Route<C>>)
    ensures IsSubsequence(result, routesInParent)
    ensures forall r :: r in result ==> r in routesInParent && r.routeName in routeNames
    ensures forall r :: r in routesInParent && r.routeName in routeNames ==> r in result
    ensures forall r :: r in routesInParent ==>
      multiset(result)[r] == if r.routeName in routeNames then multiset(routesInParent)[r] else 0
  {
    Filter(routesInParent, NameIn(routeNames))
  }

  /** Some query is a substring of `name`. */
  predicate MatchesAnyQuery(name: string, queries: seq<string>) {
    exists q :: q in queries && Contains(name, q)
  }

  /** Mask: the route's name matches some query. */
  function NameMatchesAny<C>(queries: seq<string>): Route<C> -> bool {
    (r: Route<C>) => MatchesAnyQuery(r.routeName, queries)
  }

  /** Mask: the route is in one of `areaNames` and its name matches some query. */
  function IsWanted<C>(areaNames: seq<string>, queries: seq<string>): Route<C> -> bool {
    (r: Route<C>) => r.area in areaNames && MatchesAnyQuery(r.routeName, queries)
  }

  /** The routes the script is after, selected in one pass: in one of `areaNames`, and named
      with some query as a substring. This is the reference the staged selection is proved
      against. */
  function Selected<C>(routes: seq<Route<C>>, areaNames: seq<string>, queries: seq<string>): (result: seq<Route<C>>)
    ensures IsSubsequence(result, routes)
    ensures forall r :: r in result ==>
      r in routes && r.area in areaNames && MatchesAnyQuery(r.routeName, queries)
    ensures forall r :: r in routes && r.area in areaNames && MatchesAnyQuery(r.routeName, queries) ==>
      r in result
    ensures forall r :: r in routes ==>
      multiset(result)[r] ==
        if r.area in areaNames && MatchesAnyQuery(r.routeName, queries) then multiset(routes)[r] else 0
  {
    Filter(routes, IsWanted(areaNames, queries))
  }

  /** The staged selection (routes in the parent, the collected names, the re-selection by
      name) gives exactly the one-pass selection: a route matched by several queries is still
      kept once per occurrence, not once per matching query. */
  lemma StagedSelectionIsSelected<C>(routes: seq<Route<C>>, areaNames: seq<string>, queries: seq<string>)
    ensures ResultRoutes(RoutesInParent(routes, areaNames), CollectedNames(RoutesInParent(routes, areaNames), queries))
      == Selected(routes, areaNames, queries)
  {
    var routesInParent := RoutesInParent(routes, areaNames);
    var names := CollectedNames(routesInParent, queries);
    forall r | r in routesInParent ensures NameIn(names)(r) == NameMatchesAny(queries)(r) {
      if MatchesAnyQuery(r.routeName, queries) {
        assert exists x :: x in routesInParent && x.routeName == r.routeName;
      }
    }
    FilterAgreeing(routesInParent, NameIn(names), NameMatchesAny(queries));
    FilterTwice(routes, InAreas(areaNames), NameMatchesAny(queries), IsWanted(areaNames, queries));
  }

  /** With no queries, nothing is selected. */
  lemma NoQueriesSelectNothing<C>(routes: seq<Route<C>>, areaNames: seq<string>)
    ensures Selected(routes, areaNames, []) == []
  {
    FilterNone(routes, IsWanted(areaNames, []));
  }
}

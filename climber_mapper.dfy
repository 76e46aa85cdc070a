/** The route finder end to end: load the two datasets named after the state, select the
    routes, build the table rows, the GeoJSON document and the output file name. */
module ClimberMapper {
  import opened Substring
  import opened Seqs
  import opened Records
  import opened Inputs
  import opened Filters
  import opened Table
  import opened GeoJson

  /** What one run produces: the printed rows, the GeoJSON document and the name of the file it
      is written to. */
  datatype Output<C> = Output(table: seq<TableRow<C>>, geojson: FeatureCollection<C>, filename: string)

  /** A run either writes its output or stops at the first dataset file that is missing. */
  datatype Outcome<C> = Written(output: Output<C>) | FileNotFound(path: string)

  /** Some area whose path contains `parentArea` is named `areaName`. */
  predicate InParentArea(areas: seq<Area>, parentArea: string, areaName: string) {
    exists a :: a in areas && a.areaName == areaName && Contains(a.path, parentArea)
  }

  /** The result routes in terms of the loaded records: the routes, in dataset order, whose
      area is named by an area under `parentArea` and whose name contains some query; each
      such record is kept exactly as often as it occurs in the dataset, however many queries
      it matches. */
  function ResultOf<C>(areas: seq<Area>, routes: seq<Route<C>>, parentArea: string, queries: seq<string>)
    : (result: seq<Route<C>>)
    ensures IsSubsequence(result, routes)
    ensures forall r :: r in result ==>
      r in routes && InParentArea(areas, parentArea, r.area) && MatchesAnyQuery(r.routeName, queries)
    ensures forall r :: r in routes && InParentArea(areas, parentArea, r.area) && MatchesAnyQuery(r.routeName, queries) ==>
      r in result
    ensures forall r :: r in routes ==>
      multiset(result)[r] ==
        if InParentArea(areas, parentArea, r.area) && MatchesAnyQuery(r.routeName, queries)
        then multiset(routes)[r] else 0
  {
    Selected(routes, AreasInParent(areas, parentArea), queries)
  }

  /** With no queries there are no result rows, whatever the parent area (the empty parent
      area included). */
  lemma NoQueriesNoRows<C>(areas: seq<Area>, routes: seq<Route<C>>, parentArea: string)
    ensures ResultOf(areas, routes, parentArea, []) == []
  {
    NoQueriesSelectNothing(routes, AreasInParent(areas, parentArea));
  }

  /** When no area path contains the parent area there are no result rows. */
  lemma NoParentAreaNoRows<C>(areas: seq<Area>, routes: seq<Route<C>>, parentArea: string, queries: seq<string>)
    requires forall a :: a in areas ==> !Contains(a.path, parentArea)
    ensures ResultOf(areas, routes, parentArea, queries) == []
  {
    FilterNone(routes, IsWanted(AreasInParent(areas, parentArea), queries));
  }

  /** One run after argument resolution: `areaFiles` and `routeFiles` are the dataset files
      that exist, by path, and `today` is the run date as `YYYY-MM-DD`. */
  method Run<C>(args: Args, areaFiles: map<string, seq<Area>>, routeFiles: map<string, seq<Route<C>>>, today: string)
    returns (outcome: Outcome<C>)
    ensures AreaSource(args.state) !in areaFiles ==> outcome == FileNotFound(AreaSource(args.state))
    ensures AreaSource(args.state) in areaFiles && RouteSource(args.state) !in routeFiles ==>
      outcome == FileNotFound(RouteSource(args.state))
    ensures AreaSource(args.state) in areaFiles && RouteSource(args.state) in routeFiles ==>
      && outcome.Written?
      && var result := ResultOf(areaFiles[AreaSource(args.state)], routeFiles[RouteSource(args.state)],
                                args.parentArea, args.inputRoutes);
      && outcome.output.table == TableRows(result)
      && IsCollectionFor(outcome.output.geojson, result)
      && outcome.output.filename == OutputFilename(args.parentArea, today)
    ensures outcome.Written? ==>
      && |outcome.output.geojson.features| == |outcome.output.table|
      && forall i :: 0 <= i < |outcome.output.table| ==>
           outcome.output.geojson.features[i].geometry.coordinates ==
             (outcome.output.table[i].coordinates.1, outcome.output.table[i].coordinates.0)
  {
    var areaSource := AreaSource(args.state);
    var routeSource := RouteSource(args.state);
    if areaSource !in areaFiles {
      return FileNotFound(areaSource);
    }
    var areas := areaFiles[areaSource];
    if routeSource !in routeFiles {
      return FileNotFound(routeSource);
    }
    var routes := routeFiles[routeSource];

    var areasInParent := AreasInParent(areas, args.parentArea);
    var routesInParent := RoutesInParent(routes, areasInParent);
    var routeNames := CollectRouteNames(routesInParent, args.inputRoutes);
    var resultRoutes := ResultRoutes(routesInParent, routeNames);
    StagedSelectionIsSelected(routes, areasInParent, args.inputRoutes);

    var table := TableRows(resultRoutes);
    var geojson := BuildFeatureCollection(resultRoutes);
    var filename := OutputFilename(args.parentArea, today);
    outcome := Written(Output(table, geojson, filename));
  }
}

/** The GeoJSON value the route finder writes, as a structured value. Its JSON text (key
    order, four-space indentation) is not modelled. */
module GeoJson {
  import opened Records

  /** A `geometry` object; `kind` is its `type` member. */
  datatype Geometry<C> = Geometry(kind: string, coordinates: (C, C))

  /** The `properties` object of a feature. */
  datatype Properties = Properties(markerSymbol: string, description: string, title: string, markerColor: string)

  /** A feature; `kind` is its `type` member. */
  datatype Feature<C> = Feature(kind: string, geometry: Geometry<C>, properties: Properties)

  /** The whole document; `kind` is its `type` member. */
  datatype FeatureCollection<C> = FeatureCollection(kind: string, features: seq<Feature<C>>)

  /** `f` is the point feature written for `route`: a Point at the route's raw `lnglat`, titled
      with its area, described by its name and grade, with the fixed marker. */
  ghost predicate IsFeatureFor<C>(f: Feature<C>, route: Route<C>) {
    && f.kind == "Feature"
    && f.geometry.kind == "Point"
    && f.geometry.coordinates == route.lnglat
    && f.properties.markerSymbol == "point"
    && f.properties.description == route.routeName + " " + route.usGrade
    && f.properties.title == route.area
    && f.properties.markerColor == "FF0000"
  }

  /** `fc` is a FeatureCollection holding exactly one feature per route, in route order. */
  ghost predicate IsCollectionFor<C>(fc: FeatureCollection<C>, routes: seq<Route<C>>) {
    && fc.kind == "FeatureCollection"
    && |fc.features| == |routes|
    && forall i :: 0 <= i < |routes| ==> IsFeatureFor(fc.features[i], routes[i])
  }

  /** Builds the document: starts from an empty feature list and, route by route, fills in a
      fresh feature and appends it. */
  method BuildFeatureCollection<C>(resultRoutes: seq<Route<C>>) returns (geojson: FeatureCollection<C>)
    ensures IsCollectionFor(geojson, resultRoutes)
  {
    var features: seq<Feature<C>> := [];
    for i := 0 to |resultRoutes|
      invariant |features| == i
      invariant forall j :: 0 <= j < i ==> IsFeatureFor(features[j], resultRoutes[j])
    {
      var row := resultRoutes[i];
      var geometry := Geometry("Point", row.lnglat);
      var properties := Properties("point", row.routeName + " " + row.usGrade, row.area, "FF0000");
      var feature := Feature("Feature", geometry, properties);
      features := features + [feature];
    }
    geojson := FeatureCollection("FeatureCollection", features);
  }
}

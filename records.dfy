/** The two kinds of record the route finder loads, after the nested route fields have been
    flattened. The coordinate element type `C` is left abstract: the model never looks at
    coordinate values, only at where each one ends up. */
module Records {

  /** A line of `<state>-areas.jsonlines`: the area's location path and its name. */
  datatype Area = Area(path: string, areaName: string)

  /** A line of `<state>-routes.jsonlines` with the flattened columns: `area` is the owning
      sector's name, `lnglat` the two-element coordinate list (`.0` is its index 0, `.1` its
      index 1) and `usGrade` the `YDS` grade string. */
  datatype Route<C> = Route(routeName: string, area: string, lnglat: (C, C), usGrade: string)
}

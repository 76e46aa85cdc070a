/** The rows of the printed result table. The printed text itself (column alignment) is not
    modelled, only the rows and their coordinate column. */
module Table {
  import opened Records

  /** One printed row: name, area, the `coordinates` column and the grade. */
  datatype TableRow<C> = TableRow(routeName: string, area: string, coordinates: (C, C), usGrade: string)

  /** Pairs up two columns position by position, stopping at the shorter one. */
  function Zip<A, B>(xs: seq<A>, ys: seq<B>): (pairs: seq<(A, B)>)
    ensures |pairs| == if |xs| <= |ys| then |xs| else |ys|
    ensures forall i :: 0 <= i < |pairs| ==> pairs[i] == (xs[i], ys[i])
    decreases |xs|
  {
    if xs == [] || ys == [] then [] else [(xs[0], ys[0])] + Zip(xs[1..], ys[1..])
  }

  /** The result table: one row per result route, in order, whose `coordinates` column is the
      route's `lnglat` with its two elements swapped. */
  function TableRows<C>(routes: seq<Route<C>>): (rows: seq<TableRow<C>>)
    ensures |rows| == |routes|
    ensures forall i :: 0 <= i < |routes| ==>
      && rows[i].routeName == routes[i].routeName
      && rows[i].area == routes[i].area
      && rows[i].usGrade == routes[i].usGrade
      && rows[i].coordinates.0 == routes[i].lnglat.1
      && rows[i].coordinates.1 == routes[i].lnglat.0
  {
    // the `longitudes` column is index 1 of each `lnglat`, the `latitudes` column index 0
    var longitudes := seq(|routes|, i requires 0 <= i < |routes| => routes[i].lnglat.1);
    var latitudes := seq(|routes|, i requires 0 <= i < |routes| => routes[i].lnglat.0);
    var coordinates := Zip(longitudes, latitudes);
    seq(|routes|, i requires 0 <= i < |routes| =>
      TableRow(routes[i].routeName, routes[i].area, coordinates[i], routes[i].usGrade))
  }
}

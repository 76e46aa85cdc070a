/** Resolution of the command line and the names of the files the route finder reads and
    writes. */
module Inputs {

  datatype Option<T> = None | Some(value: T)

  /** What the command line resolves to: the state code, the parent-area substring and the
      route-name query substrings. */
  datatype Args = Args(state: string, parentArea: string, inputRoutes: seq<string>)

  const DefaultState: string := "co"
  const DefaultParentArea: string := "Eldorado"
  const DefaultInputRoutes: seq<string> := ["Rewritten", "Bastille", "Rebuffat's Arete"]

  /** Starts from the defaults and overrides each one when `argv` (whose index 0 is the program
      name) is long enough to carry it. All arguments from position 3 on are the queries, so a
      query list that comes from the command line is never empty. */
  method ResolveArgs(argv: seq<string>) returns (args: Args)
    ensures args.state == if |argv| > 1 then argv[1] else DefaultState
    ensures args.parentArea == if |argv| > 2 then argv[2] else DefaultParentArea
    ensures args.inputRoutes == if |argv| > 3 then argv[3..] else DefaultInputRoutes
    ensures args.inputRoutes != []
    ensures |argv| > 3 ==> argv == [argv[0], args.state, args.parentArea] + args.inputRoutes
  {
    var state := DefaultState;
    var parentArea := DefaultParentArea;
    var inputRoutes := DefaultInputRoutes;
    var numArgs := |argv|;
    if numArgs > 1 {
      state := argv[1];
    }
    if numArgs > 2 {
      parentArea := argv[2];
    }
    if numArgs > 3 {
      inputRoutes := argv[3..];
    }
    args := Args(state, parentArea, inputRoutes);
    if numArgs > 3 {
      assert argv == argv[..3] + argv[3..];
    }
  }

  /** `s` is `prefix`, then `middle`, then `suffix`. */
  ghost predicate Framed(s: string, prefix: string, middle: string, suffix: string) {
    s == prefix + middle + suffix
  }

  /** The part of `s` between `prefix` and `suffix`, when `s` has that shape. */
  function Between(s: string, prefix: string, suffix: string): (middle: Option<string>)
    ensures middle.Some? ==> Framed(s, prefix, middle.value, suffix)
    ensures middle.None? ==> forall m :: !Framed(s, prefix, m, suffix)
  {
    if |prefix| + |suffix| <= |s| && s[..|prefix|] == prefix && s[|s| - |suffix|..] == suffix then
      assert s == s[..|prefix|] + s[|prefix|..|s| - |suffix|] + s[|s| - |suffix|..];
      Some(s[|prefix|..|s| - |suffix|])
    else
      None
  }

  const SourceDirectory: string := "all_routes/"
  const AreasSuffix: string := "-areas.jsonlines"
  const RoutesSuffix: string := "-routes.jsonlines"
  const OutputSuffix: string := "_coordinates.json"

  /** Where the areas of `state` are read from; the state code can be read back from it. */
  function AreaSource(state: string): (path: string)
    ensures Between(path, SourceDirectory, AreasSuffix) == Some(state)
  {
    var path := SourceDirectory + state + AreasSuffix;
    assert path[|SourceDirectory|..|path| - |AreasSuffix|] == state;
    path
  }

  /** Where the routes of `state` are read from; the state code can be read back from it. */
  function RouteSource(state: string): (path: string)
    ensures Between(path, SourceDirectory, RoutesSuffix) == Some(state)
  {
    var path := SourceDirectory + state + RoutesSuffix;
    assert path[|SourceDirectory|..|path| - |RoutesSuffix|] == state;
    path
  }

  /** The areas file and the routes file are never the same file, whatever the state codes. */
  lemma AreaSourceIsNotRouteSource(s: string, t: string)
    ensures AreaSource(s) != RouteSource(t)
  {
    var a, r := AreaSource(s), RouteSource(t);
    if |a| == |r| {
      assert a[|a| - |AreasSuffix|] == '-';
      assert r[|r| - |AreasSuffix|] == 'r';
    }
  }

  /** The name of the GeoJSON file written for `parentArea` on the day `date` (a `YYYY-MM-DD`
      string); the date can be read back from it. */
  function OutputFilename(parentArea: string, date: string): (name: string)
    ensures Between(name, parentArea + "_", OutputSuffix) == Some(date)
  {
    var name := parentArea + "_" + date + OutputSuffix;
    assert name == (parentArea + "_") + date + OutputSuffix;
    assert name[|parentArea + "_"|..|name| - |OutputSuffix|] == date;
    name
  }

  /** For dates of one fixed length (the `YYYY-MM-DD` form has ten characters), the file name
      determines both the parent area and the date. */
  lemma OutputFilenameDeterminesInputs(p1: string, d1: string, p2: string, d2: string)
    requires |d1| == |d2|
    requires OutputFilename(p1, d1) == OutputFilename(p2, d2)
    ensures p1 == p2 && d1 == d2
  {
    var n := OutputFilename(p1, d1);
    assert |p1| == |p2|;
    assert p1 == n[..|p1|] == p2;
  }
}

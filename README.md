# Climber-Mapper route finder, modelled in Dafny

`climber_mapper.py` finds climbing routes by name inside a parent area. It resolves a state
code, a parent-area substring and a list of route-name queries from the command line, loads the
state's areas and routes, keeps the areas whose path contains the parent area, keeps the routes
in those areas, collects the names of the routes containing any query, re-selects the routes by
those names, prints a table of them and writes a GeoJSON FeatureCollection with one Point
feature per route to `<parent_area>_<date>_coordinates.json`.

The model works on sequences of plain records (`Records.Area`, `Records.Route`), not on data
frames. Coordinates have an abstract element type `C`; a route's `lnglat` is a pair whose `.0`
and `.1` are the list's index 0 and index 1. The modules follow the script's stages:

- `Inputs`: argument defaults and overrides, the two input paths and the output file name;
- `Filters`: the area filter, the route-membership filter, the query loop and the re-selection,
  together with a one-pass reference selection the staged one is proved equal to;
- `Table`: the rows of the printed table and its swapped coordinate column;
- `GeoJson`: the FeatureCollection as a datatype, built by a loop;
- `ClimberMapper`: one run, from the resolved arguments to the output;
- `Substring` and `Seqs`: literal substring containment and order-preserving selection.

What is proved, in short: a route is in the result iff its area is named by an area whose path
contains the parent area and its name contains at least one query; the result is an
order-preserving subsequence of the loaded routes that keeps each qualifying record exactly as
often as it occurs in the dataset, however many queries match it; the staged selection the
script performs equals that one-pass selection; the table coordinate is `(lnglat[1], lnglat[0])`
while the GeoJSON geometry is `lnglat` unchanged; every feature has the fixed field values; the
input paths and the output file name have their exact shapes, and the state code and the date
can be read back from them.

The coordinate order is left as the code has it. The comment at `climber_mapper.py:53` calls
`lnglat` `[longitude, latitude]`, while `climber_mapper.py:83-84` bind index 1 to `longitudes`
and index 0 to `latitudes`, and the comment at `climber_mapper.py:81` says the table presents
`[ lat, lon ]`. The model follows the code's indices and does not decide which element is the
longitude.

Through the command line the query list is never empty: `argv[3:]` replaces the defaults only
when it has at least one element (`Inputs.ResolveArgs` states this). The "no queries, no rows"
property therefore holds of a query list given directly, not of one resolved from `argv`.

## Model

| member | source | states |
|---|---|---|
| `Substring.Contains` | climber_mapper.py:64 | true exactly when the pattern occurs at some index of the string (literal, case-sensitive); the empty pattern occurs everywhere |
| `Seqs.Filter` | climber_mapper.py:68 | boolean-mask selection: an order-preserving subsequence whose members are exactly the input elements satisfying the mask, each kept as often as it occurs |
| `Inputs.ResolveArgs` | climber_mapper.py:16-30 | `state` is `"co"` unless `argv` has more than 1 entry, `parent_area` is `"Eldorado"` unless more than 2, the queries are the three defaults unless more than 3, then exactly `argv[3:]`; the query list is never empty, and a full command line is recovered from the result |
| `Inputs.AreaSource` | climber_mapper.py:33 | the path is `"all_routes/"`, the state code, `"-areas.jsonlines"`, and the state code is read back from it |
| `Inputs.RouteSource` | climber_mapper.py:34 | the path is `"all_routes/"`, the state code, `"-routes.jsonlines"`, and the state code is read back from it |
| `Inputs.AreaSourceIsNotRouteSource` | climber_mapper.py:33-34 | the areas path and the routes path differ for all state codes |
| `Inputs.OutputFilename` | climber_mapper.py:132 | the name is the parent area, `"_"`, the date, `"_coordinates.json"`, and the date is read back from it |
| `Inputs.OutputFilenameDeterminesInputs` | climber_mapper.py:132 | for dates of equal length the file name determines both the parent area and the date |
| `Filters.AreaNames` | climber_mapper.py:65 | the `area_name` column: same length, and a name is in it iff some area has it |
| `Filters.AreasInParent` | climber_mapper.py:64-65 | a name is selected iff some area has that name and a path containing the parent area |
| `Filters.EmptyParentSelectsEveryArea` | climber_mapper.py:64-65 | the empty parent area selects the names of all areas, in order |
| `Filters.RoutesInParent` | climber_mapper.py:68 | order-preserving subsequence of the routes whose area is a selected name; membership both ways; each such record kept as often as it occurs, none added or altered |
| `Filters.RouteNames` | climber_mapper.py:75 | the `route_name` column: same length, and a name is in it iff some route has it |
| `Filters.MatchingNames` | climber_mapper.py:75 | the names appended for one query: a name is in it iff it contains the query and belongs to a route in the parent area |
| `Filters.CollectedNames` | climber_mapper.py:72-75 | the per-query lists concatenated in query order: a name is in it iff some query is a substring of it and some route in the parent area has it |
| `Filters.CollectRouteNames` | climber_mapper.py:72-75 | the loop computes exactly the concatenated per-query lists; membership as above; with no queries the list is empty |
| `Filters.ResultRoutes` | climber_mapper.py:79 | order-preserving subsequence of the routes in the parent area whose name is a collected name, each kept as often as it occurs |
| `Filters.Selected` | climber_mapper.py:64-79 | one-pass reference selection: subsequence of the routes whose area is selected and whose name contains some query, membership both ways, multiplicity preserved |
| `Filters.StagedSelectionIsSelected` | climber_mapper.py:68-79 | the area filter, the collected names and the re-selection by name together equal the one-pass selection, so duplicate query matches do not duplicate records |
| `Filters.NoQueriesSelectNothing` | climber_mapper.py:72-79 | with an empty query list nothing is selected |
| `Table.Zip` | climber_mapper.py:87 | pairs the two columns position by position, as long as the shorter one |
| `Table.TableRows` | climber_mapper.py:83-90 | one row per result route in order, copying name, area and grade, with coordinates `(lnglat[1], lnglat[0])`: the `longitudes` column (:83) is index 1 and the `latitudes` column (:84) index 0, computed inside it |
| `GeoJson.BuildFeatureCollection` | climber_mapper.py:98-126 | type `"FeatureCollection"`, one feature per result route in order; each has type `"Feature"`, a `"Point"` geometry at the raw `lnglat`, marker-symbol `"point"`, description name + `" "` + grade, title the area, marker-color `"FF0000"` |
| `ClimberMapper.ResultOf` | climber_mapper.py:64-79 | a route is in the result iff it is loaded, its area is named by an area whose path contains the parent area, and its name contains some query; order kept; each qualifying record exactly as often as in the dataset |
| `ClimberMapper.NoQueriesNoRows` | climber_mapper.py:72-79 | no queries give no result rows, whatever the parent area, the empty one included |
| `ClimberMapper.NoParentAreaNoRows` | climber_mapper.py:64-79 | a parent area contained in no area path gives no result rows |
| `ClimberMapper.Run` | climber_mapper.py:33-132 | a missing areas file stops the run with that path, then a missing routes file with its path; otherwise the table is the rows of the result, the document is the collection for the result, the file name is the dated one; as many features as rows, and each feature's geometry is its row's coordinate pair swapped back |

## Left out

- Reading the two `.jsonlines` files (climber_mapper.py:37-38): the files that exist are a map from path to loaded records; a missing path makes the run abort at that path (the model's `FileNotFound`; the kind of error the library raises is not modelled), and other read errors are not modelled.
- Writing the output file (climber_mapper.py:133-134) and printing the table (climber_mapper.py:91): the run returns the file name, the rows and the document instead.
- The JSON text of the document (climber_mapper.py:129): key order and indentation are not modelled, only the structured value.
- The run date (climber_mapper.py:132): `date.today().strftime(...)` is a string parameter.
- The command line itself: `sys.argv` is a sequence parameter of `Inputs.ResolveArgs`; `ClimberMapper.Run` starts from the resolved arguments.
- Flattening of the nested `metadata` and `grade` fields (climber_mapper.py:45-57): routes arrive flattened, with `area`, `lnglat` and `usGrade`.
- Missing or null `metadata`, `grade`, `parent_sector` or `parent_lnglat` values and their propagation: the code does not handle them, and the model has every field present; `lnglat` always has two elements.
- `squeeze()` on single-row frames (climber_mapper.py:64, 75): on a one-row column `squeeze()` yields a bare string, and the following `.str` raises, so the script aborts when the areas file holds exactly one record (:64) or when exactly one route lies in the parent area (:75); the model treats every column as a sequence and yields the result rows for these inputs instead.
- Empty dataset files: an empty routes file gives a frame without columns and the script aborts at climber_mapper.py:45, an empty areas file aborts at :64; the model selects nothing and returns an empty table and an empty feature list instead.
- `Substring.Contains`: `str.contains` defaults to regular-expression matching; the model uses literal substring containment and so covers only patterns without regular-expression metacharacters.
- The coordinates' numeric meaning: they have an abstract element type and are only moved around.
- `GeoJson.BuildFeatureCollection`: each feature dict is filled in key by key in the source; the model builds the same fields as one value, so the insertion order of keys is not captured.

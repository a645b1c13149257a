# urbanismofortal — a Dafny model of the KMZ/KML viewer and the zoning lookup

The repository holds two Streamlit apps for Fortaleza's urban planning data:

- `app.py` reads an uploaded KMZ or KML file into a GeoDataFrame, settles its CRS,
  optionally reprojects and simplifies it, splits it into points, lines and polygons,
  and restricts it to the folders ("layers") the user selects;
- `urbanfortal.py` shows the city's zoning map and tells which zone contains an
  address found by the geocoder or a clicked point.

This project models the logic of both apps that does not depend on the geometry
engine, and proves what it promises:

- `parsing.dfy` (module `Parsing`) — `src/parsing.py`: the KML feature tree and its
  flattening by `_walk` into attribute rows, `_extract_extdata` as a sequence of
  reads that store a pair or raise, `_iter_placemarks`, `_geom_from_fastkml`,
  `_locate_kml_in_kmz` and the dispatch of `parse_kmz_or_kml`;
- `utils.dfy` (module `Utils`) — `src/utils.py`: `detect_crs_or_default`,
  `reproject_if_needed`, `simplify_geometries`, `split_by_geom_type`;
- `zoning.dfy` (module `Zoning`) — `urbanfortal.py`: `buscar_zona_por_ponto` and
  the session values `selected_point` and `feedback` as a class whose methods are the
  search handler, the message display and the click handler, plus one script run;
- `mapping.dfy` (module `Mapping`) — `src/mapping.py`: `_popup_html`;
- `app.dfy` (module `App`) — `app.py` lines 88-118: the processing pipeline and the
  folder filter;
- `wrappers.dfy`, `seqs.dfy`, `strings.dfy`, `dicts.dfy`, `geometry.dfy`, `rows.dfy`
  — the Python and library behaviour the core relies on: `Option`/`Result`, list
  filtering and `str.join`, `str.lower`/`str.strip`/`sorted(set(...))`, the
  insertion-ordered `dict`, the geometry library as uninterpreted operations
  (`Geometry.Lib`), and rows and frames.

The geometry engine (shapely, pyproj, GeoPandas' `to_crs`), the KML parser and the
zip reader are parameters: `Geometry.Lib` and `Parsing.Reader` are records of
functions that the model calls but never interprets, with `None` standing for a call
that raises. The geocoding service is a function from the query to its reply.

## Model

| member | source | states |
|---|---|---|
| `Parsing.RunIsLastWrite` | src/parsing.py:47-64 | after the reads, each key holds the value of its last completed read; reads after the first one that raises are lost, the earlier ones kept |
| `Parsing.ExtractExtDataIsDict` | src/parsing.py:47-64 | `_extract_extdata` never raises and returns a dict with distinct keys whose entries are the last write of each key read before any failure |
| `Parsing.RunStopsAtRaise` | src/parsing.py:49-64 | once a read raises, nothing after it is stored: the collected pairs are returned, not an empty dict |
| `Parsing.StoreItems` | src/parsing.py:56-58 | the loop over a `data` list stores the keys (stringified) in order and reports whether a read raised, matching the step semantics |
| `Parsing.StoreElement` | src/parsing.py:54-58 | one element: a `Data` element stores one pair, a schema element its items, anything else nothing |
| `Parsing.StoreElements` | src/parsing.py:52-58 | the loop over an element list equals the reads of all elements up to the first failure |
| `Parsing.ExtractExtDataLoop` | src/parsing.py:47-64 | the loops of `_extract_extdata` (element list or plain dict) compute the specified dict |
| `Parsing.LeafRowCount` | src/parsing.py:88-92 | a placemark without geometry, or whose geometry `shape` rejects, yields no row and no error; otherwise exactly one row |
| `Parsing.UnnamedContainer` | src/parsing.py:84-85 | a container whose name is missing or empty does not extend the path |
| `Parsing.LeafRows` | src/parsing.py:89-99 | the row appended for a placemark equals the specified row built from its layer, name, description and extended data |
| `Parsing.WalkInto` | src/parsing.py:83-99 | `_walk` appends to `rows` exactly the rows of the specified walk, after the existing ones |
| `Parsing.WalkChildren` | src/parsing.py:86-87 | the children are walked in document order, each subtree before the next sibling |
| `Parsing.WalkAllSnoc` | src/parsing.py:86-87 | walking one more child appends that child's rows at the end |
| `Parsing.RowsOf` | src/parsing.py:88-99 | the rows of a list of leaves are at most as many as the leaves and all have a geometry |
| `Parsing.WalkIsRowsOfLeaves` | src/parsing.py:83-99 | the walk yields the rows of the subtree's leaves in depth-first order, each with the `" / "`-joined names of its named ancestors, or the hint when there are none |
| `Parsing.LeavesAreIterPlacemarks` | src/parsing.py:32-37 | the leaves the walk visits are exactly the placemarks `_iter_placemarks` yields, in the same order |
| `Parsing.DocumentRows` | src/parsing.py:86-102 | every row of a document has a geometry and there are at most as many rows as placemarks |
| `Parsing.RowColumns` | src/parsing.py:93-99 | extended-data keys win over `__layer__`, `name` and `description`; the geometry is always the placemark's own |
| `Parsing.ParseKmlBytes` | src/parsing.py:78-107 | the fastkml path returns the rows of the walk over the document's features, all with a geometry, or fails when the parser raises |
| `Parsing.LocateKmlInKmz` | src/parsing.py:66-72 | the result is exactly the archive entries whose lower-cased name ends in `.kml`, in listing order |
| `Parsing.ParseAllFailureSticks` | src/parsing.py:130-133 | once a file fails to parse, later files do not change the outcome |
| `Parsing.ParseAllLength` | src/parsing.py:130-133 | on success there is one frame per KML entry |
| `Parsing.LayerMapHoldsLastFile` | src/parsing.py:132 | the per-file table has every file name, holding the rows of the last entry with that name |
| `Parsing.ParseEntries` | src/parsing.py:128-133 | the loop over the KML entries collects the frames and the per-file table, or stops at the first file that fails |
| `Parsing.CleanRows` | src/parsing.py:141-142 | cleaning keeps the rows with a geometry in order with their columns, and repairs a geometry exactly when it is non-empty and invalid |
| `Parsing.CleanKeepsWalkedRows` | src/parsing.py:141 | rows from the walk all have a geometry, so `dropna` drops none of them |
| `Parsing.ParseKmzOrKml` | src/parsing.py:123-143 | the dispatch on the extension, the KMZ loop and the cleaning compute the specified upload result |
| `Parsing.UploadOutcome` | src/parsing.py:123-143 | an unsupported extension fails, a KMZ fails for lack of KML exactly when no entry ends in `.kml`, and every returned row has a geometry |
| `Utils.DetectCrsOrDefault` | src/utils.py:15-21 | a non-empty forced CRS wins; otherwise the frame's CRS, or `EPSG:4326` when it has none |
| `Utils.ReprojectRows` | src/utils.py:28 | `to_crs` keeps rows, order and columns and transforms each geometry; it fails exactly when some geometry cannot be transformed |
| `Utils.ReprojectIfNeeded` | src/utils.py:24-31 | never fails; returns the input when its CRS equals the target or is missing; otherwise keeps rows and columns and carries either the old or the target CRS |
| `Utils.ReprojectTakesEffect` | src/utils.py:26-31 | the frame changes only when it has another CRS, the target is readable and every geometry transforms; then it carries the target CRS |
| `Utils.ReprojectIdempotent` | src/utils.py:24-31 | for any spelling of the target, reprojecting twice equals reprojecting once, given that the library transforms a geometry from a CRS to itself unchanged |
| `Utils.SimplifyGeometries` | src/utils.py:38-44 | a tolerance of at most 0 returns the input itself; otherwise only the geometries change, each to its simplification, with rows, order, columns and CRS kept |
| `Utils.GroupOf` | src/utils.py:54-56 | points are `Point`/`MultiPoint`, lines `LineString`/`MultiLineString`, polygons `Polygon`/`MultiPolygon`, other types belong to no group |
| `Utils.GroupRowsMembers` | src/utils.py:54-56 | a row is in a group exactly when it has a geometry of one of the group's two types |
| `Utils.GroupSkipsMissing` | src/utils.py:52-56 | dropping the rows without geometry first changes no group |
| `Utils.SplitByGeomType` | src/utils.py:47-58 | an empty frame gives three empty frames without CRS; otherwise each group keeps the frame's CRS |
| `Utils.SplitGroups` | src/utils.py:52-58 | each group is the frame's rows of that group, in the frame's order |
| `Utils.GroupsPartition` | src/utils.py:52-56 | the three groups plus the rows without a supported geometry are, as a multiset, exactly the input rows |
| `Utils.SplitPartition` | src/utils.py:47-58 | no row is lost or duplicated by the split |
| `Utils.SplitDisjoint` | src/utils.py:54-56 | no row is in two groups |
| `Zoning.FindZone` | urbanfortal.py:88-95 | no zone exactly when no zone contains the point (x = longitude, y = latitude); otherwise the first zone in table order that contains it |
| `Zoning.SearchFeedback` | urbanfortal.py:202-211 | a located address gives success exactly when it lies in a zone, a warning otherwise |
| `Zoning.ClickFeedback` | urbanfortal.py:243-252 | a click gives success exactly when a zone contains the point, a warning otherwise |
| `Zoning.Session.constructor` | urbanfortal.py:179-182 | a new session has no selected point and no pending feedback |
| `Zoning.Session.MapLocation` | urbanfortal.py:215-216 | the map centres on the selected point, or on the city centre when there is none |
| `Zoning.Session.SelectedZone` | urbanfortal.py:219-222 | the highlighted zone is the one under the selected point, none without a point |
| `Zoning.Session.Search` | urbanfortal.py:190-212 | a query shorter than 3 characters after stripping changes nothing and warns; a failed or empty geocoding records an error; a located address selects the point, records the zone feedback and asks for a rerun |
| `Zoning.Session.ShowFeedback` | urbanfortal.py:224-232 | the pending feedback is shown once and cleared; the selected point is untouched |
| `Zoning.Session.Click` | urbanfortal.py:238-253 | a click selects the clicked point whether or not a zone is found, records success or warning, and asks for a rerun |
| `Zoning.Session.RunScript` | urbanfortal.py:190-253 | the whole new state of one run: the short-query warning; a located address ends the run with the search's point and message; otherwise the map shows the point selected before the run, its zone and the message pending after the search (the old one or the geocoding error), which is then cleared; a click selects its point, records its message and asks for a rerun, and without a click the point is unchanged |
| `Mapping.AttributePartsAreListed` | src/mapping.py:15-19 | the generic parts are the lines of the listed columns, in column order |
| `Mapping.ListedColumns` | src/mapping.py:15-19 | a column is listed exactly when it is not reserved (`name`, `description`, `geometry`, `__layer__`) and its value is neither `None` nor `""`; a `0` is listed |
| `Mapping.AttributePartsPrefix` | src/mapping.py:15-19 | one more column adds its line exactly when it is listed |
| `Mapping.PopupHtml` | src/mapping.py:8-20 | the loop builds the specified popup |
| `Mapping.PartsNonEmpty` | src/mapping.py:11-19 | every part holds at least its label |
| `Mapping.PopupShape` | src/mapping.py:20 | the popup is never empty; with parts its length is that of the parts plus one `"<br>"` between each two, and it starts with the first part; without parts it is `"<i>Sem atributos</i>"` |
| `Mapping.NameFirst` | src/mapping.py:11-14 | a truthy name gives the first part, followed by the description part when that is truthy |
| `App.TextLayers` | app.py:107 | the string layer values are exactly those of some row |
| `App.LayerNames` | app.py:106-109 | the folder list is strictly sorted and holds exactly the string `__layer__` values |
| `App.BlankForcedCrs` | app.py:93 | a blank or whitespace-only forced CRS counts as none |
| `App.CrsAfterPrepare` | app.py:93-96 | after `set_crs` the frame reads back as the library's spelling of the detected CRS, or, after a requested reprojection, possibly as the library's spelling of the target; with no CRS and nothing forced the detected CRS is `EPSG:4326` |
| `App.PrepareKeepsRows` | app.py:93-100 | the preparation fails only on an unreadable CRS and keeps every row, in order, with its columns |
| `App.PrepareOnlySetsCrs` | app.py:95-100 | with a blank target and a tolerance of at most 0 only the CRS is set |
| `App.ViewOf` | app.py:103-118 | the folder filter applies only when the folder list is non-empty, and the groups are recomputed on the filtered frame |
| `App.ProcessFrame` | app.py:93-118 | the steps after the parse compute the specified view, or the CRS error |
| `App.ProcessUpload` | app.py:88-118 | a failed parse is reported as such; otherwise the result is the view of the prepared frame |
| `App.DefaultSelectionKeepsLayeredRows` | app.py:111-117 | with the default selection every row with a string layer survives, in order |
| `App.SelectionMembers` | app.py:117 | the filter keeps exactly the rows whose layer is selected |
| `Strings.Strip` | urbanfortal.py:190 | `strip()` returns a slice of the input cut only at leading and trailing whitespace, which neither starts nor ends with whitespace |
| `Strings.SortedDistinct` | app.py:107 | `sorted(set(...))` is strictly sorted and has the same members |
| `Dicts.Put` | src/parsing.py:55 | `d[k] = v` stores `v` under `k` and changes no other key |
| `Dicts.PutKeys` | src/parsing.py:55 | an existing key keeps its position; a new key goes at the end |
| `Dicts.Update` | src/parsing.py:93-99 | `{**d, **e}`: a key of `e` takes its last value in `e`, other keys keep their value in `d` |
| `Dicts.Remove` | src/parsing.py:98 | the `geometry` key is gone from the attribute columns and no key is added |

## Left out

- The KML parsing itself (fastkml) and the zip reader: `Parsing.Reader` gives the
  parsed feature tree and the archive listing, `None` when the library raises.
- The OGR fallback of `parse_kml_bytes` (src/parsing.py:109-121): file I/O through a
  library, used only when fastkml is missing.
- Geometry algebra (`shape`, `is_valid`, `is_empty`, `buffer(0)`, `simplify`,
  `contains`, `to_crs`): uninterpreted functions of `Geometry.Lib`.
- `GeoDataFrame` columns are modelled per row as an ordered dict; pandas' alignment of
  rows with different columns (cells filled with NaN) is not modelled, and a NaN cell
  (truthy in Python, and not `None`) does not occur in the model.
- Cell values are `None`, strings and integers; floats and other objects are not
  modelled.
- `Strings.Lower`: does not model Unicode case mapping beyond ASCII, because Python's
  `lower()` depends on the Unicode database.
- `Strings.Strip`: treats as whitespace the ASCII whitespace, the separators
  U+001C-U+001F, U+0085 and U+00A0 only, not every Unicode space.
- `App.LayerNames`: integer `__layer__` values (possible only when extended data
  overrides `__layer__` with a non-string) are never offered as folders. When string and
  integer values are mixed, the program's `sorted` raises and the model does not; when
  every non-null value is an integer, the program offers those integers and filters by
  them (app.py:107-117), while the model offers no folders and does not filter.
- The `gdf is None` case of `split_by_geom_type`: the model's frames always exist.
- Area and perimeter of the zones, the CSV loading of `carregar_dados` and the hectare
  conversion (urbanfortal.py:19-42): floating-point arithmetic after a library call.
- Nominatim geocoding over HTTP (urbanfortal.py:54-85): a function from the query
  `"<address>, Fortaleza, Brasil"` to a reply (failure, no result, or a point).
- The wording and number formatting of the messages, the folium/pydeck map builders
  and tooltips (src/mapping.py:23-186, urbanfortal.py:98-171), the exporters
  (src/utils.py:65-74), Streamlit widgets, caching and page layout.
- `st.rerun()` is modelled as the end of the current run (`rerun` is true), not as
  the start of the next one.

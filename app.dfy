/** The upload pipeline of `app.py`: parse the upload, settle its CRS, optionally
    reproject and simplify it, split it by geometry type, and restrict it to the chosen
    folders. */
module App {
  import opened Wrappers
  import opened Seqs
  import opened Strings
  import opened Geometry
  import opened Rows
  import opened Parsing
  import opened Utils

  datatype UploadError = ParseFailed(error: ParseError) | InvalidCrs(crs: string)

  /** What the page shows after an upload: the frame, its three groups, the folder list
      offered for selection and the per-file frames. */
  datatype View = View(frame: Frame, groups: Split, layers: seq<string>, files: map<string, seq<Row>>)

  /** `force_crs.strip() or None` */
  function ForcedCrs(force: string): Option<string>
  {
    var s := Strip(force);
    if s == "" then None else Some(s)
  }

  /** The frame after `set_crs`, the optional reprojection and the optional simplification
      (app.py:93-100); `set_crs` raises on a CRS the library cannot read. */
  function Prepare(lib: Lib, f: Frame, forceCrs: string, targetCrs: string, tol: real): Result<Frame, UploadError>
  {
    var inferred := DetectCrsOrDefault(f, ForcedCrs(forceCrs));
    match lib.canonicalCrs(inferred)
    case None => Err(InvalidCrs(inferred))
    case Some(c) =>
      var withCrs := f.(crs := Some(c));
      var target := Strip(targetCrs);
      var reprojected := if target != "" then ReprojectIfNeeded(lib, withCrs, target) else withCrs;
      Ok(if tol > 0.0 then SimplifyGeometries(lib, reprojected, tol) else reprojected)
  }

  /** The `__layer__` values that are strings, in row order. */
  function TextLayers(rows: seq<Row>): (names: seq<string>)
    ensures forall s :: s in names <==> exists r :: r in rows && Layer(r) == Text(s)
  {
    if rows == [] then []
    else
      assert forall r :: r in rows <==> r == rows[0] || r in rows[1..];
      (if Layer(rows[0]).Text? then [Layer(rows[0]).s] else []) + TextLayers(rows[1..])
  }

  /** `sorted(gdf_all["__layer__"].dropna().unique())` */
  function LayerNames(rows: seq<Row>): (names: seq<string>)
    ensures StrictlySorted(names)
    ensures forall s :: s in names <==> exists r :: r in rows && Layer(r) == Text(s)
  {
    SortedDistinct(TextLayers(rows))
  }

  predicate InSelection(selection: seq<string>, r: Row)
  {
    Layer(r).Text? && Layer(r).s in selection
  }

  predicate HasTextLayer(r: Row)
  {
    Layer(r).Text?
  }

  /** `gdf_all[gdf_all["__layer__"].isin(selected_layers)]` */
  function FilterLayers(rows: seq<Row>, selection: seq<string>): seq<Row>
  {
    Filter(rows, r => InSelection(selection, r))
  }

  /** The view of a parsed frame: the steps of app.py:93-118 after the parse. */
  function ViewOf(lib: Lib, g: Frame, selection: Option<seq<string>>, files: map<string, seq<Row>>): (v: View)
    ensures v.layers == LayerNames(g.rows)
    ensures v.layers == [] ==> v.frame == g
    ensures v.layers != [] ==> v.frame == Frame(FilterLayers(g.rows, selection.GetOr(v.layers)), g.crs)
    ensures v.groups == SplitByGeomType(lib, v.frame)
  {
    var layers := LayerNames(g.rows);
    var frame := if layers == [] then g else Frame(FilterLayers(g.rows, selection.GetOr(layers)), g.crs);
    View(frame, SplitByGeomType(lib, frame), layers, files)
  }

  /** The steps of app.py:93-118 on the parsed frame `gdfAll`, rebinding it as they go. */
  method ProcessFrame(lib: Lib, gdfAll: Frame, forceCrs: string, targetCrs: string, tol: real,
                      selection: Option<seq<string>>, files: map<string, seq<Row>>)
    returns (r: Result<View, UploadError>)
    ensures Prepare(lib, gdfAll, forceCrs, targetCrs, tol).Err? ==> r == Err(Prepare(lib, gdfAll, forceCrs, targetCrs, tol).error)
    ensures Prepare(lib, gdfAll, forceCrs, targetCrs, tol).Ok? ==>
      r == Ok(ViewOf(lib, Prepare(lib, gdfAll, forceCrs, targetCrs, tol).value, selection, files))
  {
    var frame := gdfAll;
    var inferred := DetectCrsOrDefault(frame, ForcedCrs(forceCrs));
    var crs := lib.canonicalCrs(inferred);
    if crs.None? {
      return Err(InvalidCrs(inferred));
    }
    frame := frame.(crs := crs);
    var target := Strip(targetCrs);
    if target != "" {
      frame := ReprojectIfNeeded(lib, frame, target);
    }
    if tol > 0.0 {
      frame := SimplifyGeometries(lib, frame, tol);
    }
    assert Prepare(lib, gdfAll, forceCrs, targetCrs, tol) == Ok(frame);
    ghost var prepared := frame;
    var groups := SplitByGeomType(lib, frame);
    var layers := LayerNames(frame.rows);
    if layers != [] {
      var selected := selection.GetOr(layers);
      frame := Frame(FilterLayers(frame.rows, selected), frame.crs);
      groups := SplitByGeomType(lib, frame);
    }
    assert View(frame, groups, layers, files) == ViewOf(lib, prepared, selection, files);
    return Ok(View(frame, groups, layers, files));
  }

  /** The pipeline of app.py:88-118. `selection` is the user's choice of folders, `None`
      for the default, which selects them all. */
  method ProcessUpload(lib: Lib, reader: Reader, file: Bytes, filename: string, forceCrs: string,
                       targetCrs: string, tol: real, selection: Option<seq<string>>)
    returns (r: Result<View, UploadError>)
    ensures ParseUpload(lib, reader, file, filename).Err? ==>
      r == Err(ParseFailed(ParseUpload(lib, reader, file, filename).error))
    ensures ParseUpload(lib, reader, file, filename).Ok? ==>
      var parsed := ParseUpload(lib, reader, file, filename).value;
      var prepared := Prepare(lib, Frame(parsed.rows, None), forceCrs, targetCrs, tol);
      && (prepared.Err? ==> r == Err(prepared.error))
      && (prepared.Ok? ==> r == Ok(ViewOf(lib, prepared.value, selection, parsed.layers)))
  {
    var parsed := ParseKmzOrKml(lib, reader, file, filename);
    if parsed.Err? {
      return Err(ParseFailed(parsed.error));
    }
    r := ProcessFrame(lib, Frame(parsed.value.rows, None), forceCrs, targetCrs, tol, selection, parsed.value.layers);
  }

  /** A blank forced CRS counts as none: the frame's own CRS, or WGS 84, is used. */
  lemma BlankForcedCrs(f: Frame, force: string)
    ensures Strip(force) == "" ==> DetectCrsOrDefault(f, ForcedCrs(force)) == f.crs.GetOr(DefaultCrs)
    ensures Strip(force) != "" ==> DetectCrsOrDefault(f, ForcedCrs(force)) == Strip(force)
  {
  }

  /** The preparation keeps every row, in order, with its columns and with a geometry
      exactly where it had one, and it fails only on a CRS the library cannot read. */
  lemma PrepareKeepsRows(lib: Lib, f: Frame, forceCrs: string, targetCrs: string, tol: real)
    ensures Prepare(lib, f, forceCrs, targetCrs, tol).Err? <==> lib.canonicalCrs(DetectCrsOrDefault(f, ForcedCrs(forceCrs))).None?
    ensures Prepare(lib, f, forceCrs, targetCrs, tol).Ok? ==>
      var p := Prepare(lib, f, forceCrs, targetCrs, tol).value;
      && |p.rows| == |f.rows|
      && forall i :: 0 <= i < |f.rows| ==>
           p.rows[i].attrs == f.rows[i].attrs && (p.rows[i].geometry.None? <==> f.rows[i].geometry.None?)
  {
    var inferred := DetectCrsOrDefault(f, ForcedCrs(forceCrs));
    if lib.canonicalCrs(inferred).Some? {
      var withCrs := f.(crs := lib.canonicalCrs(inferred));
      var target := Strip(targetCrs);
      var reprojected := if target != "" then ReprojectIfNeeded(lib, withCrs, target) else withCrs;
      assert |reprojected.rows| == |f.rows|;
    }
  }

  /** The CRS the prepared frame carries, read back by `detect_crs_or_default`: the
      library's spelling of the detected CRS (`set_crs` stores that), or after a requested
      reprojection possibly the library's spelling of the target. A frame without a CRS and
      without a forced one is read as WGS 84. */
  lemma CrsAfterPrepare(lib: Lib, f: Frame, forceCrs: string, targetCrs: string, tol: real)
    ensures f.crs.None? && Strip(forceCrs) == "" ==> DetectCrsOrDefault(f, ForcedCrs(forceCrs)) == DefaultCrs
    ensures Prepare(lib, f, forceCrs, targetCrs, tol).Ok? ==>
      var inferred := DetectCrsOrDefault(f, ForcedCrs(forceCrs));
      var crs := DetectCrsOrDefault(Prepare(lib, f, forceCrs, targetCrs, tol).value, None);
      && lib.canonicalCrs(inferred).Some?
      && (Strip(targetCrs) == "" ==> crs == lib.canonicalCrs(inferred).value)
      && (Strip(targetCrs) != "" ==>
            crs == lib.canonicalCrs(inferred).value || Some(crs) == lib.canonicalCrs(Strip(targetCrs)))
  {
  }

  /** With a blank target there is no reprojection, and with a tolerance of at most 0 no
      simplification: only the CRS is set. */
  lemma PrepareOnlySetsCrs(lib: Lib, f: Frame, forceCrs: string, targetCrs: string, tol: real)
    requires Strip(targetCrs) == "" && tol <= 0.0
    ensures Prepare(lib, f, forceCrs, targetCrs, tol).Ok? ==>
      Prepare(lib, f, forceCrs, targetCrs, tol).value == f.(crs := lib.canonicalCrs(DetectCrsOrDefault(f, ForcedCrs(forceCrs))))
  {
  }

  /** The folder filter keeps, in order, exactly the rows whose folder is selected; with
      the default selection, every row whose `__layer__` is a string survives. */
  lemma {:induction false} DefaultSelectionKeepsLayeredRows(rows: seq<Row>)
    ensures FilterLayers(rows, LayerNames(rows)) == Filter(rows, HasTextLayer)
  {
    forall r | r in rows ensures InSelection(LayerNames(rows), r) == HasTextLayer(r) {
      if Layer(r).Text? {
        assert exists r' :: r' in rows && Layer(r') == Text(Layer(r).s);
      }
    }
    FilterCongruent(rows, r => InSelection(LayerNames(rows), r), HasTextLayer);
  }

  lemma SelectionMembers(rows: seq<Row>, selection: seq<string>, r: Row)
    ensures r in FilterLayers(rows, selection) <==> r in rows && Layer(r).Text? && Layer(r).s in selection
  {
  }
}

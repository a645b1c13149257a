/** The frame helpers of `src/utils.py`: choosing a CRS, reprojecting, simplifying, and
    splitting a frame by geometry type. Every one returns a frame and changes none. */
module Utils {
  import opened Wrappers
  import opened Seqs
  import opened Geometry
  import opened Rows

  const DefaultCrs := "EPSG:4326"

  // ---------------------------------------------------------------------------
  // detect_crs_or_default
  // ---------------------------------------------------------------------------

  /** `detect_crs_or_default` (src/utils.py:15-21): a non-empty forced CRS wins, then the
      frame's own CRS, then WGS 84. */
  function DetectCrsOrDefault(f: Frame, forced: Option<string>): (crs: string)
    ensures forced.Some? && forced.value != "" ==> crs == forced.value
    ensures (forced.None? || forced.value == "") ==> crs == f.crs.GetOr(DefaultCrs)
  {
    if forced.Some? && forced.value != "" then forced.value
    else if f.crs.Some? then f.crs.value
    else DefaultCrs
  }

  // ---------------------------------------------------------------------------
  // reproject_if_needed
  // ---------------------------------------------------------------------------

  /** The geometry of one row in the target CRS; a missing geometry stays missing. */
  function ReprojectGeom(lib: Lib, g: Option<Geom>, from: string, to: string): Option<Option<Geom>>
  {
    match g
    case None => Some(None)
    case Some(x) =>
      match lib.reproject(x, from, to)
      case None => None
      case Some(y) => Some(Some(y))
  }

  /** True when some geometry of `rows` cannot be transformed. */
  predicate SomeGeomFails(lib: Lib, rows: seq<Row>, from: string, to: string)
  {
    exists i :: 0 <= i < |rows| && ReprojectGeom(lib, rows[i].geometry, from, to).None?
  }

  /** `to_crs` applied to the geometry column: every geometry transformed, the other
      columns and the row order kept, or `None` when one transformation raises. */
  function ReprojectRows(lib: Lib, rows: seq<Row>, from: string, to: string): (r: Option<seq<Row>>)
    ensures r.None? <==> SomeGeomFails(lib, rows, from, to)
    ensures r.Some? ==> |r.value| == |rows|
    ensures r.Some? ==> forall i :: 0 <= i < |rows| ==>
      && r.value[i].attrs == rows[i].attrs
      && Some(r.value[i].geometry) == ReprojectGeom(lib, rows[i].geometry, from, to)
  {
    if rows == [] then Some([])
    else
      match ReprojectGeom(lib, rows[0].geometry, from, to)
      case None => None
      case Some(g) =>
        match ReprojectRows(lib, rows[1..], from, to)
        case None =>
          assert forall i :: 0 < i < |rows| ==> rows[1..][i - 1] == rows[i];
          None
        case Some(rest) =>
          assert forall i :: 0 < i < |rows| ==> rows[1..][i - 1] == rows[i];
          Some([rows[0].(geometry := g)] + rest)
  }

  /** `gdf.to_crs(target)`: `None` when it raises, which a frame without a CRS, a target
      that names no CRS and a geometry that cannot be transformed all do. */
  function ToCrs(lib: Lib, f: Frame, target: string): Option<Frame>
  {
    if f.crs.None? then None
    else
      match lib.canonicalCrs(target)
      case None => None
      case Some(to) =>
        match ReprojectRows(lib, f.rows, f.crs.value, to)
        case None => None
        case Some(rows) => Some(Frame(rows, Some(to)))
  }

  /** `reproject_if_needed` (src/utils.py:24-31). */
  function ReprojectIfNeeded(lib: Lib, f: Frame, target: string): (r: Frame)
    ensures f.crs == Some(target) ==> r == f
    ensures f.crs.None? ==> r == f
    ensures r == f || r.crs == lib.canonicalCrs(target)
    ensures |r.rows| == |f.rows|
    ensures forall i :: 0 <= i < |f.rows| ==>
      r.rows[i].attrs == f.rows[i].attrs && (r.rows[i].geometry.None? <==> f.rows[i].geometry.None?)
  {
    if f.crs.None? || f.crs.value != target then
      match ToCrs(lib, f, target)
      case None => f
      case Some(g) => g
    else f
  }

  /** The reprojection takes effect exactly when the frame has a CRS other than the target,
      the target names a CRS and every geometry can be transformed; otherwise the frame is
      handed back as it was. */
  lemma ReprojectTakesEffect(lib: Lib, f: Frame, target: string)
    ensures ReprojectIfNeeded(lib, f, target) != f ==>
      && f.crs.Some? && f.crs != Some(target)
      && lib.canonicalCrs(target).Some?
      && !SomeGeomFails(lib, f.rows, f.crs.value, lib.canonicalCrs(target).value)
    ensures (f.crs.Some? && f.crs != Some(target) && lib.canonicalCrs(target).Some? &&
             !SomeGeomFails(lib, f.rows, f.crs.value, lib.canonicalCrs(target).value)) ==>
      ReprojectIfNeeded(lib, f, target).crs == lib.canonicalCrs(target)
  {
  }

  /** Reprojecting twice is reprojecting once, for any spelling of the target, given that
      transforming a geometry from a CRS to that same CRS leaves it as it is. */
  lemma ReprojectIdempotent(lib: Lib, f: Frame, target: string)
    requires forall x, c :: lib.reproject(x, c, c) == Some(x)
    ensures ReprojectIfNeeded(lib, ReprojectIfNeeded(lib, f, target), target) == ReprojectIfNeeded(lib, f, target)
  {
  }

  // ---------------------------------------------------------------------------
  // simplify_geometries
  // ---------------------------------------------------------------------------

  /** `geometry.simplify(tol, preserve_topology=True)` on one row; a missing geometry
      stays missing. */
  function SimplifyRow(lib: Lib, tol: real, r: Row): Row
  {
    r.(geometry := if r.geometry.Some? then Some(lib.simplify(r.geometry.value, tol)) else None)
  }

  /** `simplify_geometries` (src/utils.py:38-44). */
  function SimplifyGeometries(lib: Lib, f: Frame, tol: real): (r: Frame)
    ensures tol <= 0.0 ==> r == f
    ensures r.crs == f.crs && |r.rows| == |f.rows|
    ensures forall i :: 0 <= i < |f.rows| ==>
      && r.rows[i].attrs == f.rows[i].attrs
      && (r.rows[i].geometry.None? <==> f.rows[i].geometry.None?)
      && (tol > 0.0 && f.rows[i].geometry.Some? ==> r.rows[i].geometry == Some(lib.simplify(f.rows[i].geometry.value, tol)))
  {
    if tol <= 0.0 then f
    else Frame(Map(f.rows, r => SimplifyRow(lib, tol, r)), f.crs)
  }

  // ---------------------------------------------------------------------------
  // split_by_geom_type
  // ---------------------------------------------------------------------------

  datatype Group = Points | Lines | Polygons

  /** The group a geometry type goes to, if any. */
  function GroupOf(t: GeomType): (g: Option<Group>)
    ensures g == Some(Points) <==> t == Point || t == MultiPoint
    ensures g == Some(Lines) <==> t == LineString || t == MultiLineString
    ensures g == Some(Polygons) <==> t == Polygon || t == MultiPolygon
  {
    match t
    case Point => Some(Points)
    case MultiPoint => Some(Points)
    case LineString => Some(Lines)
    case MultiLineString => Some(Lines)
    case Polygon => Some(Polygons)
    case MultiPolygon => Some(Polygons)
    case Other => None
  }

  predicate InGroup(lib: Lib, g: Group, r: Row)
  {
    r.geometry.Some? && GroupOf(lib.geomType(r.geometry.value)) == Some(g)
  }

  /** A row that no group takes: a missing geometry or a type outside the three groups. */
  predicate Unsupported(lib: Lib, r: Row)
  {
    r.geometry.None? || GroupOf(lib.geomType(r.geometry.value)).None?
  }

  /** `gdf[gdf.geometry.geom_type.isin(...)]` for the two types of group `g`. */
  function GroupRows(lib: Lib, rows: seq<Row>, g: Group): seq<Row>
  {
    if rows == [] then [] else (if InGroup(lib, g, rows[0]) then [rows[0]] else []) + GroupRows(lib, rows[1..], g)
  }

  /** The rows no group takes, in order. */
  function UnsupportedRows(lib: Lib, rows: seq<Row>): seq<Row>
  {
    if rows == [] then [] else (if Unsupported(lib, rows[0]) then [rows[0]] else []) + UnsupportedRows(lib, rows[1..])
  }

  lemma {:induction false} GroupRowsMembers(lib: Lib, rows: seq<Row>, g: Group, x: Row)
    ensures x in GroupRows(lib, rows, g) <==> x in rows && InGroup(lib, g, x)
  {
    if rows != [] {
      GroupRowsMembers(lib, rows[1..], g, x);
      assert rows == [rows[0]] + rows[1..];
    }
  }

  lemma {:induction false} GroupRowsAppend(lib: Lib, a: seq<Row>, b: seq<Row>, g: Group)
    ensures GroupRows(lib, a + b, g) == GroupRows(lib, a, g) + GroupRows(lib, b, g)
  {
    if a == [] {
      assert a + b == b;
    } else {
      assert (a + b)[1..] == a[1..] + b;
      GroupRowsAppend(lib, a[1..], b, g);
    }
  }

  datatype Split = Split(points: Frame, lines: Frame, polygons: Frame)

  function GroupFrame(s: Split, g: Group): Frame
  {
    match g
    case Points => s.points
    case Lines => s.lines
    case Polygons => s.polygons
  }

  /** `split_by_geom_type` (src/utils.py:47-58): an empty frame gives three empty frames
      without a CRS; otherwise the rows with a geometry are split by type, each group
      keeping the frame's CRS. */
  function SplitByGeomType(lib: Lib, f: Frame): (s: Split)
    ensures f.rows == [] ==> s == Split(Frame([], None), Frame([], None), Frame([], None))
    ensures f.rows != [] ==> s.points.crs == f.crs && s.lines.crs == f.crs && s.polygons.crs == f.crs
  {
    if f.rows == [] then Split(Frame([], None), Frame([], None), Frame([], None))
    else
      var kept := Filter(f.rows, HasGeometry);
      Split(Frame(GroupRows(lib, kept, Points), f.crs),
            Frame(GroupRows(lib, kept, Lines), f.crs),
            Frame(GroupRows(lib, kept, Polygons), f.crs))
  }

  /** Dropping the rows without a geometry first changes no group. */
  lemma {:induction false} GroupSkipsMissing(lib: Lib, rows: seq<Row>, g: Group)
    ensures GroupRows(lib, Filter(rows, HasGeometry), g) == GroupRows(lib, rows, g)
  {
    if rows != [] {
      GroupSkipsMissing(lib, rows[1..], g);
      var head := if HasGeometry(rows[0]) then [rows[0]] else [];
      GroupRowsAppend(lib, head, Filter(rows[1..], HasGeometry), g);
    }
  }

  /** Each group holds, in the frame's order, exactly its rows: those with a geometry of
      one of the group's two types. */
  lemma SplitGroups(lib: Lib, f: Frame, g: Group)
    ensures GroupFrame(SplitByGeomType(lib, f), g).rows == GroupRows(lib, f.rows, g)
    ensures forall r :: r in GroupFrame(SplitByGeomType(lib, f), g).rows <==> r in f.rows && InGroup(lib, g, r)
  {
    GroupSkipsMissing(lib, f.rows, g);
    forall x ensures x in GroupFrame(SplitByGeomType(lib, f), g).rows <==> x in f.rows && InGroup(lib, g, x) {
      GroupRowsMembers(lib, f.rows, g, x);
    }
  }

  /** The groups are pairwise disjoint, and together with the unsupported rows they are
      the frame's rows: no row is lost or duplicated. */
  lemma {:induction false} GroupsPartition(lib: Lib, rows: seq<Row>)
    ensures multiset(GroupRows(lib, rows, Points)) + multiset(GroupRows(lib, rows, Lines))
      + multiset(GroupRows(lib, rows, Polygons)) + multiset(UnsupportedRows(lib, rows))
      == multiset(rows)
  {
    if rows != [] {
      var x, tail := rows[0], rows[1..];
      GroupsPartition(lib, tail);
      assert rows == [x] + tail;
      var pts, lns, pgs, uns := GroupRows(lib, rows, Points), GroupRows(lib, rows, Lines), GroupRows(lib, rows, Polygons), UnsupportedRows(lib, rows);
      ExactlyOneGroup(lib, x);
      if Unsupported(lib, x) {
        assert uns == [x] + UnsupportedRows(lib, tail);
        assert pts == GroupRows(lib, tail, Points) && lns == GroupRows(lib, tail, Lines) && pgs == GroupRows(lib, tail, Polygons);
      } else if InGroup(lib, Points, x) {
        assert pts == [x] + GroupRows(lib, tail, Points);
        assert uns == UnsupportedRows(lib, tail) && lns == GroupRows(lib, tail, Lines) && pgs == GroupRows(lib, tail, Polygons);
      } else if InGroup(lib, Lines, x) {
        assert lns == [x] + GroupRows(lib, tail, Lines);
        assert uns == UnsupportedRows(lib, tail) && pts == GroupRows(lib, tail, Points) && pgs == GroupRows(lib, tail, Polygons);
      } else {
        assert pgs == [x] + GroupRows(lib, tail, Polygons);
        assert uns == UnsupportedRows(lib, tail) && pts == GroupRows(lib, tail, Points) && lns == GroupRows(lib, tail, Lines);
      }
    }
  }

  /** Each row lands in exactly one of the three groups or among the unsupported rows. */
  lemma ExactlyOneGroup(lib: Lib, x: Row)
    ensures Unsupported(lib, x) ==> !InGroup(lib, Points, x) && !InGroup(lib, Lines, x) && !InGroup(lib, Polygons, x)
    ensures !Unsupported(lib, x) ==>
      (InGroup(lib, Points, x) && !InGroup(lib, Lines, x) && !InGroup(lib, Polygons, x)) ||
      (!InGroup(lib, Points, x) && InGroup(lib, Lines, x) && !InGroup(lib, Polygons, x)) ||
      (!InGroup(lib, Points, x) && !InGroup(lib, Lines, x) && InGroup(lib, Polygons, x))
  {
  }

  /** Together with the unsupported rows, the groups are the frame's rows: no row is lost
      or duplicated. */
  lemma SplitPartition(lib: Lib, f: Frame)
    ensures var s := SplitByGeomType(lib, f);
      multiset(s.points.rows) + multiset(s.lines.rows) + multiset(s.polygons.rows)
        + multiset(UnsupportedRows(lib, f.rows)) == multiset(f.rows)
  {
    SplitGroups(lib, f, Points);
    SplitGroups(lib, f, Lines);
    SplitGroups(lib, f, Polygons);
    GroupsPartition(lib, f.rows);
  }

  /** No row is in two groups. */
  lemma SplitDisjoint(lib: Lib, f: Frame, r: Row, g: Group, h: Group)
    requires g != h
    ensures !(r in GroupFrame(SplitByGeomType(lib, f), g).rows && r in GroupFrame(SplitByGeomType(lib, f), h).rows)
  {
    SplitGroups(lib, f, g);
    SplitGroups(lib, f, h);
  }
}

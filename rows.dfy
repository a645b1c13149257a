/** Attribute rows and GeoDataFrames as the core builds and reads them. */
module Rows {
  import opened Wrappers
  import opened Dicts
  import opened Geometry
  import Strings

  /** A cell value: `None`, a string or an integer. */
  datatype Value = Null | Text(s: string) | Int(i: int)

  /** Python truthiness: `None`, `""` and `0` are false. */
  predicate Truthy(v: Value)
  {
    match v
    case Null => false
    case Text(s) => s != ""
    case Int(i) => i != 0
  }

  /** `str(v)` */
  function Str(v: Value): string
  {
    match v
    case Null => "None"
    case Text(s) => s
    case Int(i) => Strings.IntToString(i)
  }

  /** `getattr(obj, attr, None)` for a text attribute. */
  function OptText(s: Option<string>): Value
  {
    match s
    case None => Null
    case Some(t) => Text(t)
  }

  const LayerColumn := "__layer__"
  const NameColumn := "name"
  const DescriptionColumn := "description"
  const GeometryColumn := "geometry"

  /** One row of a GeoDataFrame: its non-geometry columns, in column order, and its
      geometry (`None` for a missing geometry). */
  datatype Row = Row(attrs: Dict<Value>, geometry: Option<Geom>)

  /** `geometry.notnull()` for one row. */
  predicate HasGeometry(r: Row)
  {
    r.geometry.Some?
  }

  /** A GeoDataFrame: its rows in index order and its CRS (`gdf.crs.to_string()`). */
  datatype Frame = Frame(rows: seq<Row>, crs: Option<string>)

  /** `row["__layer__"]`, `None` when the row has no such column. */
  function Layer(r: Row): Value
  {
    Get(r.attrs, LayerColumn).GetOr(Null)
  }
}

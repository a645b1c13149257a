/** The geometry library (shapely, pyproj through GeoPandas) as the core sees it: opaque
    geometries and the handful of operations applied to them, none of which is interpreted. */
module Geometry {
  import opened Wrappers

  /** A shapely geometry. */
  type Geom(==, !new)

  /** The geometry object of a parsed KML placemark, before `shapely.geometry.shape`. */
  type KmlGeometry(!new)

  /** `geom.geom_type`; `Other` stands for every type the core does not name
      (`GeometryCollection`, `LinearRing`, ...). */
  datatype GeomType = Point | MultiPoint | LineString | MultiLineString | Polygon | MultiPolygon | Other

  /** `shapely.geometry.Point(x, y)` */
  datatype Coord = Coord(x: real, y: real)

  datatype Lib = Lib(
    geomType: Geom -> GeomType,
    isValid: Geom -> bool,
    /** `geom.is_empty`; `bool(geom)` is its negation. */
    isEmpty: Geom -> bool,
    /** `geom.contains(point)` */
    contains: (Geom, Coord) -> bool,
    /** `geom.buffer(0)` */
    repair: Geom -> Geom,
    /** `geom.simplify(tolerance, preserve_topology=True)` */
    simplify: (Geom, real) -> Geom,
    /** `shapely.geometry.shape(obj)`; `None` when it raises. */
    shape: KmlGeometry -> Option<Geom>,
    /** `pyproj.CRS(text).to_string()`; `None` when the text names no CRS. */
    canonicalCrs: string -> Option<string>,
    /** One geometry transformed from the first CRS to the second; `None` when it raises. */
    reproject: (Geom, string, string) -> Option<Geom>
  )
}

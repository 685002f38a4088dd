/**
 * The tabular-geometry data model: a frame is an ordered list of records,
 * each an attribute map plus an optional geometry, together with the
 * coordinate reference system the frame declares.
 */
module Geo {
  import opened Wrappers

  /** A float as the data library holds it: a finite number, an infinity, or NaN. */
  datatype Float = Finite(value: real) | Infinity(negative: bool) | NaN

  /** An (x, y) coordinate pair; with WGS84, x is the longitude. */
  type Coord = (Float, Float)

  datatype Geometry =
    | Point(at: Coord)
    | LineString(coords: seq<Coord>)
    | Polygon(shell: seq<Coord>)
    | MultiLineString(lines: seq<seq<Coord>>)
    | MultiPolygon(shells: seq<seq<Coord>>)

  /** An attribute value of a record: a string, a number, or missing (None / NaN). */
  datatype Value = Str(s: string) | Num(x: real) | Missing

  /** One row of a plain table: column name to value. */
  type Row = map<string, Value>

  datatype Record = Record(attrs: Row, geometry: Option<Geometry>)

  /** A geo-data frame. The attribute columns, its records in source order, and its CRS. */
  datatype Frame = Frame(columns: set<string>, rows: seq<Record>, crs: Option<string>)

  /** A plain data frame without geometry (what a CSV read or a list of dicts becomes). */
  datatype Table = Table(columns: set<string>, rows: seq<Row>)

  /** The errors the core raises, by Python exception class and message. */
  datatype Error =
    | FileNotFoundError(message: string)
    | ValueError(message: string)
      /** A subscript of an absent column; `message` is the key. */
    | KeyError(message: string)
    | AttributeError(message: string)

  /** `row[key]`, reading an absent attribute as missing. */
  function Attr(r: Record, key: string): (v: Value)
    ensures key in r.attrs ==> v == r.attrs[key]
    ensures key !in r.attrs ==> v.Missing?
  {
    if key in r.attrs then r.attrs[key] else Missing
  }

  /** The coordinate sequence of a geometry type that provides one (shapely's `coords`). */
  function CoordinateSequence(g: Option<Geometry>): (cs: Option<seq<Coord>>)
    ensures cs.Some? <==> g.Some? && (g.value.Point? || g.value.LineString?)
    ensures g.Some? && g.value.Point? ==> cs == Some([g.value.at])
    ensures g.Some? && g.value.LineString? ==> cs == Some(g.value.coords)
  {
    match g
    case Some(Point(c)) => Some([c])
    case Some(LineString(cs)) => Some(cs)
    case _ => None
  }

  /**
   * A reprojection as the projection library performs it: given the source
   * CRS and the target CRS, the image of one coordinate.
   */
  type Projection = (string, string, Coord) -> Coord

  function MapPath(cs: seq<Coord>, f: Coord -> Coord): (r: seq<Coord>)
    ensures |r| == |cs|
    ensures forall i :: 0 <= i < |cs| ==> r[i] == f(cs[i])
  {
    seq(|cs|, i requires 0 <= i < |cs| => f(cs[i]))
  }

  /** A geometry with every coordinate transformed; the geometry's kind and shape are kept. */
  function MapGeometry(g: Geometry, f: Coord -> Coord): (r: Geometry)
    ensures r.Point? <==> g.Point?
    ensures r.LineString? <==> g.LineString?
    ensures g.LineString? ==> |r.coords| == |g.coords|
  {
    match g
    case Point(c) => Point(f(c))
    case LineString(cs) => LineString(MapPath(cs, f))
    case Polygon(cs) => Polygon(MapPath(cs, f))
    case MultiLineString(ls) => MultiLineString(seq(|ls|, i requires 0 <= i < |ls| => MapPath(ls[i], f)))
    case MultiPolygon(ps) => MultiPolygon(seq(|ps|, i requires 0 <= i < |ps| => MapPath(ps[i], f)))
  }
}

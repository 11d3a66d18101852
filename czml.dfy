/**
 * Plain records for what the core hands to the czml3 serialiser: geodetic points,
 * cartographic position triples, decoration values, geometries and packets.
 */
module Czml {

  /** A geodetic point in the row order of the input arrays: latitude°, longitude°, altitude m. */
  datatype Point = Point(lat: real, lon: real, alt: real)

  /** One (longitude°, latitude°, altitude m) triple of a `cartographicDegrees` list. */
  datatype Cartographic = Cartographic(lon: real, lat: real, alt: real)

  /** The emitted triple for a point: its first two coordinates swapped. */
  function ToCartographic(p: Point): Cartographic
  {
    Cartographic(p.lon, p.lat, p.alt)
  }

  /** The two czml3 geometry classes a decoration template can be an instance of. */
  datatype ShapeKind = PolylineKind | PolygonKind

  /** A keyword value passed to a packet-building function. */
  datatype Value =
    | Text(s: string)
    | Number(x: real)
    | Flag(b: bool)
    /** A Python list or tuple. */
    | List(items: seq<Value>)
    /** A czml3 `Polyline` or `Polygon` instance, given by the fields it holds. */
    | Shape(kind: ShapeKind, fields: map<string, Value>)
    /** A czml3 `Color` with its rgba components. */
    | Colour(rgba: seq<int>)
    /** Any other object (a numpy array, another czml3 property), never split. */
    | Other(tag: string)

  /** The fixed part of a packet identifier; the random uuid suffix is not modelled. */
  datatype PacketId =
    /** `sensor{i}line00-…` and its three siblings. */
    | LineId(sensor: nat, corner: string)
    /** A bare uuid (the elevation arcs of the wireframe). */
    | ArcId
    /** `sensor{i}-{elevation}-{range}-…` (the azimuth arcs of the wireframe). */
    | AzimuthArcId(sensor: nat, elevation: real, range: real)
    /** `sensor{i}-…` (every face of the sensor mesh). */
    | SensorId(sensor: nat)
    /** `grid{i}-…` */
    | GridId(centre: nat)
    /** `border-…` */
    | BorderId

  /** A polyline or polygon: its positions and its other fields. */
  datatype Geometry = Geometry(kind: ShapeKind, positions: seq<Cartographic>, fields: map<string, Value>)

  /** A packet: identifier, geometry and the packet-level keyword fields. */
  datatype Packet = Packet(id: PacketId, geometry: Geometry, extras: map<string, Value>)
}

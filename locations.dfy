/**
 * The location table of the map application. A location's point is stored in
 * EPSG:4326 with x = longitude and y = latitude.
 */
module Locations {

  /** A geographic point: x is the longitude, y the latitude (SRID 4326). */
  datatype Point = Point(x: real, y: real)

  datatype Location = Location(id: nat, name: string, address: string, coordinates: Point)

  function Longitude(l: Location): real { l.coordinates.x }

  function Latitude(l: Location): real { l.coordinates.y }

  /** Location ids are the table's primary key. */
  ghost predicate DistinctIds(locations: seq<Location>)
  {
    forall i, j :: 0 <= i < j < |locations| ==> locations[i].id != locations[j].id
  }

  predicate HasId(locations: seq<Location>, id: nat)
  {
    exists i :: 0 <= i < |locations| && locations[i].id == id
  }
}

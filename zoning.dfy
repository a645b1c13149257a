/** The zoning viewer of `urbanfortal.py`: finding the zone under a point, and the two
    session values (`selected_point`, `feedback`) that the address search, the map click
    and the message display read and write across script runs. */
module Zoning {
  import opened Wrappers
  import opened Seqs
  import opened Strings
  import opened Geometry
  import opened Rows

  // ---------------------------------------------------------------------------
  // buscar_zona_por_ponto
  // ---------------------------------------------------------------------------

  /** `gdf.contains(point)` for one row; a row without a geometry contains nothing. */
  predicate Covers(lib: Lib, zone: Row, p: Coord)
  {
    zone.geometry.Some? && lib.contains(zone.geometry.value, p)
  }

  /** `buscar_zona_por_ponto` (urbanfortal.py:88-95): the first zone, in table order,
      containing the point whose x is the longitude and whose y is the latitude. */
  function FindZone(lib: Lib, lat: real, lon: real, zones: seq<Row>): (z: Option<Row>)
    ensures z.None? <==> forall i :: 0 <= i < |zones| ==> !Covers(lib, zones[i], Coord(lon, lat))
    ensures z.Some? ==> exists i :: 0 <= i < |zones| && zones[i] == z.value && Covers(lib, zones[i], Coord(lon, lat)) &&
                                    (forall j :: 0 <= j < i ==> !Covers(lib, zones[j], Coord(lon, lat)))
  {
    var point := Coord(lon, lat);
    var hits := Filter(zones, r => Covers(lib, r, point));
    if hits == [] then
      assert forall i :: 0 <= i < |zones| ==> zones[i] in zones;
      None
    else
      FilterHead(zones, r => Covers(lib, r, point));
      Some(hits[0])
  }

  // ---------------------------------------------------------------------------
  // Session state
  // ---------------------------------------------------------------------------

  datatype Level = Success | Warning | Error

  /** What a message says; its wording and number formatting are not modelled. */
  datatype Message =
    | ZoneFound(zone: Row)          // the address lies inside `zone`
    | OutsideZones                  // the address was found outside every zone
    | GeocodingFailed(reason: string) // the geocoding request raised
    | AddressNotFound               // the geocoder returned no result
    | QueryTooShort                 // fewer than 3 characters after stripping
    | ClickZone(lat: real, lon: real) // a zone contains the clicked point
    | NoZoneAtClick                 // no zone contains the clicked point

  datatype Feedback = Feedback(level: Level, message: Message)

  /** The answer of the geocoding service to a query. */
  datatype GeocodeReply = RequestFailed(reason: string) | NoResults | Found(lat: real, lon: real)

  const QuerySuffix := ", Fortaleza, Brasil"
  const MinQueryLength := 3

  /** `centro`, the map location when no point is selected. */
  const Centre: (real, real) := (-3.730451, -38.521798)

  /** The feedback the search handler records for an address located at a point. */
  function SearchFeedback(zone: Option<Row>): (fb: Feedback)
    ensures fb.level == Success <==> zone.Some?
    ensures fb.level == Warning <==> zone.None?
  {
    match zone
    case Some(z) => Feedback(Success, ZoneFound(z))
    case None => Feedback(Warning, OutsideZones)
  }

  /** The feedback the click handler records. */
  function ClickFeedback(zone: Option<Row>, lat: real, lon: real): (fb: Feedback)
    ensures fb.level == Success <==> zone.Some?
    ensures fb.level == Warning <==> zone.None?
  {
    if zone.Some? then Feedback(Success, ClickZone(lat, lon)) else Feedback(Warning, NoZoneAtClick)
  }

  /** What one script run puts on the screen before the map is clicked. */
  datatype Screen = Screen(location: (real, real), highlighted: Option<Row>, shown: Option<Feedback>)

  /** `st.session_state` reduced to the two values the app keeps in it. */
  class Session {
    var selectedPoint: Option<(real, real)>
    var feedback: Option<Feedback>

    /** The first run initialises both values to `None` (urbanfortal.py:179-182). */
    constructor()
      ensures selectedPoint == None && feedback == None
    {
      selectedPoint := None;
      feedback := None;
    }

    /** `st.session_state.get("selected_point") or centro` (urbanfortal.py:215-216). */
    function MapLocation(): (loc: (real, real))
      reads this
      ensures selectedPoint.Some? ==> loc == selectedPoint.value
      ensures selectedPoint.None? ==> loc == Centre
    {
      selectedPoint.GetOr(Centre)
    }

    /** The zone highlighted on the map: the one under the selected point, if any
        (urbanfortal.py:219-222). */
    function SelectedZone(lib: Lib, zones: seq<Row>): (z: Option<Row>)
      reads this
      ensures selectedPoint.None? ==> z.None?
      ensures selectedPoint.Some? ==> z == FindZone(lib, selectedPoint.value.0, selectedPoint.value.1, zones)
    {
      match selectedPoint
      case None => None
      case Some(p) => FindZone(lib, p.0, p.1, zones)
    }

    /** The address search handler (urbanfortal.py:190-212), run when the button is
        pressed. `notice` is a warning shown at once; `rerun` tells whether the handler
        asked for a new run. */
    method Search(lib: Lib, zones: seq<Row>, input: string, geocode: string -> GeocodeReply)
      returns (notice: Option<Feedback>, rerun: bool)
      modifies this
      ensures |Strip(input)| < MinQueryLength ==>
        && notice == Some(Feedback(Warning, QueryTooShort)) && !rerun
        && selectedPoint == old(selectedPoint) && feedback == old(feedback)
      ensures |Strip(input)| >= MinQueryLength ==> notice.None?
      ensures |Strip(input)| >= MinQueryLength ==> (
        match geocode(Strip(input) + QuerySuffix)
        case RequestFailed(reason) =>
          && !rerun && selectedPoint == old(selectedPoint)
          && feedback == Some(Feedback(Error, GeocodingFailed(reason)))
        case NoResults =>
          && !rerun && selectedPoint == old(selectedPoint)
          && feedback == Some(Feedback(Error, AddressNotFound))
        case Found(lat, lon) =>
          && rerun && selectedPoint == Some((lat, lon))
          && feedback == Some(SearchFeedback(FindZone(lib, lat, lon, zones))))
    {
      var address := Strip(input);
      if |address| < MinQueryLength {
        return Some(Feedback(Warning, QueryTooShort)), false;
      }
      notice := None;
      var reply := geocode(address + QuerySuffix);
      match reply {
        case RequestFailed(reason) =>
          feedback := Some(Feedback(Error, GeocodingFailed(reason)));
          rerun := false;
        case NoResults =>
          feedback := Some(Feedback(Error, AddressNotFound));
          rerun := false;
        case Found(lat, lon) =>
          var zone := FindZone(lib, lat, lon, zones);
          selectedPoint := Some((lat, lon));
          if zone.Some? {
            feedback := Some(Feedback(Success, ZoneFound(zone.value)));
          } else {
            feedback := Some(Feedback(Warning, OutsideZones));
          }
          rerun := true;
      }
    }

    /** The message display (urbanfortal.py:224-232): the pending feedback is shown once
        and then cleared. */
    method ShowFeedback() returns (shown: Option<Feedback>)
      modifies this
      ensures shown == old(feedback)
      ensures feedback == None && selectedPoint == old(selectedPoint)
    {
      shown := feedback;
      feedback := None;
    }

    /** The map click handler (urbanfortal.py:238-253): the clicked point is selected
        whether or not a zone contains it, and a new run is requested. */
    method Click(lib: Lib, zones: seq<Row>, clicked: Option<(real, real)>) returns (rerun: bool)
      modifies this
      ensures clicked.None? ==> !rerun && selectedPoint == old(selectedPoint) && feedback == old(feedback)
      ensures clicked.Some? ==>
        && rerun && selectedPoint == clicked
        && feedback == Some(ClickFeedback(FindZone(lib, clicked.value.0, clicked.value.1, zones), clicked.value.0, clicked.value.1))
    {
      if clicked.None? {
        return false;
      }
      var (lat, lon) := clicked.value;
      var zone := FindZone(lib, lat, lon, zones);
      selectedPoint := Some((lat, lon));
      if zone.Some? {
        feedback := Some(Feedback(Success, ClickZone(lat, lon)));
      } else {
        feedback := Some(Feedback(Warning, NoZoneAtClick));
      }
      rerun := true;
    }

    /** One run of the script (urbanfortal.py:190-253) once the zones are loaded: the search
        handler when the button is pressed, then, unless it asked for a new run, the map
        and the pending message, then the click handler. A requested rerun ends the run at
        once. `screen` is `None` when the run ended before the map was drawn. */
    method RunScript(lib: Lib, zones: seq<Row>, input: string, pressed: bool,
                     geocode: string -> GeocodeReply, clicked: Option<(real, real)>)
      returns (notice: Option<Feedback>, screen: Option<Screen>, rerun: bool)
      modifies this
      ensures notice == if pressed && |Strip(input)| < MinQueryLength then Some(Feedback(Warning, QueryTooShort)) else None
      ensures screen.None? <==> pressed && |Strip(input)| >= MinQueryLength && geocode(Strip(input) + QuerySuffix).Found?
      // A located address ends the run before the map: the search's point and message stay.
      ensures screen.None? ==>
        var reply := geocode(Strip(input) + QuerySuffix);
        && rerun && selectedPoint == Some((reply.lat, reply.lon))
        && feedback == Some(SearchFeedback(FindZone(lib, reply.lat, reply.lon, zones)))
      // Otherwise the map shows the point selected before the run, and the message pending
      // after the search: the old one, or the geocoding error.
      ensures screen.Some? ==>
        && screen.value.location == old(selectedPoint).GetOr(Centre)
        && screen.value.highlighted == old(SelectedZone(lib, zones))
        && screen.value.shown ==
             if pressed && |Strip(input)| >= MinQueryLength then
               match geocode(Strip(input) + QuerySuffix)
               case RequestFailed(reason) => Some(Feedback(Error, GeocodingFailed(reason)))
               case _ => Some(Feedback(Error, AddressNotFound))
             else old(feedback)
      ensures screen.Some? && clicked.None? ==> !rerun && selectedPoint == old(selectedPoint) && feedback == None
      ensures screen.Some? && clicked.Some? ==>
        && rerun && selectedPoint == clicked
        && feedback == Some(ClickFeedback(FindZone(lib, clicked.value.0, clicked.value.1, zones), clicked.value.0, clicked.value.1))
    {
      notice, screen := None, None;
      if pressed {
        notice, rerun := Search(lib, zones, input, geocode);
        if rerun {
          return;
        }
      }
      var location := MapLocation();
      var highlighted := SelectedZone(lib, zones);
      var shown := ShowFeedback();
      screen := Some(Screen(location, highlighted, shown));
      rerun := Click(lib, zones, clicked);
    }
  }
}

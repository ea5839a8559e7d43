/**
 * Nearby schools from an OpenStreetMap Overpass reply: the school level read
 * from the name, the clamped search radius and result limit, and the loop that
 * turns the reply's elements into school records, skipping unusable elements
 * and stopping at the limit.
 *
 * The Overpass request is a function from its parameters (radius, centre) to a
 * reply; a failed request, error status or undecodable body is `Failed`.
 */
module SchoolPoi {
  import opened Wrappers
  import opened Text
  import opened Json
  import opened Lists

  /** `_classify_school_level(name)`: the first of 초등학교, 중학교, 고등학교 the stripped name contains. */
  function ClassifyLevel(name: string): (level: string)
    ensures level == "초" <==> Contains(Strip(name), "초등학교")
    ensures level == "중" <==> !Contains(Strip(name), "초등학교") && Contains(Strip(name), "중학교")
    ensures level == "고" <==> !Contains(Strip(name), "초등학교") && !Contains(Strip(name), "중학교")
                               && Contains(Strip(name), "고등학교")
    ensures level == "기타" <==> !Contains(Strip(name), "초등학교") && !Contains(Strip(name), "중학교")
                                 && !Contains(Strip(name), "고등학교")
  {
    var n := Strip(name);
    if Contains(n, "초등학교") then "초"
    else if Contains(n, "중학교") then "중"
    else if Contains(n, "고등학교") then "고"
    else "기타"
  }

  /** `max(lo, min(x, hi))` */
  function Clamp(x: int, lo: int, hi: int): (r: int)
    requires lo <= hi
    ensures lo <= r <= hi
    ensures lo <= x <= hi ==> r == x
    ensures x < lo ==> r == lo
    ensures x > hi ==> r == hi
  {
    if x < lo then lo else if x > hi then hi else x
  }

  const MinRadius: int := 100
  const MaxRadius: int := 20000
  const MinLimit: int := 1
  const MaxLimit: int := 1000

  /** The parameters of the Overpass query. */
  datatype OverpassQuery = OverpassQuery(radius: int, lat: real, lon: real)

  /** One school record. */
  datatype School = School(name: string, lat: real, lon: real, level: string)

  /** `tags.get("name") or tags.get("name:ko") or ""`, as `str(...).strip()`. */
  function SchoolName(tags: map<string, Json>, show: Json -> string): (name: string)
    ensures Truthy(Get(tags, "name", JNull)) ==> name == Strip(Str(tags["name"], show))
    ensures !Truthy(Get(tags, "name", JNull)) && Truthy(Get(tags, "name:ko", JNull)) ==>
              name == Strip(Str(tags["name:ko"], show))
    ensures !Truthy(Get(tags, "name", JNull)) && !Truthy(Get(tags, "name:ko", JNull)) ==> name == []
    ensures name == [] || (!IsSpace(name[0]) && !IsSpace(name[|name| - 1]))
  {
    Strip(Str(NameValue(tags), show))
  }

  /** `tags.get("name") or tags.get("name:ko") or ""`: the first truthy candidate. */
  function NameValue(tags: map<string, Json>): (v: Json)
    ensures Truthy(Get(tags, "name", JNull)) ==> v == tags["name"]
    ensures !Truthy(Get(tags, "name", JNull)) && Truthy(Get(tags, "name:ko", JNull)) ==> v == tags["name:ko"]
    ensures !Truthy(Get(tags, "name", JNull)) && !Truthy(Get(tags, "name:ko", JNull)) ==> v == JStr("")
  {
    var primary := Get(tags, "name", JNull);
    var korean := Get(tags, "name:ko", JNull);
    if Truthy(primary) then primary else if Truthy(korean) then korean else JStr("")
  }

  /** The element's coordinates: `float` of its own lat and lon when it has both keys,
      otherwise of its `center`'s when that is a dict; `None` when any is missing or does not parse. */
  function Coordinates(el: map<string, Json>): (r: Option<(real, real)>)
    ensures "lat" in el && "lon" in el ==>
              (r.Some? <==> Float(el["lat"]).Some? && Float(el["lon"]).Some?)
              && (r.Some? ==> r.value == (Float(el["lat"]).value, Float(el["lon"]).value))
    ensures !("lat" in el && "lon" in el) && !Get(el, "center", JNull).JObj? ==> r.None?
    ensures !("lat" in el && "lon" in el) && "center" in el && el["center"].JObj? ==>
              var c := el["center"].fields;
              (r.Some? <==> "lat" in c && "lon" in c && Float(c["lat"]).Some? && Float(c["lon"]).Some?)
              && (r.Some? ==> r.value == (Float(c["lat"]).value, Float(c["lon"]).value))
  {
    if "lat" in el && "lon" in el then
      match (Float(el["lat"]), Float(el["lon"]))
      case (Some(a), Some(b)) => Some((a, b))
      case _ => None
    else
      match Get(el, "center", JNull)
      case JObj(c) =>
        (match (Float(Get(c, "lat", JNull)), Float(Get(c, "lon", JNull)))
         case (Some(a), Some(b)) => Some((a, b))
         case _ => None)
      case _ => None
  }

  /** The record one element yields, or `None` when the loop skips it. */
  function Extract(el: Json, show: Json -> string): Option<School> {
    if !el.JObj? then None
    else
      var name := SchoolName(Tags(el.fields), show);
      if name == [] then None
      else
        var c := Coordinates(el.fields);
        if c.None? then None else Some(School(name, c.value.0, c.value.1, ClassifyLevel(name)))
  }

  /** `el.get("tags", {})` when that is a dict, else `{}`. */
  function Tags(m: map<string, Json>): (tags: map<string, Json>)
    ensures "tags" in m && m["tags"].JObj? ==> tags == m["tags"].fields
    ensures !("tags" in m && m["tags"].JObj?) ==> tags == map[]
  {
    match Get(m, "tags", JNull) case JObj(t) => t case _ => map[]
  }

  /** A record comes only from a dict with a non-empty name and coordinates, carries them,
      and is classified by its name; every such dict yields one. */
  lemma ExtractShape(el: Json, show: Json -> string)
    ensures !el.JObj? ==> Extract(el, show).None?
    ensures el.JObj? ==>
              (Extract(el, show).Some? <==> SchoolName(Tags(el.fields), show) != [] && Coordinates(el.fields).Some?)
    ensures Extract(el, show).Some? ==>
              var s := Extract(el, show).value;
              && s.name == SchoolName(Tags(el.fields), show)
              && s.name != [] && !IsSpace(s.name[0]) && !IsSpace(s.name[|s.name| - 1])
              && s.level == ClassifyLevel(s.name)
              && Coordinates(el.fields) == Some((s.lat, s.lon))
  {
  }

  /** The per-element step of the loop as a function value. */
  function Extractor(show: Json -> string): Json -> Option<School> {
    el => Extract(el, show)
  }

  /** Iterating `data.get("elements", [])` raised: the value was not iterable. */
  datatype Uncaught = NotIterable

  /** What `for el in elements` visits: an array's elements, nothing useful for a string or
      a dict (their items are strings and are skipped), and an error for anything else. */
  function Elements(data: Json): Result<seq<Json>, Uncaught> {
    match data
    case JObj(m) =>
      (match Get(m, "elements", JArr([]))
       case JArr(a) => Ok(a)
       case JStr(_) => Ok([])
       case JObj(_) => Ok([])
       case _ => Err(NotIterable))
    case _ => Ok([])
  }

  /** `fetch_nearby_schools_osm(lat, lon, radius_m, limit=limit)` as a value: no schools when the
      request fails, otherwise the records of the reply's elements in order, cut at the clamped limit. */
  function NearbySchools(lat: real, lon: real, radiusM: int, limit: int,
                         server: OverpassQuery -> Fetch, show: Json -> string): Result<seq<School>, Uncaught>
  {
    match server(OverpassQuery(Clamp(radiusM, MinRadius, MaxRadius), lat, lon))
    case Failed => Ok([])
    case Received(data) =>
      match Elements(data)
      case Err(e) => Err(e)
      case Ok(els) => Ok(Take(FilterMap(els, Extractor(show)), Clamp(limit, MinLimit, MaxLimit)))
  }

  /** `fetch_nearby_schools_osm(lat, lon, radius_m, limit=limit)`. */
  method FetchNearbySchools(lat: real, lon: real, radiusM: int, limit: int,
                            server: OverpassQuery -> Fetch, show: Json -> string)
    returns (result: Result<seq<School>, Uncaught>)
    ensures result == NearbySchools(lat, lon, radiusM, limit, server, show)
  {
    var radius := Clamp(radiusM, MinRadius, MaxRadius);
    var lim := Clamp(limit, MinLimit, MaxLimit);
    var reply := server(OverpassQuery(radius, lat, lon));
    if reply.Failed? {
      return Ok([]);
    }
    var elements := Elements(reply.data);
    if elements.Err? {
      return Err(elements.error);
    }
    var out, _ := TakeFilterMap(elements.value, Extractor(show), lim);
    return Ok(out);
  }

  /** At most `limit` (clamped) schools, each from an element of the reply, named and
      classified by its name. */
  lemma NearbySchoolsShape(lat: real, lon: real, radiusM: int, limit: int,
                           server: OverpassQuery -> Fetch, show: Json -> string)
    requires NearbySchools(lat, lon, radiusM, limit, server, show).Ok?
    ensures var r := NearbySchools(lat, lon, radiusM, limit, server, show).value;
            && |r| <= Clamp(limit, MinLimit, MaxLimit)
            && forall s :: s in r ==> s.name != [] && s.level == ClassifyLevel(s.name)
  {
    match server(OverpassQuery(Clamp(radiusM, MinRadius, MaxRadius), lat, lon))
    case Failed =>
    case Received(data) =>
      var els := Elements(data).value;
      FilterMapSource(els, Extractor(show));
      var all := FilterMap(els, Extractor(show));
      var r := Take(all, Clamp(limit, MinLimit, MaxLimit));
      forall s | s in r ensures s.name != [] && s.level == ClassifyLevel(s.name) {
        assert s in all;
        var i :| 0 <= i < |els| && Extractor(show)(els[i]) == Some(s);
        ExtractShape(els[i], show);
      }
  }

  /** Below the limit nothing usable is dropped: every dict element with a name and
      coordinates gives its school. */
  lemma NearbySchoolsComplete(lat: real, lon: real, radiusM: int, limit: int,
                              server: OverpassQuery -> Fetch, show: Json -> string,
                              data: Json, els: seq<Json>, i: nat)
    requires server(OverpassQuery(Clamp(radiusM, MinRadius, MaxRadius), lat, lon)) == Received(data)
    requires Elements(data) == Ok(els)
    requires |FilterMap(els, Extractor(show))| <= Clamp(limit, MinLimit, MaxLimit)
    requires i < |els| && els[i].JObj?
    requires SchoolName(Tags(els[i].fields), show) != [] && Coordinates(els[i].fields).Some?
    ensures var name := SchoolName(Tags(els[i].fields), show);
            var (lat', lon') := Coordinates(els[i].fields).value;
            School(name, lat', lon', ClassifyLevel(name)) in NearbySchools(lat, lon, radiusM, limit, server, show).value
  {
    ExtractShape(els[i], show);
    assert Extractor(show)(els[i]) == Extract(els[i], show);
    FilterMapComplete(els, i, Extractor(show));
  }
}

/**
 * The values that the location page receives from the plugins it calls
 * (geolocator, geocoding, google_maps_flutter), and the record of which
 * plugin calls a run issues. The plugins themselves are not modelled: every
 * answer they give is an input of the model.
 */
module Platform {

  datatype Option<+T> = None | Some(value: T)

  /** The outcome of an awaited plugin call: the value it completed with, or
      the error it threw, given as the error's `toString()` text. */
  datatype Result<+T> = Success(value: T) | Failure(error: string)

  /** geolocator's `LocationPermission`. */
  datatype LocationPermission = Denied | DeniedForever | WhileInUse | Always | UnableToDetermine

  /** geolocator's `Position`; the page uses only its coordinates. */
  datatype Position = Position(latitude: real, longitude: real)

  /** geocoding's `Placemark`, restricted to the fields the page reads.
      The plugin declares them nullable. */
  datatype Placemark = Placemark(administrativeArea: Option<string>, locality: Option<string>, street: Option<string>)

  /** geocoding's `Location` (a forward-geocoding candidate), restricted to its coordinates. */
  datatype Location = Location(latitude: real, longitude: real)

  /** google_maps_flutter's `LatLng`. */
  datatype LatLng = LatLng(latitude: real, longitude: real)

  /** One call into a plugin, with the arguments that matter. */
  datatype PlatformCall =
    | IsLocationServiceEnabled
    | CheckPermission
    | RequestPermission
    | GetCurrentPosition
    | PlacemarkFromCoordinates(latitude: real, longitude: real)
    | LocationFromAddress(address: string)

  /** How many times `c` occurs in the call record `calls`. */
  function Count(calls: seq<PlatformCall>, c: PlatformCall): (n: nat)
    ensures n <= |calls|
    ensures n == 0 <==> c !in calls
  {
    if calls == [] then 0 else (if calls[0] == c then 1 else 0) + Count(calls[1..], c)
  }

  lemma {:induction false} CountConcat(s: seq<PlatformCall>, t: seq<PlatformCall>, c: PlatformCall)
    ensures Count(s + t, c) == Count(s, c) + Count(t, c)
  {
    if s == [] {
      assert s + t == t;
    } else {
      assert (s + t)[1..] == s[1..] + t;
      CountConcat(s[1..], t, c);
    }
  }
}

/**
 * The state of the taxi app's origin/destination screen (`_LocationPageState`)
 * and its two decision procedures: resolving the rider's origin once when the
 * screen opens, and submitting the entered destination.
 *
 * Each procedure is given twice: as a specification function of the plugins'
 * answers (`Resolve` with `OriginCalls`, `SubmitResult`), and as a method of
 * the class `LocationPageState` that works step by step, as the page does,
 * and is proved to agree with it.
 */
module LocationPage {
  import opened Platform

  const LoadingMessage: string := "출발지를 불러오는 중..."
  const ServiceDisabledMessage: string := "위치 서비스 비활성화됨"
  const PermissionDeniedMessage: string := "위치 권한이 거부되었습니다"
  const PermissionDeniedForeverMessage: string := "위치 권한이 영구적으로 거부되었습니다"
  const NoAddressMessage: string := "주소 정보를 찾을 수 없습니다"
  const ConversionFailedPrefix: string := "주소 변환 실패: "
  const DestinationNotFoundPrefix: string := "목적지 좌표를 찾을 수 없습니다: "

  /** The plugins' answers to the calls origin resolution may issue, in the
      order it issues them. An answer the run never asks for plays no part. */
  datatype OriginAnswers = OriginAnswers(
    serviceEnabled: Result<bool>,
    checked: Result<LocationPermission>,
    requested: Result<LocationPermission>,
    position: Result<Position>,
    placemarks: Result<seq<Placemark>>)

  /** Dart's string interpolation of a nullable string. */
  function Interpolate(s: Option<string>): string
  {
    if s.Some? then s.value else "null"
  }

  /** The origin address shown for a placemark: its three fields joined by
      single spaces, none trimmed or dropped. */
  function Format(p: Placemark): string
  {
    Interpolate(p.administrativeArea) + " " + Interpolate(p.locality) + " " + Interpolate(p.street)
  }

  /** The two fields of the page state, `currentAddress` and `currentLatLng`. */
  datatype PageView = PageView(address: string, latLng: Option<LatLng>)

  /** The page state before origin resolution has set anything. */
  const Initial: PageView := PageView(LoadingMessage, None)

  /** How one run of origin resolution ends. */
  datatype Resolution =
      /** a call before the guarded block threw: the run fails and sets nothing */
    | Aborted(error: string)
      /** only `currentAddress` is set, to a diagnostic */
    | Diagnostic(message: string)
      /** both fields are set together */
    | Resolved(address: string, at: LatLng)

  /** The permission the run goes on with: the answer of the one re-request
      when the check said `denied`, else the check's own answer. */
  function PermissionAfterRequest(checked: Result<LocationPermission>, requested: Result<LocationPermission>): Result<LocationPermission>
  {
    if checked == Success(Denied) then requested else checked
  }

  /** Every permission other than `denied` and `deniedForever` lets the run read a position. */
  predicate AllowsPosition(p: Result<LocationPermission>)
  {
    p.Success? && p.value != Denied && p.value != DeniedForever
  }

  /** The guarded part of origin resolution: the position fix and the reverse geocode. */
  function ResolveFix(position: Result<Position>, placemarks: Result<seq<Placemark>>): Resolution
  {
    match position
    case Failure(e) => Diagnostic(ConversionFailedPrefix + e)
    case Success(p) =>
      match placemarks
      case Failure(e) => Diagnostic(ConversionFailedPrefix + e)
      case Success(ps) =>
        if |ps| > 0 then Resolved(Format(ps[0]), LatLng(p.latitude, p.longitude))
        else Diagnostic(NoAddressMessage)
  }

  /** The outcome of origin resolution for the given answers. Coordinates are
      produced only together with the formatted first placemark, and they are
      the position fix's own. */
  function Resolve(a: OriginAnswers): (r: Resolution)
    ensures r.Resolved? ==>
      && a.serviceEnabled == Success(true)
      && AllowsPosition(PermissionAfterRequest(a.checked, a.requested))
      && a.position.Success? && a.placemarks.Success? && |a.placemarks.value| > 0
      && r.address == Format(a.placemarks.value[0])
      && r.at == LatLng(a.position.value.latitude, a.position.value.longitude)
    ensures r.Aborted? <==>
      || a.serviceEnabled.Failure?
      || (a.serviceEnabled == Success(true) && PermissionAfterRequest(a.checked, a.requested).Failure?)
  {
    match a.serviceEnabled
    case Failure(e) => Aborted(e)
    case Success(enabled) =>
      if !enabled then Diagnostic(ServiceDisabledMessage)
      else
        match PermissionAfterRequest(a.checked, a.requested)
        case Failure(e) => Aborted(e)
        case Success(Denied) => Diagnostic(PermissionDeniedMessage)
        case Success(DeniedForever) => Diagnostic(PermissionDeniedForeverMessage)
        case Success(_) => ResolveFix(a.position, a.placemarks)
  }

  /** The page state after a resolution ends in `r`. */
  function Apply(v: PageView, r: Resolution): PageView
  {
    match r
    case Aborted(_) => v
    case Diagnostic(m) => v.(address := m)
    case Resolved(address, at) => PageView(address, Some(at))
  }

  /** The page state after the one run that opening the screen starts. */
  function Run(a: OriginAnswers): PageView
  {
    Apply(Initial, Resolve(a))
  }

  /** The plugin calls origin resolution issues, in order. */
  function OriginCalls(a: OriginAnswers): seq<PlatformCall>
  {
    [IsLocationServiceEnabled] +
    if a.serviceEnabled != Success(true) then [] else
      [CheckPermission] +
      (if a.checked == Success(Denied) then [RequestPermission] else []) +
      if !AllowsPosition(PermissionAfterRequest(a.checked, a.requested)) then [] else
        [GetCurrentPosition] +
        if a.position.Failure? then [] else
          [PlacemarkFromCoordinates(a.position.value.latitude, a.position.value.longitude)]
  }

  /** What pressing the "다음" button leads to. */
  datatype SubmitOutcome =
    | NoOp
      /** the pickup screen is opened with these arguments */
    | Handoff(suggestedPlaceName: string, currentLocation: LatLng, pickupLocation: LatLng)
      /** a snackbar with this text is shown */
    | Notice(message: string)

  /** The outcome of a submit, given the origin coordinates, the destination
      text and the forward geocoder's answer. */
  function SubmitResult(origin: Option<LatLng>, text: string, forward: Result<seq<Location>>): (r: SubmitOutcome)
    ensures origin.None? || text == "" ==> r == NoOp
    ensures r.Handoff? <==> origin.Some? && text != "" && forward.Success? && |forward.value| > 0
    ensures r.Handoff? ==>
      && r.suggestedPlaceName == text
      && r.currentLocation == origin.value
      && r.pickupLocation == LatLng(forward.value[0].latitude, forward.value[0].longitude)
    ensures r.Notice? <==> origin.Some? && text != "" && forward.Failure?
    ensures r.Notice? ==> r.message == DestinationNotFoundPrefix + forward.error
  {
    if origin.None? || text == "" then NoOp
    else
      match forward
      case Failure(e) => Notice(DestinationNotFoundPrefix + e)
      case Success(locations) =>
        if |locations| > 0 then
          Handoff(text, origin.value, LatLng(locations[0].latitude, locations[0].longitude))
        else NoOp
  }

  /** `_LocationPageState`: the two fields the screen displays and acts on. */
  class LocationPageState {
    var currentAddress: string
    var currentLatLng: Option<LatLng>

    constructor ()
      ensures currentAddress == LoadingMessage && currentLatLng == None
    {
      currentAddress := LoadingMessage;
      currentLatLng := None;
    }

    ghost function View(): PageView
      reads this
    {
      PageView(currentAddress, currentLatLng)
    }

    /** `_getCurrentLocation`: asks the plugins, in order, and sets the fields
        from their answers. Returns the calls it issued. */
    method GetCurrentLocation(a: OriginAnswers) returns (calls: seq<PlatformCall>)
      modifies this
      ensures View() == Apply(old(View()), Resolve(a))
      ensures calls == OriginCalls(a)
    {
      calls := [IsLocationServiceEnabled];
      if a.serviceEnabled.Failure? {
        return;
      }
      if !a.serviceEnabled.value {
        currentAddress := ServiceDisabledMessage;
        return;
      }

      calls := calls + [CheckPermission];
      if a.checked.Failure? {
        return;
      }
      var permission := a.checked.value;
      if permission == Denied {
        calls := calls + [RequestPermission];
        if a.requested.Failure? {
          return;
        }
        permission := a.requested.value;
        if permission == Denied {
          currentAddress := PermissionDeniedMessage;
          return;
        }
      }
      if permission == DeniedForever {
        currentAddress := PermissionDeniedForeverMessage;
        return;
      }

      calls := calls + [GetCurrentPosition];
      if a.position.Failure? {
        currentAddress := ConversionFailedPrefix + a.position.error;
        return;
      }
      var position := a.position.value;
      calls := calls + [PlacemarkFromCoordinates(position.latitude, position.longitude)];
      if a.placemarks.Failure? {
        currentAddress := ConversionFailedPrefix + a.placemarks.error;
        return;
      }
      var placemarks := a.placemarks.value;
      if |placemarks| > 0 {
        var address := Format(placemarks[0]);
        currentAddress := address;
        currentLatLng := Some(LatLng(position.latitude, position.longitude));
      } else {
        currentAddress := NoAddressMessage;
      }
    }

    /** The "다음" button's handler: reads the fields, changes none of them,
        and returns its outcome and the plugin calls it issued. */
    method Submit(text: string, forward: Result<seq<Location>>) returns (outcome: SubmitOutcome, calls: seq<PlatformCall>)
      ensures outcome == SubmitResult(currentLatLng, text, forward)
      ensures calls != [] <==> currentLatLng.Some? && text != ""
      ensures calls != [] ==> calls == [LocationFromAddress(text)]
    {
      if currentLatLng.None? || text == "" {
        return NoOp, [];
      }
      calls := [LocationFromAddress(text)];
      match forward
      case Failure(e) =>
        outcome := Notice(DestinationNotFoundPrefix + e);
      case Success(locations) =>
        if |locations| > 0 {
          var destination := LatLng(locations[0].latitude, locations[0].longitude);
          outcome := Handoff(text, currentLatLng.value, destination);
        } else {
          outcome := NoOp;
        }
    }
  }
}

/**
 * What origin resolution and destination submit promise, stated over the
 * specification functions of module LocationPage, and a client of the class
 * that walks through a rider's session.
 */
module LocationPageProperties {
  import opened Platform
  import opened LocationPage

  /** With the location service off the run stops at once: the fixed message,
      no coordinates, and no permission check or request. */
  lemma ServiceDisabledStops(a: OriginAnswers)
    requires a.serviceEnabled == Success(false)
    ensures Run(a) == PageView(ServiceDisabledMessage, None)
    ensures OriginCalls(a) == [IsLocationServiceEnabled]
    ensures CheckPermission !in OriginCalls(a) && RequestPermission !in OriginCalls(a)
  {
  }

  /** Permission is requested at most once, and exactly when the service is
      on and the initial check answered `denied`. */
  lemma {:induction false} PermissionRequestedAtMostOnce(a: OriginAnswers)
    ensures Count(OriginCalls(a), RequestPermission) <= 1
    ensures Count(OriginCalls(a), RequestPermission) == 1 <==>
      a.serviceEnabled == Success(true) && a.checked == Success(Denied)
  {
    var calls := OriginCalls(a);
    if a.serviceEnabled == Success(true) {
      var request: seq<PlatformCall> := if a.checked == Success(Denied) then [RequestPermission] else [];
      var fix := calls[2 + |request|..];
      assert calls == [IsLocationServiceEnabled] + [CheckPermission] + request + fix;
      assert RequestPermission !in fix;
      CountConcat([IsLocationServiceEnabled] + [CheckPermission] + request, fix, RequestPermission);
      CountConcat([IsLocationServiceEnabled] + [CheckPermission], request, RequestPermission);
      CountConcat([IsLocationServiceEnabled], [CheckPermission], RequestPermission);
    } else {
      assert calls == [IsLocationServiceEnabled];
    }
  }

  /** A second `denied`, from the one re-request, ends the run with the
      denial message and no position read. */
  lemma DeniedTwiceStops(a: OriginAnswers)
    requires a.serviceEnabled == Success(true)
    requires a.checked == Success(Denied) && a.requested == Success(Denied)
    ensures Run(a) == PageView(PermissionDeniedMessage, None)
    ensures OriginCalls(a) == [IsLocationServiceEnabled, CheckPermission, RequestPermission]
  {
  }

  /** `deniedForever`, from the check or from the re-request, ends the run
      with its own message; no position is read. */
  lemma DeniedForeverStops(a: OriginAnswers)
    requires a.serviceEnabled == Success(true)
    requires a.checked == Success(DeniedForever) || (a.checked == Success(Denied) && a.requested == Success(DeniedForever))
    ensures Run(a) == PageView(PermissionDeniedForeverMessage, None)
    ensures GetCurrentPosition !in OriginCalls(a)
  {
  }

  /** Any other permission, `unableToDetermine` included, lets the run read
      exactly one position. */
  lemma OtherPermissionsReadPosition(a: OriginAnswers)
    requires a.serviceEnabled == Success(true)
    requires AllowsPosition(PermissionAfterRequest(a.checked, a.requested))
    ensures Count(OriginCalls(a), GetCurrentPosition) == 1
  {
    var calls := OriginCalls(a);
    var request: seq<PlatformCall> := if a.checked == Success(Denied) then [RequestPermission] else [];
    var prefix := [IsLocationServiceEnabled, CheckPermission] + request;
    var rest := calls[|prefix| + 1..];
    assert calls == prefix + [GetCurrentPosition] + rest;
    assert GetCurrentPosition !in prefix && GetCurrentPosition !in rest;
    CountConcat(prefix + [GetCurrentPosition], rest, GetCurrentPosition);
    CountConcat(prefix, [GetCurrentPosition], GetCurrentPosition);
  }

  /** A call before the guarded block that throws leaves the page at its
      loading text, with no coordinates. */
  lemma EarlyFailureLeavesLoading(a: OriginAnswers)
    requires
      || a.serviceEnabled.Failure?
      || (a.serviceEnabled == Success(true) && a.checked.Failure?)
      || (a.serviceEnabled == Success(true) && a.checked == Success(Denied) && a.requested.Failure?)
    ensures Run(a) == Initial
    ensures GetCurrentPosition !in OriginCalls(a)
  {
  }

  /** A fix and a non-empty placemark list set the formatted first placemark
      and the fix's coordinates, unchanged; the fix's coordinates are what is
      reverse-geocoded. */
  lemma AddressResolved(a: OriginAnswers, p: Position, ps: seq<Placemark>)
    requires a.serviceEnabled == Success(true)
    requires AllowsPosition(PermissionAfterRequest(a.checked, a.requested))
    requires a.position == Success(p) && a.placemarks == Success(ps) && |ps| > 0
    ensures Run(a) == PageView(Format(ps[0]), Some(LatLng(p.latitude, p.longitude)))
    ensures OriginCalls(a)[|OriginCalls(a)| - 1] == PlacemarkFromCoordinates(p.latitude, p.longitude)
  {
  }

  /** The address keeps every segment: the three interpolated fields with one
      space after the first and one after the second, empty ones included. */
  lemma FormatKeepsSegments(p: Placemark)
    ensures var x, y, z := Interpolate(p.administrativeArea), Interpolate(p.locality), Interpolate(p.street);
      var r := Format(p);
      && |r| == |x| + |y| + |z| + 2
      && r[..|x|] == x && r[|x|] == ' '
      && r[|x| + 1..|x| + 1 + |y|] == y && r[|x| + 1 + |y|] == ' '
      && r[|x| + |y| + 2..] == z
  {
  }

  /** A present field is shown as it is; a null one as the text "null". */
  lemma FormatOfFields(area: string, locality: string, street: string)
    ensures Format(Placemark(Some(area), Some(locality), Some(street))) == area + " " + locality + " " + street
    ensures Format(Placemark(None, Some(locality), Some(street))) == "null " + locality + " " + street
  {
  }

  /** An empty placemark list gives the no-address message and no coordinates,
      though the fix succeeded. */
  lemma NoPlacemarkKeepsNoCoordinates(a: OriginAnswers, p: Position)
    requires a.serviceEnabled == Success(true)
    requires AllowsPosition(PermissionAfterRequest(a.checked, a.requested))
    requires a.position == Success(p) && a.placemarks == Success([])
    ensures Run(a) == PageView(NoAddressMessage, None)
  {
  }

  /** A failed fix or reverse geocode shows the conversion-failure message
      with the error's text; a failed fix is not reverse-geocoded. */
  lemma FixFailureReported(a: OriginAnswers, e: string)
    requires a.serviceEnabled == Success(true)
    requires AllowsPosition(PermissionAfterRequest(a.checked, a.requested))
    requires a.position == Failure(e) || (a.position.Success? && a.placemarks == Failure(e))
    ensures Run(a) == PageView(ConversionFailedPrefix + e, None)
    ensures a.position.Failure? ==> OriginCalls(a)[|OriginCalls(a)| - 1] == GetCurrentPosition
  {
  }

  /** After the run, `currentLatLng` is set exactly when the run reached its
      last step, and then the address is the formatted first placemark and the
      coordinates are the fix's. Every other ending leaves it null. */
  lemma CoordinatesOnlyWithAddress(a: OriginAnswers)
    ensures Run(a).latLng.Some? <==> Resolve(a).Resolved?
    ensures Run(a).latLng.Some? ==>
      && a.position.Success? && a.placemarks.Success? && |a.placemarks.value| > 0
      && Run(a).address == Format(a.placemarks.value[0])
      && Run(a).latLng.value == LatLng(a.position.value.latitude, a.position.value.longitude)
    ensures Run(a).latLng.None? ==>
      || Run(a).address in {LoadingMessage, ServiceDisabledMessage, PermissionDeniedMessage, PermissionDeniedForeverMessage, NoAddressMessage}
      || Run(a).address[..|ConversionFailedPrefix|] == ConversionFailedPrefix
  {
  }

  /** The address text alone does not tell whether the origin resolved: a
      placemark can format to a diagnostic message, so one text is shown both
      with and without coordinates. Only `currentLatLng` is a sound flag. */
  lemma AddressTextIsNoFlag()
    ensures exists a: OriginAnswers, b: OriginAnswers ::
      Run(a).latLng.Some? && Run(b).latLng.None? && Run(a).address == Run(b).address
  {
    var place := Placemark(Some("위치"), Some("서비스"), Some("비활성화됨"));
    var a := OriginAnswers(Success(true), Success(Always), Success(Always), Success(Position(0.0, 0.0)), Success([place]));
    var b := a.(serviceEnabled := Success(false));
    assert Format(place) == ServiceDisabledMessage;
    assert Run(a) == PageView(ServiceDisabledMessage, Some(LatLng(0.0, 0.0)));
    assert Run(b) == PageView(ServiceDisabledMessage, None);
  }

  /** Submit hands off to the pickup screen exactly when origin resolution set
      coordinates, the text is non-empty and the geocoder found a location;
      the handoff carries the entered text, the fix and the first location. */
  lemma HandoffNeedsBothEnds(a: OriginAnswers, text: string, forward: Result<seq<Location>>)
    ensures SubmitResult(Run(a).latLng, text, forward).Handoff? <==>
      Resolve(a).Resolved? && text != "" && forward.Success? && |forward.value| > 0
    ensures SubmitResult(Run(a).latLng, text, forward).Handoff? ==>
      SubmitResult(Run(a).latLng, text, forward) == Handoff(text,
        LatLng(a.position.value.latitude, a.position.value.longitude),
        LatLng(forward.value[0].latitude, forward.value[0].longitude))
  {
  }

  /** A rider's session: the screen opens with the service on, the position
      (37.5, 127.0) and one placemark; a submit with no text does nothing; a
      submit of "서울 강남역" hands off; a geocoder error shows a notice. */
  method Session()
  {
    var page := new LocationPageState();
    var place := Placemark(Some("서울"), Some("강남구"), Some("테헤란로"));
    var answers := OriginAnswers(Success(true), Success(WhileInUse), Failure("unused"),
                                 Success(Position(37.5, 127.0)), Success([place]));
    var calls := page.GetCurrentLocation(answers);
    assert page.currentAddress == "서울 강남구 테헤란로";
    assert page.currentLatLng == Some(LatLng(37.5, 127.0));
    assert RequestPermission !in calls;

    var outcome, submitted := page.Submit("", Success([Location(37.498, 127.028)]));
    assert outcome == NoOp && submitted == [];

    outcome, submitted := page.Submit("서울 강남역", Success([Location(37.498, 127.028)]));
    assert outcome == Handoff("서울 강남역", LatLng(37.5, 127.0), LatLng(37.498, 127.028));
    assert submitted == [LocationFromAddress("서울 강남역")];

    outcome, submitted := page.Submit("서울 강남역", Failure("timeout"));
    assert outcome == Notice("목적지 좌표를 찾을 수 없습니다: timeout");
    assert page.currentAddress == "서울 강남구 테헤란로";
  }
}

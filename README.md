# Origin and destination resolution of the taxi app's location screen

This project models the logic of `_LocationPageState` in the rider app's
location screen (`lib/LocationPage.java`, a Dart/Flutter file). The screen keeps
two fields. `currentAddress` starts as `"출발지를 불러오는 중..."`. `currentLatLng`
starts as null. Two procedures act on them:

- **Origin resolution** (`_getCurrentLocation`) runs once when the screen opens.
  It asks whether the location service is on. It checks the permission and,
  when the check says `denied`, requests it once. It then reads one position
  fix and reverse-geocodes it. The run ends either with a diagnostic message in
  `currentAddress`, or with the formatted first placemark in `currentAddress`
  and the fix's coordinates in `currentLatLng`.
- **Destination submit** (the "다음" button's handler) does nothing while
  `currentLatLng` is null or the destination text is empty. Otherwise it
  forward-geocodes the text once. A found location hands off to the pickup
  screen with the text, the origin and the first location. An error shows a
  snackbar. An empty answer does nothing.

The plugins (geolocator, geocoding, google_maps_flutter) are not modelled.
Every answer they give is an input: `OriginAnswers` carries the answers to the
five calls origin resolution may make, and `Submit` takes the forward
geocoder's answer. A thrown error is `Failure(e)`, where `e` is the error's
`toString()` text, which is what Dart's `'$e'` shows. Both procedures return
the record of the plugin calls they issued (`PlatformCall`), so the model can
state which calls happen and how often.

Layout:

- `platform.dfy`, module `Platform`: the plugins' value types
  (`LocationPermission` with geolocator's five variants, `Position`,
  `Placemark` with nullable fields, `Location`, `LatLng`), `Option`, `Result`,
  the call record and `Count`.
- `location_page.dfy`, module `LocationPage`: the messages, the
  specification functions `Resolve`, `OriginCalls` and `SubmitResult`, and the
  class `LocationPageState`. Its methods `GetCurrentLocation` and `Submit` work
  step by step, with the early returns of the source, and are proved equal to
  the specification functions.
- `location_page_properties.dfy`, module `LocationPageProperties`: the
  properties of the procedures as lemmas, and `Session`, a client of the class
  that runs a rider's session (the screen opens, an empty submit, a handoff, a
  geocoder error) and asserts each outcome from the methods' contracts alone.

Points where the code's behaviour differs from a plain granted/denied reading of it:

- Only `denied` and `deniedForever` stop the run. `whileInUse`, `always` and
  also `unableToDetermine` go on to read a position (lines 40-46).
- The code has no "granted" state. A `denied` check followed by a `denied`
  re-request gives the denial message.
- Errors thrown by `isLocationServiceEnabled`, `checkPermission` or
  `requestPermission` are outside the `try` block (lines 26-34). The model ends
  such a run as `Aborted`: no field is set, and the screen stays at its loading
  text.
- A diagnostic ending assigns only `currentAddress`. `currentLatLng` keeps its
  value, which is null after the constructor.

## Model

| member | source | states |
|---|---|---|
| `LocationPage.Resolve` | lib/LocationPage.java:25-62 | coordinates are produced only when the service is on, the permission allows a fix, the fix and the reverse geocode succeeded with a non-empty list; they are then the fix's own coordinates and come with the formatted first placemark; a run fails without setting anything exactly when a call before the `try` throws |
| `LocationPage.SubmitResult` | lib/LocationPage.java:108-132 | no origin or empty text gives nothing; a handoff happens exactly when the guard passes and the geocoder returns a non-empty list, and carries the entered text, the origin and the first location's coordinates; a notice happens exactly when the guard passes and the geocoder throws, with `"목적지 좌표를 찾을 수 없습니다: " + e` |
| `LocationPage.LocationPageState.constructor` | lib/LocationPage.java:15-16 | the page starts with `"출발지를 불러오는 중..."` and no coordinates |
| `LocationPage.LocationPageState.GetCurrentLocation` | lib/LocationPage.java:25-62 | the new state of both fields is the old state updated by `Resolve` of the answers, and the calls issued are `OriginCalls` of the answers |
| `LocationPage.LocationPageState.Submit` | lib/LocationPage.java:108-132 | the outcome is `SubmitResult` of the current coordinates, the text and the geocoder's answer; it changes no field; it calls the forward geocoder once, on the text, exactly when the guard passes, and otherwise calls nothing |
| `LocationPageProperties.ServiceDisabledStops` | lib/LocationPage.java:26-29 | a disabled service gives exactly `"위치 서비스 비활성화됨"`, no coordinates, and no permission check or request |
| `LocationPageProperties.PermissionRequestedAtMostOnce` | lib/LocationPage.java:32-39 | at most one permission request is issued, and one is issued exactly when the service is on and the check answered `denied` |
| `LocationPageProperties.DeniedTwiceStops` | lib/LocationPage.java:33-38 | `denied` from the check and from the re-request gives `"위치 권한이 거부되었습니다"`, no coordinates, and no call after the request |
| `LocationPageProperties.DeniedForeverStops` | lib/LocationPage.java:40-43 | `deniedForever`, from the check or from the re-request, gives `"위치 권한이 영구적으로 거부되었습니다"`, no coordinates and no position read |
| `LocationPageProperties.OtherPermissionsReadPosition` | lib/LocationPage.java:40-46 | any permission other than the two denials, `unableToDetermine` included, leads to exactly one position read |
| `LocationPageProperties.EarlyFailureLeavesLoading` | lib/LocationPage.java:26-34 | an error thrown by the service query, the check or the request leaves both fields at their initial values and reads no position |
| `LocationPageProperties.AddressResolved` | lib/LocationPage.java:46-55 | a fix and a non-empty placemark list set the formatted first placemark and the fix's latitude and longitude unchanged; the fix's coordinates are the ones reverse-geocoded |
| `LocationPageProperties.FormatKeepsSegments` | lib/LocationPage.java:51 | the address is the three fields in order, separated by single spaces, with nothing trimmed or dropped |
| `LocationPageProperties.FormatOfFields` | lib/LocationPage.java:51 | present fields are shown as they are; a null field is shown as `"null"` |
| `LocationPageProperties.NoPlacemarkKeepsNoCoordinates` | lib/LocationPage.java:56-58 | an empty placemark list gives `"주소 정보를 찾을 수 없습니다"` and no coordinates, although the fix succeeded |
| `LocationPageProperties.FixFailureReported` | lib/LocationPage.java:45-61 | a failed fix or reverse geocode gives `"주소 변환 실패: " + e` and no coordinates; a failed fix is not reverse-geocoded |
| `LocationPageProperties.CoordinatesOnlyWithAddress` | lib/LocationPage.java:15-61 | after the run the coordinates are set if and only if the run reached its last step, and then the address is the formatted first placemark and the coordinates are the fix's; otherwise the address is the loading text or a diagnostic |
| `LocationPageProperties.AddressTextIsNoFlag` | lib/LocationPage.java:26-55 | a placemark can format to a diagnostic message, so the same address text appears with and without coordinates: only `currentLatLng` tells whether the origin resolved |
| `LocationPageProperties.HandoffNeedsBothEnds` | lib/LocationPage.java:109-125 | after the opening run, a submit hands off exactly when the origin resolved, the text is non-empty and the geocoder found a location; the handoff carries the text, the fix's coordinates and the first location's coordinates |

## Left out

- The widget tree of `build`: layout, styling, text fields and icons. The
  "즐겨찾기" and "마이페이지" buttons have empty handlers and are not modelled.
- The plugins themselves, `Navigator.push` and `ScaffoldMessenger`. Their
  answers are inputs; navigation and the snackbar are the `SubmitOutcome` value.
- Asynchronous scheduling and `setState` re-rendering. Each procedure is one
  sequential run, and a state update after the screen is disposed is not
  modelled.
- `Submit`: the source reads the text field again after the geocoder answers,
  and uses that second read as `suggestedPlaceName`. The model reads the text
  once, so it assumes the rider does not edit the field while the geocoder is
  working.
- `Submit`: an error thrown by `Navigator.push` itself would also reach the
  `catch` block and show a notice. The model treats navigation as never
  failing.
- Floating-point coordinates are modelled as reals. They are only copied.
  The normalisation that the `LatLng` constructor of google_maps_flutter
  applies to out-of-range values is not part of this model.
- `android/app/build.gradle.kts` holds only build configuration.
- `functions/index.js` is a scheduled cloud function that only logs and
  returns null.

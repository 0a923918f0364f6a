# BleBox ShutterBox cover platform, modelled in Dafny

This project models the Home Assistant cover platform for the BleBox
ShutterBox (`cover.py`). The platform polls the device over HTTP and turns
the `shutter` object of `/api/shutter/state` into cover readings. It turns
cover commands into GET requests on `/s/...`.

The model has these parts:

- `Snapshot` holds the device state as data. `Shutter` has an optional motion
  code and a `currentPos` object with optional `position` and `tilt` keys.
  It also holds the position inversion `100 - raw`. The readings `is_opening`,
  `is_closing`, `is_closed`, `current_cover_position` and
  `current_cover_tilt_position` are pure functions of the entity's variant and
  its snapshot. The tilt reading is absent for a segmented shutter, which
  keeps the cover base class's answer.
- `Entity` holds the entity class `ShutterBox`. Its configuration (host,
  name, timeout, variant) is constant. The `state` and `available` fields are
  rewritten by `Update`, which is the `async_update` cycle. `Update` takes the
  decoded response as an input.
- `Commands` holds the cover commands and the request each one issues. It
  builds the path `/s/<cmd>[/<param>]`. A parser reads a path back into its
  request, so the path format is fixed by a round trip.
- `Features` holds the `supported_features` bit sets. They use Home
  Assistant's `SUPPORT_*` flag values.
- `Setup` holds the control-type enumeration, the timeout default, the name
  resolution and the entity that setup creates.
- `Decimal` writes an integer as Python's `str` does and reads it back.

`ShutterBoxTiltShutter` subclasses `ShutterBoxSegmentedShutter`. In the model
both are one class with a `variant` field. The members the subclass overrides
(`is_closed`, `supported_features`, the default name) dispatch on that field.
The members only the subclass defines are the tilt commands, which `Offers`
restricts to the tilt variant, and the tilt reading, which takes the variant.

## Model

| member | source | states |
|---|---|---|
| `Snapshot.InvertPosition` | cover.py:187-188 | The inversion maps the raw range 0..100 into the reported range 0..100, and nothing outside it into it. That it is onto is stated by `Snapshot.InvertOnto` |
| `Snapshot.InvertInvolution` | cover.py:187-188 | Inverting twice gives the original position back |
| `Snapshot.InvertOnto` | cover.py:187-188 | Every reported value in 0..100 is the inversion of some raw value in 0..100 |
| `Snapshot.FetchedSnapshot` | cover.py:171-176 | The update keeps a snapshot exactly when the response is truthy and its `shutter` value is a non-empty object, and then the snapshot is that object |
| `Entity.ShutterBox.Update` | cover.py:161-169 | After an update, `available` holds exactly when the fetched shutter object was non-empty, and then `state` is that object. Otherwise `state` is cleared. The availability invariant is kept and the configuration does not change |
| `Entity.ShutterBox.constructor` | cover.py:102-107 | A new entity holds its host, name, timeout and variant, has no snapshot and is unavailable |
| `Entity.ShutterBox.DisplayName` | cover.py:113-115 | The name is never empty. It is the configured name when that is set and non-empty, and otherwise the variant's own default name (`ShutterBoxSegmentedShutter` or `ShutterBoxTiltShutter`, lines 100 and 199) |
| `Entity.UnavailableReadsNothing` | cover.py:117-146 | An unavailable entity reports no motion, not closed, and no position or tilt |
| `Snapshot.IsOpening` | cover.py:117-121 | No ensures of its own; stated by `Snapshot.MotionFlags` and `Entity.UnavailableReadsNothing` |
| `Snapshot.IsClosing` | cover.py:123-127 | No ensures of its own; stated by `Snapshot.MotionFlags` and `Entity.UnavailableReadsNothing` |
| `Snapshot.ClosedReadable` | cover.py:133-138 | No ensures of its own. It is the condition under which the `>=` tests of both variants do not raise; `Snapshot.TiltClosedNarrowsSegmented` relates the two variants |
| `Snapshot.IsClosed` | cover.py:133-233 | No ensures of its own; stated by `Snapshot.ClosedThreshold`, `Snapshot.TiltClosedNarrowsSegmented` and `Snapshot.ClosedAgreesWithReported` |
| `Snapshot.Reported` | cover.py:143-145 | No ensures of its own; stated by `Snapshot.NeverReportsFullyOpen` |
| `Snapshot.CurrentCoverPosition` | cover.py:140-146 | No ensures of its own; stated by `Snapshot.ReportedPosition` |
| `Snapshot.CurrentCoverTiltPosition` | cover.py:201-207 | No ensures of its own; stated by `Snapshot.ReportedTilt` |
| `Commands.RequestOf` | cover.py:209-217 | No ensures of its own; stated by `Commands.CommandPaths`, `Commands.TiltEndpoints` and `Commands.RequestedPositionReadsBack` (lines 148-159 give the segmented commands) |
| `Commands.RequestPath` | cover.py:178-181 | No ensures of its own; stated by `Commands.RequestPathRoundTrip` against the parser `Commands.ParseRequestPath` |
| `Commands.Offers` | cover.py:198-217 | No ensures of its own; stated by `Commands.CommandsMatchFeatures` |
| `Features.SupportedFeatures` | cover.py:219-226 | No ensures of its own; stated by `Features.TiltExtendsSegmented` (line 191 gives the segmented set) |
| `Setup.VariantFor` | cover.py:85-95 | No ensures of its own; stated by `Setup.Dispatch` |
| `Snapshot.MotionFlags` | cover.py:117-127 | Opening and closing are never both true. Both are false without a snapshot or for a motion code other than 1 and 0. Code 1 means opening and code 0 means closing |
| `Snapshot.ClosedThreshold` | cover.py:129-138 | Closed is false without a snapshot. For a segmented shutter it is true exactly when the raw position is at least 95. For a tilt shutter the raw tilt must also be at least 95 |
| `Snapshot.TiltClosedNarrowsSegmented` | cover.py:228-233 | Wherever the tilt shutter's closed test can be read, so can the segmented one, and tilt-closed implies segmented-closed |
| `Snapshot.ReportedPosition` | cover.py:140-146 | The position reading is absent exactly when there is no snapshot or the raw position is missing or 0. Otherwise it inverts back to the raw position |
| `Snapshot.ReportedTilt` | cover.py:201-207 | A segmented shutter has no tilt reading. For a tilt shutter the reading is absent exactly when there is no snapshot or the raw tilt is missing or 0. Otherwise it inverts back to the raw tilt |
| `Snapshot.NeverReportsFullyOpen` | cover.py:143-145 | A reading is never 100, because raw 0 reads as absent. An in-range raw value reads as 0..99 |
| `Snapshot.ClosedAgreesWithReported` | cover.py:133-146 | For a segmented shutter with a position reading p, closed holds exactly when p is at most 5 |
| `Snapshot.UpdateExamples` | cover.py:161-169 | A response opening at raw 30 reads as opening at 70 and not closed. A failed fetch reads as no motion, not closed and no position |
| `Decimal.IntDecimal` | cover.py:181 | The decimal text of a parameter contains no '/' |
| `Decimal.ParseNatDecimal` | cover.py:181 | The digits of a natural number read back to that number |
| `Decimal.DecimalRoundTrip` | cover.py:181 | The decimal text of any integer, negative included, reads back to that integer |
| `Decimal.DecimalInjective` | cover.py:181 | Distinct parameters give distinct texts |
| `Commands.RequestPathRoundTrip` | cover.py:178-181 | For a slash-free command name, parsing the built path gives back the command and parameter. A parameter of 0 is kept, because presence is tested, not truthiness |
| `Commands.CommandPathRoundTrip` | cover.py:148-159 | The path of every cover command reads back to that command's request |
| `Commands.CommandPaths` | cover.py:148-159 | Open, close and stop send `/s/u`, `/s/d` and `/s/s`. Position 40 sends `/s/p/60`. Open-tilt sends `/s/t/0`, close-tilt `/s/t/100`, and tilt 25 sends `/s/t/75` |
| `Commands.TiltEndpoints` | cover.py:209-217 | Open-tilt issues the same request as setting tilt 100, and close-tilt the same as setting tilt 0 |
| `Commands.RequestedPositionReadsBack` | cover.py:157-159 | For every requested value, set-position sends command `p` and set-tilt sends `t`, with the inverted value as parameter and path `/s/<letter>/<100 - value>`. The parameter is in range when the request is. Once the device reaches that raw value, the entity reads back the requested value, except that 100 reads as absent |
| `Commands.CommandsMatchFeatures` | cover.py:190-226 | An entity defines a command exactly when its feature set holds that command's flag |
| `Features.TiltExtendsSegmented` | cover.py:219-226 | The tilt feature set is a strict superset of the segmented one. It adds exactly open-tilt, close-tilt and set-tilt-position, and the segmented set has none of them |
| `Setup.Code` | cover.py:36-43 | Every control type has a code in 1..7 |
| `Setup.ControlTypeOf` | cover.py:36-43 | Looking up a code in 1..7 gives the control type with that code |
| `Setup.ControlTypeCodes` | cover.py:36-43 | Looking up a control type by its own code gives it back |
| `Setup.Dispatch` | cover.py:84-95 | Code 1 selects the segmented shutter and code 3 the tilt shutter. Codes 2 and 4 to 7 select nothing |
| `Setup.ResolveTimeout` | cover.py:79 | The timeout is never 0. It is the configured value when that is set and non-zero, and the default 10 otherwise |
| `Setup.ResolveName` | cover.py:78-82 | The name is the configured name when it is set and non-empty. Otherwise it is the device-reported `deviceName` |
| `Setup.SetupPlatform` | cover.py:76-96 | Setup creates exactly one fresh, not-yet-updated entity for code 1 (segmented) or 3 (tilt), and none for other codes. The entity carries the host, the resolved name and the resolved timeout |

## Left out

- The HTTP helper `_get` (cover.py:46-61) is left out. That covers the client session, the timeout, JSON decoding and the warning it logs. Its decoded result is an input: `Update` takes it as `Option<ShutterField>`, and `SetupPlatform` takes the `deviceName` and the control-type code it would read.
- Command requests are built but not sent. The response of a command is discarded in the source, so the model returns the request path instead.
- `_get_shutter_info` and `_get_shutter_settings` (cover.py:64-73) are not modelled. They raise when the fetch fails, and setup raises when `device` or `settings.shutter.controlType` is missing (cover.py:82-84). `SetupPlatform` takes the values those lines read, so the crash paths are not modelled.
- `Setup.ControlTypeOf` requires a code in 1..7. Any other code raises `ValueError` in the enumeration lookup at cover.py:84, which the model does not represent.
- A shutter object without a `currentPos` object, such as `{"state": 1}`, cannot be represented: `Shutter` always has one. The source accepts such an object, stores it, marks the entity available and answers `is_opening` and `is_closing` from it. Only `is_closed`, `current_cover_position` and, for a tilt shutter, `current_cover_tilt_position` raise on it.
- `Snapshot.IsClosed` requires `ClosedReadable`. The source's `>=` raises when the raw position is missing. For a tilt shutter it also raises when the raw tilt is missing and the position is at least 95.
- cover.py defines the tilt commands only on `ShutterBoxTiltShutter` (cover.py:209-217). What a segmented entity inherits for them from the host's `CoverDevice` is left out with that base class. `Commands.Offers` states which class of cover.py defines which command.
- Logging (cover.py:56-61, 86) is left out: it has no behaviour to state. That includes the error logged for an unsupported control type.
- The `available` field stands for `_available`, which cover.py sets (lines 107, 166, 169) but never reads and does not expose as a property. `Entity.UnavailableReadsNothing` is a fact about the model's state, not about an availability the host sees.
- `device_class` (cover.py:109-111) is a constant and is left out.
- Async scheduling, the `CoverDevice` base class, `hass`, `async_add_devices` and the configuration schema (cover.py:29-33) are left out. The list `SetupPlatform` returns stands for the devices it registers.
- A decoded response, `shutter` value or `currentPos` value that is not a JSON object is not represented. A truthy non-object `shutter` value such as `5` is stored and marks the entity available, and every reading then raises (cover.py:120, 126, 136, 143). A non-empty top-level array makes `response.get` raise inside the update (cover.py:175), leaving `_state` and `_available` as they were.
- JSON values are modelled as integers only. Floats, booleans and strings in the `state`, `position` and `tilt` keys are not represented.

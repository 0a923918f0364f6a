/**
 * Platform setup: resolves the configuration, reads the device's control
 * type and creates the one entity that matches it, if any.
 */
module Setup {
  import opened Wrappers
  import opened Snapshot
  import opened Entity

  /** The device's control types with their numeric codes 1..7. */
  datatype ControlType =
    | SegmentedShutter
    | ApplianceWithoutPositioning
    | TiltShutter
    | WindowOpener
    | MaterialShutter
    | Awning
    | Screen

  function Code(ct: ControlType): (code: int)
    ensures 1 <= code <= 7
  {
    match ct
    case SegmentedShutter => 1
    case ApplianceWithoutPositioning => 2
    case TiltShutter => 3
    case WindowOpener => 4
    case MaterialShutter => 5
    case Awning => 6
    case Screen => 7
  }

  /** The enumeration lookup by value; a code outside 1..7 raises in the source. */
  function ControlTypeOf(code: int): (ct: ControlType)
    requires 1 <= code <= 7
    ensures Code(ct) == code
  {
    match code
    case 1 => SegmentedShutter
    case 2 => ApplianceWithoutPositioning
    case 3 => TiltShutter
    case 4 => WindowOpener
    case 5 => MaterialShutter
    case 6 => Awning
    case _ => Screen
  }

  /** Looking a control type up by its own code gives it back. */
  lemma ControlTypeCodes(ct: ControlType)
    ensures ControlTypeOf(Code(ct)) == ct
  {
  }

  /** The entity class for a control type; only two are supported. */
  function VariantFor(ct: ControlType): Option<Variant> {
    match ct
    case SegmentedShutter => Some(Segmented)
    case TiltShutter => Some(Tilt)
    case _ => None
  }

  /** Code 1 selects the segmented shutter, 3 the tilt shutter, every other code nothing. */
  lemma Dispatch(code: int)
    requires 1 <= code <= 7
    ensures VariantFor(ControlTypeOf(code)) ==
              if code == 1 then Some(Segmented)
              else if code == 3 then Some(Tilt)
              else None
  {
  }

  const DEFAULT_TIMEOUT := 10

  /** `timeout or DEFAULT_TIMEOUT`: an absent or zero timeout falls back to the default. */
  function ResolveTimeout(configured: Option<int>): (t: int)
    ensures t != 0
    ensures configured == Some(t) || t == DEFAULT_TIMEOUT
    ensures configured.Some? && configured.value != 0 ==> t == configured.value
    ensures configured.None? ==> t == DEFAULT_TIMEOUT
  {
    if configured.Some? && configured.value != 0 then configured.value else DEFAULT_TIMEOUT
  }

  /**
   * The configured name unless it is absent or empty, else the `deviceName`
   * the device reports on `/api/device/state`.
   */
  function ResolveName(configured: Option<string>, deviceName: Option<string>): (n: Option<string>)
    ensures n == configured || n == deviceName
    ensures configured.Some? && configured.value != [] ==> n == configured
    ensures n != deviceName ==> n == configured && configured.Some? && configured.value != []
  {
    if configured.Some? && configured.value != [] then configured else deviceName
  }

  /**
   * Creates the entities the platform registers: one entity of the variant
   * the control type selects, built with the resolved name and timeout and
   * not yet updated, or none for an unsupported control type.
   */
  method SetupPlatform(host: string, configuredName: Option<string>, configuredTimeout: Option<int>,
                       deviceName: Option<string>, controlCode: int)
    returns (devices: seq<ShutterBox>)
    requires 1 <= controlCode <= 7
    ensures |devices| == (if controlCode == 1 || controlCode == 3 then 1 else 0)
    ensures forall d | d in devices ::
              fresh(d) && d.Valid() && d.state == None && !d.available &&
              d.variant == (if controlCode == 1 then Segmented else Tilt) &&
              d.host == host &&
              d.name == ResolveName(configuredName, deviceName) &&
              d.timeout == ResolveTimeout(configuredTimeout)
  {
    var timeout := ResolveTimeout(configuredTimeout);
    var name := ResolveName(configuredName, deviceName);
    var controlType := ControlTypeOf(controlCode);
    Dispatch(controlCode);
    match VariantFor(controlType)
    case None =>
      devices := [];
    case Some(v) =>
      var blebox := new ShutterBox(v, host, name, timeout);
      devices := [blebox];
  }
}

/**
 * The capability bit set an entity announces through `supported_features`.
 * The flag values are Home Assistant's cover constants.
 */
module Features {
  import opened Snapshot

  const SUPPORT_OPEN: bv32 := 1
  const SUPPORT_CLOSE: bv32 := 2
  const SUPPORT_SET_POSITION: bv32 := 4
  const SUPPORT_STOP: bv32 := 8
  const SUPPORT_OPEN_TILT: bv32 := 16
  const SUPPORT_CLOSE_TILT: bv32 := 32
  const SUPPORT_SET_TILT_POSITION: bv32 := 128

  /** The flags the tilt shutter adds to the segmented shutter's. */
  const TILT_FEATURES: bv32 := SUPPORT_OPEN_TILT | SUPPORT_CLOSE_TILT | SUPPORT_SET_TILT_POSITION

  function SupportedFeatures(v: Variant): bv32 {
    var base := SUPPORT_OPEN | SUPPORT_CLOSE | SUPPORT_STOP | SUPPORT_SET_POSITION;
    match v
    case Segmented => base
    case Tilt => base | TILT_FEATURES
  }

  /**
   * The tilt set is a strict superset of the segmented set and adds exactly
   * the three tilt flags; the segmented set announces no tilt capability.
   */
  lemma TiltExtendsSegmented()
    ensures SupportedFeatures(Tilt) & SupportedFeatures(Segmented) == SupportedFeatures(Segmented)
    ensures SupportedFeatures(Tilt) != SupportedFeatures(Segmented)
    ensures SupportedFeatures(Tilt) & !SupportedFeatures(Segmented) == TILT_FEATURES
    ensures SupportedFeatures(Segmented) & TILT_FEATURES == 0
  {
  }
}

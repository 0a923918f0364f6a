/**
 * The shutter state a ShutterBox reports on `/api/shutter/state` and the
 * cover readings the entity derives from it.
 *
 * The device measures position and tilt on a raw 0..100 scale where 0 is
 * fully open; the cover entity reports the inverted scale (100 is fully
 * open). Every reading is a function of the entity's variant and its last
 * snapshot, which is absent before the first successful update and after
 * a failed one.
 */
module Snapshot {
  import opened Wrappers

  /** The two entity classes: a segmented shutter and a tilt shutter. */
  datatype Variant = Segmented | Tilt

  /** The `currentPos` object; a key the device omits is `None`. */
  datatype CurrentPos = CurrentPos(position: Option<int>, tilt: Option<int>)

  /** The `shutter` object: the motion code under `state` and `currentPos`. */
  datatype Shutter = Shutter(state: Option<int>, currentPos: CurrentPos)

  /** What `response.get('shutter')` holds: nothing, `{}`, or a shutter object. */
  datatype ShutterField = Missing | EmptyObject | Present(shutter: Shutter)

  /** Motion codes of the `state` key. */
  const OPENING := 1
  const CLOSING := 0
  /** Raw position (and tilt) from which the shutter counts as closed. */
  const CLOSED_THRESHOLD := 95
  const FULL_SCALE := 100

  /** Python truthiness of an optional integer: present and non-zero. */
  predicate Truthy(x: Option<int>) {
    x.Some? && x.value != 0
  }

  /** Converts between the device's raw scale and the reported scale. */
  function InvertPosition(raw: int): (p: int)
    ensures 0 <= raw <= FULL_SCALE <==> 0 <= p <= FULL_SCALE
  {
    -raw + FULL_SCALE
  }

  /**
   * The snapshot one update cycle keeps: the shutter object when the
   * response was truthy and its `shutter` value is a non-empty object,
   * and nothing otherwise.
   */
  function FetchedSnapshot(response: Option<ShutterField>): (s: Option<Shutter>)
    ensures s.Some? <==> response.Some? && response.value.Present?
    ensures s.Some? ==> response.value.shutter == s.value
  {
    match response
    case Some(Present(shutter)) => Some(shutter)
    case _ => None
  }

  function IsOpening(s: Option<Shutter>): bool {
    s.Some? && s.value.state == Some(OPENING)
  }

  function IsClosing(s: Option<Shutter>): bool {
    s.Some? && s.value.state == Some(CLOSING)
  }

  /**
   * `is_closed` compares keys with `>=`, which raises in Python when the key
   * is missing; the tilt comparison is only reached once the position passed.
   */
  predicate ClosedReadable(v: Variant, s: Option<Shutter>) {
    s.Some? ==>
      var pos := s.value.currentPos;
      pos.position.Some? &&
      (v == Tilt && pos.position.value >= CLOSED_THRESHOLD ==> pos.tilt.Some?)
  }

  function IsClosed(v: Variant, s: Option<Shutter>): bool
    requires ClosedReadable(v, s)
  {
    match s
    case None => false
    case Some(shutter) =>
      var pos := shutter.currentPos;
      match v
      case Segmented => pos.position.value >= CLOSED_THRESHOLD
      case Tilt =>
        pos.position.value >= CLOSED_THRESHOLD && pos.tilt.value >= CLOSED_THRESHOLD
  }

  /** The reading behind `current_cover_position` and `current_cover_tilt_position`. */
  function Reported(raw: Option<int>): Option<int> {
    if Truthy(raw) then Some(InvertPosition(raw.value)) else None
  }

  function CurrentCoverPosition(s: Option<Shutter>): Option<int> {
    if s.Some? then Reported(s.value.currentPos.position) else None
  }

  /**
   * Only the tilt shutter reads the `tilt` key; the segmented shutter keeps
   * the cover base class's answer, which is always absent.
   */
  function CurrentCoverTiltPosition(v: Variant, s: Option<Shutter>): Option<int> {
    if v == Tilt && s.Some? then Reported(s.value.currentPos.tilt) else None
  }

  /** The inversion is its own inverse. */
  lemma InvertInvolution(p: int)
    ensures InvertPosition(InvertPosition(p)) == p
  {
  }

  /** The inversion maps 0..100 onto 0..100. */
  lemma InvertOnto(q: int)
    requires 0 <= q <= FULL_SCALE
    ensures exists p :: 0 <= p <= FULL_SCALE && InvertPosition(p) == q
  {
    InvertInvolution(q);
    assert 0 <= InvertPosition(q) <= FULL_SCALE && InvertPosition(InvertPosition(q)) == q;
  }

  /** The motion flags: never both, and only codes 1 and 0 raise one. */
  lemma MotionFlags(s: Option<Shutter>)
    ensures !(IsOpening(s) && IsClosing(s))
    ensures s.None? ==> !IsOpening(s) && !IsClosing(s)
    ensures (s.Some? && s.value.state != Some(OPENING) && s.value.state != Some(CLOSING)) ==>
              !IsOpening(s) && !IsClosing(s)
    ensures s.Some? && s.value.state == Some(OPENING) ==> IsOpening(s)
    ensures s.Some? && s.value.state == Some(CLOSING) ==> IsClosing(s)
  {
  }

  /** The closed heuristic: raw position 95 or more, and for a tilt shutter raw tilt too. */
  lemma ClosedThreshold(v: Variant, s: Option<Shutter>)
    requires ClosedReadable(v, s)
    ensures s.None? ==> !IsClosed(v, s)
    ensures v == Segmented && s.Some? ==>
              (IsClosed(v, s) <==> s.value.currentPos.position.value >= CLOSED_THRESHOLD)
    ensures v == Tilt && s.Some? ==>
              (IsClosed(v, s) <==>
                 s.value.currentPos.position.value >= CLOSED_THRESHOLD &&
                 s.value.currentPos.tilt.value >= CLOSED_THRESHOLD)
  {
  }

  /** The tilt shutter's closed test only narrows the segmented one. */
  lemma TiltClosedNarrowsSegmented(s: Option<Shutter>)
    requires ClosedReadable(Tilt, s)
    ensures ClosedReadable(Segmented, s)
    ensures IsClosed(Tilt, s) ==> IsClosed(Segmented, s)
  {
  }

  /**
   * A position reading is absent exactly when there is no snapshot or the raw
   * value is missing or 0; otherwise inverting it gives back the raw value.
   */
  lemma ReportedPosition(s: Option<Shutter>)
    ensures CurrentCoverPosition(s).None? <==>
              s.None? || !Truthy(s.value.currentPos.position)
    ensures CurrentCoverPosition(s).Some? ==>
              InvertPosition(CurrentCoverPosition(s).value) == s.value.currentPos.position.value
  {
  }

  /**
   * The same for the tilt shutter's tilt reading and the raw `tilt` key; a
   * segmented shutter never has a tilt reading.
   */
  lemma ReportedTilt(v: Variant, s: Option<Shutter>)
    ensures v == Segmented ==> CurrentCoverTiltPosition(v, s) == None
    ensures v == Tilt ==>
              (CurrentCoverTiltPosition(v, s).None? <==> s.None? || !Truthy(s.value.currentPos.tilt))
    ensures CurrentCoverTiltPosition(v, s).Some? ==>
              InvertPosition(CurrentCoverTiltPosition(v, s).value) == s.value.currentPos.tilt.value
  {
  }

  /**
   * Raw 0 (fully open) reads as absent, so a reading of 100 never occurs and
   * an in-range raw value reads as 0..99.
   */
  lemma NeverReportsFullyOpen(raw: Option<int>)
    ensures Reported(raw) != Some(FULL_SCALE)
    ensures raw.Some? && 0 <= raw.value <= FULL_SCALE && Reported(raw).Some? ==>
              0 <= Reported(raw).value < FULL_SCALE
  {
  }

  /** For a segmented shutter, closed agrees with a reported position of at most 5. */
  lemma ClosedAgreesWithReported(s: Option<Shutter>, p: int)
    requires ClosedReadable(Segmented, s)
    requires CurrentCoverPosition(s) == Some(p)
    ensures IsClosed(Segmented, s) <==> p <= FULL_SCALE - CLOSED_THRESHOLD
  {
  }

  /**
   * Two update cycles: a response whose shutter is opening at raw position 30
   * reads as opening at 70; a failed fetch reads as nothing at all.
   */
  lemma UpdateExamples()
    ensures var s := FetchedSnapshot(Some(Present(Shutter(Some(1), CurrentPos(Some(30), None)))));
            IsOpening(s) && !IsClosing(s) && !IsClosed(Segmented, s) &&
            CurrentCoverPosition(s) == Some(70)
    ensures var s := FetchedSnapshot(None);
            !IsOpening(s) && !IsClosing(s) && !IsClosed(Segmented, s) &&
            CurrentCoverPosition(s) == None && CurrentCoverTiltPosition(Tilt, s) == None
  {
  }
}

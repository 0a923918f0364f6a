/**
 * The cover entity: its configuration, fixed at construction, and the two
 * fields each update cycle rewrites, the last snapshot and availability.
 * The segmented and the tilt shutter share this state and differ only in
 * `variant`, on which the readings and capabilities dispatch.
 */
module Entity {
  import opened Wrappers
  import opened Snapshot

  const SEGMENTED_DEFAULT_NAME := "ShutterBoxSegmentedShutter"
  const TILT_DEFAULT_NAME := "ShutterBoxTiltShutter"

  class ShutterBox {
    const variant: Variant
    const host: string
    const name: Option<string>
    const timeout: int
    var state: Option<Shutter>
    var available: bool

    /** Availability always says whether a snapshot is held. */
    ghost predicate Valid()
      reads this
    {
      available <==> state.Some?
    }

    constructor (variant: Variant, host: string, name: Option<string>, timeout: int)
      ensures Valid()
      ensures this.variant == variant && this.host == host && this.name == name && this.timeout == timeout
      ensures state == None && !available
    {
      this.variant := variant;
      this.host := host;
      this.name := name;
      this.timeout := timeout;
      state := None;
      available := false;
    }

    /**
     * One update cycle, given what the GET of `/api/shutter/state` decoded to
     * (`None` when the fetch failed or returned an empty body): keeps the
     * `shutter` object when it is a non-empty object, and clears the snapshot
     * otherwise. The configuration is constant and so untouched.
     */
    method Update(response: Option<ShutterField>)
      modifies this
      ensures Valid()
      ensures state == FetchedSnapshot(response)
      ensures available <==> response.Some? && response.value.Present?
      ensures available ==> state == Some(response.value.shutter)
    {
      var shutterState := if response.Some? then response.value else Missing;
      if shutterState.Present? {
        state := Some(shutterState.shutter);
        available := true;
      } else {
        state := None;
        available := false;
      }
    }

    /** The configured name unless it is absent or empty, else the class's default name. */
    function DisplayName(): (r: string)
      ensures r != []
      ensures name.Some? && name.value != [] ==> r == name.value
      ensures !(name.Some? && name.value != []) ==>
                r == (if variant == Segmented then SEGMENTED_DEFAULT_NAME else TILT_DEFAULT_NAME)
    {
      if name.Some? && name.value != [] then name.value
      else if variant == Segmented then SEGMENTED_DEFAULT_NAME
      else TILT_DEFAULT_NAME
    }
  }

  /** An entity that is unavailable reports no motion, not closed and no position. */
  lemma UnavailableReadsNothing(e: ShutterBox)
    requires e.Valid() && !e.available
    ensures ClosedReadable(e.variant, e.state) && !IsClosed(e.variant, e.state)
    ensures !IsOpening(e.state) && !IsClosing(e.state)
    ensures CurrentCoverPosition(e.state) == None && CurrentCoverTiltPosition(e.variant, e.state) == None
  {
  }
}

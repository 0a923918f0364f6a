/**
 * Cover commands and the device request each one issues.
 *
 * A command becomes a one-letter device command with an optional integer
 * parameter, sent as a GET to `/s/<command>` or `/s/<command>/<parameter>`.
 * Requested positions and tilts are inverted to the device's raw scale.
 * `ParseRequestPath` reads a path back into its request and is the partner
 * of `RequestPath`.
 */
module Commands {
  import opened Wrappers
  import opened Decimal
  import opened Snapshot
  import opened Features

  datatype Command =
    | OpenCover
    | CloseCover
    | StopCover
    | SetCoverPosition(position: int)
    | OpenCoverTilt
    | CloseCoverTilt
    | SetCoverTiltPosition(tilt: int)

  /** The arguments of one command call: the device command and its optional parameter. */
  datatype Request = Request(command: string, parameter: Option<int>)

  predicate IsTiltCommand(c: Command) {
    c.OpenCoverTilt? || c.CloseCoverTilt? || c.SetCoverTiltPosition?
  }

  /** Whether the entity class of this variant defines the command. */
  predicate Offers(v: Variant, c: Command) {
    !IsTiltCommand(c) || v == Tilt
  }

  function RequestOf(c: Command): Request {
    match c
    case OpenCover => Request("u", None)
    case CloseCover => Request("d", None)
    case StopCover => Request("s", None)
    case SetCoverPosition(p) => Request("p", Some(InvertPosition(p)))
    case OpenCoverTilt => Request("t", Some(0))
    case CloseCoverTilt => Request("t", Some(100))
    case SetCoverTiltPosition(t) => Request("t", Some(InvertPosition(t)))
  }

  /** The capability flag that announces the command. */
  function FeatureOf(c: Command): bv32 {
    match c
    case OpenCover => SUPPORT_OPEN
    case CloseCover => SUPPORT_CLOSE
    case StopCover => SUPPORT_STOP
    case SetCoverPosition(_) => SUPPORT_SET_POSITION
    case OpenCoverTilt => SUPPORT_OPEN_TILT
    case CloseCoverTilt => SUPPORT_CLOSE_TILT
    case SetCoverTiltPosition(_) => SUPPORT_SET_TILT_POSITION
  }

  const PATH_PREFIX := "/s/"

  /** The request path; a parameter is appended whenever it is present, 0 included. */
  function RequestPath(r: Request): string {
    var url := PATH_PREFIX + r.command;
    match r.parameter
    case None => url
    case Some(n) => url + "/" + IntDecimal(n)
  }

  /** Index of the first '/' in `s`, if any. */
  function FirstSlash(s: string): (i: Option<nat>)
    ensures i.None? <==> '/' !in s
    ensures i.Some? ==> i.value < |s| && s[i.value] == '/' && '/' !in s[..i.value]
  {
    if s == [] then None
    else if s[0] == '/' then Some(0)
    else match FirstSlash(s[1..])
      case None => None
      case Some(j) => Some(j + 1)
  }

  /** Splits a request path back into its command and parameter. */
  function ParseRequestPath(path: string): Option<Request> {
    if |path| < |PATH_PREFIX| || path[..|PATH_PREFIX|] != PATH_PREFIX then None
    else
      var rest := path[|PATH_PREFIX|..];
      match FirstSlash(rest)
      case None => Some(Request(rest, None))
      case Some(i) =>
        match ParseDecimal(rest[i + 1..])
        case None => None
        case Some(n) => Some(Request(rest[..i], Some(n)))
  }

  lemma FirstSlashAfter(cmd: string, tail: string)
    requires '/' !in cmd
    ensures FirstSlash(cmd + "/" + tail) == Some(|cmd|)
  {
    var s := cmd + "/" + tail;
    assert s[|cmd|] == '/';
    assert s[..|cmd|] == cmd;
  }

  /** Reading a request path gives back the request, for any slash-free command name. */
  lemma RequestPathRoundTrip(r: Request)
    requires '/' !in r.command
    ensures ParseRequestPath(RequestPath(r)) == Some(r)
  {
    var path := RequestPath(r);
    assert path[..|PATH_PREFIX|] == PATH_PREFIX;
    var rest := path[|PATH_PREFIX|..];
    match r.parameter
    case None =>
      assert rest == r.command;
    case Some(n) =>
      var digits := IntDecimal(n);
      assert rest == r.command + "/" + digits;
      FirstSlashAfter(r.command, digits);
      assert rest[|r.command| + 1..] == digits;
      assert rest[..|r.command|] == r.command;
      DecimalRoundTrip(n);
  }

  /** Every command letter is slash-free, so every command's path reads back to its request. */
  lemma CommandPathRoundTrip(c: Command)
    ensures ParseRequestPath(RequestPath(RequestOf(c))) == Some(RequestOf(c))
  {
    RequestPathRoundTrip(RequestOf(c));
  }

  /** The paths of the source's commands, for a few sample arguments. */
  lemma CommandPaths()
    ensures RequestPath(RequestOf(OpenCover)) == "/s/u"
    ensures RequestPath(RequestOf(CloseCover)) == "/s/d"
    ensures RequestPath(RequestOf(StopCover)) == "/s/s"
    ensures RequestPath(RequestOf(SetCoverPosition(40))) == "/s/p/60"
    ensures RequestPath(RequestOf(OpenCoverTilt)) == "/s/t/0"
    ensures RequestPath(RequestOf(CloseCoverTilt)) == "/s/t/100"
    ensures RequestPath(RequestOf(SetCoverTiltPosition(25))) == "/s/t/75"
  {
  }

  /** Opening and closing the tilt are the same requests as setting tilt 100 and 0. */
  lemma TiltEndpoints()
    ensures RequestOf(OpenCoverTilt) == RequestOf(SetCoverTiltPosition(FULL_SCALE))
    ensures RequestOf(CloseCoverTilt) == RequestOf(SetCoverTiltPosition(0))
  {
  }

  /**
   * A requested position is sent as `p` (a tilt as `t`) on the raw scale,
   * whatever its value: once the device reaches
   * the raw value it was sent, the entity reports the requested position,
   * except for 100 (fully open), whose raw value 0 reads as absent.
   */
  lemma RequestedPositionReadsBack(c: Command)
    requires c.SetCoverPosition? || c.SetCoverTiltPosition?
    ensures var p := if c.SetCoverPosition? then c.position else c.tilt;
            var raw := RequestOf(c).parameter;
            RequestOf(c).command == (if c.SetCoverPosition? then "p" else "t") &&
            raw.Some? &&
            RequestPath(RequestOf(c)) ==
              PATH_PREFIX + RequestOf(c).command + "/" + IntDecimal(FULL_SCALE - p) &&
            InvertPosition(raw.value) == p &&
            (0 <= p <= FULL_SCALE ==> 0 <= raw.value <= FULL_SCALE) &&
            Reported(raw) == (if p == FULL_SCALE then None else Some(p))
  {
  }

  /**
   * A variant's entity defines a command exactly when its feature set
   * announces the command's flag.
   */
  lemma CommandsMatchFeatures(v: Variant, c: Command)
    ensures Offers(v, c) <==> FeatureOf(c) & SupportedFeatures(v) != 0
  {
  }
}

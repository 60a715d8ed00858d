/** Start-up of the backend: the port it listens on, and how a start-up failure is
    classified for the operator. */
module Bootstrap {
  import opened Wrappers
  import opened Strings

  /** The backend's port when none, or an unusable one, is configured. */
  const DEFAULT_PORT := 3001
  /** The front end's port, which the backend refuses to take. */
  const FRONTEND_PORT := 3000

  /** The port resolution of `bootstrap`. `configPort` is the configured `PORT` (the `.env`
      value); `systemPort` is the process's own `PORT` variable, which is only reported when
      it differs and never decides. The configured value, when non-empty, is parsed in base
      10; an unparsable, zero or negative result falls back to 3001, and 3000 is moved to
      3001. */
  method ResolvePort(configPort: Option<string>, systemPort: Option<string>) returns (port: int)
    ensures port > 0 && port != FRONTEND_PORT
    ensures configPort.None? || configPort.value == "" ==> port == DEFAULT_PORT
    ensures configPort.Some? && configPort.value != "" ==>
      match ParseInt(configPort.value, false)
      case None => port == DEFAULT_PORT
      case Some(p) => port == (if p <= 0 || p == FRONTEND_PORT then DEFAULT_PORT else p)
  {
    var parsed: Option<int> := Some(DEFAULT_PORT);
    if configPort.Some? && configPort.value != "" {
      parsed := ParseInt(configPort.value, false);
    }
    if parsed.None? || parsed.value <= 0 {
      port := DEFAULT_PORT;
    } else {
      port := parsed.value;
    }
    if port == FRONTEND_PORT {
      port := DEFAULT_PORT;
    }
  }

  /** The two start-up failures that get a dedicated explanation. */
  datatype StartupFailure = PortInUse | PermissionDenied | OtherFailure

  /** The classification of a start-up error from its message and stack (empty when absent):
      "address in use" is looked for first, so it wins when both codes appear. */
  function ClassifyStartupError(message: string, stack: string): (f: StartupFailure)
    ensures f == PortInUse <==> Contains(message, "EADDRINUSE") || Contains(stack, "EADDRINUSE")
    ensures f == PermissionDenied <==>
      !(Contains(message, "EADDRINUSE") || Contains(stack, "EADDRINUSE"))
      && (Contains(message, "EACCES") || Contains(stack, "EACCES"))
  {
    var hasEacces := Contains(message, "EACCES") || Contains(stack, "EACCES");
    var hasEaddrinuse := Contains(message, "EADDRINUSE") || Contains(stack, "EADDRINUSE");
    if hasEaddrinuse then PortInUse
    else if hasEacces then PermissionDenied
    else OtherFailure
  }

  /** A message naming both codes is reported as "port in use". */
  lemma {:induction false} AddressInUseWins(prefix: string, middle: string, suffix: string)
    ensures ClassifyStartupError(prefix + "EACCES" + middle + "EADDRINUSE" + suffix, "") == PortInUse
  {
    var m := prefix + "EACCES" + middle + "EADDRINUSE" + suffix;
    var k := |prefix + "EACCES" + middle|;
    assert m[k..k + 10] == "EADDRINUSE";
    ContainsAt(m, "EADDRINUSE", k);
  }
}

/**
 * The command router of `ExecuteCommand` once the server is verified
 * (Remotely_Agent/Services/DeviceSocket.cs:82-157): the mode is matched
 * after lower-casing, each backend has a platform gate, and the result goes
 * inline or through an HTTP upload depending on its serialized size.
 */
module CommandRouting {
  import opened Wrappers
  import opened Text
  import opened AgentWire

  /** The lower-case mode names of the `switch`. */
  function ModeName(k: ShellKind): string {
    match k
    case PSCore => "pscore"
    case WinPS => "winps"
    case Cmd => "cmd"
    case Bash => "bash"
  }

  /** `mode.ToLower()` matched against the cases of the `switch`; anything else is the `default` case. */
  function ParseMode(mode: string): (r: Option<ShellKind>)
    ensures r.Some? ==> ModeName(r.value) == ToLower(mode)
    ensures r.None? ==> forall k :: ModeName(k) != ToLower(mode)
  {
    var m := ToLower(mode);
    if m == "pscore" then Some(PSCore)
    else if m == "winps" then Some(WinPS)
    else if m == "cmd" then Some(Cmd)
    else if m == "bash" then Some(Bash)
    else None
  }

  /** Modes that differ only in the case of ASCII letters select the same backend. */
  lemma {:induction false} ParseModeIgnoresCase(mode: string, k: ShellKind)
    requires ToLower(mode) == ModeName(k)
    ensures ParseMode(mode) == Some(k)
  {
    var m := ToLower(mode);
    assert ModeName(k) == m;
    match k
    case PSCore =>
    case WinPS => assert m != "pscore" by { assert m[0] == 'w'; }
    case Cmd => assert m != "pscore" && m != "winps" by { assert m[0] == 'c'; }
    case Bash => assert m != "pscore" && m != "winps" && m != "cmd" by { assert m[0] == 'b'; }
  }

  /** `pscore` runs everywhere; `winps` and `cmd` only on Windows; `bash` only on Linux. */
  predicate Available(k: ShellKind, os: HostOS) {
    match k
    case PSCore => true
    case WinPS => os == Windows
    case Cmd => os == Windows
    case Bash => os == Linux
  }

  /** The result type of the upload URL `/API/Commands/{type}`. */
  function ResultType(k: ShellKind): string {
    match k
    case PSCore => "PSCore"
    case WinPS => "WinPS"
    case Cmd => "CMD"
    case Bash => "Bash"
  }

  /** The largest serialized size that is still sent inline. */
  const InlineLimit: nat := 400000

  predicate Oversized(r: ShellResult) {
    r.serializedBytes > InlineLimit
  }

  /** `GetCurrent(sender).WriteInput(command, commandID)`: the backend call the router makes. */
  datatype BackendCall = BackendCall(kind: ShellKind, senderId: string, command: string, commandId: string)

  /** What the backend call did: returned a result or threw. */
  datatype Reply = Returned(result: ShellResult) | Threw

  /** Everything a dispatch does: the backend it invoked, what it uploaded, what it sent on the hub. */
  datatype Dispatched = Dispatched(invoked: Option<BackendCall>, uploads: seq<Upload>, messages: seq<HubMessage>)

  /** The inline message for a result that fits: `PSCoreResult` for pscore, `CommandResult` otherwise. */
  function InlineMessage(k: ShellKind, r: ShellResult): HubMessage {
    if k == PSCore then PSCoreResult(r) else CommandResult(r)
  }

  /** The notice after a successful upload; bash sends none. */
  function ViaAjaxNotice(k: ShellKind, commandId: string): seq<HubMessage> {
    match k
    case PSCore => [PSCoreResultViaAjax(commandId)]
    case WinPS => [WinPSResultViaAjax(commandId)]
    case Cmd => [CMDResultViaAjax(commandId)]
    case Bash => []
  }

  /**
   * Lines 82-157 for a verified agent. `reply` is what the backend does if
   * it is called, `uploadOk` whether the POST of an oversized result
   * completes; a throw anywhere inside the `try` becomes one error notice to
   * the sender.
   */
  function Dispatch(host: string, os: HostOS, mode: string, command: string, commandId: string,
                    senderId: string, reply: Reply, uploadOk: bool): (d: Dispatched)
    // a backend is invoked exactly when the mode names one that this host runs
    ensures d.invoked.Some? <==> ParseMode(mode).Some? && Available(ParseMode(mode).value, os)
    ensures d.invoked.Some? ==> d.invoked.value == BackendCall(ParseMode(mode).value, senderId, command, commandId)
    // an unknown or gated mode is silent
    ensures d.invoked.None? ==> d.uploads == [] && d.messages == []
    // at most one upload and at most one hub message per command
    ensures |d.uploads| <= 1 && |d.messages| <= 1
    // a throwing backend yields exactly one notice, to the sender
    ensures d.invoked.Some? && reply.Threw? ==>
              d.uploads == [] && d.messages == [DisplayConsoleMessage(CommandErrorNotice, senderId)]
    // a result of at most 400000 bytes goes inline in full
    ensures d.invoked.Some? && reply.Returned? && !Oversized(reply.result) ==>
              d.uploads == [] && d.messages == [InlineMessage(d.invoked.value.kind, reply.result)]
    // a larger one is uploaded, and no hub message carries it
    ensures d.invoked.Some? && reply.Returned? && Oversized(reply.result) ==>
              d.uploads == [Upload(host + "/API/Commands/" + ResultType(d.invoked.value.kind), reply.result)]
              && forall i :: 0 <= i < |d.messages| ==> !CarriesResult(d.messages[i])
    ensures d.invoked.Some? && reply.Returned? && Oversized(reply.result) ==>
              d.messages == if uploadOk then ViaAjaxNotice(d.invoked.value.kind, commandId)
                            else [DisplayConsoleMessage(CommandErrorNotice, senderId)]
  {
    match ParseMode(mode)
    case None => Dispatched(None, [], [])
    case Some(k) =>
      if !Available(k, os) then Dispatched(None, [], [])
      else
        var call := Some(BackendCall(k, senderId, command, commandId));
        match reply
        case Threw => Dispatched(call, [], [DisplayConsoleMessage(CommandErrorNotice, senderId)])
        case Returned(r) =>
          if r.serializedBytes > 400000 then
            var upload := [Upload(host + "/API/Commands/" + ResultType(k), r)];
            if uploadOk then Dispatched(call, upload, ViaAjaxNotice(k, commandId))
            else Dispatched(call, upload, [DisplayConsoleMessage(CommandErrorNotice, senderId)])
          else Dispatched(call, [], [InlineMessage(k, r)])
  }

  /** The scenario of a `cmd` command on a host that is not Windows: no backend, no message. */
  lemma CmdOffWindowsIsSilent(os: HostOS, command: string, commandId: string, senderId: string,
                               host: string, reply: Reply, uploadOk: bool)
    requires os != Windows
    ensures Dispatch(host, os, "CMD", command, commandId, senderId, reply, uploadOk) == Dispatched(None, [], [])
  {
    ParseModeIgnoresCase("CMD", Cmd);
  }
}

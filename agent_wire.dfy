/**
 * What the agent in Remotely_Agent/Services/DeviceSocket.cs sends: hub
 * invocations on its `/DeviceHub` connection, POSTs of oversized results,
 * file downloads and process launches. JSON serialization is abstracted
 * to the UTF-8 byte length of the serialized result.
 */
module AgentWire {

  /** The shell backends of `ExecuteCommand`. */
  datatype ShellKind = PSCore | WinPS | Cmd | Bash

  /** `OSUtils.IsWindows` / `OSUtils.IsLinux`: at most one holds. */
  datatype HostOS = Windows | Linux | OtherOS

  /** A backend's answer to `WriteInput`; `serializedBytes` is the UTF-8 length of its JSON. */
  datatype ShellResult = ShellResult(commandId: string, output: string, serializedBytes: nat)

  /** The point-in-time device facts of `Device.Create`, kept opaque. */
  datatype DeviceSnapshot = DeviceSnapshot(facts: string)

  /** The agent-to-server invocations on the device hub. */
  datatype HubMessage =
    | DeviceCameOnline(device: DeviceSnapshot)
    | DeviceHeartbeat(device: DeviceSnapshot)
    | SetServerVerificationToken(token: string)
    | SendServerVerificationToken
    | PSCoreResult(result: ShellResult)
    | CommandResult(result: ShellResult)
    | PSCoreResultViaAjax(commandId: string)
    | WinPSResultViaAjax(commandId: string)
    | CMDResultViaAjax(commandId: string)
    | TransferCompleted(transferId: string, requesterId: string)
    | DisplayConsoleMessage(text: string, targetId: string)

  /** Does the message carry a command's output? */
  predicate CarriesResult(m: HubMessage) {
    m.PSCoreResult? || m.CommandResult?
  }

  /** A POST of a serialized result to the side channel (`SendResultsViaAjax`). */
  datatype Upload = Upload(url: string, result: ShellResult)

  /** A process started on an interactive desktop: the full command line and the desktop. */
  datatype Launch = Launch(commandLine: string, desktop: string)

  /** The notice `ExecuteCommand` sends when dispatch throws. */
  const CommandErrorNotice := "There was an error executing the command.  It has been logged on the client device."
}

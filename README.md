# Remotely agent control channel and screen-cast start-up, in Dafny

Remotely is a remote-support system. This project models two pieces of it.

**The agent's `DeviceSocket`**, in `Remotely_Agent/Services/DeviceSocket.cs`. This is the agent's SignalR channel to its server:
- On connecting, it announces the device and either enrols with a fresh verification token or asks the server for its copy. It also restarts a 300000 ms heartbeat timer.
- Trust is on first use. An agent with no persisted token enrols: it persists a fresh token and trusts the server at once. An agent that already holds a token trusts the server only once the server has presented that token.
- `ExecuteCommand`, `DeployScript` and `RemoteControl` ask an untrusted agent to uninstall itself instead of acting. `TransferFiles` and `UninstallClient` have no such gate.
- Commands go to a PowerShell Core, Windows PowerShell, CMD or Bash backend, each behind its platform gate. A result goes inline, or through an HTTP upload when its serialized form exceeds 400000 bytes.
- It downloads shared files and deployed scripts, taking their names from the `Content-Disposition` header.
- For remote control, it extracts the screen-cast executable under the first free name `Remotely_ScreenCast[N].exe` in the temp directory and starts it on the `default` desktop.

**The screen-cast process's `Program`**, in `Remotely_ScreenCast/Program.cs`:
- It reads its `-key value` arguments into a dictionary. It relaunches itself when the live desktop differs from `-desktop`.
- Otherwise it resumes casting to the viewers named by a desktop switch, or tells the requester it is ready.
- It polls for desktop changes in unattended mode and re-launches itself there with its viewers.
- A one-shot 5 s timer shuts the process down if no viewer is connected when it fires.

## Layout

- `wrappers.dfy` (`Wrappers`): `Option` and `Result`.
- `text.dfy` (`Text`): the string operations the source calls. These are `Trim`, `ToLower`, `Replace("-", "")`, `Split`, `String.Join`, the splitting of a command line into words, and the decimal form of a counter.
- `agent_trust.dfy` (`ServerTrust`): the agent's trust-on-first-use state as a pure transition system, with lemmas over every sequence of events.
- `agent_wire.dfy` (`AgentWire`): the hub messages, uploads and launches the agent produces.
- `agent_routing.dfy` (`CommandRouting`): the command switch of `ExecuteCommand` for a verified agent.
- `agent_files.dfy` (`AgentFiles`): the temp-file name loop (a method with its loop invariant) and the file name taken from `Content-Disposition`.
- `device_socket.dfy` (`Agent`):
  - The class `DeviceSocket`. Its fields are the static state of the C# class, plus logs of what was sent, uploaded, downloaded, saved and launched.
  - Each hub handler is a method, specified against the pure modules above.
- `cast_args.dfy` (`SessionArgs`):
  - `ProcessArgs` (a loop) and the function it is proved against.
  - The reading of the required keys.
  - The two relaunch command lines, with their round trips through word splitting and `ProcessArgs`.
- `cast_program.dfy` (`ScreenCast`): the start-up decision, the viewer set and the class `CastProcess` for `Program`'s static state and handlers.
- `launch_roundtrip.dfy` (`LaunchRoundTrip`): the agent's launch line at `DeviceSocket.cs:282`, read back by the screen-cast process.

## Behaviour of the code worth knowing

- **The viewer timer.** The comment at `Remotely_ScreenCast/Program.cs:144` speaks of viewers having connected within 5 seconds, but the timer tests `Viewers.Count == 0` when it fires. A viewer who joined and left before then does not keep the process alive (`JoinedThenLeftStillShutsDown`).
- **The relaunch at line 112.** It passes neither `-desktopswitch` nor `-viewers`. The relaunched process therefore announces itself instead of resuming (`RelaunchRoundTrip`, `RelaunchSettles`).
- **`TransferFiles` and `UninstallClient` have no verification gate.** `DeployScript` downloads the script before the gate inside `ExecuteCommand` is reached.
- **A wrong token.** After one, `IsServerVerified` keeps whatever value it had. The agent only asks to be uninstalled (`WrongTokenAfterRestart`).
- **A desktop switch with no viewers** writes a trailing `-viewers` with no value. The continuation process's `ProcessArgs` then reads past the end of `args` and throws, so it stops before connecting (`SwitchWithoutViewersFails`).

## Model

| member | source | states |
|---|---|---|
| SessionArgs.ProcessArgs | Remotely_ScreenCast/Program.cs:159-178 | The loop stepping by two returns exactly the dictionary, or the out-of-range error, that the round-by-round specification `ArgDict` gives. |
| SessionArgs.ArgDictFailsIff | Remotely_ScreenCast/Program.cs:163-169 | `ProcessArgs` throws if and only if `args` has odd length and its last element is non-null, because that key's value is read past the end. The error index is then `|args|`. |
| SessionArgs.ArgDictLookup | Remotely_ScreenCast/Program.cs:163-173 | A key is present if and only if some non-null pair normalises to it. Its value is the trimmed value of the last such pair, so a later duplicate overwrites an earlier one. |
| SessionArgs.ScanLookup | Remotely_ScreenCast/Program.cs:163-173 | The same presence and last-writer-wins statement after any number of loop rounds. |
| SessionArgs.AppendPair | Remotely_ScreenCast/Program.cs:163-173 | Appending a key and a value to an even-length argument array adds or overwrites exactly that one normalised entry. |
| SessionArgs.NormalizedKeyShape | Remotely_ScreenCast/Program.cs:168 | A normalised key contains no `-` and no upper-case ASCII letter. |
| SessionArgs.ParseAppMode | Remotely_ScreenCast/Program.cs:44 | `Enum.Parse` yields the member whose name is exactly the string. It fails if and only if no member has that name. |
| SessionArgs.ReadLaunchParams | Remotely_ScreenCast/Program.cs:44-48 | Reading succeeds if and only if all five keys are present and the mode parses. The fields are then the dictionary's values. A missing `mode` is the first error reported. |
| SessionArgs.ReadCommandLine | Remotely_ScreenCast/Program.cs:43-48 | A throw in `ProcessArgs` stops start-up with that error. A missing key or a bad mode stops it with the error `ReadLaunchParams` gives. Otherwise the result is exactly the dictionary and the parameters read from it. |
| SessionArgs.ArgDictOfPairs | Remotely_ScreenCast/Program.cs:159-178 | The words of a run of well-formed `-key value` pairs parse to exactly the map of those pairs. |
| SessionArgs.RelaunchLinePairs | Remotely_ScreenCast/Program.cs:112 | The relaunch string is the executable followed by the pairs mode, requester, serviceid, host and desktop. |
| SessionArgs.SwitchLinePairs | Remotely_ScreenCast/Program.cs:125 | The desktop-switch string is the executable followed by the pairs mode, requester, serviceid, host, desktopswitch, desktop and viewers. |
| SessionArgs.RelaunchRoundTrip | Remotely_ScreenCast/Program.cs:112 | The relaunched process reads back the same mode, requester, service id and host, with the new desktop. It has no `desktopswitch` or `viewers` key. |
| SessionArgs.SwitchRoundTrip | Remotely_ScreenCast/Program.cs:125 | The continuation process reads back the same parameters on the new desktop. It sees `desktopswitch`, and splitting its `viewers` value at `,` gives exactly the old viewer ids. |
| SessionArgs.SwitchWithoutViewersFails | Remotely_ScreenCast/Program.cs:125 | With no viewers the continuation's `ProcessArgs` throws at index 13. |
| ScreenCast.SameDesktopIgnoresCase | Remotely_ScreenCast/Program.cs:57 | Two names are the same desktop if and only if they have equal length and agree letter by letter up to ASCII case. `Default` and `default` are one desktop; `Default` and `Winlogon` are two. |
| ScreenCast.StartupDecision | Remotely_ScreenCast/Program.cs:43-82 | Start-up aborts if and only if the command line does not read back, or the desktop matches and `desktopswitch` is given without `viewers`. Every other outcome carries the parameters read. A resume casts to the `,`-pieces of `viewers`. |
| ScreenCast.TimerShutsDown | Remotely_ScreenCast/Program.cs:145 | The timer shuts the process down if and only if no viewer id is present. |
| ScreenCast.AbortsOnBadCommandLine | Remotely_ScreenCast/Program.cs:43-48 | A command line that does not read back ends start-up with that same error. |
| ScreenCast.MissingKeyAborts | Remotely_ScreenCast/Program.cs:44-48 | A missing required key ends start-up before any desktop comparison, launch or notice. |
| ScreenCast.RelaunchIff | Remotely_ScreenCast/Program.cs:56-61 | Start-up relaunches if and only if the arguments read back and the live desktop differs from `-desktop` ignoring case. The relaunch runs on the live desktop with the line-112 command line and the same parameters. |
| ScreenCast.AnnouncedIff | Remotely_ScreenCast/Program.cs:69-82 | The ready notice goes out if and only if the arguments read back, the desktop matches, and there is no `desktopswitch` key. |
| ScreenCast.RelaunchSettles | Remotely_ScreenCast/Program.cs:56-61 | A process relaunched onto a desktop that is still live announces itself with the original parameters instead of relaunching again. |
| ScreenCast.SwitchResumes | Remotely_ScreenCast/Program.cs:69-76 | The process started by a desktop switch resumes casting to exactly the old viewers. |
| ScreenCast.SwitchWithoutViewersAborts | Remotely_ScreenCast/Program.cs:121-131 | The process started by a switch with no viewers aborts on its own command line. |
| ScreenCast.FirstOtherDesktop | Remotely_ScreenCast/Program.cs:88-95 | The index found is the first sample whose name differs from the current desktop ignoring case. If none is found, every sample names the same desktop. |
| ScreenCast.Without | Remotely_ScreenCast/Program.cs:34 | Removing a viewer keeps exactly the other ids and keeps them distinct. |
| ScreenCast.ApplyViewerEvent | Remotely_ScreenCast/Program.cs:34 | A join adds its id and a leave removes it. The keys of `Viewers` stay distinct. |
| ScreenCast.JoinedThenLeftStillShutsDown | Remotely_ScreenCast/Program.cs:142-149 | A viewer who joined and left before the timer fires does not stop the shutdown. One who is still there does. |
| ScreenCast.LastJoinKeepsAlive | Remotely_ScreenCast/Program.cs:142-149 | After any history, a viewer who has just joined keeps the process alive when the timer fires. |
| ScreenCast.CastProcess.constructor | Remotely_ScreenCast/Program.cs:25-35 | Before `Main` runs there are no viewers, no hub calls, no launches and no pending timer. |
| ScreenCast.CastProcess.Start | Remotely_ScreenCast/Program.cs:43-84 | Start-up does what `StartupDecision` says. An abort or a relaunch exits, and a relaunch makes exactly one launch. A resume casts to the listed ids. The announcement sends exactly one ready notice to the requester. Both of the last two arm the viewer timer. |
| ScreenCast.CastProcess.SetParams | Remotely_ScreenCast/Program.cs:44-48 | The static properties hold exactly the parameters read from the command line. |
| ScreenCast.CastProcess.RelaunchOn | Remotely_ScreenCast/Program.cs:59-60 | One launch of the line-112 command line on the live desktop with the current parameters, then exit. |
| ScreenCast.CastProcess.Continue | Remotely_ScreenCast/Program.cs:69-84 | On the right desktop: a `desktopswitch` key resumes casting to the split `viewers` value, or aborts if that key is missing. Otherwise the ready notice goes out. |
| ScreenCast.CastProcess.BeginCasting | Remotely_ScreenCast/Program.cs:73-76 | Casting begins for each listed id, in order. |
| ScreenCast.CastProcess.SwitchDesktops | Remotely_ScreenCast/Program.cs:121-131 | One `SwitchDesktops` hub call, one launch of the line-125 command line carrying the current viewers on the new desktop, then exit. |
| ScreenCast.CastProcess.PollDesktops | Remotely_ScreenCast/Program.cs:86-102 | An unattended process switches to the first differing desktop sampled and nothing else. A normal process, or one that never sees another desktop, keeps running unchanged. |
| ScreenCast.CastProcess.ViewerTimerElapsed | Remotely_ScreenCast/Program.cs:138-152 | The one-shot timer exits the running process exactly when no viewer is connected as it fires. It fires once. |
| ScreenCast.CastProcess.CursorChanged | Remotely_ScreenCast/Program.cs:133-136 | Each cursor change is sent once, to the current viewer ids. |
| ScreenCast.CastProcess.OnViewerEvent | Remotely_ScreenCast/Program.cs:34 | The viewer set changes by exactly the event and stays free of duplicates. Nothing else changes. |
| ServerTrust.AtProcessStart | Remotely_Agent/Services/DeviceSocket.cs:24 | A new agent process is unverified and keeps the token on disk. |
| ServerTrust.OnConnect | Remotely_Agent/Services/DeviceSocket.cs:46-57 | A blank persisted token means first enrolment: the agent is verified and persists the fresh token. Otherwise nothing changes. The persisted token is never blank afterwards. |
| ServerTrust.OnToken | Remotely_Agent/Services/DeviceSocket.cs:309-322 | The agent is verified if and only if it already was, or the token presented equals the persisted one. It asks to uninstall if and only if it already had, or the token differs. |
| ServerTrust.OnCommand | Remotely_Agent/Services/DeviceSocket.cs:76-81 | The gate asks to uninstall if and only if the agent is unverified, and it changes nothing else. |
| ServerTrust.TokenPinned | Remotely_Agent/Services/DeviceSocket.cs:46-57 | Once a token is persisted, no sequence of events changes it. |
| ServerTrust.VerifiedSticky | Remotely_Agent/Services/DeviceSocket.cs:309-322 | No event clears the verified flag. |
| ServerTrust.UninstallSticky | Remotely_Agent/Services/DeviceSocket.cs:223-226 | No event withdraws an uninstall request. |
| ServerTrust.VerificationNeedsPersistedToken | Remotely_Agent/Services/DeviceSocket.cs:309-322 | An agent that had a token and became verified was at some point presented exactly that token. |
| ServerTrust.ImpostorNeverVerified | Remotely_Agent/Services/DeviceSocket.cs:309-322 | A server that never presents the persisted token never gets the agent verified. Any token or command it sends makes the agent ask to uninstall. |
| ServerTrust.EnrolThenEcho | Remotely_Agent/Services/DeviceSocket.cs:46-53 | On first enrolment followed by the server echoing the token, the agent is verified and stays installed. |
| ServerTrust.WrongTokenAfterRestart | Remotely_Agent/Services/DeviceSocket.cs:316-320 | After a restart a wrong token leaves the agent unverified and asking to uninstall. A wrong token right after enrolment leaves it verified, and still asking to uninstall. |
| CommandRouting.ParseMode | Remotely_Agent/Services/DeviceSocket.cs:84-150 | The lower-cased mode selects the backend of that name. It falls to `default` if and only if no backend has that name. |
| CommandRouting.ParseModeIgnoresCase | Remotely_Agent/Services/DeviceSocket.cs:84 | Modes that differ only in ASCII case select the same backend. |
| CommandRouting.Dispatch | Remotely_Agent/Services/DeviceSocket.cs:82-157 | See the breakdown below the table. |
| CommandRouting.CmdOffWindowsIsSilent | Remotely_Agent/Services/DeviceSocket.cs:118-133 | `CMD` on a host that is not Windows runs nothing and sends nothing. |
| AgentFiles.TempCandidateShape | Remotely_Agent/Services/DeviceSocket.cs:244-258 | Every candidate name starts with `Remotely_ScreenCast`, so the clean-up pattern of line 244 covers it, ends in `.exe`, and contains no space. |
| AgentFiles.CandidatesDistinct | Remotely_Agent/Services/DeviceSocket.cs:255-259 | The temp-file loop never tries the same name twice. |
| AgentFiles.ChooseTempFileName | Remotely_Agent/Services/DeviceSocket.cs:254-260 | The name chosen does not exist, is the `count`-th candidate, and every earlier candidate exists. The loop ends for any finite directory. |
| AgentFiles.FirstFilenameSegment | Remotely_Agent/Services/DeviceSocket.cs:189 | `FirstOrDefault` finds the first `;`-segment whose trimmed form starts with `filename`, or reports that there is none. |
| AgentFiles.ExtractFilename | Remotely_Agent/Services/DeviceSocket.cs:189 | A file name exists if and only if some segment starts with `filename` and the first such segment contains `=`. The name is the text after that segment's first `=`, up to the next `=`, and contains no `;`. |
| AgentFiles.ExtractFromFileResultHeader | Remotely_Agent/Services/DeviceSocket.cs:188-189 | A plain name written into an `attachment; filename=…; filename*=…` header is read back unchanged. |
| Agent.EnrolmentMessages | Remotely_Agent/Services/DeviceSocket.cs:46-57 | `Connect` sends exactly one follow-up message. It is `SetServerVerificationToken` with the fresh token if and only if the persisted token is blank. |
| Agent.FirstFreeUnique | Remotely_Agent/Services/DeviceSocket.cs:254-260 | The first free candidate is determined by the directory's contents. |
| Agent.FileSharingUrlInjective | Remotely_Agent/Services/DeviceSocket.cs:185 | A file-sharing URL starts with the host, and two ids on one host give the same URL if and only if they are equal. |
| Agent.HeaderNamesAt | Remotely_Agent/Services/DeviceSocket.cs:189 | The i-th name the transfer loop reads is what line 189 extracts from the i-th header. |
| Agent.DeviceSocket.constructor | Remotely_Agent/Services/DeviceSocket.cs:23-27 | A new agent process has the trust state `AtProcessStart`, no timer, no timers created, no update checks and empty logs. |
| Agent.DeviceSocket.Connect | Remotely_Agent/Services/DeviceSocket.cs:29-66 | See the breakdown below the table. |
| Agent.DeviceSocket.Enrol | Remotely_Agent/Services/DeviceSocket.cs:46-57 | Trust moves as `OnConnect` says. Exactly the enrolment message goes out. One update check follows if and only if the persisted token was blank. |
| Agent.DeviceSocket.RestartHeartbeat | Remotely_Agent/Services/DeviceSocket.cs:59-65 | The old timer, if any, is stopped and retired. A new running 300000 ms timer replaces it. |
| Agent.DeviceSocket.HeartbeatElapsed | Remotely_Agent/Services/DeviceSocket.cs:160-163 | Each tick sends one `DeviceHeartbeat`. |
| Agent.DeviceSocket.HubConnectionClosed | Remotely_Agent/Services/DeviceSocket.cs:165-169 | The wait before reconnecting is between 5000 and 29999 ms and is recorded. Then `Connect` runs, with its full effect: trust, messages, update check and heartbeat as `Connect` states them, and every other log unchanged. |
| Agent.DeviceSocket.ExecuteCommand | Remotely_Agent/Services/DeviceSocket.cs:74-158 | An unverified agent asks to uninstall and sends, uploads and runs nothing. A verified one does exactly what `Dispatch` says. |
| Agent.DeviceSocket.OnServerVerificationToken | Remotely_Agent/Services/DeviceSocket.cs:309-322 | The trust state moves as `OnToken` says. An update check follows if and only if the token matched. |
| Agent.DeviceSocket.OnUninstallClient | Remotely_Agent/Services/DeviceSocket.cs:223-226 | The agent asks to uninstall, with no gate. |
| Agent.DeviceSocket.OnTransferFiles | Remotely_Agent/Services/DeviceSocket.cs:177-199 | See the breakdown below the table. |
| Agent.DeviceSocket.DownloadFiles | Remotely_Agent/Services/DeviceSocket.cs:181-194 | The loop downloads one file per id, in order, and saves each under its header's name. It stops after the first header without a name, having downloaded that file too. |
| Agent.DeviceSocket.OnDeployScript | Remotely_Agent/Services/DeviceSocket.cs:200-222 | The script is downloaded first. A header without a file name stops the handler with nothing run. Otherwise the script passes through the gate and `Dispatch`, with its context id and requester. |
| Agent.DeviceSocket.OnRemoteControl | Remotely_Agent/Services/DeviceSocket.cs:228-303 | See the breakdown below the table. |
| LaunchRoundTrip.AgentLineIsRelaunchLine | Remotely_Agent/Services/DeviceSocket.cs:282 | The agent's launch line is the screen caster's own relaunch line for unattended mode on `default`. |
| LaunchRoundTrip.RemoteControlRoundTrip | Remotely_Agent/Services/DeviceSocket.cs:282 | The screen-cast process started by the agent reads back unattended mode, the given requester, service id and host, and the `default` desktop. It has no `desktopswitch` key. |
| LaunchRoundTrip.RemoteControlStartup | Remotely_Agent/Services/DeviceSocket.cs:282 | That process announces itself if the live desktop is `default` ignoring case. Otherwise it relaunches onto the live desktop with the same parameters. |
| LaunchRoundTrip.ChosenPathIsOneWord | Remotely_Agent/Services/DeviceSocket.cs:255-258 | The chosen temp path contains no space when the temp directory has none, so it stays one word of the command line. |
| Text.Trim | Remotely_ScreenCast/Program.cs:168 | The result neither starts nor ends with white space, and a string without white space is unchanged. |
| Text.TrimIsSlice | Remotely_ScreenCast/Program.cs:168 | The result is a slice of the input with only white space before and after it. |
| Text.ToLower | Remotely_ScreenCast/Program.cs:168 | Each character is lower-cased in place, and the length is kept. |
| Text.RemoveAll | Remotely_ScreenCast/Program.cs:168 | `Replace("-", "")` leaves no `-`, and it leaves a string without `-` unchanged. |
| Text.RemoveAllCounts | Remotely_ScreenCast/Program.cs:168 | Every other character is kept exactly as often as the input has it. |
| Text.RemoveAllConcat | Remotely_ScreenCast/Program.cs:168 | Removing from a concatenation removes from each part, so the kept characters stay in order. |
| Text.SplitJoin | Remotely_ScreenCast/Program.cs:72 | Splitting a `,`-join of pieces without `,` gives back the pieces. |
| Text.JoinSplit | Remotely_ScreenCast/Program.cs:72 | Joining the pieces of a split gives back the string. |
| Text.TokenizeJoin | Remotely_ScreenCast/Program.cs:112 | The words of a space-joined list of non-empty, space-free words are that list. |
| Text.ParseNatToString | Remotely_Agent/Services/DeviceSocket.cs:258 | The decimal form of the counter reads back as the same number. |
| Text.NatToStringInjective | Remotely_Agent/Services/DeviceSocket.cs:258 | Different counters have different decimal forms. |

What the longer rows state:

- **CommandRouting.Dispatch.**
  - A backend runs if and only if the mode names one that this operating system supports. Otherwise nothing is sent.
  - A throw gives one error notice to the sender.
  - A result of at most 400000 bytes goes inline. A larger one is posted to `/API/Commands/{type}`, and no hub message carries it.
  - After the post comes the `…ViaAjax` notice (none for Bash), or an error notice if the post fails.
- **Agent.DeviceSocket.Connect.**
  - The trust state moves as `OnConnect` says.
  - `DeviceCameOnline` goes out, then the enrolment message. A blank token also makes one update check.
  - A new 300000 ms heartbeat replaces the old timer, which is stopped.
  - Nothing else changes.
- **Agent.DeviceSocket.OnTransferFiles.** Let k be the index of the first header without a file name, or the number of headers if there is none.
  - `TransferCompleted` is sent if and only if k is the number of headers. No other message goes out.
  - The saved names are the names of the first k headers, in order.
  - The downloads are the file-sharing URLs of the first k ids, in order. If a header failed, the download of its own file, the (k+1)-th, comes last.
- **Agent.DeviceSocket.OnRemoteControl.**
  - An unverified agent asks to uninstall.
  - Off Windows, only the Windows-only notice goes out.
  - Otherwise the first free temp name is chosen. If extraction fails, the failure notice goes out.
  - If extraction succeeds, the starting notice goes out and the line-282 command runs on `default`. If the launch fails, the failure notice follows.

## Left out

- I/O and other runtimes are not modelled. This covers SignalR, HTTP, file streams, the Win32 desktop and process calls, `Console.Read`, `Thread.Sleep`, timers and threads. The hub, the HTTP responses, the directory listing, the live desktop name and the outcome of each call are parameters. Timers are events the caller fires.
- Concurrency is not modelled. Handlers run one at a time. The `async void` interleavings of `Connect` and the hub callbacks are not captured.
- Failures of `HubConnection.StartAsync` and `InvokeAsync` are not modelled: every hub call is taken to succeed. Exceptions from `Logger`, `Updater.CheckForCoreUpdates`, `Uninstaller.UninstallClient` and `Device.Create` are left out too. Those classes are not part of this model. Their calls appear as the `uninstalled` flag and the `updateChecks` counter.
- The `CtrlAltDel` handler is not modelled: it is a single Win32 call (`SendSAS`).
- `Program.IsDebug` and its `Process.Start` branch (line 278) are not modelled. Only the release path of line 282 is, and `Program` of the agent is not part of this model.
- The commented-out Linux launch (lines 290-296) is left out.
- The backends' `WriteInput` and JSON serialization are inputs: the result and its serialized size in bytes are given.
- The `try/catch` around start-up in `Main` is modelled as `Aborted` with the error. The logging is not modelled.
- `Text.Trim`, `Text.ToLower`: white space and case are ASCII only, with no culture rules. .NET also trims and lower-cases other Unicode characters.
- `SessionArgs.ParseAppMode`: only the two member names `Normal` and `Unattended` are accepted. `Enum.Parse` also accepts numeric strings, comma lists and surrounding white space.
- `SessionArgs.CommandLineArgs`: the command line is split at spaces, with empty words dropped. Windows quoting rules are not modelled. So the round-trip lemmas require an executable path and values without white space.
- `ScreenCast.CastProcess.SwitchDesktops`: the viewer ids are passed in the order the model keeps them. `ConcurrentDictionary.Keys` has no specified order.
- `ScreenCast.CastProcess.BeginCasting`: this records the viewer ids cast to. It does not model what `ScreenCaster.BeginScreenCasting` does, including its effect on `Viewers`; that code is not part of this model.
- `Agent.DeviceSocket.OnTransferFiles`: this records saved files by name only. The shared-files directory is not modelled, nor is `Path.Combine` with a name that is rooted or holds `..`.
- `Agent.DeviceSocket.OnRemoteControl`: the clean-up of old `Remotely_ScreenCast*` files is not modelled. Which deletions succeed is given as the set of names left in the temp directory.
- `Agent.DeviceSocket.OnRemoteControl`: the agent re-throws after the failure notice, and that is not modelled.
- `Agent.DeviceSocket.HubConnectionClosed`: the random delay is any value in range. The `Random` generator is not modelled.
- The `Guid.NewGuid()` token is a non-blank input string.
- `null` strings are modelled only for the elements of `args`, which `ProcessArgs` tests. `args` itself and other strings are never null.

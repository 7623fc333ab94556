/**
 * The hand-off between the two programs: the agent starts the screen caster
 * with the command line of Remotely_Agent/Services/DeviceSocket.cs:282,
 * and the screen caster reads it with `ProcessArgs` and `Main`
 * (Remotely_ScreenCast/Program.cs:43-82).
 */
module LaunchRoundTrip {
  import opened Text
  import opened SessionArgs
  import AgentFiles
  import Agent
  import ScreenCast

  /** The parameters the agent means to pass: unattended mode on the `default` desktop. */
  function AgentParams(requesterId: string, serviceId: string, host: string): LaunchParams {
    LaunchParams(Unattended, requesterId, host, "default", serviceId)
  }

  /** The agent's command line has the shape of the screen caster's own relaunch line, on `default`. */
  lemma AgentLineIsRelaunchLine(filePath: string, requesterId: string, serviceId: string, host: string)
    ensures Agent.RemoteControlCommandLine(filePath, requesterId, serviceId, host)
            == RelaunchCommandLine(filePath, AgentParams(requesterId, serviceId, host), "default")
  {
  }

  /**
   * The screen caster started by DeviceSocket.cs:282 reads back exactly what
   * the agent meant: unattended mode, the requester, service id and host it
   * was given, and the `default` desktop; it is not a desktop switch.
   */
  lemma RemoteControlRoundTrip(filePath: string, requesterId: string, serviceId: string, host: string)
    requires filePath != [] && ' ' !in filePath
    requires IsPlainValue(requesterId) && IsPlainValue(serviceId) && IsPlainValue(host)
    ensures var r := ReadCommandLine(CommandLineArgs(Agent.RemoteControlCommandLine(filePath, requesterId, serviceId, host)));
            r.Success? && r.value.0 == AgentParams(requesterId, serviceId, host)
            && r.value.1["desktop"] == "default" && r.value.1["mode"] == "Unattended"
            && "desktopswitch" !in r.value.1
  {
    AgentLineIsRelaunchLine(filePath, requesterId, serviceId, host);
    RelaunchRoundTrip(filePath, AgentParams(requesterId, serviceId, host), "default");
  }

  /**
   * Started on a desktop whose name is `default` ignoring case, that screen
   * caster announces itself to the requester; on any other desktop it
   * relaunches itself there with the same parameters.
   */
  lemma RemoteControlStartup(filePath: string, requesterId: string, serviceId: string, host: string,
                             liveDesktop: string)
    requires filePath != [] && ' ' !in filePath
    requires IsPlainValue(requesterId) && IsPlainValue(serviceId) && IsPlainValue(host)
    ensures var s := ScreenCast.StartupDecision(filePath,
                       CommandLineArgs(Agent.RemoteControlCommandLine(filePath, requesterId, serviceId, host)), liveDesktop);
            (ScreenCast.SameDesktop(liveDesktop, "default") ==> s == ScreenCast.Announced(AgentParams(requesterId, serviceId, host)))
            && (!ScreenCast.SameDesktop(liveDesktop, "default") ==>
                  s.Relaunched? && s.params == AgentParams(requesterId, serviceId, host) && s.launch.desktop == liveDesktop)
  {
    RemoteControlRoundTrip(filePath, requesterId, serviceId, host);
  }

  /** The path the agent chooses in a temp directory without spaces passes as one word. */
  lemma ChosenPathIsOneWord(tempDir: string, existing: set<string>, fileName: string)
    requires ' ' !in tempDir && Agent.FirstFreeCandidate(existing, fileName)
    ensures tempDir + fileName != [] && ' ' !in tempDir + fileName
  {
    var count: nat :| fileName == AgentFiles.TempCandidate(count)
                      && forall j :: 0 <= j < count ==> AgentFiles.TempCandidate(j) in existing;
    AgentFiles.TempCandidateShape(count);
    assert AgentFiles.TempCandidate(count) != [];
  }
}

/**
 * The agent's control channel (Remotely_Agent/Services/DeviceSocket.cs):
 * the static class `DeviceSocket` as an object whose fields are its static
 * state (`IsServerVerified`, the persisted connection info, the heartbeat
 * timer) together with logs of what it sent, uploaded, downloaded, saved
 * and launched. Each hub handler is a method; the hub, HTTP, the file
 * system, the shell backends and the OS are inputs to the methods.
 */
module Agent {
  import opened Wrappers
  import opened Text
  import opened AgentWire
  import ServerTrust
  import opened CommandRouting
  import opened AgentFiles

  /** Line 63: the heartbeat period in milliseconds. */
  const HeartbeatIntervalMs: nat := 300000

  /** Line 167: `new Random().Next(5000, 30000)`, lower bound inclusive, upper exclusive. */
  predicate ReconnectDelayInRange(ms: int) {
    5000 <= ms < 30000
  }

  /** A `System.Timers.Timer` the agent created: its number, its period and whether it is running. */
  datatype Timer = Timer(serial: nat, intervalMs: nat, running: bool)

  const WindowsOnlyNotice := "Remote control is only supported on Windows at this time."
  const StartingNotice := "Starting remote control..."
  const RemoteControlFailedNotice := "Remote control failed to start on target device."

  /** What `Connect` sends after `DeviceCameOnline`, for the persisted token it finds. */
  function EnrolmentMessages(persistedToken: string, freshToken: string): (ms: seq<HubMessage>)
    ensures |ms| == 1
    ensures IsBlank(persistedToken) <==> ms[0].SetServerVerificationToken?
    ensures ms[0].SetServerVerificationToken? ==> ms[0].token == freshToken
  {
    if IsBlank(persistedToken) then [SetServerVerificationToken(freshToken)] else [SendServerVerificationToken]
  }

  const FileSharingRoute := "/API/FileSharing/"

  /** The `url` of lines 185 and 209: the host's file-sharing route for one id. */
  function FileSharingUrl(host: string, fileId: string): string {
    host + FileSharingRoute + fileId
  }

  /** The URL starts with the host, and distinct ids on one host are fetched from distinct URLs. */
  lemma FileSharingUrlInjective(host: string, a: string, b: string)
    ensures host <= FileSharingUrl(host, a)
    ensures FileSharingUrl(host, a) == FileSharingUrl(host, b) <==> a == b
  {
    var url, url' := FileSharingUrl(host, a), FileSharingUrl(host, b);
    assert url[..|host|] == host;
    if url == url' {
      assert a == url[|host| + |FileSharingRoute|..];
      assert b == url'[|host| + |FileSharingRoute|..];
    }
  }

  /** The URLs of lines 185 for the ids in turn. */
  function FileSharingUrls(host: string, fileIds: seq<string>): (urls: seq<string>)
    ensures |urls| == |fileIds|
    ensures forall i :: 0 <= i < |fileIds| ==> urls[i] == FileSharingUrl(host, fileIds[i])
  {
    seq(|fileIds|, i requires 0 <= i < |fileIds| => FileSharingUrl(host, fileIds[i]))
  }

  lemma UrlsSnoc(host: string, fileIds: seq<string>, i: nat)
    requires i < |fileIds|
    ensures FileSharingUrls(host, fileIds[..i + 1]) == FileSharingUrls(host, fileIds[..i]) + [FileSharingUrl(host, fileIds[i])]
  {
    assert fileIds[..i + 1] == fileIds[..i] + [fileIds[i]];
  }

  /** What line 189 reads from each response header, in order. */
  function HeaderNames(headers: seq<string>): (opts: seq<Option<string>>)
    ensures |opts| == |headers|
  {
    if |headers| == 0 then [] else [ExtractFilename(headers[0])] + HeaderNames(headers[1..])
  }

  lemma {:induction false} HeaderNamesAt(headers: seq<string>, j: nat)
    requires j < |headers|
    ensures HeaderNames(headers)[j] == ExtractFilename(headers[j])
  {
    if j > 0 {
      HeaderNamesAt(headers[1..], j - 1);
    }
  }

  /** The index of the first missing name from `from` on, or the number of names when none is missing. */
  function FirstMissing(opts: seq<Option<string>>, from: nat := 0): (k: nat)
    requires from <= |opts|
    ensures from <= k <= |opts|
    ensures forall j :: from <= j < k ==> opts[j].Some?
    ensures k < |opts| ==> opts[k].None?
    decreases |opts| - from
  {
    if from == |opts| || opts[from].None? then from else FirstMissing(opts, from + 1)
  }

  /** The first `n` names, in order, when none of them is missing. */
  function Present(opts: seq<Option<string>>, n: nat): (names: seq<string>)
    requires n <= |opts| && forall j :: 0 <= j < n ==> opts[j].Some?
    ensures |names| == n
    ensures forall j :: 0 <= j < n ==> opts[j] == Some(names[j])
  {
    seq(n, j requires 0 <= j < n => opts[j].value)
  }

  /** One name further, as the loop of lines 181-194 goes: it stops at the first missing one. */
  lemma PresentStep(opts: seq<Option<string>>, i: nat)
    requires i <= FirstMissing(opts) && i < |opts|
    ensures opts[i].None? ==> i == FirstMissing(opts)
    ensures opts[i].Some? ==> i < FirstMissing(opts) && Present(opts, i + 1) == Present(opts, i) + [opts[i].value]
  {
    if opts[i].Some? {
      assert i < FirstMissing(opts);
      assert Present(opts, i + 1) == Present(opts, i) + [opts[i].value];
    }
  }

  /** Line 282: the command line that starts the screen caster on the `default` desktop. */
  function RemoteControlCommandLine(filePath: string, requesterId: string, serviceId: string, host: string): string {
    filePath + " -mode Unattended -requester " + requesterId + " -serviceid " + serviceId + " -host " + host
      + " -desktop default"
  }

  /** `name` is the first candidate of lines 254-260 that is not among `existing`. */
  ghost predicate FirstFreeCandidate(existing: set<string>, name: string) {
    name !in existing
    && exists count: nat :: name == TempCandidate(count) && forall j :: 0 <= j < count ==> TempCandidate(j) in existing
  }

  /** There is only one first free candidate, so the loop's choice is determined by the directory. */
  lemma FirstFreeUnique(existing: set<string>, a: string, b: string)
    requires FirstFreeCandidate(existing, a) && FirstFreeCandidate(existing, b)
    ensures a == b
  {
    var i: nat :| a == TempCandidate(i) && forall j :: 0 <= j < i ==> TempCandidate(j) in existing;
    var k: nat :| b == TempCandidate(k) && forall j :: 0 <= j < k ==> TempCandidate(j) in existing;
  }

  function AsSeq<T>(o: Option<T>): (s: seq<T>)
    ensures o.Some? ==> s == [o.value]
    ensures o.None? ==> s == []
  {
    if o.Some? then [o.value] else []
  }

  class DeviceSocket {
    /** `ConnectionInfo.Host`. */
    const host: string
    /** `IsServerVerified`. */
    var isServerVerified: bool
    /** The persisted `ServerVerificationToken`. */
    var storedToken: string
    /** `Uninstaller.UninstallClient` has been called. */
    var uninstalled: bool
    /** Calls of `Updater.CheckForCoreUpdates`. */
    var updateChecks: nat
    var outbox: seq<HubMessage>
    var uploads: seq<Upload>
    var backendCalls: seq<BackendCall>
    /** URLs fetched from the file-sharing API. */
    var downloads: seq<string>
    /** File names written to the shared-files directory. */
    var savedFiles: seq<string>
    var launches: seq<Launch>
    /** `HeartbeatTimer`. */
    var heartbeat: Option<Timer>
    /** Heartbeat timers that were replaced, in order. */
    var retiredTimers: seq<Timer>
    var timersCreated: nat
    /** The delays waited before each reconnect. */
    var reconnectDelays: seq<int>

    /** At most one heartbeat timer runs, every wait before a reconnect is in range. */
    predicate Valid()
      reads this
    {
      (heartbeat.Some? ==> heartbeat.value.running && heartbeat.value.intervalMs == HeartbeatIntervalMs
                           && heartbeat.value.serial < timersCreated)
      && (forall t :: t in retiredTimers ==> !t.running)
      && (forall d :: d in reconnectDelays ==> ReconnectDelayInRange(d))
    }

    /** The trust state this object holds, as the pure model states it. */
    function Trust(): ServerTrust.Trust
      reads this
    {
      ServerTrust.Trust(isServerVerified, storedToken, uninstalled)
    }

    /** The agent process at start-up, with the token it finds on disk. */
    constructor (host: string, persistedToken: string)
      ensures Valid() && this.host == host && Trust() == ServerTrust.AtProcessStart(persistedToken)
      ensures outbox == [] && uploads == [] && backendCalls == [] && downloads == [] && savedFiles == []
      ensures launches == [] && heartbeat.None? && retiredTimers == [] && reconnectDelays == []
      ensures updateChecks == 0 && timersCreated == 0
    {
      this.host := host;
      isServerVerified, storedToken, uninstalled := false, persistedToken, false;
      updateChecks := 0;
      outbox, uploads, backendCalls, downloads, savedFiles, launches := [], [], [], [], [], [];
      heartbeat, retiredTimers, timersCreated, reconnectDelays := None, [], 0, [];
    }

    /**
     * Lines 29-66 once the hub connection is up: announce the device, enrol
     * with a fresh token or ask for the server's, and replace the heartbeat
     * timer with a new 300000 ms one.
     */
    method Connect(device: DeviceSnapshot, freshToken: string)
      requires Valid() && !IsBlank(freshToken)
      modifies this
      ensures Valid() && Trust() == ServerTrust.OnConnect(old(Trust()), freshToken)
      ensures outbox == old(outbox) + [DeviceCameOnline(device)] + EnrolmentMessages(old(storedToken), freshToken)
      // the token sent to the server is the one persisted
      ensures IsBlank(old(storedToken)) ==> outbox[|outbox| - 1] == SetServerVerificationToken(storedToken)
      ensures updateChecks == old(updateChecks) + (if IsBlank(old(storedToken)) then 1 else 0)
      ensures heartbeat == Some(Timer(old(timersCreated), HeartbeatIntervalMs, true))
      ensures timersCreated == old(timersCreated) + 1
      ensures retiredTimers == old(retiredTimers) + (if old(heartbeat).Some? then [old(heartbeat).value.(running := false)] else [])
      ensures uploads == old(uploads) && backendCalls == old(backendCalls) && downloads == old(downloads)
      ensures savedFiles == old(savedFiles) && launches == old(launches) && reconnectDelays == old(reconnectDelays)
    {
      outbox := outbox + [DeviceCameOnline(device)];
      Enrol(freshToken);
      RestartHeartbeat();
    }

    /** Lines 46-57: enrol with a fresh token, or ask the server for its copy. */
    method Enrol(freshToken: string)
      requires !IsBlank(freshToken)
      modifies `isServerVerified, `storedToken, `outbox, `updateChecks
      ensures Trust() == ServerTrust.OnConnect(old(Trust()), freshToken)
      ensures outbox == old(outbox) + EnrolmentMessages(old(storedToken), freshToken)
      ensures updateChecks == old(updateChecks) + (if IsBlank(old(storedToken)) then 1 else 0)
    {
      if IsBlank(storedToken) {
        isServerVerified := true;
        storedToken := freshToken;
        outbox := outbox + [SetServerVerificationToken(storedToken)];
        updateChecks := updateChecks + 1;
      } else {
        outbox := outbox + [SendServerVerificationToken];
      }
    }

    /** Lines 59-65: stop the old heartbeat timer and start a new one. */
    method RestartHeartbeat()
      requires Valid()
      modifies `heartbeat, `retiredTimers, `timersCreated
      ensures Valid()
      ensures heartbeat == Some(Timer(old(timersCreated), HeartbeatIntervalMs, true))
      ensures timersCreated == old(timersCreated) + 1
      ensures retiredTimers == old(retiredTimers) + (if old(heartbeat).Some? then [old(heartbeat).value.(running := false)] else [])
    {
      if heartbeat.Some? {
        retiredTimers := retiredTimers + [heartbeat.value.(running := false)];
      }
      heartbeat := Some(Timer(timersCreated, HeartbeatIntervalMs, true));
      timersCreated := timersCreated + 1;
    }

    /** Lines 160-163 and 68-72: the running heartbeat timer fires and a heartbeat goes out. */
    method HeartbeatElapsed(device: DeviceSnapshot)
      requires Valid() && heartbeat.Some?
      modifies `outbox
      ensures Valid() && outbox == old(outbox) + [DeviceHeartbeat(device)]
    {
      outbox := outbox + [DeviceHeartbeat(device)];
    }

    /** Lines 165-169: wait a random 5000-29999 ms, then connect again. */
    method HubConnectionClosed(device: DeviceSnapshot, freshToken: string) returns (delayMs: int)
      requires Valid() && !IsBlank(freshToken)
      modifies this
      ensures Valid() && ReconnectDelayInRange(delayMs)
      ensures reconnectDelays == old(reconnectDelays) + [delayMs]
      ensures Trust() == ServerTrust.OnConnect(old(Trust()), freshToken)
      ensures outbox == old(outbox) + [DeviceCameOnline(device)] + EnrolmentMessages(old(storedToken), freshToken)
      ensures updateChecks == old(updateChecks) + (if IsBlank(old(storedToken)) then 1 else 0)
      ensures heartbeat == Some(Timer(old(timersCreated), HeartbeatIntervalMs, true))
      ensures timersCreated == old(timersCreated) + 1
      ensures retiredTimers == old(retiredTimers) + (if old(heartbeat).Some? then [old(heartbeat).value.(running := false)] else [])
      ensures uploads == old(uploads) && backendCalls == old(backendCalls) && downloads == old(downloads)
      ensures savedFiles == old(savedFiles) && launches == old(launches)
    {
      assert ReconnectDelayInRange(5000);
      delayMs :| ReconnectDelayInRange(delayMs);
      reconnectDelays := reconnectDelays + [delayMs];
      Connect(device, freshToken);
    }

    /**
     * Lines 74-158: an unverified agent uninstalls itself and does nothing
     * else; a verified one dispatches the command. `reply` is what the
     * backend does if it is called and `uploadOk` whether an upload
     * completes.
     */
    method ExecuteCommand(os: HostOS, mode: string, command: string, commandId: string, senderId: string,
                          reply: Reply, uploadOk: bool)
      requires Valid()
      modifies this
      ensures Valid() && Trust() == ServerTrust.OnCommand(old(Trust()))
      ensures !old(isServerVerified) ==>
                outbox == old(outbox) && uploads == old(uploads) && backendCalls == old(backendCalls)
      ensures old(isServerVerified) ==>
                var d := Dispatch(host, os, mode, command, commandId, senderId, reply, uploadOk);
                backendCalls == old(backendCalls) + AsSeq(d.invoked)
                && uploads == old(uploads) + d.uploads && outbox == old(outbox) + d.messages
      ensures downloads == old(downloads) && savedFiles == old(savedFiles) && launches == old(launches)
      ensures heartbeat == old(heartbeat) && retiredTimers == old(retiredTimers)
      ensures reconnectDelays == old(reconnectDelays) && updateChecks == old(updateChecks) && timersCreated == old(timersCreated)
    {
      if !isServerVerified {
        uninstalled := true;
        return;
      }
      var d := Dispatch(host, os, mode, command, commandId, senderId, reply, uploadOk);
      backendCalls := backendCalls + AsSeq(d.invoked);
      uploads := uploads + d.uploads;
      outbox := outbox + d.messages;
    }

    /** Lines 309-322: the server's token either verifies it or makes the agent uninstall itself. */
    method OnServerVerificationToken(verificationToken: string)
      requires Valid()
      modifies this
      ensures Valid() && Trust() == ServerTrust.OnToken(old(Trust()), verificationToken)
      ensures updateChecks == old(updateChecks) + (if verificationToken == old(storedToken) then 1 else 0)
      ensures outbox == old(outbox) && uploads == old(uploads) && backendCalls == old(backendCalls)
      ensures downloads == old(downloads) && savedFiles == old(savedFiles) && launches == old(launches)
      ensures heartbeat == old(heartbeat) && retiredTimers == old(retiredTimers)
      ensures reconnectDelays == old(reconnectDelays) && timersCreated == old(timersCreated)
    {
      if verificationToken == storedToken {
        isServerVerified := true;
        updateChecks := updateChecks + 1;
      } else {
        uninstalled := true;
      }
    }

    /** Lines 223-226. */
    method OnUninstallClient()
      requires Valid()
      modifies `uninstalled
      ensures Valid() && Trust() == ServerTrust.Step(old(Trust()), ServerTrust.UninstallRequested)
    {
      uninstalled := true;
    }

    /**
     * Lines 177-199: download each file in turn and save it under the name
     * its `Content-Disposition` header gives (`headers[i]` for `fileIds[i]`),
     * then report the transfer complete. A header without a usable file
     * name throws, which ends the handler before the report. The handler has
     * no verification gate.
     */
    method OnTransferFiles(transferId: string, fileIds: seq<string>, requesterId: string, headers: seq<string>)
      returns (completed: bool)
      requires Valid() && |headers| == |fileIds|
      modifies `downloads, `savedFiles, `outbox
      ensures Valid()
      ensures var opts := HeaderNames(headers);
              var k := FirstMissing(opts);
              (completed <==> k == |headers|)
              && savedFiles == old(savedFiles) + Present(opts, k)
              && downloads == old(downloads) + FileSharingUrls(host, fileIds[..if completed then k else k + 1])
      ensures outbox == old(outbox) + (if completed then [TransferCompleted(transferId, requesterId)] else [])
    {
      completed := DownloadFiles(fileIds, headers);
      if completed {
        outbox := outbox + [TransferCompleted(transferId, requesterId)];
      }
    }

    /**
     * Lines 181-194: the loop of `OnTransferFiles`, up to the first header
     * without a file name. `opts[i]` is what line 189 reads from `headers[i]`
     * (`HeaderNamesAt`).
     */
    method DownloadFiles(fileIds: seq<string>, headers: seq<string>) returns (completed: bool)
      requires |headers| == |fileIds|
      modifies `downloads, `savedFiles
      ensures var opts := HeaderNames(headers);
              var k := FirstMissing(opts);
              (completed <==> k == |headers|)
              && savedFiles == old(savedFiles) + Present(opts, k)
              && downloads == old(downloads) + FileSharingUrls(host, fileIds[..if completed then k else k + 1])
    {
      var opts := HeaderNames(headers);
      ghost var k := FirstMissing(opts);
      var i := 0;
      while i < |fileIds|
        invariant 0 <= i <= k
        invariant downloads == old(downloads) + FileSharingUrls(host, fileIds[..i])
        invariant savedFiles == old(savedFiles) + Present(opts, i)
      {
        UrlsSnoc(host, fileIds, i);
        downloads := downloads + [FileSharingUrl(host, fileIds[i])];
        var filename := opts[i];
        PresentStep(opts, i);
        if filename.None? {
          return false;
        }
        savedFiles := savedFiles + [filename.value];
        i := i + 1;
      }
      return true;
    }

    /**
     * Lines 200-222: download the script, take its file name from the
     * header (throwing if there is none), then run it through
     * `ExecuteCommand`, gate included.
     */
    method OnDeployScript(os: HostOS, mode: string, fileId: string, commandContextId: string, requesterId: string,
                          contentDisposition: string, script: string, reply: Reply, uploadOk: bool)
      requires Valid()
      modifies this
      ensures Valid() && downloads == old(downloads) + [FileSharingUrl(host, fileId)]
      ensures ExtractFilename(contentDisposition).None? ==>
                Trust() == old(Trust()) && outbox == old(outbox) && backendCalls == old(backendCalls)
                && uploads == old(uploads)
      ensures ExtractFilename(contentDisposition).Some? ==> Trust() == ServerTrust.OnCommand(old(Trust()))
      ensures ExtractFilename(contentDisposition).Some? && !old(isServerVerified) ==>
                outbox == old(outbox) && uploads == old(uploads) && backendCalls == old(backendCalls)
      ensures ExtractFilename(contentDisposition).Some? && old(isServerVerified) ==>
                var d := Dispatch(host, os, mode, script, commandContextId, requesterId, reply, uploadOk);
                backendCalls == old(backendCalls) + AsSeq(d.invoked)
                && uploads == old(uploads) + d.uploads && outbox == old(outbox) + d.messages
      ensures savedFiles == old(savedFiles) && launches == old(launches)
      ensures heartbeat == old(heartbeat) && retiredTimers == old(retiredTimers)
      ensures reconnectDelays == old(reconnectDelays) && updateChecks == old(updateChecks) && timersCreated == old(timersCreated)
    {
      downloads := downloads + [FileSharingUrl(host, fileId)];
      var filename := ExtractFilename(contentDisposition);
      if filename.None? {
        return;
      }
      ExecuteCommand(os, mode, script, commandContextId, requesterId, reply, uploadOk);
    }

    /**
     * Lines 228-303 outside debug builds. `tempDir` is `Path.GetTempPath()`
     * (it ends with a separator), `existing` the names left in it after the
     * clean-up, `extractOk` whether writing the executable succeeds and
     * `launchOk` what `OpenInteractiveProcess` returns. The result is the
     * file name chosen, or "" when none was.
     */
    method OnRemoteControl(os: HostOS, requesterId: string, serviceId: string, tempDir: string,
                           existing: set<string>, extractOk: bool, launchOk: bool)
      returns (fileName: string)
      requires Valid()
      modifies this
      ensures Valid() && Trust() == ServerTrust.OnCommand(old(Trust()))
      ensures !old(isServerVerified) ==> outbox == old(outbox) && launches == old(launches) && fileName == ""
      ensures old(isServerVerified) && os != Windows ==>
                outbox == old(outbox) + [DisplayConsoleMessage(WindowsOnlyNotice, requesterId)]
                && launches == old(launches) && fileName == ""
      ensures old(isServerVerified) && os == Windows ==> FirstFreeCandidate(existing, fileName)
      ensures old(isServerVerified) && os == Windows && !extractOk ==>
                outbox == old(outbox) + [DisplayConsoleMessage(RemoteControlFailedNotice, requesterId)]
                && launches == old(launches)
      ensures old(isServerVerified) && os == Windows && extractOk ==>
                launches == old(launches)
                            + [Launch(RemoteControlCommandLine(tempDir + fileName, requesterId, serviceId, host), "default")]
                && outbox == old(outbox) + [DisplayConsoleMessage(StartingNotice, requesterId)]
                             + (if launchOk then [] else [DisplayConsoleMessage(RemoteControlFailedNotice, requesterId)])
      ensures uploads == old(uploads) && backendCalls == old(backendCalls) && downloads == old(downloads)
      ensures savedFiles == old(savedFiles) && heartbeat == old(heartbeat) && retiredTimers == old(retiredTimers)
      ensures reconnectDelays == old(reconnectDelays) && updateChecks == old(updateChecks) && timersCreated == old(timersCreated)
    {
      fileName := "";
      if !isServerVerified {
        uninstalled := true;
        return;
      }
      if os != Windows {
        outbox := outbox + [DisplayConsoleMessage(WindowsOnlyNotice, requesterId)];
        return;
      }
      var count;
      fileName, count := ChooseTempFileName(existing);
      var filePath := tempDir + fileName;
      if !extractOk {
        outbox := outbox + [DisplayConsoleMessage(RemoteControlFailedNotice, requesterId)];
        return;
      }
      outbox := outbox + [DisplayConsoleMessage(StartingNotice, requesterId)];
      launches := launches + [Launch(RemoteControlCommandLine(filePath, requesterId, serviceId, host), "default")];
      if !launchOk {
        outbox := outbox + [DisplayConsoleMessage(RemoteControlFailedNotice, requesterId)];
      }
    }
  }
}

/**
 * The screen-cast process (Remotely_ScreenCast/Program.cs): what `Main`
 * decides at startup (lines 43-84), the unattended desktop poll (lines
 * 86-97), the desktop switch (lines 121-131), the cursor broadcast (lines
 * 133-136) and the one-shot viewer timer (lines 138-152). The static
 * properties of `Program` are the fields of `CastProcess`; hub calls and
 * process launches are appended to logs.
 */
module ScreenCast {
  import opened Wrappers
  import opened Text
  import opened SessionArgs

  /** Lines 57 and 91: desktop names are compared after lower-casing both. */
  predicate SameDesktop(a: string, b: string) {
    ToLower(a) == ToLower(b)
  }

  /**
   * Two names are the same desktop exactly when they have the same length
   * and agree letter by letter up to ASCII case; so `Default` and `default`
   * are one desktop and `Default` and `Winlogon` are two.
   */
  lemma SameDesktopIgnoresCase(a: string, b: string)
    ensures SameDesktop(a, b) <==> |a| == |b| && forall i :: 0 <= i < |a| ==> LowerChar(a[i]) == LowerChar(b[i])
    ensures SameDesktop("Default", "default") && !SameDesktop("Default", "Winlogon")
  {
    if |a| == |b| && forall i :: 0 <= i < |a| ==> LowerChar(a[i]) == LowerChar(b[i]) {
      assert ToLower(a) == ToLower(b);
    }
    assert ToLower("Default") == ToLower("default") by {
      assert ToLower("Default")[0] == 'd';
    }
    assert ToLower("Default")[0] != ToLower("Winlogon")[0];
  }

  /** What the process sends through its hub connection. */
  datatype HubCall =
    | NotifyRequesterUnattendedReady(requesterId: string)
    | HubSwitchDesktops
    | SendCursorChange(cursor: int, viewerIds: seq<string>)

  /** `OpenInteractiveProcess(commandLine, desktop, …)`. */
  datatype Launch = Launch(commandLine: string, desktop: string)

  /** How `Main` leaves its startup code. */
  datatype Startup =
    | Aborted(error: StartupError)
    | Relaunched(params: LaunchParams, launch: Launch)
    | Resumed(params: LaunchParams, castTo: seq<string>)
    | Announced(params: LaunchParams)

  /**
   * Lines 43-82 for the executable `exe`, arguments `args` and the live
   * desktop `liveDesktop`: a bad command line or a missing key aborts; a
   * different desktop relaunches there; a `desktopswitch` key resumes
   * casting to the listed viewers; otherwise the requester is told the
   * process is ready.
   */
  function StartupDecision(exe: string, args: seq<Arg>, liveDesktop: string): (s: Startup)
    ensures s.Aborted? <==>
              ReadCommandLine(args).Failure?
              || (SameDesktop(liveDesktop, ReadCommandLine(args).value.0.desktop)
                  && "desktopswitch" in ReadCommandLine(args).value.1 && "viewers" !in ReadCommandLine(args).value.1)
    ensures !s.Aborted? ==> s.params == ReadCommandLine(args).value.0
    ensures s.Resumed? ==> "viewers" in ReadCommandLine(args).value.1
                           && s.castTo == Split(ReadCommandLine(args).value.1["viewers"], ',')
  {
    match ReadCommandLine(args)
    case Failure(e) => Aborted(e)
    case Success((p, dict)) =>
      if !SameDesktop(liveDesktop, p.desktop) then
        Relaunched(p, Launch(RelaunchCommandLine(exe, p, liveDesktop), liveDesktop))
      else if "desktopswitch" in dict then
        if "viewers" in dict then Resumed(p, Split(dict["viewers"], ',')) else Aborted(MissingKey("viewers"))
      else Announced(p)
  }

  /** A command line that does not read back aborts startup with the same error. */
  lemma AbortsOnBadCommandLine(exe: string, args: seq<Arg>, liveDesktop: string)
    requires ReadCommandLine(args).Failure?
    ensures StartupDecision(exe, args, liveDesktop) == Aborted(ReadCommandLine(args).error)
  {
  }

  /**
   * A missing `mode`, `requester`, `host`, `desktop` or `serviceid` key stops
   * startup before it compares desktops, launches or announces anything.
   */
  lemma MissingKeyAborts(exe: string, args: seq<Arg>, liveDesktop: string)
    requires ArgDict(args).Success? && !HasLaunchKeys(ArgDict(args).value)
    ensures StartupDecision(exe, args, liveDesktop).Aborted?
  {
  }

  /**
   * Startup relaunches exactly when the command line reads back and the live
   * desktop differs from `-desktop` ignoring case; the relaunch runs on the
   * live desktop with the same mode, requester, service id and host.
   */
  lemma RelaunchIff(exe: string, args: seq<Arg>, liveDesktop: string)
    ensures var s := StartupDecision(exe, args, liveDesktop);
            s.Relaunched? <==> ReadCommandLine(args).Success?
                               && !SameDesktop(liveDesktop, ReadCommandLine(args).value.0.desktop)
    ensures var s := StartupDecision(exe, args, liveDesktop);
            s.Relaunched? ==> s.params == ReadCommandLine(args).value.0 && s.launch.desktop == liveDesktop
                              && s.launch.commandLine == RelaunchCommandLine(exe, s.params, liveDesktop)
  {
  }

  /** A ready notice goes out exactly on the right desktop without a `desktopswitch` key. */
  lemma AnnouncedIff(exe: string, args: seq<Arg>, liveDesktop: string)
    ensures var s := StartupDecision(exe, args, liveDesktop);
            s.Announced? <==> ReadCommandLine(args).Success?
                              && SameDesktop(liveDesktop, ReadCommandLine(args).value.0.desktop)
                              && "desktopswitch" !in ReadCommandLine(args).value.1
  {
  }

  /**
   * A process relaunched by line 112 onto a desktop that is still the live
   * one announces itself with the original parameters instead of relaunching
   * again.
   */
  lemma RelaunchSettles(exe: string, args: seq<Arg>, liveDesktop: string)
    requires exe != [] && ' ' !in exe && IsPlainValue(liveDesktop)
    requires StartupDecision(exe, args, liveDesktop).Relaunched?
    requires PlainParams(StartupDecision(exe, args, liveDesktop).params)
    ensures var s := StartupDecision(exe, args, liveDesktop);
            StartupDecision(exe, CommandLineArgs(s.launch.commandLine), liveDesktop)
              == Announced(s.params.(desktop := liveDesktop))
  {
    var p := StartupDecision(exe, args, liveDesktop).params;
    RelaunchRoundTrip(exe, p, liveDesktop);
  }

  /**
   * The process started by a desktop switch (line 125), once it runs on that
   * desktop, resumes casting to exactly the viewers the old process had.
   */
  lemma SwitchResumes(exe: string, p: LaunchParams, desktopName: string, viewers: seq<string>)
    requires exe != [] && ' ' !in exe && PlainParams(p) && IsPlainValue(desktopName)
    requires |viewers| >= 1 && PlainIds(viewers)
    ensures StartupDecision(exe, CommandLineArgs(SwitchCommandLine(exe, p, desktopName, viewers)), desktopName)
            == Resumed(p.(desktop := desktopName), viewers)
  {
    SwitchRoundTrip(exe, p, desktopName, viewers);
  }

  /** A desktop switch with no viewers starts a process that aborts on its own command line. */
  lemma SwitchWithoutViewersAborts(exe: string, p: LaunchParams, desktopName: string, liveDesktop: string)
    requires exe != [] && ' ' !in exe && PlainParams(p) && IsPlainValue(desktopName)
    ensures StartupDecision(exe, CommandLineArgs(SwitchCommandLine(exe, p, desktopName, [])), liveDesktop)
            == Aborted(BadArgs(MissingValue(13)))
  {
    SwitchWithoutViewersFails(exe, p, desktopName);
  }

  /** The index of the first sampled desktop name that is not `current`, ignoring case. */
  function FirstOtherDesktop(current: string, samples: seq<string>): (r: Option<nat>)
    ensures r.None? ==> forall j :: 0 <= j < |samples| ==> SameDesktop(samples[j], current)
    ensures r.Some? ==> r.value < |samples| && !SameDesktop(samples[r.value], current)
                        && forall j :: 0 <= j < r.value ==> SameDesktop(samples[j], current)
  {
    if |samples| == 0 then None
    else if !SameDesktop(samples[0], current) then Some(0)
    else match FirstOtherDesktop(current, samples[1..])
      case None => None
      case Some(k) => Some(k + 1)
  }

  /** Something that joins or leaves `Viewers` from outside this file. */
  datatype ViewerEvent = ViewerJoined(id: string) | ViewerLeft(id: string)

  predicate NoDuplicates(ids: seq<string>) {
    forall i, j :: 0 <= i < j < |ids| ==> ids[i] != ids[j]
  }

  lemma PrependDistinct(x: string, ids: seq<string>)
    ensures x !in ids && NoDuplicates(ids) ==> NoDuplicates([x] + ids)
  {
    if x !in ids && NoDuplicates(ids) {
      forall i, j | 0 <= i < j < |[x] + ids| ensures ([x] + ids)[i] != ([x] + ids)[j] {
        if i > 0 {
          assert ([x] + ids)[i] == ids[i - 1];
        }
        assert ([x] + ids)[j] == ids[j - 1];
      }
    }
  }

  /** `ids` without `id`. */
  function Without(ids: seq<string>, id: string): (r: seq<string>)
    ensures forall x :: x in r <==> x in ids && x != id
    ensures NoDuplicates(ids) ==> NoDuplicates(r)
  {
    if |ids| == 0 then []
    else if ids[0] == id then Without(ids[1..], id)
    else
      var rest := Without(ids[1..], id);
      assert NoDuplicates(ids) ==> NoDuplicates(ids[1..]) && ids[0] !in ids[1..];
      PrependDistinct(ids[0], rest);
      [ids[0]] + rest
  }

  /** The keys of `Viewers` after one event: a join adds a key once, a leave removes it. */
  function ApplyViewerEvent(ids: seq<string>, e: ViewerEvent): (r: seq<string>)
    ensures e.ViewerJoined? ==> forall x :: x in r <==> x in ids || x == e.id
    ensures e.ViewerLeft? ==> forall x :: x in r <==> x in ids && x != e.id
    ensures NoDuplicates(ids) ==> NoDuplicates(r)
  {
    match e
    case ViewerJoined(id) => if id in ids then ids else ids + [id]
    case ViewerLeft(id) => Without(ids, id)
  }

  function ViewersAfter(ids: seq<string>, events: seq<ViewerEvent>): seq<string>
    decreases |events|
  {
    if |events| == 0 then ids else ViewersAfter(ApplyViewerEvent(ids, events[0]), events[1..])
  }

  /**
   * Line 145: the timer shuts the process down when no viewer is connected
   * at the moment it fires.
   */
  predicate TimerShutsDown(ids: seq<string>)
    ensures TimerShutsDown(ids) <==> forall id :: id !in ids
  {
    assert |ids| > 0 ==> ids[0] in ids;
    |ids| == 0
  }

  /**
   * The timer looks at the count when it fires, not at whether anyone ever
   * joined: a viewer who joins and leaves before it fires does not keep the
   * process alive, and one who is still there does.
   */
  lemma {:induction false} JoinedThenLeftStillShutsDown(id: string)
    ensures TimerShutsDown(ViewersAfter([], [ViewerJoined(id), ViewerLeft(id)]))
    ensures !TimerShutsDown(ViewersAfter([], [ViewerJoined(id)]))
  {
    var one := ApplyViewerEvent([], ViewerJoined(id));
    assert one == [id];
    assert ViewersAfter(one, [ViewerLeft(id)]) == ViewersAfter(ApplyViewerEvent(one, ViewerLeft(id)), []);
    var none := ApplyViewerEvent(one, ViewerLeft(id));
    assert one[1..] == [];
    assert none == Without(one, id) == Without(one[1..], id);
    assert none == [];
    assert [ViewerJoined(id), ViewerLeft(id)][1..] == [ViewerLeft(id)];
    assert ViewersAfter(one, []) == one;
  }

  /** Whatever happened before, a viewer connected when the timer fires keeps the process alive. */
  lemma {:induction false} LastJoinKeepsAlive(ids: seq<string>, events: seq<ViewerEvent>, id: string)
    ensures !TimerShutsDown(ViewersAfter(ids, events + [ViewerJoined(id)]))
    decreases |events|
  {
    if |events| == 0 {
      assert events + [ViewerJoined(id)] == [ViewerJoined(id)];
      var after := ApplyViewerEvent(ids, ViewerJoined(id));
      assert id in after;
      assert ViewersAfter(after, []) == after;
    } else {
      assert (events + [ViewerJoined(id)])[1..] == events[1..] + [ViewerJoined(id)];
      LastJoinKeepsAlive(ApplyViewerEvent(ids, events[0]), events[1..], id);
    }
  }

  /** Line 140: the viewer timer fires once, this many milliseconds after it starts. */
  const ViewerWaitMs := 5000

  /** `Program`'s static state, with the hub calls and launches it made. */
  class CastProcess {
    /** `Assembly.GetExecutingAssembly().Location`. */
    const exe: string
    var mode: AppMode
    var requester: string
    var serviceId: string
    var host: string
    var currentDesktop: string
    /** The keys of `Viewers`. */
    var viewers: seq<string>
    /** The ids `ScreenCaster.BeginScreenCasting` was called for. */
    var castingTo: seq<string>
    var hubCalls: seq<HubCall>
    var launches: seq<Launch>
    /** The one-shot `ViewerWaitMs` viewer timer has been started and has not fired; its clock is left out. */
    var timerPending: bool
    var running: bool
    var exited: bool

    predicate Valid()
      reads this
    {
      NoDuplicates(viewers) && !(running && exited)
    }

    function Params(): LaunchParams
      reads this
    {
      LaunchParams(mode, requester, host, currentDesktop, serviceId)
    }

    /** The process before `Main` runs. */
    constructor (exe: string)
      ensures Valid() && this.exe == exe
      ensures viewers == [] && castingTo == [] && hubCalls == [] && launches == []
      ensures !timerPending && !running && !exited
    {
      this.exe := exe;
      mode := Normal;
      requester, serviceId, host, currentDesktop := "", "", "", "";
      viewers, castingTo, hubCalls, launches := [], [], [], [];
      timerPending, running, exited := false, false, false;
    }

    /**
     * Lines 43-84: read the command line, relaunch and exit on another
     * desktop, then resume casting or announce readiness and start the
     * viewer timer.
     */
    method Start(args: seq<Arg>, liveDesktop: string) returns (s: Startup)
      requires Valid() && !running && !exited && !timerPending
      requires hubCalls == [] && launches == [] && castingTo == []
      modifies this
      ensures Valid() && s == StartupDecision(exe, args, liveDesktop) && viewers == old(viewers)
      ensures s.Aborted? ==> exited && hubCalls == [] && launches == [] && castingTo == [] && !timerPending
      ensures s.Relaunched? ==> exited && hubCalls == [] && launches == [s.launch] && castingTo == [] && !timerPending
      ensures s.Resumed? ==> running && hubCalls == [] && launches == [] && castingTo == s.castTo && timerPending
      ensures s.Announced? ==> running && launches == [] && castingTo == [] && timerPending
                               && hubCalls == [NotifyRequesterUnattendedReady(s.params.requester)]
      ensures !s.Aborted? ==> Params() == s.params
    {
      var read := ReadCommandLine(args);
      if read.Failure? {
        exited := true;
        return Aborted(read.error);
      }
      var p, dict := read.value.0, read.value.1;
      SetParams(p);
      if !SameDesktop(liveDesktop, currentDesktop) {
        s := RelaunchOn(liveDesktop);
        return;
      }
      s := Continue(p, dict);
    }

    /** Lines 44-48: the static properties take the values read from the command line. */
    method SetParams(p: LaunchParams)
      modifies `mode, `requester, `host, `currentDesktop, `serviceId
      ensures Params() == p
    {
      mode, requester, host, currentDesktop, serviceId := p.mode, p.requester, p.host, p.desktop, p.serviceId;
    }

    /** Lines 59-60 and 110-119: relaunch on the live desktop and exit. */
    method RelaunchOn(liveDesktop: string) returns (s: Startup)
      modifies `launches, `exited
      ensures s == Relaunched(Params(), Launch(RelaunchCommandLine(exe, Params(), liveDesktop), liveDesktop))
      ensures launches == old(launches) + [s.launch] && exited
    {
      var launch := Launch(RelaunchCommandLine(exe, Params(), liveDesktop), liveDesktop);
      launches := launches + [launch];
      exited := true;
      return Relaunched(Params(), launch);
    }

    /** Lines 69-84, on the desktop the process was started for. */
    method Continue(p: LaunchParams, dict: map<string, string>) returns (s: Startup)
      requires Valid() && !running && !exited && !timerPending
      requires hubCalls == [] && launches == [] && castingTo == [] && Params() == p
      modifies this
      ensures Valid() && viewers == old(viewers) && launches == [] && Params() == p
      ensures s == (if "desktopswitch" !in dict then Announced(p)
                    else if "viewers" in dict then Resumed(p, Split(dict["viewers"], ','))
                    else Aborted(MissingKey("viewers")))
      ensures s.Aborted? ==> exited && hubCalls == [] && castingTo == [] && !timerPending
      ensures s.Resumed? ==> running && hubCalls == [] && castingTo == s.castTo && timerPending
      ensures s.Announced? ==> running && castingTo == [] && timerPending
                               && hubCalls == [NotifyRequesterUnattendedReady(p.requester)]
    {
      if "desktopswitch" in dict {
        if "viewers" !in dict {
          exited := true;
          return Aborted(MissingKey("viewers"));
        }
        var ids := Split(dict["viewers"], ',');
        BeginCasting(ids);
        s := Resumed(p, ids);
      } else {
        hubCalls := hubCalls + [NotifyRequesterUnattendedReady(requester)];
        s := Announced(p);
      }
      timerPending := true;
      running := true;
    }

    /** Lines 73-76: `BeginScreenCasting` for each id in turn. */
    method BeginCasting(ids: seq<string>)
      modifies `castingTo
      ensures castingTo == old(castingTo) + ids
    {
      var i := 0;
      while i < |ids|
        invariant 0 <= i <= |ids| && castingTo == old(castingTo) + ids[..i]
      {
        castingTo := castingTo + [ids[i]];
        i := i + 1;
      }
    }

    /**
     * Lines 121-131 followed by the exit at line 94: tell the hub, start the
     * continuation on the new desktop with the current viewers, and stop.
     */
    method SwitchDesktops(desktopName: string)
      requires Valid() && running
      modifies this
      ensures Valid() && exited && !running
      ensures hubCalls == old(hubCalls) + [HubSwitchDesktops]
      ensures launches == old(launches)
                          + [Launch(SwitchCommandLine(exe, Params(), desktopName, viewers), desktopName)]
      ensures viewers == old(viewers) && Params() == old(Params()) && castingTo == old(castingTo)
      ensures timerPending == old(timerPending)
    {
      hubCalls := hubCalls + [HubSwitchDesktops];
      launches := launches + [Launch(SwitchCommandLine(exe, Params(), desktopName, viewers), desktopName)];
      running, exited := false, true;
    }

    /**
     * Lines 86-102 over the desktop names the poll reads in turn: an
     * unattended process switches at the first name that differs from its
     * own desktop ignoring case; a normal process waits on the console and
     * never polls.
     */
    method PollDesktops(samples: seq<string>)
      requires Valid() && running
      modifies this
      ensures Valid() && viewers == old(viewers) && Params() == old(Params()) && castingTo == old(castingTo)
      ensures timerPending == old(timerPending)
      ensures var k := FirstOtherDesktop(currentDesktop, samples);
              if mode == Unattended && k.Some? then
                exited && !running && hubCalls == old(hubCalls) + [HubSwitchDesktops]
                && launches == old(launches)
                               + [Launch(SwitchCommandLine(exe, Params(), samples[k.value], viewers), samples[k.value])]
              else
                running && hubCalls == old(hubCalls) && launches == old(launches)
    {
      if mode == Normal {
        return;
      }
      var i := 0;
      while i < |samples|
        invariant 0 <= i <= |samples|
        invariant forall j :: 0 <= j < i ==> SameDesktop(samples[j], currentDesktop)
        invariant Valid() && running && hubCalls == old(hubCalls) && launches == old(launches)
        invariant viewers == old(viewers) && Params() == old(Params()) && castingTo == old(castingTo)
        invariant timerPending == old(timerPending)
      {
        if !SameDesktop(samples[i], currentDesktop) {
          SwitchDesktops(samples[i]);
          return;
        }
        i := i + 1;
      }
    }

    /** Lines 142-150: the one-shot timer fires once and exits if no viewer is connected. */
    method ViewerTimerElapsed()
      requires Valid()
      modifies this
      ensures Valid() && viewers == old(viewers) && hubCalls == old(hubCalls) && launches == old(launches)
      ensures castingTo == old(castingTo) && Params() == old(Params())
      ensures !timerPending
      ensures old(timerPending) && old(running) && TimerShutsDown(viewers) ==> exited && !running
      ensures !(old(timerPending) && old(running) && TimerShutsDown(viewers)) ==> running == old(running) && exited == old(exited)
    {
      if timerPending && running && |viewers| == 0 {
        running, exited := false, true;
      }
      timerPending := false;
    }

    /** Lines 133-136: every cursor change goes to the current viewer ids. */
    method CursorChanged(cursor: int)
      requires Valid() && running
      modifies this
      ensures Valid() && hubCalls == old(hubCalls) + [SendCursorChange(cursor, viewers)]
      ensures viewers == old(viewers) && launches == old(launches) && castingTo == old(castingTo)
      ensures Params() == old(Params()) && running && timerPending == old(timerPending)
    {
      hubCalls := hubCalls + [SendCursorChange(cursor, viewers)];
    }

    /** A viewer joins or leaves `Viewers`. */
    method OnViewerEvent(e: ViewerEvent)
      requires Valid()
      modifies this
      ensures Valid() && viewers == ApplyViewerEvent(old(viewers), e)
      ensures hubCalls == old(hubCalls) && launches == old(launches) && castingTo == old(castingTo)
      ensures Params() == old(Params()) && running == old(running) && exited == old(exited)
      ensures timerPending == old(timerPending)
    {
      viewers := ApplyViewerEvent(viewers, e);
    }
  }
}

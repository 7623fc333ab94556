/**
 * Trust on first use between the agent and its server
 * (Remotely_Agent/Services/DeviceSocket.cs): the static `IsServerVerified`
 * flag, the persisted `ServerVerificationToken` and whether the agent has
 * asked to uninstall itself, and how each inbound event changes them.
 */
module ServerTrust {
  import opened Text

  /** The agent's view of its server: verified flag, persisted token, uninstall requested. */
  datatype Trust = Trust(verified: bool, token: string, uninstalled: bool)

  /** A freshly started agent process: the flag is static and starts false. */
  function AtProcessStart(persistedToken: string): (t: Trust)
    ensures !t.verified && !t.uninstalled && t.token == persistedToken
  {
    Trust(false, persistedToken, false)
  }

  /** The events that read or change trust. */
  datatype Event =
    | Connected(freshToken: string)   // `Connect`; `freshToken` is what `Guid.NewGuid()` would give
    | TokenPresented(token: string)   // the `ServerVerificationToken` handler
    | CommandRequested                // the gate of `ExecuteCommand` (and `DeployScript`) and `RemoteControl`
    | UninstallRequested              // the `UninstallClient` handler

  /** A GUID string is never blank. */
  predicate WellFormed(e: Event) {
    e.Connected? ==> !IsBlank(e.freshToken)
  }

  /**
   * `Connect`: a blank persisted token means first enrolment, so the agent
   * trusts this server and persists a new token; otherwise it only asks the
   * server for its copy and changes nothing.
   */
  function OnConnect(t: Trust, freshToken: string): (r: Trust)
    requires !IsBlank(freshToken)
    ensures IsBlank(t.token) ==> r.verified && r.token == freshToken
    ensures !IsBlank(t.token) ==> r == t
    ensures !IsBlank(r.token)
    ensures r.uninstalled == t.uninstalled
  {
    if IsBlank(t.token) then t.(verified := true, token := freshToken) else t
  }

  /**
   * The `ServerVerificationToken` handler: an equal token verifies the
   * server, any other one makes the agent uninstall itself; the flag is
   * never cleared and the persisted token never changes.
   */
  function OnToken(t: Trust, presented: string): (r: Trust)
    ensures r.token == t.token
    ensures r.verified <==> t.verified || presented == t.token
    ensures r.uninstalled <==> t.uninstalled || presented != t.token
  {
    if presented == t.token then t.(verified := true) else t.(uninstalled := true)
  }

  /** The verification gate: a request reaching an unverified agent makes it uninstall itself. */
  function OnCommand(t: Trust): (r: Trust)
    ensures r.verified == t.verified && r.token == t.token
    ensures r.uninstalled <==> t.uninstalled || !t.verified
  {
    if t.verified then t else t.(uninstalled := true)
  }

  function Step(t: Trust, e: Event): Trust
    requires WellFormed(e)
  {
    match e
    case Connected(token) => OnConnect(t, token)
    case TokenPresented(p) => OnToken(t, p)
    case CommandRequested => OnCommand(t)
    case UninstallRequested => t.(uninstalled := true)
  }

  predicate AllWellFormed(es: seq<Event>) {
    forall i :: 0 <= i < |es| ==> WellFormed(es[i])
  }

  /** The state after the events `es`, in order. */
  function Run(t: Trust, es: seq<Event>): Trust
    requires AllWellFormed(es)
    decreases |es|
  {
    if |es| == 0 then t else Run(Step(t, es[0]), es[1..])
  }

  /** Once a token is persisted, no sequence of events ever changes it. */
  lemma {:induction false} TokenPinned(t: Trust, es: seq<Event>)
    requires AllWellFormed(es)
    requires !IsBlank(t.token)
    ensures Run(t, es).token == t.token
    decreases |es|
  {
    if |es| > 0 {
      TokenPinned(Step(t, es[0]), es[1..]);
    }
  }

  /** Nothing clears the verified flag: it stays true for the rest of the process. */
  lemma {:induction false} VerifiedSticky(t: Trust, es: seq<Event>)
    requires AllWellFormed(es)
    requires t.verified
    ensures Run(t, es).verified
    decreases |es|
  {
    if |es| > 0 {
      VerifiedSticky(Step(t, es[0]), es[1..]);
    }
  }

  /** Nothing withdraws an uninstall request. */
  lemma {:induction false} UninstallSticky(t: Trust, es: seq<Event>)
    requires AllWellFormed(es)
    requires t.uninstalled
    ensures Run(t, es).uninstalled
    decreases |es|
  {
    if |es| > 0 {
      UninstallSticky(Step(t, es[0]), es[1..]);
    }
  }

  /**
   * An agent holding a persisted token becomes verified only if, at some
   * point, the server presented exactly that token.
   */
  lemma {:induction false} VerificationNeedsPersistedToken(t: Trust, es: seq<Event>)
    requires AllWellFormed(es)
    requires !IsBlank(t.token) && !t.verified
    requires Run(t, es).verified
    ensures exists i :: 0 <= i < |es| && es[i] == TokenPresented(t.token)
    decreases |es|
  {
    var s := Step(t, es[0]);
    if es[0] == TokenPresented(t.token) {
    } else {
      assert !s.verified && s.token == t.token;
      VerificationNeedsPersistedToken(s, es[1..]);
      var i :| 0 <= i < |es[1..]| && es[1..][i] == TokenPresented(t.token);
      assert es[i + 1] == TokenPresented(t.token);
    }
  }

  /**
   * A server that never presents the persisted token is never trusted, and
   * the first wrong token or gated request it sends makes the agent
   * uninstall itself.
   */
  lemma {:induction false} ImpostorNeverVerified(t: Trust, es: seq<Event>)
    requires AllWellFormed(es)
    requires !IsBlank(t.token) && !t.verified
    requires forall i :: 0 <= i < |es| ==> es[i] != TokenPresented(t.token)
    ensures !Run(t, es).verified
    ensures (exists i :: 0 <= i < |es| && (es[i].TokenPresented? || es[i].CommandRequested?))
            ==> Run(t, es).uninstalled
    decreases |es|
  {
    if |es| > 0 {
      var s := Step(t, es[0]);
      assert !s.verified && s.token == t.token;
      ImpostorNeverVerified(s, es[1..]);
      if es[0].TokenPresented? || es[0].CommandRequested? {
        UninstallSticky(s, es[1..]);
      } else if exists i :: 0 <= i < |es| && (es[i].TokenPresented? || es[i].CommandRequested?) {
        var i :| 0 <= i < |es| && (es[i].TokenPresented? || es[i].CommandRequested?);
        assert es[1..][i - 1] == es[i];
      }
    }
  }

  /**
   * First enrolment followed by the server echoing the new token: the agent
   * is verified and stays installed.
   */
  lemma EnrolThenEcho(newToken: string)
    requires !IsBlank(newToken)
    ensures var t := Run(AtProcessStart(""), [Connected(newToken), TokenPresented(newToken)]);
            t.verified && !t.uninstalled && t.token == newToken
  {
    var t0 := AtProcessStart("");
    var es := [Connected(newToken), TokenPresented(newToken)];
    var t1 := Step(t0, es[0]);
    assert t1 == Trust(true, newToken, false);
    assert es[1..] == [TokenPresented(newToken)] && es[1..][1..] == [];
    assert Run(t0, es) == Run(t1, es[1..]) == Run(Step(t1, es[1]), []);
  }

  /**
   * A restarted agent whose server answers with a different token: it
   * uninstalls itself and is never verified. Within the enrolling process
   * itself the flag is already true, and a wrong token uninstalls the agent
   * without clearing it.
   */
  lemma WrongTokenAfterRestart(persisted: string, presented: string)
    requires !IsBlank(persisted) && presented != persisted
    ensures var t := Run(AtProcessStart(persisted), [Connected(persisted), TokenPresented(presented)]);
            !t.verified && t.uninstalled && t.token == persisted
    ensures var t := Run(AtProcessStart(""), [Connected(persisted), TokenPresented(presented)]);
            t.verified && t.uninstalled
  {
    var es := [Connected(persisted), TokenPresented(presented)];
    assert es[1..] == [TokenPresented(presented)] && es[1..][1..] == [];
    var r0 := AtProcessStart(persisted);
    var r1 := Step(r0, es[0]);
    assert r1 == r0;
    assert Run(r0, es) == Run(r1, es[1..]) == Run(Step(r1, es[1]), []);
    var e0 := AtProcessStart("");
    var e1 := Step(e0, es[0]);
    assert e1 == Trust(true, persisted, false);
    assert Run(e0, es) == Run(e1, es[1..]) == Run(Step(e1, es[1]), []);
  }
}

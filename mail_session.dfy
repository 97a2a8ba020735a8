/**
 * What one call of EmailService.SendEmail does on the network, as a specification.
 *
 * A session has a plan: the commands a fully successful delivery issues, in order —
 * dial, the server greeting, the STARTTLS extension query, STARTTLS when it is
 * advertised (section 4 of RFC 3207), the AUTH extension query and AUTH PLAIN when
 * credentials are configured and AUTH is advertised (RFC 4954, RFC 4616), then MAIL,
 * RCPT and DATA (sections 4.1.1.2 to 4.1.1.4 of RFC 5321), the write of the message
 * and the close of the data writer. The session runs the plan until the first command
 * the relay refuses; the deferred QUIT (section 4.1.1.10 of RFC 5321) and the close of
 * the connection then run as cleanup, and their own errors are dropped.
 */
module MailSession {
  import opened Wrappers
  import opened Strings
  import opened HostPort
  import opened MailMessage

  /** The fields of an EmailService; they are never changed after construction. */
  datatype Config = Config(host: string, port: string, username: string, appPassword: string, from: string)

  /** One step the routine takes against the network. */
  datatype Command =
    | Dial(addr: string)              // net.Dial("tcp", addr)
    | Greet(serverName: string)       // smtp.NewClient: reads the server greeting
    | Extension(name: string)         // Client.Extension: a lookup in the EHLO reply
    | StartTls(serverName: string)
    | Auth(username: string, password: string, host: string)
    | Mail(from: string)
    | Rcpt(to: string)
    | Data
    | Write(msg: string)
    | CloseData
    | Quit
    | CloseConn

  /**
   * The relay as one session sees it: the extensions its EHLO reply advertises before
   * and after the TLS upgrade, and the commands it refuses, with the error each gets.
   */
  datatype Relay = Relay(ehlo: set<string>, ehloAfterTls: set<string>, refusals: map<Command, string>)

  /** The error a command gets back; an extension lookup is answered locally and never fails. */
  function Refusal(relay: Relay, c: Command): Option<string> {
    if !c.Extension? && c in relay.refusals then Some(relay.refusals[c]) else None
  }

  predicate AllAccepted(cs: seq<Command>, relay: Relay) {
    forall i :: 0 <= i < |cs| ==> Refusal(relay, cs[i]).None?
  }

  /** The commands whose failure the routine reports (the cleanup ones are not among them). */
  predicate Reported(c: Command) {
    !c.Extension? && !c.Quit? && !c.CloseConn?
  }

  /** The errors SendEmail returns, one per step that can fail. */
  datatype MailError =
    | SenderNotConfigured
    | DialFailed(addr: string, cause: string)
    | NewClientFailed(cause: string)
    | StartTlsFailed(cause: string)
    | AuthFailed(cause: string)
    | MailFromFailed(cause: string)
    | RcptToFailed(to: string, cause: string)
    | DataStartFailed(cause: string)
    | WriteFailed(cause: string)
    | CloseFailed(cause: string)

  /** The error for a refused command: it depends only on which step failed, and on why. */
  function ErrorOf(c: Command, cause: string): (e: MailError)
    requires Reported(c)
    ensures e != SenderNotConfigured && e.cause == cause
    ensures e.DialFailed? <==> c.Dial?
    ensures e.NewClientFailed? <==> c.Greet?
    ensures e.StartTlsFailed? <==> c.StartTls?
    ensures e.AuthFailed? <==> c.Auth?
    ensures e.MailFromFailed? <==> c.Mail?
    ensures e.RcptToFailed? <==> c.Rcpt?
    ensures e.DataStartFailed? <==> c.Data?
    ensures e.WriteFailed? <==> c.Write?
    ensures e.CloseFailed? <==> c.CloseData?
    ensures e.DialFailed? ==> e.addr == c.addr
    ensures e.RcptToFailed? ==> e.to == c.to
  {
    match c
    case Dial(addr) => DialFailed(addr, cause)
    case Greet(_) => NewClientFailed(cause)
    case StartTls(_) => StartTlsFailed(cause)
    case Auth(_, _, _) => AuthFailed(cause)
    case Mail(_) => MailFromFailed(cause)
    case Rcpt(to) => RcptToFailed(to, cause)
    case Data => DataStartFailed(cause)
    case Write(_) => WriteFailed(cause)
    case CloseData => CloseFailed(cause)
  }

  /**
   * The text of an error, as the service formats it; `cause` is the wrapped error's text.
   * Every network error is tagged `smtp` and ends with the text of its cause.
   */
  function ErrorText(e: MailError): (text: string)
    ensures !e.SenderNotConfigured? ==> "smtp " <= text && EndsWith(text, ": " + e.cause)
  {
    match e
    case SenderNotConfigured => "email sender not configured: From/Username is empty"
    case DialFailed(addr, cause) => "smtp dial failed to " + addr + ": " + cause
    case NewClientFailed(cause) => "smtp new client failed: " + cause
    case StartTlsFailed(cause) => "smtp STARTTLS failed: " + cause
    case AuthFailed(cause) => "smtp auth failed: " + cause
    case MailFromFailed(cause) => "smtp MAIL FROM failed: " + cause
    case RcptToFailed(to, cause) => "smtp RCPT TO failed for " + to + ": " + cause
    case DataStartFailed(cause) => "smtp DATA start failed: " + cause
    case WriteFailed(cause) => "smtp write failed: " + cause
    case CloseFailed(cause) => "smtp close failed: " + cause
  }

  /** Both credentials are set (checked untrimmed). */
  predicate HasCredentials(cfg: Config) {
    cfg.username != "" && cfg.appPassword != ""
  }

  /** The extensions in force when AUTH is looked up: after the upgrade, if there was one. */
  function AuthTimeExtensions(relay: Relay): set<string> {
    if "STARTTLS" in relay.ehlo then relay.ehloAfterTls else relay.ehlo
  }

  /** STARTTLS, when the first EHLO reply advertises it. */
  function UpgradeSteps(cfg: Config, relay: Relay): seq<Command> {
    if "STARTTLS" in relay.ehlo then [StartTls(cfg.host)] else []
  }

  /** With both credentials set: the AUTH lookup, then AUTH itself when it is advertised. */
  function AuthSteps(cfg: Config, relay: Relay): seq<Command> {
    if HasCredentials(cfg) then
      [Extension("AUTH")]
      + (if "AUTH" in AuthTimeExtensions(relay) then [Auth(cfg.username, cfg.appPassword, cfg.host)] else [])
    else []
  }

  /** The envelope and the message: MAIL, RCPT, DATA, the write and the close of the data writer. */
  function EnvelopeSteps(sender: string, to: string, msg: string): seq<Command> {
    [Mail(sender), Rcpt(to), Data, Write(msg), CloseData]
  }

  /** What follows the greeting: the STARTTLS lookup, the upgrade, authentication, the envelope. */
  function Conversation(cfg: Config, sender: string, to: string, msg: string, relay: Relay): seq<Command> {
    [Extension("STARTTLS")] + UpgradeSteps(cfg, relay) + AuthSteps(cfg, relay) + EnvelopeSteps(sender, to, msg)
  }

  /** The commands a session that meets no refusal issues, before its cleanup. */
  function Plan(cfg: Config, sender: string, to: string, msg: string, relay: Relay): (p: seq<Command>)
    ensures NoCleanup(p)
  {
    [Dial(JoinHostPort(cfg.host, cfg.port)), Greet(cfg.host)] + Conversation(cfg, sender, to, msg, relay)
  }

  /** The commands issued, and the first refusal met with its error, if any. */
  datatype Trace = Trace(issued: seq<Command>, failure: Option<(Command, string)>)

  /**
   * Runs a plan until the first refused command. A refused write is still followed by
   * the next command (the data writer is closed whatever the write did).
   */
  function Run(plan: seq<Command>, relay: Relay): (t: Trace)
    ensures t.issued <= plan
    ensures t.failure.None? ==> t.issued == plan
    ensures t.failure.Some? ==>
      t.failure.value.0 in plan && Refusal(relay, t.failure.value.0) == Some(t.failure.value.1)
  {
    if plan == [] then Trace([], None)
    else
      var c := plan[0];
      match Refusal(relay, c)
      case Some(cause) =>
        Trace(if c.Write? && |plan| > 1 then plan[..2] else plan[..1], Some((c, cause)))
      case None =>
        var t := Run(plan[1..], relay);
        Trace([c] + t.issued, t.failure)
  }

  /** Cleanup: QUIT once the client exists, then the close of the connection once dialled. */
  function Cleanup(failure: Option<(Command, string)>): seq<Command> {
    if failure.Some? && failure.value.0.Dial? then []
    else if failure.Some? && failure.value.0.Greet? then [CloseConn]
    else [Quit, CloseConn]
  }

  /** The commands issued and the error returned by one call. */
  datatype Outcome = Outcome(transcript: seq<Command>, error: Option<MailError>)

  /** The plan of a call whose sender is `sender`. */
  function PlanOf(cfg: Config, sender: string, to: string, subject: string, body: string, relay: Relay): seq<Command> {
    Plan(cfg, sender, to, Render(Message(sender, to, subject, body)), relay)
  }

  /** The cleanup commands are never part of a plan. */
  predicate NoCleanup(plan: seq<Command>) {
    forall c :: c in plan ==> !c.Quit? && !c.CloseConn?
  }

  /** Runs a plan, then the cleanup; the error is the one for the first refusal, if any. */
  function Execute(plan: seq<Command>, relay: Relay): (o: Outcome)
    requires NoCleanup(plan)
    ensures o.error.Some? ==> o.error.value != SenderNotConfigured
  {
    var t := Run(plan, relay);
    Outcome(t.issued + Cleanup(t.failure),
            if t.failure.None? then None else Some(ErrorOf(t.failure.value.0, t.failure.value.1)))
  }

  /** One call of SendEmail(to, subject, body) on a service configured with `cfg`. */
  function Session(cfg: Config, to: string, subject: string, body: string, relay: Relay): Outcome {
    match SenderAddress(cfg.from, cfg.username)
    case None => Outcome([], Some(SenderNotConfigured))
    case Some(sender) => Execute(PlanOf(cfg, sender, to, subject, body, relay), relay)
  }

  // ---------------------------------------------------------------------------
  // Running a plan

  /** A run meets no refusal exactly when the relay accepts every command of the plan. */
  lemma {:induction false} RunSucceedsIffAccepted(plan: seq<Command>, relay: Relay)
    ensures Run(plan, relay).failure.None? <==> AllAccepted(plan, relay)
  {
    if plan != [] && Refusal(relay, plan[0]).None? {
      RunSucceedsIffAccepted(plan[1..], relay);
      if AllAccepted(plan[1..], relay) {
        forall i | 0 < i < |plan| ensures Refusal(relay, plan[i]).None? {
          assert plan[i] == plan[1..][i - 1];
        }
      } else {
        var i :| 0 <= i < |plan[1..]| && Refusal(relay, plan[1..][i]).Some?;
        assert plan[1..][i] == plan[i + 1];
      }
    }
  }

  /** The first refused command of a plan that meets a refusal. */
  lemma {:induction false} FirstRefusal(plan: seq<Command>, relay: Relay) returns (k: nat)
    requires !AllAccepted(plan, relay)
    ensures k < |plan| && AllAccepted(plan[..k], relay) && Refusal(relay, plan[k]).Some?
  {
    if Refusal(relay, plan[0]).Some? {
      k := 0;
    } else {
      assert !AllAccepted(plan[1..], relay) by {
        var i :| 0 <= i < |plan| && Refusal(relay, plan[i]).Some?;
        assert plan[1..][i - 1] == plan[i];
      }
      var j := FirstRefusal(plan[1..], relay);
      k := j + 1;
      forall i | 0 <= i < k ensures Refusal(relay, plan[..k][i]).None? {
        if i > 0 { assert plan[..k][i] == plan[1..][..j][i - 1]; }
      }
    }
  }

  /**
   * A plan whose first refusal is at `k` issues exactly the commands up to `k` (and the
   * data close after a refused write) and reports the refusal at `k`.
   */
  lemma {:induction false} RunStopsAt(plan: seq<Command>, relay: Relay, k: nat)
    requires k < |plan| && AllAccepted(plan[..k], relay) && Refusal(relay, plan[k]).Some?
    ensures Run(plan, relay) ==
      Trace(plan[..k + 1] + (if plan[k].Write? && k + 1 < |plan| then [plan[k + 1]] else []),
            Some((plan[k], Refusal(relay, plan[k]).value)))
    decreases k
  {
    if k == 0 {
      if plan[0].Write? && 1 < |plan| {
        assert plan[..2] == plan[..1] + [plan[1]];
      } else {
        assert plan[..1] + [] == plan[..1];
      }
    } else {
      var rest := plan[1..];
      AcceptedTail(plan, relay, k);
      RunStopsAt(rest, relay, k - 1);
      var extra := if plan[k].Write? && k + 1 < |plan| then [plan[k + 1]] else [];
      assert rest[k - 1] == plan[k];
      assert (if rest[k - 1].Write? && k < |rest| then [rest[k]] else []) == extra;
      var tail := Run(rest, relay);
      assert tail.issued == rest[..k] + extra;
      assert Run(plan, relay) == Trace([plan[0]] + tail.issued, tail.failure);
      PrefixCons(plan, k, extra);
    }
  }

  /** The first element, then `k` more from the rest, is the prefix of length `k + 1`. */
  lemma PrefixCons<T>(s: seq<T>, k: nat, extra: seq<T>)
    requires k < |s|
    ensures [s[0]] + (s[1..][..k] + extra) == s[..k + 1] + extra
  {
    assert [s[0]] + s[1..][..k] == s[..k + 1];
  }

  /** An accepted prefix: its first command is accepted, and so is the rest of it. */
  lemma AcceptedTail(plan: seq<Command>, relay: Relay, k: nat)
    requires 0 < k <= |plan| && AllAccepted(plan[..k], relay)
    ensures Refusal(relay, plan[0]).None? && AllAccepted(plan[1..][..k - 1], relay)
  {
    assert plan[..k][0] == plan[0];
    var pre := plan[1..][..k - 1];
    forall i | 0 <= i < k - 1 ensures Refusal(relay, pre[i]).None? {
      assert pre[i] == plan[..k][i + 1];
    }
  }

  /** A plan's run depends only on the answers to the plan's own commands. */
  lemma {:induction false} RunAnswers(plan: seq<Command>, r1: Relay, r2: Relay)
    requires forall i :: 0 <= i < |plan| ==> Refusal(r1, plan[i]) == Refusal(r2, plan[i])
    ensures Run(plan, r1) == Run(plan, r2)
  {
    if plan != [] {
      var rest := plan[1..];
      forall i | 0 <= i < |rest| ensures Refusal(r1, rest[i]) == Refusal(r2, rest[i]) {
        assert rest[i] == plan[i + 1];
      }
      RunAnswers(rest, r1, r2);
    }
  }

  /** Every command before the first refusal, and that refusal itself, is issued. */
  lemma {:induction false} RunReaches(plan: seq<Command>, relay: Relay, k: nat)
    requires k < |plan| && AllAccepted(plan[..k], relay)
    ensures plan[k] in Run(plan, relay).issued
    decreases k
  {
    if k > 0 {
      AcceptedTail(plan, relay, k);
      RunReaches(plan[1..], relay, k - 1);
      assert plan[1..][k - 1] == plan[k];
    }
  }

  /** A write is always followed by the close of the data writer. */
  predicate WriteThenClose(plan: seq<Command>) {
    forall i :: 0 <= i < |plan| && plan[i].Write? ==> i + 1 < |plan| && plan[i + 1] == CloseData
  }

  /** The failing run of a plan, with the position of its first refusal. */
  lemma RunFailure(plan: seq<Command>, relay: Relay) returns (k: nat)
    requires Run(plan, relay).failure.Some? && WriteThenClose(plan)
    ensures k < |plan| && AllAccepted(plan[..k], relay) && Refusal(relay, plan[k]).Some?
    ensures Run(plan, relay) ==
      Trace(plan[..k + 1] + (if plan[k].Write? then [CloseData] else []),
            Some((plan[k], Refusal(relay, plan[k]).value)))
  {
    RunSucceedsIffAccepted(plan, relay);
    k := FirstRefusal(plan, relay);
    RunStopsAt(plan, relay, k);
  }

  // ---------------------------------------------------------------------------
  // Running a plan one command at a time

  /** The run of `plan` is what has been issued so far followed by the run of what remains. */
  predicate Tracks(plan: seq<Command>, done: seq<Command>, rest: seq<Command>, relay: Relay) {
    Run(plan, relay) == Trace(done + Run(rest, relay).issued, Run(rest, relay).failure)
  }

  /** Tracking does not depend on how the remaining commands are grouped. */
  lemma TracksRegroup(plan: seq<Command>, done: seq<Command>, a: seq<Command>, b: seq<Command>, c: seq<Command>, relay: Relay)
    requires Tracks(plan, done, a + b + c, relay)
    ensures Tracks(plan, done, a + (b + c), relay)
  {
    assert a + b + c == a + (b + c);
  }

  /** Nothing is issued yet: all of the plan remains. */
  lemma TracksStart(plan: seq<Command>, relay: Relay)
    ensures Tracks(plan, [], plan, relay)
  {
    assert [] + Run(plan, relay).issued == Run(plan, relay).issued;
  }

  /** An accepted command moves from what remains to what has been issued. */
  lemma Advance(plan: seq<Command>, done: seq<Command>, rest: seq<Command>, relay: Relay)
    requires Tracks(plan, done, rest, relay) && rest != [] && Refusal(relay, rest[0]).None?
    ensures Tracks(plan, done + [rest[0]], rest[1..], relay)
  {
    var t := Run(rest[1..], relay);
    assert done + ([rest[0]] + t.issued) == done + [rest[0]] + t.issued;
  }

  /** A refused command other than the write ends the run right after it. */
  lemma StopAt(plan: seq<Command>, done: seq<Command>, rest: seq<Command>, relay: Relay)
    requires Tracks(plan, done, rest, relay) && rest != [] && Refusal(relay, rest[0]).Some? && !rest[0].Write?
    ensures Run(plan, relay) == Trace(done + [rest[0]], Some((rest[0], Refusal(relay, rest[0]).value)))
  {
    assert rest[..1] == [rest[0]];
  }

  /** A refused write ends the run after the close of the data writer that follows it. */
  lemma StopAtWrite(plan: seq<Command>, done: seq<Command>, rest: seq<Command>, relay: Relay)
    requires Tracks(plan, done, rest, relay) && |rest| >= 2 && rest[0].Write? && Refusal(relay, rest[0]).Some?
    ensures Run(plan, relay) == Trace(done + [rest[0], rest[1]], Some((rest[0], Refusal(relay, rest[0]).value)))
  {
    assert rest[..2] == [rest[0], rest[1]];
  }

  /** Once nothing remains, the run is what has been issued, with no refusal. */
  lemma Finished(plan: seq<Command>, done: seq<Command>, relay: Relay)
    requires Tracks(plan, done, [], relay)
    ensures Run(plan, relay) == Trace(done, None)
  {
    assert done + [] == done;
  }

  // ---------------------------------------------------------------------------
  // Executing a plan

  /**
   * An execution succeeds exactly when the relay refuses none of the planned commands;
   * it then issues the whole plan, in order, then QUIT and the close of the connection.
   */
  lemma ExecuteSucceeds(plan: seq<Command>, relay: Relay)
    requires NoCleanup(plan)
    ensures var o := Execute(plan, relay);
            && (o.error.None? <==> AllAccepted(plan, relay))
            && (o.error.None? ==> o.transcript == plan + [Quit, CloseConn])
  {
    RunSucceedsIffAccepted(plan, relay);
  }

  /**
   * The first refusal ends an execution: the transcript is the plan up to and including
   * the refused command (plus the data close after a refused write), then the cleanup,
   * and the error is the one for that command.
   */
  lemma ExecuteFailure(plan: seq<Command>, relay: Relay) returns (k: nat)
    requires NoCleanup(plan) && WriteThenClose(plan) && Execute(plan, relay).error.Some?
    ensures k < |plan| && AllAccepted(plan[..k], relay) && Refusal(relay, plan[k]).Some? && Reported(plan[k])
    ensures var cause := Refusal(relay, plan[k]).value;
            Execute(plan, relay) ==
              Outcome(plan[..k + 1] + (if plan[k].Write? then [CloseData] else []) + Cleanup(Some((plan[k], cause))),
                      Some(ErrorOf(plan[k], cause)))
  {
    k := RunFailure(plan, relay);
    assert plan[k] in plan;
  }

  /** An execution, given the run of its plan. */
  lemma ExecuteOfRun(plan: seq<Command>, relay: Relay, issued: seq<Command>, failure: Option<(Command, string)>)
    requires NoCleanup(plan) && Run(plan, relay) == Trace(issued, failure)
    ensures failure.Some? ==> Reported(failure.value.0)
    ensures Execute(plan, relay) ==
      Outcome(issued + Cleanup(failure), if failure.None? then None else Some(ErrorOf(failure.value.0, failure.value.1)))
  {
  }

  /** An execution issues only planned commands, QUIT and the close of the connection. */
  lemma ExecuteCommands(plan: seq<Command>, relay: Relay)
    requires NoCleanup(plan)
    ensures forall c :: c in Execute(plan, relay).transcript ==> c in plan || c == Quit || c == CloseConn
  {
    var t := Run(plan, relay);
    forall c | c in t.issued ensures c in plan {
      var i :| 0 <= i < |t.issued| && t.issued[i] == c;
      assert plan[i] == c;
    }
  }

  /** An execution depends only on the answers to the plan's own commands. */
  lemma ExecuteAnswers(plan: seq<Command>, r1: Relay, r2: Relay)
    requires NoCleanup(plan)
    requires forall i :: 0 <= i < |plan| ==> Refusal(r1, plan[i]) == Refusal(r2, plan[i])
    ensures Execute(plan, r1) == Execute(plan, r2)
  {
    RunAnswers(plan, r1, r2);
  }

  /** The envelope and data commands: the last five of every plan. */
  predicate Envelope(c: Command) {
    c.Mail? || c.Rcpt? || c.Data? || c.Write? || c.CloseData?
  }

  /** The plan dials first, then reads the greeting, and does neither again. */
  predicate ConnectFirst(p: seq<Command>) {
    && |p| >= 2 && p[0].Dial? && p[1].Greet?
    && forall i :: 2 <= i < |p| ==> !p[i].Dial? && !p[i].Greet?
  }

  /** Where each command stands in the plan of a call; see PlanShape. */
  predicate Shaped(p: seq<Command>, cfg: Config, sender: string, to: string, msg: string, relay: Relay) {
    && |p| >= 8 && NoCleanup(p) && WriteThenClose(p) && ConnectFirst(p)
    && p[0] == Dial(JoinHostPort(cfg.host, cfg.port)) && p[1] == Greet(cfg.host)
    && p[2] == Extension("STARTTLS")
    && p[|p| - 5] == Mail(sender) && p[|p| - 4] == Rcpt(to) && p[|p| - 3] == Data
    && p[|p| - 2] == Write(msg) && p[|p| - 1] == CloseData
    && (forall i :: 0 <= i < |p| - 5 ==> !Envelope(p[i]))
    && ("STARTTLS" in relay.ehlo ==> p[3] == StartTls(cfg.host))
    && (forall i :: 0 <= i < |p| && p[i].StartTls? ==> i == 3 && "STARTTLS" in relay.ehlo)
    && (HasCredentials(cfg) && "AUTH" in AuthTimeExtensions(relay) ==>
          p[|p| - 6] == Auth(cfg.username, cfg.appPassword, cfg.host))
    && (forall i :: 0 <= i < |p| && p[i].Auth? ==>
          i == |p| - 6 && HasCredentials(cfg) && "AUTH" in AuthTimeExtensions(relay)
          && p[i] == Auth(cfg.username, cfg.appPassword, cfg.host))
  }

  /** Every plan ends with the write of the message and the close of the data writer. */
  lemma PlanEnd(cfg: Config, sender: string, to: string, msg: string, relay: Relay)
    ensures var p := Plan(cfg, sender, to, msg, relay);
            && |p| >= 8 && p[|p| - 2] == Write(msg) && p[|p| - 1] == CloseData
            && WriteThenClose(p)
  {
    var p := Plan(cfg, sender, to, msg, relay);
    forall i | 0 <= i < |p| && p[i].Write? ensures i + 1 < |p| && p[i + 1] == CloseData {
      assert forall j :: 0 <= j < |p| - 2 ==> !p[j].Write?;
    }
  }

  /**
   * The plan starts by dialling, reading the greeting and looking up STARTTLS; STARTTLS
   * comes right after when advertised and nowhere otherwise; AUTH comes right before the
   * envelope exactly when both credentials are set and AUTH is advertised at that point;
   * MAIL, RCPT, DATA, the write and the data close come last and nowhere else.
   */
  lemma PlanShape(cfg: Config, sender: string, to: string, msg: string, relay: Relay)
    ensures Shaped(Plan(cfg, sender, to, msg, relay), cfg, sender, to, msg, relay)
  {
    PlanEnd(cfg, sender, to, msg, relay);
    PlanStart(cfg, sender, to, msg, relay);
    PlanEnvelope(cfg, sender, to, msg, relay);
    PlanUpgradeAndAuth(cfg, sender, to, msg, relay);
  }

  /** The first three commands; no later command dials or reads a greeting. */
  lemma PlanStart(cfg: Config, sender: string, to: string, msg: string, relay: Relay)
    ensures var p := Plan(cfg, sender, to, msg, relay);
            && ConnectFirst(p)
            && p[0] == Dial(JoinHostPort(cfg.host, cfg.port)) && p[1] == Greet(cfg.host)
            && p[2] == Extension("STARTTLS")
  {
  }

  /** The last five commands, and no envelope command before them. */
  lemma PlanEnvelope(cfg: Config, sender: string, to: string, msg: string, relay: Relay)
    ensures var p := Plan(cfg, sender, to, msg, relay);
            && |p| >= 8
            && p[|p| - 5] == Mail(sender) && p[|p| - 4] == Rcpt(to) && p[|p| - 3] == Data
            && p[|p| - 2] == Write(msg) && p[|p| - 1] == CloseData
            && (forall i :: 0 <= i < |p| - 5 ==> !Envelope(p[i]))
  {
  }

  /** Where STARTTLS and AUTH stand, and when they are planned at all. */
  lemma PlanUpgradeAndAuth(cfg: Config, sender: string, to: string, msg: string, relay: Relay)
    ensures var p := Plan(cfg, sender, to, msg, relay);
            && ("STARTTLS" in relay.ehlo ==> p[3] == StartTls(cfg.host))
            && (forall i :: 0 <= i < |p| && p[i].StartTls? ==> i == 3 && "STARTTLS" in relay.ehlo)
            && (HasCredentials(cfg) && "AUTH" in AuthTimeExtensions(relay) ==>
                  p[|p| - 6] == Auth(cfg.username, cfg.appPassword, cfg.host))
            && (forall i :: 0 <= i < |p| && p[i].Auth? ==>
                  i == |p| - 6 && HasCredentials(cfg) && "AUTH" in AuthTimeExtensions(relay)
                  && p[i] == Auth(cfg.username, cfg.appPassword, cfg.host))
  {
  }

  /** The plan depends on the relay only through the extensions it advertises. */
  lemma PlanDependsOnExtensions(cfg: Config, sender: string, to: string, msg: string, r1: Relay, r2: Relay)
    requires r1.ehlo == r2.ehlo && r1.ehloAfterTls == r2.ehloAfterTls
    ensures Plan(cfg, sender, to, msg, r1) == Plan(cfg, sender, to, msg, r2)
  {
  }

  /** With STARTTLS and AUTH advertised and both credentials set, the plan has every step. */
  lemma PlanFull(cfg: Config, sender: string, to: string, msg: string, relay: Relay)
    requires "STARTTLS" in relay.ehlo && "AUTH" in relay.ehloAfterTls && HasCredentials(cfg)
    ensures Plan(cfg, sender, to, msg, relay) ==
      [Dial(JoinHostPort(cfg.host, cfg.port)), Greet(cfg.host), Extension("STARTTLS"), StartTls(cfg.host),
       Extension("AUTH"), Auth(cfg.username, cfg.appPassword, cfg.host),
       Mail(sender), Rcpt(to), Data, Write(msg), CloseData]
  {
  }

  /** Once connected and greeted, STARTTLS is issued exactly when it is advertised. */
  lemma ShapedStartTls(p: seq<Command>, cfg: Config, sender: string, to: string, msg: string, relay: Relay)
    requires Shaped(p, cfg, sender, to, msg, relay)
    requires Refusal(relay, p[0]).None? && Refusal(relay, p[1]).None?
    ensures var o := Execute(p, relay);
            && (StartTls(cfg.host) in o.transcript <==> "STARTTLS" in relay.ehlo)
            && ("STARTTLS" !in relay.ehlo ==> o.error.None? || !o.error.value.StartTlsFailed?)
  {
    ExecuteCommands(p, relay);
    if "STARTTLS" in relay.ehlo {
      assert AllAccepted(p[..3], relay) by {
        forall i | 0 <= i < 3 ensures Refusal(relay, p[..3][i]).None? {
          assert p[..3][i] == p[i];
        }
      }
      RunReaches(p, relay, 3);
    } else if Execute(p, relay).error.Some? {
      var k := ExecuteFailure(p, relay);
    }
  }

  /** A refused STARTTLS is followed only by QUIT and the close of the connection. */
  lemma ShapedStartTlsFailure(p: seq<Command>, cfg: Config, sender: string, to: string, msg: string, relay: Relay)
    requires Shaped(p, cfg, sender, to, msg, relay)
    requires var e := Execute(p, relay).error; e.Some? && e.value.StartTlsFailed?
    ensures Execute(p, relay).transcript == [p[0], p[1], p[2], StartTls(cfg.host), Quit, CloseConn]
  {
    var k := ExecuteFailure(p, relay);
    assert k == 3;
    assert p[..4] == [p[0], p[1], p[2], p[3]];
  }

  /** AUTH is issued only with both credentials set and AUTH advertised, with the configured credentials. */
  lemma ShapedAuthOffered(p: seq<Command>, cfg: Config, sender: string, to: string, msg: string, relay: Relay, c: Command)
    requires Shaped(p, cfg, sender, to, msg, relay)
    requires c in Execute(p, relay).transcript && c.Auth?
    ensures HasCredentials(cfg) && "AUTH" in AuthTimeExtensions(relay)
    ensures c == Auth(cfg.username, cfg.appPassword, cfg.host)
  {
    ExecuteCommands(p, relay);
  }

  /**
   * A refused AUTH is the last planned command issued: the transcript is the plan without
   * its envelope, then QUIT and the close of the connection.
   */
  lemma ShapedAuthFailure(p: seq<Command>, cfg: Config, sender: string, to: string, msg: string, relay: Relay)
    requires Shaped(p, cfg, sender, to, msg, relay)
    requires var e := Execute(p, relay).error; e.Some? && e.value.AuthFailed?
    ensures p[|p| - 6] == Auth(cfg.username, cfg.appPassword, cfg.host)
    ensures Execute(p, relay).transcript == p[..|p| - 5] + [Quit, CloseConn]
    ensures NoEnvelope(Execute(p, relay).transcript)
  {
    var k := ExecuteFailure(p, relay);
    assert k == |p| - 6;
    var t := Execute(p, relay).transcript;
    forall i | 0 <= i < |t| ensures !Envelope(t[i]) {
      if i <= k { assert t[i] == p[i]; }
    }
  }

  /** A refused RCPT is reported with the planned recipient. */
  lemma ShapedRcptFailure(p: seq<Command>, cfg: Config, sender: string, to: string, msg: string, relay: Relay)
    requires Shaped(p, cfg, sender, to, msg, relay)
    requires var e := Execute(p, relay).error; e.Some? && e.value.RcptToFailed?
    ensures Execute(p, relay).error.value.to == to
  {
    var k := ExecuteFailure(p, relay);
    assert k == |p| - 4;
  }

  /** A refused write still closes the data writer, and its error is reported, whatever the close did. */
  lemma WriteRefused(p: seq<Command>, msg: string, relay: Relay)
    requires |p| >= 2 && NoCleanup(p) && p[|p| - 2] == Write(msg) && p[|p| - 1] == CloseData
    requires AllAccepted(p[..|p| - 2], relay) && Refusal(relay, Write(msg)).Some?
    ensures Execute(p, relay) == Outcome(p + [Quit, CloseConn], Some(WriteFailed(Refusal(relay, Write(msg)).value)))
  {
    var n := |p|;
    var cause := Refusal(relay, Write(msg)).value;
    assert Cleanup(Some((Write(msg), cause))) == [Quit, CloseConn];
    assert ErrorOf(Write(msg), cause) == WriteFailed(cause);
    RunStopsAt(p, relay, n - 2);
    var extra := if p[n - 2].Write? && n - 1 < |p| then [p[n - 1]] else [];
    assert extra == [p[n - 1]];
    assert p[..n - 2 + 1] + extra == p;
    ExecuteOfRun(p, relay, p, Some((Write(msg), cause)));
  }

  /** A refused close of the data writer, after an accepted write, is reported as such. */
  lemma CloseRefused(p: seq<Command>, relay: Relay)
    requires |p| >= 1 && NoCleanup(p) && p[|p| - 1] == CloseData
    requires AllAccepted(p[..|p| - 1], relay) && Refusal(relay, CloseData).Some?
    ensures Execute(p, relay) == Outcome(p + [Quit, CloseConn], Some(CloseFailed(Refusal(relay, CloseData).value)))
  {
    var n := |p|;
    var cause := Refusal(relay, CloseData).value;
    assert Cleanup(Some((CloseData, cause))) == [Quit, CloseConn];
    assert ErrorOf(CloseData, cause) == CloseFailed(cause);
    RunStopsAt(p, relay, n - 1);
    assert !p[n - 1].Write?;
    assert p[..n - 1 + 1] + [] == p;
    ExecuteOfRun(p, relay, p, Some((CloseData, cause)));
  }

  /** No command of the envelope: no MAIL, RCPT, DATA, write or data close. */
  predicate NoEnvelope(cs: seq<Command>) {
    forall i :: 0 <= i < |cs| ==> !Envelope(cs[i])
  }

  /** Neither QUIT nor the close of the connection. */
  predicate NoRelease(cs: seq<Command>) {
    Quit !in cs && CloseConn !in cs
  }

  /** A refused dial issues nothing more: there is no connection to close. */
  lemma DialRefused(p: seq<Command>, relay: Relay)
    requires |p| >= 1 && NoCleanup(p) && p[0].Dial? && Refusal(relay, p[0]).Some?
    ensures Execute(p, relay).transcript == [p[0]]
  {
    RunStopsAt(p, relay, 0);
    assert p[..1] == [p[0]];
  }

  /** A refused greeting leaves no client to QUIT, but the connection is still closed. */
  lemma GreetRefused(p: seq<Command>, relay: Relay)
    requires |p| >= 2 && NoCleanup(p) && p[0].Dial? && p[1].Greet?
    requires Refusal(relay, p[0]).None? && Refusal(relay, p[1]).Some?
    ensures Execute(p, relay).transcript == [p[0], p[1], CloseConn]
  {
    assert AllAccepted(p[..1], relay) by {
      assert p[..1] == [p[0]];
    }
    RunStopsAt(p, relay, 1);
    assert p[..2] == [p[0], p[1]];
  }

  /** Once the client exists, QUIT and the close of the connection end the call, once each. */
  lemma Connected(p: seq<Command>, relay: Relay)
    requires NoCleanup(p) && WriteThenClose(p) && ConnectFirst(p)
    requires Refusal(relay, p[0]).None? && Refusal(relay, p[1]).None?
    ensures var t := Execute(p, relay).transcript;
            && |t| >= 2 && t[|t| - 2..] == [Quit, CloseConn] && NoRelease(t[..|t| - 2])
  {
    var run := Run(p, relay);
    forall i | 0 <= i < |run.issued| ensures run.issued[i] != CloseConn && run.issued[i] != Quit {
      assert run.issued[i] == p[i];
      assert p[i] in p;
    }
    if run.failure.Some? {
      var k := RunFailure(p, relay);
      assert k >= 2;
    }
    var t := Execute(p, relay).transcript;
    assert t == run.issued + [Quit, CloseConn];
    assert t[..|t| - 2] == run.issued;
  }

  /**
   * How transcript `t` releases the connection opened by `dial` and `greet`: a refused
   * dial issues nothing more; a refused greeting is followed only by the close of the
   * connection; once both are accepted the transcript ends with QUIT and the close of
   * the connection, and neither occurs before.
   */
  predicate ReleasesConnection(t: seq<Command>, dial: Command, greet: Command, relay: Relay) {
    && (Refusal(relay, dial).Some? ==> t == [dial])
    && (Refusal(relay, dial).None? && Refusal(relay, greet).Some? ==> t == [dial, greet, CloseConn])
    && (Refusal(relay, dial).None? && Refusal(relay, greet).None? ==>
          |t| >= 2 && t[|t| - 2..] == [Quit, CloseConn] && NoRelease(t[..|t| - 2]))
  }

  /** Any plan that dials and greets first releases its connection as it should. */
  lemma Released(p: seq<Command>, relay: Relay)
    requires NoCleanup(p) && WriteThenClose(p) && ConnectFirst(p)
    ensures ReleasesConnection(Execute(p, relay).transcript, p[0], p[1], relay)
  {
    if Refusal(relay, p[0]).Some? {
      DialRefused(p, relay);
    } else if Refusal(relay, p[1]).Some? {
      GreetRefused(p, relay);
    } else {
      Connected(p, relay);
    }
  }

  // ---------------------------------------------------------------------------
  // Properties of one call

  /**
   * With both From and Username blank the call fails with the configuration error
   * before any network step; it is the only case that gives that error.
   */
  lemma NoSenderNoNetwork(cfg: Config, to: string, subject: string, body: string, relay: Relay)
    ensures Session(cfg, to, subject, body, relay).error == Some(SenderNotConfigured)
            <==> IsBlank(cfg.from) && IsBlank(cfg.username)
    ensures IsBlank(cfg.from) && IsBlank(cfg.username) ==> Session(cfg, to, subject, body, relay).transcript == []
  {
  }

  /**
   * A call with a sender succeeds exactly when the relay refuses none of the planned
   * commands; it then issues the whole plan, in order, then QUIT and the close of the
   * connection.
   */
  lemma SuccessIssuesWholePlan(cfg: Config, to: string, subject: string, body: string, relay: Relay, sender: string)
    requires SenderAddress(cfg.from, cfg.username) == Some(sender)
    ensures var plan := PlanOf(cfg, sender, to, subject, body, relay);
            var s := Session(cfg, to, subject, body, relay);
            && (s.error.None? <==> AllAccepted(plan, relay))
            && (s.error.None? ==> s.transcript == plan + [Quit, CloseConn])
  {
    var plan := PlanOf(cfg, sender, to, subject, body, relay);
    assert Session(cfg, to, subject, body, relay) == Execute(plan, relay);
    ExecuteSucceeds(plan, relay);
  }

  /** A failing call stops at its first refused command; see ExecuteFailure. */
  lemma FailingStep(cfg: Config, to: string, subject: string, body: string, relay: Relay, sender: string)
    returns (k: nat)
    requires SenderAddress(cfg.from, cfg.username) == Some(sender)
    requires Session(cfg, to, subject, body, relay).error.Some?
    ensures var plan := PlanOf(cfg, sender, to, subject, body, relay);
            && k < |plan| && AllAccepted(plan[..k], relay) && Refusal(relay, plan[k]).Some?
            && Reported(plan[k])
            && var cause := Refusal(relay, plan[k]).value;
               Session(cfg, to, subject, body, relay) ==
                 Outcome(plan[..k + 1] + (if plan[k].Write? then [CloseData] else []) + Cleanup(Some((plan[k], cause))),
                         Some(ErrorOf(plan[k], cause)))
  {
    PlanEnd(cfg, sender, to, Render(Message(sender, to, subject, body)), relay);
    assert Session(cfg, to, subject, body, relay) == Execute(PlanOf(cfg, sender, to, subject, body, relay), relay);
    k := ExecuteFailure(PlanOf(cfg, sender, to, subject, body, relay), relay);
  }

  /**
   * Once connected and greeted, STARTTLS is issued exactly when the relay advertises
   * it; when it is not advertised the call cannot fail on STARTTLS.
   */
  lemma StartTlsIffAdvertised(cfg: Config, to: string, subject: string, body: string, relay: Relay, sender: string)
    requires SenderAddress(cfg.from, cfg.username) == Some(sender)
    requires Refusal(relay, Dial(JoinHostPort(cfg.host, cfg.port))).None? && Refusal(relay, Greet(cfg.host)).None?
    ensures var s := Session(cfg, to, subject, body, relay);
            && (StartTls(cfg.host) in s.transcript <==> "STARTTLS" in relay.ehlo)
            && ("STARTTLS" !in relay.ehlo ==> s.error.None? || !s.error.value.StartTlsFailed?)
  {
    var msg := Render(Message(sender, to, subject, body));
    PlanShape(cfg, sender, to, msg, relay);
    assert Session(cfg, to, subject, body, relay) == Execute(PlanOf(cfg, sender, to, subject, body, relay), relay);
    ShapedStartTls(PlanOf(cfg, sender, to, subject, body, relay), cfg, sender, to, msg, relay);
  }

  /**
   * A refused STARTTLS ends the call right there: no AUTH, MAIL, RCPT or DATA follows,
   * only QUIT and the close of the connection.
   */
  lemma StartTlsFailureStops(cfg: Config, to: string, subject: string, body: string, relay: Relay, sender: string)
    requires SenderAddress(cfg.from, cfg.username) == Some(sender)
    requires var e := Session(cfg, to, subject, body, relay).error; e.Some? && e.value.StartTlsFailed?
    ensures Session(cfg, to, subject, body, relay).transcript ==
      [Dial(JoinHostPort(cfg.host, cfg.port)), Greet(cfg.host), Extension("STARTTLS"), StartTls(cfg.host), Quit, CloseConn]
  {
    var msg := Render(Message(sender, to, subject, body));
    PlanShape(cfg, sender, to, msg, relay);
    assert Session(cfg, to, subject, body, relay) == Execute(PlanOf(cfg, sender, to, subject, body, relay), relay);
    ShapedStartTlsFailure(PlanOf(cfg, sender, to, subject, body, relay), cfg, sender, to, msg, relay);
  }

  /**
   * AUTH is issued only when both credentials are set and AUTH is advertised (after the
   * upgrade, if there was one), and it carries the configured credentials and host.
   */
  lemma AuthOnlyWhenOffered(cfg: Config, to: string, subject: string, body: string, relay: Relay, sender: string, c: Command)
    requires SenderAddress(cfg.from, cfg.username) == Some(sender)
    requires c in Session(cfg, to, subject, body, relay).transcript && c.Auth?
    ensures HasCredentials(cfg) && "AUTH" in AuthTimeExtensions(relay)
    ensures c == Auth(cfg.username, cfg.appPassword, cfg.host)
  {
    var msg := Render(Message(sender, to, subject, body));
    PlanShape(cfg, sender, to, msg, relay);
    assert Session(cfg, to, subject, body, relay) == Execute(PlanOf(cfg, sender, to, subject, body, relay), relay);
    ShapedAuthOffered(PlanOf(cfg, sender, to, subject, body, relay), cfg, sender, to, msg, relay, c);
  }

  /**
   * A refused AUTH ends the call before MAIL, RCPT and DATA: the call issues its plan up to
   * and including AUTH, then QUIT and the close of the connection.
   */
  lemma AuthFailureStops(cfg: Config, to: string, subject: string, body: string, relay: Relay, sender: string)
    requires SenderAddress(cfg.from, cfg.username) == Some(sender)
    requires var e := Session(cfg, to, subject, body, relay).error; e.Some? && e.value.AuthFailed?
    ensures var plan := PlanOf(cfg, sender, to, subject, body, relay);
            var t := Session(cfg, to, subject, body, relay).transcript;
            && plan[|plan| - 6] == Auth(cfg.username, cfg.appPassword, cfg.host)
            && t == plan[..|plan| - 5] + [Quit, CloseConn]
            && NoEnvelope(t)
  {
    var msg := Render(Message(sender, to, subject, body));
    PlanShape(cfg, sender, to, msg, relay);
    assert Session(cfg, to, subject, body, relay) == Execute(PlanOf(cfg, sender, to, subject, body, relay), relay);
    ShapedAuthFailure(PlanOf(cfg, sender, to, subject, body, relay), cfg, sender, to, msg, relay);
  }

  /** The text of a RCPT error names the recipient. */
  lemma RcptErrorNamesRecipient(to: string, cause: string)
    ensures Contains(ErrorText(RcptToFailed(to, cause)), to)
  {
    var text := ErrorText(RcptToFailed(to, cause));
    assert text == "smtp RCPT TO failed for " + to + ": " + cause;
    assert text[24..24 + |to|] == to;
    assert OccursAt(text, to, 24);
  }

  /** A refused RCPT is reported with the recipient the caller gave, and its text names it. */
  lemma RcptFailureNamesRecipient(cfg: Config, to: string, subject: string, body: string, relay: Relay)
    requires var e := Session(cfg, to, subject, body, relay).error; e.Some? && e.value.RcptToFailed?
    ensures var e := Session(cfg, to, subject, body, relay).error.value;
            e.to == to && Contains(ErrorText(e), to)
  {
    var sender := SenderAddress(cfg.from, cfg.username).value;
    var msg := Render(Message(sender, to, subject, body));
    PlanShape(cfg, sender, to, msg, relay);
    assert Session(cfg, to, subject, body, relay) == Execute(PlanOf(cfg, sender, to, subject, body, relay), relay);
    ShapedRcptFailure(PlanOf(cfg, sender, to, subject, body, relay), cfg, sender, to, msg, relay);
    RcptErrorNamesRecipient(to, Session(cfg, to, subject, body, relay).error.value.cause);
  }

  /**
   * A refused write still closes the data writer, and the write's error is the one
   * reported, whatever the close did; a refused close alone is reported as such.
   */
  lemma DataWriteAndClose(cfg: Config, to: string, subject: string, body: string, relay: Relay, sender: string)
    requires SenderAddress(cfg.from, cfg.username) == Some(sender)
    ensures var plan := PlanOf(cfg, sender, to, subject, body, relay);
            var s := Session(cfg, to, subject, body, relay);
            var msg := Render(Message(sender, to, subject, body));
            && (AllAccepted(plan[..|plan| - 2], relay) && Refusal(relay, Write(msg)).Some? ==>
                  s == Outcome(plan + [Quit, CloseConn], Some(WriteFailed(Refusal(relay, Write(msg)).value))))
            && (AllAccepted(plan[..|plan| - 1], relay) && Refusal(relay, CloseData).Some? ==>
                  s == Outcome(plan + [Quit, CloseConn], Some(CloseFailed(Refusal(relay, CloseData).value))))
  {
    var msg := Render(Message(sender, to, subject, body));
    var plan := PlanOf(cfg, sender, to, subject, body, relay);
    PlanEnd(cfg, sender, to, msg, relay);
    assert Session(cfg, to, subject, body, relay) == Execute(PlanOf(cfg, sender, to, subject, body, relay), relay);
    if AllAccepted(plan[..|plan| - 2], relay) && Refusal(relay, Write(msg)).Some? {
      WriteRefused(plan, msg, relay);
    }
    if AllAccepted(plan[..|plan| - 1], relay) && Refusal(relay, CloseData).Some? {
      CloseRefused(plan, relay);
    }
  }

  /** The answers to QUIT and to the close of the connection do not change an execution. */
  lemma CleanupAnswersIgnored(p: seq<Command>, relay: Relay, quit: string, close: string)
    requires NoCleanup(p)
    ensures Execute(p, relay.(refusals := relay.refusals[Quit := quit][CloseConn := close])) == Execute(p, relay)
  {
    var relay' := relay.(refusals := relay.refusals[Quit := quit][CloseConn := close]);
    forall i | 0 <= i < |p| ensures Refusal(relay', p[i]) == Refusal(relay, p[i]) {
      assert p[i] in p;
    }
    ExecuteAnswers(p, relay', relay);
  }

  /** The errors of the deferred QUIT and of closing the connection never reach the caller. */
  lemma CleanupErrorsDiscarded(cfg: Config, to: string, subject: string, body: string, relay: Relay, quit: string, close: string)
    ensures var relay' := relay.(refusals := relay.refusals[Quit := quit][CloseConn := close]);
            Session(cfg, to, subject, body, relay') == Session(cfg, to, subject, body, relay)
  {
    if SenderAddress(cfg.from, cfg.username).Some? {
      var sender := SenderAddress(cfg.from, cfg.username).value;
      var relay' := relay.(refusals := relay.refusals[Quit := quit][CloseConn := close]);
      var plan := PlanOf(cfg, sender, to, subject, body, relay);
      PlanDependsOnExtensions(cfg, sender, to, Render(Message(sender, to, subject, body)), relay', relay);
      assert PlanOf(cfg, sender, to, subject, body, relay') == plan;
      assert Session(cfg, to, subject, body, relay') == Execute(plan, relay');
      assert Session(cfg, to, subject, body, relay) == Execute(plan, relay);
      CleanupAnswersIgnored(plan, relay, quit, close);
    }
  }

  /**
   * A refused dial issues nothing more; a refused greeting is followed only by the close
   * of the connection; once the client exists the call ends with QUIT and the close of
   * the connection, each issued exactly once.
   */
  lemma ConnectionReleased(cfg: Config, to: string, subject: string, body: string, relay: Relay, sender: string)
    requires SenderAddress(cfg.from, cfg.username) == Some(sender)
    ensures ReleasesConnection(Session(cfg, to, subject, body, relay).transcript,
                               Dial(JoinHostPort(cfg.host, cfg.port)), Greet(cfg.host), relay)
  {
    var msg := Render(Message(sender, to, subject, body));
    var plan := PlanOf(cfg, sender, to, subject, body, relay);
    PlanShape(cfg, sender, to, msg, relay);
    Released(plan, relay);
    assert Session(cfg, to, subject, body, relay) == Execute(plan, relay);
  }

  /** A relay that refuses nothing accepts every command. */
  lemma NothingRefused(cs: seq<Command>, relay: Relay)
    requires relay.refusals == map[]
    ensures AllAccepted(cs, relay)
  {
  }

  /** The address dialled in the example below. */
  lemma ExampleAddress()
    ensures JoinHostPort("localhost", "2525") == "localhost:2525"
  {
    var h := "localhost";
    forall i | 0 <= i < |h| ensures h[i] != ':' {}
  }

  /**
   * The delivery of a verification mail: no From configured, so the username is the
   * sender; the relay advertises STARTTLS and AUTH and accepts everything.
   */
  lemma VerificationMailExample()
    ensures var cfg := Config("localhost", "2525", "user@x.com", "secret", "");
            var relay := Relay({"STARTTLS", "AUTH"}, {"STARTTLS", "AUTH"}, map[]);
            var msg := Render(Message("user@x.com", "dest@y.com", "Verify", "Click link"));
            Session(cfg, "dest@y.com", "Verify", "Click link", relay) ==
              Outcome([Dial("localhost:2525"), Greet("localhost"), Extension("STARTTLS"), StartTls("localhost"),
                       Extension("AUTH"), Auth("user@x.com", "secret", "localhost"), Mail("user@x.com"),
                       Rcpt("dest@y.com"), Data, Write(msg), CloseData] + [Quit, CloseConn],
                      None)
  {
    var cfg := Config("localhost", "2525", "user@x.com", "secret", "");
    var relay := Relay({"STARTTLS", "AUTH"}, {"STARTTLS", "AUTH"}, map[]);
    var msg := Render(Message("user@x.com", "dest@y.com", "Verify", "Click link"));
    assert !IsSpace(cfg.username[0]);
    assert SenderAddress(cfg.from, cfg.username) == Some("user@x.com");
    ExampleAddress();
    PlanFull(cfg, "user@x.com", "dest@y.com", msg, relay);
    var plan := Plan(cfg, "user@x.com", "dest@y.com", msg, relay);
    NothingRefused(plan, relay);
    ExecuteSucceeds(plan, relay);
  }
}

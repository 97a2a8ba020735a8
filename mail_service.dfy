/**
 * The SMTP mail service: an EmailService holds the relay settings, and SendEmail
 * drives one SMTP connection through a delivery, step by step, as the Go code does.
 *
 * The network side is an SmtpConnection: it stands for the TCP connection together
 * with the net/smtp client on top of it. Every command it is given is appended to its
 * transcript, and the relay it talks to decides which commands are refused.
 */
module MailService {
  import opened Wrappers
  import opened Strings
  import opened HostPort
  import opened MailMessage
  import opened MailSession

  /** One SMTP connection and the client driving it. */
  class SmtpConnection {
    /** The relay at the other end. */
    const relay: Relay
    /** Whether the connection has been upgraded by STARTTLS. */
    var tls: bool
    /** Every command issued on this connection so far, in order. */
    var transcript: seq<Command>

    constructor (relay: Relay)
      ensures this.relay == relay && !tls && transcript == []
    {
      this.relay := relay;
      tls := false;
      transcript := [];
    }

    /** Issues a command that gets an answer from the relay; the answer is its error, if any. */
    method Issue(c: Command) returns (err: Option<string>)
      requires !c.Extension? && !c.StartTls?
      modifies this
      ensures transcript == old(transcript) + [c] && tls == old(tls)
      ensures err == Refusal(relay, c)
    {
      transcript := transcript + [c];
      err := Refusal(relay, c);
    }

    /** Upgrades the connection to TLS; after a success the relay's second EHLO reply is in force. */
    method StartTLS(serverName: string) returns (err: Option<string>)
      modifies this
      ensures transcript == old(transcript) + [StartTls(serverName)]
      ensures err == Refusal(relay, StartTls(serverName))
      ensures tls == (old(tls) || err.None?)
    {
      transcript := transcript + [StartTls(serverName)];
      err := Refusal(relay, StartTls(serverName));
      if err.None? {
        tls := true;
      }
    }

    /** Whether the EHLO reply in force advertises an extension; answered without the relay. */
    method Extension(name: string) returns (ok: bool)
      modifies this
      ensures transcript == old(transcript) + [Command.Extension(name)] && tls == old(tls)
      ensures ok <==> name in (if tls then relay.ehloAfterTls else relay.ehlo)
    {
      transcript := transcript + [Command.Extension(name)];
      ok := name in (if tls then relay.ehloAfterTls else relay.ehlo);
    }
  }

  /** The SMTP settings of the service; they are not changed after construction. */
  class EmailService {
    const host: string
    const port: string
    const username: string
    const appPassword: string
    const from: string

    /** NewEmailService: keeps the five settings as given. */
    constructor (host: string, port: string, username: string, appPassword: string, from: string)
      ensures Settings() == Config(host, port, username, appPassword, from)
    {
      this.host := host;
      this.port := port;
      this.username := username;
      this.appPassword := appPassword;
      this.from := from;
    }

    function Settings(): Config {
      Config(host, port, username, appPassword, from)
    }

    /**
     * Sends one plain-text mail over `conn`, a connection not used before. The commands
     * it issues and the error it returns are those of the session specification.
     */
    method SendEmail(conn: SmtpConnection, to: string, subject: string, body: string) returns (err: Option<MailError>)
      requires conn.transcript == [] && !conn.tls
      modifies conn
      ensures Outcome(conn.transcript, err) == Session(Settings(), to, subject, body, conn.relay)
    {
      var fromAddr := from;
      if TrimSpace(fromAddr) == "" {
        fromAddr := username;
      }
      if TrimSpace(fromAddr) == "" {
        return Some(SenderNotConfigured);
      }
      assert SenderAddress(from, username) == Some(fromAddr);
      var msg := Render(Message(fromAddr, to, subject, body));
      err := Deliver(conn, fromAddr, to, msg);
    }

    /**
     * Delivers the rendered message `msg` from `sender` to `to` over `conn`: the
     * network part of SendEmail, from the dial to the deferred close of the connection.
     */
    method Deliver(conn: SmtpConnection, sender: string, to: string, msg: string) returns (err: Option<MailError>)
      requires conn.transcript == [] && !conn.tls
      modifies conn
      ensures Outcome(conn.transcript, err) == Execute(Plan(Settings(), sender, to, msg, conn.relay), conn.relay)
    {
      var addr := JoinHostPort(host, port);
      ghost var relay := conn.relay;
      ghost var plan := Plan(Settings(), sender, to, msg, relay);
      TracksStart(plan, relay);

      // Connect, then read the greeting; the connection is closed on every later return.
      var e := Step(conn, Dial(addr), plan, plan);
      if e.Some? {
        ExecuteOfRun(plan, relay, conn.transcript, Some((Dial(addr), e.value)));
        return Some(DialFailed(addr, e.value));
      }
      e := Step(conn, Greet(host), plan, plan[1..]);
      if e.Some? {
        var greetErr := e.value;
        ExecuteOfRun(plan, relay, conn.transcript, Some((Greet(host), greetErr)));
        e := conn.Issue(CloseConn);
        return Some(NewClientFailed(greetErr));
      }
      assert plan[2..] == Conversation(Settings(), sender, to, msg, relay);

      // The conversation, then the deferred QUIT and close, whose errors are dropped.
      ghost var failure;
      err, failure := Converse(conn, sender, to, msg, plan);
      ExecuteOfRun(plan, relay, conn.transcript, failure);
      Release(conn);
    }

    /** The deferred QUIT, then the deferred close of the connection; their errors are dropped. */
    method Release(conn: SmtpConnection)
      modifies conn
      ensures conn.transcript == old(conn.transcript) + [Quit, CloseConn] && conn.tls == old(conn.tls)
    {
      var e := conn.Issue(Quit);
      e := conn.Issue(CloseConn);
    }

    /**
     * Everything between the greeting and the deferred QUIT. It continues a run of
     * `plan` whose remaining commands are the conversation, and ends that run.
     */
    method Converse(conn: SmtpConnection, sender: string, to: string, msg: string, ghost plan: seq<Command>)
      returns (err: Option<MailError>, ghost failure: Option<(Command, string)>)
      requires !conn.tls
      requires Tracks(plan, conn.transcript, Conversation(Settings(), sender, to, msg, conn.relay), conn.relay)
      modifies conn
      ensures Run(plan, conn.relay) == Trace(conn.transcript, failure)
      ensures failure.None? ==> err.None?
      ensures failure.Some? ==>
        && Reported(failure.value.0) && !failure.value.0.Dial? && !failure.value.0.Greet?
        && err == Some(ErrorOf(failure.value.0, failure.value.1))
    {
      err, failure := Secure(conn, plan, EnvelopeSteps(sender, to, msg));
      if err.Some? {
        return;
      }
      err, failure := Transfer(conn, sender, to, msg, plan);
    }

    /** The STARTTLS phase, then the AUTH phase; `after` is what the plan holds beyond them. */
    method Secure(conn: SmtpConnection, ghost plan: seq<Command>, ghost after: seq<Command>)
      returns (err: Option<MailError>, ghost failure: Option<(Command, string)>)
      requires !conn.tls
      requires Tracks(plan, conn.transcript,
                      [Command.Extension("STARTTLS")] + UpgradeSteps(Settings(), conn.relay) + AuthSteps(Settings(), conn.relay) + after,
                      conn.relay)
      modifies conn
      ensures err.None? ==> failure.None? && Tracks(plan, conn.transcript, after, conn.relay)
      ensures err.Some? ==>
        && failure.Some? && (failure.value.0 == StartTls(host) || failure.value.0 == Auth(username, appPassword, host))
        && Run(plan, conn.relay) == Trace(conn.transcript, failure)
        && err == Some(ErrorOf(failure.value.0, failure.value.1))
    {
      ghost var cfg := Settings();
      ghost var relay := conn.relay;
      TracksRegroup(plan, conn.transcript, [Command.Extension("STARTTLS")] + UpgradeSteps(cfg, relay), AuthSteps(cfg, relay), after, relay);
      err, failure := Upgrade(conn, plan, AuthSteps(cfg, relay) + after);
      if err.Some? {
        return;
      }
      err, failure := Authenticate(conn, plan, after);
    }

    /** Looks up STARTTLS and, when it is advertised, upgrades the connection. */
    method Upgrade(conn: SmtpConnection, ghost plan: seq<Command>, ghost after: seq<Command>)
      returns (err: Option<MailError>, ghost failure: Option<(Command, string)>)
      requires !conn.tls
      requires Tracks(plan, conn.transcript, [Command.Extension("STARTTLS")] + UpgradeSteps(Settings(), conn.relay) + after, conn.relay)
      modifies conn
      ensures err.None? ==>
        failure.None? && Tracks(plan, conn.transcript, after, conn.relay) && conn.tls == ("STARTTLS" in conn.relay.ehlo)
      ensures err.Some? ==>
        && failure.Some? && failure.value.0 == StartTls(host) && err == Some(ErrorOf(failure.value.0, failure.value.1))
        && Run(plan, conn.relay) == Trace(conn.transcript, failure)
    {
      ghost var relay := conn.relay;
      ghost var rest := [Command.Extension("STARTTLS")] + UpgradeSteps(Settings(), relay) + after;
      ghost var done := conn.transcript;
      var ok := conn.Extension("STARTTLS");
      Advance(plan, done, rest, relay);
      rest := rest[1..];
      if ok {
        done := conn.transcript;
        var e := conn.StartTLS(host);
        if e.Some? {
          assert ErrorOf(StartTls(host), e.value) == StartTlsFailed(e.value);
          StopAt(plan, done, rest, relay);
          return Some(StartTlsFailed(e.value)), Some((StartTls(host), e.value));
        }
        Advance(plan, done, rest, relay);
        assert rest[1..] == after;
      } else {
        assert rest == after;
      }
      return None, None;
    }

    /** With both credentials set, looks up AUTH and, when it is advertised, authenticates. */
    method Authenticate(conn: SmtpConnection, ghost plan: seq<Command>, ghost after: seq<Command>)
      returns (err: Option<MailError>, ghost failure: Option<(Command, string)>)
      requires conn.tls == ("STARTTLS" in conn.relay.ehlo)
      requires Tracks(plan, conn.transcript, AuthSteps(Settings(), conn.relay) + after, conn.relay)
      modifies conn
      ensures err.None? ==> failure.None? && Tracks(plan, conn.transcript, after, conn.relay)
      ensures err.Some? ==>
        && failure.Some? && failure.value.0 == Auth(username, appPassword, host) && err == Some(ErrorOf(failure.value.0, failure.value.1))
        && Run(plan, conn.relay) == Trace(conn.transcript, failure)
    {
      ghost var relay := conn.relay;
      ghost var rest := AuthSteps(Settings(), relay) + after;
      if username != "" && appPassword != "" {
        ghost var done := conn.transcript;
        var ok := conn.Extension("AUTH");
        Advance(plan, done, rest, relay);
        rest := rest[1..];
        if ok {
          assert rest[0] == Auth(username, appPassword, host);
          done := conn.transcript;
          var e := conn.Issue(Auth(username, appPassword, host));
          if e.Some? {
            assert ErrorOf(Auth(username, appPassword, host), e.value) == AuthFailed(e.value);
            StopAt(plan, done, rest, relay);
            return Some(AuthFailed(e.value)), Some((Auth(username, appPassword, host), e.value));
          }
          Advance(plan, done, rest, relay);
          assert rest[1..] == after;
        } else {
          assert rest == after;
        }
      } else {
        assert rest == after;
      }
      return None, None;
    }

    /** MAIL, RCPT, DATA, then the write of the message and the close of the data writer. */
    method Transfer(conn: SmtpConnection, sender: string, to: string, msg: string, ghost plan: seq<Command>)
      returns (err: Option<MailError>, ghost failure: Option<(Command, string)>)
      requires Tracks(plan, conn.transcript, EnvelopeSteps(sender, to, msg), conn.relay)
      modifies conn
      ensures Run(plan, conn.relay) == Trace(conn.transcript, failure)
      ensures failure.None? ==> err.None?
      ensures failure.Some? ==> Envelope(failure.value.0) && err == Some(ErrorOf(failure.value.0, failure.value.1))
    {
      ghost var rest := EnvelopeSteps(sender, to, msg);
      var e := Step(conn, Mail(sender), plan, rest);
      if e.Some? {
        return Some(MailFromFailed(e.value)), Some((Mail(sender), e.value));
      }
      err, failure := Recipient(conn, to, msg, plan, rest[1..]);
    }

    /** RCPT, then DATA, the write of the message and the close of the data writer. */
    method Recipient(conn: SmtpConnection, to: string, msg: string, ghost plan: seq<Command>, ghost rest: seq<Command>)
      returns (err: Option<MailError>, ghost failure: Option<(Command, string)>)
      requires |rest| == 4 && rest[0] == Rcpt(to) && rest[1] == Data && rest[2] == Write(msg) && rest[3] == CloseData
      requires Tracks(plan, conn.transcript, rest, conn.relay)
      modifies conn
      ensures Run(plan, conn.relay) == Trace(conn.transcript, failure)
      ensures failure.None? ==> err.None?
      ensures failure.Some? ==> Envelope(failure.value.0) && err == Some(ErrorOf(failure.value.0, failure.value.1))
    {
      var e := Step(conn, Rcpt(to), plan, rest);
      if e.Some? {
        return Some(RcptToFailed(to, e.value)), Some((Rcpt(to), e.value));
      }
      err, failure := SendData(conn, msg, plan, rest[1..]);
    }

    /** DATA, then the write of the message and the close of the data writer. */
    method SendData(conn: SmtpConnection, msg: string, ghost plan: seq<Command>, ghost rest: seq<Command>)
      returns (err: Option<MailError>, ghost failure: Option<(Command, string)>)
      requires |rest| == 3 && rest[0] == Data && rest[1] == Write(msg) && rest[2] == CloseData
      requires Tracks(plan, conn.transcript, rest, conn.relay)
      modifies conn
      ensures Run(plan, conn.relay) == Trace(conn.transcript, failure)
      ensures failure.None? ==> err.None?
      ensures failure.Some? ==> Envelope(failure.value.0) && err == Some(ErrorOf(failure.value.0, failure.value.1))
    {
      var e := Step(conn, Data, plan, rest);
      if e.Some? {
        return Some(DataStartFailed(e.value)), Some((Data, e.value));
      }
      err, failure := WriteMessage(conn, msg, plan, rest[1..]);
    }

    /** Writes the message, then closes the data writer whatever the write did; the write's error comes first. */
    method WriteMessage(conn: SmtpConnection, msg: string, ghost plan: seq<Command>, ghost rest: seq<Command>)
      returns (err: Option<MailError>, ghost failure: Option<(Command, string)>)
      requires |rest| == 2 && rest[0] == Write(msg) && rest[1] == CloseData
      requires Tracks(plan, conn.transcript, rest, conn.relay)
      modifies conn
      ensures Run(plan, conn.relay) == Trace(conn.transcript, failure)
      ensures failure.None? ==> err.None?
      ensures failure.Some? ==> Envelope(failure.value.0) && err == Some(ErrorOf(failure.value.0, failure.value.1))
    {
      ghost var relay := conn.relay;
      ghost var done := conn.transcript;
      var werr := conn.Issue(Write(msg));
      var cerr := conn.Issue(CloseData);
      if werr.Some? {
        assert ErrorOf(Write(msg), werr.value) == WriteFailed(werr.value) && Envelope(Write(msg));
        StopAtWrite(plan, done, rest, relay);
        return Some(WriteFailed(werr.value)), Some((Write(msg), werr.value));
      }
      Advance(plan, done, rest, relay);
      if cerr.Some? {
        assert ErrorOf(CloseData, cerr.value) == CloseFailed(cerr.value) && Envelope(CloseData);
        StopAt(plan, done + [Write(msg)], rest[1..], relay);
        return Some(CloseFailed(cerr.value)), Some((CloseData, cerr.value));
      }
      Advance(plan, done + [Write(msg)], rest[1..], relay);
      assert rest[1..][1..] == [];
      Finished(plan, conn.transcript, relay);
      return None, None;
    }

    /**
     * Issues `c`, the next command of the plan. When the relay refuses it, the run of the
     * plan ends with it; otherwise the run goes on with the commands after it.
     */
    method Step(conn: SmtpConnection, c: Command, ghost plan: seq<Command>, ghost rest: seq<Command>)
      returns (e: Option<string>)
      requires !c.Extension? && !c.StartTls? && !c.Write?
      requires rest != [] && rest[0] == c && Tracks(plan, conn.transcript, rest, conn.relay)
      modifies conn
      ensures conn.transcript == old(conn.transcript) + [c] && conn.tls == old(conn.tls)
      ensures e == Refusal(conn.relay, c)
      ensures e.None? ==> Tracks(plan, conn.transcript, rest[1..], conn.relay)
      ensures e.Some? ==> Run(plan, conn.relay) == Trace(conn.transcript, Some((c, e.value)))
    {
      ghost var done := conn.transcript;
      e := conn.Issue(c);
      if e.Some? {
        StopAt(plan, done, rest, conn.relay);
      } else {
        Advance(plan, done, rest, conn.relay);
      }
    }
  }
}

# News-brief mail delivery and OAuth callback guards, in Dafny

This project models two pieces of the news-brief back end.

**`EmailService.SendEmail`.** It sends one plain-text mail over SMTP:
- It chooses the envelope sender: the configured From, or the Username when From is blank after trimming white space.
- It renders the message: the From, To and Subject header lines, the MIME-Version and Content-Type fields, an empty line, the body and a final CRLF.
- It dials the relay at `host:port` and reads the greeting.
- It upgrades with STARTTLS when the relay advertises it.
- It authenticates with AUTH PLAIN when both credentials are set and AUTH is advertised.
- It runs MAIL, RCPT and DATA, writes the message and closes the data writer.
- The close of the connection is deferred once the dial succeeds, and QUIT once the client exists. Once registered, each runs on every later return, and their errors are dropped.

Every step that can fail has its own error.

The model has three layers:
- `MailMessage` holds the sender choice, the rendering, and a reference parser that reads the fields back.
- `MailSession` is a specification of one call over an abstract relay. The relay says which extensions it advertises, before and after the TLS upgrade, and which commands it refuses, with what error. The specification has:
  - a *plan*: the commands a fully successful call issues;
  - *Run*: the plan executed up to the first refusal;
  - the *cleanup*, which depends on how far the call got;
  - the error mapping.
- `MailService` has two classes. `SmtpConnection` is a connection with its transcript and TLS state. `EmailService` has a `SendEmail` method that works step by step, as the Go code does, and is proved to produce exactly the transcript and error of that specification.

**Three guards from the Google OAuth handler:**
- **The name split.** Google's display name becomes a first name and a last name.
- **`cookieParams`.** It gives the domain and secure flag of the state cookie.
- **The callback guards.** The CSRF state is checked first, and the authorization code next. The response each guard writes is recorded on a context object.

`Strings` models Go's `unicode.IsSpace`, `strings.TrimSpace` and `strings.Fields`. `HostPort` models `net.JoinHostPort` and `url.URL.Hostname`.

Two consequences of the code are worth stating:
- The error of QUIT is never reported, not even when it is the only failure.
- The `ctx` argument is never consulted.
- The subject is written unchanged, so a subject holding CRLF can add header lines or end the header block early.

## Model

| member | source | states |
|---|---|---|
| Strings.IsSpace | internal/infrastructure/external_services/mail_service.go:40 | No contract of its own. It lists the code points Go's `unicode.IsSpace` accepts: tab through carriage return, space, U+0085, U+00A0, U+1680, U+2000 to U+200A, U+2028, U+2029, U+202F, U+205F and U+3000. TrimSpace and Fields are stated in terms of it. |
| Strings.TrimSpace | internal/infrastructure/external_services/mail_service.go:40 | The trimmed string is empty exactly when the input is all white space, and it has no white space at either end. |
| Strings.Fields | internal/handler/http/auth_handler.go:106 | Every field is a non-empty run without white space. There are no fields exactly when the string is all white space. |
| Strings.FieldsOfJoin | internal/handler/http/auth_handler.go:106 | The fields of words joined by spaces are exactly those words: Fields inverts the joining. |
| Strings.FieldsOfSpread | internal/handler/http/auth_handler.go:106 | Words laid out with any white space (optional leading and trailing white space, at least one white-space character between two words) have exactly those words as fields, in order. |
| Strings.GapsOf | internal/handler/http/auth_handler.go:106 | Every string is its fields laid out with white space of that kind. With FieldsOfSpread this pins Fields down on every input: the fields are the maximal non-white-space runs, in order. |
| Strings.FirstFieldOpens | internal/handler/http/auth_handler.go:106 | The first field is a prefix of the string with its leading white space removed. |
| Strings.LastFieldCloses | internal/handler/http/auth_handler.go:106 | The last field is a suffix of the string with its trailing white space removed. |
| HostPort.JoinHostPort | internal/infrastructure/external_services/mail_service.go:61 | No contract of its own. HostnameOfJoin is its partner: Hostname recovers the host from the address it builds. |
| HostPort.Hostname | internal/handler/http/auth_handler.go:52 | The host name is never longer than `host[:port]`. A colon-free, unbracketed `host[:port]` is its own host name. |
| HostPort.HostnameOfJoin | internal/handler/http/auth_handler.go:52 | Hostname undoes JoinHostPort: the host of `host:port` (bracketed when it holds a colon) is `host` again, for a numeric port. This needs a host that holds a colon or is not already wrapped in brackets: for a colon-free `[abc]`, Hostname drops the brackets. |
| MailMessage.SenderAddress | internal/infrastructure/external_services/mail_service.go:39-45 | The sender is From when From is not blank, else Username when that is not blank, else there is none. The chosen value is not trimmed. |
| MailMessage.Render | internal/infrastructure/external_services/mail_service.go:48-59 | No contract of its own. RenderSpelledOut states its text byte for byte, and RenderParseRoundTrip, ParseRenderInverse and RoundTripIffNoCRLF relate it to the reference parser. |
| MailMessage.RenderSpelledOut | internal/infrastructure/external_services/mail_service.go:48-59 | The rendered message is, byte for byte, the three header lines, the two MIME fields, an empty line, the body and a final CRLF. |
| MailMessage.RenderParseRoundTrip | internal/infrastructure/external_services/mail_service.go:48-59 | Splitting the rendered message at the first empty line recovers all four fields, when From, To and Subject hold no CRLF. |
| MailMessage.ParseRenderInverse | internal/infrastructure/external_services/mail_service.go:48-59 | Every text the reference parser accepts is the rendering of the message it parses to. |
| MailMessage.RoundTripIffNoCRLF | internal/infrastructure/external_services/mail_service.go:48-59 | The rendered message reads back as itself exactly when From, To and Subject hold no CRLF. With a CRLF in any of them, it reads back as some other message or as none. |
| MailMessage.SubjectWithCRLFBreaksRoundTrip | internal/infrastructure/external_services/mail_service.go:52 | A subject holding exactly one CRLF, with From and To free of CRLF, is written unchanged and splits into two header lines, so the text no longer parses as a message. |
| MailMessage.SubjectInjectsHeaders | internal/infrastructure/external_services/mail_service.go:52 | Header injection: a subject that ends with the two MIME fields and an empty line ends the header block early. The text then parses as a different message, whose subject is the part before the first CRLF and whose body starts with the real MIME fields. |
| MailSession.ErrorOf | internal/infrastructure/external_services/mail_service.go:64-113 | Each failing step has its own error kind, in both directions: a dial gives the dial error, the greeting the client error, STARTTLS, AUTH, MAIL, RCPT, DATA, the write and the data close each their own. The dial error names the address and the RCPT error the recipient. Every error carries the relay's cause, and none is the configuration error. |
| MailSession.ErrorText | internal/infrastructure/external_services/mail_service.go:44-113 | Every network error's text starts with `smtp ` and ends with `: ` and the text of its cause, which is wrapped last. RcptErrorNamesRecipient adds that the RCPT text names the recipient. |
| MailSession.Plan | internal/infrastructure/external_services/mail_service.go:61-108 | A plan never contains the cleanup commands, QUIT and the close of the connection. |
| MailSession.PlanFull | internal/infrastructure/external_services/mail_service.go:61-108 | With STARTTLS and AUTH advertised and both credentials set, the plan is: dial, greeting, STARTTLS query, STARTTLS, AUTH query, AUTH, MAIL, RCPT, DATA, write, close of the data writer. |
| MailSession.PlanDependsOnExtensions | internal/infrastructure/external_services/mail_service.go:77-86 | The plan depends on the relay only through the extensions it advertises. |
| MailSession.Run | internal/infrastructure/external_services/mail_service.go:64-114 | The issued commands are a prefix of the plan, and the whole plan when nothing is refused. A failure names a planned command and the relay's answer to it. |
| MailSession.RunSucceedsIffAccepted | internal/infrastructure/external_services/mail_service.go:64-116 | A run fails exactly when some planned command is refused. |
| MailSession.RunStopsAt | internal/infrastructure/external_services/mail_service.go:64-113 | A run stops at the first refused command. After a refused write, only the close of the data writer follows. |
| MailSession.Execute | internal/infrastructure/external_services/mail_service.go:63-116 | An executed plan never reports the configuration error. |
| MailSession.Cleanup | internal/infrastructure/external_services/mail_service.go:64-74 | No contract of its own. Released and ConnectionReleased state what it issues: nothing after a refused dial, only the close after a refused greeting, otherwise QUIT and then the close. CleanupAnswersIgnored and CleanupErrorsDiscarded state that its answers are dropped. |
| MailSession.Session | internal/infrastructure/external_services/mail_service.go:38-116 | No contract of its own. NoSenderNoNetwork, SuccessIssuesWholePlan, FailingStep and ConnectionReleased describe it, and EmailService.SendEmail is proved to produce exactly its outcome. |
| MailSession.ExecuteSucceeds | internal/infrastructure/external_services/mail_service.go:116 | Execution succeeds exactly when every planned command is accepted. The transcript is then the plan, QUIT and the close of the connection. |
| MailSession.ExecuteFailure | internal/infrastructure/external_services/mail_service.go:64-113 | A failing execution stops at its first refused command and reports that command's error with the relay's cause. |
| MailSession.ExecuteCommands | internal/infrastructure/external_services/mail_service.go:64-74 | Only planned commands and the two cleanup commands are ever issued. |
| MailSession.NoSenderNoNetwork | internal/infrastructure/external_services/mail_service.go:43-45 | The configuration error happens exactly when From and Username are both blank, and then nothing is sent over the network. |
| MailSession.SuccessIssuesWholePlan | internal/infrastructure/external_services/mail_service.go:61-116 | A call with a sender succeeds exactly when the relay refuses no planned command. It then issues the whole plan in order, QUIT and the close. |
| MailSession.FailingStep | internal/infrastructure/external_services/mail_service.go:64-113 | A failing call is refused at a first planned command. The outcome is the plan up to that command, its cleanup, and that command's error. |
| MailSession.StartTlsIffAdvertised | internal/infrastructure/external_services/mail_service.go:77-82 | Once connected, STARTTLS is issued exactly when it is advertised. Without it the call cannot fail on STARTTLS. |
| MailSession.StartTlsFailureStops | internal/infrastructure/external_services/mail_service.go:79-81 | A refused STARTTLS ends the call: dial, greeting, query, STARTTLS, QUIT, close, and nothing else. |
| MailSession.AuthOnlyWhenOffered | internal/infrastructure/external_services/mail_service.go:85-92 | AUTH is issued only with both credentials set and AUTH advertised after any upgrade. It carries the configured username, password and host. |
| MailSession.AuthFailureStops | internal/infrastructure/external_services/mail_service.go:88-90 | A refused AUTH ends the call before MAIL, RCPT and DATA. The plan up to AUTH is issued, then QUIT and the close. |
| MailSession.RcptErrorNamesRecipient | internal/infrastructure/external_services/mail_service.go:99 | The text of the RCPT error contains the recipient. |
| MailSession.RcptFailureNamesRecipient | internal/infrastructure/external_services/mail_service.go:98-100 | A RCPT failure carries the caller's recipient, and its text names it. |
| MailSession.DataWriteAndClose | internal/infrastructure/external_services/mail_service.go:107-114 | A refused write still closes the data writer and reports the write's error. A refused close alone reports the close error. |
| MailSession.CleanupAnswersIgnored | internal/infrastructure/external_services/mail_service.go:68-74 | How the relay answers QUIT and the close changes nothing in an execution. |
| MailSession.CleanupErrorsDiscarded | internal/infrastructure/external_services/mail_service.go:68-74 | Whatever errors QUIT and the close of the connection get, the call's outcome is the same. |
| MailSession.Released | internal/infrastructure/external_services/mail_service.go:64-74 | For any plan that dials and then greets first, the connection is released as ReleasesConnection describes: nothing after a refused dial, only the close after a refused greeting, otherwise QUIT and then the close, at the end only. |
| MailSession.ConnectionReleased | internal/infrastructure/external_services/mail_service.go:64-74 | A refused dial issues nothing more. A refused greeting is followed only by the close. Otherwise the call ends with QUIT then the close, each issued once. |
| MailSession.VerificationMailExample | internal/infrastructure/external_services/mail_service.go:38-116 | The example delivery (no From, relay advertising STARTTLS and AUTH, accepting everything) uses the username as sender, issues all eleven steps, QUIT and the close, and succeeds. |
| MailService.SmtpConnection.Extension | internal/infrastructure/external_services/mail_service.go:77 | An extension lookup never fails. It answers from the extensions advertised before or after the TLS upgrade, whichever is current. |
| MailService.SmtpConnection.StartTLS | internal/infrastructure/external_services/mail_service.go:79 | STARTTLS is recorded, and the connection becomes encrypted when the relay accepts it (and stays as it was otherwise). |
| MailService.SmtpConnection.Issue | internal/infrastructure/external_services/mail_service.go:64-113 | Any other command is recorded, and its result is the relay's answer to it. |
| MailService.EmailService.constructor | internal/infrastructure/external_services/mail_service.go:24-32 | The service holds the five settings it was built with. |
| MailService.EmailService.SendEmail | internal/infrastructure/external_services/mail_service.go:38-116 | On a fresh connection, the commands issued and the error returned are those of the session specification, for every relay. |
| MailService.EmailService.Deliver | internal/infrastructure/external_services/mail_service.go:61-116 | The network part of a call issues what executing the plan does, cleanup included, and returns its error. |
| MailService.EmailService.Release | internal/infrastructure/external_services/mail_service.go:68-74 | The deferred QUIT and close are issued in that order, and their errors are dropped. |
| MailService.EmailService.Converse | internal/infrastructure/external_services/mail_service.go:76-114 | From the greeting on, the commands issued are the run of the plan. The error returned is the mapped error of its first refusal. |
| MailService.EmailService.Secure | internal/infrastructure/external_services/mail_service.go:76-92 | The STARTTLS phase and then the AUTH phase follow the plan. A refusal in either stops the call and is reported with that step's error (STARTTLS or AUTH). |
| MailService.EmailService.Upgrade | internal/infrastructure/external_services/mail_service.go:76-82 | After the STARTTLS phase the connection is encrypted exactly when STARTTLS was advertised. A refused STARTTLS is reported as a STARTTLS error. |
| MailService.EmailService.Authenticate | internal/infrastructure/external_services/mail_service.go:84-92 | The AUTH phase follows the plan. A refused AUTH is reported as an AUTH error. |
| MailService.EmailService.Transfer | internal/infrastructure/external_services/mail_service.go:94-114 | MAIL through the close of the data writer follow the plan. A failure among them is reported with that step's error. |
| MailService.EmailService.Recipient | internal/infrastructure/external_services/mail_service.go:98-114 | RCPT through the close of the data writer follow the plan. A refused RCPT is reported with the recipient. |
| MailService.EmailService.SendData | internal/infrastructure/external_services/mail_service.go:102-114 | DATA, the write and the close follow the plan, each failure with its own error. |
| MailService.EmailService.WriteMessage | internal/infrastructure/external_services/mail_service.go:107-114 | The data writer is closed even after a refused write, and the write's error takes precedence over the close's. |
| AuthHandler.FirstAndLast | internal/handler/http/auth_handler.go:107-113 | The first word, and the last word only when there are at least two; empty strings stand for missing ones. |
| AuthHandler.SplitName | internal/handler/http/auth_handler.go:106-113 | The first name is empty exactly when the name is blank. There is a last name only if there is a first name. Neither holds white space. |
| AuthHandler.SplitNameOfWords | internal/handler/http/auth_handler.go:106-113 | A name of two or more words, laid out with any white space (leading, trailing, or runs of any length between words), splits into its first and last word. The middle words are dropped. |
| AuthHandler.SplitNameOfOneWord | internal/handler/http/auth_handler.go:108-113 | A one-word name is the first name, and the last name is empty rather than a copy of it. |
| AuthHandler.SplitNameIgnoresSpacing | internal/handler/http/auth_handler.go:106-113 | The same words laid out with any white space (leading, trailing, or runs of any length between them) give the same first and last name. |
| AuthHandler.SplitNameWithinName | internal/handler/http/auth_handler.go:106-113 | Both parts come from the name itself. The first name opens the name after its leading white space. The last name, when there is one, closes it before its trailing white space. |
| AuthHandler.CookieParams | internal/handler/http/auth_handler.go:46-53 | The cookie is secure exactly when the base URL parses with scheme https. The domain is the URL's host name, or empty when the URL does not parse. |
| AuthHandler.CookieDomainDropsPort | internal/handler/http/auth_handler.go:52 | For a base URL whose host is `host:port`, the cookie domain is `host`, without the port. |
| AuthHandler.PlainHttpNotSecure | internal/handler/http/auth_handler.go:51 | Example of CookieParams: an http base URL never yields a secure cookie. |
| AuthHandler.StateCookie | internal/handler/http/auth_handler.go:59-60 | The login's state cookie lives 300 seconds on path `/`, is HTTP only, and takes its domain and secure flag from the cookie parameters. |
| AuthHandler.ClearedStateCookie | internal/handler/http/auth_handler.go:75-76 | The clearing cookie has the state cookie's name, an empty value and a negative max age. |
| AuthHandler.ClearingReplacesStateCookie | internal/handler/http/auth_handler.go:59-76 | The clearing cookie has the name, path, domain and flags of the login's state cookie, and expires where the login cookie lives. |
| AuthHandler.CallbackDecision | internal/handler/http/auth_handler.go:67-82 | The request is refused for its state exactly when the state cookie is missing or differs from `state`. It is refused for its code exactly when the state matches and `code` is empty. Otherwise it goes on to the exchange with that code. |
| AuthHandler.Reply | internal/handler/http/auth_handler.go:70-82 | A bad state gets status 401 and a missing code gets 400. A request that passes writes no response here. |
| AuthHandler.StateCheckedFirst | internal/handler/http/auth_handler.go:67-73 | With a bad state the answer is 401 whatever `code` carries, or when it is absent. |
| AuthHandler.MissingCookieRefused | internal/handler/http/auth_handler.go:68-72 | Example of CallbackDecision and Reply: without a state cookie the request is refused with 401 and its text, even when `state` is empty. |
| AuthHandler.Context.String | internal/handler/http/auth_handler.go:70-81 | Writing a response records exactly that status and text and leaves the cookies set so far unchanged. |
| AuthHandler.Context.SetCookie | internal/handler/http/auth_handler.go:76 | Setting a cookie appends it to the cookies of the response and leaves the response unchanged. |
| AuthHandler.CallbackGuards | internal/handler/http/auth_handler.go:67-82 | The guards write the decision's response and return a code only on the way to the exchange. They clear the state cookie exactly when the state check passed, including when the code then turns out to be missing. |

## Left out

- The `ctx` argument of `SendEmail` is accepted but never used, so there is no cancellation or deadline to model.
- The network and the SMTP library are abstracted into a relay: which extensions it advertises before and after the TLS upgrade, and which commands it refuses, with what error. Not modelled:
  - the TCP connection and the TLS handshake;
  - reply-code parsing and the issuing of EHLO/HELO;
  - the encoding of AUTH PLAIN credentials;
  - dot-stuffing, the `.` that ends DATA, and line-ending normalisation in the data writer.
- A failed EHLO/HELO is not modelled as a step of its own. The Go library reports it at the next command, so here it appears only as a refusal of a later command. One consequence is not captured: net/smtp's `Client.Quit` says hello first and returns the remembered EHLO/HELO error without sending QUIT, so after a failed EHLO and HELO the real session sends no QUIT, while the model's transcript still shows `Quit` before the close. The call's error is the same either way, because QUIT's error is dropped.
- The library's own refusals are part of the relay's abstract answer to a command: the PLAIN mechanism declining to send credentials over an unencrypted non-local connection, and the rejection of CR/LF in MAIL and RCPT addresses.
- On a refused AUTH, the library cancels the exchange and sends a QUIT of its own before the deferred QUIT. Those extra commands are not part of the transcript.
- Error values are modelled by kind and cause text. Go's error wrapping chain (`%w`) is not modelled.
- Go strings are byte sequences. The model treats them as sequences of decoded code points, so invalid UTF-8 is not modelled.
- The fields of `EmailService` are exported and could be changed by other code. This code never changes them, so they are constants here.
- `MailService.SmtpConnection.Issue` and the other connection methods stand for the library calls. Their results come from the relay value, not from I/O.
- The OAuth flow around the guards is I/O or third-party code and is not modelled:
  - building the OAuth configuration from environment variables;
  - the random state and the redirect of the login handler (only the shape of its state cookie is kept);
  - the token exchange, the user-info request and the JSON decoding;
  - the login use case and the JSON response.
- `url.Parse` is abstracted: the parsed base URL is given as an optional scheme and `host[:port]`.
- Framework details not modelled:
  - query parameters are modelled by their first value;
  - cookie values are taken as already unescaped, and the escaping and SameSite attribute added by the framework's SetCookie are not modelled;
  - a response is modelled by its status and text only.
- `internal/handler/http/dto/response.go` (a field-by-field copy with a date format) and `internal/domain/contract/iconfig_provider.go` (an interface) hold no logic to model.
- Concurrency: none appears in this code. Each call uses its own connection.

/**
 * Alert text and its dispatch to the email and webhook channels. The SMTP
 * and HTTP clients are outside the model: each external call is recorded,
 * and whether it raises, or what status it answers, is an input.
 */
module Notifier {
  import opened Wrappers
  import opened Text
  import opened Config
  import opened Metrics

  /** Python's `str()` on the numbers the alert body prints. */
  datatype Show = Show(ofInt: int -> string, ofReal: real -> string)

  const SubjectPrefix: string := "[ALERT] System health issue on "

  /** `format_alert_subject()`: the fixed marker followed by the host name. */
  function FormatAlertSubject(hostname: string): (subject: string)
    ensures |subject| == |SubjectPrefix| + |hostname|
    ensures subject[..|SubjectPrefix|] == SubjectPrefix
    ensures subject[|SubjectPrefix|..] == hostname
  {
    SubjectPrefix + hostname
  }

  /** Different hosts get different subjects. */
  lemma SubjectNamesHost(a: string, b: string)
    requires FormatAlertSubject(a) == FormatAlertSubject(b)
    ensures a == b
  {
    assert a == FormatAlertSubject(a)[|SubjectPrefix|..];
  }

  /** The body line of one process, indented by two spaces. */
  function ProcessLine(p: ProcInfo, show: Show): (line: string)
    ensures |line| > 2 && line[..2] == "  "
  {
    "  " + show.ofInt(p.pid) + " " + p.name
      + " cpu%=" + show.ofReal(p.cpuPercent) + " mem%=" + show.ofReal(p.memoryPercent)
  }

  /** One line per process, in list order. */
  function ProcessLines(ps: seq<ProcInfo>, show: Show): (lines: seq<string>)
    ensures |lines| == |ps|
    ensures forall i :: 0 <= i < |ps| ==> lines[i] == ProcessLine(ps[i], show)
  {
    if ps == [] then [] else [ProcessLine(ps[0], show)] + ProcessLines(ps[1..], show)
  }

  /** The six header lines of the alert body, in order. */
  function HeaderLines(cfg: Settings, m: Snapshot, show: Show): seq<string> {
    [ "Host: " + cfg.hostname,
      "Time: " + m.timestamp,
      "CPU: " + show.ofReal(m.cpu) + "%",
      "Memory: used=" + show.ofReal(m.memory.usedGb) + "GB total=" + show.ofReal(m.memory.totalGb)
        + "GB percent=" + show.ofReal(m.memory.percent) + "%",
      "Disk (" + cfg.diskPartition + "): used=" + show.ofReal(m.disk.usedGb) + "GB total="
        + show.ofReal(m.disk.totalGb) + "GB percent=" + show.ofReal(m.disk.percent) + "%",
      "Top processes:" ]
  }

  /**
   * The lines of the alert body: six header lines, the last of them
   * "Top processes:" even when the list is empty, then one line per process.
   */
  function BodyLines(cfg: Settings, m: Snapshot, show: Show): (lines: seq<string>)
    ensures |lines| == 6 + |m.topProcesses|
    ensures lines[..6] == HeaderLines(cfg, m, show)
    ensures lines[5] == "Top processes:"
    ensures forall i :: 0 <= i < |m.topProcesses| ==> lines[6 + i] == ProcessLine(m.topProcesses[i], show)
  {
    HeaderLines(cfg, m, show) + ProcessLines(m.topProcesses, show)
  }

  /** The last body line is never empty: "Top processes:" or the line of the last process. */
  lemma LastBodyLine(cfg: Settings, m: Snapshot, show: Show)
    ensures var lines := BodyLines(cfg, m, show); lines[|lines| - 1] != []
  {
    var lines := BodyLines(cfg, m, show);
    if |m.topProcesses| == 0 {
      assert lines[|lines| - 1] == lines[5];
    } else {
      assert lines[|lines| - 1] == lines[6 + (|m.topProcesses| - 1)];
    }
  }

  /**
   * `format_alert_body()`: the lines joined by newlines, so the body opens
   * with the host line and a newline.
   */
  function FormatAlertBody(cfg: Settings, m: Snapshot, show: Show): (body: string)
    ensures var host := "Host: " + cfg.hostname + "\n"; |host| <= |body| && body[..|host|] == host
  {
    var lines := BodyLines(cfg, m, show);
    assert lines[0] == HeaderLines(cfg, m, show)[0];
    Join(lines, "\n")
  }

  /**
   * When no rendered value holds a newline, splitting the body on newlines
   * gives back exactly its 6 + |top processes| lines, and the body does not
   * end with a newline.
   */
  lemma BodyIsItsLines(cfg: Settings, m: Snapshot, show: Show)
    requires forall line :: line in BodyLines(cfg, m, show) ==> '\n' !in line
    ensures Split(FormatAlertBody(cfg, m, show), '\n') == BodyLines(cfg, m, show)
    ensures |Split(FormatAlertBody(cfg, m, show), '\n')| == 6 + |m.topProcesses|
    ensures var body := FormatAlertBody(cfg, m, show); body != [] && body[|body| - 1] != '\n'
  {
    LastBodyLine(cfg, m, show);
    assert "\n" == ['\n'];
    JoinedLines(BodyLines(cfg, m, show), '\n');
  }

  // ---------------------------------------------------------------- email

  /** The message `send_email_alert` builds. */
  datatype EmailMessage = EmailMessage(subject: string, sender: string, to: string, content: string)

  /** Which SMTP client call raises. */
  datatype SmtpFaults = SmtpFaults(connect: bool, starttls: bool, login: bool, send: bool, quit: bool)

  /** One call made on the SMTP client; `Quit` is the context manager's exit. */
  datatype SmtpCall =
    | Connect(host: string, port: int, timeout: int)
    | StartTls
    | Login(user: string, password: string)
    | SendMessage(msg: EmailMessage)
    | Quit

  const SendTimeout: int := 10

  /** Login happens only with both a user name and a password. */
  predicate Authenticates(cfg: Settings) {
    cfg.smtpUser != "" && cfg.smtpPassword != ""
  }

  /** The three headers the alert message sets, in the order it sets them. */
  datatype Header = Subject | From | To

  /** The `ValueError` the message raises when a header is given a value spanning several lines. */
  datatype HeaderError = MultiLineHeader(header: Header)

  /**
   * The header whose assignment raises while the message is built. Subject,
   * From and To are assigned in that order, the message refuses a value that
   * spans several lines, and the first such assignment raises. The subject
   * spans several lines exactly when the host name does (`SubjectSpansLines`).
   */
  function RejectedHeader(cfg: Settings): (h: Option<HeaderError>)
    ensures h.None? <==> !MultiLine(cfg.hostname) && !MultiLine(cfg.smtpFrom) && !MultiLine(Join(cfg.smtpTo, ", "))
    ensures h == Some(MultiLineHeader(Subject)) <==> MultiLine(cfg.hostname)
    ensures h == Some(MultiLineHeader(From)) <==> !MultiLine(cfg.hostname) && MultiLine(cfg.smtpFrom)
  {
    if MultiLine(cfg.hostname) then Some(MultiLineHeader(Subject))
    else if MultiLine(cfg.smtpFrom) then Some(MultiLineHeader(From))
    else if MultiLine(Join(cfg.smtpTo, ", ")) then Some(MultiLineHeader(To))
    else None
  }

  /**
   * The message for snapshot `m`, or the error of the header that could not
   * be set. The body is set after the headers and cannot fail.
   */
  function ComposeEmail(cfg: Settings, m: Snapshot, show: Show): (r: Result<EmailMessage, HeaderError>)
    ensures r.Err? <==> RejectedHeader(cfg).Some?
    ensures r.Err? ==> RejectedHeader(cfg) == Some(r.error)
    ensures r.Ok? ==> && r.value.subject == FormatAlertSubject(cfg.hostname) && r.value.sender == cfg.smtpFrom
                      && r.value.to == Join(cfg.smtpTo, ", ") && r.value.content == FormatAlertBody(cfg, m, show)
  {
    match RejectedHeader(cfg)
    case Some(e) => Err(e)
    case None =>
      Ok(EmailMessage(FormatAlertSubject(cfg.hostname), cfg.smtpFrom, Join(cfg.smtpTo, ", "), FormatAlertBody(cfg, m, show)))
  }

  /** The subject spans several lines exactly when the host name does. */
  lemma SubjectSpansLines(hostname: string)
    ensures MultiLine(FormatAlertSubject(hostname)) <==> MultiLine(hostname)
  {
    assert forall k :: 0 <= k < |SubjectPrefix| ==> !IsLineBreak(SubjectPrefix[k]);
    MultiLineAfter(SubjectPrefix, hostname);
  }

  /**
   * Read on the values assigned to the headers: composing fails exactly when
   * the subject, the sender or the To line spans several lines, and the first
   * of them in that order is the one reported.
   */
  lemma RejectedOnHeaderValues(cfg: Settings)
    ensures var subject, to := FormatAlertSubject(cfg.hostname), Join(cfg.smtpTo, ", ");
      && (RejectedHeader(cfg).None? <==> !MultiLine(subject) && !MultiLine(cfg.smtpFrom) && !MultiLine(to))
      && (RejectedHeader(cfg) == Some(MultiLineHeader(Subject)) <==> MultiLine(subject))
      && (RejectedHeader(cfg) == Some(MultiLineHeader(From)) <==> !MultiLine(subject) && MultiLine(cfg.smtpFrom))
      && (RejectedHeader(cfg) == Some(MultiLineHeader(To)) <==> !MultiLine(subject) && !MultiLine(cfg.smtpFrom) && MultiLine(to))
  {
    SubjectSpansLines(cfg.hostname);
  }

  /** A host name with a newline inside it makes composing the message raise at its Subject. */
  lemma BrokenHostRejected(cfg: Settings, m: Snapshot, show: Show, a: string, b: string)
    requires cfg.hostname == a + "\n" + b && b != []
    ensures RejectedHeader(cfg) == Some(MultiLineHeader(Subject))
    ensures ComposeEmail(cfg, m, show) == Err(MultiLineHeader(Subject))
  {
    InteriorBreak(a, '\n', b);
    assert cfg.hostname == a + ['\n'] + b;
  }

  /** The To header of a composed message reads back as the recipient list. */
  lemma ToHeaderReadsBack(cfg: Settings, m: Snapshot, show: Show)
    requires forall e :: e in cfg.smtpTo ==> WellFormedRecipient(e)
    requires ComposeEmail(cfg, m, show).Ok?
    ensures Recipients(ComposeEmail(cfg, m, show).value.to) == cfg.smtpTo
  {
    RecipientsOfToHeader(cfg.smtpTo);
  }

  /** Sending is attempted and composing the message raises. */
  predicate ComposeFails(cfg: Settings) {
    cfg.smtpEnabled && RejectedHeader(cfg).Some?
  }

  /** The email channel reports success: enabled and no call it made raised. */
  predicate EmailDelivered(cfg: Settings, faults: SmtpFaults) {
    && cfg.smtpEnabled
    && !faults.connect && !faults.starttls
    && !(Authenticates(cfg) && faults.login)
    && !faults.send && !faults.quit
  }

  /**
   * The SMTP calls `send_email_alert()` makes, in order: none when the
   * channel is disabled or the message could not be composed; the
   * connection; STARTTLS; the login, only with credentials; the message; and
   * the QUIT the context manager sends on leaving, whether the block
   * finished or raised. A failed connection leaves no session to close.
   */
  function EmailCalls(cfg: Settings, m: Snapshot, show: Show, faults: SmtpFaults): seq<SmtpCall> {
    var connect := Connect(cfg.smtpHost, cfg.smtpPort, SendTimeout);
    var login := if Authenticates(cfg) then [Login(cfg.smtpUser, cfg.smtpPassword)] else [];
    var composed := ComposeEmail(cfg, m, show);
    if !cfg.smtpEnabled || RejectedHeader(cfg).Some? then []
    else if faults.connect then [connect]
    else if faults.starttls then [connect, StartTls, Quit]
    else if Authenticates(cfg) && faults.login then [connect, StartTls] + login + [Quit]
    else [connect, StartTls] + login + [SendMessage(composed.value), Quit]
  }

  /** The session is opened first and, once opened, always closed last. */
  lemma EmailOpensAndCloses(cfg: Settings, m: Snapshot, show: Show, faults: SmtpFaults)
    ensures var calls := EmailCalls(cfg, m, show, faults);
      && (calls == [] <==> !cfg.smtpEnabled || ComposeFails(cfg))
      && (calls != [] ==> calls[0] == Connect(cfg.smtpHost, cfg.smtpPort, SendTimeout))
      && (calls != [] && !faults.connect ==> calls[|calls| - 1] == Quit)
      && (forall i :: 0 <= i < |calls| - 1 ==> !calls[i].Quit?)
  {
  }

  /**
   * A login is attempted exactly when the message was composed, credentials
   * are set and STARTTLS succeeded, and with those credentials.
   */
  lemma EmailLogsIn(cfg: Settings, m: Snapshot, show: Show, faults: SmtpFaults)
    ensures var calls := EmailCalls(cfg, m, show, faults);
      && ((exists i :: 0 <= i < |calls| && calls[i].Login?)
          <==> cfg.smtpEnabled && !ComposeFails(cfg) && Authenticates(cfg) && !faults.connect && !faults.starttls)
      && (forall i :: 0 <= i < |calls| && calls[i].Login? ==> calls[i] == Login(cfg.smtpUser, cfg.smtpPassword))
  {
    var calls := EmailCalls(cfg, m, show, faults);
    if cfg.smtpEnabled && !ComposeFails(cfg) && Authenticates(cfg) && !faults.connect && !faults.starttls {
      assert calls[2].Login?;
    }
  }

  /** The message is handed over exactly when every earlier step succeeded, and it is the composed alert. */
  lemma EmailSends(cfg: Settings, m: Snapshot, show: Show, faults: SmtpFaults)
    ensures var calls := EmailCalls(cfg, m, show, faults);
      && ((exists i :: 0 <= i < |calls| && calls[i].SendMessage?)
          <==> && cfg.smtpEnabled && !ComposeFails(cfg)
               && !faults.connect && !faults.starttls && !(Authenticates(cfg) && faults.login))
      && (forall i :: 0 <= i < |calls| && calls[i].SendMessage? ==> Ok(calls[i].msg) == ComposeEmail(cfg, m, show))
  {
    var calls := EmailCalls(cfg, m, show, faults);
    if && cfg.smtpEnabled && !ComposeFails(cfg)
       && !faults.connect && !faults.starttls && !(Authenticates(cfg) && faults.login) {
      assert calls[|calls| - 2].SendMessage?;
    }
  }

  /**
   * `send_email_alert()`: the header error when composing the message
   * raised (it is not caught there), otherwise whether `EmailDelivered`
   * holds; and the calls `EmailCalls` lists.
   */
  method SendEmailAlert(cfg: Settings, m: Snapshot, show: Show, faults: SmtpFaults)
    returns (r: Result<bool, HeaderError>, calls: seq<SmtpCall>)
    ensures r.Err? <==> ComposeFails(cfg)
    ensures r.Err? ==> RejectedHeader(cfg) == Some(r.error)
    ensures r.Ok? ==> r.value == EmailDelivered(cfg, faults)
    ensures calls == EmailCalls(cfg, m, show, faults)
  {
    if !cfg.smtpEnabled {
      return Ok(false), [];
    }
    var composed := ComposeEmail(cfg, m, show);
    if composed.Err? {
      return Err(composed.error), [];
    }
    calls := [Connect(cfg.smtpHost, cfg.smtpPort, SendTimeout)];
    if faults.connect {
      return Ok(false), calls;
    }
    calls := calls + [StartTls];
    if faults.starttls {
      return Ok(false), calls + [Quit];
    }
    if Authenticates(cfg) {
      calls := calls + [Login(cfg.smtpUser, cfg.smtpPassword)];
      if faults.login {
        return Ok(false), calls + [Quit];
      }
    }
    calls := calls + [SendMessage(composed.value), Quit];
    r := Ok(!faults.send && !faults.quit);
  }

  // -------------------------------------------------------------- webhook

  datatype Attachment = Attachment(text: string)

  /** The JSON payload `{"text": subject, "attachments": [{"text": body}]}`. */
  datatype Payload = Payload(text: string, attachments: seq<Attachment>)

  /** The one HTTP call the webhook channel makes. */
  datatype HttpCall = Post(url: string, payload: Payload, timeout: int)

  /** What the POST did: raised, or answered with a status code. */
  datatype PostOutcome = PostRaised | Responded(status: int)

  /** The statuses `raise_for_status()` turns into an exception. */
  predicate IsHttpError(status: int) {
    400 <= status < 600
  }

  /** The webhook channel is attempted: enabled and with a non-empty URL. */
  predicate WebhookActive(cfg: Settings) {
    cfg.webhookEnabled && cfg.webhookUrl != ""
  }

  /** The webhook channel reports success. */
  predicate WebhookDelivered(cfg: Settings, post: PostOutcome) {
    WebhookActive(cfg) && post.Responded? && !IsHttpError(post.status)
  }

  /** The HTTP calls `send_webhook_alert()` makes: none when inactive, else the one POST of the alert. */
  function WebhookCalls(cfg: Settings, m: Snapshot, show: Show): seq<HttpCall> {
    if !WebhookActive(cfg) then []
    else [Post(cfg.webhookUrl, Payload(FormatAlertSubject(cfg.hostname), [Attachment(FormatAlertBody(cfg, m, show))]), SendTimeout)]
  }

  /** `send_webhook_alert()`: the result, and the HTTP calls made. */
  method SendWebhookAlert(cfg: Settings, m: Snapshot, show: Show, post: PostOutcome)
    returns (ok: bool, calls: seq<HttpCall>)
    ensures ok == WebhookDelivered(cfg, post)
    ensures !WebhookActive(cfg) ==> calls == []
    ensures WebhookActive(cfg) ==> calls == [Post(cfg.webhookUrl,
      Payload(FormatAlertSubject(cfg.hostname), [Attachment(FormatAlertBody(cfg, m, show))]), SendTimeout)]
  {
    if !cfg.webhookEnabled || cfg.webhookUrl == "" {
      return false, [];
    }
    var payload := Payload(FormatAlertSubject(cfg.hostname), [Attachment(FormatAlertBody(cfg, m, show))]);
    calls := [Post(cfg.webhookUrl, payload, SendTimeout)];
    match post
    case PostRaised =>
      ok := false;
    case Responded(status) =>
      ok := !IsHttpError(status);
  }

  // ------------------------------------------------------------- dispatch

  /** An external call made while dispatching, on either channel. */
  datatype ExternalCall = Smtp(smtp: SmtpCall) | Http(http: HttpCall)

  /** What `notify_all()` returns: each channel's name mapped to whether it delivered. */
  function Dispatched(cfg: Settings, faults: SmtpFaults, post: PostOutcome): map<string, bool> {
    map["email" := EmailDelivered(cfg, faults), "webhook" := WebhookDelivered(cfg, post)]
  }

  function AsSmtp(calls: seq<SmtpCall>): seq<ExternalCall> {
    seq(|calls|, i requires 0 <= i < |calls| => Smtp(calls[i]))
  }

  function AsHttp(calls: seq<HttpCall>): seq<ExternalCall> {
    seq(|calls|, i requires 0 <= i < |calls| => Http(calls[i]))
  }

  /**
   * `notify_all()`: email first, then webhook. A message that cannot be
   * composed raises out of the email channel before any SMTP call, and the
   * webhook is then not attempted. Otherwise each channel runs whatever the
   * other did, and the result maps exactly "email" and "webhook" to their
   * outcomes.
   */
  method NotifyAll(cfg: Settings, m: Snapshot, show: Show, faults: SmtpFaults, post: PostOutcome)
    returns (result: Result<map<string, bool>, HeaderError>, calls: seq<ExternalCall>)
    ensures result.Err? <==> ComposeFails(cfg)
    ensures result.Err? ==> RejectedHeader(cfg) == Some(result.error) && calls == []
    ensures result.Ok? ==> result.value == Dispatched(cfg, faults, post) && result.value.Keys == {"email", "webhook"}
    ensures calls == AsSmtp(EmailCalls(cfg, m, show, faults)) + (if result.Ok? then AsHttp(WebhookCalls(cfg, m, show)) else [])
    ensures (exists i :: 0 <= i < |calls| && calls[i].Smtp?) <==> cfg.smtpEnabled && !ComposeFails(cfg)
    ensures (exists i :: 0 <= i < |calls| && calls[i].Http?) <==> WebhookActive(cfg) && !ComposeFails(cfg)
    ensures forall i, j :: 0 <= i < j < |calls| && calls[i].Http? ==> calls[j].Http?
  {
    var email, emailCalls := SendEmailAlert(cfg, m, show, faults);
    EmailOpensAndCloses(cfg, m, show, faults);
    calls := AsSmtp(emailCalls);
    if email.Err? {
      return Err(email.error), calls;
    }
    var webhookOk, webhookCalls := SendWebhookAlert(cfg, m, show, post);
    calls := calls + AsHttp(webhookCalls);
    result := Ok(map["email" := email.value, "webhook" := webhookOk]);
    if cfg.smtpEnabled {
      assert calls[0].Smtp?;
    }
    if WebhookActive(cfg) {
      assert calls[|emailCalls|].Http?;
    }
  }
}

# System health monitor — a Dafny model

This project models the decision logic of a small host monitor written in
Python. The monitor polls CPU, memory, disk and the busiest processes every
`MONITOR_INTERVAL` seconds. When a value reaches its threshold, it renders an
alert and sends it by email (SMTP) and by webhook (HTTP POST). It sleeps one
second at a time between polls and stops once a termination signal has
cleared its `running` flag.

The model is split into these modules:

- `Text` (text.dfy) holds the Python string operations the monitor relies on:
  `str.isspace`, `strip`, ASCII `lower`, `split` on one character and
  `join`. It also proves the split/join round trip. It also states when
  `splitlines()` finds more than one line, which is the rule the email
  message applies to header values.
- `Config` (config.dfy) reads the settings from an environment map:
  - the `SMTP_TO` recipient list: split on `,`, strip each piece, drop blank
    pieces;
  - the `SMTP_ENABLED` / `WEBHOOK_ENABLED` switches;
  - the `SMTP_FROM` default, and the other defaults.
- `Metrics` holds the snapshot records.
- `Processes` models `get_top_processes`:
  - an imperative loop that collects the processes read successfully;
  - a read failing with `NoSuchProcess` / `AccessDenied` is skipped; any
    other failure escapes;
  - then a stable sort, descending on `(cpu_percent, memory_percent)`;
  - then Python's slice `[:n]`.
- `Notifier` models `format_alert_subject`, `format_alert_body`,
  `send_email_alert`, `send_webhook_alert` and `notify_all`:
  - the message refuses a Subject, From or To value that spans several
    lines. That `ValueError` is raised before the `try` block, so it escapes
    `send_email_alert` and `notify_all`. The webhook is then not attempted,
    and the exception ends `main_loop`;
  - each SMTP call made is recorded, and whether it raises is an input
    (`SmtpFaults`);
  - the POST either raises or answers a status (`PostOutcome`).
- `Monitor` models `should_alert`, `build_snapshot`, the polling step and
  `main_loop` with its interruptible sleep.

The `running` flag has a single writer: the signal handler, which only ever
clears it. Every check of the flag therefore sees it set up to some moment
and cleared after it. The model numbers the checks of one run, and
`signalAfter` is the number of checks that see the flag set (check `k`
sees `k < signalAfter`). The values read by poll `i` (`sample(i)`) and the
channels' behaviour during it (`faults(i)`, `post(i)`) are inputs.

## Model

| member | source | states |
|---|---|---|
| Text.Strip | config.py:32 | The result is the input with its leading and trailing whitespace (Python's whitespace set) removed. It is empty exactly when the input is all whitespace. Otherwise it starts and ends with a non-space. |
| Text.StripKeeps | config.py:32 | A non-whitespace character of the input survives `strip()`. |
| Text.StripSpaceCons | config.py:32 | A whitespace character put in front does not change `strip()`. |
| Text.Lower | config.py:26 | `lower()` keeps the length. It maps each ASCII capital to its lower-case letter (code point + 32) and changes no other character. |
| Text.LowerIdempotent | config.py:26 | Lower-casing twice is lower-casing once. |
| Text.Split | config.py:32 | `split(sep)` gives at least one piece. No piece holds `sep`. Joining the pieces with `sep` gives back the input. |
| Text.SplitJoin | config.py:32 | Splitting undoes joining when no part holds the separator. |
| Text.SplitAround | config.py:32 | Splitting `a + sep + b` gives the pieces of `a` followed by the pieces of `b`. |
| Text.Join | notifier.py:27 | `sep.join(parts)` is empty for no parts. It starts with the first part, followed by the separator when more parts follow. `Split` undoes it (`SplitJoin`). |
| Text.SplitFirst | config.py:32 | Splitting a value peels off the text before its first separator as the first piece. |
| Text.InteriorBreak | notifier.py:38-40 | A line boundary followed by more text makes `splitlines()` find several lines, for example a `\n` inside a value. |
| Text.OneTrailingBreak | notifier.py:38-40 | A value with no line boundary, or with a single one at its very end, is one line. |
| Text.MultiLineAfter | notifier.py:38-40 | Text without line boundaries put in front does not change whether a value spans several lines. |
| Text.JoinedLines | notifier.py:27 | Lines free of `\n`, the last one non-empty, joined by `\n`: the text splits back into the same lines and does not end with `\n`. |
| Config.Entry | config.py:32 | One piece contributes at most one entry. That entry is trimmed, and comma-free when the piece is. |
| Config.NonBlank | config.py:32 | The list comprehension keeps at most one entry per piece. Every entry is trimmed, and comma-free when the pieces are. |
| Config.NonBlankAppend | config.py:32 | The comprehension preserves order: pieces concatenated give entries concatenated. |
| Config.Recipients | config.py:32 | Every `SMTP_TO` entry is non-empty, has no whitespace at either end and holds no comma. There are never more entries than pieces. A comma-free value gives one entry, its stripped self, or none when it is blank. |
| Config.RecipientsAround | config.py:32 | The value `a,b` gives the entries of `a` followed by those of `b`. Order is kept and duplicates are not removed. |
| Config.SemicolonStaysInside | config.py:32 | Only `,` separates entries: a comma-free value holding `;` gives one entry that still holds the `;`. |
| Config.RecipientsSkipLeadingSpace | config.py:32 | Leading whitespace in the value is ignored. |
| Config.RecipientsOfOne | config.py:32 | A well-formed address read on its own gives a one-entry list of itself. |
| Config.RecipientsOfToHeader | notifier.py:40 | Parsing the To header (`", ".join` of a recipient list) gives back the same list. |
| Config.ParseFlag | config.py:26 | A switch value is on exactly when it is `1`, or `true` or `yes` in any mix of upper and lower case. |
| Config.LowerMatches | config.py:26 | Against a word without capitals, the lower-cased value equals the word exactly when the two agree up to case. |
| Config.FlagSameIgnoringCase | config.py:26 | Two values equal up to ASCII case set a switch alike. |
| Config.FlagCaseVariants | config.py:26 | `TRUE`, `Yes` and `tRuE` turn a switch on. |
| Config.FlagIgnoresCase | config.py:26 | A switch value reads the same after lower-casing: the switches are case-insensitive. |
| Config.FlagRejectsWhitespace | config.py:26 | Switch values are not stripped: a value holding any whitespace leaves the switch off. |
| Config.DefaultFlagOff | config.py:26 | The default value `"false"` leaves a switch off. |
| Config.DefaultRecipient | config.py:32 | The default value gives the one recipient `admin@example.com`. |
| Config.Switch | config.py:35 | A switch is on exactly when its variable is set and the lower-cased value is `1`, `true` or `yes`. It is off when the variable is unset. |
| Config.RecipientSetting | config.py:32 | `SMTP_TO` parsed when set, `["admin@example.com"]` when unset. Every entry is well formed. |
| Config.Load | config.py:12-43 | Every setting is read from its own variable with the source's default. The integers are `int()` of the value or of the default (`30`, `85`, `85`, `90`, `5`, `587`). `SMTP_USER` defaults to `alerts@example.com`. `SMTP_FROM` defaults to the `SMTP_USER` value, so to `alerts@example.com` when both are unset. The recipients are `SMTP_TO` parsed, and `admin@example.com` when it is unset. Each switch is on exactly for an "on" value of its own variable. Host, password, webhook URL and partition default to `smtp.example.com`, empty, empty and `/`. The host name is `HOSTNAME`, else the node name, else `unknown-host`. |
| Processes.Readable | monitor.py:49-61 | A process is collected exactly when it was read successfully. Never more entries than processes enumerated. |
| Processes.ReadableAppend | monitor.py:49-61 | Collecting from two stretches of the enumeration gives the first stretch's processes, then the second's. |
| Processes.ReadableOfOne | monitor.py:49-61 | One entry contributes its process when it was read, and nothing when its read failed. With `ReadableAppend`, this fixes the order and the multiplicity of the collected list. |
| Processes.FirstFatal | monitor.py:50-61 | No failure escapes exactly when every failed read was `NoSuchProcess` / `AccessDenied`. An escaping failure is not one of those two. It is the failure of an entry that no escaping failure precedes. |
| Processes.Insert | monitor.py:63 | Insertion adds exactly the one entry: the multiset grows by `x`, and membership is that of `ys` plus `x`. |
| Processes.InsertKeepsDescending | monitor.py:63 | Inserting into a list that is descending on (cpu, memory) keeps it descending. |
| Processes.Sort | monitor.py:63 | `sorted(..., reverse=True)` returns a permutation of its input that is descending on (cpu, memory). |
| Processes.SortIsStable | monitor.py:63 | The sort is stable: the entries sharing a key appear in their enumeration order. |
| Processes.WithKeyOfPrefix | monitor.py:64 | The entries of one key in a prefix are the first entries of that key in the whole list. |
| Processes.TopKeepsReadOrder | monitor.py:63-64 | Ties are broken by enumeration order. For every key, the kept processes with that key are the first ones read with it, in the order they were read. |
| Processes.Take | monitor.py:64 | `s[:n]` is a prefix of `s` of length `min(n, len(s))`. A negative `n` counts from the end. |
| Processes.PrefixHoldsLargest | monitor.py:63-64 | No entry after a prefix of a descending list is above an entry in the prefix. |
| Processes.TopOfSorted | monitor.py:63-64 | The top `n` are descending and are `min(n, k)` entries for `n >= 0`. They are readable processes, a sub-multiset of them, and no readable process left out is above one kept. |
| Processes.GetTopProcesses | monitor.py:48-64 | Fails exactly when a read failure other than `NoSuchProcess` / `AccessDenied` occurs, with the first such failure. Otherwise returns the sorted, truncated readable processes, with all of `TopOfSorted`'s properties. Ties among them keep enumeration order (`TopKeepsReadOrder`). |
| Monitor.ShouldAlert | monitor.py:66-77 | No alert exactly when cpu, memory and disk are all below their thresholds. The reason is `Cpu` (the source's `cpu`) exactly when cpu ≥ its threshold. It is `Memory` exactly when cpu is below and memory ≥ its threshold. It is `Disk` exactly when cpu and memory are below and disk ≥ its threshold. The comparisons are inclusive. |
| Monitor.BuildSnapshot | monitor.py:79-86 | The snapshot carries the sampled values and the top processes, or the process read failure that escaped. |
| Monitor.SleepPhase | monitor.py:101-104 | `slept` never exceeds `max(INTERVAL, 0)`. Every check before each one-second sleep saw the flag set. A phase shorter than the interval ended at a check that saw the flag cleared. |
| Monitor.Poll | monitor.py:93-99 | Fails exactly as `PollFailure` says. That is the first escaping process read failure, or else, on an alert with email enabled, the header the message refused. Otherwise it gives the snapshot, the `should_alert` verdict on it, and the `notify_all` result exactly when the verdict is an alert. |
| Monitor.MainLoop | monitor.py:88-104 | Each pass polled its own sample. Every pass but the last slept the full interval. Without a failure, the flag checks that saw the flag set, one per poll and one per second slept, number exactly `signalAfter`, so nothing is polled or slept after the flag is seen cleared. An escaping exception, a read failure or a refused header, ends the run before the signal. It is the failure of the next sample's poll. |
| Notifier.FormatAlertSubject | notifier.py:10-11 | The subject is the fixed `[ALERT] System health issue on ` prefix followed by the host name. |
| Notifier.SubjectNamesHost | notifier.py:10-11 | Different host names give different subjects. |
| Notifier.ProcessLine | notifier.py:25 | A process line is indented by two spaces. |
| Notifier.ProcessLines | notifier.py:24-25 | One line per process, line `i` rendering process `i`. |
| Notifier.BodyLines | notifier.py:15-25 | The body has `6 + len(top_processes)` lines: the six header lines in order, ending with `Top processes:` even when no process is listed, then line `6 + i` for process `i`. |
| Notifier.FormatAlertBody | notifier.py:13-27 | The body opens with the `Host: ` line and a newline. |
| Notifier.LastBodyLine | notifier.py:22-25 | The last body line is never empty: it is `Top processes:` or the line of the last process. |
| Notifier.BodyIsItsLines | notifier.py:13-27 | When no rendered value holds a newline, the body splits on `\n` into exactly its `6 + len(top_processes)` lines, and it has no trailing newline. |
| Notifier.RejectedHeader | notifier.py:38-40 | Composing fails exactly when the host name, `SMTP_FROM` or the joined recipients span several lines. The header reported is the first in the order Subject, From, To. |
| Notifier.RejectedOnHeaderValues | notifier.py:38-40 | The same rule, read on the values actually assigned: the subject, the sender and the `", "`-joined To line. |
| Notifier.ComposeEmail | notifier.py:37-41 | The message is refused exactly when a header is (`RejectedHeader`). Otherwise it holds the subject, `SMTP_FROM`, the `", "`-joined recipients and the body. |
| Notifier.SubjectSpansLines | notifier.py:10-11 | The subject spans several lines exactly when the host name does. |
| Notifier.BrokenHostRejected | notifier.py:38 | A host name with a `\n` inside it (such as `h\nx`) makes composing the message raise at its Subject. |
| Notifier.ToHeaderReadsBack | notifier.py:40 | The To header of a composed message parses back to the recipient list. |
| Notifier.EmailOpensAndCloses | notifier.py:30-48 | No call at all when the channel is disabled or the message is refused. Otherwise the connection (timeout 10) comes first, and once a connection exists the last call is QUIT, on success and failure alike. QUIT occurs nowhere else. |
| Notifier.EmailLogsIn | notifier.py:46-47 | A login is attempted exactly when the message was composed, user and password are both non-empty and STARTTLS succeeded, and it uses those credentials. |
| Notifier.EmailSends | notifier.py:37-48 | The message is handed over exactly when it was composed and connection, STARTTLS and any login succeeded. It is the composed alert: the subject, `SMTP_FROM`, the recipients joined by `", "`, and the body. |
| Notifier.SendEmailAlert | notifier.py:29-53 | Raises the header error exactly when the channel is enabled and the message is refused. Otherwise returns true exactly when the channel is enabled and no SMTP call raised. A raising SMTP call yields false and does not propagate. Makes the calls `EmailCalls` lists. |
| Notifier.SendWebhookAlert | notifier.py:55-73 | No call and false when disabled or the URL is empty. Otherwise exactly one POST of `{text: subject, attachments: [{text: body}]}` with timeout 10, and true exactly when it answered a status outside 400..599. |
| Notifier.NotifyAll | notifier.py:75-79 | A refused message propagates: no call is made and the webhook is not attempted. Otherwise the result maps exactly `email` and `webhook` to the two channels' outcomes. The calls are exactly the email channel's SMTP calls followed by the webhook's POST, if any. SMTP calls happen exactly when email is enabled and the message was composed. The POST happens exactly when the webhook is active and no refused message escaped, whatever the SMTP calls did. |

## Left out

- The `psutil` calls are left out: `cpu_percent` (including the warm-up call), `virtual_memory`, `disk_usage` and `process_iter`. Their results are the inputs `Sample` and `sample(i)`.
- `bytes_to_gb` and the `round(..., 2)` calls are left out: numbers are already-rounded reals.
- The timestamp from the clock is an input string.
- `time.sleep` is one abstract step: a sleep is a counted iteration.
- Signal registration and `handle_sigterm` are not modelled. Their only effect, clearing the flag, is the `signalAfter` input.
- `smtplib` and `requests` are not modelled. Each call is recorded, and whether it raises or which status it answers is an input.
- `EmailMessage` is modelled only by its rule that a header value must be one line, using the line boundaries of `str.splitlines()`.
- Notifier.ComposeEmail: the address parser behind From and To also refuses some one-line values, such as a bare name ending in CR or LF (`SMTP_FROM="x\n"`). The model composes those.
- `raise_for_status` is modelled as rejecting statuses 400..599, as the HTTP client does. Other statuses, including 1xx and 3xx, count as delivered. So "any non-success status fails" holds only for 4xx/5xx.
- Reading the environment is not modelled: the `.env` file loading, `int()` parsing (the `toInt` input) and `os.uname` (the `nodename` input). `int()` raising on a malformed value is not modelled.
- `lower()` lowers ASCII letters only, not the full Unicode case mapping.
- `str()` of numbers is the `Show` input. `BodyIsItsLines` therefore assumes that no rendered value holds a newline.
- Logging and logger_setup.py are left out: they hold no decisions.
- The `__main__` handler and `sys.exit(1)` are left out. `MainLoop` returns the escaping exception (a read failure or a refused header) instead of exiting.
- The recipient list splits on `,` only and keeps duplicates, as the code does. A `;` is not a separator.
- Thresholds, interval and `TOP_N_PROCESSES` are not validated, as in the code. A non-positive interval gives no sleep. A negative `n` drops entries from the end, as Python slicing does.

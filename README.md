# Uptime monitor: a Dafny model of its decision logic

`monitor.py` is a small uptime monitor. When it starts, it looks up the
server's public IP and stops, after one alert email, if that IP is not the
white-listed one. Then it probes a fixed list of URLs over and over. Each URL
must answer a GET with the HTTP status its rule says is healthy. Every probe
that fails sends one alert email and writes one warning log line. Code placed
after the poll loop compresses log files from earlier days.

This project models the decisions behind that I/O. The network, SMTP, the
clock and the directory listing are inputs or outputs:

- **Text** (`text.dfy`): the Python string operations the code relies on.
  These are `sub in s` (`Contains`, with its positional characterisation),
  `startswith`, `endswith`, `str.split(sep)` (`Split`, with its inverse
  `Join` and a uniqueness lemma), and `str(n)` for status codes (`Decimal`,
  with its reading-back `DecimalValue`).
- **Rules** (`rules.dfy`): the expected-status table. A URL containing the
  support host expects 405. A URL containing the crm host expects 404.
  Every other URL expects 200. The support test comes first.
- **Probe** (`probe.dfy`): `test_url_status`. An HTTP outcome is either a
  transport error or a status code. The probe issues each GET with a
  15-second timeout.
- **Alerting** (`alerting.dfy`): the exact subject and body text of each
  email and the text of each warning line. An email is the (subject, body)
  pair passed to `send_email`.
- **Checks** (`checks.dfy`): one cycle of `check_services`. The method
  `CheckServices` takes the list of URLs and one oracle probe outcome per URL.
  It returns, in order, the probes it issued, the emails sent and the warnings
  logged. `FailedUrls` is the function the method is proved against.
- **IpGuard** (`ipguard.dfy`): `get_public_ip`, which gives `None` on an
  exception or a non-200 reply, and the comparison with the expected IP.
- **Logs** (`logs.dfy`): the log file name `monitor_log_<date>.txt`, the
  rotation filter and the date-token extraction
  `split("_")[-1].split(".")[0]`. The class `LogDirectory` holds the
  directory's file names as a mutable set. Its method `RotateLogs` loops over
  the filtered listing. It is proved equal to the set function `Rotated`,
  and the rotation lemmas are stated about `Rotated`.
- **Program** (`program.dfy`): which module-level code runs. In
  `monitor.py`, the rotation comes after `if __name__ == "__main__": while
  True: ...`. So a script never reaches the rotation. Only an import that
  passes the IP guard does (`StageReached`, `RotationReachedIff`). `Start`
  puts the pieces together, up to the first poll cycle.

Two details of the code that the model keeps:

- `get_public_ip` also returns `None` when a 200 reply cannot be read
  (lines 50-53, 57-59): JSON that does not parse and a missing `"ip"` key
  raise inside its `try`, and the handler catches them. `IpLookup.LookupFailed`
  stands for every such exception. `LookupReply(200, None)` stands only for a
  reply whose `"ip"` value is JSON `null`, which the function returns as it is.
- The warning line is logged only after `send_email` has returned (lines
  85-86 and 109-110), so a failing send would skip it. The model has no
  failing send (see below), so every alert comes with its warning.

## Model

| member | source | states |
|---|---|---|
| `Text.Contains` | monitor.py:103-112 | the substring test `h in url`; it can hold only when the host is no longer than the URL |
| `Text.ContainsIff` | monitor.py:103-112 | the substring test `h in url` holds exactly when the host occurs at some position of the URL |
| `Text.Split` | monitor.py:139 | `str.split` on one character gives at least one part, no part holds the separator, and joining the parts with it gives back the string |
| `Text.SplitUnique` | monitor.py:139 | any separator-free list of parts is exactly what `split` returns for the string it joins to |
| `Text.Decimal` | monitor.py:107 | the f-string rendering of a status code is a non-empty digit string with no leading zero, one digit long exactly below 10 |
| `Text.DecimalRoundTrip` | monitor.py:107 | reading back the rendered code gives the code, so distinct codes render differently |
| `Rules.ExpectedStatus` | monitor.py:103-122 | the rule table is total and yields one of 405, 404 and 200 |
| `Rules.ExpectedStatusCases` | monitor.py:103-122 | 405 exactly when the URL contains the support host; 404 exactly when it contains the crm host and not the support host; 200 exactly when it contains neither |
| `Rules.SupportWins` | monitor.py:103-104 | a URL with the support host anywhere in it expects 405, whatever surrounds it and even when the crm host is in it too |
| `Rules.CrmWithoutSupport` | monitor.py:112-113 | a URL with the crm host anywhere in it and no support host expects 404 |
| `Probe.TestUrlStatus` | monitor.py:90-98 | a transport error gives false; a response gives true exactly when its status equals the expected code |
| `Probe.TestUrlStatusIff` | monitor.py:90-98 | the probe passes exactly when a response arrived and its status equals the expected code |
| `Probe.TransportErrorIsWrongStatus` | monitor.py:93-98 | a transport error and a wrong status both give false, so they cannot be told apart |
| `Alerting.ServiceAlertEmail` | monitor.py:107-108 | the alert subject opens with `Service Alert: <url>` and closes with `HTTP <code>`; the body names the URL and the code |
| `Alerting.ServiceWarning` | monitor.py:110 | the warning line names the URL and the code |
| `Alerting.ServiceAlertDistinguishesCodes` | monitor.py:107 | alerts for the same URL against different codes have different subjects |
| `Alerting.IpText` | monitor.py:83 | an f-string shows an observed address as itself and a missing one as `None` |
| `Alerting.IpChangedEmail` | monitor.py:82-83 | the IP alert has the subject `Public IP Address Changed`, and its body quotes the observed value |
| `Alerting.IpChangedWarning` | monitor.py:86 | the IP warning quotes the observed value |
| `Checks.FailedUrls` | monitor.py:100-128 | a cycle alerts about no more URLs than it monitors (that each alerted URL is a failed one is `FailedUrlsAreFailures`) |
| `Checks.CheckServices` | monitor.py:100-128 | one cycle probes every URL in list order against its expected status with a 15-second timeout, and sends exactly one alert and logs exactly one warning for each failed URL, in list order, each against that URL's expected code |
| `Checks.FailedUrlsAppend` | monitor.py:101 | the alerts of a list are those of its first part followed by those of the rest, so alerts come in list order |
| `Checks.FailedUrlsSingle` | monitor.py:105-106 | a single URL raises an alert exactly when its probe fails; a passing URL raises nothing |
| `Checks.FailedUrlsAreFailures` | monitor.py:100-128 | every alerted URL is one whose probe failed |
| `Checks.FailuresAreAlerted` | monitor.py:100-128 | every URL whose probe failed is alerted about |
| `Checks.NoAlertsIffAllPass` | monitor.py:100-128 | a cycle sends no alert exactly when every probe passes |
| `Checks.AllFailAllAlerted` | monitor.py:100-128 | when every probe fails, every URL is alerted about, in list order |
| `Checks.OneFailureOneAlert` | monitor.py:100-128 | when exactly one probe fails, the cycle sends exactly one alert, for that URL |
| `IpGuard.GetPublicIp` | monitor.py:47-59 | an address is returned only from a 200 reply; an exception or any other status gives `None` |
| `IpGuard.GetPublicIpSome` | monitor.py:47-59 | the lookup gives an address exactly for a 200 reply that carries one; every other outcome gives `None` |
| `IpGuard.CheckPublicIp` | monitor.py:81-87 | the guard proceeds exactly when the observed IP is the expected one; otherwise it halts with the IP-change email and its warning |
| `IpGuard.ProceedIffMatch` | monitor.py:81 | the guard lets the program continue, with no email, exactly when the observed IP equals the expected one |
| `IpGuard.MismatchAlert` | monitor.py:81-87 | on any other observed value the guard halts with the IP-change alert and warning, both quoting that value |
| `IpGuard.FailedLookupHalts` | monitor.py:47-87 | a failed lookup always halts the program, with an alert reporting `None` |
| `Logs.LogFileName` | monitor.py:14 | every day's log file name passes the rotation's filter |
| `Logs.IsLogFile` | monitor.py:137 | a name passes the filter exactly when it is `monitor_log_`, then anything, then `.txt` (the prefix and suffix cannot overlap) |
| `Logs.LogDate` | monitor.py:139 | the extracted date token holds no `_` and no `.` |
| `Logs.LogDateRoundTrip` | monitor.py:139 | the date token extracted from `monitor_log_<d>.txt` is `d` when `d` has no `_` or `.` |
| `Logs.CompressedIsNotLogFile` | monitor.py:137-142 | a `.gz` name never passes the filter |
| `Logs.Rotated` | monitor.py:137-144 | a name disappears only if it is a selected log file with another day's token, and a name appears only as the `.gz` name of such a file |
| `Logs.LogDirectory.constructor` | monitor.py:137 | the directory starts out with the given listing |
| `Logs.LogDirectory.RotateLogs` | monitor.py:136-144 | after the loop the directory is exactly `Rotated` of the directory before |
| `Logs.RotationKeepsOthers` | monitor.py:137 | a name the filter does not pick, an existing `.gz` included, is still there afterwards |
| `Logs.RotationKeepsToday` | monitor.py:140 | a log file whose token equals today is still there afterwards |
| `Logs.RotationCompressesStale` | monitor.py:140-144 | a log file whose token differs from today is gone afterwards, and its `.gz` name is present |
| `Logs.RotationDelta` | monitor.py:137-144 | exactly the stale log files disappear, and only their `.gz` names appear |
| `Logs.RotationLeavesNoStale` | monitor.py:137-144 | afterwards no selected log file with another day's token remains |
| `Logs.RotationIdempotent` | monitor.py:137-144 | a second rotation with the same today changes nothing |
| `Logs.RotationKeepsTodaysLog` | monitor.py:136-140 | the file the program is logging to today survives the rotation |
| `Program.StageReached` | monitor.py:130-144 | the program halts exactly when the guard halts it, and reaches the rotation exactly when the guard passes and the module is imported |
| `Program.RotationReachedIff` | monitor.py:130-144 | the rotation runs exactly when the module is imported and the IP guard passes |
| `Program.ScriptNeverRotates` | monitor.py:130-136 | run as a script, the program never reaches the rotation |
| `Program.Start` | monitor.py:62-144 | on a mismatch: one IP email, one warning, no probe, and the directory unchanged; as a script: the first cycle, with the directory unchanged; imported: no probe and no email, and the directory rotated |

## Left out

- The HTTP requests to the monitored URLs and to the IP-echo service, and the JSON parsing (lines 49-53, 92). These are network I/O. Their outcome is an input: `HttpOutcome` and `IpLookup`.
- The SMTP session, the login and the `MIMEText` message (lines 69-77). These are foreign library calls. An email is only the (subject, body) pair that `send_email` is given.
- A failing `send_email`, which raises out of `check_services` and ends the program. Modelling it would need an SMTP-failure input. The model assumes every send returns.
- `logging.basicConfig`, `print`, the timestamps and the log line format (lines 17-22, 55, 58, 63-64, 84). This is console and logging plumbing. A warning is only its message text.
- The endless poll loop and `time.sleep(120)` (lines 130-133). This is scheduling without state. `Start` runs the first cycle only, and every later cycle is another `CheckServices` call with fresh outcomes.
- `datetime.now()`, `strftime` and `os.listdir` (lines 14, 136-137). The date stamp and the directory listing are inputs. Line 14 and line 136 each read the clock. The model uses one `today` for both.
- gzip compression and the copying of file contents (lines 141-143). Only the names in the directory are modelled.
- The credentials, the recipient and the hard-coded URL list and expected IP (lines 26-39). The URLs and the expected IP are parameters.
- `Logs.LogDirectory.RotateLogs` does not model filesystem errors, such as an unreadable file or a full disk. These raise out of the rotation in the code.

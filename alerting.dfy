/**
 * The messages the monitor sends: the subject and body of each email and
 * the text of each warning log line. `send_email` itself (an SMTP session)
 * is not modelled; an email is the (subject, body) pair handed to it.
 */
module Alerting {
  import opened Text
  import opened Wrappers

  /** What `send_email(subject, body)` is called with. */
  datatype Email = Email(subject: string, body: string)

  /**
   * The alert for a URL that failed its check against `code`: the subject
   * opens with the URL and closes with the code, and the body names both.
   */
  function ServiceAlertEmail(url: string, code: nat): (e: Email)
    ensures StartsWith(e.subject, "Service Alert: " + url)
    ensures EndsWith(e.subject, "HTTP " + Decimal(code))
    ensures Contains(e.body, url) && Contains(e.body, Decimal(code))
  {
    var d := Decimal(code);
    var a, b, c := "The service at ", " did not return the expected HTTP ", " status code.";
    ContainsInfix(a, url, b + d + c);
    assert a + url + (b + d + c) == (a + url + b) + d + c;
    ContainsInfix(a + url + b, d, c);
    Email("Service Alert: " + url + " - Failed Test for HTTP " + d, a + url + b + d + c)
  }

  /** The warning logged beside that alert: it names the URL and the code. */
  function ServiceWarning(url: string, code: nat): (w: string)
    ensures Contains(w, url) && Contains(w, Decimal(code))
  {
    var d := Decimal(code);
    var a, b, c := "Service check failed: ", " - Expected HTTP ", " not received.";
    ContainsInfix(a, url, b + d + c);
    assert a + url + (b + d + c) == (a + url + b) + d + c;
    ContainsInfix(a + url + b, d, c);
    a + url + b + d + c
  }

  /** Alerts for the same URL against different codes differ in their subject. */
  lemma ServiceAlertDistinguishesCodes(url: string, c1: nat, c2: nat)
    requires c1 != c2
    ensures ServiceAlertEmail(url, c1).subject != ServiceAlertEmail(url, c2).subject
  {
    DecimalInjective(c1, c2);
    var p := "Service Alert: " + url + " - Failed Test for HTTP ";
    var s1, s2 := ServiceAlertEmail(url, c1).subject, ServiceAlertEmail(url, c2).subject;
    assert s1 == p + Decimal(c1) && s2 == p + Decimal(c2);
    assert s1[|p|..] == Decimal(c1) && s2[|p|..] == Decimal(c2);
  }

  /** How an f-string renders the looked-up IP: Python's `None` prints as "None". */
  function IpText(observed: Option<string>): (t: string)
    ensures observed.Some? ==> t == observed.value
    ensures observed.None? ==> t == "None"
  {
    match observed
    case None => "None"
    case Some(ip) => ip
  }

  const IpChangedSubject: string := "Public IP Address Changed"

  /** The alert sent when the public IP differs: it quotes the observed value. */
  function IpChangedEmail(observed: Option<string>): (e: Email)
    ensures e.subject == "Public IP Address Changed"
    ensures Contains(e.body, IpText(observed))
  {
    var a, b := "The Public IP address of the server has changed to: ",
                ". Please white list this new IP. The script will terminate.";
    ContainsInfix(a, IpText(observed), b);
    Email(IpChangedSubject, a + IpText(observed) + b)
  }

  /** The warning logged beside that alert: it quotes the observed value too. */
  function IpChangedWarning(observed: Option<string>): (w: string)
    ensures Contains(w, IpText(observed))
  {
    var a, b := "Public IP changed : ", ". Please white list this new IP. The script will terminate .";
    ContainsInfix(a, IpText(observed), b);
    a + IpText(observed) + b
  }
}

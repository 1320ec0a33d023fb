/**
 * The start-up guard: the server's public IP is looked up once and compared
 * with the one that is white-listed; any other value, including "no value"
 * after a failed lookup, sends one alert, logs one warning and stops the
 * program before any service is checked.
 */
module IpGuard {
  import opened Text
  import opened Wrappers
  import opened Alerting

  /**
   * What the request to the IP-echo service produced.
   * - `LookupFailed`: anything that raised inside the `try` of `get_public_ip`:
   *   the request itself, or, on a 200 reply, JSON that does not parse or has
   *   no "ip" key (the `KeyError` is caught like any other exception).
   * - `LookupReply(status, ipField)`: a reply that did not raise. On status
   *   200, `ipField` is the value of its "ip" key: `Some(ip)` for a string,
   *   `None` for a JSON `null`, which `get_public_ip` returns as it is. On any
   *   other status `ipField` is not looked at.
   */
  datatype IpLookup = LookupFailed | LookupReply(status: int, ipField: Option<string>)

  /** `get_public_ip`: the address on a readable 200 reply, `None` otherwise. */
  function GetPublicIp(lookup: IpLookup): (ip: Option<string>)
    ensures ip.Some? ==> lookup == LookupReply(200, ip)
    ensures lookup.LookupFailed? || lookup.status != 200 ==> ip == None
  {
    match lookup
    case LookupFailed => None
    case LookupReply(status, ipField) => if status == 200 then ipField else None
  }

  /** An address is obtained only from a 200 reply that carries it. */
  lemma GetPublicIpSome(lookup: IpLookup, ip: string)
    ensures GetPublicIp(lookup) == Some(ip) <==> lookup == LookupReply(200, Some(ip))
  {
  }

  /** What the guard decides. */
  datatype GuardVerdict = Proceed | Halt(alert: Email, warning: string)

  /** The comparison `current_public_ip != EXPECTED_PUBLIC_IP` and what follows it. */
  function CheckPublicIp(observed: Option<string>, expected: string): (v: GuardVerdict)
    ensures v.Proceed? <==> observed == Some(expected)
    ensures v.Halt? ==> v.alert == IpChangedEmail(observed) && v.warning == IpChangedWarning(observed)
  {
    if observed != Some(expected) then Halt(IpChangedEmail(observed), IpChangedWarning(observed))
    else Proceed
  }

  /** The guard lets the program go on exactly when the observed IP is the expected one. */
  lemma ProceedIffMatch(observed: Option<string>, expected: string)
    ensures CheckPublicIp(observed, expected) == Proceed <==> observed == Some(expected)
  {
  }

  /** On a mismatch the one alert is the IP-change email, and it quotes the observed value. */
  lemma MismatchAlert(observed: Option<string>, expected: string)
    requires observed != Some(expected)
    ensures CheckPublicIp(observed, expected).Halt?
    ensures CheckPublicIp(observed, expected).alert.subject == "Public IP Address Changed"
    ensures Contains(CheckPublicIp(observed, expected).alert.body, IpText(observed))
    ensures Contains(CheckPublicIp(observed, expected).warning, IpText(observed))
  {
  }

  /**
   * A failed lookup (an exception or a reply other than 200) halts the
   * program, whatever IP is expected; the alert then reports "None".
   */
  lemma FailedLookupHalts(lookup: IpLookup, expected: string)
    requires lookup.LookupFailed? || lookup.status != 200
    ensures CheckPublicIp(GetPublicIp(lookup), expected) == Halt(IpChangedEmail(None), IpChangedWarning(None))
    ensures Contains(CheckPublicIp(GetPublicIp(lookup), expected).alert.body, "None")
  {
  }
}

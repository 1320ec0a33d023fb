/**
 * The expected-status rule table of `check_services`: which HTTP status a
 * monitored URL must answer a GET with to count as healthy. The rules are
 * substring tests on the whole URL, tried in a fixed order.
 */
module Rules {
  import opened Text

  /** The callback endpoint accepts only POST and answers a GET with 405. */
  const SupportHost: string := "support.gravityafrica.co.ke"
  /** The CRM endpoint accepts only POST and answers a GET with 404. */
  const CrmHost: string := "crm.gravityafrica.co.ke"

  /** The rule table: support first, then crm, else 200. */
  function ExpectedStatus(url: string): (code: nat)
    ensures code == 405 || code == 404 || code == 200
  {
    if Contains(url, SupportHost) then 405
    else if Contains(url, CrmHost) then 404
    else 200
  }

  /** Each of the three codes is chosen exactly under its own condition. */
  lemma ExpectedStatusCases(url: string)
    ensures ExpectedStatus(url) == 405 <==> Contains(url, SupportHost)
    ensures ExpectedStatus(url) == 404 <==> !Contains(url, SupportHost) && Contains(url, CrmHost)
    ensures ExpectedStatus(url) == 200 <==> !Contains(url, SupportHost) && !Contains(url, CrmHost)
  {
  }

  /**
   * Any URL with the support host anywhere in it expects 405, whatever comes
   * before or after, and even when the crm host occurs in it as well.
   */
  lemma SupportWins(before: string, after: string)
    ensures ExpectedStatus(before + SupportHost + after) == 405
  {
    ContainsInfix(before, SupportHost, after);
  }

  /** Any URL with the crm host in it and no support host expects 404. */
  lemma CrmWithoutSupport(before: string, after: string)
    requires !Contains(before + CrmHost + after, SupportHost)
    ensures ExpectedStatus(before + CrmHost + after) == 404
  {
    ContainsInfix(before, CrmHost, after);
  }
}

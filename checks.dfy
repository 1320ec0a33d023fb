/**
 * One cycle of `check_services`: every configured URL, in list order, is
 * probed against its expected status, and every probe that fails raises one
 * alert email and one warning log line. The probe outcomes are an oracle
 * input (outcomes[i] is what the GET to urls[i] produced); the emails, the
 * warnings and the probes issued are the cycle's outputs, in order.
 */
module Checks {
  import opened Text
  import opened Rules
  import opened Probe
  import opened Alerting

  /** Whether a URL passes its check, given what its GET produced. */
  predicate Passes(url: string, outcome: HttpOutcome) {
    TestUrlStatus(outcome, ExpectedStatus(url))
  }

  /** The URLs of one cycle whose check failed, in list order. */
  function FailedUrls(urls: seq<string>, outcomes: seq<HttpOutcome>): (failed: seq<string>)
    requires |outcomes| == |urls|
    ensures |failed| <= |urls|
    decreases |urls|
  {
    if urls == [] then []
    else
      var n := |urls| - 1;
      FailedUrls(urls[..n], outcomes[..n]) + (if Passes(urls[n], outcomes[n]) then [] else [urls[n]])
  }

  /** The alert email for a URL that failed, against its own expected status. */
  function AlertFor(url: string): Email {
    ServiceAlertEmail(url, ExpectedStatus(url))
  }

  /** The warning line for a URL that failed. */
  function WarningFor(url: string): string {
    ServiceWarning(url, ExpectedStatus(url))
  }

  /** The probe `check_services` issues for a URL. */
  function RequestFor(url: string): ProbeRequest {
    ProbeRequest(url, ProbeTimeoutSeconds, ExpectedStatus(url))
  }

  /**
   * One cycle: probe each URL in order; for each failure, send one alert and
   * log one warning.
   */
  method CheckServices(urls: seq<string>, outcomes: seq<HttpOutcome>)
    returns (requests: seq<ProbeRequest>, emails: seq<Email>, warnings: seq<string>)
    requires |outcomes| == |urls|
    ensures |requests| == |urls|
    ensures forall i :: 0 <= i < |urls| ==> requests[i] == RequestFor(urls[i])
    ensures |emails| == |warnings| == |FailedUrls(urls, outcomes)|
    ensures forall k :: 0 <= k < |emails| ==>
      emails[k] == AlertFor(FailedUrls(urls, outcomes)[k]) &&
      warnings[k] == WarningFor(FailedUrls(urls, outcomes)[k])
  {
    requests, emails, warnings := [], [], [];
    ghost var failed: seq<string> := [];
    var i := 0;
    while i < |urls|
      invariant 0 <= i <= |urls|
      invariant |requests| == i
      invariant forall j :: 0 <= j < i ==> requests[j] == RequestFor(urls[j])
      invariant failed == FailedUrls(urls[..i], outcomes[..i])
      invariant |emails| == |warnings| == |failed|
      invariant forall k :: 0 <= k < |emails| ==> emails[k] == AlertFor(failed[k]) && warnings[k] == WarningFor(failed[k])
    {
      var url := urls[i];
      var expected := ExpectedStatus(url);
      requests := requests + [ProbeRequest(url, ProbeTimeoutSeconds, expected)];
      var testResult := TestUrlStatus(outcomes[i], expected);
      assert urls[..i + 1][..i] == urls[..i] && outcomes[..i + 1][..i] == outcomes[..i];
      if !testResult {
        emails := emails + [AlertFor(url)];
        warnings := warnings + [WarningFor(url)];
        failed := failed + [url];
      }
      i := i + 1;
    }
    assert urls[..i] == urls && outcomes[..i] == outcomes;
  }

  /** A cycle over two lists back to back fails on the first's URLs, then the second's. */
  lemma {:induction false} FailedUrlsAppend(a: seq<string>, oa: seq<HttpOutcome>, b: seq<string>, ob: seq<HttpOutcome>)
    requires |oa| == |a| && |ob| == |b|
    ensures FailedUrls(a + b, oa + ob) == FailedUrls(a, oa) + FailedUrls(b, ob)
    decreases |b|
  {
    if b == [] {
      assert a + b == a && oa + ob == oa;
    } else {
      var n := |b| - 1;
      assert (a + b)[..|a| + n] == a + b[..n];
      assert (oa + ob)[..|a| + n] == oa + ob[..n];
      FailedUrlsAppend(a, oa, b[..n], ob[..n]);
    }
  }

  /** A single URL raises an alert exactly when it fails. */
  lemma FailedUrlsSingle(url: string, outcome: HttpOutcome)
    ensures FailedUrls([url], [outcome]) == if Passes(url, outcome) then [] else [url]
  {
  }

  /** Every URL the cycle alerts about is one whose probe failed. */
  lemma {:induction false} FailedUrlsAreFailures(urls: seq<string>, outcomes: seq<HttpOutcome>, k: int)
    requires |outcomes| == |urls|
    requires 0 <= k < |FailedUrls(urls, outcomes)|
    ensures exists i :: 0 <= i < |urls| && urls[i] == FailedUrls(urls, outcomes)[k] && !Passes(urls[i], outcomes[i])
    decreases |urls|
  {
    var n := |urls| - 1;
    var front := FailedUrls(urls[..n], outcomes[..n]);
    if k < |front| {
      FailedUrlsAreFailures(urls[..n], outcomes[..n], k);
      var i :| 0 <= i < n && urls[..n][i] == front[k] && !Passes(urls[..n][i], outcomes[..n][i]);
      assert urls[i] == FailedUrls(urls, outcomes)[k];
    } else {
      assert FailedUrls(urls, outcomes)[k] == urls[n] && !Passes(urls[n], outcomes[n]);
    }
  }

  /** Every URL whose probe failed is alerted about. */
  lemma {:induction false} FailuresAreAlerted(urls: seq<string>, outcomes: seq<HttpOutcome>, i: int)
    requires |outcomes| == |urls|
    requires 0 <= i < |urls| && !Passes(urls[i], outcomes[i])
    ensures urls[i] in FailedUrls(urls, outcomes)
    decreases |urls|
  {
    var n := |urls| - 1;
    if i < n {
      FailuresAreAlerted(urls[..n], outcomes[..n], i);
    }
  }

  /** A cycle raises no alert exactly when every probe passes. */
  lemma {:induction false} NoAlertsIffAllPass(urls: seq<string>, outcomes: seq<HttpOutcome>)
    requires |outcomes| == |urls|
    ensures FailedUrls(urls, outcomes) == [] <==> forall i :: 0 <= i < |urls| ==> Passes(urls[i], outcomes[i])
    decreases |urls|
  {
    if urls != [] {
      var n := |urls| - 1;
      NoAlertsIffAllPass(urls[..n], outcomes[..n]);
      if FailedUrls(urls, outcomes) == [] {
        forall i | 0 <= i < |urls| ensures Passes(urls[i], outcomes[i]) {
          assert i < n ==> urls[..n][i] == urls[i] && outcomes[..n][i] == outcomes[i];
        }
      }
    }
  }

  /** When every probe fails, every URL is alerted about, in list order. */
  lemma {:induction false} AllFailAllAlerted(urls: seq<string>, outcomes: seq<HttpOutcome>)
    requires |outcomes| == |urls|
    requires forall i :: 0 <= i < |urls| ==> !Passes(urls[i], outcomes[i])
    ensures FailedUrls(urls, outcomes) == urls
    decreases |urls|
  {
    if urls != [] {
      var n := |urls| - 1;
      AllFailAllAlerted(urls[..n], outcomes[..n]);
      assert urls[..n] + [urls[n]] == urls;
    }
  }

  /**
   * When exactly one probe fails, the cycle sends exactly one alert, for that
   * URL against its own expected status.
   */
  lemma OneFailureOneAlert(urls: seq<string>, outcomes: seq<HttpOutcome>, j: int)
    requires |outcomes| == |urls| && 0 <= j < |urls|
    requires !Passes(urls[j], outcomes[j])
    requires forall i :: 0 <= i < |urls| && i != j ==> Passes(urls[i], outcomes[i])
    ensures FailedUrls(urls, outcomes) == [urls[j]]
  {
    var a, oa := urls[..j], outcomes[..j];
    var b, ob := urls[j + 1..], outcomes[j + 1..];
    var u, o := urls[j], outcomes[j];
    assert urls == (a + [u]) + b && outcomes == (oa + [o]) + ob;
    forall i | 0 <= i < |a| ensures Passes(a[i], oa[i]) {
      assert a[i] == urls[i] && oa[i] == outcomes[i];
    }
    forall i | 0 <= i < |b| ensures Passes(b[i], ob[i]) {
      assert b[i] == urls[j + 1 + i] && ob[i] == outcomes[j + 1 + i];
    }
    NoAlertsIffAllPass(a, oa);
    NoAlertsIffAllPass(b, ob);
    FailedUrlsSingle(u, o);
    FailedUrlsAppend(a, oa, [u], [o]);
    FailedUrlsAppend(a + [u], oa + [o], b, ob);
  }
}

/**
 * What running `monitor.py` does at module level, in order: the IP guard,
 * then either the poll loop (when the file runs as a script) or nothing of
 * the loop (when it is imported), then the log rotation. The rotation stands
 * after the loop `while True`, so a script never reaches it; only an import
 * that passes the guard does.
 */
module Program {
  import opened Wrappers
  import opened Probe
  import opened Alerting
  import opened Checks
  import opened IpGuard
  import opened Logs

  /** Whether `__name__ == "__main__"`. */
  datatype EntryMode = RunAsScript | Imported

  /** Where execution ends up after the guard. */
  datatype Stage =
    | HaltedByGuard  // `raise SystemExit` after the IP alert
    | Polling        // the endless check loop; nothing after it runs
    | Rotating       // past the loop's `if`: the log rotation runs

  /** The stage the module-level code reaches, given the guard's verdict. */
  function StageReached(mode: EntryMode, verdict: GuardVerdict): (stage: Stage)
    ensures stage == HaltedByGuard <==> verdict.Halt?
    ensures stage == Rotating <==> verdict.Proceed? && mode == Imported
  {
    if verdict.Halt? then HaltedByGuard
    else match mode
      case RunAsScript => Polling
      case Imported => Rotating
  }

  /** The rotation runs exactly when the module is imported and the IP matches. */
  lemma RotationReachedIff(mode: EntryMode, observed: Option<string>, expected: string)
    ensures StageReached(mode, CheckPublicIp(observed, expected)) == Rotating
        <==> mode == Imported && observed == Some(expected)
  {
  }

  /** Run as a script, the program never rotates its logs. */
  lemma ScriptNeverRotates(verdict: GuardVerdict)
    ensures StageReached(RunAsScript, verdict) != Rotating
  {
  }

  /**
   * One start of the program, up to its first check cycle. On an IP mismatch
   * it sends the IP alert and logs its warning and stops: no probe is issued
   * and the directory is untouched. As a script it runs the first cycle of
   * the poll loop (the loop then repeats forever). Imported, it runs no
   * cycle and rotates the logs.
   */
  method Start(mode: EntryMode, lookup: IpLookup, expectedIp: string,
               urls: seq<string>, outcomes: seq<HttpOutcome>,
               dir: LogDirectory, today: string)
    returns (stage: Stage, requests: seq<ProbeRequest>, emails: seq<Email>, warnings: seq<string>)
    requires |outcomes| == |urls|
    modifies dir
    ensures stage == StageReached(mode, CheckPublicIp(GetPublicIp(lookup), expectedIp))
    ensures stage == HaltedByGuard ==>
      requests == [] &&
      emails == [IpChangedEmail(GetPublicIp(lookup))] &&
      warnings == [IpChangedWarning(GetPublicIp(lookup))] &&
      dir.files == old(dir.files)
    ensures stage == Polling ==>
      |requests| == |urls| &&
      (forall i :: 0 <= i < |urls| ==> requests[i] == RequestFor(urls[i])) &&
      |emails| == |warnings| == |FailedUrls(urls, outcomes)| &&
      (forall k :: 0 <= k < |emails| ==>
        emails[k] == AlertFor(FailedUrls(urls, outcomes)[k]) &&
        warnings[k] == WarningFor(FailedUrls(urls, outcomes)[k])) &&
      dir.files == old(dir.files)
    ensures stage == Rotating ==>
      requests == [] && emails == [] && warnings == [] &&
      dir.files == Rotated(old(dir.files), today)
  {
    var currentPublicIp := GetPublicIp(lookup);
    var verdict := CheckPublicIp(currentPublicIp, expectedIp);
    stage := StageReached(mode, verdict);
    if verdict.Halt? {
      requests, emails, warnings := [], [verdict.alert], [verdict.warning];
      return;
    }
    if mode == RunAsScript {
      requests, emails, warnings := CheckServices(urls, outcomes);
      return;
    }
    requests, emails, warnings := [], [], [];
    dir.RotateLogs(today);
  }
}

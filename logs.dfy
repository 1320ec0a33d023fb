/**
 * The dated log file and the rotation that compresses old ones. The log file
 * of a day is `monitor_log_<date>.txt`; rotation picks the names in the
 * program's directory that start with `monitor_log_` and end with `.txt`,
 * reads the date token out of each, and replaces every file not dated today
 * by `<name>.gz`. Only names are modelled: the directory is a set of file
 * names, and compressing a file adds its `.gz` name and removes its own.
 */
module Logs {
  import opened Text

  const LogPrefix: string := "monitor_log_"
  const LogSuffix: string := ".txt"
  const GzSuffix: string := ".gz"

  /** The name of the log file for a date stamp (`%Y%m%d`). */
  function LogFileName(date: string): (name: string)
    ensures IsLogFile(name)
  {
    LogPrefix + date + LogSuffix
  }

  /** The filter of the rotation's listing. */
  predicate IsLogFile(name: string)
    ensures IsLogFile(name) <==> exists mid :: name == LogPrefix + mid + LogSuffix
  {
    if StartsWith(name, LogPrefix) && EndsWith(name, LogSuffix) then
      var n := |name|;
      if n < |LogPrefix| + |LogSuffix| then
        assert name[n - 4] == '.' && name[n - 4] == LogPrefix[n - 4];
        false
      else
        assert name == LogPrefix + name[12..n - 4] + LogSuffix;
        true
    else
      false
  }

  /** `name.split("_")[-1].split(".")[0]`: the text after the last `_`, up to its first `.`. */
  function LogDate(name: string): (date: string)
    ensures '_' !in date && '.' !in date
  {
    var parts := Split(name, '_');
    Split(parts[|parts| - 1], '.')[0]
  }

  /** The name a file is compressed to. */
  function Compressed(name: string): string {
    name + GzSuffix
  }

  /** The date token of a day's log file is that day's stamp, when the stamp has no `_` or `.`. */
  lemma LogDateRoundTrip(date: string)
    requires '_' !in date && '.' !in date
    ensures LogDate(LogFileName(date)) == date
  {
    var parts := ["monitor", "log", date + ".txt"];
    assert parts[1..][1..] == [date + ".txt"];
    assert Join(parts[1..], '_') == "log" + "_" + (date + ".txt");
    assert Join(parts, '_') == LogFileName(date);
    assert '_' !in date + ".txt";
    SplitUnique(parts, '_');
    var dot := [date, "txt"];
    assert Join(dot, '.') == date + ".txt";
    SplitUnique(dot, '.');
  }

  /** A compressed name is never picked by the filter again. */
  lemma CompressedIsNotLogFile(name: string)
    ensures !IsLogFile(Compressed(name))
  {
    var c := Compressed(name);
    assert c[|c| - 1] == 'z';
  }

  /** The selected files of a listing that are not dated `today`. */
  function StaleLogs(dir: set<string>, today: string): set<string> {
    set name | name in dir && IsLogFile(name) && LogDate(name) != today
  }

  /** The compressed names of a set of files. */
  function CompressedAll(names: set<string>): set<string> {
    set name | name in names :: Compressed(name)
  }

  /** The directory after compressing `stale` out of `dir`. */
  function CompressOut(dir: set<string>, stale: set<string>): set<string> {
    (dir - stale) + CompressedAll(stale)
  }

  /** The directory after one rotation. */
  function Rotated(dir: set<string>, today: string): (rotated: set<string>)
    ensures forall name :: name in dir && name !in rotated ==> IsLogFile(name) && LogDate(name) != today
    ensures forall name :: name in rotated && name !in dir ==>
      exists f :: f in dir && IsLogFile(f) && LogDate(f) != today && name == Compressed(f)
  {
    CompressOut(dir, StaleLogs(dir, today))
  }

  /** No log file is among the compressed names. */
  lemma LogFileNotCompressed(name: string, names: set<string>)
    requires IsLogFile(name)
    ensures name !in CompressedAll(names)
  {
    if name in CompressedAll(names) {
      var f :| f in names && name == Compressed(f);
      CompressedIsNotLogFile(f);
    }
  }

  /** Compressing one more log file: add its `.gz` name, remove its own. */
  lemma CompressOutStep(dir: set<string>, stale: set<string>, name: string)
    requires IsLogFile(name)
    ensures CompressOut(dir, stale + {name}) == (CompressOut(dir, stale) + {Compressed(name)}) - {name}
  {
    LogFileNotCompressed(name, stale);
    assert CompressedAll(stale + {name}) == CompressedAll(stale) + {Compressed(name)};
    CompressedIsNotLogFile(name);
  }

  class LogDirectory {
    /** The names of the files in the program's directory. */
    var files: set<string>

    constructor (listing: set<string>)
      ensures files == listing
    {
      files := listing;
    }

    /**
     * Compress every selected log file not dated `today`: write `<name>.gz`,
     * then remove `<name>`. The listing is taken once, before the loop.
     */
    method RotateLogs(today: string)
      modifies this
      ensures files == Rotated(old(files), today)
    {
      var logFiles := set name | name in files && IsLogFile(name);
      var pending := logFiles;
      ghost var done: set<string> := {};
      while pending != {}
        invariant pending <= logFiles && done == logFiles - pending
        invariant files == CompressOut(old(files), StaleLogs(done, today))
        decreases pending
      {
        var logFile :| logFile in pending;
        var logDate := LogDate(logFile);
        if logDate != today {
          CompressOutStep(old(files), StaleLogs(done, today), logFile);
          assert StaleLogs(done + {logFile}, today) == StaleLogs(done, today) + {logFile};
          files := files + {Compressed(logFile)};
          files := files - {logFile};
        } else {
          assert StaleLogs(done + {logFile}, today) == StaleLogs(done, today);
        }
        pending := pending - {logFile};
        done := done + {logFile};
      }
      assert StaleLogs(done, today) == StaleLogs(old(files), today);
    }
  }

  /** Names the filter does not pick, `.gz` files among them, are left as they were. */
  lemma RotationKeepsOthers(dir: set<string>, today: string, name: string)
    requires name in dir && !IsLogFile(name)
    ensures name in Rotated(dir, today)
  {
  }

  /** A log file dated today is left as it was. */
  lemma RotationKeepsToday(dir: set<string>, today: string, name: string)
    requires name in dir && IsLogFile(name) && LogDate(name) == today
    ensures name in Rotated(dir, today)
  {
  }

  /** A log file dated another day is gone afterwards, and its `.gz` is there. */
  lemma RotationCompressesStale(dir: set<string>, today: string, name: string)
    requires name in dir && IsLogFile(name) && LogDate(name) != today
    ensures name !in Rotated(dir, today)
    ensures Compressed(name) in Rotated(dir, today)
  {
    LogFileNotCompressed(name, StaleLogs(dir, today));
  }

  /** Exactly the stale log files disappear, and only their `.gz` names appear. */
  lemma RotationDelta(dir: set<string>, today: string)
    ensures dir - Rotated(dir, today) == StaleLogs(dir, today)
    ensures Rotated(dir, today) - dir <= CompressedAll(StaleLogs(dir, today))
  {
    forall name | name in StaleLogs(dir, today) ensures name !in Rotated(dir, today) {
      RotationCompressesStale(dir, today, name);
    }
  }

  /** After a rotation no selected log file with another day's date is left. */
  lemma RotationLeavesNoStale(dir: set<string>, today: string)
    ensures StaleLogs(Rotated(dir, today), today) == {}
  {
    forall name | name in Rotated(dir, today) && IsLogFile(name) ensures LogDate(name) == today {
      LogFileNotCompressed(name, StaleLogs(dir, today));
    }
  }

  /** A second rotation on the same day changes nothing. */
  lemma RotationIdempotent(dir: set<string>, today: string)
    ensures Rotated(Rotated(dir, today), today) == Rotated(dir, today)
  {
    RotationLeavesNoStale(dir, today);
    assert CompressedAll({}) == {};
  }

  /** Today's own log file survives the rotation. */
  lemma RotationKeepsTodaysLog(dir: set<string>, today: string)
    requires '_' !in today && '.' !in today
    requires LogFileName(today) in dir
    ensures LogFileName(today) in Rotated(dir, today)
  {
    LogDateRoundTrip(today);
  }
}

/** The bookkeeping of `SystemMonitor` (core/system_hooks.py): the on/off
    flag, the two logs bounded at 1000 entries, the process and file sweeps,
    file tracking, and the summaries built from the logs. What psutil and
    the file system report is passed in: a process snapshot in the order
    psutil lists it, the files that exist with their `stat` readings, and
    the time of the sweep. */
module SystemHooks {
  import opened Text
  import opened PyDict
  import opened Ranking

  /** `deque(maxlen=1000)` */
  const LogCapacity: nat := 1000

  /** The newest `LogCapacity` entries of `s`. */
  function Keep<T>(s: seq<T>): (r: seq<T>)
    ensures |r| == Min(|s|, LogCapacity)
    ensures r == s[|s| - |r|..]
  {
    if |s| <= LogCapacity then s else s[|s| - LogCapacity..]
  }

  /** `log.append(e)` on a deque with `maxlen=1000`: below capacity the entry
      is added, at capacity the oldest entry is dropped to make room. */
  function BoundedAppend<T>(log: seq<T>, e: T): (r: seq<T>)
    requires |log| <= LogCapacity
    ensures |r| <= LogCapacity
    ensures |log| < LogCapacity ==> r == log + [e]
    ensures |log| == LogCapacity ==> r == log[1..] + [e]
  {
    var s := log + [e];
    if |s| <= LogCapacity then s
    else
      assert s[|s| - LogCapacity..] == log[1..] + [e];
      s[|s| - LogCapacity..]
  }

  /** A bounded log holds the newest entries of everything ever appended. */
  lemma AppendKeeps<T>(s: seq<T>, e: T)
    ensures BoundedAppend(Keep(s), e) == Keep(s + [e])
  {
    if |s| > LogCapacity {
      var k := Keep(s);
      assert k[1..] + [e] == (s + [e])[|s| + 1 - LogCapacity..];
    }
  }

  /** Appending twice, trimming after each, is appending both and trimming
      once. */
  lemma KeepBoth<T>(log: seq<T>, e1: seq<T>, log1: seq<T>, e2: seq<T>, r: seq<T>)
    requires log1 == Keep(log + e1) && r == Keep(log1 + e2)
    ensures r == Keep(log + e1 + e2)
  {
    KeepConcat(log + e1, e2);
  }

  /** Trimming before appending more changes nothing once the result is
      trimmed again. */
  lemma KeepConcat<T>(s: seq<T>, t: seq<T>)
    ensures Keep(Keep(s) + t) == Keep(s + t)
  {
    if |s| > LogCapacity {
      var k := Keep(s);
      var n := |s + t|;
      assert (k + t)[|k + t| - Min(|k + t|, LogCapacity)..] == (s + t)[n - LogCapacity..];
    }
  }

  lemma DistinctAppend<T>(s: seq<T>, x: T)
    requires Distinct(s) && x !in s
    ensures Distinct(s + [x])
  {
  }

  /** Some element of a non-empty set, in whatever order the set yields. */
  method Choose<T>(s: set<T>) returns (x: T)
    requires s != {}
    ensures x in s
  {
    x :| x in s;
  }

  /** Logs one event of `kind` for each pid of `pids`, in the order the set
      yields them (named by the ghost result). */
  method LogProcesses(log: seq<ProcessEvent>, pids: set<int>, procs: map<int, ProcessInfo>,
                      kind: ProcessEventKind, now: real)
    returns (r: seq<ProcessEvent>, ghost order: seq<int>)
    requires |log| <= LogCapacity
    ensures Enumerates(order, pids)
    ensures r == Keep(log + ProcessEvents(kind, order, procs, now))
  {
    r := log;
    order := [];
    var remaining := pids;
    while remaining != {}
      invariant remaining <= pids
      invariant forall p :: p in order <==> p in pids && p !in remaining
      invariant Distinct(order)
      invariant r == Keep(log + ProcessEvents(kind, order, procs, now))
      decreases |remaining|
    {
      var pid := Choose(remaining);
      LogProcessStep(log, kind, order, procs, pid, now);
      r := BoundedAppend(r, ProcessEvent(kind, pid, NameOf(procs, pid), now));
      DistinctAppend(order, pid);
      order := order + [pid];
      remaining := remaining - {pid};
    }
  }

  /** The process-log part of `_monitor_processes`: a start event for each
      pid that appeared and then a termination event for each pid that
      went, each set in whatever order it yields. */
  method LogProcessChanges(log: seq<ProcessEvent>, before: map<int, ProcessInfo>, current: map<int, ProcessInfo>, now: real)
    returns (r: seq<ProcessEvent>, ghost started: seq<int>, ghost terminated: seq<int>)
    requires |log| <= LogCapacity
    ensures Enumerates(started, current.Keys - before.Keys)
    ensures Enumerates(terminated, before.Keys - current.Keys)
    ensures r == Keep(log + ProcessEvents(ProcessStarted, started, current, now)
                          + ProcessEvents(ProcessTerminated, terminated, before, now))
  {
    var log1;
    log1, started := LogProcesses(log, current.Keys - before.Keys, current, ProcessStarted, now);
    r, terminated := LogProcesses(log1, before.Keys - current.Keys, before, ProcessTerminated, now);
    KeepBoth(log, ProcessEvents(ProcessStarted, started, current, now), log1,
             ProcessEvents(ProcessTerminated, terminated, before, now), r);
  }

  /** The loop of `_monitor_file_system` over the tracked `files`. */
  method SweepFiles(log: seq<FileEvent>, files: set<string>, fs: map<string, FileStat>, now: real)
    returns (r: seq<FileEvent>, kept: set<string>, ghost order: seq<string>)
    requires |log| <= LogCapacity
    ensures Enumerates(order, files)
    ensures r == Keep(log + FileEvents(order, fs, now)) && |r| <= LogCapacity
    ensures kept == Existing(files, fs)
  {
    r := log;
    kept := files;
    order := [];
    var remaining := files;
    while remaining != {}
      invariant remaining <= files
      invariant forall f :: f in order <==> f in files && f !in remaining
      invariant Distinct(order)
      invariant r == Keep(log + FileEvents(order, fs, now))
      invariant kept <= files
      invariant forall f :: f in files ==> (f in kept <==> f in remaining || f in fs)
      decreases |remaining|
    {
      var f :| f in remaining;
      SweepStep(log, order, fs, f, now);
      r := BoundedAppend(r, EventFor(f, fs, now));
      if f !in fs {
        kept := kept - {f};
      }
      order := order + [f];
      remaining := remaining - {f};
    }
  }

  /** The counting loop of `analyze_usage_patterns`. */
  method CountNames(names: seq<string>) returns (d: Dict<string, nat>)
    ensures d == Tally(names)
  {
    d := Empty();
    var i := 0;
    while i < |names|
      invariant 0 <= i <= |names|
      invariant d == Tally(names[..i])
    {
      TallyStep(names, i, d);
      var x := names[i];
      if x != "" {
        d := Increment(d, x);
      }
      i := i + 1;
    }
    assert names[..|names|] == names;
  }

  /** One process-log entry. */
  datatype ProcessEventKind = ProcessStarted | ProcessTerminated
  datatype ProcessEvent = ProcessEvent(event: ProcessEventKind, pid: int, name: string, timestamp: real)

  /** One file-log entry: a `stat` reading or a deletion. */
  datatype FileEvent =
    | Accessed(file: string, mtime: real, size: int, timestamp: real)
    | Deleted(file: string, timestamp: real)

  /** What psutil reports about one process; a percentage psutil could not
      read (access denied) is `None`. */
  datatype ProcessInfo = ProcessInfo(name: string, cpuPercent: Option<real>, memoryPercent: Option<real>)

  /** What `os.stat` reports about one file. */
  datatype FileStat = FileStat(mtime: real, size: int)

  /** The name psutil gave `pid` (every pid looked up here is in `procs`). */
  function NameOf(procs: map<int, ProcessInfo>, pid: int): string
  {
    if pid in procs then procs[pid].name else ""
  }

  /** The events of `kind` for `pids`, in that order, each with the name
      `procs` gives its pid. */
  function ProcessEvents(kind: ProcessEventKind, pids: seq<int>, procs: map<int, ProcessInfo>, now: real): seq<ProcessEvent>
    decreases |pids|
  {
    if |pids| == 0 then []
    else ProcessEvents(kind, pids[..|pids| - 1], procs, now)
         + [ProcessEvent(kind, pids[|pids| - 1], NameOf(procs, pids[|pids| - 1]), now)]
  }

  /** The event for each of `files`, in that order: a reading for a file that
      exists, a deletion otherwise. */
  function FileEvents(files: seq<string>, fs: map<string, FileStat>, now: real): seq<FileEvent>
    decreases |files|
  {
    if |files| == 0 then []
    else
      var f := files[|files| - 1];
      FileEvents(files[..|files| - 1], fs, now)
      + [EventFor(f, fs, now)]
  }

  /** The files of `files` that still exist. */
  function Existing(files: set<string>, fs: map<string, FileStat>): set<string>
  {
    set f | f in files && f in fs
  }

  /** A reading for a file that exists, a deletion otherwise. */
  function EventFor(f: string, fs: map<string, FileStat>, now: real): FileEvent
  {
    if f in fs then Accessed(f, fs[f].mtime, fs[f].size, now) else Deleted(f, now)
  }

  lemma SweepStep(log: seq<FileEvent>, order: seq<string>, fs: map<string, FileStat>, f: string, now: real)
    ensures Keep(log + FileEvents(order + [f], fs, now))
            == BoundedAppend(Keep(log + FileEvents(order, fs, now)), EventFor(f, fs, now))
  {
    assert (order + [f])[..|order|] == order;
    AppendKeeps(log + FileEvents(order, fs, now), EventFor(f, fs, now));
    assert log + FileEvents(order + [f], fs, now) == log + FileEvents(order, fs, now) + [EventFor(f, fs, now)];
  }

  lemma LogProcessStep(log: seq<ProcessEvent>, kind: ProcessEventKind, order: seq<int>,
                       procs: map<int, ProcessInfo>, pid: int, now: real)
    ensures Keep(log + ProcessEvents(kind, order + [pid], procs, now))
            == BoundedAppend(Keep(log + ProcessEvents(kind, order, procs, now)), ProcessEvent(kind, pid, NameOf(procs, pid), now))
  {
    var e := ProcessEvent(kind, pid, NameOf(procs, pid), now);
    assert (order + [pid])[..|order|] == order;
    AppendKeeps(log + ProcessEvents(kind, order, procs, now), e);
    assert log + ProcessEvents(kind, order + [pid], procs, now) == log + ProcessEvents(kind, order, procs, now) + [e];
  }

  predicate Distinct<T(==)>(s: seq<T>)
  {
    forall i, j :: 0 <= i < j < |s| ==> s[i] != s[j]
  }

  /** `order` lists the elements of `s`, each exactly once. */
  ghost predicate Enumerates<T(!new)>(order: seq<T>, s: set<T>)
  {
    Distinct(order) && forall x :: x in order <==> x in s
  }

  /** The values of a dict, in its order. */
  function Values<K(==,!new), V>(d: Dict<K, V>): (r: seq<V>)
    requires d.Valid()
    ensures |r| == |d.keys|
    ensures forall i :: 0 <= i < |r| ==> r[i] == d.items[d.keys[i]]
  {
    seq(|d.keys|, i requires 0 <= i < |d.keys| => d.items[d.keys[i]])
  }

  /** The sort key for CPU; only consulted when every percentage is known. */
  function CpuKey(p: ProcessInfo): real
  {
    if p.cpuPercent.Some? then p.cpuPercent.value else 0.0
  }

  function MemoryKey(p: ProcessInfo): real
  {
    if p.memoryPercent.Some? then p.memoryPercent.value else 0.0
  }

  /** Whether `sorted` can order `procs` by both percentages: a missing
      percentage is compared with another key, which raises `TypeError`,
      as soon as there are two processes to order. */
  predicate Sortable(procs: seq<ProcessInfo>)
  {
    |procs| <= 1 || forall p :: p in procs ==> p.cpuPercent.Some? && p.memoryPercent.Some?
  }

  /** `dict` counting: every non-empty name with its number of occurrences,
      in the order of first occurrence. */
  function Tally(names: seq<string>): Dict<string, nat>
    decreases |names|
  {
    if |names| == 0 then Empty()
    else
      var d := Tally(names[..|names| - 1]);
      var x := names[|names| - 1];
      if x == "" then d else Increment(d, x)
  }

  /** `d[x] += 1` on a `defaultdict(int)`. */
  function Increment(d: Dict<string, nat>, x: string): Dict<string, nat>
  {
    d.Put(x, (if x in d.items then d.items[x] else 0) + 1)
  }

  /** A tally is a well-formed dict: its keys are distinct and are exactly
      the names it maps. */
  lemma {:induction false} TallyValid(names: seq<string>)
    ensures Tally(names).Valid()
    decreases |names|
  {
    if |names| > 0 {
      TallyValid(names[..|names| - 1]);
    }
  }

  /** The tally of one more name. */
  lemma TallyStep(names: seq<string>, i: nat, d: Dict<string, nat>)
    requires i < |names| && d == Tally(names[..i])
    ensures names[i] == "" ==> Tally(names[..i + 1]) == d
    ensures names[i] != "" ==> Tally(names[..i + 1]) == Increment(d, names[i])
  {
    assert names[..i + 1][..i] == names[..i];
  }

  /** A tally counts each non-empty name exactly as often as it occurs. */
  lemma {:induction false} TallyCounts(names: seq<string>)
    ensures forall x :: x in Tally(names).items <==> x in names && x != ""
    ensures forall x :: x in Tally(names).items ==> Tally(names).items[x] == multiset(names)[x]
    decreases |names|
  {
    if |names| > 0 {
      var front := names[..|names| - 1];
      TallyCounts(front);
      assert names == front + [names[|names| - 1]];
    }
  }

  function CountKey(e: (string, nat)): real
  {
    e.1 as real
  }

  /** The tally's entries, in the dict's order. */
  function Entries(d: Dict<string, nat>): (r: seq<(string, nat)>)
    requires d.Valid()
    ensures |r| == |d.keys|
    ensures forall i :: 0 <= i < |r| ==> r[i] == (d.keys[i], d.items[d.keys[i]])
  {
    seq(|d.keys|, i requires 0 <= i < |d.keys| => (d.keys[i], d.items[d.keys[i]]))
  }

  /** `dict(sorted(counts.items(), key=count, reverse=True)[:10])` */
  function MostFrequent(names: seq<string>): seq<(string, nat)>
  {
    TallyValid(names);
    TopN(Entries(Tally(names)), CountKey, 10)
  }

  /** At most ten names, each with its true count, highest counts first, and
      no name left out occurs more often than a name kept. */
  lemma MostFrequentFacts(names: seq<string>)
    ensures var r := MostFrequent(names);
      && |r| <= 10
      && SortedDesc(r, CountKey)
      && (forall i :: 0 <= i < |r| ==> r[i].0 in names && r[i].0 != "" && r[i].1 == multiset(names)[r[i].0])
      && (forall x :: x in names && x != "" && (forall i :: 0 <= i < |r| ==> r[i].0 != x) ==>
            forall i :: 0 <= i < |r| ==> r[i].1 >= multiset(names)[x])
  {
    var d := Tally(names);
    TallyValid(names);
    TallyCounts(names);
    TopCounts(names, d);
  }

  /** `Counts(names, d)`: `d` maps exactly the non-empty names, each to its
      number of occurrences. */
  ghost predicate Counts(names: seq<string>, d: Dict<string, nat>)
  {
    d.Valid()
    && (forall x :: x in d.items <==> x in names && x != "")
    && (forall x :: x in d.items ==> d.items[x] == multiset(names)[x])
  }

  /** The ten highest entries of a dict that counts `names`. */
  lemma TopCounts(names: seq<string>, d: Dict<string, nat>)
    requires Counts(names, d)
    ensures var r := TopN(Entries(d), CountKey, 10);
      && |r| <= 10
      && SortedDesc(r, CountKey)
      && (forall i :: 0 <= i < |r| ==> r[i].0 in names && r[i].0 != "" && r[i].1 == multiset(names)[r[i].0])
      && (forall x :: x in names && x != "" && (forall i :: 0 <= i < |r| ==> r[i].0 != x) ==>
            forall i :: 0 <= i < |r| ==> r[i].1 >= multiset(names)[x])
  {
    var es := Entries(d);
    var r := TopN(es, CountKey, 10);
    forall i | 0 <= i < |r| ensures r[i].0 in names && r[i].0 != "" && r[i].1 == multiset(names)[r[i].0] {
      KeptEntry(names, d, r, i);
    }
    forall x | x in names && x != "" && (forall i :: 0 <= i < |r| ==> r[i].0 != x)
      ensures forall i :: 0 <= i < |r| ==> r[i].1 >= multiset(names)[x]
    {
      OmittedEntry(names, d, r, x);
    }
  }

  /** An entry the top ten keeps is a counted name with its count. */
  lemma KeptEntry(names: seq<string>, d: Dict<string, nat>, r: seq<(string, nat)>, i: nat)
    requires Counts(names, d) && multiset(r) <= multiset(Entries(d)) && i < |r|
    ensures r[i].0 in names && r[i].0 != "" && r[i].1 == multiset(names)[r[i].0]
  {
    var es := Entries(d);
    assert r[i] in multiset(es);
    var k :| 0 <= k < |es| && es[k] == r[i];
    assert d.keys[k] in d.items;
  }

  /** A counted name the top ten leaves out occurs no more often than any
      name kept. */
  lemma OmittedEntry(names: seq<string>, d: Dict<string, nat>, r: seq<(string, nat)>, x: string)
    requires Counts(names, d) && multiset(r) <= multiset(Entries(d))
    requires forall e :: e in multiset(Entries(d)) - multiset(r) ==>
               forall i :: 0 <= i < |r| ==> CountKey(r[i]) >= CountKey(e)
    requires x in names && x != "" && forall i :: 0 <= i < |r| ==> r[i].0 != x
    ensures forall i :: 0 <= i < |r| ==> r[i].1 >= multiset(names)[x]
  {
    var es := Entries(d);
    assert x in d.items;
    assert x in d.keys;
    var k :| 0 <= k < |d.keys| && d.keys[k] == x;
    var e := es[k];
    assert e in multiset(es);
    assert e !in r;
    assert e in multiset(es) - multiset(r);
  }

  function ProcessNames(log: seq<ProcessEvent>): seq<string>
  {
    seq(|log|, i requires 0 <= i < |log| => log[i].name)
  }

  function FileNames(log: seq<FileEvent>): seq<string>
  {
    seq(|log|, i requires 0 <= i < |log| => log[i].file)
  }

  /** The last `n` entries of `s` (all of them if fewer): `s[-n:]`. */
  function Last<T>(s: seq<T>, n: nat): (r: seq<T>)
    ensures |r| == Min(n, |s|) && r == s[|s| - |r|..]
  {
    if |s| <= n then s else s[|s| - n..]
  }

  /** `get_status` */
  datatype MonitorStatus = MonitorStatus(
    monitoringActive: bool, trackedFiles: nat, trackedProcesses: nat, systemStatsAvailable: bool,
    psutilAvailable: bool, monitoringInterval: real, processLogEntries: nat, fileAccessLogEntries: nat)

  /** `get_process_summary` */
  datatype ProcessSummary = ProcessSummary(
    totalProcesses: nat, topCpu: seq<ProcessInfo>, topMemory: seq<ProcessInfo>, recentEvents: seq<ProcessEvent>)

  /** What `get_process_summary` returns: the "psutil not available" error,
      the error of an exception while sorting, or the summary. */
  datatype SummaryOutcome = PsutilMissing | SortFailed | Summary(summary: ProcessSummary)

  class SystemMonitor {
    var monitoringActive: bool
    var trackedFiles: set<string>
    var trackedProcesses: Dict<int, ProcessInfo>
    var fileAccessLog: seq<FileEvent>
    var processLog: seq<ProcessEvent>
    var hasSystemStats: bool
    const psutilAvailable: bool
    const monitoringInterval: real

    ghost predicate Valid()
      reads this
    {
      && |fileAccessLog| <= LogCapacity
      && |processLog| <= LogCapacity
      && trackedProcesses.Valid()
    }

    constructor(psutil: bool)
      ensures Valid()
      ensures !monitoringActive && trackedFiles == {} && trackedProcesses == Empty()
      ensures fileAccessLog == [] && processLog == [] && !hasSystemStats
      ensures psutilAvailable == psutil && monitoringInterval == 5.0
    {
      monitoringActive := false;
      trackedFiles := {};
      trackedProcesses := Empty();
      fileAccessLog := [];
      processLog := [];
      hasSystemStats := false;
      psutilAvailable := psutil;
      monitoringInterval := 5.0;
    }

    /** `start_monitoring`: sets the flag; a no-op when already active. */
    method StartMonitoring()
      modifies this
      ensures monitoringActive
      ensures trackedFiles == old(trackedFiles) && trackedProcesses == old(trackedProcesses)
      ensures fileAccessLog == old(fileAccessLog) && processLog == old(processLog)
      ensures hasSystemStats == old(hasSystemStats)
    {
      if monitoringActive {
        return;
      }
      monitoringActive := true;
    }

    /** `stop_monitoring`: clears the flag; a no-op when inactive. */
    method StopMonitoring()
      modifies this
      ensures !monitoringActive
      ensures trackedFiles == old(trackedFiles) && trackedProcesses == old(trackedProcesses)
      ensures fileAccessLog == old(fileAccessLog) && processLog == old(processLog)
      ensures hasSystemStats == old(hasSystemStats)
    {
      if !monitoringActive {
        return;
      }
      monitoringActive := false;
    }

    /** `_collect_system_stats`: stores a reading when psutil is there and
        the reading succeeds. */
    method CollectSystemStats(readingOk: bool)
      modifies this
      ensures hasSystemStats == (old(hasSystemStats) || (psutilAvailable && readingOk))
      ensures monitoringActive == old(monitoringActive) && trackedFiles == old(trackedFiles)
      ensures trackedProcesses == old(trackedProcesses)
      ensures fileAccessLog == old(fileAccessLog) && processLog == old(processLog)
    {
      if psutilAvailable && readingOk {
        hasSystemStats := true;
      }
    }

    /** `_monitor_processes`: one `process_started` event for each pid of the
        snapshot that was not tracked, then one `process_terminated` event
        for each tracked pid that is gone (each group in set order, which the
        ghost results name), and the snapshot becomes the tracked table.
        Without psutil nothing happens. */
    method MonitorProcesses(current: Dict<int, ProcessInfo>, now: real)
      returns (ghost started: seq<int>, ghost terminated: seq<int>)
      requires Valid() && current.Valid()
      modifies this
      ensures Valid()
      ensures !psutilAvailable ==> trackedProcesses == old(trackedProcesses) && processLog == old(processLog)
      ensures psutilAvailable ==>
                && trackedProcesses == current
                && Enumerates(started, current.items.Keys - old(trackedProcesses.items).Keys)
                && Enumerates(terminated, old(trackedProcesses.items).Keys - current.items.Keys)
                && processLog == Keep(old(processLog)
                                      + ProcessEvents(ProcessStarted, started, current.items, now)
                                      + ProcessEvents(ProcessTerminated, terminated, old(trackedProcesses.items), now))
      ensures monitoringActive == old(monitoringActive) && trackedFiles == old(trackedFiles)
      ensures fileAccessLog == old(fileAccessLog) && hasSystemStats == old(hasSystemStats)
    {
      started, terminated := [], [];
      if !psutilAvailable {
        return;
      }
      processLog, started, terminated := LogProcessChanges(processLog, trackedProcesses.items, current.items, now);
      trackedProcesses := current;
    }

    /** `_monitor_file_system`: one event for each tracked file, in set order
        (named by the ghost result); a file that no longer exists gets a
        `deleted` event and is no longer tracked, the others stay tracked. */
    method MonitorFileSystem(fs: map<string, FileStat>, now: real) returns (ghost order: seq<string>)
      requires Valid()
      modifies this
      ensures Valid()
      ensures Enumerates(order, old(trackedFiles))
      ensures fileAccessLog == Keep(old(fileAccessLog) + FileEvents(order, fs, now))
      ensures trackedFiles == Existing(old(trackedFiles), fs)
      ensures monitoringActive == old(monitoringActive) && trackedProcesses == old(trackedProcesses)
      ensures processLog == old(processLog) && hasSystemStats == old(hasSystemStats)
    {
      var log, kept;
      log, kept, order := SweepFiles(fileAccessLog, trackedFiles, fs, now);
      fileAccessLog := log;
      trackedFiles := kept;
    }

    /** `track_file` (the path taken as already absolute) */
    method TrackFile(path: string)
      modifies this
      ensures trackedFiles == old(trackedFiles) + {path}
      ensures monitoringActive == old(monitoringActive) && trackedProcesses == old(trackedProcesses)
      ensures fileAccessLog == old(fileAccessLog) && processLog == old(processLog)
      ensures hasSystemStats == old(hasSystemStats)
    {
      trackedFiles := trackedFiles + {path};
    }

    /** `untrack_file`: a no-op for a path not tracked. */
    method UntrackFile(path: string)
      modifies this
      ensures trackedFiles == old(trackedFiles) - {path}
      ensures path !in old(trackedFiles) ==> trackedFiles == old(trackedFiles)
      ensures monitoringActive == old(monitoringActive) && trackedProcesses == old(trackedProcesses)
      ensures fileAccessLog == old(fileAccessLog) && processLog == old(processLog)
      ensures hasSystemStats == old(hasSystemStats)
    {
      trackedFiles := trackedFiles - {path};
    }

    /** `analyze_usage_patterns`: the ten most active process names and the
        ten most accessed files, each with its count from the logs. */
    method AnalyzeUsagePatterns() returns (processes: seq<(string, nat)>, files: seq<(string, nat)>)
      ensures processes == MostFrequent(ProcessNames(processLog))
      ensures files == MostFrequent(FileNames(fileAccessLog))
    {
      var processNames := ProcessNames(processLog);
      var processCounts := CountNames(processNames);
      TallyValid(processNames);
      processes := TopN(Entries(processCounts), CountKey, 10);
      var fileNames := FileNames(fileAccessLog);
      var fileCounts := CountNames(fileNames);
      TallyValid(fileNames);
      files := TopN(Entries(fileCounts), CountKey, 10);
    }

    /** `get_process_summary`: an error without psutil, and an error when a
        missing percentage makes the sort raise; otherwise the process
        count, the five busiest processes by CPU and by memory (highest
        first) and the last ten process events. */
    method GetProcessSummary() returns (r: SummaryOutcome)
      requires Valid()
      ensures r.PsutilMissing? <==> !psutilAvailable
      ensures r.SortFailed? <==> psutilAvailable && !Sortable(Values(trackedProcesses))
      ensures r.Summary? ==>
                var procs := Values(trackedProcesses);
                && r.summary.totalProcesses == |trackedProcesses.keys|
                && r.summary.topCpu == TopN(procs, CpuKey, 5)
                && r.summary.topMemory == TopN(procs, MemoryKey, 5)
                && r.summary.recentEvents == Last(processLog, 10)
    {
      if !psutilAvailable {
        return PsutilMissing;
      }
      var procs := Values(trackedProcesses);
      if !Sortable(procs) {
        return SortFailed;
      }
      r := Summary(ProcessSummary(|trackedProcesses.keys|, TopN(procs, CpuKey, 5), TopN(procs, MemoryKey, 5),
                                  Last(processLog, 10)));
    }

    /** `get_status`; the log sizes never exceed 1000. */
    method GetStatus() returns (s: MonitorStatus)
      requires Valid()
      ensures s == MonitorStatus(monitoringActive, |trackedFiles|, |trackedProcesses.keys|, hasSystemStats,
                                 psutilAvailable, monitoringInterval, |processLog|, |fileAccessLog|)
      ensures s.processLogEntries <= 1000 && s.fileAccessLogEntries <= 1000
    {
      s := MonitorStatus(monitoringActive, |trackedFiles|, |trackedProcesses.keys|, hasSystemStats,
                         psutilAvailable, monitoringInterval, |processLog|, |fileAccessLog|);
    }
  }

}

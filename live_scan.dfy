/**
 * The live usage scan (`getLiveSessionUsage` in server/src/services/claudeCodeService.ts):
 * every `.jsonl` file directly inside a project folder of the projects directory whose
 * modification day (UTC) is today is folded by `parseSessionFile`, and the per-file
 * totals are summed counter by counter. One `try` surrounds the whole scan, so a
 * failing `statSync` or `readdirSync` ends it and the sums gathered so far are returned.
 */
module LiveScan {
  import opened Wrappers
  import opened Dates
  import opened SessionLog
  import opened Ordering

  /** A directory entry inside a project folder; `mtime` is `None` when `statSync` on it throws. */
  datatype FileEntry = FileEntry(name: string, mtime: Option<Day>, content: SessionFile)

  /** What `statSync` says of an entry of the projects directory. */
  datatype EntryKind = StatFails | Directory | NotDirectory

  /** An entry of the projects directory; `listing` is `None` when `readdirSync` on it throws. */
  datatype ProjectEntry = ProjectEntry(name: string, kind: EntryKind, listing: Option<seq<FileEntry>>)

  /** The projects directory: absent, present but unreadable, or its entries in listing order. */
  datatype ProjectsDir = Missing | Unlistable | Listed(entries: seq<ProjectEntry>)

  /** `name.endsWith('.jsonl')`. */
  predicate IsSessionLog(name: string)
  {
    |name| >= 6 && name[|name| - 6..] == ".jsonl"
  }

  /** The sums gathered so far and whether an exception has ended the scan. */
  datatype ScanResult = ScanResult(usage: SessionUsage, aborted: bool)

  /** One file of a folder's listing, visited with the sums gathered so far. */
  function FileStep(r: ScanResult, f: FileEntry, today: Day): ScanResult
  {
    if r.aborted || !IsSessionLog(f.name) then r
    else if f.mtime.None? then ScanResult(r.usage, true)
    else if f.mtime.value == today then ScanResult(Plus(r.usage, SessionTotal(ReadableLines(f.content))), false)
    else r
  }

  /** The scan of one folder's files, in listing order. */
  function ScanFiles(files: seq<FileEntry>, today: Day): ScanResult
  {
    if files == [] then ScanResult(Zero, false)
    else FileStep(ScanFiles(files[..|files| - 1], today), files[|files| - 1], today)
  }

  /** One entry of the projects directory, visited with the sums gathered so far. */
  function ProjectStep(r: ScanResult, p: ProjectEntry, today: Day): ScanResult
  {
    if r.aborted then r
    else
      match p.kind
      case NotDirectory => r
      case StatFails => ScanResult(r.usage, true)
      case Directory =>
        match p.listing
        case None => ScanResult(r.usage, true)
        case Some(files) =>
          var fr := ScanFiles(files, today);
          ScanResult(Plus(r.usage, fr.usage), fr.aborted)
  }

  /** The scan of the projects directory's entries, in listing order. */
  function ScanProjects(ps: seq<ProjectEntry>, today: Day): ScanResult
  {
    if ps == [] then ScanResult(Zero, false)
    else ProjectStep(ScanProjects(ps[..|ps| - 1], today), ps[|ps| - 1], today)
  }

  function LiveSessionUsage(dir: ProjectsDir, today: Day): SessionUsage
  {
    match dir
    case Missing => Zero
    case Unlistable => Zero
    case Listed(ps) => ScanProjects(ps, today).usage
  }

  /** Once a scan of files has been ended by an exception, later files change nothing. */
  lemma {:induction false} AbortedFilesScanIsFinal(files: seq<FileEntry>, k: nat, today: Day)
    requires k <= |files| && ScanFiles(files[..k], today).aborted
    ensures ScanFiles(files, today) == ScanFiles(files[..k], today)
    decreases |files|
  {
    if k < |files| {
      var n := |files| - 1;
      assert files[..n][..k] == files[..k];
      AbortedFilesScanIsFinal(files[..n], k, today);
    } else {
      assert files[..k] == files;
    }
  }

  /** Once a scan of projects has been ended by an exception, later projects change nothing. */
  lemma {:induction false} AbortedScanIsFinal(ps: seq<ProjectEntry>, k: nat, today: Day)
    requires k <= |ps| && ScanProjects(ps[..k], today).aborted
    ensures ScanProjects(ps, today) == ScanProjects(ps[..k], today)
    decreases |ps|
  {
    if k < |ps| {
      var n := |ps| - 1;
      assert ps[..n][..k] == ps[..k];
      AbortedScanIsFinal(ps[..n], k, today);
    } else {
      assert ps[..k] == ps;
    }
  }

  /** One more file of the listing: the step of the scan. */
  lemma ScanFilesSnoc(files: seq<FileEntry>, j: nat, today: Day)
    requires j < |files|
    ensures ScanFiles(files[..j + 1], today) == FileStep(ScanFiles(files[..j], today), files[j], today)
  {
    assert files[..j + 1][..j] == files[..j];
  }

  /**
   * One iteration of the inner loop of `getLiveSessionUsage`: a session log modified
   * today has its `parseSessionFile` totals added to the sums; a `statSync` that throws
   * ends the scan.
   */
  method VisitFile(usage: SessionUsage, f: FileEntry, today: Day) returns (r: ScanResult)
    ensures r == FileStep(ScanResult(usage, false), f, today)
  {
    r := ScanResult(usage, false);
    if IsSessionLog(f.name) {
      if f.mtime.None? {
        return ScanResult(usage, true);
      }
      if f.mtime.value == today {
        var sessionUsage := ParseSessionFile(f.content);
        r := ScanResult(SessionUsage(
          usage.inputTokens + sessionUsage.inputTokens,
          usage.outputTokens + sessionUsage.outputTokens,
          usage.cacheCreationTokens + sessionUsage.cacheCreationTokens,
          usage.cacheReadTokens + sessionUsage.cacheReadTokens,
          usage.messageCount + sessionUsage.messageCount), false);
      }
    }
  }

  /**
   * The inner loop of `getLiveSessionUsage` over one folder's files: the sums of the
   * session logs modified today, and whether a `statSync` threw.
   */
  method ScanProjectFiles(files: seq<FileEntry>, today: Day) returns (r: ScanResult)
    ensures r == ScanFiles(files, today)
  {
    var usage := SessionUsage(0, 0, 0, 0, 0);
    var j := 0;
    while j < |files|
      invariant j <= |files|
      invariant ScanFiles(files[..j], today) == ScanResult(usage, false)
    {
      ScanFilesSnoc(files, j, today);
      r := VisitFile(usage, files[j], today);
      if r.aborted {
        AbortedFilesScanIsFinal(files, j + 1, today);
        return;
      }
      usage := r.usage;
      j := j + 1;
    }
    assert files[..j] == files;
    r := ScanResult(usage, false);
  }

  /**
   * `getLiveSessionUsage`: all zeros when the projects directory is absent or cannot be
   * listed; otherwise the scan over its entries, ended by the first exception with the
   * sums gathered so far.
   */
  method GetLiveSessionUsage(dir: ProjectsDir, today: Day) returns (usage: SessionUsage)
    ensures usage == LiveSessionUsage(dir, today)
  {
    usage := SessionUsage(0, 0, 0, 0, 0);
    if !dir.Listed? {
      return;
    }
    var projects := dir.entries;
    var i := 0;
    while i < |projects|
      invariant i <= |projects|
      invariant ScanProjects(projects[..i], today) == ScanResult(usage, false)
    {
      assert projects[..i + 1][..i] == projects[..i];
      var project := projects[i];
      if project.kind.StatFails? || (project.kind.Directory? && project.listing.None?) {
        AbortedScanIsFinal(projects, i + 1, today);
        return;
      }
      if project.kind.Directory? {
        var r := ScanProjectFiles(project.listing.value, today);
        usage := Plus(usage, r.usage);
        if r.aborted {
          AbortedScanIsFinal(projects, i + 1, today);
          return;
        }
      }
      i := i + 1;
    }
    assert projects[..i] == projects;
  }

  // ---------------------------------------------------------------------------
  // Reference: the scan as a plain sum over the files that count.

  /** Counter-wise sum of `f` over a sequence. */
  function SumBy<T>(xs: seq<T>, f: T -> SessionUsage): SessionUsage
  {
    if xs == [] then Zero else Plus(SumBy(xs[..|xs| - 1], f), f(xs[|xs| - 1]))
  }

  /** What one file contributes: its total if it is a session log modified today, else nothing. */
  function FileContribution(f: FileEntry, today: Day): SessionUsage
  {
    if IsSessionLog(f.name) && f.mtime == Some(today) then SessionTotal(ReadableLines(f.content)) else Zero
  }

  function FileContributionOn(today: Day): FileEntry -> SessionUsage
  {
    f => FileContribution(f, today)
  }

  /** What one entry of the projects directory contributes: the sum over its files if it is a folder. */
  function ProjectContribution(p: ProjectEntry, today: Day): SessionUsage
  {
    if p.kind.Directory? && p.listing.Some? then SumBy(p.listing.value, FileContributionOn(today)) else Zero
  }

  function ProjectContributionOn(today: Day): ProjectEntry -> SessionUsage
  {
    p => ProjectContribution(p, today)
  }

  /** No session log in the folder makes `statSync` throw. */
  predicate FilesStatable(files: seq<FileEntry>)
  {
    forall f :: f in files && IsSessionLog(f.name) ==> f.mtime.Some?
  }

  /** No exception is raised while this entry is visited. */
  predicate ProjectScannable(p: ProjectEntry)
  {
    !p.kind.StatFails? && (p.kind.Directory? ==> p.listing.Some? && FilesStatable(p.listing.value))
  }

  predicate ScanCompletes(ps: seq<ProjectEntry>)
  {
    forall p :: p in ps ==> ProjectScannable(p)
  }

  lemma {:induction false} ScanFilesIsSum(files: seq<FileEntry>, today: Day)
    ensures ScanFiles(files, today).aborted <==> !FilesStatable(files)
    ensures FilesStatable(files) ==> ScanFiles(files, today).usage == SumBy(files, FileContributionOn(today))
  {
    if files != [] {
      var n := |files| - 1;
      ScanFilesIsSum(files[..n], today);
      assert files == files[..n] + [files[n]];
      assert forall f :: f in files <==> f in files[..n] || f == files[n];
      assert FilesStatable(files) <==> FilesStatable(files[..n]) && (IsSessionLog(files[n].name) ==> files[n].mtime.Some?);
    }
  }

  /**
   * The scan raises no exception exactly when every entry can be visited, and then
   * the live total is the sum, over folders, of the totals of their session logs
   * modified today.
   */
  lemma {:induction false} CompleteScanIsSum(ps: seq<ProjectEntry>, today: Day)
    ensures ScanProjects(ps, today).aborted <==> !ScanCompletes(ps)
    ensures ScanCompletes(ps) ==> ScanProjects(ps, today).usage == SumBy(ps, ProjectContributionOn(today))
  {
    if ps != [] {
      var n := |ps| - 1;
      CompleteScanIsSum(ps[..n], today);
      var p := ps[n];
      if p.kind.Directory? && p.listing.Some? {
        ScanFilesIsSum(p.listing.value, today);
      }
      assert ps == ps[..n] + [p];
      assert forall q :: q in ps <==> q in ps[..n] || q == p;
      assert ScanCompletes(ps) <==> ScanCompletes(ps[..n]) && ProjectScannable(p);
    }
  }

  /** One counter of each term of a counter-wise sum. */
  function InputTokensOf<T>(f: T -> SessionUsage): T -> int
  {
    x => f(x).inputTokens
  }

  function OutputTokensOf<T>(f: T -> SessionUsage): T -> int
  {
    x => f(x).outputTokens
  }

  function CacheCreationTokensOf<T>(f: T -> SessionUsage): T -> int
  {
    x => f(x).cacheCreationTokens
  }

  function CacheReadTokensOf<T>(f: T -> SessionUsage): T -> int
  {
    x => f(x).cacheReadTokens
  }

  function MessageCountOf<T>(f: T -> SessionUsage): T -> int
  {
    x => f(x).messageCount
  }

  /** Each counter of a counter-wise sum is the plain sum of that counter. */
  lemma {:induction false} SumByCounters<T>(xs: seq<T>, f: T -> SessionUsage)
    ensures SumBy(xs, f).inputTokens == SumOf(xs, InputTokensOf(f))
    ensures SumBy(xs, f).outputTokens == SumOf(xs, OutputTokensOf(f))
    ensures SumBy(xs, f).cacheCreationTokens == SumOf(xs, CacheCreationTokensOf(f))
    ensures SumBy(xs, f).cacheReadTokens == SumOf(xs, CacheReadTokensOf(f))
    ensures SumBy(xs, f).messageCount == SumOf(xs, MessageCountOf(f))
  {
    if xs != [] {
      SumByCounters(xs[..|xs| - 1], f);
    }
  }

  /** A counter-wise sum does not depend on the order of its terms. */
  lemma SumByPermutation<T>(xs: seq<T>, ys: seq<T>, f: T -> SessionUsage)
    requires multiset(xs) == multiset(ys)
    ensures SumBy(xs, f) == SumBy(ys, f)
  {
    SumByCounters(xs, f);
    SumByCounters(ys, f);
    SumOfPermutation(xs, ys, InputTokensOf(f));
    SumOfPermutation(xs, ys, OutputTokensOf(f));
    SumOfPermutation(xs, ys, CacheCreationTokensOf(f));
    SumOfPermutation(xs, ys, CacheReadTokensOf(f));
    SumOfPermutation(xs, ys, MessageCountOf(f));
  }

  /**
   * When no exception interrupts it, the live total does not depend on the order in
   * which the projects directory lists its entries.
   */
  lemma LiveUsageOrderIndependent(ps: seq<ProjectEntry>, qs: seq<ProjectEntry>, today: Day)
    requires multiset(ps) == multiset(qs) && ScanCompletes(ps)
    ensures LiveSessionUsage(Listed(ps), today) == LiveSessionUsage(Listed(qs), today)
  {
    assert forall p :: p in ps <==> p in multiset(ps);
    assert forall p :: p in qs <==> p in multiset(qs);
    CompleteScanIsSum(ps, today);
    CompleteScanIsSum(qs, today);
    SumByPermutation(ps, qs, ProjectContributionOn(today));
  }

  /** Within a folder, the order of the files does not matter when none fails `statSync`. */
  lemma FileOrderIndependent(files: seq<FileEntry>, others: seq<FileEntry>, today: Day)
    requires multiset(files) == multiset(others) && FilesStatable(files)
    ensures ScanFiles(files, today) == ScanFiles(others, today)
  {
    assert forall f :: f in files <==> f in multiset(files);
    assert forall f :: f in others <==> f in multiset(others);
    ScanFilesIsSum(files, today);
    ScanFilesIsSum(others, today);
    SumByPermutation(files, others, FileContributionOn(today));
  }

  /** A file that is not a session log, or whose modification day is not today, is never read. */
  predicate Ignored(f: FileEntry, today: Day)
  {
    !IsSessionLog(f.name) || (f.mtime.Some? && f.mtime.value != today)
  }

  /** An ignored file contributes nothing, whatever its content and wherever it is listed. */
  lemma {:induction false} IgnoredFileContributesNothing(a: seq<FileEntry>, f: FileEntry, b: seq<FileEntry>, today: Day)
    requires Ignored(f, today)
    ensures ScanFiles(a + [f] + b, today) == ScanFiles(a + b, today)
    decreases |b|
  {
    if b == [] {
      assert a + [f] + b == a + [f];
      assert (a + [f])[..|a|] == a;
      assert ScanFiles(a + [f], today) == FileStep(ScanFiles(a, today), f, today);
      assert a + b == a;
    } else {
      var m := |b| - 1;
      IgnoredFileContributesNothing(a, f, b[..m], today);
      var left, right := a + [f] + b, a + b;
      assert left[..|left| - 1] == a + [f] + b[..m] && left[|left| - 1] == b[m];
      assert right[..|right| - 1] == a + b[..m] && right[|right| - 1] == b[m];
      assert ScanFiles(left, today) == FileStep(ScanFiles(a + [f] + b[..m], today), b[m], today);
      assert ScanFiles(right, today) == FileStep(ScanFiles(a + b[..m], today), b[m], today);
    }
  }

  /** Replacing a folder's listing by one that scans the same leaves the live scan unchanged. */
  lemma {:induction false} ScanProjectsRespectsFiles(ps: seq<ProjectEntry>, i: nat, files: seq<FileEntry>, today: Day)
    requires i < |ps| && ps[i].listing.Some?
    requires ScanFiles(files, today) == ScanFiles(ps[i].listing.value, today)
    ensures ScanProjects(ps[i := ps[i].(listing := Some(files))], today) == ScanProjects(ps, today)
  {
    var qs := ps[i := ps[i].(listing := Some(files))];
    var n := |ps| - 1;
    if i < n {
      ScanProjectsRespectsFiles(ps[..n], i, files, today);
      assert qs[..n] == ps[..n][i := ps[i].(listing := Some(files))];
    } else {
      assert qs[..n] == ps[..n];
    }
  }

  /**
   * A file modified on another day than today contributes nothing to the live total,
   * whatever its content: the scan with it removed from its folder is the same.
   */
  lemma StaleFileContributesNothing(ps: seq<ProjectEntry>, i: nat, a: seq<FileEntry>, f: FileEntry, b: seq<FileEntry>, today: Day)
    requires i < |ps| && ps[i].listing == Some(a + [f] + b)
    requires f.mtime.Some? && f.mtime.value != today
    ensures LiveSessionUsage(Listed(ps[i := ps[i].(listing := Some(a + b))]), today) == LiveSessionUsage(Listed(ps), today)
  {
    IgnoredFileContributesNothing(a, f, b, today);
    ScanProjectsRespectsFiles(ps, i, a + b, today);
  }

  lemma {:induction false} ScanFilesNeverOvercounts(files: seq<FileEntry>, today: Day)
    ensures ScanFiles(files, today).usage.messageCount <= SumBy(files, FileContributionOn(today)).messageCount
  {
    if files != [] {
      var n := |files| - 1;
      var g := FileContributionOn(today);
      ScanFilesNeverOvercounts(files[..n], today);
      assert ScanFiles(files, today) == FileStep(ScanFiles(files[..n], today), files[n], today);
      assert SumBy(files, g) == Plus(SumBy(files[..n], g), g(files[n]));
    }
  }

  /**
   * An exception part-way through the scan can only lose messages: the live message
   * count never exceeds the sum over all folders of their today's session logs.
   */
  lemma {:induction false} ScanNeverOvercounts(ps: seq<ProjectEntry>, today: Day)
    ensures ScanProjects(ps, today).usage.messageCount <= SumBy(ps, ProjectContributionOn(today)).messageCount
  {
    if ps != [] {
      var n := |ps| - 1;
      var g := ProjectContributionOn(today);
      ScanNeverOvercounts(ps[..n], today);
      assert ScanProjects(ps, today) == ProjectStep(ScanProjects(ps[..n], today), ps[n], today);
      assert SumBy(ps, g) == Plus(SumBy(ps[..n], g), g(ps[n]));
      if ps[n].kind.Directory? && ps[n].listing.Some? {
        ScanFilesNeverOvercounts(ps[n].listing.value, today);
      }
    }
  }

  /** No line of the session log carries a negative counter. */
  predicate NonNegativeFile(f: FileEntry)
  {
    forall i :: 0 <= i < |f.content.lines| ==> NonNegativeCounters(f.content.lines[i])
  }

  predicate NonNegativeFiles(files: seq<FileEntry>)
  {
    forall k :: 0 <= k < |files| ==> NonNegativeFile(files[k])
  }

  /** No listed file of any project folder carries a negative counter. */
  predicate NonNegativeProjects(ps: seq<ProjectEntry>)
  {
    forall k :: 0 <= k < |ps| && ps[k].listing.Some? ==> NonNegativeFiles(ps[k].listing.value)
  }

  /** With no negative counter in a folder's session logs, its scan has no negative sum. */
  lemma {:induction false} NonNegativeFilesScan(files: seq<FileEntry>, today: Day)
    requires NonNegativeFiles(files)
    ensures NonNegativeUsage(ScanFiles(files, today).usage)
  {
    if files != [] {
      var n := |files| - 1;
      assert NonNegativeFiles(files[..n]) by {
        assert forall k :: 0 <= k < n ==> files[..n][k] == files[k];
      }
      NonNegativeFilesScan(files[..n], today);
      assert ScanFiles(files, today) == FileStep(ScanFiles(files[..n], today), files[n], today);
      assert NonNegativeFile(files[n]);
      NonNegativeReadable(files[n].content);
    }
  }

  /** With no negative counter in any listed session log, the scan of the projects has no negative sum. */
  lemma {:induction false} NonNegativeProjectsScan(ps: seq<ProjectEntry>, today: Day)
    requires NonNegativeProjects(ps)
    ensures NonNegativeUsage(ScanProjects(ps, today).usage)
  {
    if ps != [] {
      var n := |ps| - 1;
      assert NonNegativeProjects(ps[..n]) by {
        assert forall k :: 0 <= k < n ==> ps[..n][k] == ps[k];
      }
      NonNegativeProjectsScan(ps[..n], today);
      assert ScanProjects(ps, today) == ProjectStep(ScanProjects(ps[..n], today), ps[n], today);
      if ps[n].listing.Some? {
        assert NonNegativeFiles(ps[n].listing.value);
        NonNegativeFilesScan(ps[n].listing.value, today);
      }
    }
  }

  /**
   * The live total, and so each of today's token counters of the dashboard, is never
   * negative when no session log in the projects directory carries a negative counter.
   */
  lemma NonNegativeLive(dir: ProjectsDir, today: Day)
    requires dir.Listed? ==> NonNegativeProjects(dir.entries)
    ensures NonNegativeUsage(LiveSessionUsage(dir, today))
  {
    if dir.Listed? {
      NonNegativeProjectsScan(dir.entries, today);
    }
  }
}

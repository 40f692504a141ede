/** `PodBuilder::Command::GenerateLFS.call`, which rewrites the `.gitattributes`
    file of the Rome and dSYM directories and, when asked to, of the Pods
    directory (`filter_files_by_size` is in module `SizeFilter`). The file
    system is a map from paths to contents; the configuration and the
    directories PodBuilder's path helpers resolve are parameters. */
module GenerateLfs {
  import opened Text
  import opened Gitattributes
  import opened GitattributesProofs

  /** The patterns every rewritten block excludes from Git LFS. */
  const Excludes: seq<string> :=
    ["*.h", "*.hh", "*.m", "*.mm", "*.i", "*.c", "*.cc", "*.cxx", "*.cpp", "*.def",
     "*.inc", "*.inl", "*.swift", "*.modulemap", "*.strings", "*.png", "*.jpg", "*.gif", "*.html", "*.htm",
     "*.js", "*.json", "*.xml", "*.txt", "*.md", "*.rb", "*.sh", "*.py", "*.plist", ".*"]

  /** The attributes that route the included files through Git LFS. */
  const LfsAttributes: string := " filter=lfs diff=lfs merge=lfs !text"

  /** The include pattern of the Rome and dSYM blocks. */
  const FrameworkIncludes: seq<string> := ["**/*" + LfsAttributes]

  /** The narrower include pattern of the Pods block. */
  const PodsIncludes: seq<string> := ["**/*.frameworks/**/*" + LfsAttributes]

  /** The settings `call` reads and the directories it writes into. */
  datatype Config = Config(
    updateGitattributes: bool,
    includePodsFolder: bool,
    romeDir: string,
    dsymDir: string,
    podsDir: string)

  /** File.join(dir, ".gitattributes"): one slash between the two parts. */
  function AttributesPath(dir: string): (path: string)
    ensures |path| == |dir| + (if dir != [] && dir[|dir| - 1] == '/' then 14 else 15)
    ensures path[..|dir|] == dir
    ensures path[|path| - 15..] == "/.gitattributes"
  {
    if dir != [] && dir[|dir| - 1] == '/' then dir + ".gitattributes" else dir + "/.gitattributes"
  }

  /** What reading `path` gives once write_attributes has made sure it
      exists: its content, or nothing for a file it had to create. */
  function Contents(files: map<string, string>, path: string): string {
    if path in files then files[path] else ""
  }

  /** The files after write_attributes(dir, includes, excludes). */
  function Written(files: map<string, string>, dir: string, includes: seq<string>, excludes: seq<string>)
    : map<string, string>
  {
    var path := AttributesPath(dir);
    files[path := Rewrite(Contents(files, path), includes, excludes)]
  }

  /** The file system write_attributes works on. */
  class FileSystem {
    var files: map<string, string>

    constructor(files: map<string, string>)
      ensures this.files == files
    {
      this.files := files;
    }
  }

  /** write_attributes: creates the file when missing, reads it, rewrites
      it, and returns the number of characters written. */
  method WriteAttributes(fs: FileSystem, dir: string, includes: seq<string>, excludes: seq<string>)
    returns (written: nat)
    modifies fs
    ensures fs.files == Written(old(fs.files), dir, includes, excludes)
    ensures written == |fs.files[AttributesPath(dir)]|
  {
    var path := AttributesPath(dir);
    if path !in fs.files {
      fs.files := fs.files[path := ""];
    }
    var content := fs.files[path];
    var text := RewriteContent(content, includes, excludes);
    fs.files := fs.files[path := text];
    written := |text|;
  }

  /** One write_attributes call of `call`. */
  datatype Job = Job(dir: string, includes: seq<string>, excludes: seq<string>)

  /** The write_attributes calls `call` makes, in order. */
  function Jobs(cfg: Config): seq<Job> {
    if !cfg.updateGitattributes then []
    else
      [Job(cfg.romeDir, FrameworkIncludes, Excludes), Job(cfg.dsymDir, FrameworkIncludes, Excludes)]
      + (if cfg.includePodsFolder then [Job(cfg.podsDir, PodsIncludes, Excludes)] else [])
  }

  /** The files after running `jobs` one after the other. */
  function RunJobs(files: map<string, string>, jobs: seq<Job>): map<string, string>
    decreases |jobs|
  {
    if jobs == [] then files
    else RunJobs(Written(files, jobs[0].dir, jobs[0].includes, jobs[0].excludes), jobs[1..])
  }

  /** Running jobs is running the first, then the rest. */
  lemma RunJobsCons(files: map<string, string>, job: Job, rest: seq<Job>)
    ensures RunJobs(files, [job] + rest) == RunJobs(Written(files, job.dir, job.includes, job.excludes), rest)
  {
    assert ([job] + rest)[1..] == rest;
  }

  /** The paths `jobs` write, in order. */
  function Targets(jobs: seq<Job>): (paths: seq<string>)
    ensures |paths| == |jobs|
    ensures forall i :: 0 <= i < |jobs| ==> paths[i] == AttributesPath(jobs[i].dir)
  {
    if jobs == [] then [] else [AttributesPath(jobs[0].dir)] + Targets(jobs[1..])
  }

  /** No two jobs write the same file. */
  predicate DistinctTargets(jobs: seq<Job>) {
    forall i, j :: 0 <= i < j < |jobs| ==> Targets(jobs)[i] != Targets(jobs)[j]
  }

  /** What `call` returns: false when the update is switched off, nil when
      the Pods directory is left alone, and otherwise what the last
      write_attributes returned. */
  datatype CallResult = Disabled | PodsSkipped | PodsWritten(length: nat)

  /** call, with the configuration passed in. */
  method Call(fs: FileSystem, cfg: Config) returns (r: CallResult)
    modifies fs
    ensures fs.files == RunJobs(old(fs.files), Jobs(cfg))
    ensures !cfg.updateGitattributes ==> r == Disabled
    ensures cfg.updateGitattributes && !cfg.includePodsFolder ==> r == PodsSkipped
    ensures cfg.updateGitattributes && cfg.includePodsFolder ==>
      r == PodsWritten(|Contents(fs.files, AttributesPath(cfg.podsDir))|)
  {
    if !cfg.updateGitattributes {
      return Disabled;
    }
    var rome := Job(cfg.romeDir, FrameworkIncludes, Excludes);
    var dsym := Job(cfg.dsymDir, FrameworkIncludes, Excludes);
    var pods := Job(cfg.podsDir, PodsIncludes, Excludes);
    var tail := if cfg.includePodsFolder then [pods] else [];
    assert Jobs(cfg) == [rome] + ([dsym] + tail);
    RunJobsCons(fs.files, rome, [dsym] + tail);
    var _ := WriteAttributes(fs, rome.dir, rome.includes, rome.excludes);
    RunJobsCons(fs.files, dsym, tail);
    var _ := WriteAttributes(fs, dsym.dir, dsym.includes, dsym.excludes);
    if cfg.includePodsFolder {
      RunJobsCons(fs.files, pods, []);
      var written := WriteAttributes(fs, pods.dir, pods.includes, pods.excludes);
      r := PodsWritten(written);
    } else {
      r := PodsSkipped;
    }
  }

  // ---------------------------------------------------------------------------
  // What `call` does to the file system.

  /** Running jobs creates exactly the files they target, and leaves every
      file they do not target as it was. */
  lemma {:induction false} RunJobsFrame(files: map<string, string>, jobs: seq<Job>, p: string)
    ensures p in RunJobs(files, jobs) <==> p in files || p in Targets(jobs)
    ensures p !in Targets(jobs) && p in files ==> RunJobs(files, jobs)[p] == files[p]
    decreases |jobs|
  {
    if jobs != [] {
      var j := jobs[0];
      var next := Written(files, j.dir, j.includes, j.excludes);
      RunJobsFrame(next, jobs[1..], p);
      assert Targets(jobs) == [AttributesPath(j.dir)] + Targets(jobs[1..]);
    }
  }

  /** The first job's file is not the target of any later job, and the
      later jobs' files are distinct too. */
  lemma DistinctTail(jobs: seq<Job>)
    requires jobs != [] && DistinctTargets(jobs)
    ensures AttributesPath(jobs[0].dir) !in Targets(jobs[1..])
    ensures DistinctTargets(jobs[1..])
  {
    var rest := jobs[1..];
    assert Targets(jobs) == [AttributesPath(jobs[0].dir)] + Targets(rest);
    forall k | 0 <= k < |rest|
      ensures Targets(rest)[k] != AttributesPath(jobs[0].dir)
    {
      assert Targets(jobs)[k + 1] == Targets(rest)[k];
    }
    forall a, b | 0 <= a < b < |rest|
      ensures Targets(rest)[a] != Targets(rest)[b]
    {
      assert Targets(jobs)[a + 1] == Targets(rest)[a];
      assert Targets(jobs)[b + 1] == Targets(rest)[b];
    }
  }

  /** When no two jobs share a file, each target ends up holding the rewrite
      of what it held before. */
  lemma {:induction false} RunJobsDistinct(files: map<string, string>, jobs: seq<Job>, i: nat)
    requires DistinctTargets(jobs)
    requires i < |jobs|
    ensures Targets(jobs)[i] in RunJobs(files, jobs)
    ensures RunJobs(files, jobs)[Targets(jobs)[i]]
         == Rewrite(Contents(files, Targets(jobs)[i]), jobs[i].includes, jobs[i].excludes)
    decreases |jobs|
  {
    var j := jobs[0];
    var path := AttributesPath(j.dir);
    var next := Written(files, j.dir, j.includes, j.excludes);
    var rest := jobs[1..];
    DistinctTail(jobs);
    if i == 0 {
      RunJobsFrame(next, rest, path);
    } else {
      RunJobsDistinct(next, rest, i - 1);
      assert Targets(jobs)[i] != Targets(jobs)[0];
      LaterJob(files, jobs, i);
    }
  }

  /** The step of RunJobsDistinct: a later job whose file differs from the
      first job's reads the file as it was before the first job. */
  lemma LaterJob(files: map<string, string>, jobs: seq<Job>, i: nat)
    requires 0 < i < |jobs|
    requires Targets(jobs)[i] != Targets(jobs)[0]
    ensures var next := Written(files, jobs[0].dir, jobs[0].includes, jobs[0].excludes);
      RunJobs(files, jobs) == RunJobs(next, jobs[1..]) &&
      Targets(jobs)[i] == Targets(jobs[1..])[i - 1] &&
      Contents(next, Targets(jobs)[i]) == Contents(files, Targets(jobs)[i])
  {
    assert Targets(jobs) == [AttributesPath(jobs[0].dir)] + Targets(jobs[1..]);
  }

  /** Running the same distinct jobs a second time changes nothing, provided
      their patterns are well formed and no target's kept lines end in a
      blank one. */
  lemma RunJobsTwice(files: map<string, string>, jobs: seq<Job>)
    requires DistinctTargets(jobs)
    requires forall i :: 0 <= i < |jobs| ==> PatternsWellFormed(jobs[i].includes, jobs[i].excludes)
    requires forall i :: 0 <= i < |jobs| ==> NoTrailingBlank(Kept(EachLine(Contents(files, Targets(jobs)[i]))))
    ensures RunJobs(RunJobs(files, jobs), jobs) == RunJobs(files, jobs)
  {
    var once := RunJobs(files, jobs);
    var twice := RunJobs(once, jobs);
    forall p
      ensures p in twice <==> p in once
      ensures p in once ==> twice[p] == once[p]
    {
      RunJobsFrame(files, jobs, p);
      RunJobsFrame(once, jobs, p);
      if p in Targets(jobs) {
        var i :| 0 <= i < |jobs| && Targets(jobs)[i] == p;
        RunJobsTargetTwice(files, jobs, i);
      }
    }
    assert twice.Keys == once.Keys;
  }

  /** One target of RunJobsTwice. */
  lemma RunJobsTargetTwice(files: map<string, string>, jobs: seq<Job>, i: nat)
    requires DistinctTargets(jobs)
    requires i < |jobs|
    requires PatternsWellFormed(jobs[i].includes, jobs[i].excludes)
    requires NoTrailingBlank(Kept(EachLine(Contents(files, Targets(jobs)[i]))))
    ensures Targets(jobs)[i] in RunJobs(files, jobs)
    ensures Targets(jobs)[i] in RunJobs(RunJobs(files, jobs), jobs)
    ensures RunJobs(RunJobs(files, jobs), jobs)[Targets(jobs)[i]] == RunJobs(files, jobs)[Targets(jobs)[i]]
  {
    var once := RunJobs(files, jobs);
    var p := Targets(jobs)[i];
    RunJobsDistinct(files, jobs, i);
    RunJobsDistinct(once, jobs, i);
    assert Contents(once, p) == once[p];
    RewriteIdempotent(Contents(files, p), jobs[i].includes, jobs[i].excludes);
  }

  // ---------------------------------------------------------------------------
  // `call` on the three directories.

  /** The fixed patterns are safe, so every block `call` writes is well formed. */
  lemma FixedPatternsWellFormed()
    ensures PatternsWellFormed(FrameworkIncludes, Excludes)
    ensures PatternsWellFormed(PodsIncludes, Excludes)
  {
    ExcludesSafe();
    IncludesSafe();
    SafePatternsWellFormed(FrameworkIncludes, Excludes);
    SafePatternsWellFormed(PodsIncludes, Excludes);
  }

  /** Every exclude pattern is safe: none is blank, starts with `#` or
      whitespace, or holds a line feed. */
  lemma ExcludesSafe()
    ensures forall i :: 0 <= i < |Excludes| ==> SafePattern(Excludes[i])
  {
  }

  /** Both include patterns are safe. */
  lemma IncludesSafe()
    ensures forall i :: 0 <= i < |FrameworkIncludes| ==> SafePattern(FrameworkIncludes[i])
    ensures forall i :: 0 <= i < |PodsIncludes| ==> SafePattern(PodsIncludes[i])
  {
    assert '\n' !in LfsAttributes;
    assert SafePattern(FrameworkIncludes[0]);
    assert SafePattern(PodsIncludes[0]);
  }

  /** The Rome, dSYM and Pods directories lead to three different files. */
  predicate SeparateFiles(cfg: Config) {
    AttributesPath(cfg.romeDir) != AttributesPath(cfg.dsymDir) &&
    AttributesPath(cfg.romeDir) != AttributesPath(cfg.podsDir) &&
    AttributesPath(cfg.dsymDir) != AttributesPath(cfg.podsDir)
  }

  /** The files `call` writes, in order. */
  lemma JobsTargets(cfg: Config)
    ensures Targets(Jobs(cfg)) ==
      if !cfg.updateGitattributes then []
      else [AttributesPath(cfg.romeDir), AttributesPath(cfg.dsymDir)]
           + (if cfg.includePodsFolder then [AttributesPath(cfg.podsDir)] else [])
  {
  }

  /** With separate files, no two of `call`'s writes share a file. */
  lemma SeparateFilesDistinct(cfg: Config)
    requires SeparateFiles(cfg)
    ensures DistinctTargets(Jobs(cfg))
  {
    var jobs := Jobs(cfg);
    var dirs := seq(|jobs|, i requires 0 <= i < |jobs| => jobs[i].dir);
    if cfg.updateGitattributes {
      assert dirs[0] == cfg.romeDir && dirs[1] == cfg.dsymDir;
      assert |jobs| == 3 ==> dirs[2] == cfg.podsDir;
    }
    forall i, j | 0 <= i < j < |jobs|
      ensures Targets(jobs)[i] != Targets(jobs)[j]
    {
      assert dirs[i] == jobs[i].dir && dirs[j] == jobs[j].dir;
    }
  }

  /** With the update switched on and separate directories, `call` rewrites
      the Rome and dSYM files with the framework include, rewrites the Pods
      file with the Pods include only when asked to, and otherwise leaves it
      alone. */
  lemma CallRewrites(cfg: Config, files: map<string, string>)
    requires cfg.updateGitattributes && SeparateFiles(cfg)
    ensures var after := RunJobs(files, Jobs(cfg));
      var rome, dsym := AttributesPath(cfg.romeDir), AttributesPath(cfg.dsymDir);
      rome in after && after[rome] == Rewrite(Contents(files, rome), FrameworkIncludes, Excludes) &&
      dsym in after && after[dsym] == Rewrite(Contents(files, dsym), FrameworkIncludes, Excludes)
    ensures var after := RunJobs(files, Jobs(cfg));
      var pods := AttributesPath(cfg.podsDir);
      if cfg.includePodsFolder then
        pods in after && after[pods] == Rewrite(Contents(files, pods), PodsIncludes, Excludes)
      else
        (pods in after <==> pods in files) && (pods in files ==> after[pods] == files[pods])
  {
    var jobs := Jobs(cfg);
    SeparateFilesDistinct(cfg);
    assert jobs[0] == Job(cfg.romeDir, FrameworkIncludes, Excludes);
    assert jobs[1] == Job(cfg.dsymDir, FrameworkIncludes, Excludes);
    RunJobsDistinct(files, jobs, 0);
    RunJobsDistinct(files, jobs, 1);
    if cfg.includePodsFolder {
      assert jobs[2] == Job(cfg.podsDir, PodsIncludes, Excludes);
      RunJobsDistinct(files, jobs, 2);
    } else {
      JobsTargets(cfg);
      RunJobsFrame(files, jobs, AttributesPath(cfg.podsDir));
    }
  }

  /** `call` touches no file but the ones it rewrites: none at all when the
      update is switched off. */
  lemma CallLeavesOtherFiles(cfg: Config, files: map<string, string>, p: string)
    requires cfg.updateGitattributes ==>
      p != AttributesPath(cfg.romeDir) && p != AttributesPath(cfg.dsymDir) &&
      (cfg.includePodsFolder ==> p != AttributesPath(cfg.podsDir))
    ensures var after := RunJobs(files, Jobs(cfg));
      (p in after <==> p in files) && (p in files ==> after[p] == files[p])
  {
    JobsTargets(cfg);
    RunJobsFrame(files, Jobs(cfg), p);
  }

  /** Running `call` a second time changes nothing, unless a file it writes
      keeps a blank last line. */
  lemma CallTwiceIsStable(cfg: Config, files: map<string, string>)
    requires SeparateFiles(cfg)
    requires forall p :: p in Targets(Jobs(cfg)) ==> NoTrailingBlank(Kept(EachLine(Contents(files, p))))
    ensures RunJobs(RunJobs(files, Jobs(cfg)), Jobs(cfg)) == RunJobs(files, Jobs(cfg))
  {
    var jobs := Jobs(cfg);
    SeparateFilesDistinct(cfg);
    JobsWellFormed(cfg);
    forall i | 0 <= i < |jobs|
      ensures NoTrailingBlank(Kept(EachLine(Contents(files, Targets(jobs)[i]))))
    {
      assert Targets(jobs)[i] in Targets(jobs);
    }
    RunJobsTwice(files, jobs);
  }

  /** Every job `call` runs writes well-formed patterns. */
  lemma JobsWellFormed(cfg: Config)
    ensures forall i :: 0 <= i < |Jobs(cfg)| ==> PatternsWellFormed(Jobs(cfg)[i].includes, Jobs(cfg)[i].excludes)
  {
    FixedPatternsWellFormed();
  }
}

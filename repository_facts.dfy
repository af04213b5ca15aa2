/**
 * What `ZenodoRepository` guarantees: the shape of the stored repository URL, the
 * row filter, and the effect of a download on the files, folders and URLs read.
 */
module RepositoryFacts {
  import opened Wrappers
  import opened Utils
  import opened Frames
  import opened Environment
  import opened Repository

  // ---------------------------------------------------------------------------
  // The constructor's URL

  /** An occurrence in a prefix is an occurrence in the whole string. */
  lemma ContainsInPrefix(s: string, t: string, n: nat)
    requires n <= |s|
    ensures Contains(s[..n], t) ==> Contains(s, t)
  {
    if Contains(s[..n], t) {
      var i :| 0 <= i <= n - |t| && OccursAt(s[..n], t, i);
      assert s[i..i + |t|] == s[..n][i..i + |t|];
      assert OccursAt(s, t, i);
    }
  }

  /** Whichever branch `__init__` takes, the stored path contains "https://". */
  lemma RepositoryPathHasScheme(arg: string)
    requires |arg| > 0
    ensures Contains(RepositoryPath(arg), Scheme)
  {
    var p := RepositoryPath(arg);
    var stripped := StripTrailingSlash(arg);
    ContainsInPrefix(arg, Scheme, |stripped|);
    if !Contains(stripped, Scheme) {
      assert p[0..|Scheme|] == Scheme;
      assert OccursAt(p, Scheme, 0);
    }
  }

  /** An argument with "https://" somewhere before its last character is kept unchanged. */
  lemma RepositoryPathKeepsUrl(arg: string, i: nat)
    requires i + |Scheme| < |arg| && OccursAt(arg, Scheme, i)
    ensures RepositoryPath(arg) == arg
  {
    var stripped := StripTrailingSlash(arg);
    assert stripped[i..i + |Scheme|] == arg[i..i + |Scheme|];
    assert OccursAt(stripped, Scheme, i);
  }

  /**
   * The argument is kept exactly when "https://" occurs in it somewhere other than
   * as its last eight characters; otherwise "https://" is put in front.
   */
  lemma RepositoryPathIff(arg: string)
    requires |arg| > 0
    ensures RepositoryPath(arg) == arg <==> exists i :: i + |Scheme| < |arg| && OccursAt(arg, Scheme, i)
  {
    var stripped := StripTrailingSlash(arg);
    if exists i :: i + |Scheme| < |arg| && OccursAt(arg, Scheme, i) {
      var i :| i + |Scheme| < |arg| && OccursAt(arg, Scheme, i);
      RepositoryPathKeepsUrl(arg, i);
    }
    if RepositoryPath(arg) == arg {
      assert |Scheme + arg| != |arg|;
      var i :| 0 <= i <= |stripped| - |Scheme| && OccursAt(stripped, Scheme, i);
      assert arg[i..i + |Scheme|] == stripped[i..i + |Scheme|];
      assert i + |Scheme| < |arg| && OccursAt(arg, Scheme, i);
    }
  }

  /** An argument without "https://" gets it in front; nothing else changes. */
  lemma RepositoryPathAddsScheme(arg: string)
    requires |arg| > 0 && !Contains(arg, Scheme)
    ensures RepositoryPath(arg) == Scheme + arg
  {
    ContainsInPrefix(arg, Scheme, |StripTrailingSlash(arg)|);
  }

  /**
   * The test runs on the stripped path: "https://" loses its last '/', no longer
   * contains "https://", and is prefixed a second time.
   */
  lemma RepositoryPathSchemeOnly()
    ensures RepositoryPath(Scheme) == Scheme + Scheme
  {
    assert StripTrailingSlash(Scheme) == "https:/";
  }

  /** The default repository URL is stored as given. */
  lemma RepositoryPathDefault()
    ensures RepositoryPath(DefaultPath) == DefaultPath
  {
    assert DefaultPath[0..|Scheme|] == Scheme;
    RepositoryPathKeepsUrl(DefaultPath, 0);
  }

  /** Both default catalogs are `.tsv` files and are read with tabs. */
  lemma DefaultCatalogsUseTabs()
    ensures DelimiterType(DefaultMetaName) == Some(Tab)
    ensures DelimiterType(DefaultSamplesName) == Some(Tab)
  {
    assert DefaultMetaName == "synthetic_datasets" + ".tsv";
    assert DefaultSamplesName == "synthetic_samples" + ".tsv";
    DelimiterTsvTxt("synthetic_datasets");
    DelimiterTsvTxt("synthetic_samples");
  }

  // ---------------------------------------------------------------------------
  // save_path

  /** Exactly one trailing slash is removed. */
  lemma StripOneSlash(p: string)
    ensures StripTrailingSlash(p + "/") == p
    ensures StripTrailingSlash(p + "//") == p + "/"
  {
    assert (p + "//")[..|p| + 1] == p + "/";
  }

  // ---------------------------------------------------------------------------
  // Paths

  /** A file's URL is the record path, then "/files/", then the file name, and nothing else. */
  lemma FileUrlParts(base: string, name: string)
    ensures var u := FileUrl(base, name);
      && |u| == |base| + 7 + |name|
      && u[..|base|] == base && u[|base|..|base| + 7] == "/files/" && u[|base| + 7..] == name
  {
  }

  /** A destination is its folder, one '/', then the sample name. */
  lemma DestParts(t: Transfer)
    ensures var d := Dest(t);
      && |d| == |t.dir| + 1 + |t.file|
      && d[..|t.dir|] == t.dir && d[|t.dir|] == '/' && d[|t.dir| + 1..] == t.file
  {
  }

  // ---------------------------------------------------------------------------
  // The row filter

  /** A file is selected exactly when some row of the dataset names it. */
  lemma {:induction false} FilterMembers(datasets: seq<string>, files: seq<string>, name: string, f: string)
    requires |datasets| == |files|
    ensures f in Filter(datasets, files, name) <==>
      exists k :: 0 <= k < |files| && datasets[k] == name && files[k] == f
    decreases |files|
  {
    if files != [] {
      FilterMembers(datasets[1..], files[1..], name, f);
      if f in Filter(datasets[1..], files[1..], name) {
        var k :| 0 <= k < |files| - 1 && datasets[1..][k] == name && files[1..][k] == f;
        assert datasets[k + 1] == name && files[k + 1] == f;
      }
      if exists k :: 0 <= k < |files| && datasets[k] == name && files[k] == f {
        var k :| 0 <= k < |files| && datasets[k] == name && files[k] == f;
        if k > 0 {
          assert datasets[1..][k - 1] == name && files[1..][k - 1] == f;
        }
      }
    }
  }

  /** One file per row of the dataset: as many as the dataset column has `name`s. */
  lemma {:induction false} FilterCount(datasets: seq<string>, files: seq<string>, name: string)
    requires |datasets| == |files|
    ensures |Filter(datasets, files, name)| == multiset(datasets)[name]
    decreases |files|
  {
    if files != [] {
      FilterCount(datasets[1..], files[1..], name);
      assert datasets == [datasets[0]] + datasets[1..];
    }
  }

  /** The filter keeps catalog order: it selects from each part of the rows in turn. */
  lemma {:induction false} FilterAppend(ds1: seq<string>, fs1: seq<string>, ds2: seq<string>, fs2: seq<string>, name: string)
    requires |ds1| == |fs1| && |ds2| == |fs2|
    ensures Filter(ds1 + ds2, fs1 + fs2, name) == Filter(ds1, fs1, name) + Filter(ds2, fs2, name)
    decreases |fs1|
  {
    if fs1 != [] {
      FilterAppend(ds1[1..], fs1[1..], ds2, fs2, name);
      assert (ds1 + ds2)[1..] == ds1[1..] + ds2;
      assert (fs1 + fs2)[1..] == fs1[1..] + fs2;
    } else {
      assert ds1 + ds2 == ds2 && fs1 + fs2 == fs2;
    }
  }

  lemma FilterExample(ds: seq<string>, fs: seq<string>)
    requires ds == ["timing", "timing", "other"] && fs == ["a.tsv", "b.tsv", "c.tsv"]
    ensures Filter(ds, fs, "timing") == ["a.tsv", "b.tsv"]
  {
    assert Filter(ds[2..], fs[2..], "timing") == [];
    assert ds[1..][1..] == ds[2..] && fs[1..][1..] == fs[2..];
    assert Filter(ds[1..], fs[1..], "timing") == ["b.tsv"];
  }

  /** Two "timing" rows and one "other" row: only the two "timing" files are selected. */
  lemma SelectFilesExample()
    ensures SelectFiles(Frame(["dataset", "file"], [["timing", "a.tsv"], ["timing", "b.tsv"], ["other", "c.tsv"]]),
                        "timing") == Success(["a.tsv", "b.tsv"])
  {
    var t: Table := Frame(["dataset", "file"], [["timing", "a.tsv"], ["timing", "b.tsv"], ["other", "c.tsv"]]);
    assert ColumnIndex(t.header, "dataset") == Some(0);
    assert ColumnIndex(t.header[1..], "file") == Some(0);
    assert ColumnIndex(t.header, "file") == Some(1);
    var ds := Column(t, "dataset").value;
    var fs := Column(t, "file").value;
    assert ds == ["timing", "timing", "other"];
    assert fs == ["a.tsv", "b.tsv", "c.tsv"];
    FilterExample(ds, fs);
  }

  // ---------------------------------------------------------------------------
  // The transfer loop

  function Urls(plan: seq<Transfer>): (urls: seq<string>)
    ensures |urls| == |plan|
  {
    seq(|plan|, k requires 0 <= k < |plan| => plan[k].url)
  }

  function DirsOf(plan: seq<Transfer>): set<string> {
    set k | 0 <= k < |plan| :: plan[k].dir
  }

  function Dests(plan: seq<Transfer>): set<string> {
    set k | 0 <= k < |plan| :: Dest(plan[k])
  }

  /** No later transfer writes to the same path as transfer k. */
  predicate LastWriter(plan: seq<Transfer>, k: nat)
    requires k < |plan|
  {
    forall j :: k < j < |plan| ==> Dest(plan[j]) != Dest(plan[k])
  }

  lemma PlanTail(plan: seq<Transfer>)
    requires plan != []
    ensures Urls(plan) == [plan[0].url] + Urls(plan[1..])
    ensures DirsOf(plan) == {plan[0].dir} + DirsOf(plan[1..])
    ensures Dests(plan) == {Dest(plan[0])} + Dests(plan[1..])
  {
    assert forall k :: 1 <= k < |plan| ==> plan[k] == plan[1..][k - 1];
  }

  /** A missing folder below a file cannot be created: the step raises before reading. */
  lemma StepBlockedByFile(w: World, t: Transfer, serve: Server, j: nat)
    requires !PathExists(w, t.dir)
    requires j < |t.dir| && t.dir[j] == '/' && t.dir[..j] in w.files
    ensures Step(w, t, serve) == (w, Some(MakeDirsFailed(t.dir)))
  {
    assert UnderFile(w.files, t.dir);
  }

  /**
   * A sample name with a '/' is written into a subfolder of the dated folder, which
   * the loop never creates: unless it is already there, the step raises.
   */
  lemma StepNeedsSubfolder(w: World, t: Transfer, serve: Server)
    requires '/' in t.file && t.dir + "/" + Parent(t.file) !in w.dirs
    ensures Step(w, t, serve).1.Some?
  {
    ParentOfNestedName(t.dir, t.file);
    assert |t.dir + "/" + Parent(t.file)| > |t.dir|;
  }

  /**
   * For a name without '/', the write goes into the dated folder itself: once the
   * folder exists and the file is read, the step succeeds unless the target is a
   * folder or lies below a file.
   */
  lemma StepPlainNameWrites(w: World, t: Transfer, serve: Server)
    requires '/' !in t.file && t.dir in w.dirs
    requires serve(t.url, DelimiterType(t.file)).Some?
    ensures Step(w, t, serve).1.None? <==> !UnderFile(w.files, Dest(t)) && Dest(t) !in w.dirs
  {
    ParentOfPlainName(t.dir, t.file);
    assert PathExists(w, t.dir);
  }

  /** A loop that runs to the end has created exactly the folders that were missing. */
  lemma {:induction false} RunSuccessDirs(w: World, plan: seq<Transfer>, serve: Server)
    requires Run(w, plan, serve).1.None?
    ensures Run(w, plan, serve).0.dirs == w.dirs + DirsOf(plan)
    decreases |plan|
  {
    if plan != [] {
      PlanTail(plan);
      RunSuccessDirs(Step(w, plan[0], serve).0, plan[1..], serve);
    }
  }

  /**
   * A loop that runs to the end has written every destination, each holding the
   * table read by its last writer, and left every other file as it was.
   */
  lemma {:induction false} RunSuccessFiles(w: World, plan: seq<Transfer>, serve: Server)
    requires Run(w, plan, serve).1.None?
    ensures var w' := Run(w, plan, serve).0;
      && w'.files.Keys == w.files.Keys + Dests(plan)
      && (forall d :: d in w.files && d !in Dests(plan) ==> w'.files[d] == w.files[d])
      && (forall k :: 0 <= k < |plan| && LastWriter(plan, k) ==>
            serve(plan[k].url, DelimiterType(plan[k].file)) == Some(w'.files[Dest(plan[k])]))
    decreases |plan|
  {
    if plan != [] {
      PlanTail(plan);
      var w1 := Step(w, plan[0], serve).0;
      RunSuccessFiles(w1, plan[1..], serve);
      var w' := Run(w, plan, serve).0;
      assert w' == Run(w1, plan[1..], serve).0;
      forall k | 0 <= k < |plan| && LastWriter(plan, k)
        ensures serve(plan[k].url, DelimiterType(plan[k].file)) == Some(w'.files[Dest(plan[k])])
      {
        if k == 0 {
          assert Dest(plan[0]) !in Dests(plan[1..]);
        } else {
          assert plan[k] == plan[1..][k - 1];
          assert LastWriter(plan[1..], k - 1);
        }
      }
    }
  }

  /**
   * How many of the transfers' files the loop reads: all of them, or those up to the
   * one that raises, that one included unless its folder could not be created.
   */
  function ReadCount(w: World, plan: seq<Transfer>, serve: Server): nat
    decreases |plan|
  {
    if plan == [] then 0
    else
      var s := Step(w, plan[0], serve);
      if s.1.Some? then (if s.1.value.MakeDirsFailed? then 0 else 1)
      else 1 + ReadCount(s.0, plan[1..], serve)
  }

  /**
   * The loop reads the URLs of the transfers it gets to, in order, and no other: all
   * of them when it runs to the end, none after the one that raises.
   */
  predicate ReadsAsCounted(w: World, plan: seq<Transfer>, serve: Server) {
    CountBounds(w, plan, serve) && CountedUrlsRead(w, plan, serve)
  }

  predicate CountBounds(w: World, plan: seq<Transfer>, serve: Server) {
    var n := ReadCount(w, plan, serve);
    && n <= |plan|
    && (Run(w, plan, serve).1.None? ==> n == |plan|)
    && (Run(w, plan, serve).1.Some? && !Run(w, plan, serve).1.value.MakeDirsFailed? ==> n >= 1)
  }

  predicate CountedUrlsRead(w: World, plan: seq<Transfer>, serve: Server)
    requires ReadCount(w, plan, serve) <= |plan|
  {
    Run(w, plan, serve).0.fetched == w.fetched + Urls(plan[..ReadCount(w, plan, serve)])
  }

  lemma {:induction false} RunReads(w: World, plan: seq<Transfer>, serve: Server)
    ensures ReadsAsCounted(w, plan, serve)
    decreases |plan|
  {
    if plan != [] {
      if Step(w, plan[0], serve).1.Some? {
        StepReads(w, plan, serve);
      } else {
        RunReads(Step(w, plan[0], serve).0, plan[1..], serve);
        ReadsAfterStep(w, plan, serve);
      }
    }
  }

  /** When the first transfer raises, the loop has read its file unless its folder failed. */
  lemma StepReads(w: World, plan: seq<Transfer>, serve: Server)
    requires plan != [] && Step(w, plan[0], serve).1.Some?
    ensures ReadsAsCounted(w, plan, serve)
  {
    assert Urls(plan[..0]) == [];
    assert Urls(plan[..1]) == [plan[0].url];
  }

  /** A transfer that raises nothing reads its URL before the rest of the loop reads. */
  lemma ReadsAfterStep(w: World, plan: seq<Transfer>, serve: Server)
    requires plan != [] && Step(w, plan[0], serve).1.None?
    requires ReadsAsCounted(Step(w, plan[0], serve).0, plan[1..], serve)
    ensures ReadsAsCounted(w, plan, serve)
  {
    var s := Step(w, plan[0], serve);
    assert Run(w, plan, serve) == Run(s.0, plan[1..], serve);
    var m := ReadCount(s.0, plan[1..], serve);
    assert ReadCount(w, plan, serve) == m + 1;
    assert CountBounds(w, plan, serve);
    assert s.0.fetched == w.fetched + [plan[0].url];
    UrlsAfterFirst(w.fetched, plan, m, Run(w, plan, serve).0.fetched);
  }

  lemma UrlsAfterFirst(before: seq<string>, plan: seq<Transfer>, m: nat, after: seq<string>)
    requires m < |plan| && after == (before + [plan[0].url]) + Urls(plan[1..][..m])
    ensures after == before + Urls(plan[..m + 1])
  {
    UrlsPrefix(plan, m + 1);
  }

  lemma UrlsPrefix(plan: seq<Transfer>, n: nat)
    requires 1 <= n <= |plan|
    ensures Urls(plan[..n]) == [plan[0].url] + Urls(plan[1..][..n - 1])
  {
    assert plan[..n][1..] == plan[1..][..n - 1];
    PlanTail(plan[..n]);
  }

  /** Whether or not it raises, the loop touches only the transfers' folders and files. */
  lemma {:induction false} RunBounds(w: World, plan: seq<Transfer>, serve: Server)
    ensures var w' := Run(w, plan, serve).0;
      && w.dirs <= w'.dirs <= w.dirs + DirsOf(plan)
      && w.files.Keys <= w'.files.Keys <= w.files.Keys + Dests(plan)
    decreases |plan|
  {
    if plan != [] {
      PlanTail(plan);
      if Step(w, plan[0], serve).1.Some? {
      } else {
        RunBounds(Step(w, plan[0], serve).0, plan[1..], serve);
      }
    }
  }

  /** A plan reads each selected file from the record, in order. */
  lemma PlanUrls(base: string, save: string, dataset: string, files: seq<string>, now: nat -> string)
    ensures Urls(Plan(base, save, dataset, files, now)) ==
      seq(|files|, k requires 0 <= k < |files| => FileUrl(base, files[k]))
  {
  }

  /** The folders of a plan are its folders by clock reading. */
  lemma PlanDirs(base: string, save: string, dataset: string, files: seq<string>, now: nat -> string)
    ensures DirsOf(Plan(base, save, dataset, files, now)) ==
      set k | 0 <= k < |files| :: OutputDir(save, dataset, RecordDate(now(k), false))
  {
    var plan := Plan(base, save, dataset, files, now);
    var folders := set k | 0 <= k < |files| :: OutputDir(save, dataset, RecordDate(now(k), false));
    forall x | x in folders ensures x in DirsOf(plan) {
      var k :| 0 <= k < |files| && x == OutputDir(save, dataset, RecordDate(now(k), false));
      assert plan[k].dir == x;
    }
  }

  /** The destinations of a plan are its folders with the file names appended. */
  lemma PlanDests(base: string, save: string, dataset: string, files: seq<string>, now: nat -> string)
    ensures Dests(Plan(base, save, dataset, files, now)) ==
      set k | 0 <= k < |files| :: OutputDir(save, dataset, RecordDate(now(k), false)) + "/" + files[k]
  {
    var plan := Plan(base, save, dataset, files, now);
    var paths := set k | 0 <= k < |files| :: OutputDir(save, dataset, RecordDate(now(k), false)) + "/" + files[k];
    forall x | x in paths ensures x in Dests(plan) {
      var k :| 0 <= k < |files| && x == OutputDir(save, dataset, RecordDate(now(k), false)) + "/" + files[k];
      assert Dest(plan[k]) == x;
    }
  }

  /** When every folder is already there, the loop creates none: later runs reuse them. */
  lemma {:induction false} RunReusesDirs(w: World, plan: seq<Transfer>, serve: Server)
    requires DirsOf(plan) <= w.dirs
    ensures Run(w, plan, serve).0.dirs == w.dirs
    decreases |plan|
  {
    if plan != [] {
      PlanTail(plan);
      var s := Step(w, plan[0], serve);
      if s.1.None? {
        RunReusesDirs(s.0, plan[1..], serve);
      }
    }
  }

  // ---------------------------------------------------------------------------
  // download_synthetic_dataset

  lemma PrefixOfExtension<T>(a: seq<T>, x: T, b: seq<T>)
    requires a + [x] <= b
    ensures a <= b
  {
    assert a == (a + [x])[..|a|];
  }

  /**
   * The catalog is read only when none is cached, first of all reads, and a
   * successful read is cached; an empty `save_path` fails before anything happens.
   */
  lemma DownloadCache(base: string, cache: Option<Table>, w: World, serve: Server, dataset: string,
                      savePath: string, metaName: string, samplesName: string, now: nat -> string)
    ensures var o := Download(base, cache, w, serve, dataset, savePath, metaName, samplesName, now);
      && (|savePath| == 0 ==> o == Outcome(cache, w, Failure(IndexError)))
      && (|savePath| > 0 ==> o.cache == CatalogInEffect(base, cache, serve, metaName) &&
                             w.fetched + CatalogReads(base, cache, metaName) <= o.world.fetched)
      && (|savePath| > 0 && cache.Some? ==>
            o.world.fetched == w.fetched || w.fetched + [FileUrl(base, samplesName)] <= o.world.fetched)
  {
    var o := Download(base, cache, w, serve, dataset, savePath, metaName, samplesName, now);
    var loaded := CatalogInEffect(base, cache, serve, metaName);
    if |savePath| > 0 && loaded.Some? && Column(loaded.value, "dataset").Some? &&
       dataset in Column(loaded.value, "dataset").value {
      var w1 := w.(fetched := w.fetched + CatalogReads(base, cache, metaName));
      var f := FetchSamples(base, w1, serve, dataset, StripTrailingSlash(savePath), samplesName, now);
      assert o.world == f.0;
      PrefixOfExtension(w1.fetched, FileUrl(base, samplesName), f.0.fetched);
    }
  }

  /**
   * A name missing from the catalog's `dataset` column raises the ValueError: the
   * sample catalog is not read, no folder is created and no file is written.
   */
  lemma DownloadRejectsUnknownName(base: string, cache: Option<Table>, w: World, serve: Server, dataset: string,
                                   savePath: string, metaName: string, samplesName: string, now: nat -> string,
                                   catalog: Table, names: seq<string>)
    requires |savePath| > 0
    requires CatalogInEffect(base, cache, serve, metaName) == Some(catalog)
    requires Column(catalog, "dataset") == Some(names) && dataset !in names
    ensures Download(base, cache, w, serve, dataset, savePath, metaName, samplesName, now) ==
      Outcome(Some(catalog), w.(fetched := w.fetched + CatalogReads(base, cache, metaName)),
              Failure(UnknownDataset(dataset)))
  {
  }

  /** The loop raises only folder, read and write failures. */
  lemma {:induction false} RunNeverRejectsName(w: World, plan: seq<Transfer>, serve: Server)
    ensures var e := Run(w, plan, serve).1;
      e.Some? ==> e.value.MakeDirsFailed? || e.value.ReadFailed? || e.value.WriteFailed?
    decreases |plan|
  {
    if plan != [] && Step(w, plan[0], serve).1.None? {
      RunNeverRejectsName(Step(w, plan[0], serve).0, plan[1..], serve);
    }
  }

  /** The ValueError is raised only for a name missing from a catalog that was loaded. */
  lemma DownloadUnknownNameOnlyIfAbsent(base: string, cache: Option<Table>, w: World, serve: Server, dataset: string,
                                        savePath: string, metaName: string, samplesName: string, now: nat -> string)
    requires Download(base, cache, w, serve, dataset, savePath, metaName, samplesName, now).result ==
             Failure(UnknownDataset(dataset))
    ensures |savePath| > 0
    ensures CatalogInEffect(base, cache, serve, metaName).Some?
    ensures Column(CatalogInEffect(base, cache, serve, metaName).value, "dataset").Some?
    ensures dataset !in Column(CatalogInEffect(base, cache, serve, metaName).value, "dataset").value
  {
    var w1 := w.(fetched := w.fetched + CatalogReads(base, cache, metaName));
    var samplesUrl := FileUrl(base, samplesName);
    var samples := serve(samplesUrl, DelimiterType(samplesName));
    if |savePath| > 0 && samples.Some? && SelectFiles(samples.value, dataset).Success? {
      var plan := Plan(base, StripTrailingSlash(savePath), dataset, SelectFiles(samples.value, dataset).value, now);
      RunNeverRejectsName(w1.(fetched := w1.fetched + [samplesUrl]), plan, serve);
    }
  }

  /** The world a successful download hands to its loop: catalogs read, nothing else changed. */
  function LoopStart(base: string, cache: Option<Table>, w: World, metaName: string, samplesName: string): World {
    w.(fetched := w.fetched + CatalogReads(base, cache, metaName) + [FileUrl(base, samplesName)])
  }

  /** A successful download is its loop, run to the end from LoopStart. */
  lemma DownloadRunsPlan(base: string, cache: Option<Table>, w: World, serve: Server, dataset: string,
                         savePath: string, metaName: string, samplesName: string, now: nat -> string,
                         samples: Table, files: seq<string>)
    requires |savePath| > 0
    requires serve(FileUrl(base, samplesName), DelimiterType(samplesName)) == Some(samples)
    requires SelectFiles(samples, dataset) == Success(files)
    requires Download(base, cache, w, serve, dataset, savePath, metaName, samplesName, now).result.Success?
    ensures var plan := Plan(base, StripTrailingSlash(savePath), dataset, files, now);
            var run := Run(LoopStart(base, cache, w, metaName, samplesName), plan, serve);
      Download(base, cache, w, serve, dataset, savePath, metaName, samplesName, now).world == run.0 && run.1.None?
  {
    var load := LoadCatalog(base, cache, w, serve, metaName);
    var o := Download(base, cache, w, serve, dataset, savePath, metaName, samplesName, now);
    assert load.0.Some? && Column(load.0.value, "dataset").Some? && dataset in Column(load.0.value, "dataset").value;
    var save := StripTrailingSlash(savePath);
    var fetched := FetchSamples(base, load.1, serve, dataset, save, samplesName, now);
    assert o.world == fetched.0 && o.result == fetched.1;
    var w2 := load.1.(fetched := load.1.fetched + [FileUrl(base, samplesName)]);
    assert w2 == LoopStart(base, cache, w, metaName, samplesName);
    var run := Run(w2, Plan(base, save, dataset, files, now), serve);
    assert fetched.0 == run.0;
  }

  /**
   * A successful download reads the catalogs, then `base/files/<file>` for each
   * selected file, in catalog order.
   */
  lemma DownloadSuccessReads(base: string, cache: Option<Table>, w: World, serve: Server, dataset: string,
                             savePath: string, metaName: string, samplesName: string, now: nat -> string,
                             samples: Table, files: seq<string>)
    requires |savePath| > 0
    requires serve(FileUrl(base, samplesName), DelimiterType(samplesName)) == Some(samples)
    requires SelectFiles(samples, dataset) == Success(files)
    requires Download(base, cache, w, serve, dataset, savePath, metaName, samplesName, now).result.Success?
    ensures Download(base, cache, w, serve, dataset, savePath, metaName, samplesName, now).world.fetched ==
      w.fetched + CatalogReads(base, cache, metaName) + [FileUrl(base, samplesName)] +
      seq(|files|, k requires 0 <= k < |files| => FileUrl(base, files[k]))
  {
    var plan := Plan(base, StripTrailingSlash(savePath), dataset, files, now);
    DownloadRunsPlan(base, cache, w, serve, dataset, savePath, metaName, samplesName, now, samples, files);
    RunReads(LoopStart(base, cache, w, metaName, samplesName), plan, serve);
    assert plan[..|plan|] == plan;
    PlanUrls(base, StripTrailingSlash(savePath), dataset, files, now);
  }

  /**
   * A successful download creates exactly the missing folders
   * `<save>/<dataset>_<date>`, one date per clock reading.
   */
  lemma DownloadSuccessFolders(base: string, cache: Option<Table>, w: World, serve: Server, dataset: string,
                               savePath: string, metaName: string, samplesName: string, now: nat -> string,
                               samples: Table, files: seq<string>)
    requires |savePath| > 0
    requires serve(FileUrl(base, samplesName), DelimiterType(samplesName)) == Some(samples)
    requires SelectFiles(samples, dataset) == Success(files)
    requires Download(base, cache, w, serve, dataset, savePath, metaName, samplesName, now).result.Success?
    ensures Download(base, cache, w, serve, dataset, savePath, metaName, samplesName, now).world.dirs ==
      w.dirs + set k | 0 <= k < |files| :: OutputDir(StripTrailingSlash(savePath), dataset, RecordDate(now(k), false))
  {
    var save := StripTrailingSlash(savePath);
    var plan := Plan(base, save, dataset, files, now);
    DownloadRunsPlan(base, cache, w, serve, dataset, savePath, metaName, samplesName, now, samples, files);
    RunSuccessDirs(LoopStart(base, cache, w, metaName, samplesName), plan, serve);
    PlanDirs(base, save, dataset, files, now);
  }

  /**
   * A successful download writes `<save>/<dataset>_<date>/<file>` for each selected
   * file and no other file.
   */
  lemma DownloadSuccessWrites(base: string, cache: Option<Table>, w: World, serve: Server, dataset: string,
                              savePath: string, metaName: string, samplesName: string, now: nat -> string,
                              samples: Table, files: seq<string>)
    requires |savePath| > 0
    requires serve(FileUrl(base, samplesName), DelimiterType(samplesName)) == Some(samples)
    requires SelectFiles(samples, dataset) == Success(files)
    requires Download(base, cache, w, serve, dataset, savePath, metaName, samplesName, now).result.Success?
    ensures var written :=
              set k | 0 <= k < |files| :: OutputDir(StripTrailingSlash(savePath), dataset, RecordDate(now(k), false)) + "/" + files[k];
            var after := Download(base, cache, w, serve, dataset, savePath, metaName, samplesName, now).world.files;
      && after.Keys == w.files.Keys + written
      && forall d :: d in w.files && d !in written ==> after[d] == w.files[d]
  {
    var save := StripTrailingSlash(savePath);
    var plan := Plan(base, save, dataset, files, now);
    DownloadRunsPlan(base, cache, w, serve, dataset, savePath, metaName, samplesName, now, samples, files);
    RunSuccessFiles(LoopStart(base, cache, w, metaName, samplesName), plan, serve);
    PlanDests(base, save, dataset, files, now);
  }

  /** When no row belongs to the dataset, the download succeeds and creates no folder. */
  lemma DownloadNothingSelected(base: string, cache: Option<Table>, w: World, serve: Server, dataset: string,
                                savePath: string, metaName: string, samplesName: string, now: nat -> string,
                                catalog: Table, names: seq<string>, samples: Table)
    requires |savePath| > 0
    requires CatalogInEffect(base, cache, serve, metaName) == Some(catalog)
    requires Column(catalog, "dataset") == Some(names) && dataset in names
    requires serve(FileUrl(base, samplesName), DelimiterType(samplesName)) == Some(samples)
    requires SelectFiles(samples, dataset) == Success([])
    ensures var o := Download(base, cache, w, serve, dataset, savePath, metaName, samplesName, now);
      o.result == Success(()) && o.world.dirs == w.dirs && o.world.files == w.files
  {
  }

  /**
   * Downloading the same dataset again on the same dates creates no new folder: the
   * second run finds the catalog cached and reuses the folders of the first.
   */
  lemma DownloadTwiceReusesFolders(base: string, cache: Option<Table>, w: World, serve: Server, dataset: string,
                                   savePath: string, metaName: string, samplesName: string,
                                   now1: nat -> string, now2: nat -> string)
    requires Download(base, cache, w, serve, dataset, savePath, metaName, samplesName, now1).result.Success?
    requires forall k: nat :: RecordDate(now2(k), false) == RecordDate(now1(k), false)
    ensures var o1 := Download(base, cache, w, serve, dataset, savePath, metaName, samplesName, now1);
            var o2 := Download(base, o1.cache, o1.world, serve, dataset, savePath, metaName, samplesName, now2);
      && o1.cache.Some? && o2.cache == o1.cache
      && o1.world.fetched + [FileUrl(base, samplesName)] <= o2.world.fetched
      && o2.world.dirs == o1.world.dirs
  {
    var o1 := Download(base, cache, w, serve, dataset, savePath, metaName, samplesName, now1);
    DownloadSuccessShape(base, cache, w, serve, dataset, savePath, metaName, samplesName, now1);
    var catalog := CatalogInEffect(base, cache, serve, metaName).value;
    var samples := serve(FileUrl(base, samplesName), DelimiterType(samplesName)).value;
    var files := SelectFiles(samples, dataset).value;
    var save := StripTrailingSlash(savePath);
    var plan := Plan(base, save, dataset, files, now1);
    var start := LoopStart(base, cache, w, metaName, samplesName);
    DownloadRunsPlan(base, cache, w, serve, dataset, savePath, metaName, samplesName, now1, samples, files);
    RunSuccessDirs(start, plan, serve);
    assert o1.world == Run(start, plan, serve).0;
    assert DirsOf(plan) <= o1.world.dirs;
    PlanSameDates(base, save, dataset, files, now1, now2);
    DownloadWithFoldersPresent(base, catalog, o1.world, serve, dataset, savePath, metaName, samplesName, now2,
                               samples, files);
  }

  /** A successful download got past every check: its catalog, name, samples and columns were all there. */
  lemma DownloadSuccessShape(base: string, cache: Option<Table>, w: World, serve: Server, dataset: string,
                             savePath: string, metaName: string, samplesName: string, now: nat -> string)
    requires Download(base, cache, w, serve, dataset, savePath, metaName, samplesName, now).result.Success?
    ensures |savePath| > 0
    ensures var catalog := CatalogInEffect(base, cache, serve, metaName);
      && catalog.Some?
      && Download(base, cache, w, serve, dataset, savePath, metaName, samplesName, now).cache == catalog
      && Column(catalog.value, "dataset").Some? && dataset in Column(catalog.value, "dataset").value
    ensures var samples := serve(FileUrl(base, samplesName), DelimiterType(samplesName));
      samples.Some? && SelectFiles(samples.value, dataset).Success?
  {
  }

  /** Clock readings that give the same dates give the same plan. */
  lemma PlanSameDates(base: string, save: string, dataset: string, files: seq<string>,
                      now1: nat -> string, now2: nat -> string)
    requires forall k: nat :: RecordDate(now2(k), false) == RecordDate(now1(k), false)
    ensures Plan(base, save, dataset, files, now2) == Plan(base, save, dataset, files, now1)
  {
    var p1 := Plan(base, save, dataset, files, now1);
    var p2 := Plan(base, save, dataset, files, now2);
    forall k | 0 <= k < |files| ensures p2[k] == p1[k] {
      assert RecordDate(now2(k), false) == RecordDate(now1(k), false);
    }
  }

  /**
   * A download with a cached catalog that knows the name, whose folders all exist
   * already, keeps the catalog, reads the sample catalog first and creates no folder.
   */
  lemma DownloadWithFoldersPresent(base: string, catalog: Table, w: World, serve: Server, dataset: string,
                                   savePath: string, metaName: string, samplesName: string, now: nat -> string,
                                   samples: Table, files: seq<string>)
    requires |savePath| > 0
    requires Column(catalog, "dataset").Some? && dataset in Column(catalog, "dataset").value
    requires serve(FileUrl(base, samplesName), DelimiterType(samplesName)) == Some(samples)
    requires SelectFiles(samples, dataset) == Success(files)
    requires DirsOf(Plan(base, StripTrailingSlash(savePath), dataset, files, now)) <= w.dirs
    ensures var o := Download(base, Some(catalog), w, serve, dataset, savePath, metaName, samplesName, now);
      && o.cache == Some(catalog)
      && w.fetched + [FileUrl(base, samplesName)] <= o.world.fetched
      && o.world.dirs == w.dirs
  {
    var w1 := w.(fetched := w.fetched + [FileUrl(base, samplesName)]);
    RunReusesDirs(w1, Plan(base, StripTrailingSlash(savePath), dataset, files, now), serve);
  }
}

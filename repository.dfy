/**
 * `ZenodoRepository` of `bulk-tumour-api/repository.py`: the repository URL set up by
 * the constructor, the memoised synthetic-dataset catalog, and the download of one
 * synthetic dataset into a dated folder.
 */
module Repository {
  import opened Wrappers
  import opened Utils
  import opened Frames
  import opened Environment

  const DefaultPath := "https://zenodo.org/record/6670391"
  const DefaultMetaName := "synthetic_datasets.tsv"
  const DefaultSamplesName := "synthetic_samples.tsv"
  const Scheme := "https://"

  /** The exceptions `download_synthetic_dataset` can end with. */
  datatype Error =
    | IndexError                     // `save_path[-1]` on an empty string
    | ReadFailed(url: string)        // `pd.read_csv` raised
    | MissingColumn(column: string)  // KeyError on a DataFrame column
    | UnknownDataset(name: string)   // the ValueError for a name not in the catalog
    | MakeDirsFailed(path: string)   // `os.makedirs` raised
    | WriteFailed(path: string)      // `to_csv` raised

  /** `t` occurs in `s` starting at index i. */
  predicate OccursAt(s: string, t: string, i: int) {
    0 <= i <= |s| - |t| && s[i..i + |t|] == t
  }

  /** Python's `t in s` on strings. */
  predicate Contains(s: string, t: string) {
    exists i :: 0 <= i <= |s| - |t| && OccursAt(s, t, i)
  }

  /** `s if s[-1] != '/' else s[:-1]`: drops one trailing slash. */
  function StripTrailingSlash(s: string): (r: string)
    requires |s| > 0
    ensures |s| - 1 <= |r| <= |s| && r == s[..|r|]
    ensures r == s <==> s[|s| - 1] != '/'
  {
    if s[|s| - 1] != '/' then s else s[..|s| - 1]
  }

  /**
   * The value `__init__` leaves in `self.path`. The stripped path is only used for
   * the `'https://' in ...` test; both branches then store the original argument.
   */
  function RepositoryPath(arg: string): (r: string)
    requires |arg| > 0
    ensures r == arg || r == Scheme + arg
    ensures EndsWith(r, arg)
  {
    if Contains(StripTrailingSlash(arg), Scheme) then arg else Scheme + arg
  }

  /** `base + '/files/' + name`: where a file of the record is downloaded from. */
  function FileUrl(base: string, name: string): string {
    base + "/files/" + name
  }

  /** `save_path + '/' + dataset_name + '_' + timestamp`: the output folder. */
  function OutputDir(save: string, dataset: string, stamp: string): (r: string)
    ensures |r| == |save| + |dataset| + 2 + |stamp|
    ensures r[..|save| + |dataset| + 2] == save + "/" + dataset + "_" && r[|save| + |dataset| + 2..] == stamp
  {
    save + "/" + dataset + "_" + stamp
  }

  /** `samples.loc[samples['dataset'] == name]['file']`, given both columns. */
  function Filter(datasets: seq<string>, files: seq<string>, name: string): (r: seq<string>)
    requires |datasets| == |files|
    ensures multiset(r) <= multiset(files)
    ensures |r| <= |files|
    decreases |files|
  {
    if files == [] then []
    else
      assert files == [files[0]] + files[1..];
      (if datasets[0] == name then [files[0]] else []) + Filter(datasets[1..], files[1..], name)
  }

  /**
   * The files of the sample catalog that belong to dataset `name`, or the KeyError of
   * the first column (`dataset`, then `file`) that the catalog lacks.
   */
  function SelectFiles(samples: Table, name: string): (r: Result<seq<string>, Error>)
    ensures r.Success? <==> "dataset" in samples.header && "file" in samples.header
    ensures r.Failure? ==> r.error == MissingColumn(if "dataset" in samples.header then "file" else "dataset")
    ensures r.Success? ==> |r.value| <= |samples.rows|
  {
    match Column(samples, "dataset")
    case None => Failure(MissingColumn("dataset"))
    case Some(datasets) =>
      match Column(samples, "file")
      case None => Failure(MissingColumn("file"))
      case Some(files) => Success(Filter(datasets, files, name))
  }

  /** One iteration of the download loop: the file, where it is read, where it is saved. */
  datatype Transfer = Transfer(file: string, url: string, dir: string)

  function Dest(t: Transfer): string {
    t.dir + "/" + t.file
  }

  /**
   * The transfers of one download. Iteration k reads the clock afresh, so its folder
   * is dated by the k-th clock reading `now(k)`.
   */
  function Plan(base: string, save: string, dataset: string, files: seq<string>,
                now: nat -> string): (plan: seq<Transfer>)
    ensures |plan| == |files|
    ensures forall k :: 0 <= k < |plan| ==>
      && plan[k].file == files[k] && plan[k].url == FileUrl(base, files[k])
      && |save| + |dataset| + 2 <= |plan[k].dir|
      && plan[k].dir[..|save| + |dataset| + 2] == save + "/" + dataset + "_"
      && ' ' !in plan[k].dir[|save| + |dataset| + 2..]
  {
    var plan := seq(|files|, k requires 0 <= k < |files| =>
      Transfer(files[k], FileUrl(base, files[k]), OutputDir(save, dataset, RecordDate(now(k), false))));
    assert forall k :: 0 <= k < |plan| ==> plan[k].dir == OutputDir(save, dataset, RecordDate(now(k), false));
    plan
  }

  /**
   * One loop iteration: create the folder if nothing is at its path, read the file
   * (logging the URL), then write it into the folder. None: the loop goes on.
   */
  function Step(w: World, t: Transfer, serve: Server): (r: (World, Option<Error>))
    ensures r.1.None? ==>
      && serve(t.url, DelimiterType(t.file)).Some?
      && r.0 == World(w.dirs + {t.dir}, w.files[Dest(t) := serve(t.url, DelimiterType(t.file)).value], w.fetched + [t.url])
    ensures r.1.Some? ==> && r.0.files == w.files && w.dirs <= r.0.dirs <= w.dirs + {t.dir}
                          && r.0.fetched == if r.1.value.MakeDirsFailed? then w.fetched else w.fetched + [t.url]
  {
    if !PathExists(w, t.dir) && UnderFile(w.files, t.dir) then (w, Some(MakeDirsFailed(t.dir)))
    else
      var w1 := if PathExists(w, t.dir) then w else w.(dirs := w.dirs + {t.dir});
      var w2 := w1.(fetched := w1.fetched + [t.url]);
      match serve(t.url, DelimiterType(t.file))
      case None => (w2, Some(ReadFailed(t.url)))
      case Some(table) =>
        assert Dest(t)[..|t.dir|] == t.dir && Dest(t)[|t.dir|] == '/';
        if CanWrite(w2, Dest(t)) then (w2.(files := w2.files[Dest(t) := table]), None)
        else (w2, Some(WriteFailed(Dest(t))))
  }

  /** The loop: the transfers in order, stopping at the first exception. */
  function Run(w: World, plan: seq<Transfer>, serve: Server): (r: (World, Option<Error>))
    ensures w.fetched <= r.0.fetched && w.dirs <= r.0.dirs && w.files.Keys <= r.0.files.Keys
    decreases |plan|
  {
    if plan == [] then (w, None)
    else
      var s := Step(w, plan[0], serve);
      if s.1.Some? then s else Run(s.0, plan[1..], serve)
  }

  /** Run over a non-empty plan takes one step first. */
  lemma RunUnfold(w: World, plan: seq<Transfer>, serve: Server)
    requires plan != []
    ensures Run(w, plan, serve) ==
      var s := Step(w, plan[0], serve);
      if s.1.Some? then s else Run(s.0, plan[1..], serve)
  {
  }

  /** What one `download_synthetic_dataset` call leaves behind. */
  datatype Outcome = Outcome(cache: Option<Table>, world: World, result: Result<(), Error>)

  /**
   * The part of `download_synthetic_dataset` after the name has been validated: read
   * the sample catalog, select the dataset's files and run the transfers into `save`.
   */
  function FetchSamples(base: string, w: World, serve: Server, dataset: string, save: string,
                        samplesName: string, now: nat -> string): (r: (World, Result<(), Error>))
    ensures w.fetched + [FileUrl(base, samplesName)] <= r.0.fetched
    ensures w.dirs <= r.0.dirs && w.files.Keys <= r.0.files.Keys
  {
    var samplesUrl := FileUrl(base, samplesName);
    var w1 := w.(fetched := w.fetched + [samplesUrl]);
    match serve(samplesUrl, DelimiterType(samplesName))
    case None => (w1, Failure(ReadFailed(samplesUrl)))
    case Some(samples) =>
      match SelectFiles(samples, dataset)
      case Failure(e) => (w1, Failure(e))
      case Success(files) =>
        var run := Run(w1, Plan(base, save, dataset, files, now), serve);
        (run.0, if run.1.None? then Success(()) else Failure(run.1.value))
  }

  /** The catalog the validation uses: the cached one, else the one read now. */
  function CatalogInEffect(base: string, cache: Option<Table>, serve: Server, metaName: string): Option<Table> {
    if cache.Some? then cache else serve(FileUrl(base, metaName), DelimiterType(metaName))
  }

  /** The catalog read a download makes: none when a catalog is cached. */
  function CatalogReads(base: string, cache: Option<Table>, metaName: string): seq<string> {
    if cache.Some? then [] else [FileUrl(base, metaName)]
  }

  /**
   * The catalog check of `download_synthetic_dataset`: the cached catalog if there is
   * one, else the catalog read from the record now (and its URL logged).
   */
  function LoadCatalog(base: string, cache: Option<Table>, w: World, serve: Server, metaName: string)
    : (r: (Option<Table>, World))
    ensures cache.Some? ==> r == (cache, w)
    ensures cache.None? ==> r == (serve(FileUrl(base, metaName), DelimiterType(metaName)),
                                  w.(fetched := w.fetched + [FileUrl(base, metaName)]))
    ensures r.1.dirs == w.dirs && r.1.files == w.files
    ensures w.fetched <= r.1.fetched && |r.1.fetched| <= |w.fetched| + 1
  {
    assert w.fetched + [] == w.fetched;
    (CatalogInEffect(base, cache, serve, metaName), w.(fetched := w.fetched + CatalogReads(base, cache, metaName)))
  }

  /**
   * `download_synthetic_dataset` as a function of the cached catalog, the world and the
   * clock readings: strip `save_path`, load the catalog unless cached, validate the
   * name, then fetch and save the dataset's samples.
   */
  function Download(base: string, cache: Option<Table>, w: World, serve: Server,
                    dataset: string, savePath: string, metaName: string, samplesName: string,
                    now: nat -> string): (r: Outcome)
    ensures w.fetched <= r.world.fetched && w.dirs <= r.world.dirs && w.files.Keys <= r.world.files.Keys
    ensures r.result.Success? ==> r.cache.Some?
  {
    if |savePath| == 0 then Outcome(cache, w, Failure(IndexError))
    else
      var load := LoadCatalog(base, cache, w, serve, metaName);
      var loaded, w1 := load.0, load.1;
      if loaded.None? then Outcome(cache, w1, Failure(ReadFailed(FileUrl(base, metaName))))
      else
        match Column(loaded.value, "dataset")
        case None => Outcome(loaded, w1, Failure(MissingColumn("dataset")))
        case Some(names) =>
          if dataset !in names then Outcome(loaded, w1, Failure(UnknownDataset(dataset)))
          else
            var fetched := FetchSamples(base, w1, serve, dataset, StripTrailingSlash(savePath), samplesName, now);
            Outcome(loaded, fetched.0, fetched.1)
  }

  class ZenodoRepository {
    var path: string
    var synthetic: Option<Table>  // the catalog read by the last successful load, if any

    constructor (path: string)
      requires |path| > 0
      ensures this.path == RepositoryPath(path)
      ensures synthetic == None
    {
      var stripped := StripTrailingSlash(path);
      if Contains(stripped, Scheme) {
        this.path := path;
      } else {
        this.path := Scheme + path;
      }
      synthetic := None;
    }

    /** `get_synthetic_datasets`: always reads the catalog and replaces the cache. */
    method GetSyntheticDatasets(host: Host, metaName: string) returns (r: Result<Table, Error>)
      modifies this`synthetic, host`fetched
      ensures host.fetched == old(host.fetched) + [FileUrl(path, metaName)]
      ensures r == match host.serve(FileUrl(path, metaName), DelimiterType(metaName))
                   case Some(t) => Success(t)
                   case None => Failure(ReadFailed(FileUrl(path, metaName)))
      ensures synthetic == if r.Success? then Some(r.value) else old(synthetic)
    {
      var url := FileUrl(path, metaName);
      var t := host.ReadCsv(url, DelimiterType(metaName));
      if t.None? {
        return Failure(ReadFailed(url));
      }
      synthetic := t;
      r := Success(t.value);
    }

    /** `download_synthetic_dataset`, with the i-th clock reading of the loop given as `now(i)`. */
    method DownloadSyntheticDataset(host: Host, dataset: string, savePath: string,
                                    metaName: string, samplesName: string, now: nat -> string)
      returns (r: Result<(), Error>)
      modifies this`synthetic, host`dirs, host`files, host`fetched
      ensures var o := Download(path, old(synthetic), old(host.State()), host.serve,
                                dataset, savePath, metaName, samplesName, now);
              synthetic == o.cache && host.State() == o.world && r == o.result
    {
      if |savePath| == 0 {
        return Failure(IndexError);
      }
      var save := StripTrailingSlash(savePath);
      if synthetic.None? {
        var meta := host.ReadCsv(FileUrl(path, metaName), DelimiterType(metaName));
        if meta.None? {
          return Failure(ReadFailed(FileUrl(path, metaName)));
        }
        synthetic := meta;
      }
      var names := Column(synthetic.value, "dataset");
      if names.None? {
        return Failure(MissingColumn("dataset"));
      }
      if dataset !in names.value {
        return Failure(UnknownDataset(dataset));
      }
      var samplesUrl := FileUrl(path, samplesName);
      var samples := host.ReadCsv(samplesUrl, DelimiterType(samplesName));
      if samples.None? {
        return Failure(ReadFailed(samplesUrl));
      }
      var selected := SelectFiles(samples.value, dataset);
      if selected.Failure? {
        return Failure(selected.error);
      }
      var err := SaveAll(host, save, dataset, selected.value, now);
      r := if err.None? then Success(()) else Failure(err.value);
    }

    /** One iteration of the loop: make the folder if absent, read the file, write it there. */
    method SaveOne(host: Host, dir: string, file: string, url: string) returns (err: Option<Error>)
      modifies host`dirs, host`files, host`fetched
      ensures (host.State(), err) == Step(old(host.State()), Transfer(file, url, dir), host.serve)
    {
      var present := host.Exists(dir);
      if !present {
        var made := host.MakeDirs(dir);
        if !made {
          return Some(MakeDirsFailed(dir));
        }
      }
      var table := host.ReadCsv(url, DelimiterType(file));
      if table.None? {
        return Some(ReadFailed(url));
      }
      var ok := host.ToCsv(dir + "/" + file, table.value);
      if !ok {
        return Some(WriteFailed(dir + "/" + file));
      }
      err := None;
    }

    /** The loop of `download_synthetic_dataset` over the selected files. */
    method SaveAll(host: Host, save: string, dataset: string, files: seq<string>, now: nat -> string)
      returns (err: Option<Error>)
      modifies host`dirs, host`files, host`fetched
      ensures (host.State(), err) == Run(old(host.State()), Plan(path, save, dataset, files, now), host.serve)
    {
      ghost var plan := Plan(path, save, dataset, files, now);
      var i := 0;
      while i < |files|
        invariant 0 <= i <= |files|
        invariant Run(old(host.State()), plan, host.serve) == Run(host.State(), plan[i..], host.serve)
      {
        RunUnfold(host.State(), plan[i..], host.serve);
        var stamp := RecordDate(now(i), false);
        var dir := OutputDir(save, dataset, stamp);
        assert plan[i] == Transfer(files[i], FileUrl(path, files[i]), dir);
        assert plan[i..][0] == plan[i];
        err := SaveOne(host, dir, files[i], FileUrl(path, files[i]));
        if err.Some? {
          return;
        }
        assert plan[i..][1..] == plan[i + 1..];
        i := i + 1;
      }
      err := None;
    }

  }
}

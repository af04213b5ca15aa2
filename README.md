# bulk-tumour-api: repository URL, catalog cache and synthetic-dataset download

A Dafny model of the core of `bulk-tumour-api`, a small client for a Zenodo record
that holds bulk tumour sequencing data. The model covers:

- the two string helpers of `utils.py`. `delimiter_type` picks the delimiter of a
  delimited text file from its extension. `record_date` turns a clock reading into
  a date token, or into an `h`-joined timestamp.
- the `ZenodoRepository` class of `repository.py`. Its constructor stores the
  repository URL. It keeps a cached synthetic-dataset catalog (`self.synthetic`).
  `download_synthetic_dataset` checks the dataset name against that catalog, selects
  the dataset's rows from the sample catalog, and reads each selected file and
  writes its table with `to_csv` (comma-separated, no index) into a dated folder
  under `save_path`.

Modules, one per file:

- `Wrappers` (`wrappers.dfy`): `Option` and `Result`.
- `Utils` (`utils.dfy`): `utils.py`. This file is pure functions and lemmas. Python's
  `str.split(' ')`, `str.join` and `s[-4:]` are written out as `Split`, `Join` and
  `LastChars`.
- `Frames` (`frames.dfy`): the part of a pandas DataFrame the code uses. A table is
  a header plus rows of string cells, and `t[name]` selects a column by name
  (`Column`, which is `None` where pandas raises a KeyError).
- `Environment` (`environment.dfy`): the outside world as a class `Host`.
  - `serve` is a fixed function. It gives the table that `pd.read_csv(url, delimiter)`
    would return, or `None` where that call raises.
  - `fetched` logs every URL read. It is a ghost field: nothing in the code reads it
    back, and it serves only to state what a call reads.
  - `dirs` is the set of directories. `files` maps each written path to its table.
  - Creating a folder fails when one of its ancestors is a file. Writing a file
    fails when the folder its path names is not a directory, when an ancestor is a
    file, or when the path itself is a directory.
  - The directory set is an ordinary field, not a ghost one, because the code
    branches on `os.path.exists`.
- `Repository` (`repository.dfy`): the class `ZenodoRepository`. It has fields `path`
  and `synthetic: Option<Table>`, the cache, where `None` stands for "attribute not
  set".
  - `Download` is a function that states the effect of one
    `download_synthetic_dataset` call: the new cache, the new world and the result.
  - The method `DownloadSyntheticDataset` is the imperative version. Its loop is
    proved equal to `Download`.
  - `Step` and `Run` are one loop iteration and the whole loop.
- `RepositoryFacts` (`repository_facts.dfy`): lemmas about the above.

The clock (`datetime.now()`) is an input. The download takes `now: nat -> string`,
and iteration `k` of the loop uses reading `now(k)`, because the code calls
`record_date()` once per file rather than once per batch.

Where the code's behaviour differs from what its names and messages suggest, the
model follows the code:

- `delimiter_type` returns `None` for an unrecognised extension. It raises no format
  error: slicing a string never fails, so the `except` branch never runs.
- The constructor's trailing-slash strip only feeds the `'https://' in ...` test.
  Both branches then store the original argument, so the trailing `/` is kept, and
  "https://" need not be at the front. Because the test runs on the stripped string,
  the argument `"https://"` is stored as `"https://https://"`
  (`RepositoryPathSchemeOnly`).
- The sample catalog is read again on every download. Only the dataset catalog is
  cached.
- A saved sample is always comma-separated, because `to_csv` is called without
  `sep`. It keeps its original name, so a `.tsv` or `.txt` sample is saved as
  comma-separated text under a tab-separated extension. Reading it back through
  `delimiter_type` would split on tabs.
- The output folder is dated per file. If a download runs across midnight, its files
  land in two folders.

## Model

| member | source | states |
|---|---|---|
| `Utils.LastChars` | bulk-tumour-api/utils.py:11 | For `n > 0`, `s[-n:]` has length `n`, or the length of `s` when `s` is shorter, and is the end of `s`. |
| `Utils.DelimiterType` | bulk-tumour-api/utils.py:3-16 | The result is `","` exactly when the name ends in `.csv`, and a tab exactly when it ends in `.tsv` or `.txt`. It is `None` exactly when the name ends in none of them. No input raises. |
| `Utils.DelimiterOnlyLastFour` | bulk-tumour-api/utils.py:11-14 | Only the last four characters decide: any two names with the same last four characters get the same delimiter. |
| `Utils.DelimiterCsv` | bulk-tumour-api/utils.py:11-12 | Any name ending in `.csv` yields `","`. |
| `Utils.DelimiterTsvTxt` | bulk-tumour-api/utils.py:13-14 | Any name ending in `.tsv` or `.txt` yields a tab. |
| `Utils.DelimiterCaseSensitive` | bulk-tumour-api/utils.py:11-14 | The comparison is case-sensitive: names ending in `.CSV` or `.TSV` yield `None`. |
| `Utils.DelimiterShortName` | bulk-tumour-api/utils.py:10-16 | A name shorter than four characters yields `None`. The function falls through and never raises. |
| `Utils.Split` | bulk-tumour-api/utils.py:20-22 | `split(' ')` gives at least one piece and one more piece than there are separators. No piece contains the separator. |
| `Utils.RecordDate` | bulk-tumour-api/utils.py:18-22 | The result never contains a space. With `tosec`, it is the clock reading with every space replaced by `h`, so it has the same length. Without `tosec`, it is the longest prefix of the reading without a space: it is either the whole reading or it stops at the first space. |
| `Utils.JoinSplitIsReplace` | bulk-tumour-api/utils.py:19-20 | `b.join(s.split(a))` equals `s` with every `a` replaced by `b`. |
| `Utils.JoinSplitRoundTrip` | bulk-tumour-api/utils.py:20 | Splitting on a character and joining with the same character gives the string back. |
| `Utils.Join` | bulk-tumour-api/utils.py:20-22 | `sep.join(parts)` of a non-empty list starts with the first part and ends with the last. |
| `Utils.SplitHeadIsPrefix` | bulk-tumour-api/utils.py:21-22 | The first piece of a split is a prefix of the string. It is followed by the separator unless it is the whole string. |
| `Utils.JoinChars` | bulk-tumour-api/utils.py:22 | `''.join` over the characters of a string gives the string back. |
| `Utils.Chars` | bulk-tumour-api/utils.py:22 | Iterating a string gives as many strings as it has characters. |
| `Utils.CharsAt` | bulk-tumour-api/utils.py:22 | Element `i` of that iteration is the one-character string of character `i`, so the characters come one by one and in order. `Utils.JoinChars` states that `''.join` over them gives the string back. |
| `Frames.Column` | bulk-tumour-api/repository.py:105 | `t[name]` fails exactly when no column has that name. Otherwise it gives one cell per row, in row order, from a column with that name. |
| `Environment.Host.ReadCsv` | bulk-tumour-api/repository.py:122 | Reading a URL gives what the server serves for that URL and delimiter. The URL is appended to the log of reads. |
| `Environment.Host.Exists` | bulk-tumour-api/repository.py:118 | The answer is true exactly when a directory or a file is at the path. |
| `Environment.Host.MakeDirs` | bulk-tumour-api/repository.py:119 | Creating a path that does not exist fails exactly when one of its ancestors (a prefix that ends just before a `/`) is a file. On success the path is added to the directories. Nothing else changes. |
| `Environment.Host.ToCsv` | bulk-tumour-api/repository.py:122-125 | The write succeeds exactly when three things hold: the folder the path names (everything before its last `/`) is a directory, no ancestor of the path is a file, and the path itself is not a directory. On success only that path's contents change. On failure nothing changes. |
| `Environment.ParentOfPlainName` | bulk-tumour-api/repository.py:123 | A sample name without `/` is written into the dated folder itself. |
| `Environment.ParentOfNestedName` | bulk-tumour-api/repository.py:123 | A sample name with a `/` is written into the subfolder of the dated folder that the name's own path gives. |
| `Repository.RepositoryPath` | bulk-tumour-api/repository.py:17-22 | The stored path is the argument or `"https://"` + the argument. Either way it ends with the whole argument, trailing `/` included. |
| `Repository.Contains` | bulk-tumour-api/repository.py:19 | No contract of its own. It is Python's `t in s`: some index where `t` occurs in `s`. `RepositoryFacts.RepositoryPathIff` states the constructor's test through `OccursAt`. |
| `Repository.Filter` | bulk-tumour-api/repository.py:110 | The selected files form a sub-multiset of the `file` column. No file is selected more often than it occurs there, so never more files than rows. |
| `Repository.FileUrl` | bulk-tumour-api/repository.py:122 | No contract of its own. `RepositoryFacts.FileUrlParts` states the URL's parts. |
| `Repository.OutputDir` | bulk-tumour-api/repository.py:118-123 | The folder name is `save`, `/`, the dataset name and `_`, followed by exactly the date token. |
| `Repository.Dest` | bulk-tumour-api/repository.py:123 | No contract of its own. `RepositoryFacts.DestParts` states the path's parts. |
| `RepositoryFacts.FileUrlParts` | bulk-tumour-api/repository.py:122 | A file's URL is the record path, then `/files/`, then the file name, and nothing else. |
| `RepositoryFacts.DestParts` | bulk-tumour-api/repository.py:123 | A sample's destination is its folder, one `/`, then the sample name, and nothing else. |
| `Repository.Plan` | bulk-tumour-api/repository.py:114-124 | There is one transfer per selected file, in catalog order. Each is read from `path + '/files/' + file`. Its folder is `save + '/' + dataset + '_'` followed by a date token without a space. |
| `Repository.Step` | bulk-tumour-api/repository.py:115-125 | An iteration that raises nothing has read the file, logged its URL, has the folder among the directories, and has written the table to `folder/file`. One that raises has written nothing and added at most its folder. It has logged its URL unless the folder could not be created. |
| `Repository.Run` | bulk-tumour-api/repository.py:114-125 | Whatever its outcome, the loop only adds: the URL log is extended, and no directory or file disappears. |
| `Repository.FetchSamples` | bulk-tumour-api/repository.py:107-125 | After validation the sample catalog's URL is the next read, and the rest only adds to the log, the directories and the files. |
| `Repository.LoadCatalog` | bulk-tumour-api/repository.py:101-102 | With a cached catalog nothing is read and the world is unchanged. Otherwise the catalog read from `path + '/files/' + name` is the one in effect, and exactly that URL is appended to the log. Directories and files are never touched. |
| `Repository.Download` | bulk-tumour-api/repository.py:78-131 | A download never removes a directory, a file or a logged read, and a successful one leaves a catalog cached. |
| `Repository.StripTrailingSlash` | bulk-tumour-api/repository.py:98 | The result is the input, or the input minus its last character. It equals the input exactly when the input does not end in `/`. |
| `Repository.SelectFiles` | bulk-tumour-api/repository.py:110-114 | Selection succeeds exactly when the sample catalog has both a `dataset` and a `file` column. Otherwise it reports the KeyError of the first missing one, `dataset` before `file`. It never selects more files than there are rows. |
| `Repository.ZenodoRepository.constructor` | bulk-tumour-api/repository.py:17-22 | The stored path is the value of `__init__` for a non-empty argument, and the cache starts empty. |
| `Repository.ZenodoRepository.GetSyntheticDatasets` | bulk-tumour-api/repository.py:71-76 | The catalog is always read from `path + '/files/' + name`. A successful read replaces the cache. A failed read leaves the cache as it was. |
| `Repository.ZenodoRepository.SaveOne` | bulk-tumour-api/repository.py:115-125 | One loop iteration has exactly the effect of `Step`: create the folder if absent, read the file, write it. |
| `Repository.ZenodoRepository.SaveAll` | bulk-tumour-api/repository.py:114-125 | The loop over the selected files has exactly the effect of `Run` on their transfer plan, and stops at the first exception. |
| `Repository.ZenodoRepository.DownloadSyntheticDataset` | bulk-tumour-api/repository.py:78-131 | The new cache, directories, files, URL log and result are those that `Download` gives for the old cache and world. |
| `RepositoryFacts.RepositoryPathHasScheme` | bulk-tumour-api/repository.py:17-22 | Whichever branch is taken, the stored path contains `https://`. |
| `RepositoryFacts.RepositoryPathIff` | bulk-tumour-api/repository.py:18-22 | The argument is stored unchanged exactly when `https://` occurs in it other than as its last eight characters. Otherwise `https://` is put in front, as for `"x/https://"`. |
| `RepositoryFacts.RepositoryPathKeepsUrl` | bulk-tumour-api/repository.py:18-20 | An argument with `https://` somewhere before its last character is stored unchanged. |
| `RepositoryFacts.RepositoryPathAddsScheme` | bulk-tumour-api/repository.py:18-22 | An argument without `https://` is stored as `"https://"` + the argument. |
| `RepositoryFacts.RepositoryPathSchemeOnly` | bulk-tumour-api/repository.py:18-22 | The argument `"https://"` is stored as `"https://https://"`, because the containment test sees the stripped `"https:/"`. |
| `RepositoryFacts.RepositoryPathDefault` | bulk-tumour-api/repository.py:17-20 | The default record URL is stored as given. |
| `RepositoryFacts.DefaultCatalogsUseTabs` | bulk-tumour-api/repository.py:81-82 | Both default catalog names are read with a tab delimiter. |
| `RepositoryFacts.StripOneSlash` | bulk-tumour-api/repository.py:98 | Exactly one trailing slash is removed from `save_path`. |
| `RepositoryFacts.FilterMembers` | bulk-tumour-api/repository.py:110 | A file is selected exactly when some sample row has that file and the requested dataset. |
| `RepositoryFacts.FilterCount` | bulk-tumour-api/repository.py:110-114 | The number of selected files equals the number of rows whose `dataset` is the requested name. |
| `RepositoryFacts.FilterAppend` | bulk-tumour-api/repository.py:110 | Selection keeps catalog order: selecting from two blocks of rows concatenates the two selections. |
| `RepositoryFacts.SelectFilesExample` | bulk-tumour-api/repository.py:110-114 | Two `timing` rows (`a.tsv`, `b.tsv`) and one `other` row select exactly `["a.tsv", "b.tsv"]`. |
| `RepositoryFacts.StepBlockedByFile` | bulk-tumour-api/repository.py:118-119 | A missing folder below a file cannot be created: the iteration raises before reading anything and changes nothing. |
| `RepositoryFacts.StepNeedsSubfolder` | bulk-tumour-api/repository.py:118-125 | A sample name with a `/` whose subfolder of the dated folder does not exist makes the iteration raise, because only the dated folder itself is created. |
| `RepositoryFacts.StepPlainNameWrites` | bulk-tumour-api/repository.py:118-125 | For a name without `/`, once the folder exists and the file is read, the iteration succeeds exactly when the target is not a directory and no ancestor of it is a file. |
| `RepositoryFacts.StepReads` | bulk-tumour-api/repository.py:114-125 | When the first transfer raises, the loop ends there, having read that file's URL unless its folder could not be created. |
| `RepositoryFacts.RunReads` | bulk-tumour-api/repository.py:114-125 | The loop reads the URLs of the transfers it gets to, in order, and no others. It reads all of them when it completes. It reads none after the one that raises, and reads that one's URL unless the folder could not be created. |
| `RepositoryFacts.RunSuccessDirs` | bulk-tumour-api/repository.py:114-119 | A completed loop leaves the directories as the old set plus the plan's folders. |
| `RepositoryFacts.RunSuccessFiles` | bulk-tumour-api/repository.py:114-125 | A completed loop writes every destination. Each holds the table read by the last transfer to that path. Every other file is unchanged. |
| `RepositoryFacts.RunBounds` | bulk-tumour-api/repository.py:114-125 | Whatever its outcome, the loop only adds directories among the plan's folders and files among the plan's destinations. |
| `RepositoryFacts.RunReusesDirs` | bulk-tumour-api/repository.py:118-119 | When every folder already exists, the loop creates none. |
| `RepositoryFacts.DownloadCache` | bulk-tumour-api/repository.py:98-102 | An empty `save_path` fails (IndexError) with nothing changed. Otherwise the cache afterwards is the catalog in effect, and the catalog URL is read first when nothing was cached. With a cached catalog the first read, if any, is the sample catalog. |
| `RepositoryFacts.DownloadRejectsUnknownName` | bulk-tumour-api/repository.py:105-131 | A name missing from the catalog's `dataset` column raises the ValueError. The sample catalog is not read, and no directory or file is created. |
| `RepositoryFacts.DownloadUnknownNameOnlyIfAbsent` | bulk-tumour-api/repository.py:105-131 | The ValueError is raised only when a catalog was loaded, it has a `dataset` column, and the name is not in that column. |
| `RepositoryFacts.DownloadRunsPlan` | bulk-tumour-api/repository.py:105-125 | A successful download is the loop run to completion over the selected files, after the catalog reads. |
| `RepositoryFacts.DownloadSuccessReads` | bulk-tumour-api/repository.py:101-122 | A successful download reads the catalog (if not cached), then the sample catalog, then `path + '/files/' + file` for each selected file in catalog order, and nothing else. |
| `RepositoryFacts.DownloadSuccessFolders` | bulk-tumour-api/repository.py:114-119 | A successful download adds exactly the folders `save + '/' + dataset + '_' + date(now(k))` to the directories. |
| `RepositoryFacts.DownloadSuccessWrites` | bulk-tumour-api/repository.py:122-125 | A successful download writes exactly the paths `save + '/' + dataset + '_' + date(now(k)) + '/' + file(k)`, and every file that was there before and is not one of those paths keeps its contents. |
| `RepositoryFacts.DownloadNothingSelected` | bulk-tumour-api/repository.py:110-119 | When no sample row matches, the download succeeds, creates no folder and writes no file. |
| `RepositoryFacts.DownloadTwiceReusesFolders` | bulk-tumour-api/repository.py:101-119 | A successful download leaves a catalog cached. Repeating it with the same dates keeps that catalog, reads the sample catalog first (no catalog read), and creates no new folder. |
| `RepositoryFacts.DownloadWithFoldersPresent` | bulk-tumour-api/repository.py:101-119 | With the catalog cached and listing the name, and every planned folder already present, a download keeps that catalog, reads the sample catalog first, and creates no folder. |
| `RepositoryFacts.DownloadSuccessShape` | bulk-tumour-api/repository.py:98-110 | A successful download had a non-empty save path and a catalog in effect (the one it leaves cached) listing the name. The sample catalog was served, and its `dataset` and `file` columns were there. |
| `RepositoryFacts.PlanSameDates` | bulk-tumour-api/repository.py:114-123 | Two clocks giving the same dates give the same folders and destinations for every file. |

## Left out

- `get_contents` (`repository.py:24-52`) is not modelled. It is an HTTP GET and BeautifulSoup scraping. Its line 50 also uses an undefined name `path`. It raises `NameError` whenever the page has at least one `a` tag of class `filename`, and returns `[]` when it has none.
- `get_database` (`repository.py:54-69`) is not modelled. It is one pandas read of `self.path + database_name`, with no logic beyond that concatenation.
- pandas parsing and serialisation are not modelled.
  - Tables come from the `serve` function, and a written file holds the table that was read.
  - Cell types, NaN and dtype inference are not modelled: every cell is a string.
  - `delimiter=None` for an unknown extension is passed on to `serve` unchanged.
- HTTP errors, parse errors and bad delimiters all become `ReadFailed(url)`. Their exception types are not told apart.
- `Environment.Host.MakeDirs`: `os.makedirs` also creates missing parent folders. The model adds only the folder itself. It does fail, as `os.makedirs` does, when an ancestor is a file.
- `Environment.Host.MakeDirs`: operating-system failures are not modelled. These include permission denied, a read-only or full disk, and an over-long name. The model's folder creation fails only when an ancestor is a file.
- `Environment.Host.ToCsv`: paths are not normalised. A sample name that starts with `/` or holds `//` is looked up in a folder whose name ends in `/`, where the operating system would merge the slashes.
- `Environment.Host.ToCsv`: operating-system failures are not modelled. These include permission denied, a read-only or full disk, an over-long name, and an interrupted write. The model's write fails only for the three path conditions in its contract.
- `Environment.Host.ToCsv`: a written file is always comma-separated, whatever its extension (`to_csv` at `repository.py:122-125` has no `sep`). The model's `files` map holds only the table, not its text, so it cannot show that a saved `.tsv` or `.txt` sample no longer matches the delimiter its name implies.
- `Environment.Host.ReadCsv`: reads are deterministic. `serve` is a fixed function of the URL and the delimiter, so reading a URL twice gives the same answer. A transient network failure, or a file changed on the record between two reads, cannot happen in the model. `RunSuccessFiles` and `DownloadTwiceReusesFolders` depend on this.
- The tqdm progress bar and the printed banner (`repository.py:113-114`) are not modelled. They only report progress; the banner's `samples['file']` KeyError is covered by `SelectFiles`.
- The clock reading inside `record_date` is not modelled. The reading is passed in: `now(k)` for iteration `k`.
- `Repository.ZenodoRepository.constructor`: requires a non-empty argument. Python raises IndexError at `path[-1]`, and a constructor has no error result.
- `bulk-tumour-api/dataset.py` is not modelled. Its constructor only chooses between its argument and a constant. `contents()` calls `list_zenodo_contents`, which is not defined in `utils.py`.
- `setup.py` is packaging metadata and is not modelled.

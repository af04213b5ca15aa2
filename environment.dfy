/**
 * What the download code talks to: the web server behind the repository URL
 * (read through pandas) and the local filesystem.
 */
module Environment {
  import opened Wrappers
  import opened Frames

  /**
   * What the server yields for `pd.read_csv(url, delimiter=d)`: the parsed table,
   * or None when the request or the parse raises.
   */
  type Server = (string, Option<string>) -> Option<Table>

  /** Directories, written files, and the URLs read so far (oldest first). */
  datatype World = World(dirs: set<string>, files: map<string, Table>, fetched: seq<string>)

  /** `os.path.exists`: a directory or a file is there. */
  predicate PathExists(w: World, p: string) {
    p in w.dirs || p in w.files
  }

  /**
   * Some ancestor of `p` (a prefix ending just before a '/') is a file: creating
   * the folder `p` or writing the file `p` raises.
   */
  predicate UnderFile(files: map<string, Table>, p: string) {
    exists j :: 0 <= j < |p| && p[j] == '/' && p[..j] in files
  }

  /** The folder a path names its file in: everything before its last '/', or "" without one. */
  function Parent(p: string): string
    decreases |p|
  {
    if p == [] then ""
    else if p[|p| - 1] == '/' then p[..|p| - 1]
    else Parent(p[..|p| - 1])
  }

  /** A plain name (no '/') written into `dir` lands in `dir` itself. */
  lemma {:induction false} ParentOfPlainName(dir: string, name: string)
    requires '/' !in name
    ensures Parent(dir + "/" + name) == dir
    decreases |name|
  {
    var p := dir + "/" + name;
    if name == [] {
      assert p[..|p| - 1] == dir;
    } else {
      assert p[|p| - 1] == name[|name| - 1];
      assert p[..|p| - 1] == dir + "/" + name[..|name| - 1];
      ParentOfPlainName(dir, name[..|name| - 1]);
    }
  }

  /** A name with a '/' written into `dir` lands in the subfolder its own path names. */
  lemma {:induction false} ParentOfNestedName(dir: string, name: string)
    requires '/' in name
    ensures Parent(dir + "/" + name) == dir + "/" + Parent(name)
    decreases |name|
  {
    var p := dir + "/" + name;
    assert p[|p| - 1] == name[|name| - 1];
    assert p[..|p| - 1] == dir + "/" + name[..|name| - 1];
    if name[|name| - 1] != '/' {
      assert '/' in name[..|name| - 1] by {
        var i :| 0 <= i < |name| && name[i] == '/';
        assert name[..|name| - 1][i] == '/';
      }
      ParentOfNestedName(dir, name[..|name| - 1]);
    }
  }

  /**
   * `to_csv(path)` succeeds when the folder it names is a directory, no ancestor is
   * a file, and the path itself is not a directory.
   */
  predicate CanWrite(w: World, path: string) {
    Parent(path) in w.dirs && !UnderFile(w.files, path) && path !in w.dirs
  }

  class Host {
    const serve: Server
    var dirs: set<string>
    var files: map<string, Table>
    ghost var fetched: seq<string>  // the URLs read so far; no code reads it back

    ghost function State(): World
      reads this
    {
      World(dirs, files, fetched)
    }

    constructor (serve: Server, w: World)
      ensures this.serve == serve && State() == w
    {
      this.serve := serve;
      dirs, files, fetched := w.dirs, w.files, w.fetched;
    }

    /** `pd.read_csv(url, delimiter=delimiter)`; the URL is logged whether or not it succeeds. */
    method ReadCsv(url: string, delimiter: Option<string>) returns (r: Option<Table>)
      modifies this`fetched
      ensures r == serve(url, delimiter)
      ensures fetched == old(fetched) + [url]
    {
      r := serve(url, delimiter);
      fetched := fetched + [url];
    }

    /** `os.path.exists(p)`. */
    method Exists(p: string) returns (b: bool)
      ensures b <==> PathExists(State(), p)
    {
      b := p in dirs || p in files;
    }

    /**
     * `os.makedirs(p)` on a path that does not exist yet: it fails when an ancestor
     * of `p` is a file, and otherwise adds `p`.
     */
    method MakeDirs(p: string) returns (ok: bool)
      requires !PathExists(State(), p)
      modifies this`dirs
      ensures ok <==> !UnderFile(old(files), p)
      ensures dirs == if ok then old(dirs) + {p} else old(dirs)
    {
      ok := forall j | 0 <= j < |p| && p[j] == '/' :: p[..j] !in files;
      if ok {
        dirs := dirs + {p};
      }
    }

    /** `t.to_csv(path)`: replaces the file, or fails without writing. */
    method ToCsv(path: string, t: Table) returns (ok: bool)
      modifies this`files
      ensures ok <==> CanWrite(old(State()), path)
      ensures files == if ok then old(files)[path := t] else old(files)
    {
      ok := Parent(path) in dirs && (forall j | 0 <= j < |path| && path[j] == '/' :: path[..j] !in files) && path !in dirs;
      if ok {
        files := files[path := t];
      }
    }
  }
}

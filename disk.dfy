/**
 * The part of Node's `fs` and `mkdirp` the mirror uses: a map from paths to
 * files with modification times, the set of directories created, and the
 * paths the disk refuses to create (a read-only or full disk), which is how
 * I/O failures enter the model.
 */
module Disk {
  import opened Types
  import opened Strings

  class FileSystem {
    var files: map<string, File>
    var dirs: set<string>
    /** Paths whose creation fails with an I/O error. */
    const refused: set<string>

    /**
     * A path the disk refuses was never created, so `mkdirp` on it fails
     * just as the real one fails on a directory it cannot make; every
     * method keeps this.
     */
    predicate Valid()
      reads this
    {
      dirs !! refused
    }

    constructor (files: map<string, File>, dirs: set<string>, refused: set<string>)
      requires dirs !! refused
      ensures this.files == files && this.dirs == dirs && this.refused == refused
      ensures Valid()
    {
      this.files := files;
      this.dirs := dirs;
      this.refused := refused;
    }

    /** `mkdirp(dir)`: creates the directory unless the disk refuses it. */
    method Mkdirp(dir: string) returns (r: Outcome<Error>)
      modifies this
      ensures r == (if dir in refused then Fail(IO(dir)) else Pass)
      ensures dirs == if r.Pass? then old(dirs) + {dir} else old(dirs)
      ensures dirs == Made(old(dirs), refused, dir)
      ensures files == old(files)
      ensures old(Valid()) ==> Valid()
    {
      if dir in refused {
        r := Fail(IO(dir));
      } else {
        dirs := dirs + {dir};
        r := Pass;
      }
    }

    /**
     * `fs.writeFile(path, content)` at time `now`: fails when the disk refuses
     * the path or its directory does not exist, and otherwise replaces the file.
     */
    method WriteFile(path: string, content: Content, now: int) returns (r: Outcome<Error>)
      modifies this
      ensures r.Pass? <==> Writable(path)
      ensures r.Fail? ==> r.error == IO(path)
      ensures files == if r.Pass? then old(files)[path := File(content, now)] else old(files)
      ensures dirs == old(dirs)
      ensures old(Valid()) ==> Valid()
    {
      if Writable(path) {
        files := files[path := File(content, now)];
        r := Pass;
      } else {
        r := Fail(IO(path));
      }
    }

    predicate Writable(path: string)
      reads this
    {
      path !in refused && Dirname(path) in dirs
    }
  }

  /**
   * The directories a `mkdirp(dir)` leaves of `dirs`: `dir` is added unless
   * the disk refuses it, and nothing else changes.
   */
  function Made(dirs: set<string>, refused: set<string>, dir: string): (d: set<string>)
    ensures dirs <= d <= dirs + {dir}
    ensures dir in d <==> dir in dirs || dir !in refused
  {
    if dir in refused then dirs else dirs + {dir}
  }

  /** `fs.readFile(path)` followed by `JSON.parse`, on the files `files`. */
  function ReadDoc(files: map<string, File>, path: string): (r: Result<Json, Error>)
    ensures r.Success? <==> path in files && files[path].content.Doc?
    ensures r.Success? ==> r.value == files[path].content.doc
    ensures path !in files ==> r == Failure(IO(path))
    ensures r.Failure? ==> r.error == IO(path) || r.error == Malformed
  {
    if path !in files then Failure(IO(path)) else Parse(files[path].content)
  }
}

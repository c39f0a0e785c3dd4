/**
 * A package request (lib/package.js): the name and version a handler is
 * asked about, with the version split off a `name-1.2.3` token when none is
 * given, and the operations that answer from the disk cache or fetch from the
 * registry and fill the cache.
 */
module Package {
  import opened Types
  import opened Strings
  import opened Patterns
  import opened Disk
  import opened Memo
  import Cache
  import Registry

  datatype Ident = Ident(name: string, version: Option<string>)

  // ---------------------------------------------------------------------
  // Splitting a version off the name

  /** The pieces the constructor inspects: the non-empty `/` pieces, or a lone one's `-` pieces. */
  function NameParts(n: string): (parts: seq<string>)
    ensures |parts| >= 1
  {
    var bySlash := Compact(SplitOn(n, "/"));
    if |bySlash| == 1 then SplitOn(bySlash[0], "-") else if |bySlash| == 0 then [""] else bySlash
  }

  /**
   * The constructor's choice of name and version. Without a name it fails;
   * without a version, a piece list of two whose second piece holds a
   * dotted triple, or a longer one whose last piece does, gives the version.
   */
  function SplitName(name: Option<string>, version: Option<string>): (r: Result<Ident, Error>)
    ensures r.Failure? <==> !Supplied(name)
    ensures r.Failure? ==> r.error == Missing("Package name not found")
    ensures Supplied(name) && Supplied(version) ==> r == Success(Ident(name.value, version))
    ensures r.Success? && r.value.version.Some? ==> Supplied(r.value.version)
  {
    if !Supplied(name) then Failure(Missing("Package name not found"))
    else
      var parts := NameParts(name.value);
      var last := parts[|parts| - 1];
      if !Supplied(version) && |parts| == 2 && HasSemver(last) then
        SemverLength(last, 0);
        Success(Ident(parts[0], Some(last)))
      else if !Supplied(version) && |parts| > 2 && HasSemver(last) then
        SemverLength(last, 0);
        Success(Ident(Join(parts[..|parts| - 1], "-"), Some(last)))
      else
        Success(Ident(name.value, if Supplied(version) then version else None))
  }

  /** A name without `/` is inspected piece by `-` piece. */
  lemma SlashFreeParts(n: string)
    requires n != "" && '/' !in n
    ensures NameParts(n) == SplitOn(n, "-")
  {
    NoSingleChar(n, '/');
    assert SplitOn(n, "/") == [n];
    assert Compact([n]) == [n] by {
      assert [n][1..] == [];
    }
  }

  /** A string free of the one-character pattern `[c]` does not hold `c`. */
  lemma CharFree(s: string, c: char)
    requires !Contains(s, [c])
    ensures c !in s
  {
    if c in s {
      var k :| 0 <= k < |s| && s[k] == c;
      CharContained(s, c, k);
    }
  }

  /** The last `-` piece of `n` holds no `-`. */
  lemma LastDashPiece(n: string)
    ensures '-' !in SplitOn(n, "-")[|SplitOn(n, "-")| - 1]
  {
    var parts := SplitOn(n, "-");
    SplitPartsFree(n, "-");
    CharFree(parts[|parts| - 1], '-');
  }

  /** Two or more `-` pieces: all but the last, rejoined, then `-` and the last give `n` back. */
  lemma RejoinDashParts(n: string, parts: seq<string>)
    requires parts == SplitOn(n, "-") && |parts| >= 2
    ensures Join(parts[..|parts| - 1], "-") + "-" + parts[|parts| - 1] == n
  {
    JoinSplit(n, "-");
    JoinInit(parts, "-");
  }

  /** A single `-` piece is `n` itself. */
  lemma SingleDashPart(n: string, parts: seq<string>)
    requires parts == SplitOn(n, "-") && |parts| == 1
    ensures parts[0] == n
  {
    JoinSplit(n, "-");
  }

  /** The `-` pieces of `n`: all but the last rejoin into the text before the last `-`. */
  lemma DashParts(n: string)
    ensures var parts := SplitOn(n, "-");
      && (|parts| == 1 ==> '-' !in n)
      && (|parts| >= 2 ==>
            Join(parts[..|parts| - 1], "-") + "-" + parts[|parts| - 1] == n && '-' !in parts[|parts| - 1])
      && (|parts| == 2 ==> Join(parts[..1], "-") == parts[0])
  {
    var parts := SplitOn(n, "-");
    LastDashPiece(n);
    if |parts| >= 2 {
      RejoinDashParts(n, parts);
      if |parts| == 2 {
        assert parts[..1] == [parts[0]];
      }
    } else {
      SingleDashPart(n, parts);
    }
  }

  /** A name whose last piece matches the version pattern is the other pieces joined by `-`, at that piece. */
  lemma SplitNameLastPiece(n: string, parts: seq<string>)
    requires n != "" && parts == NameParts(n) && |parts| >= 2 && HasSemver(parts[|parts| - 1])
    ensures SplitName(Some(n), None) == Success(Ident(Join(parts[..|parts| - 1], "-"), Some(parts[|parts| - 1])))
  {
    if |parts| == 2 {
      assert parts[..1] == [parts[0]];
    }
  }

  /** A name whose last piece does not match the version pattern is kept, with no version. */
  lemma SplitNameNoVersion(n: string, parts: seq<string>)
    requires n != "" && parts == NameParts(n) && !(|parts| >= 2 && HasSemver(parts[|parts| - 1]))
    ensures SplitName(Some(n), None) == Success(Ident(n, None))
  {
  }

  /** The pieces of a slash-free name: its `-` pieces, all but the last rejoining into the text before the last `-`. */
  lemma SlashFreeDashParts(n: string)
    requires n != "" && '/' !in n
    ensures var parts := NameParts(n);
      |parts| >= 2 ==> Join(parts[..|parts| - 1], "-") + "-" + parts[|parts| - 1] == n && '-' !in parts[|parts| - 1]
  {
    SlashFreeParts(n);
    DashParts(n);
  }

  /** A slash-free name is split into a name and a version that reassemble it. */
  lemma SplitNameReassembles(n: string)
    requires n != "" && '/' !in n
    ensures SplitName(Some(n), None).Success?
    ensures SplitName(Some(n), None).value.version.None? ==> SplitName(Some(n), None).value.name == n
    ensures var id := SplitName(Some(n), None).value;
      id.version.Some? ==> id.name + "-" + id.version.value == n && '-' !in id.version.value && HasSemver(id.version.value)
  {
    SlashFreeDashParts(n);
    var parts := NameParts(n);
    if |parts| >= 2 && HasSemver(parts[|parts| - 1]) {
      SplitNameLastPiece(n, parts);
    } else {
      SplitNameNoVersion(n, parts);
    }
  }

  /** A name with neither `/` nor `-` is kept whole, and no version is derived from it. */
  lemma SplitNameWithoutDash(n: string)
    requires n != "" && '/' !in n && '-' !in n
    ensures SplitName(Some(n), None) == Success(Ident(n, None))
  {
    SlashFreeParts(n);
    NoSingleChar(n, '-');
    assert SplitOn(n, "-") == [n];
  }

  /** The `-` pieces of `n = x-v`, for `v` without a dash: all but the last rejoin into `x`, the last is `v`. */
  lemma TrailingParts(n: string, x: string, v: string)
    requires n == x + "-" + v && '-' !in v
    ensures var parts := SplitOn(n, "-");
      |parts| >= 2 && Join(parts[..|parts| - 1], "-") == x && parts[|parts| - 1] == v
  {
    DashParts(n);
    assert n[|x|] == '-';
    assert '-' in n;
    var parts := SplitOn(n, "-");
    LastOccurrence(Join(parts[..|parts| - 1], "-"), parts[|parts| - 1], x, v, '-');
  }

  /** `x-1.2.3` splits into `x` and `1.2.3`, whatever dashes `x` holds. */
  lemma SplitNameTrailingVersion(x: string, v: string)
    requires x != "" && '/' !in x && '/' !in v && '-' !in v && HasSemver(v)
    ensures SplitName(Some(x + "-" + v), None) == Success(Ident(x, Some(v)))
  {
    var n := x + "-" + v;
    assert '/' !in n;
    SlashFreeParts(n);
    TrailingParts(n, x, v);
    SplitNameLastPiece(n, SplitOn(n, "-"));
  }

  /** The name and version given are kept as they are. */
  lemma SplitNameKeepsGivenVersion(n: string, v: string)
    requires n != "" && v != ""
    ensures SplitName(Some(n), Some(v)) == Success(Ident(n, Some(v)))
  {
  }

  /** `4.17.21` matches the version pattern. */
  lemma SampleVersionMatches(v: string)
    requires v == "4.17.21"
    ensures HasSemver(v) && '-' !in v && '/' !in v
  {
    assert DigitRun(v, 7) == 0;
    assert DigitRun(v, 6) == 1;
    assert DigitRun(v, 5) == 2;
    assert DigitRun(v, 4) == 0;
    assert DigitRun(v, 3) == 1;
    assert DigitRun(v, 2) == 2;
    assert DigitRun(v, 1) == 0;
    assert DigitRun(v, 0) == 1;
    assert SemverAt(v, 0);
  }

  /** `lodash-4.17.21` is the package `lodash` at version `4.17.21`. */
  lemma SplitNameExample(x: string, v: string, n: string)
    requires x == "lodash" && v == "4.17.21" && n == "lodash-4.17.21"
    ensures SplitName(Some(n), None) == Success(Ident(x, Some(v)))
  {
    SampleVersionMatches(v);
    assert '/' !in x;
    assert n == x + "-" + v;
    SplitNameTrailingVersion(x, v);
  }

  // ---------------------------------------------------------------------
  // Reading a version out of a package document

  /** `data.versions[version]`: undefined `versions` or null throws. */
  function VersionEntry(data: Json, version: string): (r: Result<Option<Json>, Error>)
    ensures r.Failure? ==> r.error == TypeError
    ensures r.Success? && r.value.Some? <==>
      (data.JObj? && "versions" in data.members && data.members["versions"].JObj? &&
       version in data.members["versions"].members)
    ensures r.Success? && r.value.Some? ==> r.value.value == data.members["versions"].members[version]
    ensures data.JObj? && "versions" !in data.members ==> r == Failure(TypeError)
  {
    match Prop(data, "versions")
    case Failure(e) => Failure(e)
    case Success(vs) => PropOf(vs, version)
  }

  /** The truthy entry for `version` in the document stored at `path`, if there is one. */
  function StoredEntry(files: map<string, File>, path: string, version: string): (e: Option<Json>)
    ensures e.Some? ==>
      (path in files && files[path].content.Doc? &&
       VersionEntry(files[path].content.doc, version) == Success(e) && Truthy(e))
  {
    if path in files && files[path].content.Doc? then
      var r := VersionEntry(files[path].content.doc, version);
      if r.Success? && Truthy(r.value) then r.value else None
    else None
  }

  /** The stored document at `path` parses and has a `versions` object, but no truthy entry for `version`. */
  predicate ListsNot(files: map<string, File>, path: string, version: string) {
    path in files && files[path].content.Doc? &&
    VersionEntry(files[path].content.doc, version).Success? &&
    !Truthy(VersionEntry(files[path].content.doc, version).value)
  }

  /** The per-version file never overwrites the package document. */
  lemma MetaVersionPathDistinct(dir: string, name: string, version: string)
    ensures Cache.MetaPath(dir, name) != Cache.MetaVersionPath(dir, name, version)
  {
    assert |Cache.MetaPath(dir, name)| < |Cache.MetaVersionPath(dir, name, version)|;
  }

  /** A package document and a tarball never share a path: one ends in `n`, the other in `z`. */
  lemma MetaTarballPathDistinct(dir: string, name: string, version: string)
    ensures Cache.MetaPath(dir, name) != Cache.TarballPath(dir, name, version)
  {
    var mp, tp := Cache.MetaPath(dir, name), Cache.TarballPath(dir, name, version);
    assert mp[|mp| - 1] != tp[|tp| - 1];
  }

  // ---------------------------------------------------------------------
  // What the operations answer

  /**
   * What `getMeta` answers, given whether the memo called the stored
   * document valid: without a name it fails; a valid document is answered
   * by its path; otherwise a registry error is passed on, then the step
   * `setMeta` stops at, and a stored document is answered by its path.
   */
  function MetaOutcome(hit: bool, up: Registry.Registry, cfg: Config, name: string, refused: set<string>)
    : (r: Result<string, Error>)
    ensures r.Success? <==>
      name != "" &&
      (hit || (Registry.GetMeta(up, cfg, name).Success? &&
               Cache.StoreError(refused, cfg, name, Registry.GetMeta(up, cfg, name).value).None?))
    ensures r.Success? ==> r.value == Cache.MetaPath(cfg.cacheDir, name)
    ensures r.Failure? && Code(r.error) == Some(404) <==>
      name != "" && !hit && Registry.GetMeta(up, cfg, name) == Failure(Upstream(404))
    ensures r.Failure? ==> r.error != NotFound
    ensures r.Failure? && Throws(r.error) <==>
      name != "" && !hit && Registry.GetMeta(up, cfg, name).Success? &&
      Cache.StoreError(refused, cfg, name, Registry.GetMeta(up, cfg, name).value) == Some(TypeError)
    ensures name == "" ==> r == Failure(Missing("Name not supplied"))
  {
    if name == "" then Failure(Missing("Name not supplied"))
    else if hit then Success(Cache.MetaPath(cfg.cacheDir, name))
    else match Registry.GetMeta(up, cfg, name)
      case Failure(e) => Failure(e)
      case Success(meta) =>
        match Cache.StoreError(refused, cfg, name, meta)
        case Some(e) => Failure(e)
        case None => Success(Cache.MetaPath(cfg.cacheDir, name))
  }

  /** The files `getMeta` leaves: unchanged unless it fetched a document, which `setMeta` then stores. */
  function MetaFilesAfter(files: map<string, File>, hit: bool, up: Registry.Registry, cfg: Config, name: string,
                          refused: set<string>, now: int): map<string, File> {
    if name == "" || hit || Registry.GetMeta(up, cfg, name).Failure? then files
    else Cache.StoredFiles(files, refused, cfg, name, Registry.GetMeta(up, cfg, name).value, now)
  }

  /** The directories `getMeta` leaves: the meta directory once it fetched a document, as `setMeta` makes it. */
  function MetaDirsAfter(dirs: set<string>, hit: bool, up: Registry.Registry, cfg: Config, name: string,
                         refused: set<string>): (d: set<string>)
    ensures dirs <= d <= dirs + {Dirname(Cache.MetaPath(cfg.cacheDir, name))}
    ensures name == "" || hit || Registry.GetMeta(up, cfg, name).Failure? ==> d == dirs
    ensures d != dirs ==> Dirname(Cache.MetaPath(cfg.cacheDir, name)) !in refused
  {
    if name == "" || hit || Registry.GetMeta(up, cfg, name).Failure? then dirs
    else Made(dirs, refused, Dirname(Cache.MetaPath(cfg.cacheDir, name)))
  }

  /** `getMeta` changes no file but the package document and its raw copy, and creates no other. */
  lemma MetaFilesKept(files: map<string, File>, hit: bool, up: Registry.Registry, cfg: Config, name: string,
                      refused: set<string>, now: int)
    ensures var after := MetaFilesAfter(files, hit, up, cfg, name, refused, now);
      var path := Cache.MetaPath(cfg.cacheDir, name);
      && after.Keys <= files.Keys + {path, path + ".orig"}
      && (forall p :: p in files && p != path && p != path + ".orig" ==> p in after && after[p] == files[p])
      && (name == "" || hit ==> after == files)
  {
    var fetched := Registry.GetMeta(up, cfg, name);
    if name != "" && !hit && fetched.Success? {
      Cache.StoredFilesFrame(files, refused, cfg, name, fetched.value, now);
    }
  }

  /**
   * When `getMeta` answers a path after a fetch, the document there is the
   * rewritten registry document and the raw copy the document as fetched.
   */
  lemma MetaFilesStored(files: map<string, File>, up: Registry.Registry, cfg: Config, name: string,
                        refused: set<string>, now: int)
    requires MetaOutcome(false, up, cfg, name, refused).Success?
    ensures var after := MetaFilesAfter(files, false, up, cfg, name, refused, now);
      var path := Cache.MetaPath(cfg.cacheDir, name);
      var fetched := Registry.GetMeta(up, cfg, name).value;
      && path in after && after[path] == File(Doc(Cache.RewriteDoc(cfg, fetched)), now)
      && path + ".orig" in after && after[path + ".orig"] == File(Doc(fetched), now)
      && ReadDoc(after, path) == Success(Cache.RewriteDoc(cfg, fetched))
  {
    Cache.StoredFilesWritten(files, refused, cfg, name, Registry.GetMeta(up, cfg, name).value, now);
  }

  /**
   * What `getVersionMeta` answers once `getMeta` has answered `m` and left
   * the files `after`: an error is passed on; then the document is read
   * and parsed; a missing `versions` throws; no truthy entry is the 404
   * error; otherwise the entry is stored at the per-version path.
   */
  function VersionOf(m: Result<string, Error>, after: map<string, File>, refused: set<string>, cfg: Config,
                     name: string, version: string): (r: Result<string, Error>)
    ensures m.Failure? ==> r == m
    ensures m != Failure(NotFound) ==> (r == Failure(NotFound) <==> m.Success? && ListsNot(after, m.value, version))
    ensures r.Success? <==>
      m.Success? && StoredEntry(after, m.value, version).Some? && Cache.VersionStoreError(refused, cfg, name, version).None?
    ensures r.Success? ==> r.value == Cache.MetaVersionPath(cfg.cacheDir, name, version)
    ensures m.Success? ==>
      (r.Failure? && Throws(r.error) <==>
         ReadDoc(after, m.value).Success? && VersionEntry(ReadDoc(after, m.value).value, version).Failure?)
  {
    if m.Failure? then m
    else match ReadDoc(after, m.value)
      case Failure(e) => Failure(e)
      case Success(doc) =>
        match VersionEntry(doc, version)
        case Failure(e) => Failure(e)
        case Success(entry) =>
          if !Truthy(entry) then Failure(NotFound)
          else match Cache.VersionStoreError(refused, cfg, name, version)
            case Some(e) => Failure(e)
            case None => Success(Cache.MetaVersionPath(cfg.cacheDir, name, version))
  }

  /** What `getVersionMeta` answers, from the state before it runs and whether the memo called the document valid. */
  function VersionMetaOutcome(hit: bool, files: map<string, File>, refused: set<string>,
                              up: Registry.Registry, cfg: Config, id: Ident, now: int): Result<string, Error> {
    if !Supplied(id.version) then Failure(Missing("This package has no version"))
    else VersionOf(MetaOutcome(hit, up, cfg, id.name, refused),
                   MetaFilesAfter(files, hit, up, cfg, id.name, refused, now), refused, cfg, id.name,
                   id.version.value)
  }

  /**
   * The files `getVersionMeta` leaves once `getMeta` has answered `m` and
   * left the files `after`: the entry for the version is added at the
   * per-version path exactly when that path is answered.
   */
  function VersionFilesOf(m: Result<string, Error>, after: map<string, File>, refused: set<string>, cfg: Config,
                          name: string, version: string, now: int): map<string, File> {
    if VersionOf(m, after, refused, cfg, name, version).Success? then
      after[Cache.MetaVersionPath(cfg.cacheDir, name, version) := File(Doc(StoredEntry(after, m.value, version).value), now)]
    else after
  }

  /**
   * The directories `getVersionMeta` leaves once `getMeta` has answered `m`
   * and left the files `after` and the directories `dirs`: the per-version
   * directory is made exactly when the document holds a truthy entry.
   */
  function VersionDirsOf(m: Result<string, Error>, after: map<string, File>, dirs: set<string>, refused: set<string>,
                         cfg: Config, name: string, version: string): (d: set<string>)
    ensures dirs <= d <= dirs + {Dirname(Cache.MetaVersionPath(cfg.cacheDir, name, version))}
    ensures d != dirs ==> m.Success? && StoredEntry(after, m.value, version).Some?
  {
    if m.Success? && StoredEntry(after, m.value, version).Some? then
      Made(dirs, refused, Dirname(Cache.MetaVersionPath(cfg.cacheDir, name, version)))
    else dirs
  }

  /** The directories `getVersionMeta` leaves, from the state before it runs: at most the two it may make. */
  function VersionDirsAfter(hit: bool, files: map<string, File>, dirs: set<string>, refused: set<string>,
                            up: Registry.Registry, cfg: Config, id: Ident, now: int): (d: set<string>)
    ensures dirs <= d
    ensures !Supplied(id.version) ==> d == dirs
    ensures Supplied(id.version) ==>
      d <= dirs + {Dirname(Cache.MetaPath(cfg.cacheDir, id.name)),
                   Dirname(Cache.MetaVersionPath(cfg.cacheDir, id.name, id.version.value))}
  {
    if !Supplied(id.version) then dirs
    else VersionDirsOf(MetaOutcome(hit, up, cfg, id.name, refused),
                       MetaFilesAfter(files, hit, up, cfg, id.name, refused, now),
                       MetaDirsAfter(dirs, hit, up, cfg, id.name, refused), refused, cfg, id.name, id.version.value)
  }

  /** The files `getVersionMeta` leaves, from the state before it runs. */
  function VersionFilesAfter(hit: bool, files: map<string, File>, refused: set<string>,
                             up: Registry.Registry, cfg: Config, id: Ident, now: int): map<string, File> {
    if !Supplied(id.version) then files
    else VersionFilesOf(MetaOutcome(hit, up, cfg, id.name, refused),
                        MetaFilesAfter(files, hit, up, cfg, id.name, refused, now), refused, cfg, id.name,
                        id.version.value, now)
  }

  /**
   * `getVersionMeta` changes no file but the package document, its raw copy
   * and the per-version file, and writes the last exactly when it answers it,
   * with the entry the package document holds for the version.
   */
  lemma VersionFilesKept(hit: bool, files: map<string, File>, refused: set<string>,
                         up: Registry.Registry, cfg: Config, id: Ident, now: int)
    requires Supplied(id.version)
    ensures var after := VersionFilesAfter(hit, files, refused, up, cfg, id, now);
      var mp := Cache.MetaPath(cfg.cacheDir, id.name);
      var vp := Cache.MetaVersionPath(cfg.cacheDir, id.name, id.version.value);
      var r := VersionMetaOutcome(hit, files, refused, up, cfg, id, now);
      && after.Keys <= files.Keys + {mp, mp + ".orig", vp}
      && (forall p :: p in files && p != mp && p != mp + ".orig" && p != vp ==> p in after && after[p] == files[p])
      && (r.Failure? ==> after == MetaFilesAfter(files, hit, up, cfg, id.name, refused, now))
      && (r.Success? ==>
            StoredEntry(after, mp, id.version.value).Some? && vp in after &&
            after[vp] == File(Doc(StoredEntry(after, mp, id.version.value).value), now))
  {
    MetaFilesKept(files, hit, up, cfg, id.name, refused, now);
    MetaVersionPathDistinct(cfg.cacheDir, id.name, id.version.value);
  }

  /**
   * On a valid cached document: the 404 error exactly when the stored
   * document does not list the version, success exactly when it does and
   * the per-version file can be written, and a throw exactly when the
   * stored document has no `versions` to index.
   */
  lemma VersionMetaOnHit(files: map<string, File>, refused: set<string>, up: Registry.Registry,
                         cfg: Config, id: Ident, now: int)
    requires id.name != "" && Supplied(id.version)
    ensures var r := VersionMetaOutcome(true, files, refused, up, cfg, id, now);
      var mp := Cache.MetaPath(cfg.cacheDir, id.name);
      var v := id.version.value;
      && (r == Failure(NotFound) <==> ListsNot(files, mp, v))
      && (r.Success? <==> StoredEntry(files, mp, v).Some? && Cache.VersionStoreError(refused, cfg, id.name, v).None?)
      && (r.Failure? && Throws(r.error) <==>
            ReadDoc(files, mp).Success? && VersionEntry(ReadDoc(files, mp).value, v).Failure?)
  {
    MetaFilesKept(files, true, up, cfg, id.name, refused, now);
  }

  /**
   * After a fetch that `setMeta` stores: the version is looked up in the
   * rewritten registry document; listed and writable gives the per-version
   * path, an unlisted version the 404 error.
   */
  lemma VersionMetaOnFetch(files: map<string, File>, refused: set<string>, up: Registry.Registry,
                           cfg: Config, id: Ident, now: int)
    requires Supplied(id.version) && MetaOutcome(false, up, cfg, id.name, refused).Success?
    ensures var r := VersionMetaOutcome(false, files, refused, up, cfg, id, now);
      var doc := Cache.RewriteDoc(cfg, Registry.GetMeta(up, cfg, id.name).value);
      var entry := VersionEntry(doc, id.version.value);
      && (r == Failure(NotFound) <==> entry.Success? && !Truthy(entry.value))
      && (r.Success? <==>
            entry.Success? && Truthy(entry.value) && Cache.VersionStoreError(refused, cfg, id.name, id.version.value).None?)
  {
    MetaFilesStored(files, up, cfg, id.name, refused, now);
  }

  /**
   * What `getTarball` answers on a valid cached tarball, once `getMeta` has
   * answered `m` and left the files `after`: an error is passed on; then the
   * document is read and parsed; a version must be given; a missing
   * `versions` throws; a version the document does not list is the 404
   * error; a listed one is answered by the tarball path.
   */
  function TarballHitOf(m: Result<string, Error>, after: map<string, File>, cfg: Config, name: string,
                        version: Option<string>): (r: (Option<Error>, Option<string>))
    ensures r.0.None? <==> r.1.Some?
    ensures m.Failure? ==> r.0 == Some(m.error)
    ensures m != Failure(NotFound) ==>
      (r.0 == Some(NotFound) <==> m.Success? && Supplied(version) && ListsNot(after, m.value, version.value))
    ensures r.0.None? <==> m.Success? && Supplied(version) && StoredEntry(after, m.value, version.value).Some?
    ensures r.1.Some? ==> Supplied(version) && r.1.value == Cache.TarballPath(cfg.cacheDir, name, version.value)
    ensures m.Success? ==>
      (r.0.Some? && Throws(r.0.value) <==>
         ReadDoc(after, m.value).Success? && Supplied(version) &&
         VersionEntry(ReadDoc(after, m.value).value, version.value).Failure?)
  {
    if m.Failure? then (Some(m.error), None)
    else match ReadDoc(after, m.value)
      case Failure(e) => (Some(e), None)
      case Success(doc) =>
        if !Supplied(version) then (Some(Missing("Version not supplied")), None)
        else match VersionEntry(doc, version.value)
          case Failure(e) => (Some(e), None)
          case Success(entry) =>
            if !Truthy(entry) then (Some(NotFound), None)
            else (None, Some(Cache.TarballPath(cfg.cacheDir, name, version.value)))
  }

  /**
   * What `getTarball` answers, from the state before it runs, whether the
   * memo called the tarball valid, and whether it then called the package
   * document valid: without a name it fails; a tarball that is not valid is
   * fetched to the registry's target path; a valid one is checked against
   * the package document.
   */
  function TarballOutcome(tgzHit: bool, metaHit: bool, files: map<string, File>, refused: set<string>,
                          up: Registry.Registry, cfg: Config, id: Ident, now: int)
    : (r: (Option<Error>, Option<string>))
    ensures id.name == "" ==> r == (Some(Missing("Name not supplied")), None)
    ensures r.0.None? ==> r.1.Some?
    ensures tgzHit ==> (r.0.None? <==> r.1.Some?)
    ensures id.name != "" && !tgzHit ==>
      r.1 == Some(Cache.TarballPath(cfg.cacheDir, id.name, Registry.VersionText(id.version)))
    ensures tgzHit && r.1.Some? ==>
      Supplied(id.version) && r.1.value == Cache.TarballPath(cfg.cacheDir, id.name, id.version.value)
  {
    if id.name == "" then (Some(Missing("Name not supplied")), None)
    else if !tgzHit then
      (Registry.TarballError(up, refused, cfg, id.name, id.version),
       Some(Cache.TarballPath(cfg.cacheDir, id.name, Registry.VersionText(id.version))))
    else TarballHitOf(MetaOutcome(metaHit, up, cfg, id.name, refused),
                      MetaFilesAfter(files, metaHit, up, cfg, id.name, refused, now), cfg, id.name, id.version)
  }

  /**
   * A tarball that is not valid in the cache: the target path comes back in
   * every case, with no error exactly when the registry answers 200 and the
   * target could be opened, and with the upstream status as the error's code
   * otherwise.
   */
  lemma TarballOnMiss(tgzHit: bool, metaHit: bool, files: map<string, File>, refused: set<string>,
                      up: Registry.Registry, cfg: Config, id: Ident, now: int)
    requires id.name != "" && !tgzHit
    ensures var r := TarballOutcome(tgzHit, metaHit, files, refused, up, cfg, id, now);
      var target := Cache.TarballPath(cfg.cacheDir, id.name, Registry.VersionText(id.version));
      var url := Registry.TarballUrl(cfg, id.name, Registry.VersionText(id.version));
      var canOpen := Strings.Dirname(target) !in refused && target !in refused;
      && r.1 == Some(target)
      && (r.0.None? <==> canOpen && url in up.responses && up.responses[url].status == 200)
      && (canOpen && url in up.responses && up.responses[url].status != 200 ==>
            r.0.Some? && Code(r.0.value) == Some(up.responses[url].status))
      && (r.0.Some? && Throws(r.0.value) <==> Strings.Dirname(target) !in refused && target in refused)
  {
  }

  /**
   * A valid cached tarball whose package document is valid too: answered by
   * the tarball path exactly when the stored document lists the version, the
   * 404 error exactly when it does not.
   */
  lemma TarballOnHit(files: map<string, File>, refused: set<string>, up: Registry.Registry,
                     cfg: Config, id: Ident, now: int)
    requires id.name != "" && Supplied(id.version)
    ensures var r := TarballOutcome(true, true, files, refused, up, cfg, id, now);
      var mp := Cache.MetaPath(cfg.cacheDir, id.name);
      && (r.0 == Some(NotFound) <==> ListsNot(files, mp, id.version.value))
      && (r.0.None? <==> StoredEntry(files, mp, id.version.value).Some?)
      && (r.0.None? ==> r.1 == Some(Cache.TarballPath(cfg.cacheDir, id.name, id.version.value)))
  {
    MetaFilesKept(files, true, up, cfg, id.name, refused, now);
  }

  // ---------------------------------------------------------------------
  // The package object

  /**
   * What `getMeta` promises: the answer is `MetaOutcome` of the memo's
   * answer for the document, the files are those `setMeta` leaves, a
   * fetched and stored document is marked valid, the memo never claims a
   * failed document valid, and no other memo entry changes but one
   * eviction from a full memo.
   */
  twostate predicate MetaSpec(fs: FileSystem, memo: AsyncCache, up: Registry.Registry, cfg: Config,
                              name: string, now: int, new r: Result<string, Error>)
    reads fs, memo
  {
    var path := Cache.MetaPath(cfg.cacheDir, name);
    var hit := old(memo.Answer(fs.files, path, now)) == Valid;
    && memo.Valid()
    && Kept(old(memo.entries), memo.entries, path, memo.max)
    && r == MetaOutcome(hit, up, cfg, name, fs.refused)
    && fs.files == MetaFilesAfter(old(fs.files), hit, up, cfg, name, fs.refused, now)
    && (name == "" ==> memo.entries == old(memo.entries))
    && (name != "" && hit ==> fs.dirs == old(fs.dirs))
    && fs.dirs == MetaDirsAfter(old(fs.dirs), hit, up, cfg, name, fs.refused)
    && (!hit && r.Success? ==> path in memo.entries && memo.entries[path] == Entry(Valid, now))
    && (name != "" && r.Failure? ==> path in memo.entries ==> memo.entries[path].value != Valid)
  }

  /**
   * What `getVersionMeta` promises: the answer is `VersionMetaOutcome` of the
   * memo's answer for the package document, the files are those it leaves,
   * and no memo entry but the document's changes.
   */
  twostate predicate VersionSpec(fs: FileSystem, memo: AsyncCache, up: Registry.Registry, cfg: Config,
                                 id: Ident, now: int, new r: Result<string, Error>)
    reads fs, memo
  {
    var mp := Cache.MetaPath(cfg.cacheDir, id.name);
    var hit := old(memo.Answer(fs.files, mp, now)) == Valid;
    && memo.Valid()
    && r == VersionMetaOutcome(hit, old(fs.files), fs.refused, up, cfg, id, now)
    && fs.files == VersionFilesAfter(hit, old(fs.files), fs.refused, up, cfg, id, now)
    && fs.dirs == VersionDirsAfter(hit, old(fs.files), old(fs.dirs), fs.refused, up, cfg, id, now)
    && Kept(old(memo.entries), memo.entries, mp, memo.max)
    && (id.name == "" || !Supplied(id.version) ==> memo.entries == old(memo.entries))
  }

  /**
   * What `getTarball` promises, given `metaHit`, the memo's answer for the
   * package document when `getMeta` asks, and `checked`, the memo once the
   * tarball was looked up: the answer is `TarballOutcome`; the lookup
   * changes no other memo entry; a miss leaves the files the registry
   * download leaves and marks the target valid exactly when it succeeded; a
   * hit leaves the files `getMeta` leaves; and when the lookup evicted
   * nothing, `metaHit` is the memo's answer for the document beforehand.
   */
  twostate predicate TarballSpec(fs: FileSystem, memo: AsyncCache, up: Registry.Registry, cfg: Config, id: Ident,
                                 now: int, new err: Option<Error>, new path: Option<string>, new metaHit: bool,
                                 new checked: map<string, Entry>)
    reads fs, memo
  {
    var tp := Cache.TarballPath(cfg.cacheDir, id.name, Cache.VersionOrEmpty(id.version));
    var mp := Cache.MetaPath(cfg.cacheDir, id.name);
    var target := Cache.TarballPath(cfg.cacheDir, id.name, Registry.VersionText(id.version));
    var tgzHit := old(memo.Answer(fs.files, tp, now)) == Valid;
    && memo.Valid()
    && (err, path) == TarballOutcome(tgzHit, metaHit, old(fs.files), fs.refused, up, cfg, id, now)
    && (id.name == "" ==>
          checked == old(memo.entries) && memo.entries == checked && fs.files == old(fs.files) &&
          fs.dirs == old(fs.dirs))
    && (id.name != "" ==> Kept(old(memo.entries), checked, tp, memo.max))
    && (id.name != "" && !tgzHit ==>
          && fs.files == Registry.TarballFiles(old(fs.files), up, fs.refused, cfg, id.name, id.version, now)
          && fs.dirs == Made(old(fs.dirs), fs.refused, Dirname(target))
          && (err.None? ==>
                target in memo.entries && memo.entries[target] == Entry(Valid, now) &&
                Kept(checked, memo.entries, target, memo.max))
          && (err.Some? ==> memo.entries == checked))
    && (id.name != "" && tgzHit ==>
          && metaHit == (memo.AnswerIn(checked, old(fs.files), mp, now) == Valid)
          && fs.files == MetaFilesAfter(old(fs.files), metaHit, up, cfg, id.name, fs.refused, now)
          && fs.dirs == MetaDirsAfter(old(fs.dirs), metaHit, up, cfg, id.name, fs.refused)
          && Kept(checked, memo.entries, mp, memo.max))
    && (id.name != "" && tgzHit && (tp in old(memo.entries) || |old(memo.entries)| < memo.max) ==>
          metaHit == (old(memo.Answer(fs.files, mp, now)) == Valid))
  }

  class Package {
    const name: string
    const version: Option<string>
    const cfg: Config

    constructor (id: Ident, cfg: Config)
      ensures name == id.name && version == id.version && this.cfg == cfg
    {
      name := id.name;
      version := id.version;
      this.cfg := cfg;
    }

    /** `getMeta`: the path of the package document, fetched and stored on a miss. */
    method GetMeta(fs: FileSystem, memo: AsyncCache, up: Registry.Registry, now: int) returns (r: Result<string, Error>)
      requires memo.Valid()
      modifies fs, memo
      ensures MetaSpec(fs, memo, up, cfg, name, now, r)
    {
      ghost var path := Cache.MetaPath(cfg.cacheDir, name);
      ghost var hit := memo.Answer(fs.files, path, now) == Valid;
      var v := Cache.Validate(memo, fs, cfg, Some("meta"), Some(name), None, now);
      if v.Failure? { return Failure(v.error); }
      if v.value == Valid {
        assert MetaFilesAfter(fs.files, hit, up, cfg, name, fs.refused, now) == fs.files;
        return Cache.GetMeta(cfg, name);
      }
      assert !hit;
      ghost var checked := memo.entries;
      r := FetchMeta(fs, memo, up, now);
      KeptThen(old(memo.entries), checked, memo.entries, Cache.MetaPath(cfg.cacheDir, name), memo.max);
    }

    /** The series `getMeta` runs on a miss: fetch the document, store it, mark its path valid. */
    method FetchMeta(fs: FileSystem, memo: AsyncCache, up: Registry.Registry, now: int) returns (r: Result<string, Error>)
      requires memo.Valid() && name != ""
      modifies fs, memo
      ensures memo.Valid()
      ensures r == MetaOutcome(false, up, cfg, name, fs.refused)
      ensures fs.files == MetaFilesAfter(old(fs.files), false, up, cfg, name, fs.refused, now)
      ensures fs.dirs == MetaDirsAfter(old(fs.dirs), false, up, cfg, name, fs.refused)
      ensures var path := Cache.MetaPath(cfg.cacheDir, name);
        && (r.Success? ==> path in memo.entries && memo.entries[path] == Entry(Valid, now))
        && (r.Failure? ==> memo.entries == old(memo.entries))
        && Kept(old(memo.entries), memo.entries, path, memo.max)
    {
      var fetched := Registry.GetMeta(up, cfg, name);
      if fetched.Failure? { return Failure(fetched.error); }
      var stored := Cache.SetMeta(fs, cfg, name, fetched.value, now);
      if stored.Failure? { return Failure(stored.error); }
      var path := Cache.GetMeta(cfg, name).value;
      memo.Set(path, Valid, now);
      r := Success(path);
    }

    /** `getLatestVersionMeta`: the whole package document, as `getMeta`. */
    method GetLatestVersionMeta(fs: FileSystem, memo: AsyncCache, up: Registry.Registry, now: int)
      returns (r: Result<string, Error>)
      requires memo.Valid()
      modifies fs, memo
      ensures MetaSpec(fs, memo, up, cfg, name, now, r)
    {
      r := GetMeta(fs, memo, up, now);
    }

    /**
     * `getVersionMeta`: the path of the per-version document, written from
     * the package document's entry for the version; a document without a
     * (truthy) entry for the version gives the 404 error.
     */
    method GetVersionMeta(fs: FileSystem, memo: AsyncCache, up: Registry.Registry, now: int)
      returns (r: Result<string, Error>)
      requires memo.Valid()
      modifies fs, memo
      ensures VersionSpec(fs, memo, up, cfg, Ident(name, version), now, r)
      ensures r.Success? ==>
        Supplied(version) &&
        var mp := Cache.MetaPath(cfg.cacheDir, name);
        var vp := Cache.MetaVersionPath(cfg.cacheDir, name, version.value);
        var e := StoredEntry(fs.files, mp, version.value);
        e.Some? && vp in fs.files && fs.files[vp] == File(Doc(e.value), now)
    {
      if !Supplied(version) { return Failure(Missing("This package has no version")); }
      ghost var hit := memo.Answer(fs.files, Cache.MetaPath(cfg.cacheDir, name), now) == Valid;
      ghost var files, dirs := fs.files, fs.dirs;
      var metaPath := GetMeta(fs, memo, up, now);
      ghost var after := fs.files;
      assert after == MetaFilesAfter(files, hit, up, cfg, name, fs.refused, now);
      assert metaPath == MetaOutcome(hit, up, cfg, name, fs.refused);
      r := StoreVersion(fs, metaPath, now);
      MetaVersionPathDistinct(cfg.cacheDir, name, version.value);
      assert r == VersionMetaOutcome(hit, files, fs.refused, up, cfg, Ident(name, version), now);
      assert fs.files == VersionFilesAfter(hit, files, fs.refused, up, cfg, Ident(name, version), now);
      VersionFilesKept(hit, files, fs.refused, up, cfg, Ident(name, version), now);
    }

    /** The series `getVersionMeta` runs once `getMeta` answered `m`: read, index, write. */
    method StoreVersion(fs: FileSystem, m: Result<string, Error>, now: int) returns (r: Result<string, Error>)
      requires Supplied(version)
      requires m.Success? ==> name != "" && m.value == Cache.MetaPath(cfg.cacheDir, name)
      modifies fs
      ensures r == VersionOf(m, old(fs.files), fs.refused, cfg, name, version.value)
      ensures fs.files == VersionFilesOf(m, old(fs.files), fs.refused, cfg, name, version.value, now)
      ensures fs.dirs == VersionDirsOf(m, old(fs.files), old(fs.dirs), fs.refused, cfg, name, version.value)
    {
      if m.Failure? { return m; }
      var data := ReadDoc(fs.files, m.value);
      if data.Failure? { return Failure(data.error); }
      var entry := VersionEntry(data.value, version.value);
      if entry.Failure? { return Failure(entry.error); }
      if !Truthy(entry.value) { return Failure(NotFound); }
      var wrote := Cache.SetMetaVersion(fs, cfg, name, version.value, entry.value.value, now);
      if wrote.Fail? { return Failure(wrote.error); }
      r := Cache.GetMetaVersion(cfg, name, version);
    }

    /**
     * `getTarball`: a valid cached tarball is answered by its path once the
     * package document lists the version; otherwise the registry is asked
     * and the target path is passed on with whatever error it gave.
     * `metaHit` is the memo's answer for the package document at the time
     * `getMeta` asks it, which an eviction by the tarball's check may change.
     */
    method GetTarball(fs: FileSystem, memo: AsyncCache, up: Registry.Registry, now: int)
      returns (err: Option<Error>, path: Option<string>, ghost metaHit: bool, ghost checked: map<string, Entry>)
      requires memo.Valid()
      modifies fs, memo
      ensures TarballSpec(fs, memo, up, cfg, Ident(name, version), now, err, path, metaHit, checked)
    {
      metaHit := false;
      var v := Cache.Validate(memo, fs, cfg, Some("tgz"), Some(name), version, now);
      checked := memo.entries;
      if v.Failure? { return Some(v.error), None, metaHit, checked; }
      if v.value != Valid {
        var e, target := Registry.GetTarball(up, fs, memo, cfg, name, version, now);
        return e, Some(target), metaHit, checked;
      }
      var mp := Cache.MetaPath(cfg.cacheDir, name);
      var tp := Cache.TarballPath(cfg.cacheDir, name, Cache.VersionOrEmpty(version));
      metaHit := memo.Answer(fs.files, mp, now) == Valid;
      MetaTarballPathDistinct(cfg.cacheDir, name, Cache.VersionOrEmpty(version));
      if tp in old(memo.entries) || |old(memo.entries)| < memo.max {
        memo.AnswerKept(old(memo.entries), checked, tp, fs.files, mp, now);
      }
      var metaPath := GetMeta(fs, memo, up, now);
      if metaPath.Failure? { return Some(metaPath.error), None, metaHit, checked; }
      var data := ReadDoc(fs.files, metaPath.value);
      if data.Failure? { return Some(data.error), None, metaHit, checked; }
      if !Supplied(version) { return Some(Missing("Version not supplied")), None, metaHit, checked; }
      var entry := VersionEntry(data.value, version.value);
      if entry.Failure? { return Some(entry.error), None, metaHit, checked; }
      if !Truthy(entry.value) { return Some(NotFound), None, metaHit, checked; }
      var tarball := Cache.GetTarball(cfg, name, version);
      return None, Some(tarball.value), metaHit, checked;
    }
  }
}

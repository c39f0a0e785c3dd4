/**
 * The upstream registry (lib/registry.js) as an oracle: a map from request
 * URL to the response the registry gives, a URL absent from it standing for a
 * failed request. Only the URLs the mirror builds, the "status other than 200
 * is an error whose code is the status" rule, and the writes of a tarball
 * fetch are modelled.
 */
module Registry {
  import opened Types
  import opened Disk
  import opened Memo
  import Cache

  datatype Response = Response(status: int, body: Content)

  datatype Registry = Registry(responses: map<string, Response>)

  function Scheme(cfg: Config): string {
    if cfg.upstreamUseHttps then "https" else "http"
  }

  /** The metadata URL: `<proto>://<upstream_host>/<name>`, which ends with the name after a `/`. */
  function MetaUrl(cfg: Config, name: string): (u: string)
    ensures |u| > |name| && u[|u| - |name| - 1..] == "/" + name
  {
    Scheme(cfg) + "://" + cfg.upstreamHost + "/" + name
  }

  /**
   * The tarball URL: `<proto>://<upstream_host>/<name>/-/<name>-<version>.tgz`,
   * the metadata URL followed by `/-/`, the file name and `.tgz`.
   */
  function TarballUrl(cfg: Config, name: string, version: string): (u: string)
    ensures var m := MetaUrl(cfg, name);
      |m| + 3 <= |u| && u[..|m| + 3] == m + "/-/"
    ensures |version| + 4 <= |u| && u[|u| - |version| - 4..] == version + ".tgz"
  {
    Scheme(cfg) + "://" + cfg.upstreamHost + "/" + name + "/-/" + name + "-" + version + ".tgz"
  }

  /** The error a response's status yields: none for 200, otherwise one whose code is the status. */
  function StatusError(status: int): (e: Option<Error>)
    ensures e.None? <==> status == 200
    ensures e.Some? ==> Code(e.value) == Some(status)
  {
    if status == 200 then None else Some(Upstream(status))
  }

  /** `getMeta`: fetch the package document and parse it. */
  function GetMeta(up: Registry, cfg: Config, name: string): (r: Result<Json, Error>)
    ensures MetaUrl(cfg, name) !in up.responses ==> r == Failure(Network)
    ensures r.Success? <==>
      (MetaUrl(cfg, name) in up.responses &&
       up.responses[MetaUrl(cfg, name)].status == 200 && up.responses[MetaUrl(cfg, name)].body.Doc?)
    ensures r.Success? ==> r.value == up.responses[MetaUrl(cfg, name)].body.doc
    ensures r.Failure? ==> r.error == Network || r.error.Upstream? || r.error == Malformed
    ensures MetaUrl(cfg, name) in up.responses && up.responses[MetaUrl(cfg, name)].status != 200 ==>
      r.Failure? && Code(r.error) == Some(up.responses[MetaUrl(cfg, name)].status)
  {
    var url := MetaUrl(cfg, name);
    if url !in up.responses then Failure(Network)
    else
      var resp := up.responses[url];
      match StatusError(resp.status)
      case Some(e) => Failure(e)
      case None => Parse(resp.body)
  }

  /** How a version prints when concatenated into a path: a missing one is `null`. */
  function VersionText(version: Option<string>): string {
    if version.Some? then version.value else "null"
  }

  /**
   * The error `getTarball` passes on: the directory that could not be made;
   * a target the write stream cannot open, whose unheard `'error'` event
   * throws; a failed request; or the status of the response.
   */
  function TarballError(up: Registry, refused: set<string>, cfg: Config, name: string, version: Option<string>)
    : (e: Option<Error>)
    ensures var target := Cache.TarballPath(cfg.cacheDir, name, VersionText(version));
      var url := TarballUrl(cfg, name, VersionText(version));
      var dir := Strings.Dirname(target);
      && (e.Some? && Throws(e.value) <==> dir !in refused && target in refused)
      && (e.None? <==> dir !in refused && target !in refused && url in up.responses && up.responses[url].status == 200)
      && (dir !in refused && target !in refused && url in up.responses && up.responses[url].status != 200 ==>
            e.Some? && Code(e.value) == Some(up.responses[url].status))
      && (e.Some? && Code(e.value) == Some(404) ==> url in up.responses && up.responses[url].status == 404)
  {
    var target := Cache.TarballPath(cfg.cacheDir, name, VersionText(version));
    var url := TarballUrl(cfg, name, VersionText(version));
    var dir := Strings.Dirname(target);
    if dir in refused then Some(IO(dir))
    else if target in refused then Some(Unhandled(target))
    else if url !in up.responses then Some(Network)
    else StatusError(up.responses[url].status)
  }

  /** The files `getTarball` leaves: an opened target holds the body, or nothing when the request failed. */
  function TarballFiles(files: map<string, File>, up: Registry, refused: set<string>, cfg: Config, name: string,
                        version: Option<string>, now: int): map<string, File> {
    var target := Cache.TarballPath(cfg.cacheDir, name, VersionText(version));
    var url := TarballUrl(cfg, name, VersionText(version));
    if Strings.Dirname(target) in refused || target in refused then files
    else if url !in up.responses then files[target := File(Raw([]), now)]
    else files[target := File(up.responses[url].body, now)]
  }

  /**
   * `getTarball`: make the tarball directory, open the target file (which
   * creates it), stream the response into it, and on success mark it valid
   * in the memo. The target path is passed back even on failure.
   */
  method GetTarball(up: Registry, fs: FileSystem, memo: AsyncCache, cfg: Config, name: string,
                    version: Option<string>, now: int) returns (err: Option<Error>, target: string)
    requires memo.Valid()
    modifies fs, memo
    ensures memo.Valid()
    ensures target == Cache.TarballPath(cfg.cacheDir, name, VersionText(version))
    ensures err == TarballError(up, fs.refused, cfg, name, version)
    ensures fs.files == TarballFiles(old(fs.files), up, fs.refused, cfg, name, version, now)
    ensures fs.dirs == Made(old(fs.dirs), fs.refused, Strings.Dirname(target))
    ensures err.None? ==> target in memo.entries && memo.entries[target] == Entry(Valid, now)
    ensures err.None? ==> Kept(old(memo.entries), memo.entries, target, memo.max)
    ensures err.Some? ==> memo.entries == old(memo.entries)
  {
    target := Cache.TarballPath(cfg.cacheDir, name, VersionText(version));
    var url := TarballUrl(cfg, name, VersionText(version));
    var made := fs.Mkdirp(Strings.Dirname(target));
    if made.Fail? { return Some(made.error), target; }
    if url !in up.responses {
      var created := fs.WriteFile(target, Raw([]), now);
      if created.Fail? { return Some(Unhandled(target)), target; }
      return Some(Network), target;
    }
    var resp := up.responses[url];
    var wrote := fs.WriteFile(target, resp.body, now);
    if wrote.Fail? { return Some(Unhandled(target)), target; }
    err := StatusError(resp.status);
    if err.None? {
      memo.Set(target, Valid, now);
    }
  }
}

/**
 * The request handlers (lib/handlers.js): how each handler reads the package
 * name and version out of the request URL, what it answers for each outcome
 * of the package operation, and the response object it writes to.
 */
module Handlers {
  import opened Types
  import opened Strings
  import opened Disk
  import opened Memo
  import Cache
  import Registry
  import Package

  // ---------------------------------------------------------------------
  // Reading the request URL

  /** The `name` and `version` a handler passes to the package constructor; `None` is `undefined`. */
  datatype Request = Request(name: Option<string>, version: Option<string>)

  /** `servePackageVersionMeta`: the first two non-empty `/` pieces of the URL. */
  function VersionRequest(url: string): (q: Request)
    ensures q.name.Some? ==> q.name.value != ""
    ensures q.version.Some? ==> q.name.Some? && q.version.value != ""
  {
    var pieces := Compact(SplitOn(url, "/"));
    Request(if |pieces| > 0 then Some(pieces[0]) else None,
            if |pieces| > 1 then Some(pieces[1]) else None)
  }

  /**
   * `servePackageTarball`: the text before the first `/-/`, its first `/`
   * removed, is the name; after it, the first `.tgz` and then the first
   * `<name>-` removed give the version.
   */
  function TarballRequest(url: string): (q: Request)
    ensures q.name.Some?
    ensures !Contains(url, "/-/") ==> q == Request(Some(ReplaceFirst(url, "/", "")), None)
  {
    var parts := SplitOn(url, "/-/");
    var name := ReplaceFirst(parts[0], "/", "");
    Request(Some(name),
            if |parts| > 1 then Some(ReplaceFirst(ReplaceFirst(parts[1], ".tgz", ""), name + "-", "")) else None)
  }

  /** A pattern holding a character the string lacks does not occur in it. */
  lemma AbsentChar(s: string, p: string, k: nat)
    requires k < |p| && p[k] !in s
    ensures !Contains(s, p)
  {
    forall j: nat | j <= |s| ensures !OccursAt(s, p, j) {
      if j + |p| <= |s| {
        assert s[j..j + |p|][k] == s[j + k];
        assert s[j + k] in s;
      }
    }
  }

  /** Removing the first `.tgz` from `u + ".tgz"`, when `u` holds none, leaves `u`. */
  lemma StripTgz(u: string)
    requires !Contains(u, ".tgz")
    ensures ReplaceFirst(u + ".tgz", ".tgz", "") == u
  {
    var s := u + ".tgz";
    assert s[|u|..] == ".tgz";
    assert OccursAt(s, ".tgz", |u|);
    forall j: nat | j < |u| ensures !OccursAt(s, ".tgz", j) {
      if j + 4 <= |u| {
        assert s[j..j + 4] == u[j..j + 4];
        assert !OccursAt(u, ".tgz", j);
      } else {
        assert s[|u|] == '.';
        assert ".tgz"[|u| - j] != '.';
      }
    }
    assert IndexOf(s, ".tgz") == Some(|u|);
    assert s[..|u|] == u;
  }

  /** In `/<n>/-/<w>` with `n` slash-free and not `-`, the first `/-/` is the one after `n`. */
  lemma FirstSeparator(url: string, n: string, w: string)
    requires url == "/" + n + "/-/" + w
    requires '/' !in n && n != "-"
    ensures IndexOf(url, "/-/") == Some(|n| + 1)
  {
    assert url[|n| + 1..|n| + 4] == "/-/";
    assert OccursAt(url, "/-/", |n| + 1);
    forall j: nat | j < |n| + 1 ensures !OccursAt(url, "/-/", j) {
      if 0 < j {
        assert url[j] == n[j - 1];
        assert n[j - 1] in n;
        assert url[j..j + 3][0] == url[j];
      } else if |n| == 0 {
        assert url[..3][1] == url[1] == '/';
      } else if |n| == 1 {
        assert url[1] == n[0];
        assert n == [n[0]];
        assert url[..3][1] == url[1];
      } else {
        assert url[2] == n[1];
        assert n[1] in n;
        assert url[..3][2] == url[2];
      }
    }
  }

  /** The `/-/` split of a tarball URL: the name part and the file part. */
  lemma TarballParts(url: string, n: string, w: string)
    requires url == "/" + n + "/-/" + w
    requires '/' !in n && n != "-" && '/' !in w
    ensures SplitOn(url, "/-/") == ["/" + n, w]
  {
    FirstSeparator(url, n, w);
    assert url == ("/" + n) + "/-/" + w;
    SplitAt("/" + n, "/-/", w);
    AbsentChar(w, "/-/", 0);
  }

  /** The tarball URL the registry documents point to gives back its name and version. */
  lemma TarballRequestRoundTrip(n: string, v: string)
    requires '/' !in n && '/' !in v && n != "-"
    requires !Contains(n + "-" + v, ".tgz")
    ensures TarballRequest("/" + n + "/-/" + n + "-" + v + ".tgz") == Request(Some(n), Some(v))
  {
    var u := n + "-" + v;
    var w := u + ".tgz";
    var url := "/" + n + "/-/" + n + "-" + v + ".tgz";
    assert url == "/" + n + "/-/" + w;
    assert '/' !in w;
    TarballParts(url, n, w);
    ReplaceFirstPrefix("/", n);
    StripTgz(u);
    ReplaceFirstPrefix(n + "-", v);
  }

  /** A URL without `/-/` names no version. */
  lemma TarballRequestWithoutSeparator(url: string)
    requires !Contains(url, "/-/")
    ensures TarballRequest(url).version.None?
  {
  }

  /** `/-/-/x.tgz`: the separator is found at index 0, so the name is empty. */
  lemma TarballRequestEmptyName()
    ensures TarballRequest("/-/-/x.tgz").name == Some("")
  {
    var url := "/-/-/x.tgz";
    IndexOfPrefix("/-/", "-/x.tgz");
    assert url == "" + "/-/" + "-/x.tgz";
    SplitAt("", "/-/", "-/x.tgz");
  }

  /** The `/` pieces of `/<t>/<rest>` for a slash-free `t`. */
  lemma LeadingPieces(url: string, t: string, rest: string)
    requires url == "/" + t + "/" + rest && '/' !in t
    ensures SplitOn(url, "/") == ["", t] + SplitOn(rest, "/")
  {
    assert url == "" + "/" + (t + "/" + rest);
    SplitSlash("", t + "/" + rest);
    SplitSlash(t, rest);
  }

  /** A string not starting with `/` has a non-empty first `/` piece. */
  lemma FirstPieceNonEmpty(rest: string)
    requires |rest| > 0 && rest[0] != '/'
    ensures SplitOn(rest, "/")[0] != ""
  {
    match IndexOf(rest, "/")
    case None =>
    case Some(i) =>
      assert i != 0 by {
        assert rest[..1][0] == rest[0];
      }
  }

  /** Compacting `["", t] + tail` when `t` and the head of `tail` are non-empty. */
  lemma CompactPieces(t: string, tail: seq<string>)
    requires t != "" && |tail| > 0 && tail[0] != ""
    ensures |Compact(["", t] + tail)| >= 2
    ensures Compact(["", t] + tail)[0] == t && Compact(["", t] + tail)[1] == tail[0]
  {
    CompactAppend(["", t], tail);
    assert Compact(["", t]) == [t] by {
      assert ["", t][1..] == [t];
      assert [t][1..] == [];
    }
    assert tail == [tail[0]] + tail[1..];
    CompactAppend([tail[0]], tail[1..]);
    assert Compact([tail[0]]) == [tail[0]] by {
      assert [tail[0]][1..] == [];
    }
  }

  /** A version request `/<t>/<rest>` with a slash-free `t` names `t` and the first `/` piece of `rest`. */
  lemma VersionRequestParts(url: string, t: string, rest: string)
    requires url == "/" + t + "/" + rest
    requires t != "" && '/' !in t
    requires |rest| > 0 && rest[0] != '/'
    ensures VersionRequest(url) == Request(Some(t), Some(SplitOn(rest, "/")[0]))
  {
    LeadingPieces(url, t, rest);
    FirstPieceNonEmpty(rest);
    CompactPieces(t, SplitOn(rest, "/"));
  }

  // ---------------------------------------------------------------------
  // Answers

  /** What a handler does with the response. */
  datatype Answer =
    | Serve(path: string)                // the static server sends this file, relative to the cache directory
    | NotFoundPage(url: Option<string>)  // 404, `Resource not found: <url>`
    | ErrorPage(err: Option<Error>)      // 500, the error reported
    | Proxied                            // the request is passed on to the registry unchanged
    | Crash                              // an exception escapes the handler; nothing is written

  /** `path.replace(cacheDir, '')`: the path the static server, rooted at the cache directory, is given. */
  function Relative(path: string, cacheDir: string): string {
    ReplaceFirst(path, cacheDir, "")
  }

  /** Every cache entry is served by its path below the cache directory. */
  lemma RelativeEntry(dir: string, id: Cache.EntryId)
    ensures Relative(Cache.PathOf(dir, id), dir) == Cache.PathOf("", id)
  {
    var rest := Cache.PathOf("", id);
    assert Cache.PathOf(dir, id) == dir + rest;
    ReplaceFirstPrefix(dir, rest);
  }

  /** How `undefined` prints after `'Resource not found: ' +`. */
  function UrlText(url: Option<string>): string {
    if url.Some? then url.value else "undefined"
  }

  /**
   * `servePackageMeta`: an error the package operation throws never reaches
   * it; a 404 error gives the not-found page (for `res.url`, which is
   * undefined); another error the error page.
   */
  function MetaAnswer(r: Result<string, Error>, cacheDir: string): (a: Answer)
    ensures a.Crash? <==> r.Failure? && Throws(r.error)
    ensures a.NotFoundPage? <==> r.Failure? && Code(r.error) == Some(404)
    ensures a.NotFoundPage? ==> a.url.None?
    ensures a.ErrorPage? <==> r.Failure? && !Throws(r.error) && Code(r.error) != Some(404)
    ensures a.ErrorPage? ==> a.err == Some(r.error)
    ensures r.Success? ==> a == Serve(Relative(r.value, cacheDir))
    ensures !a.Proxied?
  {
    match r
    case Failure(e) =>
      if Throws(e) then Crash else if Code(e) == Some(404) then NotFoundPage(None) else ErrorPage(Some(e))
    case Success(p) => Serve(Relative(p, cacheDir))
  }

  /**
   * `servePackageVersionMeta`: any error, or no path, gives the error page,
   * never a 404; an error the package operation throws never reaches it.
   */
  function VersionAnswer(r: Result<string, Error>, cacheDir: string): (a: Answer)
    ensures !a.NotFoundPage? && !a.Proxied?
    ensures a.Crash? <==> r.Failure? && Throws(r.error)
    ensures a.ErrorPage? <==> (r.Failure? && !Throws(r.error)) || r == Success("")
    ensures a.ErrorPage? && r.Failure? ==> a.err == Some(r.error)
    ensures r.Success? && r.value != "" ==> a == Serve(Relative(r.value, cacheDir))
  {
    match r
    case Failure(e) => if Throws(e) then Crash else ErrorPage(Some(e))
    case Success(p) => if p == "" then ErrorPage(None) else Serve(Relative(p, cacheDir))
  }

  /**
   * `serveLatestPackageMeta`: as `servePackageMeta`, except that an empty
   * path without an error reads `code` of a null error and throws.
   */
  function LatestAnswer(r: Result<string, Error>, cacheDir: string): (a: Answer)
    ensures a.Crash? <==> r == Success("") || (r.Failure? && Throws(r.error))
    ensures r != Success("") ==> a == MetaAnswer(r, cacheDir)
  {
    if r == Success("") then Crash else MetaAnswer(r, cacheDir)
  }

  /**
   * `servePackageTarball`: an error the package operation throws never
   * reaches the handler; a 404 error gives the not-found page for the request
   * URL; another error gives the error page only when no path came with it;
   * otherwise the path is served, even after an error.
   */
  function TarballAnswer(err: Option<Error>, path: Option<string>, url: string, cacheDir: string): (a: Answer)
    ensures a.NotFoundPage? <==> err.Some? && Code(err.value) == Some(404)
    ensures a.NotFoundPage? ==> a.url == Some(url)
    ensures a.ErrorPage? <==>
      err.Some? && !Throws(err.value) && Code(err.value) != Some(404) && (path.None? || path == Some(""))
    ensures a.ErrorPage? ==> a.err == err
    ensures a.Crash? <==> (err.Some? && Throws(err.value)) || (err.None? && path.None?)
    ensures a.Serve? <==>
      path.Some? && (err.None? || (!Throws(err.value) && Code(err.value) != Some(404) && path.value != ""))
    ensures a.Serve? ==> a.path == Relative(path.value, cacheDir)
    ensures !a.Proxied?
  {
    if err.Some? && Throws(err.value) then Crash
    else if err.Some? && Code(err.value) == Some(404) then NotFoundPage(Some(url))
    else if err.Some? && (path.None? || path == Some("")) then ErrorPage(err)
    else if path.None? then Crash
    else Serve(Relative(path.value, cacheDir))
  }

  /**
   * The whole-document answer, for a name: a valid cached document is
   * served at its path below the cache directory, and so is a fetched one
   * that was stored; the 404 page comes exactly from an upstream 404 on a
   * miss; the process crashes exactly when the fetched document is one the
   * tarball URL rewrite throws on, after its raw copy was written.
   */
  lemma MetaAnswerOutcome(hit: bool, up: Registry.Registry, cfg: Config, name: string, refused: set<string>)
    requires name != ""
    ensures var a := MetaAnswer(Package.MetaOutcome(hit, up, cfg, name, refused), cfg.cacheDir);
      var served := Serve(Cache.MetaPath("", name));
      var fetched := Registry.GetMeta(up, cfg, name);
      && (hit ==> a == served)
      && (hit || (fetched.Success? && Cache.StoreError(refused, cfg, name, fetched.value).None?) <==> a == served)
      && (a.NotFoundPage? <==> !hit && fetched == Failure(Upstream(404)))
      && (a.Serve? ==> a == served)
      && (a.Crash? <==>
            !hit && fetched.Success? && Cache.StoreError(refused, cfg, name, fetched.value) == Some(TypeError))
      && (a.Crash? ==> Cache.RewriteThrows(fetched.value))
      && !a.Proxied?
  {
    RelativeEntry(cfg.cacheDir, Cache.MetaId(name));
  }

  /** The registry's document for the package the whole URL names is one the tarball URL rewrite throws on. */
  predicate RewriteCrashes(url: string, up: Registry.Registry, cfg: Config) {
    var id := Construct(Request(Some(url), None));
    var fetched := if id.Success? then Registry.GetMeta(up, cfg, id.value.name) else Failure(NotFound);
    id.Success? && fetched.Success? && Cache.RewriteThrows(fetched.value)
  }

  /** The whole-document answer crashes only on a fetched document the rewrite throws on. */
  lemma MetaCrashes(url: string, hit: bool, up: Registry.Registry, cfg: Config, refused: set<string>)
    requires Construct(Request(Some(url), None)).Success?
    ensures var name := Construct(Request(Some(url), None)).value.name;
      MetaAnswer(Package.MetaOutcome(hit, up, cfg, name, refused), cfg.cacheDir).Crash? ==>
        RewriteCrashes(url, up, cfg)
  {
    var name := Construct(Request(Some(url), None)).value.name;
    if name != "" {
      MetaAnswerOutcome(hit, up, cfg, name, refused);
    }
  }

  /** The latest-version handler answers the whole-document handler's answer, since a stored path is never empty. */
  lemma LatestAnswerOutcome(hit: bool, up: Registry.Registry, cfg: Config, name: string, refused: set<string>)
    ensures var r := Package.MetaOutcome(hit, up, cfg, name, refused);
      LatestAnswer(r, cfg.cacheDir) == MetaAnswer(r, cfg.cacheDir)
  {
    var r := Package.MetaOutcome(hit, up, cfg, name, refused);
    if r.Success? {
      assert |Cache.MetaPath(cfg.cacheDir, name)| > 0;
    }
  }

  /**
   * The per-version answer on a valid cached document: a listed version
   * whose file can be written is served at the per-version path below the
   * cache directory; an unlisted version gets the error page, not a 404; a
   * document without `versions` throws.
   */
  lemma VersionAnswerOnHit(files: map<string, File>, refused: set<string>, up: Registry.Registry,
                           cfg: Config, id: Package.Ident, now: int)
    requires id.name != "" && Supplied(id.version)
    ensures var a := VersionAnswer(Package.VersionMetaOutcome(true, files, refused, up, cfg, id, now), cfg.cacheDir);
      var mp := Cache.MetaPath(cfg.cacheDir, id.name);
      var v := id.version.value;
      && (Package.StoredEntry(files, mp, v).Some? && Cache.VersionStoreError(refused, cfg, id.name, v).None? ==>
            a == Serve(Cache.MetaVersionPath("", id.name, v)))
      && (Package.ListsNot(files, mp, v) ==> a == ErrorPage(Some(NotFound)))
      && (a.Crash? <==> ReadDoc(files, mp).Success? && Package.VersionEntry(ReadDoc(files, mp).value, v).Failure?)
  {
    Package.VersionMetaOnHit(files, refused, up, cfg, id, now);
    RelativeEntry(cfg.cacheDir, Cache.VersionId(id.name, id.version.value));
    assert |Cache.MetaVersionPath(cfg.cacheDir, id.name, id.version.value)| > 0;
  }

  /**
   * The tarball answer on a miss: the 404 page for the request URL when the
   * registry answers 404, the tarball served below the cache directory when
   * it answers 200, and a throw when the target file cannot be opened.
   */
  lemma TarballAnswerOnMiss(metaHit: bool, files: map<string, File>, refused: set<string>,
                            up: Registry.Registry, cfg: Config, id: Package.Ident, now: int, url: string)
    requires id.name != ""
    ensures var a := TarballAnswer(Package.TarballOutcome(false, metaHit, files, refused, up, cfg, id, now).0,
                                   Package.TarballOutcome(false, metaHit, files, refused, up, cfg, id, now).1,
                                   url, cfg.cacheDir);
      var v := Registry.VersionText(id.version);
      var target := Cache.TarballPath(cfg.cacheDir, id.name, v);
      var up404 := Registry.TarballUrl(cfg, id.name, v) in up.responses &&
                   up.responses[Registry.TarballUrl(cfg, id.name, v)].status == 404;
      var up200 := Registry.TarballUrl(cfg, id.name, v) in up.responses &&
                   up.responses[Registry.TarballUrl(cfg, id.name, v)].status == 200;
      var canOpen := Dirname(target) !in refused && target !in refused;
      && (canOpen && up404 ==> a == NotFoundPage(Some(url)))
      && (a.NotFoundPage? ==> up404)
      && (canOpen && up200 ==> a == Serve(Cache.TarballPath("", id.name, v)))
      && (a.Crash? <==> Dirname(target) !in refused && target in refused)
  {
    Package.TarballOnMiss(false, metaHit, files, refused, up, cfg, id, now);
    RelativeEntry(cfg.cacheDir, Cache.TarballId(id.name, Registry.VersionText(id.version)));
    assert |Cache.TarballPath(cfg.cacheDir, id.name, Registry.VersionText(id.version))| > 0;
  }

  /**
   * The tarball answer on a valid cached tarball and document: served
   * below the cache directory exactly when the stored document lists the
   * version, the 404 page for the request URL exactly when it does not.
   */
  lemma TarballAnswerOnHit(files: map<string, File>, refused: set<string>, up: Registry.Registry,
                           cfg: Config, id: Package.Ident, now: int, url: string)
    requires id.name != "" && Supplied(id.version)
    ensures var a := TarballAnswer(Package.TarballOutcome(true, true, files, refused, up, cfg, id, now).0,
                                   Package.TarballOutcome(true, true, files, refused, up, cfg, id, now).1,
                                   url, cfg.cacheDir);
      var mp := Cache.MetaPath(cfg.cacheDir, id.name);
      && (Package.StoredEntry(files, mp, id.version.value).Some? <==>
            a == Serve(Cache.TarballPath("", id.name, id.version.value)))
      && (Package.ListsNot(files, mp, id.version.value) <==> a == NotFoundPage(Some(url)))
  {
    Package.TarballOnHit(files, refused, up, cfg, id, now);
    RelativeEntry(cfg.cacheDir, Cache.TarballId(id.name, id.version.value));
    assert |Cache.TarballPath(cfg.cacheDir, id.name, id.version.value)| > 0;
  }

  // ---------------------------------------------------------------------
  // The response

  /** The parts of Node's response object the handlers write. */
  class Response {
    var statusCode: int
    var ended: bool
    var text: string
    var reported: Option<Error>
    var served: Option<string>
    var proxied: bool

    constructor ()
      ensures Blank()
    {
      statusCode := 200;
      ended := false;
      text := "";
      reported := None;
      served := None;
      proxied := false;
    }

    /** A response nothing has been written to yet. */
    predicate Blank()
      reads this
    {
      statusCode == 200 && !ended && text == "" && reported.None? && served.None? && !proxied
    }

    /** The response holds exactly what the answer writes. */
    predicate Shows(a: Answer)
      reads this
    {
      match a
      case Serve(p) => statusCode == 200 && !ended && text == "" && reported.None? && served == Some(p) && !proxied
      case NotFoundPage(u) =>
        statusCode == 404 && ended && text == "Resource not found: " + UrlText(u) && reported.None? &&
        served.None? && !proxied
      case ErrorPage(e) => statusCode == 500 && ended && text == "" && reported == e && served.None? && !proxied
      case Proxied => statusCode == 200 && !ended && text == "" && reported.None? && served.None? && proxied
      case Crash => Blank()
    }
  }

  /** `notFound(req, res)`: status 404 and the message naming `req.url`. */
  method NotFoundReply(url: Option<string>, res: Response)
    modifies res
    ensures res.statusCode == 404 && res.ended && res.text == "Resource not found: " + UrlText(url)
    ensures res.reported == old(res.reported) && res.served == old(res.served) && res.proxied == old(res.proxied)
  {
    res.statusCode := 404;
    res.text := "Resource not found: " + UrlText(url);
    res.ended := true;
  }

  /** `internalErr(req, res, err)`: status 500, the error reported. */
  method InternalErr(err: Option<Error>, res: Response)
    modifies res
    ensures res.statusCode == 500 && res.ended && res.reported == err
    ensures res.text == old(res.text) && res.served == old(res.served) && res.proxied == old(res.proxied)
  {
    res.statusCode := 500;
    res.reported := err;
    res.ended := true;
  }

  /** `cache_server.serve(path, req, res)`: the static server takes over the response. */
  method ServeFile(path: string, res: Response)
    modifies res
    ensures res.served == Some(path)
    ensures res.statusCode == old(res.statusCode) && res.ended == old(res.ended) && res.text == old(res.text)
    ensures res.reported == old(res.reported) && res.proxied == old(res.proxied)
  {
    res.served := Some(path);
  }

  /** `registry.proxyUpstream(req, res)`: the request is piped to the registry. */
  method ProxyUpstream(res: Response)
    modifies res
    ensures res.proxied
    ensures res.statusCode == old(res.statusCode) && res.ended == old(res.ended) && res.text == old(res.text)
    ensures res.reported == old(res.reported) && res.served == old(res.served)
  {
    res.proxied := true;
  }

  /** Carry out an answer on a blank response. */
  method Reply(a: Answer, res: Response)
    requires res.Blank()
    modifies res
    ensures res.Shows(a)
  {
    match a
    case Serve(p) => ServeFile(p, res);
    case NotFoundPage(u) => NotFoundReply(u, res);
    case ErrorPage(e) => InternalErr(e, res);
    case Proxied => ProxyUpstream(res);
    case Crash =>
  }

  // ---------------------------------------------------------------------
  // The handlers

  /**
   * The package constructor's outcome for a request: the "Package name not
   * found" error exactly when no name is given, and a given version is kept.
   */
  function Construct(q: Request): (r: Result<Package.Ident, Error>)
    ensures r.Failure? <==> !Supplied(q.name)
    ensures r.Failure? ==> r.error == Missing("Package name not found")
    ensures Supplied(q.name) && Supplied(q.version) ==> r == Success(Package.Ident(q.name.value, q.version))
  {
    Package.SplitName(q.name, q.version)
  }

  /** What `servePackageMeta` answers, from the state before the request. */
  twostate function MetaHandled(url: string, fs: FileSystem, memo: AsyncCache, up: Registry.Registry, cfg: Config,
                                now: int): Answer
    reads fs, memo
  {
    var id := Construct(Request(Some(url), None));
    if id.Failure? then Crash
    else
      var hit := old(memo.Answer(fs.files, Cache.MetaPath(cfg.cacheDir, id.value.name), now)) == Valid;
      MetaAnswer(Package.MetaOutcome(hit, up, cfg, id.value.name, fs.refused), cfg.cacheDir)
  }

  /** What `serveLatestPackageMeta` answers, from the state before the request. */
  twostate function LatestHandled(url: string, fs: FileSystem, memo: AsyncCache, up: Registry.Registry, cfg: Config,
                                  now: int): Answer
    reads fs, memo
  {
    var id := Construct(Request(Some(url), None));
    if id.Failure? then Crash
    else
      var hit := old(memo.Answer(fs.files, Cache.MetaPath(cfg.cacheDir, id.value.name), now)) == Valid;
      LatestAnswer(Package.MetaOutcome(hit, up, cfg, id.value.name, fs.refused), cfg.cacheDir)
  }

  /** What `servePackageVersionMeta` answers, from the state before the request. */
  twostate function VersionHandled(url: string, fs: FileSystem, memo: AsyncCache, up: Registry.Registry, cfg: Config,
                                   now: int): Answer
    reads fs, memo
  {
    var id := Construct(VersionRequest(url));
    if id.Failure? then Crash
    else
      var hit := old(memo.Answer(fs.files, Cache.MetaPath(cfg.cacheDir, id.value.name), now)) == Valid;
      VersionAnswer(Package.VersionMetaOutcome(hit, old(fs.files), fs.refused, up, cfg, id.value, now),
                    cfg.cacheDir)
  }

  /**
   * What the corrected `servePackageTarball` answers, from the state before
   * the request and the memo's answer for the package document when asked.
   */
  twostate function TarballHandled(url: string, fs: FileSystem, memo: AsyncCache, up: Registry.Registry, cfg: Config,
                                   now: int, metaHit: bool): Answer
    reads fs, memo
  {
    var id := Construct(TarballRequest(url));
    if id.Failure? then ErrorPage(Some(id.error))
    else
      var tp := Cache.TarballPath(cfg.cacheDir, id.value.name, Cache.VersionOrEmpty(id.value.version));
      var tgzHit := old(memo.Answer(fs.files, tp, now)) == Valid;
      var r := Package.TarballOutcome(tgzHit, metaHit, old(fs.files), fs.refused, up, cfg, id.value, now);
      TarballAnswer(r.0, r.1, url, cfg.cacheDir)
  }

  /** No file, directory or memo entry changes. */
  twostate predicate Untouched(fs: FileSystem, memo: AsyncCache)
    reads fs, memo
  {
    fs.files == old(fs.files) && fs.dirs == old(fs.dirs) && memo.entries == old(memo.entries)
  }

  /**
   * The state the whole-document handlers leave: untouched when the package
   * cannot be constructed, otherwise as `getMeta` promises.
   */
  twostate predicate MetaServed(url: string, fs: FileSystem, memo: AsyncCache, up: Registry.Registry, cfg: Config,
                                now: int)
    reads fs, memo
  {
    var id := Construct(Request(Some(url), None));
    if id.Failure? then Untouched(fs, memo)
    else
      var hit := old(memo.Answer(fs.files, Cache.MetaPath(cfg.cacheDir, id.value.name), now)) == Valid;
      Package.MetaSpec(fs, memo, up, cfg, id.value.name, now,
                       Package.MetaOutcome(hit, up, cfg, id.value.name, fs.refused))
  }

  /** The state `servePackageVersionMeta` leaves: untouched, or as `getVersionMeta` promises. */
  twostate predicate VersionServed(url: string, fs: FileSystem, memo: AsyncCache, up: Registry.Registry, cfg: Config,
                                   now: int)
    reads fs, memo
  {
    var id := Construct(VersionRequest(url));
    if id.Failure? then Untouched(fs, memo)
    else
      var hit := old(memo.Answer(fs.files, Cache.MetaPath(cfg.cacheDir, id.value.name), now)) == Valid;
      Package.VersionSpec(fs, memo, up, cfg, id.value, now,
                          Package.VersionMetaOutcome(hit, old(fs.files), fs.refused, up, cfg, id.value, now))
  }

  /** The state `servePackageTarball` leaves: untouched, or as `getTarball` promises. */
  twostate predicate TarballServed(url: string, fs: FileSystem, memo: AsyncCache, up: Registry.Registry, cfg: Config,
                                   now: int, metaHit: bool, checked: map<string, Entry>)
    reads fs, memo
  {
    var id := Construct(TarballRequest(url));
    if id.Failure? then Untouched(fs, memo) && checked == old(memo.entries)
    else
      var tp := Cache.TarballPath(cfg.cacheDir, id.value.name, Cache.VersionOrEmpty(id.value.version));
      var tgzHit := old(memo.Answer(fs.files, tp, now)) == Valid;
      var r := Package.TarballOutcome(tgzHit, metaHit, old(fs.files), fs.refused, up, cfg, id.value, now);
      Package.TarballSpec(fs, memo, up, cfg, id.value, now, r.0, r.1, metaHit, checked)
  }

  /**
   * `servePackageMeta`: the package named by the whole URL, answered by
   * its document's path, or the not-found page when the registry answers
   * 404 on a miss.
   */
  method ServePackageMeta(url: string, res: Response, fs: FileSystem, memo: AsyncCache, up: Registry.Registry,
                          cfg: Config, now: int) returns (a: Answer)
    requires memo.Valid() && res.Blank()
    modifies res, fs, memo
    ensures memo.Valid() && res.Shows(a)
    ensures a == MetaHandled(url, fs, memo, up, cfg, now)
    ensures MetaServed(url, fs, memo, up, cfg, now)
    ensures old(fs.dirs) <= fs.dirs
    ensures a.Crash? ==> url == "" || RewriteCrashes(url, up, cfg)
  {
    var id := Construct(Request(Some(url), None));
    if id.Failure? { return Crash; }
    var pkg := new Package.Package(id.value, cfg);
    ghost var hit := memo.Answer(fs.files, Cache.MetaPath(cfg.cacheDir, id.value.name), now) == Valid;
    MetaCrashes(url, hit, up, cfg, fs.refused);
    var r := pkg.GetMeta(fs, memo, up, now);
    a := MetaAnswer(r, cfg.cacheDir);
    Reply(a, res);
  }

  /** `serveLatestPackageMeta`: as `servePackageMeta`, through `getLatestVersionMeta`. */
  method ServeLatestPackageMeta(url: string, res: Response, fs: FileSystem, memo: AsyncCache, up: Registry.Registry,
                                cfg: Config, now: int) returns (a: Answer)
    requires memo.Valid() && res.Blank()
    modifies res, fs, memo
    ensures memo.Valid() && res.Shows(a)
    ensures a == LatestHandled(url, fs, memo, up, cfg, now)
    ensures MetaServed(url, fs, memo, up, cfg, now)
    ensures old(fs.dirs) <= fs.dirs
    ensures a.Crash? ==> url == "" || RewriteCrashes(url, up, cfg)
  {
    var id := Construct(Request(Some(url), None));
    if id.Failure? { return Crash; }
    var pkg := new Package.Package(id.value, cfg);
    ghost var hit := memo.Answer(fs.files, Cache.MetaPath(cfg.cacheDir, id.value.name), now) == Valid;
    MetaCrashes(url, hit, up, cfg, fs.refused);
    LatestAnswerOutcome(hit, up, cfg, id.value.name, fs.refused);
    var r := pkg.GetLatestVersionMeta(fs, memo, up, now);
    a := LatestAnswer(r, cfg.cacheDir);
    Reply(a, res);
  }

  /** `servePackageVersionMeta`: the per-version document, or the error page. */
  method ServePackageVersionMeta(url: string, res: Response, fs: FileSystem, memo: AsyncCache, up: Registry.Registry,
                                 cfg: Config, now: int) returns (a: Answer)
    requires memo.Valid() && res.Blank()
    modifies res, fs, memo
    ensures memo.Valid() && res.Shows(a)
    ensures a == VersionHandled(url, fs, memo, up, cfg, now)
    ensures VersionServed(url, fs, memo, up, cfg, now)
    ensures old(fs.dirs) <= fs.dirs
    ensures !a.NotFoundPage? && !a.Proxied?
  {
    var id := Construct(VersionRequest(url));
    if id.Failure? { return Crash; }
    var pkg := new Package.Package(id.value, cfg);
    var r := pkg.GetVersionMeta(fs, memo, up, now);
    a := VersionAnswer(r, cfg.cacheDir);
    Reply(a, res);
  }

  /**
   * `servePackageTarball`, with a failed construction answered by the error
   * page: the tarball's path, the not-found page for a 404, or the error page.
   */
  method ServePackageTarball(url: string, res: Response, fs: FileSystem, memo: AsyncCache, up: Registry.Registry,
                             cfg: Config, now: int) returns (a: Answer, ghost metaHit: bool, ghost checked: map<string, Entry>)
    requires memo.Valid() && res.Blank()
    modifies res, fs, memo
    ensures memo.Valid() && res.Shows(a)
    ensures a == TarballHandled(url, fs, memo, up, cfg, now, metaHit)
    ensures TarballServed(url, fs, memo, up, cfg, now, metaHit, checked)
    ensures old(fs.dirs) <= fs.dirs
  {
    metaHit := false;
    checked := memo.entries;
    var id := Construct(TarballRequest(url));
    if id.Failure? {
      a := ErrorPage(Some(id.error));
      Reply(a, res);
      return;
    }
    var pkg := new Package.Package(id.value, cfg);
    var err, path;
    err, path, metaHit, checked := pkg.GetTarball(fs, memo, up, now);
    a := TarballAnswer(err, path, url, cfg.cacheDir);
    Reply(a, res);
  }

  /**
   * A tarball the memo holds as valid, of a package whose document the
   * memo also calls valid and which lists the version, is served from the
   * cache: the lookup of a held tarball evicts nothing, so `getMeta` finds
   * the document as it was.
   */
  twostate lemma CachedTarballServed(url: string, fs: FileSystem, memo: AsyncCache, up: Registry.Registry,
                                     cfg: Config, now: int, metaHit: bool, checked: map<string, Entry>)
    requires TarballServed(url, fs, memo, up, cfg, now, metaHit, checked)
    requires Construct(TarballRequest(url)).Success?
    requires var id := Construct(TarballRequest(url)).value;
      var mp := Cache.MetaPath(cfg.cacheDir, id.name);
      var tp := Cache.TarballPath(cfg.cacheDir, id.name, Cache.VersionOrEmpty(id.version));
      && id.name != "" && Supplied(id.version)
      && tp in old(memo.entries) && old(memo.Answer(fs.files, tp, now)) == Valid
      && old(memo.Answer(fs.files, mp, now)) == Valid
      && Package.StoredEntry(old(fs.files), mp, id.version.value).Some?
    ensures var id := Construct(TarballRequest(url)).value;
      TarballHandled(url, fs, memo, up, cfg, now, metaHit) == Serve(Cache.TarballPath("", id.name, id.version.value))
  {
    var id := Construct(TarballRequest(url)).value;
    TarballAnswerOnHit(old(fs.files), fs.refused, up, cfg, id, now, url);
  }

  /**
   * The tarball handler as the source has it: a failed construction returns
   * an Error object, and calling its missing `getTarball` throws before the
   * package operation starts; otherwise it answers as the corrected handler.
   */
  function TarballAsWritten(url: string, corrected: Answer): (a: Answer)
    ensures Construct(TarballRequest(url)).Failure? ==> a == Crash
    ensures Construct(TarballRequest(url)).Success? ==> a == corrected
  {
    if Construct(TarballRequest(url)).Failure? then Crash else corrected
  }

  /**
   * Where construction fails, the handler as written throws whatever the
   * corrected one would answer, and the error it drops is the missing name.
   */
  lemma CorrectedTarballAnswersError(url: string, corrected: Answer)
    requires Construct(TarballRequest(url)).Failure?
    ensures TarballAsWritten(url, corrected) == Crash
    ensures Construct(TarballRequest(url)).error == Missing("Package name not found")
  {
  }

  /** There the corrected handler answers the error page for the missing name instead of throwing. */
  twostate lemma CorrectedTarballErrorPage(url: string, fs: FileSystem, memo: AsyncCache, up: Registry.Registry,
                                           cfg: Config, now: int, metaHit: bool)
    requires Construct(TarballRequest(url)).Failure?
    ensures TarballHandled(url, fs, memo, up, cfg, now, metaHit) == ErrorPage(Some(Missing("Package name not found")))
    ensures TarballAsWritten(url, TarballHandled(url, fs, memo, up, cfg, now, metaHit)) == Crash
  {
    CorrectedTarballAnswersError(url, TarballHandled(url, fs, memo, up, cfg, now, metaHit));
  }
}

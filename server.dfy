/**
 * The dispatcher (server.js): the five URL patterns tried in order, the
 * loader and bounds of the freshness memo, and `serveRequest`.
 */
module Server {
  import opened Types
  import opened Strings
  import opened Patterns
  import opened Disk
  import opened Memo
  import Cache
  import Registry
  import Package
  import Handlers

  // ---------------------------------------------------------------------
  // The URL patterns

  /** A URL starting with `/`: the token up to the next `/`, and what follows that `/`, if any. */
  datatype Segments = Segments(token: string, after: Option<string>)

  function Head(url: string): (h: Option<Segments>)
    ensures h.Some? ==> '/' !in h.value.token
  {
    if |url| == 0 || url[0] != '/' then None
    else
      var r := url[1..];
      match IndexOf(r, "/")
      case None =>
        CharFreeOf(r);
        Some(Segments(r, None))
      case Some(i) =>
        FirstSlashFree(r, i);
        Some(Segments(r[..i], Some(r[i + 1..])))
  }

  /** A string in which `/` does not occur as a pattern holds no `/`. */
  lemma CharFreeOf(r: string)
    requires !Contains(r, "/")
    ensures '/' !in r
  {
    if '/' in r {
      var k :| 0 <= k < |r| && r[k] == '/';
      CharContained(r, '/', k);
    }
  }

  /** The text before the first `/` holds no `/`. */
  lemma FirstSlashFree(r: string, i: nat)
    requires IndexOf(r, "/") == Some(i)
    ensures '/' !in r[..i]
  {
    if '/' in r[..i] {
      var k :| 0 <= k < i && r[..i][k] == '/';
      assert r[k..k + 1] == "/";
      assert OccursAt(r, "/", k);
    }
  }

  /** `url` is `/<t>/<rest>` for a token `t` without `/`. */
  predicate Pair(url: string, t: string, rest: string) {
    '/' !in t && url == "/" + t + "/" + rest
  }

  /** `^\/[_-\w.]+?\/latest\/?$`: `/<name>/latest`, with or without a final `/`. */
  predicate IsLatestRoute(url: string): (b: bool)
    ensures b ==> exists t, rest :: Pair(url, t, rest) && NameToken(t) && (rest == "latest" || rest == "latest/")
  {
    match Head(url)
    case Some(Segments(t, Some(rest))) =>
      HeadSplits(url);
      assert Pair(url, t, rest);
      NameToken(t) && (rest == "latest" || rest == "latest/")
    case _ => false
  }

  /** `^\/[_-\w.]+?\/[0-9]+\.[0-9]+\.[0-9]+`: `/<name>/` followed by a dotted triple of digits. */
  predicate IsVersionRoute(url: string): (b: bool)
    ensures b ==> exists t, rest :: Pair(url, t, rest) && NameToken(t) && SemverAt(rest, 0)
  {
    match Head(url)
    case Some(Segments(t, Some(rest))) =>
      HeadSplits(url);
      assert Pair(url, t, rest);
      NameToken(t) && SemverAt(rest, 0)
    case _ => false
  }

  /** `\/-\/all\/.*`, anywhere in the URL; never a whole-document URL. */
  predicate IsListAllRoute(url: string): (b: bool)
    ensures b ==> !IsMetaRoute(url)
  {
    MetaLacksListing(url);
    Contains(url, "/-/all/")
  }

  /** `^\/[_-\w.]+?\/-\/.*\.tgz`: `/<name>/-/` followed by text holding `.tgz`. */
  predicate IsTarballRoute(url: string): (b: bool)
    ensures b ==> exists t, rest :: Pair(url, t, "-/" + rest) && NameToken(t) && Contains(rest, ".tgz")
  {
    match Head(url)
    case Some(Segments(t, Some(rest))) =>
      HeadSplits(url);
      assert |rest| >= 2 && rest[..2] == "-/" ==> rest == "-/" + rest[2..] && Pair(url, t, "-/" + rest[2..]);
      NameToken(t) && |rest| >= 2 && rest[..2] == "-/" && Contains(rest[2..], ".tgz")
    case _ => false
  }

  /** `^\/[_-\w.]+?$`: exactly `/` followed by a name token. */
  predicate IsMetaRoute(url: string): (b: bool)
    ensures b <==> |url| > 0 && url[0] == '/' && '/' !in url[1..] && NameToken(url[1..])
  {
    SingleHead(url);
    match Head(url)
    case Some(Segments(t, None)) => NameToken(t)
    case _ => false
  }

  /** A `/` followed by text without `/` has that text as its only token. */
  lemma SingleHead(url: string)
    ensures |url| > 0 && url[0] == '/' && '/' !in url[1..] ==> Head(url) == Some(Segments(url[1..], None))
  {
    if |url| > 0 && url[0] == '/' && '/' !in url[1..] {
      assert url == "/" + url[1..];
      HeadOfSingle(url, url[1..]);
    }
  }

  /** A whole-document URL has a single `/`, so the listing pattern cannot occur in it. */
  lemma MetaLacksListing(url: string)
    ensures IsMetaRoute(url) ==> !Contains(url, "/-/all/")
  {
    if IsMetaRoute(url) {
      assert url == "/" + url[1..];
      SingleTokenLacks(url, "/-/all/", 2, url[1..]);
    }
  }

  datatype Route = LatestMeta | VersionMeta | ListAll | Tarball | PackageMeta | Fallback

  /** `serveRequest`'s choice of handler: the first pattern that matches. */
  function RouteOf(url: string): (r: Route)
    ensures r == LatestMeta <==> IsLatestRoute(url)
    ensures r == Fallback <==>
      !IsLatestRoute(url) && !IsVersionRoute(url) && !IsListAllRoute(url) && !IsTarballRoute(url) && !IsMetaRoute(url)
  {
    if IsLatestRoute(url) then LatestMeta
    else if IsVersionRoute(url) then VersionMeta
    else if IsListAllRoute(url) then ListAll
    else if IsTarballRoute(url) then Tarball
    else if IsMetaRoute(url) then PackageMeta
    else Fallback
  }

  // ---------------------------------------------------------------------
  // Route lemmas

  /** `/<t>/<rest>` with a slash-free `t` has the token `t` and the rest `rest`. */
  lemma HeadOfPair(url: string, t: string, rest: string)
    requires url == "/" + t + "/" + rest && '/' !in t
    ensures Head(url) == Some(Segments(t, Some(rest)))
  {
    var r := url[1..];
    assert r == t + "/" + rest;
    IndexOfCharAfter(t, '/', rest);
    assert r[..|t|] == t;
    assert r[|t| + 1..] == rest;
  }

  /** `/<t>` with a slash-free `t` has the token `t` and nothing after it. */
  lemma HeadOfSingle(url: string, t: string)
    requires url == "/" + t && '/' !in t
    ensures Head(url) == Some(Segments(t, None))
  {
    assert url[1..] == t;
    NoSingleChar(t, '/');
  }

  /** A latest URL is never a version URL: `l` is not a digit, so testing latest first loses nothing. */
  lemma LatestIsNotVersion(url: string)
    requires IsLatestRoute(url)
    ensures !IsVersionRoute(url)
  {
    var rest := Head(url).value.after.value;
    assert rest[0] == 'l';
  }

  /** `/<t>` for a name token `t` is the whole-document route. */
  lemma MetaRouteOf(t: string)
    requires NameToken(t)
    ensures RouteOf("/" + t) == PackageMeta
  {
    var url := "/" + t;
    HeadOfSingle(url, t);
    SingleTokenLacks(url, "/-/all/", 2, t);
  }

  /** The pattern `/-/all/` needs a `/` at its index 2, which `/<t>` lacks for a slash-free `t`. */
  lemma SingleTokenLacks(url: string, p: string, k: nat, t: string)
    requires url == "/" + t && '/' !in t
    requires |p| > k > 0 && p[0] == '/' && p[k] == '/'
    ensures !Contains(url, p)
  {
    forall j: nat | j <= |url| ensures !OccursAt(url, p, j) {
      if j + |p| <= |url| {
        assert url[j..j + |p|][0] == url[j];
        assert url[j..j + |p|][k] == url[j + k];
        if j == 0 {
          assert url[k] == t[k - 1];
          assert t[k - 1] in t;
        } else {
          assert url[j] == t[j - 1];
          assert t[j - 1] in t;
        }
      }
    }
  }

  /** `/<t>/latest` for a name token `t` is the latest route. */
  lemma LatestRouteOf(t: string)
    requires NameToken(t)
    ensures RouteOf("/" + t + "/latest") == LatestMeta
  {
    HeadOfPair("/" + t + "/latest", t, "latest");
  }

  /** A URL with a token and a rest is `/<token>/<rest>`. */
  lemma HeadSplits(url: string)
    requires Head(url).Some? && Head(url).value.after.Some?
    ensures url == "/" + Head(url).value.token + "/" + Head(url).value.after.value
  {
    var r := url[1..];
    var i := IndexOf(r, "/").value;
    assert r[i..i + 1] == "/";
    assert r == r[..i] + "/" + r[i + 1..];
  }

  /**
   * The three patterns that start with a name token, stated in both
   * directions: a URL matches exactly when it is `/<t>/<rest>` of the shape
   * the pattern describes.
   */
  lemma RoutePatterns(url: string)
    ensures IsLatestRoute(url) <==>
      exists t, rest :: Pair(url, t, rest) && NameToken(t) && (rest == "latest" || rest == "latest/")
    ensures IsVersionRoute(url) <==> exists t, rest :: Pair(url, t, rest) && NameToken(t) && SemverAt(rest, 0)
    ensures IsTarballRoute(url) <==>
      exists t, rest :: Pair(url, t, "-/" + rest) && NameToken(t) && Contains(rest, ".tgz")
  {
    if exists t, rest :: Pair(url, t, rest) && NameToken(t) && (rest == "latest" || rest == "latest/") {
      var t, rest :| Pair(url, t, rest) && NameToken(t) && (rest == "latest" || rest == "latest/");
      HeadOfPair(url, t, rest);
    }
    if exists t, rest :: Pair(url, t, rest) && NameToken(t) && SemverAt(rest, 0) {
      var t, rest :| Pair(url, t, rest) && NameToken(t) && SemverAt(rest, 0);
      HeadOfPair(url, t, rest);
    }
    if exists t, rest :: Pair(url, t, "-/" + rest) && NameToken(t) && Contains(rest, ".tgz") {
      var t, rest :| Pair(url, t, "-/" + rest) && NameToken(t) && Contains(rest, ".tgz");
      HeadOfPair(url, t, "-/" + rest);
      assert ("-/" + rest)[..2] == "-/" && ("-/" + rest)[2..] == rest;
    }
  }

  /** A URL routed to the version handler names its first token as package and a non-empty version. */
  lemma VersionRouteNames(url: string)
    requires RouteOf(url) == VersionMeta
    ensures var t := Head(url).value.token;
      var rest := Head(url).value.after.value;
      && Handlers.VersionRequest(url) == Handlers.Request(Some(t), Some(SplitOn(rest, "/")[0]))
      && Handlers.Construct(Handlers.VersionRequest(url)) ==
           Success(Package.Ident(t, Some(SplitOn(rest, "/")[0])))
  {
    var t := Head(url).value.token;
    var rest := Head(url).value.after.value;
    HeadSplits(url);
    assert IsDigit(rest[0]);
    Handlers.VersionRequestParts(url, t, rest);
    Package.SplitNameKeepsGivenVersion(t, SplitOn(rest, "/")[0]);
  }

  /** The only slashes of `/<n>/-/<w>`, for slash-free `n` and `w`, are at 0, after `n`, and after `-`. */
  lemma TarballSlashes(url: string, n: string, w: string)
    requires url == "/" + n + "/-/" + w && '/' !in n && '/' !in w
    ensures forall k :: 0 <= k < |url| && url[k] == '/' ==> k == 0 || k == |n| + 1 || k == |n| + 3
  {
    forall k | 1 <= k < |n| + 1 ensures url[k] != '/' {
      assert url[k] == n[k - 1];
    }
    forall k | |n| + 3 < k < |url| ensures url[k] != '/' {
      assert url[k] == w[k - |n| - 4];
    }
    assert url[|n| + 2] == '-';
  }

  /** A tarball URL has no `/-/all/`: that pattern needs slashes four apart past a gap of two. */
  lemma TarballNotListAll(url: string, n: string, w: string)
    requires url == "/" + n + "/-/" + w && '/' !in n && '/' !in w
    ensures !IsListAllRoute(url)
  {
    TarballSlashes(url, n, w);
    forall j: nat | j <= |url| ensures !OccursAt(url, "/-/all/", j) {
      if j + 7 <= |url| {
        assert url[j..j + 7][0] == url[j];
        assert url[j..j + 7][2] == url[j + 2];
        assert url[j..j + 7][6] == url[j + 6];
      }
    }
  }

  /** Name characters exclude `/`. */
  lemma TokenSlashFree(t: string)
    requires NameToken(t)
    ensures '/' !in t
  {
    forall k | 0 <= k < |t| ensures t[k] != '/' {
      assert NameChar(t[k]);
    }
  }

  /** `/<n>/-/<w>` with `w` ending in `.tgz` takes the tarball route. */
  lemma TarballRouteOf(url: string, n: string, w: string)
    requires url == "/" + n + "/-/" + w && NameToken(n) && '/' !in w
    requires |w| >= 4 && w[|w| - 4..] == ".tgz"
    ensures RouteOf(url) == Tarball
  {
    TokenSlashFree(n);
    var rest := "-/" + w;
    assert url == "/" + n + "/" + rest;
    HeadOfPair(url, n, rest);
    assert rest[..2] == "-/" && rest[2..] == w;
    assert OccursAt(w, ".tgz", |w| - 4);
    assert DigitRun(rest, 0) == 0;
    TarballNotListAll(url, n, w);
  }

  /**
   * The tarball URL of a registry document, `/<n>/-/<n>-<v>.tgz`, reaches the
   * tarball handler, which reads `n` and `v` back out of it.
   */
  lemma TarballRouteNames(url: string, n: string, v: string)
    requires NameToken(n) && NameToken(v) && n != "-"
    requires !Contains(n + "-" + v, ".tgz")
    requires url == "/" + n + "/-/" + n + "-" + v + ".tgz"
    ensures RouteOf(url) == Tarball
    ensures Handlers.Construct(Handlers.TarballRequest(url)) == Success(Package.Ident(n, Some(v)))
  {
    var w := n + "-" + v + ".tgz";
    TokenSlashFree(n);
    TokenSlashFree(v);
    assert url == "/" + n + "/-/" + w;
    assert w[|w| - 4..] == ".tgz";
    TarballRouteOf(url, n, w);
    Handlers.TarballRequestRoundTrip(n, v);
  }

  /** The URL `/-/-/x.tgz` is routed to the tarball handler. */
  lemma EmptyNameTarballRoute()
    ensures RouteOf("/-/-/x.tgz") == Tarball
  {
    var n, w := "-", "x.tgz";
    assert NameChar(n[0]);
    assert "/-/-/x.tgz" == "/" + n + "/-/" + w;
    assert w[|w| - 4..] == ".tgz";
    TarballRouteOf("/-/-/x.tgz", n, w);
  }

  /**
   * The source's tarball handler throws for `/-/-/x.tgz`: the route admits
   * it, the name read from it is empty, and the constructor's Error object
   * has no `getTarball`.
   */
  lemma TarballCrashInput(corrected: Handlers.Answer)
    ensures RouteOf("/-/-/x.tgz") == Tarball
    ensures Handlers.TarballRequest("/-/-/x.tgz").name == Some("")
    ensures Handlers.TarballAsWritten("/-/-/x.tgz", corrected) == Handlers.Crash
  {
    EmptyNameTarballRoute();
    Handlers.TarballRequestEmptyName();
  }

  // ---------------------------------------------------------------------
  // The freshness memo

  /** The `fsStats` loader: a file that exists and has not expired is valid; anything else does not exist. */
  function Load(cfg: Config, files: map<string, File>, path: string, now: int): (f: Freshness)
    ensures f == Valid <==> Cache.DiskExpired(cfg, files, path, now) == Success(false)
    ensures f == NotExist <==> path !in files || Cache.DiskExpired(cfg, files, path, now) == Success(true)
  {
    if path !in files then NotExist
    else match Cache.DiskExpired(cfg, files, path, now)
      case Success(expired) => if !expired then Valid else NotExist
      case Failure(_) => NotExist
  }

  /** The loader never answers Expired, and agrees with the tri-state classification otherwise. */
  lemma LoadCollapsesExpired(cfg: Config, files: map<string, File>, path: string, now: int)
    ensures Load(cfg, files, path, now) != Expired
    ensures Load(cfg, files, path, now) == (if Cache.Classify(cfg, files, path, now) == Valid then Valid else NotExist)
  {
  }

  /** `fsStats`: at most 5000 entries, each served for `cacheExpiry` milliseconds, loaded by `Load`. */
  method MakeFsStats(cfg: Config) returns (memo: AsyncCache)
    ensures fresh(memo) && memo.Valid()
    ensures memo.max == MemoMax && memo.maxAge == cfg.cacheExpiry && memo.entries == map[]
    ensures forall files, path, now :: memo.load(files, path, now) == Load(cfg, files, path, now)
  {
    memo := new AsyncCache(MemoMax, cfg.cacheExpiry, (files, path, now) => Load(cfg, files, path, now));
  }

  /** A memo built by `MakeFsStats` never holds more than 5000 entries. */
  lemma MemoBound(memo: AsyncCache)
    requires memo.Valid() && memo.max == MemoMax
    ensures |memo.entries| <= 5000
  {
  }

  // ---------------------------------------------------------------------
  // serveRequest

  /** The incoming request: its URL and headers. */
  class HttpRequest {
    var url: string
    var headers: map<string, string>

    constructor (url: string, headers: map<string, string>)
      ensures this.url == url && this.headers == headers
    {
      this.url := url;
      this.headers := headers;
    }
  }

  /**
   * `serveRequest`: overwrite the `host` header with the upstream host, then
   * hand the request to the first matching handler, or proxy it upstream.
   */
  method ServeRequest(req: HttpRequest, res: Handlers.Response, fs: FileSystem, memo: AsyncCache,
                      up: Registry.Registry, cfg: Config, now: int)
    returns (a: Handlers.Answer, ghost metaHit: bool, ghost checked: map<string, Entry>)
    requires memo.Valid() && res.Blank()
    modifies req, res, fs, memo
    ensures memo.Valid() && res.Shows(a)
    ensures req.headers == old(req.headers)["host" := cfg.upstreamHost] && req.url == old(req.url)
    ensures Routed(req.url, a, fs, memo, up, cfg, now, metaHit, checked)
  {
    req.headers := req.headers["host" := cfg.upstreamHost];
    a, metaHit, checked := Dispatch(req.url, res, fs, memo, up, cfg, now);
  }

  /**
   * What `serveRequest` promises of the route `url` takes: the request is
   * proxied exactly on the listing route or when no pattern matches, and
   * then nothing on disk or in the memo changes; every other route answers
   * as its handler does and leaves the state its handler leaves; a throw
   * comes only from the version and tarball routes or from the rewrite of a
   * fetched document; a version request never gets the 404 page; and no
   * directory is ever removed.
   */
  twostate predicate Routed(url: string, a: Handlers.Answer, fs: FileSystem, memo: AsyncCache,
                            up: Registry.Registry, cfg: Config, now: int, metaHit: bool, checked: map<string, Entry>)
    reads fs, memo
  {
    && (a.Proxied? <==> RouteOf(url) == ListAll || RouteOf(url) == Fallback)
    && (RouteOf(url) == PackageMeta ==> a == Handlers.MetaHandled(url, fs, memo, up, cfg, now))
    && (RouteOf(url) == LatestMeta ==> a == Handlers.LatestHandled(url, fs, memo, up, cfg, now))
    && (RouteOf(url) == VersionMeta ==> a == Handlers.VersionHandled(url, fs, memo, up, cfg, now))
    && (RouteOf(url) == Tarball ==> a == Handlers.TarballHandled(url, fs, memo, up, cfg, now, metaHit))
    && (a.Crash? ==> RouteOf(url) == VersionMeta || RouteOf(url) == Tarball || Handlers.RewriteCrashes(url, up, cfg))
    && (RouteOf(url) == VersionMeta ==> !a.NotFoundPage?)
    && (a.Proxied? ==> Handlers.Untouched(fs, memo))
    && old(fs.dirs) <= fs.dirs
    && (RouteOf(url) == PackageMeta || RouteOf(url) == LatestMeta ==> Handlers.MetaServed(url, fs, memo, up, cfg, now))
    && (RouteOf(url) == VersionMeta ==> Handlers.VersionServed(url, fs, memo, up, cfg, now))
    && (RouteOf(url) == Tarball ==> Handlers.TarballServed(url, fs, memo, up, cfg, now, metaHit, checked))
  }

  /** The dispatch `serveRequest` makes once the header is set: the first route `url` matches picks the handler. */
  method Dispatch(url: string, res: Handlers.Response, fs: FileSystem, memo: AsyncCache,
                  up: Registry.Registry, cfg: Config, now: int)
    returns (a: Handlers.Answer, ghost metaHit: bool, ghost checked: map<string, Entry>)
    requires memo.Valid() && res.Blank()
    modifies res, fs, memo
    ensures memo.Valid() && res.Shows(a)
    ensures Routed(url, a, fs, memo, up, cfg, now, metaHit, checked)
  {
    metaHit := false;
    checked := memo.entries;
    match RouteOf(url)
    case LatestMeta =>
      a := Handlers.ServeLatestPackageMeta(url, res, fs, memo, up, cfg, now);
    case VersionMeta =>
      VersionRouteNames(url);
      a := Handlers.ServePackageVersionMeta(url, res, fs, memo, up, cfg, now);
    case ListAll =>
      a := Handlers.Proxied;
      Handlers.ProxyUpstream(res);
    case Tarball =>
      a, metaHit, checked := Handlers.ServePackageTarball(url, res, fs, memo, up, cfg, now);
    case PackageMeta =>
      a := Handlers.ServePackageMeta(url, res, fs, memo, up, cfg, now);
    case Fallback =>
      a := Handlers.Proxied;
      Handlers.ProxyUpstream(res);
  }
}

/**
 * The disk cache (lib/cache.js): where each cached artifact lives, whether a
 * cached file has expired, which path `validate` checks, the rewriting of
 * tarball URLs to point at the mirror, and the writes of metadata files.
 */
module Cache {
  import opened Types
  import opened Strings
  import opened Disk
  import opened Memo

  // ---------------------------------------------------------------------
  // Paths

  const MetaFolder := "meta"
  const TgzFolder := "tgz"

  /** `Path.join(dir, name, folder, file)`, without normalisation. */
  function EntryPath(dir: string, name: string, folder: string, file: string): string {
    dir + "/" + name + "/" + folder + "/" + file
  }

  /** `getMetaPath`: `<dir>/<name>/meta/<name>.json`. */
  function MetaPath(dir: string, name: string): string {
    EntryPath(dir, name, MetaFolder, name + ".json")
  }

  /** The raw copy `setMeta` writes first: the meta path with `.orig` appended. */
  function OrigPath(dir: string, name: string): string {
    MetaPath(dir, name) + ".orig"
  }

  /** `getMetaVersionPath`: `<dir>/<name>/meta/<name>-<version>.json`. */
  function MetaVersionPath(dir: string, name: string, version: string): string {
    EntryPath(dir, name, MetaFolder, name + "-" + version + ".json")
  }

  /** `getTarballPath`: `<dir>/<name>/tgz/<name>-<version>.tgz`. */
  function TarballPath(dir: string, name: string, version: string): string {
    EntryPath(dir, name, TgzFolder, name + "-" + version + ".tgz")
  }

  /**
   * The package document lies in the package's meta directory, which
   * `setMeta` makes first, and so does the raw copy written beside it.
   */
  lemma MetaPathDirectory(dir: string, name: string)
    ensures '/' !in name ==> Dirname(MetaPath(dir, name)) == dir + "/" + name + "/" + MetaFolder
    ensures Dirname(OrigPath(dir, name)) == Dirname(MetaPath(dir, name))
  {
    DirnameOfJoin(dir + "/" + name + "/" + MetaFolder, name + ".json");
    var path := MetaPath(dir, name);
    assert path[|path| - 1] == 'n';
    DirnameAppend(path, ".orig");
  }

  /** The per-version document lies beside the package document, in the directory `setMetaVersion` makes. */
  lemma VersionPathDirectory(dir: string, name: string, version: string)
    ensures '/' !in name && '/' !in version ==>
      Dirname(MetaVersionPath(dir, name, version)) == Dirname(MetaPath(dir, name))
  {
    DirnameOfJoin(dir + "/" + name + "/" + MetaFolder, name + ".json");
    DirnameOfJoin(dir + "/" + name + "/" + MetaFolder, name + "-" + version + ".json");
  }

  /** A tarball lies in the package's tarball directory, which the registry download makes. */
  lemma TarballPathDirectory(dir: string, name: string, version: string)
    ensures '/' !in name && '/' !in version ==>
      Dirname(TarballPath(dir, name, version)) == dir + "/" + name + "/" + TgzFolder
  {
    DirnameOfJoin(dir + "/" + name + "/" + TgzFolder, name + "-" + version + ".tgz");
  }

  /** The four kinds of cache entry, each a function of its name and version. */
  datatype EntryId =
    | MetaId(name: string)
    | OrigId(name: string)
    | VersionId(name: string, version: string)
    | TarballId(name: string, version: string)

  function PathOf(dir: string, id: EntryId): string {
    match id
    case MetaId(n) => MetaPath(dir, n)
    case OrigId(n) => OrigPath(dir, n)
    case VersionId(n, v) => MetaVersionPath(dir, n, v)
    case TarballId(n, v) => TarballPath(dir, n, v)
  }

  /** Two strings cut at their first `/` agree on both sides of it. */
  lemma SlashCut(a: string, r: string, b: string, s: string)
    requires '/' !in a && '/' !in b
    requires a + "/" + r == b + "/" + s
    ensures a == b && r == s
  {
    var x := a + "/" + r;
    IndexOfCharAfter(a, '/', r);
    IndexOfCharAfter(b, '/', s);
    assert a == x[..|a|] == b;
    assert r == x[|a| + 1..] == s;
  }

  /** Within one cache directory, a path determines its package name, folder and file name. */
  lemma EntryPathInjective(dir: string, n: string, f: string, x: string, n': string, f': string, x': string)
    requires '/' !in n && '/' !in n' && '/' !in f && '/' !in f'
    requires EntryPath(dir, n, f, x) == EntryPath(dir, n', f', x')
    ensures n == n' && f == f' && x == x'
  {
    var p := EntryPath(dir, n, f, x);
    var k := |dir| + 1;
    assert p == (dir + "/") + (n + "/" + (f + "/" + x));
    assert p == (dir + "/") + (n' + "/" + (f' + "/" + x'));
    assert p[k..] == n + "/" + (f + "/" + x);
    assert p[k..] == n' + "/" + (f' + "/" + x');
    SlashCut(n, f + "/" + x, n', f' + "/" + x');
    SlashCut(f, x, f', x');
  }

  /**
   * Path derivation is collision-free: for package names without `/`,
   * distinct cache entries never share a path.
   */
  lemma PathOfInjective(dir: string, a: EntryId, b: EntryId)
    requires '/' !in a.name && '/' !in b.name
    requires PathOf(dir, a) == PathOf(dir, b)
    ensures a == b
  {
    var pa, pb := PathOf(dir, a), PathOf(dir, b);
    if a.TarballId? || b.TarballId? {
      // the tarball folder is the only `tgz` folder; its file names end in `.tgz`
      assert pa[|pa| - 1] == pb[|pb| - 1];
      if a.TarballId? && b.TarballId? {
        EntryPathInjective(dir, a.name, TgzFolder, a.name + "-" + a.version + ".tgz",
                           b.name, TgzFolder, b.name + "-" + b.version + ".tgz");
        VersionedFileInjective(a.name, a.version, b.version, ".tgz");
      }
    } else if a.OrigId? || b.OrigId? {
      // only the raw copy's name ends in `g`
      assert pa[|pa| - 1] == pb[|pb| - 1];
      if a.OrigId? && b.OrigId? {
        assert MetaPath(dir, a.name) == pa[..|pa| - 5] == MetaPath(dir, b.name);
        EntryPathInjective(dir, a.name, MetaFolder, a.name + ".json", b.name, MetaFolder, b.name + ".json");
      }
    } else {
      var xa := if a.MetaId? then a.name + ".json" else a.name + "-" + a.version + ".json";
      var xb := if b.MetaId? then b.name + ".json" else b.name + "-" + b.version + ".json";
      EntryPathInjective(dir, a.name, MetaFolder, xa, b.name, MetaFolder, xb);
      if a.VersionId? && b.VersionId? {
        VersionedFileInjective(a.name, a.version, b.version, ".json");
      }
    }
  }

  lemma VersionedFileInjective(n: string, v: string, v': string, ext: string)
    requires n + "-" + v + ext == n + "-" + v' + ext
    ensures v == v'
  {
    var x := n + "-" + v + ext;
    assert v == x[|n| + 1..|n| + 1 + |v|];
    assert v' == x[|n| + 1..|n| + 1 + |v'|];
  }

  // ---------------------------------------------------------------------
  // Freshness

  /** `diskExpired`: a stat of the file, then `now - mtime >= cacheExpiry`. */
  function DiskExpired(cfg: Config, files: map<string, File>, path: string, now: int): (r: Result<bool, Error>)
    ensures r.Failure? <==> path !in files
    ensures r.Success? ==> (r.value <==> now - files[path].mtime >= cfg.cacheExpiry)
  {
    if path !in files then Failure(IO(path))
    else Success(now - files[path].mtime >= cfg.cacheExpiry)
  }

  /** A file aged `cacheExpiry - 1` is not expired; one aged `cacheExpiry` is. */
  lemma ExpiryBoundary(cfg: Config, files: map<string, File>, path: string, now: int)
    requires path in files
    ensures now - files[path].mtime == cfg.cacheExpiry - 1 ==> DiskExpired(cfg, files, path, now) == Success(false)
    ensures now - files[path].mtime == cfg.cacheExpiry ==> DiskExpired(cfg, files, path, now) == Success(true)
  {
  }

  /** The tri-state freshness of a path: absent, expired or valid. */
  function Classify(cfg: Config, files: map<string, File>, path: string, now: int): (f: Freshness)
    ensures f == NotExist <==> path !in files
    ensures f == Expired <==> DiskExpired(cfg, files, path, now) == Success(true)
    ensures f == Valid <==> DiskExpired(cfg, files, path, now) == Success(false)
  {
    if path !in files then NotExist
    else if now - files[path].mtime >= cfg.cacheExpiry then Expired
    else Valid
  }

  // ---------------------------------------------------------------------
  // validate

  /** The version `validate` uses: a missing one becomes the empty string. */
  function VersionOrEmpty(version: Option<string>): string {
    if Supplied(version) then version.value else ""
  }

  /** The checks `validate` makes and the path it then asks the memo about. */
  function ValidatePath(cfg: Config, kind: Option<string>, name: Option<string>, version: Option<string>): (r: Result<string, Error>)
    ensures !Supplied(kind) ==> r == Failure(Missing("Type not supplied"))
    ensures Supplied(kind) && !Supplied(name) ==> r == Failure(Missing("Name not supplied"))
    ensures Supplied(kind) && Supplied(name) && KindOf(kind.value).None? ==> r == Failure(UnknownType(kind.value))
    ensures Supplied(name) && kind == Some("meta") ==> r == Success(MetaPath(cfg.cacheDir, name.value))
    ensures Supplied(name) && kind == Some("tgz") ==> r == Success(TarballPath(cfg.cacheDir, name.value, VersionOrEmpty(version)))
  {
    if !Supplied(kind) then Failure(Missing("Type not supplied"))
    else if !Supplied(name) then Failure(Missing("Name not supplied"))
    else match KindOf(kind.value)
      case Some(Meta) => Success(MetaPath(cfg.cacheDir, name.value))
      case Some(Tgz) => Success(TarballPath(cfg.cacheDir, name.value, VersionOrEmpty(version)))
      case None => Failure(UnknownType(kind.value))
  }

  /** `validate`: the argument checks, then `fsStats.get(path)`. */
  method Validate(memo: AsyncCache, fs: FileSystem, cfg: Config, kind: Option<string>, name: Option<string>,
                  version: Option<string>, now: int) returns (r: Result<Freshness, Error>)
    requires memo.Valid()
    modifies memo
    ensures memo.Valid()
    ensures ValidatePath(cfg, kind, name, version).Failure? ==>
      r == Failure(ValidatePath(cfg, kind, name, version).error) && memo.entries == old(memo.entries)
    ensures ValidatePath(cfg, kind, name, version).Success? ==>
      r == Success(old(memo.Answer(fs.files, ValidatePath(cfg, kind, name, version).value, now)))
    ensures ValidatePath(cfg, kind, name, version).Success? ==>
      Kept(old(memo.entries), memo.entries, ValidatePath(cfg, kind, name, version).value, memo.max)
    ensures ValidatePath(cfg, kind, name, version).Success? ==>
      var path := ValidatePath(cfg, kind, name, version).value;
      path in memo.entries && memo.entries[path].value == r.value
    ensures ValidatePath(cfg, kind, name, version).Success? ==>
      var path := ValidatePath(cfg, kind, name, version).value;
      && (old(memo.Fresh(path, now)) ==> memo.entries == old(memo.entries))
      && (!old(memo.Fresh(path, now)) && (path in old(memo.entries) || |old(memo.entries)| < memo.max) ==>
            memo.entries == old(memo.entries)[path := Entry(r.value, now)])
  {
    match ValidatePath(cfg, kind, name, version)
    case Failure(e) =>
      r := Failure(e);
    case Success(path) =>
      var f := memo.Get(fs.files, path, now);
      r := Success(f);
  }

  // ---------------------------------------------------------------------
  // Tarball URL rewriting

  /** The parts of a parsed URL the rewriting touches; `rest` is path, query and hash. */
  datatype Url = Url(protocol: string, hostname: string, port: string, rest: string)

  /** `Url.parse`, reduced to scheme, host name, port and the rest. */
  function ParseUrl(s: string): Url {
    match IndexOf(s, "://")
    case None => Url("", "", "", s)
    case Some(i) => ParseAfterScheme(s[..i + 1], s[i + 3..])
  }

  /** What follows `scheme://`: the authority up to the first `/`, then the rest. */
  function ParseAfterScheme(protocol: string, after: string): Url {
    match IndexOf(after, "/")
    case None => ParseAuthority(protocol, after, "")
    case Some(j) => ParseAuthority(protocol, after[..j], after[j..])
  }

  /** An authority split at its first `:` into host name and port. */
  function ParseAuthority(protocol: string, auth: string, rest: string): Url {
    match IndexOf(auth, ":")
    case None => Url(protocol, auth, "", rest)
    case Some(k) => Url(protocol, auth[..k], auth[k + 1..], rest)
  }

  /** `Url.format`'s rule for a path after a host: it must start with `/`. */
  function Slashed(rest: string): string {
    if rest != "" && rest[0] != '/' then "/" + rest else rest
  }

  /** `Url.format` with `host` cleared: a protocol without its colon gets one. */
  function FormatUrl(u: Url): string {
    var protocol := if u.protocol != "" && u.protocol[|u.protocol| - 1] != ':' then u.protocol + ":" else u.protocol;
    protocol + "//" + u.hostname + (if u.port != "" then ":" + u.port else "") + Slashed(u.rest)
  }

  /** The mirror's own protocol, as `overrrideTarballUrls` spells it. */
  function MirrorProtocol(cfg: Config): string {
    if cfg.httpsEnabled then "https:" else "http"
  }

  /** A tarball URL moved onto the mirror's host, port and protocol. */
  function RewriteUrl(cfg: Config, s: string): string {
    FormatUrl(Url(MirrorProtocol(cfg), cfg.serverAddress, cfg.realExternalPort, ParseUrl(s).rest))
  }

  /** The mirror's address is one the URL syntax can carry unambiguously. */
  predicate PlainAddress(cfg: Config) {
    ':' !in cfg.serverAddress && '/' !in cfg.serverAddress && '/' !in cfg.realExternalPort && cfg.realExternalPort != ""
  }

  /** A pattern whose first character does not occur in `a` is first found right after `a`. */
  lemma IndexOfAfter(a: string, p: string, b: string)
    requires p != [] && p[0] !in a
    ensures IndexOf(a + p + b, p) == Some(|a|)
  {
    var s := a + p + b;
    assert s[|a|..|a| + |p|] == p;
    assert OccursAt(s, p, |a|);
    forall j: nat | j < |a| ensures !OccursAt(s, p, j) {
      assert s[j..j + |p|][0] == a[j];
      assert a[j] in a;
    }
  }

  /** The path part after an authority without `/` is found at the authority's end. */
  lemma SplitAuthority(auth: string, rest: string)
    requires '/' !in auth
    requires rest == "" || rest[0] == '/'
    ensures IndexOf(auth + rest, "/") == if rest == "" then None else Some(|auth|)
  {
    if rest == "" {
      assert auth + rest == auth;
      NoSingleChar(auth, '/');
    } else {
      assert auth + rest == auth + "/" + rest[1..];
      IndexOfCharAfter(auth, '/', rest[1..]);
    }
  }

  /** Parsing `scheme://auth rest` for a scheme without `:` and an authority without `/`. */
  lemma ParseUrlParts(scheme: string, auth: string, rest: string)
    requires ':' !in scheme && '/' !in auth
    requires rest == "" || rest[0] == '/'
    ensures ParseUrl(scheme + "://" + auth + rest) == ParseAuthority(scheme + ":", auth, rest)
  {
    var after := auth + rest;
    var t := scheme + "://" + after;
    assert t == scheme + "://" + auth + rest;
    IndexOfAfter(scheme, "://", after);
    assert t[|scheme| + 3..] == after;
    assert t[..|scheme| + 1] == scheme + ":";
    assert ParseUrl(t) == ParseAfterScheme(scheme + ":", after);
    SplitAuthority(auth, rest);
    if rest != "" {
      assert after[..|auth|] == auth;
      assert after[|auth|..] == rest;
    } else {
      assert after == auth;
    }
  }

  /** `host:port` splits back into host and port when the host has no `:`. */
  lemma SplitHostPort(host: string, port: string)
    requires ':' !in host
    ensures IndexOf(host + ":" + port, ":") == Some(|host|)
    ensures (host + ":" + port)[..|host|] == host && (host + ":" + port)[|host| + 1..] == port
  {
    IndexOfCharAfter(host, ':', port);
  }

  /**
   * Rewriting changes exactly the protocol, host name and port: parsing the
   * rewritten URL gives the mirror's protocol, host and port and the
   * original's path.
   */
  lemma RewriteUrlParses(cfg: Config, s: string)
    requires PlainAddress(cfg)
    ensures ParseUrl(RewriteUrl(cfg, s)) ==
      Url(if cfg.httpsEnabled then "https:" else "http:", cfg.serverAddress, cfg.realExternalPort, Slashed(ParseUrl(s).rest))
  {
    var scheme := if cfg.httpsEnabled then "https" else "http";
    var host, port, rest := cfg.serverAddress, cfg.realExternalPort, Slashed(ParseUrl(s).rest);
    var auth := host + ":" + port;
    assert MirrorProtocol(cfg) == scheme + ":" || MirrorProtocol(cfg) == scheme;
    assert RewriteUrl(cfg, s) == scheme + "://" + auth + rest;
    assert '/' !in auth;
    ParseUrlParts(scheme, auth, rest);
    SplitHostPort(host, port);
  }

  /** Every rewritten URL carries `serverAddress:realExternalPort`. */
  lemma RewriteUrlPointsToMirror(cfg: Config, s: string)
    requires cfg.realExternalPort != ""
    ensures Contains(RewriteUrl(cfg, s), cfg.serverAddress + ":" + cfg.realExternalPort)
  {
    var scheme := if cfg.httpsEnabled then "https:" else "http:";
    var hp := cfg.serverAddress + ":" + cfg.realExternalPort;
    var t := RewriteUrl(cfg, s);
    var i := |scheme| + 2;
    assert t == (scheme + "//") + hp + Slashed(ParseUrl(s).rest);
    assert t[i..i + |hp|] == hp;
    assert OccursAt(t, hp, i);
  }

  /** A URL already pointing at the mirror is left as it is. */
  lemma RewriteUrlIdempotent(cfg: Config, s: string)
    requires PlainAddress(cfg)
    ensures RewriteUrl(cfg, RewriteUrl(cfg, s)) == RewriteUrl(cfg, s)
  {
    RewriteUrlParses(cfg, s);
    var rest := ParseUrl(s).rest;
    assert Slashed(Slashed(rest)) == Slashed(rest);
  }

  /** `ver.dist && ver.dist.tarball`, for a tarball URL string. */
  predicate HasTarball(ver: Json) {
    && ver.JObj? && "dist" in ver.members
    && ver.members["dist"].JObj? && "tarball" in ver.members["dist"].members
    && ver.members["dist"].members["tarball"].JStr?
    && ver.members["dist"].members["tarball"].s != ""
  }

  function TarballOf(ver: Json): string
    requires HasTarball(ver)
  {
    ver.members["dist"].members["tarball"].s
  }

  /** One version entry with its `dist.tarball` moved onto the mirror. */
  function RewriteVersion(cfg: Config, ver: Json): (r: Json)
    ensures !HasTarball(ver) ==> r == ver
    ensures HasTarball(ver) ==> HasTarball(r) && TarballOf(r) == RewriteUrl(cfg, TarballOf(ver))
    ensures HasTarball(ver) ==> r.members.Keys == ver.members.Keys
    ensures HasTarball(ver) ==> forall k :: k in ver.members && k != "dist" ==> r.members[k] == ver.members[k]
    ensures HasTarball(ver) ==> r.members["dist"].members.Keys == ver.members["dist"].members.Keys
    ensures HasTarball(ver) ==> forall k :: k in ver.members["dist"].members && k != "tarball" ==>
      r.members["dist"].members[k] == ver.members["dist"].members[k]
  {
    if HasTarball(ver) then
      var dist := ver.members["dist"].members;
      JObj(ver.members["dist" := JObj(dist["tarball" := JStr(RewriteUrl(cfg, TarballOf(ver)))])])
    else ver
  }

  /**
   * A version entry `changeDistUrl` throws on: `null`, whose `dist` cannot
   * be read, or one whose truthy `dist.tarball` is not a string, which
   * `Url.parse` rejects.
   */
  predicate VersionThrows(ver: Json) {
    || ver.JNull?
    || (&& ver.JObj? && "dist" in ver.members
        && ver.members["dist"].JObj? && "tarball" in ver.members["dist"].members
        && !ver.members["dist"].members["tarball"].JStr?
        && Truthy(Some(ver.members["dist"].members["tarball"])))
  }

  /** Every element of an array-valued `versions`, rewritten. */
  function RewriteAll(cfg: Config, es: seq<Json>): (r: seq<Json>)
    ensures |r| == |es| && forall i :: 0 <= i < |es| ==> r[i] == RewriteVersion(cfg, es[i])
  {
    seq(|es|, i requires 0 <= i < |es| => RewriteVersion(cfg, es[i]))
  }

  /**
   * The document `overrrideTarballUrls` produces: every entry that
   * `Object.keys(pkgJson.versions)` visits is rewritten, for an object's
   * members and for an array's elements alike; any other `versions` has no
   * entries with a `dist`.
   */
  function RewriteDoc(cfg: Config, doc: Json): (r: Json)
    ensures r.JObj? <==> doc.JObj?
    ensures doc.JObj? ==> r.members.Keys == doc.members.Keys
    ensures doc.JObj? ==> forall k :: k in doc.members && k != "versions" ==> r.members[k] == doc.members[k]
    ensures !doc.JObj? ==> r == doc
  {
    if doc.JObj? && "versions" in doc.members then
      match doc.members["versions"]
      case JObj(vs) => JObj(doc.members["versions" := JObj(map k | k in vs :: RewriteVersion(cfg, vs[k]))])
      case JArr(es) => JObj(doc.members["versions" := JArr(RewriteAll(cfg, es))])
      case _ => doc
    else doc
  }

  /**
   * `overrrideTarballUrls` throws: reading `versions` of a `null` document,
   * or an entry it visits that `changeDistUrl` throws on.
   */
  predicate RewriteThrows(doc: Json) {
    || doc.JNull?
    || (&& doc.JObj? && "versions" in doc.members
        && match doc.members["versions"]
           case JObj(vs) => exists k :: k in vs && VersionThrows(vs[k])
           case JArr(es) => exists i :: 0 <= i < |es| && VersionThrows(es[i])
           case _ => false)
  }

  /** What `overrrideTarballUrls` yields: the rewritten document, or the `TypeError` it throws. */
  function Rewrite(cfg: Config, doc: Json): (r: Result<Json, Error>)
    ensures r.Failure? ==> r == Failure(TypeError)
    ensures doc.JNull? ==> r.Failure?
    ensures r.Success? ==> r.value.JObj? == doc.JObj? && (doc.JObj? ==> r.value.members.Keys == doc.members.Keys)
    ensures doc.JObj? && "versions" !in doc.members ==> r == Success(doc)
  {
    if RewriteThrows(doc) then Failure(TypeError) else Success(RewriteDoc(cfg, doc))
  }

  /**
   * `overrrideTarballUrls`: the per-key loop of `Async.each` over
   * `Object.keys(pkgJson.versions)`, rewriting each entry in turn; an entry
   * that throws ends it.
   */
  method OverrideTarballUrls(cfg: Config, doc: Json) returns (r: Result<Json, Error>)
    ensures r == Rewrite(cfg, doc)
  {
    if doc.JNull? { return Failure(TypeError); }
    if !(doc.JObj? && "versions" in doc.members) { return Success(doc); }
    match doc.members["versions"]
    case JObj(vs) =>
      var out := RewriteMembers(cfg, vs);
      if out.Failure? { return Failure(TypeError); }
      r := Success(JObj(doc.members["versions" := JObj(out.value)]));
    case JArr(es) =>
      var out := RewriteElements(cfg, es);
      if out.Failure? { return Failure(TypeError); }
      r := Success(JObj(doc.members["versions" := JArr(out.value)]));
    case _ =>
      r := Success(doc);
  }

  /** The loop over an object-valued `versions`. */
  method RewriteMembers(cfg: Config, vs: map<string, Json>) returns (r: Result<map<string, Json>, Error>)
    ensures r.Failure? <==> exists k :: k in vs && VersionThrows(vs[k])
    ensures r.Success? ==> r.value == map k | k in vs :: RewriteVersion(cfg, vs[k])
  {
    var acc := vs;
    var todo := vs.Keys;
    while todo != {}
      invariant todo <= vs.Keys && acc.Keys == vs.Keys
      invariant forall k :: k in vs ==> acc[k] == if k in todo then vs[k] else RewriteVersion(cfg, vs[k])
      invariant forall k :: k in vs && k !in todo ==> !VersionThrows(vs[k])
      decreases todo
    {
      var k :| k in todo;
      if VersionThrows(acc[k]) { return Failure(TypeError); }
      acc := acc[k := RewriteVersion(cfg, acc[k])];
      todo := todo - {k};
    }
    assert acc == map k | k in vs :: RewriteVersion(cfg, vs[k]);
    r := Success(acc);
  }

  /** The loop over an array-valued `versions`, in index order. */
  method RewriteElements(cfg: Config, es: seq<Json>) returns (r: Result<seq<Json>, Error>)
    ensures r.Failure? <==> exists i :: 0 <= i < |es| && VersionThrows(es[i])
    ensures r.Success? ==> r.value == RewriteAll(cfg, es)
  {
    var acc := es;
    for i := 0 to |es|
      invariant |acc| == |es|
      invariant forall j :: 0 <= j < |es| ==> acc[j] == if j < i then RewriteVersion(cfg, es[j]) else es[j]
      invariant forall j :: 0 <= j < i ==> !VersionThrows(es[j])
    {
      if VersionThrows(acc[i]) { return Failure(TypeError); }
      acc := acc[i := RewriteVersion(cfg, acc[i])];
    }
    assert acc == RewriteAll(cfg, es);
    r := Success(acc);
  }

  /** `pkgJson.versions` is an object or an array, whose entries `Object.keys` visits. */
  predicate HasEntries(doc: Json) {
    doc.JObj? && "versions" in doc.members && (doc.members["versions"].JObj? || doc.members["versions"].JArr?)
  }

  /**
   * A document whose `versions` is neither an object nor an array is
   * returned unchanged, except `null`, whose `versions` cannot be read.
   */
  lemma RewriteDocWithoutVersions(cfg: Config, doc: Json)
    requires !HasEntries(doc)
    ensures RewriteDoc(cfg, doc) == doc
    ensures Rewrite(cfg, doc) == if doc.JNull? then Failure(TypeError) else Success(doc)
  {
  }

  /**
   * For an object-valued `versions`: the rewritten document keeps every
   * member and every version; versions without a tarball URL are unchanged,
   * and each tarball URL in it points at the mirror; the rewrite throws
   * exactly when some version throws.
   */
  lemma RewriteDocPointsToMirror(cfg: Config, doc: Json)
    requires cfg.realExternalPort != ""
    requires doc.JObj? && "versions" in doc.members && doc.members["versions"].JObj?
    ensures var out := RewriteDoc(cfg, doc);
      && out.JObj? && out.members.Keys == doc.members.Keys
      && (forall k :: k in doc.members && k != "versions" ==> out.members[k] == doc.members[k])
      && out.members["versions"].JObj?
      && out.members["versions"].members.Keys == doc.members["versions"].members.Keys
      && (forall v :: v in doc.members["versions"].members && !HasTarball(doc.members["versions"].members[v]) ==>
            out.members["versions"].members[v] == doc.members["versions"].members[v])
      && (forall v :: v in out.members["versions"].members && HasTarball(out.members["versions"].members[v]) ==>
            Contains(TarballOf(out.members["versions"].members[v]), cfg.serverAddress + ":" + cfg.realExternalPort))
    ensures Rewrite(cfg, doc).Failure? <==>
      exists v :: v in doc.members["versions"].members && VersionThrows(doc.members["versions"].members[v])
  {
    var vs := doc.members["versions"].members;
    var out := RewriteDoc(cfg, doc);
    forall v | v in vs && HasTarball(out.members["versions"].members[v])
      ensures Contains(TarballOf(out.members["versions"].members[v]), cfg.serverAddress + ":" + cfg.realExternalPort)
    {
      // an entry without a tarball URL is unchanged, so it has none afterwards either
      if HasTarball(vs[v]) {
        RewriteUrlPointsToMirror(cfg, TarballOf(vs[v]));
      }
    }
  }

  /**
   * For an array-valued `versions`: the same, element by element; the
   * array keeps its length.
   */
  lemma RewriteArrayPointsToMirror(cfg: Config, doc: Json)
    requires cfg.realExternalPort != ""
    requires doc.JObj? && "versions" in doc.members && doc.members["versions"].JArr?
    ensures var out := RewriteDoc(cfg, doc);
      var es := doc.members["versions"].elems;
      && out.JObj? && out.members.Keys == doc.members.Keys
      && (forall k :: k in doc.members && k != "versions" ==> out.members[k] == doc.members[k])
      && out.members["versions"].JArr? && |out.members["versions"].elems| == |es|
      && (forall i :: 0 <= i < |es| && !HasTarball(es[i]) ==> out.members["versions"].elems[i] == es[i])
      && (forall i :: 0 <= i < |es| && HasTarball(out.members["versions"].elems[i]) ==>
            Contains(TarballOf(out.members["versions"].elems[i]), cfg.serverAddress + ":" + cfg.realExternalPort))
    ensures Rewrite(cfg, doc).Failure? <==>
      exists i :: 0 <= i < |doc.members["versions"].elems| && VersionThrows(doc.members["versions"].elems[i])
  {
    var es := doc.members["versions"].elems;
    var out := RewriteDoc(cfg, doc).members["versions"].elems;
    forall i | 0 <= i < |es| && HasTarball(out[i])
      ensures Contains(TarballOf(out[i]), cfg.serverAddress + ":" + cfg.realExternalPort)
    {
      if HasTarball(es[i]) {
        RewriteUrlPointsToMirror(cfg, TarballOf(es[i]));
      }
    }
  }

  /** Rewriting a version entry twice gives what rewriting it once gives. */
  lemma RewriteVersionIdempotent(cfg: Config, ver: Json)
    requires PlainAddress(cfg)
    ensures RewriteVersion(cfg, RewriteVersion(cfg, ver)) == RewriteVersion(cfg, ver)
  {
    if HasTarball(ver) {
      var once := RewriteVersion(cfg, ver);
      RewriteUrlIdempotent(cfg, TarballOf(ver));
      var d := ver.members["dist"].members;
      var d1 := once.members["dist"].members;
      assert d1 == d["tarball" := JStr(RewriteUrl(cfg, TarballOf(ver)))];
      assert d1["tarball" := JStr(RewriteUrl(cfg, TarballOf(once)))] == d1;
    }
  }

  /** Rewriting a document twice gives what rewriting it once gives. */
  lemma RewriteDocIdempotent(cfg: Config, doc: Json)
    requires PlainAddress(cfg)
    ensures RewriteDoc(cfg, RewriteDoc(cfg, doc)) == RewriteDoc(cfg, doc)
  {
    if doc.JObj? && "versions" in doc.members {
      var once := RewriteDoc(cfg, doc);
      match doc.members["versions"]
      case JObj(vs) =>
        var vs1 := once.members["versions"].members;
        forall v | v in vs1 ensures RewriteVersion(cfg, vs1[v]) == vs1[v] {
          RewriteVersionIdempotent(cfg, vs[v]);
        }
        assert (map k | k in vs1 :: RewriteVersion(cfg, vs1[k])) == vs1;
        assert once.members["versions" := JObj(vs1)] == once.members;
      case JArr(es) =>
        var es1 := once.members["versions"].elems;
        forall i | 0 <= i < |es1| ensures RewriteVersion(cfg, es1[i]) == es1[i] {
          RewriteVersionIdempotent(cfg, es[i]);
        }
        assert RewriteAll(cfg, es1) == es1;
        assert once.members["versions" := JArr(es1)] == once.members;
      case _ =>
    }
  }

  // ---------------------------------------------------------------------
  // Writes and the path wrappers

  /**
   * The step `setMeta` stops at: the directory, the raw `.orig` copy or the
   * document itself, each an I/O error, or the rewrite of `meta`, which
   * throws; `None` when every step succeeds.
   */
  function StoreError(refused: set<string>, cfg: Config, name: string, meta: Json): Option<Error> {
    var path := MetaPath(cfg.cacheDir, name);
    var dir := Dirname(path);
    var orig := path + ".orig";
    if dir in refused then Some(IO(dir))
    else if orig in refused then Some(IO(orig))
    else if RewriteThrows(meta) then Some(TypeError)
    else if path in refused then Some(IO(path))
    else None
  }

  /** The files `setMeta` leaves: the raw copy once its write succeeds, then the rewritten document. */
  function StoredFiles(files: map<string, File>, refused: set<string>, cfg: Config, name: string,
                       meta: Json, now: int): map<string, File> {
    var path := MetaPath(cfg.cacheDir, name);
    var dir := Dirname(path);
    var orig := path + ".orig";
    if dir in refused || orig in refused then files
    else if RewriteThrows(meta) || path in refused then files[orig := File(Doc(meta), now)]
    else files[orig := File(Doc(meta), now)][path := File(Doc(RewriteDoc(cfg, meta)), now)]
  }

  /** `setMeta` touches no file but the raw copy and the document, and adds no other. */
  lemma StoredFilesFrame(files: map<string, File>, refused: set<string>, cfg: Config,
                         name: string, meta: Json, now: int)
    ensures var after := StoredFiles(files, refused, cfg, name, meta, now);
      var path := MetaPath(cfg.cacheDir, name);
      && after.Keys <= files.Keys + {path, path + ".orig"}
      && (forall p :: p in files && p != path && p != path + ".orig" ==> p in after && after[p] == files[p])
  {
  }

  /**
   * When `setMeta` succeeds, the document holds the rewritten metadata and
   * the raw copy the metadata as fetched; when the rewrite or the last write
   * fails, the raw copy is still written and the document is untouched; an
   * earlier failure changes no file.
   */
  lemma StoredFilesWritten(files: map<string, File>, refused: set<string>, cfg: Config,
                           name: string, meta: Json, now: int)
    ensures var after := StoredFiles(files, refused, cfg, name, meta, now);
      var path := MetaPath(cfg.cacheDir, name);
      var orig := path + ".orig";
      var e := StoreError(refused, cfg, name, meta);
      && (e.None? ==>
            path in after && after[path] == File(Doc(RewriteDoc(cfg, meta)), now) &&
            orig in after && after[orig] == File(Doc(meta), now))
      && ((e == Some(IO(path)) && Dirname(path) !in refused) || e == Some(TypeError) ==>
            orig in after && after[orig] == File(Doc(meta), now) &&
            (path in after <==> path in files) && (path in files ==> after[path] == files[path]))
      && (e.Some? && e != Some(IO(path)) && e != Some(TypeError) ==> after == files)
  {
    var path := MetaPath(cfg.cacheDir, name);
    assert |path| < |path + ".orig"|;
  }

  /**
   * `setMeta`: make the meta directory, write the raw document to the
   * `.orig` path, rewrite it, write the result to the meta path. The first
   * failing step ends the series, so a raw copy already written stays.
   */
  method SetMeta(fs: FileSystem, cfg: Config, name: string, meta: Json, now: int) returns (r: Result<Json, Error>)
    modifies fs
    ensures var path := MetaPath(cfg.cacheDir, name);
      var dir := Dirname(path);
      var orig := path + ".orig";
      var origOk := orig !in fs.refused;
      && (dir in fs.refused ==> r == Failure(IO(dir)) && fs.dirs == old(fs.dirs) && fs.files == old(fs.files))
      && fs.dirs == Made(old(fs.dirs), fs.refused, dir)
      && (dir !in fs.refused && !origOk ==> r == Failure(IO(orig)) && fs.files == old(fs.files))
      && (dir !in fs.refused && origOk && RewriteThrows(meta) ==>
            r == Failure(TypeError) && fs.files == old(fs.files)[orig := File(Doc(meta), now)])
      && (dir !in fs.refused && origOk && !RewriteThrows(meta) && path in fs.refused ==>
            r == Failure(IO(path)) && fs.files == old(fs.files)[orig := File(Doc(meta), now)])
      && (dir !in fs.refused && origOk && !RewriteThrows(meta) && path !in fs.refused ==>
            r == Success(RewriteDoc(cfg, meta)) &&
            fs.files == old(fs.files)[orig := File(Doc(meta), now)][path := File(Doc(RewriteDoc(cfg, meta)), now)])
    ensures r.Failure? <==> StoreError(fs.refused, cfg, name, meta).Some?
    ensures r.Failure? ==> r.error == StoreError(fs.refused, cfg, name, meta).value
    ensures fs.files == StoredFiles(old(fs.files), fs.refused, cfg, name, meta, now)
  {
    var path := MetaPath(cfg.cacheDir, name);
    var dir := Dirname(path);
    var made := fs.Mkdirp(dir);
    if made.Fail? { return Failure(made.error); }
    MetaPathDirectory(cfg.cacheDir, name);
    var wroteOrig := fs.WriteFile(path + ".orig", Doc(meta), now);
    if wroteOrig.Fail? { return Failure(wroteOrig.error); }
    var pkgJson := OverrideTarballUrls(cfg, meta);
    if pkgJson.Failure? { return pkgJson; }
    var wrote := fs.WriteFile(path, Doc(pkgJson.value), now);
    if wrote.Fail? { return Failure(wrote.error); }
    r := pkgJson;
  }

  /** The step `setMetaVersion` stops at: the directory or the per-version file; `None` when both succeed. */
  function VersionStoreError(refused: set<string>, cfg: Config, name: string, version: string): Option<Error> {
    var path := MetaVersionPath(cfg.cacheDir, name, version);
    if Dirname(path) in refused then Some(IO(Dirname(path)))
    else if path in refused then Some(IO(path))
    else None
  }

  /** `setMetaVersion`: make the directory of the per-version path, then write the entry there. */
  method SetMetaVersion(fs: FileSystem, cfg: Config, name: string, version: string, meta: Json, now: int)
    returns (r: Outcome<Error>)
    modifies fs
    ensures var path := MetaVersionPath(cfg.cacheDir, name, version);
      var dir := Dirname(path);
      && (dir in fs.refused ==> r == Fail(IO(dir)) && fs.dirs == old(fs.dirs) && fs.files == old(fs.files))
      && fs.dirs == Made(old(fs.dirs), fs.refused, dir)
      && (dir !in fs.refused && path in fs.refused ==> r == Fail(IO(path)) && fs.files == old(fs.files))
      && (dir !in fs.refused && path !in fs.refused ==> r == Pass && fs.files == old(fs.files)[path := File(Doc(meta), now)])
    ensures r == (if VersionStoreError(fs.refused, cfg, name, version).Some? then
                    Fail(VersionStoreError(fs.refused, cfg, name, version).value) else Pass)
  {
    var path := MetaVersionPath(cfg.cacheDir, name, version);
    var made := fs.Mkdirp(Dirname(path));
    if made.Fail? { return made; }
    r := fs.WriteFile(path, Doc(meta), now);
  }

  /** The `getMeta` wrapper: fails without a name, otherwise the meta path. */
  function GetMeta(cfg: Config, name: string): (r: Result<string, Error>)
    ensures r.Failure? <==> name == ""
    ensures r.Failure? ==> r.error == Missing("Name not supplied")
    ensures r.Success? ==> r.value == PathOf(cfg.cacheDir, MetaId(name))
  {
    if name == "" then Failure(Missing("Name not supplied")) else Success(MetaPath(cfg.cacheDir, name))
  }

  /** The `getMetaVersion` wrapper: fails without a name or a version. */
  function GetMetaVersion(cfg: Config, name: string, version: Option<string>): (r: Result<string, Error>)
    ensures r.Failure? <==> name == "" || !Supplied(version)
    ensures name == "" ==> r == Failure(Missing("Name not supplied"))
    ensures name != "" && !Supplied(version) ==> r == Failure(Missing("Version not supplied"))
    ensures r.Success? ==> r.value == PathOf(cfg.cacheDir, VersionId(name, version.value))
  {
    if name == "" then Failure(Missing("Name not supplied"))
    else if !Supplied(version) then Failure(Missing("Version not supplied"))
    else Success(MetaVersionPath(cfg.cacheDir, name, version.value))
  }

  /** The `getTarball` wrapper: fails without a name or a version. */
  function GetTarball(cfg: Config, name: string, version: Option<string>): (r: Result<string, Error>)
    ensures r.Failure? <==> name == "" || !Supplied(version)
    ensures name == "" ==> r == Failure(Missing("Name not supplied"))
    ensures name != "" && !Supplied(version) ==> r == Failure(Missing("Version not supplied"))
    ensures r.Success? ==> r.value == PathOf(cfg.cacheDir, TarballId(name, version.value))
  {
    if name == "" then Failure(Missing("Name not supplied"))
    else if !Supplied(version) then Failure(Missing("Version not supplied"))
    else Success(TarballPath(cfg.cacheDir, name, version.value))
  }
}

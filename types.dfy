/**
 * Values shared by every part of the lazy mirror: optional values, results,
 * the error taxonomy, JSON documents, file contents and the configuration
 * the server is started with.
 */
module Types {

  datatype Option<+T> = None | Some(value: T)

  datatype Result<+R, +E> = Success(value: R) | Failure(error: E)

  /** The outcome of a step that produces nothing but may fail. */
  datatype Outcome<+E> = Pass | Fail(error: E)

  /** JavaScript truthiness of an optional string argument: present and non-empty. */
  predicate Supplied(o: Option<string>) {
    o.Some? && o.value != ""
  }

  newtype byte = x: int | 0 <= x < 256

  /**
   * The errors the mirror's callbacks carry. In the source they are plain
   * `Error` objects, some with a numeric `code` field; `Code` recovers it.
   */
  datatype Error =
    | Missing(what: string)       // an argument the callee requires was not supplied
    | UnknownType(kind: string)   // `validate` was asked about an unknown resource type
    | NotFound                    // a version absent from the package metadata (code 404)
    | Upstream(status: int)       // the registry answered with a status other than 200
    | Network                     // the request to the registry failed
    | IO(path: string)            // a directory or file could not be created, written or read
    | Malformed                   // `JSON.parse` rejected a stored or fetched document
    | TypeError                   // a property read on undefined or null, which the source throws
    | Unhandled(path: string)     // a write stream that cannot open `path` emits `'error'` with no listener

  /** The `code` field of an error object, if it has one. */
  function Code(e: Error): (c: Option<int>)
    ensures c == Some(404) <==> e == NotFound || e == Upstream(404)
    ensures c.Some? <==> e.NotFound? || e.Upstream?
  {
    match e
    case NotFound => Some(404)
    case Upstream(s) => Some(s)
    case _ => None
  }

  /**
   * The errors the source throws rather than passes to a callback. Both
   * arise inside an I/O callback, where nothing catches them, so the
   * process goes down.
   */
  predicate Throws(e: Error) {
    e == TypeError || e.Unhandled?
  }

  /** JSON values; numbers are integers, object member order is not kept. */
  datatype Json =
    | JNull
    | JBool(b: bool)
    | JNum(n: int)
    | JStr(s: string)
    | JArr(elems: seq<Json>)
    | JObj(members: map<string, Json>)

  /** JavaScript truthiness of a property read, `None` being `undefined`. */
  predicate Truthy(o: Option<Json>) {
    match o
    case None => false
    case Some(JNull) => false
    case Some(JBool(b)) => b
    case Some(JNum(n)) => n != 0
    case Some(JStr(s)) => s != ""
    case Some(_) => true
  }

  /**
   * `j[k]` in JavaScript: reading a property of `null` throws, a missing
   * member or a member of a non-object value is `undefined`.
   */
  function Prop(j: Json, k: string): (r: Result<Option<Json>, Error>)
    ensures r.Failure? <==> j.JNull?
    ensures r.Success? && r.value.Some? <==> j.JObj? && k in j.members
    ensures r.Success? && r.value.Some? ==> r.value.value == j.members[k]
  {
    match j
    case JNull => Failure(TypeError)
    case JObj(m) => Success(if k in m then Some(m[k]) else None)
    case _ => Success(None)
  }

  /** A property read on the result of an earlier read: `undefined[k]` throws too. */
  function PropOf(o: Option<Json>, k: string): (r: Result<Option<Json>, Error>)
    ensures o.None? ==> r == Failure(TypeError)
    ensures o.Some? ==> r == Prop(o.value, k)
  {
    match o
    case None => Failure(TypeError)
    case Some(j) => Prop(j, k)
  }

  /** What a cache file holds: a JSON document, or raw bytes (a tarball, an error page). */
  datatype Content = Doc(doc: Json) | Raw(bytes: seq<byte>)

  /** A file on disk: its content and its modification time in milliseconds. */
  datatype File = File(content: Content, mtime: int)

  /** `JSON.parse` of a file's text: only a document parses. */
  function Parse(c: Content): (r: Result<Json, Error>)
    ensures r.Success? <==> c.Doc?
    ensures r.Success? ==> r.value == c.doc
    ensures r.Failure? ==> r.error == Malformed
  {
    match c
    case Doc(j) => Success(j)
    case Raw(_) => Failure(Malformed)
  }

  /** The freshness codes CACHE_NOT_EXIST, CACHE_VALID and CACHE_EXPIRED. */
  datatype Freshness = NotExist | Valid | Expired

  function FreshnessCode(f: Freshness): (c: nat)
    ensures c == 0 <==> f == NotExist
    ensures c == 1 <==> f == Valid
    ensures c == 2 <==> f == Expired
  {
    match f
    case NotExist => 0
    case Valid => 1
    case Expired => 2
  }

  /** The resource types TYPE_META and TYPE_TGZ. */
  datatype Kind = Meta | Tgz

  /** The type names `validate` accepts. */
  function KindOf(t: string): (k: Option<Kind>)
    ensures k == Some(Meta) <==> t == "meta"
    ensures k == Some(Tgz) <==> t == "tgz"
  {
    if t == "meta" then Some(Meta) else if t == "tgz" then Some(Tgz) else None
  }

  /** The configuration values the core reads. */
  datatype Config = Config(
    cacheDir: string,          // root of the on-disk cache
    cacheExpiry: int,          // time to live of cached metadata, in milliseconds
    httpsEnabled: bool,        // whether the mirror itself serves HTTPS
    serverAddress: string,     // the mirror's external host name
    realExternalPort: string,  // the port clients reach the mirror on
    upstreamHost: string,      // the registry the mirror fronts
    upstreamUseHttps: bool)    // whether the registry is fetched over HTTPS

  /** The capacity of the freshness memo. */
  const MemoMax: nat := 5000
}

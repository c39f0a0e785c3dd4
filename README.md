# npm lazy mirror — a Dafny model of its core

The mirror sits between npm clients and an upstream registry. It answers
package requests from an on-disk cache and fetches from the registry only on a
miss. This project models, in Dafny, the decisions that make up its core:

- **where** each cached artifact lives: the whole-package document, the
  per-version document and the tarball;
- **whether** a cached file is fresh, via the disk expiry test and the
  bounded freshness memo `fsStats`;
- **which package and version** a request names, including the splitting of
  `name-1.2.3` and the parsing of tarball URLs;
- **which handler** a URL goes to and what each handler answers for each
  outcome (served file, 404 page, 500 page, upstream proxy);
- **how** the package document is stored, with every `dist.tarball` URL
  rewritten to point at the mirror.

Modules, one per file:

| file | module | models |
|---|---|---|
| types.dfy | `Types` | errors and their `code`, JSON values, file contents, the freshness and type constants, the configuration |
| strings.dfy | `Strings` | JavaScript `indexOf`, `replace` (first occurrence only), `split`, `join` and lodash `compact` |
| patterns.dfy | `Patterns` | the regular-expression pieces `[_-\w.]` and `\d+\.\d+\.\d+` |
| disk.dfy | `Disk` | the filesystem: a class whose maps of files and directories `mkdirp` and `writeFile` update |
| memo.dfy | `Memo` | `AsyncCache`: a class holding a bounded map of freshness entries with an age limit and a loader |
| cache.dfy | `Cache` | lib/cache.js |
| registry.dfy | `Registry` | lib/registry.js, as an oracle from upstream URL to response |
| package.dfy | `Package` | lib/package.js: the name/version split and the class `Package` |
| handlers.dfy | `Handlers` | lib/handlers.js: URL parsing, the answers, the response object |
| server.dfy | `Server` | server.js: the route patterns, the `fsStats` loader and bounds, `serveRequest` |

Modelling choices:

- **Registry.** The registry is a value: a map from URL to `(status, body)`. A URL
  missing from the map is a failed request.
- **Disk.** The disk is a `FileSystem` object. Its `refused` set names the paths
  whose creation fails, which is how I/O errors enter the model.
- **Clock.** The clock is a parameter `now`.
- **Memo.** `fsStats` is an `AsyncCache` object. Its `get` and `set` methods
  update its entry map in place.
- **`cache.exists`.** lib/package.js:66 and lib/package.js:163 call
  `cache.exists`, which lib/cache.js does not define. It is modelled as
  "`validate` answered Valid".
- **Thrown exceptions.** server.js installs no handler for uncaught
  exceptions, so whatever is thrown inside a callback takes the process down.
  A handler that throws answers `Crash`. Inside the package operations three
  throws arise, and each is an error for which `Throws` holds:
  - `TypeError` from the tarball URL rewrite in `setMeta`: reading `versions`
    of a `null` document (lib/cache.js:130), reading `dist` of a `null`
    version entry (lib/cache.js:117), and `Url.parse` of a truthy tarball
    value that is not a string (lib/cache.js:118);
  - `TypeError` from reading `data.versions[...]` on a document without
    `versions` (lib/package.js:136 and lib/package.js:187);
  - `Unhandled`, the `'error'` event of a write stream that cannot open the
    tarball file (lib/registry.js:164-165).

  The handlers answer `Crash` for these instead of an error page.
- **The memo's answers.** Eviction from the memo is arbitrary. When the
  tarball check evicts the package document's entry, `getMeta`'s answer
  depends on which entry went. The tarball operations therefore return, as
  ghost out-parameters, `metaHit`, whether the memo called the document valid
  when `getMeta` asked, and `checked`, the memo's entries right after the
  tarball lookup. Their spec functions take `metaHit` as an argument. The
  contracts tie both to the state: `metaHit` is the answer the memo holding
  `checked` gives, and when the lookup evicted nothing (the tarball was
  already held, or the memo was not full) it is the memo's answer from
  before the request.

## Model

| member | source | states |
|---|---|---|
| Types.Code | lib/package.js:142-143 | an error has code 404 exactly when it is the "version not found" error or an upstream 404; only those two kinds carry a code |
| Types.Prop | lib/package.js:136 | reading a property of `null` throws; a member is found exactly when the value is an object holding the key, and it is that member |
| Types.Parse | lib/package.js:130-134 | parsing succeeds exactly on a JSON document, giving it back; anything else is a parse error |
| Types.FreshnessCode | lib/constants.js:8-10 | NotExist, Valid and Expired are the codes 0, 1 and 2, in both directions |
| Types.KindOf | lib/constants.js:11-12 | `meta` and `tgz` are exactly the two type names, mapping to Meta and Tgz |
| Strings.ReplaceFirst | lib/handlers.js:28 | a string without the pattern is unchanged; otherwise the text before the first occurrence is kept, the replacement takes the occurrence's place, and the text after it follows |
| Strings.JoinSplit | lib/package.js:36-44 | joining the pieces of a split with the separator gives the original string back |
| Strings.SplitPartsFree | lib/handlers.js:86 | no piece of a split contains the separator |
| Strings.Compact | lib/handlers.js:41 | the compacted list holds no empty string, is no longer than the input, and holds exactly the input's non-empty strings |
| Strings.CompactAppend | lib/handlers.js:41 | compacting distributes over concatenation |
| Strings.CompactSnoc | lib/handlers.js:41 | compacting a list extended by one string appends that string exactly when it is non-empty, so the order of the kept strings is the input's |
| Patterns.SemverLength | lib/package.js:39 | a string matching `\d+\.\d+\.\d+` is at least five characters long |
| Disk.FileSystem.Mkdirp | lib/cache.js:154 | the directory is created unless the disk refuses it, which is an I/O error, and an existing directory stays (`Made`); files are unchanged; the disk invariant that no made directory is refused is kept |
| Disk.Made | lib/cache.js:154 | the directories one `mkdirp` leaves: the old ones and at most the requested one, which is present afterwards exactly when it already was or the disk accepts it |
| Disk.FileSystem.WriteFile | lib/cache.js:157 | the write succeeds exactly when the path is not refused and its directory exists; on success the file holds the content with mtime `now`; otherwise nothing changes |
| Disk.ReadDoc | lib/package.js:125-134 | reading succeeds exactly on a stored JSON document, giving it; a missing file is an I/O error for its path, raw bytes a parse error |
| Memo.AsyncCache.constructor | server.js:40-42 | an empty memo with the given capacity, age limit and loader |
| Memo.AsyncCache.Answer | server.js:40-43 | an entry no older than `maxAge` is answered from the memo; otherwise the loader's answer |
| Memo.AsyncCache.Set | lib/package.js:91 | the entry is stored with time `now` and the size stays within capacity; when the path is already held or the memo is not full, exactly that entry changes; otherwise one other entry may be evicted and the rest are unchanged (`Kept`) |
| Memo.AsyncCache.Get | lib/cache.js:98 | the answer is the memo's answer; a fresh hit changes nothing; a miss stores the loaded answer, and when it needs no eviction that is the only change; no other entry changes but one eviction from a full memo |
| Memo.AsyncCache.AnswerKept | server.js:40-43 | a step about one path that evicts nothing leaves the memo's answer for every other path as it was |
| Memo.KeptLosesAtMostOne | server.js:40-42 | a step that keeps its path (`Kept`) evicts at most one other entry |
| Memo.KeptThen | lib/package.js:66-91 | a lookup followed by a store of the same path, which the lookup left present, evicts no more than `Kept` allows overall |
| Cache.MetaPathDirectory | lib/cache.js:148-149 | for a name without `/`, the directory of the document path, which `setMeta` makes, is `<cacheDir>/<name>/<metaFolder>`, and the raw copy `.orig` lies in the same directory |
| Cache.VersionPathDirectory | lib/cache.js:184-185 | for a name and version without `/`, the per-version document lies in the package document's directory |
| Cache.TarballPathDirectory | lib/cache.js:250-251 | for a name and version without `/`, a tarball lies in `<cacheDir>/<name>/<tgzFolder>`, the directory the registry download makes |
| Cache.PathOfInjective | lib/cache.js:200-202 | for names without `/`, distinct entries (document, raw copy, per-version document, tarball) never share a path |
| Cache.EntryPathInjective | lib/cache.js:211-213 | within one cache directory, a path determines its package name, folder and file name |
| Cache.VersionedFileInjective | lib/cache.js:250-252 | `name-version.ext` determines the version |
| Cache.DiskExpired | lib/cache.js:49-59 | a stat fails exactly for a missing file; otherwise the file is expired exactly when `now - mtime >= cacheExpiry` |
| Cache.ExpiryBoundary | lib/cache.js:55 | a file aged `cacheExpiry - 1` is not expired and one aged `cacheExpiry` is |
| Cache.Classify | lib/cache.js:49-59 | NotExist exactly for a missing file, Expired and Valid exactly as the expiry test answers |
| Cache.ValidatePath | lib/cache.js:85-97 | a missing type or name fails with its message, in that order; an unknown type fails; `meta` gives the document path; `tgz` gives the tarball path, with an empty version when none is given |
| Cache.Validate | lib/cache.js:83-99 | a failed check leaves the memo alone; otherwise the answer is the memo's answer for that path, and the memo then holds that answer for the path; a fresh entry changes nothing; a miss that needs no eviction changes exactly the path's entry; no other entry changes but one eviction from a full memo |
| Cache.RewriteVersion | lib/cache.js:115-128 | a version without a tarball URL is unchanged; one with it gets the rewritten URL and keeps every other member and every other `dist` member |
| Cache.RewriteUrlParses | lib/cache.js:118-123 | parsing a rewritten URL gives the mirror's protocol, host and port together with the original URL's path |
| Cache.RewriteUrlPointsToMirror | lib/cache.js:119-123 | every rewritten URL contains `serverAddress:realExternalPort` |
| Cache.RewriteUrlIdempotent | lib/cache.js:118-123 | rewriting a rewritten URL changes nothing |
| Cache.OverrideTarballUrls | lib/cache.js:108-136 | the loop over the keys of `versions` answers `Rewrite`: `TypeError` exactly for a `null` document or when some entry of an object or array `versions` is `null` or has a truthy tarball that is not a string; otherwise the document with every entry rewritten |
| Cache.Rewrite | lib/cache.js:108-136 | a failure is always `TypeError`; a `null` document fails; a success keeps the document's kind and, for an object, its member keys; a document without `versions` comes back unchanged |
| Cache.RewriteDoc | lib/cache.js:115-134 | an object stays an object with the same keys, every member but `versions` unchanged; anything else is returned as it is |
| Cache.RewriteMembers | lib/cache.js:115-134 | over the keys of an object `versions`: fails exactly when some entry throws, with `TypeError`; otherwise every entry is rewritten |
| Cache.RewriteElements | lib/cache.js:115-134 | over the indices of an array `versions`: fails exactly when some element throws, with `TypeError`; otherwise every element is rewritten, in order |
| Cache.RewriteAll | lib/cache.js:115-134 | the rewritten array has the input's length, and each element is that element rewritten |
| Cache.RewriteDocWithoutVersions | lib/cache.js:130 | a document whose `versions` is neither an object nor an array is returned unchanged; only `null` throws |
| Cache.RewriteDocPointsToMirror | lib/cache.js:115-134 | for an object `versions`: the rewritten document keeps every member and every version; versions without a tarball URL are untouched; every tarball URL points at the mirror; the rewrite throws exactly when some version throws |
| Cache.RewriteArrayPointsToMirror | lib/cache.js:115-134 | the same for an array `versions`, element by element, keeping its length |
| Cache.RewriteVersionIdempotent | lib/cache.js:115-125 | rewriting a version entry twice is rewriting it once |
| Cache.RewriteDocIdempotent | lib/cache.js:108-136 | rewriting a document twice is rewriting it once |
| Cache.SetMeta | lib/cache.js:145-172 | mkdir, raw copy to `.orig`, rewrite, final write, stopping at the first failure: a refused directory changes no file; a rewrite that throws or a failed final write leaves the raw copy; success stores both and returns the rewritten document; it fails exactly when `StoreError` names a step, with that step's error, and leaves exactly `StoredFiles`; the meta directory is made unless refused (`Made`), and every later step needs it made |
| Cache.StoredFilesFrame | lib/cache.js:145-172 | storing a document changes no file other than the document and its raw copy, and creates no other |
| Cache.StoredFilesWritten | lib/cache.js:152-168 | when no step fails, the document holds the rewritten metadata and the raw copy the fetched one; when the rewrite throws or only the final write fails, the raw copy is written and the document is untouched; an earlier failure changes no file |
| Cache.SetMetaVersion | lib/cache.js:182-192 | mkdir of the per-version directory, then the entry written to the per-version path, stopping at the first failure; the outcome is the first failing step's I/O error, or success; the per-version directory is made unless refused (`Made`) |
| Cache.GetMeta | lib/cache.js:221-225 | fails exactly without a name; otherwise the document path |
| Cache.GetMetaVersion | lib/cache.js:234-240 | fails exactly without a name or a version, with the name checked first; otherwise the per-version path |
| Cache.GetTarball | lib/cache.js:261-267 | fails exactly without a name or a version, with the name checked first; otherwise the tarball path |
| Registry.MetaUrl | lib/registry.js:96-99 | the metadata URL ends with `/` followed by the package name |
| Registry.TarballUrl | lib/registry.js:135-148 | the tarball URL starts with the metadata URL followed by `/-/` and ends with the version followed by `.tgz` |
| Registry.StatusError | lib/registry.js:109-112 | no error exactly for status 200; otherwise an error whose code is the status |
| Registry.GetMeta | lib/registry.js:90-124 | an unreachable registry is a network error; success exactly on a 200 JSON body, giving that body; another status is an error with that status as code |
| Registry.TarballError | lib/registry.js:132-171 | throws exactly when the directory is made but the target cannot be opened; no error exactly when both succeed and the registry answers 200; another status is the error's code; code 404 comes only from an upstream 404 |
| Registry.GetTarball | lib/registry.js:132-171 | the target is the tarball path, returned in every case; the error is `TarballError`; the files are `TarballFiles` (an opened target holds the body, or nothing when the request failed; a refused directory or target changes no file); only on success is the target marked valid, with the other memo entries kept; on failure the memo is unchanged; the tarball directory is made unless refused (`Made`), even when the rest fails |
| Package.SplitName | lib/package.js:29-47 | construction fails exactly without a name; a given version is kept with the name; a derived version is never empty |
| Package.SplitNameReassembles | lib/package.js:36-46 | for a name without `/`, the name and the derived version joined by `-` give it back, the version has no `-` and matches `\d+\.\d+\.\d+`; with no version derived the name is kept |
| Package.SplitNameTrailingVersion | lib/package.js:36-44 | `x-v`, with `v` free of `-` and matching the pattern, is the name `x` and the version `v`, whatever dashes `x` holds |
| Package.SplitNameWithoutDash | lib/package.js:45-46 | a name holding neither `/` nor `-` is kept and gets a null version |
| Package.SplitNameExample | lib/package.js:36-41 | `lodash-4.17.21` is `lodash` at `4.17.21` |
| Package.DashParts | lib/package.js:42-44 | popping the last `-` piece and rejoining the rest gives the text before the last `-` |
| Package.VersionEntry | lib/package.js:136 | `data.versions[v]` found exactly when `versions` is an object holding `v`; a missing `versions` throws |
| Package.StoredEntry | lib/package.js:125-136 | a found entry is the truthy `versions[v]` of the document stored at the path |
| Package.MetaVersionPathDistinct | lib/cache.js:200-213 | writing the per-version file never overwrites the package document |
| Package.MetaTarballPathDistinct | lib/cache.js:200-251 | a package document and a tarball never share a path, so the entry the tarball lookup stores is never the document's |
| Package.MetaOutcome | lib/package.js:62-96 | `getMeta` succeeds exactly for a name that the memo calls valid or whose fetch and store both succeed, answering the document path; it fails with code 404 exactly on an upstream 404 after a miss; it throws exactly when a fetched document is one the rewrite throws on; its errors are never the version 404; no name gives "Name not supplied" |
| Package.MetaFilesKept | lib/package.js:62-96 | `getMeta` changes no file but the document and its raw copy, creates no other, and changes nothing without a name or on a valid hit |
| Package.MetaFilesStored | lib/package.js:76-93 | when a fetch is stored, the document holds the rewritten registry document, the raw copy the document as fetched, and reading the document gives the rewritten one |
| Package.MetaDirsAfter | lib/package.js:76-93 | `getMeta` adds at most the meta directory, and that one only when the disk accepts it; nothing without a name, on a valid hit or on a failed fetch |
| Package.VersionOf | lib/package.js:122-146 | once `getMeta` answered: its error is passed on; the 404 error exactly when the stored document has no truthy entry for the version; success exactly when it has one and the per-version file can be written, answering the per-version path; a throw exactly when the document parses but has no `versions` |
| Package.VersionMetaOnHit | lib/package.js:116-148 | on a valid cached document: the 404 error exactly when it does not list the version; success exactly when it does and the file can be written; a throw exactly when it has no `versions` |
| Package.VersionMetaOnFetch | lib/package.js:116-148 | after a fetch that was stored: the 404 error exactly when the rewritten registry document does not list the version; success exactly when it does and the file can be written |
| Package.VersionFilesKept | lib/package.js:116-148 | `getVersionMeta` changes no file but the document, its raw copy and the per-version file; on failure the files are those `getMeta` leaves; on success the per-version file holds the stored document's entry for the version |
| Package.VersionDirsOf | lib/package.js:125-145 | after `getMeta`, at most the per-version directory is added, and only when `getMeta` succeeded and the stored document holds a truthy entry for the version |
| Package.VersionDirsAfter | lib/package.js:116-148 | `getVersionMeta` removes no directory and adds none without a version; otherwise at most the meta and per-version directories |
| Package.TarballHitOf | lib/package.js:171-195 | on a valid cached tarball: a path comes back exactly when no error does; `getMeta`'s error is passed on; the 404 error exactly when a given version is not listed; no error exactly when it is, with the tarball path; a throw exactly when the document parses but has no `versions` |
| Package.TarballOutcome | lib/package.js:156-207 | no name fails with "Name not supplied" and no path; no error always comes with a path; on a valid tarball a path comes exactly without an error, and it is the tarball path of the given version; on a miss the path is the registry's target, even on failure |
| Package.TarballOnMiss | lib/package.js:197-199 | a tarball that is not valid: the target path comes back; no error exactly when the target opens and the registry answers 200; another status is the error's code; a throw exactly when the directory is made but the target does not open |
| Package.TarballOnHit | lib/package.js:171-195 | a valid tarball and document: the 404 error exactly when the stored document does not list the version, no error exactly when it does, with the tarball path |
| Package.Package.constructor | lib/package.js:34-49 | the object holds the resolved name, version and configuration |
| Package.Package.GetMeta | lib/package.js:62-96 | the answer is `MetaOutcome` of the memo's answer for the document; the files are those `setMeta` leaves after a fetch and otherwise unchanged (with `MetaFilesKept` and `MetaFilesStored`, the raw copy and the frame); a fetched and stored document is marked valid; on failure the memo never calls the path valid; no other memo entry changes but one eviction from a full memo (`Kept`); the directories are `MetaDirsAfter`: at most the meta directory is added, only after a fetch from the registry |
| Package.Package.FetchMeta | lib/package.js:76-93 | the answer is `MetaOutcome` of a miss; the files are those `setMeta` leaves; success marks the path valid; failure leaves the memo; no other memo entry changes but one eviction from a full memo (`Kept`); the directories are `MetaDirsAfter` of a miss |
| Package.Package.GetLatestVersionMeta | lib/package.js:103-108 | exactly what `getMeta` promises (`MetaSpec`), including the memo bound and the directories (`MetaDirsAfter`) |
| Package.Package.GetVersionMeta | lib/package.js:116-148 | `VersionSpec`: the answer is `VersionMetaOutcome` of the memo's answer for the document, so `VersionMetaOnHit` and `VersionMetaOnFetch` apply; the files are `VersionFilesAfter`, so `VersionFilesKept` applies; no memo entry but the document's changes, bar one eviction from a full memo; no name or no version changes no memo entry; success: the per-version file holds the stored document's truthy entry; the directories are `VersionDirsAfter`: at most the meta and per-version directories are added, and none without a version |
| Package.Package.StoreVersion | lib/package.js:125-145 | the steps after `getMeta`: the answer is `VersionOf` and the files are `VersionFilesOf` of what `getMeta` answered and left, and the directories `VersionDirsOf`: the per-version directory is made only for a document holding a truthy entry |
| Package.Package.GetTarball | lib/package.js:156-207 | `TarballSpec`: the answer is `TarballOutcome`, so `TarballOnMiss` and `TarballOnHit` apply; the tarball lookup keeps the memo (`Kept`); on a miss the files are those the registry fetch leaves, a fetch without error is marked valid and keeps the memo, and a failed one leaves it; on a hit `metaHit` is the answer of the memo right after the lookup, the files are those `getMeta` leaves and the memo is kept; when the lookup evicted nothing, `metaHit` is the memo's answer for the document before the request; the directories: none added without a name, the tarball directory made unless refused on a miss, and `MetaDirsAfter` on a hit |
| Handlers.Construct | lib/package.js:30 | `new Package` fails exactly without a name, with "Package name not found"; with a name and a version it is that package at that version |
| Handlers.VersionRequest | lib/handlers.js:41-45 | name and version are non-empty pieces, and a version comes only with a name |
| Handlers.VersionRequestParts | lib/handlers.js:41-45 | for `/t/rest` with `rest` not starting with `/`, the name is `t` and the version is the first `/` piece of `rest` |
| Handlers.TarballRequest | lib/handlers.js:86-90 | a name is always produced; without `/-/` the name is the URL with its first `/` removed and the version stays undefined |
| Handlers.TarballRequestRoundTrip | lib/handlers.js:86-89 | `/n/-/n-v.tgz` reads back exactly the name `n` and the version `v` |
| Handlers.TarballRequestWithoutSeparator | lib/handlers.js:88-90 | a URL without `/-/` gives no version |
| Handlers.TarballRequestEmptyName | lib/handlers.js:86-87 | `/-/-/x.tgz` gives the empty name |
| Handlers.RelativeEntry | lib/handlers.js:28 | removing the first occurrence of the cache directory from any entry's path leaves its path below the directory |
| Handlers.MetaAnswer | lib/handlers.js:25-30 | a throw exactly for an error that throws; the 404 page exactly for an error with code 404 (naming `res.url`, which is undefined); the 500 page exactly for any other error, reporting it; otherwise the path relative to the cache directory |
| Handlers.VersionAnswer | lib/handlers.js:47-51 | never the 404 page; a throw exactly for an error that throws; the 500 page exactly for another error or an empty path, reporting the error; otherwise the relative path |
| Handlers.LatestAnswer | lib/handlers.js:66-72 | throws exactly on an empty path without an error or on an error that throws; otherwise answers as the whole-document handler |
| Handlers.TarballAnswer | lib/handlers.js:97-107 | a throw exactly for an error that throws, or no error and no path; the 404 page for the request URL exactly on a code-404 error; the 500 page exactly on another error without a path; a path is served, even one that came with an error that neither throws nor has code 404 |
| Handlers.MetaAnswerOutcome | lib/handlers.js:20-31 | for a name: served at the document path below the cache directory exactly on a valid hit or a fetch that is stored; the 404 page exactly on an upstream 404 after a miss; a throw exactly when the fetched document is one the rewrite throws on and its raw copy was written |
| Handlers.MetaCrashes | lib/handlers.js:20-31 | the whole-document answer throws only when the registry's document for the package is one the rewrite throws on |
| Handlers.LatestAnswerOutcome | lib/handlers.js:60-74 | since `getMeta` never answers an empty path, the latest handler answers exactly as the whole-document handler |
| Handlers.VersionAnswerOnHit | lib/handlers.js:39-52 | on a valid cached document: a listed version whose file can be written is served at the per-version path; an unlisted one gets the 500 page with the 404 error; a throw exactly when the document has no `versions` |
| Handlers.TarballAnswerOnMiss | lib/handlers.js:83-108 | on a miss: an upstream 404 with an openable target gives the 404 page for the request URL, and the 404 page comes only from an upstream 404; an upstream 200 serves the tarball path; a throw exactly when the target cannot be opened |
| Handlers.TarballAnswerOnHit | lib/handlers.js:83-108 | on a valid tarball and document: served at the tarball path exactly when the stored document lists the version, the 404 page exactly when it does not |
| Handlers.Response.constructor | lib/handlers.js:119-137 | a fresh response has nothing written to it |
| Handlers.NotFoundReply | lib/handlers.js:119-124 | status 404 and the text `Resource not found: <url>`, ended; nothing else written |
| Handlers.InternalErr | lib/handlers.js:133-137 | status 500 with the error reported, ended; nothing else written |
| Handlers.ServeFile | lib/handlers.js:29 | the static server is given the path; nothing else written |
| Handlers.ProxyUpstream | server.js:94 | the request is passed upstream; nothing else written |
| Handlers.Reply | lib/handlers.js:26-29 | a blank response ends up showing exactly the answer |
| Handlers.ServePackageMeta | lib/handlers.js:20-31 | the response shows the answer, which is `MetaAnswer` of `getMeta`'s outcome from the state before the request (a throw when construction fails), so `MetaAnswerOutcome` applies; `MetaServed`: the files and the memo are as `getMeta` promises, or untouched when construction fails; a throw comes only from the rewrite; the directories are those the package operation leaves (through the served predicate), and none is removed |
| Handlers.ServeLatestPackageMeta | lib/handlers.js:60-74 | the response shows the answer, which is `LatestAnswer` of `getMeta`'s outcome from the state before the request, so `LatestAnswerOutcome` and `MetaAnswerOutcome` apply; `MetaServed` as for the whole-document handler; a throw comes only from the rewrite; the directories are those the package operation leaves (through the served predicate), and none is removed |
| Handlers.ServePackageVersionMeta | lib/handlers.js:39-52 | the response shows the answer, which is `VersionAnswer` of `getVersionMeta`'s outcome from the state before the request (a throw when construction fails), so `VersionAnswerOnHit` applies; never the 404 page; `VersionServed`: the files and the memo are as `getVersionMeta` promises, or untouched; the directories are those the package operation leaves (through the served predicate), and none is removed |
| Handlers.ServePackageTarball | lib/handlers.js:83-108 | corrected (see Findings): a failed construction gives the 500 page and touches nothing; otherwise the response shows `TarballAnswer` of `getTarball`'s outcome from the state before the request, so `TarballAnswerOnMiss` and `TarballAnswerOnHit` apply, and `TarballServed`: the state is as `getTarball` promises, with `metaHit` and `checked` tied to the memo; the directories are those the package operation leaves (through the served predicate), and none is removed |
| Handlers.CachedTarballServed | lib/handlers.js:83-108 | a tarball the memo holds as valid, whose document the memo calls valid and lists the version, is served from the cache at the tarball path |
| Handlers.TarballAsWritten | lib/handlers.js:92-97 | the tarball handler as written: a throw whenever construction fails, otherwise the corrected handler's answer |
| Handlers.CorrectedTarballAnswersError | lib/handlers.js:86-97 | where construction fails, the handler as written throws, and the error the corrected handler reports is "Package name not found"; the handler as written throws whatever the corrected one would answer |
| Handlers.CorrectedTarballErrorPage | lib/handlers.js:86-97 | where construction fails, the corrected handler answers the 500 page for "Package name not found", and the handler as written throws |
| Server.IsLatestRoute | server.js:85 | a matching URL is `/<t>/latest` or `/<t>/latest/` for a name token `t` |
| Server.IsVersionRoute | server.js:89 | a matching URL is `/<t>/<rest>` for a name token `t` and a `rest` starting with a dotted triple of digits |
| Server.IsListAllRoute | server.js:93 | a URL holding `/-/all/` is never a whole-document URL |
| Server.IsTarballRoute | server.js:97 | a matching URL is `/<t>/-/<rest>` for a name token `t` and a `rest` holding `.tgz` |
| Server.IsMetaRoute | server.js:101 | a URL matches exactly when it is `/` followed by a name token and holds no other `/` |
| Server.RoutePatterns | server.js:85-97 | the latest, version and tarball patterns match exactly the URLs of their shapes, in both directions |
| Server.RouteOf | server.js:84-107 | the latest route exactly when its pattern matches; the upstream proxy exactly when none of the five patterns match |
| Server.LatestIsNotVersion | server.js:85-90 | a latest URL never matches the version pattern, so testing latest first hides no version request |
| Server.LatestRouteOf | server.js:85 | `/t/latest` goes to the latest handler |
| Server.MetaRouteOf | server.js:101 | `/t` goes to the whole-document handler |
| Server.VersionRouteNames | server.js:89 | a version URL reaches its handler with the first token as name and the first piece after it as version |
| Server.TarballRouteOf | server.js:97 | `/n/-/w`, with `w` ending in `.tgz`, goes to the tarball handler, not the listing proxy |
| Server.TarballRouteNames | server.js:97 | the tarball URL of a registry document, `/n/-/n-v.tgz`, reaches the tarball handler, which resolves the package `n` at `v` |
| Server.TarballNotListAll | server.js:93 | no `/n/-/w` URL contains `/-/all/` |
| Server.EmptyNameTarballRoute | server.js:97 | `/-/-/x.tgz` takes the tarball route |
| Server.TarballCrashInput | lib/handlers.js:86-97 | `/-/-/x.tgz` is routed to the tarball handler with the empty name, and the handler as written throws on it |
| Server.Load | server.js:43-70 | the loader answers Valid exactly for an existing unexpired file and NotExist for a missing or expired one |
| Server.LoadCollapsesExpired | server.js:59-64 | the loader never answers Expired; it answers Valid exactly where the tri-state classification does |
| Server.MakeFsStats | server.js:40-42 | the memo holds at most 5000 entries, each for `cacheExpiry`, and is loaded by the loader |
| Server.MemoBound | server.js:41 | such a memo never holds more than 5000 entries |
| Server.HttpRequest.constructor | server.js:79 | a request with its URL and headers |
| Server.ServeRequest | server.js:79-108 | the `host` header becomes the upstream host and the URL is unchanged; the request is proxied exactly on the listing route or when no pattern matches, and then nothing on disk or in the memo changes; each other route answers and leaves the state that its handler does; a throw comes only from the version and tarball routes or from the rewrite of a fetched document; a version request never gets the 404 page; no directory is removed (all through `Routed`) |
| Server.Dispatch | server.js:84-107 | the five patterns tried in order: the response shows the answer and the state is as `Routed` states for the route `RouteOf` picks |

## Left out

- Path joining is plain `/` concatenation. `Path.join`'s normalisation (`..`, doubled slashes, a trailing slash on the cache directory) is not modelled. One consequence is visible: the whole-document and latest handlers name the package by the whole URL, `/lodash`, and the tarball handler names it `lodash`. In the model these key different files and memo entries; in the source `Path.join` makes them one file.
- `Url.parse` and `Url.format` are reduced to scheme, host name, port and the rest. User info, `//` without a scheme, and IPv6 hosts are not modelled.
- JSON text is abstracted. A file holds a document or raw bytes, so `JSON.stringify`, number formatting and member order are not modelled.
- The registry's HTTP requests, proxy settings and TLS verification are left out, because they are network I/O. `proxyUpstream` (lib/registry.js:48-81) is only the fact that the response is passed upstream.
- Registry.GetMeta: on a status other than 200 the source calls back with the error and then goes on to parse the body and call back a second time (lib/registry.js:109-122). Only the first callback is modelled. What the second one does depends on the `async` library, which is not part of this model: with async 0.x the second `done(null, meta)` still advances `getMeta`'s series (lib/package.js:76-90), so `setMeta` stores the registry's error body; with async 1.x and later it throws "Callback was already called".
- Registry.GetTarball: the streamed body is written in one step, and the tarball is taken to be `Raw` bytes. A response error that arrives after the pipe has started is not modelled.
- Memo.AsyncCache.Set: eviction removes an arbitrary entry rather than the least recently used one. Single-flight loading and concurrent callers are not modelled.
- Memo.AsyncCache.Set: the source's `set(path, true)` stores `true`, not the code `CACHE_VALID`. It is modelled as storing Valid, the reading the callers give it.
- Package.SplitName: the `opts.config` check (lib/package.js:30-32) is configuration plumbing and is not modelled. As written, it can only throw when no configuration is passed.
- Server.ServeRequest: the whole-document and latest routes can throw too, so the contract does not say that only the version and tarball routes throw. They throw when the registry's document is one the tarball URL rewrite throws on (`Handlers.RewriteCrashes`).
- Package.VersionEntry: `versions` is looked up as an object through `Types.Prop`. An array-valued `versions` indexed by a number-like version, and a string-valued one, are not modelled: both are treated as holding no entry.
- The cache constructor's option checks (lib/cache.js:21-37) and `existsDisk` (lib/cache.js:70-75) are left out: they are configuration plumbing, and `existsDisk` is only used by the loader, which reads the file map directly.
- Handlers.InternalErr: the body `'Internal server error ' + err` is not modelled textually; the response records the reported error instead.
- Handlers.ServeFile: the Lactate static-file server, and its `notFound` hook that proxies upstream, are left out. Serving is recorded as the path handed to it.
- Server.RouteOf: `.*` in the JavaScript patterns stops at line terminators. URLs are taken to hold none.
- The two spellings of the configuration keys are unified into one `Config`. lib/config.js builds snake_case keys, and lib/handlers.js reads `config.cache_dir` and `config.cache_server` (lib/handlers.js:28-29). server.js reads camelCase keys: `Config.cacheDir`, `Config.cacheServer`, `Config.cacheExpiry` and `Config.upstreamHost` (server.js:29, 42, 80); so does lib/cache.js, with `cache.config.cacheExpiry` (lib/cache.js:55). As written, one spelling of each pair can be undefined. The model takes each pair to be one value. So the memo's age limit and the disk expiry test share one number, and the cache directory that is stripped is the one that is served.
- Cache.MetaPath, Cache.OrigPath, Cache.MetaVersionPath and Cache.TarballPath carry no contract of their own: their directories are stated by `MetaPathDirectory`, `VersionPathDirectory` and `TarballPathDirectory`, and their distinctness by `PathOfInjective`, `EntryPathInjective` and `VersionedFileInjective`.
- Cache.RewriteUrl carries no contract of its own: what it does is stated by `RewriteUrlParses`, `RewriteUrlPointsToMirror` and `RewriteUrlIdempotent`.
- Logging, command-line and config-file merging (lib/config.js), and HTTP/HTTPS server start-up with key loading (server.js:20-37, 110-140) are left out, because they do not affect the decisions modelled.

## Findings

| source | as written | input that shows it | evidently intended | confidence | as-written member | corrected member |
|---|---|---|---|---|---|---|
| lib/handlers.js:86-96 | the tarball route admits a URL whose text before `/-/` is empty; the name read from it is `""`, the package constructor returns an `Error` object, and `.getTarball` is then called on that object, which throws and takes the server down | `/-/-/x.tgz` | a request that names no package is answered with an error page (status 500) | high, not executed | Handlers.TarballAsWritten (exhibited by Server.TarballCrashInput) | Handlers.ServePackageTarball |

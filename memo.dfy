/**
 * The `AsyncCache` behind `fsStats`: a map from paths to freshness codes,
 * each stored with the time it was stored, holding at most `max` entries,
 * whose entries are served only while no older than `maxAge`, and which
 * calls its `load` function on a miss.
 */
module Memo {
  import opened Types

  datatype Entry = Entry(value: Freshness, stored: int)

  /** The loader: given the disk, a path and the current time, a freshness code. */
  type Loader = (map<string, File>, string, int) -> Freshness

  class AsyncCache {
    const max: nat
    const maxAge: int
    const load: Loader
    var entries: map<string, Entry>

    ghost predicate Valid()
      reads this
    {
      0 < max && |entries| <= max
    }

    constructor (max: nat, maxAge: int, load: Loader)
      requires 0 < max
      ensures Valid()
      ensures this.max == max && this.maxAge == maxAge && this.load == load
      ensures entries == map[]
    {
      this.max := max;
      this.maxAge := maxAge;
      this.load := load;
      entries := map[];
    }

    /** An entry is served while its age does not exceed `maxAge`. */
    predicate Fresh(path: string, now: int)
      reads this
    {
      path in entries && now - entries[path].stored <= maxAge
    }

    /** What `get(path)` answers at time `now` on disk `files`. */
    function Answer(files: map<string, File>, path: string, now: int): (f: Freshness)
      reads this
      ensures Fresh(path, now) ==> f == entries[path].value
      ensures !Fresh(path, now) ==> f == load(files, path, now)
    {
      AnswerIn(entries, files, path, now)
    }

    /** What `get(path)` would answer were the memo holding `es`. */
    function AnswerIn(es: map<string, Entry>, files: map<string, File>, path: string, now: int): Freshness {
      if path in es && now - es[path].stored <= maxAge then es[path].value else load(files, path, now)
    }

    /**
     * A call about `path` that evicts nothing leaves the answer for every
     * other path as it was.
     */
    lemma AnswerKept(before: map<string, Entry>, after: map<string, Entry>, path: string, files: map<string, File>,
                     p: string, now: int)
      requires Kept(before, after, path, max) && (path in before || |before| < max) && p != path
      ensures AnswerIn(after, files, p, now) == AnswerIn(before, files, p, now)
    {
      assert p in after <==> p in before;
    }

    /**
     * `set(path, value)`: stores the entry, evicting one other entry when the
     * memo is full and `path` is new.
     */
    method Set(path: string, value: Freshness, now: int)
      requires Valid()
      modifies this
      ensures Valid()
      ensures path in entries && entries[path] == Entry(value, now)
      ensures path in old(entries) || |old(entries)| < max ==> entries == old(entries)[path := Entry(value, now)]
      ensures Kept(old(entries), entries, path, max)
    {
      if path !in entries && |entries| == max {
        var victim :| victim in entries;
        Evicted(entries, victim, path, Entry(value, now));
        entries := (entries - {victim})[path := Entry(value, now)];
      } else {
        Stored(entries, path, Entry(value, now));
        entries := entries[path := Entry(value, now)];
      }
    }

    /**
     * `get(path)`: a fresh entry is answered from the memo and nothing
     * changes; otherwise the loader runs and its answer is stored.
     */
    method Get(files: map<string, File>, path: string, now: int) returns (f: Freshness)
      requires Valid()
      modifies this
      ensures Valid()
      ensures f == old(Answer(files, path, now))
      ensures old(Fresh(path, now)) ==> entries == old(entries)
      ensures !old(Fresh(path, now)) ==> path in entries && entries[path] == Entry(f, now)
      ensures !old(Fresh(path, now)) && (path in old(entries) || |old(entries)| < max) ==>
        entries == old(entries)[path := Entry(f, now)]
      ensures Kept(old(entries), entries, path, max)
    {
      if Fresh(path, now) {
        f := entries[path].value;
      } else {
        f := load(files, path, now);
        Set(path, f, now);
      }
    }
  }

  /**
   * Every entry of `after` other than `path`'s was already in `before`, the
   * memo does not shrink (so at most one entry of `before` other than
   * `path`'s was evicted, as `KeptLosesAtMostOne` shows), and none was
   * unless `before` was full and lacked `path`.
   */
  ghost predicate Kept(before: map<string, Entry>, after: map<string, Entry>, path: string, max: nat) {
    && (forall p :: p in after && p != path ==> p in before && after[p] == before[p])
    && |before| <= |after|
    && (path in before || |before| < max ==> before.Keys - {path} <= after.Keys)
  }

  /** A step that keeps `path` evicts at most one other entry. */
  lemma KeptLosesAtMostOne(before: map<string, Entry>, after: map<string, Entry>, path: string, max: nat)
    requires Kept(before, after, path, max)
    ensures |before.Keys - after.Keys - {path}| <= 1
  {
    assert after.Keys - {path} <= before.Keys;
    LossBound(before.Keys, after.Keys, path);
  }

  /** A set that does not shrink and gains only `p` loses at most one element besides `p`. */
  lemma LossBound(b: set<string>, a: set<string>, p: string)
    requires a - {p} <= b && |b| <= |a|
    ensures |b - a - {p}| <= 1
  {
    var lost := b - a - {p};
    var common := b * a - {p};
    assert b - {p} == common + lost;
    assert common * lost == {};
    assert |b - {p}| == |common| + |lost|;
    SubsetCard(a, common + {p});
    SubsetCard(b - {p}, b);
  }

  lemma SubsetCard(a: set<string>, b: set<string>)
    requires a <= b
    ensures |a| <= |b|
  {
    assert b == a + (b - a);
    assert a * (b - a) == {};
  }

  /** Two steps that keep `path`, the second finding it present, keep it overall. */
  lemma KeptThen(a: map<string, Entry>, b: map<string, Entry>, c: map<string, Entry>, path: string, max: nat)
    requires Kept(a, b, path, max) && path in b && Kept(b, c, path, max)
    ensures Kept(a, c, path, max)
  {
    assert b.Keys - {path} <= c.Keys;
  }

  /** Evicting `victim` to make room for a new `path` keeps the size and loses only `victim`. */
  lemma Evicted(before: map<string, Entry>, victim: string, path: string, e: Entry)
    requires victim in before && path !in before
    ensures var after := (before - {victim})[path := e];
      |after| == |before| && before.Keys - after.Keys - {path} == {victim}
  {
    var after := (before - {victim})[path := e];
    assert before.Keys == (before - {victim}).Keys + {victim};
    assert after.Keys == (before - {victim}).Keys + {path};
  }

  /** Storing without eviction grows the map by at most the new path and loses nothing. */
  lemma Stored(before: map<string, Entry>, path: string, e: Entry)
    ensures var after := before[path := e];
      && |after| == (if path in before then |before| else |before| + 1)
      && before.Keys - after.Keys - {path} == {}
  {
    var after := before[path := e];
    if path in before {
      assert after.Keys == before.Keys;
    } else {
      assert after.Keys == before.Keys + {path};
    }
  }
}

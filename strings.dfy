/**
 * The JavaScript string operations the mirror relies on, with their exact
 * semantics: `indexOf` (first occurrence), `replace` with a string pattern
 * (first occurrence only), `split` with a string separator, `join`, and
 * lodash's `compact` (drop the empty strings).
 */
module Strings {
  import opened Types

  /** `p` occurs in `s` starting at index `i`. */
  predicate OccursAt(s: string, p: string, i: nat) {
    i + |p| <= |s| && s[i..i + |p|] == p
  }

  predicate Contains(s: string, p: string) {
    exists i: nat | i <= |s| :: OccursAt(s, p, i)
  }

  /** The first occurrence of `p` in `s` at or after `i`. */
  function IndexOfFrom(s: string, p: string, i: nat): (r: Option<nat>)
    requires i <= |s|
    ensures r.Some? ==> i <= r.value && OccursAt(s, p, r.value)
    ensures r.Some? ==> forall j: nat :: i <= j < r.value ==> !OccursAt(s, p, j)
    ensures r.None? ==> forall j: nat :: i <= j ==> !OccursAt(s, p, j)
    decreases |s| - i
  {
    if OccursAt(s, p, i) then Some(i)
    else if i == |s| then None
    else IndexOfFrom(s, p, i + 1)
  }

  /** `s.indexOf(p)`, `None` standing for -1. */
  function IndexOf(s: string, p: string): (r: Option<nat>)
    ensures r.Some? ==> OccursAt(s, p, r.value)
    ensures r.Some? ==> forall j: nat :: j < r.value ==> !OccursAt(s, p, j)
    ensures r.None? <==> !Contains(s, p)
  {
    IndexOfFrom(s, p, 0)
  }

  /** `s.replace(p, rep)` for a string pattern: only the first occurrence is replaced. */
  function ReplaceFirst(s: string, p: string, rep: string): (r: string)
    ensures !Contains(s, p) ==> r == s
    ensures Contains(s, p) ==> |r| == |s| - |p| + |rep|
    ensures Contains(s, p) ==>
      var i := IndexOf(s, p).value;
      r[..i] == s[..i] && r[i..i + |rep|] == rep && r[i + |rep|..] == s[i + |p|..]
  {
    match IndexOf(s, p)
    case None => s
    case Some(i) => s[..i] + rep + s[i + |p|..]
  }

  /** `s.split(sep)` for a non-empty string separator. */
  function SplitOn(s: string, sep: string): (parts: seq<string>)
    requires |sep| > 0
    ensures |parts| >= 1
    ensures !Contains(s, sep) ==> parts == [s]
    decreases |s|
  {
    match IndexOf(s, sep)
    case None => [s]
    case Some(i) => [s[..i]] + SplitOn(s[i + |sep|..], sep)
  }

  /** `parts.join(sep)`. */
  function Join(parts: seq<string>, sep: string): string
    decreases |parts|
  {
    if |parts| == 0 then ""
    else if |parts| == 1 then parts[0]
    else parts[0] + sep + Join(parts[1..], sep)
  }

  /** lodash `_.compact` on strings: drops the empty (falsy) ones, keeping the order. */
  function Compact(parts: seq<string>): (r: seq<string>)
    ensures forall k :: 0 <= k < |r| ==> r[k] != ""
    ensures |r| <= |parts|
    ensures forall x :: x in r <==> x in parts && x != ""
    decreases |parts|
  {
    if |parts| == 0 then []
    else if parts[0] == "" then Compact(parts[1..])
    else [parts[0]] + Compact(parts[1..])
  }

  /** `Path.dirname` for a path with a separator: everything before the last `/`. */
  function Dirname(path: string): string
  {
    if |path| == 0 then "."
    else if path[|path| - 1] == '/' then Dirname(path[..|path| - 1])
    else LastSlashPrefix(path)
  }

  function LastSlashPrefix(path: string): string
    decreases |path|
  {
    if |path| == 0 then "."
    else if path[|path| - 1] == '/' then (if |path| == 1 then "/" else path[..|path| - 1])
    else LastSlashPrefix(path[..|path| - 1])
  }

  // ---------------------------------------------------------------------
  // Lemmas

  /** Appending text without a `/` to a path that does not end in one keeps its directory. */
  lemma DirnameAppend(path: string, tail: string)
    requires |path| > 0 && path[|path| - 1] != '/'
    requires forall i :: 0 <= i < |tail| ==> tail[i] != '/'
    ensures Dirname(path + tail) == Dirname(path)
  {
    LastSlashPrefixAppend(path, tail);
  }

  /** A path joined from a directory and a name without `/` lies in that directory. */
  lemma DirnameOfJoin(prefix: string, file: string)
    ensures |prefix| > 0 && |file| > 0 && '/' !in file ==> Dirname(prefix + "/" + file) == prefix
  {
    if |prefix| > 0 && |file| > 0 && '/' !in file {
      var p := prefix + "/" + file;
      assert p[|p| - 1] == file[|file| - 1];
      LastSlashPrefixAppend(prefix + "/", file);
      assert (prefix + "/")[..|prefix + "/"| - 1] == prefix;
    }
  }

  lemma {:induction false} LastSlashPrefixAppend(path: string, tail: string)
    requires forall i :: 0 <= i < |tail| ==> tail[i] != '/'
    ensures LastSlashPrefix(path + tail) == LastSlashPrefix(path)
    decreases |tail|
  {
    if |tail| > 0 {
      var init := tail[..|tail| - 1];
      assert (path + tail)[..|path + tail| - 1] == path + init;
      LastSlashPrefixAppend(path, init);
    } else {
      assert path + tail == path;
    }
  }

  /** Joining a head piece in front of at least one more piece puts the separator between them. */
  lemma JoinCons(head: string, tail: seq<string>, sep: string)
    requires |tail| >= 1
    ensures Join([head] + tail, sep) == head + sep + Join(tail, sep)
  {
    assert ([head] + tail)[1..] == tail;
  }

  /** Joining the pieces of a split gives the string back. */
  lemma {:induction false} JoinSplit(s: string, sep: string)
    requires |sep| > 0
    ensures Join(SplitOn(s, sep), sep) == s
    decreases |s|
  {
    match IndexOf(s, sep)
    case None =>
    case Some(i) =>
      var head, rest := s[..i], s[i + |sep|..];
      assert s == head + sep + rest by {
        assert s[i..i + |sep|] == sep;
      }
      SplitAt(head, sep, rest);
      JoinSplit(rest, sep);
      JoinCons(head, SplitOn(rest, sep), sep);
  }

  /** No piece of a split contains the separator. */
  lemma {:induction false} SplitPartsFree(s: string, sep: string)
    requires |sep| > 0
    ensures forall k :: 0 <= k < |SplitOn(s, sep)| ==> !Contains(SplitOn(s, sep)[k], sep)
    decreases |s|
  {
    match IndexOf(s, sep)
    case None =>
    case Some(i) =>
      var rest := s[i + |sep|..];
      SplitPartsFree(rest, sep);
      var head := s[..i];
      forall j: nat | j <= |head| ensures !OccursAt(head, sep, j) {
        if OccursAt(head, sep, j) {
          assert head[j..j + |sep|] == s[j..j + |sep|];
          assert j < i && OccursAt(s, sep, j);
        }
      }
  }

  /** Splitting off the last piece: joining all but the last, then the separator and the last. */
  lemma {:induction false} JoinInit(parts: seq<string>, sep: string)
    requires |parts| >= 2
    ensures Join(parts[..|parts| - 1], sep) + sep + parts[|parts| - 1] == Join(parts, sep)
    decreases |parts|
  {
    if |parts| == 2 {
      assert parts[..1] == [parts[0]];
    } else {
      var tail := parts[1..];
      JoinInit(tail, sep);
      assert parts[..|parts| - 1][1..] == tail[..|tail| - 1];
      assert tail[|tail| - 1] == parts[|parts| - 1];
    }
  }

  /** A character absent from `s` does not occur in it as a one-character pattern. */
  lemma NoSingleChar(s: string, c: char)
    requires c !in s
    ensures !Contains(s, [c])
  {
    forall j: nat | j <= |s| ensures !OccursAt(s, [c], j) {
      if j < |s| {
        assert s[j..j + 1][0] == s[j];
        assert s[j] in s;
      }
    }
  }

  /** A character present in `s` occurs in it as a one-character pattern. */
  lemma CharContained(s: string, c: char, k: nat)
    requires k < |s| && s[k] == c
    ensures Contains(s, [c])
  {
    assert s[k..k + 1] == [c];
    assert OccursAt(s, [c], k);
  }

  /**
   * The text after the last occurrence of `c` is determined: two ways of
   * writing `s` as `a + [c] + b` with `c` not in `b` agree.
   */
  lemma LastOccurrence(a: string, b: string, a': string, b': string, c: char)
    requires a + [c] + b == a' + [c] + b'
    requires c !in b && c !in b'
    ensures a == a' && b == b'
  {
    var s := a + [c] + b;
    assert s[|a|] == c && s[|a'|] == c;
    assert a == s[..|a|] == a';
    assert b == s[|a| + 1..] == b';
  }

  /** The first occurrence of a one-character pattern `c` in `a + [c] + b`, when `c` is not in `a`. */
  lemma IndexOfCharAfter(a: string, c: char, b: string)
    requires c !in a
    ensures IndexOf(a + [c] + b, [c]) == Some(|a|)
  {
    var s := a + [c] + b;
    assert s[|a|..|a| + 1] == [c];
    assert OccursAt(s, [c], |a|);
    forall j: nat | j < |a| ensures !OccursAt(s, [c], j) {
      assert s[j..j + 1][0] == a[j];
      assert a[j] in a;
    }
  }

  /** A pattern that occurs at index 0 is found at index 0. */
  lemma IndexOfPrefix(p: string, rest: string)
    ensures IndexOf(p + rest, p) == Some(0)
  {
    assert (p + rest)[0..|p|] == p;
    assert OccursAt(p + rest, p, 0);
  }

  /** Removing the first occurrence of a prefix leaves the remainder. */
  lemma ReplaceFirstPrefix(p: string, rest: string)
    ensures ReplaceFirst(p + rest, p, "") == rest
  {
    IndexOfPrefix(p, rest);
    assert (p + rest)[|p|..] == rest;
    assert (p + rest)[..0] == "";
  }

  /** Splitting at a first separator: the head and then the split of the rest. */
  lemma SplitAt(head: string, sep: string, rest: string)
    requires |sep| > 0
    requires IndexOf(head + sep + rest, sep) == Some(|head|)
    ensures SplitOn(head + sep + rest, sep) == [head] + SplitOn(rest, sep)
  {
    var s := head + sep + rest;
    assert s[..|head|] == head;
    assert s[|head| + |sep|..] == rest;
  }

  /** `split('/')` of `a + "/" + b` when `a` has no slash. */
  lemma SplitSlash(a: string, b: string)
    requires '/' !in a
    ensures SplitOn(a + "/" + b, "/") == [a] + SplitOn(b, "/")
  {
    IndexOfCharAfter(a, '/', b);
    var s := a + "/" + b;
    assert s[..|a|] == a;
    assert s[|a| + 1..] == b;
  }

  /** `compact` drops a trailing empty piece and keeps a trailing non-empty one, last. */
  lemma CompactSnoc(a: seq<string>, x: string)
    ensures Compact(a + [x]) == Compact(a) + (if x == "" then [] else [x])
  {
    CompactAppend(a, [x]);
    assert [x][1..] == [];
  }

  /** `compact` distributes over concatenation. */
  lemma {:induction false} CompactAppend(x: seq<string>, y: seq<string>)
    ensures Compact(x + y) == Compact(x) + Compact(y)
    decreases |x|
  {
    if |x| == 0 {
      assert x + y == y;
    } else {
      CompactAppend(x[1..], y);
      assert (x + y)[1..] == x[1..] + y;
    }
  }
}

/**
 The interceptor's exclusion list: substring patterns naming requests that
 get no Bearer header and never enter the refresh sequence.  The list is a
 value here; the interceptor state holds the current one.
 */
module Exclusion {

  import opened Wrappers
  import Strings

  /** `AuthInterceptorConfig`: the optional `excludedPaths` field. */
  datatype Config = Config(excludedPaths: Option<seq<string>>)

  /**
   `configureAuthInterceptor`: a present, non-empty list replaces the current
   one; an absent or empty list leaves it as it was.
   */
  function Configure(current: seq<string>, config: Config): (r: seq<string>)
    ensures config.excludedPaths.Some? && |config.excludedPaths.value| > 0 ==> r == config.excludedPaths.value
    ensures config.excludedPaths.None? || |config.excludedPaths.value| == 0 ==> r == current
  {
    match config.excludedPaths
    case Some(paths) => if |paths| > 0 then paths else current
    case None => current
  }

  /**
   `paths.filter(p => !existing.includes(p))`: the elements of `paths` not
   in `existing`, in order; repeats inside `paths` are kept.
   */
  function Fresh(paths: seq<string>, existing: seq<string>): (r: seq<string>)
    ensures |r| <= |paths|
    ensures forall i :: 0 <= i < |r| ==> r[i] in paths && r[i] !in existing
    ensures forall p :: p in paths && p !in existing ==> p in r
  {
    if |paths| == 0 then []
    else
      var rest := Fresh(paths[1..], existing);
      assert paths == [paths[0]] + paths[1..];
      (if paths[0] in existing then [] else [paths[0]]) + rest
  }

  /**
   Filtering keeps every fresh path exactly as often as `paths` holds it
   and drops every path already present: the result is `paths` with the
   occurrences of `existing` removed, and nothing else.
   */
  lemma {:induction false} FreshCounts(paths: seq<string>, existing: seq<string>)
    ensures forall p :: multiset(Fresh(paths, existing))[p] == (if p in existing then 0 else multiset(paths)[p])
    decreases |paths|
  {
    if |paths| > 0 {
      FreshCounts(paths[1..], existing);
      assert paths == [paths[0]] + paths[1..];
      var head := if paths[0] in existing then [] else [paths[0]];
      assert Fresh(paths, existing) == head + Fresh(paths[1..], existing);
    }
  }

  /** Filtering distributes over concatenation, so order is kept. */
  lemma {:induction false} FreshAppend(a: seq<string>, b: seq<string>, existing: seq<string>)
    ensures Fresh(a + b, existing) == Fresh(a, existing) + Fresh(b, existing)
    decreases |a|
  {
    if |a| == 0 {
      assert a + b == b;
    } else {
      assert (a + b)[0] == a[0];
      assert (a + b)[1..] == a[1..] + b;
      FreshAppend(a[1..], b, existing);
    }
  }

  /**
   `addExcludedPaths`: keeps the current list as a prefix and appends the
   arguments not already in it.
   */
  function AddExcluded(current: seq<string>, paths: seq<string>): (r: seq<string>)
    ensures |current| <= |r| && r[..|current|] == current
    ensures forall i :: |current| <= i < |r| ==> r[i] in paths && r[i] !in current
    ensures forall p :: p in r <==> p in current || p in paths
    ensures r[|current|..] == Fresh(paths, current)
    ensures forall p :: multiset(r[|current|..])[p] == (if p in current then 0 else multiset(paths)[p])
  {
    FreshCounts(paths, current);
    current + Fresh(paths, current)
  }

  /** Nothing is fresh when every path is already present. */
  lemma {:induction false} FreshOfCovered(paths: seq<string>, existing: seq<string>)
    requires forall p :: p in paths ==> p in existing
    ensures Fresh(paths, existing) == []
    decreases |paths|
  {
    if |paths| > 0 {
      assert paths[0] in existing;
      FreshOfCovered(paths[1..], existing);
    }
  }

  /** Adding the same paths a second time changes nothing. */
  lemma AddExcludedIdempotent(current: seq<string>, paths: seq<string>)
    ensures AddExcluded(AddExcluded(current, paths), paths) == AddExcluded(current, paths)
  {
    var once := AddExcluded(current, paths);
    FreshOfCovered(paths, once);
  }

  /** Adding a pattern already present leaves the list as it was. */
  lemma AddPresentIsNoop(current: seq<string>, p: string)
    requires p in current
    ensures AddExcluded(current, [p]) == current
  {
  }

  /**
   Duplicates inside one argument are not removed: a pattern new to the
   list is appended as many times as the argument holds it.
   */
  lemma AddKeepsRepeatsInArgument(current: seq<string>, paths: seq<string>, p: string)
    requires p !in current
    ensures multiset(AddExcluded(current, paths))[p] == multiset(paths)[p]
  {
    var r := AddExcluded(current, paths);
    assert r == current + r[|current|..];
  }

  /** For example, `["/login", "/login"]` added to an empty list is kept whole. */
  lemma AddKeepsRepeatsExample()
    ensures AddExcluded([], ["/login", "/login"]) == ["/login", "/login"]
  {
  }

  /** `getExcludedPaths`: a copy equal to the current list. */
  function Snapshot(current: seq<string>): (r: seq<string>)
    ensures |r| == |current| && forall i :: 0 <= i < |r| ==> r[i] == current[i]
  {
    current[..]
  }

  /**
   `isExcluded(url)`: `excluded.some(pattern => url.includes(pattern))`.
   An empty list excludes nothing.
   */
  function IsExcluded(excluded: seq<string>, url: string): (r: bool)
    ensures r <==> exists k :: 0 <= k < |excluded| && Strings.IsSubstring(excluded[k], url)
  {
    if |excluded| == 0 then false
    else if Strings.Includes(url, excluded[0]) then
      true
    else
      var rest := IsExcluded(excluded[1..], url);
      assert forall k :: 1 <= k < |excluded| ==> excluded[k] == excluded[1..][k - 1];
      rest
  }

  /** An empty pattern excludes every request. */
  lemma EmptyPatternExcludesAll(excluded: seq<string>, url: string)
    requires "" in excluded
    ensures IsExcluded(excluded, url)
  {
  }

  /** Appending patterns never un-excludes a request. */
  lemma AddExcludedMonotone(current: seq<string>, paths: seq<string>, url: string)
    requires IsExcluded(current, url)
    ensures IsExcluded(AddExcluded(current, paths), url)
  {
  }

}

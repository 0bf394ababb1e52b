/** Comparing the outputs of reruns: internal/pkg/reproxy/compare.go. */
module Compare {
  import opened GoInts
  import opened Lists
  import opened Strings
  import opened Wrappers

  datatype Status = DETERMINISTIC | NON_DETERMINISTIC | UNKNOWN | REMOTE_NON_DETERMINISTIC

  /** What one rerun reports: digests by path and its exit code. */
  datatype Rerun = Rerun(fileDigests: map<string, string>, dirDigests: map<string, string>, exitCode: int)

  datatype Mismatch = Mismatch(
    path: string,
    localDigests: seq<string>,
    remoteDigests: seq<string>,
    localExitCodes: seq<int>,
    remoteExitCodes: seq<int>,
    determinism: Status)

  // ---------------------------------------------------------------------------------------------
  // Lists without repetition
  // ---------------------------------------------------------------------------------------------

  /** dedup: through a map, so that the order of the result is arbitrary. */
  method Dedup(list: seq<string>) returns (unique: seq<string>)
    ensures Unique(unique) && Elements(unique) == Elements(list)
  {
    var fileSet: set<string> := {};
    for i := 0 to |list|
      invariant fileSet == Elements(list[..i])
    {
      assert list[..i + 1] == list[..i] + [list[i]];
      fileSet := fileSet + {list[i]};
    }
    assert list[..|list|] == list;
    unique := ListOf(fileSet);
  }

  /** The distinct values of a list in the order in which they first appear. */
  function FirstOccurrences(list: seq<int>): (unique: seq<int>)
    ensures Unique(unique) && Elements(unique) == Elements(list)
  {
    if list == [] then []
    else
      var last := list[|list| - 1];
      var before := FirstOccurrences(list[..|list| - 1]);
      assert list == list[..|list| - 1] + [last];
      assert Elements(list) == Elements(list[..|list| - 1]) + {last};
      if last in Elements(before) then before else before + [last]
  }

  /** More of a list leaves the values found so far in their places. */
  lemma {:induction false} FirstOccurrencesGrow(list: seq<int>, more: seq<int>)
    ensures FirstOccurrences(list) <= FirstOccurrences(list + more)
  {
    if more == [] {
      assert list + more == list;
    } else {
      var last := |more| - 1;
      FirstOccurrencesGrow(list, more[..last]);
      assert (list + more)[..|list + more| - 1] == list + more[..last];
    }
  }

  method DedupExitCodes(list: seq<int>) returns (unique: seq<int>)
    ensures unique == FirstOccurrences(list)
  {
    unique := [];
    var seen: set<int> := {};
    for i := 0 to |list|
      invariant unique == FirstOccurrences(list[..i]) && seen == Elements(unique)
    {
      assert list[..i + 1][..i] == list[..i];
      if list[i] !in seen {
        seen := seen + {list[i]};
        unique := unique + [list[i]];
      }
    }
    assert list[..|list|] == list;
  }

  // ---------------------------------------------------------------------------------------------
  // Classifying
  // ---------------------------------------------------------------------------------------------

  /** compareDigests and compareExitCodes: the status, and whether the values are worth logging. */
  function CompareOutcomes<T(==)>(local: seq<T>, remote: seq<T>, localReruns: int, remoteReruns: int): (Status, bool) {
    if |local| > 1 || |remote| > 1 then
      if |local| == 1 then (REMOTE_NON_DETERMINISTIC, true) else (NON_DETERMINISTIC, true)
    else
      var deterministicMismatch :=
        |local| == 1 && |remote| == 1 && local[0] != remote[0] && localReruns + remoteReruns > 2;
      var localDeterministic := |local| == 1 && remoteReruns == 0;
      var remoteDeterministic := |remote| == 1 && localReruns == 0;
      var deterministic := |local| == 1 && |remote| == 1 && local[0] == remote[0];
      if localDeterministic || remoteDeterministic || deterministic || deterministicMismatch then
        (DETERMINISTIC, deterministicMismatch)
      else (UNKNOWN, true)
  }

  /** One side has seen different values. */
  ghost predicate Varies<T(!new)>(values: set<T>) {
    exists x, y :: x in values && y in values && x != y
  }

  /** Each side is steady, but not on the same value, and one of them ran more than once. */
  ghost predicate SteadyDifference<T(!new)>(local: set<T>, remote: set<T>, reruns: int) {
    !Varies(local) && !Varies(remote) && local != {} && remote != {} && local != remote && reruns > 2
  }

  /** The status of the values that the two sides have seen. */
  ghost function StatusOf<T(!new)>(local: set<T>, remote: set<T>, localReruns: int, remoteReruns: int): Status {
    if Varies(local) || Varies(remote) then
      if local != {} && !Varies(local) then REMOTE_NON_DETERMINISTIC else NON_DETERMINISTIC
    else if local != {} && (remoteReruns == 0 || local == remote) then DETERMINISTIC
    else if remote != {} && localReruns == 0 then DETERMINISTIC
    else if SteadyDifference(local, remote, localReruns + remoteReruns) then DETERMINISTIC
    else UNKNOWN
  }

  /** Nothing about these values is logged. */
  ghost predicate Quiet<T(!new)>(local: set<T>, remote: set<T>, localReruns: int, remoteReruns: int) {
    && StatusOf(local, remote, localReruns, remoteReruns) == DETERMINISTIC
    && !SteadyDifference(local, remote, localReruns + remoteReruns)
  }

  lemma VariesSize<T(!new)>(list: seq<T>)
    requires Unique(list)
    ensures Varies(Elements(list)) <==> |list| > 1
    ensures Elements(list) == {} <==> list == []
  {
    if |list| > 1 {
      assert list[0] in Elements(list) && list[1] in Elements(list);
    }
    if list != [] {
      assert list[0] in Elements(list);
    }
  }

  lemma SingletonsAgree<T(!new)>(local: seq<T>, remote: seq<T>)
    requires |local| == 1 && |remote| == 1
    ensures local[0] == remote[0] <==> Elements(local) == Elements(remote)
  {
    assert local[0] in Elements(local);
  }

  /** The outcome depends on the sets of values only, not on the order in which they are listed. */
  lemma OutcomeOfSets<T(!new)>(local: seq<T>, remote: seq<T>, localReruns: int, remoteReruns: int)
    requires Unique(local) && Unique(remote)
    ensures var (status, logged) := CompareOutcomes(local, remote, localReruns, remoteReruns);
      && status == StatusOf(Elements(local), Elements(remote), localReruns, remoteReruns)
      && (!logged <==> Quiet(Elements(local), Elements(remote), localReruns, remoteReruns))
  {
    VariesSize(local);
    VariesSize(remote);
    if |local| == 1 && |remote| == 1 {
      SingletonsAgree(local, remote);
    }
  }

  /** All values are the same, there is one, and each side that was asked to rerun has reported. */
  ghost predicate Settled<T(!new)>(local: set<T>, remote: set<T>, localReruns: int, remoteReruns: int) {
    && !Varies(local + remote) && local + remote != {}
    && (localReruns != 0 ==> local != {}) && (remoteReruns != 0 ==> remote != {})
  }

  /** Each side has one value of its own, a side was not asked to rerun, and there were at most two reruns in all. */
  ghost predicate Hidden<T(!new)>(local: set<T>, remote: set<T>, localReruns: int, remoteReruns: int) {
    && !Varies(local) && !Varies(remote) && local != {} && remote != {} && local != remote
    && (localReruns == 0 || remoteReruns == 0) && localReruns + remoteReruns <= 2
  }

  /** Nothing is logged exactly when the values are settled, or when a side that was not asked has another value. */
  lemma QuietExactly<T(!new)>(local: set<T>, remote: set<T>, localReruns: int, remoteReruns: int)
    ensures Quiet(local, remote, localReruns, remoteReruns) <==>
      Settled(local, remote, localReruns, remoteReruns) || Hidden(local, remote, localReruns, remoteReruns)
  {
    assert Varies(local) || Varies(remote) ==> Varies(local + remote);
    if local != {} && remote != {} && !Varies(local) && !Varies(remote) {
      var x :| x in local;
      var y :| y in remote;
      assert local == {x} && remote == {y};
      assert x in local + remote && y in local + remote;
    } else {
      assert local == {} ==> local + remote == remote;
      assert remote == {} ==> local + remote == local;
    }
  }

  /**
   * The comparison on its own: two different values pass exactly when a side was not asked and there were at most
   * two reruns. compareAction never gets there, as rerunAction reruns only where asked.
   */
  lemma UnaskedSideCanHideDifference<T>(x: T, y: T, localReruns: int, remoteReruns: int)
    requires x != y
    ensures !CompareOutcomes([x], [y], localReruns, remoteReruns).1 <==>
      (localReruns == 0 || remoteReruns == 0) && localReruns + remoteReruns <= 2
  {
  }

  /** The status of a path, from those of its digests and of the exit codes. */
  function Overall(digests: Status, exitCodes: Status): (status: Status)
    ensures status.UNKNOWN? <==> digests.UNKNOWN? || exitCodes.UNKNOWN?
    ensures status.DETERMINISTIC? <==> digests.DETERMINISTIC? && exitCodes.DETERMINISTIC?
  {
    if digests == UNKNOWN || exitCodes == UNKNOWN then UNKNOWN
    else if digests == REMOTE_NON_DETERMINISTIC || exitCodes == REMOTE_NON_DETERMINISTIC then REMOTE_NON_DETERMINISTIC
    else if digests == NON_DETERMINISTIC || exitCodes == NON_DETERMINISTIC then NON_DETERMINISTIC
    else DETERMINISTIC
  }

  // ---------------------------------------------------------------------------------------------
  // What the reruns reported
  // ---------------------------------------------------------------------------------------------

  /** filepath.ToSlash */
  function ToSlash(path: string, separator: char): string {
    seq(|path|, i requires 0 <= i < |path| => if path[i] == separator then '/' else path[i])
  }

  /** The digests of a rerun; a directory takes the place of a file of the same name. */
  function AllDigests(rerun: Rerun): map<string, string> {
    rerun.fileDigests + rerun.dirDigests
  }

  function PathsOf(digests: map<string, string>, separator: char): set<string> {
    set k | k in digests :: ToSlash(k, separator)
  }

  function DigestsOf(digests: map<string, string>, path: string, separator: char): set<string> {
    set k | k in digests && ToSlash(k, separator) == path :: digests[k]
  }

  /** The distinct paths of the first `n` reruns. */
  function PathsUpTo(reruns: seq<Rerun>, n: nat, separator: char): set<string>
    requires n <= |reruns|
  {
    if n == 0 then {} else PathsUpTo(reruns, n - 1, separator) + PathsOf(AllDigests(reruns[n - 1]), separator)
  }

  function Paths(reruns: seq<Rerun>, separator: char): set<string> {
    PathsUpTo(reruns, |reruns|, separator)
  }

  /** All digests that the first `n` reruns reported for a path. */
  function CollectedUpTo(reruns: seq<Rerun>, n: nat, path: string, separator: char): set<string>
    requires n <= |reruns|
  {
    if n == 0 then {}
    else CollectedUpTo(reruns, n - 1, path, separator) + DigestsOf(AllDigests(reruns[n - 1]), path, separator)
  }

  function Collected(reruns: seq<Rerun>, path: string, separator: char): set<string> {
    CollectedUpTo(reruns, |reruns|, path, separator)
  }

  function ExitCodesUpTo(reruns: seq<Rerun>, n: nat): (codes: seq<int>)
    requires n <= |reruns|
    ensures |codes| == n && forall i :: 0 <= i < n ==> codes[i] == reruns[i].exitCode
  {
    if n == 0 then [] else ExitCodesUpTo(reruns, n - 1) + [reruns[n - 1].exitCode]
  }

  function ExitCodes(reruns: seq<Rerun>): seq<int> {
    ExitCodesUpTo(reruns, |reruns|)
  }

  lemma {:induction false} CollectedOnlyOnPaths(reruns: seq<Rerun>, n: nat, path: string, separator: char)
    requires n <= |reruns|
    ensures path in PathsUpTo(reruns, n, separator) <==> CollectedUpTo(reruns, n, path, separator) != {}
  {
    if n > 0 {
      CollectedOnlyOnPaths(reruns, n - 1, path, separator);
      var digests := AllDigests(reruns[n - 1]);
      if path in PathsOf(digests, separator) {
        var k :| k in digests && ToSlash(k, separator) == path;
        assert digests[k] in DigestsOf(digests, path, separator);
      }
    }
  }

  // ---------------------------------------------------------------------------------------------
  // Collecting
  // ---------------------------------------------------------------------------------------------

  /** An entry that holds these digests and nothing else yet. */
  predicate Holds(m: Mismatch, path: string, local: set<string>, remote: set<string>) {
    && m.path == path && Unique(m.localDigests) && Unique(m.remoteDigests)
    && Elements(m.localDigests) == local && Elements(m.remoteDigests) == remote
  }

  predicate Entries(mismatches: map<string, Mismatch>) {
    forall p :: p in mismatches ==>
      Holds(mismatches[p], p, Elements(mismatches[p].localDigests), Elements(mismatches[p].remoteDigests))
  }

  function Local(mismatches: map<string, Mismatch>, path: string): set<string> {
    if path in mismatches then Elements(mismatches[path].localDigests) else {}
  }

  function Remote(mismatches: map<string, Mismatch>, path: string): set<string> {
    if path in mismatches then Elements(mismatches[path].remoteDigests) else {}
  }

  /** What a rerun adds for a path to the side it belongs to. */
  function Added(mine: bool, digests: map<string, string>, path: string, separator: char): set<string> {
    if mine then DigestsOf(digests, path, separator) else {}
  }

  /** What one digest adds for a path to a side. */
  function AddedOne(mine: bool, path: string, digest: string, at: string): set<string> {
    if mine && path == at then {digest} else {}
  }

  ghost predicate AddsOneAt(
    was: map<string, Mismatch>, now: map<string, Mismatch>, path: string, digest: string, remote: bool, at: string)
  {
    && Local(now, at) == Local(was, at) + AddedOne(!remote, path, digest, at)
    && Remote(now, at) == Remote(was, at) + AddedOne(remote, path, digest, at)
  }

  /** `now` is `was` with `digest` added for `path` on one side. */
  ghost predicate AddsDigest(
    was: map<string, Mismatch>, now: map<string, Mismatch>, path: string, digest: string, remote: bool)
  {
    && Entries(now) && now.Keys == was.Keys + {path}
    && forall p :: AddsOneAt(was, now, path, digest, remote, p)
  }

  ghost predicate AddsAt(
    was: map<string, Mismatch>, now: map<string, Mismatch>, digests: map<string, string>, remote: bool, separator: char,
    at: string)
  {
    && Local(now, at) == Local(was, at) + Added(!remote, digests, at, separator)
    && Remote(now, at) == Remote(was, at) + Added(remote, digests, at, separator)
  }

  /** `now` is `was` with all of these digests added on one side. */
  ghost predicate AddsDigests(
    was: map<string, Mismatch>, now: map<string, Mismatch>, digests: map<string, string>, remote: bool, separator: char)
  {
    && Entries(now) && now.Keys == was.Keys + PathsOf(digests, separator)
    && forall p :: AddsAt(was, now, digests, remote, separator, p)
  }

  lemma AddOneMoreAt(
    was: map<string, Mismatch>, now: map<string, Mismatch>, next: map<string, Mismatch>,
    seen: map<string, string>, k: string, dg: string, remote: bool, separator: char, at: string)
    requires AddsAt(was, now, seen, remote, separator, at) && k !in seen
    requires AddsOneAt(now, next, ToSlash(k, separator), dg, remote, at)
    ensures AddsAt(was, next, seen[k := dg], remote, separator, at)
  {
    SeenGrows(seen, k, dg, at, separator);
  }

  lemma AddOneMore(
    was: map<string, Mismatch>, now: map<string, Mismatch>, next: map<string, Mismatch>,
    seen: map<string, string>, k: string, dg: string, remote: bool, separator: char)
    requires AddsDigests(was, now, seen, remote, separator) && k !in seen
    requires AddsDigest(now, next, ToSlash(k, separator), dg, remote)
    ensures AddsDigests(was, next, seen[k := dg], remote, separator)
  {
    var grown := seen[k := dg];
    forall p
      ensures AddsAt(was, next, grown, remote, separator, p)
    {
      assert AddsAt(was, now, seen, remote, separator, p);
      assert AddsOneAt(now, next, ToSlash(k, separator), dg, remote, p);
      AddOneMoreAt(was, now, next, seen, k, dg, remote, separator, p);
    }
    PathsGrow(seen, k, dg, separator);
  }

  lemma PathsGrow(seen: map<string, string>, k: string, dg: string, separator: char)
    ensures PathsOf(seen[k := dg], separator) == PathsOf(seen, separator) + {ToSlash(k, separator)}
  {
    assert forall j :: j in seen ==> j in seen[k := dg];
    assert k in seen[k := dg];
  }

  lemma SeenGrows(seen: map<string, string>, k: string, dg: string, at: string, separator: char)
    requires k !in seen
    ensures DigestsOf(seen[k := dg], at, separator) ==
      DigestsOf(seen, at, separator) + AddedOne(true, ToSlash(k, separator), dg, at)
  {
    var now := seen[k := dg];
    assert forall j :: j in seen ==> j in now && now[j] == seen[j];
    assert k in now;
  }

  /** The entry of the path is made if there is none. */
  method AddDigest(mismatches: map<string, Mismatch>, fp: string, dg: string, remote: bool)
      returns (now: map<string, Mismatch>)
    requires Entries(mismatches)
    ensures AddsDigest(mismatches, now, fp, dg, remote)
  {
    var m := if fp in mismatches then mismatches[fp] else Mismatch(fp, [], [], [], [], DETERMINISTIC);
    if remote {
      var digests := Dedup(m.remoteDigests + [dg]);
      assert Elements(m.remoteDigests + [dg]) == Elements(m.remoteDigests) + {dg};
      m := m.(remoteDigests := digests);
    } else {
      var digests := Dedup(m.localDigests + [dg]);
      assert Elements(m.localDigests + [dg]) == Elements(m.localDigests) + {dg};
      m := m.(localDigests := digests);
    }
    now := mismatches[fp := m];
  }

  method FindMismatches(
      fileDg: map<string, string>, dirDg: map<string, string>, mismatches: map<string, Mismatch>, remote: bool, separator: char)
      returns (now: map<string, Mismatch>, numVerified: int)
    requires Entries(mismatches)
    ensures AddsDigests(mismatches, now, fileDg + dirDg, remote, separator)
    ensures numVerified == |now.Keys| - |mismatches.Keys|
  {
    var allDg := fileDg + dirDg;
    now, numVerified := mismatches, 0;
    ghost var seen: map<string, string> := map[];
    var left := allDg.Keys;
    AddNothing(mismatches, remote, separator);
    while left != {}
      invariant Splits(allDg, seen, left)
      invariant AddsDigests(mismatches, now, seen, remote, separator)
      invariant numVerified == |now.Keys| - |mismatches.Keys|
      decreases left
    {
      var k :| k in left;
      var fp, dg := ToSlash(k, separator), allDg[k];
      if fp !in now {
        numVerified := numVerified + 1;
      }
      var next := AddDigest(now, fp, dg, remote);
      AddOneMore(mismatches, now, next, seen, k, dg, remote, separator);
      KeysGrow(now, next, fp);
      SplitNext(allDg, seen, left, k);
      left := left - {k};
      now, seen := next, seen[k := dg];
    }
    AllSplit(allDg, seen);
  }

  /** The keys of a map that are done with and those that are left. */
  ghost predicate Splits(all: map<string, string>, seen: map<string, string>, left: set<string>) {
    && (forall j :: j in left ==> j in all && j !in seen)
    && (forall j :: j in all ==> j in left || j in seen)
    && (forall j :: j in seen ==> j in all && seen[j] == all[j])
  }

  lemma SplitNext(all: map<string, string>, seen: map<string, string>, left: set<string>, k: string)
    requires Splits(all, seen, left) && k in left
    ensures Splits(all, seen[k := all[k]], left - {k})
  {
  }

  lemma AllSplit(all: map<string, string>, seen: map<string, string>)
    requires Splits(all, seen, {})
    ensures seen == all
  {
  }

  lemma AddNothing(was: map<string, Mismatch>, remote: bool, separator: char)
    requires Entries(was)
    ensures AddsDigests(was, was, map[], remote, separator)
  {
    assert forall p :: DigestsOf(map[], p, separator) == {};
    assert PathsOf(map[], separator) == {};
  }

  lemma KeysGrow(now: map<string, Mismatch>, next: map<string, Mismatch>, fp: string)
    requires next.Keys == now.Keys + {fp}
    ensures |next.Keys| == |now.Keys| + if fp in now then 0 else 1
  {
    if fp in now {
      assert next.Keys == now.Keys;
    }
  }

  // ---------------------------------------------------------------------------------------------
  // The report
  // ---------------------------------------------------------------------------------------------

  datatype Verification = Verification(mismatches: seq<Mismatch>, totalMismatches: int, totalVerified: int)

  /** The reruns of an action on its two sides. */
  datatype Reruns = Reruns(local: seq<Rerun>, remote: seq<Rerun>, localAsked: int, remoteAsked: int, separator: char)
  {
    function AllPaths(): set<string> {
      Paths(local, separator) + Paths(remote, separator)
    }

    ghost predicate DigestsQuiet(path: string) {
      Quiet(Collected(local, path, separator), Collected(remote, path, separator), localAsked, remoteAsked)
    }

    ghost predicate CodesQuiet() {
      Quiet(Elements(ExitCodes(local)), Elements(ExitCodes(remote)), localAsked, remoteAsked)
    }

    ghost function StatusOfPath(path: string): Status {
      Overall(
        StatusOf(Collected(local, path, separator), Collected(remote, path, separator), localAsked, remoteAsked),
        StatusOf(Elements(ExitCodes(local)), Elements(ExitCodes(remote)), localAsked, remoteAsked))
    }

    /** The entry for a path: the digests and the exit codes are there if they are worth logging. */
    ghost predicate Describes(m: Mismatch) {
      && Unique(m.localDigests) && Unique(m.remoteDigests)
      && Elements(m.localDigests) == (if DigestsQuiet(m.path) then {} else Collected(local, m.path, separator))
      && Elements(m.remoteDigests) == (if DigestsQuiet(m.path) then {} else Collected(remote, m.path, separator))
      && m.localExitCodes == (if CodesQuiet() then [] else FirstOccurrences(ExitCodes(local)))
      && m.remoteExitCodes == (if CodesQuiet() then [] else FirstOccurrences(ExitCodes(remote)))
      && m.determinism == StatusOfPath(m.path)
    }

    ghost predicate Listed(path: string) {
      path in AllPaths() && !(DigestsQuiet(path) && CodesQuiet())
    }
  }

  ghost predicate Shows(v: Verification, path: string) {
    exists i :: 0 <= i < |v.mismatches| && v.mismatches[i].path == path
  }

  /** What compareAction reports: the listed paths in order, each with its entry, and the totals. */
  ghost predicate Reports(v: Verification, r: Reruns) {
    && (forall i, j :: 0 <= i < j < |v.mismatches| ==> Before(v.mismatches[i].path, v.mismatches[j].path))
    && (forall i :: 0 <= i < |v.mismatches| ==> r.Describes(v.mismatches[i]))
    && (forall p :: Shows(v, p) <==> r.Listed(p))
    && v.totalMismatches == Int32(|v.mismatches|)
    && v.totalVerified == |r.AllPaths()|
  }

  // ---------------------------------------------------------------------------------------------
  // compareAction
  // ---------------------------------------------------------------------------------------------

  ghost predicate SideAddedAt(
    was: map<string, Mismatch>, now: map<string, Mismatch>, reruns: seq<Rerun>, n: nat, remote: bool, separator: char,
    at: string)
    requires n <= |reruns|
  {
    && Local(now, at) == Local(was, at) + (if remote then {} else CollectedUpTo(reruns, n, at, separator))
    && Remote(now, at) == Remote(was, at) + (if remote then CollectedUpTo(reruns, n, at, separator) else {})
  }

  /** `now` is `was` with everything added that the first `n` reruns of one side reported. */
  ghost predicate SideAdded(
    was: map<string, Mismatch>, now: map<string, Mismatch>, reruns: seq<Rerun>, n: nat, remote: bool, separator: char)
    requires n <= |reruns|
  {
    && Entries(now) && now.Keys == was.Keys + PathsUpTo(reruns, n, separator)
    && forall p :: SideAddedAt(was, now, reruns, n, remote, separator, p)
  }

  lemma SideStarts(was: map<string, Mismatch>, reruns: seq<Rerun>, remote: bool, separator: char)
    requires Entries(was)
    ensures SideAdded(was, was, reruns, 0, remote, separator)
  {
  }

  lemma SideGrowsAt(
    was: map<string, Mismatch>, now: map<string, Mismatch>, next: map<string, Mismatch>,
    reruns: seq<Rerun>, i: nat, remote: bool, separator: char, at: string)
    requires i < |reruns| && SideAddedAt(was, now, reruns, i, remote, separator, at)
    requires AddsAt(now, next, AllDigests(reruns[i]), remote, separator, at)
    ensures SideAddedAt(was, next, reruns, i + 1, remote, separator, at)
  {
  }

  lemma SideGrows(
    was: map<string, Mismatch>, now: map<string, Mismatch>, next: map<string, Mismatch>,
    reruns: seq<Rerun>, i: nat, remote: bool, separator: char)
    requires i < |reruns| && SideAdded(was, now, reruns, i, remote, separator)
    requires AddsDigests(now, next, AllDigests(reruns[i]), remote, separator)
    ensures SideAdded(was, next, reruns, i + 1, remote, separator)
  {
    var n := i + 1;
    forall p
      ensures SideAddedAt(was, next, reruns, n, remote, separator, p)
    {
      assert SideAddedAt(was, now, reruns, i, remote, separator, p);
      assert AddsAt(now, next, AllDigests(reruns[i]), remote, separator, p);
      SideGrowsAt(was, now, next, reruns, i, remote, separator, p);
    }
  }

  /** The loop over the reruns of one side. */
  method CollectSide(reruns: seq<Rerun>, mismatches: map<string, Mismatch>, remote: bool, separator: char)
      returns (now: map<string, Mismatch>, exitCodes: seq<int>, numVerified: int)
    requires Entries(mismatches)
    ensures SideAdded(mismatches, now, reruns, |reruns|, remote, separator)
    ensures exitCodes == ExitCodes(reruns)
    ensures numVerified == |now.Keys| - |mismatches.Keys|
  {
    now, exitCodes, numVerified := mismatches, [], 0;
    SideStarts(mismatches, reruns, remote, separator);
    for i := 0 to |reruns|
      invariant SideAdded(mismatches, now, reruns, i, remote, separator)
      invariant exitCodes == ExitCodesUpTo(reruns, i)
      invariant numVerified == |now.Keys| - |mismatches.Keys|
    {
      var next, n := FindMismatches(reruns[i].fileDigests, reruns[i].dirDigests, now, remote, separator);
      SideGrows(mismatches, now, next, reruns, i, remote, separator);
      now, exitCodes, numVerified := next, exitCodes + [reruns[i].exitCode], numVerified + n;
    }
  }

  /** The decision about one path; None is to delete its entry. */
  method Classify(mismatch: Mismatch, localExitCodes: seq<int>, remoteExitCodes: seq<int>, r: Reruns)
      returns (kept: Option<Mismatch>)
    requires Holds(mismatch, mismatch.path,
                   Collected(r.local, mismatch.path, r.separator), Collected(r.remote, mismatch.path, r.separator))
    requires localExitCodes == FirstOccurrences(ExitCodes(r.local))
    requires remoteExitCodes == FirstOccurrences(ExitCodes(r.remote))
    ensures kept.None? <==> r.DigestsQuiet(mismatch.path) && r.CodesQuiet()
    ensures kept.Some? ==> kept.value.path == mismatch.path && r.Describes(kept.value)
  {
    var m := mismatch.(localExitCodes := localExitCodes, remoteExitCodes := remoteExitCodes);
    var (dgStatus, shouldLogDg) := CompareOutcomes(m.localDigests, m.remoteDigests, r.localAsked, r.remoteAsked);
    var (ecStatus, shouldLogEc) := CompareOutcomes(m.localExitCodes, m.remoteExitCodes, r.localAsked, r.remoteAsked);
    OutcomeOfSets(m.localDigests, m.remoteDigests, r.localAsked, r.remoteAsked);
    OutcomeOfSets(m.localExitCodes, m.remoteExitCodes, r.localAsked, r.remoteAsked);
    if !shouldLogDg && !shouldLogEc {
      return None;
    } else if !shouldLogDg {
      m := m.(localDigests := [], remoteDigests := []);
    } else if !shouldLogEc {
      m := m.(localExitCodes := [], remoteExitCodes := []);
    }
    return Some(m.(determinism := Overall(dgStatus, ecStatus)));
  }

  /** The entries of a map in the order of their paths. */
  method MismatchesToProto(mismatches: map<string, Mismatch>, numVerified: int) returns (v: Verification)
    requires forall p :: p in mismatches ==> mismatches[p].path == p
    ensures forall i, j :: 0 <= i < j < |v.mismatches| ==> Before(v.mismatches[i].path, v.mismatches[j].path)
    ensures forall i :: 0 <= i < |v.mismatches| ==>
      v.mismatches[i].path in mismatches && v.mismatches[i] == mismatches[v.mismatches[i].path]
    ensures forall p :: p in mismatches ==> Shows(v, p)
    ensures v.totalMismatches == Int32(|v.mismatches|) && v.totalVerified == numVerified
  {
    var keys := ListOf(mismatches.Keys);
    SortAscends(keys);
    assert forall p :: p in keys <==> p in Elements(keys);
    keys := Sort(keys);
    var res: seq<Mismatch> := [];
    for i := 0 to |keys|
      invariant |res| == i && forall j :: 0 <= j < i ==> keys[j] in mismatches && res[j] == mismatches[keys[j]]
    {
      assert keys[i] in keys;
      res := res + [mismatches[keys[i]]];
    }
    v := Verification(res, Int32(|mismatches|), numVerified);
    assert |mismatches| == |mismatches.Keys|;
    forall p | p in mismatches ensures Shows(v, p) {
      assert p in keys;
      var i :| 0 <= i < |keys| && keys[i] == p;
      assert v.mismatches[i].path == p;
    }
  }

  ghost predicate Ready(m: Mismatch, path: string, r: Reruns) {
    Holds(m, path, Collected(r.local, path, r.separator), Collected(r.remote, path, r.separator))
  }

  /** A path that is left has its collected digests; the others have their entry or none. */
  ghost predicate JudgedAt(mismatches: map<string, Mismatch>, left: set<string>, r: Reruns, path: string) {
    if path in left then path in mismatches && path in r.AllPaths() && Ready(mismatches[path], path, r)
    else
      && (path in mismatches <==> r.Listed(path))
      && (path in mismatches ==> mismatches[path].path == path && r.Describes(mismatches[path]))
  }

  ghost predicate Judged(mismatches: map<string, Mismatch>, left: set<string>, r: Reruns) {
    forall p :: JudgedAt(mismatches, left, r, p)
  }

  lemma JudgeNext(
    was: map<string, Mismatch>, now: map<string, Mismatch>, left: set<string>, r: Reruns, fp: string,
    kept: Option<Mismatch>)
    requires Judged(was, left, r) && fp in left
    requires kept.None? <==> r.DigestsQuiet(fp) && r.CodesQuiet()
    requires kept.Some? ==> kept.value.path == fp && r.Describes(kept.value)
    requires now == if kept.Some? then was[fp := kept.value] else was - {fp}
    ensures Judged(now, left - {fp}, r)
  {
    assert JudgedAt(was, left, r, fp);
    var rest := left - {fp};
    forall p
      ensures JudgedAt(now, rest, r, p)
    {
      assert JudgedAt(was, left, r, p);
    }
  }

  lemma CollectedBoth(local: map<string, Mismatch>, both: map<string, Mismatch>, r: Reruns)
    requires SideAdded(map[], local, r.local, |r.local|, false, r.separator)
    requires SideAdded(local, both, r.remote, |r.remote|, true, r.separator)
    ensures both.Keys == r.AllPaths() && Judged(both, both.Keys, r)
  {
    var keys := both.Keys;
    forall p
      ensures JudgedAt(both, keys, r, p)
    {
      assert SideAddedAt(map[], local, r.local, |r.local|, false, r.separator, p);
      assert SideAddedAt(local, both, r.remote, |r.remote|, true, r.separator, p);
    }
  }

  lemma ReportsJudged(v: Verification, mismatches: map<string, Mismatch>, r: Reruns)
    requires Judged(mismatches, {}, r)
    requires forall i, j :: 0 <= i < j < |v.mismatches| ==> Before(v.mismatches[i].path, v.mismatches[j].path)
    requires forall i :: 0 <= i < |v.mismatches| ==>
      v.mismatches[i].path in mismatches && v.mismatches[i] == mismatches[v.mismatches[i].path]
    requires forall p :: p in mismatches ==> Shows(v, p)
    requires v.totalMismatches == Int32(|v.mismatches|) && v.totalVerified == |r.AllPaths()|
    ensures Reports(v, r)
  {
    forall i | 0 <= i < |v.mismatches|
      ensures r.Describes(v.mismatches[i])
    {
      assert JudgedAt(mismatches, {}, r, v.mismatches[i].path);
    }
    forall p
      ensures Shows(v, p) <==> r.Listed(p)
    {
      assert JudgedAt(mismatches, {}, r, p);
    }
  }

  method CompareAction(
      compare: bool, local: seq<Rerun>, remote: Option<seq<Rerun>>, numLocalReruns: int, numRemoteReruns: int, separator: char)
      returns (verification: Option<Verification>)
    ensures verification.Some? <==> compare
    ensures verification.Some? ==>
      var remoteReruns := if remote.Some? then remote.value else [];
      Reports(verification.value, Reruns(local, remoteReruns, numLocalReruns, numRemoteReruns, separator))
  {
    if !compare {
      return None;
    }
    var r := Reruns(local, if remote.Some? then remote.value else [], numLocalReruns, numRemoteReruns, separator);
    var ours, localExitCodes, numLocal := CollectSide(local, map[], false, separator);
    var mismatches, remoteExitCodes, numRemote := ours, [], 0;
    if remote.Some? {
      mismatches, remoteExitCodes, numRemote := CollectSide(remote.value, ours, true, separator);
    } else {
      SideStarts(ours, [], true, separator);
    }
    CollectedBoth(ours, mismatches, r);
    localExitCodes := DedupExitCodes(localExitCodes);
    remoteExitCodes := DedupExitCodes(remoteExitCodes);
    var left := mismatches.Keys;
    while left != {}
      invariant Judged(mismatches, left, r)
      decreases left
    {
      var fp :| fp in left;
      assert JudgedAt(mismatches, left, r, fp);
      var kept := Classify(mismatches[fp], localExitCodes, remoteExitCodes, r);
      var now := if kept.Some? then mismatches[fp := kept.value] else mismatches - {fp};
      JudgeNext(mismatches, now, left, r, fp, kept);
      mismatches, left := now, left - {fp};
    }
    forall p | p in mismatches
      ensures mismatches[p].path == p
    {
      assert JudgedAt(mismatches, {}, r, p);
    }
    var v := MismatchesToProto(mismatches, numLocal + numRemote);
    ReportsJudged(v, mismatches, r);
    return Some(v);
  }
}

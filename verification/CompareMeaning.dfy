/**
 * What a comparison report says about the reruns: which paths are in it, with which values and which status, in
 * terms of what each rerun reported.
 */
module CompareMeaning {
  import opened Compare
  import opened Lists
  import opened Strings

  // ---------------------------------------------------------------------------------------------
  // What the reruns reported
  // ---------------------------------------------------------------------------------------------

  /** The rerun has this digest under this name; a directory takes the place of a file of the same name. */
  predicate Gives(rerun: Rerun, name: string, digest: string) {
    if name in rerun.dirDigests then rerun.dirDigests[name] == digest
    else name in rerun.fileDigests && rerun.fileDigests[name] == digest
  }

  /** The path is the name with forward slashes. */
  predicate Names(name: string, path: string, separator: char) {
    |name| == |path| && forall i :: 0 <= i < |name| ==> path[i] == if name[i] == separator then '/' else name[i]
  }

  ghost predicate GivesFor(rerun: Rerun, path: string, separator: char, digest: string) {
    exists name :: Gives(rerun, name, digest) && Names(name, path, separator)
  }

  /** Some rerun has this digest for this path. */
  ghost predicate Gave(reruns: seq<Rerun>, path: string, separator: char, digest: string) {
    exists i :: 0 <= i < |reruns| && GivesFor(reruns[i], path, separator, digest)
  }

  lemma NamesExactly(name: string, path: string, separator: char)
    ensures Names(name, path, separator) <==> ToSlash(name, separator) == path
  {
  }

  lemma GivenExactly(rerun: Rerun, path: string, separator: char, x: string)
    ensures x in DigestsOf(AllDigests(rerun), path, separator) <==> GivesFor(rerun, path, separator, x)
  {
    var all := AllDigests(rerun);
    if x in DigestsOf(all, path, separator) {
      var k :| k in all && ToSlash(k, separator) == path && all[k] == x;
      NamesExactly(k, path, separator);
      assert Gives(rerun, k, x);
    }
    if GivesFor(rerun, path, separator, x) {
      var k :| Gives(rerun, k, x) && Names(k, path, separator);
      NamesExactly(k, path, separator);
      assert k in all && all[k] == x;
    }
  }

  lemma {:induction false} CollectedUpToExactly(reruns: seq<Rerun>, n: nat, path: string, separator: char, x: string)
    requires n <= |reruns|
    ensures x in CollectedUpTo(reruns, n, path, separator) <==>
      exists i :: 0 <= i < n && GivesFor(reruns[i], path, separator, x)
  {
    if n > 0 {
      CollectedUpToExactly(reruns, n - 1, path, separator, x);
      GivenExactly(reruns[n - 1], path, separator, x);
    }
  }

  /** The collected digests of a path are those that some rerun has for it. */
  lemma CollectedExactly(reruns: seq<Rerun>, path: string, separator: char, x: string)
    ensures x in Collected(reruns, path, separator) <==> Gave(reruns, path, separator, x)
  {
    CollectedUpToExactly(reruns, |reruns|, path, separator, x);
  }

  /** The paths that are verified are those for which some rerun has a digest. */
  lemma PathsExactly(r: Reruns, path: string)
    ensures path in r.AllPaths() <==> exists x :: GaveAtAll(r, path, x)
  {
    ReportedExactly(r.local, path, r.separator);
    ReportedExactly(r.remote, path, r.separator);
    if x :| Gave(r.local, path, r.separator, x) {
      assert GaveAtAll(r, path, x);
    }
    if x :| Gave(r.remote, path, r.separator, x) {
      assert GaveAtAll(r, path, x);
    }
  }

  lemma ReportedExactly(reruns: seq<Rerun>, path: string, separator: char)
    ensures path in Paths(reruns, separator) <==> exists x :: Gave(reruns, path, separator, x)
    ensures path in Paths(reruns, separator) <==> Collected(reruns, path, separator) != {}
  {
    CollectedOnlyOnPaths(reruns, |reruns|, path, separator);
    var all := Collected(reruns, path, separator);
    if all != {} {
      var x :| x in all;
      CollectedExactly(reruns, path, separator, x);
    }
    forall x | Gave(reruns, path, separator, x) ensures x in all {
      CollectedExactly(reruns, path, separator, x);
    }
  }

  lemma CodesExactly(reruns: seq<Rerun>, code: int)
    ensures code in Elements(ExitCodes(reruns)) <==> exists i :: 0 <= i < |reruns| && reruns[i].exitCode == code
  {
    if i :| 0 <= i < |reruns| && reruns[i].exitCode == code {
      assert ExitCodes(reruns)[i] == code;
    }
  }

  // ---------------------------------------------------------------------------------------------
  // Which paths are in the report
  // ---------------------------------------------------------------------------------------------

  /** Only the sides that were asked to rerun did. */
  predicate AskedOnly(r: Reruns) {
    (r.localAsked == 0 ==> r.local == []) && (r.remoteAsked == 0 ==> r.remote == [])
  }

  ghost predicate GaveAtAll(r: Reruns, path: string, x: string) {
    Gave(r.local, path, r.separator, x) || Gave(r.remote, path, r.separator, x)
  }

  /** All digests that the reruns of both sides have for a path are the same. */
  ghost predicate SameDigests(r: Reruns, path: string) {
    forall x, y :: GaveAtAll(r, path, x) && GaveAtAll(r, path, y) ==> x == y
  }

  /** All reruns of both sides have the same exit code. */
  predicate SameExitCodes(r: Reruns) {
    var both := r.local + r.remote;
    forall i, j :: 0 <= i < |both| && 0 <= j < |both| ==> both[i].exitCode == both[j].exitCode
  }

  lemma SameDigestsExactly(r: Reruns, path: string)
    ensures SameDigests(r, path) <==>
      !Varies(Collected(r.local, path, r.separator) + Collected(r.remote, path, r.separator))
  {
    var all := Collected(r.local, path, r.separator) + Collected(r.remote, path, r.separator);
    forall x
      ensures x in all <==> GaveAtAll(r, path, x)
    {
      CollectedExactly(r.local, path, r.separator, x);
      CollectedExactly(r.remote, path, r.separator, x);
    }
  }

  lemma SameExitCodesExactly(r: Reruns)
    ensures SameExitCodes(r) <==> !Varies(Elements(ExitCodes(r.local)) + Elements(ExitCodes(r.remote)))
  {
    var all := Elements(ExitCodes(r.local)) + Elements(ExitCodes(r.remote));
    var both := r.local + r.remote;
    forall i | 0 <= i < |both| ensures both[i].exitCode in all {
      if i < |r.local| {
        CodesExactly(r.local, both[i].exitCode);
        assert r.local[i].exitCode == both[i].exitCode;
      } else {
        CodesExactly(r.remote, both[i].exitCode);
        assert r.remote[i - |r.local|].exitCode == both[i].exitCode;
      }
    }
    forall c | c in all ensures exists i :: 0 <= i < |both| && both[i].exitCode == c {
      CodesExactly(r.local, c);
      CodesExactly(r.remote, c);
      if i :| 0 <= i < |r.local| && r.local[i].exitCode == c {
        assert both[i].exitCode == c;
      } else {
        var i :| 0 <= i < |r.remote| && r.remote[i].exitCode == c;
        assert both[|r.local| + i].exitCode == c;
      }
    }
  }

  /**
   * When only the sides that were asked to rerun did, a path is left out of the report exactly when all digests
   * that the reruns have for it are the same, all reruns have the same exit code, and each side that was asked
   * to rerun has a digest for it.
   */
  lemma DroppedExactly(v: Verification, r: Reruns, path: string)
    requires Reports(v, r) && path in r.AllPaths() && AskedOnly(r)
    ensures !Shows(v, path) <==>
      && SameDigests(r, path) && SameExitCodes(r)
      && (r.localAsked != 0 ==> exists x :: Gave(r.local, path, r.separator, x))
      && (r.remoteAsked != 0 ==> exists x :: Gave(r.remote, path, r.separator, x))
  {
    var l, q := Collected(r.local, path, r.separator), Collected(r.remote, path, r.separator);
    ReportedExactly(r.local, path, r.separator);
    ReportedExactly(r.remote, path, r.separator);
    SameDigestsExactly(r, path);
    SameExitCodesExactly(r);
    QuietExactly(l, q, r.localAsked, r.remoteAsked);
    QuietExactly(Elements(ExitCodes(r.local)), Elements(ExitCodes(r.remote)), r.localAsked, r.remoteAsked);
    CodesOfReruns(r.local);
    CodesOfReruns(r.remote);
    assert r.Listed(path) <==> Shows(v, path);
  }

  lemma CodesOfReruns(reruns: seq<Rerun>)
    ensures Elements(ExitCodes(reruns)) == {} <==> reruns == []
  {
    if reruns != [] {
      CodesExactly(reruns, reruns[0].exitCode);
    }
  }

  // ---------------------------------------------------------------------------------------------
  // What an entry says
  // ---------------------------------------------------------------------------------------------

  /** The digests of an entry are those that the reruns have for its path, or none at all if they all agree. */
  lemma EntryDigestsExactly(v: Verification, r: Reruns, i: nat)
    requires Reports(v, r) && AskedOnly(r) && i < |v.mismatches|
    ensures var m := v.mismatches[i];
      var settled :=
        && SameDigests(r, m.path)
        && (r.localAsked != 0 ==> exists x :: Gave(r.local, m.path, r.separator, x))
        && (r.remoteAsked != 0 ==> exists x :: Gave(r.remote, m.path, r.separator, x));
      && (forall x :: x in m.localDigests <==> !settled && Gave(r.local, m.path, r.separator, x))
      && (forall x :: x in m.remoteDigests <==> !settled && Gave(r.remote, m.path, r.separator, x))
  {
    var m := v.mismatches[i];
    var l, q := Collected(r.local, m.path, r.separator), Collected(r.remote, m.path, r.separator);
    assert Shows(v, m.path) && r.Listed(m.path) && r.Describes(m);
    ReportedExactly(r.local, m.path, r.separator);
    ReportedExactly(r.remote, m.path, r.separator);
    SameDigestsExactly(r, m.path);
    QuietExactly(l, q, r.localAsked, r.remoteAsked);
    forall x
      ensures x in m.localDigests <==> x in Elements(m.localDigests)
      ensures x in m.remoteDigests <==> x in Elements(m.remoteDigests)
      ensures x in l <==> Gave(r.local, m.path, r.separator, x)
      ensures x in q <==> Gave(r.remote, m.path, r.separator, x)
    {
      CollectedExactly(r.local, m.path, r.separator, x);
      CollectedExactly(r.remote, m.path, r.separator, x);
    }
  }

  /** The exit codes of an entry are those of the reruns, or none at all if they all agree. */
  lemma EntryCodesExactly(v: Verification, r: Reruns, i: nat)
    requires Reports(v, r) && AskedOnly(r) && i < |v.mismatches|
    ensures var m := v.mismatches[i];
      var settled :=
        SameExitCodes(r) && (r.localAsked != 0 ==> r.local != []) && (r.remoteAsked != 0 ==> r.remote != []);
      && (forall c :: c in m.localExitCodes <==> !settled && exists j :: 0 <= j < |r.local| && r.local[j].exitCode == c)
      && (forall c :: c in m.remoteExitCodes <==> !settled && exists j :: 0 <= j < |r.remote| && r.remote[j].exitCode == c)
  {
    var m := v.mismatches[i];
    assert Shows(v, m.path) && r.Listed(m.path) && r.Describes(m);
    SomeRerun(r, m.path);
    SameExitCodesExactly(r);
    CodesOfReruns(r.local);
    CodesOfReruns(r.remote);
    QuietExactly(Elements(ExitCodes(r.local)), Elements(ExitCodes(r.remote)), r.localAsked, r.remoteAsked);
    forall c
      ensures c in FirstOccurrences(ExitCodes(r.local)) <==> exists j :: 0 <= j < |r.local| && r.local[j].exitCode == c
      ensures c in FirstOccurrences(ExitCodes(r.remote)) <==> exists j :: 0 <= j < |r.remote| && r.remote[j].exitCode == c
    {
      CodesExactly(r.local, c);
      CodesExactly(r.remote, c);
      assert c in FirstOccurrences(ExitCodes(r.local)) <==> c in Elements(FirstOccurrences(ExitCodes(r.local)));
      assert c in FirstOccurrences(ExitCodes(r.remote)) <==> c in Elements(FirstOccurrences(ExitCodes(r.remote)));
    }
  }

  lemma SomeRerun(r: Reruns, path: string)
    requires path in r.AllPaths()
    ensures r.local != [] || r.remote != []
  {
  }

  /** One side has one value and the other several, the local one being steady. */
  ghost predicate OnlyRemoteVaries<T(!new)>(local: set<T>, remote: set<T>) {
    local != {} && !Varies(local) && Varies(remote)
  }

  /** Nothing can be said: a side that was asked has no value, or each side has its own after one rerun each. */
  ghost predicate Unclear<T(!new)>(local: set<T>, remote: set<T>, localAsked: int, remoteAsked: int) {
    && !Varies(local) && !Varies(remote)
    && ((localAsked != 0 && local == {}) || (remoteAsked != 0 && remote == {}) || local + remote == {}
        || (local != {} && remote != {} && local != remote && localAsked + remoteAsked <= 2))
  }

  /** The status of the values of the two sides, if only those that were asked have any. */
  lemma StatusMeans<T(!new)>(local: set<T>, remote: set<T>, localAsked: int, remoteAsked: int)
    requires (localAsked == 0 ==> local == {}) && (remoteAsked == 0 ==> remote == {})
    ensures var status := StatusOf(local, remote, localAsked, remoteAsked);
      && (status.UNKNOWN? <==> Unclear(local, remote, localAsked, remoteAsked))
      && (status.REMOTE_NON_DETERMINISTIC? <==> OnlyRemoteVaries(local, remote))
      && (status.NON_DETERMINISTIC? <==> (Varies(local) || Varies(remote)) && !OnlyRemoteVaries(local, remote))
  {
  }

  /** The status of a path: unknown if something is, then only remote, then not deterministic, else deterministic. */
  lemma OverallMeans(digests: Status, exitCodes: Status)
    ensures var status := Overall(digests, exitCodes);
      && (status.UNKNOWN? <==> digests.UNKNOWN? || exitCodes.UNKNOWN?)
      && (status.REMOTE_NON_DETERMINISTIC? <==>
            !status.UNKNOWN? && (digests.REMOTE_NON_DETERMINISTIC? || exitCodes.REMOTE_NON_DETERMINISTIC?))
      && (status.DETERMINISTIC? <==> digests.DETERMINISTIC? && exitCodes.DETERMINISTIC?)
  {
  }

  /** The status of an entry, by the digests and the exit codes of the reruns. */
  lemma EntryStatusExactly(v: Verification, r: Reruns, i: nat)
    requires Reports(v, r) && AskedOnly(r) && i < |v.mismatches|
    ensures var m := v.mismatches[i];
      var l, q := Collected(r.local, m.path, r.separator), Collected(r.remote, m.path, r.separator);
      var a, b := Elements(ExitCodes(r.local)), Elements(ExitCodes(r.remote));
      var unclear := Unclear(l, q, r.localAsked, r.remoteAsked) || Unclear(a, b, r.localAsked, r.remoteAsked);
      && (m.determinism == UNKNOWN <==> unclear)
      && (m.determinism == REMOTE_NON_DETERMINISTIC <==> !unclear && (OnlyRemoteVaries(l, q) || OnlyRemoteVaries(a, b)))
      && (m.determinism == DETERMINISTIC <==> !unclear && !Varies(l) && !Varies(q) && !Varies(a) && !Varies(b))
  {
    var m := v.mismatches[i];
    assert Shows(v, m.path) && r.Listed(m.path) && r.Describes(m);
    var l, q := Collected(r.local, m.path, r.separator), Collected(r.remote, m.path, r.separator);
    CollectedOnlyOnPaths(r.local, |r.local|, m.path, r.separator);
    StatusMeans(l, q, r.localAsked, r.remoteAsked);
    StatusMeans(Elements(ExitCodes(r.local)), Elements(ExitCodes(r.remote)), r.localAsked, r.remoteAsked);
    OverallMeans(
      StatusOf(l, q, r.localAsked, r.remoteAsked),
      StatusOf(Elements(ExitCodes(r.local)), Elements(ExitCodes(r.remote)), r.localAsked, r.remoteAsked));
  }

  /** Up to the order of the digests inside an entry, there is one report. */
  lemma ReportIsDetermined(v: Verification, w: Verification, r: Reruns)
    requires Reports(v, r) && Reports(w, r)
    ensures |v.mismatches| == |w.mismatches| && v.totalMismatches == w.totalMismatches && v.totalVerified == w.totalVerified
    ensures forall i :: 0 <= i < |v.mismatches| ==>
      var a, b := v.mismatches[i], w.mismatches[i];
      && a.path == b.path && a.determinism == b.determinism
      && a.localExitCodes == b.localExitCodes && a.remoteExitCodes == b.remoteExitCodes
      && Elements(a.localDigests) == Elements(b.localDigests) && Elements(a.remoteDigests) == Elements(b.remoteDigests)
  {
    var p := seq(|v.mismatches|, i requires 0 <= i < |v.mismatches| => v.mismatches[i].path);
    var q := seq(|w.mismatches|, i requires 0 <= i < |w.mismatches| => w.mismatches[i].path);
    forall x
      ensures x in p <==> x in q
    {
      assert x in p <==> Shows(v, x) by { InPaths(v, p, x); }
      assert x in q <==> Shows(w, x) by { InPaths(w, q, x); }
    }
    AscendingIsUnique(p, q);
    forall i | 0 <= i < |v.mismatches|
      ensures v.mismatches[i].path == w.mismatches[i].path
    {
      assert p[i] == q[i];
    }
  }

  lemma InPaths(v: Verification, paths: seq<string>, x: string)
    requires |paths| == |v.mismatches| && forall i :: 0 <= i < |paths| ==> paths[i] == v.mismatches[i].path
    ensures x in paths <==> Shows(v, x)
  {
    if x in paths {
      var i :| 0 <= i < |paths| && paths[i] == x;
      assert v.mismatches[i].path == x;
    }
  }
}

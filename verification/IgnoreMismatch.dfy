/** Rules that take mismatches out of a log record: internal/pkg/ignoremismatch/ignoremismatch.go. */
module IgnoreMismatch {
  import opened Compare
  import opened GoInts
  import opened Wrappers

  /** A rule applied to a mismatch: whether to ignore it, or None when the rule fails. */
  type Rule = Mismatch -> Option<bool>

  /** Some rule says so; rules that fail say nothing. */
  predicate Ignored(rules: seq<Rule>, m: Mismatch) {
    exists i :: 0 <= i < |rules| && rules[i](m) == Some(true)
  }

  function Kept(rules: seq<Rule>, mismatches: seq<Mismatch>): seq<Mismatch> {
    if mismatches == [] then []
    else
      var last := mismatches[|mismatches| - 1];
      Kept(rules, mismatches[..|mismatches| - 1]) + (if Ignored(rules, last) then [] else [last])
  }

  /** The two fields of a verification record that the rules change. */
  datatype Counted = Counted(mismatches: seq<Mismatch>, ignored: int)

  /** A record without mismatches is left alone, whatever its count says. */
  function Processed(rules: Option<seq<Rule>>, c: Counted): Counted {
    if rules.None? || c.mismatches == [] then c
    else
      var kept := Kept(rules.value, c.mismatches);
      Counted(kept, Int32(|c.mismatches| - |kept|))
  }

  method ShouldIgnore(rules: seq<Rule>, m: Mismatch) returns (ignored: bool)
    ensures ignored <==> Ignored(rules, m)
  {
    for i := 0 to |rules|
      invariant forall j :: 0 <= j < i ==> rules[j](m) != Some(true)
    {
      var outcome := rules[i](m);
      if outcome.None? {
        continue;
      }
      if outcome.value {
        return true;
      }
    }
    return false;
  }

  class VerificationRecord {
    var mismatches: seq<Mismatch>
    var totalMismatches: int
    var totalVerified: int
    var totalIgnoredMismatches: int

    function Counts(): Counted
      reads this
    {
      Counted(mismatches, totalIgnoredMismatches)
    }

    /** ProcessLogRecord; no rules stands for a nil ignorer. */
    method ProcessLogRecord(rules: Option<seq<Rule>>)
      modifies this
      ensures Counts() == Processed(rules, old(Counts()))
      ensures totalMismatches == old(totalMismatches) && totalVerified == old(totalVerified)
    {
      if rules.None? || mismatches == [] {
        return;
      }
      var ignored := 0;
      var filteredMismatches := [];
      for i := 0 to |mismatches|
        invariant filteredMismatches == Kept(rules.value, mismatches[..i])
        invariant ignored == Int32(i - |filteredMismatches|)
        modifies {}
      {
        var m := mismatches[i];
        assert mismatches[..i + 1][..i] == mismatches[..i];
        var ignore := ShouldIgnore(rules.value, m);
        if ignore {
          Int32Add(i - |filteredMismatches|, 1);
          ignored := Int32(ignored + 1);
        } else {
          filteredMismatches := filteredMismatches + [m];
        }
      }
      assert mismatches[..|mismatches|] == mismatches;
      mismatches := filteredMismatches;
      totalIgnoredMismatches := ignored;
    }
  }

  /** Exactly the mismatches that no rule ignores are kept, each as often as it was there. */
  lemma {:induction false} KeptExactly(rules: seq<Rule>, mismatches: seq<Mismatch>, m: Mismatch)
    ensures multiset(Kept(rules, mismatches))[m] == if Ignored(rules, m) then 0 else multiset(mismatches)[m]
  {
    if mismatches != [] {
      var last := |mismatches| - 1;
      KeptExactly(rules, mismatches[..last], m);
      assert mismatches == mismatches[..last] + [mismatches[last]];
    }
  }

  /** The kept mismatches stay in order: what is kept of a list is what is kept of its parts. */
  lemma {:induction false} KeptOfConcat(rules: seq<Rule>, a: seq<Mismatch>, b: seq<Mismatch>)
    ensures Kept(rules, a + b) == Kept(rules, a) + Kept(rules, b)
  {
    if b == [] {
      assert a + b == a;
    } else {
      var last := |b| - 1;
      KeptOfConcat(rules, a, b[..last]);
      assert (a + b)[..|a + b| - 1] == a + b[..last];
    }
  }

  lemma {:induction false} KeptIsShorter(rules: seq<Rule>, mismatches: seq<Mismatch>)
    ensures |Kept(rules, mismatches)| <= |mismatches|
    ensures |Kept(rules, mismatches)| == |mismatches| <==> Kept(rules, mismatches) == mismatches
  {
    if mismatches != [] {
      KeptIsShorter(rules, mismatches[..|mismatches| - 1]);
      assert mismatches == mismatches[..|mismatches| - 1] + [mismatches[|mismatches| - 1]];
    }
  }

  lemma {:induction false} KeptTwice(rules: seq<Rule>, mismatches: seq<Mismatch>)
    ensures Kept(rules, Kept(rules, mismatches)) == Kept(rules, mismatches)
  {
    if mismatches != [] {
      var last := mismatches[|mismatches| - 1];
      var before := mismatches[..|mismatches| - 1];
      KeptTwice(rules, before);
      var tail := if Ignored(rules, last) then [] else [last];
      KeptOfConcat(rules, Kept(rules, before), tail);
      assert tail == [last] ==> Kept(rules, tail) == Kept(rules, []) + [last];
    }
  }

  /** The total is what is kept plus what is ignored, in 32 bits, and exactly if there were not too many. */
  predicate AddsUp(total: int, c: Counted, before: nat) {
    && total == Int32(|c.mismatches| + c.ignored)
    && (before < TWO_31 ==> total == |c.mismatches| + c.ignored && 0 <= c.ignored)
  }

  lemma KeptPlusIgnored(rules: Option<seq<Rule>>, mismatches: seq<Mismatch>, total: int)
    requires total == Int32(|mismatches|)
    ensures AddsUp(total, Processed(rules, Counted(mismatches, 0)), |mismatches|)
  {
    if rules.Some? {
      KeptIsShorter(rules.value, mismatches);
      var kept := |Kept(rules.value, mismatches)|;
      Int32Parts(kept, |mismatches| - kept);
    }
    Int32Parts(|mismatches|, 0);
  }

  /** After the rules, the total of a fresh report is the kept mismatches plus the ignored ones. */
  lemma TotalIsKeptPlusIgnored(v: Verification, r: Reruns, rules: Option<seq<Rule>>)
    requires Reports(v, r)
    ensures AddsUp(v.totalMismatches, Processed(rules, Counted(v.mismatches, 0)), |v.mismatches|)
  {
    KeptPlusIgnored(rules, v.mismatches, v.totalMismatches);
  }

  /** Processing a list that was processed before keeps it and starts the count anew, unless nothing is left. */
  lemma SecondPass(rules: seq<Rule>, c: Counted)
    requires c.ignored == 0
    ensures var once := Processed(Some(rules), c);
      Processed(Some(rules), once) == if once.mismatches == [] then once else Counted(once.mismatches, Int32(0))
  {
    KeptTwice(rules, c.mismatches);
  }

  lemma SecondCount(n: nat, kept: nat)
    requires kept <= n
    ensures Int32(kept + Int32(n - kept)) == Int32(n)
    ensures Int32(kept + Int32(0)) == Int32(n) <==> Int32(n - kept) == 0
  {
    Int32Parts(kept, n - kept);
    Int32PartAlone(kept, n - kept);
  }

  /**
   * Were the rules applied to a record twice, which the logger does not do, the second time would forget what the
   * first time ignored, unless it ignored nothing or everything.
   */
  lemma SecondPassExactly(rules: seq<Rule>, c: Counted)
    requires c.ignored == 0
    ensures var once := Processed(Some(rules), c);
      var twice := Processed(Some(rules), once);
      && twice.mismatches == once.mismatches
      && (Int32(|twice.mismatches| + twice.ignored) == Int32(|c.mismatches|) <==>
            once.ignored == 0 || once.mismatches == [])
  {
    SecondPass(rules, c);
    KeptIsShorter(rules, c.mismatches);
    SecondCount(|c.mismatches|, |Kept(rules, c.mismatches)|);
  }
}

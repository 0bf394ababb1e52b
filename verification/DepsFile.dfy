/**
 * The .deps file of internal/pkg/deps/parser.go: sorted unique lines "path:digest" for the dependencies of an
 * action, written after a local execution and verified against the files on disk before a cached result is used.
 */
module DepsFile {
  import opened Lists
  import opened Strings
  import opened Wrappers

  // ---------------------------------------------------------------------------------------------
  // Digests and the store they are read from
  // ---------------------------------------------------------------------------------------------

  datatype Digest = Digest(hash: string, size: nat)

  const HASH_LENGTH := 64
  const INT64_MAX: int := 0x7FFF_FFFF_FFFF_FFFF

  predicate HexDigit(c: char) {
    '0' <= c <= '9' || 'a' <= c <= 'f'
  }

  predicate ValidDigest(d: Digest) {
    |d.hash| == HASH_LENGTH && (forall i :: 0 <= i < |d.hash| ==> HexDigit(d.hash[i])) && d.size <= INT64_MAX
  }

  function Decimal(n: nat): string {
    if n < 10 then [DigitChar(n)] else Decimal(n / 10) + [DigitChar(n % 10)]
  }

  function DigitChar(n: nat): char
    requires n < 10
  {
    '0' + n as char
  }

  /** The value of a string of decimal digits. */
  function Number(s: string): Option<int> {
    if s == [] then None
    else
      var last := s[|s| - 1];
      if !('0' <= last <= '9') then None
      else
        var digit := last as int - '0' as int;
        if |s| == 1 then Some(digit)
        else
          var high := Number(s[..|s| - 1]);
          if high.None? then None else Some(10 * high.value + digit)
  }

  /** strconv.ParseInt(s, 10, 64): an optional sign, digits, and no overflow. */
  function ParseInt(s: string): Option<int> {
    if s != [] && s[0] == '-' then
      (match Number(s[1..])
       case Some(n) => if n <= INT64_MAX + 1 then Some(-n) else None
       case None => None)
    else
      (match Number(if s != [] && s[0] == '+' then s[1..] else s)
       case Some(n) => if n <= INT64_MAX then Some(n) else None
       case None => None)
  }

  function IndexOf(s: string, c: char): (i: nat)
    ensures i <= |s| && (i < |s| ==> s[i] == c) && forall j :: 0 <= j < i ==> s[j] != c
  {
    if s == [] || s[0] == c then 0 else 1 + IndexOf(s[1..], c)
  }

  function DigestString(d: Digest): string {
    d.hash + "/" + Decimal(d.size)
  }

  /** digest.NewFromString: hash and size separated by one slash, both valid. */
  function ParseDigest(s: string): Option<Digest> {
    var i := IndexOf(s, '/');
    if i == |s| || '/' in s[i + 1..] then None
    else
      match ParseInt(s[i + 1..])
      case None => None
      case Some(size) =>
        if size >= 0 && ValidDigest(Digest(s[..i], size)) then Some(Digest(s[..i], size)) else None
  }

  datatype FileError = NoError | NotFound | OtherError

  /** What the store knows of a path. The digest is meaningful without an error, but it is always there. */
  datatype Metadata = Metadata(digest: Digest, err: FileError)

  type Store = string -> Metadata

  // ---------------------------------------------------------------------------------------------
  // Printing
  // ---------------------------------------------------------------------------------------------

  const NOT_FOUND_MARKER := "NA"

  function Line(path: string, value: string): string {
    path + ":" + value + "\n"
  }

  /** What is recorded for a dependency: its digest, that it is absent, or nothing. */
  function Recorded(md: Metadata): Option<string> {
    match md.err
    case NoError => Some(DigestString(md.digest))
    case NotFound => Some(NOT_FOUND_MARKER)
    case OtherError => None
  }

  /** addDep */
  function AddDep(store: Store, path: string, lines: set<string>): set<string> {
    match Recorded(store(path))
    case Some(value) => lines + {Line(path, value)}
    case None => lines
  }

  function Lines(store: Store, deps: seq<string>): set<string> {
    if deps == [] then {} else AddDep(store, deps[|deps| - 1], Lines(store, deps[..|deps| - 1]))
  }

  function Join(lines: seq<string>): string {
    if lines == [] then [] else lines[0] + Join(lines[1..])
  }

  /** `lines` is the one ascending enumeration of a set of lines. */
  ghost predicate Enumerates(lines: seq<string>, all: set<string>) {
    Ascending(lines) && forall x :: x in lines <==> x in all
  }

  /** `text` is the one ascending enumeration of the lines for these dependencies. */
  ghost predicate Prints(text: string, store: Store, deps: seq<string>) {
    exists lines :: Enumerates(lines, Lines(store, deps)) && text == Join(lines)
  }

  /** The deps file for a list of dependencies; the order in which the map yields its keys is arbitrary. */
  method GetDeps(store: Store, dFileDeps: seq<string>) returns (text: string)
    ensures Prints(text, store, dFileDeps)
  {
    var deps: set<string> := {};
    for i := 0 to |dFileDeps|
      invariant deps == Lines(store, dFileDeps[..i])
    {
      assert dFileDeps[..i + 1][..i] == dFileDeps[..i];
      deps := AddDep(store, dFileDeps[i], deps);
    }
    assert dFileDeps[..|dFileDeps|] == dFileDeps;
    var ds := ListOf(deps);
    assert forall x :: x in ds <==> x in Elements(ds);
    SortAscends(ds);
    ds := Sort(ds);
    text := "";
    for i := 0 to |ds|
      invariant text == Join(ds[..i])
    {
      JoinAppend(ds[..i], ds[i]);
      assert ds[..i + 1] == ds[..i] + [ds[i]];
      text := text + ds[i];
    }
    assert ds[..|ds|] == ds;
    assert Enumerates(ds, Lines(store, dFileDeps));
  }

  lemma {:induction false} JoinAppend(lines: seq<string>, line: string)
    ensures Join(lines + [line]) == Join(lines) + line
  {
    if lines == [] {
      assert [] + [line] == [line];
      assert Join([line]) == line + Join([]);
    } else {
      JoinAppend(lines[1..], line);
      assert (lines + [line])[1..] == lines[1..] + [line];
    }
  }

  /** Joining is concatenation in order. */
  lemma {:induction false} JoinExactly(first: seq<string>, rest: seq<string>)
    ensures Join(first + rest) == Join(first) + Join(rest)
    ensures forall line :: Join([line]) == line
  {
    if first == [] {
      assert first + rest == rest;
    } else {
      JoinExactly(first[1..], rest);
      assert (first + rest)[1..] == first[1..] + rest;
    }
    forall line ensures Join([line]) == line {
      assert Join([line]) == line + Join([]);
    }
  }

  /** The line for a dependency: path, colon, hash, slash and size, or path, colon and NA for a file not found. */
  predicate IsLineOf(store: Store, p: string, x: string) {
    var md := store(p);
    || (md.err.NoError? && x == p + ":" + md.digest.hash + "/" + Decimal(md.digest.size) + "\n")
    || (md.err.NotFound? && x == p + ":NA\n")
  }

  /** A line is in the file exactly when it is the line of some dependency. */
  lemma LinesExactly(store: Store, deps: seq<string>, x: string)
    ensures x in Lines(store, deps) <==> exists p :: p in deps && IsLineOf(store, p, x)
  {
    LinesMembers(store, deps);
    forall p
      ensures IsLineOf(store, p, x) <==> Recorded(store(p)).Some? && x == Line(p, Recorded(store(p)).value)
    {
      var md := store(p);
      assert p + ":" + DigestString(md.digest) + "\n" == p + ":" + md.digest.hash + "/" + Decimal(md.digest.size) + "\n";
      assert p + ":" + NOT_FOUND_MARKER + "\n" == p + ":NA\n";
    }
  }

  lemma {:induction false} LinesMembers(store: Store, deps: seq<string>)
    ensures forall x :: x in Lines(store, deps) <==>
      exists p :: p in deps && Recorded(store(p)).Some? && x == Line(p, Recorded(store(p)).value)
  {
    if deps != [] {
      var last := |deps| - 1;
      LinesMembers(store, deps[..last]);
      assert deps == deps[..last] + [deps[last]];
    }
  }

  /** The text depends on the set of dependencies only, not on their order or how often they are named. */
  lemma TextDependsOnSet(store: Store, deps: seq<string>, deps': seq<string>, text: string, text': string)
    requires forall p :: p in deps <==> p in deps'
    requires Prints(text, store, deps) && Prints(text', store, deps')
    ensures text == text'
  {
    var lines :| Enumerates(lines, Lines(store, deps)) && text == Join(lines);
    var lines' :| Enumerates(lines', Lines(store, deps')) && text' == Join(lines');
    LinesMembers(store, deps);
    LinesMembers(store, deps');
    AscendingIsUnique(lines, lines');
  }

  // ---------------------------------------------------------------------------------------------
  // Matching: \s*(.+?):(.+?\/?.+)\s*
  // ---------------------------------------------------------------------------------------------

  predicate Space(c: char) {
    c == ' ' || c == '\t' || c == '\n' || c == '\r' || c == '\U{000C}'
  }

  /** White space is blank, tab, newline, form feed and carriage return. */
  lemma SpaceExactly(c: char)
    ensures Space(c) <==> c in " \t\n\U{000C}\r"
  {
    var all := " \t\n\U{000C}\r";
    assert all[0] == ' ' && all[1] == '\t' && all[2] == '\n' && all[3] == '\U{000C}' && all[4] == '\r';
  }

  function SkipSpace(s: string): (r: string)
    ensures |r| <= |s|
  {
    if s != [] && Space(s[0]) then SkipSpace(s[1..]) else s
  }

  /** A match: the two groups, and the text after it. */
  datatype Match = Match(path: string, value: string, rest: string)

  /**
   * The part of the pattern after its leading \s*, at the start of `s`. The dot does not match a newline; the
   * first group is lazy, so it ends before the first colon that is not its first character; the second takes
   * the rest of the line and must have two characters.
   */
  function MatchLine(s: string): (m: Option<Match>)
    ensures m.Some? ==> |m.value.rest| < |s|
  {
    var e := IndexOf(s, '\n');
    if e == 0 then None
    else
      var c := 1 + IndexOf(s[1..e], ':');
      if c == e || e - (c + 1) < 2 then None
      else Some(Match(s[..c], s[c + 1..e], SkipSpace(s[e..])))
  }

  /** The text begins with this match: a path, a colon, a value, and the end of the line or of the text. */
  predicate MatchesLine(s: string, path: string, value: string) {
    var body := path + ":" + value;
    && path != [] && '\n' !in path && (forall j :: 1 <= j < |path| ==> path[j] != ':')
    && |value| >= 2 && '\n' !in value
    && body <= s && (|body| == |s| || s[|body|] == '\n')
  }

  /** What MatchLine finds is such a match, and white space is skipped after it. */
  lemma MatchLineIsMatch(s: string)
    requires MatchLine(s).Some?
    ensures var m := MatchLine(s).value;
      MatchesLine(s, m.path, m.value) && m.rest == SkipSpace(s[|m.path + ":" + m.value|..])
  {
    var e := IndexOf(s, '\n');
    var c := 1 + IndexOf(s[1..e], ':');
    assert s[c] == s[1..e][c - 1] == ':';
    assert s[..e] == s[..c] + ":" + s[c + 1..e];
    forall j | 1 <= j < c ensures s[..c][j] != ':' {
      assert s[..c][j] == s[1..e][j - 1];
    }
  }

  /** And there is no other, and none if it finds none. */
  lemma MatchLineIsOnly(s: string, path: string, value: string)
    requires MatchesLine(s, path, value)
    ensures MatchLine(s).Some? && MatchLine(s).value.path == path && MatchLine(s).value.value == value
  {
    var body := path + ":" + value;
    assert s[..|body|] == body;
    var rest := s[|body|..];
    if rest == [] {
      assert IndexOf(s, '\n') == |s|;
      assert s[1..|s|] == body[1..];
      assert forall i :: 0 <= i < |path| - 1 ==> body[1..][i] == path[i + 1];
      FirstIndex(body[1..], ':', |path| - 1);
    } else {
      assert s == body + "\n" + rest[1..];
      FirstIndex(s, '\n', |body|);
      assert s[1..|body|] == body[1..];
      assert forall i :: 0 <= i < |path| - 1 ==> body[1..][i] == path[i + 1];
      FirstIndex(body[1..], ':', |path| - 1);
    }
    assert s[..|path|] == path && s[|path| + 1..|body|] == value;
  }

  /** A match starting exactly here: \s* takes as much as it can and gives back only if the rest fails. */
  function MatchHere(s: string): (m: Option<Match>)
    ensures m.Some? ==> |m.value.rest| < |s|
  {
    if s != [] && Space(s[0]) && MatchHere(s[1..]).Some? then MatchHere(s[1..]) else MatchLine(s)
  }

  /** FindAllStringSubmatch: the leftmost matches, one after the other. */
  function FindAll(s: string): seq<(string, string)>
    decreases |s|
  {
    if s == [] then []
    else
      match MatchHere(s)
      case Some(m) => [(m.path, m.value)] + FindAll(m.rest)
      case None => FindAll(s[1..])
  }

  predicate AllSpace(s: string, n: nat)
    requires n <= |s|
  {
    forall i :: 0 <= i < n ==> Space(s[i])
  }

  /** White space up to i, and a match from there. */
  ghost predicate MatchesAt(s: string, i: nat) {
    i <= |s| && AllSpace(s, i) && exists path, value :: MatchesLine(s[i..], path, value)
  }

  lemma MatchLineExactly(s: string)
    ensures MatchLine(s).Some? <==> exists path, value :: MatchesLine(s, path, value)
  {
    if MatchLine(s).Some? {
      MatchLineIsMatch(s);
    }
    if path, value :| MatchesLine(s, path, value) {
      MatchLineIsOnly(s, path, value);
    }
  }

  lemma MatchesAtNext(s: string, i: nat)
    requires s != [] && Space(s[0]) && i < |s|
    ensures MatchesAt(s, i + 1) <==> MatchesAt(s[1..], i)
  {
    assert s[1..][i..] == s[i + 1..];
    assert forall j :: 0 <= j < i ==> s[1..][j] == s[j + 1];
    assert forall j :: 1 <= j < i + 1 ==> s[j] == s[1..][j - 1];
  }

  /** With white space in front, the matches are those of the text after it, and the one without skipping. */
  lemma MatchesFromNext(s: string)
    requires s != [] && Space(s[0])
    ensures forall i: nat :: i > 0 ==> (MatchesAt(s, i) <==> MatchesAt(s[1..], i - 1))
  {
    forall i: nat | i > 0
      ensures MatchesAt(s, i) <==> MatchesAt(s[1..], i - 1)
    {
      if i <= |s| {
        MatchesAtNext(s, i - 1);
      }
    }
  }

  lemma MatchHereWithoutSpace(s: string)
    requires s == [] || !Space(s[0])
    ensures MatchHere(s) == MatchLine(s) && forall i: nat :: i > 0 ==> !MatchesAt(s, i)
  {
    forall i: nat | i > 0 ensures !MatchesAt(s, i) {
      if i <= |s| {
        assert !AllSpace(s, i);
      }
    }
  }

  lemma MatchLineIsMatchAtStart(s: string)
    ensures MatchLine(s).Some? <==> MatchesAt(s, 0)
  {
    assert s[0..] == s;
    MatchLineExactly(s);
  }

  /** A match skips as much leading white space as leaves a match, and is that match; without one there is none. */
  lemma {:induction false} MatchHereExactly(s: string) returns (skipped: nat)
    ensures MatchHere(s).None? ==> forall i: nat :: !MatchesAt(s, i)
    ensures MatchHere(s).Some? ==>
      && MatchesAt(s, skipped) && MatchHere(s) == MatchLine(s[skipped..])
      && forall i: nat :: i > skipped ==> !MatchesAt(s, i)
  {
    skipped := 0;
    assert s[0..] == s;
    MatchLineIsMatchAtStart(s);
    if s == [] || !Space(s[0]) {
      MatchHereWithoutSpace(s);
    } else {
      var rest := MatchHereExactly(s[1..]);
      MatchesFromNext(s);
      if MatchHere(s[1..]).Some? {
        skipped := rest + 1;
        assert s[1..][rest..] == s[skipped..];
        assert MatchesAt(s, skipped) <==> MatchesAt(s[1..], skipped - 1);
      }
    }
  }

  /** The matches are found leftmost first, each from where the one before ended. */
  lemma {:induction false} FindAllExactly(s: string) returns (at: nat)
    ensures FindAll(s) == [] ==> forall i :: 0 <= i < |s| ==> MatchHere(s[i..]).None?
    ensures FindAll(s) != [] ==>
      && at < |s| && MatchHere(s[at..]).Some?
      && (forall i :: 0 <= i < at ==> MatchHere(s[i..]).None?)
      && var m := MatchHere(s[at..]).value;
        FindAll(s) == [(m.path, m.value)] + FindAll(m.rest)
    decreases |s|
  {
    at := 0;
    if s != [] {
      assert s[0..] == s;
      if MatchHere(s).None? {
        var rest := FindAllExactly(s[1..]);
        at := rest + 1;
        assert forall i :: 0 < i <= |s| ==> s[i..] == s[1..][i - 1..];
      }
    }
  }

  // ---------------------------------------------------------------------------------------------
  // Verifying
  // ---------------------------------------------------------------------------------------------

  datatype Verdict = Accepted | Rejected | Invalid

  function Check(store: Store, path: string, value: string): Verdict {
    if value == NOT_FOUND_MARKER then (if store(path).err.NoError? then Rejected else Accepted)
    else
      match ParseDigest(value)
      case None => Invalid
      case Some(d) => if store(path).digest != d then Rejected else Accepted
  }

  /** The verdict of the first entry that is not accepted. */
  function Verdicts(store: Store, entries: seq<(string, string)>): Verdict {
    if entries == [] then Accepted
    else
      var v := Check(store, entries[0].0, entries[0].1);
      if v.Accepted? then Verdicts(store, entries[1..]) else v
  }

  /** The entry agrees with the store: a recorded absence is one still, and a recorded digest is the store's. */
  predicate Passes(store: Store, entry: (string, string)) {
    if entry.1 == "NA" then !store(entry.0).err.NoError?
    else ParseDigest(entry.1) == Some(store(entry.0).digest)
  }

  /** The value is neither the marker nor a digest. */
  predicate Unreadable(entry: (string, string)) {
    entry.1 != "NA" && ParseDigest(entry.1).None?
  }

  predicate AllPass(store: Store, entries: seq<(string, string)>, n: nat)
    requires n <= |entries|
  {
    forall i :: 0 <= i < n ==> Passes(store, entries[i])
  }

  /** The file is accepted if all entries pass; otherwise the first that does not decides. */
  lemma {:induction false} VerdictsExactly(store: Store, entries: seq<(string, string)>)
    ensures Verdicts(store, entries) == Accepted <==> AllPass(store, entries, |entries|)
    ensures Verdicts(store, entries) == Invalid <==>
      exists i :: 0 <= i < |entries| && Unreadable(entries[i]) && AllPass(store, entries, i)
    ensures Verdicts(store, entries) == Rejected <==>
      exists i :: 0 <= i < |entries| && !Unreadable(entries[i]) && !Passes(store, entries[i]) && AllPass(store, entries, i)
  {
    if entries != [] {
      var rest := entries[1..];
      VerdictsExactly(store, rest);
      assert Passes(store, entries[0]) <==> Check(store, entries[0].0, entries[0].1) == Accepted;
      assert Unreadable(entries[0]) <==> Check(store, entries[0].0, entries[0].1) == Invalid;
      if Passes(store, entries[0]) {
        forall n: nat | n < |entries| ensures AllPass(store, entries, n + 1) <==> AllPass(store, rest, n) {
          assert forall i :: 0 <= i < n ==> rest[i] == entries[i + 1];
          assert forall i :: 0 < i < n + 1 ==> entries[i] == rest[i - 1];
        }
        assert forall i :: 0 <= i < |rest| ==> rest[i] == entries[i + 1];
        if i :| 0 <= i < |rest| && Unreadable(rest[i]) && AllPass(store, rest, i) {
          assert Unreadable(entries[i + 1]) && AllPass(store, entries, i + 1);
        }
        if i :| 0 <= i < |rest| && !Unreadable(rest[i]) && !Passes(store, rest[i]) && AllPass(store, rest, i) {
          assert !Unreadable(entries[i + 1]) && !Passes(store, entries[i + 1]) && AllPass(store, entries, i + 1);
        }
        if i :| 0 <= i < |entries| && !Passes(store, entries[i]) && AllPass(store, entries, i) {
          assert i > 0 && rest[i - 1] == entries[i] && AllPass(store, rest, i - 1);
        }
      } else {
        assert AllPass(store, entries, 0);
        assert forall n: nat :: 0 < n <= |entries| ==> !AllPass(store, entries, n);
      }
    }
  }

  /** VerifyDepsFile on the contents of the file. */
  method VerifyDepsFile(text: string, store: Store) returns (ok: bool, failed: bool)
    ensures ok <==> Verdicts(store, FindAll(text)) == Accepted
    ensures failed <==> Verdicts(store, FindAll(text)) == Invalid
  {
    var matches := FindAll(text);
    for i := 0 to |matches|
      invariant Verdicts(store, matches) == Verdicts(store, matches[i..])
    {
      var md := store(matches[i].0);
      if matches[i].1 == NOT_FOUND_MARKER {
        if md.err.NoError? {
          return false, false;
        }
        continue;
      }
      var dg := ParseDigest(matches[i].1);
      if dg.None? {
        return false, true;
      }
      if md.digest != dg.value {
        return false, false;
      }
    }
    return true, false;
  }

  // ---------------------------------------------------------------------------------------------
  // The printed digest is read back
  // ---------------------------------------------------------------------------------------------

  predicate Digits(s: string) {
    s != [] && forall i :: 0 <= i < |s| ==> '0' <= s[i] <= '9'
  }

  lemma {:induction false} DecimalReadsBack(n: nat)
    ensures Digits(Decimal(n)) && Number(Decimal(n)) == Some(n)
  {
    if n >= 10 {
      DecimalReadsBack(n / 10);
      var s := Decimal(n);
      assert s[..|s| - 1] == Decimal(n / 10);
    }
  }

  lemma {:induction false} NumberNeedsDigits(s: string)
    ensures Number(s).Some? ==> Digits(s)
  {
    if |s| > 1 {
      NumberNeedsDigits(s[..|s| - 1]);
    }
  }

  lemma FirstIndex(s: string, c: char, i: nat)
    requires i < |s| && s[i] == c && forall j :: 0 <= j < i ==> s[j] != c
    ensures IndexOf(s, c) == i
  {
  }

  /** NewFromString undoes String on every valid digest. */
  lemma DigestReadsBack(d: Digest)
    requires ValidDigest(d)
    ensures ParseDigest(DigestString(d)) == Some(d)
  {
    var s := DigestString(d);
    var number := Decimal(d.size);
    DecimalReadsBack(d.size);
    assert s[..HASH_LENGTH] == d.hash;
    FirstIndex(s, '/', HASH_LENGTH);
    assert s[HASH_LENGTH + 1..] == number;
  }

  /** What is read as a digest is a valid hash and a size behind one slash. */
  lemma ReadDigestIsValid(s: string)
    ensures ParseDigest(s).Some? ==>
      var d := ParseDigest(s).value;
      && ValidDigest(d) && d.hash + "/" <= s
      && |d.hash| == 64 && (forall i :: 0 <= i < |d.hash| ==> d.hash[i] in "0123456789abcdef")
      && ParseInt(s[|d.hash| + 1..]) == Some(d.size) && '/' !in s[|d.hash| + 1..]
  {
    var i := IndexOf(s, '/');
    if i < |s| {
      assert s[..i + 1] == s[..i] + "/";
      forall c: char | HexDigit(c) ensures c in "0123456789abcdef" {
        HexDigitIsOne(c);
      }
    }
  }

  lemma HexDigitIsOne(c: char)
    requires HexDigit(c)
    ensures c in "0123456789abcdef"
  {
    var digits := "0123456789abcdef";
    if c <= '9' {
      assert digits[c as int - '0' as int] == c;
    } else {
      assert digits[c as int - 'a' as int + 10] == c;
    }
  }

  /** strconv.ParseInt reads only digits behind an optional sign, and only numbers of 64 bits. */
  lemma ParseIntReadsOnly(s: string)
    requires ParseInt(s).Some?
    ensures var v := ParseInt(s).value;
      && -INT64_MAX - 1 <= v <= INT64_MAX
      && (Number(s) == Some(v) || (s != [] && s[0] == '+' && Number(s[1..]) == Some(v))
          || (s != [] && s[0] == '-' && Number(s[1..]) == Some(-v)))
  {
    DigitsAreNumber(s);
    if s != [] {
      DigitsAreNumber(s[1..]);
    }
  }

  /** And it reads all of them. */
  lemma ParseIntReads(s: string, n: int)
    requires s != [] && 0 <= n <= INT64_MAX
    ensures Number(s) == Some(n) ==> ParseInt(s) == Some(n)
    ensures s[0] == '+' && Number(s[1..]) == Some(n) ==> ParseInt(s) == Some(n)
    ensures s[0] == '-' && Number(s[1..]) == Some(n) ==> ParseInt(s) == Some(-n)
  {
    if Number(s).Some? {
      NumberNeedsDigits(s);
    }
  }

  /** A number is read exactly from digits, and one or more of them. */
  lemma {:induction false} DigitsAreNumber(s: string)
    ensures Number(s).Some? <==> Digits(s)
    ensures Number(s).Some? ==> Number(s).value >= 0
  {
    if |s| > 1 {
      DigitsAreNumber(s[..|s| - 1]);
      assert s == s[..|s| - 1] + [s[|s| - 1]];
    }
  }

  /** A string with a colon in it is neither a digest nor the marker. */
  lemma ColonIsNoDigest(s: string, k: nat)
    requires k < |s| && s[k] == ':'
    ensures ParseDigest(s) == None && s != NOT_FOUND_MARKER
  {
    var i := IndexOf(s, '/');
    if i < |s| {
      if k < i {
        assert !HexDigit(s[..i][k]);
      } else {
        ColonIsNoInt(s[i + 1..], k - i - 1);
      }
    }
    assert NOT_FOUND_MARKER[0] == 'N' && NOT_FOUND_MARKER[1] == 'A';
  }

  lemma ColonIsNoInt(s: string, k: nat)
    requires k < |s| && s[k] == ':'
    ensures ParseInt(s) == None
  {
    NumberNeedsDigits(s);
    NumberNeedsDigits(s[1..]);
    if k > 0 {
      assert s[1..][k - 1] == ':';
    }
  }

  // ---------------------------------------------------------------------------------------------
  // The printed file is read back
  // ---------------------------------------------------------------------------------------------

  /** A path as the .d file parser captures it: not empty and without white space. */
  predicate Captured(path: string) {
    path != [] && forall i :: 0 <= i < |path| ==> !Space(path[i])
  }

  predicate ColonFree(path: string) {
    path != [] && ':' !in path[1..]
  }

  predicate ValueLike(value: string) {
    |value| >= 2 && ':' !in value && forall i :: 0 <= i < |value| ==> !Space(value[i])
  }

  /** The two groups of the pattern on "path:value", split at the first colon that is not the first character. */
  function Split(path: string, value: string): (string, string)
    requires path != []
  {
    var body := path + ":" + value;
    var c := 1 + IndexOf(body[1..], ':');
    assert body[1..][|path| - 1] == ':';
    (body[..c], body[c + 1..])
  }

  /** A line's match when the body of the line is known. */
  lemma MatchBody(body: string, c: nat, rest: string)
    requires '\n' !in body && 0 < c && c + 2 < |body| && body[c] == ':'
    requires forall j :: 1 <= j < c ==> body[j] != ':'
    requires rest == [] || !Space(rest[0])
    ensures MatchLine(body + "\n" + rest) == Some(Match(body[..c], body[c + 1..], rest))
  {
    var s := body + "\n" + rest;
    FirstIndex(s, '\n', |body|);
    assert s[1..|body|] == body[1..];
    FirstIndex(body[1..], ':', c - 1);
    assert s[..c] == body[..c] && s[c + 1..|body|] == body[c + 1..];
    SkipNewline(rest);
    assert s[|body|..] == "\n" + rest;
  }

  lemma SkipNewline(rest: string)
    requires rest == [] || !Space(rest[0])
    ensures SkipSpace("\n" + rest) == rest
  {
    assert ("\n" + rest)[1..] == rest;
  }

  /** The first inner colon of a printed line is at most the one that was printed, and follows no newline. */
  lemma PrintedBody(path: string, value: string, body: string, c: nat)
    requires Captured(path) && ValueLike(value)
    requires body == path + ":" + value && c == 1 + IndexOf(body[1..], ':')
    ensures '\n' !in body && c + 2 < |body| && body[c] == ':'
    ensures forall j :: 1 <= j < c ==> body[j] != ':'
  {
    assert body[1..][|path| - 1] == ':';
    assert forall j :: 1 <= j < c ==> body[j] == body[1..][j - 1];
    forall i | 0 <= i < |body| ensures body[i] != '\n' {
      if i < |path| {
        assert !Space(path[i]);
      } else if i > |path| {
        assert !Space(value[i - |path| - 1]);
      }
    }
  }

  lemma PrintedIsSplit(path: string, value: string, body: string, rest: string)
    requires Captured(path) && ValueLike(value) && (rest == [] || !Space(rest[0])) && body == path + ":" + value
    ensures MatchLine(body + "\n" + rest) == Some(Match(Split(path, value).0, Split(path, value).1, rest))
  {
    var c := 1 + IndexOf(body[1..], ':');
    PrintedBody(path, value, body, c);
    MatchBody(body, c, rest);
  }

  lemma MatchPrinted(path: string, value: string, rest: string)
    requires Captured(path) && ValueLike(value) && (rest == [] || !Space(rest[0]))
    ensures MatchHere(Line(path, value) + rest) == Some(Match(Split(path, value).0, Split(path, value).1, rest))
  {
    PrintedIsSplit(path, value, path + ":" + value, rest);
    LineIsMatched(path, value, rest);
  }

  lemma LineIsMatched(path: string, value: string, rest: string)
    requires Captured(path)
    ensures MatchHere(Line(path, value) + rest) == MatchLine(path + ":" + value + "\n" + rest)
  {
    var s := path + ":" + value + "\n" + rest;
    assert Line(path, value) + rest == s;
    assert s[0] == path[0];
    MatchHereWithoutSpace(s);
  }

  lemma SplitPrinted(path: string, value: string)
    requires Captured(path) && ValueLike(value)
    ensures ColonFree(path) ==> Split(path, value) == (path, value)
    ensures !ColonFree(path) ==> ':' in Split(path, value).1
  {
    var body := path + ":" + value;
    assert body[1..] == path[1..] + ":" + value;
    if ColonFree(path) {
      assert forall j :: 0 <= j < |path| - 1 ==> body[1..][j] == path[1..][j];
      FirstIndex(body[1..], ':', |path| - 1);
      assert body[..|path|] == path && body[|path| + 1..] == value;
    } else {
      var k :| 0 <= k < |path[1..]| && path[1..][k] == ':';
      assert body[1..][k] == ':';
      var c := 1 + IndexOf(body[1..], ':');
      assert body[|path|] == ':' && c < |path|;
      assert body[c + 1..][|path| - c - 1] == ':';
    }
  }

  ghost predicate PrintedLine(line: string, path: string, value: string) {
    Captured(path) && ValueLike(value) && line == Line(path, value)
  }

  ghost predicate Printed(line: string) {
    exists path, value :: PrintedLine(line, path, value)
  }

  /** The verdict on a line on its own. */
  ghost function LineVerdict(store: Store, line: string): Verdict {
    match MatchHere(line)
    case Some(m) => Check(store, m.path, m.value)
    case None => Accepted
  }

  /** The file is judged line by line: the printed lines are read back one entry each. */
  lemma {:induction false} ReadLineByLine(store: Store, lines: seq<string>)
    requires forall x :: x in lines ==> Printed(x)
    ensures lines != [] ==> Join(lines) != [] && !Space(Join(lines)[0])
    ensures Verdicts(store, FindAll(Join(lines))) == Accepted <==>
      forall x :: x in lines ==> LineVerdict(store, x) == Accepted
    ensures Verdicts(store, FindAll(Join(lines))) == Invalid ==>
      exists x :: x in lines && LineVerdict(store, x) == Invalid
  {
    if lines != [] {
      var line := lines[0];
      assert Printed(line);
      var path, value :| PrintedLine(line, path, value);
      ReadLineByLine(store, lines[1..]);
      assert lines == [line] + lines[1..];
      var rest := Join(lines[1..]);
      assert lines[1..] == [] ==> rest == [];
      MatchPrinted(path, value, rest);
      MatchPrinted(path, value, []);
      assert line + [] == line;
      var entry := Split(path, value);
      var s := Join(lines);
      assert s == line + rest && s[0] == path[0];
      assert FindAll(s) == [entry] + FindAll(rest);
      assert FindAll(s)[1..] == FindAll(rest);
    }
  }

  // ---------------------------------------------------------------------------------------------
  // What acceptance means
  // ---------------------------------------------------------------------------------------------

  /** What VerifyDepsFile demands of a dependency that was recorded as `was` when it is now `now`. */
  predicate Agrees(was: Metadata, now: Metadata) {
    match was.err
    case NoError => now.digest == was.digest
    case NotFound => !now.err.NoError?
    case OtherError => true
  }

  lemma RecordedIsValueLike(md: Metadata)
    requires md.err.NoError? ==> ValidDigest(md.digest)
    ensures Recorded(md).Some? ==> ValueLike(Recorded(md).value)
    ensures md.err.NoError? ==> DigestString(md.digest) != NOT_FOUND_MARKER
  {
    if md.err.NoError? {
      DecimalReadsBack(md.digest.size);
      var hash := md.digest.hash;
      assert forall i :: 0 <= i < |hash| ==> HexDigit(hash[i]);
      assert |DigestString(md.digest)| > HASH_LENGTH;
    }
  }

  /** A line is accepted exactly when its path has no inner colon and the dependency is as recorded. */
  lemma LineAcceptedExactly(was: Metadata, store: Store, path: string)
    requires Captured(path) && Recorded(was).Some? && (was.err.NoError? ==> ValidDigest(was.digest))
    ensures Printed(Line(path, Recorded(was).value))
    ensures var v := LineVerdict(store, Line(path, Recorded(was).value));
      (v == Accepted <==> ColonFree(path) && Agrees(was, store(path))) && (ColonFree(path) ==> v != Invalid)
  {
    var value := Recorded(was).value;
    var line := Line(path, value);
    RecordedIsValueLike(was);
    assert PrintedLine(line, path, value);
    MatchPrinted(path, value, []);
    assert line + [] == line;
    SplitPrinted(path, value);
    if ColonFree(path) {
      if was.err.NoError? {
        DigestReadsBack(was.digest);
      }
    } else {
      var w := Split(path, value).1;
      var k: nat :| k < |w| && w[k] == ':';
      ColonIsNoDigest(w, k);
    }
  }

  ghost predicate Recordable(store: Store, path: string) {
    Captured(path) && (store(path).err.NoError? ==> ValidDigest(store(path).digest))
  }

  /**
   * The file written from the store `was` is accepted against the store `now` exactly when no recorded path has
   * a colon after its first character and every recorded dependency is as it was recorded.
   */
  lemma AcceptedExactly(was: Store, now: Store, deps: seq<string>, text: string)
    requires Prints(text, was, deps) && forall p :: p in deps ==> Recordable(was, p)
    ensures Verdicts(now, FindAll(text)) == Accepted <==>
      && (forall p :: p in deps && !was(p).err.OtherError? ==> ColonFree(p))
      && (forall p :: p in deps && was(p).err.NoError? ==> now(p).digest == was(p).digest)
      && (forall p :: p in deps && was(p).err.NotFound? ==> !now(p).err.NoError?)
    ensures Verdicts(now, FindAll(text)) == Invalid ==>
      exists p :: p in deps && !was(p).err.OtherError? && !ColonFree(p)
  {
    var lines :| Enumerates(lines, Lines(was, deps)) && text == Join(lines);
    LinesMembers(was, deps);
    assert forall p :: p in deps ==> Recordable(was, p);
    forall p | p in deps && Recorded(was(p)).Some?
      ensures var line := Line(p, Recorded(was(p)).value);
        line in lines && (LineVerdict(now, line) == Accepted <==> ColonFree(p) && Agrees(was(p), now(p)))
    {
      assert Recordable(was, p);
      LineAcceptedExactly(was(p), now, p);
    }
    forall x | x in lines
      ensures Printed(x)
      ensures LineVerdict(now, x) == Invalid ==> exists p :: p in deps && Recorded(was(p)).Some? && !ColonFree(p)
    {
      var p :| p in deps && Recorded(was(p)).Some? && x == Line(p, Recorded(was(p)).value);
      assert Recordable(was, p);
      LineAcceptedExactly(was(p), now, p);
    }
    ReadLineByLine(now, lines);
  }

  /** A file just written is accepted against the same store exactly when no recorded path has an inner colon. */
  lemma RoundTripExactly(store: Store, deps: seq<string>, text: string)
    requires Prints(text, store, deps) && forall p :: p in deps ==> Recordable(store, p)
    ensures Verdicts(store, FindAll(text)) == Accepted <==>
      forall p :: p in deps && !store(p).err.OtherError? ==> ColonFree(p)
  {
    AcceptedExactly(store, store, deps, text);
  }

  /**
   * The verifier compares the store's digest even when the store reports an error: a file that is gone is taken
   * for the recorded one when the digest the store holds for the missing path is the recorded digest.
   */
  lemma GoneFileCanBeAccepted(now: Store, path: string, d: Digest)
    requires Captured(path) && ColonFree(path) && ValidDigest(d)
    requires now(path) == Metadata(d, NotFound)
    ensures Verdicts(now, FindAll(Line(path, DigestString(d)))) == Accepted
  {
    var line := Line(path, DigestString(d));
    LineAcceptedExactly(Metadata(d, NoError), now, path);
    ReadLineByLine(now, [line]);
    assert [line][1..] == [];
    assert Join([line]) == line + Join([]) == line;
  }
}

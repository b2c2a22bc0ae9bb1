/** Choosing a destination name that clobbers nothing (`unique_destination_path` in visuara-client/src/file_transfer.rs). */
module FileNames {
  import opened Text

  const MAX_CANDIDATES: nat := 10_000

  function Digit(d: nat): char
    requires d < 10
  {
    ('0' as int + d) as char
  }

  /** `format!("{n}")`. */
  function Decimal(n: nat): (s: string)
    ensures |s| >= 1 && (n >= 10 ==> |s| >= 2)
  {
    if n < 10 then [Digit(n)] else Decimal(n / 10) + [Digit(n % 10)]
  }

  lemma {:induction false} DecimalInjective(m: nat, n: nat)
    requires Decimal(m) == Decimal(n)
    ensures m == n
  {
    var s, t := Decimal(m), Decimal(n);
    if m >= 10 && n >= 10 {
      assert s[..|s| - 1] == Decimal(m / 10) && t[..|t| - 1] == Decimal(n / 10);
      DecimalInjective(m / 10, n / 10);
      assert s[|s| - 1] == Digit(m % 10) && t[|t| - 1] == Digit(n % 10);
    } else {
      assert s[0] == t[0];
    }
  }

  function LastDot(name: string): (i: Option<nat>)
    ensures i.Some? ==> i.value < |name|
  {
    if name == [] then None
    else if name[|name| - 1] == '.' then Some(|name| - 1)
    else LastDot(name[..|name| - 1])
  }

  /** `file_stem` and `extension` of a single-component name: split at the last dot unless that is the first character. */
  function StemAndExtension(name: string): (string, Option<string>) {
    match LastDot(name)
    case None => (name, None)
    case Some(i) => if i == 0 then (name, None) else (name[..i], Some(name[i + 1..]))
  }

  function Tail(name: string): string {
    match StemAndExtension(name).1
    case None => ""
    case Some(ext) => "." + ext
  }

  /** The names tried, in order: the name itself, then "stem (n).ext". */
  function Candidate(name: string, n: nat): string {
    if n == 0 then name else StemAndExtension(name).0 + " (" + Decimal(n) + ")" + Tail(name)
  }

  lemma {:induction false} LastDotIsDot(name: string)
    ensures LastDot(name).Some? ==> name[LastDot(name).value] == '.'
  {
    if name != [] && name[|name| - 1] != '.' { LastDotIsDot(name[..|name| - 1]); }
  }

  lemma NameSplits(name: string)
    ensures name == StemAndExtension(name).0 + Tail(name)
  {
    LastDotIsDot(name);
  }

  // ----- What the candidate names look like -----

  predicate IsDigit(c: char) { '0' <= c <= '9' }

  /** The number that a string of digits stands for. */
  function ValueOf(s: string): nat
    requires forall i :: 0 <= i < |s| ==> IsDigit(s[i])
  {
    if s == [] then 0
    else
      var last := s[|s| - 1];
      assert IsDigit(last);
      ValueOf(s[..|s| - 1]) * 10 + (last as int - '0' as int)
  }

  /** A printed number is its digits, without leading zeros. */
  lemma {:induction false} DecimalReadsBack(n: nat)
    ensures forall i :: 0 <= i < |Decimal(n)| ==> IsDigit(Decimal(n)[i])
    ensures ValueOf(Decimal(n)) == n
    ensures n > 0 ==> Decimal(n)[0] != '0'
  {
    var s := Decimal(n);
    if n >= 10 {
      DecimalReadsBack(n / 10);
      assert s[..|s| - 1] == Decimal(n / 10);
    } else {
      assert s[..0] == "";
    }
  }

  lemma {:induction false} LastDotBefore(stem: string, ext: string)
    requires '.' !in ext
    ensures LastDot(stem + "." + ext) == Some(|stem|)
  {
    var name := stem + "." + ext;
    if ext != [] {
      LastDotBefore(stem, ext[..|ext| - 1]);
      assert name[..|name| - 1] == stem + "." + ext[..|ext| - 1];
    }
  }

  /** A renamed file keeps its extension: the number goes before the last dot. */
  lemma NumberBeforeExtension(stem: string, ext: string, n: nat)
    requires stem != "" && '.' !in ext && n >= 1
    ensures Candidate(stem + "." + ext, n) == stem + " (" + Decimal(n) + ")." + ext
  {
    hide LastDot;
    LastDotBefore(stem, ext);
    var name := stem + "." + ext;
    assert name[..|stem|] == stem && name[|stem| + 1..] == ext;
    assert Tail(name) == "." + ext;
  }

  lemma {:induction false} NoLaterDot(name: string)
    requires forall i :: 1 <= i < |name| ==> name[i] != '.'
    ensures LastDot(name) == None || LastDot(name) == Some(0)
  {
    if |name| > 1 { NoLaterDot(name[..|name| - 1]); }
  }

  /** A name without a dot, or with one in front only, gets the number at its end. */
  lemma NumberAtEnd(name: string, n: nat)
    requires n >= 1 && forall i :: 1 <= i < |name| ==> name[i] != '.'
    ensures Candidate(name, n) == name + " (" + Decimal(n) + ")"
  {
    hide LastDot;
    NoLaterDot(name);
  }

  ghost predicate SplitsAt(name: string, stem: string, ext: string) {
    stem != "" && '.' !in ext && name == stem + "." + ext
  }

  /** Every name is of one of these two kinds. */
  lemma {:induction false} NameKinds(name: string)
    ensures (forall i :: 1 <= i < |name| ==> name[i] != '.') || (exists stem, ext :: SplitsAt(name, stem, ext))
  {
    if i :| 1 <= i < |name| && name[i] == '.' {
      var front, last := name[..|name| - 1], name[|name| - 1];
      if last == '.' {
        assert SplitsAt(name, front, "");
      } else {
        NameKinds(front);
        assert front[i] == '.';
        var stem, ext :| SplitsAt(front, stem, ext);
        assert SplitsAt(name, stem, ext + [last]);
      }
    }
  }

  /** No two of the candidate names are the same. */
  lemma CandidatesDistinct(name: string, m: nat, n: nat)
    requires m < n
    ensures Candidate(name, m) != Candidate(name, n)
  {
    var stem, tail := StemAndExtension(name).0, Tail(name);
    NameSplits(name);
    if m != 0 && Candidate(name, m) == Candidate(name, n) {
      var c, k := Candidate(name, m), |stem| + 2;
      assert c[k..|c| - |tail| - 1] == Decimal(m) && c[k..|c| - |tail| - 1] == Decimal(n);
      DecimalInjective(m, n);
    }
  }

  /** The search from candidate `n` on. */
  function Search(dir: set<string>, name: string, n: nat): string
    requires n <= MAX_CANDIDATES
    decreases MAX_CANDIDATES - n
  {
    if n == MAX_CANDIDATES then name
    else if Candidate(name, n) !in dir then Candidate(name, n)
    else Search(dir, name, n + 1)
  }

  ghost predicate HasFreeCandidate(dir: set<string>, name: string) {
    exists k: nat :: k < MAX_CANDIDATES && Candidate(name, k) !in dir
  }

  lemma {:induction false} SearchFrom(dir: set<string>, name: string, n: nat)
    requires n <= MAX_CANDIDATES && forall j: nat :: j < n ==> Candidate(name, j) in dir
    ensures if HasFreeCandidate(dir, name)
            then exists k: nat :: k < MAX_CANDIDATES && Search(dir, name, n) == Candidate(name, k)
                   && Candidate(name, k) !in dir && forall j: nat :: j < k ==> Candidate(name, j) in dir
            else Search(dir, name, n) == name && name in dir
    decreases MAX_CANDIDATES - n
  {
    if n < MAX_CANDIDATES {
      if Candidate(name, n) in dir { SearchFrom(dir, name, n + 1); }
    } else {
      assert Candidate(name, 0) == name;
    }
  }

  /** The search finds the first free candidate, and fails exactly when all 10,000 are taken. */
  lemma SearchFindsFirstFree(dir: set<string>, name: string)
    ensures Search(dir, name, 0) !in dir <==> HasFreeCandidate(dir, name)
    ensures HasFreeCandidate(dir, name) ==>
      exists k: nat :: k < MAX_CANDIDATES && Search(dir, name, 0) == Candidate(name, k) && forall j: nat :: j < k ==> Candidate(name, j) in dir
    ensures !HasFreeCandidate(dir, name) ==> Search(dir, name, 0) == name
  {
    SearchFrom(dir, name, 0);
  }

  ghost function FirstCandidates(name: string, n: nat): set<string> {
    set k: nat | k < n :: Candidate(name, k)
  }

  lemma {:induction false} CandidateCount(name: string, n: nat)
    ensures |FirstCandidates(name, n)| == n
  {
    hide Candidate;
    if n > 0 {
      CandidateCount(name, n - 1);
      var fewer := FirstCandidates(name, n - 1);
      forall k: nat | k < n - 1 ensures Candidate(name, k) != Candidate(name, n - 1) { CandidatesDistinct(name, k, n - 1); }
      assert FirstCandidates(name, n) == fewer + {Candidate(name, n - 1)};
      assert Candidate(name, n - 1) !in fewer;
    }
  }

  /** A directory with fewer than 10,000 entries always has room for one more file of any name. */
  lemma SmallDirectoryHasRoom(dir: set<string>, name: string)
    requires |dir| < MAX_CANDIDATES
    ensures HasFreeCandidate(dir, name)
  {
    var all := FirstCandidates(name, MAX_CANDIDATES);
    CandidateCount(name, MAX_CANDIDATES);
    if all <= dir {
      SubsetSize(all, dir);
    } else {
      var c :| c in all && c !in dir;
    }
  }

  lemma SubsetSize<T>(small: set<T>, large: set<T>)
    requires small <= large
    ensures |small| <= |large|
  {
    assert large == small + (large - small);
  }

  /** `unique_destination_path`. */
  method UniqueDestinationPath(dir: set<string>, name: string) returns (path: string)
    ensures path == Search(dir, name, 0)
    ensures path !in dir <==> HasFreeCandidate(dir, name)
    ensures path !in dir ==> exists k: nat :: k < MAX_CANDIDATES && path == Candidate(name, k) && forall j: nat :: j < k ==> Candidate(name, j) in dir
  {
    SearchFindsFirstFree(dir, name);
    if name !in dir {
      return name;
    }
    var (stem, ext) := StemAndExtension(name);
    for n := 1 to MAX_CANDIDATES
      invariant Search(dir, name, 0) == Search(dir, name, n)
    {
      var numbered := match ext
        case Some(e) => stem + " (" + Decimal(n) + ")" + ("." + e)
        case None => stem + " (" + Decimal(n) + ")" + "";
      if numbered !in dir {
        return numbered;
      }
    }
    return name;
  }
}

/** The version counter of build templates: how a start version is split, how the next version
    is computed from the last one, and what the builds of a template are numbered. */
module BuildVersions {
  import opened Decimal
  import opened Options

  // ---------------------------------------------------------------- splitting

  datatype Split = Split(prefix: string, body: string, suffix: string)

  predicate NoNewline(s: string) {
    '\n' !in s
  }

  /** What the optional group `(.*[^\d])?` can match: a dot matches no newline. */
  predicate PrefixOk(p: string) {
    p == [] || (!IsDigit(p[|p| - 1]) && NoNewline(p[..|p| - 1]))
  }

  /** What the optional group `([^\d].*)?` can match. */
  predicate SuffixOk(f: string) {
    f == [] || (!IsDigit(f[0]) && NoNewline(f[1..]))
  }

  /** The ways the version pattern can match all of `s`. */
  predicate IsMatch(s: string, m: Split) {
    s == m.prefix + m.body + m.suffix && m.body != [] && AllDigits(m.body) && PrefixOk(m.prefix) && SuffixOk(m.suffix)
  }

  /** The end of the run of digits that starts at `i`. */
  function RunEnd(s: string, i: nat): (j: nat)
    requires i <= |s|
    ensures i <= j <= |s| && AllDigits(s[i..j]) && (j < |s| ==> !IsDigit(s[j]))
    decreases |s| - i
  {
    if i < |s| && IsDigit(s[i]) then RunEnd(s, i + 1) else i
  }

  function CutAt(s: string, i: nat): Split
    requires i <= |s|
  {
    Split(s[..i], s[i..RunEnd(s, i)], s[RunEnd(s, i)..])
  }

  /** Greedy search: the longest prefix first. */
  function FindFrom(s: string, i: nat): Option<Split>
    requires i <= |s|
  {
    if IsMatch(s, CutAt(s, i)) then Some(CutAt(s, i))
    else if i == 0 then None
    else FindFrom(s, i - 1)
  }

  function FindSplit(s: string): Option<Split> {
    FindFrom(s, |s|)
  }

  lemma {:induction false} RunEndIs(s: string, i: nat, j: nat)
    requires i <= j <= |s| && (forall k :: i <= k < j ==> IsDigit(s[k])) && (j < |s| ==> !IsDigit(s[j]))
    ensures RunEnd(s, i) == j
    decreases j - i
  {
    if i < j {
      RunEndIs(s, i + 1, j);
    }
  }

  lemma MatchIsCut(s: string, m: Split)
    requires IsMatch(s, m)
    ensures |m.prefix| <= |s| && CutAt(s, |m.prefix|) == m
  {
    var i, j := |m.prefix|, |m.prefix| + |m.body|;
    assert s[..i] == m.prefix && s[i..j] == m.body && s[j..] == m.suffix;
    assert forall k :: i <= k < j ==> s[k] == m.body[k - i];
    assert j < |s| ==> s[j] == m.suffix[0];
    RunEndIs(s, i, j);
  }

  lemma {:induction false} FindFromIsGreedy(s: string, i: nat)
    requires i <= |s|
    ensures FindFrom(s, i).Some? ==> IsMatch(s, FindFrom(s, i).value) && |FindFrom(s, i).value.prefix| <= i
    ensures forall m :: IsMatch(s, m) && |m.prefix| <= i ==>
              FindFrom(s, i).Some? && |m.prefix| <= |FindFrom(s, i).value.prefix|
  {
    forall m | IsMatch(s, m) && |m.prefix| == i ensures IsMatch(s, CutAt(s, i)) {
      MatchIsCut(s, m);
    }
    if i > 0 {
      FindFromIsGreedy(s, i - 1);
    }
  }

  /** The split is a match of the pattern with the longest prefix of all, and there is one
      whenever the pattern matches at all. */
  lemma {:induction false} SplitIsGreedy(s: string)
    ensures FindSplit(s).Some? ==> IsMatch(s, FindSplit(s).value)
    ensures forall m :: IsMatch(s, m) ==> FindSplit(s).Some? && |m.prefix| <= |FindSplit(s).value.prefix|
  {
    FindFromIsGreedy(s, |s|);
    assert forall m :: IsMatch(s, m) ==> |m.prefix| <= |s|;
  }

  predicate NoDigit(s: string) {
    forall i :: 0 <= i < |s| ==> !IsDigit(s[i])
  }

  /** `m` cuts `s` around its last maximal run of digits. */
  predicate CutsLastRun(s: string, m: Split) {
    s == m.prefix + m.body + m.suffix && m.body != [] && AllDigits(m.body) && NoDigit(m.suffix) &&
    (m.prefix == [] || !IsDigit(m.prefix[|m.prefix| - 1]))
  }

  /** The position after the last digit. */
  function AfterLastDigit(s: string): (n: nat)
    ensures n <= |s| && (forall x :: n <= x < |s| ==> !IsDigit(s[x])) && (n > 0 ==> IsDigit(s[n - 1]))
  {
    if s == [] then 0
    else if IsDigit(s[|s| - 1]) then |s|
    else
      AfterLastDigit(s[..|s| - 1])
  }

  /** The start of the run of digits that ends at `n`. */
  function RunStart(s: string, n: nat): (i: nat)
    requires n <= |s|
    ensures i <= n && (forall x :: i <= x < n ==> IsDigit(s[x])) && (i > 0 ==> !IsDigit(s[i - 1]))
    ensures n > 0 && IsDigit(s[n - 1]) ==> i < n
  {
    if n > 0 && IsDigit(s[n - 1]) then
      RunStart(s, n - 1)
    else n
  }

  /** There is only one cut around the last run of digits. */
  lemma LastRunAt(s: string, k: Split)
    requires CutsLastRun(s, k)
    ensures !NoDigit(s) && k == LastCut(s)
  {
    CutParts(s, k);
    AfterLastDigitIs(s, |k.prefix| + |k.body|);
    RunStartIs(s, |k.prefix|, |k.prefix| + |k.body|);
  }

  lemma CutSlices(s: string, k: Split)
    requires s == k.prefix + k.body + k.suffix
    ensures var a, b := |k.prefix|, |k.prefix| + |k.body|;
            b <= |s| && s[..a] == k.prefix && s[a..b] == k.body && s[b..] == k.suffix
  {
  }

  /** The digits of a cut around the last run, by position. */
  lemma CutParts(s: string, k: Split)
    requires CutsLastRun(s, k)
    ensures var a, b := |k.prefix|, |k.prefix| + |k.body|;
            && a < b <= |s| && k == Split(s[..a], s[a..b], s[b..])
            && (forall x :: a <= x < b ==> IsDigit(s[x])) && (forall x :: b <= x < |s| ==> !IsDigit(s[x]))
            && (a > 0 ==> !IsDigit(s[a - 1]))
  {
    CutSlices(s, k);
    var a, b := |k.prefix|, |k.prefix| + |k.body|;
    forall x | a <= x < b ensures IsDigit(s[x]) {
      assert s[a..b][x - a] == k.body[x - a];
    }
    forall x | b <= x < |s| ensures !IsDigit(s[x]) {
      assert s[b..][x - b] == k.suffix[x - b];
    }
    if a > 0 {
      assert s[..a][a - 1] == k.prefix[a - 1];
    }
  }

  lemma {:induction false} AfterLastDigitIs(s: string, b: nat)
    requires 0 < b <= |s| && IsDigit(s[b - 1]) && forall x :: b <= x < |s| ==> !IsDigit(s[x])
    ensures AfterLastDigit(s) == b
  {
    if b < |s| {
      AfterLastDigitIs(s[..|s| - 1], b);
    }
  }

  lemma {:induction false} RunStartIs(s: string, a: nat, b: nat)
    requires a <= b <= |s| && (forall x :: a <= x < b ==> IsDigit(s[x])) && (a > 0 ==> !IsDigit(s[a - 1]))
    ensures RunStart(s, b) == a
    decreases b
  {
    if a < b {
      RunStartIs(s, a, b - 1);
    }
  }

  lemma NewlineFreeParts(s: string, i: nat, j: nat)
    requires i <= j <= |s| && NoNewline(s)
    ensures NoNewline(s[i..j])
  {
  }

  /** Every cut around the last run is a match of the pattern when there is no newline. */
  lemma LastRunIsMatch(s: string, m: Split)
    requires NoNewline(s) && CutsLastRun(s, m)
    ensures IsMatch(s, m)
  {
    var a, b := |m.prefix|, |m.prefix| + |m.body|;
    assert m.prefix == s[0..a] && m.suffix == s[b..|s|];
    if a > 0 {
      assert m.prefix[..a - 1] == s[0..a - 1];
      NewlineFreeParts(s, 0, a - 1);
    }
    if b < |s| {
      assert m.suffix[1..] == s[b + 1..|s|];
      NewlineFreeParts(s, b + 1, |s|);
    }
  }

  lemma CutAround(s: string, i: nat, n: nat)
    requires i < n <= |s| && (i > 0 ==> !IsDigit(s[i - 1]))
    requires forall x :: i <= x < n ==> IsDigit(s[x])
    requires forall x :: n <= x < |s| ==> !IsDigit(s[x])
    ensures CutsLastRun(s, Split(s[..i], s[i..n], s[n..]))
  {
    assert s == s[..i] + s[i..n] + s[n..];
  }

  /** The cut around the last run of digits. */
  function LastCut(s: string): (m: Split)
    requires !NoDigit(s)
    ensures CutsLastRun(s, m) && |m.prefix| == RunStart(s, AfterLastDigit(s))
  {
    var n := AfterLastDigit(s);
    var i := RunStart(s, n);
    CutAround(s, i, n);
    Split(s[..i], s[i..n], s[n..])
  }

  lemma CutsHaveDigits(s: string, m: Split)
    ensures IsMatch(s, m) || CutsLastRun(s, m) ==> !NoDigit(s)
  {
    if s == m.prefix + m.body + m.suffix && m.body != [] {
      assert s[|m.prefix|] == m.body[0];
    }
  }

  /** The prefix of a match ends before the last run of digits begins or with it. */
  lemma MatchStartsBefore(s: string, m: Split)
    requires IsMatch(s, m)
    ensures |m.prefix| <= RunStart(s, AfterLastDigit(s))
  {
    var a := |m.prefix|;
    assert s[a] == m.body[0];
    assert a > 0 ==> s[a - 1] == m.prefix[a - 1];
  }

  lemma SplitIsLastRun(s: string)
    requires NoNewline(s) && !NoDigit(s)
    ensures FindSplit(s) == Some(LastCut(s))
  {
    var cut := LastCut(s);
    LastRunIsMatch(s, cut);
    SplitIsGreedy(s);
    var found := FindSplit(s).value;
    MatchStartsBefore(s, found);
    MatchIsCut(s, found);
    MatchIsCut(s, cut);
  }

  /** For a version without newlines the split cuts around the last run of digits, no other
      cut does, and there is a split exactly when there is a digit. */
  lemma SplitCutsLastRun(s: string, m: Split)
    requires NoNewline(s)
    ensures FindSplit(s) == Some(m) <==> CutsLastRun(s, m)
    ensures FindSplit(s).None? <==> NoDigit(s)
  {
    CutsHaveDigits(s, m);
    if NoDigit(s) {
      SplitIsGreedy(s);
      forall k: Split ensures !IsMatch(s, k) {
        CutsHaveDigits(s, k);
      }
    } else {
      SplitIsLastRun(s);
      if CutsLastRun(s, m) {
        LastRunAt(s, m);
      }
    }
  }

  /** A match of `p + b + f` whose prefix reaches into `f`, moved to another number. */
  lemma LongerMatchMoves(p: string, b: string, f: string, b': string, m: Split)
    requires AllDigits(b) && AllDigits(b') && b != []
    requires IsMatch(p + b + f, m) && |m.prefix| > |p|
    ensures |m.prefix| > |p| + |b|
    ensures IsMatch(p + b' + f, Split(p + b' + f[..|m.prefix| - |p| - |b|], m.body, m.suffix))
  {
    var s := p + b + f;
    var i, c := |m.prefix|, |p| + |b|;
    assert s[..i] == m.prefix;
    assert s[i - 1] == m.prefix[i - 1];
    assert forall x :: |p| <= x < c ==> s[x] == b[x - |p|];
    var j := i - c;
    assert m.prefix == p + b + f[..j];
    assert m.body + m.suffix == s[i..] == f[j..];
    NewlineFreeSwap(p, b, b', f[..j]);
    assert p + b' + f == (p + b' + f[..j]) + f[j..];
    assert (p + b' + f[..j]) + (m.body + m.suffix) == (p + b' + f[..j]) + m.body + m.suffix;
  }

  /** Replacing the number leaves the split where it was. */
  lemma Resplit(s: string, body: string)
    requires FindSplit(s).Some? && body != [] && AllDigits(body)
    ensures var m := FindSplit(s).value;
            FindSplit(m.prefix + body + m.suffix) == Some(m.(body := body))
  {
    SplitIsGreedy(s);
    var m := FindSplit(s).value;
    var s', m' := m.prefix + body + m.suffix, m.(body := body);
    assert IsMatch(s', m');
    SplitIsGreedy(s');
    var found := FindSplit(s').value;
    MatchIsCut(s', found);
    MatchIsCut(s', m');
    if |found.prefix| > |m.prefix| {
      LongerMatchMoves(m.prefix, body, m.suffix, m.body, found);
    }
  }

  lemma NewlineFreeSwap(p: string, b: string, b': string, f: string)
    requires AllDigits(b) && AllDigits(b') && f != [] && PrefixOk(p + b + f)
    ensures PrefixOk(p + b' + f)
  {
    var x, y := p + b + f, p + b' + f;
    assert x[..|x| - 1] == p + b + f[..|f| - 1];
    assert y[..|y| - 1] == p + b' + f[..|f| - 1];
    assert y[|y| - 1] == f[|f| - 1] == x[|x| - 1];
    assert '\n' !in b';
  }

  // ---------------------------------------------------------------- numbers

  const MAX_INT: int := 0x7FFF_FFFF_FFFF_FFFF
  const MIN_INT: int := -0x8000_0000_0000_0000

  function InRange(n: int): Option<int> {
    if MIN_INT <= n <= MAX_INT then Some(n) else None
  }

  /** An optional sign and at least one digit, within 64 bits. */
  function Atoi(s: string): Option<int> {
    if s != [] && (s[0] == '+' || s[0] == '-') then
      if |s| > 1 && AllDigits(s[1..]) then InRange((if s[0] == '-' then -1 else 1) * Parse(s[1..])) else None
    else if s != [] && AllDigits(s) then InRange(Parse(s))
    else None
  }

  function Print(n: int): string {
    if n < 0 then "-" + Itoa(-n) else Itoa(n)
  }

  /** Addition of one in 64 bits. */
  function Successor(n: int): int {
    if n == MAX_INT then MIN_INT else n + 1
  }

  lemma AtoiPrint(n: int)
    requires MIN_INT <= n <= MAX_INT
    ensures Atoi(Print(n)) == Some(n)
  {
    if n >= 0 {
      ParseItoa(n);
      assert IsDigit(Itoa(n)[0]);
    } else {
      ParseItoa(-n);
      assert Print(n)[1..] == Itoa(-n);
    }
  }

  /** What can be read as a number: digits after at most one sign, within 64 bits. */
  lemma AtoiReads(digits: string)
    requires digits != [] && AllDigits(digits)
    ensures Atoi(digits) == Atoi("+" + digits) ==
            if Parse(digits) < 0x8000_0000_0000_0000 then Some(Parse(digits)) else None
    ensures Atoi("-" + digits) == if Parse(digits) <= 0x8000_0000_0000_0000 then Some(0 - Parse(digits)) else None
  {
    assert IsDigit(digits[0]);
    assert ("+" + digits)[1..] == digits && ("-" + digits)[1..] == digits;
  }

  lemma AtoiReadsNothingElse(s: string)
    ensures Atoi(s).Some? ==>
              exists digits :: digits != [] && AllDigits(digits) &&
                               (s == digits || s == "+" + digits || s == "-" + digits)
  {
    if Atoi(s).Some? && !IsDigit(s[0]) {
      assert s == [s[0]] + s[1..];
    }
  }

  // ---------------------------------------------------------------- one step

  /** A version, or one of the two ways the computation can panic. */
  datatype Outcome = Version(text: string) | SlicePanic | OverflowPanic

  predicate HasSuffix(s: string, f: string) {
    |f| <= |s| && s[|s| - |f|..] == f
  }

  function NextBuildVersion(startVersion: string, currentVersion: string): Outcome {
    match FindSplit(startVersion)
    case None => Version(startVersion)
    case Some(Split(prefix, body, suffix)) =>
      if !(prefix <= currentVersion) || !HasSuffix(currentVersion, suffix) then Version(startVersion)
      else if |prefix| > |currentVersion| - |suffix| then SlicePanic
      else
        match Atoi(currentVersion[|prefix|..|currentVersion| - |suffix|])
        case None => Version(startVersion)
        case Some(curr) =>
          match Atoi(body)
          case None => OverflowPanic
          case Some(start) => Version(prefix + Print(if start > curr then start else Successor(curr)) + suffix)
  }

  function Max(a: int, b: int): int {
    if a > b then a else b
  }

  lemma DigitsAtoi(body: string)
    requires body != [] && AllDigits(body)
    ensures Atoi(body) == InRange(Parse(body))
  {
    assert IsDigit(body[0]);
  }

  /** A step from a version that carries number `curr` in the frame of the start version gives
      the frame around the larger of the start number and `curr + 1`, and reading that number
      back from the printed version gives the same maximum. */
  lemma {:induction false} StepTakesMaximum(startVersion: string, curr: int, middle: string)
    requires FindSplit(startVersion).Some? && Atoi(middle) == Some(curr) && curr < MAX_INT
    requires Parse(SplitOf(startVersion).body) <= MAX_INT
    ensures var m := SplitOf(startVersion);
            var next := Max(Parse(m.body), curr + 1);
            && NextBuildVersion(startVersion, m.prefix + middle + m.suffix) == Version(m.prefix + Itoa(next) + m.suffix)
            && FindSplit(m.prefix + Itoa(next) + m.suffix) == Some(Split(m.prefix, Itoa(next), m.suffix))
            && Atoi(Itoa(next)) == Some(next)
  {
    SplitIsGreedy(startVersion);
    var m := SplitOf(startVersion);
    var current := m.prefix + middle + m.suffix;
    assert current[..|m.prefix|] == m.prefix;
    assert current[|current| - |m.suffix|..] == m.suffix;
    assert current[|m.prefix|..|current| - |m.suffix|] == middle;
    DigitsAtoi(m.body);
    var next := Max(Parse(m.body), curr + 1);
    Resplit(startVersion, Itoa(next));
    AtoiPrint(next);
  }

  /** What follows a current version in the frame of the start version, in every case: text that is not
      a number starts the numbering again, a start number beyond 64 bits panics, and the number after
      the largest one is the smallest. */
  lemma {:induction false} FramedVersion(startVersion: string, middle: string)
    requires FindSplit(startVersion).Some?
    ensures var m := SplitOf(startVersion);
            NextBuildVersion(startVersion, m.prefix + middle + m.suffix) ==
              match Atoi(middle)
              case None => Version(startVersion)
              case Some(curr) =>
                if Parse(m.body) >= 0x8000_0000_0000_0000 then OverflowPanic
                else if Parse(m.body) > curr then Version(m.prefix + Print(Parse(m.body)) + m.suffix)
                else if curr == 0x7FFF_FFFF_FFFF_FFFF then Version(m.prefix + Print(-0x8000_0000_0000_0000) + m.suffix)
                else Version(m.prefix + Print(curr + 1) + m.suffix)
  {
    var m := SplitOf(startVersion);
    var current := m.prefix + middle + m.suffix;
    assert current[..|m.prefix|] == m.prefix;
    assert current[|current| - |m.suffix|..] == m.suffix;
    assert current[|m.prefix|..|current| - |m.suffix|] == middle;
    DigitsAtoi(m.body);
  }

  /** A start version without a number is the version of every build. */
  lemma {:induction false} NoNumberToCount(startVersion: string, currentVersion: string)
    requires FindSplit(startVersion).None?
    ensures NextBuildVersion(startVersion, currentVersion) == Version(startVersion)
  {
  }

  /** A current version that does not carry a number in the frame of the start version starts the
      numbering again. */
  lemma {:induction false} OtherVersionsRestart(startVersion: string, currentVersion: string)
    requires FindSplit(startVersion).Some?
    requires forall middle ::
             currentVersion == SplitOf(startVersion).prefix + middle + SplitOf(startVersion).suffix ==>
                 Atoi(middle).None?
    ensures NextBuildVersion(startVersion, currentVersion) == SlicePanic ||
            NextBuildVersion(startVersion, currentVersion) == Version(startVersion)
  {
    var m := SplitOf(startVersion);
    if m.prefix <= currentVersion && HasSuffix(currentVersion, m.suffix) &&
        |m.prefix| + |m.suffix| <= |currentVersion| {
      var middle := currentVersion[|m.prefix|..|currentVersion| - |m.suffix|];
      assert currentVersion == m.prefix + middle + m.suffix;
    }
  }

  function SplitOf(s: string): (m: Split)
    requires FindSplit(s).Some?
    ensures m.body != [] && AllDigits(m.body)
  {
    FindFromIsGreedy(s, |s|);
    FindSplit(s).value
  }

  /** A current version in which prefix and suffix of the start version overlap makes the
      slice expression panic; nothing else does. */
  lemma SlicePanicsIffOverlap(startVersion: string, currentVersion: string)
    ensures NextBuildVersion(startVersion, currentVersion) == SlicePanic <==>
            && FindSplit(startVersion).Some?
            && var m := SplitOf(startVersion);
               m.prefix <= currentVersion && HasSuffix(currentVersion, m.suffix) &&
                   |currentVersion| < |m.prefix| + |m.suffix|
  {
    FindFromIsGreedy(startVersion, |startVersion|);
  }

  lemma SlicePanicExample()
    ensures NextBuildVersion("a1a", "a") == SlicePanic
  {
    var m := Split("a", "1", "a");
    SplitCutsLastRun("a1a", m);
    assert CutsLastRun("a1a", m);
  }
}

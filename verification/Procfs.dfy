/** internal/procfs/procfs.go: the process name (`comm`) of a pid.

    The read of `/proc/<pid>/comm` is the one piece of I/O; the file system is
    an input, a map from path to file content in which a missing path stands
    for any read failure (no such process, permission denied, ...). The file
    content is taken as already decoded Unicode text. */
module Procfs {

  const Unknown := "unknown"

  // ---------------------------------------------------------------------------
  // Decimal rendering of a non-negative integer (`%d`, `strconv.Itoa`)
  // ---------------------------------------------------------------------------

  predicate IsDigit(c: char) {
    '0' <= c <= '9'
  }

  predicate AllDigits(s: string) {
    forall i :: 0 <= i < |s| ==> IsDigit(s[i])
  }

  function DigitChar(d: nat): (c: char)
    requires d < 10
    ensures IsDigit(c) && DigitValue(c) == d
  {
    (48 + d) as char
  }

  function DigitValue(c: char): nat
    requires IsDigit(c)
  {
    (c as int) - 48
  }

  /** Shortest base-10 rendering, as Go's `%d` and `strconv.Itoa` print a
      non-negative value: at least one digit, no leading zero except "0". */
  function Decimal(n: nat): (s: string)
    ensures |s| >= 1 && AllDigits(s)
    ensures s[0] == '0' <==> n == 0
    decreases n
  {
    if n < 10 then [DigitChar(n)] else Decimal(n / 10) + [DigitChar(n % 10)]
  }

  /** The value a string of digits denotes; the reference that `Decimal` is
      checked against. */
  function ParseDecimal(s: string): nat
    requires AllDigits(s)
    decreases |s|
  {
    if s == [] then 0 else 10 * ParseDecimal(s[..|s| - 1]) + DigitValue(s[|s| - 1])
  }

  lemma {:induction false} DecimalRoundTrip(n: nat)
    ensures ParseDecimal(Decimal(n)) == n
    decreases n
  {
    if n >= 10 {
      DecimalRoundTrip(n / 10);
      var s := Decimal(n);
      assert s[..|s| - 1] == Decimal(n / 10);
    }
  }

  /** Distinct numbers render to distinct strings. */
  lemma DecimalInjective(m: nat, n: nat)
    ensures Decimal(m) == Decimal(n) ==> m == n
  {
    DecimalRoundTrip(m);
    DecimalRoundTrip(n);
  }

  // ---------------------------------------------------------------------------
  // strings.TrimSpace
  // ---------------------------------------------------------------------------

  /** Go's `unicode.IsSpace`: the Latin-1 spaces and the other code points
      with the Unicode White_Space property. */
  predicate IsSpace(c: char) {
    || c == '\t' || c == '\n' || c == '\U{0B}' || c == '\U{0C}' || c == '\r' || c == ' '
    || c == '\U{85}' || c == '\U{A0}' || c == '\U{1680}'
    || ('\U{2000}' <= c <= '\U{200A}')
    || c == '\U{2028}' || c == '\U{2029}' || c == '\U{202F}' || c == '\U{205F}' || c == '\U{3000}'
  }

  /** Every character of `s[lo..hi]` is white space. */
  predicate SpaceIn(s: string, lo: nat, hi: nat)
    requires lo <= hi <= |s|
  {
    forall k :: lo <= k < hi ==> IsSpace(s[k])
  }

  /** Neither the first nor the last character is white space. */
  predicate Trimmed(s: string) {
    s == [] || (!IsSpace(s[0]) && !IsSpace(s[|s| - 1]))
  }

  /** `t` is `s` with a white-space prefix and a white-space suffix cut off. */
  ghost predicate CutFrom(s: string, t: string) {
    exists i :: 0 <= i <= |s| - |t| && s[i..i + |t|] == t && SpaceIn(s, 0, i) && SpaceIn(s, i + |t|, |s|)
  }

  /** The start index of TrimSpace: the first position at or after `lo`
      that does not hold white space. */
  function FirstNonSpace(s: string, lo: nat): (i: nat)
    requires lo <= |s|
    ensures lo <= i <= |s| && SpaceIn(s, lo, i)
    ensures i == |s| || !IsSpace(s[i])
    decreases |s| - lo
  {
    if lo == |s| || !IsSpace(s[lo]) then lo else FirstNonSpace(s, lo + 1)
  }

  /** The stop index of TrimSpace: scanning down from `hi`, not below `lo`,
      the end of the last character that is not white space. */
  function LastNonSpace(s: string, lo: nat, hi: nat): (j: nat)
    requires lo <= hi <= |s|
    ensures lo <= j <= hi && SpaceIn(s, j, hi)
    ensures j == lo || !IsSpace(s[j - 1])
    decreases hi
  {
    if hi == lo || !IsSpace(s[hi - 1]) then hi else LastNonSpace(s, lo, hi - 1)
  }

  /** `strings.TrimSpace`: leading and trailing white space removed; nothing
      else changes. */
  function TrimSpace(s: string): (r: string)
    ensures Trimmed(r)
    ensures CutFrom(s, r)
  {
    var i := FirstNonSpace(s, 0);
    var j := LastNonSpace(s, i, |s|);
    var r := s[i..j];
    assert s[i..i + |r|] == r;
    r
  }

  /** The start scan stops at the first non-space character. */
  lemma {:induction false} FirstNonSpaceAt(s: string, lo: nat, i: nat)
    requires lo <= i <= |s| && SpaceIn(s, lo, i) && (i == |s| || !IsSpace(s[i]))
    ensures FirstNonSpace(s, lo) == i
    decreases i - lo
  {
    if lo < i {
      FirstNonSpaceAt(s, lo + 1, i);
    }
  }

  /** The stop scan stops after the last non-space character. */
  lemma {:induction false} LastNonSpaceAt(s: string, lo: nat, hi: nat, j: nat)
    requires lo <= j <= hi <= |s| && SpaceIn(s, j, hi) && (j == lo || !IsSpace(s[j - 1]))
    ensures LastNonSpace(s, lo, hi) == j
    decreases hi - j
  {
    if j < hi {
      LastNonSpaceAt(s, lo, hi - 1, j);
    }
  }

  /** TrimSpace is the only cut of `s` without surrounding white space: the
      two contract clauses of TrimSpace determine its result. */
  lemma TrimSpaceUnique(s: string, t: string)
    requires Trimmed(t) && CutFrom(s, t)
    ensures t == TrimSpace(s)
  {
    var i :| 0 <= i <= |s| - |t| && s[i..i + |t|] == t && SpaceIn(s, 0, i) && SpaceIn(s, i + |t|, |s|);
    TrimSpaceAt(s, t, i);
  }

  lemma TrimSpaceAt(s: string, t: string, i: nat)
    requires Trimmed(t) && i + |t| <= |s| && s[i..i + |t|] == t
    requires SpaceIn(s, 0, i) && SpaceIn(s, i + |t|, |s|)
    ensures t == TrimSpace(s)
  {
    if t == [] {
      FirstNonSpaceAt(s, 0, |s|);
      LastNonSpaceAt(s, |s|, |s|, |s|);
    } else {
      assert s[i] == t[0] && s[i + |t| - 1] == t[|t| - 1];
      FirstNonSpaceAt(s, 0, i);
      LastNonSpaceAt(s, i, |s|, i + |t|);
    }
  }

  /** Trimming a trimmed string changes nothing. */
  lemma TrimSpaceIdempotent(s: string)
    ensures TrimSpace(TrimSpace(s)) == TrimSpace(s)
  {
    TrimFixesTrimmed(TrimSpace(s));
  }

  /** A string without surrounding white space is its own trim. */
  lemma TrimFixesTrimmed(s: string)
    requires Trimmed(s)
    ensures TrimSpace(s) == s
  {
    assert FirstNonSpace(s, 0) == 0;
    assert s[0..|s|] == s;
  }

  // ---------------------------------------------------------------------------
  // GetProcessName
  // ---------------------------------------------------------------------------

  /** `fmt.Sprintf("/proc/%d/comm", pid)`. */
  function CommPath(pid: nat): (p: string)
    ensures |p| > 11 && p[..6] == "/proc/" && p[|p| - 5..] == "/comm"
    ensures AllDigits(p[6..|p| - 5]) && ParseDecimal(p[6..|p| - 5]) == pid
    // `%d` prints the plain decimal rendering, without padding.
    ensures p[6..|p| - 5] == Decimal(pid)
  {
    var p := "/proc/" + Decimal(pid) + "/comm";
    assert p[6..|p| - 5] == Decimal(pid);
    DecimalRoundTrip(pid);
    p
  }

  /** The process name for `pid`, read from `fs`: "unknown" when the read
      fails, otherwise the file content without surrounding white space. */
  function GetProcessName(pid: nat, fs: map<string, string>): (name: string)
    ensures CommPath(pid) !in fs ==> name == Unknown
    ensures CommPath(pid) in fs ==> Trimmed(name) && CutFrom(fs[CommPath(pid)], name)
  {
    var path := CommPath(pid);
    if path !in fs then Unknown else TrimSpace(fs[path])
  }

  /** Distinct pids read distinct files. */
  lemma CommPathInjective(m: nat, n: nat)
    ensures CommPath(m) == CommPath(n) ==> m == n
  {
  }

  /** The name is always free of surrounding white space, on either path, so
      trimming it again changes nothing. */
  lemma ProcessNameIsTrimmed(pid: nat, fs: map<string, string>)
    ensures TrimSpace(GetProcessName(pid, fs)) == GetProcessName(pid, fs)
  {
    TrimFixesTrimmed(GetProcessName(pid, fs));
  }
}

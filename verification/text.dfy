/**
 * String helpers shared by both programs: the JavaScript string operations the
 * source relies on (`endsWith`, `replace` with a string pattern, `toString` of an
 * integer, `padStart`), written out over `seq<char>`.
 */
module Text {
  import opened Wrappers

  predicate StartsWith(s: string, prefix: string) {
    |prefix| <= |s| && s[..|prefix|] == prefix
  }

  predicate EndsWith(s: string, suffix: string) {
    |suffix| <= |s| && s[|s| - |suffix|..] == suffix
  }

  /** `pat` occurs in `s` starting at index `i`. */
  predicate OccursAt(s: string, pat: string, i: nat) {
    i + |pat| <= |s| && s[i..i + |pat|] == pat
  }

  predicate Contains(s: string, pat: string) {
    exists i: nat | i <= |s| :: OccursAt(s, pat, i)
  }

  /** First index at or after `from` where `pat` occurs. */
  function IndexFrom(s: string, pat: string, from: nat): (r: Option<nat>)
    decreases |s| + 1 - from
    ensures r.Some? ==> from <= r.value && OccursAt(s, pat, r.value)
    ensures r.Some? ==> forall j: nat :: from <= j < r.value ==> !OccursAt(s, pat, j)
    ensures r.None? ==> forall j: nat :: from <= j ==> !OccursAt(s, pat, j)
  {
    if from + |pat| > |s| then None
    else if s[from..from + |pat|] == pat then Some(from)
    else IndexFrom(s, pat, from + 1)
  }

  /** JavaScript `s.indexOf(pat)`, with -1 written as None. */
  function IndexOf(s: string, pat: string): Option<nat> {
    IndexFrom(s, pat, 0)
  }

  /**
   * JavaScript `s.replace(pat, rep)` with a string pattern: only the FIRST
   * occurrence of `pat` is replaced; without one, `s` is returned as it is.
   */
  function ReplaceFirst(s: string, pat: string, rep: string): (r: string)
    ensures !Contains(s, pat) ==> r == s
    ensures Contains(s, pat) ==> |r| == |s| - |pat| + |rep|
    ensures Contains(s, pat) ==>
      exists i: nat :: OccursAt(s, pat, i) && (forall j: nat :: j < i ==> !OccursAt(s, pat, j))
                       && r == s[..i] + rep + s[i + |pat|..]
  {
    match IndexOf(s, pat)
    case None => s
    case Some(i) => s[..i] + rep + s[i + |pat|..]
  }

  /**
   * Removing a suffix that occurs nowhere earlier gives back the stem: when
   * `pat` does not occur in `stem + pat` before index |stem|, replacing the
   * first occurrence of `pat` by "" yields `stem`.
   */
  lemma ReplaceFirstStripsSuffix(stem: string, pat: string)
    requires forall j: nat :: j < |stem| ==> !OccursAt(stem + pat, pat, j)
    ensures ReplaceFirst(stem + pat, pat, "") == stem
  {
    var s := stem + pat;
    assert OccursAt(s, pat, |stem|) by { assert s[|stem|..|stem| + |pat|] == pat; }
    var i := IndexOf(s, pat);
    assert i == Some(|stem|);
    assert s[..|stem|] == stem;
  }

  /**
   * A pattern whose first character does not recur in it cannot start inside
   * a stem that does not contain it and run on into the pattern appended to
   * that stem.
   */
  lemma NoLateOccurrence(stem: string, pat: string, j: nat)
    requires pat != [] && forall k :: 0 < k < |pat| ==> pat[k] != pat[0]
    requires j < |stem| && !Contains(stem, pat)
    ensures !OccursAt(stem + pat, pat, j)
  {
    var s := stem + pat;
    var n := |pat|;
    if j + n <= |stem| {
      assert s[j..j + n] == stem[j..j + n];
      assert !OccursAt(stem, pat, j);
    } else {
      var m := |stem| - j;   // characters of the candidate occurrence that lie in the stem
      assert 0 < m < n;
      assert s[j..j + n][m] == s[|stem|] == pat[0];
      assert s[j..j + n][m] != pat[m];
    }
  }

  /** Such a pattern, appended to a stem without it, is removed again by replacing its first occurrence. */
  lemma StripAppendedPattern(stem: string, pat: string)
    requires pat != [] && forall k :: 0 < k < |pat| ==> pat[k] != pat[0]
    requires !Contains(stem, pat)
    ensures ReplaceFirst(stem + pat, pat, "") == stem
  {
    forall j: nat | j < |stem| ensures !OccursAt(stem + pat, pat, j) {
      NoLateOccurrence(stem, pat, j);
    }
    ReplaceFirstStripsSuffix(stem, pat);
  }

  // ---------------------------------------------------------------------
  // Decimal rendering of integers (`Number.prototype.toString()`)
  // ---------------------------------------------------------------------

  function DigitChar(d: nat): (c: char)
    requires d < 10
    ensures '0' <= c <= '9'
  {
    ['0', '1', '2', '3', '4', '5', '6', '7', '8', '9'][d]
  }

  predicate IsDigit(c: char) {
    '0' <= c <= '9'
  }

  function DigitValue(c: char): (d: nat)
    requires IsDigit(c)
    ensures d < 10
  {
    (c as int - '0' as int) as nat
  }

  /** Decimal digits of a natural number, most significant first, no leading zero. */
  function NatToString(n: nat): (s: string)
    ensures |s| >= 1
    ensures forall i :: 0 <= i < |s| ==> IsDigit(s[i])
    ensures n < 10 <==> |s| == 1
    ensures 10 <= n < 100 <==> |s| == 2
    decreases n
  {
    if n < 10 then [DigitChar(n)] else NatToString(n / 10) + [DigitChar(n % 10)]
  }

  /** The number a string of decimal digits denotes. */
  predicate AllDigits(s: string) {
    forall i :: 0 <= i < |s| ==> IsDigit(s[i])
  }

  function DecimalValue(s: string): nat
    requires AllDigits(s)
  {
    if s == [] then 0 else DecimalValue(s[..|s| - 1]) * 10 + DigitValue(s[|s| - 1])
  }

  lemma DigitRoundTrip(d: nat)
    requires d < 10
    ensures DigitValue(DigitChar(d)) == d
  {
  }

  /** Reading back what NatToString writes gives the number again. */
  lemma {:induction false} NatToStringRoundTrip(n: nat)
    ensures DecimalValue(NatToString(n)) == n
    decreases n
  {
    var s := NatToString(n);
    if n < 10 {
      DigitRoundTrip(n);
      assert s[..0] == [];
    } else {
      NatToStringRoundTrip(n / 10);
      DigitRoundTrip(n % 10);
      assert s[..|s| - 1] == NatToString(n / 10);
    }
  }

  /** A leading zero never adds value. */
  lemma LeadingZero(s: string)
    requires forall i :: 0 <= i < |s| ==> IsDigit(s[i])
    ensures forall i :: 0 <= i < |['0'] + s| ==> IsDigit((['0'] + s)[i])
    ensures DecimalValue(['0'] + s) == DecimalValue(s)
    decreases |s|
  {
    if s != [] {
      assert (['0'] + s)[..|s|] == ['0'] + s[..|s| - 1];
      LeadingZero(s[..|s| - 1]);
    }
  }

  /** JavaScript `(i).toString()` for an integer `i`. */
  function IntToString(i: int): string {
    if i < 0 then "-" + NatToString(-i) else NatToString(i)
  }

  /** JavaScript `s.padStart(width, fill)` with a one-character fill. */
  function PadStart(s: string, width: nat, fill: char): (r: string)
    ensures |s| >= width ==> r == s
    ensures |s| < width ==> |r| == width && r[width - |s|..] == s
    ensures forall i :: 0 <= i < |r| - |s| ==> r[i] == fill
    decreases width - |s|
  {
    if |s| >= width then s else PadStart([fill] + s, width, fill)
  }
}

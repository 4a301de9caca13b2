/** The two JavaScript string builtins the bootstrap script relies on
    (`lastIndexOf` with a one-character argument, `replace` with a string
    pattern) and the number-to-string conversion `replace` applies to the
    year. */
module Strings {

  /** `pat` occurs in `s` starting at index `i`. */
  predicate OccursAt(s: string, pat: string, i: nat) {
    i + |pat| <= |s| && s[i..i + |pat|] == pat
  }

  /** `i` is the first index at which `pat` occurs in `s`. */
  predicate FirstOccurrence(s: string, pat: string, i: nat) {
    OccursAt(s, pat, i) && forall j: nat :: j < i ==> !OccursAt(s, pat, j)
  }

  /** `s.lastIndexOf(c)`: the index of the last `c` in `s`, or -1. */
  function LastIndexOf(s: string, c: char): (r: int)
    ensures -1 <= r < |s|
    ensures r == -1 <==> c !in s
    ensures r >= 0 ==> s[r] == c && c !in s[r + 1..]
  {
    if |s| == 0 then -1
    else if s[|s| - 1] == c then |s| - 1
    else
      assert s == s[..|s| - 1] + [s[|s| - 1]];
      LastIndexOf(s[..|s| - 1], c)
  }

  lemma OccursAtShift(s: string, pat: string, i: nat)
    requires |s| > 0
    ensures OccursAt(s[1..], pat, i) <==> OccursAt(s, pat, i + 1)
  {
    if i + 1 + |pat| <= |s| {
      assert s[1..][i..i + |pat|] == s[i + 1..i + 1 + |pat|];
    }
  }

  /** `s.replace(pat, rep)` for a string pattern: only the FIRST occurrence
      of `pat` is replaced; with no occurrence `s` is returned as it is. */
  function ReplaceFirst(s: string, pat: string, rep: string): (r: string)
    ensures (forall i: nat :: !OccursAt(s, pat, i)) ==> r == s
    ensures forall i: nat :: FirstOccurrence(s, pat, i) ==> r == s[..i] + rep + s[i + |pat|..]
    decreases |s|
  {
    if |pat| <= |s| && s[..|pat|] == pat then
      assert OccursAt(s, pat, 0);
      rep + s[|pat|..]
    else if |s| == 0 then s
    else
      var rest := ReplaceFirst(s[1..], pat, rep);
      ReplaceFirstCons(s, pat, rep, rest);
      [s[0]] + rest
  }

  /** The step of `ReplaceFirst` past a first character that starts no
      occurrence: the replacement in the tail, with that character in front,
      is the replacement in the whole string. */
  lemma ReplaceFirstCons(s: string, pat: string, rep: string, rest: string)
    requires |s| > 0 && !OccursAt(s, pat, 0)
    requires (forall i: nat :: !OccursAt(s[1..], pat, i)) ==> rest == s[1..]
    requires forall i: nat :: FirstOccurrence(s[1..], pat, i) ==> rest == s[1..][..i] + rep + s[1..][i + |pat|..]
    ensures (forall i: nat :: !OccursAt(s, pat, i)) ==> [s[0]] + rest == s
    ensures forall i: nat :: FirstOccurrence(s, pat, i) ==> [s[0]] + rest == s[..i] + rep + s[i + |pat|..]
  {
    if forall i: nat :: !OccursAt(s, pat, i) {
      NoOccurrenceTail(s, pat);
    }
    forall i: nat | FirstOccurrence(s, pat, i) ensures [s[0]] + rest == s[..i] + rep + s[i + |pat|..] {
      FirstOccurrenceTail(s, pat, i);
      ConsSplice(s, rep, i, |pat|);
    }
  }

  lemma NoOccurrenceTail(s: string, pat: string)
    requires |s| > 0 && forall i: nat :: !OccursAt(s, pat, i)
    ensures forall i: nat :: !OccursAt(s[1..], pat, i)
  {
    forall i: nat ensures !OccursAt(s[1..], pat, i) {
      OccursAtShift(s, pat, i);
    }
  }

  lemma FirstOccurrenceTail(s: string, pat: string, i: nat)
    requires |s| > 0 && !OccursAt(s, pat, 0) && FirstOccurrence(s, pat, i)
    ensures i > 0 && FirstOccurrence(s[1..], pat, i - 1)
  {
    OccursAtShift(s, pat, i - 1);
    forall j: nat | j < i - 1 ensures !OccursAt(s[1..], pat, j) {
      OccursAtShift(s, pat, j);
    }
  }

  lemma ConsSplice(s: string, rep: string, i: nat, m: nat)
    requires 0 < i && i + m <= |s|
    ensures [s[0]] + (s[1..][..i - 1] + rep + s[1..][i - 1 + m..]) == s[..i] + rep + s[i + m..]
  {
    assert s[..i] == [s[0]] + s[1..][..i - 1];
    assert s[i + m..] == s[1..][i - 1 + m..];
  }

  /** Replacing with a non-empty text never turns a non-empty string into
      the empty one. */
  lemma ReplaceFirstNonEmpty(s: string, pat: string, rep: string)
    requires s != [] && rep != []
    ensures ReplaceFirst(s, pat, rep) != []
  {
    var r := ReplaceFirst(s, pat, rep);
    if i: nat :| FirstOccurrence(s, pat, i) {
      assert |r| == i + |rep| + (|s| - i - |pat|);
    } else {
      forall i: nat ensures !OccursAt(s, pat, i) {
        if OccursAt(s, pat, i) {
          FirstExists(s, pat, i);
        }
      }
    }
  }

  /** Any occurrence implies a first one. */
  lemma {:induction false} FirstExists(s: string, pat: string, i: nat)
    requires OccursAt(s, pat, i)
    ensures exists k: nat :: k <= i && FirstOccurrence(s, pat, k)
    decreases i
  {
    if forall j: nat :: j < i ==> !OccursAt(s, pat, j) {
      assert FirstOccurrence(s, pat, i);
    } else {
      var j: nat :| j < i && OccursAt(s, pat, j);
      FirstExists(s, pat, j);
    }
  }

  /** A string with no `c` in it has no occurrence of any pattern containing `c`. */
  lemma NoOccurrenceWithout(s: string, pat: string, c: char, p: nat)
    requires c !in s && p < |pat| && pat[p] == c
    ensures forall i: nat :: !OccursAt(s, pat, i)
  {
    forall i: nat ensures !OccursAt(s, pat, i) {
      if i + |pat| <= |s| {
        assert s[i..i + |pat|][p] == s[i + p];
      }
    }
  }

  function DigitChar(d: nat): (c: char)
    requires d < 10
  {
    "0123456789"[d]
  }

  function DigitValue(c: char): nat
  {
    if '0' <= c <= '9' then (c as int - '0' as int) as nat else 0
  }

  /** Decimal digits of a natural number, most significant first: how a
      JavaScript number holding a non-negative integer becomes a string. */
  function DecimalString(n: nat): (r: string)
    ensures r != []
    ensures forall k :: 0 <= k < |r| ==> '0' <= r[k] <= '9'
    ensures r[0] == '0' ==> n == 0
  {
    if n < 10 then [DigitChar(n)] else DecimalString(n / 10) + [DigitChar(n % 10)]
  }

  /** The value a string of decimal digits denotes. */
  function DecimalValue(s: string): nat
  {
    if s == [] then 0 else 10 * DecimalValue(s[..|s| - 1]) + DigitValue(s[|s| - 1])
  }

  lemma {:induction false} DecimalRoundTrip(n: nat)
    ensures DecimalValue(DecimalString(n)) == n
  {
    if n >= 10 {
      DecimalRoundTrip(n / 10);
      var s := DecimalString(n);
      assert s[..|s| - 1] == DecimalString(n / 10);
    }
  }
}

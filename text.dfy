/**
 * String utilities the gateway relies on implicitly: the ASCII
 * case-insensitive substring test that a JavaScript regular expression
 * made of literal alternatives with the `i` flag performs, and the decimal
 * rendering of a non-negative integer inside a template literal.
 */
module Text {

  /** ASCII lower-casing; every other character is returned unchanged. */
  function FoldAscii(c: char): char {
    if 'A' <= c <= 'Z' then (c as int + 32) as char else c
  }

  /** Two characters that a case-insensitive, non-Unicode regex treats as equal. */
  predicate SameIgnoringCase(a: char, b: char) {
    FoldAscii(a) == FoldAscii(b)
  }

  /** Is `p` a case-insensitive prefix of `s`? */
  function StartsWithIgnoringCase(s: string, p: string): bool
    decreases |p|
  {
    |p| <= |s| && (|p| == 0 || (SameIgnoringCase(s[0], p[0]) && StartsWithIgnoringCase(s[1..], p[1..])))
  }

  /** Does `p` occur in `s`, ignoring ASCII case? Scans `s` left to right. */
  function ContainsIgnoringCase(s: string, p: string): bool
    ensures ContainsIgnoringCase(s, p) ==> |p| <= |s|
    ensures |p| == 0 ==> ContainsIgnoringCase(s, p)
    decreases |s|
  {
    StartsWithIgnoringCase(s, p) || (|s| > 0 && ContainsIgnoringCase(s[1..], p))
  }

  /** Reference definition: `p` matches `s` at position `i`, ignoring ASCII case. */
  ghost predicate MatchesAt(s: string, p: string, i: int) {
    0 <= i && i + |p| <= |s| && forall j :: 0 <= j < |p| ==> SameIgnoringCase(s[i + j], p[j])
  }

  lemma {:induction false} StartsWithIgnoringCaseIsMatchAtZero(s: string, p: string)
    ensures StartsWithIgnoringCase(s, p) <==> MatchesAt(s, p, 0)
    decreases |p|
  {
    if |p| > 0 && |p| <= |s| {
      StartsWithIgnoringCaseIsMatchAtZero(s[1..], p[1..]);
      if MatchesAt(s, p, 0) {
        assert forall j :: 0 <= j < |p| - 1 ==> SameIgnoringCase(s[1..][j], p[1..][j]) by {
          forall j | 0 <= j < |p| - 1 ensures SameIgnoringCase(s[1..][j], p[1..][j]) {
            assert s[1..][j] == s[0 + (j + 1)] && p[1..][j] == p[j + 1];
          }
        }
      }
      if StartsWithIgnoringCase(s, p) {
        forall j | 0 <= j < |p| ensures SameIgnoringCase(s[0 + j], p[j]) {
          if j > 0 {
            assert MatchesAt(s[1..], p[1..], 0);
            assert s[1..][0 + (j - 1)] == s[j] && p[1..][j - 1] == p[j];
          }
        }
      }
    }
  }

  /** The scan agrees with the reference definition: `p` occurs somewhere in `s`. */
  lemma {:induction false} ContainsIgnoringCaseIff(s: string, p: string)
    ensures ContainsIgnoringCase(s, p) <==> exists i :: MatchesAt(s, p, i)
    decreases |s|
  {
    StartsWithIgnoringCaseIsMatchAtZero(s, p);
    if |s| > 0 {
      ContainsIgnoringCaseIff(s[1..], p);
      // a match in the tail is a match in `s` one position further right
      forall i | MatchesAt(s[1..], p, i) ensures MatchesAt(s, p, i + 1) {
        forall j | 0 <= j < |p| ensures SameIgnoringCase(s[i + 1 + j], p[j]) {
          assert s[1..][i + j] == s[i + 1 + j];
        }
      }
      // a match in `s` away from the start is a match in the tail
      forall i | MatchesAt(s, p, i) && i > 0 ensures MatchesAt(s[1..], p, i - 1) {
        forall j | 0 <= j < |p| ensures SameIgnoringCase(s[1..][i - 1 + j], p[j]) {
          assert s[1..][i - 1 + j] == s[i + j];
        }
      }
      if exists i :: MatchesAt(s, p, i) {
        var i :| MatchesAt(s, p, i);
        if i > 0 {
          assert MatchesAt(s[1..], p, i - 1);
        }
      }
    } else {
      if exists i :: MatchesAt(s, p, i) {
        var i :| MatchesAt(s, p, i);
        assert i == 0;
      }
    }
  }

  /** An exact occurrence is in particular a case-insensitive one. */
  lemma ExactOccurrenceIsFound(s: string, p: string, i: nat)
    requires i + |p| <= |s| && s[i..i + |p|] == p
    ensures ContainsIgnoringCase(s, p)
  {
    forall j | 0 <= j < |p| ensures SameIgnoringCase(s[i + j], p[j]) {
      assert s[i + j] == s[i..i + |p|][j];
    }
    assert MatchesAt(s, p, i);
    ContainsIgnoringCaseIff(s, p);
  }

  /** Changing the case of letters in the text never changes whether `p` is found. */
  lemma CaseOfTextIsIrrelevant(s: string, t: string, p: string)
    requires |s| == |t| && forall k :: 0 <= k < |s| ==> SameIgnoringCase(s[k], t[k])
    ensures ContainsIgnoringCase(s, p) == ContainsIgnoringCase(t, p)
  {
    ContainsIgnoringCaseIff(s, p);
    ContainsIgnoringCaseIff(t, p);
    forall i | MatchesAt(s, p, i) ensures MatchesAt(t, p, i) {
      forall j | 0 <= j < |p| ensures SameIgnoringCase(t[i + j], p[j]) {
        assert SameIgnoringCase(s[i + j], t[i + j]);
      }
    }
    forall i | MatchesAt(t, p, i) ensures MatchesAt(s, p, i) {
      forall j | 0 <= j < |p| ensures SameIgnoringCase(s[i + j], p[j]) {
        assert SameIgnoringCase(s[i + j], t[i + j]);
      }
    }
  }

  predicate IsDigit(c: char) {
    '0' <= c <= '9'
  }

  function DigitValue(c: char): nat
    requires IsDigit(c)
  {
    c as int - '0' as int
  }

  function DigitChar(d: nat): (c: char)
    requires d < 10
    ensures IsDigit(c) && DigitValue(c) == d
  {
    ('0' as int + d) as char
  }

  /** The decimal form of `n`, as `${n}` renders a non-negative integer. */
  function NatToDecimal(n: nat): (s: string)
    ensures |s| > 0 && forall k :: 0 <= k < |s| ==> IsDigit(s[k])
    ensures s[0] == '0' ==> n == 0
    decreases n
  {
    if n < 10 then [DigitChar(n)] else NatToDecimal(n / 10) + [DigitChar(n % 10)]
  }

  /** The number a string of decimal digits denotes. */
  function DecimalValue(s: string): nat
    requires forall k :: 0 <= k < |s| ==> IsDigit(s[k])
  {
    if |s| == 0 then 0 else DecimalValue(s[..|s| - 1]) * 10 + DigitValue(s[|s| - 1])
  }

  /** Reading the decimal form back gives the number. */
  lemma {:induction false} DecimalRoundTrip(n: nat)
    ensures DecimalValue(NatToDecimal(n)) == n
    decreases n
  {
    if n >= 10 {
      var s := NatToDecimal(n);
      DecimalRoundTrip(n / 10);
      assert s[..|s| - 1] == NatToDecimal(n / 10);
    }
  }
}
